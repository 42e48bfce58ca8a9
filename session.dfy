/**
 * jarvis_main.py: what one command does — `step`, `safe_step`,
 * `retry_step`, `_open_target` and `handle_command` — and the whitelist
 * they consult (`load_whitelist`).
 *
 * Every collaborator call the program makes is recorded, in order, as an
 * `Effect`. Whether a collaborator raises is decided by the `World`, which
 * may take into account everything that happened before the call.
 */
module Session {
  import opened Wrappers
  import opened Text
  import opened Dicts
  import opened Json
  import opened Intents
  import opened Parser
  import Lines
  import Resolver

  datatype Effect =
    | Speak(text: string)                               // say(...)
    | Show(text: string)                                // print(...)
    | ShowHelp                                          // print(HELP_TEXT)
    | ShowIntents                                       // the intents listing
    | Log(action: string, status: string, detail: string) // log_action(...)
    | Call(name: string, args: seq<string>)             // ACTIONS[name](*args)
    | Sleep(delay: string)                              // time.sleep(...)
    | Open(lab: string, target: Json)                 // os.startfile(target)

  /** Whether a collaborator call or an open raises, given what happened
      before it. */
  type Oracle = (seq<Effect>, Effect) -> bool

  /** What the program's surroundings decide. */
  datatype World = World(
    whitelist: set<string>,            // load_whitelist()
    actions: set<string>,              // the names ACTIONS maps to a function
    delays: set<string>,               // the keys of `defaults` whose value `time.sleep` accepts
    fails: Oracle,                     // whether a call or an open raises
    shotPath: string,                  // str(next_screenshot_path(ext=".png"))
    shotName: string,                  // next_screenshot_path(ext=".png").name
    baseName: string -> string)        // os.path.basename

  /** The effects of a step and whether it raised. */
  datatype Run = Run(effects: seq<Effect>, raised: bool)

  /** How `handle_command` ends: `True`, `False`, or an exception. */
  datatype Outcome = KeepGoing | Quit | Raised

  datatype Reaction = Reaction(effects: seq<Effect>, outcome: Outcome)

  /** No collaborator action is called among `es`. */
  predicate NoCalls(es: seq<Effect>) {
    forall e :: e in es ==> !e.Call?
  }

  /** Every call among `es` is `c`. */
  predicate OnlyCalls(es: seq<Effect>, c: Effect) {
    forall e :: e in es && e.Call? ==> e == c
  }

  /** How often `c` happens among `es`. */
  function Count(es: seq<Effect>, c: Effect): nat {
    multiset(es)[c]
  }

  // ---------------------------------------------------------------------
  // Steps
  // ---------------------------------------------------------------------

  function ErrorMessage(announce: string): string {
    "Error: " + announce + ". Check console for details."
  }

  /** `step(announce, action, *args)`: announce, run the action if there is
      one, log the outcome; a failing action is logged, reported and
      re-raised. Elapsed times in the log are not modelled. */
  function Step(hist: seq<Effect>, announce: string, func: Option<string>, args: seq<string>, w: World): (r: Run)
    ensures |r.effects| > 0 && r.effects[0] == Speak(announce)
    ensures func.None? ==> NoCalls(r.effects)
    ensures func.Some? ==> OnlyCalls(r.effects, Call(func.value, args)) && Count(r.effects, Call(func.value, args)) == 1
    ensures r.raised <==> func.Some? && w.fails(hist + [Speak(announce)], Call(func.value, args))
    ensures r.raised ==> r.effects[|r.effects| - 1] == Speak(ErrorMessage(announce))
  {
    var said := [Speak(announce)];
    if func.None? then Run(said + [Log(announce, "SUCCESS", "")], false)
    else
      var call := Call(func.value, args);
      if w.fails(hist + said, call) then
        Run(said + [call, Log(announce, "ERROR", ""), Speak(ErrorMessage(announce))], true)
      else Run(said + [call, Log(announce, "SUCCESS", "")], false)
  }

  function BlockMessage(name: string): string {
    "Blocked. '" + name + "' is not in whitelist."
  }

  /** A name `safe_step` refuses: given, and not in the whitelist. */
  predicate Blocked(name: Option<string>, w: World) {
    name.Some? && name.value != "" && name.value !in w.whitelist
  }

  /** A name `safe_step` calls: given, whitelisted, and with a function. */
  predicate Permitted(name: Option<string>, w: World) {
    name.Some? && name.value != "" && name.value in w.whitelist && name.value in w.actions
  }

  /** `safe_step(action_name, announce, *args)`. */
  function SafeStep(hist: seq<Effect>, name: Option<string>, announce: string, args: seq<string>, w: World): (r: Run)
    ensures Blocked(name, w) ==> r == Run([Speak(BlockMessage(name.value)), Log(announce, "BLOCKED", BlockMessage(name.value))], false)
    ensures !Blocked(name, w) ==> |r.effects| > 0 && r.effects[0] == Speak(announce)
    ensures forall e :: e in r.effects && e.Call? ==> Permitted(name, w) && e == Call(name.value, args)
    ensures Permitted(name, w) ==> Count(r.effects, Call(name.value, args)) == 1
    ensures r.raised <==> Permitted(name, w) && w.fails(hist + [Speak(announce)], Call(name.value, args))
  {
    if Blocked(name, w) then
      var msg := BlockMessage(name.value);
      Run([Speak(msg), Log(announce, "BLOCKED", msg)], false)
    else
      var func := if name.Some? && name.value != "" && name.value in w.actions then name else None;
      Step(hist, announce, func, args, w)
  }

  /** A whitelisted name without a function only announces and logs. */
  lemma SafeStepNoFunction(hist: seq<Effect>, name: string, announce: string, args: seq<string>, w: World)
    requires name != "" && name in w.whitelist && name !in w.actions
    ensures SafeStep(hist, Some(name), announce, args, w) == Run([Speak(announce), Log(announce, "SUCCESS", "")], false)
  {
  }

  function Attempts(retries: int): nat {
    if retries <= 0 then 1 else retries + 1
  }

  /** One try of a step, given the history and the announcement. */
  type Attempt = (seq<Effect>, string) -> Run

  /** The retry loop of `retry_step` around any attempt: after a failure, a
      pause and a retry announced with " (retry)" appended, while retries
      remain. */
  function Retry(hist: seq<Effect>, announce: string, retries: int, attempt: Attempt): Run
    decreases if retries <= 0 then 0 else retries
  {
    var first := attempt(hist, announce);
    if !first.raised || retries <= 0 then first
    else
      var pre := first.effects + [Sleep("wait_s")];
      var rest := Retry(hist + pre, announce + " (retry)", retries - 1, attempt);
      Run(pre + rest.effects, rest.raised)
  }

  /** An attempt that calls `c` at most once, and exactly once when it raises. */
  ghost predicate CallsOnce(attempt: Attempt, c: Effect) {
    forall h, a :: Count(attempt(h, a).effects, c) <= 1 && (attempt(h, a).raised ==> Count(attempt(h, a).effects, c) == 1)
  }

  /** Retrying only repeats the calls each attempt may make. */
  lemma {:induction false} RetryCalls(hist: seq<Effect>, announce: string, retries: int, attempt: Attempt, c: Effect, ok: bool)
    requires forall h, a, e :: e in attempt(h, a).effects && e.Call? ==> ok && e == c
    ensures forall e :: e in Retry(hist, announce, retries, attempt).effects && e.Call? ==> ok && e == c
    decreases if retries <= 0 then 0 else retries
  {
    var first := attempt(hist, announce);
    if first.raised && retries > 0 {
      var h2 := hist + (first.effects + [Sleep("wait_s")]);
      var a2 := announce + " (retry)";
      var n2 := retries - 1;
      RetryCalls(h2, a2, n2, attempt, c, ok);
    }
  }

  /** At most `retries + 1` attempts (one when `retries <= 0`). */
  lemma {:induction false} RetryAtMost(hist: seq<Effect>, announce: string, retries: int, attempt: Attempt, c: Effect)
    requires CallsOnce(attempt, c) && c.Call?
    ensures Count(Retry(hist, announce, retries, attempt).effects, c) <= Attempts(retries)
    decreases if retries <= 0 then 0 else retries
  {
    var first := attempt(hist, announce);
    assert Count(first.effects, c) <= 1;
    if first.raised && retries > 0 {
      var pre := first.effects + [Sleep("wait_s")];
      var h2 := hist + pre;
      var a2 := announce + " (retry)";
      var n2 := retries - 1;
      RetryAtMost(h2, a2, n2, attempt, c);
      var rest := Retry(h2, a2, n2, attempt);
      assert Retry(hist, announce, retries, attempt).effects == pre + rest.effects;
      CountAroundPause(first.effects, rest.effects, c);
      assert Attempts(retries) == Attempts(n2) + 1;
    } else {
      assert Retry(hist, announce, retries, attempt) == first;
    }
  }

  /** A step that still raises after retrying has used every attempt. */
  lemma {:induction false} RetryExhausted(hist: seq<Effect>, announce: string, retries: int, attempt: Attempt, c: Effect)
    requires CallsOnce(attempt, c) && c.Call?
    requires Retry(hist, announce, retries, attempt).raised
    ensures Count(Retry(hist, announce, retries, attempt).effects, c) == Attempts(retries)
    decreases if retries <= 0 then 0 else retries
  {
    var first := attempt(hist, announce);
    if first.raised && retries > 0 {
      var pre := first.effects + [Sleep("wait_s")];
      var h2 := hist + pre;
      var a2 := announce + " (retry)";
      var n2 := retries - 1;
      RetryExhausted(h2, a2, n2, attempt, c);
      var rest := Retry(h2, a2, n2, attempt);
      CountAroundPause(first.effects, rest.effects, c);
    }
  }

  /** The pause between two attempts calls nothing. */
  lemma CountAroundPause(first: seq<Effect>, rest: seq<Effect>, c: Effect)
    requires c.Call?
    ensures Count(first + [Sleep("wait_s")] + rest, c) == Count(first, c) + Count(rest, c)
  {
    assert multiset(first + [Sleep("wait_s")] + rest) == multiset(first) + multiset{Sleep("wait_s")} + multiset(rest);
    assert multiset{Sleep("wait_s")}[c] == 0;
  }

  /** An attempt that succeeds the first time is not retried. */
  lemma RetryFirstSuccess(hist: seq<Effect>, announce: string, retries: int, attempt: Attempt)
    requires !attempt(hist, announce).raised
    ensures Retry(hist, announce, retries, attempt) == attempt(hist, announce)
  {
  }

  /** `safe_step(action_name, announce, *args)` as an attempt. */
  function SafeAttempt(name: string, args: seq<string>, w: World): (f: Attempt)
    ensures forall h, a :: f(h, a) == SafeStep(h, Some(name), a, args, w)
  {
    (h, a) => SafeStep(h, Some(name), a, args, w)
  }

  /** `retry_step(action_name, announce, retries, wait_s, *args)`. The
      recursive call passes `*args` positionally after the announcement
      and `retries` by keyword, so with any extra argument Python binds
      `args[0]` to `retries` twice and raises TypeError after the pause,
      before a second attempt. */
  function RetryStep(hist: seq<Effect>, name: string, announce: string, retries: int, args: seq<string>, w: World): (r: Run)
    ensures forall e :: e in r.effects && e.Call? ==> Permitted(Some(name), w) && e == Call(name, args)
  {
    var attempt := SafeAttempt(name, args, w);
    RetryCalls(hist, announce, retries, attempt, Call(name, args), Permitted(Some(name), w));
    if args == [] then Retry(hist, announce, retries, attempt)
    else
      var first := attempt(hist, announce);
      if !first.raised || retries <= 0 then first
      else Run(first.effects + [Sleep("wait_s")], true)
  }

  /** How many attempts `retry_step` can make: every retry without extra
      arguments, else only the first. */
  function RetryAttempts(retries: int, args: seq<string>): nat {
    if args == [] then Attempts(retries) else 1
  }

  /** With extra arguments a failed first attempt with retries left ends in
      the TypeError of the recursive call: the pause, and no second call. */
  lemma RetryStepArgsRaise(hist: seq<Effect>, name: string, announce: string, retries: int, args: seq<string>, w: World)
    requires args != [] && retries > 0
    requires SafeStep(hist, Some(name), announce, args, w).raised
    ensures var r := RetryStep(hist, name, announce, retries, args, w);
      r.raised && r.effects == SafeStep(hist, Some(name), announce, args, w).effects + [Sleep("wait_s")]
  {
  }

  /** `safe_step` calls its action at most once, and exactly once when it
      raises. */
  lemma SafeStepOnce(name: string, args: seq<string>, w: World)
    ensures CallsOnce(SafeAttempt(name, args, w), Call(name, args))
  {
    forall h, a ensures Count(SafeStep(h, Some(name), a, args, w).effects, Call(name, args)) <= 1 {
      var r := SafeStep(h, Some(name), a, args, w);
      if !Permitted(Some(name), w) {
        assert Call(name, args) !in r.effects;
      }
    }
  }

  /** `retry_step` calls the action at most `retries + 1` times without
      extra arguments and at most once with them, and a step that still
      raises has been tried that many times. */
  lemma RetryStepAttempts(hist: seq<Effect>, name: string, announce: string, retries: int, args: seq<string>, w: World)
    ensures var r := RetryStep(hist, name, announce, retries, args, w);
      Count(r.effects, Call(name, args)) <= RetryAttempts(retries, args) &&
      (r.raised ==> Count(r.effects, Call(name, args)) == RetryAttempts(retries, args))
  {
    var c := Call(name, args);
    SafeStepOnce(name, args, w);
    if args == [] {
      RetryAtMost(hist, announce, retries, SafeAttempt(name, args, w), c);
      if RetryStep(hist, name, announce, retries, args, w).raised {
        RetryExhausted(hist, announce, retries, SafeAttempt(name, args, w), c);
      }
    } else {
      var first := SafeStep(hist, Some(name), announce, args, w);
      assert Count(first.effects, c) <= 1 && (first.raised ==> Count(first.effects, c) == 1);
      if first.raised && retries > 0 {
        CountAroundPause(first.effects, [], c);
        assert first.effects + [Sleep("wait_s")] + [] == first.effects + [Sleep("wait_s")];
      }
    }
  }

  // ---------------------------------------------------------------------
  // Opening an intent
  // ---------------------------------------------------------------------

  /** `_open_target(label, target)`: open it and log the outcome; a failure
      is logged and re-raised. */
  function OpenTarget(hist: seq<Effect>, lab: string, target: Json, fails: Oracle): (r: Reaction)
    ensures r.outcome != Quit && NoCalls(r.effects)
    ensures |r.effects| == 2 && r.effects[0] == Open(lab, target)
    ensures r.outcome == Raised <==> fails(hist, Open(lab, target))
    ensures r.effects[1].Log? && r.effects[1].action == "Open Target"
    ensures r.effects[1].status == (if r.outcome == Raised then "ERROR" else "SUCCESS")
  {
    var e := Open(lab, target);
    if fails(hist, e) then Reaction([e, Log("Open Target", "ERROR", lab)], Raised)
    else Reaction([e, Log("Open Target", "SUCCESS", lab + " -> " + Str(target))], KeepGoing)
  }

  /** An entry that is present: refuse it when disabled, otherwise announce
      it and open its target. */
  function OpenEntry(hist: seq<Effect>, lab: string, meta: Entry, fails: Oracle): (r: Reaction)
    ensures r.outcome != Quit && NoCalls(r.effects)
    ensures !meta.enabled ==> r == Reaction([Speak("'" + lab + "' is disabled in intents.")], KeepGoing)
    ensures meta.enabled ==> |r.effects| == 3 && r.effects[0] == Speak("Opening " + lab + ".") && r.effects[1] == Open(lab, meta.target)
  {
    if !meta.enabled then Reaction([Speak("'" + lab + "' is disabled in intents.")], KeepGoing)
    else
      var said := [Speak("Opening " + lab + ".")];
      var reply := OpenTarget(hist + said, lab, meta.target, fails);
      Reaction(said + reply.effects, reply.outcome)
  }

  /** `__open_app__` / `__open_site__`: look the normalised label up in its
      group; `kind` is "app" or "site", `Kind` its capitalised form. */
  function OpenLabel(hist: seq<Effect>, kind: string, Kind: string, group: Dict<Entry>, announce: Option<string>, fails: Oracle): (r: Reaction)
    ensures r.outcome != Quit && NoCalls(r.effects)
    ensures var lab := Norm(announce.GetOr(""));
      Get(group, lab).None? ==> r == Reaction([Speak("No " + kind + " intent found for '" + lab + "'."), Log("Open " + Kind, "MISSING", lab)], KeepGoing)
    ensures var lab := Norm(announce.GetOr(""));
      Get(group, lab).Some? ==> r == OpenEntry(hist, lab, Get(group, lab).value, fails)
  {
    var lab := Norm(announce.GetOr(""));
    var meta := Get(group, lab);
    if meta.None? then
      Reaction([Speak("No " + kind + " intent found for '" + lab + "'."), Log("Open " + Kind, "MISSING", lab)], KeepGoing)
    else OpenEntry(hist, lab, meta.value, fails)
  }

  const SORRY := "Sorry, I didn't catch that. Say 'help' for commands."
  const UNKNOWN_LINE := "Unknown command. Say 'help' for the list."

  /** The reply to a command nothing understood. */
  const NotCaught := Reaction([Speak(SORRY), Show(UNKNOWN_LINE)], KeepGoing)

  /** `intents[group][label]` after a resolver answered `label`: a label
      that only the built-in aliases know raises KeyError. */
  function OpenResolved(hist: seq<Effect>, group: Dict<Entry>, lab: string, fails: Oracle): (r: Reaction)
    ensures r.outcome != Quit && NoCalls(r.effects)
    ensures Get(group, lab).None? ==> r == Reaction([], Raised)
  {
    match Get(group, lab)
    case None => Reaction([], Raised)
    case Some(meta) => OpenEntry(hist, lab, meta, fails)
  }

  /** `__internal_unknown__`: try the text once more as a site, then as an
      app, before giving up. */
  function HandleUnknown(hist: seq<Effect>, announce: Option<string>, intents: Intents, app: Resolve, site: Resolve, fails: Oracle): (r: Reaction)
    ensures r.outcome != Quit && NoCalls(r.effects)
    ensures var spoken := Norm(announce.GetOr(""));
      spoken == "" || Unresolved(spoken, app, site) ==> r == NotCaught
  {
    var spoken := Norm(announce.GetOr(""));
    if spoken == "" then NotCaught
    else if Parser.Truthy(site(spoken)) then OpenResolved(hist, intents.sites, site(spoken).value, fails)
    else if Parser.Truthy(app(spoken)) then OpenResolved(hist, intents.apps, app(spoken).value, fails)
    else NotCaught
  }

  // ---------------------------------------------------------------------
  // Commands
  // ---------------------------------------------------------------------

  function FromRun(r: Run): (x: Reaction)
    ensures x.effects == r.effects && (x.outcome == Raised <==> r.raised) && x.outcome != Quit
  {
    Reaction(r.effects, if r.raised then Raised else KeepGoing)
  }

  /** A step followed by `time.sleep(defaults[key])`; a missing key, or a
      value the sleep refuses, raises. */
  function Delayed(r: Run, key: string, w: World): (x: Reaction)
    ensures x.outcome != Quit
    ensures x.outcome == KeepGoing <==> !r.raised && key in w.delays
    ensures x.effects == if x.outcome == KeepGoing then r.effects + [Sleep(key)] else r.effects
  {
    if r.raised then Reaction(r.effects, Raised)
    else if key in w.delays then Reaction(r.effects + [Sleep(key)], KeepGoing)
    else Reaction(r.effects, Raised)
  }

  /** A screenshot step, then the announcement of the file name and a log
      line, both of which follow whether or not the step was allowed. */
  function Screenshot(r: Run, name: string): (x: Reaction)
    ensures x.outcome != Quit && (x.outcome == Raised <==> r.raised)
    ensures x.effects == if r.raised then r.effects else r.effects + [Speak("Screenshot saved as " + name + "."), Log("Screenshot", "SUCCESS", name)]
  {
    var after := [Speak("Screenshot saved as " + name + "."), Log("Screenshot", "SUCCESS", name)];
    if r.raised then Reaction(r.effects, Raised) else Reaction(r.effects + after, KeepGoing)
  }

  /** Only whitelisted actions that have a function are ever called. */
  predicate Gated(es: seq<Effect>, w: World) {
    forall e :: e in es && e.Call? ==> e.name in w.whitelist && e.name in w.actions
  }

  /** `__internal_say__`: speak the stripped text, if any, as a step. */
  function HandleSay(hist: seq<Effect>, announce: Option<string>, w: World): (r: Reaction)
    ensures r.outcome == KeepGoing && NoCalls(r.effects)
    ensures Strip(announce.GetOr("")) == "" <==> r.effects == []
  {
    var msg := Strip(announce.GetOr(""));
    if msg == "" then Reaction([], KeepGoing) else FromRun(Step(hist, msg, None, [], w))
  }

  /** `__type_text__`: type the stripped text through `safe_step`. */
  function HandleType(hist: seq<Effect>, announce: Option<string>, w: World): (r: Reaction)
    ensures r.outcome != Quit && Gated(r.effects, w)
    ensures Strip(announce.GetOr("")) == "" ==> r == Reaction([Speak("Nothing to type.")], KeepGoing)
    ensures Strip(announce.GetOr("")) != "" ==>
      r == FromRun(SafeStep(hist, Some("type_text"), "Typing: " + Strip(announce.GetOr("")), [Strip(announce.GetOr(""))], w))
  {
    var text := Strip(announce.GetOr(""));
    if text == "" then Reaction([Speak("Nothing to type.")], KeepGoing)
    else FromRun(SafeStep(hist, Some("type_text"), "Typing: " + text, [text], w))
  }

  /** `take_screenshot`: the path given, or the next free one. */
  function ShotPath(args: Option<seq<string>>, w: World): (path: string)
    ensures args.Some? && args.value != [] ==> path == args.value[0]
    ensures args.None? || args.value == [] ==> path == w.shotPath
  {
    if args.Some? && args.value != [] then args.value[0] else w.shotPath
  }

  /** `handle_command` on the parsed command `p`, with `app` and `site` the
      resolvers the parser used; `hist` is what happened earlier. */
  function HandleParsed(hist: seq<Effect>, p: Parsed, intents: Intents, app: Resolve, site: Resolve, w: World): (r: Reaction)
    ensures r.outcome == Quit <==> p.action == Exit
    ensures Gated(r.effects, w)
  {
    match p.action
    case Help => Reaction([ShowHelp], KeepGoing)
    case Exit => Reaction([], Quit)
    case ListIntents => Reaction([ShowIntents], KeepGoing)
    case Say => HandleSay(hist, p.announce, w)
    case TypeText => HandleType(hist, p.announce, w)
    case ShotAuto =>
      Screenshot(SafeStep(hist, Some("take_screenshot"), "Taking a screenshot.", [w.shotPath], w), w.shotName)
    case Unknown => HandleUnknown(hist, p.announce, intents, app, site, w.fails)
    case OpenVscode =>
      Delayed(SafeStep(hist, Some("open_vscode"), "Opening Visual Studio Code.", [], w), "delay_vscode", w)
    case OpenYoutube =>
      Delayed(SafeStep(hist, Some("open_youtube"), "Opening YouTube in the default browser.", [], w), "delay_youtube", w)
    case TypingTest =>
      Delayed(RetryStep(hist, "typing_test", "Typing a test sentence in the active window.", 1, [], w), "delay_typing", w)
    case TakeScreenshot =>
      var path := ShotPath(p.args, w);
      Screenshot(SafeStep(hist, Some("take_screenshot"), "Taking a screenshot.", [path], w), w.baseName(path))
    case OpenApp => OpenLabel(hist, "app", "App", intents.apps, p.announce, w.fails)
    case OpenSite => OpenLabel(hist, "site", "Site", intents.sites, p.announce, w.fails)
    case Other(_) => Reaction([Speak("That action is not available.")], KeepGoing)
  }

  /** `handle_command(raw, screenshot_name, defaults, intents)`. */
  function HandleCommand(hist: seq<Effect>, raw: string, intents: Intents, w: World): Reaction {
    HandleParsed(hist, ParseCommand(raw, intents), intents, AppResolver(intents), SiteResolver(intents), w)
  }

  // ---------------------------------------------------------------------
  // Properties of a whole command
  // ---------------------------------------------------------------------

  /** The session ends exactly on an exit word; every other command,
      understood or not, lets it go on unless a collaborator raised. */
  lemma QuitOnExitWords(hist: seq<Effect>, raw: string, intents: Intents, w: World)
    ensures HandleCommand(hist, raw, intents, w).outcome == Quit <==> Lower(Strip(raw)) in EXIT_WORDS
  {
    ParseExit(raw, AppResolver(intents), SiteResolver(intents));
  }

  /** Every collaborator action a command calls is whitelisted. */
  lemma CommandGated(hist: seq<Effect>, raw: string, intents: Intents, w: World)
    ensures Gated(HandleCommand(hist, raw, intents, w).effects, w)
  {
  }

  /** The second resolution attempt for an unknown command can never
      succeed: the parser already tried the same text with the same
      resolvers, so an unknown command always gets the apology. */
  lemma UnknownIsNotCaught(hist: seq<Effect>, raw: string, intents: Intents, w: World)
    requires ParseCommand(raw, intents).action == Unknown
    ensures HandleCommand(hist, raw, intents, w) == NotCaught
  {
    var app, site := AppResolver(intents), SiteResolver(intents);
    var p := ParseWith(raw, app, site);
    assert ParseCommand(raw, intents) == p;
    ParseUnknown(raw, app, site);
    if p.announce.Some? {
      var x := p.announce.value;
      ResolversRespoken(intents, x);
      assert app(Norm(x)) == app(x) && site(Norm(x)) == site(x);
    }
    UnresolvedNotCaught(hist, p, intents, app, site, w);
    assert HandleCommand(hist, raw, intents, w) == HandleParsed(hist, p, intents, app, site, w);
  }

  /** An unknown command whose normalised text neither resolver knows gets
      the apology. */
  lemma UnresolvedNotCaught(hist: seq<Effect>, p: Parsed, intents: Intents, app: Resolve, site: Resolve, w: World)
    requires p.action == Unknown
    requires p.announce.Some? ==> Unresolved(Norm(p.announce.value), app, site)
    ensures HandleParsed(hist, p, intents, app, site, w) == NotCaught
  {
  }

  /** A command that would type outside the whitelist only hears that it is
      blocked; nothing is called. */
  lemma BlockedTyping(hist: seq<Effect>, text: string, intents: Intents, app: Resolve, site: Resolve, w: World)
    requires "type_text" !in w.whitelist && Strip(text) != ""
    ensures HandleParsed(hist, Parsed(TypeText, Some(text), None), intents, app, site, w) ==
      Reaction([Speak(BlockMessage("type_text")), Log("Typing: " + Strip(text), "BLOCKED", BlockMessage("type_text"))], KeepGoing)
  {
  }

  /** The screenshot is announced as saved even when the step was blocked. */
  lemma ShotAnnouncedWhenBlocked(hist: seq<Effect>, intents: Intents, app: Resolve, site: Resolve, w: World)
    requires "take_screenshot" !in w.whitelist
    ensures var r := HandleParsed(hist, Parsed(ShotAuto, Some("Taking a screenshot."), None), intents, app, site, w);
      NoCalls(r.effects) && r.effects[|r.effects| - 2] == Speak("Screenshot saved as " + w.shotName + ".")
  {
  }

  /** Opening an intent does not consult the whitelist: the same command
      does the same whatever the whitelist holds. */
  lemma OpenIgnoresWhitelist(hist: seq<Effect>, p: Parsed, intents: Intents, app: Resolve, site: Resolve, w: World, allowed: set<string>)
    requires p.action in {OpenApp, OpenSite, Unknown}
    ensures HandleParsed(hist, p, intents, app, site, w) == HandleParsed(hist, p, intents, app, site, w.(whitelist := allowed))
  {
  }

  /** A disabled app is only refused; its target is not opened. */
  lemma DisabledAppRefused(hist: seq<Effect>, lab: string, intents: Intents, app: Resolve, site: Resolve, w: World)
    requires Get(intents.apps, Norm(lab)).Some? && !Get(intents.apps, Norm(lab)).value.enabled
    ensures HandleParsed(hist, Parsed(OpenApp, Some(lab), None), intents, app, site, w) ==
      Reaction([Speak("'" + Norm(lab) + "' is disabled in intents.")], KeepGoing)
  {
  }

  /** An enabled app is announced and then opened. */
  lemma EnabledAppOpened(hist: seq<Effect>, lab: string, intents: Intents, app: Resolve, site: Resolve, w: World)
    requires Get(intents.apps, Norm(lab)).Some? && Get(intents.apps, Norm(lab)).value.enabled
    ensures var r := HandleParsed(hist, Parsed(OpenApp, Some(lab), None), intents, app, site, w);
      |r.effects| == 3 && r.effects[0] == Speak("Opening " + Norm(lab) + ".") &&
      r.effects[1] == Open(Norm(lab), Get(intents.apps, Norm(lab)).value.target)
  {
  }

  // ---------------------------------------------------------------------
  // The whitelist file
  // ---------------------------------------------------------------------

  /** What `load_whitelist` writes when the file is missing. */
  const DEFAULT_WHITELIST := "open_vscode\nopen_youtube\ntyping_test\ntake_screenshot\nsay\ntype_text\n"

  /** `load_whitelist()`, given the file's text or None when it is missing. */
  method LoadWhitelist(file: Option<string>) returns (cmds: set<string>)
    ensures cmds == Lines.Commands(Lines.SplitLines(file.GetOr(DEFAULT_WHITELIST)))
  {
    var text := if file.Some? then file.value else DEFAULT_WHITELIST;
    cmds := Lines.CollectCommands(Lines.SplitLines(text));
  }
}
