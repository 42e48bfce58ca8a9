/**
 * jarvis_main.py: `parse_command`, the ordered cascade of command shapes.
 *
 * The command is stripped first; every shape below is matched against the
 * stripped text. The regular expressions the source uses are written out as
 * the matchers they amount to on stripped text: a keyword (compared
 * case-insensitively), a whitespace run, and a rest of line without a line
 * break.
 */
module Parser {
  import opened Wrappers
  import opened Text
  import opened Intents
  import Resolver

  /** `(action, announce, args)`; `args` is None or the empty list. */
  datatype Parsed = Parsed(action: Action, announce: Option<string>, args: Option<seq<string>>)

  /** The action names `parse_command` and `handle_command` agree on. */
  datatype Action =
    | Help | Exit | ListIntents | Say | TypeText | ShotAuto | OpenApp | OpenSite | Unknown
    | OpenVscode | OpenYoutube | TypingTest | TakeScreenshot
    | Other(name: string)

  /** The action's name in the source. */
  function Name(a: Action): string {
    match a
    case Help => "__internal_help__"
    case Exit => "__internal_exit__"
    case ListIntents => "__internal_intents__"
    case Say => "__internal_say__"
    case TypeText => "__type_text__"
    case ShotAuto => "__take_screenshot_auto__"
    case OpenApp => "__open_app__"
    case OpenSite => "__open_site__"
    case Unknown => "__internal_unknown__"
    case OpenVscode => "open_vscode"
    case OpenYoutube => "open_youtube"
    case TypingTest => "typing_test"
    case TakeScreenshot => "take_screenshot"
    case Other(n) => n
  }

  /** The texts `re.fullmatch(..., flags=re.IGNORECASE)` accepts, lower-cased. */
  const HELP_WORDS: set<string> := {"help", "?"}
  const EXIT_WORDS: set<string> := {"stop", "exit", "quit"}
  const INTENTS_WORDS: set<string> :=
    {"intent", "intents", "intense", "show intent", "show intents", "list intent", "list intents"}

  /** Every text `MetaCommand` recognises. */
  const META_PHRASES: set<string> :=
    HELP_WORDS + EXIT_WORDS + INTENTS_WORDS + {"open vscode", "open youtube", "screenshot"}

  /** `word\s+` at the start of `s`, the word compared case-insensitively:
      what follows the whole whitespace run. */
  function AfterWord(s: string, word: string): (r: Option<string>)
    ensures r.Some? ==> |r.value| < |s| && r.value == s[|s| - |r.value|..]
  {
    if |s| > |word| && Lower(s[..|word|]) == word && IsSpace(s[|word|]) then Some(LStrip(s[|word|..]))
    else None
  }

  /** `(.+)$`: a non-empty rest without a line break. */
  function RestOfLine(t: Option<string>): Option<string> {
    if t.Some? && t.value != "" && '\n' !in t.value then t else None
  }

  /** `^\s*say\s+(.+)$` and the like, with one keyword. */
  function Match1(s: string, word: string): Option<string> {
    RestOfLine(AfterWord(LStrip(s), word))
  }

  /** `^\s*open\s+app\s+(.+)$` and the like, with two keywords. */
  function Match2(s: string, first: string, second: string): Option<string> {
    var t := AfterWord(LStrip(s), first);
    if t.None? then None else RestOfLine(AfterWord(t.value, second))
  }

  /** `label or label_spoken`. */
  function OrSpoken(resolved: Option<string>, spoken: string): string {
    if resolved.Some? && resolved.value != "" then resolved.value else spoken
  }

  /** A resolved label that is truthy (present and non-empty). */
  predicate Truthy(resolved: Option<string>) {
    resolved.Some? && resolved.value != ""
  }

  /** The shapes matched on the whole lower-cased command: help, exit, the
      intents listing, the two quick demos and the screenshot, in this order
      (the last test, for "screenshot", is the only phrase left by then). */
  function MetaCommand(low: string): (p: Option<Parsed>)
    ensures p.Some? <==> low in META_PHRASES
  {
    if low !in META_PHRASES then None
    else if low in HELP_WORDS then Some(Parsed(Help, None, None))
    else if low in EXIT_WORDS then Some(Parsed(Exit, None, None))
    else if low in INTENTS_WORDS then Some(Parsed(ListIntents, None, None))
    else if low == "open vscode" then Some(Parsed(OpenVscode, Some("Opening Visual Studio Code."), Some([])))
    else if low == "open youtube" then Some(Parsed(OpenYoutube, Some("Opening YouTube in the default browser."), Some([])))
    else Some(Parsed(ShotAuto, Some("Taking a screenshot."), None))
  }

  /** How a spoken label is resolved to an app or a site label. */
  type Resolve = string -> Option<string>

  /** `open <x>`: sites are tried before apps; when neither resolves to a
      truthy label the spoken text is handed back as unknown. */
  function OpenAnything(spoken: string, app: Resolve, site: Resolve): (p: Parsed)
    ensures p.action in {OpenSite, OpenApp, Unknown} && p.announce.Some? && p.args.None?
  {
    if Truthy(site(spoken)) then Parsed(OpenSite, site(spoken), None)
    else if Truthy(app(spoken)) then Parsed(OpenApp, app(spoken), None)
    else Parsed(Unknown, Some(spoken), None)
  }

  /** Which keyword shape a stripped command has, with its stripped text. */
  datatype Shape =
    | SayWhat(m: string) | TypeWhat(m: string)
    | AppNamed(x: string) | SiteNamed(x: string) | OpenWhat(x: string)
    | NoShape

  /** The keyword shapes, tried in order on the stripped command. */
  function Classify(s: string): Shape {
    if Match1(s, "say").Some? then SayWhat(Strip(Match1(s, "say").value))
    else if Match1(s, "type").Some? then TypeWhat(Strip(Match1(s, "type").value))
    else if Match2(s, "open", "app").Some? then AppNamed(Strip(Match2(s, "open", "app").value))
    else if Match2(s, "open", "site").Some? then SiteNamed(Strip(Match2(s, "open", "site").value))
    else if Match1(s, "open").Some? then OpenWhat(Strip(Match1(s, "open").value))
    else NoShape
  }

  /** The result each keyword shape returns. */
  function Build(sh: Shape, app: Resolve, site: Resolve): (p: Parsed)
    ensures p.args.None?
    ensures p.action in {Say, TypeText, OpenApp, OpenSite, Unknown}
    ensures p.action == Unknown && p.announce.Some? ==> Unresolved(p.announce.value, app, site)
  {
    match sh
    case SayWhat(m) => Parsed(Say, Some(m), None)
    case TypeWhat(m) => Parsed(TypeText, Some(m), None)
    case AppNamed(x) => Parsed(OpenApp, Some(OrSpoken(app(x), x)), None)
    case SiteNamed(x) => Parsed(OpenSite, Some(OrSpoken(site(x), x)), None)
    case OpenWhat(x) => OpenAnything(x, app, site)
    case NoShape => Parsed(Unknown, None, None)
  }

  function ShapeCommand(s: string, app: Resolve, site: Resolve): Parsed {
    Build(Classify(s), app, site)
  }

  /** The cascade of `parse_command` for any way of resolving labels. */
  function ParseWith(cmd: string, app: Resolve, site: Resolve): Parsed {
    var s := Strip(cmd);
    var meta := MetaCommand(Lower(s));
    if meta.Some? then meta.value else ShapeCommand(s, app, site)
  }

  /** `parse_command(cmd, screenshot_name, intents)`: labels are resolved by
      `_resolve_from_entries` against the loaded intents and the built-in
      alias indexes. The screenshot name is not used by the source. */
  function ParseCommand(cmd: string, intents: Intents): Parsed {
    ParseWith(cmd, AppResolver(intents), SiteResolver(intents))
  }

  /** `_resolve_from_entries(spoken, intents["apps"], ALIASES_APP_INDEX)`. */
  function AppResolver(intents: Intents): Resolve {
    s => Resolver.Resolve(s, intents.apps, ALIASES_APP_INDEX)
  }

  /** `_resolve_from_entries(spoken, intents["sites"], ALIASES_SITE_INDEX)`. */
  function SiteResolver(intents: Intents): Resolve {
    s => Resolver.Resolve(s, intents.sites, ALIASES_SITE_INDEX)
  }

  /** Both resolvers normalise what they are given, so normalising first
      changes nothing. */
  lemma ResolversRespoken(intents: Intents, x: string)
    ensures AppResolver(intents)(Norm(x)) == AppResolver(intents)(x)
    ensures SiteResolver(intents)(Norm(x)) == SiteResolver(intents)(x)
  {
    Resolver.ResolveRespoken(x, intents.apps, ALIASES_APP_INDEX);
    Resolver.ResolveRespoken(x, intents.sites, ALIASES_SITE_INDEX);
  }

  // ---------------------------------------------------------------------
  // The shapes, stated on commands built from their parts
  // ---------------------------------------------------------------------

  /** A rest of line: non-empty, trimmed, without a line break. */
  predicate Rest(m: string) {
    m != "" && IsStripped(m) && '\n' !in m
  }

  /** A keyword: lower-case, non-empty, free of whitespace. */
  predicate Keyword(w: string) {
    w != "" && IsLower(w) && forall i :: 0 <= i < |w| ==> !IsSpace(w[i])
  }

  lemma JoinStripped(w: string, m: string)
    requires Keyword(w) && Rest(m)
    ensures Strip(w + " " + m) == w + " " + m
    ensures LStrip(w + " " + m) == w + " " + m
  {
    var s := w + " " + m;
    assert s[0] == w[0] && s[|s| - 1] == m[|m| - 1];
    StripOfStripped(s);
  }

  lemma AfterKeyword(w: string, m: string)
    requires Keyword(w) && Rest(m)
    ensures AfterWord(w + " " + m, w) == Some(m)
  {
    var s := w + " " + m;
    assert s[..|w|] == w;
    LowerIdempotent(w);
    assert s[|w|] == ' ';
    assert s[|w|..] == [' '] + m;
    assert LStrip(m) == m;
  }

  /** The lower-cased command starts with `w` and then a space. */
  lemma LowerJoin(w: string, m: string)
    requires Keyword(w)
    ensures Lower(w + " " + m) == w + " " + Lower(m)
  {
    LowerIdempotent(w);
    assert Lower(w + " " + m) == Lower(w) + Lower(" ") + Lower(m);
  }

  lemma Keywords()
    ensures Keyword("say") && Keyword("type") && Keyword("open") && Keyword("app") && Keyword("site")
  {
  }

  /** The only meta phrases opening with "op" are the two quick demos. */
  lemma OpenMetaPhrases()
    ensures forall l :: l in META_PHRASES && |l| >= 2 && l[0] == 'o' && l[1] == 'p' ==> l in {"open vscode", "open youtube"}
  {
    ShortWordsFirst();
    IntentsWordsFirst();
    assert "screenshot"[0] == 's';
  }

  lemma ShortWordsFirst()
    ensures forall l :: l in HELP_WORDS + EXIT_WORDS ==> |l| < 2 || l[0] != 'o'
  {
    forall l | l in HELP_WORDS + EXIT_WORDS ensures |l| < 2 || l[0] != 'o' { }
  }

  lemma IntentsWordsFirst()
    ensures forall l :: l in INTENTS_WORDS ==> l[0] != 'o'
  {
    forall l | l in INTENTS_WORDS ensures l[0] != 'o' { }
  }

  /** "open vscode" is the first quick demo. */
  lemma VscodeDemo()
    ensures MetaCommand("open vscode").Some? && MetaCommand("open vscode").value.action == OpenVscode
  {
    assert "open vscode" !in HELP_WORDS + EXIT_WORDS by { ShortWordsFirst(); }
    assert "open vscode" !in INTENTS_WORDS by { IntentsWordsFirst(); }
  }

  /** `open m` is a meta phrase only for the two quick demos. */
  lemma NotMetaOpen(m: string)
    requires Rest(m) && Lower(m) != "vscode" && Lower(m) != "youtube"
    ensures MetaCommand(Lower("open" + " " + m)).None?
  {
    Keywords();
    var t := Lower(m);
    LowerJoin("open", m);
    var low := "open " + t;
    assert Lower("open" + " " + m) == low;
    assert low[0] == 'o' && low[1] == 'p';
    OpenDemoText(t);
    NotMetaOp(low);
  }

  lemma NotMetaOp(low: string)
    requires |low| >= 2 && low[0] == 'o' && low[1] == 'p'
    requires low != "open vscode" && low != "open youtube"
    ensures low !in META_PHRASES
  {
    OpenMetaPhrases();
  }

  /** The quick demos are "open " followed by their site name. */
  lemma OpenDemoText(t: string)
    ensures "open " + t == "open vscode" ==> t == "vscode"
    ensures "open " + t == "open youtube" ==> t == "youtube"
  {
    assert "open vscode" == "open " + "vscode";
    assert "open youtube" == "open " + "youtube";
    if "open " + t == "open vscode" || "open " + t == "open youtube" {
      assert t == ("open " + t)[5..];
    }
  }

  /** No meta phrase starts with "say " or "type ". */
  lemma MetaPhrasesStart(w: string)
    requires w in {"say", "type"}
    ensures forall l :: l in META_PHRASES ==> !StartsWith(l, w + " ")
  {
    forall l | l in META_PHRASES
      ensures |l| < 2 || (l[0], l[1]) !in {('s', 'a'), ('t', 'y')}
    {
    }
    assert (w + " ")[0] == w[0] && (w + " ")[1] == w[1];
  }

  /** A command opening with "say " or "type " is no meta phrase. */
  lemma NotMeta(w: string, m: string)
    requires w in {"say", "type"} && Rest(m)
    ensures MetaCommand(Lower(w + " " + m)).None?
  {
    LowerJoin(w, m);
    var low := Lower(w + " " + m);
    assert low[..|w| + 1] == w + " ";
    MetaPhrasesStart(w);
  }

  lemma Match1Keyword(w: string, m: string)
    requires Keyword(w) && Rest(m)
    ensures Match1(w + " " + m, w) == Some(m)
  {
    JoinStripped(w, m);
    AfterKeyword(w, m);
  }

  lemma Match1Other(w: string, m: string, v: string)
    requires Keyword(w) && Rest(m) && v != "" && IsLower(v) && v[0] != w[0]
    ensures Match1(w + " " + m, v).None?
  {
    JoinStripped(w, m);
    AfterKeywordMiss(w, m, v);
  }

  /** A command whose first word is `w` does not start with another keyword
      `v` that differs from `w` in its first letter. */
  lemma AfterKeywordMiss(w: string, m: string, v: string)
    requires Keyword(w) && Rest(m) && v != "" && IsLower(v) && v[0] != w[0]
    ensures AfterWord(w + " " + m, v).None?
  {
    var s := w + " " + m;
    if |s| > |v| {
      assert Lower(s[..|v|])[0] == s[0] == w[0];
    }
  }

  /** The keyword matches on `open <m>`: neither "say" nor "type" applies,
      and the general `open` shape sees `m`. */
  lemma OpenMatches(m: string)
    requires Rest(m)
    ensures Match1("open" + " " + m, "say").None? && Match1("open" + " " + m, "type").None?
    ensures Match1("open" + " " + m, "open") == Some(m)
    ensures AfterWord(LStrip("open" + " " + m), "open") == Some(m)
  {
    Keywords();
    Match1Other("open", m, "say");
    Match1Other("open", m, "type");
    Match1Keyword("open", m);
    JoinStripped("open", m);
    AfterKeyword("open", m);
  }

  /** `open <w> <x>` for a keyword `w` is no meta phrase. */
  lemma OpenKeywordNotMeta(w: string, x: string)
    requires Keyword(w) && Rest(x) && w[0] != 'v' && w[0] != 'y'
    ensures Rest(w + " " + x)
    ensures MetaCommand(Lower(Strip("open" + " " + (w + " " + x)))).None?
  {
    var m := w + " " + x;
    Keywords();
    JoinStripped(w, x);
    JoinStripped("open", m);
    assert Lower(m) != "vscode" && Lower(m) != "youtube" by {
      LowerJoin(w, x);
      assert Lower(m)[0] == w[0];
    }
    NotMetaOpen(m);
  }

  /** The matches on `open app <x>`. */
  lemma OpenAppMatches(x: string)
    requires Rest(x)
    ensures var s := "open" + " " + ("app" + " " + x);
      Match1(s, "say").None? && Match1(s, "type").None? && Match2(s, "open", "app") == Some(x)
  {
    var m := "app" + " " + x;
    Keywords();
    JoinStripped("app", x);
    OpenMatches(m);
    AfterKeyword("app", x);
    StripOfStripped(x);
  }

  /** The matches on `open site <x>`. */
  lemma OpenSiteMatches(x: string)
    requires Rest(x)
    ensures var s := "open" + " " + ("site" + " " + x);
      Match1(s, "say").None? && Match1(s, "type").None? && Match2(s, "open", "app").None? &&
      Match2(s, "open", "site") == Some(x)
  {
    var m := "site" + " " + x;
    Keywords();
    JoinStripped("site", x);
    OpenMatches(m);
    AfterKeywordMiss("site", x, "app");
    AfterKeyword("site", x);
  }

  /** A command whose text after stripping cannot begin with `w`: `w`'s
      first letter differs from the command's, in any case. */
  lemma FirstLetterMiss(s: string, w: string)
    requires s != "" && IsStripped(s) && w != "" && LowerChar(s[0]) != w[0]
    ensures Match1(s, w).None? && Match2(s, w, "app").None? && Match2(s, w, "site").None?
  {
    assert LStrip(s) == s;
    if |s| > |w| {
      assert Lower(s[..|w|])[0] == LowerChar(s[0]);
    }
  }

  /** The cascade, with the keyword shapes' results left to `Build`. */
  /** A stripped command that is no meta phrase is parsed by its shape. */
  lemma ParseShaped(cmd: string, app: Resolve, site: Resolve, sh: Shape)
    requires Strip(cmd) == cmd && MetaCommand(Lower(cmd)).None? && Classify(cmd) == sh
    ensures ParseWith(cmd, app, site) == Build(sh, app, site)
  {
    ParseSplit(cmd, app, site);
    var s := Strip(cmd);
    assert MetaCommand(Lower(s)).None? && Classify(s) == sh;
  }

  /** No meta phrase is unknown. */
  lemma MetaKnown(low: string)
    ensures MetaCommand(low).Some? ==> MetaCommand(low).value.action != Unknown
  {
  }

  lemma ParseSplit(cmd: string, app: Resolve, site: Resolve)
    ensures var meta := MetaCommand(Lower(Strip(cmd)));
      ParseWith(cmd, app, site) == if meta.Some? then meta.value else Build(Classify(Strip(cmd)), app, site)
  {
  }

  lemma ClassifySay(m: string)
    requires Rest(m)
    ensures Classify("say" + " " + m) == SayWhat(m)
  {
    Keywords();
    Match1Keyword("say", m);
    StripOfStripped(m);
  }

  lemma ClassifyType(m: string)
    requires Rest(m)
    ensures Classify("type" + " " + m) == TypeWhat(m)
  {
    Keywords();
    Match1Other("type", m, "say");
    Match1Keyword("type", m);
    StripOfStripped(m);
  }

  lemma ClassifyApp(x: string)
    requires Rest(x)
    ensures Classify("open" + " " + ("app" + " " + x)) == AppNamed(x)
  {
    OpenAppMatches(x);
    StripOfStripped(x);
  }

  lemma ClassifySite(x: string)
    requires Rest(x)
    ensures Classify("open" + " " + ("site" + " " + x)) == SiteNamed(x)
  {
    OpenSiteMatches(x);
    StripOfStripped(x);
  }

  lemma ClassifyOpen(x: string)
    requires Rest(x) && AfterWord(x, "app").None? && AfterWord(x, "site").None?
    ensures Classify("open" + " " + x) == OpenWhat(x)
  {
    OpenMatches(x);
    StripOfStripped(x);
  }

  lemma ClassifyNone(s: string)
    requires s == "" || (IsStripped(s) && LowerChar(s[0]) !in {'s', 't', 'o'})
    ensures Classify(s) == NoShape
  {
    if s != "" {
      FirstLetterMiss(s, "say");
      FirstLetterMiss(s, "type");
      FirstLetterMiss(s, "open");
    }
  }

  /** `say <m>` asks to speak exactly `m`. */
  lemma SayShape(m: string, app: Resolve, site: Resolve)
    requires Rest(m)
    ensures ParseWith("say " + m, app, site) == Parsed(Say, Some(m), None)
  {
    var cmd := "say" + " " + m;
    assert "say " + m == cmd;
    Keywords();
    JoinStripped("say", m);
    NotMeta("say", m);
    ParseSplit(cmd, app, site);
    ClassifySay(m);
  }

  /** `type <m>` asks to type exactly `m`. */
  lemma TypeShape(m: string, app: Resolve, site: Resolve)
    requires Rest(m)
    ensures ParseWith("type " + m, app, site) == Parsed(TypeText, Some(m), None)
  {
    var cmd := "type" + " " + m;
    assert "type " + m == cmd;
    Keywords();
    JoinStripped("type", m);
    NotMeta("type", m);
    ParseSplit(cmd, app, site);
    ClassifyType(m);
  }

  /** `open app <x>` hands back the resolved app label, or the spoken text
      itself when resolution yields nothing truthy. */
  lemma OpenAppShape(x: string, app: Resolve, site: Resolve)
    requires Rest(x)
    ensures ParseWith("open app " + x, app, site) == Parsed(OpenApp, Some(OrSpoken(app(x), x)), None)
  {
    var cmd := "open" + " " + ("app" + " " + x);
    OpenAppText(x);
    AppCommand(x);
    ParseShaped(cmd, app, site, AppNamed(x));
  }

  /** The command text `open app <x>` as its words join it. */
  lemma OpenAppText(x: string)
    ensures "open app " + x == "open" + " " + ("app" + " " + x)
  {
    assert "open app " == "open" + " " + "app" + " ";
  }

  /** The command text `open site <x>` as its words join it. */
  lemma OpenSiteText(x: string)
    ensures "open site " + x == "open" + " " + ("site" + " " + x)
  {
    assert "open site " == "open" + " " + "site" + " ";
  }

  /** `open app <x>` is stripped, no meta phrase, and names an app. */
  lemma AppCommand(x: string)
    requires Rest(x)
    ensures var cmd := "open" + " " + ("app" + " " + x);
      Strip(cmd) == cmd && MetaCommand(Lower(cmd)).None? && Classify(cmd) == AppNamed(x)
  {
    Keywords();
    OpenKeywordNotMeta("app", x);
    JoinStripped("open", "app" + " " + x);
    ClassifyApp(x);
  }

  /** `open site <x>` hands back the resolved site label, or the spoken text. */
  lemma OpenSiteShape(x: string, app: Resolve, site: Resolve)
    requires Rest(x)
    ensures ParseWith("open site " + x, app, site) == Parsed(OpenSite, Some(OrSpoken(site(x), x)), None)
  {
    var cmd := "open" + " " + ("site" + " " + x);
    OpenSiteText(x);
    SiteCommand(x);
    ParseShaped(cmd, app, site, SiteNamed(x));
  }

  /** `open site <x>` is stripped, no meta phrase, and names a site. */
  lemma SiteCommand(x: string)
    requires Rest(x)
    ensures var cmd := "open" + " " + ("site" + " " + x);
      Strip(cmd) == cmd && MetaCommand(Lower(cmd)).None? && Classify(cmd) == SiteNamed(x)
  {
    Keywords();
    OpenKeywordNotMeta("site", x);
    JoinStripped("open", "site" + " " + x);
    ClassifySite(x);
  }

  /** Any other `open <x>` tries sites before apps and, when neither gives a
      truthy label, is unknown but carries `x`. */
  lemma OpenAnythingShape(x: string, app: Resolve, site: Resolve)
    requires Rest(x) && Lower(x) != "vscode" && Lower(x) != "youtube"
    requires AfterWord(x, "app").None? && AfterWord(x, "site").None?
    ensures ParseWith("open " + x, app, site) ==
      if Truthy(site(x)) then Parsed(OpenSite, site(x), None)
      else if Truthy(app(x)) then Parsed(OpenApp, app(x), None)
      else Parsed(Unknown, Some(x), None)
  {
    OpenCommand(x);
    ParseShaped("open " + x, app, site, OpenWhat(x));
  }

  /** `open <x>` is stripped, no meta phrase, and has the general open shape. */
  lemma OpenCommand(x: string)
    requires Rest(x) && Lower(x) != "vscode" && Lower(x) != "youtube"
    requires AfterWord(x, "app").None? && AfterWord(x, "site").None?
    ensures Strip("open " + x) == "open " + x
    ensures MetaCommand(Lower("open " + x)).None?
    ensures Classify("open " + x) == OpenWhat(x)
  {
    var cmd := "open" + " " + x;
    assert "open " + x == cmd;
    Keywords();
    JoinStripped("open", x);
    NotMetaOpen(x);
    ClassifyOpen(x);
  }

  /** A command that is no meta phrase and whose first letter cannot start
      "say", "type" or "open" is unknown without text; so is a blank one. */
  lemma NoShapeUnknown(cmd: string, app: Resolve, site: Resolve)
    requires MetaCommand(Lower(Strip(cmd))).None?
    requires Strip(cmd) == "" || LowerChar(Strip(cmd)[0]) !in {'s', 't', 'o'}
    ensures ParseWith(cmd, app, site) == Parsed(Unknown, None, None)
  {
    ParseSplit(cmd, app, site);
    ClassifyNone(Strip(cmd));
  }

  /** The quick demo shadows the general `open <x>` shape whatever the case
      of its letters: `open VSCode` fits `open <x>` but opens the editor. */
  lemma QuickDemoFirst(x: string, app: Resolve, site: Resolve)
    requires Rest(x) && Lower(x) == "vscode"
    ensures Match1("open" + " " + x, "open") == Some(x)
    ensures ParseWith("open" + " " + x, app, site).action == OpenVscode
  {
    Keywords();
    OpenMatches(x);
    DemoCommand(x);
    ParseSplit("open" + " " + x, app, site);
    VscodeDemo();
  }

  /** `open <x>` with `x` spelling "vscode" is the editor demo phrase. */
  lemma DemoCommand(x: string)
    requires Rest(x) && Lower(x) == "vscode"
    ensures Lower(Strip("open" + " " + x)) == "open vscode"
  {
    Keywords();
    JoinStripped("open", x);
    LowerJoin("open", x);
    assert "open" + " " + "vscode" == "open vscode";
  }

  /** Neither resolver turns `x` into a truthy label. */
  predicate Unresolved(x: string, app: Resolve, site: Resolve) {
    !Truthy(site(x)) && !Truthy(app(x))
  }

  lemma MetaExit(low: string)
    ensures MetaCommand(low).Some? && MetaCommand(low).value.action == Exit <==> low in EXIT_WORDS
  {
    assert HELP_WORDS * EXIT_WORDS == {};
  }

  /** Only the three exit words, in any case and with any surrounding
      whitespace, ask to leave. */
  lemma ParseExit(cmd: string, app: Resolve, site: Resolve)
    ensures ParseWith(cmd, app, site).action == Exit <==> Lower(Strip(cmd)) in EXIT_WORDS
  {
    ParseSplit(cmd, app, site);
    MetaExit(Lower(Strip(cmd)));
  }

  /** Whatever the command, an unknown result that carries text carries a
      text that neither resolver turns into a truthy label. */
  lemma ParseUnknown(cmd: string, app: Resolve, site: Resolve)
    requires ParseWith(cmd, app, site).action == Unknown
    ensures var p := ParseWith(cmd, app, site);
      p.announce.Some? ==> Unresolved(p.announce.value, app, site)
  {
    ParseSplit(cmd, app, site);
    var s := Strip(cmd);
    MetaKnown(Lower(s));
    if MetaCommand(Lower(s)).None? {
      var b := Build(Classify(s), app, site);
    }
  }
}
