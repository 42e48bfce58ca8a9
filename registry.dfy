/**
 * Actions/registry.py: `dispatch` routes one of the four registered action
 * names to its collaborator after the whitelist check. Speech and the
 * collaborator calls are recorded as effects, in order; the path the
 * screenshot collaborator returns is a function parameter.
 */
module Registry {
  import opened Wrappers
  import opened Text
  import opened Dicts
  import opened Json
  import Security

  /** The keys of `build_registry()`. */
  const REGISTRY: seq<string> := ["open_app", "open_site", "type_text", "screenshot"]

  datatype Effect =
    | Speak(text: string)
    | Launch(app: string)
    | Browse(url: string)
    | Type(typed: Json, interval: Option<Json>)   // None: the default 0.02
    | Shoot(dir: Json, name: Json)

  /** The returned dict: `ok`, and `msg` when there is one. */
  datatype Reply = Reply(ok: bool, msg: Option<string>)

  /** The effects in order; `reply` is None when `dispatch` raises. */
  datatype Outcome = Outcome(effects: seq<Effect>, reply: Option<Reply>)

  /** The screenshot collaborator: the path it saved to, for a directory and
      a file name. */
  type Shooter = (Json, Json) -> string

  const OK := Some(Reply(true, None))

  function Refuse(said: string, msg: string): (o: Outcome)
    ensures Calls(o.effects) == 0 && o.reply.Some? && !o.reply.value.ok
  {
    Outcome([Speak(said)], Some(Reply(false, Some(msg))))
  }

  /** The collaborator calls among the effects. */
  function Calls(es: seq<Effect>): nat {
    if es == [] then 0
    else (if es[0].Speak? then 0 else 1) + Calls(es[1..])
  }

  /** A speech followed by one collaborator call makes one call. */
  lemma CallsPair(a: Effect, b: Effect)
    requires a.Speak? && !b.Speak?
    ensures Calls([a, b]) == 1
  {
    assert [b][1..] == [];
    assert Calls([b]) == 1;
    assert [a, b][1..] == [b];
  }

  /** What `table` returns for `key in table` followed by `table[key]`:
      Some(None) when the key is not in it, Some(Some(v)) for the value, None
      when either step raises. Object keys are strings, so another hashable
      key is never present; a string table is searched by substring, and a
      hit then raises because a string cannot be indexed by a string. */
  function Lookup(table: Json, key: Json): (r: Option<Option<Json>>)
    ensures table.JObj? && key.JStr? ==> r == Some(Get(table.fields, key.s))
  {
    match table
    case JObj(f) =>
      if !Hashable(key) then None
      else if key.JStr? then Some(Get(f, key.s))
      else Some(None)
    case JStr(s) =>
      if !key.JStr? || Contains(s, key.s) then None else Some(None)
    case JList(xs) =>
      if key !in xs then Some(None)
      else if key.JInt? && -|xs| <= key.i < |xs| then
        Some(Some(if key.i >= 0 then xs[key.i] else xs[|xs| + key.i]))
      else if key.JBool? && |xs| > (if key.b then 1 else 0) then
        Some(Some(xs[if key.b then 1 else 0]))
      else None
    case _ => None
  }

  /** `meta["target"] if isinstance(meta, dict) else meta`; None on the
      KeyError of an object without "target". */
  function TargetOf(meta: Json): Option<Json> {
    if meta.JObj? then Get(meta.fields, "target") else Some(meta)
  }

  /** `args.get(first) or args.get(second)`, then replaced through
      `intents[table]` when that is present and holds it; None where Python
      raises. */
  function Resolve(args: Dict<Json>, first: string, second: string, table: string, intents: Dict<Json>): Option<Json> {
    var t := Or(GetOr(args, first, JNull), GetOr(args, second, JNull));
    if intents != [] && Get(intents, table).Some? then
      match Lookup(Get(intents, table).value, t)
      case None => None
      case Some(None) => Some(t)
      case Some(Some(meta)) => TargetOf(meta)
    else Some(t)
  }

  /** The `open_app` branch. A truthy target that is not a string raises in
      `is_allowed_app`, which calls `.lower()` on it. */
  function OpenApp(args: Dict<Json>, whitelist: set<string>, intents: Dict<Json>): (o: Outcome)
    ensures var r := Resolve(args, "app", "name", "apps", intents);
      o.reply == OK <==> r.Some? && r.value.JStr? && r.value.s != "" && Security.AllowedApp(Some(r.value.s), whitelist)
    ensures forall e :: e in o.effects && !e.Speak? ==>
      e.Launch? && Resolve(args, "app", "name", "apps", intents) == Some(JStr(e.app)) && Security.AllowedApp(Some(e.app), whitelist)
    ensures Calls(o.effects) == if o.reply == OK then 1 else 0
  {
    match Resolve(args, "app", "name", "apps", intents)
    case None => Outcome([], None)
    case Some(t) =>
      if !Truthy(t) then Refuse("No app specified.", "no_app")
      else if !t.JStr? then Outcome([], None)
      else if !Security.AllowedApp(Some(t.s), whitelist) then Refuse("Blocked. App not in whitelist.", "denied")
      else
        CallsPair(Speak("Opening " + t.s + "."), Launch(t.s));
        Outcome([Speak("Opening " + t.s + "."), Launch(t.s)], OK)
  }

  /** The `open_site` branch. */
  function OpenSite(args: Dict<Json>, whitelist: set<string>, intents: Dict<Json>): (o: Outcome)
    ensures var r := Resolve(args, "url", "site", "sites", intents);
      o.reply == OK <==> r.Some? && r.value.JStr? && r.value.s != "" && Security.AllowedSite(Some(r.value.s), whitelist)
    ensures forall e :: e in o.effects && !e.Speak? ==>
      e.Browse? && Resolve(args, "url", "site", "sites", intents) == Some(JStr(e.url)) && Security.AllowedSite(Some(e.url), whitelist)
    ensures Calls(o.effects) == if o.reply == OK then 1 else 0
  {
    match Resolve(args, "url", "site", "sites", intents)
    case None => Outcome([], None)
    case Some(u) =>
      if !Truthy(u) then Refuse("No site specified.", "no_site")
      else if !u.JStr? then Outcome([], None)
      else if !Security.AllowedSite(Some(u.s), whitelist) then Refuse("Blocked. Site not in whitelist.", "denied")
      else
        CallsPair(Speak("Opening website."), Browse(u.s));
        Outcome([Speak("Opening website."), Browse(u.s)], OK)
  }

  /** The `type_text` branch. */
  function TypeText(args: Dict<Json>): (o: Outcome)
    ensures o.reply == OK && Calls(o.effects) == 1
  {
    var call := Type(GetOr(args, "text", JStr("")), Get(args, "interval"));
    CallsPair(Speak("Typing."), call);
    Outcome([Speak("Typing."), call], OK)
  }

  /** The separators `os.path.basename` splits at on Windows. */
  predicate IsSep(c: char) {
    c == '/' || c == '\\'
  }

  /** `os.path.basename` with Windows separators: what follows the last
      slash or backslash. */
  function Basename(p: string): (r: string)
    ensures EndsWith(p, r)
    ensures '/' !in r && '\\' !in r
    ensures |r| < |p| ==> IsSep(p[|p| - |r| - 1])
  {
    if p == [] || IsSep(p[|p| - 1]) then ""
    else
      var r := Basename(p[..|p| - 1]);
      EndsWithSnoc(p, r);
      r + [p[|p| - 1]]
  }

  /** The file name `screenshot` is given: `args["name"]`, else the setting,
      else "jarvis_screenshot.png". */
  function ShotName(args: Dict<Json>, settings: Dict<Json>): Json {
    Or(GetOr(args, "name", JNull), GetOr(settings, "screenshot_name", JStr("jarvis_screenshot.png")))
  }

  /** The `screenshot` branch. */
  function Screenshot(args: Dict<Json>, settings: Dict<Json>, shoot: Shooter): (o: Outcome)
    ensures o.reply == OK && Calls(o.effects) == 1
  {
    var dir := GetOr(settings, "screenshot_dir", JStr("."));
    var name := ShotName(args, settings);
    var path := shoot(dir, name);
    var said :=
      if Truthy(GetOr(settings, "announce_only_filename", JBool(true)))
      then "Screenshot saved as " + Basename(path) + "."
      else "Screenshot saved at " + path + ".";
    var es := [Speak("Taking a screenshot."), Shoot(dir, name), Speak(said)];
    assert [Speak(said)][1..] == [];
    assert Calls([Speak(said)]) == 0;
    CallsPair(Speak("Taking a screenshot."), Shoot(dir, name));
    assert es[1..] == [Shoot(dir, name), Speak(said)];
    assert [Shoot(dir, name), Speak(said)][1..] == [Speak(said)];
    Outcome(es, OK)
  }

  /** `dispatch(action, args, settings, whitelist, intents)`. */
  function Dispatch(action: string, args: Dict<Json>, settings: Dict<Json>, whitelist: set<string>, intents: Dict<Json>, shoot: Shooter): (o: Outcome)
    ensures o.reply != Some(Reply(false, Some("no_route")))
    ensures o.reply == OK <==> Calls(o.effects) == 1
    ensures Calls(o.effects) <= 1
  {
    if action !in REGISTRY then Refuse("Unknown action.", "unknown_action")
    else if action == "open_app" then OpenApp(args, whitelist, intents)
    else if action == "open_site" then OpenSite(args, whitelist, intents)
    else if action == "type_text" then TypeText(args)
    else if action == "screenshot" then Screenshot(args, settings, shoot)
    else Refuse("Nothing executed.", "no_route")
  }

  /** An unregistered action is refused and calls nothing. */
  lemma UnknownAction(action: string, args: Dict<Json>, settings: Dict<Json>, whitelist: set<string>, intents: Dict<Json>, shoot: Shooter)
    ensures action !in REGISTRY <==>
      Dispatch(action, args, settings, whitelist, intents, shoot) == Outcome([Speak("Unknown action.")], Some(Reply(false, Some("unknown_action"))))
  {
  }

  /** An app is launched only when the resolved target is a non-empty string
      the whitelist allows, and then that target is the one launched. */
  lemma LaunchOnlyAllowed(args: Dict<Json>, settings: Dict<Json>, whitelist: set<string>, intents: Dict<Json>, shoot: Shooter)
    ensures var o := Dispatch("open_app", args, settings, whitelist, intents, shoot);
      o.reply == OK <==>
        exists t :: Resolve(args, "app", "name", "apps", intents) == Some(JStr(t)) && t != "" && Security.AllowedApp(Some(t), whitelist)
    ensures var o := Dispatch("open_app", args, settings, whitelist, intents, shoot);
      forall e :: e in o.effects && !e.Speak? ==>
        e.Launch? && Resolve(args, "app", "name", "apps", intents) == Some(JStr(e.app)) && Security.AllowedApp(Some(e.app), whitelist)
  {
    var r := Resolve(args, "app", "name", "apps", intents);
    if r.Some? && r.value.JStr? && r.value.s != "" && Security.AllowedApp(Some(r.value.s), whitelist) {
      assert Resolve(args, "app", "name", "apps", intents) == Some(JStr(r.value.s));
    }
  }

  /** A site is opened only when the resolved URL is a non-empty string the
      whitelist allows. */
  lemma BrowseOnlyAllowed(args: Dict<Json>, settings: Dict<Json>, whitelist: set<string>, intents: Dict<Json>, shoot: Shooter)
    ensures var o := Dispatch("open_site", args, settings, whitelist, intents, shoot);
      o.reply == OK <==>
        exists u :: Resolve(args, "url", "site", "sites", intents) == Some(JStr(u)) && u != "" && Security.AllowedSite(Some(u), whitelist)
    ensures var o := Dispatch("open_site", args, settings, whitelist, intents, shoot);
      forall e :: e in o.effects && !e.Speak? ==>
        e.Browse? && Resolve(args, "url", "site", "sites", intents) == Some(JStr(e.url)) && Security.AllowedSite(Some(e.url), whitelist)
  {
    var r := Resolve(args, "url", "site", "sites", intents);
    if r.Some? && r.value.JStr? && r.value.s != "" && Security.AllowedSite(Some(r.value.s), whitelist) {
      assert Resolve(args, "url", "site", "sites", intents) == Some(JStr(r.value.s));
    }
  }

  /** The refusals of the open branches: an empty target and a target the
      whitelist does not allow. */
  lemma OpenRefusals(args: Dict<Json>, settings: Dict<Json>, whitelist: set<string>, intents: Dict<Json>, shoot: Shooter, t: string)
    ensures Resolve(args, "app", "name", "apps", intents) == Some(JStr("")) ==>
      Dispatch("open_app", args, settings, whitelist, intents, shoot).reply == Some(Reply(false, Some("no_app")))
    ensures Resolve(args, "app", "name", "apps", intents) == Some(JStr(t)) && t != "" && !Security.AllowedApp(Some(t), whitelist) ==>
      Dispatch("open_app", args, settings, whitelist, intents, shoot).reply == Some(Reply(false, Some("denied")))
    ensures Resolve(args, "url", "site", "sites", intents) == Some(JStr("")) ==>
      Dispatch("open_site", args, settings, whitelist, intents, shoot).reply == Some(Reply(false, Some("no_site")))
    ensures Resolve(args, "url", "site", "sites", intents) == Some(JStr(t)) && t != "" && !Security.AllowedSite(Some(t), whitelist) ==>
      Dispatch("open_site", args, settings, whitelist, intents, shoot).reply == Some(Reply(false, Some("denied")))
  {
  }

  /** A spoken name that is a key of `intents["apps"]` is replaced by its
      entry's "target", or by the entry itself when it is not an object. */
  lemma IntentReplacement(args: Dict<Json>, intents: Dict<Json>, name: string, apps: Dict<Json>, meta: Json)
    requires Or(GetOr(args, "app", JNull), GetOr(args, "name", JNull)) == JStr(name)
    requires Get(intents, "apps") == Some(JObj(apps)) && Get(apps, name) == Some(meta)
    ensures meta.JObj? ==> Resolve(args, "app", "name", "apps", intents) == Get(meta.fields, "target")
    ensures !meta.JObj? ==> Resolve(args, "app", "name", "apps", intents) == Some(meta)
  {
    assert intents != [];
  }

  /** Without intents, or with a name that is not one of their keys, the
      spoken name is kept. */
  lemma NoReplacement(args: Dict<Json>, intents: Dict<Json>, apps: Dict<Json>)
    requires Get(intents, "apps").None? || (Get(intents, "apps") == Some(JObj(apps)) &&
      var t := Or(GetOr(args, "app", JNull), GetOr(args, "name", JNull)); t.JStr? && Get(apps, t.s).None?)
    ensures Resolve(args, "app", "name", "apps", intents) == Some(Or(GetOr(args, "app", JNull), GetOr(args, "name", JNull)))
  {
  }

  /** Typing and screenshots always succeed, each with one collaborator call
      after the announcement. */
  lemma TypeAndShotSucceed(args: Dict<Json>, settings: Dict<Json>, whitelist: set<string>, intents: Dict<Json>, shoot: Shooter)
    ensures var o := Dispatch("type_text", args, settings, whitelist, intents, shoot);
      o.reply == OK && o.effects[1] == Type(GetOr(args, "text", JStr("")), Get(args, "interval"))
    ensures var o := Dispatch("screenshot", args, settings, whitelist, intents, shoot);
      o.reply == OK && o.effects[1] == Shoot(GetOr(settings, "screenshot_dir", JStr(".")), ShotName(args, settings))
  {
  }

  /** The screenshot name: a truthy `args["name"]`, else the
      `screenshot_name` setting when present, else "jarvis_screenshot.png". */
  lemma ShotNameFallback(args: Dict<Json>, settings: Dict<Json>)
    ensures Truthy(GetOr(args, "name", JNull)) ==> ShotName(args, settings) == Get(args, "name").value
    ensures !Truthy(GetOr(args, "name", JNull)) && Get(settings, "screenshot_name").Some? ==>
      ShotName(args, settings) == Get(settings, "screenshot_name").value
    ensures !Truthy(GetOr(args, "name", JNull)) && Get(settings, "screenshot_name").None? ==>
      ShotName(args, settings) == JStr("jarvis_screenshot.png")
  {
  }

  /** The announcement names the file alone unless the setting is present
      and falsy. */
  lemma ShotAnnouncement(args: Dict<Json>, settings: Dict<Json>, shoot: Shooter)
    ensures var o := Screenshot(args, settings, shoot);
      var path := shoot(GetOr(settings, "screenshot_dir", JStr(".")), ShotName(args, settings));
      o.effects[2] == Speak(
        if Get(settings, "announce_only_filename").None? || Truthy(Get(settings, "announce_only_filename").value)
        then "Screenshot saved as " + Basename(path) + "."
        else "Screenshot saved at " + path + ".")
  {
  }

  /** The base name of a path ending in a separator is empty, and appending
      a separator-free name gives that name back when a separator precedes
      it. */
  lemma BasenameOfJoin(dir: string, name: string)
    requires '/' !in name && '\\' !in name
    ensures Basename(dir + "\\" + name) == name
    ensures Basename(dir + "/" + name) == name
  {
    BasenameAppend(dir + "\\", name);
    BasenameAppend(dir + "/", name);
  }

  lemma {:induction false} BasenameAppend(p: string, name: string)
    requires |p| > 0 && IsSep(p[|p| - 1])
    requires '/' !in name && '\\' !in name
    ensures Basename(p + name) == name
    decreases |name|
  {
    if name == [] {
      assert p + name == p;
    } else {
      var init := name[..|name| - 1];
      assert (p + name)[..|p + name| - 1] == p + init;
      BasenameAppend(p, init);
      assert init + [name[|name| - 1]] == name;
    }
  }
}
