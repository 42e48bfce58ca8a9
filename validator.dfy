/**
 * Core/validator.py: the plan gate. `validate_plan` decides whether an
 * action may run; `execute_plan` speaks, writes log records and calls the
 * action's function, in that order, as a trace of events. The settings and
 * the whitelist are parameters rather than files; what the action's
 * function does is a parameter `impl`.
 */
module Validator {
  import opened Wrappers
  import opened Text
  import opened Dicts
  import opened Json
  import Lines

  /** What `load_whitelist` writes when the file is missing. */
  const DEFAULT_WHITELIST := "say\n"

  const MISSING_NOTICE := "Whitelist file missing. I created a new one with 'say' only."

  /** `load_whitelist()`, given the file's text or None when it is missing;
      `said` is the notice spoken when the file had to be created. */
  method LoadWhitelist(file: Option<string>) returns (cmds: set<string>, said: Option<string>)
    ensures cmds == Lines.Commands(Lines.SplitLines(file.GetOr(DEFAULT_WHITELIST)))
    ensures said == if file.None? then Some(MISSING_NOTICE) else None
  {
    var text := file.GetOr(DEFAULT_WHITELIST);
    said := if file.None? then Some(MISSING_NOTICE) else None;
    cmds := Lines.CollectCommands(Lines.SplitLines(text));
  }

  /** A missing whitelist allows exactly "say". */
  lemma MissingWhitelist()
    ensures Lines.Commands(Lines.SplitLines(DEFAULT_WHITELIST)) == {"say"}
  {
    DefaultLines();
    SayKept();
    OneCommand("say");
  }

  /** The default text is the one line "say". */
  lemma DefaultLines()
    ensures Lines.SplitLines(DEFAULT_WHITELIST) == ["say"]
  {
    assert DEFAULT_WHITELIST == "say" + "\n" + "";
    Lines.LineThen("say", "", Lines.LineBreak);
  }

  lemma SayKept()
    ensures Strip("say") == "say" && Lines.Kept("say")
  {
    var s := "say";
    assert s[0] == 's' && s[|s| - 1] == 'y';
    assert IsStripped(s);
    StripOfStripped(s);
    assert s[..1] != "#" by {
      assert s[..1][0] == 's';
    }
  }

  lemma OneCommand(x: string)
    requires Strip(x) == x && Lines.Kept(x)
    ensures Lines.Commands([x]) == {x}
  {
    assert [x][0] == x;
  }

  /** The verdict `(ok, reason)`. */
  datatype Check = Check(ok: bool, reason: string)

  /** `plan or {}`, the dict whose `.get` is called; None when the plan is
      truthy but not a dict, which has no `.get`. */
  function PlanFields(plan: Json): Option<Dict<Json>> {
    if !Truthy(plan) then Some([]) else if plan.JObj? then Some(plan.fields) else None
  }

  /** `action in keys` for a collection of strings: the whitelist test, and
      whether `actions.get(action)` is truthy (the mapped values are
      functions, which are always truthy). None for an unhashable action,
      which raises TypeError. */
  function StringKey(action: Json, keys: set<string>): (r: Option<bool>)
    ensures r.Some? <==> Hashable(action)
    ensures r == Some(true) <==> action.JStr? && action.s in keys
  {
    if !Hashable(action) then None else Some(action.JStr? && action.s in keys)
  }

  /** `validate_plan(plan)` under the given settings and whitelist; None
      where Python raises. */
  function ValidatePlan(plan: Json, settings: Dict<Json>, whitelist: set<string>): (r: Option<Check>)
    ensures r.Some? && r.value.ok ==> r.value.reason == "OK"
    ensures r.None? <==> (PlanFields(plan).None? ||
      (var a := GetOr(PlanFields(plan).value, "action", JNull);
       Truthy(a) && Truthy(GetOr(settings, "safe_mode", JBool(true))) && !Hashable(a)))
  {
    match PlanFields(plan)
    case None => None
    case Some(f) =>
      var action := GetOr(f, "action", JNull);
      if !Truthy(action) then Some(Check(false, "No action in plan."))
      else if Truthy(GetOr(settings, "safe_mode", JBool(true))) then
        match StringKey(action, whitelist)
        case None => None
        case Some(listed) =>
          if !listed then Some(Check(false, "Action '" + Str(action) + "' is not in whitelist."))
          else Some(Check(true, "OK"))
      else Some(Check(true, "OK"))
  }

  /** A missing plan, or one without a truthy action, is refused. */
  lemma NoActionRefused(plan: Json, settings: Dict<Json>, whitelist: set<string>)
    requires PlanFields(plan).Some? && !Truthy(GetOr(PlanFields(plan).value, "action", JNull))
    ensures ValidatePlan(plan, settings, whitelist) == Some(Check(false, "No action in plan."))
  {
  }

  /** For a dict plan with a truthy action: it passes exactly when safe mode
      is off or the action is a whitelisted name, and a string action that
      safe mode stops is named in the reason. */
  lemma ValidateVerdict(fields: Dict<Json>, settings: Dict<Json>, whitelist: set<string>)
    requires fields != [] && Truthy(GetOr(fields, "action", JNull))
    requires Hashable(GetOr(fields, "action", JNull)) || !Truthy(GetOr(settings, "safe_mode", JBool(true)))
    ensures var a := GetOr(fields, "action", JNull);
      var safe := Truthy(GetOr(settings, "safe_mode", JBool(true)));
      var r := ValidatePlan(JObj(fields), settings, whitelist);
      r.Some? && (r.value.ok <==> !safe || (a.JStr? && a.s in whitelist))
    ensures var a := GetOr(fields, "action", JNull);
      a.JStr? && a.s !in whitelist && Truthy(GetOr(settings, "safe_mode", JBool(true))) ==>
        ValidatePlan(JObj(fields), settings, whitelist) == Some(Check(false, "Action '" + a.s + "' is not in whitelist."))
  {
  }

  /** One line of the log file, with its values rather than their text. */
  datatype Record =
    | Block(action: Json, args: Json, reason: string)
    | Miss(action: Json, args: Json)
    | Run(action: Json, args: Json)
    | Done(action: Json, result: Json)
    | Err(action: Json, args: Json, error: string)

  /** What `execute_plan` does, in order. */
  datatype Event =
    | Say(text: string)
    | Log(rec: Record)
    | Invoke(name: string, kwargs: Dict<Json>)

  /** How a call of the action's function ends. */
  datatype Result = Returned(value: Json) | TypeErr(msg: string) | OtherErr(msg: string)

  /** The action functions: what calling the one named with these keyword
      arguments gives. */
  type Impl = (string, Dict<Json>) -> Result

  /** The events and whether `execute_plan` raised. */
  datatype Trace = Trace(events: seq<Event>, raised: bool)

  /** What follows the call: a DONE record, or a spoken apology and an ERR
      record. */
  function Finish(action: Json, args: Json, res: Result): seq<Event> {
    match res
    case Returned(v) => [Log(Done(action, v))]
    case TypeErr(e) => [Say("Argument mismatch for this action."), Log(Err(action, args, e))]
    case OtherErr(e) => [Say("There was an error while executing the action."), Log(Err(action, args, e))]
  }

  /** The record written for the plan's action: its value, or "UNKNOWN". */
  function ActionOf(fields: Dict<Json>): Json {
    GetOr(fields, "action", JStr("UNKNOWN"))
  }

  function ArgsOf(fields: Dict<Json>): Json {
    GetOr(fields, "args", JObj([]))
  }

  /** The part of `execute_plan` after a passing check: `func(**args)` with
      arguments that are not a dict fails with TypeError before the function
      runs. */
  function Call(action: Json, args: Json, impl: Impl): seq<Event>
    requires action.JStr?
  {
    if args.JObj? then [Log(Run(action, args)), Invoke(action.s, args.fields)] + Finish(action, args, impl(action.s, args.fields))
    else [Log(Run(action, args))] + Finish(action, args, TypeErr("argument after ** must be a mapping"))
  }

  /** `execute_plan(plan, actions)`: the events it causes. */
  function Execution(plan: Json, settings: Dict<Json>, whitelist: set<string>, actions: set<string>, impl: Impl): Trace {
    match ValidatePlan(plan, settings, whitelist)
    case None => Trace([], true)
    case Some(c) =>
      var f := PlanFields(plan).value;
      var action := ActionOf(f);
      var args := ArgsOf(f);
      if !c.ok then Trace([Say("Blocked: " + c.reason), Log(Block(action, args, c.reason))], false)
      else
        match StringKey(action, actions)
        case None => Trace([], true)
        case Some(false) =>
          Trace([Say("Action '" + Str(action) + "' is allowed but not implemented."), Log(Miss(action, args))], false)
        case Some(true) => Trace(Call(action, args, impl), false)
  }

  /** The log records among the events. */
  function Logs(es: seq<Event>): seq<Record> {
    if es == [] then [] else (if es[0].Log? then [es[0].rec] else []) + Logs(es[1..])
  }

  /** The calls of action functions among the events. */
  function Invocations(es: seq<Event>): nat {
    if es == [] then 0 else (if es[0].Invoke? then 1 else 0) + Invocations(es[1..])
  }

  lemma LogsAppend(a: seq<Event>, b: seq<Event>)
    ensures Logs(a + b) == Logs(a) + Logs(b)
    ensures Invocations(a + b) == Invocations(a) + Invocations(b)
  {
    RecordsAppend(a, b);
    CallsAppend(a, b);
  }

  lemma {:induction false} RecordsAppend(a: seq<Event>, b: seq<Event>)
    ensures Logs(a + b) == Logs(a) + Logs(b)
    decreases |a|
  {
    if a == [] {
      assert a + b == b;
    } else {
      var ab := a + b;
      assert ab[0] == a[0] && ab[1..] == a[1..] + b;
      RecordsAppend(a[1..], b);
      var h := if a[0].Log? then [a[0].rec] else [];
      assert h + (Logs(a[1..]) + Logs(b)) == (h + Logs(a[1..])) + Logs(b);
    }
  }

  lemma {:induction false} CallsAppend(a: seq<Event>, b: seq<Event>)
    ensures Invocations(a + b) == Invocations(a) + Invocations(b)
    decreases |a|
  {
    if a == [] {
      assert a + b == b;
    } else {
      var ab := a + b;
      assert ab[0] == a[0] && ab[1..] == a[1..] + b;
      CallsAppend(a[1..], b);
    }
  }

  lemma LogsOne(e: Event)
    ensures Logs([e]) == (if e.Log? then [e.rec] else [])
    ensures Invocations([e]) == (if e.Invoke? then 1 else 0)
  {
    assert [e][1..] == [];
  }

  lemma LogsFinish(action: Json, args: Json, res: Result)
    ensures Invocations(Finish(action, args, res)) == 0
    ensures var l := Logs(Finish(action, args, res));
      |l| == 1 && (l[0].Done? || l[0].Err?) && l[0].action == action
  {
    var es := Finish(action, args, res);
    if |es| == 2 {
      assert es == [es[0]] + [es[1]];
      LogsAppend([es[0]], [es[1]]);
      LogsOne(es[0]);
      LogsOne(es[1]);
    } else {
      LogsOne(es[0]);
    }
  }

  /** A plan that fails the check is spoken about and written as one BLOCK
      record, and no function is called. */
  lemma BlockedOnce(plan: Json, settings: Dict<Json>, whitelist: set<string>, actions: set<string>, impl: Impl)
    requires ValidatePlan(plan, settings, whitelist).Some? && !ValidatePlan(plan, settings, whitelist).value.ok
    ensures var t := Execution(plan, settings, whitelist, actions, impl);
      var reason := ValidatePlan(plan, settings, whitelist).value.reason;
      var f := PlanFields(plan).value;
      !t.raised && Invocations(t.events) == 0 && Logs(t.events) == [Block(ActionOf(f), ArgsOf(f), reason)]
      && t.events[0] == Say("Blocked: " + reason)
  {
    var reason := ValidatePlan(plan, settings, whitelist).value.reason;
    var f := PlanFields(plan).value;
    var a := Say("Blocked: " + reason);
    var b := Log(Block(ActionOf(f), ArgsOf(f), reason));
    assert [a, b] == [a] + [b];
    LogsAppend([a], [b]);
    LogsOne(a);
    LogsOne(b);
  }

  /** An allowed action without a function is written as one MISS record,
      and nothing is called. */
  lemma MissingOnce(plan: Json, settings: Dict<Json>, whitelist: set<string>, actions: set<string>, impl: Impl)
    requires ValidatePlan(plan, settings, whitelist) == Some(Check(true, "OK"))
    requires StringKey(ActionOf(PlanFields(plan).value), actions) == Some(false)
    ensures var t := Execution(plan, settings, whitelist, actions, impl);
      var f := PlanFields(plan).value;
      !t.raised && Invocations(t.events) == 0 && Logs(t.events) == [Miss(ActionOf(f), ArgsOf(f))]
  {
    var f := PlanFields(plan).value;
    var a := Say("Action '" + Str(ActionOf(f)) + "' is allowed but not implemented.");
    var b := Log(Miss(ActionOf(f), ArgsOf(f)));
    assert [a, b] == [a] + [b];
    LogsAppend([a], [b]);
    LogsOne(a);
    LogsOne(b);
  }

  /** When the function runs: the RUN record comes first, the call right
      after it, the call happens once, and exactly one DONE or ERR record
      follows; nothing escapes. */
  lemma RunThenOneEnd(plan: Json, settings: Dict<Json>, whitelist: set<string>, actions: set<string>, impl: Impl)
    requires ValidatePlan(plan, settings, whitelist) == Some(Check(true, "OK"))
    requires StringKey(ActionOf(PlanFields(plan).value), actions) == Some(true)
    requires ArgsOf(PlanFields(plan).value).JObj?
    ensures var t := Execution(plan, settings, whitelist, actions, impl);
      var f := PlanFields(plan).value;
      var l := Logs(t.events);
      !t.raised && Invocations(t.events) == 1
      && t.events[0] == Log(Run(ActionOf(f), ArgsOf(f)))
      && t.events[1] == Invoke(ActionOf(f).s, ArgsOf(f).fields)
      && |l| == 2 && l[0] == Run(ActionOf(f), ArgsOf(f)) && (l[1].Done? || l[1].Err?)
  {
    var f := PlanFields(plan).value;
    var action := ActionOf(f);
    var args := ArgsOf(f);
    assert Execution(plan, settings, whitelist, actions, impl) == Trace(Call(action, args, impl), false);
    CallShape(action, args, impl);
  }

  /** A call with dict arguments: RUN, the call, then one DONE or ERR. */
  lemma CallShape(action: Json, args: Json, impl: Impl)
    requires action.JStr? && args.JObj?
    ensures var es := Call(action, args, impl);
      var l := Logs(es);
      Invocations(es) == 1 && es[0] == Log(Run(action, args)) && es[1] == Invoke(action.s, args.fields)
      && |l| == 2 && l[0] == Run(action, args) && (l[1].Done? || l[1].Err?)
  {
    var a := Log(Run(action, args));
    var b := Invoke(action.s, args.fields);
    var rest := Finish(action, args, impl(action.s, args.fields));
    assert [a, b] + rest == [a] + ([b] + rest);
    LogsAppend([a], [b] + rest);
    LogsAppend([b], rest);
    LogsOne(a);
    LogsOne(b);
    LogsFinish(action, args, impl(action.s, args.fields));
  }

  /** `execute_plan` raises only where the check itself raises or the action
      cannot be looked up, and then it has done nothing. */
  lemma RaisesOnlyBeforeActing(plan: Json, settings: Dict<Json>, whitelist: set<string>, actions: set<string>, impl: Impl)
    ensures var t := Execution(plan, settings, whitelist, actions, impl);
      t.raised <==> (ValidatePlan(plan, settings, whitelist).None? ||
        (ValidatePlan(plan, settings, whitelist).value.ok && !Hashable(ActionOf(PlanFields(plan).value))))
    ensures var t := Execution(plan, settings, whitelist, actions, impl);
      t.raised ==> t.events == []
  {
  }

  /** The log and speech of the session. */
  class Executor {
    var events: seq<Event>

    constructor ()
      ensures events == []
    {
      events := [];
    }

    /** `execute_plan(plan, actions)`: every step appends its event. */
    method ExecutePlan(plan: Json, settings: Dict<Json>, whitelist: set<string>, actions: set<string>, impl: Impl) returns (raised: bool)
      modifies this
      ensures events == old(events) + Execution(plan, settings, whitelist, actions, impl).events
      ensures raised == Execution(plan, settings, whitelist, actions, impl).raised
    {
      var check := ValidatePlan(plan, settings, whitelist);
      if check.None? {
        return true;
      }
      var f := PlanFields(plan).value;
      var action := ActionOf(f);
      var args := ArgsOf(f);
      if !check.value.ok {
        events := events + [Say("Blocked: " + check.value.reason)];
        events := events + [Log(Block(action, args, check.value.reason))];
        return false;
      }
      var found := StringKey(action, actions);
      if found.None? {
        return true;
      }
      if !found.value {
        events := events + [Say("Action '" + Str(action) + "' is allowed but not implemented.")];
        events := events + [Log(Miss(action, args))];
        return false;
      }
      RunCall(action, args, impl);
      return false;
    }

    /** The RUN record, the call inside `try`, and what follows it. */
    method RunCall(action: Json, args: Json, impl: Impl)
      requires action.JStr?
      modifies this
      ensures events == old(events) + Call(action, args, impl)
    {
      events := events + [Log(Run(action, args))];
      var res;
      if args.JObj? {
        events := events + [Invoke(action.s, args.fields)];
        res := impl(action.s, args.fields);
      } else {
        res := TypeErr("argument after ** must be a mapping");
      }
      match res {
        case Returned(v) =>
          events := events + [Log(Done(action, v))];
        case TypeErr(e) =>
          events := events + [Say("Argument mismatch for this action.")];
          events := events + [Log(Err(action, args, e))];
        case OtherErr(e) =>
          events := events + [Say("There was an error while executing the action.")];
          events := events + [Log(Err(action, args, e))];
      }
    }
  }
}
