/**
 * Core/logger.py: the action log. Each entry is one line
 * "[timestamp] ACTION: action → result (message)"; pruning keeps the lines
 * whose timestamp is recent or cannot be read. Timestamps are whole seconds;
 * reading one (`datetime.strptime`) is a parameter `parse`, and the clock is
 * the parameter `now`.
 */
module Logger {
  import opened Wrappers
  import opened Text

  /** `datetime.strptime(s, "%Y-%m-%d %H:%M:%S")` as seconds, None where it
      raises. */
  type Parse = string -> Option<int>

  const LOG_RETENTION_DAYS := 7
  const SECONDS_PER_DAY := 86400

  /** The text between the leading "[" and the first "]", stripped; None
      when the line does not start with "[" or has no "]". */
  function TimestampText(line: string): (r: Option<string>)
    ensures r.Some? <==> StartsWith(line, "[") && ']' in line
    ensures r.Some? ==> exists end :: 1 <= end < |line| && line[end] == ']' && ']' !in line[..end] && r.value == Strip(line[1..end])
  {
    if !StartsWith(line, "[") || ']' !in line then None
    else
      var end := IndexOf(line, ']');
      assert line[0] == '[' && end != 0;
      Some(Strip(line[1..end]))
  }

  /** `_parse_line_timestamp(line)`: any exception gives None. */
  function ParseLineTimestamp(line: string, parse: Parse): (r: Option<int>)
    ensures !StartsWith(line, "[") || ']' !in line ==> r.None?
    ensures r.Some? ==> TimestampText(line).Some? && r == parse(TimestampText(line).value)
  {
    match TimestampText(line)
    case None => None
    case Some(ts) => parse(ts)
  }

  /** Whether pruning keeps a line: no timestamp, or one at or after the
      cutoff. */
  predicate Keeps(line: string, cutoff: int, parse: Parse) {
    var ts := ParseLineTimestamp(line, parse);
    ts.None? || ts.value >= cutoff
  }

  function Keeper(cutoff: int, parse: Parse): string -> bool {
    line => Keeps(line, cutoff, parse)
  }

  /** The lines `keep` accepts, in their order. */
  function Filter(lines: seq<string>, keep: string -> bool): (r: seq<string>)
    ensures |r| <= |lines|
    ensures forall i :: 0 <= i < |r| ==> keep(r[i])
  {
    if lines == [] then []
    else
      var last := lines[|lines| - 1];
      Filter(lines[..|lines| - 1], keep) + (if keep(last) then [last] else [])
  }

  /** The lines pruning keeps, in their order. */
  function Pruned(lines: seq<string>, cutoff: int, parse: Parse): (r: seq<string>)
    ensures |r| <= |lines|
    ensures forall i :: 0 <= i < |r| ==> Keeps(r[i], cutoff, parse)
  {
    Filter(lines, Keeper(cutoff, parse))
  }

  /** The loop of `prune_old_logs`: each line is parsed and appended when it
      is kept. */
  method PruneLines(lines: seq<string>, cutoff: int, parse: Parse) returns (kept: seq<string>)
    ensures kept == Pruned(lines, cutoff, parse)
  {
    kept := [];
    for i := 0 to |lines|
      invariant kept == Pruned(lines[..i], cutoff, parse)
    {
      assert lines[..i + 1][..i] == lines[..i];
      assert Keeper(cutoff, parse)(lines[i]) == Keeps(lines[i], cutoff, parse);
      var ts := ParseLineTimestamp(lines[i], parse);
      if ts.None? || ts.value >= cutoff {
        kept := kept + [lines[i]];
      }
    }
    assert lines[..|lines|] == lines;
  }

  /** Pruning works line by line: pruning a concatenation prunes each part,
      so the kept lines stay in their order. */
  lemma {:induction false} FilterAppend(a: seq<string>, b: seq<string>, keep: string -> bool)
    ensures Filter(a + b, keep) == Filter(a, keep) + Filter(b, keep)
    decreases |b|
  {
    if b == [] {
      assert a + b == a;
    } else {
      var init := b[..|b| - 1];
      assert (a + b)[..|a + b| - 1] == a + init;
      FilterAppend(a, init, keep);
    }
  }

  lemma FilterOne(line: string, keep: string -> bool)
    ensures Filter([line], keep) == if keep(line) then [line] else []
  {
    assert [line][..0] == [];
  }

  lemma {:induction false} FilterMembers(lines: seq<string>, keep: string -> bool, x: string)
    ensures x in Filter(lines, keep) <==> x in lines && keep(x)
    decreases |lines|
  {
    if lines != [] {
      var init := lines[..|lines| - 1];
      FilterMembers(init, keep, x);
      assert lines == init + [lines[|lines| - 1]];
    }
  }

  lemma {:induction false} FilterIdempotent(lines: seq<string>, keep: string -> bool)
    ensures Filter(Filter(lines, keep), keep) == Filter(lines, keep)
    decreases |lines|
  {
    if lines != [] {
      var init := lines[..|lines| - 1];
      var last := lines[|lines| - 1];
      FilterIdempotent(init, keep);
      var tail := if keep(last) then [last] else [];
      FilterAppend(Filter(init, keep), tail, keep);
      if tail != [] {
        FilterOne(last, keep);
      }
    }
  }

  /** Pruning works line by line: pruning a concatenation prunes each part,
      so the kept lines stay in their order. */
  lemma PrunedAppend(a: seq<string>, b: seq<string>, cutoff: int, parse: Parse)
    ensures Pruned(a + b, cutoff, parse) == Pruned(a, cutoff, parse) + Pruned(b, cutoff, parse)
  {
    FilterAppend(a, b, Keeper(cutoff, parse));
  }

  /** A line survives exactly when it is one of the lines and is kept. */
  lemma PrunedMembers(lines: seq<string>, cutoff: int, parse: Parse, x: string)
    ensures x in Pruned(lines, cutoff, parse) <==> x in lines && Keeps(x, cutoff, parse)
  {
    FilterMembers(lines, Keeper(cutoff, parse), x);
  }

  /** Pruning again with the same cutoff changes nothing. */
  lemma PrunedIdempotent(lines: seq<string>, cutoff: int, parse: Parse)
    ensures Pruned(Pruned(lines, cutoff, parse), cutoff, parse) == Pruned(lines, cutoff, parse)
  {
    FilterIdempotent(lines, Keeper(cutoff, parse));
  }

  /** A line without a readable timestamp is never dropped, wherever it
      stands. */
  lemma UndatedKept(before: seq<string>, line: string, after: seq<string>, cutoff: int, parse: Parse)
    requires ParseLineTimestamp(line, parse).None?
    ensures Pruned(before + [line] + after, cutoff, parse) == Pruned(before, cutoff, parse) + [line] + Pruned(after, cutoff, parse)
  {
    var keep := Keeper(cutoff, parse);
    FilterAppend(before + [line], after, keep);
    FilterAppend(before, [line], keep);
    FilterOne(line, keep);
  }

  /** `f"[{timestamp}] ACTION: {action} → {result}"`, with `f" ({message})"`
      when the message is not empty. */
  function Entry(timestamp: string, action: string, result: string, message: string): string {
    "[" + timestamp + EntryTail(action, result, message)
  }

  /** What follows the timestamp. */
  function EntryTail(action: string, result: string, message: string): (r: string)
    ensures |r| > 0 && r[0] == ']'
  {
    "] ACTION: " + action + " → " + result + (if message != "" then " (" + message + ")" else "")
  }

  /** A line "[" + ts + rest, where `rest` starts with the first "]", has
      the stripped `ts` as its timestamp text. */
  lemma BracketedText(ts: string, rest: string)
    requires ']' !in ts && |rest| > 0 && rest[0] == ']'
    ensures TimestampText("[" + ts + rest) == Some(Strip(ts))
  {
    var line := "[" + ts + rest;
    assert line[|ts| + 1] == ']';
    assert line[..|ts| + 1] == "[" + ts;
    assert line[1..|ts| + 1] == ts;
  }

  /** An entry reads back its own timestamp: the text between the brackets
      is the timestamp when that has no "]" and no surrounding whitespace. */
  lemma EntryTimestamp(timestamp: string, action: string, result: string, message: string, parse: Parse)
    requires ']' !in timestamp && Strip(timestamp) == timestamp
    ensures TimestampText(Entry(timestamp, action, result, message) + "\n") == Some(timestamp)
    ensures ParseLineTimestamp(Entry(timestamp, action, result, message) + "\n", parse) == parse(timestamp)
  {
    var rest := EntryTail(action, result, message) + "\n";
    assert Entry(timestamp, action, result, message) + "\n" == "[" + timestamp + rest;
    BracketedText(timestamp, rest);
  }

  lemma EntryParts(timestamp: string, action: string, result: string, message: string)
    ensures message != "" ==>
      Entry(timestamp, action, result, message) == ("[" + timestamp + "] ACTION: " + action + " → " + result) + (" (" + message + ")")
    ensures message == "" ==>
      Entry(timestamp, action, result, message) == "[" + timestamp + "] ACTION: " + action + " → " + result
  {
  }

  /** The entry as `log_action` builds it, part by part. */
  method FormatEntry(timestamp: string, action: string, result: string, message: string) returns (entry: string)
    ensures entry == Entry(timestamp, action, result, message)
  {
    entry := "[" + timestamp + "] ACTION: " + action + " → " + result;
    if message != "" {
      entry := entry + (" (" + message + ")");
    }
    EntryParts(timestamp, action, result, message);
  }

  /** The optional message is the one part that differs between two
      entries of the same action and result. */
  lemma EntryMessage(timestamp: string, action: string, result: string, message: string)
    ensures message == "" ==> Entry(timestamp, action, result, message) == Entry(timestamp, action, result, "")
    ensures message != "" ==> Entry(timestamp, action, result, message) == Entry(timestamp, action, result, "") + " (" + message + ")"
  {
  }

  /** The log file: whether it exists and its lines, each with its line end. */
  class LogFile {
    var present: bool
    var lines: seq<string>

    constructor (present: bool, lines: seq<string>)
      ensures this.present == present && this.lines == (if present then lines else [])
    {
      this.present := present;
      this.lines := if present then lines else [];
    }

    /** `prune_old_logs(retention_days)` at time `now`: a missing file is
        left alone; otherwise the kept lines are written back. */
    method PruneOldLogs(retentionDays: int, now: int, parse: Parse)
      modifies this
      ensures present == old(present)
      ensures lines == if old(present) then Pruned(old(lines), now - retentionDays * SECONDS_PER_DAY, parse) else old(lines)
    {
      if !present {
        return;
      }
      var cutoff := now - retentionDays * SECONDS_PER_DAY;
      lines := PruneLines(lines, cutoff, parse);
    }

    /** `log_action(action, result, message)` at time `now`, whose text is
        `timestamp`. Opening for append creates a missing file; `big` is
        whether the file then exceeds 1 000 000 bytes, which prunes it with
        the default retention. */
    method LogAction(timestamp: string, action: string, result: string, message: string, now: int, big: bool, parse: Parse)
      modifies this
      ensures present
      ensures var grown := old(lines) + [Entry(timestamp, action, result, message) + "\n"];
        lines == if big then Pruned(grown, now - LOG_RETENTION_DAYS * SECONDS_PER_DAY, parse) else grown
    {
      var entry := FormatEntry(timestamp, action, result, message);
      present := true;
      lines := lines + [entry + "\n"];
      if big {
        PruneOldLogs(LOG_RETENTION_DAYS, now, parse);
      }
    }
  }

  /** A fresh entry survives the pruning it may trigger when its own
      timestamp is read back at or after the cutoff. */
  lemma FreshEntryKept(lines: seq<string>, timestamp: string, action: string, result: string, message: string, cutoff: int, parse: Parse)
    requires ']' !in timestamp && Strip(timestamp) == timestamp
    requires parse(timestamp).Some? && parse(timestamp).value >= cutoff
    ensures var line := Entry(timestamp, action, result, message) + "\n";
      Pruned(lines + [line], cutoff, parse) == Pruned(lines, cutoff, parse) + [line]
  {
    var line := Entry(timestamp, action, result, message) + "\n";
    EntryTimestamp(timestamp, action, result, message, parse);
    var keep := Keeper(cutoff, parse);
    FilterAppend(lines, [line], keep);
    FilterOne(line, keep);
  }
}
