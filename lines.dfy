/**
 * Reading a whitelist file: the text is cut into lines, each line is
 * stripped, and blank lines and `#` comments are dropped.
 *
 * jarvis_main.py and Core/validator.py cut the text with `str.splitlines()`;
 * Actions/security.py iterates over a file opened in text mode, where
 * universal newlines turn "\r\n" and "\r" into "\n". Both are `SplitOn`
 * with a different set of line-break characters.
 */
module Lines {
  import opened Text

  /** The characters `str.splitlines()` breaks at. */
  predicate LineBreak(c: char) {
    || c == '\n' || c == '\r' || c == '\U{0B}' || c == '\U{0C}'
    || c == '\U{1C}' || c == '\U{1D}' || c == '\U{1E}' || c == '\U{85}'
    || c == '\U{2028}' || c == '\U{2029}'
  }

  /** The line ends of a file read in text mode (universal newlines). */
  predicate FileBreak(c: char) {
    c == '\n' || c == '\r'
  }

  /** The index of the first break character in `s`, or `|s|`. */
  function FirstBreak(s: string, brk: char -> bool): (k: nat)
    ensures k <= |s|
    ensures k < |s| ==> brk(s[k])
    ensures forall i :: 0 <= i < k ==> !brk(s[i])
  {
    if |s| == 0 || brk(s[0]) then 0 else 1 + FirstBreak(s[1..], brk)
  }

  /** The lines of `s` without their line ends; "\r\n" ends one line, and
      a final line end does not open an empty last line. */
  function SplitOn(s: string, brk: char -> bool): (r: seq<string>)
    ensures r == [] <==> s == ""
    ensures forall i, j :: 0 <= i < |r| && 0 <= j < |r[i]| ==> !brk(r[i][j])
    decreases |s|
  {
    if s == "" then []
    else
      var k := FirstBreak(s, brk);
      if k == |s| then [s]
      else
        var next := if s[k] == '\r' && k + 1 < |s| && s[k + 1] == '\n' then k + 2 else k + 1;
        [s[..k]] + SplitOn(s[next..], brk)
  }

  /** `text.splitlines()`. */
  function SplitLines(text: string): seq<string> {
    SplitOn(text, LineBreak)
  }

  /** The lines `for line in f` visits, line ends removed. */
  function FileLines(text: string): seq<string> {
    SplitOn(text, FileBreak)
  }

  /** Text without a line break is one line. */
  lemma OneLine(s: string, brk: char -> bool)
    requires s != "" && forall i :: 0 <= i < |s| ==> !brk(s[i])
    ensures SplitOn(s, brk) == [s]
  {
  }

  /** A line followed by "\n" comes first, and the rest is split on its own. */
  lemma {:induction false} LineThen(a: string, b: string, brk: char -> bool)
    requires forall i :: 0 <= i < |a| ==> !brk(a[i])
    requires brk('\n')
    ensures SplitOn(a + "\n" + b, brk) == [a] + SplitOn(b, brk)
  {
    var s := a + "\n" + b;
    assert s[|a|] == '\n';
    assert forall i :: 0 <= i < |a| ==> s[i] == a[i];
    assert FirstBreak(s, brk) == |a|;
    assert s[..|a|] == a;
    assert s[|a| + 1..] == b;
  }

  /** A stripped line the whitelist keeps: not empty, not a `#` comment. */
  predicate Kept(ln: string) {
    ln != "" && !StartsWith(ln, "#")
  }

  /** The command names of a whitelist: its kept stripped lines. */
  function Commands(lines: seq<string>): (r: set<string>)
    ensures forall x :: x in r ==> Kept(x) && IsStripped(x)
  {
    StrippedLines(lines);
    KeptImage(lines, Strip, Kept)
  }

  /** The images under `f` of the items whose image `keep` accepts. */
  function KeptImage(items: seq<string>, f: string -> string, keep: string -> bool): set<string> {
    set i | 0 <= i < |items| && keep(f(items[i])) :: f(items[i])
  }

  lemma KeptImageSnoc(items: seq<string>, x: string, f: string -> string, keep: string -> bool)
    ensures KeptImage(items + [x], f, keep) == KeptImage(items, f, keep) + (if keep(f(x)) then {f(x)} else {})
  {
    var all := items + [x];
    assert forall i :: 0 <= i < |items| ==> all[i] == items[i];
    assert all[|items|] == x;
  }

  /** Every stripped line is stripped at both ends. */
  lemma StrippedLines(lines: seq<string>)
    ensures forall i :: 0 <= i < |lines| ==> IsStripped(Strip(lines[i]))
  {
    forall i | 0 <= i < |lines| ensures IsStripped(Strip(lines[i])) {
      var r := Strip(lines[i]);
      assert |r| > 0 ==> !IsSpace(r[0]) && !IsSpace(r[|r| - 1]);
    }
  }

  /** The loop of `load_whitelist` (jarvis_main.py and Core/validator.py):
      strip each line and add it unless it is blank or a comment. */
  method CollectCommands(lines: seq<string>) returns (cmds: set<string>)
    ensures cmds == Commands(lines)
  {
    cmds := {};
    for n := 0 to |lines|
      invariant cmds == Commands(lines[..n])
    {
      var ln := Strip(lines[n]);
      CommandsStep(lines, n);
      if ln != "" && !StartsWith(ln, "#") {
        cmds := cmds + {ln};
      }
    }
    assert lines[..|lines|] == lines;
  }

  /** One more line adds its stripped text when that is kept. */
  lemma CommandsSnoc(lines: seq<string>, ln: string)
    ensures Commands(lines + [ln]) == Commands(lines) + (if Kept(Strip(ln)) then {Strip(ln)} else {})
  {
    KeptImageSnoc(lines, ln, Strip, Kept);
  }

  /** The loop step of `CollectCommands`. */
  lemma CommandsStep(lines: seq<string>, n: nat)
    requires n < |lines|
    ensures var ln := Strip(lines[n]);
      Commands(lines[..n + 1]) == Commands(lines[..n]) + (if Kept(ln) then {ln} else {})
  {
    assert lines[..n + 1] == lines[..n] + [lines[n]];
    CommandsSnoc(lines[..n], lines[n]);
  }

  /** A name is a command exactly when some line strips to it and it is kept. */
  lemma CommandsExactly(lines: seq<string>, x: string)
    ensures x in Commands(lines) <==> Kept(x) && exists i :: 0 <= i < |lines| && Strip(lines[i]) == x
  {
  }

  /** Reading more lines never removes a command. */
  lemma CommandsGrow(a: seq<string>, b: seq<string>)
    ensures Commands(a) <= Commands(a + b)
  {
    forall x | x in Commands(a)
      ensures x in Commands(a + b)
    {
      var i :| 0 <= i < |a| && Kept(Strip(a[i])) && Strip(a[i]) == x;
      assert (a + b)[i] == a[i];
    }
  }
}
