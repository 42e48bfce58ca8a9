/**
 * jarvis_main.py: `normalize_transcript` and `apply_common_normalize`.
 *
 * Lower-casing, trimming, whitespace collapsing and the wake-word prefix are
 * modelled exactly. The three steps that depend on regex word classes and
 * boundaries (punctuation to spaces, dropping polite words, and the ordered
 * mishearing fixes of COMMON_NORMALIZE) are parameters: functions on strings
 * applied in the order the source lists them.
 */
module Transcript {
  import opened Text

  /** `^(jarvis|hey jarvis|hey|ok|okay)\s+`, alternatives in this order. */
  const WAKE_PREFIXES: seq<string> := ["jarvis", "hey jarvis", "hey", "ok", "okay"]

  /** `prefix` followed by at least one whitespace character opens `s`. */
  predicate WakeAt(s: string, prefix: string) {
    StartsWith(s, prefix) && |s| > |prefix| && IsSpace(s[|prefix|])
  }

  /** The regex removal of the first alternative that matches, together with
      the whole whitespace run after it (`\s+` is greedy). */
  function DropWake(s: string, prefixes: seq<string>): (r: string)
    ensures |r| <= |s| && r == s[|s| - |r|..]
    decreases |prefixes|
  {
    if |prefixes| == 0 then s
    else if WakeAt(s, prefixes[0]) then LStrip(s[|prefixes[0]|..])
    else DropWake(s, prefixes[1..])
  }

  lemma DropWakeKeepsLower(s: string, prefixes: seq<string>)
    requires IsLower(s)
    ensures IsLower(DropWake(s, prefixes))
  {
    var r := DropWake(s, prefixes);
    SuffixKeepsLower(s, |s| - |r|);
  }

  /** With no alternative matching at the start the text is unchanged. */
  lemma {:induction false} DropWakeNone(s: string, prefixes: seq<string>)
    requires forall i :: 0 <= i < |prefixes| ==> !WakeAt(s, prefixes[i])
    ensures DropWake(s, prefixes) == s
    decreases |prefixes|
  {
    if |prefixes| > 0 {
      assert forall i :: 1 <= i < |prefixes| ==> prefixes[1..][i - 1] == prefixes[i];
      DropWakeNone(s, prefixes[1..]);
    }
  }

  /** At most one prefix is removed: the first alternative matching at the
      start, together with its whitespace run. */
  lemma {:induction false} DropWakeFirst(s: string, prefixes: seq<string>, i: nat)
    requires i < |prefixes| && WakeAt(s, prefixes[i])
    requires forall j :: 0 <= j < i ==> !WakeAt(s, prefixes[j])
    ensures DropWake(s, prefixes) == LStrip(s[|prefixes[i]|..])
    decreases i
  {
    if i > 0 {
      assert prefixes[1..][i - 1] == prefixes[i];
      assert forall j :: 0 <= j < i - 1 ==> prefixes[1..][j] == prefixes[j + 1];
      DropWakeFirst(s, prefixes[1..], i - 1);
    }
  }

  /** What is left after a removed prefix starts with no whitespace. */
  lemma {:induction false} DropWakeLeavesNoSpace(s: string, prefixes: seq<string>)
    ensures var r := DropWake(s, prefixes); r != s && |r| > 0 ==> !IsSpace(r[0])
    decreases |prefixes|
  {
    if |prefixes| > 0 && !WakeAt(s, prefixes[0]) {
      DropWakeLeavesNoSpace(s, prefixes[1..]);
    }
  }

  /** Apply every rewrite in order, as `for pattern, repl in ...: s = re.sub(...)`. */
  function ApplyAll(rules: seq<string -> string>, s: string): string
    decreases |rules|
  {
    if |rules| == 0 then s else ApplyAll(rules[1..], rules[0](s))
  }

  /** Applying two rule lists one after the other is applying their
      concatenation. */
  lemma {:induction false} ApplyAllAppend(a: seq<string -> string>, b: seq<string -> string>, s: string)
    ensures ApplyAll(a + b, s) == ApplyAll(b, ApplyAll(a, s))
    decreases |a|
  {
    if |a| > 0 {
      assert (a + b)[0] == a[0] && (a + b)[1..] == a[1..] + b;
      ApplyAllAppend(a[1..], b, a[0](s));
    } else {
      assert a + b == b;
    }
  }

  /** Rewrites that each keep a property keep it all the way. */
  lemma {:induction false} ApplyAllKeeps(rules: seq<string -> string>, s: string, P: string -> bool)
    requires P(s)
    requires forall i, x :: 0 <= i < |rules| && P(x) ==> P(rules[i](x))
    ensures P(ApplyAll(rules, s))
    decreases |rules|
  {
    if |rules| > 0 {
      assert forall i :: 1 <= i < |rules| ==> rules[1..][i - 1] == rules[i];
      ApplyAllKeeps(rules[1..], rules[0](s), P);
    }
  }

  /** `apply_common_normalize(text)`: the loop over the rewrite table. */
  method ApplyCommonNormalize(text: string, rules: seq<string -> string>) returns (s: string)
    ensures s == ApplyAll(rules, text)
  {
    s := text;
    for i := 0 to |rules|
      invariant ApplyAll(rules, text) == ApplyAll(rules[i..], s)
    {
      assert rules[i..][1..] == rules[i + 1..];
      s := rules[i](s);
    }
    assert rules[|rules|..] == [];
  }

  /** `normalize_transcript(text)`; `punct` is `re.sub(r"[^\w\s]", " ", .)`,
      `polite` the removal of the polite words and `rules` the table. */
  function NormalizeTranscript(text: string, punct: string -> string, polite: string -> string,
                               rules: seq<string -> string>): string
  {
    var s := Strip(Lower(text));
    var s := Collapse(punct(s));
    var s := DropWake(s, WAKE_PREFIXES);
    var s := Strip(polite(s));
    Squash(ApplyAll(rules, s))
  }

  /** Whatever the rewrites do, the transcript comes out trimmed with single
      spaces between words. */
  lemma NormalizedIsSquashed(text: string, punct: string -> string, polite: string -> string,
                             rules: seq<string -> string>)
    ensures IsSquashed(NormalizeTranscript(text, punct, polite, rules))
  {
    var s := Strip(Polite(text, punct, polite));
    SquashIsSquashed(ApplyAll(rules, s));
  }

  function Polite(text: string, punct: string -> string, polite: string -> string): string {
    polite(DropWake(Collapse(punct(Strip(Lower(text)))), WAKE_PREFIXES))
  }

  /** When the rewrites never introduce upper-case letters (none of the
      replacement texts has any), the transcript is lower-case. */
  lemma NormalizedIsLower(text: string, punct: string -> string, polite: string -> string,
                          rules: seq<string -> string>)
    requires forall x :: IsLower(x) ==> IsLower(punct(x)) && IsLower(polite(x))
    requires forall i, x :: 0 <= i < |rules| && IsLower(x) ==> IsLower(rules[i](x))
    ensures IsLower(NormalizeTranscript(text, punct, polite, rules))
  {
    LowerIsLower(text);
    StripKeepsLower(Lower(text));
    var s0 := Strip(Lower(text));
    CollapseKeepsLower(punct(s0));
    var s1 := Collapse(punct(s0));
    DropWakeKeepsLower(s1, WAKE_PREFIXES);
    var s2 := DropWake(s1, WAKE_PREFIXES);
    StripKeepsLower(polite(s2));
    var s3 := Strip(polite(s2));
    ApplyAllKeeps(rules, s3, IsLower);
    SquashKeepsLower(ApplyAll(rules, s3));
  }
}
