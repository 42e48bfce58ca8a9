/**
 * Actions/screenshot.py: `next_screenshot_path` numbers screenshots
 * "screenshot 1.png", "screenshot 2.png", ... in a directory. It takes the
 * largest number among the files whose names fit the pattern, adds one, and
 * then steps past any name that is already taken. The directory listing is
 * a parameter; the one pattern the function compiles is matched by a small
 * parser, proved equal to the pattern's shape.
 */
module Screenshot {
  import opened Wrappers
  import opened Text

  /** One entry of the directory: its name and whether it is a regular
      file (`is_file()`); `exists()` holds for every entry. */
  datatype Entry = Entry(name: string, isFile: bool)

  /** `ext.lstrip('.')`. */
  function LStripDots(ext: string): (r: string)
    ensures EndsWith(ext, r) && (|r| > 0 ==> r[0] != '.')
    ensures forall i :: 0 <= i < |ext| - |r| ==> ext[i] == '.'
  {
    if ext != [] && ext[0] == '.' then LStripDots(ext[1..]) else ext
  }

  /** The length of the leading run of whitespace. */
  function SpaceRun(s: string): (k: nat)
    ensures k <= |s| && (k < |s| ==> !IsSpace(s[k]))
    ensures forall i :: 0 <= i < k ==> IsSpace(s[i])
  {
    if s != [] && IsSpace(s[0]) then 1 + SpaceRun(s[1..]) else 0
  }

  /** The length of the leading run of ASCII digits. */
  function DigitRun(s: string): (k: nat)
    ensures k <= |s| && (k < |s| ==> !IsDigit(s[k]))
    ensures forall i :: 0 <= i < k ==> IsDigit(s[i])
  {
    if s != [] && IsDigit(s[0]) then 1 + DigitRun(s[1..]) else 0
  }

  /** The number `^screenshot\s+(\d+)\.<stem>$` (ignoring case) captures in
      `name`, where `stem` is the extension without its leading dots; None
      when the name does not match. */
  function ShotNumber(name: string, stem: string): Option<nat> {
    if |name| < 10 || Lower(name[..10]) != "screenshot" then None
    else AfterWord(name[10..], stem)
  }

  /** The rest of the match after "screenshot": `\s+(\d+)\.<stem>$`. */
  function AfterWord(r: string, stem: string): Option<nat> {
    var k := SpaceRun(r);
    if k == 0 then None else AfterSpace(r[k..], stem)
  }

  /** The rest of the match after the whitespace: `(\d+)\.<stem>$`. */
  function AfterSpace(r: string, stem: string): Option<nat> {
    var j := DigitRun(r);
    if j == 0 || j == |r| || r[j] != '.' || Lower(r[j + 1..]) != Lower(stem) then None
    else Some(DecimalValue(r[..j]))
  }

  /** `name` splits as the pattern reads it: "screenshot" in any case, one
      or more whitespace characters, the digits of `n`, a dot and the stem in
      any case. */
  predicate Shaped(name: string, stem: string, pre: string, sp: string, ds: string, tail: string, n: nat) {
    && name == pre + sp + ds + "." + tail
    && Lower(pre) == "screenshot"
    && sp != [] && (forall i :: 0 <= i < |sp| ==> IsSpace(sp[i]))
    && ds != [] && (forall i :: 0 <= i < |ds| ==> IsDigit(ds[i]))
    && Lower(tail) == Lower(stem)
    && DecimalValue(ds) == n
  }

  /** Every match has the pattern's shape ... */
  lemma ShotNumberShaped(name: string, stem: string) returns (pre: string, sp: string, ds: string, tail: string)
    requires ShotNumber(name, stem).Some?
    ensures Shaped(name, stem, pre, sp, ds, tail, ShotNumber(name, stem).value)
  {
    var r := name[10..];
    pre := name[..10];
    assert Lower(pre) == "screenshot";
    assert AfterWord(r, stem) == ShotNumber(name, stem);
    var rest;
    sp, rest, ds, tail := AfterWordShaped(r, stem);
    assert name == pre + r;
    ShapedJoin(name, stem, pre, sp, rest, ds, tail, ShotNumber(name, stem).value);
  }

  lemma ShapedJoin(name: string, stem: string, pre: string, sp: string, rest: string, ds: string, tail: string, n: nat)
    requires name == pre + (sp + rest) && rest == ds + "." + tail
    requires Lower(pre) == "screenshot"
    requires sp != [] && (forall i :: 0 <= i < |sp| ==> IsSpace(sp[i]))
    requires ds != [] && (forall i :: 0 <= i < |ds| ==> IsDigit(ds[i]))
    requires Lower(tail) == Lower(stem) && DecimalValue(ds) == n
    ensures Shaped(name, stem, pre, sp, ds, tail, n)
  {
    JoinFive(pre, sp, ds, ".", tail);
  }

  lemma JoinFive(a: string, b: string, c: string, d: string, e: string)
    ensures a + b + c + d + e == a + (b + (c + d + e))
  {
    assert a + b + c + d + e == (a + b) + (c + d + e);
    assert (a + b) + (c + d + e) == a + (b + (c + d + e));
  }

  lemma AfterWordShaped(r: string, stem: string) returns (sp: string, rest: string, ds: string, tail: string)
    requires AfterWord(r, stem).Some?
    ensures r == sp + rest && rest == ds + "." + tail
    ensures sp != [] && (forall i :: 0 <= i < |sp| ==> IsSpace(sp[i]))
    ensures ds != [] && (forall i :: 0 <= i < |ds| ==> IsDigit(ds[i]))
    ensures Lower(tail) == Lower(stem) && DecimalValue(ds) == AfterWord(r, stem).value
  {
    var k := SpaceRun(r);
    sp, rest := r[..k], r[k..];
    ds, tail := DigitsShaped(rest, stem);
    assert r == sp + rest;
  }

  lemma DigitsShaped(r: string, stem: string) returns (ds: string, tail: string)
    requires AfterSpace(r, stem).Some?
    ensures r == ds + "." + tail && ds != [] && (forall i :: 0 <= i < |ds| ==> IsDigit(ds[i]))
    ensures Lower(tail) == Lower(stem) && DecimalValue(ds) == AfterSpace(r, stem).value
  {
    var j := DigitRun(r);
    ds, tail := r[..j], r[j + 1..];
    assert r == ds + [r[j]] + tail;
  }

  /** ... and every name of that shape matches with its number. */
  lemma ShapedShotNumber(name: string, stem: string, pre: string, sp: string, ds: string, tail: string, n: nat)
    requires Shaped(name, stem, pre, sp, ds, tail, n)
    ensures ShotNumber(name, stem) == Some(n)
  {
    assert |pre| == 10 by {
      assert |Lower(pre)| == |pre|;
    }
    var rest := ds + "." + tail;
    assert name == pre + (sp + rest);
    assert name[..10] == pre;
    assert name[10..] == sp + rest;
    AfterWordOf(sp, rest, stem);
    AfterSpaceOf(ds, tail, stem);
  }

  lemma AfterWordOf(sp: string, rest: string, stem: string)
    requires sp != [] && (forall i :: 0 <= i < |sp| ==> IsSpace(sp[i]))
    requires rest != [] && IsDigit(rest[0])
    ensures AfterWord(sp + rest, stem) == AfterSpace(rest, stem)
  {
    SpaceRunOf(sp, rest);
    assert (sp + rest)[|sp|..] == rest;
  }

  lemma AfterSpaceOf(ds: string, tail: string, stem: string)
    requires ds != [] && (forall i :: 0 <= i < |ds| ==> IsDigit(ds[i]))
    requires Lower(tail) == Lower(stem)
    ensures AfterSpace(ds + "." + tail, stem) == Some(DecimalValue(ds))
  {
    assert "." == ['.'];
    PiecesOf(ds, '.', tail);
    DigitRunOf(ds, "." + tail);
  }

  lemma SpaceRunOf(sp: string, rest: string)
    requires forall i :: 0 <= i < |sp| ==> IsSpace(sp[i])
    requires rest != [] && IsDigit(rest[0])
    ensures SpaceRun(sp + rest) == |sp|
  {
    var s := sp + rest;
    assert s[|sp|] == rest[0];
    assert forall i :: 0 <= i < |sp| ==> s[i] == sp[i];
  }

  lemma DigitRunOf(ds: string, rest: string)
    requires forall i :: 0 <= i < |ds| ==> IsDigit(ds[i])
    requires rest != [] && !IsDigit(rest[0])
    ensures DigitRun(ds + rest) == |ds|
  {
    var s := ds + rest;
    assert s[|ds|] == rest[0];
    assert forall i :: 0 <= i < |ds| ==> s[i] == ds[i];
  }

  /** A name ends in the stem only if it ends with ".stem" ignoring case;
      names written with another extension never count. */
  lemma MatchEndsWithStem(name: string, stem: string)
    requires ShotNumber(name, stem).Some?
    ensures |name| > |stem| && name[|name| - |stem| - 1] == '.' && Lower(name[|name| - |stem|..]) == Lower(stem)
  {
    var pre, sp, ds, tail := ShotNumberShaped(name, stem);
    assert |Lower(tail)| == |tail|;
    assert |Lower(stem)| == |stem|;
    assert name == (pre + sp + ds + ".") + tail;
    assert name[|name| - |stem|..] == tail;
  }

  /** The entries that count: regular files whose names match. */
  predicate Counted(e: Entry, stem: string) {
    e.isFile && ShotNumber(e.name, stem).Some?
  }

  /** The number an entry contributes: its match when it is a regular file. */
  function Number(e: Entry, stem: string): (n: Option<nat>)
    ensures n.Some? <==> Counted(e, stem)
    ensures n.Some? ==> n == ShotNumber(e.name, stem)
  {
    if e.isFile then ShotNumber(e.name, stem) else None
  }

  /** The largest of the numbers `num` gives the items, 0 when it gives none. */
  function MaxOf<T>(xs: seq<T>, num: T -> Option<nat>): (m: nat)
    ensures forall k :: 0 <= k < |xs| && num(xs[k]).Some? ==> num(xs[k]).value <= m
    ensures m == 0 || exists k :: 0 <= k < |xs| && num(xs[k]) == Some(m)
  {
    if xs == [] then 0
    else
      var m := MaxOf(xs[..|xs| - 1], num);
      var n := num(xs[|xs| - 1]);
      assert forall k :: 0 <= k < |xs| - 1 ==> xs[..|xs| - 1][k] == xs[k];
      if n.Some? && n.value > m then n.value else m
  }

  /** The largest number among the entries that count, 0 when none does. */
  function MaxNumber(es: seq<Entry>, stem: string): (m: nat)
    ensures forall k :: 0 <= k < |es| && Counted(es[k], stem) ==> ShotNumber(es[k].name, stem).value <= m
    ensures m == 0 || exists k :: 0 <= k < |es| && Counted(es[k], stem) && ShotNumber(es[k].name, stem).value == m
  {
    var num := e => Number(e, stem);
    assert forall k :: 0 <= k < |es| ==> num(es[k]) == Number(es[k], stem);
    MaxOf(es, num)
  }

  /** The candidate name `f"screenshot {n}{ext}"`. */
  function ShotName(n: nat, ext: string): string {
    "screenshot " + NatToString(n) + ext
  }

  lemma ShotNameInjective(a: nat, b: nat, ext: string)
    requires ShotName(a, ext) == ShotName(b, ext)
    ensures a == b
  {
    var sa, sb := ShotName(a, ext), ShotName(b, ext);
    assert |NatToString(a)| == |NatToString(b)|;
    assert NatToString(a) == sa[11..|sa| - |ext|];
    assert NatToString(b) == sb[11..|sb| - |ext|];
    NatToStringInjective(a, b);
  }

  /** `(base / name).exists()`: some entry, file or not, has the name. */
  predicate Taken(es: seq<Entry>, name: string) {
    exists k :: 0 <= k < |es| && es[k].name == name
  }

  /** The entries still named like a candidate at or after `n`. */
  ghost function Ahead(es: seq<Entry>, ext: string, n: nat): set<nat> {
    set k | 0 <= k < |es| && exists m: nat :: m >= n && ShotName(m, ext) == es[k].name
  }

  lemma AheadShrinks(es: seq<Entry>, ext: string, n: nat)
    requires Taken(es, ShotName(n, ext))
    ensures |Ahead(es, ext, n + 1)| < |Ahead(es, ext, n)|
  {
    var k :| 0 <= k < |es| && es[k].name == ShotName(n, ext);
    var now, next := Ahead(es, ext, n), Ahead(es, ext, n + 1);
    assert k in now;
    if k in next {
      var m: nat :| m >= n + 1 && ShotName(m, ext) == es[k].name;
      ShotNameInjective(m, n, ext);
    }
    assert next <= now - {k};
    assert |now - {k}| == |now| - 1;
    SubsetSize(next, now - {k});
  }

  lemma SubsetSize(a: set<nat>, b: set<nat>)
    requires a <= b
    ensures |a| <= |b|
  {
    assert b == a + (b - a);
  }

  /** `next_screenshot_path(base_dir, ext)`: the number and the file name it
      returns for a directory with these entries. */
  method NextScreenshotPath(es: seq<Entry>, ext: string) returns (n: nat, name: string)
    ensures name == ShotName(n, ext) && !Taken(es, name)
    ensures forall k :: 0 <= k < |es| && Counted(es[k], LStripDots(ext)) ==> ShotNumber(es[k].name, LStripDots(ext)).value < n
    ensures n > MaxNumber(es, LStripDots(ext))
    ensures forall m :: MaxNumber(es, LStripDots(ext)) < m < n ==> Taken(es, ShotName(m, ext))
  {
    var maxN := LargestNumber(es, LStripDots(ext));
    n := FirstFree(es, ext, maxN + 1);
    name := ShotName(n, ext);
  }

  /** The first loop: the largest number among the matching files. */
  method LargestNumber(es: seq<Entry>, stem: string) returns (maxN: nat)
    ensures maxN == MaxNumber(es, stem)
  {
    maxN := 0;
    for i := 0 to |es|
      invariant maxN == MaxNumber(es[..i], stem)
    {
      assert es[..i + 1][..i] == es[..i];
      assert MaxNumber(es[..i + 1], stem) == MaxOf(es[..i + 1], e => Number(e, stem));
      if es[i].isFile {
        var m := ShotNumber(es[i].name, stem);
        if m.Some? && m.value > maxN {
          maxN := m.value;
        }
      }
    }
    assert es[..|es|] == es;
  }

  /** The second loop: the first candidate from `start` on whose name is
      free. */
  method FirstFree(es: seq<Entry>, ext: string, start: nat) returns (n: nat)
    ensures n >= start && !Taken(es, ShotName(n, ext))
    ensures forall m :: start <= m < n ==> Taken(es, ShotName(m, ext))
  {
    n := start;
    while Taken(es, ShotName(n, ext))
      invariant n >= start
      invariant forall m :: start <= m < n ==> Taken(es, ShotName(m, ext))
      decreases |Ahead(es, ext, n)|
    {
      AheadShrinks(es, ext, n);
      n := n + 1;
    }
  }

  /** With no matching file, numbering starts at 1 unless "screenshot 1" is
      taken by something else. */
  lemma FirstShot(es: seq<Entry>, ext: string)
    requires forall k :: 0 <= k < |es| ==> !Counted(es[k], LStripDots(ext))
    ensures MaxNumber(es, LStripDots(ext)) == 0
  {
  }

  /** The name written for a number is read back as that number when the
      extension starts with a dot: the next call sees this screenshot. */
  lemma ShotNameMatches(n: nat, ext: string)
    requires |ext| > 0 && ext[0] == '.' && (|ext| == 1 || ext[1] != '.')
    ensures ShotNumber(ShotName(n, ext), LStripDots(ext)) == Some(n)
  {
    var stem := ext[1..];
    assert ext == "." + stem;
    assert LStripDots(ext) == stem by {
      assert LStripDots(ext) == LStripDots(stem);
    }
    NamedShape(n, stem);
  }

  lemma NamedShape(n: nat, stem: string)
    ensures ShotNumber(ShotName(n, "." + stem), stem) == Some(n)
  {
    var ds := NatToString(n);
    DecimalRoundTrip(n);
    LowerWord();
    assert ShotName(n, "." + stem) == "screenshot" + " " + ds + "." + stem;
    assert Shaped(ShotName(n, "." + stem), stem, "screenshot", " ", ds, stem, n);
    ShapedShotNumber(ShotName(n, "." + stem), stem, "screenshot", " ", ds, stem, n);
  }

  lemma LowerWord()
    ensures Lower("screenshot") == "screenshot"
  {
    LowerIdempotent("screenshot");
  }
}
