/**
 * Actions/security.py: the allow-list of apps and sites. The file's kept
 * lines are stored lower-cased; an app is allowed by exact name or by an
 * ".exe" entry it ends with, a site by an "http" entry it starts with.
 */
module Security {
  import opened Wrappers
  import opened Text
  import Lines

  /** The entries stored for the lines of the file: stripped, kept (not
      blank, not a `#` comment), lower-cased. */
  function Allowed(lines: seq<string>): (r: set<string>)
    ensures forall x :: x in r ==> IsLower(x)
  {
    LowerAllLower(lines);
    set i | 0 <= i < |lines| && Lines.Kept(Strip(lines[i])) :: Lower(Strip(lines[i]))
  }

  lemma LowerAllLower(lines: seq<string>)
    ensures forall i :: 0 <= i < |lines| ==> IsLower(Lower(Strip(lines[i])))
  {
    forall i | 0 <= i < |lines| {
      LowerIsLower(Strip(lines[i]));
    }
  }

  /** `load_whitelist(path)`: `file` is the text, None when the file does not
      exist (FileNotFoundError gives the empty set). */
  method LoadWhitelist(file: Option<string>) returns (allowed: set<string>)
    ensures file.None? ==> allowed == {}
    ensures file.Some? ==> allowed == Allowed(Lines.FileLines(file.value))
  {
    if file.None? {
      return {};
    }
    allowed := CollectAllowed(Lines.FileLines(file.value));
  }

  /** The loop over the file's lines. */
  method CollectAllowed(lines: seq<string>) returns (allowed: set<string>)
    ensures allowed == Allowed(lines)
  {
    allowed := {};
    for n := 0 to |lines|
      invariant allowed == Allowed(lines[..n])
    {
      AllowedStep(lines, n);
      var s := Strip(lines[n]);
      if s != "" && !StartsWith(s, "#") {
        allowed := allowed + {Lower(s)};
      }
    }
    assert lines[..|lines|] == lines;
  }

  lemma AllowedStep(lines: seq<string>, n: nat)
    requires n < |lines|
    ensures Allowed(lines[..n + 1]) == Allowed(lines[..n]) + (if Lines.Kept(Strip(lines[n])) then {Lower(Strip(lines[n]))} else {})
  {
    assert lines[..n + 1] == lines[..n] + [lines[n]];
    AllowedSnoc(lines[..n], lines[n]);
  }

  lemma AllowedSnoc(lines: seq<string>, ln: string)
    ensures Allowed(lines + [ln]) == Allowed(lines) + (if Lines.Kept(Strip(ln)) then {Lower(Strip(ln))} else {})
  {
    var all := lines + [ln];
    assert forall i :: 0 <= i < |lines| ==> all[i] == lines[i];
    assert all[|lines|] == ln;
  }

  /** The stored entries are the lower-cased commands of the same lines, so
      the two whitelist readers agree up to letter case. */
  lemma AllowedAreLoweredCommands(lines: seq<string>)
    ensures Allowed(lines) == set x | x in Lines.Commands(lines) :: Lower(x)
  {
    forall y | y in Allowed(lines)
      ensures y in set x | x in Lines.Commands(lines) :: Lower(x)
    {
      var i :| 0 <= i < |lines| && Lines.Kept(Strip(lines[i])) && y == Lower(Strip(lines[i]));
      assert Strip(lines[i]) in Lines.Commands(lines);
    }
  }

  /** `(target or "").lower()`. */
  function Folded(s: Option<string>): string {
    Lower(s.GetOr(""))
  }

  /** An ".exe" entry the target ends with. */
  predicate ExeSuffix(a: string, t: string) {
    EndsWith(a, ".exe") && EndsWith(t, a)
  }

  /** An "http" entry the URL starts with. */
  predicate HttpPrefix(a: string, u: string) {
    StartsWith(a, "http") && StartsWith(u, a)
  }

  /** `is_allowed_app(target, allowed)`. */
  predicate AllowedApp(target: Option<string>, allowed: set<string>) {
    var t := Folded(target);
    t in allowed || exists a :: a in allowed && ExeSuffix(a, t)
  }

  /** `is_allowed_site(url, allowed)`. */
  predicate AllowedSite(url: Option<string>, allowed: set<string>) {
    var u := Folded(url);
    exists a :: a in allowed && HttpPrefix(a, u)
  }

  /** `is_allowed_app`: the membership test, then the scan of the set in
      whatever order it is visited. */
  method IsAllowedApp(target: Option<string>, allowed: set<string>) returns (ok: bool)
    ensures ok <==> AllowedApp(target, allowed)
  {
    var t := Folded(target);
    if t in allowed {
      return true;
    }
    var rest := allowed;
    while rest != {}
      invariant rest <= allowed
      invariant forall a :: a in allowed - rest ==> !ExeSuffix(a, t)
      decreases |rest|
    {
      var a :| a in rest;
      if EndsWith(a, ".exe") && EndsWith(t, a) {
        return true;
      }
      rest := rest - {a};
    }
    return false;
  }

  /** `is_allowed_site`: the scan of the set in whatever order it is visited. */
  method IsAllowedSite(url: Option<string>, allowed: set<string>) returns (ok: bool)
    ensures ok <==> AllowedSite(url, allowed)
  {
    var u := Folded(url);
    var rest := allowed;
    while rest != {}
      invariant rest <= allowed
      invariant forall a :: a in allowed - rest ==> !HttpPrefix(a, u)
      decreases |rest|
    {
      var a :| a in rest;
      if StartsWith(a, "http") && StartsWith(u, a) {
        return true;
      }
      rest := rest - {a};
    }
    return false;
  }

  /** Adding entries never withdraws a permission. */
  lemma AllowedMonotone(target: Option<string>, url: Option<string>, small: set<string>, big: set<string>)
    requires small <= big
    ensures AllowedApp(target, small) ==> AllowedApp(target, big)
    ensures AllowedSite(url, small) ==> AllowedSite(url, big)
  {
  }

  /** Letter case never matters: targets and URLs are lowered first. */
  lemma AllowedCaseless(target: string, allowed: set<string>)
    ensures AllowedApp(Some(Lower(target)), allowed) == AllowedApp(Some(target), allowed)
    ensures AllowedSite(Some(Lower(target)), allowed) == AllowedSite(Some(target), allowed)
  {
    LowerIsLower(target);
    LowerIdempotent(Lower(target));
  }

  /** Nothing is allowed by an empty set, and no site by a missing or empty
      URL. */
  lemma NothingAllowed(target: Option<string>, url: Option<string>, allowed: set<string>)
    ensures !AllowedApp(target, {}) && !AllowedSite(url, {})
    ensures url.None? || url == Some("") ==> !AllowedSite(url, allowed)
  {
    if url.None? || url == Some("") {
      assert Folded(url) == "";
      forall a | a in allowed
        ensures !HttpPrefix(a, "")
      {
      }
    }
  }

  /** A site entry that does not start with "http" allows nothing, and an
      app entry without ".exe" only allows itself. */
  lemma EntryShapes(a: string, t: string, allowed: set<string>)
    requires a in allowed && !StartsWith(a, "http")
    ensures AllowedSite(Some(t), allowed) == AllowedSite(Some(t), allowed - {a})
    ensures !EndsWith(a, ".exe") ==> (AllowedApp(Some(t), allowed) <==> Folded(Some(t)) == a || AllowedApp(Some(t), allowed - {a}))
  {
  }
}
