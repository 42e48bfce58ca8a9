/**
 * The "best so far" scan both intent resolvers use:
 *
 *     best, best_score = None, 0.0
 *     for c in candidates:
 *         sc = score(c)
 *         if sc > best_score:
 *             best, best_score = c, sc
 *
 * over the candidates' scores, plus the set-cardinality facts the similarity
 * measures need.
 */
module Best {
  import opened Wrappers

  /** The candidate the scan ends on: the first one with the highest score,
      provided that score beats the initial 0.0. */
  function BestIndex(sc: seq<real>): (r: Option<nat>)
    ensures r.Some? ==> r.value < |sc| && sc[r.value] > 0.0
    ensures r.Some? ==> forall j :: 0 <= j < |sc| ==> sc[j] <= sc[r.value]
    ensures r.Some? ==> forall j :: 0 <= j < r.value ==> sc[j] < sc[r.value]
    ensures r.None? ==> forall j :: 0 <= j < |sc| ==> sc[j] <= 0.0
    decreases |sc|
  {
    if |sc| == 0 then None
    else
      var prev := BestIndex(sc[..|sc| - 1]);
      var bestScore := if prev.None? then 0.0 else sc[prev.value];
      if sc[|sc| - 1] > bestScore then Some(|sc| - 1) else prev
  }

  /** `best_score` after the scan. */
  function BestScore(sc: seq<real>): real {
    match BestIndex(sc)
    case None => 0.0
    case Some(k) => sc[k]
  }

  /** The postconditions of BestIndex determine it: any index that is positive,
      maximal and strictly above everything before it is the one chosen. */
  lemma BestIndexUnique(sc: seq<real>, k: nat)
    requires k < |sc| && sc[k] > 0.0
    requires forall j :: 0 <= j < |sc| ==> sc[j] <= sc[k]
    requires forall j :: 0 <= j < k ==> sc[j] < sc[k]
    ensures BestIndex(sc) == Some(k)
  {
  }

  /** One step of the scan: the next score replaces the best only when it is
      strictly higher. */
  lemma BestStep(sc: seq<real>, i: nat)
    requires i < |sc|
    ensures BestIndex(sc[..i + 1]) == if sc[i] > BestScore(sc[..i]) then Some(i) else BestIndex(sc[..i])
    ensures BestScore(sc[..i + 1]) == if sc[i] > BestScore(sc[..i]) then sc[i] else BestScore(sc[..i])
  {
    assert sc[..i + 1][..i] == sc[..i];
  }

  /** A part over a non-empty whole is a ratio in [0, 1]. */
  lemma Fraction(x: nat, y: nat)
    requires x <= y && 0 < y
    ensures 0.0 <= (x as real) / (y as real) <= 1.0
  {
    assert (x as real) / (y as real) * (y as real) == x as real;
  }

  lemma {:induction false} SubsetCard<T>(a: set<T>, b: set<T>)
    requires a <= b
    ensures |a| <= |b|
    decreases |a|
  {
    if a != {} {
      var x :| x in a;
      SubsetCard(a - {x}, b - {x});
    }
  }
}
