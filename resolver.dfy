/**
 * jarvis_main.py: `_charbigram_similarity` and `_resolve_from_entries`, the
 * six-tier resolver the command parser uses for app and site names.
 *
 * Matching is case-sensitive against the stored labels and aliases (which
 * intents loading has already lowered); only the spoken text is lowered here.
 */
module Resolver {
  import opened Wrappers
  import opened Dicts
  import opened Text
  import opened Best
  import opened Intents

  /** `set(zip(a, a[1:]))`: the adjacent character pairs of `s` (none when
      `len(s) <= 1`). */
  function Bigrams(s: string): set<(char, char)> {
    set i | 0 <= i < |s| - 1 :: Pair(s, i)
  }

  function Pair(s: string, i: nat): (char, char)
    requires i + 1 < |s|
  {
    (s[i], s[i + 1])
  }

  lemma BigramsShort(s: string)
    ensures Bigrams(s) == {} <==> |s| <= 1
  {
    if |s| > 1 {
      assert Pair(s, 0) in Bigrams(s);
    }
  }

  /** `_charbigram_similarity(a, b)`: Jaccard similarity of the bigram sets,
      and plain equality when neither string has a bigram. */
  function Similarity(a: string, b: string): (r: real)
    ensures 0.0 <= r <= 1.0
  {
    var a2 := Bigrams(a);
    var b2 := Bigrams(b);
    if a2 == {} && b2 == {} then (if a == b then 1.0 else 0.0)
    else
      SubsetCard(a2 * b2, a2 + b2);
      SubsetCard(if a2 != {} then a2 else b2, a2 + b2);
      Fraction(|a2 * b2|, |a2 + b2|);
      (|a2 * b2| as real) / (|a2 + b2| as real)
  }

  lemma SimilaritySymmetric(a: string, b: string)
    ensures Similarity(a, b) == Similarity(b, a)
  {
    assert Bigrams(a) * Bigrams(b) == Bigrams(b) * Bigrams(a);
    assert Bigrams(a) + Bigrams(b) == Bigrams(b) + Bigrams(a);
  }

  lemma SimilaritySelf(a: string)
    ensures Similarity(a, a) == 1.0
  {
    var a2 := Bigrams(a);
    assert a2 * a2 == a2 && a2 + a2 == a2;
  }

  /** Two strings of at most one character are compared for equality. */
  lemma SimilarityShort(a: string, b: string)
    requires |a| <= 1 && |b| <= 1
    ensures Similarity(a, b) == if a == b then 1.0 else 0.0
  {
    BigramsShort(a);
    BigramsShort(b);
  }

  /** A string with no bigram in common with the other scores 0, unless both
      are bigram-free and equal. */
  lemma SimilarityDisjoint(a: string, b: string)
    requires Bigrams(a) * Bigrams(b) == {} && (Bigrams(a) != {} || Bigrams(b) != {})
    ensures Similarity(a, b) == 0.0
  {
  }

  /** `[sim(s, c) for c in cands]`. */
  function Scores(s: string, cands: seq<string>): (r: seq<real>)
    ensures |r| == |cands| && forall i :: 0 <= i < |cands| ==> r[i] == Similarity(s, cands[i])
  {
    seq(|cands|, i requires 0 <= i < |cands| => Similarity(s, cands[i]))
  }

  /** The best-so-far loop of tiers 4 and 5: the index of the first candidate
      with the highest positive score, and that score (0.0 if none). */
  method FindBest(s: string, cands: seq<string>) returns (best: Option<nat>, bestScore: real)
    ensures best == BestIndex(Scores(s, cands))
    ensures bestScore == BestScore(Scores(s, cands))
  {
    ghost var scores := Scores(s, cands);
    best, bestScore := None, 0.0;
    for i := 0 to |cands|
      invariant best == BestIndex(scores[..i])
      invariant bestScore == BestScore(scores[..i])
    {
      var sc := Similarity(s, cands[i]);
      assert scores[i] == sc;
      BestStep(scores, i);
      if sc > bestScore {
        best, bestScore := Some(i), sc;
      }
    }
    assert scores[..|cands|] == scores;
  }

  /** The label and aliases of every enabled entry, in entry order. */
  function EnabledGroups(entries: Dict<Entry>): (g: AliasTable)
    ensures |g| <= |entries|
    decreases |entries|
  {
    if |entries| == 0 then []
    else
      var init := EnabledGroups(entries[..|entries| - 1]);
      var (lab, meta) := entries[|entries| - 1];
      if meta.enabled then init + [(lab, meta.aliases)] else init
  }

  /** `custom_alias_index`: each alias of each enabled entry maps to the
      entry's label, later entries overwriting earlier ones. */
  function CustomIndex(entries: Dict<Entry>): Dict<string> {
    Fill(EnabledGroups(entries))
  }

  /** `for a in aliases: idx[a] = label`. */
  method AssignAll(idx0: Dict<string>, keys: seq<string>, lab: string) returns (idx: Dict<string>)
    ensures idx == PutAll(idx0, keys, lab)
  {
    idx := idx0;
    for j := 0 to |keys|
      invariant idx == PutAll(idx0, keys[..j], lab)
    {
      PutAllStep(idx0, keys, j, lab);
      idx := Put(idx, keys[j], lab);
    }
    assert keys[..|keys|] == keys;
  }

  /** The loop that builds `custom_alias_index`, skipping disabled entries. */
  method BuildCustomIndex(entries: Dict<Entry>) returns (idx: Dict<string>)
    ensures idx == CustomIndex(entries)
  {
    idx := [];
    for i := 0 to |entries|
      invariant idx == Fill(EnabledGroups(entries[..i]))
    {
      assert entries[..i + 1][..i] == entries[..i];
      var lab, meta := entries[i].0, entries[i].1;
      if meta.enabled {
        assert Fill(EnabledGroups(entries[..i]) + [(lab, meta.aliases)])
          == PutAll(Fill(EnabledGroups(entries[..i])), meta.aliases, lab) by {
          var g := EnabledGroups(entries[..i]) + [(lab, meta.aliases)];
          assert g[..|g| - 1] == EnabledGroups(entries[..i]);
        }
        idx := AssignAll(idx, meta.aliases, lab);
      }
    }
    assert entries[..|entries|] == entries;
  }

  /** `[lab for lab, meta in entries.items() if meta.get("enabled", True)]`. */
  function EnabledLabels(entries: Dict<Entry>): (r: seq<string>)
    ensures forall l :: l in r <==> exists i :: 0 <= i < |entries| && entries[i].0 == l && entries[i].1.enabled
    decreases |entries|
  {
    if |entries| == 0 then []
    else
      var init := entries[..|entries| - 1];
      var last := entries[|entries| - 1];
      assert forall i :: 0 <= i < |init| ==> init[i] == entries[i];
      EnabledLabels(init) + (if last.1.enabled then [last.0] else [])
  }

  /** Tier 6: the first label such that `s in lab or lab in s`. */
  function FirstOverlap(s: string, labels: seq<string>): (r: Option<string>)
    ensures r.Some? ==> r.value in labels && (Contains(r.value, s) || Contains(s, r.value))
    ensures r.None? ==> forall l :: l in labels ==> !Contains(l, s) && !Contains(s, l)
  {
    if |labels| == 0 then None
    else if Contains(labels[0], s) || Contains(s, labels[0]) then Some(labels[0])
    else FirstOverlap(s, labels[1..])
  }

  /** `custom_alias_index.get(best) or extra_aliases_index.get(best)`: an
      empty custom label is falsy and falls through to the built-in index. */
  function AliasTarget(custom: Dict<string>, extra: Dict<string>, k: string): Option<string> {
    var c := Get(custom, k);
    if c.Some? && c.value != "" then c else Get(extra, k)
  }

  const ALIAS_THRESHOLD: real := 0.76
  const LABEL_THRESHOLD: real := 0.72

  /** Tiers 5 and 6, over the enabled labels. */
  function LabelTiers(s: string, labels: seq<string>): (r: Option<string>)
    ensures r.Some? ==> r.value in labels
  {
    var sc := Scores(s, labels);
    var bl := BestIndex(sc);
    if bl.Some? && labels[bl.value] != "" && sc[bl.value] >= LABEL_THRESHOLD then Some(labels[bl.value])
    else FirstOverlap(s, labels)
  }

  /** Tiers 4 to 6, once no exact match was found. */
  function FuzzyTiers(s: string, labels: seq<string>, custom: Dict<string>, extra: Dict<string>): Option<string> {
    var keys := Keys(custom) + Keys(extra);
    var sc := Scores(s, keys);
    var bk := BestIndex(sc);
    if bk.Some? && keys[bk.value] != "" && sc[bk.value] >= ALIAS_THRESHOLD then AliasTarget(custom, extra, keys[bk.value])
    else LabelTiers(s, labels)
  }

  /** `spoken.lower().strip()`. */
  function Spoken(spoken: string): string {
    Strip(Lower(spoken))
  }

  /** `_resolve_from_entries(spoken, entries, extra_aliases_index)`. */
  function Resolve(spoken: string, entries: Dict<Entry>, extra: Dict<string>): Option<string> {
    ResolveSpoken(Spoken(spoken), entries, extra)
  }

  /** The tiers, on the lower-cased and stripped text `s`. */
  function ResolveSpoken(s: string, entries: Dict<Entry>, extra: Dict<string>): Option<string> {
    var custom := CustomIndex(entries);
    if Get(custom, s).Some? then Get(custom, s)
    else if Get(extra, s).Some? then Get(extra, s)
    else if Get(entries, s).Some? && Get(entries, s).value.enabled then Some(s)
    else FuzzyTiers(s, EnabledLabels(entries), custom, extra)
  }

  /** The resolver as the source writes it: index building, three exact
      lookups and three scans. */
  method ResolveFromEntries(spoken: string, entries: Dict<Entry>, extra: Dict<string>) returns (r: Option<string>)
    ensures r == Resolve(spoken, entries, extra)
  {
    var s := Strip(Lower(spoken));
    var custom := BuildCustomIndex(entries);
    if Get(custom, s).Some? {
      return Get(custom, s);
    }
    if Get(extra, s).Some? {
      return Get(extra, s);
    }
    var meta := Get(entries, s);
    if meta.Some? && meta.value.enabled {
      return Some(s);
    }
    r := ResolveFuzzy(s, EnabledLabels(entries), custom, extra);
  }

  /** Tiers 4 to 6 of the source. */
  method ResolveFuzzy(s: string, labels: seq<string>, custom: Dict<string>, extra: Dict<string>) returns (r: Option<string>)
    ensures r == FuzzyTiers(s, labels, custom, extra)
  {
    var keys := Keys(custom) + Keys(extra);
    var best, bestScore := FindBest(s, keys);
    if best.Some? && keys[best.value] != "" && bestScore >= ALIAS_THRESHOLD {
      return AliasTarget(custom, extra, keys[best.value]);
    }
    r := ResolveLabels(s, labels);
  }

  /** Tiers 5 and 6 of the source. */
  method ResolveLabels(s: string, labels: seq<string>) returns (r: Option<string>)
    ensures r == LabelTiers(s, labels)
  {
    var best, bestScore := FindBest(s, labels);
    if best.Some? && labels[best.value] != "" && bestScore >= LABEL_THRESHOLD {
      return Some(labels[best.value]);
    }
    for i := 0 to |labels|
      invariant FirstOverlap(s, labels) == FirstOverlap(s, labels[i..])
    {
      assert labels[i..][1..] == labels[i + 1..];
      if Contains(labels[i], s) || Contains(s, labels[i]) {
        return Some(labels[i]);
      }
    }
    return None;
  }

  // ---------------------------------------------------------------------
  // Properties of the resolver
  // ---------------------------------------------------------------------

  /** Some enabled entry lists `k` among its aliases. */
  predicate CustomAlias(entries: Dict<Entry>, k: string) {
    exists i :: 0 <= i < |entries| && entries[i].1.enabled && k in entries[i].1.aliases
  }

  lemma CustomIndexSnoc(entries: Dict<Entry>)
    requires |entries| > 0
    ensures var init, last := entries[..|entries| - 1], entries[|entries| - 1];
      CustomIndex(entries) ==
        if last.1.enabled then PutAll(CustomIndex(init), last.1.aliases, last.0) else CustomIndex(init)
  {
    var init, last := entries[..|entries| - 1], entries[|entries| - 1];
    if last.1.enabled {
      var g := EnabledGroups(init) + [(last.0, last.1.aliases)];
      assert g[..|g| - 1] == EnabledGroups(init);
    }
  }

  /** An alias no enabled entry lists is missing from the custom index. */
  lemma {:induction false} CustomIndexMiss(entries: Dict<Entry>, k: string)
    requires !CustomAlias(entries, k)
    ensures Get(CustomIndex(entries), k) == None
    decreases |entries|
  {
    if |entries| > 0 {
      var init := entries[..|entries| - 1];
      assert forall i :: 0 <= i < |init| ==> init[i] == entries[i];
      CustomIndexSnoc(entries);
      CustomIndexMiss(init, k);
      var last := entries[|entries| - 1];
      if last.1.enabled {
        PutAllGet(CustomIndex(init), last.1.aliases, last.0, k);
      }
    }
  }

  /** An alias maps to the label of the LAST enabled entry listing it. */
  lemma {:induction false} CustomIndexLast(entries: Dict<Entry>, k: string, i: nat)
    requires i < |entries| && entries[i].1.enabled && k in entries[i].1.aliases
    requires forall j :: i < j < |entries| ==> !(entries[j].1.enabled && k in entries[j].1.aliases)
    ensures Get(CustomIndex(entries), k) == Some(entries[i].0)
    decreases |entries|
  {
    var init, last := entries[..|entries| - 1], entries[|entries| - 1];
    CustomIndexSnoc(entries);
    if last.1.enabled {
      PutAllGet(CustomIndex(init), last.1.aliases, last.0, k);
    }
    if i < |entries| - 1 {
      assert forall j :: 0 <= j < |init| ==> init[j] == entries[j];
      CustomIndexLast(init, k, i);
    }
  }

  /** The custom index only ever yields labels of enabled entries. */
  lemma {:induction false} CustomIndexValues(entries: Dict<Entry>, k: string)
    ensures Get(CustomIndex(entries), k).Some? ==> Get(CustomIndex(entries), k).value in EnabledLabels(entries)
    decreases |entries|
  {
    if |entries| > 0 {
      var init, last := entries[..|entries| - 1], entries[|entries| - 1];
      CustomIndexSnoc(entries);
      CustomIndexValues(init, k);
      if last.1.enabled {
        PutAllGet(CustomIndex(init), last.1.aliases, last.0, k);
      }
      assert EnabledLabels(init) <= EnabledLabels(entries);
    }
  }

  /** Tier 1: an exact alias of an enabled entry wins, and among several
      entries listing it the last one's label is returned. */
  lemma CustomAliasWins(spoken: string, entries: Dict<Entry>, extra: Dict<string>, i: nat)
    requires i < |entries| && entries[i].1.enabled && Spoken(spoken) in entries[i].1.aliases
    requires forall j :: i < j < |entries| ==> !(entries[j].1.enabled && Spoken(spoken) in entries[j].1.aliases)
    ensures Resolve(spoken, entries, extra) == Some(entries[i].0)
  {
    CustomIndexLast(entries, Spoken(spoken), i);
  }

  /** Tier 2: otherwise an exact built-in alias wins, whatever entries hold. */
  lemma BuiltinAliasSecond(spoken: string, entries: Dict<Entry>, extra: Dict<string>, lab: string)
    requires !CustomAlias(entries, Spoken(spoken))
    requires Get(extra, Spoken(spoken)) == Some(lab)
    ensures Resolve(spoken, entries, extra) == Some(lab)
  {
    CustomIndexMiss(entries, Spoken(spoken));
  }

  /** Tier 3: otherwise the spoken text itself is returned when it is the
      label of an enabled entry, and never when that entry is disabled. */
  lemma ExactLabelThird(spoken: string, entries: Dict<Entry>, extra: Dict<string>, i: nat)
    requires Distinct(entries) && i < |entries| && entries[i].0 == Spoken(spoken)
    requires !CustomAlias(entries, Spoken(spoken)) && Spoken(spoken) !in Keys(extra)
    ensures entries[i].1.enabled ==> Resolve(spoken, entries, extra) == Some(Spoken(spoken))
    ensures !entries[i].1.enabled ==>
      Resolve(spoken, entries, extra) == FuzzyTiers(Spoken(spoken), EnabledLabels(entries), CustomIndex(entries), extra)
  {
    CustomIndexMiss(entries, Spoken(spoken));
    GetAt(entries, i);
  }

  /** The entries that are enabled, in order. */
  function OnlyEnabled(entries: Dict<Entry>): (r: Dict<Entry>)
    ensures forall i :: 0 <= i < |r| ==> r[i] in entries && r[i].1.enabled
    decreases |entries|
  {
    if |entries| == 0 then []
    else
      var init, last := entries[..|entries| - 1], entries[|entries| - 1];
      assert forall x :: x in init ==> x in entries;
      OnlyEnabled(init) + (if last.1.enabled then [last] else [])
  }

  lemma {:induction false} OnlyEnabledSame(entries: Dict<Entry>)
    ensures EnabledGroups(OnlyEnabled(entries)) == EnabledGroups(entries)
    ensures EnabledLabels(OnlyEnabled(entries)) == EnabledLabels(entries)
    decreases |entries|
  {
    if |entries| > 0 {
      var init, last := entries[..|entries| - 1], entries[|entries| - 1];
      OnlyEnabledSame(init);
      var oe := OnlyEnabled(entries);
      if last.1.enabled {
        assert oe[..|oe| - 1] == OnlyEnabled(init);
      } else {
        assert oe == OnlyEnabled(init);
      }
    }
  }

  lemma {:induction false} OnlyEnabledGet(entries: Dict<Entry>, s: string)
    requires Distinct(entries)
    ensures Get(OnlyEnabled(entries), s) ==
      if Get(entries, s).Some? && Get(entries, s).value.enabled then Get(entries, s) else None
    decreases |entries|
  {
    if |entries| > 0 {
      var init, last := entries[..|entries| - 1], entries[|entries| - 1];
      assert entries == init + [last];
      assert last.0 !in Keys(init);
      OnlyEnabledGet(init, s);
      GetAppend(init, [last], s);
      GetAppend(OnlyEnabled(init), if last.1.enabled then [last] else [], s);
    }
  }

  /** Disabled entries are inert: resolving against only the enabled ones
      gives the same answer (no custom alias, exact label, fuzzy label or
      substring hit comes from a disabled entry). */
  lemma DisabledInert(spoken: string, entries: Dict<Entry>, extra: Dict<string>)
    requires Distinct(entries)
    ensures Resolve(spoken, entries, extra) == Resolve(spoken, OnlyEnabled(entries), extra)
  {
    var s := Spoken(spoken);
    var oe := OnlyEnabled(entries);
    OnlyEnabledSame(entries);
    OnlyEnabledGet(entries, s);
    assert CustomIndex(oe) == CustomIndex(entries);
    ResolveSpokenDepends(s, entries, oe, extra);
  }

  /** The tiers read the entries only through the custom index, the enabled
      labels and the exact lookup. */
  lemma ResolveSpokenDepends(s: string, a: Dict<Entry>, b: Dict<Entry>, extra: Dict<string>)
    requires CustomIndex(a) == CustomIndex(b) && EnabledLabels(a) == EnabledLabels(b)
    requires (Get(a, s).Some? && Get(a, s).value.enabled) == (Get(b, s).Some? && Get(b, s).value.enabled)
    ensures ResolveSpoken(s, a, extra) == ResolveSpoken(s, b, extra)
  {
  }

  lemma GetValue<V>(d: Dict<V>, k: string)
    ensures Get(d, k).Some? ==> Get(d, k).value in Values(d)
  {
    if Get(d, k).Some? {
      var j :| 0 <= j < |d| && d[j] == (k, Get(d, k).value);
      assert Values(d)[j] == d[j].1;
    }
  }

  /** Every answer is the label of an enabled entry or a value of the built-in
      index; built-in answers need not name any entry at all. */
  lemma ResolveSound(spoken: string, entries: Dict<Entry>, extra: Dict<string>)
    ensures var r := Resolve(spoken, entries, extra);
      r.Some? ==> r.value in EnabledLabels(entries) || r.value in Values(extra)
  {
    var s := Spoken(spoken);
    var custom := CustomIndex(entries);
    CustomIndexValues(entries, s);
    GetValue(extra, s);
    EnabledLabelOf(entries, s);
    var keys := Keys(custom) + Keys(extra);
    var bk := BestIndex(Scores(s, keys));
    if bk.Some? {
      CustomIndexValues(entries, keys[bk.value]);
      GetValue(extra, keys[bk.value]);
    }
  }

  /** No exact tier applies to the normalised text `s`. */
  predicate NoExactHit(s: string, entries: Dict<Entry>, extra: Dict<string>) {
    !CustomAlias(entries, s) && s !in Keys(extra) && s !in EnabledLabels(entries)
  }

  /** Index `k` is where the best-so-far scan over `cands` ends: the first
      candidate with the highest score. */
  predicate FirstMax(s: string, cands: seq<string>, k: nat) {
    k < |cands| &&
    (forall j :: 0 <= j < |cands| ==> Similarity(s, cands[j]) <= Similarity(s, cands[k])) &&
    (forall j :: 0 <= j < k ==> Similarity(s, cands[j]) < Similarity(s, cands[k]))
  }

  lemma EnabledLabelOf(entries: Dict<Entry>, s: string)
    ensures Get(entries, s).Some? && Get(entries, s).value.enabled ==> s in EnabledLabels(entries)
  {
    if Get(entries, s).Some? && Get(entries, s).value.enabled {
      var i :| 0 <= i < |entries| && entries[i] == (s, Get(entries, s).value);
    }
  }

  lemma ExactMiss(spoken: string, entries: Dict<Entry>, extra: Dict<string>)
    requires NoExactHit(Spoken(spoken), entries, extra)
    ensures Resolve(spoken, entries, extra) ==
      FuzzyTiers(Spoken(spoken), EnabledLabels(entries), CustomIndex(entries), extra)
  {
    CustomIndexMiss(entries, Spoken(spoken));
    EnabledLabelOf(entries, Spoken(spoken));
  }

  /** Tier 4: with no exact hit, the first best-scoring alias key (custom keys
      before built-in ones) decides, provided it is non-empty and scores at
      least 0.76; ties keep the earlier key. */
  lemma FuzzyAliasFourth(spoken: string, entries: Dict<Entry>, extra: Dict<string>, k: nat)
    requires NoExactHit(Spoken(spoken), entries, extra)
    requires var keys := Keys(CustomIndex(entries)) + Keys(extra);
      FirstMax(Spoken(spoken), keys, k) && keys[k] != "" && Similarity(Spoken(spoken), keys[k]) >= ALIAS_THRESHOLD
    ensures var keys := Keys(CustomIndex(entries)) + Keys(extra);
      Resolve(spoken, entries, extra) == AliasTarget(CustomIndex(entries), extra, keys[k])
  {
    ExactMiss(spoken, entries, extra);
    var keys := Keys(CustomIndex(entries)) + Keys(extra);
    BestIndexUnique(Scores(Spoken(spoken), keys), k);
  }

  /** Tier 5: when every alias key scores below 0.76, the first best-scoring
      enabled label wins if it is non-empty and scores at least 0.72. */
  lemma FuzzyLabelFifth(spoken: string, entries: Dict<Entry>, extra: Dict<string>, k: nat)
    requires NoExactHit(Spoken(spoken), entries, extra)
    requires var keys := Keys(CustomIndex(entries)) + Keys(extra);
      forall j :: 0 <= j < |keys| ==> Similarity(Spoken(spoken), keys[j]) < ALIAS_THRESHOLD
    requires var labels := EnabledLabels(entries);
      FirstMax(Spoken(spoken), labels, k) && labels[k] != "" && Similarity(Spoken(spoken), labels[k]) >= LABEL_THRESHOLD
    ensures Resolve(spoken, entries, extra) == Some(EnabledLabels(entries)[k])
  {
    ExactMiss(spoken, entries, extra);
    BestIndexUnique(Scores(Spoken(spoken), EnabledLabels(entries)), k);
  }

  /** With no exact hit, every score under its threshold and no label
      overlapping the text either way, nothing is resolved. */
  lemma ResolveMiss(spoken: string, entries: Dict<Entry>, extra: Dict<string>)
    requires NoExactHit(Spoken(spoken), entries, extra)
    requires var keys := Keys(CustomIndex(entries)) + Keys(extra);
      forall j :: 0 <= j < |keys| ==> Similarity(Spoken(spoken), keys[j]) < ALIAS_THRESHOLD
    requires var labels := EnabledLabels(entries);
      forall j :: 0 <= j < |labels| ==> Similarity(Spoken(spoken), labels[j]) < LABEL_THRESHOLD
    requires forall l :: l in EnabledLabels(entries) ==> !Contains(l, Spoken(spoken)) && !Contains(Spoken(spoken), l)
    ensures Resolve(spoken, entries, extra) == None
  {
    ExactMiss(spoken, entries, extra);
  }

  lemma SimilarityEmpty(k: string)
    requires k != ""
    ensures Similarity("", k) == 0.0
  {
    assert Bigrams("") == {};
  }

  /** Blank input that is no alias or label falls through to the substring
      tier, where the empty string is contained in every label: the first
      enabled label is returned. */
  lemma BlankPicksFirstLabel(spoken: string, entries: Dict<Entry>, extra: Dict<string>)
    requires Spoken(spoken) == "" && NoExactHit("", entries, extra)
    ensures Resolve(spoken, entries, extra) ==
      if |EnabledLabels(entries)| == 0 then None else Some(EnabledLabels(entries)[0])
  {
    ExactMiss(spoken, entries, extra);
    CustomIndexMiss(entries, "");
    var custom := CustomIndex(entries);
    var keys := Keys(custom) + Keys(extra);
    var labels := EnabledLabels(entries);
    assert "" !in keys;
    BlankScoresNothing(keys);
    BlankScoresNothing(labels);
    assert FuzzyTiers("", labels, custom, extra) == FirstOverlap("", labels);
    if |labels| > 0 {
      assert StartsWith(labels[0], "");
    }
  }

  /** Against candidates none of which is blank, blank text scores 0.0
      throughout, so the best-so-far scan keeps None. */
  lemma BlankScoresNothing(cands: seq<string>)
    requires "" !in cands
    ensures BestIndex(Scores("", cands)).None?
  {
    var sc := Scores("", cands);
    forall j | 0 <= j < |cands|
      ensures sc[j] == 0.0
    {
      SimilarityEmpty(cands[j]);
    }
  }

  /** Resolving the already normalised text gives the same answer: the
      resolver normalises its input itself. */
  lemma ResolveRespoken(x: string, entries: Dict<Entry>, extra: Dict<string>)
    ensures Resolve(Norm(x), entries, extra) == Resolve(x, entries, extra)
  {
    SpokenNorm(x);
  }

  lemma SpokenNorm(x: string)
    ensures Spoken(Norm(x)) == Spoken(x)
  {
    var n := Norm(x);
    LowerIsLower(Strip(x));
    LowerIdempotent(n);
    StripOfStripped(n);
    LowerStripCommute(x);
  }
}
