/**
 * Core/command_normalizer.py: cleaning a spoken line (`normalize_text`),
 * canonical command words (`normalize_command_word`), and the five-tier
 * label resolver `resolve_label` with its helpers `_extract_intent_meta` and
 * `_char_bigram_similarity`.
 *
 * This resolver differs from the one in jarvis_main.py: it lowers both sides
 * of every comparison, ignores the "enabled" flag, and uses the thresholds
 * 0.75 and 0.7. Its labels are a Python set, whose iteration order depends
 * on string hashing; that order is the parameter `order`.
 */
module Normalizer {
  import opened Wrappers
  import opened Text
  import opened Dicts
  import opened Json
  import opened Best

  // ---------------------------------------------------------------------
  // normalize_text
  // ---------------------------------------------------------------------

  const FILLER_PHRASES: seq<string> := ["please", "kindly", "could you", "can you", "will you", "would you"]

  /** Already lower-case, so `ww.lower()` changes none of them. */
  const WAKE_PHRASES: seq<string> := ["jarvis", "hey jarvis", "ok jarvis", "okay jarvis"]

  /** The wake loop: the first phrase that opens `s` followed by a space is
      cut off with the whitespace after it, and the loop stops there. */
  function DropWakePhrase(s: string, phrases: seq<string>): (r: string)
    ensures |r| <= |s| && r == s[|s| - |r|..]
    decreases |phrases|
  {
    if |phrases| == 0 then s
    else if StartsWith(s, phrases[0] + " ") then LStrip(s[|phrases[0]|..])
    else DropWakePhrase(s, phrases[1..])
  }

  /** The filler loop: each phrase in turn, surrounded by single spaces, is
      replaced by one space, in one left-to-right pass per phrase. */
  function DropFillers(s: string, fillers: seq<string>): string
    decreases |fillers|
  {
    if |fillers| == 0 then s
    else DropFillers(Replace(s, " " + fillers[0] + " ", " "), fillers[1..])
  }

  /** What `normalize_text(raw)` returns; `raw` is None or a string. */
  function NormalizedText(raw: Option<string>): string {
    if raw.None? then ""
    else
      var s := Strip(Lower(raw.value));
      if s == "" then ""
      else Squash(DropFillers(DropWakePhrase(s, WAKE_PHRASES), FILLER_PHRASES))
  }

  /** `normalize_text(raw)`. */
  method NormalizeText(raw: Option<string>) returns (s: string)
    ensures s == NormalizedText(raw)
  {
    if raw.None? {
      return "";
    }
    s := Strip(Lower(raw.value));
    if s == "" {
      return "";
    }
    s := StripWakePhrase(s, WAKE_PHRASES);
    s := StripFillers(s, FILLER_PHRASES);
    s := Squash(s);
  }

  /** The wake loop of `normalize_text`, with its `break`. */
  method StripWakePhrase(s: string, phrases: seq<string>) returns (r: string)
    ensures r == DropWakePhrase(s, phrases)
  {
    var i := 0;
    while i < |phrases|
      invariant 0 <= i <= |phrases|
      invariant DropWakePhrase(s, phrases) == DropWakePhrase(s, phrases[i..])
    {
      var ww := phrases[i];
      assert phrases[i..][1..] == phrases[i + 1..];
      if StartsWith(s, ww + " ") {
        return LStrip(s[|ww|..]);
      }
      i := i + 1;
    }
    return s;
  }

  /** The filler loop of `normalize_text`. */
  method StripFillers(s0: string, fillers: seq<string>) returns (s: string)
    ensures s == DropFillers(s0, fillers)
  {
    s := s0;
    for j := 0 to |fillers|
      invariant DropFillers(s0, fillers) == DropFillers(s, fillers[j..])
    {
      assert fillers[j..][1..] == fillers[j + 1..];
      s := Replace(s, " " + fillers[j] + " ", " ");
    }
  }

  /** None and blank input give the empty string. */
  lemma NormalizeBlank(raw: Option<string>)
    ensures NormalizedText(raw) == "" <== raw.None? || IsBlank(raw.value)
  {
    if raw.Some? {
      LowerStripCommute(raw.value);
      StripBlank(raw.value);
    }
  }

  /** The result is lower-case, trimmed, and its only whitespace is single
      spaces between words. */
  lemma NormalizedForm(raw: Option<string>)
    ensures IsLower(NormalizedText(raw)) && IsSquashed(NormalizedText(raw))
  {
    if raw.Some? {
      var s := Strip(Lower(raw.value));
      if s != "" {
        LowerIsLower(raw.value);
        StripKeeps(Lower(raw.value), c => !IsUpper(c));
        CleanedForm(s, WAKE_PHRASES, FILLER_PHRASES);
      }
    }
  }

  /** Dropping a wake phrase and the fillers keeps lower-case text lower-case;
      squashing then leaves single spaces only between words. */
  lemma CleanedForm(s: string, wakes: seq<string>, fillers: seq<string>)
    requires IsLower(s)
    ensures var r := Squash(DropFillers(DropWakePhrase(s, wakes), fillers)); IsLower(r) && IsSquashed(r)
  {
    var w := DropWakePhrase(s, wakes);
    assert forall i :: 0 <= i < |w| ==> w[i] == s[|s| - |w| + i];
    DropFillersKeepsLower(w, fillers);
    SquashKeepsLower(DropFillers(w, fillers));
    SquashIsSquashed(DropFillers(w, fillers));
  }

  lemma {:induction false} DropFillersKeepsLower(s: string, fillers: seq<string>)
    requires IsLower(s)
    ensures IsLower(DropFillers(s, fillers))
    decreases |fillers|
  {
    if |fillers| > 0 {
      ReplaceKeepsLower(s, " " + fillers[0] + " ", " ");
      DropFillersKeepsLower(Replace(s, " " + fillers[0] + " ", " "), fillers[1..]);
    }
  }

  /** At most one wake phrase goes: the first one, in list order, that opens
      the text followed by a space. */
  lemma {:induction false} WakeFirst(s: string, phrases: seq<string>, i: nat)
    requires i < |phrases| && StartsWith(s, phrases[i] + " ")
    requires forall j :: 0 <= j < i ==> !StartsWith(s, phrases[j] + " ")
    ensures DropWakePhrase(s, phrases) == LStrip(s[|phrases[i]|..])
    decreases i
  {
    if i > 0 {
      assert phrases[1..][i - 1] == phrases[i];
      assert forall j :: 0 <= j < i - 1 ==> phrases[1..][j] == phrases[j + 1];
      WakeFirst(s, phrases[1..], i - 1);
    }
  }

  /** Text that no wake phrase opens is left alone. */
  lemma {:induction false} WakeNone(s: string, phrases: seq<string>)
    requires forall j :: 0 <= j < |phrases| ==> !StartsWith(s, phrases[j] + " ")
    ensures DropWakePhrase(s, phrases) == s
    decreases |phrases|
  {
    if |phrases| > 0 {
      assert forall j :: 1 <= j < |phrases| ==> phrases[1..][j - 1] == phrases[j];
      WakeNone(s, phrases[1..]);
    }
  }

  /** No space in `t`. */
  predicate Spaceless(t: string) {
    forall i :: 0 <= i < |t| ==> t[i] != ' '
  }

  lemma SpacelessMiss(s: string, pat: string, k: nat)
    requires Spaceless(s) && k < |pat| && pat[k] == ' '
    ensures !Contains(s, pat)
  {
    if Contains(s, pat) {
      var j := ContainsWitness(s, pat);
    }
  }

  /** A replacement whose pattern starts with a space keeps a first word. */
  lemma {:induction false} ReplaceKeepsHead(s: string, pat: string, rep: string, h: string)
    requires |pat| > 0 && pat[0] == ' ' && StartsWith(s, h) && Spaceless(h)
    ensures StartsWith(Replace(s, pat, rep), h)
    decreases |s|
  {
    if |h| > 0 && |s| >= |pat| {
      assert s[..|pat|][0] == s[0] == h[0];
      assert s[1..][..|h| - 1] == h[1..];
      ReplaceKeepsHead(s[1..], pat, rep, h[1..]);
      var r := Replace(s[1..], pat, rep);
      assert ([s[0]] + r)[..|h|] == [h[0]] + r[..|h| - 1];
    }
  }

  /** A replacement whose pattern ends with a space keeps a last word. */
  lemma {:induction false} ReplaceKeepsTail(s: string, pat: string, rep: string, t: string)
    requires |pat| > 0 && pat[|pat| - 1] == ' ' && EndsWith(s, t) && Spaceless(t)
    ensures EndsWith(Replace(s, pat, rep), t)
    decreases |s|
  {
    if |s| < |pat| {
    } else if s[..|pat|] == pat {
      if |s| - |pat| < |t| {
        // the space closing the match would lie inside `t`
        assert false;
      }
      var rest := s[|pat|..];
      assert rest[|rest| - |t|..] == s[|s| - |t|..];
      ReplaceKeepsTail(rest, pat, rep, t);
      EndsWithAfter(rep, Replace(rest, pat, rep), t);
    } else if |s| - 1 >= |t| {
      var rest := s[1..];
      assert rest[|rest| - |t|..] == s[|s| - |t|..];
      ReplaceKeepsTail(rest, pat, rep, t);
      EndsWithAfter([s[0]], Replace(rest, pat, rep), t);
    } else {
      assert s == s[|s| - |t|..];
      SpacelessMiss(s, pat, |pat| - 1);
      ReplaceAbsent(s, pat, rep);
    }
  }

  lemma EndsWithAfter(a: string, b: string, t: string)
    requires EndsWith(b, t)
    ensures EndsWith(a + b, t)
  {
    assert (a + b)[|a + b| - |t|..] == b[|b| - |t|..];
  }

  /** A filler is only removed between two spaces: the first and the last
      word of the text survive every filler. */
  lemma {:induction false} FillerEdgesKept(s: string, fillers: seq<string>, h: string, t: string)
    requires StartsWith(s, h) && Spaceless(h) && EndsWith(s, t) && Spaceless(t)
    ensures StartsWith(DropFillers(s, fillers), h) && EndsWith(DropFillers(s, fillers), t)
    decreases |fillers|
  {
    if |fillers| > 0 {
      var pat := " " + fillers[0] + " ";
      ReplaceKeepsHead(s, pat, " ", h);
      ReplaceKeepsTail(s, pat, " ", t);
      FillerEdgesKept(Replace(s, pat, " "), fillers[1..], h, t);
    }
  }

  /** Text in which no filler appears between spaces is not changed. */
  lemma {:induction false} FillersAbsent(s: string, fillers: seq<string>)
    requires forall i :: 0 <= i < |fillers| ==> !Contains(s, " " + fillers[i] + " ")
    ensures DropFillers(s, fillers) == s
    decreases |fillers|
  {
    if |fillers| > 0 {
      ReplaceAbsent(s, " " + fillers[0] + " ", " ");
      assert forall i :: 1 <= i < |fillers| ==> fillers[1..][i - 1] == fillers[i];
      FillersAbsent(s, fillers[1..]);
    }
  }

  // ---------------------------------------------------------------------
  // normalize_command_word
  // ---------------------------------------------------------------------

  /** canonical word -> its variants, in dictionary order. */
  type Synonyms = seq<(string, seq<string>)>

  const HELP_WORDS: seq<string> := ["help", "?", "halp"]
  const INTENTS_WORDS: seq<string> := ["intents", "intent", "intense", "show intents", "list intents"]
  const STOP_WORDS: seq<string> := ["stop", "exit", "quit", "stop now"]

  const COMMAND_SYNONYMS: Synonyms := [("help", HELP_WORDS), ("intents", INTENTS_WORDS), ("stop", STOP_WORDS)]

  /** The first canonical word listing `t` among its variants. */
  function Canonical(t: string, table: Synonyms): (r: Option<string>)
    ensures r.None? <==> forall i :: 0 <= i < |table| ==> t !in table[i].1
    decreases |table|
  {
    if |table| == 0 then None
    else if t in table[0].1 then Some(table[0].0)
    else
      assert forall i :: 1 <= i < |table| ==> table[1..][i - 1] == table[i];
      Canonical(t, table[1..])
  }

  /** `(text or "").lower().strip()`. */
  function Cleaned(text: Option<string>): string {
    Strip(Lower(text.GetOr("")))
  }

  /** `normalize_command_word(text)`. */
  function NormalizeCommandWord(text: Option<string>): string {
    var t := Cleaned(text);
    Canonical(t, COMMAND_SYNONYMS).GetOr(t)
  }

  /** The three variant lists share no word. */
  lemma VariantsDisjoint(t: string)
    ensures t in INTENTS_WORDS ==> t !in HELP_WORDS
    ensures t in STOP_WORDS ==> t !in HELP_WORDS && t !in INTENTS_WORDS
  {
  }

  /** Which canonical word a cleaned text maps to. */
  lemma CanonicalWords(t: string)
    ensures Canonical(t, COMMAND_SYNONYMS) ==
      if t in HELP_WORDS then Some("help")
      else if t in INTENTS_WORDS then Some("intents")
      else if t in STOP_WORDS then Some("stop")
      else None
  {
    var t1 := COMMAND_SYNONYMS[1..];
    var t2 := t1[1..];
    assert t1 == [("intents", INTENTS_WORDS), ("stop", STOP_WORDS)];
    assert t2 == [("stop", STOP_WORDS)];
    assert Canonical(t, t2[1..]) == None;
    assert Canonical(t, t2) == if t in STOP_WORDS then Some("stop") else None;
    assert Canonical(t, t1) == if t in INTENTS_WORDS then Some("intents") else Canonical(t, t2);
  }

  lemma CleanedIsClean(text: Option<string>)
    ensures IsLower(Cleaned(text)) && IsStripped(Cleaned(text))
  {
    LowerIsLower(text.GetOr(""));
    StripKeeps(Lower(text.GetOr("")), c => !IsUpper(c));
  }

  lemma CleanClean(t: string)
    requires IsLower(t) && IsStripped(t)
    ensures Cleaned(Some(t)) == t
  {
    LowerIdempotent(t);
    StripOfStripped(t);
  }

  /** Every listed variant, in any letter case and with surrounding
      whitespace, becomes its canonical word; any other text comes back
      lowered and trimmed. */
  lemma CommandWordSynonym(text: Option<string>)
    ensures Cleaned(text) in HELP_WORDS ==> NormalizeCommandWord(text) == "help"
    ensures Cleaned(text) in INTENTS_WORDS ==> NormalizeCommandWord(text) == "intents"
    ensures Cleaned(text) in STOP_WORDS ==> NormalizeCommandWord(text) == "stop"
    ensures Cleaned(text) !in HELP_WORDS + INTENTS_WORDS + STOP_WORDS ==> NormalizeCommandWord(text) == Cleaned(text)
  {
    VariantsDisjoint(Cleaned(text));
    CanonicalWords(Cleaned(text));
  }

  lemma CanonicalClean()
    ensures IsLower("help") && IsStripped("help") && "help" in HELP_WORDS
    ensures IsLower("intents") && IsStripped("intents") && "intents" in INTENTS_WORDS
    ensures IsLower("stop") && IsStripped("stop") && "stop" in STOP_WORDS
  {
    assert HELP_WORDS[0] == "help" && INTENTS_WORDS[0] == "intents" && STOP_WORDS[0] == "stop";
  }

  /** Normalising a command word twice is normalising it once. */
  lemma CommandWordIdempotent(text: Option<string>)
    ensures NormalizeCommandWord(Some(NormalizeCommandWord(text))) == NormalizeCommandWord(text)
  {
    var t := Cleaned(text);
    CleanedIsClean(text);
    CanonicalWords(t);
    CanonicalClean();
    var c := NormalizeCommandWord(text);
    CleanClean(c);
    CanonicalWords(c);
    VariantsDisjoint(c);
  }

  // ---------------------------------------------------------------------
  // _extract_intent_meta
  // ---------------------------------------------------------------------

  /** `labels`, `target_map` and `alias_index`. */
  datatype Meta = Meta(labels: set<string>, targets: Dict<Json>, aliasIndex: Dict<string>)

  const NoMeta := Meta({}, [], [])

  /** `str(label).strip().lower()`. */
  function Fold(s: string): string {
    Lower(Strip(s))
  }

  /** The alias keys an entry contributes, in list order. */
  function AliasKeys(items: seq<Json>): (ks: seq<string>)
    ensures |ks| == |items| && forall i :: 0 <= i < |items| ==> ks[i] == Fold(Str(items[i]))
  {
    seq(|items|, i requires 0 <= i < |items| => Fold(Str(items[i])))
  }

  /** `val.get("target") or val.get("path") or val.get("url")`. */
  function MetaTarget(f: Dict<Json>): Json {
    Or(Or(GetOr(f, "target", JNull), GetOr(f, "path", JNull)), GetOr(f, "url", JNull))
  }

  /** The items `val.get("aliases", []) or []` iterates over, or None when
      that value is not iterable (TypeError). */
  function AliasItems(f: Dict<Json>): Option<seq<Json>> {
    Iterate(Or(GetOr(f, "aliases", JList([])), JList([])))
  }

  /** One iteration of the loop over `group.items()`. */
  function AddItem(m: Meta, lab: string, val: Json): (r: Option<Meta>)
    ensures r.Some? ==> r.value.labels == m.labels + {Fold(lab)}
  {
    var ln := Fold(lab);
    var m1 := m.(labels := m.labels + {ln});
    match val
    case JStr(_) => Some(m1.(targets := Put(m1.targets, ln, val)))
    case JObj(f) => AddObject(m1, ln, f)
    case _ => Some(m1)
  }

  /** The branch for an entry that is an object: its target when it has a
      truthy one, and its aliases. */
  function AddObject(m: Meta, ln: string, f: Dict<Json>): (r: Option<Meta>)
    ensures r.None? <==> AliasItems(f).None?
    ensures r.Some? ==> r.value.labels == m.labels
  {
    var target := MetaTarget(f);
    var m2 := if Truthy(target) then m.(targets := Put(m.targets, ln, target)) else m;
    var items := AliasItems(f);
    if items.None? then None
    else Some(m2.(aliasIndex := PutAll(m2.aliasIndex, AliasKeys(items.value), ln)))
  }

  /** Every alias points at a label. */
  predicate AliasesLabelled(m: Meta) {
    forall i :: 0 <= i < |m.aliasIndex| ==> m.aliasIndex[i].1 in m.labels
  }

  /** The folded keys of `fields`. */
  function FoldedKeys(fields: Dict<Json>): set<string> {
    KeyImage(fields, Fold)
  }

  /** The images of the keys of `fields` under `f`. */
  function KeyImage(fields: Dict<Json>, f: string -> string): set<string> {
    set i | 0 <= i < |fields| :: f(fields[i].0)
  }

  /** The loop over the items of `fields`; None once one raises. */
  function MetaOf(fields: Dict<Json>): Option<Meta>
    decreases |fields|
  {
    if |fields| == 0 then Some(NoMeta)
    else
      var prev := MetaOf(fields[..|fields| - 1]);
      if prev.None? then None
      else AddItem(prev.value, fields[|fields| - 1].0, fields[|fields| - 1].1)
  }

  /** The labels are the folded keys, and every alias names one of them. */
  lemma MetaOfFacts(fields: Dict<Json>)
    ensures var r := MetaOf(fields); r.Some? ==> r.value.labels == FoldedKeys(fields) && AliasesLabelled(r.value)
  {
    MetaOfLabels(fields);
    MetaOfAliases(fields);
  }

  lemma {:induction false} MetaOfLabels(fields: Dict<Json>)
    ensures var r := MetaOf(fields); r.Some? ==> r.value.labels == FoldedKeys(fields)
    decreases |fields|
  {
    if |fields| > 0 {
      MetaOfLabels(fields[..|fields| - 1]);
      KeyImageLast(fields, Fold);
    }
  }

  lemma {:induction false} MetaOfAliases(fields: Dict<Json>)
    ensures var r := MetaOf(fields); r.Some? ==> AliasesLabelled(r.value)
    decreases |fields|
  {
    if |fields| > 0 {
      var init := fields[..|fields| - 1];
      MetaOfAliases(init);
      var prev := MetaOf(init);
      if prev.Some? {
        AddItemLabelled(prev.value, fields[|fields| - 1].0, fields[|fields| - 1].1);
      }
    }
  }

  lemma FoldedKeysSnoc(fields: Dict<Json>, item: (string, Json))
    ensures FoldedKeys(fields + [item]) == FoldedKeys(fields) + {Fold(item.0)}
  {
    KeyImageSnoc(fields, item, Fold);
  }

  lemma KeyImageLast(fields: Dict<Json>, f: string -> string)
    requires |fields| > 0
    ensures KeyImage(fields, f) == KeyImage(fields[..|fields| - 1], f) + {f(fields[|fields| - 1].0)}
  {
    var init := fields[..|fields| - 1];
    assert init + [fields[|fields| - 1]] == fields;
    KeyImageSnoc(init, fields[|fields| - 1], f);
  }

  lemma KeyImageSnoc(fields: Dict<Json>, item: (string, Json), f: string -> string)
    ensures KeyImage(fields + [item], f) == KeyImage(fields, f) + {f(item.0)}
  {
    var all := fields + [item];
    assert forall i :: 0 <= i < |fields| ==> all[i] == fields[i];
    assert all[|fields|] == item;
  }

  lemma AddItemLabelled(m: Meta, lab: string, val: Json)
    requires AliasesLabelled(m)
    ensures var r := AddItem(m, lab, val); r.Some? ==> AliasesLabelled(r.value)
  {
    var ln := Fold(lab);
    var m1 := m.(labels := m.labels + {ln});
    assert AliasesLabelled(m1);
    if val.JObj? {
      AddObjectLabelled(m1, ln, val.fields);
    }
  }

  lemma AddObjectLabelled(m: Meta, ln: string, f: Dict<Json>)
    requires AliasesLabelled(m) && ln in m.labels
    ensures var r := AddObject(m, ln, f); r.Some? ==> AliasesLabelled(r.value)
  {
    var items := AliasItems(f);
    if items.Some? {
      var target := MetaTarget(f);
      var m2 := if Truthy(target) then m.(targets := Put(m.targets, ln, target)) else m;
      assert m2.aliasIndex == m.aliasIndex && m2.labels == m.labels;
      PutAllShape(m.aliasIndex, AliasKeys(items.value), ln);
    }
  }

  /** Every item of `PutAll(d, ks, v)` is an item of `d` or has value `v`. */
  lemma {:induction false} PutAllShape(d: Dict<string>, ks: seq<string>, v: string)
    ensures forall i :: 0 <= i < |PutAll(d, ks, v)| ==> PutAll(d, ks, v)[i] in d || PutAll(d, ks, v)[i].1 == v
    decreases |ks|
  {
    if |ks| > 0 {
      var prev := PutAll(d, ks[..|ks| - 1], v);
      PutAllShape(d, ks[..|ks| - 1], v);
      PutItems(prev, ks[|ks| - 1], v);
    }
  }

  /** `_extract_intent_meta(group)`; None where iterating some entry's
      aliases raises. */
  function ExtractMeta(group: Json): (r: Option<Meta>)
    ensures !group.JObj? ==> r == Some(NoMeta)
    ensures group.JObj? && r.Some? ==> r.value.labels == FoldedKeys(group.fields)
    ensures r.Some? ==> AliasesLabelled(r.value)
  {
    if !group.JObj? then Some(NoMeta)
    else
      MetaOfFacts(group.fields);
      MetaOf(group.fields)
  }

  /** The loop of `_extract_intent_meta`; `ok` is false where the source
      raises. */
  method ExtractIntentMeta(group: Json) returns (ok: bool, m: Meta)
    ensures ok <==> ExtractMeta(group).Some?
    ensures ok ==> m == ExtractMeta(group).value
  {
    m := NoMeta;
    if !group.JObj? {
      return true, m;
    }
    var fields := group.fields;
    for n := 0 to |fields|
      invariant MetaOf(fields[..n]) == Some(m)
    {
      MetaOfStep(fields, n);
      ok, m := AddEntry(m, fields[n].0, fields[n].1);
      if !ok {
        MetaOfStaysNone(fields, n + 1);
        return false, m;
      }
    }
    assert fields[..|fields|] == fields;
    return true, m;
  }

  /** One item of the loop. */
  method AddEntry(m0: Meta, lab: string, val: Json) returns (ok: bool, m: Meta)
    ensures ok <==> AddItem(m0, lab, val).Some?
    ensures ok ==> m == AddItem(m0, lab, val).value
  {
    var ln := Fold(lab);
    m := m0.(labels := m0.labels + {ln});
    if val.JStr? {
      m := m.(targets := Put(m.targets, ln, val));
    } else if val.JObj? {
      var target := MetaTarget(val.fields);
      if Truthy(target) {
        m := m.(targets := Put(m.targets, ln, target));
      }
      var items := AliasItems(val.fields);
      if items.None? {
        return false, m;
      }
      var index := IndexAliases(m.aliasIndex, AliasKeys(items.value), ln);
      m := m.(aliasIndex := index);
    }
    return true, m;
  }

  /** The inner loop: every alias of the entry, folded, maps to its label. */
  method IndexAliases(d: Dict<string>, ks: seq<string>, ln: string) returns (r: Dict<string>)
    ensures r == PutAll(d, ks, ln)
  {
    r := d;
    for k := 0 to |ks|
      invariant r == PutAll(d, ks[..k], ln)
    {
      PutAllStep(d, ks, k, ln);
      r := Put(r, ks[k], ln);
    }
    assert ks[..|ks|] == ks;
  }

  /** One more item of the loop. */
  lemma MetaOfStep(fields: Dict<Json>, n: nat)
    requires n < |fields|
    ensures var prev := MetaOf(fields[..n]);
      MetaOf(fields[..n + 1]) == if prev.None? then None else AddItem(prev.value, fields[n].0, fields[n].1)
  {
    assert fields[..n + 1][..n] == fields[..n];
  }

  /** Once an item raised, the whole extraction raises. */
  lemma {:induction false} MetaOfStaysNone(fields: Dict<Json>, n: nat)
    requires n <= |fields| && MetaOf(fields[..n]).None?
    ensures MetaOf(fields).None?
    decreases |fields| - n
  {
    if n < |fields| {
      assert fields[..n + 1][..n] == fields[..n];
      MetaOfStaysNone(fields, n + 1);
    } else {
      assert fields[..n] == fields;
    }
  }

  /** The "enabled" flag is not read: changing it changes nothing. */
  lemma EnabledIgnored(m: Meta, lab: string, f: Dict<Json>, flag: Json)
    ensures AddItem(m, lab, JObj(f)) == AddItem(m, lab, JObj(Put(f, "enabled", flag)))
  {
    var g := Put(f, "enabled", flag);
    PutGet(f, "enabled", flag, "target");
    PutGet(f, "enabled", flag, "path");
    PutGet(f, "enabled", flag, "url");
    PutGet(f, "enabled", flag, "aliases");
    assert MetaTarget(g) == MetaTarget(f) && AliasItems(g) == AliasItems(f);
    var ln := Fold(lab);
    AddObjectDepends(m.(labels := m.labels + {ln}), ln, f, g);
  }

  /** An object entry is read only through its target and its aliases. */
  lemma AddObjectDepends(m: Meta, ln: string, f: Dict<Json>, g: Dict<Json>)
    requires MetaTarget(f) == MetaTarget(g) && AliasItems(f) == AliasItems(g)
    ensures AddObject(m, ln, f) == AddObject(m, ln, g)
  {
  }

  // ---------------------------------------------------------------------
  // _char_bigram_similarity
  // ---------------------------------------------------------------------

  /** The two-character slices of `s`, or `{s}` when it has at most one
      character. */
  function Grams(s: string): (g: set<string>)
    ensures g != {}
  {
    if |s| > 1 then
      var g := set i | 0 <= i < |s| - 1 :: Gram(s, i);
      assert Gram(s, 0) in g;
      g
    else {s}
  }

  /** `a[i:i+2]`. */
  function Gram(s: string, i: nat): (g: string)
    requires i + 2 <= |s|
    ensures |g| == 2 && g == s[i..i + 2]
  {
    s[i..i + 2]
  }

  /** Jaccard similarity of the gram sets of the lowered strings; equal
      strings (also two empty ones) score 1.0. */
  function GramSimilarity(a: string, b: string): (r: real)
    ensures 0.0 <= r <= 1.0
  {
    var a := Lower(a);
    var b := Lower(b);
    if a == "" && b == "" then 1.0
    else if a == b then 1.0
    else
      var ga := Grams(a);
      var gb := Grams(b);
      SubsetCard(ga * gb, ga + gb);
      SubsetCard(ga, ga + gb);
      Fraction(|ga * gb|, |ga + gb|);
      (|ga * gb| as real) / (|ga + gb| as real)
  }

  lemma GramSymmetric(a: string, b: string)
    ensures GramSimilarity(a, b) == GramSimilarity(b, a)
  {
    var ga := Grams(Lower(a));
    var gb := Grams(Lower(b));
    assert ga * gb == gb * ga && ga + gb == gb + ga;
  }

  /** Equal strings score 1.0 whatever their letter case. */
  lemma GramSelf(a: string, b: string)
    requires Lower(a) == Lower(b)
    ensures GramSimilarity(a, b) == 1.0
  {
  }

  /** Letter case does not matter. */
  lemma GramCaseless(a: string, b: string)
    ensures GramSimilarity(Lower(a), b) == GramSimilarity(a, b)
  {
    LowerIsLower(a);
    LowerIdempotent(Lower(a));
  }

  /** One character against two or more never matches. */
  lemma GramShortLong(a: string, b: string)
    requires |a| == 1 && |b| >= 2
    ensures GramSimilarity(a, b) == 0.0
  {
    var la, lb := Lower(a), Lower(b);
    assert Grams(la) == {la};
    assert la !in Grams(lb);
    assert Grams(la) * Grams(lb) == {};
  }

  // ---------------------------------------------------------------------
  // resolve_label
  // ---------------------------------------------------------------------

  const ALIAS_CUTOFF: real := 0.75
  const LABEL_CUTOFF: real := 0.7

  /** `order` lists every member of `labels` exactly once. */
  predicate Enumerates(order: seq<string>, labels: set<string>) {
    && (forall x :: x in order ==> x in labels)
    && (forall x :: x in labels ==> x in order)
    && (forall i, j :: 0 <= i < j < |order| ==> order[i] != order[j])
  }

  /** What `resolve_label` does: raise, or return a label or None. */
  datatype Answer = Raises | Returns(found: Option<string>)

  /** `[sim(s, c) for c in cands]`. */
  function GramScores(s: string, cands: seq<string>): (r: seq<real>)
    ensures |r| == |cands| && forall i :: 0 <= i < |cands| ==> r[i] == GramSimilarity(s, cands[i])
  {
    seq(|cands|, i requires 0 <= i < |cands| => GramSimilarity(s, cands[i]))
  }

  /** The index of the first label containing `s` or contained in it. */
  function FirstOverlapping(s: string, order: seq<string>): (k: Option<nat>)
    ensures k.Some? ==> k.value < |order| && (Contains(order[k.value], s) || Contains(s, order[k.value]))
    ensures k.Some? ==> forall j :: 0 <= j < k.value ==> !Contains(order[j], s) && !Contains(s, order[j])
    ensures k.None? ==> forall j :: 0 <= j < |order| ==> !Contains(order[j], s) && !Contains(s, order[j])
    decreases |order|
  {
    if |order| == 0 then None
    else if Contains(order[0], s) || Contains(s, order[0]) then Some(0)
    else
      var k := FirstOverlapping(s, order[1..]);
      assert forall j :: 1 <= j < |order| ==> order[1..][j - 1] == order[j];
      if k.None? then None else Some(k.value + 1)
  }

  /** Tiers 1 to 5 once `s` is cleaned and the group extracted. */
  function Tiers(s: string, m: Meta, order: seq<string>): (r: Option<string>)
    requires Enumerates(order, m.labels) && AliasesLabelled(m)
    ensures r.Some? ==> r.value in m.labels
  {
    if m.labels == {} && m.aliasIndex == [] then None
    else if Get(m.aliasIndex, s).Some? then Get(m.aliasIndex, s)
    else if s in m.labels then Some(s)
    else
      var keys := Keys(m.aliasIndex);
      var ba := BestIndex(GramScores(s, keys));
      if ba.Some? && GramScores(s, keys)[ba.value] >= ALIAS_CUTOFF then Some(m.aliasIndex[ba.value].1)
      else
        var bl := BestIndex(GramScores(s, order));
        if bl.Some? && GramScores(s, order)[bl.value] >= LABEL_CUTOFF then Some(order[bl.value])
        else
          var k := FirstOverlapping(s, order);
          if k.Some? then Some(order[k.value]) else None
  }

  /** `resolve_label(spoken, group)`, with the labels visited in `order`. */
  function ResolveLabel(spoken: Option<string>, group: Json, order: seq<string>): (r: Answer)
    requires ExtractMeta(group).Some? ==> Enumerates(order, ExtractMeta(group).value.labels)
    ensures r.Returns? && r.found.Some? ==> ExtractMeta(group).Some? && r.found.value in ExtractMeta(group).value.labels
    ensures spoken.None? || spoken == Some("") ==> r == Returns(None)
    ensures !group.JObj? || group.fields == [] ==> r == Returns(None)
  {
    if spoken.None? || spoken.value == "" then Returns(None)
    else
      var s := Fold(spoken.value);
      var m := ExtractMeta(group);
      if m.None? then Raises else Returns(Tiers(s, m.value, order))
  }

  /** The best-so-far loop of tiers 3 and 4. */
  method BestMatch(s: string, cands: seq<string>) returns (best: Option<nat>, bestScore: real)
    ensures best == BestIndex(GramScores(s, cands))
    ensures best.Some? ==> bestScore == GramScores(s, cands)[best.value]
  {
    ghost var scores := GramScores(s, cands);
    best, bestScore := None, 0.0;
    for i := 0 to |cands|
      invariant best == BestIndex(scores[..i])
      invariant bestScore == BestScore(scores[..i])
    {
      var sc := GramSimilarity(s, cands[i]);
      assert scores[i] == sc;
      BestStep(scores, i);
      if sc > bestScore {
        best, bestScore := Some(i), sc;
      }
    }
    assert scores[..|cands|] == scores;
  }

  /** The body of `resolve_label`. */
  method ResolveLabelImpl(spoken: Option<string>, group: Json, order: seq<string>) returns (r: Answer)
    requires ExtractMeta(group).Some? ==> Enumerates(order, ExtractMeta(group).value.labels)
    ensures r == ResolveLabel(spoken, group, order)
  {
    if spoken.None? || spoken.value == "" {
      return Returns(None);
    }
    var s := Fold(spoken.value);
    var ok, m := ExtractIntentMeta(group);
    if !ok {
      return Raises;
    }
    var lab := TiersImpl(s, m, order);
    return Returns(lab);
  }

  /** The five tiers, with the scans of tiers 3 to 5. */
  method TiersImpl(s: string, m: Meta, order: seq<string>) returns (r: Option<string>)
    requires Enumerates(order, m.labels) && AliasesLabelled(m)
    ensures r == Tiers(s, m, order)
  {
    if m.labels == {} && m.aliasIndex == [] {
      return None;
    }
    var hit := Get(m.aliasIndex, s);
    if hit.Some? {
      return hit;
    }
    if s in m.labels {
      return Some(s);
    }
    var ba, sa := BestMatch(s, Keys(m.aliasIndex));
    if ba.Some? && sa >= ALIAS_CUTOFF {
      return Some(m.aliasIndex[ba.value].1);
    }
    var bl, sl := BestMatch(s, order);
    if bl.Some? && sl >= LABEL_CUTOFF {
      return Some(order[bl.value]);
    }
    var k := FindOverlapping(s, order);
    return if k.Some? then Some(order[k.value]) else None;
  }

  /** The substring scan of tier 5. */
  method FindOverlapping(s: string, order: seq<string>) returns (k: Option<nat>)
    ensures k == FirstOverlapping(s, order)
  {
    for i := 0 to |order|
      invariant forall j :: 0 <= j < i ==> !Contains(order[j], s) && !Contains(s, order[j])
    {
      if Contains(order[i], s) || Contains(s, order[i]) {
        FirstOverlappingAt(s, order, i);
        return Some(i);
      }
    }
    return None;
  }

  lemma FirstOverlappingAt(s: string, order: seq<string>, i: nat)
    requires i < |order| && (Contains(order[i], s) || Contains(s, order[i]))
    requires forall j :: 0 <= j < i ==> !Contains(order[j], s) && !Contains(s, order[j])
    ensures FirstOverlapping(s, order) == Some(i)
  {
    var k := FirstOverlapping(s, order);
    assert k.Some?;
    if k.value < i {
      assert false;
    }
  }

  /** Tier 1: an exact alias wins, even over an exact label. */
  lemma AliasFirst(s: string, m: Meta, order: seq<string>)
    requires Enumerates(order, m.labels) && AliasesLabelled(m)
    requires Get(m.aliasIndex, s).Some?
    ensures Tiers(s, m, order) == Get(m.aliasIndex, s)
  {
  }

  /** Tier 2: otherwise an exact label, whatever its entry says. */
  lemma LabelSecond(s: string, m: Meta, order: seq<string>)
    requires Enumerates(order, m.labels) && AliasesLabelled(m)
    requires Get(m.aliasIndex, s).None? && s in m.labels
    ensures Tiers(s, m, order) == Some(s)
  {
  }

  /** Tier 3: otherwise the first best-scoring alias, if it reaches 0.75. */
  lemma FuzzyAliasThird(s: string, m: Meta, order: seq<string>, k: nat)
    requires Enumerates(order, m.labels) && AliasesLabelled(m)
    requires Get(m.aliasIndex, s).None? && s !in m.labels
    requires BestIndex(GramScores(s, Keys(m.aliasIndex))) == Some(k)
    requires GramSimilarity(s, m.aliasIndex[k].0) >= ALIAS_CUTOFF
    ensures Tiers(s, m, order) == Some(m.aliasIndex[k].1)
  {
  }

  /** Tier 4: otherwise the first best-scoring label, if it reaches 0.7. */
  lemma FuzzyLabelFourth(s: string, m: Meta, order: seq<string>, k: nat)
    requires Enumerates(order, m.labels) && AliasesLabelled(m)
    requires Get(m.aliasIndex, s).None? && s !in m.labels
    requires forall i :: 0 <= i < |m.aliasIndex| ==> GramSimilarity(s, m.aliasIndex[i].0) < ALIAS_CUTOFF
    requires BestIndex(GramScores(s, order)) == Some(k) && GramSimilarity(s, order[k]) >= LABEL_CUTOFF
    ensures Tiers(s, m, order) == Some(order[k])
  {
    assert order[k] in m.labels;
    AliasTierMisses(s, m);
    assert GramScores(s, order)[k] == GramSimilarity(s, order[k]);
  }

  /** With every alias key below the cut-off, tier 3 finds nothing. */
  lemma AliasTierMisses(s: string, m: Meta)
    requires forall i :: 0 <= i < |m.aliasIndex| ==> GramSimilarity(s, m.aliasIndex[i].0) < ALIAS_CUTOFF
    ensures var sc := GramScores(s, Keys(m.aliasIndex));
      BestIndex(sc).None? || sc[BestIndex(sc).value] < ALIAS_CUTOFF
  {
    var sc := GramScores(s, Keys(m.aliasIndex));
    var ba := BestIndex(sc);
    if ba.Some? {
      assert sc[ba.value] == GramSimilarity(s, m.aliasIndex[ba.value].0);
    }
  }

  /** Tier 5: otherwise the first label, in iteration order, that contains
      the text or is contained in it; None when there is none. */
  lemma SubstringFifth(s: string, m: Meta, order: seq<string>)
    requires Enumerates(order, m.labels) && AliasesLabelled(m) && m.labels != {}
    requires Get(m.aliasIndex, s).None? && s !in m.labels
    requires forall i :: 0 <= i < |m.aliasIndex| ==> GramSimilarity(s, m.aliasIndex[i].0) < ALIAS_CUTOFF
    requires forall i :: 0 <= i < |order| ==> GramSimilarity(s, order[i]) < LABEL_CUTOFF
    ensures var k := FirstOverlapping(s, order);
      Tiers(s, m, order) == if k.Some? then Some(order[k.value]) else None
  {
    AliasTierMisses(s, m);
    var bl := BestIndex(GramScores(s, order));
    if bl.Some? {
      assert GramScores(s, order)[bl.value] == GramSimilarity(s, order[bl.value]);
    }
  }
}
