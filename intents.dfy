/**
 * jarvis_main.py: the shape of intents entries, the built-in alias tables and
 * the alias index built from them.
 *
 * An intents group maps a label to either a target string (first format) or
 * an object with "path"/"url", "target", "enabled" and "aliases" (second
 * format); both are normalised to an Entry.
 */
module Intents {
  import opened Wrappers
  import opened Dicts
  import opened Json
  import opened Text

  /** `{target, enabled, aliases}` after normalisation. The target is kept as
      the JSON value it was read as. */
  datatype Entry = Entry(target: Json, enabled: bool, aliases: seq<string>)

  /** `k.strip().lower()`, the form in which labels and aliases are stored. */
  function Norm(s: string): string {
    Lower(Strip(s))
  }

  /** Normalised text is a fixed point of Norm, so a normalised spoken phrase
      can be compared directly with stored labels and aliases. */
  lemma NormIdempotent(s: string)
    ensures Norm(Norm(s)) == Norm(s)
  {
    LowerStripCommute(Strip(s));
    StripOfStripped(Strip(s));
    LowerIsLower(Strip(Strip(s)));
    LowerIdempotent(Lower(Strip(Strip(s))));
  }

  /** The string items of a sequence, in order (`if isinstance(a, str)`). */
  function Strings(items: seq<Json>): (r: seq<string>)
    ensures forall a :: a in r <==> JStr(a) in items
    decreases |items|
  {
    if |items| == 0 then []
    else
      assert items == [items[0]] + items[1..];
      (if items[0].JStr? then [items[0].s] else []) + Strings(items[1..])
  }

  /** `[v.strip().lower() for v in vs]`. */
  function NormAll(vs: seq<string>): (r: seq<string>)
    ensures |r| == |vs|
  {
    seq(|vs|, i requires 0 <= i < |vs| => Norm(vs[i]))
  }

  /** Every normalised variant is in normal form, and the normalised
      variants are exactly the images of the originals. */
  lemma NormAllNormal(vs: seq<string>)
    ensures forall i :: 0 <= i < |vs| ==> Norm(NormAll(vs)[i]) == NormAll(vs)[i]
    ensures forall a :: a in NormAll(vs) <==> exists v :: v in vs && Norm(v) == a
  {
    forall i | 0 <= i < |vs|
      ensures Norm(NormAll(vs)[i]) == NormAll(vs)[i]
    {
      NormIdempotent(vs[i]);
    }
    forall a | a in NormAll(vs)
      ensures exists v :: v in vs && Norm(v) == a
    {
      var i :| 0 <= i < |vs| && NormAll(vs)[i] == a;
      assert vs[i] in vs;
    }
    forall a | exists v :: v in vs && Norm(v) == a
      ensures a in NormAll(vs)
    {
      var v :| v in vs && Norm(v) == a;
      var i :| 0 <= i < |vs| && vs[i] == v;
      assert NormAll(vs)[i] == a;
    }
  }

  /** `[a.strip().lower() for a in items if isinstance(a, str)]`. */
  function StringAliases(items: seq<Json>): (r: seq<string>)
    ensures forall i :: 0 <= i < |r| ==> Norm(r[i]) == r[i]
    ensures forall a :: a in r <==> exists v :: JStr(v) in items && Norm(v) == a
  {
    NormAllNormal(Strings(items));
    NormAll(Strings(items))
  }

  /** `_normalize_entry(label, v, is_site)`; None where iterating the
      "aliases" value raises TypeError (it is neither a list, a string nor an
      object). */
  function NormalizeEntry(v: Json, isSite: bool): (r: Option<Entry>)
    ensures r.None? <==> v.JObj? && Iterate(GetOr(v.fields, "aliases", JList([]))).None?
    ensures r.Some? ==> forall i :: 0 <= i < |r.value.aliases| ==> Norm(r.value.aliases[i]) == r.value.aliases[i]
    ensures r.Some? && r.value.enabled <==> v.JStr? || (v.JObj? && r.Some? && Truthy(GetOr(v.fields, "enabled", JBool(true))))
    ensures r.Some? && !v.JObj? ==> r.value.aliases == []
    ensures r.Some? && v.JStr? ==> r.value.target == v
    ensures r.Some? && v.JObj? ==>
      r.value.target == Or(Or(GetOr(v.fields, if isSite then "url" else "path", JNull),
                              GetOr(v.fields, "target", JStr(""))), JStr(""))
  {
    match v
    case JStr(_) => Some(Entry(v, true, []))
    case JObj(f) =>
      var primary := GetOr(f, if isSite then "url" else "path", JNull);
      var target := Or(primary, GetOr(f, "target", JStr("")));
      var enabled := Truthy(GetOr(f, "enabled", JBool(true)));
      var items := Iterate(GetOr(f, "aliases", JList([])));
      if items.None? then None
      else Some(Entry(Or(target, JStr("")), enabled, StringAliases(items.value)))
    case _ => Some(Entry(JStr(""), false, []))
  }

  /** Every label of a group, normalised, with its normalised entry; None when
      some entry raises. */
  function LoadGroup(raw: Dict<Json>, isSite: bool): (r: Option<Dict<Entry>>)
    ensures r.Some? ==> forall k :: k in Keys(r.value) ==> Norm(k) == k
    ensures r.Some? ==> Distinct(r.value)
    ensures r.Some? ==> forall i, j :: 0 <= i < |r.value| && 0 <= j < |r.value[i].1.aliases| ==>
      Norm(r.value[i].1.aliases[j]) == r.value[i].1.aliases[j]
    decreases |raw|
  {
    if |raw| == 0 then Some([])
    else
      var init := LoadGroup(raw[..|raw| - 1], isSite);
      var (k, v) := raw[|raw| - 1];
      var e := NormalizeEntry(v, isSite);
      if init.None? || e.None? then None
      else
        NormIdempotent(k);
        PutDistinct(init.value, Norm(k), e.value);
        PutItems(init.value, Norm(k), e.value);
        Some(Put(init.value, Norm(k), e.value))
  }

  datatype Intents = Intents(apps: Dict<Entry>, sites: Dict<Entry>)

  /** What `load_intents` finds at its path: no file, a file whose reading
      or JSON parsing raises, or the parsed document. */
  datatype IntentsFile = Missing | Unreadable | Document(data: Json)

  /** What `load_intents` returns, and whether its `except` branch called
      `log_action("Load Intents", "ERROR", str(e))`. The exception text is
      not modelled. */
  datatype Loaded = Loaded(intents: Intents, errorLogged: bool)

  /** `load_intents(path)`. A missing file gives two empty groups without a
      log. Every exception inside the `try` (unreadable JSON, a document or
      group that is not an object, an entry that raises) is logged and also
      gives two empty groups. */
  function LoadIntents(file: IntentsFile): (r: Loaded)
    ensures file.Missing? ==> r == Loaded(Intents([], []), false)
    ensures file.Unreadable? ==> r == Loaded(Intents([], []), true)
    ensures file.Document? && !file.data.JObj? ==> r == Loaded(Intents([], []), true)
    ensures r.errorLogged ==> r.intents == Intents([], [])
    ensures forall k :: k in Keys(r.intents.apps) ==> Norm(k) == k
    ensures forall k :: k in Keys(r.intents.sites) ==> Norm(k) == k
  {
    match file
    case Missing => Loaded(Intents([], []), false)
    case Unreadable => Loaded(Intents([], []), true)
    case Document(data) =>
      if !data.JObj? then Loaded(Intents([], []), true)
      else
        var appsRaw := Or(GetOr(data.fields, "apps", JNull), JObj([]));
        var sitesRaw := Or(GetOr(data.fields, "sites", JNull), JObj([]));
        if !appsRaw.JObj? || !sitesRaw.JObj? then Loaded(Intents([], []), true)
        else
          var apps := LoadGroup(appsRaw.fields, false);
          var sites := LoadGroup(sitesRaw.fields, true);
          if apps.None? || sites.None? then Loaded(Intents([], []), true)
          else Loaded(Intents(apps.value, sites.value), false)
  }

  /** A document whose groups are objects (or falsy) and whose entries all
      normalise loads those groups, with no error logged; any other document
      is logged. */
  lemma LoadIntentsDocument(data: Json, appsRaw: Dict<Json>, sitesRaw: Dict<Json>)
    requires data.JObj?
    requires Or(GetOr(data.fields, "apps", JNull), JObj([])) == JObj(appsRaw)
    requires Or(GetOr(data.fields, "sites", JNull), JObj([])) == JObj(sitesRaw)
    ensures var r := LoadIntents(Document(data));
      !r.errorLogged <==> LoadGroup(appsRaw, false).Some? && LoadGroup(sitesRaw, true).Some?
    ensures var r := LoadIntents(Document(data));
      !r.errorLogged ==> r.intents == Intents(LoadGroup(appsRaw, false).value, LoadGroup(sitesRaw, true).value)
  {
  }

  /** A built-in alias table: label -> spoken variants. */
  type AliasTable = Dict<seq<string>>

  const ALIASES_SITE: AliasTable := [
    ("youtube", ["youtube", "yt", "you tube", "u tube", "you dude", "you doob", "you two", "you to"]),
    ("google", ["google", "search", "chrome search"]),
    ("gmail", ["gmail", "g mail"]),
    ("drive", ["google drive", "drive"]),
    ("docs", ["google docs", "docs"]),
    ("sheets", ["google sheets", "sheets"]),
    ("slides", ["google slides", "slides"]),
    ("gpt", ["chat gpt", "chatgpt", "openai chat", "g p t"]),
    ("github", ["git hub", "github"]),
    ("reddit", ["reddit"]),
    ("twitter", ["twitter", "x"]),
    ("instagram", ["instagram", "insta"]),
    ("facebook", ["facebook", "fb"]),
    ("whatsapp web", ["whatsapp web", "whatsapp"]),
    ("spotify web", ["spotify web", "spotify site"]),
    ("netflix", ["netflix"]),
    ("prime video", ["amazon prime", "prime video"]),
    ("steam store", ["steam store", "steam site"])
  ]

  const ALIASES_APP: AliasTable := [
    ("vs code", ["visual studio code", "v s code", "vs code", "code editor", "code", "vsc"]),
    ("chrome", ["chrome", "google chrome", "the browser", "browser"]),
    ("edge", ["microsoft edge", "edge"]),
    ("notepad", ["notepad", "note pad"]),
    ("obs", ["obs", "o b s", "obs studio"]),
    ("spotify", ["spotify"]),
    ("discord", ["discord"]),
    ("telegram", ["telegram", "tg"]),
    ("steam", ["steam"]),
    ("epic games", ["epic", "epic games"]),
    ("whatsapp", ["whatsapp", "whats app"]),
    ("notion", ["notion"]),
    ("figma", ["figma"]),
    ("photoshop", ["photoshop", "adobe photoshop"]),
    ("premiere", ["premiere", "adobe premiere", "premiere pro"]),
    ("after effects", ["after effects", "adobe after effects"]),
    ("word", ["word", "microsoft word"]),
    ("excel", ["excel", "microsoft excel"]),
    ("powerpoint", ["powerpoint", "microsoft powerpoint"])
  ]

  /** The table with every variant normalised. */
  function NormTable(t: AliasTable): (r: AliasTable)
    ensures |r| == |t| && forall i :: 0 <= i < |t| ==> r[i] == (t[i].0, NormAll(t[i].1))
  {
    seq(|t|, i requires 0 <= i < |t| => (t[i].0, NormAll(t[i].1)))
  }

  /** Assigning every key of every group its group's label, groups in order. */
  function Fill(g: AliasTable): Dict<string>
    decreases |g|
  {
    if |g| == 0 then [] else PutAll(Fill(g[..|g| - 1]), g[|g| - 1].1, g[|g| - 1].0)
  }

  /** The index `make_alias_index` builds: every normalised variant of every
      label, in table order, later labels overwriting earlier ones. */
  function AliasIndex(t: AliasTable): Dict<string> {
    Fill(NormTable(t))
  }

  /** The inner loop of `make_alias_index`: `idx[v.strip().lower()] = label`
      for every variant. */
  method AssignVariants(idx0: Dict<string>, variants: seq<string>, lab: string) returns (idx: Dict<string>)
    ensures idx == PutAll(idx0, NormAll(variants), lab)
  {
    ghost var keys := NormAll(variants);
    idx := idx0;
    for j := 0 to |variants|
      invariant idx == PutAll(idx0, keys[..j], lab)
    {
      var k := Norm(variants[j]);
      assert keys[j] == k;
      PutAllStep(idx0, keys, j, lab);
      idx := Put(idx, k, lab);
    }
    assert keys[..|variants|] == keys;
  }

  /** `make_alias_index(aliases)`. */
  method MakeAliasIndex(t: AliasTable) returns (idx: Dict<string>)
    ensures idx == AliasIndex(t)
  {
    ghost var g := NormTable(t);
    idx := [];
    for i := 0 to |t|
      invariant idx == Fill(g[..i])
    {
      idx := AssignVariants(idx, t[i].1, t[i].0);
      assert g[..i + 1][..i] == g[..i];
    }
    assert g[..|t|] == g;
  }

  /** A key no group lists is absent from the filled index. */
  lemma {:induction false} FillMiss(g: AliasTable, k: string)
    requires forall i :: 0 <= i < |g| ==> k !in g[i].1
    ensures Get(Fill(g), k) == None
    decreases |g|
  {
    if |g| > 0 {
      var init := g[..|g| - 1];
      assert forall i :: 0 <= i < |init| ==> init[i] == g[i];
      FillMiss(init, k);
      PutAllGet(Fill(init), g[|g| - 1].1, g[|g| - 1].0, k);
    }
  }

  /** A key maps to the label of the LAST group listing it. */
  lemma {:induction false} FillLast(g: AliasTable, k: string, i: nat)
    requires i < |g| && k in g[i].1
    requires forall j :: i < j < |g| ==> k !in g[j].1
    ensures Get(Fill(g), k) == Some(g[i].0)
    decreases |g|
  {
    var init := g[..|g| - 1];
    PutAllGet(Fill(init), g[|g| - 1].1, g[|g| - 1].0, k);
    if i < |g| - 1 {
      assert forall j :: 0 <= j < |init| ==> init[j] == g[j];
      FillLast(init, k, i);
    }
  }

  /** Every value of a filled index is one of the group labels. */
  lemma {:induction false} FillValues(g: AliasTable, k: string)
    ensures Get(Fill(g), k).Some? ==> Get(Fill(g), k).value in Keys(g)
    decreases |g|
  {
    if |g| > 0 {
      var init := g[..|g| - 1];
      FillValues(init, k);
      PutAllGet(Fill(init), g[|g| - 1].1, g[|g| - 1].0, k);
      assert Keys(init) <= Keys(g);
    }
  }

  /** `make_alias_index` misses exactly the keys that normalise no variant. */
  lemma AliasIndexMiss(t: AliasTable, k: string)
    requires forall i :: 0 <= i < |t| ==> k !in NormAll(t[i].1)
    ensures Get(AliasIndex(t), k) == None
  {
    FillMiss(NormTable(t), k);
  }

  /** Any other key maps to the last label listing a variant of it (later
      labels overwrite earlier ones). */
  lemma AliasIndexLast(t: AliasTable, k: string, i: nat)
    requires i < |t| && k in NormAll(t[i].1)
    requires forall j :: i < j < |t| ==> k !in NormAll(t[j].1)
    ensures Get(AliasIndex(t), k) == Some(t[i].0)
  {
    FillLast(NormTable(t), k, i);
  }

  /** Every value of the index is a label of the table. */
  lemma AliasIndexValues(t: AliasTable, k: string)
    ensures Get(AliasIndex(t), k).Some? ==> Get(AliasIndex(t), k).value in Keys(t)
  {
    FillValues(NormTable(t), k);
    assert Keys(NormTable(t)) == Keys(t);
  }

  const ALIASES_SITE_INDEX: Dict<string> := AliasIndex(ALIASES_SITE)
  const ALIASES_APP_INDEX: Dict<string> := AliasIndex(ALIASES_APP)
}
