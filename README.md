# Jarvis Local, modelled in Dafny

Jarvis Local is a desktop assistant. A line typed at its prompt, or a phrase
transcribed from the microphone, becomes at most one action: speak a sentence,
type text, take a screenshot or open an app or website. Apps and sites are
named in an intents file or in built-in alias tables, and are resolved by
exact and fuzzy matching. Every action that touches the desktop is gated by a
whitelist, and every step is announced through text-to-speech and written to
a log file.

This project models the core of that pipeline and proves what each part
promises:

- **Intent loading and label resolution** (`Intents`, `Resolver`)
  - `load_intents` normalises labels and aliases.
  - `make_alias_index` builds the built-in alias indexes.
  - `_resolve_from_entries` walks its six tiers: custom alias, built-in
    alias, exact label, fuzzy alias at 0.76, fuzzy label at 0.72, then
    substring.
- **Cleaning a transcript** (`Transcript`): `normalize_transcript` and its
  rewrite table.
- **Parsing a command** (`Parser`): `parse_command`, with its cascade of meta
  phrases, quick demos and keyword shapes.
- **Handling a command** (`Session`)
  - `handle_command`, with the `step`, `safe_step` and `retry_step` helpers.
  - `retry_step` is the bounded retry.
  - `load_whitelist` reads the whitelist file.
- **The second normaliser** (`Normalizer`, for `Core/command_normalizer.py`)
  - wake phrases and fillers;
  - canonical command words;
  - the five-tier `resolve_label`, with its own bigram similarity.
- **Voice capture** (`Voice`)
  - choosing the input device;
  - choosing the Whisper engine, GPU first with a CPU fallback;
  - cutting PCM into frames;
  - the silence and timeout segmentation loop;
  - joining the transcribed segments.
- **Plan validation and execution** (`Validator`): the plan whitelist,
  `validate_plan`, and the log and speech trace of `execute_plan`.
- **The action registry** (`Registry`, `Security`): `dispatch` over
  `open_app`, `open_site`, `type_text` and `screenshot`, and the app and site
  allow-lists.
- **Screenshot numbering** (`Screenshot`): the next free
  `screenshot N.ext` in a directory.
- **The action log** (`Logger`): timestamp parsing, pruning by age, and the
  append-then-maybe-prune of `log_action`.
- **Configuration lookup** (`Config`): `cfg_get` over dotted paths.

Helper modules model the Python behaviour the code relies on:

- `Wrappers`: `None` or a value.
- `Text`: `str.strip`, `lower`, `replace`, `split`, `join`, `\s+` squashing
  and decimal rendering.
- `Dicts`: dictionaries as insertion-ordered item sequences.
- `Json`: JSON values and truthiness.
- `Lines`: `splitlines` and file line iteration.
- `Best`: the first-maximum scan.

The desktop, the speech engine, the microphone, the clock, the file system
and the Whisper model are parameters of the model. The model takes what they
answer as input and records, in order, what the program asks of them. Log
records keep their action and status; where their detail text holds an
elapsed time or an exception message, that text is left out.

## Model

| member | source | states |
|---|---|---|
| Lines.CollectCommands | jarvis_main.py:94-99 | The whitelist loop collects exactly `Commands(lines)`: the stripped lines that are neither blank nor `#` comments. |
| Lines.Commands | jarvis_main.py:94-99 | Every collected command is kept (non-empty, no leading `#`) and has no surrounding whitespace. |
| Lines.CommandsExactly | jarvis_main.py:95-98 | A name is a whitelist command if and only if it is kept and some line strips to it. |
| Lines.CommandsSnoc | jarvis_main.py:95-98 | One more line adds its stripped text exactly when that text is kept. |
| Lines.CommandsGrow | jarvis_main.py:95-98 | Reading more lines never removes a command. |
| Lines.SplitOn | jarvis_main.py:95 | `splitlines()` gives no lines for empty text, and no piece contains a line break. |
| Lines.LineThen | Core/validator.py:34-37 | A line followed by "\n" is the first piece, and the rest is split on its own. |
| Session.LoadWhitelist | jarvis_main.py:82-99 | The commands are the kept stripped lines of the file's text. A missing file is first written with the six default commands, so its commands are read from that text. |
| Intents.NormIdempotent | jarvis_main.py:142 | `k.strip().lower()` is idempotent, so stored labels are fixed points of the normalisation the resolver applies. |
| Intents.Strings | jarvis_main.py:124-125 | The kept alias items are exactly the string items of the list. |
| Intents.NormAll | jarvis_main.py:124 | Normalising a list of variants keeps its length. |
| Intents.NormAllNormal | jarvis_main.py:124 | Every normalised variant is in normal form, and the results are exactly the images of the originals. |
| Intents.StringAliases | jarvis_main.py:124-125 | The aliases are in normal form and are exactly the normalised string items. |
| Intents.NormalizeEntry | jarvis_main.py:109-127 | A string is an enabled entry with that target and no aliases. An object takes `url` or `path`, else `target`, else "". An object is enabled iff its `enabled` is truthy, defaulting to true. Any other value is disabled. The call raises exactly when the aliases value cannot be iterated. |
| Intents.LoadGroup | jarvis_main.py:141-144 | Each loaded group has normalised, distinct labels and normalised aliases. |
| Intents.LoadIntents | jarvis_main.py:130-149 | A missing file gives two empty groups and no log. An unreadable file or a document that is not an object is logged as a `Load Intents` error and also gives two empty groups, as does every other logged error. Every stored label is normalised. |
| Intents.LoadIntentsDocument | jarvis_main.py:136-146 | An object document is loaded without a log exactly when both of its groups load, and then holds those groups. |
| Json.StrRepr | Core/command_normalizer.py:93 | `repr` of a string starts and ends with the quote it picks, and escapes the text in between. |
| Json.EscapeRoundTrip | Core/command_normalizer.py:93 | Reading the escapes back gives the original string. |
| Json.StrReprInjective | Core/command_normalizer.py:93 | Different strings have different reprs, so distinct string items inside a container give distinct keys. |
| Json.StrReprPlain | Core/command_normalizer.py:93 | A string of printable ASCII without a single quote or backslash is shown between single quotes, unchanged. |
| Json.OnePlainString | Core/command_normalizer.py:93 | `str(["a"])` is `['a']`: a list holding one plain string is keyed by its repr. |
| Intents.NormTable | jarvis_main.py:325-330 | Normalising an alias table keeps its labels and normalises every variant, entry by entry. |
| Intents.AssignVariants | jarvis_main.py:328-329 | The inner loop assigns the label to every normalised variant in order. |
| Intents.MakeAliasIndex | jarvis_main.py:325-330 | The two nested loops build exactly `AliasIndex(t)`. |
| Intents.FillMiss | jarvis_main.py:325-330 | A key that no group lists is absent from the filled index. |
| Intents.FillLast | jarvis_main.py:325-330 | A key maps to the label of the last group that lists it. |
| Intents.FillValues | jarvis_main.py:325-330 | Every value of the filled index is a group label. |
| Intents.AliasIndexMiss | jarvis_main.py:325-330 | The alias index misses every key that normalises no variant. |
| Intents.AliasIndexLast | jarvis_main.py:325-330 | A key maps to the last label listing a variant of it, because later labels overwrite earlier ones. |
| Intents.AliasIndexValues | jarvis_main.py:325-330 | Every value in the alias index is a label of the table. |
| Best.BestIndex | jarvis_main.py:370-374 | The best-so-far scan ends on the first index with the highest score, provided that score is positive. With no positive score it ends on nothing. |
| Best.BestIndexUnique | jarvis_main.py:370-374 | Any index that is positive, maximal and strictly above everything before it is the one chosen. |
| Resolver.Similarity | jarvis_main.py:333-340 | Bigram Jaccard similarity lies in [0, 1]. |
| Resolver.BigramsShort | jarvis_main.py:334-335 | A string has no bigram exactly when it has at most one character. |
| Resolver.SimilaritySymmetric | jarvis_main.py:333-340 | The similarity is symmetric. |
| Resolver.SimilaritySelf | jarvis_main.py:333-340 | A string scores 1.0 against itself. |
| Resolver.SimilarityShort | jarvis_main.py:336-337 | Two bigram-free strings score 1.0 if equal and 0.0 otherwise. |
| Resolver.SimilarityDisjoint | jarvis_main.py:338-340 | With no common bigram the score is 0, unless both are bigram-free. |
| Resolver.SimilarityEmpty | jarvis_main.py:336-340 | The empty string scores 0 against any non-empty key. |
| Resolver.Scores | jarvis_main.py:371-372 | One score per candidate, each the similarity with the spoken text. |
| Resolver.FindBest | jarvis_main.py:370-374 | The scan returns the first best-scoring candidate and its score. |
| Resolver.EnabledGroups | jarvis_main.py:349-353 | At most one alias group per entry, taken from the enabled entries only. |
| Resolver.AssignAll | jarvis_main.py:352-353 | `for a in aliases: idx[a] = lab` is `PutAll`. |
| Resolver.BuildCustomIndex | jarvis_main.py:348-353 | The loop builds `custom_alias_index`, skipping disabled entries. |
| Resolver.EnabledLabels | jarvis_main.py:379 | A label is listed if and only if some enabled entry has it. |
| Resolver.FirstOverlap | jarvis_main.py:389-393 | The substring tier returns a label that contains the text or is contained in it. It returns None only when no label does either. |
| Resolver.LabelTiers | jarvis_main.py:378-393 | Tiers 5 and 6 only ever return an enabled label. |
| Resolver.ResolveFromEntries | jarvis_main.py:343-393 | The method with its loops computes the resolver function `Resolve`. |
| Resolver.ResolveFuzzy | jarvis_main.py:367-393 | Tiers 4 to 6, with their scans, compute `FuzzyTiers`. |
| Resolver.ResolveLabels | jarvis_main.py:378-393 | Tiers 5 and 6, with their scans, compute `LabelTiers`. |
| Resolver.CustomIndexSnoc | jarvis_main.py:349-353 | The custom index grows by one entry's aliases exactly when that entry is enabled. |
| Resolver.CustomIndexMiss | jarvis_main.py:348-353 | An alias that no enabled entry lists is absent from the custom index. |
| Resolver.CustomIndexLast | jarvis_main.py:348-353 | An alias maps to the label of the last enabled entry listing it. |
| Resolver.CustomIndexValues | jarvis_main.py:348-353 | The custom index only yields labels of enabled entries. |
| Resolver.CustomAliasWins | jarvis_main.py:355-357 | Tier 1: an exact custom alias wins, with the last listing entry's label. |
| Resolver.BuiltinAliasSecond | jarvis_main.py:359-361 | Tier 2: failing that, an exact built-in alias wins whatever the entries hold. |
| Resolver.ExactLabelThird | jarvis_main.py:363-365 | Tier 3: failing that, the text is returned when it is the label of an enabled entry. A disabled entry's label falls through to the fuzzy tiers. |
| Resolver.ExactMiss | jarvis_main.py:355-367 | With no exact hit, resolution is decided by the fuzzy tiers alone. |
| Resolver.FuzzyAliasFourth | jarvis_main.py:367-376 | Tier 4: the first best-scoring alias key decides, custom keys before built-in. It must be non-empty and reach 0.76; its custom label is taken, falling back to the built-in one. |
| Resolver.FuzzyLabelFifth | jarvis_main.py:378-386 | Tier 5: when every alias key is under 0.76, the first best-scoring enabled label wins if it is non-empty and reaches 0.72. |
| Resolver.ResolveMiss | jarvis_main.py:343-393 | With no exact hit, every score under its threshold and no overlapping label, nothing is resolved. |
| Resolver.BlankPicksFirstLabel | jarvis_main.py:388-391 | Blank text that is no alias or label resolves to the first enabled label, because "" occurs in every label. |
| Resolver.OnlyEnabled | jarvis_main.py:350 | Filtering keeps exactly the enabled entries, in order. |
| Resolver.OnlyEnabledSame | jarvis_main.py:349-379 | The enabled groups and labels are the same after dropping disabled entries. |
| Resolver.OnlyEnabledGet | jarvis_main.py:364 | Looking up a label among the enabled entries finds it exactly when it is enabled. |
| Resolver.DisabledInert | jarvis_main.py:343-393 | Disabled entries never influence resolution: resolving against only the enabled entries gives the same answer. |
| Resolver.ResolveSound | jarvis_main.py:343-393 | Every answer is an enabled label or a value of the built-in index. |
| Resolver.EnabledLabelOf | jarvis_main.py:379 | An enabled entry's label is among the enabled labels. |
| Resolver.ResolveRespoken | jarvis_main.py:345 | Resolution normalises its input, so resolving pre-normalised text gives the same answer. |
| Resolver.SpokenNorm | jarvis_main.py:345 | `spoken.lower().strip()` absorbs a prior strip-and-lower. |
| Resolver.ResolveSpokenDepends | jarvis_main.py:348-393 | Entry tables with the same custom alias index, the same enabled labels and the same enabled exact hit resolve every text alike. |
| Transcript.DropWake | jarvis_main.py:317 | Removing the wake prefix leaves a suffix of the text. |
| Transcript.DropWakeNone | jarvis_main.py:317 | With no alternative matching at the start, the text is unchanged. |
| Transcript.DropWakeFirst | jarvis_main.py:317 | Only the first matching alternative is removed, together with its whole whitespace run. |
| Transcript.DropWakeLeavesNoSpace | jarvis_main.py:317 | After a removal the text does not start with whitespace. |
| Transcript.ApplyAllAppend | jarvis_main.py:306-310 | Applying two rule lists in turn is applying their concatenation. |
| Transcript.ApplyAllKeeps | jarvis_main.py:306-310 | Rewrites that each keep a property keep it through the whole table. |
| Transcript.ApplyCommonNormalize | jarvis_main.py:306-310 | The loop applies every rewrite of the table, in order. |
| Transcript.NormalizedIsSquashed | jarvis_main.py:313-322 | Whatever the rewrites do, the transcript is trimmed and single-spaced between words. |
| Transcript.NormalizedIsLower | jarvis_main.py:313-322 | When no rewrite introduces an upper-case letter, the transcript is lower-case. |
| Normalizer.DropWakePhrase | Core/command_normalizer.py:34-38 | Dropping the wake phrase leaves a suffix of the text. |
| Normalizer.StripWakePhrase | Core/command_normalizer.py:34-38 | The wake loop, with its `break`, computes `DropWakePhrase`. |
| Normalizer.WakeFirst | Core/command_normalizer.py:34-38 | Only the first phrase, in list order, that opens the text followed by a space is cut, together with the whitespace after it. |
| Normalizer.WakeNone | Core/command_normalizer.py:34-38 | Text that no wake phrase opens is left alone. |
| Normalizer.StripFillers | Core/command_normalizer.py:40-42 | The filler loop computes `DropFillers`. |
| Normalizer.FillerEdgesKept | Core/command_normalizer.py:40-42 | Fillers are only removed between two spaces, so the first and last word of the text survive. |
| Normalizer.FillersAbsent | Core/command_normalizer.py:40-42 | Text with no space-delimited filler is unchanged. |
| Normalizer.ReplaceKeepsHead | Core/command_normalizer.py:42 | A replacement whose pattern starts with a space keeps the first word. |
| Normalizer.ReplaceKeepsTail | Core/command_normalizer.py:42 | A replacement whose pattern ends with a space keeps the last word. |
| Normalizer.DropFillersKeepsLower | Core/command_normalizer.py:40-42 | Removing fillers keeps lower-case text lower-case. |
| Normalizer.NormalizeText | Core/command_normalizer.py:26-45 | The method computes `NormalizedText`. |
| Normalizer.NormalizeBlank | Core/command_normalizer.py:28-32 | None and blank input give "". |
| Normalizer.NormalizedForm | Core/command_normalizer.py:26-45 | The result is lower-case, trimmed and single-spaced between words. |
| Normalizer.CleanedForm | Core/command_normalizer.py:34-44 | Dropping the wake phrase and fillers and then squashing yields lower-case, single-spaced text. |
| Normalizer.Canonical | Core/command_normalizer.py:54-56 | No canonical word is found exactly when no variant list contains the text. |
| Normalizer.VariantsDisjoint | Core/command_normalizer.py:19-23 | The three variant lists share no word, so their order does not matter. |
| Normalizer.CanonicalWords | Core/command_normalizer.py:19-23 | Gives the canonical word each variant maps to; all other text maps to none. |
| Normalizer.CleanedIsClean | Core/command_normalizer.py:53 | `(text or "").lower().strip()` is lower-case and stripped. |
| Normalizer.CleanClean | Core/command_normalizer.py:53 | Already clean text is its own cleaning. |
| Normalizer.CommandWordSynonym | Core/command_normalizer.py:48-57 | Every variant, in any case and with surrounding whitespace, becomes its canonical word. Other text comes back lowered and trimmed. |
| Normalizer.CanonicalClean | Core/command_normalizer.py:19-23 | Each canonical word is clean and is one of its own variants. |
| Normalizer.CommandWordIdempotent | Core/command_normalizer.py:48-57 | Normalising a command word twice is normalising it once. |
| Normalizer.AliasKeys | Core/command_normalizer.py:92-93 | Each alias item contributes `str(al).strip().lower()`, in list order; a list or object item is keyed by its `repr`. |
| Normalizer.AddItem | Core/command_normalizer.py:80-93 | Each item adds its folded label to the label set. |
| Normalizer.AddObject | Core/command_normalizer.py:88-93 | An object entry raises exactly when its aliases are not iterable, and otherwise adds no labels. |
| Normalizer.MetaOfFacts | Core/command_normalizer.py:80-95 | The labels are the folded keys, and every alias names one of them. |
| Normalizer.FoldedKeysSnoc | Core/command_normalizer.py:81-82 | One more item adds its folded key. |
| Normalizer.AddItemLabelled | Core/command_normalizer.py:80-93 | Adding an item keeps every alias pointing at a label. |
| Normalizer.PutAllShape | Core/command_normalizer.py:92-93 | After the alias loop, every index item is old or points at the entry's label. |
| Dicts.PutItems | Core/command_normalizer.py:93 | An assignment adds `(k, v)` or keeps old items. |
| Normalizer.ExtractMeta | Core/command_normalizer.py:60-95 | A group that is not a dict gives empty results. Otherwise the labels are the folded keys, and every alias points at a label. |
| Normalizer.ExtractIntentMeta | Core/command_normalizer.py:60-95 | The loop computes `ExtractMeta`; `ok` is false where the source raises. |
| Normalizer.AddEntry | Core/command_normalizer.py:80-93 | One iteration of the loop computes `AddItem`. |
| Normalizer.IndexAliases | Core/command_normalizer.py:92-93 | The inner loop maps every folded alias to the label. |
| Normalizer.MetaOfStaysNone | Core/command_normalizer.py:80-95 | Once an item raises, the whole extraction raises. |
| Normalizer.EnabledIgnored | Core/command_normalizer.py:88-93 | The `enabled` flag is never read: changing it changes nothing. |
| Normalizer.Grams | Core/command_normalizer.py:107-108 | The gram set is never empty (`{s}` for short strings). |
| Normalizer.Gram | Core/command_normalizer.py:107 | `a[i:i+2]` is the two characters at `i`. |
| Normalizer.GramSimilarity | Core/command_normalizer.py:98-117 | The similarity lies in [0, 1]. |
| Normalizer.GramSymmetric | Core/command_normalizer.py:98-117 | The similarity is symmetric. |
| Normalizer.GramSelf | Core/command_normalizer.py:100-105 | Strings equal up to letter case score 1.0. |
| Normalizer.GramCaseless | Core/command_normalizer.py:100-101 | Letter case does not matter. |
| Normalizer.GramShortLong | Core/command_normalizer.py:107-117 | One character against two or more always scores 0. |
| Normalizer.GramScores | Core/command_normalizer.py:145-146 | One score per candidate. |
| Normalizer.BestMatch | Core/command_normalizer.py:143-148 | The best-so-far loop ends on the first best positive score. |
| Normalizer.FirstOverlapping | Core/command_normalizer.py:161-163 | The first label, in iteration order, that contains the text or is contained in it; no earlier label does either. |
| Normalizer.FindOverlapping | Core/command_normalizer.py:161-163 | The substring scan computes `FirstOverlapping`. |
| Normalizer.FirstOverlappingAt | Core/command_normalizer.py:161-163 | A first overlapping label is the one found. |
| Normalizer.Tiers | Core/command_normalizer.py:137-165 | Any label returned is one of the group's labels. |
| Normalizer.TiersImpl | Core/command_normalizer.py:137-165 | The tiers with their scans compute `Tiers`. |
| Normalizer.ResolveLabel | Core/command_normalizer.py:120-165 | A found label is a label of the group. Missing or empty spoken text gives None, and so does a group that is not a dict or is empty. |
| Normalizer.ResolveLabelImpl | Core/command_normalizer.py:120-165 | The body of `resolve_label` computes `ResolveLabel`. |
| Normalizer.AliasFirst | Core/command_normalizer.py:137-138 | Tier 1: an exact alias wins, even over an exact label. |
| Normalizer.LabelSecond | Core/command_normalizer.py:140-141 | Tier 2: failing that, an exact label wins. |
| Normalizer.FuzzyAliasThird | Core/command_normalizer.py:143-150 | Tier 3: failing that, the first best-scoring alias wins if it reaches 0.75. |
| Normalizer.FuzzyLabelFourth | Core/command_normalizer.py:152-159 | Tier 4: failing that, the first best-scoring label wins if it reaches 0.7. |
| Normalizer.SubstringFifth | Core/command_normalizer.py:161-165 | Tier 5: failing that, the first overlapping label wins; with none, the result is None. |
| Parser.AfterWord | jarvis_main.py:493 | What follows `word\s+` is a proper suffix of the command. |
| Parser.MetaCommand | jarvis_main.py:474-490 | On the lower-cased, stripped command, a meta shape is recognised exactly for the help, exit and intents words, the two quick demos and "screenshot". |
| Parser.OpenAnything | jarvis_main.py:518-530 | `open <x>` yields a site, an app or unknown, always with text and without arguments. |
| Parser.Build | jarvis_main.py:492-532 | The keyword shapes never carry arguments. An unknown result that carries text carries text neither resolver turns into a truthy label. |
| Parser.ResolversRespoken | jarvis_main.py:506-527 | Both resolvers normalise their input, so normalising first changes nothing. |
| Parser.MetaExit | jarvis_main.py:477-478 | The exit shape is recognised exactly on "stop", "exit" and "quit". |
| Parser.ParseExit | jarvis_main.py:471-478 | A command asks to leave exactly when its stripped, lower-cased text is an exit word. |
| Parser.ParseSplit | jarvis_main.py:471-532 | The cascade tries the meta shapes on the lower-cased stripped command first, then the keyword shapes. |
| Parser.SayShape | jarvis_main.py:492-495 | `say <m>` asks to speak exactly `m`. |
| Parser.TypeShape | jarvis_main.py:497-500 | `type <m>` asks to type exactly `m`. |
| Parser.OpenAppShape | jarvis_main.py:502-508 | `open app <x>` hands back the resolved app label, or `x` when nothing truthy was resolved. |
| Parser.OpenSiteShape | jarvis_main.py:510-516 | `open site <x>` hands back the resolved site label, or `x`. |
| Parser.OpenAnythingShape | jarvis_main.py:518-530 | Any other `open <x>` tries sites before apps. With neither it is unknown and carries `x`. |
| Parser.NoShapeUnknown | jarvis_main.py:532 | A blank command, or one that fits no meta phrase and no keyword shape, is unknown without text. |
| Parser.QuickDemoFirst | jarvis_main.py:483-484 | `open VSCode`, in any case, opens the editor even though it also fits `open <x>`. |
| Parser.VscodeDemo | jarvis_main.py:483-484 | "open vscode" is the first quick demo. |
| Parser.ParseUnknown | jarvis_main.py:518-532 | Whatever the command, an unknown result with text carries text that neither resolver turns into a truthy label. |
| Parser.ClassifySay | jarvis_main.py:493-494 | `say m` has the say shape with text `m`. |
| Parser.ClassifyType | jarvis_main.py:498-499 | `type m` has the type shape. |
| Parser.ClassifyApp | jarvis_main.py:503-504 | `open app x` has the app shape. |
| Parser.ClassifySite | jarvis_main.py:511-512 | `open site x` has the site shape. |
| Parser.ClassifyOpen | jarvis_main.py:519-520 | Any other `open x` has the general open shape. |
| Parser.ClassifyNone | jarvis_main.py:532 | Blank text, or stripped text whose first letter (case ignored) is not `s`, `t` or `o`, has no shape. |
| Parser.NotMeta | jarvis_main.py:474-490 | A command opening with "say " or "type " is no meta phrase. |
| Parser.NotMetaOpen | jarvis_main.py:483-486 | `open m` is a meta phrase only for the two quick demos. |
| Parser.OpenKeywordNotMeta | jarvis_main.py:483-486 | `open w x` is no meta phrase when the keyword `w` starts with neither quick demo's letter, for example `open app x` and `open site x`. |
| Parser.OpenMatches | jarvis_main.py:493-520 | On `open m` neither the say nor the type pattern applies, and the open pattern captures `m`. |
| Parser.OpenAppMatches | jarvis_main.py:493-504 | On `open app x` only the app pattern applies of the earlier ones, and it captures `x`. |
| Parser.OpenSiteMatches | jarvis_main.py:493-512 | On `open site x` the site pattern captures `x` and no earlier pattern applies. |
| Parser.Match1Keyword | jarvis_main.py:493 | A one-keyword pattern captures the rest after its keyword. |
| Parser.Match1Other | jarvis_main.py:493-498 | A one-keyword pattern fails on a command starting with a different letter. |
| Parser.AfterKeywordMiss | jarvis_main.py:493-498 | A keyword does not match a command opening with another letter. |
| Parser.FirstLetterMiss | jarvis_main.py:493-519 | No keyword pattern applies when the command's first letter differs from the keyword's. |
| Session.Step | jarvis_main.py:178-190 | The announcement comes first. Without an action nothing is called; with one it is called exactly once. The step raises exactly when that call fails, and then ends with the spoken error report. |
| Session.SafeStep | jarvis_main.py:193-201 | A name outside the whitelist is only refused: the block message is spoken and logged as BLOCKED. Otherwise the step announces. Only a permitted action is called, exactly once, with the given arguments. The step raises exactly when that call fails. |
| Session.SafeStepNoFunction | jarvis_main.py:200-201 | A whitelisted name without a function only announces and logs success. |
| Session.RetryCalls | jarvis_main.py:204-211 | Retrying only repeats the calls each attempt may make. |
| Session.RetryAtMost | jarvis_main.py:204-211 | At most `retries + 1` attempts are made (one when `retries <= 0`). |
| Session.RetryExhausted | jarvis_main.py:207-209 | A step that still raises has used every attempt. |
| Session.RetryFirstSuccess | jarvis_main.py:205-206 | An attempt that succeeds first time is not retried. |
| Session.SafeAttempt | jarvis_main.py:206 | The attempt is `safe_step` with the given announcement. |
| Session.RetryStep | jarvis_main.py:204-211 | `retry_step` only ever calls the permitted action it names. With extra arguments, a retry raises TypeError after the pause, because the recursive call binds the first argument to `retries` twice. |
| Session.RetryStepArgsRaise | jarvis_main.py:207-211 | With extra arguments and retries left, a failed first attempt ends in a raise after the pause, with no second attempt. |
| Session.SafeStepOnce | jarvis_main.py:193-201 | `safe_step` calls its action at most once, and exactly once when it raises. |
| Session.RetryStepAttempts | jarvis_main.py:204-211 | Without extra arguments, `retry_step` calls its action at most `retries + 1` times, and exactly that often when it still raises. With extra arguments, it calls the action at most once, and exactly once when it raises. |
| Session.OpenTarget | jarvis_main.py:608-615 | Exactly two effects, the first the open itself, and no whitelisted action is called. The second is the `Open Target` log, ERROR exactly when the open failed and the step raises, SUCCESS otherwise. |
| Session.OpenEntry | jarvis_main.py:721-726 | A disabled entry is only refused. An enabled one is announced and its target opened. |
| Session.OpenLabel | jarvis_main.py:714-740 | A missing label is reported and logged as MISSING; a present one goes to its entry. |
| Session.OpenResolved | jarvis_main.py:665-684 | A label the intents lack raises KeyError before anything happens. |
| Session.HandleUnknown | jarvis_main.py:662-687 | Blank or unresolvable text gets the apology. |
| Session.FromRun | jarvis_main.py:651-652 | A step's effects are kept, and it keeps the session going unless it raised. |
| Session.Delayed | jarvis_main.py:690-704 | The pause follows a step that did not raise when its delay key exists with a value `time.sleep` accepts; otherwise `defaults[key]` or the sleep raises. |
| Session.Screenshot | jarvis_main.py:654-660 | After a step that did not raise, the file name is announced and logged. |
| Session.HandleSay | jarvis_main.py:640-644 | The say command never calls an action, and its text says nothing exactly when the text is blank. |
| Session.HandleType | jarvis_main.py:646-652 | Blank text gets "Nothing to type."; other text is typed through `safe_step("type_text")`. |
| Session.ShotPath | jarvis_main.py:708 | The given path is used, else the next free one. |
| Session.HandleParsed | jarvis_main.py:618-743 | The session ends exactly on the exit action. Every action called is whitelisted and has a function. |
| Session.QuitOnExitWords | jarvis_main.py:618-626 | A command ends the session exactly when it is an exit word. |
| Session.CommandGated | jarvis_main.py:618-743 | Every collaborator action a command calls is whitelisted. |
| Session.UnknownIsNotCaught | jarvis_main.py:662-687 | The second resolution attempt for an unknown command never succeeds, so an unknown command always gets the apology. |
| Session.UnresolvedNotCaught | jarvis_main.py:662-687 | Unknown text that neither resolver knows gets the apology. |
| Session.BlockedTyping | jarvis_main.py:646-652 | Typing outside the whitelist is only told it is blocked; nothing is called. |
| Session.ShotAnnouncedWhenBlocked | jarvis_main.py:654-660 | The screenshot is announced as saved even when the step was blocked. |
| Session.OpenIgnoresWhitelist | jarvis_main.py:662-740 | Opening an intent never consults the whitelist. |
| Session.DisabledAppRefused | jarvis_main.py:721-723 | A disabled app is only refused. |
| Session.EnabledAppOpened | jarvis_main.py:724-726 | An enabled app is announced and then its target is opened. |
| Voice.PyIndex | Core/voice_whisper.py:59 | `devices[i]` exists exactly for `-len <= i < len`, with negative indexes counting from the end. |
| Voice.FirstNamed | Core/voice_whisper.py:78-82 | Finds the first device whose case-folded name contains the needle and that can record. |
| Voice.PickInputDevice | Core/voice_whisper.py:40-86 | A chosen device always exists and has an input channel. |
| Voice.PickDefault | Core/voice_whisper.py:54-63 | With no choice the default is used exactly when it exists and records; otherwise the pick fails. |
| Voice.PickIndex | Core/voice_whisper.py:65-74 | An index is taken exactly when it is in range and the device records. |
| Voice.PickName | Core/voice_whisper.py:76-82 | A name picks the first recording device that contains it. |
| Voice.PickNoName | Core/voice_whisper.py:83-84 | A name no recording device contains fails. |
| Voice.PickNameCaseless | Core/voice_whisper.py:77-79 | The letter case of the name does not matter. |
| Voice.FirstNamedSame | Core/voice_whisper.py:78-82 | Needles that match the same devices find the same one. |
| Voice.GpuCandidates | Core/voice_whisper.py:206-212 | The GPU compute list has three entries and ends with int8_float16 and float32. |
| Voice.GpuTries | Core/voice_whisper.py:181-192 | CUDA engines are tried in order up to and including the first that constructs. |
| Voice.TryGpuWith | Core/voice_whisper.py:181-192 | The loop tries exactly the engines of `GpuTries`. It finds a compute type exactly when some candidate constructs, and that one is the last tried. |
| Voice.InitModel | Core/voice_whisper.py:163-225 | Something is always tried. The kept engine is the last one tried and constructs; when nothing is kept, the last attempt failed. |
| Voice.CpuNeverTriesGpu | Core/voice_whisper.py:196-201 | Any device other than gpu, cuda or auto tries exactly one CPU engine. |
| Voice.GpuOrder | Core/voice_whisper.py:204-213 | On the GPU paths, the first candidate that constructs is kept after `k + 1` tries. |
| Voice.GpuTriesFirst | Core/voice_whisper.py:183-187 | The first constructing candidate ends the loop. |
| Voice.GpuFallback | Core/voice_whisper.py:214-219 | When no GPU candidate constructs, CPU int8 is tried last. |
| Voice.Frames | Core/voice_whisper.py:233-241 | Every frame has exactly `frame_samples` samples. |
| Voice.FramesCover | Core/voice_whisper.py:238-241 | Laid end to end, the frames are the samples up to the last whole frame. What is dropped is shorter than a frame. |
| Voice.FramesCount | Core/voice_whisper.py:234-241 | There are `n // frame_samples` frames and `n % frame_samples` samples are dropped. |
| Voice.IterFrames | Core/voice_whisper.py:233-241 | The generator loop yields exactly `Frames`. |
| Voice.AbsorbFacts | Core/voice_whisper.py:286-292 | Only voiced frames are buffered, and the first one opens the phrase. |
| Voice.AbsorbValid | Core/voice_whisper.py:286-292 | The buffer stays empty exactly when no phrase has started. |
| Voice.PollStepValid | Core/voice_whisper.py:279-315 | Every turn keeps the buffer and the start time in step. |
| Voice.TurnBuffers | Core/voice_whisper.py:285-292 | After a turn the buffer is cleared or holds the old buffer plus the voiced frames. |
| Voice.TurnFlush | Core/voice_whisper.py:294-315 | A flush happens exactly when the silence or the timeout is due. It clears the buffer and the start time. The buffer goes to the engine only when long enough, and only non-empty text is yielded. |
| Voice.HeardLongEnough | Core/voice_whisper.py:297-300 | A phrase shorter than `min_phrase_ms` never reaches the engine. |
| Voice.SaidNonEmpty | Core/voice_whisper.py:301-302 | No yielded text is empty. |
| Voice.ListenLoop | Core/voice_whisper.py:275-315 | The loop yields exactly `Said` over its polls. |
| Voice.PollTurn | Core/voice_whisper.py:279-315 | One pass of the `while` loop leaves exactly the phrase state and the yielded text of `PollStep`. |
| Voice.AbsorbFrames | Core/voice_whisper.py:285-292 | The frame loop leaves the buffer, the last voiced time and the start time that `Absorb` gives. |
| Voice.Respond | Core/voice_whisper.py:294-315 | The silence check, then the timeout check, leave the state and the text that `Decide` gives. |
| Voice.Transcribed | Core/voice_whisper.py:297-302 | A flushed buffer yields the text `Flush` gives: none when too short, none when empty. |
| Voice.Pieces | Core/voice_whisper.py:343-345 | At most one piece per segment. |
| Voice.Transcript | Core/voice_whisper.py:346 | The joined transcript has no surrounding whitespace. |
| Voice.TranscribeBytes | Core/voice_whisper.py:342-346 | The loop computes `Transcript`. |
| Voice.TranscriptOfWords | Core/voice_whisper.py:342-346 | Single-word segments are joined by single spaces. |
| Voice.WordPieces | Core/voice_whisper.py:343-345 | Word segments are kept unchanged. |
| Voice.JoinEdges | Core/voice_whisper.py:346 | A join of words starts with the first word and has no surrounding whitespace. |
| Voice.BlankSegmentKept | Core/voice_whisper.py:344-345 | A whitespace-only segment is not skipped and leaves a double space. |
| Validator.LoadWhitelist | Core/validator.py:26-38 | The commands are the kept stripped lines of the file's text, or of "say\n" when the file is missing. The missing-file notice is spoken exactly then. |
| Validator.MissingWhitelist | Core/validator.py:29-31 | A missing whitelist allows exactly "say". |
| Validator.OneCommand | Core/validator.py:34-37 | A single kept line is the only command. |
| Validator.StringKey | Core/validator.py:59 | The whitelist test, and the `actions.get` lookup, raise exactly for unhashable actions and hold exactly for strings in the collection. |
| Validator.ValidatePlan | Core/validator.py:50-62 | A passing plan has reason "OK". The check raises exactly on a truthy non-dict plan, or on an unhashable action in safe mode. |
| Validator.NoActionRefused | Core/validator.py:55-57 | A plan without a truthy action is refused with "No action in plan.". |
| Validator.ValidateVerdict | Core/validator.py:55-62 | A plan with an action passes exactly when safe mode is off or the action is whitelisted. A refused string action is named in the reason. |
| Validator.LogsAppend | Core/validator.py:71-92 | Log records and calls of concatenated traces add up. |
| Validator.LogsOne | Core/validator.py:71-92 | A single event contributes its own record or call. |
| Validator.LogsFinish | Core/validator.py:85-92 | After the call exactly one DONE or ERR record follows, and nothing is called. |
| Validator.BlockedOnce | Core/validator.py:71-74 | A failing plan is spoken about first and logged as one BLOCK record, and nothing is called. |
| Validator.MissingOnce | Core/validator.py:76-81 | An allowed but unmapped action gets one MISS record and nothing is called. |
| Validator.RunThenOneEnd | Core/validator.py:83-92 | A RUN record comes first and the call right after it, exactly once. Exactly one DONE or ERR record follows, and nothing escapes. |
| Validator.RaisesOnlyBeforeActing | Core/validator.py:65-92 | `execute_plan` raises exactly when the check raises, or when a passing action cannot be looked up; then it has done nothing. |
| Validator.Executor.constructor | Core/validator.py:65-92 | A new executor has no events. |
| Validator.Executor.ExecutePlan | Core/validator.py:65-92 | The events appended are exactly `Execution(...)`, and so is the raise. |
| Validator.Executor.RunCall | Core/validator.py:83-92 | The RUN record, the call and its ending are appended. |
| Registry.Refuse | Actions/registry.py:29-35 | A refusal makes no call and replies not ok. |
| Registry.CallsPair | Actions/registry.py:37-38 | A speech followed by one collaborator call makes one call. |
| Registry.Lookup | Actions/registry.py:25-26 | On an object with a string key, the lookup is the dictionary's own. |
| Registry.OpenApp | Actions/registry.py:23-39 | The reply is ok exactly when the target resolves to a non-empty string the whitelist allows. The only thing launched is that target, once. |
| Registry.OpenSite | Actions/registry.py:41-57 | The reply is ok exactly when the URL resolves to a non-empty string the whitelist allows. The only thing opened is that URL, once. |
| Registry.TypeText | Actions/registry.py:59-63 | Typing always succeeds with one call. |
| Registry.Screenshot | Actions/registry.py:65-76 | A screenshot always succeeds with one call. |
| Registry.Basename | Actions/registry.py:72-73 | The base name is a separator-free suffix of the path, preceded by a separator unless it is the whole path. |
| Registry.Dispatch | Actions/registry.py:16-79 | `no_route` is unreachable. The reply is ok exactly when one collaborator is called, and at most one ever is. |
| Registry.UnknownAction | Actions/registry.py:19-21 | An unregistered action is refused as unknown_action and calls nothing, and only those are. |
| Registry.LaunchOnlyAllowed | Actions/registry.py:23-39 | An app is launched only when the resolved target is an allowed non-empty string, and then it is that target. |
| Registry.BrowseOnlyAllowed | Actions/registry.py:41-57 | A site is opened only when the resolved URL is an allowed non-empty string. |
| Registry.OpenRefusals | Actions/registry.py:29-35 | An empty target gives no_app or no_site. A target the whitelist does not allow gives denied. |
| Registry.IntentReplacement | Actions/registry.py:24-27 | A name found in `intents["apps"]` is replaced by its entry's target, or by the entry when it is not an object. |
| Registry.NoReplacement | Actions/registry.py:24-27 | Without intents, or for a name not among their keys, the name is kept. |
| Registry.TypeAndShotSucceed | Actions/registry.py:59-76 | Typing passes the text and the interval. The screenshot passes the directory and the name. |
| Registry.ShotNameFallback | Actions/registry.py:67-68 | The name is a truthy `args["name"]`, else the setting, else "jarvis_screenshot.png". |
| Registry.ShotAnnouncement | Actions/registry.py:71-75 | Only the file name is announced unless the setting is present and falsy. |
| Registry.BasenameOfJoin | Actions/registry.py:73 | The base name of `dir\name` or `dir/name` is `name`. |
| Registry.BasenameAppend | Actions/registry.py:73 | The base name of a path ending in a separator, followed by a separator-free name, is that name. |
| Security.Allowed | Actions/security.py:5-8 | Every stored entry is lower-case. |
| Security.LoadWhitelist | Actions/security.py:1-11 | A missing file allows nothing; otherwise the result is the lowered kept lines. |
| Security.CollectAllowed | Actions/security.py:5-8 | The loop stores exactly `Allowed(lines)`. |
| Security.AllowedStep | Actions/security.py:6-8 | Each line adds its lowered stripped text exactly when it is kept. |
| Security.AllowedSnoc | Actions/security.py:6-8 | One more line adds its lowered text exactly when it is kept. |
| Security.AllowedAreLoweredCommands | Actions/security.py:1-11 | The stored entries are the lowered commands of the same lines. |
| Security.IsAllowedApp | Actions/security.py:14-21 | An app is allowed if and only if its lowered name is an entry or ends with an ".exe" entry. |
| Security.IsAllowedSite | Actions/security.py:24-29 | A site is allowed if and only if its lowered URL starts with an "http" entry. |
| Security.AllowedMonotone | Actions/security.py:14-29 | Adding entries never withdraws a permission. |
| Security.AllowedCaseless | Actions/security.py:15-25 | Letter case never matters. |
| Security.NothingAllowed | Actions/security.py:24-29 | An empty set allows nothing, and a missing or empty URL is never allowed. |
| Security.EntryShapes | Actions/security.py:18-28 | An entry not starting with "http" allows no site. An entry without ".exe" allows only itself as an app. |
| Screenshot.LStripDots | Actions/screenshot.py:14 | `ext.lstrip('.')` drops exactly the leading dots. |
| Screenshot.SpaceRun | Actions/screenshot.py:14 | The `\s+` run is maximal. |
| Screenshot.DigitRun | Actions/screenshot.py:14 | The `\d+` run is maximal. |
| Screenshot.ShotNumberShaped | Actions/screenshot.py:13-14 | Every match has the pattern's shape: "screenshot", whitespace, digits, a dot and the extension, case ignored. |
| Screenshot.ShapedShotNumber | Actions/screenshot.py:13-14 | Every name of that shape matches, with its number. |
| Screenshot.DigitsShaped | Actions/screenshot.py:14 | The rest after the whitespace is digits, a dot and the stem. |
| Screenshot.AfterWordOf | Actions/screenshot.py:14 | Whitespace before digits is skipped. |
| Screenshot.AfterSpaceOf | Actions/screenshot.py:14 | Digits, a dot and the stem read as the digits' value. |
| Screenshot.SpaceRunOf | Actions/screenshot.py:14 | The whitespace run ends where the digits start. |
| Screenshot.DigitRunOf | Actions/screenshot.py:14 | The digit run ends at the first non-digit. |
| Screenshot.MatchEndsWithStem | Actions/screenshot.py:14 | A matching name ends with a dot and the stem, case ignored. |
| Screenshot.MaxNumber | Actions/screenshot.py:16-28 | The result bounds every counted number and is one of them, or 0. |
| Screenshot.ShotNameInjective | Actions/screenshot.py:32 | Different numbers give different names. |
| Screenshot.AheadShrinks | Actions/screenshot.py:31-35 | Each taken candidate leaves fewer names ahead, so the search terminates. |
| Screenshot.NextScreenshotPath | Actions/screenshot.py:10-35 | The name is free and is `screenshot n.ext`. `n` exceeds every counted number, and every number between the maximum and `n` is taken. |
| Screenshot.LargestNumber | Actions/screenshot.py:16-28 | The first loop computes `MaxNumber`. |
| Screenshot.FirstFree | Actions/screenshot.py:30-35 | The second loop ends on the first free candidate from its start. |
| Screenshot.FirstShot | Actions/screenshot.py:16-30 | With no matching file the maximum is 0, so numbering starts at 1. |
| Screenshot.ShotNameMatches | Actions/screenshot.py:13-32 | For an extension with exactly one leading dot, a written name reads back as its own number, so the next call counts it. |
| Screenshot.NamedShape | Actions/screenshot.py:13-32 | `screenshot n.stem` matches with number `n`. |
| Logger.TimestampText | Core/logger.py:19-24 | Text is found exactly when the line starts with "[" and has a "]". It is the stripped text before the first "]". |
| Logger.ParseLineTimestamp | Core/logger.py:12-27 | Lines without "[" or "]" give None, and a timestamp is the parse of that text. |
| Logger.Filter | Core/logger.py:39-44 | The kept lines are accepted lines, no more than the input. |
| Logger.Pruned | Core/logger.py:39-44 | Every kept line is undated or recent. |
| Logger.PruneLines | Core/logger.py:39-44 | The loop computes `Pruned`. |
| Logger.FilterAppend | Core/logger.py:40-44 | Filtering acts line by line. |
| Logger.FilterOne | Core/logger.py:40-44 | A single line is kept exactly when it is accepted. |
| Logger.FilterMembers | Core/logger.py:40-44 | A line survives exactly when it is in the input and accepted. |
| Logger.FilterIdempotent | Core/logger.py:40-44 | Filtering twice is filtering once. |
| Logger.PrunedAppend | Core/logger.py:39-44 | Pruning acts line by line, so the kept lines keep their order. |
| Logger.PrunedMembers | Core/logger.py:39-44 | A line survives exactly when it is one of the lines and is undated or recent. |
| Logger.PrunedIdempotent | Core/logger.py:30-52 | Pruning again with the same cutoff changes nothing. |
| Logger.UndatedKept | Core/logger.py:42-44 | A line without a readable timestamp is never dropped. |
| Logger.EntryTail | Core/logger.py:58-60 | What follows the timestamp starts with "]". |
| Logger.BracketedText | Core/logger.py:21-24 | A line "[ts" followed by "]..." reads back the stripped `ts`. |
| Logger.EntryTimestamp | Core/logger.py:12-27 | Every entry reads back its own timestamp. |
| Logger.EntryParts | Core/logger.py:57-60 | The entry is the fixed header plus ` (message)` when the message is non-empty. |
| Logger.FormatEntry | Core/logger.py:57-60 | The method builds exactly `Entry`. |
| Logger.EntryMessage | Core/logger.py:59-60 | A non-empty message only appends ` (message)` to the entry without one. |
| Logger.LogFile.constructor | Core/logger.py:4-5 | The log file `LOG_FILE` either exists with its lines or is missing and has none. |
| Logger.LogFile.PruneOldLogs | Core/logger.py:30-52 | A missing file is left alone. Otherwise the lines become `Pruned` at the cutoff `now - days * 86400`. |
| Logger.LogFile.LogAction | Core/logger.py:55-80 | The file exists afterwards and has the entry appended. When it has grown big, it is pruned with seven days. |
| Logger.FreshEntryKept | Core/logger.py:76-78 | An appended entry whose timestamp is not older than the cutoff survives the pruning it may trigger, as the last line. |
| Config.CfgGet | Core/config.py:22-33 | The result is the value the dotted path reaches, or the default. |
| Config.WalkAppend | Core/config.py:26-30 | Walking a concatenated path walks the first part and then the rest. |
| Config.DottedPath | Core/config.py:26-31 | `a.b` reads `b` in the object under `a`, else the default. |
| Config.SingleKey | Core/config.py:27-28 | A single key that is present returns its value. |
| Config.NotAnObject | Core/config.py:27-30 | A document that is not an object yields the default for every path. |
| Config.SplitTwo | Core/config.py:26 | `"a.b".split(".")` is `[a, b]`. |
| Config.SplitNoSep | Core/config.py:26 | Text without the separator splits into itself alone. |

## Left out

- Speech, printing and `time.sleep` are recorded as effects or left out; the text-to-speech engine (`Core/tts.py`) is not part of this model.
- The desktop collaborators (`Actions/desktop.py`, `Actions/input.py`, `os.startfile`, `pyautogui`) are abstract: whether they raise is an oracle parameter. `Actions/registry.py` imports `open_app` and `open_site` from `Actions/desktop.py`, which defines neither, and its `take_screenshot` takes one argument; `Registry` models the dispatcher as if the imported names worked, and its collaborators never raise.
- File and directory I/O (reading the whitelist, intents, settings and log files, `mkdir`, `iterdir`, `exists`, `os.makedirs`, `os.path.getsize`) are parameters: the texts read, the entries listed, the intents file as missing, unreadable or a parsed document (`Intents.IntentsFile`), and `big` for the size test of `log_action`. The I/O exceptions the logger swallows are not modelled.
- Regular expressions are modelled by hand for the shapes the code uses. The `\w`, `\d`, `\s` and `IGNORECASE` classes are ASCII (`\s` is Python's whitespace set). `$` before a final newline, and case-insensitive filesystems, are not modelled.
- `str.lower`, `casefold` and `Text.Lower` are ASCII only; no Unicode case mapping.
- `Transcript.NormalizeTranscript`: the punctuation substitution, the polite-word removal and the rewrite table of `COMMON_NORMALIZE` are parameters rather than the literal regexes; what is proved holds for any rewrites with the stated properties.
- `Normalizer.ResolveLabel`: the iteration order of the label set is a parameter `order` that lists each label once (Python set order depends on hashing).
- `Normalizer.DropFillers`: one `replace` pass per filler, as the code does; fillers left adjacent to each other after one pass are not removed again.
- Voice: samples stand for the int16 PCM bytes; `_rms` and the energy threshold are a per-frame `voiced` flag; timestamps and durations are integer milliseconds; the warm-up loop, the audio callback queue, the stream setup and the exception printing are not modelled. The device list is a parameter, so the `RuntimeError` raised when `sd.query_devices()` fails is not modelled. `Voice.Frames` requires a positive frame size, which the source computes from the sample rate and `frame_ms`.
- `Voice.PickInputDevice`: a `bool` choice is an `int` in Python; the model lets the caller pass it as an index.
- The Whisper model's construction and transcription are parameters (`Constructs`, `Recognizer`, the segment texts).
- `Validator`: the settings and the whitelist of `validate_plan` are parameters instead of being loaded from files inside it; log records hold values rather than their `repr` text; exception texts are abstract; the timestamp of `_log` is not modelled.
- `Screenshot.NextScreenshotPath`: returns the file name and number, not the joined path. The `ValueError` branch is dead (the digits always parse) and is left out. `jarvis_main.py:414-447` is the same algorithm over the configured directory; it is not modelled separately.
- `Logger`: `datetime.strptime` is an abstract `parse` giving seconds; each line carries its line end, and a final line without one is not distinguished.
- `Registry.Basename`: `ntpath.basename` without drive letters or UNC prefixes. `Registry.Lookup`: list membership uses structural equality, so `True` and `1` are different.
- `jarvis_main.py`'s `run_cli`, `run_voice`, `run_system_test`, the help and intents listings, `_bootstrap_cuda_path` and `get_screenshots_dir` are I/O loops or printing around the modelled functions and are left out. `_inject_type_text_action` only registers a collaborator.
- `Core/config.py`'s `_load` caching is left out: the parsed document is a parameter of `Config.CfgGet`.
- Thresholds and similarities are exact rationals rather than floating point.
- Session.Step: the detail of its log records is the empty text. The source writes the elapsed `perf_counter()` time with SUCCESS, and that time plus ` | {e}`, the exception text, with ERROR; neither the clock nor exception texts are modelled.
- Session.OpenTarget: the ERROR log detail is the label alone; the ` | {e}` exception text the source appends is not modelled.
- Normalizer.NormalizedText: the input is `None` or a string; `normalize_text` also accepts any other value through `str(raw)`, which the model does not take.
- JSON numbers are integers (`Json.JInt`). A float from `json.loads` is not modelled: an alias `1.5`, whose `str` is `1.5`, a `"safe_mode": 0.0` or a float target.
- `Json.Repr`: characters outside ASCII are written as they are. Python escapes the non-ASCII characters it does not consider printable (`\xa0`, for example).
