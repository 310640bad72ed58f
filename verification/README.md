# Cantonese–Mandarin correspondence index, modelled in Dafny

`app_sc.js` is a browser page that shows how Cantonese initials, finals and
tones correspond to Mandarin ones. Its input is two read-only tables,
`initialsData` and `finalsData`. Each maps a Cantonese initial or final to a
list of groups. A group has a `mandarinInitial` label and a `chars` list of
records `{char, jyutping, pinyin}`. From these tables the page builds four
derived structures:

- two reverse indexes, keyed by Mandarin initial or final (`generateReverseData`);
- one tone table per language (`buildToneData`);
- a pair of tone cross tables, Cantonese tone → Mandarin tone and back
  (`buildToneCrossMaps`).

A search (`searchChar`) and a view loader (`loadData`) then read these
structures.

The model follows the code function by function, in nine modules:

- `common.dfy` (module `Common`) defines the record and group types.
  - Source tables become `seq<(key, seq<group>)>`, so `for…in` order is
    explicit.
  - It provides keyed lookup and update where the first entry with a key
    counts.
  - It flattens a table into its records in visiting order.
  - It has `FirstCh`, the first record carrying a character, and `Dedup`,
    which keeps the first record of each character.
- `romanization.dfy` (module `Romanization`) holds the regular expressions,
  written as scanning functions:
  - `extractJyut`;
  - `extractMandarinFinal`;
  - the letters-then-digit tone match;
  - the first digit;
  - JavaScript `trim`.
- `sorting.dfy` (module `Sorting`) has the two `Array.prototype.sort` orders,
  as stable insertion sorts:
  - by character;
  - by an integer measure, largest first.
- `scan.dfy` (module `Scan`) is the `consume(data)` closure, written
  generically over the per-record step.
- `reverse.dfy` (module `Reverse`) is `generateReverseData`.
- `tones.dfy` (module `Tones`) is `buildToneData` and the tone-name tables.
- `cross.dfy` (module `Cross`) is `buildToneCrossMaps`.
- `search.dfy` (module `Search`) is `searchChar`.
- `view.dfy` (module `View`) is the table selection and tone grouping of
  `loadData`.

The builders are methods with the source's loops. Each one's postcondition
equates its result with a specification function, written as a fold over
the records in visiting order. The lemmas then state what the source
promises about those functions. One consequence is proved along the way
(`Search.ReverseScansAddNothing`). The reverse indexes only regroup source
records. So the second half of `searchChar`, which scans them, can never
find a record that the scan of the forward tables missed.

Percentages are integers in tenths of a percent. `Tenths(n, total)` is
`1000·n/total` rounded to the nearest tenth, halves up, and 0 when the total
is 0.

## Model

| member | source | states |
|---|---|---|
| `Romanization.ExtractJyut` | app_sc.js:95-101 | The result is purely alphanumeric and is empty for empty input. When a letters-then-digit token exists, the result is at least two characters: letters, then one digit. |
| `Romanization.ExtractJyutLeftmost` | app_sc.js:98-99 | When the leftmost token is a maximal letter run at `i` followed by the digit at `j`, the result is exactly `s[i..j+1]`. |
| `Romanization.ExtractJyutFallback` | app_sc.js:100 | With no such token in a non-empty input, the result is the input with every non-`[A-Za-z0-9]` character removed. |
| `Romanization.KeepAlnumCounts` | app_sc.js:100 | The fallback filter keeps every letter and digit exactly as often as it occurs and drops everything else. |
| `Romanization.KeepAlnumAppend` | app_sc.js:100 | The filter works character by character: filtering a concatenation gives the two filtered parts in order. |
| `Romanization.ExtractJyutExamples` | app_sc.js:95-101 | Three examples: `"烹(paang1)"` gives `"paang1"`, `"paang1"` stays, and `"ng-"` gives `"ng"`. |
| `Romanization.FindToken` | app_sc.js:98 | A token is found exactly when one exists at or after `from`, and it is the leftmost one. This is the regular expression's leftmost-match rule. |
| `Romanization.ExtractMandarinFinal` | app_sc.js:185-190 | A missing pinyin gives `""`. The result contains no digit, and is empty or starts with one of `a e i o u`. |
| `Romanization.MandarinFinalIsVowelSuffix` | app_sc.js:187-189 | The final is a suffix of the pinyin with its digits removed. Everything dropped in front of it is a non-vowel. |
| `Romanization.RemoveDigitsCounts` | app_sc.js:187 | Removing digits keeps every other character exactly as often as it occurs and keeps no digit. |
| `Romanization.RemoveDigitsAppend` | app_sc.js:187 | Digits are removed character by character: the result for a concatenation is the two results in order. |
| `Romanization.MandarinFinalXiang` | app_sc.js:185-190 | Example: `"xiang1"` has final `"iang"`. |
| `Romanization.MandarinFinalSyllabic` | app_sc.js:185-190 | Example: `"m2"` has the empty final, so the finals index drops that record. |
| `Romanization.FirstDigit` | app_sc.js:318-321 | The result is a digit that occurs in the string with no digit before it. It is none exactly when the string has no digit. |
| `Romanization.Trim` | app_sc.js:432 | The result is a contiguous slice of the input with only whitespace cut off either side. It neither starts nor ends with whitespace. |
| `Sorting.SortByCharSorted` | app_sc.js:285-288 | A bucket without repeated characters comes out strictly ascending by character (code-point order). |
| `Sorting.SortByChar` | app_sc.js:285-288 | Sorting by character keeps the same records: a permutation of its input. |
| `Sorting.SortDesc` | app_sc.js:237 | Sorting by a measure keeps the same elements: a permutation of its input. |
| `Sorting.SortDescSorted` | app_sc.js:237 | The sorted list is non-increasing in the measure. |
| `Sorting.SortDescStable` | app_sc.js:237 | The sort is stable: elements with equal measure keep their relative order. |
| `Sorting.LexTransitive` | app_sc.js:287 | The character order is transitive. `LexIrreflexive` and `LexTrichotomy` make it a strict total order. |
| `Scan.Consume` | app_sc.js:274-280 | `consume(data)` leaves the state that feeding every record of the table, in key, group and record order, to the step gives. |
| `Reverse.GenerateReverseData` | app_sc.js:181-241 | The builder's result equals `ReverseIndex(src, mode)`: distribution, then per-key annotation and sort. |
| `Reverse.DistributeAll` | app_sc.js:193-224 | The nested key and group loops leave the table that the initials or the finals distribution of all visited groups or records specifies. |
| `Reverse.DistributeKey` | app_sc.js:192-223 | One Cantonese key's `forEach` over its groups extends the distribution by those groups (initials) or by their records (finals), in order. |
| `Reverse.VisitGroup` | app_sc.js:195-222 | The per-group callback: in initials mode the group is pushed under its Mandarin initial, in finals mode its records are routed one by one. |
| `Reverse.RouteGroup` | app_sc.js:208-221 | In finals mode, the loop over one group's records routes each record in order. |
| `Reverse.FinishTable` | app_sc.js:226-238 | The loop over the Mandarin keys replaces each key's groups by their finished list and keeps the keys in order. |
| `Reverse.FinishKey` | app_sc.js:227-238 | One key's groups get their total, then every percentage from that total, then the sort by percentage. |
| `Reverse.Tenths` | app_sc.js:233 | The result is 0 when the total is 0. Otherwise it is within half a tenth of `1000·n/total`, and between 0 and 1000 when `n <= total`. |
| `Reverse.DistInitialsLookup` | app_sc.js:197-205 | In initials mode, the list under initial `m` is exactly the groups labelled `m`. Each appears once, with its Cantonese key, its chars unchanged, in visiting order. `m` is a key only if some group carries it. |
| `Reverse.DistInitialsCount` | app_sc.js:197-205 | In initials mode, there are as many output groups as source groups. |
| `Reverse.InitialsReverseIndex` | app_sc.js:181-241 | The finished initials index under `m` is the finished list of the groups labelled `m`, or absent when there are none. |
| `Reverse.InitialsGroupCount` | app_sc.js:197-238 | The finished initials index has exactly as many groups as the source table, over all keys. |
| `Reverse.AddToBucketSpec` | app_sc.js:215-220 | `find` then `push`: only the group of the record's Cantonese final grows, by the record at its end. A missing group is created at the end, and the existing groups keep their places. There is never a second group for the same key. |
| `Reverse.DistFinalsKeys` | app_sc.js:209-212 | A Mandarin final is a key exactly when it is non-empty and some visited record has it. Its list is then non-empty. |
| `Reverse.DistFinalsNoEmptyKey` | app_sc.js:210 | Records whose final is empty are dropped, so the empty final is never a key. |
| `Reverse.DistFinalsGroups` | app_sc.js:208-221 | Under each final, at most one group per Cantonese final, none empty. Each holds exactly the records of that Cantonese final with that Mandarin final, once each, in visiting order, with no deduplication. The groups stand in the order each Cantonese final was first routed to that Mandarin final (`FirstVisits`). |
| `Reverse.FinalsReverseIndex` | app_sc.js:181-241 | The finished finals index combines the two statements above: the same keys, and each key's list is the finished list of those groups, taken before the sort in first-routed order of their Cantonese finals. That order decides ties in the stable sort. |
| `Reverse.ReverseIndexUniqueKeys` | app_sc.js:199-212 | In either mode the index holds each Mandarin key at most once, as the JavaScript object does. |
| `Reverse.FinishProperties` | app_sc.js:227-238 | A key's finished list is a permutation of its annotated groups, non-increasing by percentage and stable for equal percentages. Each percentage is `Tenths` of the group size over the key's total and lies in [0, 1000]. |
| `Reverse.FinishAllLookup` | app_sc.js:227-238 | Finishing keeps every key in place and finishes each key's list on its own. |
| `Reverse.ReverseIndexFrom` | app_sc.js:181-241 | Every record of a reverse index is a record of its source table. |
| `Tones.ValidToneRange` | app_sc.js:163-177 | The whitelists: Cantonese tones are exactly `"1"`–`"6"` and Mandarin tones exactly `"1"`–`"4"`. |
| `Tones.ToneOf` | app_sc.js:249-261 | A tone that is found is always one the language's table names. |
| `Tones.ToneOfToken` | app_sc.js:249-261 | A missing field or a field without a letters-then-digit token gives no tone. Otherwise the tone is the digit ending the leftmost token, if the language knows it. |
| `Tones.ToneOfExamples` | app_sc.js:249-261 | Examples: `si1`/`shi1` give tone 1 in both languages; `si7` gives no Cantonese tone; a missing pinyin gives no Mandarin tone. |
| `Tones.ToneFold` | app_sc.js:262-271 | After any run of `addChar`, tone `t` has a bucket exactly when some record has that tone. The bucket is those records with repeats of a character dropped, the first record kept. |
| `Tones.BuildToneData` | app_sc.js:244-291 | The builder's result equals `ToneData`: both tables consumed (initials first), then every bucket sorted. |
| `Tones.SortBuckets` | app_sc.js:285-288 | Every bucket is replaced by its sort by character, and the keys are unchanged. |
| `Tones.ToneDataProperties` | app_sc.js:244-291 | Every key is a whitelisted tone with a non-empty bucket. The bucket is strictly ascending by character, so no character appears twice. It is a permutation of the deduplicated records of that tone. For each character it holds the first such record, initials table first. |
| `Cross.FirstDigitOf` | app_sc.js:318-321 | A tone read from a field is one digit character. |
| `Cross.CrossFoldC2M` | app_sc.js:297-326 | The raw `c2m[ct][mt]` holds the records whose first jyutping digit is `ct` and first pinyin digit is `mt`, both whitelisted, first record of each character only. The cell exists exactly when there is such a record. |
| `Cross.CrossFoldM2C` | app_sc.js:305-326 | The same for the raw `m2c[mt][ct]`. |
| `Cross.CrossFoldShape` | app_sc.js:297-312 | Raw tables have only whitelisted keys on both levels, no empty inner table and no empty list. |
| `Cross.MapToArray` | app_sc.js:332-343 | `mapToArray` keeps every key on both levels and sorts every list by character. |
| `Cross.BuildToneCrossMaps` | app_sc.js:293-346 | The builder's result equals `ToneCross`: both tables consumed, then both maps converted. |
| `Cross.ToneCrossProperties` | app_sc.js:293-346 | Symmetry: `c2m[ct][mt]` exists exactly when `m2c[mt][ct]` does, and they hold the same list. That list exists exactly when some record has those tones, is strictly sorted by character, is a permutation of the first-of-each-character records, and keeps the first-seen record. |
| `Cross.ToneCrossShape` | app_sc.js:293-346 | The finished tables have only whitelisted keys, no empty inner table and no empty list. |
| `Search.FindInChars` | app_sc.js:440-444 | The scan of one group's characters returns the first record whose character is the query, or none. |
| `Search.FindInGroups` | app_sc.js:437-445 | The scan of one key's groups returns the first matching record in group and character order, or none. |
| `Search.FindIn` | app_sc.js:435-448 | `findIn` returns the first record, in key, group and record order, whose character is the query. It returns none if there is none. |
| `Search.SearchChar` | app_sc.js:430-480 | An empty query gives none. Otherwise the result is the first record with the trimmed query as character, scanning initials, finals, reverse initials, then reverse finals. A found record's character is the trimmed query. |
| `Search.ReverseScansAddNothing` | app_sc.js:450-479 | With the reverse indexes built from the forward tables, the search result is the first match in initials then finals alone. |
| `View.LoadData` | app_sc.js:636-675 | Selection: tones read the direction's cross table; other tabs read the forward table (c2m) or reverse index (m2c). A key the table lacks gives "no data". A tone view has the source-language tone label as heading and the grouped inner buckets. |
| `View.BuildToneGroups` | app_sc.js:655-675 | The total loop, the group loop and the sort give `ToneGroups(data, lang)`. |
| `View.ToneGroupsProperties` | app_sc.js:657-673 | For one-digit inner keys, each bucket gives one group and every group comes from a bucket. A group carries the bucket unchanged, the target-language label, and its share of the total (in [0, 1000]). Groups are non-increasing by size and stable in ascending key order. There are exactly as many groups as buckets. |
| `View.ToneGroupsCount` | app_sc.js:657-668 | Each bucket of a tone gives exactly one group. |
| `View.ToneCrossInnerDigits` | app_sc.js:293-346 | Every inner key of the built cross tables is a one-digit string, so `View.ToneGroupsProperties` applies to every tone the tones tab shows. |
| `View.ToneLabelExamples` | app_sc.js:654-665 | Labels are `"name (t)"` for a named tone and the bare digit otherwise, e.g. `"上 (3)"` and `"5"`. |

## Left out

- DOM rendering and event wiring are not modelled. This covers `renderLists`,
  the HTML assembly in `loadData`, the modal and `showCharDetail`, and the
  search, tab and direction handlers. They have no logic beyond the
  selection and grouping that is modelled.
- `playJyutpingAudio` is not modelled: it is `Audio` playback with a promise
  retry chain. Only the token it is given (`extractJyut`) is.
- The `localStorage` language preference and URL-based page switching are
  browser I/O.
- The README fetch and the markdown help renderer are network and
  presentation code.
- `convertStringTcToSc`, `translateHTML` and `tText` are not modelled: every
  entry of their table maps a string to itself.
- Percentages are not modelled as floats. `toFixed(1)` of a float is
  replaced by exact round-half-up to tenths (`Tenths`). Strings such as
  `'0.0'` are not produced, and nothing is claimed about the percentages
  summing to 100.
- `localeCompare` collation is replaced by code-point lexicographic order.
- `Array.prototype.sort` is modelled on values as a stable insertion sort,
  not in place. Aliasing is not modelled: initials-mode output groups share
  their `chars` arrays with the source.
- JavaScript object-key order is fixed explicitly rather than modelled from
  the engine's rules:
  - the source tables and reverse indexes are sequences in insertion order;
  - the tone tables are maps;
  - `loadData` visits inner tone keys as the digits `0`–`9` in ascending
    order.
  `View.ToneGroupsProperties` therefore assumes one-digit inner keys, which
  `View.ToneCrossInnerDigits` proves for the built tables (from
  `Cross.ToneCrossShape`). `View.LoadData` on an
  inner table with other keys would skip them.
- Null records, a missing `chars` list, and non-string romanization fields
  (`String(x)` of a number) are not modelled. A record is `{char,
  jyutping?, pinyin?}`, and a missing field is `None`. `generateReverseData`
  would crash on a missing `chars`, whereas the other builders skip it.
- Keys that collide with `Object.prototype` members (a Mandarin initial
  named `constructor`) are not modelled. The model treats every key as
  absent until set.
- The globals `initialsData` and `finalsData` come from outside this file.
  They are parameters, as are the derived globals that `searchChar` and
  `loadData` read.
