# CHC-CAT: DIF screening and assessment bookkeeping in Dafny

This project models the computational core of a browser-based adaptive
cognitive assessment (the CHC-CAT web app) and proves properties of that
model. Two source files are modelled.

- `js/research/dif.js`, the Mantel–Haenszel differential item functioning
  (DIF) screen `runDIFReport`:
  - it keeps the completed sessions and normalises their group labels;
  - it gives each person a total score over the scored responses;
  - it stops with fewer than 60 persons or fewer than two groups;
  - it takes the two largest groups as reference and focal groups;
  - it cuts the totals into five score strata at four quantile cut points;
  - it fills one 2×2 table (A, B, C, D) per item and stratum;
  - it forms the Mantel–Haenszel common odds ratio, the ETS delta and the
    flag;
  - it sorts the items by |delta| and writes them as CSV with the quoting
    of section 2 of RFC 4180 (`csvEscape`);
  - `median` is the small helper beside it.
- `app.js`, the pieces of the application that compute rather than draw:
  - `escapeHtml`;
  - the integrity badge and the flag list;
  - the group levels offered in the DIF explorer;
  - the long-format rows the explorer builds and filters;
  - the domain and family labels;
  - the static adaptive-test configuration `makeCatConfig`;
  - the domain progression of `AssessmentController`.

The model follows the source's own form.

- **Pure code is functions.** The escape, median, labels, configuration,
  odds ratio, ranking and CSV text are functions with contracts and lemmas.
- **Loops are methods.** The person loop, the group count, `stratum`,
  `addGroup`, the MH sums, the row loop, `inferGroupLevels` and the
  explorer's row building are methods with `for` loops. Most are proved
  equal to a specification function (`ensures result == Spec(inputs)`),
  and the properties are proved about that function. `inferGroupLevels`
  and the explorer's per-domain tally are instead characterised directly:
  by exact membership and strict order, and by the tally of each domain.
- **Mutated objects are classes.**
  - The `itemStats` map that `ensure`/`addGroup` mutate is the class
    `DifTables.ItemStats`. Its fields are the item order and a map to the
    five strata cells.
  - The controller is the class `Controller.AssessmentController`. It has
    `domainIndex`, the current domain and the phase flags, plus a ghost log
    of the domains it started.

Module layout:

| module | file | holds |
|---|---|---|
| `Wrappers` | `wrappers.dfy` | `Option`, `Result` |
| `Text` | `text.dfy` | `trim`, ASCII `toLowerCase`, `replaceAll`, `join`, the default string sort order |
| `Sorting` | `sorting.dfy` | `Array.prototype.sort` with a numeric comparator: a stable insertion sort by a real key |
| `Sessions` | `sessions.dfy` | sessions, events, payloads, `completed` filter, `ITEM_RESPONSE` filter |
| `Csv` | `csv.dfy` | `csvEscape`, the record and table writer, an RFC 4180 reader as its inverse |
| `Median` | `median.dfy` | `median` |
| `MantelHaenszel` | `mantel_haenszel.dfy` | strata cells, MH sums, odds ratio, delta and flag |
| `DifTables` | `dif_tables.dfy` | `stratum`, the `ItemStats` class, `ensure`, `addGroup`, counter tallies |
| `DifReport` | `dif_report.dfy` | `runDIFReport` as a whole |
| `Html` | `html.dfy` | `escapeHtml` and an entity decoder as its inverse |
| `Integrity` | `integrity.dfy` | `integrityBadge`, `renderFlags` |
| `CatConfig` | `cat_config.dfy` | `makeCatConfig`, `domainLabel`, `familyLabel` |
| `GroupLevels` | `group_levels.dfy` | `inferGroupLevels` |
| `DifRows` | `dif_rows.dfy` | the explorer's rows and their per-domain filter |
| `Controller` | `controller.dfy` | `AssessmentController` domain progression |

The natural logarithm (`Math.log`) and `Number.prototype.toFixed` are
parameters of the report (`ln`, `fixed`). A property that needs a law of the
logarithm (ln 1 = 0, ln(1/x) = −ln x) states that law as a hypothesis.

## Model

| member | source | states |
|---|---|---|
| Csv.CsvEscape | js/research/dif.js:6-10 | a field without `"`, `,`, LF or CR comes back unchanged; any other field is wrapped in quotes |
| Csv.DoubleQuotes | js/research/dif.js:8 | doubling the quotes never shortens the text |
| Csv.EscapeAll | js/research/dif.js:126 | each field of a row is escaped on its own, in order |
| Csv.WriteRecords | js/research/dif.js:126 | one line per record, in order |
| Csv.ReadFieldEscaped | js/research/dif.js:6-10 | reading an escaped field gives back the original text and stops at the next separator, quoted or not (RFC 4180 section 2) |
| Csv.ReadFieldQuoted | js/research/dif.js:8 | a quoted field with doubled quotes reads back as the original text |
| Csv.ReadFieldBare | js/research/dif.js:9 | a field that needs no quotes reads back as itself |
| Csv.ReadQuotedDoubled | js/research/dif.js:8 | the body with doubled quotes, then a closing quote, decodes to the original text |
| Csv.ReadBarePlain | js/research/dif.js:9 | an unquoted field ends at the first separator |
| Csv.ReadRecordWritten | js/research/dif.js:126 | a record joined with `,` reads back as the same fields |
| Csv.ReadTableWritten | js/research/dif.js:125-126 | records joined with LF read back as the same records |
| Csv.WriteRecordPlain | js/research/dif.js:125 | a record whose fields need no quotes is written as the plain `join(",")`, as the header is |
| Median.SortedCopy | js/research/dif.js:14 | the copy is a permutation of the input in ascending order; the input is not changed |
| Median.Median | js/research/dif.js:12-17 | an empty list gives 0; otherwise the result lies between the least and the greatest element, and for an odd length it is an element |
| Median.MedianOfSorted | js/research/dif.js:15-16 | for a sorted list it is the middle element (odd length) or the mean of the two middle elements (even length) |
| Median.MedianOrderIndependent | js/research/dif.js:14 | the median depends only on the multiset of values, not on their order |
| Median.SortedUnique | js/research/dif.js:14 | two ascending permutations of the same values are equal |
| Median.AscendsHeadLeast | js/research/dif.js:14 | the head of an ascending list is its least element |
| MantelHaenszel.SumNonNegative | js/research/dif.js:107-110 | a sum of non-negative terms is non-negative |
| MantelHaenszel.NumSum | js/research/dif.js:101-110 | Σ A·D/N over the strata with N > 0 is non-negative |
| MantelHaenszel.DenSum | js/research/dif.js:101-110 | Σ B·C/N over the strata with N > 0 is non-negative |
| MantelHaenszel.SumsStep | js/research/dif.js:103-110 | one more stratum adds exactly its own term to each sum |
| MantelHaenszel.MhSums | js/research/dif.js:101-113 | the accumulation loop computes exactly Σ A·D/N and Σ B·C/N, skipping empty strata |
| MantelHaenszel.ItemRow | js/research/dif.js:114-120 | a row exists iff both sums are positive; then alpha·den = num, alpha > 0, delta = −2.35·ln(alpha), and the flag is "FLAG" iff \|delta\| ≥ 1.5, else "" |
| MantelHaenszel.ConstantOddsSums | js/research/dif.js:107-110 | if A·D = k·B·C in every stratum then num = k·den |
| MantelHaenszel.ConstantOddsAlpha | js/research/dif.js:114-116 | a common odds ratio k > 0 across the strata is exactly the alpha computed |
| MantelHaenszel.NoDifNoFlag | js/research/dif.js:116-118 | an item with equal odds in both groups in every stratum has alpha 1 and, as ln 1 = 0, delta 0 and no flag |
| MantelHaenszel.SwapGroups | js/research/dif.js:86-90 | exchanging the groups exchanges A with C and B with D in every stratum |
| MantelHaenszel.SwapGroupsSums | js/research/dif.js:107-110 | exchanging the groups exchanges the two sums |
| MantelHaenszel.SwapGroupsInverts | js/research/dif.js:116-118 | exchanging the groups inverts alpha; with ln(1/x) = −ln x it negates delta and keeps the flag |
| MantelHaenszel.OddsTerm | js/research/dif.js:107-108 | equal odds in a stratum make its numerator term k times its denominator term |
| DifTables.CountBelow | js/research/dif.js:64-68 | the stratum is at most the number of cuts, so it lies in 0..4 |
| DifTables.Stratum | js/research/dif.js:64-68 | the loop counts the cuts strictly below the total |
| DifTables.StratumMonotone | js/research/dif.js:64-68 | a larger total never falls in a lower stratum |
| DifTables.StratumIsBin | js/research/dif.js:64-68 | with ascending cuts, the stratum exceeds k exactly when cut k is below the total |
| DifTables.SlotOf | js/research/dif.js:86-90 | reference responses go to A or B and focal ones to C or D; correct ones to A or C |
| DifTables.Bump | js/research/dif.js:87-89 | `st.A++` and the others raise one counter by one and leave the other three alone |
| DifTables.EmptyStrata | js/research/dif.js:74 | a new item has five empty cells |
| DifTables.EnsureItem | js/research/dif.js:72-77 | `ensure` leaves a known item as it is and appends a new item, with five empty cells, to the key order |
| DifTables.RecordChangesOneCounter | js/research/dif.js:85-90 | recording a response changes one counter of one cell and nothing else in the map |
| DifTables.RecordEvents | js/research/dif.js:82-91 | the items of the map afterwards are those before plus those of the responses |
| DifTables.EnsureTally | js/research/dif.js:72-77 | `ensure` changes no counter total |
| DifTables.RecordTally | js/research/dif.js:85-90 | recording a response raises the total of its counter by one and no other total |
| DifTables.RecordEventsTally | js/research/dif.js:82-91 | a person's responses raise each counter total by the number of that person's responses that go to it |
| DifTables.RecordPersonsTally | js/research/dif.js:79-93 | a group raises each counter total by the number of its responses that go to it |
| DifTables.EventsTallySplit | js/research/dif.js:84-90 | every response goes to exactly one counter, and reference ones never to C or D (focal ones never to A or B) |
| DifTables.PersonsTallySplit | js/research/dif.js:79-93 | A + B counts every reference response and C + D every focal response |
| DifTables.ItemStats.Ensure | js/research/dif.js:72-77 | the mutated map equals `EnsureItem` of the old one |
| DifTables.ItemStats.Count | js/research/dif.js:85-90 | the mutated map equals `Record` of the old one |
| DifTables.AddGroup | js/research/dif.js:79-93 | the nested loops leave the map equal to `RecordPersons` of the old one |
| DifTables.AddResponses | js/research/dif.js:80-92 | the inner loop over one person's responses leaves the map equal to `RecordEvents` of the old one in that person's stratum |
| DifReport.Scored | js/research/dif.js:30-34 | the scored responses are exactly those whose outcome is a number |
| DifReport.ScoredCounts | js/research/dif.js:30-34 | each scored response is kept as many times as it occurs, and no unscored one is kept |
| DifReport.ScoredAppend | js/research/dif.js:30-34 | the filter keeps response order: scoring a concatenation scores each part |
| DifReport.CorrectCount | js/research/dif.js:36 | a total never exceeds the number of scored responses |
| DifReport.PersonsOf | js/research/dif.js:24-38 | at most one person per session; every person has a non-empty label and only scored responses |
| DifReport.Labelled | js/research/dif.js:26-27 | a session is kept iff it is one of the sessions and its trimmed label is non-empty |
| DifReport.IsLabelledIff | js/research/dif.js:26-27 | the trimmed raw value is non-empty iff the trimmed, lower-cased label is |
| DifReport.LabelledCounts | js/research/dif.js:26-27 | each labelled session is kept as many times as it occurs, and no other |
| DifReport.LabelledAppend | js/research/dif.js:24-27 | the filter keeps session order: filtering a concatenation filters each part |
| DifReport.PersonsOfLabelled | js/research/dif.js:24-38 | the persons are the labelled sessions, in session order, each turned into the person built from it (`PersonsAll`) |
| DifReport.BuildPersons | js/research/dif.js:23-38 | the person loop computes exactly `PersonsOf` |
| DifReport.BumpGroup | js/research/dif.js:47 | `counts.set(g, (counts.get(g) ?? 0) + 1)` adds one to a known label or appends a new label with count 1 |
| DifReport.GroupTally | js/research/dif.js:46-47 | each label appears once, with its number of persons, and every person's label appears |
| DifReport.CountGroups | js/research/dif.js:46-47 | the counting loop computes exactly `GroupTally` |
| DifReport.RankedTop | js/research/dif.js:48-54 | the first entry has a largest count, the second a largest count among the other labels, and the two differ |
| DifReport.RankedTooFew | js/research/dif.js:48-52 | fewer than two entries iff all persons share one label |
| DifReport.RankedPermutes | js/research/dif.js:48 | the ranking holds exactly the entries of the tally |
| DifReport.RankedTiesKeepTallyOrder | js/research/dif.js:46-48 | the entries that tie on a count appear in the ranking in the order of the tally, the order in which their labels were first counted |
| DifReport.InGroup | js/research/dif.js:56-57 | the filtered group holds every person with the label, each as often as in the input, and no one else |
| DifReport.QuantileIndex | js/research/dif.js:62 | the quantile index lies within the sorted totals |
| DifReport.QuantileIndexMonotone | js/research/dif.js:62-63 | a higher quantile never has a lower index |
| DifReport.CutsAscending | js/research/dif.js:60-63 | the four cut points are totals of persons and never decrease |
| DifReport.TabulateCounts | js/research/dif.js:95-96 | A/B count the reference group's correct/incorrect responses, C/D the focal group's, all of them |
| DifReport.RowsOf | js/research/dif.js:99-121 | each row belongs to an item of the map and is that item's `ItemRow` |
| DifReport.RowsComplete | js/research/dif.js:114 | every item whose sums are both positive has a row |
| DifReport.RowsDistinct | js/research/dif.js:100 | no item has two rows |
| DifReport.BuildRows | js/research/dif.js:99-121 | the loop over the map's entries computes exactly `RowsOf` |
| DifReport.RankRows | js/research/dif.js:123 | the sort is a permutation into non-increasing \|delta\| |
| DifReport.RankedRowsValid | js/research/dif.js:123 | sorting keeps every row its item's row |
| DifReport.RankedRowsComplete | js/research/dif.js:123 | sorting loses no item |
| DifReport.RankedRowsDistinct | js/research/dif.js:123 | sorting keeps one row per item |
| DifReport.RowRecords | js/research/dif.js:126 | one CSV record per row, in order |
| DifReport.CsvReadsBack | js/research/dif.js:125-126 | the CSV reads back as the header followed by one record per row |
| DifReport.RunDifReport | js/research/dif.js:19-127 | the whole run computes exactly the report `Screen` describes |
| DifReport.ScreenFails | js/research/dif.js:40-52 | the run stops with too few persons iff fewer than 60, with too few groups iff all share a label, and succeeds otherwise |
| DifReport.ScreenGroups | js/research/dif.js:46-57 | reference and focal groups differ, are the largest and the second-largest, and their reported sizes are their person counts |
| DifReport.ScreenTables | js/research/dif.js:59-96 | the cuts are four non-decreasing totals; the tables count every scored response of the two groups in the right counter |
| DifReport.ScreenRows | js/research/dif.js:99-123 | rows are sorted by non-increasing \|delta\|, one per item with positive sums and no other, each carrying that item's alpha, delta and flag |
| DifReport.ScreenCsv | js/research/dif.js:125-127 | the CSV is the header plus one line per row; the file name joins the key and the two groups |
| Text.Trim | js/research/dif.js:26 | trimming removes exactly the leading and trailing white space |
| Text.TrimEmptyIff | js/research/dif.js:27 | the trimmed label is empty iff the label is all white space |
| Text.ReplaceAll | app.js:793-798 | a text without the character is unchanged, and the character does not survive a replacement without it |
| Text.ReplaceAllConcat | app.js:793-798 | replacing distributes over concatenation |
| Text.StrLessTransitive | app.js:976-978 | the default string order is transitive |
| Text.StrLessTotal | app.js:976-978 | any two different strings are ordered one way or the other |
| Sorting.SortBy | js/research/dif.js:48 | the comparator sort is a permutation into non-decreasing key order |
| Sorting.SortStable | js/research/dif.js:48 | the sort is stable: the elements of each key keep their input order |
| Sorting.SortedHeadIsLeast | js/research/dif.js:53 | the head of the sorted list has the least key |
| Sessions.Completed | js/research/dif.js:20 | exactly the completed sessions are kept |
| Sessions.CompletedCounts | js/research/dif.js:20 | each completed session is kept as many times as it occurs, and no other |
| Sessions.CompletedAppend | js/research/dif.js:20 | the filter keeps session order: filtering a concatenation filters each part |
| Sessions.Responses | js/research/dif.js:29 | a payload is kept iff it belongs to an `ITEM_RESPONSE` event |
| Sessions.ResponsesAppend | js/research/dif.js:29 | filtering keeps log order: a split log filters part by part |
| Sessions.ResponsesCount | js/research/dif.js:29 | one payload per `ITEM_RESPONSE` event, counted independently |
| Sessions.MetaOr | js/research/dif.js:26 | a missing field reads as the empty text |
| Html.EscapeHtml | app.js:792-799 | `null`/`undefined` becomes the empty text |
| Html.EscapeHtmlPerChar | app.js:793-798 | because `&` is replaced first, the five passes escape each character exactly once |
| Html.EscapedIsSafe | app.js:792-799 | the escaped text holds no raw `<`, `>`, `"` or `'` |
| Html.PlainUnchanged | app.js:792-799 | a text with none of `& < > " '` comes back unchanged |
| Html.UnescapeEscape | app.js:792-799 | decoding the five entities gives back the original text, so no information is lost |
| Html.EscapeChar | app.js:794-798 | each special character becomes its entity, every other stays, and no entity holds a raw character |
| Integrity.GradeOf | app.js:706-718 | Good iff there are no flags; Low iff flagged and visibility changes ≥ 3 or rapid guesses ≥ 5 (missing counts as 0); Moderate otherwise |
| Integrity.IntegrityBadge | app.js:706-718 | no flags gives the Good badge; flags with 3+ tab switches or 5+ rapid guesses give Low; other flagged sessions give Moderate |
| Integrity.BadgesDiffer | app.js:711-717 | the three grades have different markup |
| Integrity.GradeMonotone | app.js:706-718 | more flags, switches or rapid guesses never improve the grade |
| Integrity.ShownFlags | app.js:702 | at most eight badges, taken from the front in order |
| Integrity.RenderFlags | app.js:698-701 | an empty list gives the single "No flags" badge |
| Integrity.RenderFlagsShowsPrefix | app.js:697-704 | a flagged record shows between one and eight badges, all flags when there are at most eight, in order |
| Integrity.FlagBadgeEscaped | app.js:702 | a flag's type appears only escaped in its badge |
| CatConfig.ConfigConsistent | app.js:762-790 | every domain is configured with 0 < minItems ≤ maxItems, anchorMin ≤ anchorMax ≤ maxItems, positive thresholds, and family shares summing to 1 |
| CatConfig.DomainLabel | app.js:720-730 | a mapped domain gets its name, any other its own code |
| CatConfig.FamilyLabel | app.js:732-760 | a mapped family of a mapped domain gets its name, anything else `domain ? family` |
| CatConfig.DomainsNamed | app.js:720-730 | all six domains have a name |
| CatConfig.TargetFamiliesNamed | app.js:732-790 | every family the configuration targets has a name |
| CatConfig.FallbackNamesDomain | app.js:759 | the fallback label starts with the domain code |
| GroupLevels.TruthyValuesMembers | app.js:969-974 | a value is collected iff some session has it, non-empty, in that field |
| GroupLevels.InsertStr | app.js:976-978 | inserting a new value keeps the list strictly increasing and adds exactly that value |
| GroupLevels.SortStrings | app.js:976-978 | `[...set].sort()` holds exactly the set's values, strictly increasing |
| GroupLevels.Add | app.js:971-973 | `Set.add` adds the value once and keeps the rest |
| GroupLevels.Collect | app.js:971-973 | a field's value is added exactly when it is truthy |
| GroupLevels.StrictIsDistinct | app.js:976-978 | a strictly increasing list has no duplicates |
| GroupLevels.InferGroupLevels | app.js:966-979 | each of groupA/B/C is strictly increasing and holds exactly the truthy values of that field |
| DifRows.CorrectAtMostCount | app.js:815-819 | the score proxy never exceeds the session's number of responses in the domain |
| DifRows.CountInPositive | app.js:815-819 | a response's own domain has at least one response |
| DifRows.CountInZero | app.js:816 | a domain not yet seen has no tally |
| DifRows.TallyDomains | app.js:814-819 | `byDomain` holds, for each domain present, its correct and total responses |
| DifRows.BuildRows | app.js:802-835 | the nested loops compute exactly `AllRows` of the completed sessions |
| DifRows.RowsForSession | app.js:812-835 | the loops over one session's responses compute exactly its `SessionRows` |
| DifRows.SessionRows | app.js:820-833 | a session yields as many rows as it has item responses |
| DifRows.AllRowsCount | app.js:810-835 | exactly one row per `ITEM_RESPONSE` event |
| DifRows.SessionRowFacts | app.js:820-833 | each row copies its response and identifies the session and person; its score proxy counts the correct responses in that domain, between 0 and the domain's response count |
| DifRows.AllRowsFrom | app.js:810-835 | every row comes from a response of one of the sessions |
| DifRows.DomainRows | app.js:908 | the rows passed on are exactly those of the chosen domain with a non-empty grouping value |
| DifRows.DomainRowsCounts | app.js:908 | each row of the chosen domain with a grouping value is kept as many times as it occurs, and no other |
| DifRows.DomainRowsAppend | app.js:908 | the filter keeps row order: filtering a concatenation filters each part |
| Controller.AssessmentController.constructor | app.js:368-372 | the domain list is fixed and `domainIndex` starts at 0 |
| Controller.AssessmentController.Start | app.js:383-393 | `domainIndex` is reset to 0 and the first domain starts |
| Controller.AssessmentController.FinishDomain | app.js:519-532 | `domainIndex` rises by exactly 1; `_finishAll` runs iff it reaches 6; otherwise the completion screen names the domain just finished |
| Controller.AssessmentController.Continue | app.js:529-531 | the domain at the new index starts, next in list order |
| Controller.RunAll | app.js:383-532 | start, then six finishes with continues between them, runs all six domains in list order and finishes at the sixth, not before |
| Controller.DomainsDistinct | app.js:368 | the six domains are distinct |

## Left out

- JavaScript value semantics:
  - `NaN`, non-string metadata values and a missing `payload` are not modelled. Metadata values are text, and every event has a payload.
  - `typeof x === "number"` is modelled as "x is present". An outcome is `Option<real>`.
- Text.ToLower: `toLowerCase` is modelled on ASCII letters only. Other Unicode case mappings are not modelled.
- The default string sort compares UTF-16 code units. `Text.StrLess` compares characters, which agrees on the Basic Multilingual Plane only.
- DifReport.QuantileIndex: the floating-point index `Math.floor(p*(n-1))` for p = 0.2 … 0.8 is modelled as the exact integer `(k*(n-1)) / 5`. A rounding error of the float product is not captured.
- JavaScript numbers are IEEE doubles, and the model computes with exact `real`s. This covers the strata terms A·D/N and B·C/N and their sums, `alpha = num/den`, and `median`'s `(a+b)/2` (js/research/dif.js:15-16, 101-116). Rounding in those operations is not captured:
  - MantelHaenszel.ConstantOddsAlpha holds for exact arithmetic; in doubles the computed alpha can differ from k by rounding;
  - MantelHaenszel.NoDifNoFlag holds for exact arithmetic; in doubles alpha can come out slightly off 1, so delta comes out close to 0 rather than exactly 0.
- `runDIFReport`'s default `groupKey = "language"` is not modelled. `RunDifReport` takes the key explicitly.
- `Object.values(sessionsState.sessions)` becomes a sequence of sessions. Its order is whatever the caller supplies, and the order of an object's values is not modelled.
- Html.EscapeHtml: it takes optional text, so the `String(s)` conversion of a number or other non-text value is not modelled.
- `Math.log` is the parameter `ln`. Properties that need a logarithm law take it as a hypothesis.
- `toFixed` is the parameter `fixed` in the CSV text.
- DifReport.RankRows: rows are sorted by the exact |delta|. The sort comparator's `parseFloat(delta.toFixed(3))` rounding is not modelled, so ties created by rounding may be ordered differently.
- The `wsum` accumulator of `runDIFReport` is never read, so it is not modelled.
- `safeTextDownload` and both `alert`s are replaced by the returned `Report` or `DifError`.
- `mhDif` is not part of this model. The explorer's rows are modelled up to the call to it.
- Csv.CsvEscape:
  - it takes text, so the `String(x ?? "")` conversion of a missing value is not modelled;
  - the reader in `Csv` is a reference definition used only to state the round trip;
  - lines are joined with LF as in the source, not the CRLF of RFC 4180;
  - Csv.ReadTableWritten requires at least one record and no empty record, since an empty line reads as one empty field.
- `familyLabel`/`domainLabel`: a key such as `"constructor"` that an object literal inherits from its prototype is not modelled. The maps hold only their own keys.
- CatConfig.MakeCatConfig: the family targets keep their declaration order as a list.
- Controller:
  - the controller models only the domain progression;
  - item selection, scoring, timers, integrity monitors, rendering, event logging and `_finishAll`'s report are left out, because they live in engine modules that are not part of this model;
  - the completion screen's button is modelled as a separate `Continue` call.
- DOM rendering, event wiring, `fetch`, downloads and `requestAnimationFrame` are left out, since they are I/O.
- The session store, the form manager and the exclusion store are not part of this model.
