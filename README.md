# Programming-language rankings report: a verified model of its data path

The service scrapes six web pages, builds ranked lists of programming languages from them, merges the lists in pairs into three comparison tables, and renders those tables as a PDF report. This project models the pure data path between the browser and the renderer. That path covers four things:

- what each extractor does with the text it has already pulled from its page (table cells for PYPL and TIOBE, the labels captured by the numbered-list pattern for the other four);
- the top-10 filter that four of the six sources apply;
- the three positional mergers;
- the construction of the report's document definition and its header.

Modules, one per component:

- `JsText` (`js_text.dfy`) models the JavaScript semantics the code relies on: `String.prototype.trim`, `toString` on integers, and `Number(...)` on strings together with the `<= 10` comparison.
- `Entries` (`entries.dfy`) models the per-source post-processing and the top-10 filter. withcodeexample's reversal runs in place on an array, as `Array.prototype.reverse` does.
- `Merge` (`merge.dfy`) models `combineRankingsByPosition`, `combineHighestPaidRankings` and `combineLearningDifficultyRankings` as methods. Each builds its rows in a loop. `CombineRankingsByPositionExample` is a worked example: a three-row merge checked by assertions.
- `Header` (`header.dfy`) models `headerSection`.
- `LanguageReport` (`language_report.dfy`) models `getLanguageReport`.
- `Scraper` (`scraper.dfy`) models `executeScrapes`: which failures prevent the report, and how the extractors, mergers and report are wired together.

What the code does that a reader might not expect:

- A pattern source whose text has no matches returns an empty list. It does not fail.
- Failures are not isolated per source. Five of the six extractors rethrow, so `Promise.all` rejects and no report is produced. TIOBE catches the errors of navigating, waiting and reading and returns `[]`. It opens its tab before that `try` and closes it in `finally`, so a failure there still rejects the batch.
- A merged column is `'N/A'` not only past the end of its list but also when the entry's label is missing or empty, because the code uses `||`.
- Rankings are strings or numbers, not positive integers. An entry whose ranking is missing or does not read as a number is dropped by the filter.
- The highest-paid table shows withcodeexample (`indexDevLanguage`) before GeeksforGeeks, the reverse of the order in which the merge receives them.

## Model

| member | source | states |
|---|---|---|
| `JsText.TrimSpec` | src/scraper/scraper.service.ts:200-201 | `trim` returns the infix left after removing whitespace from both ends: everything removed is whitespace, and the result neither starts nor ends with whitespace |
| `JsText.TrimStartSpec` | src/scraper/scraper.service.ts:234 | the leading part `trim` drops is whitespace, and what remains does not start with whitespace |
| `JsText.TrimEndSpec` | src/scraper/scraper.service.ts:235 | the trailing part `trim` drops is whitespace, and what remains does not end with whitespace |
| `JsText.TrimKeepsTrimmed` | src/scraper/scraper.service.ts:272 | a string with no whitespace at either end is unchanged by `trim` |
| `JsText.TrimIdempotent` | src/scraper/scraper.service.ts:305 | trimming twice gives the same result as trimming once |
| `JsText.NatToString` | src/scraper/scraper.service.ts:271 | `(index + 1).toString()` is a non-empty string of decimal digits with no leading zero |
| `JsText.NatToStringValue` | src/scraper/scraper.service.ts:271 | reading the digits of `n.toString()` back gives `n` |
| `JsText.NumberOfNatString` | src/scraper/scraper.service.ts:277 | `Number(n.toString())` is `n`, so a rank written by match order compares as that number |
| `Entries.TopTen` | src/scraper/scraper.service.ts:207 | the filtered list is never longer than its input |
| `Entries.TopTenMembers` | src/scraper/scraper.service.ts:207 | an entry is in the filtered list if and only if it is in the input and `Number(ranking) <= 10`; a missing or non-numeric ranking (NaN) never passes |
| `Entries.TopTenCounts` | src/scraper/scraper.service.ts:207 | every occurrence of a passing entry is kept and none of a failing one: each entry occurs in the result as often as in the input when it passes the test, and not at all otherwise |
| `Entries.TopTenIsSubsequence` | src/scraper/scraper.service.ts:243 | the filter keeps the input order: its result is a subsequence of the input |
| `Entries.TopTenIdempotent` | src/scraper/scraper.service.ts:314 | filtering a second time changes nothing |
| `Entries.TopTenKeepsPrefix` | src/scraper/scraper.service.ts:277 | when exactly the first `m` entries pass the test, the filter returns exactly those `m` |
| `Entries.PyplRanking` | src/scraper/scraper.service.ts:195-207 | PYPL builds one entry per row, rank from cell 0 and label from cell 2, and filters them: the result keeps table order, every kept entry has a string ranking with `Number(ranking) <= 10`, and every occurrence of a passing row's entry is kept, as many times as the table has it |
| `Entries.TiobeCells` | src/scraper/scraper.service.ts:229-238 | a row with at least six cells maps to rank = trimmed cell 0 and label = trimmed cell 4; a shorter row maps to `undefined` |
| `Entries.Defined` | src/scraper/scraper.service.ts:239 | dropping the `undefined` items keeps exactly the defined ones and never lengthens the list |
| `Entries.DefinedKeepsOrder` | src/scraper/scraper.service.ts:239 | dropping the `undefined` items keeps the defined ones in order and with their repetitions: the result has one item per defined item, and the item at index `k` lands at the index counting the defined items before it |
| `Entries.TiobeCellsCount` | src/scraper/scraper.service.ts:230-239 | the map step yields a defined item for exactly the rows with at least six cells |
| `Entries.TiobeRowsSkipShortRows` | src/scraper/scraper.service.ts:229-239 | TIOBE yields one entry per row with at least six cells, in table order: the entry of full row `k` sits at the index counting the full rows before it, and no entry comes from any other row |
| `Entries.TiobeRanking` | src/scraper/scraper.service.ts:225-243 | TIOBE returns entries of its full rows only, in table order, each with a string ranking `<= 10` and a label; every occurrence of a passing full row's entry is kept, and nothing else |
| `Entries.PatternEntries` | src/scraper/scraper.service.ts:270-273 | one entry per match, in match order: the k-th has ranking the string `(k + 1).toString()` and label the trimmed capture |
| `Entries.PatternEntriesRankByMatchOrder` | src/scraper/scraper.service.ts:342-345 | the k-th match's rank is `k + 1` whatever number the text printed, so exactly the first ten matches pass the top-10 test |
| `Entries.PatternEntriesTopTen` | src/scraper/scraper.service.ts:277 | filtering the pattern entries keeps exactly the first `min(n, 10)` |
| `Entries.GeeksforGeeksRanking` | src/scraper/scraper.service.ts:266-277 | GeeksforGeeks returns `min(n, 10)` entries: the k-th has rank `k + 1` and the trimmed label of the k-th match |
| `Entries.LearningCurveRanking` | src/scraper/scraper.service.ts:338-349 | Digitalogy (and LinkedIn, lines 370-381, the same pipeline) returns every match in match order, unfiltered: the k-th has ranking the string `(k + 1).toString()` and the trimmed label of the k-th match, including entries past the tenth that the top-10 test would drop |
| `Entries.RenumberedTopTen` | src/scraper/scraper.service.ts:313-314 | entries numbered 1, 2, 3, … as numbers: the filter keeps exactly the first `min(n, 10)` |
| `Entries.ReverseInPlace` | src/scraper/scraper.service.ts:312 | `reverse()` leaves element `k` equal to the former element `n - 1 - k` |
| `Entries.ReversedPatternEntries` | src/scraper/scraper.service.ts:299-312 | the pattern entries, copied into an array and reversed: one per match, the k-th labelled with the trimmed capture of match `n - 1 - k` |
| `Entries.WithCodeExampleRanking` | src/scraper/scraper.service.ts:299-314 | withcodeexample returns `min(n, 10)` entries; the k-th (from 0) has the number `k + 1` as its ranking and the trimmed label of match `n - 1 - k` |
| `Merge.LabelOrNAShowsLabel` | src/scraper/scraper.service.ts:149-150 | a merged column shows the entry's label exactly when the entry exists and its label is non-empty, and `'N/A'` otherwise; it is never empty |
| `Merge.CombineLearningDifficultyRankings` | src/scraper/scraper.service.ts:113-128 | exactly `max(len(easiest), len(hardest))` rows; row `i` has ranking `i + 1` and the labels at index `i` of each list, or `'N/A'` |
| `Merge.CombineRankingsByPosition` | src/scraper/scraper.service.ts:139-154 | exactly `max(len(pypl), len(tiobe))` rows; row `i` has position `i + 1` and the labels at index `i` of each list, or `'N/A'` |
| `Merge.CombineHighestPaidRankings` | src/scraper/scraper.service.ts:165-180 | exactly `max(len(geeksforGeeks), len(indexDev))` rows; row `i` has ranking `i + 1` and the labels at index `i` of each list, or `'N/A'` |
| `Merge.PopularityMergeShape` | src/scraper/scraper.service.ts:146-152 | two empty lists merge to no rows; positions run from 1 with no gaps; a list merged with itself gives equal columns; a column past the end of its list is `'N/A'` |
| `Header.HeaderSection` | src/reports/header.section.ts:27-65 | three slots `[logo, title, date]`; the logo slot is empty iff `showLogo` is `false` and the date slot iff `showDate` is `false` (both default to shown); the title slot is empty iff the title is missing or empty, and otherwise stacks the title over the subtitle, or over an empty slot when the subtitle is missing or empty |
| `LanguageReport.PositionCellSentinel` | src/reports/langauge.report.ts:74 | a position cell is `'N/A'` exactly for the falsy position 0; a positive position shows its decimal digits |
| `LanguageReport.LanguageCellSentinel` | src/reports/langauge.report.ts:75-76 | a language cell is `'N/A'` exactly when the label is missing, empty or itself `'N/A'`; it is never empty |
| `LanguageReport.PopularityBody` | src/reports/langauge.report.ts:67-78 | the fixed header row, then one row per input row in input order: the position cell, the PYPL cell, the TIOBE cell |
| `LanguageReport.HighestPaidBody` | src/reports/langauge.report.ts:100-111 | the fixed header row, then one row per input row in input order: the position cell, the `indexDevLanguage` cell, then the `geeksforGeeksLanguage` cell |
| `LanguageReport.DifficultyBody` | src/reports/langauge.report.ts:133-144 | the fixed header row, then one row per input row in input order: the position cell, the easy cell, the hard cell |
| `LanguageReport.GetLanguageReport` | src/reports/langauge.report.ts:26-166 | the header is built with the title and subtitle defaulted under `??` and both logo and date shown; the footer is empty; twelve content blocks, with the section headings in the fixed order popularity, highest paid, learning difficulty, each followed by its one-header-row table |
| `LanguageReport.ReportHeader` | src/reports/langauge.report.ts:39-44 | the report always shows the logo and the date; the default title appears only when no title is given; an explicit empty title removes the title block and with it the subtitle; the subtitle is defaulted, kept or removed by the same rules |
| `LanguageReport.PopularityTableFromMerge` | src/reports/langauge.report.ts:73-77 | for merged rows the popularity table has `1 + max(len(pypl), len(tiobe))` rows, and body row `k` is `[k + 1, pypl label or 'N/A', tiobe label or 'N/A']` |
| `LanguageReport.HighestPaidTableFromMerge` | src/reports/langauge.report.ts:106-110 | for merged rows, body row `k` is `[k + 1, indexDev label or 'N/A', geeksforGeeks label or 'N/A']`: the opposite order from the merge's arguments |
| `LanguageReport.DifficultyTableFromMerge` | src/reports/langauge.report.ts:139-143 | for merged rows, body row `k` is `[k + 1, easy label or 'N/A', hard label or 'N/A']` |
| `Scraper.TiobeOutcome` | src/scraper/scraper.service.ts:214-249 | a failure to open or close TIOBE's tab escapes; a failure while navigating, waiting or reading yields the empty list; otherwise the result is TIOBE's filtered ranking |
| `Scraper.BuildReport` | src/scraper/scraper.service.ts:57-80 | the report is built from the three positional merges, paired as the service pairs them, with the default title and subtitle; each table has one row more than the longer of its two lists |
| `Scraper.ReportTables` | src/scraper/scraper.service.ts:57-80 | from the six rankings, the report shows the default title over the default subtitle, and each table's body row `k` is `[k + 1, label or 'N/A', label or 'N/A']` up to the longer list, with withcodeexample's column before GeeksforGeeks' |
| `Scraper.ExecuteScrapes` | src/scraper/scraper.service.ts:31-103 | a report is built iff PYPL, GeeksforGeeks, withcodeexample, Digitalogy and LinkedIn all succeed and TIOBE's tab opens and closes; the report is the one built from the merges of PYPL with TIOBE, GeeksforGeeks with withcodeexample, and Digitalogy with LinkedIn, under the default title and subtitle |

## Left out

- Browser automation is not modelled: launching the browser, `newPage`, `goto`, `waitForSelector`, `evaluate`, the disabled navigation timeout and `page.close`. Each page's extracted cells or captures, or its failure, is a parameter. A failure is either a read failure (`goto`, `waitForSelector`, `evaluate`) or a tab failure (`newPage`, `page.close`); only TIOBE treats the two differently.
- The regular expression `/\d+\.\s([A-Za-z\+\#]+)/g` itself is not modelled. The captured labels are given as input, in match order.
- Concurrency is not modelled. `Promise.all` is modelled by its outcome only, because the six extractions share no state.
- The 5-second progress timer and all logging are left out. They have no effect on the data.
- PDF creation, stream piping and writing the file are left out, and so is the error handling around them. They are I/O.
- The date text (`new Date().toLocaleDateString()`) depends on the clock and the locale. It is the opaque constant `CurrentDate`.
- Styling is left out: font sizes, margins, widths, alignment, page orientation, the table layout and the `styles` block. A heading is `Heading(text)`, and a table header row is its cell texts.
- src/scraper/scraper.module.ts is dependency-injection wiring and is not part of this model.
- `JsText.StringToNumber` models `Number(...)` for trimmed empty strings, optionally signed decimal literals and `Infinity`. Hexadecimal, octal and binary prefixes and exponent notation read as NaN in the model, whereas JavaScript reads them as numbers. Values are exact decimals, not rounded to the nearest double, so a literal with 17 or more significant digits close to 10 can be judged differently: `"10.0000000000000001"` rounds to 10 in JavaScript and passes `<= 10`, while the model keeps it above 10 and drops it.
- `LearningCurveRanking` stands for both Digitalogy and LinkedIn. Their post-processing is the same expression.
