# Playwright BiDi results dashboard — a Dafny model

The dashboard tracks how Playwright's test suite fares on the WebDriver BiDi
implementations of Firefox and Chrome. One script aggregates report archives
into a time-series document. Three browser pages then read that document.

This project models the logic of those pieces:

- **Aggregation** (`Process.dfy`, from process.js):
  - parsing the artifact file name `<browser>-<y>-<m>-<d>.zip` into a browser and a `Date.UTC` timestamp;
  - the recursive walk of a report's suite tree into passing/failing/skipping counters per top-level suite;
  - the overall counters and their total;
  - the guard that never overwrites a (date, browser) slot that already holds counts.

  The `data` array is a class whose `entries` field the processing methods update.
- **Status changes over time** (`Changes.dfy`, from changes.mjs):
  - status normalisation;
  - counting flips between non-ignored statuses over a range of days;
  - the threshold and its default;
  - the inclusive day range;
  - the selection of changed specs, in sorted spec-name order within each suite.
- **Dashboard filtering** (`Dashboard.dfy`, from main.mjs):
  - the map from suite name to checkbox state, as a field of a page class;
  - the sums of counters over the checked suites;
  - the default checked state;
  - the collection of suite keys;
  - the four toolbar actions (all, none, invert, hide passing).
- **Test-run table** (`TestRun.dfy`, from testrun.mjs):
  - the enabled suites;
  - the rows for enabled suites that have counts;
  - the in-place sort of the rows by passing share;
  - the rules for when nothing is rendered;
  - the previous/next-day links;
  - the other-browser toggle;
  - `capitalize`.

`Common.dfy` holds the shared data model:

- an entry is a UTC millisecond timestamp and a map from browser name to its counts object;
- the first-entry-for-a-date lookup;
- the sum of per-suite counters over a set of suites.

Dates are integer milliseconds. `Date.UTC` is modelled exactly for integral arguments, following ECMAScript's MakeDay: months outside 0..11 carry into the year, and years 0..99 mean 1900..1999. Day indices of the changes page are integers.

The "hide passing" button reads `firefoxCounts.bySuite` and `chromeCounts.bySuite` of the latest entry without the `?.` guard that the checkbox defaults use. The aggregation script writes an entry with a single browser's counts when only one archive exists for a day. On such a page the handler throws a TypeError before any checkbox changes. The model states this outcome, with the checkboxes left as they were.

The passing share `passing / total` is never computed. Rows are compared by cross-multiplication, which agrees with the division whenever both totals are positive.

## Model

| member | source | states |
|---|---|---|
| Common.FindEntry | process.js:15 | the index of the first entry carrying the date; `None` exactly when no entry carries it |
| Process.Split | process.js:81 | splitting on `-` yields at least one piece, no piece contains `-`, and joining the pieces gives back the stem |
| Process.SplitJoin | process.js:81 | splitting a join of dash-free pieces gives back those pieces |
| Process.SplitCount | process.js:81-82 | the number of pieces is the number of dashes plus one |
| Process.ParseFilename | process.js:77-84 | a name not ending in `.zip` is rejected; a name is accepted exactly when its stem splits into four pieces whose last three convert to non-zero numbers; an accepted browser contains no dash |
| Process.PaddedValue | process.js:82 | a zero-padded decimal converts back to the number it was written from |
| Process.ParseArtifactName | process.js:85-88 | `<browser>-YYYY-MM-DD.zip` with a dash-free browser and non-zero y, m, d parses to that browser and `Date.UTC(y, m - 1, d)` |
| Process.DashedBrowserRejected | process.js:81-84 | a browser name that contains a dash makes the artifact name unparsable |
| Process.Children | process.js:58 | a suite's children are exactly its `suites`; a suite without a `suites` field has none; children are smaller than their parent |
| Process.SpecStatuses | process.js:43-44 | one status per spec, the i-th being the status of spec i's first attempt |
| Process.TallyOccurrences | process.js:44-56 | passing counts the passed statuses; failing counts failed plus timed out; skipping counts skipped; only interrupted adds nothing |
| Process.TallyAppend | process.js:64-66 | the counters of two status sequences together are the sums of their separate counters |
| Process.ProcessSuite | process.js:42-62 | adds to the incoming counters the tally of every spec in the suite and all its descendant suites |
| Process.ReportCountsOverall | process.js:63-72 | overall counters count every spec of every top-level suite by status, and total is their sum |
| Process.BySuiteKeys | process.js:63 | the buckets are keyed by exactly the titles of the top-level suites |
| Process.BySuiteLastWins | process.js:63 | the bucket of a title holds the counters of the last top-level suite with that title |
| Process.ProcessReport | process.js:36-72 | the counts object built by the loop is the report's specified counts |
| Process.Record | process.js:15-25 | existing entries keep their dates and recorded counts; an entry is appended only when none has the date; a slot that already holds counts is left unchanged; otherwise the slot receives the new counts; every other entry is unchanged, and the entry for the date gains only this browser's key |
| Process.RecordKeepsRecorded | process.js:21-25 | a slot that holds counts keeps the same counts whatever is processed next |
| Process.ProcessAllRecords | process.js:12-73 | after a batch, the slot of every accepted name holds counts |
| Process.ProcessAllNoop | process.js:21-25 | a batch whose slots are all already recorded changes nothing |
| Process.ProcessAllIdempotent | process.js:9-73 | processing the same batch twice gives the same document as processing it once |
| Process.DataStore.ProcessArtifact | process.js:13-72 | the document after one accepted file is the specified step: find or append the entry, then store the counts unless the slot is taken |
| Process.DataStore.ProcessArtifacts | process.js:12-73 | the document after the loop is the specified effect of the whole batch |
| Process.BucketsSumToOverall | process.js:63-66 | with distinct top-level titles, the buckets sum to the overall counters |
| Changes.NormalizeStatus | changes.mjs:22-32 | timed out becomes failed; skipped and missing become ignored; every other code is unchanged |
| Changes.NormalizeIdempotent | changes.mjs:22-32 | normalising twice is the same as normalising once |
| Changes.CountStatusChanges | changes.mjs:34-50 | zero when the spec has no history for the browser; otherwise the number of neighbouring differing statuses among the non-ignored days |
| Changes.FlipsBound | changes.mjs:40-44 | the first observed status never counts: fewer flips than observed statuses |
| Changes.FlipsZeroIffConstant | changes.mjs:40-48 | no change is counted exactly when all observed statuses are equal |
| Changes.ObservedAppend | changes.mjs:40-48 | the observed statuses of two consecutive day ranges are the concatenation of each range's observed statuses |
| Changes.IgnoredDayIrrelevant | changes.mjs:41-47 | a skipped or not-run day neither counts nor resets the previous status: dropping it leaves the count unchanged |
| Changes.ChangeCountBound | changes.mjs:42-43 | the count is at most the number of non-ignored days minus one |
| Changes.PassSkipPass | changes.mjs:41-47 | pass, skip, pass counts zero changes |
| Changes.PassFailPass | changes.mjs:41-47 | pass, fail, pass counts two changes |
| Changes.FailedThenTimedOut | changes.mjs:24-26 | failed followed by timed out is not a change |
| Changes.HasStatusChanged | changes.mjs:52-54 | holds exactly when the count reaches the threshold (default one) |
| Changes.EffectiveMinChanges | changes.mjs:60 | an unparsable or zero threshold becomes one; any other parsed value is kept |
| Changes.GetDaysBetween | changes.mjs:13-19 | the consecutive day indices from start to end inclusive; empty when end precedes start |
| Changes.BelowIrreflexive | changes.mjs:87 | the default sort order never puts a name before itself |
| Changes.BelowTransitive | changes.mjs:87 | the default sort order is transitive |
| Changes.BelowTotal | changes.mjs:87 | any two different names are ordered one way or the other |
| Changes.LeastKey | changes.mjs:87 | returns a key of the set that sorts before every other key |
| Changes.SortedKeys | changes.mjs:87 | `Object.keys(...).sort()`: exactly the keys, in strictly ascending order |
| Changes.SelectInSuite | changes.mjs:87-92 | within a suite, exactly the specs that changed often enough, each with its own results, in ascending spec-name order |
| Changes.PickedSound | changes.mjs:88-91 | every selected spec belongs to the suite and changed often enough |
| Changes.PickedComplete | changes.mjs:88-91 | every spec that changed often enough is selected |
| Changes.PickedOrdered | changes.mjs:87-91 | selection keeps the sorted order of the keys |
| Changes.SelectChangedTests | changes.mjs:84-93 | every listed test is a spec of one of the suites, with its own results, that changed often enough; every such spec is listed under its suite's name; suites keep their order and specs ascend by name within a suite |
| Changes.SelectionGrows | changes.mjs:86-93 | adding one suite's selection extends a correct selection to one more suite |
| Changes.RenderChanges | changes.mjs:56-93 | nothing is listed when a date is missing or the range is empty; otherwise the selection over the range with the effective threshold |
| Dashboard.FilteredCounts | main.mjs:31-44 | the three counters are the sums over exactly the checked suites, total is their sum, and an absent counts object gives all zeros |
| Dashboard.SuiteOrder | main.mjs:35 | the loop visits every suite of the counts exactly once |
| Dashboard.FoldCheckedSum | main.mjs:35-42 | accumulating over distinct suites sums the checked ones |
| Dashboard.FoldCheckedIsCheckedSum | main.mjs:35-42 | accumulating over any enumeration of the suites gives the checked sum, and no suites give zero |
| Dashboard.Page.GetFilteredCounts | main.mjs:46-51 | the filtered counts of each browser's counts object on the entry |
| Dashboard.Page.Headline | main.mjs:190-196 | each browser's headline figure is failing plus skipping over the checked suites of the latest entry |
| Dashboard.CollectSuiteKeys | main.mjs:302-311 | a suite gets a key exactly when some entry lists it under either browser |
| Dashboard.ListedLatest | main.mjs:302-311 | every suite of the latest entry has a checkbox, so the lookups in filteredCounts and the headline are defined |
| Dashboard.DefaultCheckboxes | main.mjs:245 | every collected suite has a checkbox, checked exactly when both browsers have results for it in the latest entry and it is not disabled |
| Dashboard.Page.constructor | main.mjs:298-313 | the checkbox map holds exactly the listed suites, each in its default state |
| Dashboard.Page.CheckAll | main.mjs:264-269 | every checkbox becomes checked; entries unchanged; page invariant kept |
| Dashboard.Page.CheckNone | main.mjs:270-275 | every checkbox becomes unchecked; entries unchanged; page invariant kept |
| Dashboard.Page.Invert | main.mjs:276-281 | every checkbox flips; entries unchanged; page invariant kept |
| Dashboard.Page.HidePassing | main.mjs:282-295 | throws, changing nothing, exactly when there is a checkbox and no latest entry with both browsers' counts; otherwise unchecks the fully passing suites and leaves the others; entries unchanged; page invariant kept |
| Dashboard.ToolbarKeepsSuites | main.mjs:264-295 | no toolbar action adds or removes a suite |
| Dashboard.InvertTwice | main.mjs:276-281 | inverting twice restores the map |
| Dashboard.HidePassingUnchecks | main.mjs:287-292 | after hide passing, a suite is checked exactly when it was checked and has a failure or skip in either browser's latest counts |
| Dashboard.AllCheckedSumsAll | main.mjs:264-269 | with every box checked, the filtered sum is the sum over all suites |
| Dashboard.NoneCheckedZero | main.mjs:270-275 | with no box checked, the filtered sum is zero |
| Dashboard.InvertSplitsSum | main.mjs:276-281 | the filtered sums before and after inverting add up to the sum over all suites |
| Dashboard.PassingSumsNoFailures | main.mjs:287-291 | suites without failures and skips contribute no failures and skips |
| Dashboard.HidePassingKeepsFailures | main.mjs:282-295 | hiding passing suites does not change the filtered failing and skipping figures of the latest entry |
| TestRun.EnabledSuites | testrun.mjs:13-23 | without a filter, all suite names; with one, the suites decoded as enabled, in order |
| TestRun.EnabledOfMembers | testrun.mjs:16-20 | a suite is enabled exactly when the filter decodes it as enabled |
| TestRun.SuiteRowsContents | testrun.mjs:33-42 | rows are exactly the enabled suites that have counts, each carrying its counters and total = passing + failing + skipping |
| TestRun.ShareTotal | testrun.mjs:43 | any two rows are comparable by passing share |
| TestRun.ShareTransitive | testrun.mjs:43 | comparison by passing share is transitive for positive totals |
| TestRun.SwapStep | testrun.mjs:43 | one exchange of the sort keeps the rows and moves the single out-of-order position down |
| TestRun.SortRows | testrun.mjs:43 | the array ends ascending by passing share and holds the same rows |
| TestRun.OtherBrowser | testrun.mjs:101 | firefox maps to chrome, anything else to firefox; never the browser itself |
| TestRun.OtherBrowserTwice | testrun.mjs:101 | on firefox and chrome the toggle is an involution |
| TestRun.Capitalize | testrun.mjs:107-109 | upper-cases only the first character; length and the rest unchanged |
| TestRun.CapitalizeTwice | testrun.mjs:107-109 | capitalising twice is the same as once |
| TestRun.RenderTestRun | testrun.mjs:3-104 | nothing is rendered when browser or date is missing or no entry has the date; the script throws when the browser has no counts that day or its name is empty; otherwise the rows are a permutation of the selected rows, sorted when totals are positive, with the heading, the prev/next links present exactly when an entry exists one day earlier or later, and the other-browser link |

## Left out

- download.js, main.js, pull-request.js, diff.mjs and pull-requests.mjs. They are network clients, drivers and DOM rendering with no logic of this core.
- File system, zip archives, `fetch` and JSON parsing and serialisation. Reports and the document are given as parsed values. The file listing is given as a sequence of (name, report) pairs.
- DOM, Chart.js, tooltips, URL and `history` updates, and labels. Percentages and widths are floating point and not modelled.
- shared.mjs is not part of this model. `parseDate` is replaced by timestamps and day indices given directly. `decodeFilter` is replaced by its decoded (suite, enabled) pairs. `suiteNames` and `disabledSuites` are parameters.
- The application of the decoded filter to the checkboxes in `main` (main.mjs:315-318) is not modelled, because its decoder lives in shared.mjs.
- Process.ParseFilename: JavaScript's `+part` also accepts signs, surrounding whitespace, hexadecimal and exponents. Only strings of decimal digits are converted; every other piece is taken as not a number.
- Process.DateUtc: for out-of-range years JavaScript's TimeClip yields NaN. That case is not modelled.
- Process.ProcessSuite: requires every spec to have a first result of its first attempt (`WellFormed`). The source dereferences `tests[0].results[0]` unguarded and throws otherwise; no skip behaviour is invented.
- Process.WellFormedArtifacts: requires well-formed reports for every accepted name in the batch. This is stronger than the source, which throws on a malformed report only if its slot is not yet taken.
- Changes.GetDaysBetween: takes the start and end day indices rather than date strings. Non-integral indices from unaligned dates are not modelled.
- Changes.Below: compares Unicode code points. JavaScript's default sort compares UTF-16 code units, so names with characters outside the Basic Multilingual Plane may sort differently.
- Changes.SelectChangedTests: the suites are visited in the order of the given sequence. The `for…in` key order of `data.results` is left to the caller.
- Dashboard.SuiteOrder: any enumeration of the suites without repetition is allowed. The `for…in` order does not affect the sums.
- TestRun.SortRows: requires every row's total to be positive. With a zero total the comparator yields NaN and the order is implementation-defined. RenderTestRun then promises only that the rows are a permutation. Stability of the sort is not modelled.
- TestRun.Capitalize: upper-cases ASCII letters only. `toUpperCase` also maps other scripts and can lengthen a string (`ß` → `SS`).
- TestRun.RenderTestRun: the heading's date text and the link URLs are not modelled. `allCounts[suite]` reaching an inherited object property such as `constructor` is not modelled.
