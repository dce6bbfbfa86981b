/** The aggregation step (process.js): artifact names are parsed into a
    browser and a UTC date, each report's suite tree is folded into per-suite
    counters, and the counters are recorded on the entry for that date unless
    that (date, browser) slot already holds counts. */
module Process {
  import opened Common

  // ---------------------------------------------------------------------
  // Splitting on a separator (String.prototype.split with a one-char string)
  // ---------------------------------------------------------------------

  function Join(parts: seq<string>, sep: char): string
    requires |parts| >= 1
  {
    if |parts| == 1 then parts[0] else parts[0] + [sep] + Join(parts[1..], sep)
  }

  /** `s.split(sep)`: the maximal separator-free pieces, which joined back
      with the separator give `s` again. */
  function Split(s: string, sep: char): (parts: seq<string>)
    ensures |parts| >= 1
    ensures forall i :: 0 <= i < |parts| ==> sep !in parts[i]
    ensures Join(parts, sep) == s
  {
    if |s| == 0 then [""]
    else
      var rest := Split(s[1..], sep);
      if s[0] == sep then
        assert [sep] + Join(rest, sep) == s;
        [""] + rest
      else
        var parts := [[s[0]] + rest[0]] + rest[1..];
        assert parts[1..] == rest[1..];
        assert Join(parts, sep) == [s[0]] + Join(rest, sep);
        parts
  }

  lemma {:induction false} SplitNoSeparator(p: string, sep: char)
    requires sep !in p
    ensures Split(p, sep) == [p]
    decreases |p|
  {
    if |p| > 0 {
      SplitNoSeparator(p[1..], sep);
      assert [p[0]] + p[1..] == p;
    }
  }

  lemma {:induction false} SplitAfterPiece(p: string, sep: char, rest: string)
    requires sep !in p
    ensures Split(p + [sep] + rest, sep) == [p] + Split(rest, sep)
    decreases |p|
  {
    var s := p + [sep] + rest;
    if |p| == 0 {
      assert s[1..] == rest;
    } else {
      assert s[1..] == p[1..] + [sep] + rest;
      SplitAfterPiece(p[1..], sep, rest);
      assert [p[0]] + p[1..] == p;
    }
  }

  /** Splitting undoes joining separator-free pieces. */
  lemma {:induction false} SplitJoin(parts: seq<string>, sep: char)
    requires |parts| >= 1
    requires forall i :: 0 <= i < |parts| ==> sep !in parts[i]
    ensures Split(Join(parts, sep), sep) == parts
    decreases |parts|
  {
    if |parts| == 1 {
      SplitNoSeparator(parts[0], sep);
    } else {
      SplitAfterPiece(parts[0], sep, Join(parts[1..], sep));
      SplitJoin(parts[1..], sep);
      assert [parts[0]] + parts[1..] == parts;
    }
  }

  // ---------------------------------------------------------------------
  // Decimal numbers (unary `+` on a part of the name)
  // ---------------------------------------------------------------------

  predicate IsDigit(c: char)
  {
    '0' <= c <= '9'
  }

  predicate AllDigits(s: string)
  {
    forall i :: 0 <= i < |s| ==> IsDigit(s[i])
  }

  function DigitValue(c: char): nat
    requires IsDigit(c)
  {
    c as int - '0' as int
  }

  function DigitChar(d: nat): (c: char)
    requires d < 10
    ensures IsDigit(c) && DigitValue(c) == d
  {
    ('0' as int + d) as char
  }

  /** Value of a string of decimal digits, most significant first. */
  function DecimalValue(s: string): nat
    requires AllDigits(s)
  {
    if |s| == 0 then 0 else 10 * DecimalValue(s[..|s| - 1]) + DigitValue(s[|s| - 1])
  }

  /** `+s` on a string of decimal digits; `None` stands for NaN. As in
      JavaScript, the empty string converts to 0. */
  function ToNumber(s: string): Option<nat>
  {
    if AllDigits(s) then Some(DecimalValue(s)) else None
  }

  /** `!!(+s)`: a number that is neither NaN nor zero. */
  predicate Truthy(n: Option<nat>)
  {
    n.Some? && n.value != 0
  }

  /** Shortest decimal spelling of `n`. */
  function Decimal(n: nat): (s: string)
    ensures |s| >= 1 && AllDigits(s)
    ensures DecimalValue(s) == n
  {
    if n < 10 then [DigitChar(n)]
    else
      var s := Decimal(n / 10) + [DigitChar(n % 10)];
      assert s[..|s| - 1] == Decimal(n / 10);
      s
  }

  function Zeros(k: nat): (s: string)
    ensures |s| == k && AllDigits(s)
  {
    if k == 0 then [] else Zeros(k - 1) + ['0']
  }

  /** `n` in decimal, left-padded with zeros to at least `width` digits
      (the `YYYY`, `MM` and `DD` fields of an ISO 8601 calendar date). */
  function Padded(n: nat, width: nat): (s: string)
    ensures AllDigits(s)
  {
    var d := Decimal(n);
    if |d| < width then Zeros(width - |d|) + d else d
  }

  lemma {:induction false} ZerosValue(k: nat)
    ensures DecimalValue(Zeros(k)) == 0
  {
    if k > 0 {
      var z := Zeros(k - 1);
      ZerosValue(k - 1);
      assert Zeros(k) == z + ['0'];
      assert (z + ['0'])[..k - 1] == z;
      assert DecimalValue(z + ['0']) == 10 * DecimalValue(z) + DigitValue('0');
    }
  }

  lemma {:induction false} LeadingZerosValue(k: nat, s: string)
    requires AllDigits(s)
    ensures AllDigits(Zeros(k) + s) && DecimalValue(Zeros(k) + s) == DecimalValue(s)
    decreases |s|
  {
    var t := Zeros(k) + s;
    if |s| == 0 {
      assert t == Zeros(k);
      ZerosValue(k);
    } else {
      assert t[..|t| - 1] == Zeros(k) + s[..|s| - 1];
      LeadingZerosValue(k, s[..|s| - 1]);
    }
  }

  /** Zero padding does not change the number a field converts to. */
  lemma PaddedValue(n: nat, width: nat)
    ensures ToNumber(Padded(n, width)) == Some(n)
  {
    var d := Decimal(n);
    if |d| < width {
      LeadingZerosValue(width - |d|, d);
    }
  }

  // ---------------------------------------------------------------------
  // Date.UTC
  // ---------------------------------------------------------------------

  /** Days from 1970-01-01 to the proleptic Gregorian date (y, m, d),
      m in 1..12 (the era-based days-from-civil computation). */
  function DaysFromCivil(y: int, m: int, d: int): int
    requires 1 <= m <= 12
  {
    var y' := if m <= 2 then y - 1 else y;
    var era := y' / 400;
    var yoe := y' - era * 400;
    var mp := (m + 9) % 12;
    var doy := (153 * mp + 2) / 5 + d - 1;
    var doe := yoe * 365 + yoe / 4 - yoe / 100 + doy;
    era * 146097 + doe - 719468
  }

  /** ECMAScript MakeDay: a month index outside 0..11 carries into the year,
      a day of month past the month's end runs on into the next month. */
  function MakeDay(year: int, month: int, date: int): int
  {
    var ym := year + month / 12;
    var mn := month % 12;
    DaysFromCivil(ym, mn + 1, 1) + date - 1
  }

  /** `Date.UTC(year, month, date)` in milliseconds; years 0..99 mean
      1900..1999. */
  function DateUtc(year: int, month: int, date: int): int
  {
    var yr := if 0 <= year <= 99 then 1900 + year else year;
    MakeDay(yr, month, date) * MsPerDay
  }

  // ---------------------------------------------------------------------
  // Artifact file names: `<browser>-<y>-<m>-<d>.zip`
  // ---------------------------------------------------------------------

  datatype Artifact = Artifact(browser: string, date: int)

  predicate EndsWithZip(file: string)
  {
    |file| >= 4 && file[|file| - 4..] == ".zip"
  }

  /** The dash-separated pieces of a name accepted by the parser: exactly
      four, the last three converting to non-zero numbers. */
  predicate ValidParts(parts: seq<string>)
  {
    |parts| == 4 && Truthy(ToNumber(parts[1])) && Truthy(ToNumber(parts[2])) && Truthy(ToNumber(parts[3]))
  }

  function ParseFilename(file: string): (r: Option<Artifact>)
    ensures !EndsWithZip(file) ==> r.None?
    ensures r.Some? <==> EndsWithZip(file) && ValidParts(Split(file[..|file| - 4], '-'))
    ensures r.Some? ==> '-' !in r.value.browser
  {
    if !EndsWithZip(file) then None
    else
      var parts := Split(file[..|file| - 4], '-');
      if !ValidParts(parts) then None
      else
        Some(Artifact(parts[0], DateUtc(ToNumber(parts[1]).value, ToNumber(parts[2]).value - 1, ToNumber(parts[3]).value)))
  }

  /** The name the downloader gives an artifact: browser, then the ISO 8601
      calendar date `YYYY-MM-DD`, then `.zip`. */
  function ArtifactName(browser: string, y: nat, m: nat, d: nat): string
  {
    browser + "-" + Padded(y, 4) + "-" + Padded(m, 2) + "-" + Padded(d, 2) + ".zip"
  }

  /** A downloaded name of a dash-free browser parses back to that browser
      and to `Date.UTC(y, m - 1, d)`. */
  lemma ParseArtifactName(browser: string, y: nat, m: nat, d: nat)
    requires '-' !in browser && y > 0 && m > 0 && d > 0
    ensures ParseFilename(ArtifactName(browser, y, m, d)) == Some(Artifact(browser, DateUtc(y, m - 1, d)))
  {
    var name := ArtifactName(browser, y, m, d);
    var parts := [browser, Padded(y, 4), Padded(m, 2), Padded(d, 2)];
    ArtifactNameSplits(browser, y, m, d);
    PaddedValue(y, 4);
    PaddedValue(m, 2);
    PaddedValue(d, 2);
    ParseAccepted(name, parts);
  }

  /** The stem of a downloaded name splits back into its four pieces. */
  lemma ArtifactNameSplits(browser: string, y: nat, m: nat, d: nat)
    requires '-' !in browser
    ensures var name := ArtifactName(browser, y, m, d);
            EndsWithZip(name) && Split(name[..|name| - 4], '-') == [browser, Padded(y, 4), Padded(m, 2), Padded(d, 2)]
  {
    var ys, ms, ds := Padded(y, 4), Padded(m, 2), Padded(d, 2);
    var parts := [browser, ys, ms, ds];
    assert '-' !in ys && '-' !in ms && '-' !in ds by {
      assert !IsDigit('-');
    }
    ArtifactNameStem(browser, ys, ms, ds);
    SplitJoin(parts, '-');
  }

  /** A name with `.zip` whose stem splits into valid pieces is accepted. */
  lemma ParseAccepted(file: string, parts: seq<string>)
    requires EndsWithZip(file) && Split(file[..|file| - 4], '-') == parts && ValidParts(parts)
    ensures ParseFilename(file) == Some(Artifact(parts[0], DateUtc(ToNumber(parts[1]).value, ToNumber(parts[2]).value - 1, ToNumber(parts[3]).value)))
  {
  }

  /** The downloaded name is the joined pieces followed by `.zip`. */
  lemma ArtifactNameStem(browser: string, ys: string, ms: string, ds: string)
    ensures var name := browser + "-" + ys + "-" + ms + "-" + ds + ".zip";
            EndsWithZip(name) && name[..|name| - 4] == Join([browser, ys, ms, ds], '-')
  {
    var stem := browser + "-" + ys + "-" + ms + "-" + ds;
    var name := browser + "-" + ys + "-" + ms + "-" + ds + ".zip";
    assert name == stem + ".zip";
    assert name[..|name| - 4] == stem;
    assert name[|name| - 4..] == ".zip";
    JoinFour(browser, ys, ms, ds);
  }

  lemma JoinFour(a: string, b: string, c: string, d: string)
    ensures Join([a, b, c, d], '-') == a + "-" + b + "-" + c + "-" + d
  {
    var parts := [a, b, c, d];
    assert parts[1..] == [b, c, d];
    assert [b, c, d][1..] == [c, d];
    assert [c, d][1..] == [d];
    assert Join([c, d], '-') == c + "-" + d;
    assert Join([b, c, d], '-') == b + "-" + (c + "-" + d);
  }

  /** A browser name with a dash in it yields five or more pieces, so such a
      name is never accepted. */
  lemma DashedBrowserRejected(browser: string, y: nat, m: nat, d: nat)
    requires '-' in browser
    ensures ParseFilename(ArtifactName(browser, y, m, d)).None?
  {
    var name := ArtifactName(browser, y, m, d);
    var stem := name[..|name| - 4];
    assert stem == browser + "-" + Padded(y, 4) + "-" + Padded(m, 2) + "-" + Padded(d, 2);
    SplitCount(stem, '-');
    assert multiset(stem)['-'] >= multiset(browser)['-'] + 3;
  }

  /** `split` yields one more piece than there are separators. */
  lemma {:induction false} SplitCount(s: string, sep: char)
    ensures |Split(s, sep)| == multiset(s)[sep] + 1
    decreases |s|
  {
    if |s| > 0 {
      SplitCount(s[1..], sep);
      SplitStep(s, sep);
      SeparatorsStep(s, sep);
    }
  }

  /** The first character adds a piece exactly when it is the separator. */
  lemma SplitStep(s: string, sep: char)
    requires |s| > 0
    ensures |Split(s, sep)| == |Split(s[1..], sep)| + if s[0] == sep then 1 else 0
  {
    var rest := Split(s[1..], sep);
    if s[0] == sep {
      assert Split(s, sep) == [""] + rest;
    } else {
      assert Split(s, sep) == [[s[0]] + rest[0]] + rest[1..];
    }
  }

  lemma SeparatorsStep(s: string, sep: char)
    requires |s| > 0
    ensures multiset(s)[sep] == multiset(s[1..])[sep] + if s[0] == sep then 1 else 0
  {
    assert s == [s[0]] + s[1..];
    assert multiset(s) == multiset{s[0]} + multiset(s[1..]);
  }

  // ---------------------------------------------------------------------
  // The report's suite tree
  // ---------------------------------------------------------------------

  /** Outcome of one test result, as Playwright reports it. */
  datatype Status = Passed | Failed | TimedOut | Skipped | Interrupted

  /** One attempt of a spec (`tests[k]`) with its results' statuses. */
  datatype Test = Test(results: seq<Status>)

  datatype Spec = Spec(title: string, tests: seq<Test>)

  /** A suite of the report; `Leaf` is a suite whose report omits the
      `suites` field. */
  datatype Suite =
    | Suite(title: string, specs: seq<Spec>, suites: seq<Suite>)
    | Leaf(title: string, specs: seq<Spec>)

  /** `suite.suites || []`. */
  function Children(s: Suite): (cs: seq<Suite>)
    ensures forall i :: 0 <= i < |cs| ==> cs[i] < s
    ensures s.Leaf? ==> cs == []
    ensures s.Suite? ==> cs == s.suites
  {
    match s
    case Leaf(_, _) => []
    case Suite(_, _, cs) => cs
  }

  /** The spec has a first result of its first attempt. */
  predicate HasResult(sp: Spec)
  {
    |sp.tests| > 0 && |sp.tests[0].results| > 0
  }

  function FirstStatus(sp: Spec): Status
    requires HasResult(sp)
  {
    sp.tests[0].results[0]
  }

  predicate WellFormed(s: Suite)
    decreases s
  {
    && (forall i :: 0 <= i < |s.specs| ==> HasResult(s.specs[i]))
    && (forall i :: 0 <= i < |Children(s)| ==> WellFormed(Children(s)[i]))
  }

  predicate WellFormedReport(report: seq<Suite>)
  {
    forall i :: 0 <= i < |report| ==> WellFormed(report[i])
  }

  /** First-attempt statuses of `specs`, in order. */
  function SpecStatuses(specs: seq<Spec>): (r: seq<Status>)
    requires forall i :: 0 <= i < |specs| ==> HasResult(specs[i])
    ensures |r| == |specs|
    ensures forall i :: 0 <= i < |specs| ==> r[i] == FirstStatus(specs[i])
  {
    if |specs| == 0 then []
    else SpecStatuses(specs[..|specs| - 1]) + [FirstStatus(specs[|specs| - 1])]
  }

  /** Statuses of every spec in `s` and all its descendant suites, in the
      order of the depth-first walk. */
  function SuiteStatuses(s: Suite): seq<Status>
    requires WellFormed(s)
    decreases s, 1
  {
    SpecStatuses(s.specs) + ChildrenStatuses(s, |Children(s)|)
  }

  /** Statuses under the first `j` child suites of `s`. */
  function ChildrenStatuses(s: Suite, j: nat): seq<Status>
    requires WellFormed(s) && j <= |Children(s)|
    decreases s, 0, j
  {
    if j == 0 then [] else ChildrenStatuses(s, j - 1) + SuiteStatuses(Children(s)[j - 1])
  }

  /** The `switch` on one status. */
  function Bump(c: SuiteCounts, st: Status): SuiteCounts
  {
    match st
    case Passed => c.(passing := c.passing + 1)
    case Failed | TimedOut => c.(failing := c.failing + 1)
    case Skipped => c.(skipping := c.skipping + 1)
    case Interrupted => c
  }

  /** Counters after feeding `sts` to the `switch`, one by one. */
  function Tally(sts: seq<Status>): SuiteCounts
  {
    if |sts| == 0 then Zero else Bump(Tally(sts[..|sts| - 1]), sts[|sts| - 1])
  }

  /** Each counter counts exactly its statuses: `failing` both failed and
      timed-out results, and an interrupted result nothing. */
  lemma {:induction false} TallyOccurrences(sts: seq<Status>)
    ensures Tally(sts).passing == multiset(sts)[Passed]
    ensures Tally(sts).failing == multiset(sts)[Failed] + multiset(sts)[TimedOut]
    ensures Tally(sts).skipping == multiset(sts)[Skipped]
    ensures Sum(Tally(sts)) + multiset(sts)[Interrupted] == |sts|
  {
    if |sts| > 0 {
      var p, x := sts[..|sts| - 1], sts[|sts| - 1];
      TallyOccurrences(p);
      assert sts == p + [x];
      assert Tally(sts) == Bump(Tally(p), x);
      CountSnoc(p, x, Passed);
      CountSnoc(p, x, Failed);
      CountSnoc(p, x, TimedOut);
      CountSnoc(p, x, Skipped);
      CountSnoc(p, x, Interrupted);
    }
  }

  lemma CountSnoc(p: seq<Status>, x: Status, st: Status)
    ensures multiset(p + [x])[st] == multiset(p)[st] + (if st == x then 1 else 0)
  {
    assert multiset(p + [x]) == multiset(p) + multiset{x};
  }

  lemma TallyAppend(a: seq<Status>, b: seq<Status>)
    ensures Tally(a + b) == Plus(Tally(a), Tally(b))
  {
    TallyOccurrences(a);
    TallyOccurrences(b);
    TallyOccurrences(a + b);
    assert multiset(a + b) == multiset(a) + multiset(b);
  }

  lemma SpecStatusesSnoc(specs: seq<Spec>, i: nat)
    requires i < |specs| && forall k :: 0 <= k < |specs| ==> HasResult(specs[k])
    ensures SpecStatuses(specs[..i + 1]) == SpecStatuses(specs[..i]) + [FirstStatus(specs[i])]
  {
    assert specs[..i + 1][..i] == specs[..i];
  }

  lemma TallySnoc(p: seq<Status>, st: Status)
    ensures Tally(p + [st]) == Bump(Tally(p), st)
  {
    assert (p + [st])[..|p|] == p;
  }

  /** Counting the next spec extends the counted prefix by one. */
  lemma CountSpecStep(c: SuiteCounts, specs: seq<Spec>, i: nat)
    requires i < |specs| && forall k :: 0 <= k < |specs| ==> HasResult(specs[k])
    ensures Bump(Plus(c, Tally(SpecStatuses(specs[..i]))), FirstStatus(specs[i]))
            == Plus(c, Tally(SpecStatuses(specs[..i + 1])))
  {
    var st := FirstStatus(specs[i]);
    SpecStatusesSnoc(specs, i);
    TallySnoc(SpecStatuses(specs[..i]), st);
  }

  /** Walking the next child suite extends the counted prefix by its statuses. */
  lemma CountChildStep(c: SuiteCounts, suite: Suite, j: nat)
    requires WellFormed(suite) && j < |Children(suite)|
    ensures Plus(Plus(c, Tally(SpecStatuses(suite.specs) + ChildrenStatuses(suite, j))), Tally(SuiteStatuses(Children(suite)[j])))
            == Plus(c, Tally(SpecStatuses(suite.specs) + ChildrenStatuses(suite, j + 1)))
  {
    var own, done, next := SpecStatuses(suite.specs), ChildrenStatuses(suite, j), SuiteStatuses(Children(suite)[j]);
    assert ChildrenStatuses(suite, j + 1) == done + next;
    assert (own + done) + next == own + (done + next);
    TallyAppend(own + done, next);
    PlusAssociative(c, Tally(own + done), Tally(next));
  }

  lemma NoChildrenYet(suite: Suite)
    requires WellFormed(suite)
    ensures SpecStatuses(suite.specs) + ChildrenStatuses(suite, 0) == SpecStatuses(suite.specs)
  {
    assert ChildrenStatuses(suite, 0) == [];
  }

  /** processSuite: adds the statuses of every spec under `suite` to the
      counters `c`. The counter object that the source closes over is
      threaded through as a value. */
  method ProcessSuite(suite: Suite, c: SuiteCounts) returns (r: SuiteCounts)
    requires WellFormed(suite)
    ensures r == Plus(c, Tally(SuiteStatuses(suite)))
    decreases suite
  {
    r := c;
    var specs := suite.specs;
    for i := 0 to |specs|
      invariant r == Plus(c, Tally(SpecStatuses(specs[..i])))
    {
      var st := FirstStatus(specs[i]);
      ghost var prev := r;
      match st {
        case Passed => r := r.(passing := r.passing + 1);
        case Failed => r := r.(failing := r.failing + 1);
        case TimedOut => r := r.(failing := r.failing + 1);
        case Skipped => r := r.(skipping := r.skipping + 1);
        case Interrupted =>
      }
      assert r == Bump(prev, st);
      CountSpecStep(c, specs, i);
    }
    assert specs[..|specs|] == specs;
    NoChildrenYet(suite);
    var children := Children(suite);
    for j := 0 to |children|
      invariant r == Plus(c, Tally(SpecStatuses(specs) + ChildrenStatuses(suite, j)))
    {
      r := ProcessSuite(children[j], r);
      CountChildStep(c, suite, j);
    }
  }

  // ---------------------------------------------------------------------
  // One report: overall and per-suite counters
  // ---------------------------------------------------------------------

  /** Statuses of every spec of the report, suite after suite. */
  function ReportStatuses(report: seq<Suite>): seq<Status>
    requires WellFormedReport(report)
  {
    if |report| == 0 then []
    else ReportStatuses(report[..|report| - 1]) + SuiteStatuses(report[|report| - 1])
  }

  /** `counts.bySuite`: a later suite with the same title replaces the bucket. */
  function BySuite(report: seq<Suite>): map<string, SuiteCounts>
    requires WellFormedReport(report)
  {
    if |report| == 0 then map[]
    else
      var last := report[|report| - 1];
      BySuite(report[..|report| - 1])[last.title := Tally(SuiteStatuses(last))]
  }

  /** The `<browser>Counts` object built from one report. */
  function ReportCounts(report: seq<Suite>): Counts
    requires WellFormedReport(report)
  {
    var t := Tally(ReportStatuses(report));
    Counts(t.passing, t.failing, t.skipping, BySuite(report), Sum(t))
  }

  /** No later top-level suite of the report shares suite `i`'s title. */
  predicate LastWithTitle(report: seq<Suite>, i: int)
    requires 0 <= i < |report|
  {
    forall j :: i < j < |report| ==> report[j].title != report[i].title
  }

  /** Overall counters count every spec of the report by its status, and
      `total` is their sum. */
  lemma ReportCountsOverall(report: seq<Suite>)
    requires WellFormedReport(report)
    ensures var c := ReportCounts(report); var m := multiset(ReportStatuses(report));
      && c.passing == m[Passed]
      && c.failing == m[Failed] + m[TimedOut]
      && c.skipping == m[Skipped]
      && c.total == c.passing + c.failing + c.skipping
  {
    TallyOccurrences(ReportStatuses(report));
  }

  /** The buckets are keyed by exactly the top-level titles. */
  lemma {:induction false} BySuiteKeys(report: seq<Suite>)
    requires WellFormedReport(report)
    ensures forall t :: t in BySuite(report) <==> exists i :: 0 <= i < |report| && report[i].title == t
  {
    if |report| > 0 {
      var n := |report| - 1;
      var p := report[..n];
      BySuiteKeys(p);
      BySuiteStep(report, n);
      assert report[..n + 1] == report;
      forall t | t in BySuite(report)
        ensures exists i :: 0 <= i < |report| && report[i].title == t
      {
        if t != report[n].title {
          var i :| 0 <= i < |p| && p[i].title == t;
          assert report[i].title == t;
        }
      }
      forall i | 0 <= i < |report|
        ensures report[i].title in BySuite(report)
      {
        if i < n {
          assert p[i].title == report[i].title;
        }
      }
    }
  }

  /** Each title's bucket counts the specs under the last top-level suite
      carrying that title. */
  lemma {:induction false} BySuiteLastWins(report: seq<Suite>)
    requires WellFormedReport(report)
    ensures forall i :: 0 <= i < |report| && LastWithTitle(report, i) ==>
              report[i].title in BySuite(report) && BySuite(report)[report[i].title] == Tally(SuiteStatuses(report[i]))
  {
    if |report| > 0 {
      var n := |report| - 1;
      var p := report[..n];
      BySuiteLastWins(p);
      forall i | 0 <= i < |report| && LastWithTitle(report, i)
        ensures report[i].title in BySuite(report) && BySuite(report)[report[i].title] == Tally(SuiteStatuses(report[i]))
      {
        if i < n {
          assert p[i] == report[i];
          assert report[n].title != report[i].title;
          assert LastWithTitle(p, i);
        }
      }
    }
  }

  /** When the top-level suites of a report have distinct titles, the
      per-suite buckets add up to the overall counters. */
  lemma BucketsSumToOverall(report: seq<Suite>)
    requires WellFormedReport(report)
    requires forall i, j :: 0 <= i < j < |report| ==> report[i].title != report[j].title
    ensures var c := ReportCounts(report);
            SumCounts(c.bySuite.Keys, c.bySuite) == SuiteCounts(c.passing, c.failing, c.skipping)
  {
    BucketsSumToTally(report);
  }

  lemma {:induction false} BucketsSumToTally(report: seq<Suite>)
    requires WellFormedReport(report)
    requires forall i, j :: 0 <= i < j < |report| ==> report[i].title != report[j].title
    ensures SumCounts(BySuite(report).Keys, BySuite(report)) == Tally(ReportStatuses(report))
  {
    var n := |report|;
    if n == 0 {
      assert SumCounts({}, map[]) == Zero;
    } else {
      var p := report[..n - 1];
      var last := report[n - 1];
      var before := BySuite(p);
      assert WellFormedReport(p);
      BucketsSumToTally(p);
      BySuiteKeys(p);
      assert last.title !in before;
      SumCountsInsert(before, last.title, Tally(SuiteStatuses(last)));
      TallyAppend(ReportStatuses(p), SuiteStatuses(last));
    }
  }

  /** The loop over `json.suites`: one processSuite pass per top-level suite,
      its counters stored under its title and added to the overall ones. */
  method ProcessReport(report: seq<Suite>) returns (counts: Counts)
    requires WellFormedReport(report)
    ensures counts == ReportCounts(report)
  {
    var overall := Zero;
    var bySuite: map<string, SuiteCounts> := map[];
    assert report[..0] == [];
    for i := 0 to |report|
      invariant overall == Tally(ReportStatuses(report[..i]))
      invariant bySuite == BySuite(report[..i])
    {
      var suiteCounts := ProcessSuite(report[i], Zero);
      ReportStep(report, i);
      CountersStep(overall, suiteCounts, Tally(ReportStatuses(report[..i])), Tally(SuiteStatuses(report[i])),
                   Tally(ReportStatuses(report[..i + 1])));
      BySuiteStep(report, i);
      bySuite := bySuite[report[i].title := suiteCounts];
      overall := overall.(passing := overall.passing + suiteCounts.passing,
                          failing := overall.failing + suiteCounts.failing,
                          skipping := overall.skipping + suiteCounts.skipping);
    }
    assert report[..|report|] == report;
    counts := Counts(overall.passing, overall.failing, overall.skipping, bySuite, Sum(overall));
  }

  /** One more top-level suite adds its tally to the overall one. */
  lemma ReportStep(report: seq<Suite>, i: nat)
    requires WellFormedReport(report) && i < |report|
    ensures Tally(ReportStatuses(report[..i + 1])) == Plus(Tally(ReportStatuses(report[..i])), Tally(SuiteStatuses(report[i])))
  {
    var prefix := report[..i + 1];
    assert prefix[..|prefix| - 1] == report[..i] && prefix[|prefix| - 1] == report[i];
    assert ReportStatuses(prefix) == ReportStatuses(report[..i]) + SuiteStatuses(report[i]);
    TallyAppend(ReportStatuses(report[..i]), SuiteStatuses(report[i]));
  }

  /** The three `+=` on the overall counters add a suite's fresh counters. */
  lemma CountersStep(overall: SuiteCounts, suiteCounts: SuiteCounts, before: SuiteCounts, added: SuiteCounts, after: SuiteCounts)
    requires overall == before && suiteCounts == Plus(Zero, added) && after == Plus(before, added)
    ensures overall.(passing := overall.passing + suiteCounts.passing,
                     failing := overall.failing + suiteCounts.failing,
                     skipping := overall.skipping + suiteCounts.skipping) == after
    ensures suiteCounts == added
  {
    PlusZero(added);
  }

  /** One more top-level suite stores its counters under its title. */
  lemma BySuiteStep(report: seq<Suite>, i: nat)
    requires WellFormedReport(report) && i < |report|
    ensures BySuite(report[..i + 1]) == BySuite(report[..i])[report[i].title := Tally(SuiteStatuses(report[i]))]
  {
    assert report[..i + 1][..i] == report[..i];
  }

  // ---------------------------------------------------------------------
  // The time-series document and the already-processed guard
  // ---------------------------------------------------------------------

  /** The (date, browser) slot already holds counts. */
  predicate Recorded(entries: seq<Entry>, browser: string, date: int)
  {
    match FindEntry(entries, date)
    case None => false
    case Some(i) => browser in entries[i].counts
  }

  function RecordedCounts(entries: seq<Entry>, browser: string, date: int): Counts
    requires Recorded(entries, browser, date)
  {
    entries[FindEntry(entries, date).value].counts[browser]
  }

  /** Effect of one artifact on the document: find or append the entry for
      the date, then store the counts unless the browser's slot is taken. */
  function Record(entries: seq<Entry>, browser: string, date: int, counts: Counts): (r: seq<Entry>)
    ensures |entries| <= |r| <= |entries| + 1
    ensures forall k :: 0 <= k < |entries| ==> r[k].date == entries[k].date
    ensures forall k, b :: 0 <= k < |entries| && b in entries[k].counts ==>
              b in r[k].counts && r[k].counts[b] == entries[k].counts[b]
    ensures |r| == |entries| + 1 ==>
              FindEntry(entries, date).None? && r[|entries|] == Entry(date, map[browser := counts])
    ensures forall k: nat :: k < |entries| && FindEntry(entries, date) != Some(k) ==> r[k] == entries[k]
    ensures FindEntry(entries, date).Some? && !Recorded(entries, browser, date) ==>
              var i := FindEntry(entries, date).value;
              r[i] == entries[i].(counts := entries[i].counts[browser := counts])
    ensures Recorded(r, browser, date)
    ensures Recorded(entries, browser, date) ==> r == entries
    ensures !Recorded(entries, browser, date) ==> RecordedCounts(r, browser, date) == counts
  {
    match FindEntry(entries, date)
    case None =>
      var r := entries + [Entry(date, map[browser := counts])];
      assert FindEntry(r, date) == Some(|entries|) by { FindEntryStable(entries, r, date, |entries|); }
      r
    case Some(i) =>
      if browser in entries[i].counts then entries
      else
        var r := entries[i := entries[i].(counts := entries[i].counts[browser := counts])];
        assert FindEntry(r, date) == Some(i) by { FindEntryStable(entries, r, date, i); }
        r
  }

  /** The first entry for a date stays the first one when the entries before
      it keep their dates. */
  lemma FindEntryStable(entries: seq<Entry>, r: seq<Entry>, date: int, i: nat)
    requires i < |r| && r[i].date == date
    requires i <= |entries|
    requires forall k :: 0 <= k < i ==> r[k].date == entries[k].date
    requires forall k :: 0 <= k < i ==> entries[k].date != date
    ensures FindEntry(r, date) == Some(i)
  {
  }

  /** A recorded slot stays recorded, with the same counts, whatever is
      recorded next. */
  lemma RecordKeepsRecorded(entries: seq<Entry>, browser: string, date: int, counts: Counts, b: string, d: int)
    requires Recorded(entries, b, d)
    ensures Recorded(Record(entries, browser, date, counts), b, d)
    ensures RecordedCounts(Record(entries, browser, date, counts), b, d) == RecordedCounts(entries, b, d)
  {
    var r := Record(entries, browser, date, counts);
    var i := FindEntry(entries, d).value;
    FindEntryStable(entries, r, d, i);
  }

  /** One artifact of the batch: its file name and the report in its archive. */
  type Artifacts = seq<(string, seq<Suite>)>

  predicate WellFormedArtifacts(artifacts: Artifacts)
  {
    forall i :: 0 <= i < |artifacts| && ParseFilename(artifacts[i].0).Some? ==> WellFormedReport(artifacts[i].1)
  }

  /** Effect of one directory listing element; names the parser rejects are
      filtered out before processing. */
  function Step(entries: seq<Entry>, name: string, report: seq<Suite>): seq<Entry>
    requires ParseFilename(name).Some? ==> WellFormedReport(report)
  {
    match ParseFilename(name)
    case None => entries
    case Some(a) => Record(entries, a.browser, a.date, ReportCounts(report))
  }

  /** Effect of the whole `forEach` over the directory listing. */
  function ProcessAll(entries: seq<Entry>, artifacts: Artifacts): seq<Entry>
    requires WellFormedArtifacts(artifacts)
  {
    if |artifacts| == 0 then entries
    else
      var n := |artifacts| - 1;
      Step(ProcessAll(entries, artifacts[..n]), artifacts[n].0, artifacts[n].1)
  }

  /** After a batch, the slot of every accepted name of the batch holds counts. */
  lemma {:induction false} ProcessAllRecords(entries: seq<Entry>, artifacts: Artifacts)
    requires WellFormedArtifacts(artifacts)
    ensures forall i :: 0 <= i < |artifacts| && ParseFilename(artifacts[i].0).Some? ==>
              Recorded(ProcessAll(entries, artifacts), ParseFilename(artifacts[i].0).value.browser,
                       ParseFilename(artifacts[i].0).value.date)
  {
    if |artifacts| > 0 {
      var n := |artifacts| - 1;
      var p := artifacts[..n];
      ProcessAllRecords(entries, p);
      var before := ProcessAll(entries, p);
      forall i | 0 <= i < |artifacts| && ParseFilename(artifacts[i].0).Some?
        ensures Recorded(ProcessAll(entries, artifacts), ParseFilename(artifacts[i].0).value.browser,
                         ParseFilename(artifacts[i].0).value.date)
      {
        var a := ParseFilename(artifacts[i].0).value;
        if i < n {
          assert p[i] == artifacts[i];
          match ParseFilename(artifacts[n].0)
          case None =>
          case Some(an) => RecordKeepsRecorded(before, an.browser, an.date, ReportCounts(artifacts[n].1), a.browser, a.date);
        }
      }
    }
  }

  /** Over a document in which every slot of the batch is already recorded,
      the batch changes nothing. */
  lemma {:induction false} ProcessAllNoop(entries: seq<Entry>, artifacts: Artifacts)
    requires WellFormedArtifacts(artifacts)
    requires forall i :: 0 <= i < |artifacts| && ParseFilename(artifacts[i].0).Some? ==>
               Recorded(entries, ParseFilename(artifacts[i].0).value.browser, ParseFilename(artifacts[i].0).value.date)
    ensures ProcessAll(entries, artifacts) == entries
  {
    if |artifacts| > 0 {
      var n := |artifacts| - 1;
      var p := artifacts[..n];
      forall i | 0 <= i < |p| && ParseFilename(p[i].0).Some?
        ensures Recorded(entries, ParseFilename(p[i].0).value.browser, ParseFilename(p[i].0).value.date)
      {
        assert p[i] == artifacts[i];
      }
      ProcessAllNoop(entries, p);
    }
  }

  /** Re-running the aggregation over the same directory changes nothing. */
  lemma ProcessAllIdempotent(entries: seq<Entry>, artifacts: Artifacts)
    requires WellFormedArtifacts(artifacts)
    ensures ProcessAll(ProcessAll(entries, artifacts), artifacts) == ProcessAll(entries, artifacts)
  {
    ProcessAllRecords(entries, artifacts);
    ProcessAllNoop(ProcessAll(entries, artifacts), artifacts);
  }

  /** The `data` array of process.js, loaded from and written back to the
      time-series document. */
  class DataStore {
    var entries: seq<Entry>

    constructor (entries: seq<Entry>)
      ensures this.entries == entries
    {
      this.entries := entries;
    }

    /** The body of the `forEach` for one accepted file name. */
    method ProcessArtifact(filename: string, report: seq<Suite>)
      requires ParseFilename(filename).Some?
      requires WellFormedReport(report)
      modifies this
      ensures entries == Step(old(entries), filename, report)
    {
      var a := ParseFilename(filename).value;
      var found := FindEntry(entries, a.date);
      var i: nat;
      if found.None? {
        entries := entries + [Entry(a.date, map[])];
        i := |entries| - 1;
        FindEntryStable(old(entries), entries, a.date, i);
      } else {
        i := found.value;
      }
      if a.browser in entries[i].counts {
        return;
      }
      var counts := ProcessReport(report);
      entries := entries[i := entries[i].(counts := entries[i].counts[a.browser := counts])];
      assert found.None? ==> entries == old(entries) + [Entry(a.date, map[a.browser := counts])];
    }

    /** processArtifacts: every listed name the parser accepts, in order. */
    method ProcessArtifacts(artifacts: Artifacts)
      requires WellFormedArtifacts(artifacts)
      modifies this
      ensures entries == ProcessAll(old(entries), artifacts)
    {
      for i := 0 to |artifacts|
        invariant entries == ProcessAll(old(entries), artifacts[..i])
      {
        assert artifacts[..i + 1][..i] == artifacts[..i];
        if ParseFilename(artifacts[i].0).Some? {
          ProcessArtifact(artifacts[i].0, artifacts[i].1);
        }
      }
      assert artifacts[..|artifacts|] == artifacts;
    }
  }
}
