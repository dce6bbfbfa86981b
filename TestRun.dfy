/** The test-run page (testrun.mjs): for one browser and one day, the table
    of enabled suites ordered by their share of passing tests, the links to
    the neighbouring days and to the other browser, and the heading. */
module TestRun {
  import opened Common

  // ---------------------------------------------------------------------
  // Enabled suites
  // ---------------------------------------------------------------------

  /** The suites a decoded `filter` parameter marks as enabled, in order. */
  function EnabledOf(decoded: seq<(string, bool)>): seq<string>
  {
    if |decoded| == 0 then []
    else
      var p := EnabledOf(decoded[..|decoded| - 1]);
      var (suite, enabled) := decoded[|decoded| - 1];
      if enabled then p + [suite] else p
  }

  /** A suite is listed exactly when some decoded pair enables it. */
  lemma {:induction false} EnabledOfMembers(decoded: seq<(string, bool)>)
    ensures forall suite :: suite in EnabledOf(decoded) <==> (suite, true) in decoded
  {
    if |decoded| > 0 {
      var p := decoded[..|decoded| - 1];
      var last := decoded[|decoded| - 1];
      EnabledOfMembers(p);
      assert decoded == p + [last];
      assert EnabledOf(decoded) == if last.1 then EnabledOf(p) + [last.0] else EnabledOf(p);
      forall suite
        ensures suite in EnabledOf(decoded) <==> (suite, true) in decoded
      {
        assert (suite, true) in decoded <==> (suite, true) in p || (suite, true) == last;
      }
    }
  }

  /** `enabledSuites`: with a `filter` parameter (given here already decoded,
      as the pairs the decoder hands to its callback), the suites it enables;
      without one, every known suite name. */
  method EnabledSuites(filter: Option<seq<(string, bool)>>, suiteNames: seq<string>) returns (enabled: seq<string>)
    ensures filter.None? ==> enabled == suiteNames
    ensures filter.Some? ==> enabled == EnabledOf(filter.value)
  {
    if filter.None? {
      return suiteNames;
    }
    var decoded := filter.value;
    enabled := [];
    for i := 0 to |decoded|
      invariant enabled == EnabledOf(decoded[..i])
    {
      assert decoded[..i + 1][..i] == decoded[..i];
      var (suite, on) := decoded[i];
      if on {
        enabled := enabled + [suite];
      }
    }
    assert decoded[..|decoded|] == decoded;
  }

  // ---------------------------------------------------------------------
  // Table rows
  // ---------------------------------------------------------------------

  /** One element of `suitesCounts`. The passing share `passing / total` is
      kept as the pair of integers it is computed from. */
  datatype Row = Row(suite: string, passing: nat, failing: nat, skipping: nat, total: nat)

  function MakeRow(suite: string, c: SuiteCounts): Row
  {
    Row(suite, c.passing, c.failing, c.skipping, c.passing + c.failing + c.skipping)
  }

  /** `enabledSuites.filter(suite => allCounts[suite]).map(...)`. */
  function SuiteRows(enabled: seq<string>, bySuite: map<string, SuiteCounts>): seq<Row>
  {
    if |enabled| == 0 then []
    else
      var p := SuiteRows(enabled[..|enabled| - 1], bySuite);
      var suite := enabled[|enabled| - 1];
      if suite in bySuite then p + [MakeRow(suite, bySuite[suite])] else p
  }

  /** Each row is an enabled suite with counts, carrying those counts and
      their sum; and every enabled suite with counts has a row. */
  lemma {:induction false} SuiteRowsContents(enabled: seq<string>, bySuite: map<string, SuiteCounts>)
    ensures forall r :: r in SuiteRows(enabled, bySuite) ==>
              && r.suite in enabled && r.suite in bySuite
              && r == MakeRow(r.suite, bySuite[r.suite])
              && r.total == r.passing + r.failing + r.skipping
    ensures forall suite :: suite in enabled && suite in bySuite ==>
              MakeRow(suite, bySuite[suite]) in SuiteRows(enabled, bySuite)
  {
    if |enabled| > 0 {
      var p := enabled[..|enabled| - 1];
      SuiteRowsContents(p, bySuite);
      assert enabled == p + [enabled[|enabled| - 1]];
    }
  }

  /** `passingShare(a) <= passingShare(b)` for rows with a positive total,
      by cross-multiplication. */
  predicate ShareAtMost(a: Row, b: Row)
  {
    a.passing * b.total <= b.passing * a.total
  }

  lemma ShareTotal(a: Row, b: Row)
    ensures ShareAtMost(a, b) || ShareAtMost(b, a)
  {
  }

  lemma ShareTransitive(a: Row, b: Row, c: Row)
    requires a.total > 0 && b.total > 0 && c.total > 0
    requires ShareAtMost(a, b) && ShareAtMost(b, c)
    ensures ShareAtMost(a, c)
  {
    MulMono(a.passing * b.total, b.passing * a.total, c.total);
    MulMono(b.passing * c.total, c.passing * b.total, a.total);
    assert a.passing * b.total * c.total == b.total * (a.passing * c.total);
    assert c.passing * b.total * a.total == b.total * (c.passing * a.total);
    assert b.passing * a.total * c.total == b.passing * c.total * a.total;
    MulCancel(a.passing * c.total, c.passing * a.total, b.total);
  }

  lemma MulMono(x: nat, y: nat, k: nat)
    requires x <= y
    ensures x * k <= y * k
  {
  }

  lemma MulCancel(x: nat, y: nat, k: nat)
    requires k > 0 && k * x <= k * y
    ensures x <= y
  {
    if x > y {
      MulMono(y + 1, x, k);
    }
  }

  predicate PositiveTotals(rows: seq<Row>)
  {
    forall i :: 0 <= i < |rows| ==> rows[i].total > 0
  }

  /** Ascending by passing share. */
  predicate SortedByShare(rows: seq<Row>)
  {
    forall i, j :: 0 <= i < j < |rows| ==> ShareAtMost(rows[i], rows[j])
  }

  /** `suitesCounts.sort((a, b) => a.passingShare - b.passingShare)`, in place:
      an insertion sort that reorders the rows into ascending passing share. */
  method SortRows(a: array<Row>)
    requires PositiveTotals(a[..])
    modifies a
    ensures SortedByShare(a[..])
    ensures multiset(a[..]) == multiset(old(a[..]))
  {
    if a.Length == 0 {
      return;
    }
    for i := 1 to a.Length
      invariant multiset(a[..]) == multiset(old(a[..]))
      invariant PositiveTotals(a[..])
      invariant OrderedExcept(a[..], i - 1, i)
    {
      var j := i;
      while j > 0 && !ShareAtMost(a[j - 1], a[j])
        invariant 0 <= j <= i
        invariant multiset(a[..]) == multiset(old(a[..]))
        invariant PositiveTotals(a[..])
        invariant OrderedExcept(a[..], i, j)
        invariant 0 < j < i ==> ShareAtMost(a[j - 1], a[j + 1])
      {
        ghost var s := a[..];
        a[j - 1], a[j] := a[j], a[j - 1];
        assert a[..] == s[j - 1 := s[j]][j := s[j - 1]];
        SwapStep(s, i, j);
        j := j - 1;
      }
    }
    AdjacentSorted(a[..]);
  }

  /** The neighbours `k - 1`, `k` are in order for every `0 < k <= n` but
      the hole `k == hole`. */
  predicate OrderedExcept(rows: seq<Row>, n: nat, hole: nat)
    requires n < |rows|
  {
    forall k :: 0 < k <= n && k != hole ==> ShareAtMost(rows[k - 1], rows[k])
  }

  /** Swapping the out-of-order pair at the hole moves the hole one place
      down and keeps every total positive. */
  lemma SwapStep(s: seq<Row>, i: nat, j: nat)
    requires 0 < j <= i < |s|
    requires PositiveTotals(s)
    requires OrderedExcept(s, i, j)
    requires j < i ==> ShareAtMost(s[j - 1], s[j + 1])
    requires !ShareAtMost(s[j - 1], s[j])
    ensures var t := s[j - 1 := s[j]][j := s[j - 1]];
            && multiset(t) == multiset(s)
            && PositiveTotals(t)
            && OrderedExcept(t, i, j - 1)
            && (0 < j - 1 ==> ShareAtMost(t[j - 2], t[j]))
  {
    var t := s[j - 1 := s[j]][j := s[j - 1]];
    ShareTotal(s[j - 1], s[j]);
    forall k | 0 < k <= i && k != j - 1
      ensures ShareAtMost(t[k - 1], t[k])
    {
      if k == j {
      } else if k == j + 1 {
      } else {
        assert t[k - 1] == s[k - 1] && t[k] == s[k];
      }
    }
    if 0 < j - 1 {
      assert ShareAtMost(s[j - 2], s[j - 1]);
    }
  }

  /** Neighbours in order make the whole sequence ordered. */
  lemma AdjacentSorted(rows: seq<Row>)
    requires PositiveTotals(rows)
    requires forall k :: 0 < k < |rows| ==> ShareAtMost(rows[k - 1], rows[k])
    ensures SortedByShare(rows)
  {
    forall i, j | 0 <= i < j < |rows|
      ensures ShareAtMost(rows[i], rows[j])
    {
      AdjacentReach(rows, i, j);
    }
  }

  lemma {:induction false} AdjacentReach(rows: seq<Row>, i: nat, j: nat)
    requires PositiveTotals(rows)
    requires forall k :: 0 < k < |rows| ==> ShareAtMost(rows[k - 1], rows[k])
    requires i < j < |rows|
    ensures ShareAtMost(rows[i], rows[j])
    decreases j - i
  {
    if i + 1 < j {
      AdjacentReach(rows, i, j - 1);
      ShareTransitive(rows[i], rows[j - 1], rows[j]);
    }
  }

  // ---------------------------------------------------------------------
  // Small helpers
  // ---------------------------------------------------------------------

  /** The browser the page links to: chrome from firefox, firefox from any
      other browser. */
  function OtherBrowser(browser: string): (other: string)
    ensures other != browser
    ensures other == Firefox || other == Chrome
    ensures browser == Firefox ==> other == Chrome
    ensures browser != Firefox ==> other == Firefox
  {
    if browser == Firefox then Chrome else Firefox
  }

  lemma OtherBrowserTwice(browser: string)
    requires browser == Firefox || browser == Chrome
    ensures OtherBrowser(OtherBrowser(browser)) == browser
  {
  }

  function UpperAscii(c: char): (u: char)
  {
    if 'a' <= c <= 'z' then (c as int - 'a' as int + 'A' as int) as char else c
  }

  /** `s[0].toUpperCase() + s.substring(1)`; the empty string has no first
      character to upper-case, so JavaScript throws on it. */
  function Capitalize(s: string): (r: string)
    requires |s| > 0
    ensures |r| == |s| && r[1..] == s[1..]
    ensures 'a' <= s[0] <= 'z' ==> 'A' <= r[0] <= 'Z' && r[0] as int - s[0] as int == 'A' as int - 'a' as int
    ensures !('a' <= s[0] <= 'z') ==> r == s
  {
    [UpperAscii(s[0])] + s[1..]
  }

  lemma CapitalizeTwice(s: string)
    requires |s| > 0
    ensures Capitalize(Capitalize(s)) == Capitalize(s)
  {
  }

  // ---------------------------------------------------------------------
  // The page
  // ---------------------------------------------------------------------

  /** What the page shows. */
  datatype Page = Page(heading: string, rows: seq<Row>, hasPrev: bool, hasNext: bool,
                       otherBrowser: string, otherLabel: string)

  /** Nothing rendered (missing parameter, no entry for the date), the script
      stopped by an exception, or the rendered page. */
  datatype Outcome = NotRendered | Crashed | Rendered(page: Page)

  /** renderTestRun. `browser` and `date` are the query parameters (`None`
      when absent; the date already converted to its timestamp), `filter`
      the decoded `filter` parameter. */
  method RenderTestRun(browser: Option<string>, date: Option<int>, filter: Option<seq<(string, bool)>>,
                       suiteNames: seq<string>, entries: seq<Entry>) returns (out: Outcome)
    ensures out == NotRendered <==> browser.None? || date.None? || FindEntry(entries, date.value).None?
    ensures out == Crashed <==>
              && browser.Some? && date.Some?
              && FindEntry(entries, date.value).Some?
              && (browser.value !in entries[FindEntry(entries, date.value).value].counts || browser.value == [])
    ensures out.Rendered? ==>
              var e := entries[FindEntry(entries, date.value).value];
              var enabled := if filter.None? then suiteNames else EnabledOf(filter.value);
              var rows := SuiteRows(enabled, e.counts[browser.value].bySuite);
              && e.date == date.value
              && multiset(out.page.rows) == multiset(rows)
              && (PositiveTotals(rows) ==> SortedByShare(out.page.rows))
              && out.page.heading == Capitalize(browser.value)
              && (out.page.hasPrev <==> FindEntry(entries, date.value - MsPerDay).Some?)
              && (out.page.hasNext <==> FindEntry(entries, date.value + MsPerDay).Some?)
              && out.page.otherBrowser == OtherBrowser(browser.value)
              && out.page.otherLabel == Capitalize(OtherBrowser(browser.value))
  {
    if browser.None? || date.None? {
      return NotRendered;
    }
    var enabled := EnabledSuites(filter, suiteNames);
    var found := FindEntry(entries, date.value);
    if found.None? {
      return NotRendered;
    }
    var entry := entries[found.value];
    if browser.value !in entry.counts {
      return Crashed;
    }
    var allCounts := entry.counts[browser.value].bySuite;
    var rows := SuiteRows(enabled, allCounts);
    var table := new Row[|rows|](i requires 0 <= i < |rows| => rows[i]);
    assert table[..] == rows;
    if PositiveTotals(rows) {
      SortRows(table);
    }
    if browser.value == [] {
      return Crashed;
    }
    var hasPrev := FindEntry(entries, date.value - MsPerDay).Some?;
    var hasNext := FindEntry(entries, date.value + MsPerDay).Some?;
    var other := OtherBrowser(browser.value);
    out := Rendered(Page(Capitalize(browser.value), table[..], hasPrev, hasNext, other, Capitalize(other)));
  }
}
