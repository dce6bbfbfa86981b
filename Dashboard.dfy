/** The dashboard page (main.mjs): a map from suite name to the state of its
    checkbox, the sums of the per-suite counters over the checked suites, and
    the four toolbar actions that rewrite the whole map. */
module Dashboard {
  import opened Common

  /** What filteredCounts returns. */
  datatype Totals = Totals(passing: nat, failing: nat, skipping: nat, total: nat)

  /** `counts?.bySuite ?? []`: an absent counts object has no buckets. */
  function Buckets(counts: Option<Counts>): map<string, SuiteCounts>
  {
    if counts.None? then map[] else counts.value.bySuite
  }

  /** `entry.<browser>Counts`, absent when the browser has no counts that day. */
  function CountsOf(e: Entry, browser: string): Option<Counts>
  {
    if browser in e.counts then Some(e.counts[browser]) else None
  }

  /** The suites of `buckets` whose checkbox is on. */
  ghost function CheckedSuites(checked: map<string, bool>, buckets: map<string, SuiteCounts>): (ks: set<string>)
    requires buckets.Keys <= checked.Keys
    ensures ks <= buckets.Keys
  {
    set k | k in buckets && checked[k]
  }

  /** The three counters added up over the checked suites. */
  ghost function CheckedSum(checked: map<string, bool>, buckets: map<string, SuiteCounts>): SuiteCounts
    requires buckets.Keys <= checked.Keys
  {
    SumCounts(CheckedSuites(checked, buckets), buckets)
  }

  /** filteredCounts: sums passing, failing and skipping over exactly the
      checked suites; the total is their sum, and an absent counts object
      gives zeros. Every bucket's suite must have a checkbox, as the lookup
      `suiteCheckboxes.get(suite).checked` otherwise throws. */
  method FilteredCounts(checked: map<string, bool>, counts: Option<Counts>) returns (t: Totals)
    requires Buckets(counts).Keys <= checked.Keys
    ensures SuiteCounts(t.passing, t.failing, t.skipping) == CheckedSum(checked, Buckets(counts))
    ensures t.total == t.passing + t.failing + t.skipping
    ensures counts.None? ==> t.passing == 0 && t.failing == 0 && t.skipping == 0 && t.total == 0
  {
    var buckets := Buckets(counts);
    var suites := SuiteOrder(buckets);
    var passing: nat, failing: nat, skipping: nat := 0, 0, 0;
    for i := 0 to |suites|
      invariant SuiteCounts(passing, failing, skipping) == FoldChecked(checked, buckets, suites[..i])
    {
      var suite := suites[i];
      assert suites[..i + 1][..i] == suites[..i];
      if checked[suite] {
        var suiteCounts := buckets[suite];
        passing := passing + suiteCounts.passing;
        failing := failing + suiteCounts.failing;
        skipping := skipping + suiteCounts.skipping;
      }
    }
    assert suites[..|suites|] == suites;
    FoldCheckedIsCheckedSum(checked, buckets, suites);
    t := Totals(passing, failing, skipping, passing + failing + skipping);
  }

  /** The order in which `for (const suite in bySuite)` visits the suites:
      every suite once, in an order the model leaves open. */
  method SuiteOrder(buckets: map<string, SuiteCounts>) returns (suites: seq<string>)
    ensures forall suite :: suite in suites <==> suite in buckets
    ensures forall i, j :: 0 <= i < j < |suites| ==> suites[i] != suites[j]
  {
    suites := [];
    var rest := buckets.Keys;
    while rest != {}
      invariant rest <= buckets.Keys
      invariant forall suite :: suite in buckets <==> suite in suites || suite in rest
      invariant forall suite :: suite in suites ==> suite !in rest
      invariant forall i, j :: 0 <= i < j < |suites| ==> suites[i] != suites[j]
      decreases |rest|
    {
      var suite :| suite in rest;
      suites := suites + [suite];
      rest := rest - {suite};
    }
  }

  /** The running counters of filteredCounts after visiting `suites`. */
  function FoldChecked(checked: map<string, bool>, buckets: map<string, SuiteCounts>, suites: seq<string>): SuiteCounts
    requires forall i :: 0 <= i < |suites| ==> suites[i] in buckets && suites[i] in checked
  {
    if |suites| == 0 then Zero
    else
      var acc := FoldChecked(checked, buckets, suites[..|suites| - 1]);
      var suite := suites[|suites| - 1];
      if checked[suite] then Plus(acc, buckets[suite]) else acc
  }

  /** Visiting the suites one by one, in any order without repeats, adds up
      exactly the checked ones. */
  lemma {:induction false} FoldCheckedSum(checked: map<string, bool>, buckets: map<string, SuiteCounts>, suites: seq<string>)
    requires forall i :: 0 <= i < |suites| ==> suites[i] in buckets && suites[i] in checked
    requires forall i, j :: 0 <= i < j < |suites| ==> suites[i] != suites[j]
    ensures FoldChecked(checked, buckets, suites) == SumCounts((set suite | suite in suites && checked[suite]), buckets)
  {
    var visited := set suite | suite in suites && checked[suite];
    if |suites| == 0 {
      assert visited == {};
    } else {
      var p := suites[..|suites| - 1];
      var suite := suites[|suites| - 1];
      var before := set s | s in p && checked[s];
      FoldCheckedSum(checked, buckets, p);
      if checked[suite] {
        assert suite !in before;
        assert visited - {suite} == before;
        SumCountsRemove(visited, buckets, suite);
      } else {
        assert visited == before;
      }
    }
  }

  lemma FoldCheckedIsCheckedSum(checked: map<string, bool>, buckets: map<string, SuiteCounts>, suites: seq<string>)
    requires buckets.Keys <= checked.Keys
    requires forall suite :: suite in suites <==> suite in buckets
    requires forall i, j :: 0 <= i < j < |suites| ==> suites[i] != suites[j]
    ensures FoldChecked(checked, buckets, suites) == CheckedSum(checked, buckets)
    ensures |suites| == 0 ==> CheckedSum(checked, buckets) == Zero
  {
    FoldCheckedSum(checked, buckets, suites);
    assert (set suite | suite in suites && checked[suite]) == CheckedSuites(checked, buckets);
  }

  // ---------------------------------------------------------------------
  // Collecting the suites and their default state
  // ---------------------------------------------------------------------

  /** `suite` has a bucket in the firefox or chrome counts of some entry. */
  ghost predicate Listed(es: seq<Entry>, suite: string)
  {
    exists i :: 0 <= i < |es| && (suite in Buckets(CountsOf(es[i], Firefox)) || suite in Buckets(CountsOf(es[i], Chrome)))
  }

  /** The loop in `main` that gives every suite of every entry a checkbox. */
  method CollectSuiteKeys(es: seq<Entry>) returns (keys: set<string>)
    ensures forall suite :: suite in keys <==> Listed(es, suite)
  {
    keys := {};
    for i := 0 to |es|
      invariant forall suite :: suite in keys <==> Listed(es[..i], suite)
    {
      keys := keys + Buckets(CountsOf(es[i], Firefox)).Keys + Buckets(CountsOf(es[i], Chrome)).Keys;
      forall suite | Listed(es[..i + 1], suite)
        ensures suite in keys
      {
        var j :| 0 <= j < i + 1 && (suite in Buckets(CountsOf(es[..i + 1][j], Firefox)) ||
                                    suite in Buckets(CountsOf(es[..i + 1][j], Chrome)));
        if j < i {
          assert es[..i][j] == es[j];
        }
      }
      forall suite | suite in keys
        ensures Listed(es[..i + 1], suite)
      {
        if Listed(es[..i], suite) {
          var j :| 0 <= j < i && (suite in Buckets(CountsOf(es[..i][j], Firefox)) ||
                                  suite in Buckets(CountsOf(es[..i][j], Chrome)));
          assert es[..i + 1][j] == es[..i][j];
        } else {
          assert es[..i + 1][i] == es[i];
        }
      }
    }
    assert es[..|es|] == es;
  }

  /** The checkbox's initial state in renderConfig: the suite has a bucket in
      both browsers' counts of the latest entry and is not disabled. */
  predicate DefaultChecked(latest: Entry, suite: string, disabled: seq<string>)
  {
    suite in Buckets(CountsOf(latest, Firefox)) && suite in Buckets(CountsOf(latest, Chrome)) && suite !in disabled
  }

  /** The loop of renderConfig that creates one checkbox per collected suite. */
  method DefaultCheckboxes(latest: Entry, keys: set<string>, disabled: seq<string>) returns (checked: map<string, bool>)
    ensures checked.Keys == keys
    ensures forall suite :: suite in checked ==> (checked[suite] <==> DefaultChecked(latest, suite, disabled))
  {
    checked := map[];
    var rest := keys;
    while rest != {}
      invariant rest <= keys && checked.Keys == keys - rest
      invariant forall suite :: suite in checked ==> (checked[suite] <==> DefaultChecked(latest, suite, disabled))
      decreases |rest|
    {
      var suite :| suite in rest;
      checked := checked[suite := DefaultChecked(latest, suite, disabled)];
      rest := rest - {suite};
    }
  }

  /** A suite both of whose latest results have no failing and no skipping
      tests (a suite without a bucket counts as passing, as `undefined?.failing`
      is falsy). */
  predicate FullyPassing(latest: Entry, suite: string)
  {
    && (suite !in Buckets(CountsOf(latest, Firefox)) ||
        (Buckets(CountsOf(latest, Firefox))[suite].failing == 0 && Buckets(CountsOf(latest, Firefox))[suite].skipping == 0))
    && (suite !in Buckets(CountsOf(latest, Chrome)) ||
        (Buckets(CountsOf(latest, Chrome))[suite].failing == 0 && Buckets(CountsOf(latest, Chrome))[suite].skipping == 0))
  }

  /** The checkbox map after "All" (`v` true) or "None" (`v` false). */
  function AllSet(checked: map<string, bool>, v: bool): map<string, bool>
  {
    map suite | suite in checked :: v
  }

  /** The checkbox map after "Invert". */
  function Inverted(checked: map<string, bool>): map<string, bool>
  {
    map suite | suite in checked :: !checked[suite]
  }

  /** The checkbox map after "Hide passing". */
  function WithoutPassing(checked: map<string, bool>, latest: Entry): map<string, bool>
  {
    map suite | suite in checked :: checked[suite] && !FullyPassing(latest, suite)
  }

  /** The page state: the entries of the time series and the checkboxes. */
  class Page {
    var entries: seq<Entry>
    var checked: map<string, bool>

    /** Every suite with a bucket in some entry has a checkbox. */
    ghost predicate Valid()
      reads this
    {
      forall suite :: Listed(entries, suite) ==> suite in checked
    }

    /** `main` followed by renderConfig: collect the suites, then give each a
        checkbox in its default state. */
    constructor(es: seq<Entry>, disabled: seq<string>)
      ensures Valid()
      ensures entries == es
      ensures forall suite :: suite in checked <==> Listed(es, suite)
      ensures forall suite :: suite in checked ==> |es| > 0 && (checked[suite] <==> DefaultChecked(es[|es| - 1], suite, disabled))
    {
      var keys := CollectSuiteKeys(es);
      var boxes: map<string, bool> := map[];
      if |es| > 0 {
        boxes := DefaultCheckboxes(es[|es| - 1], keys, disabled);
      }
      entries := es;
      checked := boxes;
    }

    /** getFilteredCounts: the filtered counts of both browsers on one entry. */
    method GetFilteredCounts(e: Entry) returns (firefox: Totals, chrome: Totals)
      requires Buckets(CountsOf(e, Firefox)).Keys <= checked.Keys
      requires Buckets(CountsOf(e, Chrome)).Keys <= checked.Keys
      ensures SuiteCounts(firefox.passing, firefox.failing, firefox.skipping) == CheckedSum(checked, Buckets(CountsOf(e, Firefox)))
      ensures SuiteCounts(chrome.passing, chrome.failing, chrome.skipping) == CheckedSum(checked, Buckets(CountsOf(e, Chrome)))
      ensures firefox.total == firefox.passing + firefox.failing + firefox.skipping
      ensures chrome.total == chrome.passing + chrome.failing + chrome.skipping
    {
      firefox := FilteredCounts(checked, CountsOf(e, Firefox));
      chrome := FilteredCounts(checked, CountsOf(e, Chrome));
    }

    /** The two headline figures of renderDashboard: failing plus skipping
        over the checked suites of the latest entry, per browser. */
    method Headline() returns (firefoxFailing: nat, chromeFailing: nat)
      requires Valid() && |entries| > 0
      ensures firefoxFailing == CheckedSum(checked, Buckets(CountsOf(entries[|entries| - 1], Firefox))).failing +
                                CheckedSum(checked, Buckets(CountsOf(entries[|entries| - 1], Firefox))).skipping
      ensures chromeFailing == CheckedSum(checked, Buckets(CountsOf(entries[|entries| - 1], Chrome))).failing +
                               CheckedSum(checked, Buckets(CountsOf(entries[|entries| - 1], Chrome))).skipping
    {
      ListedLatest(entries);
      var firefox, chrome := GetFilteredCounts(entries[|entries| - 1]);
      firefoxFailing := firefox.failing + firefox.skipping;
      chromeFailing := chrome.failing + chrome.skipping;
    }

    /** Toolbar button "All". */
    method CheckAll()
      modifies this
      ensures entries == old(entries) && checked == AllSet(old(checked), true)
      ensures Valid() == old(Valid())
    {
      var rest := checked.Keys;
      while rest != {}
        invariant rest <= checked.Keys && checked.Keys == old(checked).Keys && entries == old(entries)
        invariant forall suite :: suite in checked ==> checked[suite] == if suite in rest then old(checked)[suite] else true
        decreases |rest|
      {
        var suite :| suite in rest;
        checked := checked[suite := true];
        rest := rest - {suite};
      }
    }

    /** Toolbar button "None". */
    method CheckNone()
      modifies this
      ensures entries == old(entries) && checked == AllSet(old(checked), false)
      ensures Valid() == old(Valid())
    {
      var rest := checked.Keys;
      while rest != {}
        invariant rest <= checked.Keys && checked.Keys == old(checked).Keys && entries == old(entries)
        invariant forall suite :: suite in checked ==> checked[suite] == if suite in rest then old(checked)[suite] else false
        decreases |rest|
      {
        var suite :| suite in rest;
        checked := checked[suite := false];
        rest := rest - {suite};
      }
    }

    /** Toolbar button "Invert". */
    method Invert()
      modifies this
      ensures entries == old(entries) && checked == Inverted(old(checked))
      ensures Valid() == old(Valid())
    {
      var rest := checked.Keys;
      while rest != {}
        invariant rest <= checked.Keys && checked.Keys == old(checked).Keys && entries == old(entries)
        invariant forall suite :: suite in checked ==> checked[suite] == if suite in rest then old(checked)[suite] else !old(checked)[suite]
        decreases |rest|
      {
        var suite :| suite in rest;
        checked := checked[suite := !checked[suite]];
        rest := rest - {suite};
      }
    }

    /** Toolbar button "Hide passing": unchecks the suites that fully pass in
        the latest entry. The handler reads `results.firefoxCounts.bySuite`
        and `results.chromeCounts.bySuite` without a guard, so when there is
        a checkbox and the latest entry lacks either browser's counts (or
        there is no entry), the first iteration throws a TypeError (`threw`)
        before any checkbox changes. */
    method HidePassing() returns (threw: bool)
      modifies this
      ensures entries == old(entries)
      ensures threw <==> old(checked) != map[] && !BothBrowsersLatest(entries)
      ensures threw ==> checked == old(checked)
      ensures !threw && |entries| > 0 ==> checked == WithoutPassing(old(checked), entries[|entries| - 1])
      ensures !threw && |entries| == 0 ==> checked == old(checked)
      ensures Valid() == old(Valid())
    {
      if checked == map[] {
        if |entries| > 0 {
          assert WithoutPassing(checked, entries[|entries| - 1]) == map[];
        }
        return false;
      }
      if !BothBrowsersLatest(entries) {
        return true;
      }
      threw := false;
      var latest := entries[|entries| - 1];
      var rest := checked.Keys;
      while rest != {}
        invariant rest <= checked.Keys && checked.Keys == old(checked).Keys && entries == old(entries)
        invariant forall suite :: suite in checked ==>
                    checked[suite] == if suite in rest then old(checked)[suite] else old(checked)[suite] && !FullyPassing(latest, suite)
        decreases |rest|
      {
        var suite :| suite in rest;
        var firefoxResult := latest.counts[Firefox].bySuite;
        var chromeResult := latest.counts[Chrome].bySuite;
        if && (suite !in firefoxResult || (firefoxResult[suite].failing == 0 && firefoxResult[suite].skipping == 0))
           && (suite !in chromeResult || (chromeResult[suite].failing == 0 && chromeResult[suite].skipping == 0))
        {
          checked := checked[suite := false];
        }
        rest := rest - {suite};
      }
    }
  }

  /** There is a latest entry and it holds counts for both browsers. */
  predicate BothBrowsersLatest(es: seq<Entry>)
  {
    |es| > 0 && Firefox in es[|es| - 1].counts && Chrome in es[|es| - 1].counts
  }

  /** The latest entry's buckets all have checkboxes when every listed suite does. */
  lemma ListedLatest(es: seq<Entry>)
    requires |es| > 0
    ensures forall suite :: suite in Buckets(CountsOf(es[|es| - 1], Firefox)) ==> Listed(es, suite)
    ensures forall suite :: suite in Buckets(CountsOf(es[|es| - 1], Chrome)) ==> Listed(es, suite)
  {
  }

  // ---------------------------------------------------------------------
  // Properties of the toolbar actions
  // ---------------------------------------------------------------------

  /** The actions keep the set of checkboxes. */
  lemma ToolbarKeepsSuites(checked: map<string, bool>, latest: Entry, v: bool)
    ensures AllSet(checked, v).Keys == checked.Keys
    ensures Inverted(checked).Keys == checked.Keys
    ensures WithoutPassing(checked, latest).Keys == checked.Keys
  {
  }

  /** Inverting twice restores every checkbox. */
  lemma InvertTwice(checked: map<string, bool>)
    ensures Inverted(Inverted(checked)) == checked
  {
  }

  /** Hiding passing suites only ever unchecks, and unchecks exactly the
      fully passing ones. */
  lemma HidePassingUnchecks(checked: map<string, bool>, latest: Entry)
    ensures forall suite :: suite in checked ==>
              (WithoutPassing(checked, latest)[suite] <==> checked[suite] && !FullyPassing(latest, suite))
  {
  }

  /** With every checkbox on, the filtered counts are the sums over all suites. */
  lemma {:induction false} AllCheckedSumsAll(checked: map<string, bool>, buckets: map<string, SuiteCounts>)
    requires buckets.Keys <= checked.Keys
    ensures CheckedSum(AllSet(checked, true), buckets) == SumCounts(buckets.Keys, buckets)
  {
    assert CheckedSuites(AllSet(checked, true), buckets) == buckets.Keys;
  }

  /** With every checkbox off, the filtered counts are zero. */
  lemma {:induction false} NoneCheckedZero(checked: map<string, bool>, buckets: map<string, SuiteCounts>)
    requires buckets.Keys <= checked.Keys
    ensures CheckedSum(AllSet(checked, false), buckets) == Zero
  {
    assert CheckedSuites(AllSet(checked, false), buckets) == {};
  }

  /** The counts of the checked suites and of the suites "Invert" checks
      add up to the counts of all suites. */
  lemma {:induction false} InvertSplitsSum(checked: map<string, bool>, buckets: map<string, SuiteCounts>)
    requires buckets.Keys <= checked.Keys
    ensures Plus(CheckedSum(checked, buckets), CheckedSum(Inverted(checked), buckets)) == SumCounts(buckets.Keys, buckets)
  {
    var on, off := CheckedSuites(checked, buckets), CheckedSuites(Inverted(checked), buckets);
    assert on + off == buckets.Keys;
    SumCountsUnion(on, off, buckets);
  }

  /** Suites that fail and skip nothing add nothing to failing or skipping. */
  lemma {:induction false} PassingSumsNoFailures(ks: set<string>, buckets: map<string, SuiteCounts>)
    requires ks <= buckets.Keys
    requires forall k :: k in ks ==> buckets[k].failing == 0 && buckets[k].skipping == 0
    ensures SumCounts(ks, buckets).failing == 0 && SumCounts(ks, buckets).skipping == 0
    decreases |ks|
  {
    if ks != {} {
      var k :| k in ks;
      SumCountsRemove(ks, buckets, k);
      PassingSumsNoFailures(ks - {k}, buckets);
    }
  }

  /** "Hide passing" leaves both headline figures unchanged: the suites it
      unchecks contribute no failing and no skipping tests. */
  lemma {:induction false} HidePassingKeepsFailures(checked: map<string, bool>, latest: Entry, browser: string)
    requires browser == Firefox || browser == Chrome
    requires Buckets(CountsOf(latest, browser)).Keys <= checked.Keys
    ensures CheckedSum(WithoutPassing(checked, latest), Buckets(CountsOf(latest, browser))).failing
            == CheckedSum(checked, Buckets(CountsOf(latest, browser))).failing
    ensures CheckedSum(WithoutPassing(checked, latest), Buckets(CountsOf(latest, browser))).skipping
            == CheckedSum(checked, Buckets(CountsOf(latest, browser))).skipping
  {
    var buckets := Buckets(CountsOf(latest, browser));
    var kept := CheckedSuites(WithoutPassing(checked, latest), buckets);
    var all := CheckedSuites(checked, buckets);
    var hidden := all - kept;
    forall k | k in hidden
      ensures buckets[k].failing == 0 && buckets[k].skipping == 0
    {
      assert checked[k] && !WithoutPassing(checked, latest)[k];
      assert FullyPassing(latest, k);
    }
    assert kept + hidden == all;
    SumCountsUnion(kept, hidden, buckets);
    PassingSumsNoFailures(hidden, buckets);
  }
}
