/** The "changes over time" view (changes.mjs): for a range of days and a
    browser, count how often each spec's normalized result flipped, and list
    the specs that flipped at least `minChanges` times. */
module Changes {
  import opened Common

  /** Result codes stored in the time series. */
  const PassedCode: int := 0
  const SkippedCode: int := 1
  const FailedCode: int := 2
  const TimedOutCode: int := 3

  /** One browser's history of a spec: day index to result code; a day that
      is absent (a hole or `null` in the stored array) was not run. */
  type History = map<int, int>

  /** `data.results[suite][spec]`: the history of a spec per browser. */
  type SpecResults = map<string, History>

  function StatusOn(history: History, day: int): Option<int>
  {
    if day in history then Some(history[day]) else None
  }

  /** normalizeStatus: timed out counts as failed; skipped and not run are
      ignored (`None`); every other code is kept. */
  function NormalizeStatus(status: Option<int>): (r: Option<int>)
    ensures r.None? <==> status.None? || status.value == SkippedCode
    ensures status == Some(TimedOutCode) ==> r == Some(FailedCode)
    ensures status.Some? && status.value != SkippedCode && status.value != TimedOutCode ==> r == status
    ensures r != Some(SkippedCode) && r != Some(TimedOutCode)
  {
    match status
    case None => None
    case Some(s) =>
      if s == TimedOutCode then Some(FailedCode)
      else if s == SkippedCode then None
      else Some(s)
  }

  lemma NormalizeIdempotent(status: Option<int>)
    ensures NormalizeStatus(NormalizeStatus(status)) == NormalizeStatus(status)
  {
  }

  /** The normalized statuses of the days that are not ignored, in day order. */
  function Observed(history: History, days: seq<int>): (r: seq<int>)
    ensures |r| <= |days|
  {
    if |days| == 0 then []
    else
      var p := Observed(history, days[..|days| - 1]);
      match NormalizeStatus(StatusOn(history, days[|days| - 1]))
      case None => p
      case Some(s) => p + [s]
  }

  /** Number of neighbouring pairs that differ. */
  function Flips(xs: seq<int>): nat
  {
    if |xs| < 2 then 0
    else Flips(xs[..|xs| - 1]) + (if xs[|xs| - 2] != xs[|xs| - 1] then 1 else 0)
  }

  /** What countStatusChanges computes: no history for the browser means no
      change; otherwise the flips between consecutive observed statuses. */
  function ChangeCount(spec: SpecResults, browser: string, days: seq<int>): nat
  {
    if browser !in spec then 0 else Flips(Observed(spec[browser], days))
  }

  function Last(xs: seq<int>): Option<int>
  {
    if |xs| == 0 then None else Some(xs[|xs| - 1])
  }

  lemma ObservedSnoc(history: History, days: seq<int>, i: nat)
    requires i < |days|
    ensures Observed(history, days[..i + 1]) ==
              match NormalizeStatus(StatusOn(history, days[i]))
              case None => Observed(history, days[..i])
              case Some(s) => Observed(history, days[..i]) + [s]
  {
    assert days[..i + 1][..i] == days[..i];
  }

  lemma FlipsSnoc(xs: seq<int>, x: int)
    ensures Flips(xs + [x]) == Flips(xs) + (if |xs| > 0 && xs[|xs| - 1] != x then 1 else 0)
  {
    assert (xs + [x])[..|xs|] == xs;
  }

  /** countStatusChanges: walks the days keeping the last status that was not
      ignored, and counts each differing non-ignored status. */
  method CountStatusChanges(spec: SpecResults, browser: string, days: seq<int>) returns (changeCount: nat)
    ensures browser !in spec ==> changeCount == 0
    ensures changeCount == ChangeCount(spec, browser, days)
  {
    if browser !in spec {
      return 0;
    }
    var history := spec[browser];
    var previousStatus: Option<int> := None;
    changeCount := 0;
    for i := 0 to |days|
      invariant changeCount == Flips(Observed(history, days[..i]))
      invariant previousStatus == Last(Observed(history, days[..i]))
    {
      var currentStatus := NormalizeStatus(StatusOn(history, days[i]));
      ObservedSnoc(history, days, i);
      if currentStatus.Some? {
        FlipsSnoc(Observed(history, days[..i]), currentStatus.value);
      }
      if previousStatus.Some? && currentStatus.Some? && previousStatus != currentStatus {
        changeCount := changeCount + 1;
      }
      if currentStatus.Some? {
        previousStatus := currentStatus;
      }
    }
    assert days[..|days|] == days;
  }

  /** hasStatusChanged, with the source's default threshold of one change. */
  method HasStatusChanged(spec: SpecResults, browser: string, days: seq<int>, minChanges: int := 1)
    returns (changed: bool)
    ensures changed <==> ChangeCount(spec, browser, days) >= minChanges
  {
    var count := CountStatusChanges(spec, browser, days);
    changed := count >= minChanges;
  }

  /** `parseInt(input) || 1`: a threshold that parses to NaN (`None`) or to
      zero falls back to one. */
  function EffectiveMinChanges(parsed: Option<int>): (m: int)
    ensures m != 0
    ensures parsed.None? || parsed == Some(0) ==> m == 1
    ensures parsed.Some? && parsed.value != 0 ==> m == parsed.value
  {
    match parsed
    case None => 1
    case Some(n) => if n == 0 then 1 else n
  }

  /** getDaysBetween: the day indices from `startDay` to `endDay`, inclusive. */
  method GetDaysBetween(startDay: int, endDay: int) returns (days: seq<int>)
    ensures |days| == if endDay < startDay then 0 else endDay - startDay + 1
    ensures forall k :: 0 <= k < |days| ==> days[k] == startDay + k
  {
    days := [];
    var i := startDay;
    while i <= endDay
      invariant startDay <= i <= if endDay < startDay then startDay else endDay + 1
      invariant |days| == i - startDay
      invariant forall k :: 0 <= k < |days| ==> days[k] == startDay + k
      decreases endDay - i
    {
      days := days + [i];
      i := i + 1;
    }
  }

  // ---------------------------------------------------------------------
  // Properties of the change count
  // ---------------------------------------------------------------------

  /** Fewer flips than observed days: the first observed status never counts. */
  lemma {:induction false} FlipsBound(xs: seq<int>)
    requires |xs| > 0
    ensures Flips(xs) <= |xs| - 1
  {
    if |xs| > 1 {
      FlipsBound(xs[..|xs| - 1]);
    }
  }

  /** No flip exactly when every observed status is the same. */
  lemma {:induction false} FlipsZeroIffConstant(xs: seq<int>)
    ensures Flips(xs) == 0 <==> forall i, j :: 0 <= i < |xs| && 0 <= j < |xs| ==> xs[i] == xs[j]
  {
    if |xs| >= 2 {
      var p := xs[..|xs| - 1];
      FlipsZeroIffConstant(p);
      if Flips(xs) == 0 {
        forall i | 0 <= i < |xs| ensures xs[i] == xs[0] {
          if i < |p| {
            assert p[i] == p[0];
          } else {
            assert p[|p| - 1] == p[0];
          }
        }
      }
    }
  }

  lemma {:induction false} ObservedAppend(history: History, a: seq<int>, b: seq<int>)
    ensures Observed(history, a + b) == Observed(history, a) + Observed(history, b)
    decreases |b|
  {
    if |b| > 0 {
      var b' := b[..|b| - 1];
      ObservedAppend(history, a, b');
      assert (a + b)[..|a + b| - 1] == a + b';
    } else {
      assert a + b == a;
    }
  }

  /** A day that is skipped or was not run neither counts nor resets the
      previous status: dropping it from the range leaves the count unchanged. */
  lemma IgnoredDayIrrelevant(spec: SpecResults, browser: string, before: seq<int>, day: int, after: seq<int>)
    requires browser in spec ==> NormalizeStatus(StatusOn(spec[browser], day)).None?
    ensures ChangeCount(spec, browser, before + [day] + after) == ChangeCount(spec, browser, before + after)
  {
    if browser in spec {
      var h := spec[browser];
      ObservedAppend(h, before + [day], after);
      ObservedAppend(h, before, [day]);
      ObservedAppend(h, before, after);
      assert [day][..0] == [];
    }
  }

  /** The count never exceeds the number of observed days minus one. */
  lemma ChangeCountBound(spec: SpecResults, browser: string, days: seq<int>)
    requires browser in spec && |Observed(spec[browser], days)| > 0
    ensures ChangeCount(spec, browser, days) <= |Observed(spec[browser], days)| - 1
  {
    FlipsBound(Observed(spec[browser], days));
  }

  /** Unfolds Observed over the days 0, 1, 2. */
  lemma ObservedThreeDays(h: History)
    ensures Observed(h, [0]) == Observed(h, []) + (match NormalizeStatus(StatusOn(h, 0)) case None => [] case Some(s) => [s])
    ensures Observed(h, [0, 1]) == Observed(h, [0]) + (match NormalizeStatus(StatusOn(h, 1)) case None => [] case Some(s) => [s])
    ensures Observed(h, [0, 1, 2]) == Observed(h, [0, 1]) + (match NormalizeStatus(StatusOn(h, 2)) case None => [] case Some(s) => [s])
  {
    assert [0][..0] == [];
    assert [0, 1][..1] == [0];
    assert [0, 1, 2][..2] == [0, 1];
  }

  /** pass, skip, pass: no change. */
  lemma PassSkipPass(browser: string)
    ensures ChangeCount(map[browser := map[0 := PassedCode, 1 := SkippedCode, 2 := PassedCode]], browser, [0, 1, 2]) == 0
  {
    var h := map[0 := PassedCode, 1 := SkippedCode, 2 := PassedCode];
    ObservedThreeDays(h);
    assert Observed(h, [0]) == [PassedCode];
    assert Observed(h, [0, 1]) == [PassedCode];
    assert Observed(h, [0, 1, 2]) == [PassedCode, PassedCode];
    var xs := [PassedCode, PassedCode];
    assert xs[..1] == [PassedCode];
    assert Flips(xs) == Flips([PassedCode]) + 0;
    assert map[browser := h][browser] == h;
  }

  /** pass, fail, pass: two changes. */
  lemma PassFailPass(browser: string)
    ensures ChangeCount(map[browser := map[0 := PassedCode, 1 := FailedCode, 2 := PassedCode]], browser, [0, 1, 2]) == 2
  {
    var h := map[0 := PassedCode, 1 := FailedCode, 2 := PassedCode];
    ObservedThreeDays(h);
    var xs := [PassedCode, FailedCode, PassedCode];
    assert Observed(h, [0]) == [PassedCode];
    assert Observed(h, [0, 1]) == [PassedCode, FailedCode];
    assert Observed(h, [0, 1, 2]) == xs;
    var ys := [PassedCode, FailedCode];
    assert xs[..2] == ys && ys[..1] == [PassedCode];
    assert Flips(ys) == 1;
    assert Flips(xs) == Flips(ys) + 1;
    assert map[browser := h][browser] == h;
  }

  /** failed, then timed out: no change. */
  lemma FailedThenTimedOut(browser: string)
    ensures ChangeCount(map[browser := map[0 := FailedCode, 1 := TimedOutCode]], browser, [0, 1]) == 0
  {
    var h := map[0 := FailedCode, 1 := TimedOutCode];
    ObservedThreeDays(h);
    var xs := [FailedCode, FailedCode];
    assert Observed(h, [0]) == [FailedCode];
    assert Observed(h, [0, 1]) == xs;
    assert xs[..1] == [FailedCode];
    assert Flips(xs) == Flips([FailedCode]) + 0;
    assert map[browser := h][browser] == h;
  }

  // ---------------------------------------------------------------------
  // String order (Array.prototype.sort without a comparator)
  // ---------------------------------------------------------------------

  /** `a` sorts before `b`: at the first differing position `a` has the
      smaller character, or `a` is a proper prefix of `b`. */
  predicate Below(a: string, b: string)
    decreases |a|
  {
    |b| > 0 && (|a| == 0 || a[0] < b[0] || (a[0] == b[0] && Below(a[1..], b[1..])))
  }

  lemma {:induction false} BelowIrreflexive(a: string)
    ensures !Below(a, a)
    decreases |a|
  {
    if |a| > 0 {
      BelowIrreflexive(a[1..]);
    }
  }

  lemma {:induction false} BelowTransitive(a: string, b: string, c: string)
    requires Below(a, b) && Below(b, c)
    ensures Below(a, c)
    decreases |a|
  {
    if |a| > 0 && a[0] == b[0] && b[0] == c[0] {
      BelowTransitive(a[1..], b[1..], c[1..]);
    }
  }

  lemma {:induction false} BelowTotal(a: string, b: string)
    requires a != b
    ensures Below(a, b) || Below(b, a)
    decreases |a|
  {
    if |a| > 0 && |b| > 0 && a[0] == b[0] {
      assert a == [a[0]] + a[1..] && b == [b[0]] + b[1..];
      BelowTotal(a[1..], b[1..]);
    }
  }

  /** The smallest of a non-empty set of keys. */
  method LeastKey(keys: set<string>) returns (m: string)
    requires keys != {}
    ensures m in keys
    ensures forall k :: k in keys && k != m ==> Below(m, k)
  {
    m :| m in keys;
    var rest := keys - {m};
    while rest != {}
      invariant rest <= keys && m in keys && m !in rest
      invariant forall k :: k in keys - rest && k != m ==> Below(m, k)
      decreases |rest|
    {
      var k :| k in rest;
      if Below(k, m) {
        forall x | x in keys - rest && x != m
          ensures Below(k, x)
        {
          BelowTransitive(k, m, x);
        }
        m := k;
      } else {
        BelowTotal(k, m);
      }
      rest := rest - {k};
    }
  }

  /** `Object.keys(specs).sort()`: every key once, in ascending order. */
  method SortedKeys(keys: set<string>) returns (s: seq<string>)
    ensures forall i, j :: 0 <= i < j < |s| ==> Below(s[i], s[j])
    ensures forall k :: k in keys <==> k in s
  {
    s := [];
    var rest := keys;
    while rest != {}
      invariant rest <= keys
      invariant forall k :: k in keys <==> k in s || k in rest
      invariant forall i, j :: 0 <= i < j < |s| ==> Below(s[i], s[j])
      invariant forall i, k :: 0 <= i < |s| && k in rest ==> Below(s[i], k)
      decreases |rest|
    {
      var m := LeastKey(rest);
      forall i, k | 0 <= i < |s| && k in rest - {m}
        ensures Below(s[i], k)
      {
      }
      s := s + [m];
      rest := rest - {m};
    }
  }

  // ---------------------------------------------------------------------
  // Selecting the specs to show
  // ---------------------------------------------------------------------

  /** `data.results[suite]`: the histories of a suite's specs, by spec name. */
  datatype SuiteHistory = SuiteHistory(suite: string, specs: map<string, SpecResults>)

  /** One element of `changedTests`. */
  datatype ChangedTest = ChangedTest(suite: string, spec: string, specResults: SpecResults)

  predicate HasChanged(r: SpecResults, browser: string, days: seq<int>, minChanges: int)
  {
    ChangeCount(r, browser, days) >= minChanges
  }

  /** The changed specs of one suite, in ascending spec-name order. */
  method SelectInSuite(h: SuiteHistory, browser: string, days: seq<int>, minChanges: int)
    returns (picked: seq<ChangedTest>)
    ensures SuiteSelection(h, browser, days, minChanges, picked)
  {
    var keys := SortedKeys(h.specs.Keys);
    picked := [];
    for k := 0 to |keys|
      invariant picked == Picked(h, keys[..k], browser, days, minChanges)
    {
      var spec := keys[k];
      var changed := HasStatusChanged(h.specs[spec], browser, days, minChanges);
      assert keys[..k + 1][..k] == keys[..k];
      if changed {
        picked := picked + [ChangedTest(h.suite, spec, h.specs[spec])];
      }
    }
    assert keys[..|keys|] == keys;
    PickedSound(h, keys, browser, days, minChanges);
    PickedComplete(h, keys, browser, days, minChanges);
    PickedOrdered(h, keys, browser, days, minChanges);
  }

  /** The specs named in `keys` that changed often enough, in the order of `keys`. */
  function Picked(h: SuiteHistory, keys: seq<string>, browser: string, days: seq<int>, minChanges: int): seq<ChangedTest>
    requires forall i :: 0 <= i < |keys| ==> keys[i] in h.specs
  {
    if |keys| == 0 then []
    else
      var p := Picked(h, keys[..|keys| - 1], browser, days, minChanges);
      var spec := keys[|keys| - 1];
      if HasChanged(h.specs[spec], browser, days, minChanges) then p + [ChangedTest(h.suite, spec, h.specs[spec])] else p
  }

  lemma PickedLast(h: SuiteHistory, keys: seq<string>, browser: string, days: seq<int>, minChanges: int)
    requires |keys| > 0 && forall i :: 0 <= i < |keys| ==> keys[i] in h.specs
    ensures var last := keys[|keys| - 1];
            Picked(h, keys, browser, days, minChanges) ==
              Picked(h, keys[..|keys| - 1], browser, days, minChanges) +
              (if HasChanged(h.specs[last], browser, days, minChanges) then [ChangedTest(h.suite, last, h.specs[last])] else [])
  {
  }

  /** Every picked spec is one of `keys`, belongs to the suite and changed often enough. */
  lemma {:induction false} PickedSound(h: SuiteHistory, keys: seq<string>, browser: string, days: seq<int>, minChanges: int)
    requires forall i :: 0 <= i < |keys| ==> keys[i] in h.specs
    ensures forall i :: 0 <= i < |Picked(h, keys, browser, days, minChanges)| ==>
              var t := Picked(h, keys, browser, days, minChanges)[i];
              && t.suite == h.suite
              && t.spec in keys
              && t.spec in h.specs
              && t.specResults == h.specs[t.spec]
              && HasChanged(t.specResults, browser, days, minChanges)
  {
    if |keys| > 0 {
      var p := keys[..|keys| - 1];
      var rp := Picked(h, p, browser, days, minChanges);
      PickedSound(h, p, browser, days, minChanges);
      PickedLast(h, keys, browser, days, minChanges);
      forall i | 0 <= i < |rp|
        ensures rp[i].spec in keys
      {
        assert rp[i].spec in p;
        var j :| 0 <= j < |p| && p[j] == rp[i].spec;
        assert keys[j] == rp[i].spec;
      }
    }
  }

  /** Every spec of `keys` that changed often enough is picked. */
  lemma {:induction false} PickedComplete(h: SuiteHistory, keys: seq<string>, browser: string, days: seq<int>, minChanges: int)
    requires forall i :: 0 <= i < |keys| ==> keys[i] in h.specs
    ensures forall spec :: spec in keys && HasChanged(h.specs[spec], browser, days, minChanges) ==>
              exists i :: 0 <= i < |Picked(h, keys, browser, days, minChanges)| &&
                          Picked(h, keys, browser, days, minChanges)[i].spec == spec
  {
    if |keys| > 0 {
      var p := keys[..|keys| - 1];
      var r := Picked(h, keys, browser, days, minChanges);
      var rp := Picked(h, p, browser, days, minChanges);
      PickedComplete(h, p, browser, days, minChanges);
      PickedLast(h, keys, browser, days, minChanges);
      forall spec | spec in keys && HasChanged(h.specs[spec], browser, days, minChanges)
        ensures exists i :: 0 <= i < |r| && r[i].spec == spec
      {
        if spec == keys[|keys| - 1] {
          assert r[|r| - 1].spec == spec;
        } else {
          var j :| 0 <= j < |keys| && keys[j] == spec;
          assert p[j] == spec;
          var i :| 0 <= i < |rp| && rp[i].spec == spec;
          assert r[i] == rp[i];
        }
      }
    }
  }

  /** Picking from ascending keys gives ascending specs. */
  lemma {:induction false} PickedOrdered(h: SuiteHistory, keys: seq<string>, browser: string, days: seq<int>, minChanges: int)
    requires forall i :: 0 <= i < |keys| ==> keys[i] in h.specs
    requires forall i, j :: 0 <= i < j < |keys| ==> Below(keys[i], keys[j])
    ensures forall i, j :: 0 <= i < j < |Picked(h, keys, browser, days, minChanges)| ==>
              Below(Picked(h, keys, browser, days, minChanges)[i].spec, Picked(h, keys, browser, days, minChanges)[j].spec)
  {
    if |keys| > 0 {
      var p := keys[..|keys| - 1];
      var last := keys[|keys| - 1];
      var r := Picked(h, keys, browser, days, minChanges);
      var rp := Picked(h, p, browser, days, minChanges);
      PickedOrdered(h, p, browser, days, minChanges);
      PickedSound(h, p, browser, days, minChanges);
      PickedLast(h, keys, browser, days, minChanges);
      forall i | 0 <= i < |rp|
        ensures Below(rp[i].spec, last)
      {
        assert rp[i].spec in p;
        var j :| 0 <= j < |p| && p[j] == rp[i].spec;
        assert keys[j] == rp[i].spec;
      }
      forall i, j | 0 <= i < j < |r|
        ensures Below(r[i].spec, r[j].spec)
      {
        if j < |rp| {
          assert r[i] == rp[i] && r[j] == rp[j];
        } else {
          assert r[i] == rp[i] && r[j].spec == last;
        }
      }
    }
  }

  /** What the changes table lists: for `changed[i]`, `origin[i]` is the
      position of its suite in `results`. Every listed spec changed often
      enough, every such spec is listed, suites keep their order and specs
      within a suite ascend by name. */
  ghost predicate ChangeSelection(results: seq<SuiteHistory>, browser: string, days: seq<int>, minChanges: int,
                                  changed: seq<ChangedTest>, origin: seq<nat>)
  {
    && |origin| == |changed|
    && SelectionSound(results, browser, days, minChanges, changed, origin)
    && SelectionComplete(results, browser, days, minChanges, changed, origin)
    && SelectionOrdered(changed, origin)
  }

  /** Every listed spec is in its suite and changed often enough. */
  ghost predicate SelectionSound(results: seq<SuiteHistory>, browser: string, days: seq<int>, minChanges: int,
                                 changed: seq<ChangedTest>, origin: seq<nat>)
    requires |origin| == |changed|
  {
    forall i :: 0 <= i < |changed| ==>
      && origin[i] < |results|
      && changed[i].suite == results[origin[i]].suite
      && changed[i].spec in results[origin[i]].specs
      && changed[i].specResults == results[origin[i]].specs[changed[i].spec]
      && HasChanged(changed[i].specResults, browser, days, minChanges)
  }

  /** Every spec that changed often enough is listed. */
  ghost predicate SelectionComplete(results: seq<SuiteHistory>, browser: string, days: seq<int>, minChanges: int,
                                    changed: seq<ChangedTest>, origin: seq<nat>)
    requires |origin| == |changed|
  {
    forall si, spec :: (0 <= si < |results| && spec in results[si].specs &&
                        HasChanged(results[si].specs[spec], browser, days, minChanges)) ==>
      exists i :: 0 <= i < |changed| && origin[i] == si && changed[i].spec == spec
  }

  /** Suites keep their order, and specs within a suite ascend by name. */
  ghost predicate SelectionOrdered(changed: seq<ChangedTest>, origin: seq<nat>)
    requires |origin| == |changed|
  {
    forall i, j :: 0 <= i < j < |changed| ==>
      origin[i] < origin[j] || (origin[i] == origin[j] && Below(changed[i].spec, changed[j].spec))
  }

  /** The changed specs of one suite: each picked test is a spec of the
      suite, with its results, that changed often enough; every such spec is
      picked; and the picked specs ascend by name. */
  ghost predicate SuiteSelection(h: SuiteHistory, browser: string, days: seq<int>, minChanges: int, picked: seq<ChangedTest>)
  {
    && (forall i :: 0 <= i < |picked| ==>
          && picked[i].suite == h.suite
          && picked[i].spec in h.specs
          && picked[i].specResults == h.specs[picked[i].spec]
          && HasChanged(picked[i].specResults, browser, days, minChanges))
    && (forall spec :: spec in h.specs && HasChanged(h.specs[spec], browser, days, minChanges) ==>
          exists i :: 0 <= i < |picked| && picked[i].spec == spec)
    && (forall i, j :: 0 <= i < j < |picked| ==> Below(picked[i].spec, picked[j].spec))
  }

  /** The loop of renderChanges that fills `changedTests`. `origin[i]` is
      the position in `results` of the suite that `changed[i]` came from. */
  method SelectChangedTests(results: seq<SuiteHistory>, browser: string, days: seq<int>, minChanges: int)
    returns (changed: seq<ChangedTest>, origin: seq<nat>)
    ensures ChangeSelection(results, browser, days, minChanges, changed, origin)
  {
    changed, origin := [], [];
    for si := 0 to |results|
      invariant ChangeSelection(results[..si], browser, days, minChanges, changed, origin)
    {
      var picked := SelectInSuite(results[si], browser, days, minChanges);
      var o := seq(|picked|, _ => si);
      SelectionGrows(results, si, browser, days, minChanges, changed, origin, picked);
      changed, origin := changed + picked, origin + o;
    }
    assert results[..|results|] == results;
  }

  /** Appending the changed specs of the next suite extends the selection
      from the suites before it to the suites up to it. */
  lemma SelectionGrows(results: seq<SuiteHistory>, si: nat, browser: string, days: seq<int>, minChanges: int,
                       changed: seq<ChangedTest>, origin: seq<nat>, picked: seq<ChangedTest>)
    requires si < |results|
    requires ChangeSelection(results[..si], browser, days, minChanges, changed, origin)
    requires SuiteSelection(results[si], browser, days, minChanges, picked)
    ensures ChangeSelection(results[..si + 1], browser, days, minChanges, changed + picked, origin + seq(|picked|, _ => si))
  {
    SoundGrows(results, si, browser, days, minChanges, changed, origin, picked);
    CompleteGrows(results, si, browser, days, minChanges, changed, origin, picked);
    OrderedGrows(si, changed, origin, picked);
  }

  lemma SoundGrows(results: seq<SuiteHistory>, si: nat, browser: string, days: seq<int>, minChanges: int,
                   changed: seq<ChangedTest>, origin: seq<nat>, picked: seq<ChangedTest>)
    requires si < |results| && |origin| == |changed|
    requires SelectionSound(results[..si], browser, days, minChanges, changed, origin)
    requires SuiteSelection(results[si], browser, days, minChanges, picked)
    ensures SelectionSound(results[..si + 1], browser, days, minChanges, changed + picked, origin + seq(|picked|, _ => si))
  {
    var before, after := results[..si], results[..si + 1];
    var c', o' := changed + picked, origin + seq(|picked|, _ => si);
    forall i | 0 <= i < |c'|
      ensures && o'[i] < |after|
              && c'[i].suite == after[o'[i]].suite
              && c'[i].spec in after[o'[i]].specs
              && c'[i].specResults == after[o'[i]].specs[c'[i].spec]
              && HasChanged(c'[i].specResults, browser, days, minChanges)
    {
      if i < |changed| {
        assert c'[i] == changed[i] && o'[i] == origin[i];
        assert after[origin[i]] == before[origin[i]];
      } else {
        assert c'[i] == picked[i - |changed|] && o'[i] == si;
      }
    }
  }

  lemma CompleteGrows(results: seq<SuiteHistory>, si: nat, browser: string, days: seq<int>, minChanges: int,
                      changed: seq<ChangedTest>, origin: seq<nat>, picked: seq<ChangedTest>)
    requires si < |results| && |origin| == |changed|
    requires SelectionComplete(results[..si], browser, days, minChanges, changed, origin)
    requires SuiteSelection(results[si], browser, days, minChanges, picked)
    ensures SelectionComplete(results[..si + 1], browser, days, minChanges, changed + picked, origin + seq(|picked|, _ => si))
  {
    var before, after := results[..si], results[..si + 1];
    var c', o' := changed + picked, origin + seq(|picked|, _ => si);
    forall s, spec | 0 <= s < |after| && spec in after[s].specs &&
        HasChanged(after[s].specs[spec], browser, days, minChanges)
      ensures exists i :: 0 <= i < |c'| && o'[i] == s && c'[i].spec == spec
    {
      if s < si {
        assert after[s] == before[s];
        var i :| 0 <= i < |changed| && origin[i] == s && changed[i].spec == spec;
        assert o'[i] == s && c'[i].spec == spec;
      } else {
        var i :| 0 <= i < |picked| && picked[i].spec == spec;
        assert o'[|changed| + i] == s && c'[|changed| + i].spec == spec;
      }
    }
  }

  lemma OrderedGrows(si: nat, changed: seq<ChangedTest>, origin: seq<nat>, picked: seq<ChangedTest>)
    requires |origin| == |changed| && forall i :: 0 <= i < |origin| ==> origin[i] < si
    requires SelectionOrdered(changed, origin)
    requires forall i, j :: 0 <= i < j < |picked| ==> Below(picked[i].spec, picked[j].spec)
    ensures SelectionOrdered(changed + picked, origin + seq(|picked|, _ => si))
  {
    var c', o' := changed + picked, origin + seq(|picked|, _ => si);
    forall i, j | 0 <= i < j < |c'|
      ensures o'[i] < o'[j] || (o'[i] == o'[j] && Below(c'[i].spec, c'[j].spec))
    {
      if j < |changed| {
        assert c'[i] == changed[i] && c'[j] == changed[j] && o'[i] == origin[i] && o'[j] == origin[j];
      } else if i < |changed| {
        assert o'[i] == origin[i] < si == o'[j];
      } else {
        assert c'[i] == picked[i - |changed|] && c'[j] == picked[j - |changed|] && o'[i] == si == o'[j];
      }
    }
  }

  /** renderChanges up to the table: nothing is listed when a date field is
      empty or the range holds no day; otherwise the selection over the
      days of the range, with the threshold read from its field. */
  method RenderChanges(startDay: Option<int>, endDay: Option<int>, browser: string, minInput: Option<int>,
                       results: seq<SuiteHistory>)
    returns (table: Option<seq<ChangedTest>>, ghost origin: seq<nat>)
    ensures table.None? <==> startDay.None? || endDay.None? || endDay.value < startDay.value
    ensures table.Some? ==>
              var days := seq(endDay.value - startDay.value + 1, k => startDay.value + k);
              ChangeSelection(results, browser, days, EffectiveMinChanges(minInput), table.value, origin)
  {
    var minChanges := EffectiveMinChanges(minInput);
    origin := [];
    if startDay.None? || endDay.None? {
      return None, origin;
    }
    var days := GetDaysBetween(startDay.value, endDay.value);
    if |days| == 0 {
      return None, origin;
    }
    var changed;
    changed, origin := SelectChangedTests(results, browser, days, minChanges);
    assert days == seq(endDay.value - startDay.value + 1, k => startDay.value + k);
    table := Some(changed);
  }
}
