/** Shared data model of the dashboard: the per-day entries stored in the
    time-series document, their per-browser counters, and the lookups that
    several pages perform on them. */
module Common {

  datatype Option<+T> = None | Some(value: T)

  /** The two browser engines the dashboard tracks. */
  const Firefox: string := "firefox"
  const Chrome: string := "chrome"

  /** Milliseconds in one day, the step between consecutive entry dates. */
  const MsPerDay: int := 24 * 60 * 60 * 1000

  /** The three counters kept for one top-level suite (`bySuite[title]`). */
  datatype SuiteCounts = SuiteCounts(passing: nat, failing: nat, skipping: nat)

  const Zero: SuiteCounts := SuiteCounts(0, 0, 0)

  function Plus(a: SuiteCounts, b: SuiteCounts): SuiteCounts
  {
    SuiteCounts(a.passing + b.passing, a.failing + b.failing, a.skipping + b.skipping)
  }

  lemma PlusZero(x: SuiteCounts)
    ensures Plus(Zero, x) == x
  {
  }

  lemma PlusAssociative(x: SuiteCounts, y: SuiteCounts, z: SuiteCounts)
    ensures Plus(x, Plus(y, z)) == Plus(Plus(x, y), z)
  {
  }

  function Sum(c: SuiteCounts): nat
  {
    c.passing + c.failing + c.skipping
  }

  /** The object stored as `<browser>Counts` on an entry: overall counters,
      the per-suite buckets and the derived total. */
  datatype Counts = Counts(passing: nat, failing: nat, skipping: nat,
                           bySuite: map<string, SuiteCounts>, total: nat)

  /** One element of the time-series document: a UTC timestamp (milliseconds)
      and, per browser name, the counts recorded for that browser on that day. */
  datatype Entry = Entry(date: int, counts: map<string, Counts>)

  /** Index of the first entry whose date is `date` (`entries.find(...)`). */
  function FindEntry(entries: seq<Entry>, date: int): (r: Option<nat>)
    ensures r.Some? ==> r.value < |entries| && entries[r.value].date == date
    ensures r.Some? ==> forall k :: 0 <= k < r.value ==> entries[k].date != date
    ensures r.None? <==> forall k :: 0 <= k < |entries| ==> entries[k].date != date
  {
    if |entries| == 0 then None
    else if entries[0].date == date then Some(0)
    else match FindEntry(entries[1..], date)
      case None => None
      case Some(i) => Some(i + 1)
  }

  /** Sum of the per-suite buckets over the suite names `ks`, in no particular
      order (the order of JavaScript object keys does not matter to a sum). */
  ghost function SumCounts(ks: set<string>, buckets: map<string, SuiteCounts>): SuiteCounts
    requires ks <= buckets.Keys
    decreases |ks|
  {
    if ks == {} then Zero
    else
      var k :| k in ks;
      Plus(buckets[k], SumCounts(ks - {k}, buckets))
  }

  /** Taking any one suite out of the sum first gives the same sum. */
  lemma {:induction false} SumCountsRemove(ks: set<string>, buckets: map<string, SuiteCounts>, k: string)
    requires ks <= buckets.Keys && k in ks
    ensures SumCounts(ks, buckets) == Plus(buckets[k], SumCounts(ks - {k}, buckets))
    decreases |ks|
  {
    var j :| j in ks && SumCounts(ks, buckets) == Plus(buckets[j], SumCounts(ks - {j}, buckets));
    if j != k {
      var rest := ks - {j} - {k};
      SumCountsRemove(ks - {j}, buckets, k);
      assert ks - {j} - {k} == ks - {k} - {j};
      SumCountsRemove(ks - {k}, buckets, j);
      assert SumCounts(ks - {j}, buckets) == Plus(buckets[k], SumCounts(rest, buckets));
      assert SumCounts(ks - {k}, buckets) == Plus(buckets[j], SumCounts(rest, buckets));
      var r := SumCounts(rest, buckets);
      assert Plus(buckets[j], Plus(buckets[k], r)) == Plus(buckets[k], Plus(buckets[j], r));
    }
  }

  /** The sum only reads the buckets it adds up. */
  lemma {:induction false} SumCountsFrame(ks: set<string>, buckets: map<string, SuiteCounts>, buckets': map<string, SuiteCounts>)
    requires ks <= buckets.Keys && ks <= buckets'.Keys
    requires forall k :: k in ks ==> buckets[k] == buckets'[k]
    ensures SumCounts(ks, buckets) == SumCounts(ks, buckets')
    decreases |ks|
  {
    if ks != {} {
      var k :| k in ks;
      SumCountsRemove(ks, buckets, k);
      SumCountsRemove(ks, buckets', k);
      SumCountsFrame(ks - {k}, buckets, buckets');
    }
  }

  /** Summing two disjoint groups of suites separately and adding the results
      gives the sum over both groups. */
  lemma {:induction false} SumCountsUnion(a: set<string>, b: set<string>, buckets: map<string, SuiteCounts>)
    requires a <= buckets.Keys && b <= buckets.Keys && a !! b
    ensures SumCounts(a + b, buckets) == Plus(SumCounts(a, buckets), SumCounts(b, buckets))
    decreases |a|
  {
    if a == {} {
      assert a + b == b;
      assert SumCounts(a, buckets) == Zero;
      PlusZero(SumCounts(b, buckets));
    } else {
      var k :| k in a;
      var a' := a - {k};
      var x, y, z := buckets[k], SumCounts(a', buckets), SumCounts(b, buckets);
      assert (a + b) - {k} == a' + b;
      assert SumCounts(a' + b, buckets) == Plus(y, z) by {
        SumCountsUnion(a', b, buckets);
      }
      assert SumCounts(a + b, buckets) == Plus(x, Plus(y, z)) by {
        SumCountsRemove(a + b, buckets, k);
      }
      assert SumCounts(a, buckets) == Plus(x, y) by {
        SumCountsRemove(a, buckets, k);
      }
      PlusAssociative(x, y, z);
      assert SumCounts(a + b, buckets) == Plus(SumCounts(a, buckets), z);
    }
  }

  /** Adding a bucket under a new suite name adds its counters to the sum. */
  lemma SumCountsInsert(buckets: map<string, SuiteCounts>, k: string, v: SuiteCounts)
    requires k !in buckets
    ensures SumCounts(buckets[k := v].Keys, buckets[k := v]) == Plus(v, SumCounts(buckets.Keys, buckets))
  {
    var after := buckets[k := v];
    SumCountsRemove(after.Keys, after, k);
    assert after.Keys - {k} == buckets.Keys;
    SumCountsFrame(buckets.Keys, after, buckets);
  }
}
