/**
  The aggregation pass (`aggregate` in backends/file.js): every snapshot
  left in the raw folder is read, in directory-listing order, and reduced by
  the three per-kind reductions into the aggregate record. The record is
  rebuilt from scratch on every pass, so its window is the retention window.
*/
module Aggregation {
  import opened Metrics
  import Seqs
  import StatsMath
  import Counters
  import Timers
  import Gauges

  /** The snapshots named by the listing, in listing order. */
  function ReadAll(raw: map<int, Snapshot>, listing: seq<int>): (r: seq<Snapshot>)
    requires forall i :: 0 <= i < |listing| ==> listing[i] in raw
    ensures |r| == |listing|
    ensures forall i :: 0 <= i < |listing| ==> r[i] == raw[listing[i]]
  {
    seq(|listing|, i requires 0 <= i < |listing| => raw[listing[i]])
  }

  /** Reduction of a sequence of snapshots into the aggregate record, by
      the three per-kind reductions together: each kind has the names its
      snapshots carry; a counter totals its values, a timer joins its
      sample lists and carries their statistics, a gauge lists its values,
      all in the order of `stats`. */
  function Reduce(stats: seq<Snapshot>): (r: AggregateRecord)
    ensures r.counters.Keys == Names(CounterMaps(stats))
    ensures r.timers.Keys == Names(TimerMaps(stats))
    ensures r.gauges.Keys == Names(GaugeMaps(stats))
    ensures forall k :: k in r.counters ==> r.counters[k] == StatsMath.Sum(Occurrences(CounterMaps(stats), k))
    ensures forall k :: k in r.timers ==>
      r.timers[k].data == Flatten(Occurrences(TimerMaps(stats), k)) && Timers.WellFormed(r.timers[k])
    ensures forall k :: k in r.gauges ==> r.gauges[k] == Occurrences(GaugeMaps(stats), k)
  {
    AggregateRecord(Counters.ProcessCounters(stats), Timers.ProcessTimers(stats), Gauges.ProcessGauges(stats))
  }

  /** `aggregate`: the record built from every stored snapshot. Whatever the
      listing order, a counter, timer or gauge name is in the output exactly
      when some stored snapshot carries it. Read in listing order, a counter
      totals its values, a timer joins its sample lists and carries their
      statistics, and a gauge lists its values. */
  function Aggregate(raw: map<int, Snapshot>, listing: seq<int>): (r: AggregateRecord)
    requires Enumerates(listing, raw.Keys)
    ensures forall k :: k in r.counters <==> exists t :: t in raw && k in raw[t].counters
    ensures forall k :: k in r.timers <==> exists t :: t in raw && k in raw[t].timers
    ensures forall k :: k in r.gauges <==> exists t :: t in raw && k in raw[t].gauges
    ensures forall k :: k in r.counters ==>
      r.counters[k] == StatsMath.Sum(Occurrences(CounterMaps(ReadAll(raw, listing)), k))
    ensures forall k :: k in r.timers ==>
      r.timers[k].data == Flatten(Occurrences(TimerMaps(ReadAll(raw, listing)), k)) && Timers.WellFormed(r.timers[k])
    ensures forall k :: k in r.gauges ==> r.gauges[k] == Occurrences(GaugeMaps(ReadAll(raw, listing)), k)
  {
    var stats := ReadAll(raw, listing);
    AggregateNames(raw, listing);
    Reduce(stats)
  }

  /** The names of each kind in the reduced snapshots are those of the
      stored snapshots. */
  lemma AggregateNames(raw: map<int, Snapshot>, listing: seq<int>)
    requires Enumerates(listing, raw.Keys)
    ensures forall k :: k in Names(CounterMaps(ReadAll(raw, listing))) <==> exists t :: t in raw && k in raw[t].counters
    ensures forall k :: k in Names(TimerMaps(ReadAll(raw, listing))) <==> exists t :: t in raw && k in raw[t].timers
    ensures forall k :: k in Names(GaugeMaps(ReadAll(raw, listing))) <==> exists t :: t in raw && k in raw[t].gauges
  {
    CounterNames(raw, listing);
    TimerNames(raw, listing);
    GaugeNames(raw, listing);
  }

  /** A stored timestamp has a position in the listing. */
  lemma ListedAt(listing: seq<int>, keys: set<int>, t: int) returns (i: nat)
    requires Enumerates(listing, keys) && t in keys
    ensures i < |listing| && listing[i] == t
  {
    assert t in listing;
    i :| 0 <= i < |listing| && listing[i] == t;
  }

  lemma CounterNames(raw: map<int, Snapshot>, listing: seq<int>)
    requires Enumerates(listing, raw.Keys)
    ensures forall k :: k in Names(CounterMaps(ReadAll(raw, listing))) <==> exists t :: t in raw && k in raw[t].counters
  {
    var maps := CounterMaps(ReadAll(raw, listing));
    forall k
      ensures k in Names(maps) <==> exists t :: t in raw && k in raw[t].counters
    {
      NamesMembership(maps, k);
      if exists t :: t in raw && k in raw[t].counters {
        var t :| t in raw && k in raw[t].counters;
        var i := ListedAt(listing, raw.Keys, t);
        assert maps[i] == raw[t].counters;
      }
    }
  }

  lemma TimerNames(raw: map<int, Snapshot>, listing: seq<int>)
    requires Enumerates(listing, raw.Keys)
    ensures forall k :: k in Names(TimerMaps(ReadAll(raw, listing))) <==> exists t :: t in raw && k in raw[t].timers
  {
    var maps := TimerMaps(ReadAll(raw, listing));
    forall k
      ensures k in Names(maps) <==> exists t :: t in raw && k in raw[t].timers
    {
      NamesMembership(maps, k);
      if exists t :: t in raw && k in raw[t].timers {
        var t :| t in raw && k in raw[t].timers;
        var i := ListedAt(listing, raw.Keys, t);
        assert maps[i] == raw[t].timers;
      }
    }
  }

  lemma GaugeNames(raw: map<int, Snapshot>, listing: seq<int>)
    requires Enumerates(listing, raw.Keys)
    ensures forall k :: k in Names(GaugeMaps(ReadAll(raw, listing))) <==> exists t :: t in raw && k in raw[t].gauges
  {
    var maps := GaugeMaps(ReadAll(raw, listing));
    forall k
      ensures k in Names(maps) <==> exists t :: t in raw && k in raw[t].gauges
    {
      NamesMembership(maps, k);
      if exists t :: t in raw && k in raw[t].gauges {
        var t :| t in raw && k in raw[t].gauges;
        var i := ListedAt(listing, raw.Keys, t);
        assert maps[i] == raw[t].gauges;
      }
    }
  }

  /** Two listings of the same keys are permutations of each other. */
  lemma ListingsArePermutations(l1: seq<int>, l2: seq<int>, keys: set<int>)
    requires Enumerates(l1, keys) && Enumerates(l2, keys)
    ensures multiset(l1) == multiset(l2)
  {
    forall t
      ensures multiset(l1)[t] == multiset(l2)[t]
    {
      DistinctCount(l1, t);
      DistinctCount(l2, t);
    }
  }

  /** In a listing without repetitions each key occurs at most once. */
  lemma {:induction false} DistinctCount(l: seq<int>, t: int)
    requires forall i, j :: 0 <= i < j < |l| ==> l[i] != l[j]
    ensures multiset(l)[t] == if t in l then 1 else 0
  {
    if |l| > 0 {
      var l' := l[..|l| - 1];
      assert l == l' + [l[|l| - 1]];
      DistinctCount(l', t);
      if t == l[|l| - 1] {
        assert t !in l';
      }
    }
  }

  /** Reading two listings one after the other reads their snapshots one
      after the other. */
  lemma ReadAllAppend(raw: map<int, Snapshot>, a: seq<int>, b: seq<int>)
    requires forall i :: 0 <= i < |a| ==> a[i] in raw
    requires forall i :: 0 <= i < |b| ==> b[i] in raw
    ensures forall i :: 0 <= i < |a + b| ==> (a + b)[i] in raw
    ensures ReadAll(raw, a + b) == ReadAll(raw, a) + ReadAll(raw, b)
  {
  }

  /** A permutation of stored names names only stored snapshots. */
  lemma PermutationStored(raw: map<int, Snapshot>, l1: seq<int>, l2: seq<int>)
    requires forall i :: 0 <= i < |l1| ==> l1[i] in raw
    requires multiset(l1) == multiset(l2)
    ensures forall i :: 0 <= i < |l2| ==> l2[i] in raw
  {
    forall i | 0 <= i < |l2|
      ensures l2[i] in raw
    {
      assert l2[i] in multiset(l1);
      var j :| 0 <= j < |l1| && l1[j] == l2[i];
    }
  }

  /** Reading a permuted listing gives a permutation of the snapshots. */
  lemma {:induction false} ReadAllPermutation(raw: map<int, Snapshot>, l1: seq<int>, l2: seq<int>)
    requires forall i :: 0 <= i < |l1| ==> l1[i] in raw
    requires multiset(l1) == multiset(l2)
    ensures forall i :: 0 <= i < |l2| ==> l2[i] in raw
    ensures multiset(ReadAll(raw, l1)) == multiset(ReadAll(raw, l2))
    decreases |l1|
  {
    PermutationStored(raw, l1, l2);
    if |l1| > 0 {
      var x := l1[|l1| - 1];
      var l1' := l1[..|l1| - 1];
      var left, right := Seqs.SplitAtLast(l1, l2);
      assert l1 == l1' + [x];
      assert forall i :: 0 <= i < |left| ==> left[i] == l2[i];
      assert forall i :: 0 <= i < |right| ==> right[i] == l2[|left| + 1 + i];
      ReadAllPermutation(raw, l1', left + right);
      ReadAllAppend(raw, l1', [x]);
      ReadAllAppend(raw, left, [x]);
      ReadAllAppend(raw, left + [x], right);
      ReadAllAppend(raw, left, right);
      Seqs.MultisetOfThree(ReadAll(raw, l1'), ReadAll(raw, left), ReadAll(raw, [x]), ReadAll(raw, right));
    }
  }

  /** Counter totals are the same whatever order the directory is listed in. */
  lemma CountersIgnoreListingOrder(raw: map<int, Snapshot>, l1: seq<int>, l2: seq<int>)
    requires Enumerates(l1, raw.Keys) && Enumerates(l2, raw.Keys)
    ensures Aggregate(raw, l1).counters == Aggregate(raw, l2).counters
  {
    ListingsArePermutations(l1, l2, raw.Keys);
    var s1, s2 := ReadAll(raw, l1), ReadAll(raw, l2);
    ReadAllPermutation(raw, l1, l2);
    ProjectionPermutation(s1, s2);
    Counters.CountersIgnoreOrder(CounterMaps(s1), CounterMaps(s2));
  }

  /** Permuting snapshots permutes their counter maps. */
  lemma {:induction false} ProjectionPermutation(a: seq<Snapshot>, b: seq<Snapshot>)
    requires multiset(a) == multiset(b)
    ensures multiset(CounterMaps(a)) == multiset(CounterMaps(b))
    decreases |a|
  {
    if |a| > 0 {
      var x := a[|a| - 1];
      var a' := a[..|a| - 1];
      var left, right := Seqs.SplitAtLast(a, b);
      assert a == a' + [x];
      ProjectionPermutation(a', left + right);
      CounterMapsAppend(a', [x]);
      CounterMapsAppend(left + [x], right);
      CounterMapsAppend(left, [x]);
      CounterMapsAppend(left, right);
      Seqs.MultisetOfThree(CounterMaps(a'), CounterMaps(left), [x.counters], CounterMaps(right));
    }
  }

  /** The counter maps of a concatenation are those of its parts. */
  lemma CounterMapsAppend(a: seq<Snapshot>, b: seq<Snapshot>)
    ensures CounterMaps(a + b) == CounterMaps(a) + CounterMaps(b)
  {
  }
}
