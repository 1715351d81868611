/**
  Counter reduction of the aggregation pass (`processCounters` in
  backends/file.js): every counter name seen in any retained snapshot is
  summed over the snapshots that carry it.
*/
module Counters {
  import opened StatsMath
  import opened Metrics

  /** Folds one snapshot's counters into the running output, with the
      source's truthiness test: a missing or zero running value is replaced
      by the new value, anything else is added to it. Either way the new
      entry is the old total (zero when absent) plus the new value. */
  function AddCounters(output: map<string, real>, counters: map<string, real>): (r: map<string, real>)
    ensures r.Keys == output.Keys + counters.Keys
    ensures forall k :: k in counters ==> r[k] == (if k in output then output[k] else 0.0) + counters[k]
    ensures forall k :: k in output && k !in counters ==> r[k] == output[k]
  {
    map k | k in output.Keys + counters.Keys ::
      if k !in counters then output[k]
      else if k !in output || output[k] == 0.0 then counters[k]
      else counters[k] + output[k]
  }

  /** The running fold over the counter maps, read in order: the names are
      those of every map, and each value is the total of that name's values
      over the maps that carry it. */
  function SumCounters(maps: seq<map<string, real>>): (r: map<string, real>)
    ensures r.Keys == Names(maps)
    ensures forall k :: k in r ==> r[k] == Sum(Occurrences(maps, k))
  {
    if |maps| == 0 then map[]
    else
      var prefix := maps[..|maps| - 1];
      var output := SumCounters(prefix);
      SumCountersStep(prefix, maps[|maps| - 1], output);
      assert maps == prefix + [maps[|maps| - 1]];
      AddCounters(output, maps[|maps| - 1])
  }

  /** One more map extends the reference totals the way `AddCounters`
      extends the running output. */
  lemma SumCountersStep(prefix: seq<map<string, real>>, last: map<string, real>, output: map<string, real>)
    requires output.Keys == Names(prefix)
    requires forall k :: k in output ==> output[k] == Sum(Occurrences(prefix, k))
    ensures AddCounters(output, last).Keys == Names(prefix + [last])
    ensures forall k :: k in AddCounters(output, last) ==>
      AddCounters(output, last)[k] == Sum(Occurrences(prefix + [last], k))
  {
    var maps := prefix + [last];
    assert maps[..|maps| - 1] == prefix;
    var r := AddCounters(output, last);
    forall k | k in r
      ensures r[k] == Sum(Occurrences(maps, k))
    {
      OccurrencesNonEmpty(prefix, k);
      var before := Occurrences(prefix, k);
      if k in last {
        assert Occurrences(maps, k) == before + [last[k]];
        SumAppend(before, [last[k]]);
        if k !in output {
          assert before == [];
        }
      } else {
        assert Occurrences(maps, k) == before;
      }
    }
  }

  /** `processCounters`: the counters of the snapshots, summed per name. */
  function ProcessCounters(stats: seq<Snapshot>): (r: map<string, real>)
    ensures r.Keys == Names(CounterMaps(stats))
    ensures forall k :: k in r ==> r[k] == Sum(Occurrences(CounterMaps(stats), k))
  {
    SumCounters(CounterMaps(stats))
  }

  /** The counter totals do not depend on the order in which the maps are
      read: any permutation of the same maps gives the same output. */
  lemma CountersIgnoreOrder(a: seq<map<string, real>>, b: seq<map<string, real>>)
    requires multiset(a) == multiset(b)
    ensures SumCounters(a) == SumCounters(b)
  {
    var ra, rb := SumCounters(a), SumCounters(b);
    NamesPermutation(a, b);
    forall k | k in ra
      ensures ra[k] == rb[k]
    {
      OccurrencesPermutation(a, b, k);
      SumPermutation(Occurrences(a, k), Occurrences(b, k));
    }
  }
}
