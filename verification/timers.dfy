/**
  Timer reduction of the aggregation pass (`processTimers` in
  backends/file.js): each timer name collects the sample lists of every
  retained snapshot, in reading order, and carries statistics over all of
  them once there is at least one sample.
*/
module Timers {
  import opened StatsMath
  import opened Metrics

  /** The statistics block: count, extrema, mean, and the dispersion the
      source names `stdev`, all over the whole accumulated list. */
  function ComputeStats(data: seq<real>): (st: TimerStats)
    requires |data| > 0
    ensures st.count == |data|
    ensures st.min in data && st.max in data
    ensures forall i :: 0 <= i < |data| ==> st.min <= data[i] <= st.max
    ensures st.min <= st.mean <= st.max
    ensures st.mean == Sum(data) / (st.count as real)
    ensures st.stdev == SquaredDeviations(data, st.mean) / (st.count as real)
    ensures st.stdev >= 0.0
    ensures st.stdev == 0.0 <==> forall i, j :: 0 <= i < |data| && 0 <= j < |data| ==> data[i] == data[j]
  {
    MeanBetweenExtrema(data);
    StdevZeroIffConstant(data);
    TimerStats(|data|, Min(data), Max(data), Mean(data), Stdev(data))
  }

  /** What every entry of the timer output satisfies: statistics are present
      exactly when there is a sample, and then describe all the samples. */
  predicate WellFormed(e: TimerEntry)
  {
    && (e.stats.Some? <==> |e.data| > 0)
    && (e.stats.Some? ==> |e.data| > 0 && e.stats.value == ComputeStats(e.data))
  }

  /** One timer's entry after one more list: the list is appended to the
      samples so far (a new name starts from the list itself); the
      statistics are recomputed when there is any sample and otherwise left
      as they were, absent for a new name. */
  function MergeTimer(previous: Option<TimerEntry>, list: seq<real>): (e: TimerEntry)
    ensures e.data == (if previous.Some? then previous.value.data else []) + list
    ensures |e.data| > 0 ==> e.stats == Some(ComputeStats(e.data))
    ensures |e.data| == 0 ==> e.stats == if previous.Some? then previous.value.stats else None
  {
    var data := if previous.None? then list else previous.value.data + list;
    if |data| > 0 then TimerEntry(data, Some(ComputeStats(data)))
    else TimerEntry(data, if previous.None? then None else previous.value.stats)
  }

  /** Folds one snapshot's timers into the running output: every name the
      snapshot carries has its entry merged with the snapshot's list, and
      every other name keeps its entry. */
  function AddTimers(output: map<string, TimerEntry>, timers: map<string, seq<real>>): (r: map<string, TimerEntry>)
    ensures r.Keys == output.Keys + timers.Keys
    ensures forall k :: k in timers ==> r[k].data == (if k in output then output[k].data else []) + timers[k]
    ensures forall k :: k in timers && |r[k].data| > 0 ==> r[k].stats == Some(ComputeStats(r[k].data))
    ensures forall k :: k in timers && |r[k].data| == 0 ==> r[k].stats == (if k in output then output[k].stats else None)
    ensures forall k :: k in output && k !in timers ==> r[k] == output[k]
  {
    map k | k in output.Keys + timers.Keys ::
      if k !in timers then output[k]
      else MergeTimer(if k in output then Some(output[k]) else None, timers[k])
  }

  /** The running fold over the timer maps, read in order: the names are
      those of every map, each sample list is the concatenation of that
      name's lists in reading order, and every entry is well formed. */
  function CollectTimers(maps: seq<map<string, seq<real>>>): (r: map<string, TimerEntry>)
    ensures r.Keys == Names(maps)
    ensures forall k :: k in r ==> r[k].data == Flatten(Occurrences(maps, k)) && WellFormed(r[k])
  {
    if |maps| == 0 then map[]
    else
      var prefix := maps[..|maps| - 1];
      var output := CollectTimers(prefix);
      CollectTimersStep(prefix, maps[|maps| - 1], output);
      assert maps == prefix + [maps[|maps| - 1]];
      AddTimers(output, maps[|maps| - 1])
  }

  /** One more map extends the reference lists the way `AddTimers` extends
      the running output, and keeps every entry well formed. */
  lemma CollectTimersStep(prefix: seq<map<string, seq<real>>>, last: map<string, seq<real>>,
                          output: map<string, TimerEntry>)
    requires output.Keys == Names(prefix)
    requires forall k :: k in output ==> output[k].data == Flatten(Occurrences(prefix, k)) && WellFormed(output[k])
    ensures AddTimers(output, last).Keys == Names(prefix + [last])
    ensures forall k :: k in AddTimers(output, last) ==>
      AddTimers(output, last)[k].data == Flatten(Occurrences(prefix + [last], k))
      && WellFormed(AddTimers(output, last)[k])
  {
    assert (prefix + [last])[..|prefix|] == prefix;
    assert Names(prefix + [last]) == Names(prefix) + last.Keys;
    forall k | k in AddTimers(output, last)
      ensures AddTimers(output, last)[k].data == Flatten(Occurrences(prefix + [last], k))
      ensures WellFormed(AddTimers(output, last)[k])
    {
      CollectTimersKey(prefix, last, output, k);
    }
  }

  /** `CollectTimersStep` for a single name. */
  lemma CollectTimersKey(prefix: seq<map<string, seq<real>>>, last: map<string, seq<real>>,
                         output: map<string, TimerEntry>, k: string)
    requires output.Keys == Names(prefix)
    requires k in output ==> output[k].data == Flatten(Occurrences(prefix, k)) && WellFormed(output[k])
    requires k in output || k in last
    ensures AddTimers(output, last)[k].data == Flatten(Occurrences(prefix + [last], k))
    ensures WellFormed(AddTimers(output, last)[k])
  {
    var maps := prefix + [last];
    var r := AddTimers(output, last);
    assert maps[..|maps| - 1] == prefix;
    OccurrencesNonEmpty(prefix, k);
    var before := Occurrences(prefix, k);
    if k in last {
      assert Occurrences(maps, k) == before + [last[k]];
      FlattenAppendOne(before, last[k]);
      if k !in output {
        assert before == [];
        assert r[k].data == last[k];
      } else {
        assert r[k].data == output[k].data + last[k];
      }
    } else {
      assert Occurrences(maps, k) == before;
      assert r[k] == output[k];
    }
  }

  /** Joining one more list after a run of lists. */
  lemma FlattenAppendOne(lists: seq<seq<real>>, list: seq<real>)
    ensures Flatten(lists + [list]) == Flatten(lists) + list
  {
    assert (lists + [list])[..|lists|] == lists;
  }

  /** `processTimers`: the timers of the snapshots, collected per name. */
  function ProcessTimers(stats: seq<Snapshot>): (r: map<string, TimerEntry>)
    ensures r.Keys == Names(TimerMaps(stats))
    ensures forall k :: k in r ==> r[k].data == Flatten(Occurrences(TimerMaps(stats), k)) && WellFormed(r[k])
  {
    CollectTimers(TimerMaps(stats))
  }

  /** Two flushes of one timer, `[1, 2, 3]` and then `[4]`: the samples are
      joined in order and the field named `stdev` is the variance 1.25, not
      its square root. */
  lemma TwoFlushExample()
    ensures CollectTimers([map["t" := [1.0, 2.0, 3.0]], map["t" := [4.0]]])["t"]
      == TimerEntry([1.0, 2.0, 3.0, 4.0], Some(TimerStats(4, 1.0, 4.0, 2.5, 1.25)))
  {
    var maps: seq<map<string, seq<real>>> := [map["t" := [1.0, 2.0, 3.0]], map["t" := [4.0]]];
    ExampleSamples(maps);
    ExampleStats();
    var e := CollectTimers(maps)["t"];
    assert e.data == [1.0, 2.0, 3.0, 4.0];
    assert WellFormed(e);
  }

  /** The name is collected and its samples are the two lists joined. */
  lemma ExampleSamples(maps: seq<map<string, seq<real>>>)
    requires maps == [map["t" := [1.0, 2.0, 3.0]], map["t" := [4.0]]]
    ensures "t" in Names(maps)
    ensures Flatten(Occurrences(maps, "t")) == [1.0, 2.0, 3.0, 4.0]
  {
    var first := maps[..1];
    assert first[..0] == [];
    assert Names(first) == {"t"};
    var lists: seq<seq<real>> := [[1.0, 2.0, 3.0], [4.0]];
    assert Occurrences(first, "t") == [[1.0, 2.0, 3.0]];
    assert Occurrences(maps, "t") == lists;
    assert lists[..1][..0] == [];
    assert Flatten(lists[..1]) == [1.0, 2.0, 3.0];
  }

  /** The statistics block of the samples 1, 2, 3, 4. */
  lemma ExampleStats()
    ensures ComputeStats([1.0, 2.0, 3.0, 4.0]) == TimerStats(4, 1.0, 4.0, 2.5, 1.25)
  {
    var s4: seq<real> := [1.0, 2.0, 3.0, 4.0];
    ExampleSums();
    assert Mean(s4) == 2.5;
    var st := ComputeStats(s4);
    assert st.min <= s4[0] == 1.0 && st.max >= s4[3] == 4.0;
    assert forall i :: 0 <= i < |s4| ==> 1.0 <= s4[i] <= 4.0;
    assert st.min == 1.0 && st.max == 4.0;
  }

  /** The total of 1, 2, 3, 4 and its squared deviations from 2.5. */
  lemma ExampleSums()
    ensures Sum([1.0, 2.0, 3.0, 4.0]) == 10.0
    ensures SquaredDeviations([1.0, 2.0, 3.0, 4.0], 2.5) == 5.0
  {
    var s1: seq<real> := [1.0];
    var s2: seq<real> := [1.0, 2.0];
    var s3: seq<real> := [1.0, 2.0, 3.0];
    var s4: seq<real> := [1.0, 2.0, 3.0, 4.0];
    assert s1[..0] == [] && s2[..1] == s1 && s3[..2] == s2 && s4[..3] == s3;
    assert Sum(s1) == 1.0;
    assert Sum(s2) == 3.0;
    assert Sum(s3) == 6.0;
    assert SquaredDeviations(s1, 2.5) == 2.25;
    assert SquaredDeviations(s2, 2.5) == 2.5;
    assert SquaredDeviations(s3, 2.5) == 2.75;
  }
}
