/**
  A worked run of the aggregation pass of backends/file.js on two stored
  snapshots, with the sweep in front of it keeping both.
*/
module Scenarios {
  import opened Metrics
  import StatsMath
  import Timers
  import Retention
  import Aggregation

  /** The snapshot flushed at 1000 ms: one counter. */
  function First(): Snapshot
  {
    Snapshot(map["hits" := 1.0], map[], map[])
  }

  /** The snapshot flushed at 2000 ms: a counter, a timer and a gauge. */
  function Second(): Snapshot
  {
    Snapshot(map["hits" := 2.0], map["latency" := [5.0, 10.0]], map["q" := 3.0])
  }

  function Stored(): map<int, Snapshot>
  {
    map[1000 := First(), 2000 := Second()]
  }

  /** With a retention of 5000 ms, a sweep at 3000 ms keeps both snapshots,
      and the listing in flush order names exactly them. */
  lemma SweepKeepsBoth()
    ensures Retention.Sweep(Stored(), 3000, 5000) == Stored()
    ensures Enumerates([1000, 2000], Stored().Keys)
  {
    var listing := [1000, 2000];
    assert listing[0] == 1000 && listing[1] == 2000;
  }

  /** The aggregate of the two snapshots: the counter totals 3, the timer
      carries count 2, extrema 5 and 10, mean 7.5 and, under the name
      `stdev`, the variance 6.25; the gauge lists its one value. */
  lemma TwoSnapshotAggregate()
    ensures Enumerates([1000, 2000], Stored().Keys)
    ensures "hits" in Aggregation.Aggregate(Stored(), [1000, 2000]).counters
    ensures Aggregation.Aggregate(Stored(), [1000, 2000]).counters["hits"] == 3.0
    ensures "latency" in Aggregation.Aggregate(Stored(), [1000, 2000]).timers
    ensures Aggregation.Aggregate(Stored(), [1000, 2000]).timers["latency"]
      == TimerEntry([5.0, 10.0], Some(TimerStats(2, 5.0, 10.0, 7.5, 6.25)))
    ensures "q" in Aggregation.Aggregate(Stored(), [1000, 2000]).gauges
    ensures Aggregation.Aggregate(Stored(), [1000, 2000]).gauges["q"] == [3.0]
  {
    AggregateCounters();
    AggregateTimers();
    AggregateGauges();
  }

  /** Reading the listing gives the two snapshots in flush order. */
  lemma ReadInOrder()
    ensures Enumerates([1000, 2000], Stored().Keys)
    ensures Aggregation.ReadAll(Stored(), [1000, 2000]) == [First(), Second()]
  {
    SweepKeepsBoth();
  }

  lemma AggregateCounters()
    ensures Enumerates([1000, 2000], Stored().Keys)
    ensures "hits" in Aggregation.Aggregate(Stored(), [1000, 2000]).counters
    ensures Aggregation.Aggregate(Stored(), [1000, 2000]).counters["hits"] == 3.0
  {
    ReadInOrder();
    assert "hits" in Stored()[1000].counters;
    ScenarioCounters(CounterMaps([First(), Second()]));
  }

  lemma AggregateTimers()
    ensures Enumerates([1000, 2000], Stored().Keys)
    ensures "latency" in Aggregation.Aggregate(Stored(), [1000, 2000]).timers
    ensures Aggregation.Aggregate(Stored(), [1000, 2000]).timers["latency"]
      == TimerEntry([5.0, 10.0], Some(TimerStats(2, 5.0, 10.0, 7.5, 6.25)))
  {
    ReadInOrder();
    assert "latency" in Stored()[2000].timers;
    ScenarioTimers(TimerMaps([First(), Second()]));
    LatencyStats();
  }

  lemma AggregateGauges()
    ensures Enumerates([1000, 2000], Stored().Keys)
    ensures "q" in Aggregation.Aggregate(Stored(), [1000, 2000]).gauges
    ensures Aggregation.Aggregate(Stored(), [1000, 2000]).gauges["q"] == [3.0]
  {
    ReadInOrder();
    assert "q" in Stored()[2000].gauges;
    ScenarioGauges(GaugeMaps([First(), Second()]));
  }

  lemma ScenarioCounters(maps: seq<map<string, real>>)
    requires maps == [map["hits" := 1.0], map["hits" := 2.0]]
    ensures StatsMath.Sum(Occurrences(maps, "hits")) == 3.0
  {
    assert maps[..1][..0] == [];
    var values: seq<real> := [1.0, 2.0];
    assert Occurrences(maps, "hits") == values;
    assert values[..1][..0] == [];
  }

  lemma ScenarioTimers(maps: seq<map<string, seq<real>>>)
    requires maps == [map[], map["latency" := [5.0, 10.0]]]
    ensures Flatten(Occurrences(maps, "latency")) == [5.0, 10.0]
  {
    assert maps[..1][..0] == [];
    var lists: seq<seq<real>> := [[5.0, 10.0]];
    assert Occurrences(maps, "latency") == lists;
    assert lists[..0] == [];
  }

  lemma ScenarioGauges(maps: seq<map<string, real>>)
    requires maps == [map[], map["q" := 3.0]]
    ensures Occurrences(maps, "q") == [3.0]
  {
    assert maps[..1][..0] == [];
  }

  /** The statistics block of the samples 5, 10. */
  lemma LatencyStats()
    ensures Timers.ComputeStats([5.0, 10.0]) == TimerStats(2, 5.0, 10.0, 7.5, 6.25)
  {
    var s1: seq<real> := [5.0];
    var s2: seq<real> := [5.0, 10.0];
    assert s1[..0] == [] && s2[..1] == s1;
    assert StatsMath.Sum(s2) == 15.0;
    assert StatsMath.Mean(s2) == 7.5;
    assert StatsMath.SquaredDeviations(s1, 7.5) == 6.25;
    assert StatsMath.SquaredDeviations(s2, 7.5) == 12.5;
    var st := Timers.ComputeStats(s2);
    assert st.min == 5.0 && st.max == 10.0;
  }
}
