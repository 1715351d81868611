/**
  Gauge reduction of the aggregation pass (`processGauges` in
  backends/file.js): each gauge name keeps every value it had in every
  retained snapshot, in reading order. No value replaces another.
*/
module Gauges {
  import opened Metrics

  /** Folds one snapshot's gauges into the running output: the value is
      pushed onto the name's list, which starts empty for a new name. */
  function AddGauges(output: map<string, seq<real>>, gauges: map<string, real>): (r: map<string, seq<real>>)
    ensures r.Keys == output.Keys + gauges.Keys
    ensures forall k :: k in gauges ==> r[k] == (if k in output then output[k] else []) + [gauges[k]]
    ensures forall k :: k in output && k !in gauges ==> r[k] == output[k]
  {
    map k | k in output.Keys + gauges.Keys ::
      if k !in gauges then output[k]
      else (if k in output then output[k] else []) + [gauges[k]]
  }

  /** The running fold over the gauge maps, read in order: the names are
      those of every map, and each list holds that name's values in reading
      order, one per map that contains the name. */
  function CollectGauges(maps: seq<map<string, real>>): (r: map<string, seq<real>>)
    ensures r.Keys == Names(maps)
    ensures forall k :: k in r ==> r[k] == Occurrences(maps, k)
  {
    if |maps| == 0 then map[]
    else
      var prefix := maps[..|maps| - 1];
      var output := CollectGauges(prefix);
      CollectGaugesStep(prefix, maps[|maps| - 1], output);
      assert maps == prefix + [maps[|maps| - 1]];
      AddGauges(output, maps[|maps| - 1])
  }

  /** One more map extends the reference lists the way `AddGauges` extends
      the running output. */
  lemma CollectGaugesStep(prefix: seq<map<string, real>>, last: map<string, real>, output: map<string, seq<real>>)
    requires output.Keys == Names(prefix)
    requires forall k :: k in output ==> output[k] == Occurrences(prefix, k)
    ensures AddGauges(output, last).Keys == Names(prefix + [last])
    ensures forall k :: k in AddGauges(output, last) ==> AddGauges(output, last)[k] == Occurrences(prefix + [last], k)
  {
    var maps := prefix + [last];
    assert maps[..|prefix|] == prefix;
    var r := AddGauges(output, last);
    forall k | k in r
      ensures r[k] == Occurrences(maps, k)
    {
      OccurrencesNonEmpty(prefix, k);
    }
  }

  /** `processGauges`: the gauges of the snapshots, listed per name. */
  function ProcessGauges(stats: seq<Snapshot>): (r: map<string, seq<real>>)
    ensures r.Keys == Names(GaugeMaps(stats))
    ensures forall k :: k in r ==> r[k] == Occurrences(GaugeMaps(stats), k)
  {
    CollectGauges(GaugeMaps(stats))
  }

  /** Each gauge list has exactly one entry per snapshot whose gauges name
      it: neither "latest value wins" nor any de-duplication. */
  lemma GaugeListLength(stats: seq<Snapshot>, k: string)
    requires k in ProcessGauges(stats)
    ensures |ProcessGauges(stats)[k]| == |set i: nat | i < |stats| && k in stats[i].gauges|
  {
    var maps := GaugeMaps(stats);
    OccurrencesCount(maps, k);
    assert Carriers(maps, k) == set i: nat | i < |stats| && k in stats[i].gauges;
  }
}
