/**
  The records the file backend reads and writes. A `Snapshot` is what one
  flush hands the backend (and what one raw file holds): counters and gauges
  map a metric name to one value, timers map a name to the list of samples
  seen in that flush. The `AggregateRecord` is what the aggregation writes
  to its three output files.

  The per-name views `Names` and `Occurrences` are the reference the three
  reductions are proved against: they look at a sequence of name-keyed maps
  (one per snapshot, in reading order) without any running state.
*/
module Metrics {
  import opened Seqs

  datatype Option<T> = None | Some(value: T)

  datatype Snapshot = Snapshot(
    counters: map<string, real>,
    timers: map<string, seq<real>>,
    gauges: map<string, real>)

  /** The `stats` block written next to a timer's sample list. The field the
      source calls `stdev` is kept under that name. */
  datatype TimerStats = TimerStats(count: nat, min: real, max: real, mean: real, stdev: real)

  /** One timer in the aggregate output: all samples, and the statistics
      when there is at least one sample. */
  datatype TimerEntry = TimerEntry(data: seq<real>, stats: Option<TimerStats>)

  datatype AggregateRecord = AggregateRecord(
    counters: map<string, real>,
    timers: map<string, TimerEntry>,
    gauges: map<string, seq<real>>)

  /** The `counters` field of each snapshot, in order. */
  function CounterMaps(stats: seq<Snapshot>): (r: seq<map<string, real>>)
    ensures |r| == |stats|
    ensures forall i :: 0 <= i < |stats| ==> r[i] == stats[i].counters
  {
    seq(|stats|, i requires 0 <= i < |stats| => stats[i].counters)
  }

  /** The `timers` field of each snapshot, in order. */
  function TimerMaps(stats: seq<Snapshot>): (r: seq<map<string, seq<real>>>)
    ensures |r| == |stats|
    ensures forall i :: 0 <= i < |stats| ==> r[i] == stats[i].timers
  {
    seq(|stats|, i requires 0 <= i < |stats| => stats[i].timers)
  }

  /** The `gauges` field of each snapshot, in order. */
  function GaugeMaps(stats: seq<Snapshot>): (r: seq<map<string, real>>)
    ensures |r| == |stats|
    ensures forall i :: 0 <= i < |stats| ==> r[i] == stats[i].gauges
  {
    seq(|stats|, i requires 0 <= i < |stats| => stats[i].gauges)
  }

  /** A directory listing of `keys`: every key exactly once, in some order. */
  predicate Enumerates(listing: seq<int>, keys: set<int>)
  {
    && (forall i, j :: 0 <= i < j < |listing| ==> listing[i] != listing[j])
    && (forall i :: 0 <= i < |listing| ==> listing[i] in keys)
    && (forall t :: t in keys ==> t in listing)
  }

  /** Every name that appears in at least one of the maps. */
  function Names<V>(maps: seq<map<string, V>>): set<string>
  {
    if |maps| == 0 then {} else Names(maps[..|maps| - 1]) + maps[|maps| - 1].Keys
  }

  /** A name is among `Names(maps)` exactly when some map contains it. */
  lemma {:induction false} NamesMembership<V>(maps: seq<map<string, V>>, key: string)
    ensures key in Names(maps) <==> exists i :: 0 <= i < |maps| && key in maps[i]
  {
    if |maps| > 0 {
      var prefix := maps[..|maps| - 1];
      NamesMembership(prefix, key);
      assert forall i :: 0 <= i < |prefix| ==> prefix[i] == maps[i];
    }
  }

  /** The values of `key`, in map order, taken from the maps that contain it
      and skipping the others. */
  function Occurrences<V>(maps: seq<map<string, V>>, key: string): (r: seq<V>)
    ensures |r| <= |maps|
  {
    if |maps| == 0 then []
    else
      var last := maps[|maps| - 1];
      Occurrences(maps[..|maps| - 1], key) + (if key in last then [last[key]] else [])
  }

  /** A name has at least one value exactly when some map contains it. */
  lemma {:induction false} OccurrencesNonEmpty<V>(maps: seq<map<string, V>>, key: string)
    ensures |Occurrences(maps, key)| > 0 <==> key in Names(maps)
  {
    if |maps| > 0 {
      OccurrencesNonEmpty(maps[..|maps| - 1], key);
    }
  }

  /** Reading two runs of maps one after the other gives the values of the
      first run followed by those of the second. */
  lemma {:induction false} OccurrencesAppend<V>(a: seq<map<string, V>>, b: seq<map<string, V>>, key: string)
    ensures Occurrences(a + b, key) == Occurrences(a, key) + Occurrences(b, key)
    decreases |b|
  {
    if |b| == 0 {
      assert a + b == a;
    } else {
      var b' := b[..|b| - 1];
      assert (a + b)[..|a + b| - 1] == a + b';
      OccurrencesAppend(a, b', key);
    }
  }

  /** The value a map holds for the name is among the values read for it. */
  lemma OccurrencesInclude<V>(maps: seq<map<string, V>>, i: nat, key: string)
    requires i < |maps| && key in maps[i]
    ensures maps[i][key] in Occurrences(maps, key)
  {
    var upto := maps[..i + 1];
    assert maps == upto + maps[i + 1..];
    OccurrencesAppend(upto, maps[i + 1..], key);
    assert upto[..|upto| - 1] == maps[..i];
  }

  /** Permuting the maps permutes the values read for a name. */
  lemma {:induction false} OccurrencesPermutation<V>(a: seq<map<string, V>>, b: seq<map<string, V>>, key: string)
    requires multiset(a) == multiset(b)
    ensures multiset(Occurrences(a, key)) == multiset(Occurrences(b, key))
    decreases |a|
  {
    if |a| > 0 {
      var x := a[|a| - 1];
      var a' := a[..|a| - 1];
      var left, right := SplitAtLast(a, b);
      OccurrencesPermutation(a', left + right, key);
      assert a == a' + [x];
      OccurrencesAppend(a', [x], key);
      OccurrencesAppend(left + [x], right, key);
      OccurrencesAppend(left, [x], key);
      OccurrencesAppend(left, right, key);
      MultisetOfThree(Occurrences(a', key), Occurrences(left, key), Occurrences([x], key), Occurrences(right, key));
    }
  }

  /** Permuting the maps does not change the set of names. */
  lemma NamesPermutation<V>(a: seq<map<string, V>>, b: seq<map<string, V>>)
    requires multiset(a) == multiset(b)
    ensures Names(a) == Names(b)
  {
    forall key
      ensures key in Names(a) <==> key in Names(b)
    {
      OccurrencesPermutation(a, b, key);
      OccurrencesNonEmpty(a, key);
      OccurrencesNonEmpty(b, key);
    }
  }

  /** The positions of the maps that contain `key`. */
  function Carriers<V>(maps: seq<map<string, V>>, key: string): set<nat>
  {
    set i: nat | i < |maps| && key in maps[i]
  }

  /** One value per map that contains the name: no merging, no dropping. */
  lemma {:induction false} OccurrencesCount<V>(maps: seq<map<string, V>>, key: string)
    ensures |Occurrences(maps, key)| == |Carriers(maps, key)|
  {
    if |maps| > 0 {
      var n := |maps| - 1;
      var prefix := maps[..n];
      OccurrencesCount(prefix, key);
      if key in maps[n] {
        assert Carriers(maps, key) == Carriers(prefix, key) + {n};
      } else {
        assert Carriers(maps, key) == Carriers(prefix, key);
      }
    }
  }

  /** The concatenation of a list of lists, in order. */
  function Flatten(lists: seq<seq<real>>): (r: seq<real>)
  {
    if |lists| == 0 then [] else Flatten(lists[..|lists| - 1]) + lists[|lists| - 1]
  }
}
