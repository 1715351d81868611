/**
  The retention sweep (`cleanup` in backends/file.js). The raw folder is
  modelled as a map from millisecond timestamp to snapshot; the directory
  listing is the order in which the sweep visits the names.
*/
module Retention {
  import opened Metrics

  /** The sweep's test: with `oldest = now - retention`, a stored snapshot is
      deleted when `oldest >= t`. A snapshot exactly at the cutoff goes. */
  predicate Expired(t: int, now: int, retention: int)
  {
    now - retention >= t
  }

  /** The raw folder after the sweep: exactly the snapshots strictly newer
      than the cutoff, unchanged. */
  function Sweep(raw: map<int, Snapshot>, now: int, retention: int): (r: map<int, Snapshot>)
    ensures forall t :: t in r <==> t in raw && t > now - retention
    ensures forall t :: t in r ==> r[t] == raw[t]
  {
    map t | t in raw && !Expired(t, now, retention) :: raw[t]
  }

  /** The sweep as the source runs it: the listing is visited in order and
      each expired name is deleted. The outcome is `Sweep` whatever the
      order of the listing, since each deletion depends only on its own
      timestamp. */
  method Cleanup(raw: map<int, Snapshot>, now: int, retention: int, listing: seq<int>)
    returns (swept: map<int, Snapshot>)
    requires Enumerates(listing, raw.Keys)
    ensures swept == Sweep(raw, now, retention)
    ensures forall t :: t in raw ==> (t in swept <==> t > now - retention)
  {
    var oldest := now - retention;
    swept := raw;
    var index := 0;
    while index < |listing|
      invariant 0 <= index <= |listing|
      invariant swept.Keys <= raw.Keys
      invariant forall t :: t in swept ==> swept[t] == raw[t]
      invariant forall t :: t in raw ==> (t in swept <==> !(t in listing[..index] && oldest >= t))
    {
      var current := listing[index];
      if oldest >= current {
        swept := swept - {current};
      }
      assert listing[..index + 1] == listing[..index] + [current];
      index := index + 1;
    }
    assert listing[..index] == listing;
  }
}
