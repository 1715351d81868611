/**
  The backend object of backends/file.js: the state the constructor sets up,
  what a flush does to the stored snapshots and to the aggregate, and what a
  status request reports. The raw folder is the map from millisecond
  timestamp to snapshot; the aggregate folder holds the last aggregate
  record, if any flush has produced one.
*/
module FileBackend {
  import opened Metrics
  import Folders
  import Retention
  import Aggregation

  /** Retention, in milliseconds, when the configuration gives none or 0. */
  const DefaultRetention: int := 30000

  /** The configuration fields the backend reads, with `fileDirectory`
      present; `Settings` below is the configuration that may lack it. */
  datatype Config = Config(fileDirectory: string, retention: Option<int>)

  datatype Backend = Backend(
    lastFlush: int,
    lastException: int,
    retention: int,
    rootFolder: string,
    rawFolder: string,
    aggregateFolder: string,
    ensuredFolders: seq<string>,
    raw: map<int, Snapshot>,
    aggregate: Option<AggregateRecord>)

  /** A path that names a directory, as the backend's folder names do. */
  predicate DirectoryPath(path: string)
  {
    |path| > 0 && path[|path| - 1] == '/'
  }

  /** For a directory path, the last directory `createFolder` ensures is the
      path itself. */
  lemma CreateFolderReachesDirectory(path: string)
    ensures DirectoryPath(path) ==> path in Folders.CreateFolder(path)
  {
    if DirectoryPath(path) {
      TrailingSlash(path);
      var paths := Folders.CreateFolder(path);
      assert paths[|paths| - 1] == path;
    }
  }

  /** A directory path holds a `/`, and its last one is its last character. */
  lemma TrailingSlash(path: string)
    requires DirectoryPath(path)
    ensures '/' in path
    ensures path[..Folders.LastIndexOf(path, '/') + 1] == path
  {
    assert path[|path| - 1] == '/';
    assert path[..|path|] == path;
  }

  /** The paths of each plan in turn: exactly the paths some plan holds. */
  function Join(plans: seq<seq<string>>): (paths: seq<string>)
    ensures forall j, p :: 0 <= j < |plans| && p in plans[j] ==> p in paths
    ensures forall p :: p in paths ==> exists j :: 0 <= j < |plans| && p in plans[j]
    decreases |plans|
  {
    if |plans| == 0 then []
    else
      var rest := Join(plans[1..]);
      JoinStep(plans, rest);
      plans[0] + rest
  }

  /** The first plan's paths and those of the rest combine. */
  lemma JoinStep(plans: seq<seq<string>>, rest: seq<string>)
    requires |plans| > 0
    requires forall j, p :: 0 <= j < |plans[1..]| && p in plans[1..][j] ==> p in rest
    requires forall p :: p in rest ==> exists j :: 0 <= j < |plans[1..]| && p in plans[1..][j]
    ensures forall j, p :: 0 <= j < |plans| && p in plans[j] ==> p in plans[0] + rest
    ensures forall p :: p in plans[0] + rest ==> exists j :: 0 <= j < |plans| && p in plans[j]
  {
    forall j, p | 1 <= j < |plans| && p in plans[j]
      ensures p in plans[0] + rest
    {
      assert plans[j] == plans[1..][j - 1];
    }
    forall p | p in rest
      ensures exists j :: 0 <= j < |plans| && p in plans[j]
    {
      var j :| 0 <= j < |plans[1..]| && p in plans[1..][j];
      assert plans[1..][j] == plans[j + 1];
    }
  }

  /** The directories ensured by `createFolder` on each destination in turn:
      exactly the paths `createFolder` ensures for one of the destinations,
      intermediate directories included. All of them name directories, and
      every destination that names a directory is among them. */
  function EnsureFolders(destinations: seq<string>): (paths: seq<string>)
    ensures forall j, p :: 0 <= j < |destinations| && p in Folders.CreateFolder(destinations[j]) ==> p in paths
    ensures forall p :: p in paths ==> exists j :: 0 <= j < |destinations| && p in Folders.CreateFolder(destinations[j])
    ensures forall i :: 0 <= i < |paths| ==> DirectoryPath(paths[i])
    ensures forall j :: 0 <= j < |destinations| && DirectoryPath(destinations[j]) ==> destinations[j] in paths
  {
    var plans := seq(|destinations|, j requires 0 <= j < |destinations| => Folders.CreateFolder(destinations[j]));
    var paths := Join(plans);
    EnsureFoldersFacts(destinations, plans, paths);
    paths
  }

  /** Every planned path names a directory, and so does every destination
      that names a directory. */
  lemma EnsureFoldersFacts(destinations: seq<string>, plans: seq<seq<string>>, paths: seq<string>)
    requires |plans| == |destinations|
    requires forall j :: 0 <= j < |destinations| ==> plans[j] == Folders.CreateFolder(destinations[j])
    requires forall j, p :: 0 <= j < |plans| && p in plans[j] ==> p in paths
    requires forall p :: p in paths ==> exists j :: 0 <= j < |plans| && p in plans[j]
    ensures forall i :: 0 <= i < |paths| ==> DirectoryPath(paths[i])
    ensures forall j :: 0 <= j < |destinations| && DirectoryPath(destinations[j]) ==> destinations[j] in paths
  {
    forall i | 0 <= i < |paths|
      ensures DirectoryPath(paths[i])
    {
      assert paths[i] in paths;
      PlannedDirectory(destinations, plans, paths[i]);
    }
    forall j | 0 <= j < |destinations| && DirectoryPath(destinations[j])
      ensures destinations[j] in paths
    {
      CreateFolderReachesDirectory(destinations[j]);
      assert destinations[j] in plans[j];
    }
  }

  /** A path some plan holds names a directory. */
  lemma PlannedDirectory(destinations: seq<string>, plans: seq<seq<string>>, p: string)
    requires |plans| == |destinations|
    requires forall j :: 0 <= j < |destinations| ==> plans[j] == Folders.CreateFolder(destinations[j])
    requires exists j :: 0 <= j < |plans| && p in plans[j]
    ensures DirectoryPath(p)
  {
    var j :| 0 <= j < |plans| && p in plans[j];
    var paths := Folders.CreateFolder(destinations[j]);
    var k :| 0 <= k < |paths| && paths[k] == p;
  }

  /** The constructor. Both status fields start at the startup time; the
      retention is the configured one unless that is absent or 0, which are
      both falsy and give the default; the raw and aggregate folders sit
      under the root; the ensured directories are exactly those
      `createFolder` ensures for the root, the raw folder and the aggregate
      folder, intermediate ones included, so the two folders are ensured,
      as is the root itself when it names a directory. The raw folder keeps whatever an earlier run left in it.
      Aggregate files an earlier run left behind are not read by anything
      and are overwritten by the first flush, so the record starts absent. */
  function New(startupTime: int, config: Config, stored: map<int, Snapshot>): (b: Backend)
    ensures b.lastFlush == startupTime && b.lastException == startupTime
    ensures b.retention != 0
    ensures config.retention.Some? && config.retention.value != 0 ==> b.retention == config.retention.value
    ensures config.retention.None? || config.retention.value == 0 ==> b.retention == DefaultRetention
    ensures b.rootFolder == config.fileDirectory
    ensures b.rawFolder == config.fileDirectory + "raw/"
    ensures b.aggregateFolder == config.fileDirectory + "aggregate/"
    ensures forall p :: p in b.ensuredFolders <==>
      p in Folders.CreateFolder(config.fileDirectory)
      || p in Folders.CreateFolder(b.rawFolder)
      || p in Folders.CreateFolder(b.aggregateFolder)
    ensures b.rawFolder in b.ensuredFolders && b.aggregateFolder in b.ensuredFolders
    ensures DirectoryPath(config.fileDirectory) ==> config.fileDirectory in b.ensuredFolders
    ensures forall i :: 0 <= i < |b.ensuredFolders| ==> DirectoryPath(b.ensuredFolders[i])
    ensures b.raw == stored && b.aggregate.None?
  {
    var root := config.fileDirectory;
    var rawFolder := root + "raw/";
    var aggregateFolder := root + "aggregate/";
    var retention := if config.retention.Some? && config.retention.value != 0 then config.retention.value
                     else DefaultRetention;
    var ensured := EnsureFolders([root, rawFolder, aggregateFolder]);
    ThreeFolders(root, rawFolder, aggregateFolder, ensured);
    Backend(startupTime, startupTime, retention, root, rawFolder, aggregateFolder,
            ensured, stored, None)
  }

  /** The directories ensured for the root, the raw folder and the aggregate
      folder, one destination at a time. */
  lemma ThreeFolders(root: string, rawFolder: string, aggregateFolder: string, ensured: seq<string>)
    requires rawFolder == root + "raw/" && aggregateFolder == root + "aggregate/"
    requires ensured == EnsureFolders([root, rawFolder, aggregateFolder])
    ensures forall p :: p in ensured <==>
      p in Folders.CreateFolder(root) || p in Folders.CreateFolder(rawFolder) || p in Folders.CreateFolder(aggregateFolder)
    ensures rawFolder in ensured && aggregateFolder in ensured
    ensures DirectoryPath(root) ==> root in ensured
    ensures forall i :: 0 <= i < |ensured| ==> DirectoryPath(ensured[i])
  {
    var destinations := [root, rawFolder, aggregateFolder];
    assert DirectoryPath(destinations[1]) && DirectoryPath(destinations[2]);
    assert destinations[0] == root && destinations[1] == rawFolder && destinations[2] == aggregateFolder;
    forall p
      ensures p in ensured <==>
        p in Folders.CreateFolder(root) || p in Folders.CreateFolder(rawFolder)
        || p in Folders.CreateFolder(aggregateFolder)
    {
      if p in ensured {
        var j :| 0 <= j < |destinations| && p in Folders.CreateFolder(destinations[j]);
        OneOfThree(destinations, root, rawFolder, aggregateFolder, j);
      }
      if p in Folders.CreateFolder(destinations[0]) || p in Folders.CreateFolder(destinations[1])
        || p in Folders.CreateFolder(destinations[2]) {
        assert p in ensured;
      }
    }
  }

  /** An entry of a three-entry list is one of the three. */
  lemma OneOfThree(destinations: seq<string>, a: string, b: string, c: string, j: int)
    requires destinations == [a, b, c] && 0 <= j < |destinations|
    ensures destinations[j] == a || destinations[j] == b || destinations[j] == c
  {
  }

  /** The configuration as the constructor receives it, where any field may
      be missing. */
  datatype Settings = Settings(fileDirectory: Option<string>, retention: Option<int>)

  /** The constructor on a configuration that may lack `fileDirectory`.
      Without one the root is `undefined`, and the first `createFolder` call
      throws when it takes the folder part, so no backend comes into being.
      With one it is `New`. */
  function Construct(startupTime: int, settings: Settings, stored: map<int, Snapshot>): (r: Option<Backend>)
    ensures r.None? <==> settings.fileDirectory.None?
    ensures r.Some? ==> r.value == New(startupTime, Config(settings.fileDirectory.value, settings.retention), stored)
    ensures r.Some? ==> r.value.rootFolder == settings.fileDirectory.value && r.value.lastFlush == startupTime
  {
    match settings.fileDirectory
    case None => None
    case Some(root) => Some(New(startupTime, Config(root, settings.retention), stored))
  }

  /** The raw folder once the snapshot is written under `now` and the sweep
      has run. */
  function Retained(b: Backend, now: int, metrics: Snapshot): map<int, Snapshot>
  {
    Retention.Sweep(b.raw[now := metrics], now, b.retention)
  }

  /** `flush`: the snapshot is written under `timestamp * 1000`, replacing
      any snapshot already stored there; the sweep keeps exactly the
      snapshots newer than the cutoff; the aggregate is rebuilt from what is
      left, read in the order of `listing`. The status fields, the
      retention and the folders do not change. The new snapshot survives
      exactly when the retention is positive. */
  function Flush(b: Backend, timestamp: int, metrics: Snapshot, listing: seq<int>): (r: Backend)
    requires Enumerates(listing, Retained(b, timestamp * 1000, metrics).Keys)
    ensures r.lastFlush == b.lastFlush && r.lastException == b.lastException
    ensures r.retention == b.retention
    ensures r.rootFolder == b.rootFolder && r.rawFolder == b.rawFolder
    ensures r.aggregateFolder == b.aggregateFolder && r.ensuredFolders == b.ensuredFolders
    ensures forall t :: t in r.raw <==> (t in b.raw || t == timestamp * 1000) && t > timestamp * 1000 - b.retention
    ensures forall t :: t in r.raw ==> r.raw[t] == if t == timestamp * 1000 then metrics else b.raw[t]
    ensures timestamp * 1000 in r.raw <==> b.retention > 0
    ensures r.aggregate.Some?
    ensures forall k :: k in r.aggregate.value.counters <==> exists t :: t in r.raw && k in r.raw[t].counters
    ensures forall k :: k in r.aggregate.value.timers <==> exists t :: t in r.raw && k in r.raw[t].timers
    ensures forall k :: k in r.aggregate.value.gauges <==> exists t :: t in r.raw && k in r.raw[t].gauges
  {
    var now := timestamp * 1000;
    var swept := Retained(b, now, metrics);
    b.(raw := swept, aggregate := Some(Aggregation.Aggregate(swept, listing)))
  }

  /** With a positive retention the snapshot just written takes part in the
      aggregate that follows: each of its names is there, and each of its
      gauge values is in that gauge's list. */
  lemma FlushIncludesSnapshot(b: Backend, timestamp: int, metrics: Snapshot, listing: seq<int>)
    requires Enumerates(listing, Retained(b, timestamp * 1000, metrics).Keys)
    requires b.retention > 0
    ensures Flush(b, timestamp, metrics, listing).raw[timestamp * 1000] == metrics
    ensures forall k :: k in metrics.counters ==> k in Flush(b, timestamp, metrics, listing).aggregate.value.counters
    ensures forall k :: k in metrics.timers ==> k in Flush(b, timestamp, metrics, listing).aggregate.value.timers
    ensures forall k :: k in metrics.gauges ==>
      k in Flush(b, timestamp, metrics, listing).aggregate.value.gauges
      && metrics.gauges[k] in Flush(b, timestamp, metrics, listing).aggregate.value.gauges[k]
  {
    var now := timestamp * 1000;
    var r := Flush(b, timestamp, metrics, listing);
    var swept := r.raw;
    assert now in swept && swept[now] == metrics;
    assert now in listing;
    var i :| 0 <= i < |listing| && listing[i] == now;
    var stats := Aggregation.ReadAll(swept, listing);
    var maps := GaugeMaps(stats);
    assert maps[i] == metrics.gauges;
    forall k | k in metrics.gauges
      ensures k in r.aggregate.value.gauges && metrics.gauges[k] in r.aggregate.value.gauges[k]
    {
      OccurrencesInclude(maps, i, k);
    }
  }

  /** One reported status value: no error, the backend's name, the field's
      name and its value. */
  datatype StatusLine = StatusLine(error: Option<string>, backend: string, name: string, value: int)

  /** `status`: one line for `lastFlush`, then one for `lastException`,
      each without an error and under the backend name `file`. */
  function Status(b: Backend): (lines: seq<StatusLine>)
    ensures |lines| == 2
    ensures forall i :: 0 <= i < |lines| ==> lines[i].error.None? && lines[i].backend == "file"
    ensures lines[0].name == "lastFlush" && lines[0].value == b.lastFlush
    ensures lines[1].name == "lastException" && lines[1].value == b.lastException
  {
    [StatusLine(None, "file", "lastFlush", b.lastFlush),
     StatusLine(None, "file", "lastException", b.lastException)]
  }

  /** One flush event: its timestamp in seconds, its metrics, and the order
      in which the aggregation pass finds the raw folder's names. */
  datatype FlushCall = FlushCall(timestamp: int, metrics: Snapshot, listing: seq<int>)

  /** The listing of a flush event names exactly the snapshots it retains. */
  predicate Accepts(b: Backend, call: FlushCall)
  {
    Enumerates(call.listing, Retained(b, call.timestamp * 1000, call.metrics).Keys)
  }

  /** Every flush event of the run is one the backend can serve. */
  predicate ValidRun(b: Backend, calls: seq<FlushCall>)
    decreases |calls|
  {
    |calls| == 0
    || (Accepts(b, calls[0])
        && ValidRun(Flush(b, calls[0].timestamp, calls[0].metrics, calls[0].listing), calls[1..]))
  }

  /** A run of flush events, one after the other. Whatever they hold, the
      status fields, the retention and the folders stay as they were, and
      after at least one flush there is an aggregate. */
  function Run(b: Backend, calls: seq<FlushCall>): (r: Backend)
    requires ValidRun(b, calls)
    ensures r.lastFlush == b.lastFlush && r.lastException == b.lastException
    ensures r.retention == b.retention
    ensures r.rootFolder == b.rootFolder && r.rawFolder == b.rawFolder
    ensures r.aggregateFolder == b.aggregateFolder && r.ensuredFolders == b.ensuredFolders
    ensures |calls| > 0 ==> r.aggregate.Some?
    decreases |calls|
  {
    if |calls| == 0 then b
    else Run(Flush(b, calls[0].timestamp, calls[0].metrics, calls[0].listing), calls[1..])
  }

  /** However many flushes follow the constructor, a status request reports
      the startup time for both fields: neither is ever updated. */
  lemma StatusReportsStartup(startupTime: int, config: Config, stored: map<int, Snapshot>, calls: seq<FlushCall>)
    requires ValidRun(New(startupTime, config, stored), calls)
    ensures Status(Run(New(startupTime, config, stored), calls))
      == [StatusLine(None, "file", "lastFlush", startupTime), StatusLine(None, "file", "lastException", startupTime)]
  {
  }
}
