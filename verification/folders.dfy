/**
  `createFolder` in backends/file.js: the directories the backend makes sure
  exist before it writes under `destination`. The folder part is everything
  before the last `/`; it is split on `/` and the parts are joined back one
  at a time, each time followed by a `/`, and every partial path is checked
  and, if missing, created. The model returns those partial paths in order;
  the existence checks and the directory creation are left to the file
  system.
*/
module Folders {

  /** Position of the last `c` in `s`, or -1 when there is none. */
  function LastIndexOf(s: string, c: char): (r: int)
    ensures -1 <= r < |s|
    ensures r >= 0 ==> s[r] == c
    ensures forall j :: r < j < |s| ==> s[j] != c
  {
    if |s| == 0 then -1
    else if s[|s| - 1] == c then |s| - 1
    else LastIndexOf(s[..|s| - 1], c)
  }

  /** Position of the first `c` in `s`, or -1 when there is none. */
  function IndexOf(s: string, c: char): (r: int)
    ensures -1 <= r < |s|
    ensures r >= 0 ==> s[r] == c
    ensures forall j :: 0 <= j < |s| && (r < 0 || j < r) ==> s[j] != c
  {
    if |s| == 0 then -1
    else if s[0] == c then 0
    else
      var rest := IndexOf(s[1..], c);
      if rest < 0 then -1 else rest + 1
  }

  /** Number of occurrences of `c` in `s`. */
  function CountChar(s: string, c: char): nat
  {
    if |s| == 0 then 0 else (if s[0] == c then 1 else 0) + CountChar(s[1..], c)
  }

  lemma {:induction false} CountCharAppend(a: string, b: string, c: char)
    ensures CountChar(a + b, c) == CountChar(a, c) + CountChar(b, c)
  {
    if |a| > 0 {
      assert (a + b)[1..] == a[1..] + b;
      CountCharAppend(a[1..], b, c);
    } else {
      assert a + b == b;
    }
  }

  lemma {:induction false} CountCharAbsent(s: string, c: char)
    requires forall j :: 0 <= j < |s| ==> s[j] != c
    ensures CountChar(s, c) == 0
  {
    if |s| > 0 {
      CountCharAbsent(s[1..], c);
    }
  }

  /** Each part followed by `sep`, all concatenated. */
  function Terminated(parts: seq<string>, sep: char): string
  {
    if |parts| == 0 then "" else parts[0] + [sep] + Terminated(parts[1..], sep)
  }

  lemma {:induction false} TerminatedAppend(a: seq<string>, b: seq<string>, sep: char)
    ensures Terminated(a + b, sep) == Terminated(a, sep) + Terminated(b, sep)
  {
    if |a| > 0 {
      assert (a + b)[1..] == a[1..] + b;
      TerminatedAppend(a[1..], b, sep);
    } else {
      assert a + b == b;
    }
  }

  /** JavaScript's `split` with a one-character separator: the pieces hold no
      separator, there is one more piece than separators, and writing each
      piece followed by the separator gives back the string plus one final
      separator. The empty string splits into one empty piece. */
  function Split(s: string, sep: char): (parts: seq<string>)
    ensures |parts| == CountChar(s, sep) + 1
    ensures forall i :: 0 <= i < |parts| ==> sep !in parts[i]
    ensures Terminated(parts, sep) == s + [sep]
    decreases |s|
  {
    var i := IndexOf(s, sep);
    if i < 0 then
      CountCharAbsent(s, sep);
      [s]
    else
      var rest := Split(s[i + 1..], sep);
      SplitStep(s, sep, i, rest);
      [s[..i]] + rest
  }

  /** The piece before the first separator, followed by the pieces of what
      comes after it, splits the whole string. */
  lemma SplitStep(s: string, sep: char, i: nat, rest: seq<string>)
    requires i < |s| && s[i] == sep
    requires forall j :: 0 <= j < i ==> s[j] != sep
    requires |rest| == CountChar(s[i + 1..], sep) + 1
    requires forall k :: 0 <= k < |rest| ==> sep !in rest[k]
    requires Terminated(rest, sep) == s[i + 1..] + [sep]
    ensures |[s[..i]] + rest| == CountChar(s, sep) + 1
    ensures forall k :: 0 <= k < |[s[..i]] + rest| ==> sep !in ([s[..i]] + rest)[k]
    ensures Terminated([s[..i]] + rest, sep) == s + [sep]
  {
    SplitStepCount(s, sep, i);
    var parts := [s[..i]] + rest;
    assert parts[1..] == rest;
    assert s == s[..i] + [sep] + s[i + 1..];
    assert Terminated(parts, sep) == s[..i] + [sep] + (s[i + 1..] + [sep]);
  }

  /** A string whose first separator is at `i` holds one more separator
      than what follows it. */
  lemma SplitStepCount(s: string, sep: char, i: nat)
    requires i < |s| && s[i] == sep
    requires forall j :: 0 <= j < i ==> s[j] != sep
    ensures CountChar(s, sep) == CountChar(s[i + 1..], sep) + 1
  {
    var head, tail := s[..i], s[i + 1..];
    assert s == head + ([sep] + tail);
    assert CountChar([sep], sep) == 1 by { assert [sep][1..] == []; }
    assert forall j :: 0 <= j < |head| ==> head[j] == s[j];
    CountCharAbsent(head, sep);
    CountCharAppend(head, [sep] + tail, sep);
    CountCharAppend([sep], tail, sep);
  }

  /** The source loop: starting from `path`, each part extends the path by
      itself and a `/`, and each extended path is one to ensure. The i-th
      result is `path` followed by the first i + 1 parts, each terminated. */
  function Accumulate(path: string, parts: seq<string>): (paths: seq<string>)
    ensures |paths| == |parts|
    ensures forall i :: 0 <= i < |parts| ==> paths[i] == path + Terminated(parts[..i + 1], '/')
    decreases |parts|
  {
    if |parts| == 0 then []
    else
      var next := path + parts[0] + "/";
      var rest := Accumulate(next, parts[1..]);
      var paths := [next] + rest;
      forall i | 0 <= i < |parts|
        ensures paths[i] == path + Terminated(parts[..i + 1], '/')
      {
        var init := parts[..i + 1];
        assert init[0] == parts[0];
        assert init[1..] == parts[1..][..i];
        if i > 0 {
          assert paths[i] == rest[i - 1];
        }
      }
      paths
  }

  /** The folder part of `destination`: everything before its last `/`. With
      no `/` at all, `lastIndexOf` gives -1 and `substring(0, -1)` clamps to
      the empty string. `FolderPartLastSlash` adds that no `/` follows. */
  function FolderPart(destination: string): (folder: string)
    ensures folder <= destination
    ensures '/' in destination ==> |folder| < |destination| && destination[|folder|] == '/'
    ensures '/' !in destination ==> folder == ""
  {
    var last := LastIndexOf(destination, '/');
    if last < 0 then "" else destination[..last]
  }

  /** The `/` that ends the folder part is the destination's last one. */
  lemma FolderPartLastSlash(destination: string)
    requires '/' in destination
    ensures forall j :: |FolderPart(destination)| < j < |destination| ==> destination[j] != '/'
  {
  }

  /** The directories `createFolder(destination)` ensures, in order. There is
      one per `/`-separated segment of the folder part; each ends in `/` and
      strictly extends the one before. When `destination` contains a `/`,
      every path is a prefix of it and the last one is `destination` up to
      and including its last `/`. Without any `/`, the folder part is empty
      and the only path is the root, `/`. */
  function CreateFolder(destination: string): (paths: seq<string>)
    ensures |paths| == CountChar(FolderPart(destination), '/') + 1
    ensures forall i :: 0 <= i < |paths| ==> |paths[i]| > 0 && paths[i][|paths[i]| - 1] == '/'
    ensures forall i :: 0 <= i < |paths| - 1 ==> paths[i] < paths[i + 1]
    ensures '/' in destination ==> forall i :: 0 <= i < |paths| ==> paths[i] <= destination
    ensures '/' in destination ==> paths[|paths| - 1] == destination[..LastIndexOf(destination, '/') + 1]
    ensures '/' !in destination ==> paths == ["/"]
  {
    var folder := FolderPart(destination);
    var parts := Split(folder, '/');
    var paths := Accumulate("", parts);
    CreateFolderFacts(destination, folder, parts, paths);
    assert |parts| == CountChar(folder, '/') + 1;
    paths
  }

  lemma CreateFolderFacts(destination: string, folder: string, parts: seq<string>, paths: seq<string>)
    requires folder == FolderPart(destination)
    requires |parts| > 0 && Terminated(parts, '/') == folder + "/"
    requires |paths| == |parts|
    requires forall i :: 0 <= i < |parts| ==> paths[i] == "" + Terminated(parts[..i + 1], '/')
    ensures forall i :: 0 <= i < |paths| ==> |paths[i]| > 0 && paths[i][|paths[i]| - 1] == '/'
    ensures forall i :: 0 <= i < |paths| - 1 ==> paths[i] < paths[i + 1]
    ensures '/' in destination ==> forall i :: 0 <= i < |paths| ==> paths[i] <= destination
    ensures '/' in destination ==> paths[|paths| - 1] == destination[..LastIndexOf(destination, '/') + 1]
    ensures '/' !in destination ==> paths == ["/"]
  {
    forall i | 0 <= i < |parts|
      ensures paths[i] == Terminated(parts[..i + 1], '/')
    {
      assert "" + Terminated(parts[..i + 1], '/') == Terminated(parts[..i + 1], '/');
    }
    AllPathFacts(folder, parts, paths);
    if '/' in destination {
      SlashFacts(destination, folder, paths);
    } else {
      NoSlashFacts(destination, folder, parts, paths);
    }
  }

  /** Every path ends in `/`, is extended by the next, and is a prefix of
      the folder part followed by `/`, which is the last path. */
  lemma AllPathFacts(folder: string, parts: seq<string>, paths: seq<string>)
    requires |parts| > 0 && Terminated(parts, '/') == folder + "/"
    requires |paths| == |parts|
    requires forall i :: 0 <= i < |parts| ==> paths[i] == Terminated(parts[..i + 1], '/')
    ensures forall i :: 0 <= i < |paths| ==> |paths[i]| > 0 && paths[i][|paths[i]| - 1] == '/'
    ensures forall i :: 0 <= i < |paths| - 1 ==> paths[i] < paths[i + 1]
    ensures forall i :: 0 <= i < |paths| ==> paths[i] <= folder + "/"
    ensures paths[|paths| - 1] == folder + "/"
  {
    forall i | 0 <= i < |paths|
      ensures |paths[i]| > 0 && paths[i][|paths[i]| - 1] == '/'
      ensures paths[i] <= folder + "/"
      ensures i < |paths| - 1 ==> paths[i] < paths[i + 1]
    {
      PathFacts(folder, parts, paths, i);
    }
    assert parts[..|parts|] == parts;
  }

  /** With a `/` in the destination, the folder part followed by `/` is the
      destination up to its last `/`, so every path is a prefix of it. */
  lemma SlashFacts(destination: string, folder: string, paths: seq<string>)
    requires folder == FolderPart(destination) && '/' in destination
    requires |paths| > 0 && paths[|paths| - 1] == folder + "/"
    requires forall i :: 0 <= i < |paths| ==> paths[i] <= folder + "/"
    ensures forall i :: 0 <= i < |paths| ==> paths[i] <= destination
    ensures paths[|paths| - 1] == destination[..LastIndexOf(destination, '/') + 1]
  {
    var last := LastIndexOf(destination, '/');
    assert destination[..last + 1] == destination[..last] + "/";
    forall i | 0 <= i < |paths|
      ensures paths[i] <= destination
    {
      PrefixTransitive(paths[i], folder + "/", destination);
    }
  }

  lemma PrefixTransitive(a: string, b: string, c: string)
    requires a <= b && b <= c
    ensures a <= c
  {
    assert a == b[..|a|] && b == c[..|b|];
    assert c[..|a|] == c[..|b|][..|a|];
  }

  /** The i-th path ends in `/`, is a prefix of the whole, and is strictly
      extended by the next one. */
  lemma PathFacts(folder: string, parts: seq<string>, paths: seq<string>, i: nat)
    requires |parts| > 0 && Terminated(parts, '/') == folder + "/"
    requires |paths| == |parts|
    requires forall i :: 0 <= i < |parts| ==> paths[i] == Terminated(parts[..i + 1], '/')
    requires i < |paths|
    ensures |paths[i]| > 0 && paths[i][|paths[i]| - 1] == '/'
    ensures paths[i] <= folder + "/"
    ensures i < |paths| - 1 ==> paths[i] < paths[i + 1]
  {
    var init := parts[..i];
    assert parts[..i + 1] == init + [parts[i]];
    TerminatedAppend(init, [parts[i]], '/');
    assert Terminated([parts[i]], '/') == parts[i] + "/";
    assert parts == parts[..i + 1] + parts[i + 1..];
    TerminatedAppend(parts[..i + 1], parts[i + 1..], '/');
    if i < |paths| - 1 {
      assert parts[..i + 2] == parts[..i + 1] + [parts[i + 1]];
      TerminatedAppend(parts[..i + 1], [parts[i + 1]], '/');
      assert Terminated([parts[i + 1]], '/') == parts[i + 1] + "/";
    }
  }

  /** Without any `/` the folder part is empty and only the root remains. */
  lemma NoSlashFacts(destination: string, folder: string, parts: seq<string>, paths: seq<string>)
    requires folder == FolderPart(destination)
    requires '/' !in destination
    requires |parts| > 0 && Terminated(parts, '/') == folder + "/"
    requires |paths| == |parts|
    requires forall i :: 0 <= i < |parts| ==> paths[i] == Terminated(parts[..i + 1], '/')
    ensures paths == ["/"]
  {
    assert LastIndexOf(destination, '/') < 0;
    assert folder == "";
    assert |parts| == 1 by {
      assert |Terminated(parts, '/')| == 1;
      if |parts| > 1 {
        TerminatedLength(parts, '/');
      }
    }
    assert parts[..1] == parts;
    assert paths[0] == "/";
    assert paths == [paths[0]];
  }

  /** Every part contributes at least its separator. */
  lemma {:induction false} TerminatedLength(parts: seq<string>, sep: char)
    ensures |Terminated(parts, sep)| >= |parts|
  {
    if |parts| > 0 {
      TerminatedLength(parts[1..], sep);
    }
  }
}
