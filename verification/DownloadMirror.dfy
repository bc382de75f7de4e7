/** What the scheduled tasks of a download do to the disk, in whatever order they run. */
module DownloadMirror {
  import opened Connection
  import opened Trees
  import opened Wrappers
  import opened Counting
  import opened Plans
  import opened SyncUpload
  import opened SyncDownload

  /** A local file is taken for up to date when the remote stamp, which must be set, and size match. */
  predicate UpToDate(n: Option<Node>, c: Content) {
    n.Some? && n.value.File? && c.mtime != 0 && n.value.content.mtime == c.mtime && |n.value.content.data| == |c.data|
  }

  function Parent(x: Place): Place { if x == [] then [] else x[..|x| - 1] }

  /** A file comes out if its directory is there and no directory is in its place; otherwise the task fails. */
  function Store(t: Task, d: Disk): Disk
    requires t.Fetch?
  {
    if UpToDate(NodeAt(d, t.place), t.file.content) || !IsFolder(d, Parent(t.place)) || IsFolder(d, t.place) then d
    else d[t.place := File(t.file.content)]
  }

  function Perform(t: Task, d: Disk): Disk {
    match t
    case Remove(x) => RemoveAll(d, x)
    case Fetch(x, f, replace) => Store(t, if replace then RemoveAll(d, x) else d)
  }

  function RunAll(ts: seq<Task>, d: Disk): Disk {
    if ts == [] then d else RunAll(ts[1..], Perform(ts[0], d))
  }

  lemma PerformElsewhere(t: Task, d: Disk, x: Place)
    requires !(t.place <= x)
    ensures NodeAt(Perform(t, d), x) == NodeAt(d, x)
  {
  }

  /** What a task does depends on its own place and the directory above. */
  lemma PerformLocally(t: Task, d: Disk, e: Disk, x: Place)
    requires t.place <= x && NodeAt(d, x) == NodeAt(e, x) && NodeAt(d, t.place) == NodeAt(e, t.place)
    requires IsFolder(d, Parent(t.place)) == IsFolder(e, Parent(t.place))
    ensures NodeAt(Perform(t, d), x) == NodeAt(Perform(t, e), x)
  {
  }

  lemma ParentIsAbove(x: Place, y: Place)
    requires !(x <= y)
    ensures !(x <= Parent(y))
  {
    assert Parent(y) <= y;
  }

  lemma {:induction false} RunElsewhere(ts: seq<Task>, d: Disk, x: Place)
    requires forall i :: 0 <= i < |ts| ==> !(ts[i].place <= x)
    ensures NodeAt(RunAll(ts, d), x) == NodeAt(d, x)
  {
    if ts != [] {
      PerformElsewhere(ts[0], d, x);
      RunElsewhere(ts[1..], Perform(ts[0], d), x);
    }
  }

  lemma PrefixesOfOne(a: Place, b: Place, x: Place)
    requires a <= x && b <= x
    ensures a <= b || b <= a
  {
    assert a == x[..|a|] && b == x[..|b|];
  }

  lemma SameEverywhere(d: Disk, e: Disk)
    requires forall x :: NodeAt(d, x) == NodeAt(e, x)
    ensures d == e
  {
    forall x ensures x in d <==> x in e {
      assert NodeAt(d, x) == NodeAt(e, x);
    }
    forall x | x in d ensures d[x] == e[x] {
      assert NodeAt(d, x) == NodeAt(e, x);
    }
  }

  /* Tasks on different places commute, on any disk where things are in directories. */

  ghost predicate Consistent(d: Disk) {
    forall x :: x in d ==> x != [] && IsFolder(d, Parent(x))
  }

  lemma {:induction false} NothingBelow(d: Disk, x: Place, y: Place)
    requires Consistent(d) && x < y && !IsFolder(d, x)
    ensures y !in d && !IsFolder(d, Parent(y))
    decreases |y|
  {
    assert x <= Parent(y);
    if x == Parent(y) {
    } else {
      assert |x| < |Parent(y)|;
      NothingBelow(d, x, Parent(y));
    }
  }

  lemma RemovalIsConsistent(d: Disk, x: Place)
    requires Consistent(d)
    ensures Consistent(RemoveAll(d, x))
  {
    var e := RemoveAll(d, x);
    forall y | y in e ensures IsFolder(e, Parent(y)) {
      ParentIsAbove(x, y);
    }
  }

  lemma PerformIsConsistent(t: Task, d: Disk)
    requires Consistent(d) && t.place != []
    ensures Consistent(Perform(t, d))
  {
    RemovalIsConsistent(d, t.place);
  }

  /** Seen from places that are not its own, the second task might as well come first. */
  lemma AsideAt(t: Task, u: Task, d: Disk, x: Place)
    requires !(t.place <= u.place) && !(u.place <= t.place) && !(u.place <= x)
    ensures NodeAt(Perform(u, Perform(t, d)), x) == NodeAt(Perform(t, d), x) == NodeAt(Perform(t, Perform(u, d)), x)
  {
    PerformElsewhere(u, Perform(t, d), x);
    PerformElsewhere(u, d, x);
    if t.place <= x {
      PerformElsewhere(u, d, t.place);
      ParentIsAbove(u.place, t.place);
      PerformElsewhere(u, d, Parent(t.place));
      PerformLocally(t, d, Perform(u, d), x);
    } else {
      PerformElsewhere(t, d, x);
      PerformElsewhere(t, Perform(u, d), x);
    }
  }

  lemma Aside(t: Task, u: Task, d: Disk)
    requires !(t.place <= u.place) && !(u.place <= t.place)
    ensures Perform(u, Perform(t, d)) == Perform(t, Perform(u, d))
  {
    forall x ensures NodeAt(Perform(u, Perform(t, d)), x) == NodeAt(Perform(t, Perform(u, d)), x) {
      if !(u.place <= x) {
        AsideAt(t, u, d, x);
      } else {
        if t.place <= x { PrefixesOfOne(t.place, u.place, x); }
        AsideAt(u, t, d, x);
      }
    }
    SameEverywhere(Perform(u, Perform(t, d)), Perform(t, Perform(u, d)));
  }

  /** A task below something that is not a directory finds nothing to remove and nowhere to store. */
  lemma Futile(u: Task, d: Disk, x: Place)
    requires Consistent(d) && x < u.place && !IsFolder(d, x)
    ensures Perform(u, d) == d
  {
    forall y | y in d ensures !(u.place <= y) {
      if u.place <= y { NothingBelow(d, x, y); }
    }
    assert RemoveAll(d, u.place) == d;
    NothingBelow(d, x, u.place);
  }

  lemma ClearedAnyway(u: Task, d: Disk, x: Place)
    requires x <= u.place
    ensures RemoveAll(Perform(u, d), x) == RemoveAll(d, x)
  {
    var e, f := RemoveAll(Perform(u, d), x), RemoveAll(d, x);
    forall y ensures NodeAt(e, y) == NodeAt(f, y) {
      if !(x <= y) { PerformElsewhere(u, d, y); }
    }
    SameEverywhere(e, f);
  }

  /** A task at a directory, and a task inside it. */
  lemma Nested(t: Task, u: Task, d: Disk)
    requires Consistent(d) && t.place < u.place && t.place != []
    ensures Perform(u, Perform(t, d)) == Perform(t, Perform(u, d))
  {
    var x := t.place;
    PerformIsConsistent(t, d);
    if t.Remove? || t.replace {
      ClearedAnyway(u, d, x);
      Futile(u, Perform(t, d), x);
    } else if IsFolder(d, x) {
      PerformElsewhere(u, d, x);
    } else {
      Futile(u, d, x);
      Futile(u, Perform(t, d), x);
    }
  }

  lemma Commute(t: Task, u: Task, d: Disk)
    requires Consistent(d) && t.place != u.place && t.place != [] && u.place != []
    ensures Perform(u, Perform(t, d)) == Perform(t, Perform(u, d))
  {
    if t.place <= u.place {
      Nested(t, u, d);
    } else if u.place <= t.place {
      Nested(u, t, d);
    } else {
      Aside(t, u, d);
    }
  }

  ghost predicate DistinctPlaces(ts: seq<Task>) {
    && (forall i :: 0 <= i < |ts| ==> ts[i].place != [])
    && (forall i, j :: 0 <= i < j < |ts| ==> ts[i].place != ts[j].place)
  }

  lemma {:induction false} RunAppend(ts: seq<Task>, us: seq<Task>, d: Disk)
    ensures RunAll(ts + us, d) == RunAll(us, RunAll(ts, d))
  {
    if ts == [] {
      assert ts + us == us;
    } else {
      assert (ts + us)[1..] == ts[1..] + us;
      RunAppend(ts[1..], us, Perform(ts[0], d));
    }
  }

  /** A task may come after or before any number of others. */
  lemma {:induction false} CommuteAll(t: Task, ts: seq<Task>, d: Disk)
    requires Consistent(d) && t.place != []
    requires forall i :: 0 <= i < |ts| ==> ts[i].place != [] && ts[i].place != t.place
    ensures RunAll(ts, Perform(t, d)) == Perform(t, RunAll(ts, d))
  {
    if ts != [] {
      Commute(t, ts[0], d);
      PerformIsConsistent(ts[0], d);
      CommuteAll(t, ts[1..], Perform(ts[0], d));
    }
  }

  lemma BringForward(before: seq<Task>, t: Task, after: seq<Task>, d: Disk)
    requires Consistent(d) && t.place != []
    requires forall i :: 0 <= i < |before| ==> before[i].place != [] && before[i].place != t.place
    ensures RunAll(before + [t] + after, d) == RunAll(before + after, Perform(t, d))
  {
    RunAppend(before + [t], after, d);
    RunAppend(before, [t], d);
    var e := RunAll(before, d);
    assert RunAll([t], e) == RunAll([], Perform(t, e));
    CommuteAll(t, before, d);
    RunAppend(before, after, Perform(t, d));
  }

  lemma WithoutOne(ts: seq<Task>, i: nat)
    requires i < |ts|
    ensures ts == ts[..i] + [ts[i]] + ts[i + 1..]
    ensures multiset(ts[..i] + ts[i + 1..]) == multiset(ts) - multiset{ts[i]}
  {
    assert ts == ts[..i] + [ts[i]] + ts[i + 1..];
  }

  /** Taking the first task out of a list and of its reordering. */
  lemma TakeOut(ts: seq<Task>, order: seq<Task>) returns (i: nat)
    requires ts != [] && multiset(order) == multiset(ts)
    ensures i < |order| && order[i] == ts[0] && order == order[..i] + [ts[0]] + order[i + 1..]
    ensures multiset(order[..i] + order[i + 1..]) == multiset(ts[1..])
  {
    assert ts[0] in multiset(order);
    i :| i < |order| && order[i] == ts[0];
    WithoutOne(order, i);
    WithoutOne(ts, 0);
    assert ts[..0] + ts[1..] == ts[1..];
  }

  /** The order of the tasks is irrelevant. */
  lemma {:induction false} OrderIsIrrelevant(ts: seq<Task>, order: seq<Task>, d: Disk)
    requires Consistent(d) && DistinctPlaces(ts) && multiset(order) == multiset(ts)
    ensures RunAll(order, d) == RunAll(ts, d)
    decreases |ts|
  {
    if ts == [] {
      assert |multiset(order)| == 0;
    } else {
      var i := TakeOut(ts, order);
      ReorderedPlaces(ts, order);
      BringForward(order[..i], ts[0], order[i + 1..], d);
      PerformIsConsistent(ts[0], d);
      OrderIsIrrelevant(ts[1..], order[..i] + order[i + 1..], Perform(ts[0], d));
    }
  }

  lemma ReorderedPlaces(ts: seq<Task>, order: seq<Task>)
    requires DistinctPlaces(ts) && multiset(order) == multiset(ts)
    ensures DistinctPlaces(order)
  {
    assert Distinct(ts);
    Reordered(ts, order);
    forall i | 0 <= i < |order| ensures order[i].place != [] { assert order[i] in ts; }
    forall i, j | 0 <= i < j < |order| ensures order[i].place != order[j].place {
      assert order[i] in ts && order[j] in ts;
      assert order[i] != order[j];
    }
  }

  /* The plan's tasks. */

  lemma {:induction false} TaskPlace(at: Place, r: Source, l: Option<Target>, o: Options, p: Path)
    requires TaskFor(at, r, l, o, p).Some?
    ensures TaskFor(at, r, l, o, p).value.place == at + p
    decreases |p|
  {
    if |p| == 1 {
      assert p == [p[0]];
    } else {
      TaskPlace(at + [p[0]], r.dirs[p[0]], Sub(l, p[0]), o, p[1..]);
      assert at + [p[0]] + p[1..] == at + p;
    }
  }

  /** With no name both a file and a directory on the remote side, nothing is scheduled below a task. */
  lemma {:induction false} NoTaskBelow(at: Place, r: Source, l: Option<Target>, o: Options, p: Path, q: Path)
    requires Tidy(r) && p <= q && TaskFor(at, r, l, o, p).Some? && TaskFor(at, r, l, o, q).Some?
    ensures p == q
    decreases |p|
  {
    assert p[0] == q[0];
    if |p| == 1 {
      assert p == [p[0]];
      if |q| == 1 { assert q == [q[0]]; }
    } else {
      NoTaskBelow(at + [p[0]], r.dirs[p[0]], Sub(l, p[0]), o, p[1..], q[1..]);
      assert p == [p[0]] + p[1..] && q == [q[0]] + q[1..];
    }
  }

  /* The disk after planning. */

  lemma {:induction false} EnteredAbove(r: Source, l: Option<Target>, o: Options, p: Path)
    requires Entered(r, l, o, p) && |p| > 1
    ensures Entered(r, l, o, p[..|p| - 1])
    decreases |p|
  {
    if |p| > 2 {
      EnteredAbove(r.dirs[p[0]], Sub(l, p[0]), o, p[1..]);
      assert p[1..][..|p| - 2] == p[..|p| - 1][1..];
    }
  }

  lemma ReadiedIsConsistent(before: Disk, after: Disk, at: Place, r: Source, l: Option<Target>, o: Options)
    requires Consistent(before) && IsFolder(before, at) && Readied(before, after, at, r, l, o)
    ensures Consistent(after)
  {
    assert NodeAt(after, at) == NodeAt(before, at);
    assert NodeAt(after, []) == NodeAt(before, []);
    forall x | x in after ensures x != [] && IsFolder(after, Parent(x)) {
      assert NodeAt(after, Parent(x)) == Some(Folder) || NodeAt(after, Parent(x)) == NodeAt(before, Parent(x));
      if at < x && Entered(r, l, o, From(at, x)) {
        if |From(at, x)| > 1 {
          EnteredAbove(r, l, o, From(at, x));
          assert From(at, Parent(x)) == From(at, x)[..|From(at, x)| - 1];
        } else {
          assert Parent(x) == at;
        }
      }
    }
  }

  lemma PlacesDiffer(at: Place, r: Source, l: Option<Target>, o: Options, ts: seq<Task>, paths: seq<Path>)
    requires Realises(ts, paths, Tasks(at, r, l, o))
    ensures DistinctPlaces(ts)
  {
    forall i | 0 <= i < |ts| ensures ts[i].place == at + paths[i] && ts[i].place != [] {
      TaskPlace(at, r, l, o, paths[i]);
    }
    forall i, j | 0 <= i < j < |ts| ensures ts[i].place != ts[j].place {
      assert paths[i] == (at + paths[i])[|at|..] && paths[j] == (at + paths[j])[|at|..];
    }
  }

  /** Whatever the trees, the filters and the flags: any order of the scheduled tasks gives the same disk. */
  lemma DownloadsCommute(before: Disk, after: Disk, at: Place, r: Source, l: Option<Target>, o: Options,
                         ts: seq<Task>, paths: seq<Path>, order: seq<Task>)
    requires Consistent(before) && Agrees(before, at, l) && Readied(before, after, at, r, l, o)
    requires Realises(ts, paths, Tasks(at, r, l, o)) && multiset(order) == multiset(ts)
    ensures RunAll(order, after) == RunAll(ts, after)
  {
    ReadiedIsConsistent(before, after, at, r, l, o);
    PlacesDiffer(at, r, l, o, ts, paths);
    OrderIsIrrelevant(ts, order, after);
  }

  /* What the tasks leave at one place. A removal, or a fetch that replaces a directory, clears its
     place and everything below. */

  predicate Clearing(t: Task) { t.Remove? || t.replace }

  ghost predicate Spared(ts: seq<Task>, x: Place) {
    forall i :: 0 <= i < |ts| && ts[i].place <= x ==> !Clearing(ts[i])
  }

  function Others(ts: seq<Task>, i: nat): seq<Task>
    requires i < |ts|
  {
    ts[..i] + ts[i + 1..]
  }

  lemma OthersAreOthers(ts: seq<Task>, i: nat)
    requires DistinctPlaces(ts) && i < |ts|
    ensures forall t :: t in Others(ts, i) ==> t in ts && t.place != [] && t.place != ts[i].place
  {
    forall t | t in Others(ts, i) ensures t in ts && t.place != [] && t.place != ts[i].place {
      var k :| 0 <= k < |Others(ts, i)| && Others(ts, i)[k] == t;
      assert t == ts[if k < i then k else k + 1];
    }
  }

  lemma {:induction false} RunIsConsistent(ts: seq<Task>, d: Disk)
    requires Consistent(d) && forall i :: 0 <= i < |ts| ==> ts[i].place != []
    ensures Consistent(RunAll(ts, d))
  {
    if ts != [] {
      PerformIsConsistent(ts[0], d);
      RunIsConsistent(ts[1..], Perform(ts[0], d));
    }
  }

  /** Any task may be taken for the last one. */
  lemma ActsLast(ts: seq<Task>, i: nat, d: Disk)
    requires Consistent(d) && DistinctPlaces(ts) && i < |ts|
    ensures RunAll(ts, d) == Perform(ts[i], RunAll(Others(ts, i), d))
  {
    OthersAreOthers(ts, i);
    WithoutOne(ts, i);
    BringForward(ts[..i], ts[i], ts[i + 1..], d);
    CommuteAll(ts[i], Others(ts, i), d);
  }

  lemma {:induction false} FolderStays(ts: seq<Task>, d: Disk, x: Place)
    requires Spared(ts, x) && IsFolder(d, x)
    ensures IsFolder(RunAll(ts, d), x)
  {
    if ts != [] { FolderStays(ts[1..], Perform(ts[0], d), x); }
  }

  lemma {:induction false} LeftAlone(ts: seq<Task>, d: Disk, x: Place)
    requires Spared(ts, x) && forall i :: 0 <= i < |ts| ==> ts[i].place != x
    ensures NodeAt(RunAll(ts, d), x) == NodeAt(d, x)
  {
    if ts != [] { LeftAlone(ts[1..], Perform(ts[0], d), x); }
  }

  lemma Cleared(ts: seq<Task>, d: Disk, i: nat, x: Place)
    requires Consistent(d) && DistinctPlaces(ts) && i < |ts| && Clearing(ts[i])
    requires ts[i].place <= x && (ts[i].Remove? || ts[i].place != x)
    ensures NodeAt(RunAll(ts, d), x) == None
  {
    ActsLast(ts, i, d);
  }

  lemma OthersSpare(ts: seq<Task>, i: nat, x: Place)
    requires i < |ts| && Spared(ts, x)
    ensures Spared(Others(ts, i), x)
  {
    forall k | 0 <= k < |Others(ts, i)| && Others(ts, i)[k].place <= x ensures !Clearing(Others(ts, i)[k]) {
      assert Others(ts, i)[k] == ts[if k < i then k else k + 1];
    }
  }

  lemma Replaced(ts: seq<Task>, d: Disk, i: nat)
    requires Consistent(d) && DistinctPlaces(ts) && i < |ts| && ts[i].Fetch? && ts[i].replace
    requires Spared(ts, Parent(ts[i].place)) && IsFolder(d, Parent(ts[i].place))
    ensures NodeAt(RunAll(ts, d), ts[i].place) == Some(File(ts[i].file.content))
  {
    ActsLast(ts, i, d);
    OthersSpare(ts, i, Parent(ts[i].place));
    FolderStays(Others(ts, i), d, Parent(ts[i].place));
    FetchStores(ts[i], RunAll(Others(ts, i), d));
  }

  lemma Stored(ts: seq<Task>, d: Disk, i: nat)
    requires Consistent(d) && DistinctPlaces(ts) && i < |ts| && ts[i].Fetch?
    requires Spared(ts, ts[i].place) && IsFolder(d, Parent(ts[i].place))
    ensures var x, c := ts[i].place, ts[i].file.content;
      NodeAt(RunAll(ts, d), x)
      == if UpToDate(NodeAt(d, x), c) || NodeAt(d, x) == Some(Folder) then NodeAt(d, x) else Some(File(c))
  {
    var x := ts[i].place;
    assert Parent(x) <= x;
    ActsLast(ts, i, d);
    OthersAreOthers(ts, i);
    OthersSpare(ts, i, x);
    LeftAlone(Others(ts, i), d, x);
    assert Spared(Others(ts, i), Parent(x));
    FolderStays(Others(ts, i), d, Parent(x));
  }

  /** A fetch whose directory is there and whose place is free, or about to be, succeeds. */
  lemma FetchStores(t: Task, d: Disk)
    requires t.Fetch? && t.place != [] && IsFolder(d, Parent(t.place)) && (t.replace || !IsFolder(d, t.place))
    ensures var was, now, c := NodeAt(d, t.place), NodeAt(Perform(t, d), t.place), t.file.content;
      now == if !t.replace && was.Some? && c.mtime != 0 && was.value.content.mtime == c.mtime
                && |was.value.content.data| == |c.data|
             then was else Some(File(c))
  {
    ParentIsAboveItself(t.place);
  }

  lemma ParentIsAboveItself(x: Place)
    requires x != []
    ensures !(x <= Parent(x))
  {
  }

  /* The outcome of a whole download, path by path. */

  /** The planning goes into the remote directory `n`. */
  predicate Goes(r: Source, l: Option<Target>, o: Options, n: string) {
    n in r.dirs && (LocalFileThere(l, n) ==> o.deleteMissing)
  }

  predicate Fetched(r: Source, l: Option<Target>, o: Options, n: string) {
    n in r.files && o.keep(r.files[n].key.path) && (Sub(l, n).None? || o.deleteMissing)
  }

  /** What is at a path in the end. A file that is fetched comes out unless the planning has just made
      a directory of its name; if a local directory was there, the file replaces it with everything
      that went into it. */
  function DiskOutcome(r: Source, l: Option<Target>, o: Options, p: Path): Option<Node>
    decreases |p|
  {
    var n := p[0];
    if Fetched(r, l, o, n) && (Sub(l, n).Some? || !Goes(r, l, o, n)) then
      if |p| > 1 then
        None
      else
        var c, was := r.files[n].content, Expected(l, p);
        if Sub(l, n).None? && was.Some? && was.value.File? && c.mtime != 0 && was.value.content.mtime == c.mtime
           && |was.value.content.data| == |c.data|
        then was else Some(File(c))
    else if Goes(r, l, o, n) then
      if |p| == 1 then Some(Folder) else DiskOutcome(r.dirs[n], Sub(l, n), o, p[1..])
    else if n !in r.files && n !in r.dirs && o.deleteMissing then None
    else Expected(l, p)
  }

  predicate ClearsAt(at: Place, r: Source, l: Option<Target>, o: Options, q: Path) {
    TaskFor(at, r, l, o, q).Some? && Clearing(TaskFor(at, r, l, o, q).value)
  }

  lemma {:induction false} OutcomeCleared(at: Place, r: Source, l: Option<Target>, o: Options, q: Path, p: Path)
    requires ClearsAt(at, r, l, o, q) && q <= p && (q != p || TaskFor(at, r, l, o, q).value.Remove?)
    ensures DiskOutcome(r, l, o, p) == None
    decreases |q|
  {
    if |q| == 1 {
      if |p| == 1 { assert p == q; }
    } else {
      assert p[0] == q[0];
      assert q == [q[0]] + q[1..] && p == [p[0]] + p[1..];
      OutcomeCleared(at + [q[0]], r.dirs[q[0]], Sub(l, q[0]), o, q[1..], p[1..]);
    }
  }

  /** Nothing above a path is cleared, so nothing above its rest is. */
  lemma RestUncleared(at: Place, r: Source, l: Option<Target>, o: Options, p: Path, proper: bool)
    requires |p| > 1 && Goes(r, l, o, p[0])
    requires forall q: Path :: q <= p && (proper ==> q != p) ==> !ClearsAt(at, r, l, o, q)
    ensures forall q: Path ::
      q <= p[1..] && (proper ==> q != p[1..]) ==> !ClearsAt(at + [p[0]], r.dirs[p[0]], Sub(l, p[0]), o, q)
    ensures !(Fetched(r, l, o, p[0]) && Sub(l, p[0]).Some?)
  {
    var n := p[0];
    forall q: Path | q <= p[1..] && (proper ==> q != p[1..])
      ensures !ClearsAt(at + [n], r.dirs[n], Sub(l, n), o, q)
    {
      var longer: Path := [n] + q;
      assert p == [n] + p[1..] && longer[1..] == q;
      assert !ClearsAt(at, r, l, o, longer);
    }
    var top: Path := [n];
    assert top <= p && !ClearsAt(at, r, l, o, top);
  }

  lemma {:induction false} OutcomeReplaced(at: Place, r: Source, l: Option<Target>, o: Options, p: Path)
    requires TaskFor(at, r, l, o, p).Some? && TaskFor(at, r, l, o, p).value.Fetch?
    requires TaskFor(at, r, l, o, p).value.replace
    requires forall q: Path :: q <= p && q != p ==> !ClearsAt(at, r, l, o, q)
    ensures DiskOutcome(r, l, o, p) == Some(File(TaskFor(at, r, l, o, p).value.file.content))
    decreases |p|
  {
    if |p| > 1 {
      RestUncleared(at, r, l, o, p, true);
      OutcomeReplaced(at + [p[0]], r.dirs[p[0]], Sub(l, p[0]), o, p[1..]);
    }
  }

  /** Where nothing is cleared: a directory gone into, or a file fetched, or else what was there. */
  lemma {:induction false} OutcomeSpared(at: Place, r: Source, l: Option<Target>, o: Options, p: Path)
    requires TargetOk(l) && forall q: Path :: q <= p ==> !ClearsAt(at, r, l, o, q)
    ensures var t, was := TaskFor(at, r, l, o, p), Expected(l, p);
      && (t.Some? ==> t.value.Fetch?)
      && DiskOutcome(r, l, o, p)
         == (if Entered(r, l, o, p) then Some(Folder)
             else if t.None? || UpToDate(was, t.value.file.content) then was
             else Some(File(t.value.file.content)))
      && (t.Some? && !Entered(r, l, o, p) ==> was != Some(Folder))
    decreases |p|
  {
    var n := p[0];
    var top: Path := [n];
    assert top <= p && !ClearsAt(at, r, l, o, top) && !ClearsAt(at, r, l, o, p);
    if |p| == 1 {
      assert p == top;
    } else if Goes(r, l, o, n) {
      RestUncleared(at, r, l, o, p, false);
      OutcomeSpared(at + [n], r.dirs[n], Sub(l, n), o, p[1..]);
    }
  }

  /** The directory of a task is there when the tasks start. */
  lemma {:induction false} TaskIsInside(at: Place, r: Source, l: Option<Target>, o: Options, p: Path)
    requires TaskFor(at, r, l, o, p).Some? && |p| > 1
    ensures Entered(r, l, o, p[..|p| - 1])
    decreases |p|
  {
    if |p| > 2 {
      TaskIsInside(at + [p[0]], r.dirs[p[0]], Sub(l, p[0]), o, p[1..]);
      assert p[1..][..|p| - 2] == p[..|p| - 1][1..];
    }
  }

  /** A finished plan: what the planning gives, and a disk and trees to start from. */
  ghost predicate Planned(before: Disk, after: Disk, at: Place, r: Source, l: Option<Target>, o: Options,
                          ts: seq<Task>, paths: seq<Path>) {
    && Agrees(before, at, l) && TargetOk(l) && Readied(before, after, at, r, l, o)
    && Realises(ts, paths, Tasks(at, r, l, o))
  }

  lemma DirectoryReady(before: Disk, after: Disk, at: Place, r: Source, l: Option<Target>, o: Options, p: Path)
    requires Agrees(before, at, l) && Readied(before, after, at, r, l, o) && TaskFor(at, r, l, o, p).Some?
    ensures IsFolder(after, Parent(at + p))
  {
    if |p| == 1 {
      assert Parent(at + p) == at;
      assert NodeAt(after, at) == NodeAt(before, at);
    } else {
      var q: Path := p[..|p| - 1];
      TaskIsInside(at, r, l, o, p);
      assert Parent(at + p) == at + q && From(at, at + q) == q;
    }
  }

  /** The task of a path, and its place in the list. */
  lemma TaskOfPath(at: Place, r: Source, l: Option<Target>, o: Options, ts: seq<Task>, paths: seq<Path>, q: Path)
    returns (i: nat)
    requires Realises(ts, paths, Tasks(at, r, l, o)) && TaskFor(at, r, l, o, q).Some?
    ensures i < |ts| && Some(ts[i]) == TaskFor(at, r, l, o, q) && ts[i].place == at + q
  {
    assert q in Tasks(at, r, l, o);
    i :| 0 <= i < |paths| && paths[i] == q;
    TaskPlace(at, r, l, o, q);
  }

  /** The path of a task, in the other direction. */
  lemma PathOfTask(at: Place, r: Source, l: Option<Target>, o: Options, ts: seq<Task>, paths: seq<Path>, i: nat,
                   p: Path)
    requires Realises(ts, paths, Tasks(at, r, l, o)) && i < |ts| && ts[i].place <= at + p
    ensures paths[i] <= p && TaskFor(at, r, l, o, paths[i]) == Some(ts[i]) && ts[i].place == at + paths[i]
  {
    assert paths[i] in Tasks(at, r, l, o);
    TaskPlace(at, r, l, o, paths[i]);
    assert paths[i] == (at + paths[i])[|at|..] && p == (at + p)[|at|..];
  }

  lemma NothingClears(at: Place, r: Source, l: Option<Target>, o: Options, ts: seq<Task>, paths: seq<Path>, p: Path)
    requires Realises(ts, paths, Tasks(at, r, l, o)) && forall q: Path :: q <= p ==> !ClearsAt(at, r, l, o, q)
    ensures Spared(ts, at + p)
  {
    forall i | 0 <= i < |ts| && ts[i].place <= at + p ensures !Clearing(ts[i]) {
      PathOfTask(at, r, l, o, ts, paths, i, p);
      assert !ClearsAt(at, r, l, o, paths[i]);
    }
  }

  lemma NothingClearsAbove(at: Place, r: Source, l: Option<Target>, o: Options, ts: seq<Task>, paths: seq<Path>,
                           p: Path)
    requires Realises(ts, paths, Tasks(at, r, l, o))
    requires forall q: Path :: q <= p && q != p ==> !ClearsAt(at, r, l, o, q)
    ensures Spared(ts, Parent(at + p))
  {
    assert Parent(at + p) <= at + p;
    forall i | 0 <= i < |ts| && ts[i].place <= Parent(at + p) ensures !Clearing(ts[i]) {
      PathOfTask(at, r, l, o, ts, paths, i, p);
      assert |at + paths[i]| <= |at + p| - 1;
      assert !ClearsAt(at, r, l, o, paths[i]);
    }
  }

  lemma SparedOutcome(before: Disk, after: Disk, at: Place, r: Source, l: Option<Target>, o: Options, ts: seq<Task>,
                      paths: seq<Path>, p: Path)
    requires Consistent(before) && Planned(before, after, at, r, l, o, ts, paths)
    requires forall q: Path :: q <= p ==> !ClearsAt(at, r, l, o, q)
    ensures NodeAt(RunAll(ts, after), at + p) == DiskOutcome(r, l, o, p)
  {
    ReadiedIsConsistent(before, after, at, r, l, o);
    PlacesDiffer(at, r, l, o, ts, paths);
    OutcomeSpared(at, r, l, o, p);
    NothingClears(at, r, l, o, ts, paths, p);
    assert From(at, at + p) == p;
    assert NodeAt(after, at + p) == if Entered(r, l, o, p) then Some(Folder) else Expected(l, p);
    if TaskFor(at, r, l, o, p).Some? {
      var i := TaskOfPath(at, r, l, o, ts, paths, p);
      assert !ClearsAt(at, r, l, o, p);
      DirectoryReady(before, after, at, r, l, o, p);
      Stored(ts, after, i);
    } else {
      forall i | 0 <= i < |ts| ensures ts[i].place != at + p {
        if ts[i].place == at + p { PathOfTask(at, r, l, o, ts, paths, i, p); }
      }
      LeftAlone(ts, after, at + p);
    }
  }

  lemma ReplacedOutcome(before: Disk, after: Disk, at: Place, r: Source, l: Option<Target>, o: Options, ts: seq<Task>,
                        paths: seq<Path>, p: Path)
    requires Consistent(before) && Planned(before, after, at, r, l, o, ts, paths) && ClearsAt(at, r, l, o, p)
    requires TaskFor(at, r, l, o, p).value.Fetch?
    requires forall q: Path :: q <= p && q != p ==> !ClearsAt(at, r, l, o, q)
    ensures NodeAt(RunAll(ts, after), at + p) == DiskOutcome(r, l, o, p)
  {
    ReadiedIsConsistent(before, after, at, r, l, o);
    PlacesDiffer(at, r, l, o, ts, paths);
    OutcomeReplaced(at, r, l, o, p);
    NothingClearsAbove(at, r, l, o, ts, paths, p);
    DirectoryReady(before, after, at, r, l, o, p);
    var i := TaskOfPath(at, r, l, o, ts, paths, p);
    Replaced(ts, after, i);
  }

  lemma ClearedOutcome(before: Disk, after: Disk, at: Place, r: Source, l: Option<Target>, o: Options, ts: seq<Task>,
                       paths: seq<Path>, q: Path, p: Path)
    requires Consistent(before) && Planned(before, after, at, r, l, o, ts, paths)
    requires ClearsAt(at, r, l, o, q) && q <= p && (q != p || TaskFor(at, r, l, o, q).value.Remove?)
    ensures NodeAt(RunAll(ts, after), at + p) == DiskOutcome(r, l, o, p)
  {
    ReadiedIsConsistent(before, after, at, r, l, o);
    PlacesDiffer(at, r, l, o, ts, paths);
    OutcomeCleared(at, r, l, o, q, p);
    var i := TaskOfPath(at, r, l, o, ts, paths, q);
    assert at + q <= at + p;
    assert q != p ==> |at + q| < |at + p|;
    Cleared(ts, after, i, at + p);
  }

  /** Whatever the trees, the filters, the flags and the order of the tasks: the disk in the end, path
      by path. */
  lemma DownloadOutcome(before: Disk, after: Disk, at: Place, r: Source, l: Option<Target>, o: Options,
                        ts: seq<Task>, paths: seq<Path>, order: seq<Task>, p: Path)
    requires Consistent(before) && Planned(before, after, at, r, l, o, ts, paths) && multiset(order) == multiset(ts)
    ensures NodeAt(RunAll(order, after), at + p) == DiskOutcome(r, l, o, p)
  {
    DownloadsCommute(before, after, at, r, l, o, ts, paths, order);
    hide *;
    if q: Path :| q <= p && ClearsAt(at, r, l, o, q) && (q != p || TaskFor(at, r, l, o, q).value.Remove?) {
      ClearedOutcome(before, after, at, r, l, o, ts, paths, q, p);
    } else if ClearsAt(at, r, l, o, p) {
      ReplacedOutcome(before, after, at, r, l, o, ts, paths, p);
    } else {
      SparedOutcome(before, after, at, r, l, o, ts, paths, p);
    }
  }

  /* The mirror. */

  /** Nothing is filtered out. */
  ghost predicate AllKept(r: Source, o: Options) {
    forall p: Path :: Has(r, p) ==> o.keep(Get(r, p).key.path)
  }

  lemma KeptBelow(r: Source, o: Options, n: string)
    requires AllKept(r, o) && n in r.dirs
    ensures AllKept(r.dirs[n], o)
  {
    forall p: Path | Has(r.dirs[n], p) ensures o.keep(Get(r.dirs[n], p).key.path) {
      var q: Path := [n] + p;
      assert q[1..] == p;
      assert Has(r, q) && Get(r, q) == Get(r.dirs[n], p);
    }
  }

  predicate LocalDir(l: Option<Target>, p: Path) { l.Some? && HasDir(l.value, p) }

  /** A path ends as what it is remotely; where the remote side has both, as one of the two. A file may
      also stay as it was, if it was taken for up to date. */
  ghost predicate AsRemote(was: Option<Node>, now: Option<Node>, r: Source, p: Path) {
    || (HasDir(r, p) && now == Some(Folder))
    || (Has(r, p) && var c := Get(r, p).content;
          now == if was.Some? && was.value.File? && c.mtime != 0 && was.value.content.mtime == c.mtime
                    && |was.value.content.data| == |c.data|
                 then was else Some(File(c)))
    || (!Has(r, p) && !HasDir(r, p) && now == None)
  }

  /** Below `at` the disk holds the remote tree. */
  ghost predicate Mirrors(before: Disk, d: Disk, at: Place, r: Source) {
    forall p: Path :: AsRemote(NodeAt(before, at + p), NodeAt(d, at + p), r, p)
  }

  /** A name that is both a file and a directory remotely and a directory locally. The file is fetched
      in place of the directory, so whatever the remote directory holds is lost. */
  ghost predicate LosesAt(r: Source, l: Option<Target>, q: Path, p: Path) {
    Has(r, q) && HasDir(r, q) && LocalDir(l, q) && q <= p && q != p && (Has(r, p) || HasDir(r, p))
  }

  ghost predicate Loses(r: Source, l: Option<Target>) { exists q: Path, p: Path :: LosesAt(r, l, q, p) }

  lemma KeepsBelow(r: Source, l: Option<Target>, p: Path)
    requires |p| > 1 && p[0] in r.dirs && forall q: Path :: !LosesAt(r, l, q, p)
    ensures forall q: Path :: !LosesAt(r.dirs[p[0]], Sub(l, p[0]), q, p[1..])
  {
    forall q: Path | LosesAt(r.dirs[p[0]], Sub(l, p[0]), q, p[1..]) ensures false {
      var longer: Path := [p[0]] + q;
      assert p == [p[0]] + p[1..] && longer[1..] == q;
      assert LosesAt(r, l, longer, p);
    }
  }

  lemma {:induction false} NothingLost(r: Source, l: Option<Target>, o: Options, p: Path)
    requires o.deleteMissing && AllKept(r, o) && TargetOk(l) && forall q: Path :: !LosesAt(r, l, q, p)
    ensures AsRemote(Expected(l, p), DiskOutcome(r, l, o, p), r, p)
    decreases |p|
  {
    var n := p[0];
    var top: Path := [n];
    assert top <= p && !LosesAt(r, l, top, p);
    assert n in r.files ==> Has(r, top) && Get(r, top) == r.files[n];
    if |p| == 1 {
      assert p == top;
    } else if n in r.dirs {
      KeptBelow(r, o, n);
      KeepsBelow(r, l, p);
      NothingLost(r.dirs[n], Sub(l, n), o, p[1..]);
    }
  }

  lemma {:induction false} LostIndeed(r: Source, l: Option<Target>, o: Options, q: Path, p: Path)
    requires o.deleteMissing && AllKept(r, o) && LosesAt(r, l, q, p)
    ensures DiskOutcome(r, l, o, p) == None
    decreases |q|
  {
    var n := p[0];
    assert q[0] == n;
    var top: Path := [n];
    assert n in r.files ==> Has(r, top) && Get(r, top) == r.files[n];
    if |q| > 1 {
      assert q == [n] + q[1..] && p == [n] + p[1..];
      KeptBelow(r, o, n);
      LostIndeed(r.dirs[n], Sub(l, n), o, q[1..], p[1..]);
    } else {
      assert |p| > 1;
    }
  }

  /** With deletions allowed and nothing filtered out, a download turns the local tree into the remote
      one, whatever the order of its tasks, if and only if no name that is a directory locally is both
      a directory that is not empty and a file remotely. */
  lemma MirrorIff(before: Disk, after: Disk, at: Place, r: Source, l: Option<Target>, o: Options,
                  ts: seq<Task>, paths: seq<Path>, order: seq<Task>)
    requires Consistent(before) && Planned(before, after, at, r, l, o, ts, paths) && multiset(order) == multiset(ts)
    requires o.deleteMissing && AllKept(r, o)
    ensures Mirrors(before, RunAll(order, after), at, r) <==> !Loses(r, l)
  {
    var final := RunAll(order, after);
    forall p: Path
      ensures NodeAt(before, at + p) == Expected(l, p) && NodeAt(final, at + p) == DiskOutcome(r, l, o, p)
    {
      DownloadOutcome(before, after, at, r, l, o, ts, paths, order, p);
    }
    if q: Path, p: Path :| LosesAt(r, l, q, p) {
      LostIndeed(r, l, o, q, p);
      assert !AsRemote(NodeAt(before, at + p), NodeAt(final, at + p), r, p);
    } else {
      forall p: Path ensures AsRemote(NodeAt(before, at + p), NodeAt(final, at + p), r, p) {
        NothingLost(r, l, o, p);
      }
    }
  }

  /** On a tidy remote tree that never happens, and every path has one thing to be. */
  lemma TidyMirror(before: Disk, after: Disk, at: Place, r: Source, l: Option<Target>, o: Options,
                   ts: seq<Task>, paths: seq<Path>, order: seq<Task>, p: Path)
    requires Consistent(before) && Planned(before, after, at, r, l, o, ts, paths) && multiset(order) == multiset(ts)
    requires o.deleteMissing && AllKept(r, o) && Tidy(r)
    ensures var was, now := NodeAt(before, at + p), NodeAt(RunAll(order, after), at + p);
      && (HasDir(r, p) <==> now == Some(Folder))
      && (Has(r, p) ==> var c := Get(r, p).content;
            now == if was.Some? && was.value.File? && c.mtime != 0 && was.value.content.mtime == c.mtime
                      && |was.value.content.data| == |c.data|
                   then was else Some(File(c)))
      && (!Has(r, p) && !HasDir(r, p) <==> now == None)
  {
    forall q: Path, p: Path ensures !LosesAt(r, l, q, p) {
      if Has(r, q) { NothingBelowFile(r, q, q); }
    }
    MirrorIff(before, after, at, r, l, o, ts, paths, order);
    if Has(r, p) { NothingBelowFile(r, p, p); }
    assert AsRemote(NodeAt(before, at + p), NodeAt(RunAll(order, after), at + p), r, p);
  }

  /** Nothing outside the destination is touched. */
  lemma OutsideUntouched(before: Disk, after: Disk, at: Place, r: Source, l: Option<Target>, o: Options,
                         ts: seq<Task>, paths: seq<Path>, order: seq<Task>, x: Place)
    requires Planned(before, after, at, r, l, o, ts, paths) && multiset(order) == multiset(ts)
    requires !(at < x)
    ensures NodeAt(RunAll(order, after), x) == NodeAt(before, x)
  {
    forall i | 0 <= i < |order| ensures !(order[i].place <= x) {
      assert order[i] in multiset(ts);
      var j: nat :| j < |ts| && ts[j] == order[i];
      TaskPlace(at, r, l, o, paths[j]);
      assert at < at + paths[j];
    }
    RunElsewhere(order, after, x);
  }

  /* Without leave to delete. */

  /** What was there is still there: directories as directories, files as files. */
  ghost predicate Kept(before: Disk, after: Disk) {
    forall x :: x in before ==> x in after && (before[x].Folder? <==> after[x].Folder?)
  }

  lemma {:induction false} NoDeletionPlanned(at: Place, r: Source, l: Option<Target>, o: Options, p: Path)
    requires !o.deleteMissing && TaskFor(at, r, l, o, p).Some?
    ensures TaskFor(at, r, l, o, p).value.Fetch? && !TaskFor(at, r, l, o, p).value.replace
    decreases |p|
  {
    if |p| > 1 { NoDeletionPlanned(at + [p[0]], r.dirs[p[0]], Sub(l, p[0]), o, p[1..]); }
  }

  lemma {:induction false} EnteredOverNoFile(r: Source, l: Option<Target>, o: Options, p: Path)
    requires !o.deleteMissing && Entered(r, l, o, p) && TargetOk(l)
    ensures Expected(l, p) == None || Expected(l, p) == Some(Folder)
    decreases |p|
  {
    if |p| > 1 { EnteredOverNoFile(r.dirs[p[0]], Sub(l, p[0]), o, p[1..]); }
  }

  lemma {:induction false} StoringKeeps(ts: seq<Task>, d: Disk)
    requires forall i :: 0 <= i < |ts| ==> ts[i].Fetch? && !ts[i].replace
    ensures Kept(d, RunAll(ts, d))
  {
    if ts != [] { StoringKeeps(ts[1..], Perform(ts[0], d)); }
  }

  /** Without leave to delete, nothing on the disk goes, whatever the order of the tasks. */
  lemma NothingIsRemoved(before: Disk, after: Disk, at: Place, r: Source, l: Option<Target>, o: Options,
                         ts: seq<Task>, paths: seq<Path>, order: seq<Task>)
    requires Planned(before, after, at, r, l, o, ts, paths) && multiset(order) == multiset(ts)
    requires !o.deleteMissing
    ensures Kept(before, RunAll(order, after))
  {
    forall i | 0 <= i < |order| ensures order[i].Fetch? && !order[i].replace {
      assert order[i] in multiset(ts);
      var j: nat :| j < |ts| && ts[j] == order[i];
      NoDeletionPlanned(at, r, l, o, paths[j]);
    }
    StoringKeeps(order, after);
    forall x | x in before ensures x in after && (before[x].Folder? <==> after[x].Folder?) {
      assert NodeAt(after, x) == Some(Folder) || NodeAt(after, x) == NodeAt(before, x);
      if at < x && Entered(r, l, o, From(at, x)) {
        EnteredOverNoFile(r, l, o, From(at, x));
        assert at + From(at, x) == x;
        assert NodeAt(before, at + From(at, x)) == Expected(l, From(at, x));
      }
    }
  }
}
