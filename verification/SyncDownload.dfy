/** Planning a download: directories are made at once, transfers and deletions are scheduled. */
module SyncDownload {
  import opened Connection
  import opened Trees
  import opened Wrappers
  import opened Plans
  import opened SyncUpload

  /** A place on disk, as the names that lead to it from the destination. */
  type Place = seq<string>

  datatype Node = Folder | File(content: Content)
  type Disk = map<Place, Node>

  datatype RemoteFile = RemoteFile(key: S3Path, content: Content)
  type Source = Dir<RemoteFile>
  type Target = Dir<Content>

  datatype Task = Fetch(place: Place, file: RemoteFile, replace: bool) | Remove(place: Place)

  function NodeAt(d: Disk, x: Place): Option<Node> { if x in d then Some(d[x]) else None }

  predicate IsFolder(d: Disk, x: Place) { x == [] || NodeAt(d, x) == Some(Folder) }

  /** Deletes a file, or a directory with everything in it. */
  function RemoveAll(d: Disk, x: Place): Disk { map y | y in d && !(x <= y) :: d[y] }

  /** The disk while the plan is made. */
  class LocalDisk {
    var nodes: Disk

    /** The place goes with everything below it, and nothing else does. */
    method Remove(x: Place)
      modifies this
      ensures forall y :: NodeAt(nodes, y) == if x <= y then None else old(NodeAt(nodes, y))
    {
      nodes := RemoveAll(nodes, x);
    }

    /** Makes a directory; that something is there already is not an error. */
    method MakeDir(x: Place)
      requires x != [] && IsFolder(nodes, x[..|x| - 1])
      modifies this
      ensures old(NodeAt(nodes, x)).None? ==> NodeAt(nodes, x) == Some(Folder)
      ensures forall y :: y != x || old(NodeAt(nodes, x)).Some? ==> NodeAt(nodes, y) == old(NodeAt(nodes, y))
    {
      if x !in nodes { nodes := nodes[x := Folder]; }
    }
  }

  predicate LocalFileThere(l: Option<Target>, n: string) { l.Some? && n in l.value.files }

  predicate LocalThere(l: Option<Target>, n: string) { LocalFileThere(l, n) || Sub(l, n).Some? }

  /** The task scheduled for a path below the directory `at`. */
  function TaskFor(at: Place, r: Source, l: Option<Target>, o: Options, p: Path): Option<Task>
    decreases |p|
  {
    var n := p[0];
    if |p| == 1 then
      if n in r.files then
        if o.keep(r.files[n].key.path) && (Sub(l, n).None? || o.deleteMissing)
        then Some(Fetch(at + [n], r.files[n], Sub(l, n).Some?)) else None
      else
        if n !in r.dirs && LocalThere(l, n) && o.deleteMissing then Some(Remove(at + [n])) else None
    else if n in r.dirs && (LocalFileThere(l, n) ==> o.deleteMissing) then
      TaskFor(at + [n], r.dirs[n], Sub(l, n), o, p[1..])
    else
      None
  }

  ghost function Tasks(at: Place, r: Source, l: Option<Target>, o: Options): imap<Path, Task> {
    imap p: Path | TaskFor(at, r, l, o, p).Some? :: TaskFor(at, r, l, o, p).value
  }

  /** A remote directory that the planning goes into. */
  predicate Entered(r: Source, l: Option<Target>, o: Options, p: Path)
    decreases |p|
  {
    p[0] in r.dirs && (LocalFileThere(l, p[0]) ==> o.deleteMissing) &&
    (|p| == 1 || Entered(r.dirs[p[0]], Sub(l, p[0]), o, p[1..]))
  }

  /** What the local tree says is at a path. */
  function Expected(l: Option<Target>, p: Path): Option<Node> {
    if l.None? then None
    else if Has(l.value, p) then Some(File(Get(l.value, p)))
    else if HasDir(l.value, p) then Some(Folder)
    else None
  }

  /** Below `at`, the disk holds what the local tree says. */
  ghost predicate Agrees(d: Disk, at: Place, l: Option<Target>) {
    IsFolder(d, at) && forall p: Path :: NodeAt(d, at + p) == Expected(l, p)
  }

  ghost predicate TargetOk(l: Option<Target>) { l.Some? ==> Tidy(l.value) }

  /** The path from `at` to a place below it. */
  function From(at: Place, x: Place): Path
    requires at < x
  {
    x[|at|..]
  }

  /** The directories that are made: those gone into, as far as they are in `scope`. */
  ghost predicate Made(before: Disk, after: Disk, at: Place, r: Source, l: Option<Target>, o: Options,
                       scope: iset<Path>)
  {
    forall x: Place :: NodeAt(after, x) ==
      (if at < x && From(at, x) in scope && Entered(r, l, o, From(at, x)) then Some(Folder) else NodeAt(before, x))
  }

  /** All the directories that the plan needs are made, and nothing else is touched. */
  ghost predicate Readied(before: Disk, after: Disk, at: Place, r: Source, l: Option<Target>, o: Options) {
    forall x: Place :: NodeAt(after, x) ==
      (if at < x && Entered(r, l, o, From(at, x)) then Some(Folder) else NodeAt(before, x))
  }

  /** The same, for the paths that start with `n`. */
  ghost predicate AgreesOn(d: Disk, at: Place, l: Option<Target>, n: string) {
    IsFolder(d, at) && forall p: Path :: p[0] == n ==> NodeAt(d, at + p) == Expected(l, p)
  }

  lemma StillAgrees(before: Disk, after: Disk, at: Place, r: Source, l: Option<Target>, o: Options,
                    todo: set<string>, n: string)
    requires Agrees(before, at, l) && Made(before, after, at, r, l, o, Starting(r.dirs.Keys, todo)) && n in todo
    ensures AgreesOn(after, at, l, n)
  {
    assert NodeAt(after, at) == NodeAt(before, at);
    forall p: Path | p[0] == n ensures NodeAt(after, at + p) == Expected(l, p) {
      assert From(at, at + p) == p;
    }
  }

  lemma BelowAgrees(d: Disk, at: Place, l: Option<Target>, n: string)
    requires AgreesOn(d, at, l, n) && TargetOk(l)
    ensures Sub(l, n).Some? ==> Agrees(d, at + [n], Sub(l, n)) && TargetOk(Sub(l, n))
    ensures LocalFileThere(l, n) ==> Sub(l, n).None?
    ensures Sub(l, n).None? ==> forall x :: at + [n] < x ==> x !in d
    ensures !LocalThere(l, n) ==> at + [n] !in d
  {
    var top: Path := [n];
    assert NodeAt(d, at + top) == Expected(l, top);
    forall p: Path ensures NodeAt(d, at + [n] + p) == Expected(Sub(l, n), p) {
      var q: Path := [n] + p;
      assert at + q == at + [n] + p;
      assert q[1..] == p;
      assert NodeAt(d, at + q) == Expected(l, q);
    }
    forall x | at + [n] < x && Sub(l, n).None? ensures x !in d {
      assert x == at + [n] + From(at + [n], x);
    }
  }

  /** Once the place is cleared and the directory made, the disk agrees with an empty one. */
  lemma FreshAgrees(before: Disk, after: Disk, at: Place, l: Option<Target>, n: string)
    requires AgreesOn(before, at, l, n) && TargetOk(l) && Sub(l, n).None?
    requires forall x :: NodeAt(after, x) == if x == at + [n] then Some(Folder) else NodeAt(before, x)
    ensures Agrees(after, at + [n], None)
  {
    BelowAgrees(before, at, l, n);
    forall p: Path ensures NodeAt(after, at + [n] + p) == None {
      assert NodeAt(after, at + [n] + p) == NodeAt(before, at + [n] + p);
      assert at + [n] < at + [n] + p;
    }
  }

  /** Making the directory `n` and what is below it. */
  lemma MadeBelow(before: Disk, middle: Disk, after: Disk, at: Place, r: Source, l: Option<Target>, o: Options,
                  n: string)
    requires n in r.dirs && (LocalFileThere(l, n) ==> o.deleteMissing)
    requires forall x :: NodeAt(middle, x) == if x == at + [n] then Some(Folder) else NodeAt(before, x)
    requires Readied(middle, after, at + [n], r.dirs[n], Sub(l, n), o)
    ensures Made(before, after, at, r, l, o, StartingWith(n))
  {
    forall x: Place ensures NodeAt(after, x) ==
      if at < x && From(at, x) in StartingWith(n) && Entered(r, l, o, From(at, x)) then Some(Folder)
      else NodeAt(before, x)
    {
      if at + [n] < x {
        assert From(at, x)[0] == n && From(at, x)[1..] == From(at + [n], x);
      } else if x == at + [n] {
        assert From(at, x) == [n];
      } else if at < x {
        assert x == at + [x[|at|]] + x[|at| + 1..];
      }
    }
  }

  lemma MadeMore(before: Disk, middle: Disk, after: Disk, at: Place, r: Source, l: Option<Target>, o: Options,
                 whole: iset<Path>, left: iset<Path>, right: iset<Path>)
    requires Made(before, middle, at, r, l, o, left) && Made(middle, after, at, r, l, o, right)
    requires Splits(whole, left, right)
    ensures Made(before, after, at, r, l, o, whole)
  {
  }

  lemma NothingMade(d: Disk, at: Place, r: Source, l: Option<Target>, o: Options, names: set<string>)
    ensures Made(d, d, at, r, l, o, Starting(names, names))
  {
  }

  lemma NotEntered(d: Disk, at: Place, r: Source, l: Option<Target>, o: Options, n: string)
    requires n in r.dirs && LocalFileThere(l, n) && !o.deleteMissing
    ensures Made(d, d, at, r, l, o, StartingWith(n))
    ensures Realises([], [], Only(Tasks(at, r, l, o), Below(n)))
  {
  }

  lemma TasksBelow(at: Place, r: Source, l: Option<Target>, o: Options, n: string, ops: seq<Task>, paths: seq<Path>)
    requires n in r.dirs && (LocalFileThere(l, n) ==> o.deleteMissing)
    requires Realises(ops, paths, Tasks(at + [n], r.dirs[n], Sub(l, n), o))
    ensures Realises(ops, Prefixed(n, paths), Only(Tasks(at, r, l, o), Below(n)))
  {
    RealisesUnder(ops, paths, Tasks(at + [n], r.dirs[n], Sub(l, n), o), n);
    forall p: Path | p in Below(n)
      ensures TaskFor(at, r, l, o, p) == TaskFor(at + [n], r.dirs[n], Sub(l, n), o, p[1..])
    {
    }
    hide TaskFor, Realises;
    assert Under(n, Tasks(at + [n], r.dirs[n], Sub(l, n), o)) == Only(Tasks(at, r, l, o), Below(n));
  }

  /** Goes into one remote directory. */
  method DownloadDir(disk: LocalDisk, queue: Queue<Task>, at: Place, r: Source, l: Option<Target>, o: Options,
                     n: string)
    returns (ghost ops: seq<Task>, ghost paths: seq<Path>)
    requires n in r.dirs && AgreesOn(disk.nodes, at, l, n) && TargetOk(l)
    modifies disk, queue
    ensures queue.ops == old(queue.ops) + ops
    ensures Realises(ops, paths, Only(Tasks(at, r, l, o), Below(n)))
    ensures Made(old(disk.nodes), disk.nodes, at, r, l, o, StartingWith(n))
    decreases r, 0
  {
    var newDir := Sub(l, n);
    var shadowed := LocalFileThere(l, n);
    ops, paths := [], [];
    if shadowed && !o.deleteMissing {
      NotEntered(disk.nodes, at, r, l, o, n);
    } else {
      BelowAgrees(disk.nodes, at, l, n);
      ClearPlace(disk, at, l, n);
      ghost var middle := disk.nodes;
      ops, paths := ProcessDownloads(disk, queue, at + [n], r.dirs[n], newDir, o);
      MadeBelow(old(disk.nodes), middle, disk.nodes, at, r, l, o, n);
      TasksBelow(at, r, l, o, n, ops, paths);
      paths := Prefixed(n, paths);
    }
  }

  /** Removes a file that is in the way and makes the directory, unless it is there. */
  method ClearPlace(disk: LocalDisk, at: Place, l: Option<Target>, n: string)
    requires AgreesOn(disk.nodes, at, l, n) && TargetOk(l)
    modifies disk
    ensures forall x :: NodeAt(disk.nodes, x) == if x == at + [n] then Some(Folder) else old(NodeAt(disk.nodes, x))
    ensures Agrees(disk.nodes, at + [n], Sub(l, n))
  {
    ghost var before := disk.nodes;
    BelowAgrees(disk.nodes, at, l, n);
    var top: Path := [n];
    assert NodeAt(disk.nodes, at + top) == Expected(l, top);
    assert (at + [n])[..|at + [n]| - 1] == at;
    if LocalFileThere(l, n) { disk.Remove(at + [n]); }
    if Sub(l, n).None? {
      disk.MakeDir(at + [n]);
      forall x ensures NodeAt(disk.nodes, x) == if x == at + [n] then Some(Folder) else NodeAt(before, x) {
        if at + [n] < x { assert x !in before; }
      }
      FreshAgrees(before, disk.nodes, at, l, n);
    }
  }

  lemma FileTask(at: Place, r: Source, l: Option<Target>, o: Options, n: string)
    requires n in r.files
    ensures var own := Only(Tasks(at, r, l, o), Just(n));
      if o.keep(r.files[n].key.path) && (Sub(l, n).None? || o.deleteMissing)
      then Realises([Fetch(at + [n], r.files[n], Sub(l, n).Some?)], [[n]], own) else Realises([], [], own)
  {
    var own := Only(Tasks(at, r, l, o), Just(n));
    if o.keep(r.files[n].key.path) && (Sub(l, n).None? || o.deleteMissing) {
      RealisesOne(Fetch(at + [n], r.files[n], Sub(l, n).Some?), [n], own);
    } else {
      RealisesNothing(own);
    }
  }

  lemma UnseenTask(at: Place, r: Source, l: Option<Target>, o: Options, n: string)
    requires LocalThere(l, n) && n !in r.files && n !in r.dirs && o.deleteMissing
    ensures Realises([Remove(at + [n])], [[n]], Only(Tasks(at, r, l, o), Just(n)))
  {
    RealisesOne(Remove(at + [n]), [n], Only(Tasks(at, r, l, o), Just(n)));
  }

  /** Schedules the transfer of one file. */
  method DownloadFile(queue: Queue<Task>, at: Place, r: Source, l: Option<Target>, o: Options, n: string)
    returns (ghost ops: seq<Task>)
    requires n in r.files
    modifies queue
    ensures queue.ops == old(queue.ops) + ops
    ensures ops == [] || |ops| == 1
    ensures Realises(ops, if ops == [] then [] else [[n]], Only(Tasks(at, r, l, o), Just(n)))
  {
    FileTask(at, r, l, o, n);
    ops := [];
    var file := r.files[n];
    if o.keep(file.key.path) {
      var shadowed := Sub(l, n).Some?;
      if !shadowed || o.deleteMissing {
        queue.Schedule(Fetch(at + [n], file, shadowed));
        ops := [Fetch(at + [n], file, shadowed)];
      }
    }
  }

  method DownloadFiles(queue: Queue<Task>, at: Place, r: Source, l: Option<Target>, o: Options, unseen0: set<string>)
    returns (unseen: set<string>, ghost ops: seq<Task>, ghost paths: seq<Path>)
    modifies queue
    ensures queue.ops == old(queue.ops) + ops
    ensures Realises(ops, paths, Only(Tasks(at, r, l, o), Tops(r.files.Keys, {})))
    ensures unseen == unseen0 - r.files.Keys
  {
    hide *;
    unseen, ops, paths := unseen0, [], [];
    var todo := r.files.Keys;
    ghost var names := r.files.Keys;
    NothingYet(Tasks(at, r, l, o), names);
    while todo != {}
      invariant todo <= names
      invariant queue.ops == old(queue.ops) + ops
      invariant Realises(ops, paths, Only(Tasks(at, r, l, o), Tops(names, todo)))
      invariant unseen == unseen0 - (names - todo)
      decreases |todo|
    {
      var n :| n in todo;
      unseen := unseen - {n};
      ghost var more := DownloadFile(queue, at, r, l, o, n);
      ghost var morePaths: seq<Path> := if more == [] then [] else [[n]];
      ScopesGrow(names, todo, n);
      RealisesMore(Tasks(at, r, l, o), Tops(names, todo - {n}), Tops(names, todo), Just(n),
                   ops, paths, more, morePaths);
      Associative(old(queue.ops), ops, more);
      ops, paths, todo := ops + more, paths + morePaths, todo - {n};
    }
  }

  method DownloadDirs(disk: LocalDisk, queue: Queue<Task>, at: Place, r: Source, l: Option<Target>, o: Options,
                      unseen0: set<string>)
    returns (unseen: set<string>, ghost ops: seq<Task>, ghost paths: seq<Path>)
    requires Agrees(disk.nodes, at, l) && TargetOk(l)
    modifies disk, queue
    ensures queue.ops == old(queue.ops) + ops
    ensures Realises(ops, paths, Only(Tasks(at, r, l, o), Deeps(r.dirs.Keys, {})))
    ensures Made(old(disk.nodes), disk.nodes, at, r, l, o, Starting(r.dirs.Keys, {}))
    ensures unseen == unseen0 - r.dirs.Keys
    decreases r, 1
  {
    hide *;
    unseen, ops, paths := unseen0, [], [];
    var todo := r.dirs.Keys;
    ghost var names, before := r.dirs.Keys, disk.nodes;
    NothingYet(Tasks(at, r, l, o), names);
    NothingMade(before, at, r, l, o, names);
    while todo != {}
      invariant todo <= names
      invariant queue.ops == old(queue.ops) + ops
      invariant Realises(ops, paths, Only(Tasks(at, r, l, o), Deeps(names, todo)))
      invariant Made(before, disk.nodes, at, r, l, o, Starting(names, todo))
      invariant unseen == unseen0 - (names - todo)
      decreases |todo|
    {
      var n :| n in todo;
      unseen := unseen - {n};
      StillAgrees(before, disk.nodes, at, r, l, o, todo, n);
      ghost var more, morePaths, middle;
      middle := disk.nodes;
      more, morePaths := DownloadDir(disk, queue, at, r, l, o, n);
      ScopesGrow(names, todo, n);
      MadeMore(before, middle, disk.nodes, at, r, l, o, 
               Starting(names, todo - {n}), Starting(names, todo), StartingWith(n));
      RealisesMore(Tasks(at, r, l, o), Deeps(names, todo - {n}), Deeps(names, todo), Below(n),
                   ops, paths, more, morePaths);
      Associative(old(queue.ops), ops, more);
      ops, paths, todo := ops + more, paths + morePaths, todo - {n};
    }
  }

  /** The local names that the remote side does not know. */
  function Unknown(r: Source, l: Option<Target>): set<string> {
    if l.Some? then l.value.files.Keys + l.value.dirs.Keys - r.files.Keys - r.dirs.Keys else {}
  }

  lemma UnknownNames(r: Source, l: Option<Target>)
    ensures forall n :: n in Unknown(r, l) ==> LocalThere(l, n) && n !in r.files && n !in r.dirs
  {
  }

  method RemoveUnseen(queue: Queue<Task>, at: Place, ghost r: Source, ghost l: Option<Target>, o: Options,
                      unseen: set<string>)
    returns (ghost ops: seq<Task>, ghost paths: seq<Path>)
    requires unseen == Unknown(r, l) && o.deleteMissing
    modifies queue
    ensures queue.ops == old(queue.ops) + ops
    ensures Realises(ops, paths, Only(Tasks(at, r, l, o), Tops(unseen, {})))
  {
    hide *;
    ops, paths := [], [];
    var todo := unseen;
    NothingYet(Tasks(at, r, l, o), unseen);
    UnknownNames(r, l);
    while todo != {}
      invariant todo <= unseen
      invariant queue.ops == old(queue.ops) + ops
      invariant Realises(ops, paths, Only(Tasks(at, r, l, o), Tops(unseen, todo)))
      decreases |todo|
    {
      var n :| n in todo;
      queue.Schedule(Remove(at + [n]));
      UnseenTask(at, r, l, o, n);
      ScopesGrow(unseen, todo, n);
      RealisesMore(Tasks(at, r, l, o), Tops(unseen, todo - {n}), Tops(unseen, todo), Just(n),
                   ops, paths, [Remove(at + [n])], [[n]]);
      Associative(old(queue.ops), ops, [Remove(at + [n])]);
      ops, paths, todo := ops + [Remove(at + [n])], paths + [[n]], todo - {n};
    }
  }

  /** Nothing is scheduled, and no directory made, for any other name. */
  lemma WholePlan(at: Place, r: Source, l: Option<Target>, o: Options)
    ensures var files, dirs, rest := Tops(r.files.Keys, {}), Deeps(r.dirs.Keys, {}), Tops(Unknown(r, l), {});
      && Splits(files + dirs, files, dirs)
      && Splits(files + dirs + rest, files + dirs, rest)
      && Only(Tasks(at, r, l, o), files + dirs + rest) == Tasks(at, r, l, o)
      && (!o.deleteMissing ==> Only(Tasks(at, r, l, o), files + dirs) == Tasks(at, r, l, o))
  {
    var files, dirs, rest := Tops(r.files.Keys, {}), Deeps(r.dirs.Keys, {}), Tops(Unknown(r, l), {});
    forall p | p in Tasks(at, r, l, o) ensures p in files + dirs || (o.deleteMissing && p in rest) {
    }
  }

  lemma AllMade(before: Disk, after: Disk, at: Place, r: Source, l: Option<Target>, o: Options)
    requires Made(before, after, at, r, l, o, Starting(r.dirs.Keys, {}))
    ensures Readied(before, after, at, r, l, o)
  {
  }

  /** Plans a download of the remote tree `r` over the local directory `at`: makes the directories
      that are needed, and schedules exactly the tasks that are wanted. */
  method ProcessDownloads(disk: LocalDisk, queue: Queue<Task>, at: Place, r: Source, l: Option<Target>, o: Options)
    returns (ghost ops: seq<Task>, ghost paths: seq<Path>)
    requires Agrees(disk.nodes, at, l) && TargetOk(l)
    modifies disk, queue
    ensures queue.ops == old(queue.ops) + ops
    ensures Realises(ops, paths, Tasks(at, r, l, o))
    ensures Readied(old(disk.nodes), disk.nodes, at, r, l, o)
    decreases r, 2
  {
    var unseen := {};
    if l.Some? { unseen := l.value.files.Keys + l.value.dirs.Keys; }
    assert Unknown(r, l) == unseen - r.files.Keys - r.dirs.Keys;
    hide *;
    WholePlan(at, r, l, o);
    ghost var files, dirs, want := Tops(r.files.Keys, {}), Deeps(r.dirs.Keys, {}), Tasks(at, r, l, o);
    ghost var more, morePaths;
    unseen, ops, paths := DownloadFiles(queue, at, r, l, o, unseen);
    unseen, more, morePaths := DownloadDirs(disk, queue, at, r, l, o, unseen);
    AllMade(old(disk.nodes), disk.nodes, at, r, l, o);
    RealisesMore(want, files + dirs, files, dirs, ops, paths, more, morePaths);
    Associative(old(queue.ops), ops, more);
    ops, paths := ops + more, paths + morePaths;
    if o.deleteMissing {
      more, morePaths := RemoveUnseen(queue, at, r, l, o, unseen);
      RealisesMore(want, files + dirs + Tops(unseen, {}), files + dirs, Tops(unseen, {}), ops, paths, more, morePaths);
      Associative(old(queue.ops), ops, more);
      ops, paths := ops + more, paths + morePaths;
    }
  }
}
