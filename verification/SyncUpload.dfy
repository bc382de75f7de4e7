/** Planning an upload: what the synchroniser schedules to bring the remote side in line. */
module SyncUpload {
  import opened Bytes
  import opened Connection
  import opened Trees
  import opened Wrappers
  import opened Plans

  datatype Content = Content(mtime: int, data: seq<Byte>)
  datatype LocalFile = LocalFile(path: string, unsyncable: bool, content: Content)
  datatype Options = Options(keep: string -> bool, deleteMissing: bool)
  datatype Op = Upload(key: S3Path, file: LocalFile) | Delete(key: S3Path)

  type Locals = Dir<LocalFile>
  type Remotes = Dir<S3Path>

  /** What an upload does to the object of a path. */
  datatype Fate = Untouched | Put(file: LocalFile) | Drop

  predicate Sent(f: LocalFile, o: Options) { !f.unsyncable && o.keep(f.path) }

  predicate RemoteFile(r: Option<Remotes>, n: string) { r.Some? && n in r.value.files }

  function FateOf(l: Locals, r: Option<Remotes>, o: Options, p: Path): Fate
    decreases |p|
  {
    var n := p[0];
    if |p| == 1 then
      if n in l.files then
        if Sent(l.files[n], o) && (Sub(r, n).None? || o.deleteMissing) then Put(l.files[n]) else Untouched
      else
        if RemoteFile(r, n) && o.deleteMissing then Drop else Untouched
    else if n in l.dirs then
      if !RemoteFile(r, n) then FateOf(l.dirs[n], Sub(r, n), o, p[1..])
      else if o.deleteMissing then FateOf(l.dirs[n], None, o, p[1..])
      else Untouched
    else if Sub(r, n).Some? && o.deleteMissing && (n in l.files ==> Sent(l.files[n], o)) then
      if Doomed(Sub(r, n).value, o, p[1..]) then Drop else Untouched
    else
      Untouched
  }

  /** The object goes when the directory above it goes, if the filters name it. */
  predicate Doomed(d: Remotes, o: Options, p: Path) {
    Has(d, p) && o.keep(Get(d, p).path)
  }

  /** A listing: every object is known under its own key. */
  ghost predicate Named(root: S3Path, d: Remotes) {
    root.path != "" && Clean(d) && forall p: Path :: Has(d, p) ==> Get(d, p) == Key(root, p)
  }

  ghost predicate Listing(root: S3Path, r: Option<Remotes>) {
    root.path != "" && (r.Some? ==> Named(root, r.value))
  }

  /** How the listing names what it finds. */
  ghost predicate Listed(root: S3Path, d: Remotes)
    decreases d
  {
    && root.path != ""
    && (forall n :: n in d.files ==> NameOk(n) && d.files[n] == Derive(root, n))
    && (forall n :: n in d.dirs ==> NameOk(n) && Listed(Derive(root, n + "/"), d.dirs[n]))
  }

  lemma {:induction false} ListedKey(root: S3Path, d: Remotes, p: Path)
    requires Listed(root, d) && Has(d, p)
    ensures Get(d, p) == Key(root, p)
    decreases |p|
  {
    if |p| == 1 {
      DeriveFile(root, p[0]);
      assert p == [p[0]];
    } else {
      ListedKey(Derive(root, p[0] + "/"), d.dirs[p[0]], p[1..]);
      ListedIsClean(Derive(root, p[0] + "/"), d.dirs[p[0]]);
      DeriveDirectory(root, p[0], p[1..]);
      assert p == [p[0]] + p[1..];
    }
  }

  lemma {:induction false} ListedIsClean(root: S3Path, d: Remotes)
    requires Listed(root, d)
    ensures Clean(d)
    decreases d
  {
    forall n | n in d.dirs ensures Clean(d.dirs[n]) {
      ListedIsClean(Derive(root, n + "/"), d.dirs[n]);
    }
  }

  /** The listing derives directory names with a trailing slash; the keys come out the same. */
  lemma ListedIsNamed(root: S3Path, d: Remotes)
    requires Listed(root, d)
    ensures Named(root, d)
  {
    ListedIsClean(root, d);
    forall p: Path | Has(d, p) ensures Get(d, p) == Key(root, p) {
      ListedKey(root, d, p);
    }
  }

  lemma SubNamed(root: S3Path, d: Remotes, n: string)
    requires Named(root, d) && n in d.dirs
    ensures Derive(root, n).path != "" && Named(Derive(root, n), d.dirs[n])
  {
    DeriveFile(root, n);
    forall p: Path | Has(d.dirs[n], p) ensures Get(d.dirs[n], p) == Key(Derive(root, n), p) {
      var q: Path := [n] + p;
      assert q[1..] == p;
      assert Has(d, q) && Get(d, q) == Get(d.dirs[n], p);
      DeriveDirectory(root, n, p);
    }
  }

  function OpFor(root: S3Path, l: Locals, r: Option<Remotes>, o: Options, p: Path): Option<Op>
    requires root.path != ""
  {
    match FateOf(l, r, o, p)
    case Untouched => None
    case Put(f) => Some(Upload(Key(root, p), f))
    case Drop => Some(Delete(Key(root, p)))
  }

  /** Everything an upload asks for. */
  ghost function Wanted(root: S3Path, l: Locals, r: Option<Remotes>, o: Options): imap<Path, Op>
    requires root.path != ""
  {
    imap p: Path | OpFor(root, l, r, o, p).Some? :: OpFor(root, l, r, o, p).value
  }

  /* Deleting a remote directory. */

  ghost function Deletions(d: Remotes, o: Options): imap<Path, Op> {
    imap p: Path | Doomed(d, o, p) :: Delete(Get(d, p))
  }

  lemma FileDeletions(d: Remotes, o: Options, n: string)
    requires n in d.files
    ensures o.keep(d.files[n].path) ==> Only(Deletions(d, o), Just(n)) == Own(n, Delete(d.files[n]))
    ensures !o.keep(d.files[n].path) ==> Only(Deletions(d, o), Just(n)) == imap[]
  {
  }

  lemma DirDeletions(d: Remotes, o: Options, n: string)
    requires n in d.dirs
    ensures Only(Deletions(d, o), Below(n)) == Under(n, Deletions(d.dirs[n], o))
  {
  }

  lemma DeletionsParts(d: Remotes, o: Options)
    ensures Only(Deletions(d, o), Tops(d.files.Keys, {})) + Only(Deletions(d, o), Deeps(d.dirs.Keys, {}))
         == Deletions(d, o)
    ensures forall p :: p in Only(Deletions(d, o), Tops(d.files.Keys, {})) ==>
      p !in Only(Deletions(d, o), Deeps(d.dirs.Keys, {}))
  {
  }

  lemma FileDeleted(d: Remotes, o: Options, todo: set<string>, n: string, ops: seq<Op>, paths: seq<Path>)
    requires n in d.files && n in todo
    requires Realises(ops, paths, Only(Deletions(d, o), Tops(d.files.Keys, todo)))
    ensures var want := Only(Deletions(d, o), Tops(d.files.Keys, todo - {n}));
      if o.keep(d.files[n].path) then Realises(ops + [Delete(d.files[n])], paths + [[n]], want)
      else Realises(ops, paths, want)
  {
    ScopesGrow(d.files.Keys, todo, n);
    FileDeletions(d, o, n);
    var whole, before := Tops(d.files.Keys, todo - {n}), Tops(d.files.Keys, todo);
    if o.keep(d.files[n].path) {
      RealisesOwn(n, Delete(d.files[n]));
      RealisesMore(Deletions(d, o), whole, before, Just(n), ops, paths, [Delete(d.files[n])], [[n]]);
    } else {
      RealisesMore(Deletions(d, o), whole, before, Just(n), ops, paths, [], []);
      assert ops + [] == ops && paths + [] == paths;
    }
  }

  lemma DirDeleted(d: Remotes, o: Options, todo: set<string>, n: string,
                   ops: seq<Op>, paths: seq<Path>, subops: seq<Op>, subpaths: seq<Path>)
    requires n in d.dirs && n in todo
    requires Realises(ops, paths, Only(Deletions(d, o), Deeps(d.dirs.Keys, todo)))
    requires Realises(subops, subpaths, Deletions(d.dirs[n], o))
    ensures Realises(ops + subops, paths + Prefixed(n, subpaths), Only(Deletions(d, o), Deeps(d.dirs.Keys, todo - {n})))
  {
    ScopesGrow(d.dirs.Keys, todo, n);
    DirDeletions(d, o, n);
    RealisesUnder(subops, subpaths, Deletions(d.dirs[n], o), n);
    RealisesMore(Deletions(d, o), Deeps(d.dirs.Keys, todo - {n}), Deeps(d.dirs.Keys, todo), Below(n),
                 ops, paths, subops, Prefixed(n, subpaths));
  }

  lemma AllDeleted(d: Remotes, o: Options, ops: seq<Op>, paths: seq<Path>, more: seq<Op>, morePaths: seq<Path>)
    requires Realises(ops, paths, Only(Deletions(d, o), Tops(d.files.Keys, {})))
    requires Realises(more, morePaths, Only(Deletions(d, o), Deeps(d.dirs.Keys, {})))
    ensures Realises(ops + more, paths + morePaths, Deletions(d, o))
  {
    DeletionsParts(d, o);
    RealisesBoth(ops, paths, Only(Deletions(d, o), Tops(d.files.Keys, {})),
                 more, morePaths, Only(Deletions(d, o), Deeps(d.dirs.Keys, {})));
  }

  method DeleteFiles(queue: Queue<Op>, d: Remotes, o: Options) returns (ghost ops: seq<Op>, ghost paths: seq<Path>)
    modifies queue
    ensures queue.ops == old(queue.ops) + ops
    ensures Realises(ops, paths, Only(Deletions(d, o), Tops(d.files.Keys, {})))
  {
    hide *;
    ops, paths := [], [];
    var todo := d.files.Keys;
    NothingYet(Deletions(d, o), todo);
    while todo != {}
      invariant todo <= d.files.Keys
      invariant queue.ops == old(queue.ops) + ops
      invariant Realises(ops, paths, Only(Deletions(d, o), Tops(d.files.Keys, todo)))
      decreases |todo|
    {
      var n :| n in todo;
      FileDeleted(d, o, todo, n, ops, paths);
      var file := d.files[n];
      if o.keep(file.path) {
        queue.Schedule(Delete(file));
        Associative(old(queue.ops), ops, [Delete(file)]);
        ops, paths := ops + [Delete(file)], paths + [[n]];
      }
      todo := todo - {n};
    }
  }

  method DeleteDirs(queue: Queue<Op>, d: Remotes, o: Options) returns (ghost ops: seq<Op>, ghost paths: seq<Path>)
    modifies queue
    ensures queue.ops == old(queue.ops) + ops
    ensures Realises(ops, paths, Only(Deletions(d, o), Deeps(d.dirs.Keys, {})))
    decreases d, 0
  {
    hide *;
    ops, paths := [], [];
    var todo := d.dirs.Keys;
    NothingYet(Deletions(d, o), todo);
    while todo != {}
      invariant todo <= d.dirs.Keys
      invariant queue.ops == old(queue.ops) + ops
      invariant Realises(ops, paths, Only(Deletions(d, o), Deeps(d.dirs.Keys, todo)))
      decreases |todo|
    {
      var n :| n in todo;
      var ok, subops, subpaths := DeletePossiblyRecursive(queue, d.dirs[n], o, false);
      DirDeleted(d, o, todo, n, ops, paths, subops, subpaths);
      Associative(old(queue.ops), ops, subops);
      ops, paths, todo := ops + subops, paths + Prefixed(n, subpaths), todo - {n};
    }
  }

  /** Schedules the deletion of everything below a remote directory that the filters name. Without
      leave to recurse, a directory with subdirectories is a fatal error. */
  method DeletePossiblyRecursive(queue: Queue<Op>, d: Remotes, o: Options, nonRecursive: bool)
    returns (ok: bool, ghost ops: seq<Op>, ghost paths: seq<Path>)
    modifies queue
    ensures ok <==> !nonRecursive || d.dirs.Keys == {}
    ensures !ok ==> queue.ops == old(queue.ops)
    ensures ok ==> queue.ops == old(queue.ops) + ops
    ensures ok ==> Realises(ops, paths, Deletions(d, o))
    decreases d, 1
  {
    hide *;
    if nonRecursive && d.dirs.Keys != {} { return false, [], []; }
    ghost var more, morePaths;
    ops, paths := DeleteFiles(queue, d, o);
    more, morePaths := DeleteDirs(queue, d, o);
    Associative(old(queue.ops), ops, more);
    AllDeleted(d, o, ops, paths, more, morePaths);
    ok, ops, paths := true, ops + more, paths + morePaths;
  }

  /* One name at a time. */

  /** A directory above an object that goes takes the object along under its own key. */
  lemma DoomedOp(root: S3Path, l: Locals, r: Option<Remotes>, o: Options, p: Path)
    requires Listing(root, r) && |p| > 1 && p[0] !in l.dirs && Sub(r, p[0]).Some? && o.deleteMissing
    requires p[0] in l.files ==> Sent(l.files[p[0]], o)
    ensures Doomed(Sub(r, p[0]).value, o, p[1..]) ==>
      OpFor(root, l, r, o, p) == Some(Delete(Get(Sub(r, p[0]).value, p[1..])))
    ensures !Doomed(Sub(r, p[0]).value, o, p[1..]) ==> OpFor(root, l, r, o, p) == None
  {
    var sub := Sub(r, p[0]).value;
    if Doomed(sub, o, p[1..]) {
      assert Has(r.value, p) && Get(r.value, p) == Get(sub, p[1..]);
    }
  }

  /** Inside a local directory the planning goes on with the derived key. */
  lemma DirOp(root: S3Path, l: Locals, r: Option<Remotes>, o: Options, p: Path)
    requires root.path != "" && |p| > 1 && p[0] in l.dirs && NameOk(p[0])
    ensures Derive(root, p[0]).path != ""
    ensures !RemoteFile(r, p[0]) ==>
      OpFor(root, l, r, o, p) == OpFor(Derive(root, p[0]), l.dirs[p[0]], Sub(r, p[0]), o, p[1..])
    ensures RemoteFile(r, p[0]) && o.deleteMissing ==>
      OpFor(root, l, r, o, p) == OpFor(Derive(root, p[0]), l.dirs[p[0]], None, o, p[1..])
    ensures RemoteFile(r, p[0]) && !o.deleteMissing ==> OpFor(root, l, r, o, p) == None
  {
    DeriveDirectory(root, p[0], p[1..]);
    assert p == [p[0]] + p[1..];
  }

  lemma TopOp(root: S3Path, l: Locals, r: Option<Remotes>, o: Options, n: string)
    requires Listing(root, r) && NameOk(n)
    ensures n in l.files && Sent(l.files[n], o) && (Sub(r, n).None? || o.deleteMissing) ==>
      OpFor(root, l, r, o, [n]) == Some(Upload(Derive(root, n), l.files[n]))
    ensures n in l.files && !(Sent(l.files[n], o) && (Sub(r, n).None? || o.deleteMissing)) ==>
      OpFor(root, l, r, o, [n]) == None
    ensures n !in l.files && RemoteFile(r, n) && o.deleteMissing ==>
      OpFor(root, l, r, o, [n]) == Some(Delete(r.value.files[n]))
    ensures n !in l.files && !(RemoteFile(r, n) && o.deleteMissing) ==> OpFor(root, l, r, o, [n]) == None
  {
    DeriveFile(root, n);
    if RemoteFile(r, n) { assert Has(r.value, [n]) && Get(r.value, [n]) == r.value.files[n]; }
  }

  /** What is asked for below the name `n`, seen from there. */
  ghost function SubWants(root: S3Path, l: Locals, r: Option<Remotes>, o: Options, n: string): imap<Path, Op>
    requires root.path != "" && Derive(root, n).path != ""
  {
    if n in l.dirs then
      if !RemoteFile(r, n) then Wanted(Derive(root, n), l.dirs[n], Sub(r, n), o)
      else if o.deleteMissing then Wanted(Derive(root, n), l.dirs[n], None, o)
      else imap[]
    else if Sub(r, n).Some? && o.deleteMissing && (n in l.files ==> Sent(l.files[n], o)) then
      Deletions(Sub(r, n).value, o)
    else
      imap[]
  }

  lemma DeepOp(root: S3Path, l: Locals, r: Option<Remotes>, o: Options, p: Path)
    requires Listing(root, r) && |p| > 1 && NameOk(p[0])
    ensures Derive(root, p[0]).path != ""
    ensures OpFor(root, l, r, o, p).Some? <==> p[1..] in SubWants(root, l, r, o, p[0])
    ensures OpFor(root, l, r, o, p).Some? ==> OpFor(root, l, r, o, p).value == SubWants(root, l, r, o, p[0])[p[1..]]
  {
    DeriveFile(root, p[0]);
    if p[0] in l.dirs {
      DirOp(root, l, r, o, p);
    } else if Sub(r, p[0]).Some? && o.deleteMissing && (p[0] in l.files ==> Sent(l.files[p[0]], o)) {
      DoomedOp(root, l, r, o, p);
    }
  }

  lemma DeepOps(root: S3Path, l: Locals, r: Option<Remotes>, o: Options, n: string)
    requires Listing(root, r) && NameOk(n)
    ensures Derive(root, n).path != ""
    ensures forall p: Path :: |p| > 1 && p[0] == n ==>
      (OpFor(root, l, r, o, p).Some? <==> p[1..] in SubWants(root, l, r, o, n))
    ensures forall p: Path :: p[0] == n && |p| > 1 && OpFor(root, l, r, o, p).Some? ==>
      OpFor(root, l, r, o, p).value == SubWants(root, l, r, o, n)[p[1..]]
  {
    DeriveFile(root, n);
    forall p: Path | p[0] == n && |p| > 1
      ensures OpFor(root, l, r, o, p).Some? <==> p[1..] in SubWants(root, l, r, o, n)
      ensures OpFor(root, l, r, o, p).Some? ==> OpFor(root, l, r, o, p).value == SubWants(root, l, r, o, n)[p[1..]]
    {
      DeepOp(root, l, r, o, p);
    }
  }

  /** What is asked for at the name `n` and below it. */
  lemma NameWants(root: S3Path, l: Locals, r: Option<Remotes>, o: Options, n: string)
    requires Listing(root, r) && NameOk(n)
    ensures Derive(root, n).path != ""
    ensures Only(Wanted(root, l, r, o), StartingWith(n))
         == Joined(n, OpFor(root, l, r, o, [n]), SubWants(root, l, r, o, n))
  {
    DeepOps(root, l, r, o, n);
    IsJoined(Only(Wanted(root, l, r, o), StartingWith(n)), n, OpFor(root, l, r, o, [n]), SubWants(root, l, r, o, n));
  }

  lemma TopWants(root: S3Path, l: Locals, r: Option<Remotes>, o: Options, n: string)
    requires root.path != ""
    ensures Only(Wanted(root, l, r, o), Just(n)) == Joined(n, OpFor(root, l, r, o, [n]), imap[])
  {
  }

  lemma BelowWants(root: S3Path, l: Locals, r: Option<Remotes>, o: Options, n: string)
    requires Listing(root, r) && NameOk(n)
    ensures Derive(root, n).path != ""
    ensures Only(Wanted(root, l, r, o), Below(n)) == Joined(n, None, SubWants(root, l, r, o, n))
  {
    DeepOps(root, l, r, o, n);
  }

  lemma FileRealised(root: S3Path, l: Locals, r: Option<Remotes>, o: Options, n: string, ops: seq<Op>, paths: seq<Path>)
    requires Listing(root, r) && NameOk(n) && n in l.files && n !in l.dirs && Derive(root, n).path != ""
    requires Realises(ops, paths, SubWants(root, l, r, o, n))
    ensures var want := Only(Wanted(root, l, r, o), StartingWith(n));
      if Sent(l.files[n], o) && (Sub(r, n).None? || o.deleteMissing)
      then Realises(ops + [Upload(Derive(root, n), l.files[n])], Prefixed(n, paths) + [[n]], want)
      else Realises(ops, Prefixed(n, paths), want)
  {
    TopOp(root, l, r, o, n);
    NameWants(root, l, r, o, n);
    var sub := SubWants(root, l, r, o, n);
    if Sent(l.files[n], o) && (Sub(r, n).None? || o.deleteMissing) {
      RealisesLast(ops, paths, sub, n, Upload(Derive(root, n), l.files[n]));
    } else {
      RealisesBelow(ops, paths, sub, n);
    }
  }

  /** Plans the upload of one file, and the removal of a remote directory in its place. */
  method UploadFile(queue: Queue<Op>, root: S3Path, l: Locals, r: Option<Remotes>, o: Options, n: string)
    returns (ghost ops: seq<Op>, ghost paths: seq<Path>)
    requires Listing(root, r) && NameOk(n) && n in l.files && n !in l.dirs
    modifies queue
    ensures queue.ops == old(queue.ops) + ops
    ensures Realises(ops, paths, Only(Wanted(root, l, r, o), StartingWith(n)))
  {
    var file := l.files[n];
    DeriveFile(root, n);
    ops, paths := [], [];
    if file.unsyncable || !o.keep(file.path) {
      FileRealised(root, l, r, o, n, [], []);
    } else if r.Some? && n in r.value.dirs {
      if o.deleteMissing {
        var ok, subops, subpaths := DeletePossiblyRecursive(queue, r.value.dirs[n], o, false);
        FileRealised(root, l, r, o, n, subops, subpaths);
        queue.Schedule(Upload(Derive(root, n), file));
        ops, paths := subops + [Upload(Derive(root, n), file)], Prefixed(n, subpaths) + [[n]];
      } else {
        FileRealised(root, l, r, o, n, [], []);
      }
    } else {
      FileRealised(root, l, r, o, n, [], []);
      queue.Schedule(Upload(Derive(root, n), file));
      ops, paths := [Upload(Derive(root, n), file)], [[n]];
    }
  }

  lemma DirRealised(root: S3Path, l: Locals, r: Option<Remotes>, o: Options, n: string, ops: seq<Op>, paths: seq<Path>)
    requires Listing(root, r) && NameOk(n) && n in l.dirs && n !in l.files && Derive(root, n).path != ""
    requires Realises(ops, paths, SubWants(root, l, r, o, n))
    ensures var want := Only(Wanted(root, l, r, o), StartingWith(n));
      if RemoteFile(r, n) && o.deleteMissing
      then Realises([Delete(r.value.files[n])] + ops, [[n]] + Prefixed(n, paths), want)
      else Realises(ops, Prefixed(n, paths), want)
  {
    TopOp(root, l, r, o, n);
    NameWants(root, l, r, o, n);
    var sub := SubWants(root, l, r, o, n);
    if RemoteFile(r, n) && o.deleteMissing {
      RealisesFirst(ops, paths, sub, n, Delete(r.value.files[n]));
    } else {
      RealisesBelow(ops, paths, sub, n);
    }
  }

  /** `m` without the names that are done. */
  function Unseen<V>(m: map<string, V>, names: set<string>, todo: set<string>): map<string, V> { m - (names - todo) }

  lemma UnseenEnds<V>(m: map<string, V>, names: set<string>)
    ensures Unseen(m, names, names) == m && Unseen(m, names, {}) == m - names
  {
    assert m - {} == m;
    assert names - {} == names;
  }

  lemma UnseenStep<V>(m: map<string, V>, names: set<string>, todo: set<string>, n: string)
    requires n in names
    ensures Unseen(m, names, todo) - {n} == Unseen(m, names, todo - {n})
  {
  }

  ghost predicate LocalsOk(l: Locals) { Clean(l) && Tidy(l) }

  lemma LocalNames(l: Locals)
    requires LocalsOk(l)
    ensures forall n :: n in l.files ==> NameOk(n) && n !in l.dirs
    ensures forall n :: n in l.dirs ==> NameOk(n) && n !in l.files && LocalsOk(l.dirs[n])
  {
  }

  lemma SubListing(root: S3Path, r: Option<Remotes>, n: string)
    requires Listing(root, r) && NameOk(n)
    ensures Derive(root, n).path != "" && Listing(Derive(root, n), Sub(r, n)) && Listing(Derive(root, n), None)
  {
    DeriveFile(root, n);
    if Sub(r, n).Some? { SubNamed(root, r.value, n); }
  }

  /* The four loops of the planning. Each gives what is asked for at the names it goes through. */

  method UploadFiles(queue: Queue<Op>, root: S3Path, l: Locals, r: Option<Remotes>, o: Options,
                     unseen0: map<string, S3Path>, unseenDirs0: map<string, Remotes>)
    returns (unseen: map<string, S3Path>, unseenDirs: map<string, Remotes>, ghost ops: seq<Op>, ghost paths: seq<Path>)
    requires Listing(root, r) && LocalsOk(l)
    modifies queue
    ensures root.path != "" && queue.ops == old(queue.ops) + ops
    ensures Realises(ops, paths, Only(Wanted(root, l, r, o), Starting(l.files.Keys, {})))
    ensures unseen == unseen0 - l.files.Keys && unseenDirs == unseenDirs0 - l.files.Keys
  {
    assert root.path != "";
    hide *;
    unseen, unseenDirs, ops, paths := unseen0, unseenDirs0, [], [];
    ghost var names := l.files.Keys;
    var todo := l.files.Keys;
    LocalNames(l);
    NothingYet(Wanted(root, l, r, o), names);
    UnseenEnds(unseen0, names);
    UnseenEnds(unseenDirs0, names);
    while todo != {}
      invariant todo <= names
      invariant queue.ops == old(queue.ops) + ops
      invariant Realises(ops, paths, Only(Wanted(root, l, r, o), Starting(names, todo)))
      invariant unseen == Unseen(unseen0, names, todo) && unseenDirs == Unseen(unseenDirs0, names, todo)
      decreases |todo|
    {
      var n :| n in todo;
      UnseenStep(unseen0, names, todo, n);
      UnseenStep(unseenDirs0, names, todo, n);
      unseen, unseenDirs := unseen - {n}, unseenDirs - {n};
      ghost var more, morePaths;
      more, morePaths := UploadFile(queue, root, l, r, o, n);
      ScopesGrow(names, todo, n);
      RealisesMore(Wanted(root, l, r, o), Starting(names, todo - {n}), Starting(names, todo), StartingWith(n),
                   ops, paths, more, morePaths);
      Associative(old(queue.ops), ops, more);
      ops, paths, todo := ops + more, paths + morePaths, todo - {n};
    }
  }

  method UploadDirs(queue: Queue<Op>, root: S3Path, l: Locals, r: Option<Remotes>, o: Options,
                    unseen0: map<string, S3Path>, unseenDirs0: map<string, Remotes>)
    returns (unseen: map<string, S3Path>, unseenDirs: map<string, Remotes>, ghost ops: seq<Op>, ghost paths: seq<Path>)
    requires Listing(root, r) && LocalsOk(l)
    modifies queue
    ensures root.path != "" && queue.ops == old(queue.ops) + ops
    ensures Realises(ops, paths, Only(Wanted(root, l, r, o), Starting(l.dirs.Keys, {})))
    ensures unseen == unseen0 - l.dirs.Keys && unseenDirs == unseenDirs0 - l.dirs.Keys
    decreases l, 1
  {
    assert root.path != "";
    hide *;
    unseen, unseenDirs, ops, paths := unseen0, unseenDirs0, [], [];
    ghost var names := l.dirs.Keys;
    var todo := l.dirs.Keys;
    LocalNames(l);
    NothingYet(Wanted(root, l, r, o), names);
    UnseenEnds(unseen0, names);
    UnseenEnds(unseenDirs0, names);
    while todo != {}
      invariant todo <= names
      invariant queue.ops == old(queue.ops) + ops
      invariant Realises(ops, paths, Only(Wanted(root, l, r, o), Starting(names, todo)))
      invariant unseen == Unseen(unseen0, names, todo) && unseenDirs == Unseen(unseenDirs0, names, todo)
      decreases |todo|
    {
      var n :| n in todo;
      UnseenStep(unseen0, names, todo, n);
      UnseenStep(unseenDirs0, names, todo, n);
      unseen, unseenDirs := unseen - {n}, unseenDirs - {n};
      ghost var more, morePaths;
      more, morePaths := UploadDir(queue, root, l, r, o, n);
      ScopesGrow(names, todo, n);
      RealisesMore(Wanted(root, l, r, o), Starting(names, todo - {n}), Starting(names, todo), StartingWith(n),
                   ops, paths, more, morePaths);
      Associative(old(queue.ops), ops, more);
      ops, paths, todo := ops + more, paths + morePaths, todo - {n};
    }
  }

  /** The three ways to deal with a local directory: leave it out, delete the remote file in its place
      and go on below with nothing on the remote side, or go on below. */
  lemma DirLeftOut(root: S3Path, l: Locals, r: Option<Remotes>, o: Options, n: string)
    requires Listing(root, r) && NameOk(n) && n in l.dirs && n !in l.files && RemoteFile(r, n) && !o.deleteMissing
    ensures Realises([], [], Only(Wanted(root, l, r, o), StartingWith(n)))
  {
    SubListing(root, r, n);
    DirRealised(root, l, r, o, n, [], []);
  }

  lemma DirReplaced(root: S3Path, l: Locals, r: Option<Remotes>, o: Options, n: string, ops: seq<Op>, paths: seq<Path>)
    requires Listing(root, r) && NameOk(n) && n in l.dirs && n !in l.files && RemoteFile(r, n) && o.deleteMissing
    requires Derive(root, n).path != "" && Realises(ops, paths, Wanted(Derive(root, n), l.dirs[n], None, o))
    ensures Realises([Delete(r.value.files[n])] + ops, [[n]] + Prefixed(n, paths),
                     Only(Wanted(root, l, r, o), StartingWith(n)))
  {
    DirRealised(root, l, r, o, n, ops, paths);
  }

  lemma DirContinued(root: S3Path, l: Locals, r: Option<Remotes>, o: Options, n: string, ops: seq<Op>, paths: seq<Path>)
    requires Listing(root, r) && NameOk(n) && n in l.dirs && n !in l.files && !RemoteFile(r, n)
    requires Derive(root, n).path != "" && Realises(ops, paths, Wanted(Derive(root, n), l.dirs[n], Sub(r, n), o))
    ensures Realises(ops, Prefixed(n, paths), Only(Wanted(root, l, r, o), StartingWith(n)))
  {
    DirRealised(root, l, r, o, n, ops, paths);
  }

  /** Plans what is below one local directory, and the removal of a remote file in its place. */
  method UploadDir(queue: Queue<Op>, root: S3Path, l: Locals, r: Option<Remotes>, o: Options, n: string)
    returns (ghost ops: seq<Op>, ghost paths: seq<Path>)
    requires Listing(root, r) && NameOk(n) && n in l.dirs && n !in l.files && LocalsOk(l.dirs[n])
    modifies queue
    ensures root.path != "" && queue.ops == old(queue.ops) + ops
    ensures Realises(ops, paths, Only(Wanted(root, l, r, o), StartingWith(n)))
    decreases l, 0
  {
    assert root.path != "";
    SubListing(root, r, n);
    hide Realises, Only, Wanted, StartingWith, Listing, LocalsOk, Prefixed;
    ops, paths := [], [];
    ghost var more, morePaths;
    if RemoteFile(r, n) {
      if o.deleteMissing {
        queue.Schedule(Delete(r.value.files[n]));
        more, morePaths := ProcessUpload(queue, Derive(root, n), l.dirs[n], None, o);
        DirReplaced(root, l, r, o, n, more, morePaths);
        ops, paths := [Delete(r.value.files[n])] + more, [[n]] + Prefixed(n, morePaths);
        Associative(old(queue.ops), [Delete(r.value.files[n])], more);
      } else {
        DirLeftOut(root, l, r, o, n);
      }
    } else {
      more, morePaths := ProcessUpload(queue, Derive(root, n), l.dirs[n], Sub(r, n), o);
      DirContinued(root, l, r, o, n, more, morePaths);
      ops, paths := more, Prefixed(n, morePaths);
    }
  }

  lemma UnseenFileRealised(root: S3Path, l: Locals, r: Option<Remotes>, o: Options, n: string)
    requires Listing(root, r) && NameOk(n) && RemoteFile(r, n) && o.deleteMissing && n !in l.files
    ensures Realises([Delete(r.value.files[n])], [[n]], Only(Wanted(root, l, r, o), Just(n)))
  {
    TopWants(root, l, r, o, n);
    TopOp(root, l, r, o, n);
    RealisesOwn(n, Delete(r.value.files[n]));
  }

  lemma UnseenDirRealised(root: S3Path, l: Locals, r: Option<Remotes>, o: Options, n: string, ops: seq<Op>,
                          paths: seq<Path>)
    requires Listing(root, r) && NameOk(n) && Sub(r, n).Some? && o.deleteMissing && n !in l.files && n !in l.dirs
    requires Realises(ops, paths, Deletions(Sub(r, n).value, o))
    ensures Realises(ops, Prefixed(n, paths), Only(Wanted(root, l, r, o), Below(n)))
  {
    BelowWants(root, l, r, o, n);
    RealisesBelow(ops, paths, Deletions(Sub(r, n).value, o), n);
  }

  /** What is left over on the remote side, as far as it is to be deleted. */
  function LeftFiles(l: Locals, r: Option<Remotes>): map<string, S3Path> {
    if r.Some? then r.value.files - l.files.Keys - l.dirs.Keys else map[]
  }

  function LeftDirs(l: Locals, r: Option<Remotes>): map<string, Remotes> {
    if r.Some? then r.value.dirs - l.files.Keys - l.dirs.Keys else map[]
  }

  lemma LeftNames(root: S3Path, l: Locals, r: Option<Remotes>)
    requires Listing(root, r)
    ensures forall n :: n in LeftFiles(l, r) ==>
      NameOk(n) && n !in l.files && RemoteFile(r, n) && r.value.files[n] == LeftFiles(l, r)[n]
    ensures forall n :: n in LeftDirs(l, r) ==>
      NameOk(n) && n !in l.files && n !in l.dirs && Sub(r, n) == Some(LeftDirs(l, r)[n])
  {
  }

  /** The remote files that are left over. */
  method DeleteUnseen(queue: Queue<Op>, ghost root: S3Path, ghost l: Locals, ghost r: Option<Remotes>, o: Options,
                      unseen: map<string, S3Path>)
    returns (ghost ops: seq<Op>, ghost paths: seq<Path>)
    requires Listing(root, r) && o.deleteMissing
    requires unseen == LeftFiles(l, r)
    modifies queue
    ensures root.path != "" && queue.ops == old(queue.ops) + ops
    ensures Realises(ops, paths, Only(Wanted(root, l, r, o), Tops(unseen.Keys, {})))
  {
    assert root.path != "";
    hide *;
    ops, paths := [], [];
    LeftNames(root, l, r);
    ghost var names := unseen.Keys;
    var todo := unseen.Keys;
    NothingYet(Wanted(root, l, r, o), names);
    while todo != {}
      invariant todo <= names
      invariant queue.ops == old(queue.ops) + ops
      invariant Realises(ops, paths, Only(Wanted(root, l, r, o), Tops(names, todo)))
      decreases |todo|
    {
      var n :| n in todo;
      queue.Schedule(Delete(unseen[n]));
      UnseenFileRealised(root, l, r, o, n);
      ScopesGrow(names, todo, n);
      RealisesMore(Wanted(root, l, r, o), Tops(names, todo - {n}), Tops(names, todo), Just(n),
                   ops, paths, [Delete(unseen[n])], [[n]]);
      Associative(old(queue.ops), ops, [Delete(unseen[n])]);
      ops, paths, todo := ops + [Delete(unseen[n])], paths + [[n]], todo - {n};
    }
  }

  /** The remote directories that are left over. */
  method DeleteUnseenDirs(queue: Queue<Op>, ghost root: S3Path, ghost l: Locals, ghost r: Option<Remotes>, o: Options,
                          unseenDirs: map<string, Remotes>)
    returns (ghost ops: seq<Op>, ghost paths: seq<Path>)
    requires Listing(root, r) && o.deleteMissing
    requires unseenDirs == LeftDirs(l, r)
    modifies queue
    ensures root.path != "" && queue.ops == old(queue.ops) + ops
    ensures Realises(ops, paths, Only(Wanted(root, l, r, o), Deeps(unseenDirs.Keys, {})))
  {
    assert root.path != "";
    hide *;
    ops, paths := [], [];
    LeftNames(root, l, r);
    ghost var names := unseenDirs.Keys;
    var todo := unseenDirs.Keys;
    NothingYet(Wanted(root, l, r, o), names);
    while todo != {}
      invariant todo <= names
      invariant queue.ops == old(queue.ops) + ops
      invariant Realises(ops, paths, Only(Wanted(root, l, r, o), Deeps(names, todo)))
      decreases |todo|
    {
      var n :| n in todo;
      var ok, more, morePaths := DeletePossiblyRecursive(queue, unseenDirs[n], o, false);
      UnseenDirRealised(root, l, r, o, n, more, morePaths);
      ScopesGrow(names, todo, n);
      RealisesMore(Wanted(root, l, r, o), Deeps(names, todo - {n}), Deeps(names, todo), Below(n),
                   ops, paths, more, Prefixed(n, morePaths));
      Associative(old(queue.ops), ops, more);
      ops, paths, todo := ops + more, paths + Prefixed(n, morePaths), todo - {n};
    }
  }

  ghost function LeftOver(l: Locals, r: Option<Remotes>, o: Options): iset<Path> {
    if o.deleteMissing then Tops(LeftFiles(l, r).Keys, {}) + Deeps(LeftDirs(l, r).Keys, {}) else iset{}
  }

  lemma LeftOverSplits(l: Locals, r: Option<Remotes>, o: Options)
    ensures o.deleteMissing ==>
      Splits(LeftOver(l, r, o), Tops(LeftFiles(l, r).Keys, {}), Deeps(LeftDirs(l, r).Keys, {}))
  {
  }

  method DeleteLeftOver(queue: Queue<Op>, ghost root: S3Path, ghost l: Locals, ghost r: Option<Remotes>, o: Options,
                        unseen: map<string, S3Path>, unseenDirs: map<string, Remotes>)
    returns (ghost ops: seq<Op>, ghost paths: seq<Path>)
    requires Listing(root, r) && unseen == LeftFiles(l, r) && unseenDirs == LeftDirs(l, r)
    modifies queue
    ensures root.path != "" && queue.ops == old(queue.ops) + ops
    ensures Realises(ops, paths, Only(Wanted(root, l, r, o), LeftOver(l, r, o)))
  {
    ops, paths := [], [];
    if o.deleteMissing {
      LeftOverSplits(l, r, o);
      assert root.path != "";
      hide *;
      ops, paths := DeleteUnseen(queue, root, l, r, o, unseen);
      ghost var more, morePaths;
      more, morePaths := DeleteUnseenDirs(queue, root, l, r, o, unseenDirs);
      RealisesMore(Wanted(root, l, r, o), LeftOver(l, r, o), Tops(unseen.Keys, {}), Deeps(unseenDirs.Keys, {}),
                   ops, paths, more, morePaths);
      Associative(old(queue.ops), ops, more);
      ops, paths := ops + more, paths + morePaths;
    } else {
      RealisesNothing(Only(Wanted(root, l, r, o), LeftOver(l, r, o)));
    }
  }

  /** Nothing is asked for at any other name. */
  lemma WholePlan(root: S3Path, l: Locals, r: Option<Remotes>, o: Options)
    requires Listing(root, r) && LocalsOk(l)
    ensures var files, dirs := Starting(l.files.Keys, {}), Starting(l.dirs.Keys, {});
      && Splits(files + dirs, files, dirs)
      && Splits(files + dirs + LeftOver(l, r, o), files + dirs, LeftOver(l, r, o))
      && Only(Wanted(root, l, r, o), files + dirs + LeftOver(l, r, o)) == Wanted(root, l, r, o)
  {
    var files, dirs := Starting(l.files.Keys, {}), Starting(l.dirs.Keys, {});
    forall p | p in Wanted(root, l, r, o) ensures p in files + dirs + LeftOver(l, r, o) {
    }
  }

  /** Plans an upload of the tree `l` over the remote tree `r`: exactly the operations that are
      wanted, one for each path. */
  method ProcessUpload(queue: Queue<Op>, root: S3Path, l: Locals, r: Option<Remotes>, o: Options)
    returns (ghost ops: seq<Op>, ghost paths: seq<Path>)
    requires Listing(root, r) && LocalsOk(l)
    modifies queue
    ensures root.path != "" && queue.ops == old(queue.ops) + ops
    ensures Realises(ops, paths, Wanted(root, l, r, o))
    decreases l, 2
  {
    var unseen: map<string, S3Path>, unseenDirs: map<string, Remotes> := map[], map[];
    if r.Some? { unseen, unseenDirs := r.value.files, r.value.dirs; }
    assert root.path != "";
    assert LeftFiles(l, r) == unseen - l.files.Keys - l.dirs.Keys;
    assert LeftDirs(l, r) == unseenDirs - l.files.Keys - l.dirs.Keys;
    hide *;
    WholePlan(root, l, r, o);
    ghost var files, dirs, want := Starting(l.files.Keys, {}), Starting(l.dirs.Keys, {}), Wanted(root, l, r, o);
    ghost var more, morePaths, rest, restPaths;
    unseen, unseenDirs, ops, paths := UploadFiles(queue, root, l, r, o, unseen, unseenDirs);
    unseen, unseenDirs, more, morePaths := UploadDirs(queue, root, l, r, o, unseen, unseenDirs);
    RealisesMore(want, files + dirs, files, dirs, ops, paths, more, morePaths);
    Associative(old(queue.ops), ops, more);
    rest, restPaths := DeleteLeftOver(queue, root, l, r, o, unseen, unseenDirs);
    RealisesMore(want, files + dirs + LeftOver(l, r, o), files + dirs, LeftOver(l, r, o),
                 ops + more, paths + morePaths, rest, restPaths);
    Associative(old(queue.ops), ops + more, rest);
    ops, paths := ops + more + rest, paths + morePaths + restPaths;
  }
}
