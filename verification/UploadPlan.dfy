/** What an upload plans for a path, in one condition on the path, for any trees, filters and flags. */
module UploadPlan {
  import opened Connection
  import opened Trees
  import opened Wrappers
  import opened Plans
  import opened SyncUpload
  import opened UploadMirror

  /** Something remote is in the way of a file: a directory of its name, or a file above it. */
  ghost predicate Blocked(r: Option<Remotes>, p: Path) {
    r.Some? && (HasDir(r.value, p) || exists k :: 0 < k < |p| && Has(r.value, Up(p, k)))
  }

  lemma BlockedBelow(r: Option<Remotes>, p: Path)
    requires |p| > 1
    ensures Blocked(r, p) <==> RemoteFile(r, p[0]) || Blocked(Sub(r, p[0]), p[1..])
  {
    var n := p[0];
    if RemoteFile(r, n) { assert Has(r.value, Up(p, 1)); }
    if Sub(r, n).Some? {
      if k :| 0 < k < |p[1..]| && Has(r.value.dirs[n], Up(p[1..], k)) {
        UpBelow(r.value, p, k + 1);
        assert Has(r.value, Up(p, k + 1));
      }
    }
    if r.Some? {
      if k :| 0 < k < |p| && Has(r.value, Up(p, k)) {
        if k > 1 {
          UpBelow(r.value, p, k);
          assert Has(r.value.dirs[n], Up(p[1..], k - 1));
        }
      }
    }
  }

  /** A file is uploaded if and only if it is a local file that can be synchronised and that the filters
      keep, and its way is free or may be cleared. */
  lemma {:induction false} PutIff(l: Locals, r: Option<Remotes>, o: Options, p: Path)
    ensures FateOf(l, r, o, p).Put? <==>
      Has(l, p) && !Get(l, p).unsyncable && o.keep(Get(l, p).path) && (o.deleteMissing || !Blocked(r, p))
    ensures FateOf(l, r, o, p).Put? ==> FateOf(l, r, o, p).file == Get(l, p)
    decreases |p|
  {
    var n := p[0];
    if |p| > 1 {
      BlockedBelow(r, p);
      if n in l.dirs {
        if !RemoteFile(r, n) {
          PutIff(l.dirs[n], Sub(r, n), o, p[1..]);
        } else {
          PutIff(l.dirs[n], None, o, p[1..]);
        }
      }
    }
  }

  /** The local tree ends at the first `k` names of a path: all names above are local directories, and
      this one is none, or it is the whole path. */
  ghost predicate Edge(l: Locals, p: Path, k: nat) {
    0 < k <= |p| && (forall j :: 0 < j < k ==> HasDir(l, Up(p, j))) && (k < |p| ==> !HasDir(l, Up(p, k)))
  }

  /** The planning gets there: no remote file is in the way. */
  ghost predicate Reached(r: Remotes, p: Path, k: nat)
    requires k <= |p|
  {
    forall j :: 0 < j < k ==> !Has(r, Up(p, j))
  }

  /** An object goes when the planning gets to the edge and finds it unwanted: at the edge, when no local
      file has its path, whatever the filters say; behind it, when the filters keep it, and keep the
      local file, if any, that the remote directory makes room for. */
  ghost predicate Unwanted(l: Locals, r: Remotes, o: Options, p: Path, k: nat)
    requires Has(r, p)
  {
    && Edge(l, p, k) && Reached(r, p, k)
    && (k == |p| ==> !Has(l, p))
    && (k < |p| ==> o.keep(Get(r, p).path))
    && (k < |p| && Has(l, Up(p, k)) ==> !Get(l, Up(p, k)).unsyncable && o.keep(Get(l, Up(p, k)).path))
  }

  lemma EdgeBelow(l: Locals, p: Path, k: nat)
    requires |p| > 1 && p[0] in l.dirs && 1 < k <= |p|
    ensures Edge(l, p, k) <==> Edge(l.dirs[p[0]], p[1..], k - 1)
  {
    assert HasDir(l, Up(p, 1));
    hide HasDir;
    var sub, rest: Path := l.dirs[p[0]], p[1..];
    UpBelow(l, p, k);
    if Edge(l, p, k) {
      forall j | 0 < j < k - 1 ensures HasDir(sub, Up(rest, j)) {
        assert HasDir(l, Up(p, j + 1));
        UpBelow(l, p, j + 1);
      }
    }
    if Edge(sub, rest, k - 1) {
      forall j | 0 < j < k ensures HasDir(l, Up(p, j)) {
        if j > 1 { assert HasDir(sub, Up(rest, j - 1)); UpBelow(l, p, j); }
      }
    }
  }

  lemma ReachedBelow(r: Remotes, p: Path, k: nat)
    requires |p| > 1 && p[0] in r.dirs && p[0] !in r.files && 1 < k <= |p|
    ensures Reached(r, p, k) <==> Reached(r.dirs[p[0]], p[1..], k - 1)
  {
    assert !Has(r, Up(p, 1));
    hide Has;
    var sub, rest: Path := r.dirs[p[0]], p[1..];
    if Reached(r, p, k) {
      forall j | 0 < j < k - 1 ensures !Has(sub, Up(rest, j)) {
        assert !Has(r, Up(p, j + 1));
        UpBelow(r, p, j + 1);
      }
    }
    if Reached(sub, rest, k - 1) {
      forall j | 0 < j < k ensures !Has(r, Up(p, j)) {
        if j > 1 { assert !Has(sub, Up(rest, j - 1)); UpBelow(r, p, j); }
      }
    }
  }

  lemma UnwantedBelow(l: Locals, r: Remotes, o: Options, p: Path, k: nat)
    requires Has(r, p) && |p| > 1 && p[0] in l.dirs && p[0] !in r.files && 1 < k <= |p|
    ensures Unwanted(l, r, o, p, k) <==> Unwanted(l.dirs[p[0]], r.dirs[p[0]], o, p[1..], k - 1)
  {
    EdgeBelow(l, p, k);
    ReachedBelow(r, p, k);
    UpBelow(l, p, k);
    hide Edge, Reached;
  }

  /** Above the edge there is nothing but local directories, and remotely no file. */
  lemma EdgeIsDeep(l: Locals, r: Remotes, o: Options, p: Path, k: nat)
    requires Has(r, p) && Unwanted(l, r, o, p, k) && |p| > 1
    ensures k > 1 <==> p[0] in l.dirs
    ensures k > 1 ==> p[0] !in r.files
  {
    if k > 1 {
      assert HasDir(l, Up(p, 1)) && !Has(r, Up(p, 1));
    } else {
      assert !HasDir(l, Up(p, 1));
    }
  }

  /** Exactly these objects are deleted, and only with leave to delete. */
  lemma {:induction false} DropIff(l: Locals, r: Option<Remotes>, o: Options, p: Path)
    ensures FateOf(l, r, o, p).Drop? <==>
      o.deleteMissing && r.Some? && Has(r.value, p) && exists k: nat :: Unwanted(l, r.value, o, p, k)
    decreases |p|, 1
  {
    var n := p[0];
    if r.Some? && Has(r.value, p) {
      DropIffThere(l, r.value, o, p);
    } else if |p| > 1 && n in l.dirs {
      DropIff(l.dirs[n], if RemoteFile(r, n) then None else Sub(r, n), o, p[1..]);
    }
  }

  lemma {:induction false} DropIffThere(l: Locals, r: Remotes, o: Options, p: Path)
    requires Has(r, p)
    ensures FateOf(l, Some(r), o, p).Drop? <==> o.deleteMissing && exists k: nat :: Unwanted(l, r, o, p, k)
    decreases |p|, 0
  {
    var n := p[0];
    if |p| == 1 {
      assert p == Up(p, 1);
      assert Unwanted(l, r, o, p, 1) <==> n !in l.files;
    } else if n !in l.dirs {
      assert Up(p, 1) == [n] && Get(r, p) == Get(r.dirs[n], p[1..]);
      assert Unwanted(l, r, o, p, 1) <==>
        o.keep(Get(r, p).path) && (n in l.files ==> !l.files[n].unsyncable && o.keep(l.files[n].path));
      forall k: nat | Unwanted(l, r, o, p, k) ensures k == 1 { EdgeIsDeep(l, r, o, p, k); }
    } else if n in r.files {
      DropIff(l.dirs[n], None, o, p[1..]);
      forall k: nat | Unwanted(l, r, o, p, k) ensures false { EdgeIsDeep(l, r, o, p, k); }
    } else {
      DropIffThere(l.dirs[n], r.dirs[n], o, p[1..]);
      forall k: nat | Unwanted(l, r, o, p, k) ensures k > 1 && Unwanted(l.dirs[n], r.dirs[n], o, p[1..], k - 1) {
        EdgeIsDeep(l, r, o, p, k);
        UnwantedBelow(l, r, o, p, k);
      }
      if k: nat :| Unwanted(l.dirs[n], r.dirs[n], o, p[1..], k) {
        UnwantedBelow(l, r, o, p, k + 1);
        assert Unwanted(l, r, o, p, k + 1);
      }
    }
  }

  /** The operations of a plan: exactly the uploads and deletions that these conditions name, each under
      the key of its path. */
  lemma PlanIs(root: S3Path, l: Locals, r: Option<Remotes>, o: Options, ops: seq<Op>, paths: seq<Path>, p: Path)
    requires root.path != "" && Realises(ops, paths, Wanted(root, l, r, o))
    ensures p in paths <==>
      || (Has(l, p) && !Get(l, p).unsyncable && o.keep(Get(l, p).path) && (o.deleteMissing || !Blocked(r, p)))
      || (o.deleteMissing && r.Some? && Has(r.value, p) && exists k: nat :: Unwanted(l, r.value, o, p, k))
    ensures forall i :: 0 <= i < |ops| && paths[i] == p ==>
      ops[i] == if Has(l, p) && !Get(l, p).unsyncable && o.keep(Get(l, p).path) && (o.deleteMissing || !Blocked(r, p))
                then Upload(Key(root, p), Get(l, p)) else Delete(Key(root, p))
  {
    PutIff(l, r, o, p);
    DropIff(l, r, o, p);
    hide FateOf, Unwanted, Blocked, Has, Get;
  }

  /** The filters hold for uploads: no local file that they exclude, or that cannot be synchronised, is
      sent, and the object under its key, if there is one, stays as it is. */
  lemma ExcludedStays(root: S3Path, l: Locals, r: Option<Remotes>, o: Options, ops: seq<Op>, paths: seq<Path>,
                      order: seq<Op>, b: Bucket, p: Path)
    requires Listing(root, r) && LocalsOk(l) && Realises(ops, paths, Wanted(root, l, r, o))
    requires multiset(order) == multiset(ops)
    requires Has(l, p) && (Get(l, p).unsyncable || !o.keep(Get(l, p).path))
    ensures forall op :: op in ops && op.Upload? ==> !op.file.unsyncable && o.keep(op.file.path)
    ensures forall op :: op in ops ==> op.key != Key(root, p)
    ensures At(RunAll(order, b), Key(root, p)) == At(b, Key(root, p))
  {
    CleanNames(l, p);
    PutIff(l, r, o, p);
    DropIff(l, r, o, p);
    NotUnwanted(l, r, o, p);
    assert FateOf(l, r, o, p).Untouched?;
    NobodyElse(root, l, r, o, ops, paths, p);
    UploadOutcome(root, l, r, o, ops, paths, order, b);
    forall op | op in ops && op.Upload? ensures !op.file.unsyncable && o.keep(op.file.path) {
      var i :| 0 <= i < |ops| && ops[i] == op;
      PutIff(l, r, o, paths[i]);
    }
  }

  /** A local file is never deleted remotely. */
  lemma NotUnwanted(l: Locals, r: Option<Remotes>, o: Options, p: Path)
    requires Has(l, p) && Tidy(l)
    ensures r.Some? && Has(r.value, p) ==> forall k: nat :: !Unwanted(l, r.value, o, p, k)
  {
    if r.Some? && Has(r.value, p) {
      forall k: nat ensures !Unwanted(l, r.value, o, p, k) {
        if 0 < k < |p| { DirsAbove(l, Up(p, k), p); }
      }
    }
  }

  /** A local file that can be synchronised, is kept, and has its way free arrives: the object is its
      content, or was taken for up to date for its stamp and size. */
  lemma KeptArrives(root: S3Path, l: Locals, r: Option<Remotes>, o: Options, ops: seq<Op>, paths: seq<Path>,
                    order: seq<Op>, b: Bucket, p: Path)
    requires Listing(root, r) && LocalsOk(l) && Realises(ops, paths, Wanted(root, l, r, o))
    requires multiset(order) == multiset(ops)
    requires Has(l, p) && !Get(l, p).unsyncable && o.keep(Get(l, p).path) && (o.deleteMissing || !Blocked(r, p))
    ensures Upload(Key(root, p), Get(l, p)) in ops
    ensures var k, c := Key(root, p), Get(l, p).content;
      At(RunAll(order, b), k)
      == if k in b && b[k].mtime != 0 && b[k].mtime == c.mtime && |b[k].data| == |c.data| then Some(b[k]) else Some(c)
  {
    CleanNames(l, p);
    PutIff(l, r, o, p);
    UploadOutcome(root, l, r, o, ops, paths, order, b);
    assert p in Wanted(root, l, r, o);
    var i :| 0 <= i < |paths| && paths[i] == p;
    assert ops[i] == Upload(Key(root, p), Get(l, p));
  }

  /** Deleting a remote directory: exactly the objects below it that the filters keep, each once. */
  lemma DeletedAre(d: Remotes, o: Options, ops: seq<Op>, paths: seq<Path>, p: Path)
    requires Realises(ops, paths, Deletions(d, o))
    ensures |ops| == |paths| && forall i, j :: 0 <= i < j < |paths| ==> paths[i] != paths[j]
    ensures forall i :: 0 <= i < |ops| ==>
      Has(d, paths[i]) && o.keep(Get(d, paths[i]).path) && ops[i] == Delete(Get(d, paths[i]))
    ensures p in paths <==> Has(d, p) && o.keep(Get(d, p).path)
  {
    forall i | 0 <= i < |ops|
      ensures Has(d, paths[i]) && o.keep(Get(d, paths[i]).path) && ops[i] == Delete(Get(d, paths[i]))
    {
      assert paths[i] in Deletions(d, o);
    }
    assert p in Deletions(d, o) <==> p in paths;
  }
}
