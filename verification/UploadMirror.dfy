/** What the scheduled operations of an upload do to the bucket, in whatever order they run. */
module UploadMirror {
  import opened Connection
  import opened Trees
  import opened Wrappers
  import opened Counting
  import opened Plans
  import opened SyncUpload
  import Filters

  type Bucket = map<S3Path, Content>

  function At(b: Bucket, k: S3Path): Option<Content> { if k in b then Some(b[k]) else None }

  /** The object is taken for up to date when its stamp, which must be set, and its size match. */
  predicate Current(b: Bucket, k: S3Path, c: Content) {
    k in b && b[k].mtime != 0 && b[k].mtime == c.mtime && |b[k].data| == |c.data|
  }

  function Perform(op: Op, b: Bucket): Bucket {
    match op
    case Upload(k, f) => if Current(b, k, f.content) then b else b[k := f.content]
    case Delete(k) => b - {k}
  }

  function RunAll(ops: seq<Op>, b: Bucket): Bucket {
    if ops == [] then b else RunAll(ops[1..], Perform(ops[0], b))
  }

  ghost predicate DistinctKeys(ops: seq<Op>) {
    forall i, j :: 0 <= i < j < |ops| ==> ops[i].key != ops[j].key
  }

  lemma {:induction false} RunElsewhere(ops: seq<Op>, b: Bucket, k: S3Path)
    requires forall i :: 0 <= i < |ops| ==> ops[i].key != k
    ensures At(RunAll(ops, b), k) == At(b, k)
  {
    if ops != [] {
      assert ops[0].key != k;
      RunElsewhere(ops[1..], Perform(ops[0], b), k);
    }
  }

  lemma SameThere(op: Op, b: Bucket, c: Bucket)
    requires At(b, op.key) == At(c, op.key)
    ensures At(Perform(op, b), op.key) == At(Perform(op, c), op.key)
  {
  }

  /** Each operation acts as if it were alone. */
  lemma {:induction false} RunAt(ops: seq<Op>, b: Bucket, i: nat)
    requires DistinctKeys(ops) && i < |ops|
    ensures At(RunAll(ops, b), ops[i].key) == At(Perform(ops[i], b), ops[i].key)
  {
    var c := Perform(ops[0], b);
    if i == 0 {
      RunElsewhere(ops[1..], c, ops[0].key);
    } else {
      RunAt(ops[1..], c, i - 1);
      assert ops[0].key != ops[i].key;
      SameThere(ops[i], b, c);
    }
  }

  lemma ReorderedKeys(ops: seq<Op>, order: seq<Op>)
    requires DistinctKeys(ops) && multiset(order) == multiset(ops)
    ensures DistinctKeys(order) && forall op :: op in order <==> op in ops
  {
    assert Distinct(ops);
    Reordered(ops, order);
    forall i, j | 0 <= i < j < |order| ensures order[i].key != order[j].key {
      assert order[i] in ops && order[j] in ops;
      assert order[i] != order[j];
    }
  }

  /** Operations on different keys commute: any order ends with the same bucket. */
  lemma OrderIsIrrelevant(ops: seq<Op>, order: seq<Op>, b: Bucket)
    requires DistinctKeys(ops) && multiset(order) == multiset(ops)
    ensures RunAll(order, b) == RunAll(ops, b)
  {
    ReorderedKeys(ops, order);
    var x, y := RunAll(order, b), RunAll(ops, b);
    forall k ensures At(x, k) == At(y, k) {
      if i: nat :| i < |ops| && ops[i].key == k {
        assert ops[i] in order;
        var j: nat :| j < |order| && order[j] == ops[i];
        RunAt(ops, b, i);
        RunAt(order, b, j);
      } else {
        RunElsewhere(ops, b, k);
        forall j | 0 <= j < |order| ensures order[j].key != k { assert order[j] in ops; }
        RunElsewhere(order, b, k);
      }
    }
    SameEverywhere(x, y);
  }

  lemma SameEverywhere(x: Bucket, y: Bucket)
    requires forall k :: At(x, k) == At(y, k)
    ensures x == y
  {
    forall k ensures k in x <==> k in y {
      assert At(x, k) == At(y, k);
    }
    forall k | k in x ensures x[k] == y[k] {
      assert At(x, k) == At(y, k);
    }
  }

  /* The plan's operations have different keys. */

  lemma {:induction false} FateHasNames(l: Locals, r: Option<Remotes>, o: Options, p: Path)
    requires Clean(l) && (r.Some? ==> Clean(r.value)) && FateOf(l, r, o, p) != Untouched
    ensures NamesOk(p)
    decreases |p|
  {
    if |p| > 1 {
      assert p == [p[0]] + p[1..];
      if p[0] in l.dirs {
        if !RemoteFile(r, p[0]) {
          FateHasNames(l.dirs[p[0]], Sub(r, p[0]), o, p[1..]);
        } else {
          FateHasNames(l.dirs[p[0]], None, o, p[1..]);
        }
      } else {
        CleanNames(Sub(r, p[0]).value, p[1..]);
      }
    }
  }

  /** No key is scheduled twice, neither for the same action nor for two different ones, whatever the
      filters and the flags. */
  lemma NoKeyTwice(root: S3Path, l: Locals, r: Option<Remotes>, o: Options, ops: seq<Op>, paths: seq<Path>)
    requires Listing(root, r) && LocalsOk(l) && Realises(ops, paths, Wanted(root, l, r, o))
    ensures DistinctKeys(ops)
  {
    forall i, j | 0 <= i < j < |ops| ensures ops[i].key != ops[j].key {
      FateHasNames(l, r, o, paths[i]);
      FateHasNames(l, r, o, paths[j]);
      if ops[i].key == ops[j].key { KeyInjective(root, paths[i], paths[j]); }
    }
  }

  /** What becomes of the object of a path. */
  function Outcome(l: Locals, r: Option<Remotes>, o: Options, b: Bucket, k: S3Path, p: Path): Option<Content> {
    match FateOf(l, r, o, p)
    case Untouched => At(b, k)
    case Drop => None
    case Put(f) =>
      if k in b && b[k].mtime != 0 && b[k].mtime == f.content.mtime && |b[k].data| == |f.content.data|
      then Some(b[k]) else Some(f.content)
  }

  /** The bucket after the planned operations, in any order, key by key. */
  lemma UploadOutcome(root: S3Path, l: Locals, r: Option<Remotes>, o: Options, ops: seq<Op>, paths: seq<Path>,
                      order: seq<Op>, b: Bucket)
    requires Listing(root, r) && LocalsOk(l) && Realises(ops, paths, Wanted(root, l, r, o))
    requires multiset(order) == multiset(ops)
    ensures forall p: Path :: NamesOk(p) ==> At(RunAll(order, b), Key(root, p)) == Outcome(l, r, o, b, Key(root, p), p)
    ensures forall k :: (forall p: Path :: NamesOk(p) ==> k != Key(root, p)) ==> At(RunAll(order, b), k) == At(b, k)
  {
    NoKeyTwice(root, l, r, o, ops, paths);
    OrderIsIrrelevant(ops, order, b);
    forall p: Path | NamesOk(p) ensures At(RunAll(ops, b), Key(root, p)) == Outcome(l, r, o, b, Key(root, p), p) {
      OutcomeAt(root, l, r, o, ops, paths, b, p);
    }
    forall k | forall p: Path :: NamesOk(p) ==> k != Key(root, p) ensures At(RunAll(ops, b), k) == At(b, k) {
      forall i | 0 <= i < |ops| ensures ops[i].key != k {
        FateHasNames(l, r, o, paths[i]);
      }
      RunElsewhere(ops, b, k);
    }
  }

  lemma NobodyElse(root: S3Path, l: Locals, r: Option<Remotes>, o: Options, ops: seq<Op>, paths: seq<Path>, p: Path)
    requires Listing(root, r) && LocalsOk(l) && Realises(ops, paths, Wanted(root, l, r, o))
    requires NamesOk(p) && p !in Wanted(root, l, r, o)
    ensures forall i :: 0 <= i < |ops| ==> ops[i].key != Key(root, p)
  {
    forall i | 0 <= i < |ops| ensures ops[i].key != Key(root, p) {
      FateHasNames(l, r, o, paths[i]);
      if ops[i].key == Key(root, p) { KeyInjective(root, paths[i], p); }
    }
  }

  lemma OutcomeAt(root: S3Path, l: Locals, r: Option<Remotes>, o: Options, ops: seq<Op>, paths: seq<Path>, b: Bucket,
                  p: Path)
    requires Listing(root, r) && LocalsOk(l) && Realises(ops, paths, Wanted(root, l, r, o))
    requires DistinctKeys(ops) && NamesOk(p)
    ensures At(RunAll(ops, b), Key(root, p)) == Outcome(l, r, o, b, Key(root, p), p)
  {
    if p in Wanted(root, l, r, o) {
      var i: nat :| i < |paths| && paths[i] == p;
      RunAt(ops, b, i);
    } else {
      NobodyElse(root, l, r, o, ops, paths, p);
      RunElsewhere(ops, b, Key(root, p));
    }
  }

  /* The mirror. */

  /** A mirroring upload: deletions allowed, every local file can be sent and is not filtered out. */
  ghost predicate Mirroring(l: Locals, o: Options) {
    o.deleteMissing && forall p: Path :: Has(l, p) ==> !Get(l, p).unsyncable && o.keep(Get(l, p).path)
  }

  /** No object is filtered out. */
  ghost predicate AllKept(r: Remotes, o: Options) {
    forall p: Path :: Has(r, p) ==> o.keep(Get(r, p).path)
  }

  lemma MirroringBelow(l: Locals, o: Options, n: string)
    requires Mirroring(l, o) && n in l.dirs
    ensures Mirroring(l.dirs[n], o)
  {
    forall p: Path | Has(l.dirs[n], p)
      ensures !Get(l.dirs[n], p).unsyncable && o.keep(Get(l.dirs[n], p).path)
    {
      var q: Path := [n] + p;
      assert q[1..] == p;
      assert Has(l, q) && Get(l, q) == Get(l.dirs[n], p);
    }
  }

  lemma KeptBelow(r: Remotes, o: Options, n: string)
    requires AllKept(r, o) && n in r.dirs
    ensures AllKept(r.dirs[n], o)
  {
    forall p: Path | Has(r.dirs[n], p) ensures o.keep(Get(r.dirs[n], p).path) {
      var q: Path := [n] + p;
      assert q[1..] == p;
      assert Has(r, q) && Get(r, q) == Get(r.dirs[n], p);
    }
  }

  /** Without filters, and without spaces in the paths, that is so. */
  lemma NoFiltersMirror(l: Locals, r: Remotes, o: Options)
    requires o.deleteMissing && forall s: Filters.Text :: o.keep(s) <==> Filters.Included(s, [], [])
    requires forall p: Path :: Has(l, p) ==> !Get(l, p).unsyncable && Filters.Plain(Get(l, p).path)
    requires forall p: Path :: Has(r, p) ==> Filters.Plain(Get(r, p).path)
    ensures Mirroring(l, o) && AllKept(r, o)
  {
  }

  /** An object below a remote directory that the planning overlooks: a local directory of the name is
      there, and a remote file of the name as well. */
  predicate Hidden(l: Locals, r: Remotes, p: Path) {
    |p| > 1 && p[0] in l.dirs && p[0] in r.dirs &&
    if p[0] in r.files then Has(r.dirs[p[0]], p[1..]) else Hidden(l.dirs[p[0]], r.dirs[p[0]], p[1..])
  }

  lemma {:induction false} HiddenIsThere(l: Locals, r: Remotes, p: Path)
    requires Hidden(l, r, p)
    ensures Has(r, p)
  {
    if p[0] !in r.files { HiddenIsThere(l.dirs[p[0]], r.dirs[p[0]], p[1..]); }
  }

  lemma {:induction false} TidyHidesNothing(l: Locals, r: Remotes, p: Path)
    requires Tidy(r)
    ensures !Hidden(l, r, p)
  {
    if |p| > 1 && p[0] in l.dirs && p[0] in r.dirs { TidyHidesNothing(l.dirs[p[0]], r.dirs[p[0]], p[1..]); }
  }

  /** Over an empty remote directory everything local is put, and nothing else happens. */
  lemma {:induction false} FateOverNothing(l: Locals, o: Options, p: Path)
    requires LocalsOk(l) && Mirroring(l, o)
    ensures FateOf(l, None, o, p) == if Has(l, p) then Put(Get(l, p)) else Untouched
    decreases |p|
  {
    if |p| == 1 {
      if Has(l, p) { assert Sent(Get(l, p), o); }
    } else if p[0] in l.dirs {
      MirroringBelow(l, o, p[0]);
      FateOverNothing(l.dirs[p[0]], o, p[1..]);
    }
  }

  lemma {:induction false} MirrorFate(l: Locals, r: Remotes, o: Options, p: Path)
    requires LocalsOk(l) && Mirroring(l, o) && AllKept(r, o)
    ensures FateOf(l, Some(r), o, p) ==
      if Has(l, p) then Put(Get(l, p)) else if Has(r, p) && !Hidden(l, r, p) then Drop else Untouched
    decreases |p|
  {
    var n := p[0];
    if |p| == 1 {
      if Has(l, p) { assert Sent(Get(l, p), o); }
    } else if n in l.dirs {
      MirroringBelow(l, o, n);
      if n in r.files || n !in r.dirs {
        FateOverNothing(l.dirs[n], o, p[1..]);
      } else {
        KeptBelow(r, o, n);
        MirrorFate(l.dirs[n], r.dirs[n], o, p[1..]);
      }
    } else {
      var q: Path := [n];
      if n in l.files { assert Has(l, q) && Get(l, q) == l.files[n]; }
      if n in r.dirs { KeptBelow(r, o, n); }
    }
  }

  /** The listing shows what the bucket holds. */
  ghost predicate Shows(root: S3Path, r: Remotes, b: Bucket) {
    root.path != "" && forall p: Path :: NamesOk(p) ==> (Has(r, p) <==> Key(root, p) in b)
  }

  /** The bucket holds an object for each local file and none besides. */
  ghost predicate Mirrors(root: S3Path, l: Locals, b: Bucket) {
    root.path != "" && forall p: Path :: NamesOk(p) ==> (Has(l, p) <==> Key(root, p) in b)
  }

  /** A mirroring upload leaves exactly the local tree's keys, whatever the order of its operations, if
      and only if every overlooked object happens to be a local file. */
  lemma MirrorIff(root: S3Path, l: Locals, r: Remotes, o: Options, ops: seq<Op>, paths: seq<Path>, order: seq<Op>,
                  b: Bucket)
    requires Named(root, r) && LocalsOk(l) && Mirroring(l, o) && AllKept(r, o) && Shows(root, r, b)
    requires Realises(ops, paths, Wanted(root, l, Some(r), o)) && multiset(order) == multiset(ops)
    ensures Mirrors(root, l, RunAll(order, b)) <==> forall p: Path :: Hidden(l, r, p) ==> Has(l, p)
  {
    var final := RunAll(order, b);
    UploadOutcome(root, l, Some(r), o, ops, paths, order, b);
    forall p: Path | NamesOk(p) ensures Key(root, p) in final <==> Has(l, p) || Hidden(l, r, p) {
      MirrorFate(l, r, o, p);
      assert At(final, Key(root, p)) == Outcome(l, Some(r), o, b, Key(root, p), p);
      if Hidden(l, r, p) { HiddenIsThere(l, r, p); }
    }
    hide Hidden, Has, Key, NamesOk, RunAll, Shows, Named, AllKept, Mirroring, Realises, Wanted;
    if Mirrors(root, l, final) {
      forall p: Path | Hidden(l, r, p) ensures Has(l, p) {
        HiddenIsThere(l, r, p);
        CleanNames(r, p);
      }
    } else {
      var p: Path :| NamesOk(p) && !(Has(l, p) <==> Key(root, p) in final);
      assert Hidden(l, r, p) && !Has(l, p);
    }
  }

  /** The mirror is also up to date: each object is the local content, or one of the same stamp and size. */
  ghost predicate InLine(root: S3Path, l: Locals, b: Bucket) {
    Mirrors(root, l, b) && forall p: Path :: Has(l, p) ==>
      var k, c := Key(root, p), Get(l, p).content;
      k in b && (b[k] == c || (b[k].mtime != 0 && b[k].mtime == c.mtime && |b[k].data| == |c.data|))
  }

  /** In particular when no remote level has a file and a directory of the same name; and then the
      objects are up to date. */
  lemma TidyMirror(root: S3Path, l: Locals, r: Remotes, o: Options, ops: seq<Op>, paths: seq<Path>, order: seq<Op>,
                   b: Bucket)
    requires Named(root, r) && LocalsOk(l) && Mirroring(l, o) && AllKept(r, o) && Shows(root, r, b) && Tidy(r)
    requires Realises(ops, paths, Wanted(root, l, Some(r), o)) && multiset(order) == multiset(ops)
    ensures InLine(root, l, RunAll(order, b))
  {
    var final := RunAll(order, b);
    forall p: Path ensures !Hidden(l, r, p) { TidyHidesNothing(l, r, p); }
    MirrorIff(root, l, r, o, ops, paths, order, b);
    UploadOutcome(root, l, Some(r), o, ops, paths, order, b);
    forall p: Path | Has(l, p)
      ensures var k, c := Key(root, p), Get(l, p).content;
        k in final &&
        (final[k] == c || (final[k].mtime != 0 && final[k].mtime == c.mtime && |final[k].data| == |c.data|))
    {
      CleanNames(l, p);
      MirrorFate(l, r, o, p);
      assert At(final, Key(root, p)) == Outcome(l, Some(r), o, b, Key(root, p), p);
    }
  }

  /** The clash in practice: the remote side has a file "a" and a file "a/b", the local side a
      directory "a" without "b". The upload leaves "a/b" behind, with every permission to delete it. */
  lemma ClashLeavesAnObject(f: LocalFile, o: Options)
    requires Sent(f, o) && o.deleteMissing
    ensures var root := S3Path("zone", "bucket", "/");
      var l := Dir(map[], map["a" := Dir(map["c" := f], map[])]);
      var r := Dir(map["a" := Key(root, ["a"])], map["a" := Dir(map["b" := Key(root, ["a", "b"])], map[])]);
      var p: Path := ["a", "b"];
      Has(r, p) && !Has(l, p) && Hidden(l, r, p) && FateOf(l, Some(r), o, p) == Untouched
  {
    var sub := Dir(map["c" := f], map[]);
    var p: Path := ["a", "b"];
    assert p[1..] == ["b"];
    assert FateOf(sub, None, o, ["b"]) == Untouched;
  }

  /** Uploading again, from a listing of a bucket that is in line, changes nothing. */
  lemma SecondUploadIsQuiet(root: S3Path, l: Locals, r: Remotes, o: Options, ops: seq<Op>, paths: seq<Path>,
                            order: seq<Op>, b: Bucket)
    requires Named(root, r) && LocalsOk(l) && Mirroring(l, o) && AllKept(r, o) && Shows(root, r, b)
    requires InLine(root, l, b)
    requires Realises(ops, paths, Wanted(root, l, Some(r), o)) && multiset(order) == multiset(ops)
    ensures RunAll(order, b) == b
  {
    UploadOutcome(root, l, Some(r), o, ops, paths, order, b);
    forall k ensures At(RunAll(order, b), k) == At(b, k) {
      if p: Path :| NamesOk(p) && k == Key(root, p) {
        MirrorFate(l, r, o, p);
        assert Has(r, p) <==> Has(l, p);
        assert At(RunAll(order, b), k) == Outcome(l, Some(r), o, b, k, p);
      }
    }
    SameEverywhere(RunAll(order, b), b);
  }
}
