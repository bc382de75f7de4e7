/** What a download plans for a path, in one condition on the path, for any trees, filters and flags. */
module DownloadPlan {
  import opened Connection
  import opened Trees
  import opened Wrappers
  import opened Plans
  import opened SyncUpload
  import opened SyncDownload

  /** A local file at one of the first `upTo` steps to a path. */
  ghost predicate FileOnTheWay(l: Option<Target>, p: Path, upTo: nat)
    requires upTo <= |p|
  {
    l.Some? && exists k :: 0 < k <= upTo && Has(l.value, Up(p, k))
  }

  lemma WayBelow(l: Option<Target>, p: Path, upTo: nat)
    requires 0 < upTo <= |p|
    ensures upTo == 1 ==> (FileOnTheWay(l, p, 1) <==> LocalFileThere(l, p[0]))
    ensures upTo > 1 ==>
      (FileOnTheWay(l, p, upTo) <==> LocalFileThere(l, p[0]) || FileOnTheWay(Sub(l, p[0]), p[1..], upTo - 1))
  {
    var n := p[0];
    if l.Some? {
      assert Has(l.value, Up(p, 1)) <==> n in l.value.files;
      if k :| 0 < k <= upTo && Has(l.value, Up(p, k)) {
        if k > 1 {
          UpBelow(l.value, p, k);
          assert Has(l.value.dirs[n], Up(p[1..], k - 1));
        }
      }
      if upTo > 1 && n in l.value.dirs {
        if k :| 0 < k <= upTo - 1 && Has(l.value.dirs[n], Up(p[1..], k)) {
          UpBelow(l.value, p, k + 1);
          assert Has(l.value, Up(p, k + 1));
        }
      }
    }
  }

  /** A directory is made, or found, exactly when it is there remotely and no local file is in its way, or
      may be removed. */
  lemma {:induction false} EnteredIff(r: Source, l: Option<Target>, o: Options, p: Path)
    ensures Entered(r, l, o, p) <==> HasDir(r, p) && (o.deleteMissing || !FileOnTheWay(l, p, |p|))
    decreases |p|
  {
    WayBelow(l, p, |p|);
    if |p| > 1 && p[0] in r.dirs { EnteredIff(r.dirs[p[0]], Sub(l, p[0]), o, p[1..]); }
  }

  /** A file is fetched if and only if it is there remotely, the filters keep it, and there is neither a
      local directory of its name nor a local file above it, or they may go. A local directory of its
      name is then replaced. */
  lemma {:induction false} FetchIff(at: Place, r: Source, l: Option<Target>, o: Options, p: Path)
    ensures var t := TaskFor(at, r, l, o, p);
      && (t.Some? && t.value.Fetch? <==>
            Has(r, p) && o.keep(Get(r, p).key.path)
            && (o.deleteMissing || !((l.Some? && HasDir(l.value, p)) || FileOnTheWay(l, p, |p| - 1))))
      && (t.Some? && t.value.Fetch? ==> t == Some(Fetch(at + p, Get(r, p), l.Some? && HasDir(l.value, p))))
    decreases |p|
  {
    var n := p[0];
    if |p| == 1 {
      assert p == [n];
    } else {
      WayBelow(l, p, |p| - 1);
      assert p == [n] + p[1..] && at + [n] + p[1..] == at + p;
      if n in r.dirs { FetchIff(at + [n], r.dirs[n], Sub(l, n), o, p[1..]); }
    }
  }

  /** Something local is removed, at its own place, if and only if deletions are allowed, nothing remote
      has its path, but the remote side has the directory that it is in. */
  lemma {:induction false} RemoveIff(at: Place, r: Source, l: Option<Target>, o: Options, p: Path)
    requires TargetOk(l)
    ensures var t := TaskFor(at, r, l, o, p);
      && (t.Some? && t.value.Remove? <==>
            o.deleteMissing && Expected(l, p).Some? && !Has(r, p) && !HasDir(r, p)
            && (|p| > 1 ==> HasDir(r, Up(p, |p| - 1))))
      && (t.Some? && t.value.Remove? ==> t == Some(Remove(at + p)))
    decreases |p|
  {
    var n := p[0];
    if |p| == 1 {
      assert p == [n];
    } else {
      assert p == [n] + p[1..] && at + [n] + p[1..] == at + p;
      if |p| > 2 { UpBelow(r, p, |p| - 1); }
      if n in r.dirs { RemoveIff(at + [n], r.dirs[n], Sub(l, n), o, p[1..]); }
    }
  }

  /** The filters hold for downloads: every fetch in a plan is of a remote file that they keep, and every
      such file whose way is free is in the plan. */
  lemma FetchesAre(at: Place, r: Source, l: Option<Target>, o: Options, ts: seq<Task>, paths: seq<Path>, p: Path)
    requires Realises(ts, paths, Tasks(at, r, l, o))
    ensures forall i :: 0 <= i < |ts| && ts[i].Fetch? ==>
      Has(r, paths[i]) && ts[i].file == Get(r, paths[i]) && ts[i].place == at + paths[i] && o.keep(ts[i].file.key.path)
    ensures (&& Has(r, p) && o.keep(Get(r, p).key.path)
             && (o.deleteMissing || !((l.Some? && HasDir(l.value, p)) || FileOnTheWay(l, p, |p| - 1))))
      ==> Fetch(at + p, Get(r, p), l.Some? && HasDir(l.value, p)) in ts
  {
    forall i | 0 <= i < |ts| && ts[i].Fetch?
      ensures Has(r, paths[i]) && ts[i].file == Get(r, paths[i]) && ts[i].place == at + paths[i]
      ensures o.keep(ts[i].file.key.path)
    {
      assert paths[i] in Tasks(at, r, l, o);
      FetchIff(at, r, l, o, paths[i]);
    }
    FetchIff(at, r, l, o, p);
    if TaskFor(at, r, l, o, p).Some? && TaskFor(at, r, l, o, p).value.Fetch? {
      assert p in Tasks(at, r, l, o);
      var i :| 0 <= i < |paths| && paths[i] == p;
      assert ts[i] in ts;
    }
  }
}
