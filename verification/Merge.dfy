/** Merging several source trees into the first one. */
module Merge {
  import opened Trees

  /** What the merge accepts: no file meets a file or a directory of its name. The right tree's own
      files count as already merged when its directories are looked at. */
  ghost predicate Compatible<F>(l: Dir<F>, r: Dir<F>) {
    && l.files.Keys !! r.files.Keys
    && l.dirs.Keys !! r.files.Keys
    && r.dirs.Keys !! l.files.Keys + r.files.Keys
    && forall n :: n in r.dirs && n in l.dirs ==> Compatible(l.dirs[n], r.dirs[n])
  }

  ghost function Merged<F>(l: Dir<F>, r: Dir<F>): Dir<F> {
    Dir(l.files + r.files,
        map n | n in l.dirs.Keys + r.dirs.Keys ::
          if n in l.dirs && n in r.dirs then Merged(l.dirs[n], r.dirs[n])
          else if n in l.dirs then l.dirs[n] else r.dirs[n])
  }

  /** A file of one tree is in the way of the other. */
  ghost predicate Collides<F>(l: Dir<F>, r: Dir<F>, p: Path) {
    (Has(l, p) && (Has(r, p) || HasDir(r, p))) || (HasDir(l, p) && Has(r, p))
  }

  lemma {:induction false} CollisionIsRefused<F>(l: Dir<F>, r: Dir<F>, p: Path)
    requires Collides(l, r, p)
    ensures !Compatible(l, r)
  {
    if |p| > 1 {
      CollisionIsRefused(l.dirs[p[0]], r.dirs[p[0]], p[1..]);
    }
  }

  lemma {:induction false} RefusalHasCollision<F>(l: Dir<F>, r: Dir<F>) returns (p: Path)
    requires Tidy(l) && Tidy(r) && !Compatible(l, r)
    ensures Collides(l, r, p)
  {
    if n :| n in l.files && n in r.files {
      p := [n];
    } else if n :| n in l.dirs && n in r.files {
      p := [n];
    } else if n :| n in r.dirs && n in l.files {
      p := [n];
    } else {
      var n :| n in r.dirs && n in l.dirs && !Compatible(l.dirs[n], r.dirs[n]);
      var q := RefusalHasCollision(l.dirs[n], r.dirs[n]);
      p := [n] + q;
      assert p[1..] == q;
    }
  }

  /** On tidy trees the merge goes through exactly when no path collides. */
  lemma CompatibleIffNoCollision<F>(l: Dir<F>, r: Dir<F>)
    requires Tidy(l) && Tidy(r)
    ensures Compatible(l, r) <==> forall p :: !Collides(l, r, p)
  {
    if Compatible(l, r) {
      forall p ensures !Collides(l, r, p) {
        if Collides(l, r, p) { CollisionIsRefused(l, r, p); }
      }
    } else {
      var p := RefusalHasCollision(l, r);
    }
  }

  /** The merged tree holds the files of both, each file once and as it was. */
  lemma {:induction false} MergedHas<F>(l: Dir<F>, r: Dir<F>, p: Path)
    requires Compatible(l, r)
    ensures Has(Merged(l, r), p) <==> Has(l, p) || Has(r, p)
    ensures !(Has(l, p) && Has(r, p))
    ensures Has(l, p) ==> Get(Merged(l, r), p) == Get(l, p)
    ensures Has(r, p) ==> Get(Merged(l, r), p) == Get(r, p)
    ensures HasDir(Merged(l, r), p) <==> HasDir(l, p) || HasDir(r, p)
  {
    if |p| > 1 && p[0] in l.dirs && p[0] in r.dirs {
      MergedHas(l.dirs[p[0]], r.dirs[p[0]], p[1..]);
    } else if |p| == 1 && p[0] in l.dirs && p[0] in r.dirs {
      assert HasDir(Merged(l, r), p);
    }
  }

  lemma {:induction false} MergedIsTidy<F>(l: Dir<F>, r: Dir<F>)
    requires Tidy(l) && Tidy(r) && Compatible(l, r)
    ensures Tidy(Merged(l, r))
  {
    var m := Merged(l, r);
    forall n | n in m.dirs ensures Tidy(m.dirs[n]) {
      if n in l.dirs && n in r.dirs { MergedIsTidy(l.dirs[n], r.dirs[n]); }
    }
  }

  /** The left tree's files while the names `todo` of the right tree are still to be moved over. */
  function FilesSoFar<F>(l: map<string, F>, r: map<string, F>, todo: set<string>): map<string, F> {
    l + (r - todo)
  }

  lemma FilesStep<F>(l: map<string, F>, r: map<string, F>, todo: set<string>, n: string)
    requires n in r && n in todo && n !in l
    ensures n !in FilesSoFar(l, r, todo)
    ensures FilesSoFar(l, r, todo - {n}) == FilesSoFar(l, r, todo)[n := r[n]]
  {
  }

  lemma FilesEnds<F>(l: map<string, F>, r: map<string, F>)
    ensures FilesSoFar(l, r, r.Keys) == l && FilesSoFar(l, r, {}) == l + r
  {
    assert r - {} == r;
  }

  ghost predicate Fits<F>(l: Dir<F>, r: Dir<F>, n: string)
    requires n in r.dirs
  {
    n !in l.files && n !in r.files && (n in l.dirs ==> Compatible(l.dirs[n], r.dirs[n]))
  }

  /** The left tree's directories while the names `todo` of the right tree are still to be dealt with. */
  ghost function PartMerged<F>(l: Dir<F>, r: Dir<F>, todo: set<string>): map<string, Dir<F>> {
    map n | n in l.dirs.Keys + (r.dirs.Keys - todo) ::
      if n in todo || n !in r.dirs then l.dirs[n] else if n in l.dirs then Merged(l.dirs[n], r.dirs[n]) else r.dirs[n]
  }

  lemma PartMergedStep<F>(l: Dir<F>, r: Dir<F>, todo: set<string>, n: string)
    requires n in r.dirs && n in todo
    ensures n in PartMerged(l, r, todo) <==> n in l.dirs
    ensures n in l.dirs ==> PartMerged(l, r, todo)[n] == l.dirs[n]
    ensures PartMerged(l, r, todo - {n})
         == PartMerged(l, r, todo)[n := if n in l.dirs then Merged(l.dirs[n], r.dirs[n]) else r.dirs[n]]
  {
  }

  lemma FitsIs<F>(l: Dir<F>, r: Dir<F>, n: string)
    requires n in r.dirs
    ensures Fits(l, r, n) <==> n !in l.files + r.files && (n in l.dirs ==> Compatible(l.dirs[n], r.dirs[n]))
  {
  }

  lemma PartMergedEnds<F>(l: Dir<F>, r: Dir<F>)
    ensures PartMerged(l, r, r.dirs.Keys) == l.dirs
    ensures PartMerged(l, r, {}) == Merged(l, r).dirs
  {
  }

  lemma CompatibleByName<F>(l: Dir<F>, r: Dir<F>)
    ensures Compatible(l, r)
       <==> (forall n :: n in r.files ==> n !in l.files && n !in l.dirs) && (forall n :: n in r.dirs ==> Fits(l, r, n))
  {
    if forall n :: n in r.dirs ==> Fits(l, r, n) {
      assert r.dirs.Keys !! l.files.Keys + r.files.Keys;
    }
  }

  /** A directory as the synchroniser holds it: shared pointers to subdirectories, updated in place.
      `repr` is everything reachable from it. */
  class Node<F> {
    var files: map<string, F>
    var dirs: map<string, Node<F>>
    ghost var repr: set<object>

    constructor ()
      ensures Valid() && fresh(repr) && Tree() == Dir(map[], map[])
    {
      files, dirs, repr := map[], map[], {this};
    }

    ghost predicate Valid()
      reads this, repr
      decreases repr
    {
      && this in repr
      && (forall n :: n in dirs ==> dirs[n] in repr && dirs[n].repr <= repr && this !in dirs[n].repr && dirs[n].Valid())
      && (forall m, n :: m in dirs && n in dirs && m != n ==> dirs[m].repr !! dirs[n].repr)
    }

    ghost function Tree(): Dir<F>
      requires Valid()
      reads this, repr
      decreases repr
    {
      Dir(files, map n | n in dirs :: dirs[n].Tree())
    }

    /** The trees of the subdirectories, and what each of them reaches. */
    ghost function Trees(): (t: map<string, Dir<F>>)
      requires Valid()
      reads this, repr
      ensures t.Keys == dirs.Keys
    {
      map n | n in dirs :: dirs[n].Tree()
    }

    ghost function Owned(): (o: map<string, set<object>>)
      requires Valid()
      reads this, repr
      ensures o.Keys == dirs.Keys
    {
      map n | n in dirs :: dirs[n].repr
    }

    lemma TreeIs()
      requires Valid()
      ensures Tree() == Dir(files, Trees())
    {
    }
  }

  /** Puts the subdirectory `child` of the right tree under the name `n`: merged into the directory of
      that name, or adopted as it is. */
  method MergeDir<F>(left: Node<F>, n: string, child: Node<F>) returns (ok: bool)
    requires left.Valid() && child.Valid() && child.repr <= left.repr && left !in child.repr
    requires forall m :: m in left.dirs ==> child.repr !! left.dirs[m].repr
    modifies left, if n in left.dirs then left.dirs[n].repr else {}
    ensures ok <==> old(n !in left.files && (n in left.dirs ==> Compatible(left.dirs[n].Tree(), child.Tree())))
    ensures ok ==> left.Valid() && left.repr == old(left.repr) && left.files == old(left.files)
    ensures ok ==> left.dirs == old(left.dirs)[n := if n in old(left.dirs) then old(left.dirs[n]) else child]
    ensures ok ==> left.dirs[n].repr == old(if n in left.dirs then left.dirs[n].repr + child.repr else child.repr)
    ensures ok ==> forall m :: m in old(left.dirs) && m != n ==> left.dirs[m].repr == old(left.dirs[m].repr)
    ensures ok ==> forall m :: m in old(left.dirs) && m != n ==> left.dirs[m].Tree() == old(left.dirs[m].Tree())
    ensures ok ==>
      left.dirs[n].Tree() == old(if n in left.dirs then Merged(left.dirs[n].Tree(), child.Tree()) else child.Tree())
    decreases child.repr, 4
  {
    if n in left.files { return false; }
    if n in left.dirs {
      ok := MergeToLeft(left.dirs[n], child);
    } else {
      left.dirs := left.dirs[n := child];
      ok := true;
    }
  }

  lemma Updated<V>(now: map<string, V>, was: map<string, V>, n: string, v: V)
    requires now.Keys == was.Keys + {n} && now[n] == v && forall m :: m in was && m != n ==> now[m] == was[m]
    ensures now == was[n := v]
  {
  }

  lemma Children<F>(d: Node<F>)
    requires d.Valid()
    ensures forall m :: m in d.dirs ==>
      d.dirs[m].Valid() && d.dirs[m].repr == d.Owned()[m] && d.dirs[m].Tree() == d.Trees()[m]
  {
  }

  /** The same, told by the trees alone. */
  method MergeSub<F>(left: Node<F>, n: string, child: Node<F>) returns (ok: bool)
    requires left.Valid() && child.Valid() && child.repr <= left.repr && left !in child.repr
    requires forall m :: m in left.Owned() ==> left.Owned()[m] !! child.repr
    modifies left, if n in left.dirs then left.dirs[n].repr else {}
    ensures ok <==> old(n !in left.files && (n in left.Trees() ==> Compatible(left.Trees()[n], child.Tree())))
    ensures ok ==> left.Valid() && left.repr == old(left.repr) && left.files == old(left.files)
    ensures ok ==> left.dirs == old(left.dirs)[n := if n in old(left.dirs) then old(left.dirs[n]) else child]
    ensures ok ==> left.Trees() == old(var was, new' := left.Trees(), child.Tree();
                                       was[n := if n in was then Merged(was[n], new') else new'])
    ensures ok ==> left.Owned() == old(var was, new' := left.Owned(), child.repr;
                                       was[n := if n in was then was[n] + new' else new'])
    decreases child.repr, 5
  {
    hide *;
    Children(left);
    ghost var trees, owned := left.Trees(), left.Owned();
    ghost var tree := if n in trees then Merged(trees[n], child.Tree()) else child.Tree();
    ghost var own := if n in owned then owned[n] + child.repr else child.repr;
    ok := MergeDir(left, n, child);
    if ok {
      Children(left);
      Updated(left.Trees(), trees, n, tree);
      Updated(left.Owned(), owned, n, own);
    }
  }

  /** Who may own what while the names `todo` of the right tree are still to be dealt with: `mine` are
      the objects of the left tree as it was. */
  ghost predicate Placed(owned: map<string, set<object>>, theirs: map<string, set<object>>, mine: set<object>,
                         todo: set<string>)
  {
    && (forall n :: n in owned && (n in todo || n !in theirs) ==> owned[n] <= mine)
    && (forall m, n :: m in owned && n in todo && n in theirs ==> owned[m] !! theirs[n])
  }

  lemma PlacedStep(owned: map<string, set<object>>, theirs: map<string, set<object>>, mine: set<object>,
                   todo: set<string>, n: string)
    requires Placed(owned, theirs, mine, todo) && n in todo && n in theirs
    requires forall k :: k in theirs && k != n ==> theirs[k] !! theirs[n]
    ensures n in owned ==> owned[n] <= mine
    ensures forall m :: m in owned ==> owned[m] !! theirs[n]
    ensures Placed(owned[n := if n in owned then owned[n] + theirs[n] else theirs[n]], theirs, mine, todo - {n})
  {
  }

  lemma Apart<F>(d: Node<F>, n: string)
    requires d.Valid() && n in d.dirs
    ensures forall k :: k in d.Owned() && k != n ==> d.Owned()[k] !! d.Owned()[n]
    ensures d.dirs[n].repr <= d.repr && d !in d.dirs[n].repr && d in d.repr
  {
  }

  /** A directory object that was in the left tree is still there; one that only the right tree had is
      now in both. */
  predicate Adopted<F>(was: map<string, Node<F>>, theirs: map<string, Node<F>>, todo: set<string>,
                       now: map<string, Node<F>>)
  {
    && now.Keys == was.Keys + (theirs.Keys - todo)
    && (forall n :: n in was ==> now[n] == was[n])
    && (forall n :: n in theirs && n !in todo && n !in was ==> now[n] == theirs[n])
  }

  lemma AdoptedNothing<F>(was: map<string, Node<F>>, theirs: map<string, Node<F>>)
    ensures Adopted(was, theirs, theirs.Keys, was)
  {
  }

  lemma AdoptedStep<F>(was: map<string, Node<F>>, theirs: map<string, Node<F>>, todo: set<string>, now: map<string,
                       Node<F>>, n: string)
    requires Adopted(was, theirs, todo, now) && n in theirs && n in todo
    ensures Adopted(was, theirs, todo - {n}, now[n := if n in now then now[n] else theirs[n]])
  {
  }

  /** How things stand while the names `todo` of the right tree are still to be dealt with. */
  ghost predicate Merging<F>(left: Node<F>, right: Node<F>, l: Dir<F>, r: Dir<F>, mine: set<object>,
                             theirs: set<object>, todo: set<string>)
    reads left, left.repr, right, right.repr
  {
    && left.Valid() && left.repr == mine + theirs && left in mine && mine !! theirs
    && right.Valid() && right.repr == theirs && right.Trees() == r.dirs
    && left.files == l.files + r.files && left.Trees() == PartMerged(l, r, todo)
    && Placed(left.Owned(), right.Owned(), mine, todo)
  }

  /** One round: deals with the name `n`. */
  method MergeStep<F>(left: Node<F>, right: Node<F>, n: string, ghost l: Dir<F>, ghost r: Dir<F>,
                      ghost mine: set<object>, ghost theirs: set<object>, ghost todo: set<string>,
                      ghost was: map<string, Node<F>>)
    returns (ok: bool)
    requires Merging(left, right, l, r, mine, theirs, todo) && n in todo && n in right.dirs
    requires Adopted(was, right.dirs, todo, left.dirs)
    modifies mine
    ensures n in r.dirs && (ok <==> Fits(l, r, n))
    ensures right.dirs == old(right.dirs)
    ensures ok ==> Merging(left, right, l, r, mine, theirs, todo - {n})
    ensures ok ==> Adopted(was, right.dirs, todo - {n}, left.dirs)
    decreases theirs, 0
  {
    hide Node.Valid, Node.Trees, Node.Owned, Node.Tree, Placed, PartMerged, Merged, Fits, Compatible, Adopted;
    Children(right);
    Apart(right, n);
    Children(left);
    PlacedStep(left.Owned(), right.Owned(), mine, todo, n);
    PartMergedStep(l, r, todo, n);
    AdoptedStep(was, right.dirs, todo, left.dirs, n);
    FitsIs(l, r, n);
    assert left !in theirs;
    ok := MergeSub(left, n, right.dirs[n]);
  }

  ghost predicate AllFit<F>(l: Dir<F>, r: Dir<F>, todo: set<string>) {
    forall n :: n in r.dirs && n !in todo ==> Fits(l, r, n)
  }

  lemma AllFitStep<F>(l: Dir<F>, r: Dir<F>, todo: set<string>, n: string)
    requires n in r.dirs && AllFit(l, r, todo)
    ensures AllFit(l, r, todo - {n}) <==> Fits(l, r, n) || n !in todo
    ensures !Fits(l, r, n) ==> !AllFit(l, r, {})
  {
  }

  /** All of it: the shape, the sharing, and that nothing has been in the way so far. */
  ghost predicate Standing<F>(left: Node<F>, right: Node<F>, l: Dir<F>, r: Dir<F>, mine: set<object>,
                              theirs: set<object>,
                              was: map<string, Node<F>>, names: map<string, Node<F>>, todo: set<string>)
    reads left, left.repr, right, right.repr
  {
    && Merging(left, right, l, r, mine, theirs, todo) && right.dirs == names
    && Adopted(was, names, todo, left.dirs) && AllFit(l, r, todo)
  }

  method NextName<F>(left: Node<F>, right: Node<F>, n: string, ghost l: Dir<F>, ghost r: Dir<F>,
                     ghost mine: set<object>, ghost theirs: set<object>,
                     ghost was: map<string, Node<F>>, ghost names: map<string, Node<F>>, ghost todo: set<string>)
    returns (ok: bool)
    requires Standing(left, right, l, r, mine, theirs, was, names, todo) && n in todo && n in right.dirs
    modifies mine
    ensures ok ==> Standing(left, right, l, r, mine, theirs, was, names, todo - {n})
    ensures !ok ==> !AllFit(l, r, {})
    decreases theirs, 1
  {
    hide Merging, Adopted, AllFit;
    ok := MergeStep(left, right, n, l, r, mine, theirs, todo, was);
    AllFitStep(l, r, todo, n);
  }

  /** The second half of the merge. */
  method MergeDirs<F>(left: Node<F>, right: Node<F>, ghost l: Dir<F>, ghost r: Dir<F>, ghost mine: set<object>,
                      ghost theirs: set<object>)
    returns (ok: bool)
    requires Standing(left, right, l, r, mine, theirs, left.dirs, right.dirs, right.dirs.Keys)
    modifies mine
    ensures ok ==> Standing(left, right, l, r, mine, theirs, old(left.dirs), old(right.dirs), {})
    ensures !ok ==> !AllFit(l, r, {})
    decreases theirs, 2
  {
    hide *;
    ghost var was, names := left.dirs, right.dirs;
    var todo := right.dirs.Keys;
    while todo != {}
      invariant todo <= names.Keys
      invariant Standing(left, right, l, r, mine, theirs, was, names, todo)
      decreases |todo|
    {
      var n :| n in todo;
      NamesStand(left, right, l, r, mine, theirs, was, names, todo);
      ok := NextName(left, right, n, l, r, mine, theirs, was, names, todo);
      if !ok { return; }
      todo := todo - {n};
    }
    ok := true;
  }

  lemma NamesStand<F>(left: Node<F>, right: Node<F>, l: Dir<F>, r: Dir<F>, mine: set<object>, theirs: set<object>,
                      was: map<string, Node<F>>, names: map<string, Node<F>>, todo: set<string>)
    requires Standing(left, right, l, r, mine, theirs, was, names, todo)
    ensures right.dirs == names
  {
  }

  /** The first half of the merge: moves the right tree's files over. */
  method MergeFiles<F>(left: Node<F>, right: Node<F>) returns (ok: bool)
    requires left != right
    modifies left`files
    ensures ok <==> forall n :: n in right.files ==> n !in old(left.files) && n !in left.dirs
    ensures ok ==> left.files == old(left.files) + right.files
  {
    ghost var was := left.files;
    FilesEnds(left.files, right.files);
    var todo := right.files.Keys;
    while todo != {}
      invariant todo <= right.files.Keys
      invariant left.files == FilesSoFar(was, right.files, todo)
      invariant forall n :: n in right.files && n !in todo ==> n !in was && n !in left.dirs
      decreases |todo|
    {
      var n :| n in todo;
      if n in left.files || n in left.dirs { return false; }
      FilesStep(was, right.files, todo, n);
      left.files, todo := left.files[n := right.files[n]], todo - {n};
    }
    ok := true;
  }

  /** The same, told with the trees. */
  method TakeFiles<F>(left: Node<F>, right: Node<F>) returns (ok: bool)
    requires left.Valid() && left != right
    modifies left`files
    ensures ok <==> forall n :: n in right.files ==> n !in old(left.files) && n !in left.dirs
    ensures ok ==> left.files == old(left.files) + right.files
    ensures left.Valid() && left.Trees() == old(left.Trees()) && left.Owned() == old(left.Owned())
  {
    ok := MergeFiles(left, right);
  }

  /** Lets the left tree reach what it is about to take over. */
  ghost method Grow<F>(left: Node<F>, more: set<object>)
    requires left.Valid()
    modifies left`repr
    ensures left.repr == old(left.repr) + more
    ensures left.Valid() && left.Trees() == old(left.Trees()) && left.Owned() == old(left.Owned())
  {
    left.repr := left.repr + more;
  }

  lemma AtFirst<F>(left: Node<F>, right: Node<F>)
    requires left.Valid() && right.Valid() && left.repr !! right.repr
    ensures left in left.repr && right in right.repr
    ensures Placed(left.Owned(), right.Owned(), left.repr, right.dirs.Keys)
  {
  }

  lemma Starts<F>(left: Node<F>, right: Node<F>, l: Dir<F>, r: Dir<F>, mine: set<object>)
    requires left.Valid() && left.repr == mine + right.repr && left in mine && mine !! right.repr
    requires right.Valid() && right.Trees() == r.dirs
    requires left.files == l.files + r.files && left.Trees() == PartMerged(l, r, right.dirs.Keys)
    requires Placed(left.Owned(), right.Owned(), mine, right.dirs.Keys)
    ensures Standing(left, right, l, r, mine, right.repr, left.dirs, right.dirs, right.dirs.Keys)
  {
    AdoptedNothing(left.dirs, right.dirs);
  }

  /** Moves the files and makes ready for the directories. */
  method Prepare<F>(left: Node<F>, right: Node<F>, ghost l: Dir<F>, ghost r: Dir<F>) returns (ok: bool)
    requires left.Valid() && right.Valid() && left.repr !! right.repr
    requires left.files == l.files && left.Trees() == l.dirs && right.files == r.files && right.Trees() == r.dirs
    modifies left
    ensures ok <==> forall n :: n in r.files ==> n !in l.files && n !in l.dirs
    ensures ok ==> Standing(left, right, l, r, old(left.repr), right.repr, left.dirs, right.dirs, right.dirs.Keys)
    ensures left.dirs == old(left.dirs)
  {
    hide *;
    ghost var mine := left.repr;
    AtFirst(left, right);
    ok := TakeFiles(left, right);
    if !ok { return; }
    Grow(left, right.repr);
    PartMergedEnds(l, r);
    Starts(left, right, l, r, mine);
  }

  /** Merges `right` into `left` in place; false is the fatal error. Nothing of the right tree is
      written, and what the left tree takes of it, it takes by reference. */
  method MergeToLeft<F>(left: Node<F>, right: Node<F>) returns (ok: bool)
    requires left.Valid() && right.Valid() && left.repr !! right.repr
    modifies left.repr
    ensures ok <==> old(Compatible(left.Tree(), right.Tree()))
    ensures ok ==> left.Valid() && left.repr == old(left.repr + right.repr)
    ensures ok ==> left.Tree() == old(Merged(left.Tree(), right.Tree()))
    ensures ok ==> Adopted(old(left.dirs), old(right.dirs), {}, left.dirs)
    decreases right.repr, 3
  {
    ghost var l, r, mine, theirs := left.Tree(), right.Tree(), left.repr, right.repr;
    CompatibleByName(l, r);
    assert AllFit(l, r, {}) <==> forall n :: n in r.dirs ==> Fits(l, r, n);
    hide *;
    MergedIs(l, r);
    left.TreeIs();
    right.TreeIs();
    AtFirst(left, right);
    ok := Prepare(left, right, l, r);
    if !ok { return; }
    ghost var was, names := left.dirs, right.dirs;
    ok := MergeDirs(left, right, l, r, mine, theirs);
    if ok {
      Ends(left, right, l, r, mine, theirs, was, names);
      left.TreeIs();
    }
  }

  lemma Ends<F>(left: Node<F>, right: Node<F>, l: Dir<F>, r: Dir<F>, mine: set<object>, theirs: set<object>,
                was: map<string, Node<F>>, names: map<string, Node<F>>)
    requires Standing(left, right, l, r, mine, theirs, was, names, {})
    ensures left.Valid() && left.repr == mine + theirs
    ensures left.files == l.files + r.files && left.Trees() == PartMerged(l, r, {})
    ensures Adopted(was, names, {}, left.dirs) && AllFit(l, r, {})
  {
  }

  lemma MergedIs<F>(l: Dir<F>, r: Dir<F>)
    ensures Merged(l, r) == Dir(l.files + r.files, PartMerged(l, r, {}))
  {
    PartMergedEnds(l, r);
  }
}
