/** Lists of scheduled operations, each belonging to one path of a tree. */
module Plans {
  import opened Counting
  import opened Trees
  import opened Wrappers

  /** The agenda as the synchroniser sees it: a queue it only ever adds to. */
  class Queue<Op> {
    var ops: seq<Op>

    constructor ()
      ensures ops == []
    {
      ops := [];
    }

    method Schedule(op: Op)
      modifies this
      ensures ops == old(ops) + [op]
    {
      ops := ops + [op];
    }
  }

  lemma Associative<T>(a: seq<T>, b: seq<T>, c: seq<T>)
    ensures a + b + c == a + (b + c)
  {
  }

  /** `ops` are exactly the operations that `want` asks for, one for each path, in some order. */
  ghost predicate Realises<Op(!new)>(ops: seq<Op>, paths: seq<Path>, want: imap<Path, Op>) {
    && |ops| == |paths| && Distinct(paths)
    && (forall p :: p in want <==> p in paths)
    && forall i :: 0 <= i < |paths| ==> paths[i] in want && ops[i] == want[paths[i]]
  }

  /** The wishes of a subtree, seen from its parent. */
  ghost function Under<Op>(n: string, want: imap<Path, Op>): imap<Path, Op> {
    imap p: Path | |p| > 1 && p[0] == n && p[1..] in want :: want[p[1..]]
  }

  function Prefixed(n: string, paths: seq<Path>): seq<Path> {
    seq(|paths|, i requires 0 <= i < |paths| => [n] + paths[i])
  }

  lemma RealisesNothing<Op(!new)>(want: imap<Path, Op>)
    requires forall p :: p !in want
    ensures Realises([], [], want)
  {
  }

  lemma RealisesOne<Op(!new)>(op: Op, p: Path, want: imap<Path, Op>)
    requires p in want && want[p] == op && forall q :: q in want ==> q == p
    ensures Realises([op], [p], want)
  {
  }

  lemma RealisesUnder<Op(!new)>(ops: seq<Op>, paths: seq<Path>, want: imap<Path, Op>, n: string)
    requires Realises(ops, paths, want)
    ensures Realises(ops, Prefixed(n, paths), Under(n, want))
  {
    var longer, under := Prefixed(n, paths), Under(n, want);
    forall i | 0 <= i < |paths| ensures longer[i][0] == n && longer[i][1..] == paths[i] {
    }
    forall p: Path | p in under ensures p in longer {
      var i :| 0 <= i < |paths| && paths[i] == p[1..];
      assert p == [n] + p[1..];
      assert longer[i] == p;
    }
    forall i, j | 0 <= i < j < |longer| ensures longer[i] != longer[j] {
      assert longer[i][1..] == paths[i] && longer[j][1..] == paths[j];
    }
  }

  lemma DistinctBoth<T>(xs: seq<T>, ys: seq<T>)
    requires Distinct(xs) && Distinct(ys) && forall x :: x in xs ==> x !in ys
    ensures Distinct(xs + ys)
  {
    var all := xs + ys;
    forall i, j | 0 <= i < j < |all| ensures all[i] != all[j] {
      if i < |xs| <= j { assert all[i] in xs && all[j] in ys; }
    }
  }

  lemma ValuesOfBoth<Op>(xs: seq<Op>, ps: seq<Path>, left: imap<Path, Op>,
                         ys: seq<Op>, qs: seq<Path>, right: imap<Path, Op>, i: nat)
    requires |xs| == |ps| && |ys| == |qs| && i < |ps + qs|
    requires forall k :: 0 <= k < |ps| ==> ps[k] in left && ps[k] !in right && xs[k] == left[ps[k]]
    requires forall k :: 0 <= k < |qs| ==> qs[k] in right && ys[k] == right[qs[k]]
    ensures (ps + qs)[i] in left + right && (xs + ys)[i] == (left + right)[(ps + qs)[i]]
  {
    if i < |ps| {
      assert (ps + qs)[i] == ps[i];
    } else {
      assert (ps + qs)[i] == qs[i - |ps|];
    }
  }

  lemma RealisesBoth<Op(!new)>(xs: seq<Op>, ps: seq<Path>, left: imap<Path, Op>,
                               ys: seq<Op>, qs: seq<Path>, right: imap<Path, Op>)
    requires Realises(xs, ps, left) && Realises(ys, qs, right)
    requires forall p :: p in left ==> p !in right
    ensures Realises(xs + ys, ps + qs, left + right)
  {
    DistinctBoth(ps, qs);
    hide Distinct;
    forall i | 0 <= i < |ps + qs|
      ensures (ps + qs)[i] in left + right && (xs + ys)[i] == (left + right)[(ps + qs)[i]]
    {
      ValuesOfBoth(xs, ps, left, ys, qs, right, i);
    }
  }

  /** A wish for the name `n` itself, and the wishes below it. */
  ghost function Joined<Op>(n: string, top: Option<Op>, sub: imap<Path, Op>): imap<Path, Op> {
    imap p: Path | (p == [n] && top.Some?) || (|p| > 1 && p[0] == n && p[1..] in sub) ::
      if p == [n] then top.value else sub[p[1..]]
  }

  lemma IsJoined<Op>(m: imap<Path, Op>, n: string, top: Option<Op>, sub: imap<Path, Op>)
    requires forall p :: p in m ==> p[0] == n
    requires [n] in m <==> top.Some?
    requires top.Some? ==> m[[n]] == top.value
    requires forall p: Path :: |p| > 1 && p[0] == n ==> (p in m <==> p[1..] in sub)
    requires forall p: Path :: |p| > 1 && p in m ==> p[1..] in sub && m[p] == sub[p[1..]]
    ensures m == Joined(n, top, sub)
  {
    assert forall p: Path :: p[0] == n && |p| == 1 ==> p == [n];
  }

  lemma RealisesBelow<Op(!new)>(ops: seq<Op>, paths: seq<Path>, sub: imap<Path, Op>, n: string)
    requires Realises(ops, paths, sub)
    ensures Realises(ops, Prefixed(n, paths), Joined(n, None, sub))
  {
    RealisesUnder(ops, paths, sub, n);
    assert Under(n, sub) == Joined(n, None, sub);
  }

  ghost function Own<Op>(n: string, op: Op): imap<Path, Op> { Joined(n, Some(op), imap[]) }

  lemma RealisesOwn<Op(!new)>(n: string, op: Op)
    ensures Realises([op], [[n]], Own(n, op))
  {
    RealisesOne(op, [n], Own(n, op));
  }

  lemma JoinedIsSum<Op>(n: string, op: Op, sub: imap<Path, Op>)
    ensures Joined(n, Some(op), sub) == Own(n, op) + Under(n, sub)
    ensures Joined(n, Some(op), sub) == Under(n, sub) + Own(n, op)
    ensures forall p :: p in Own(n, op) ==> p !in Under(n, sub)
    ensures forall p :: p in Under(n, sub) ==> p !in Own(n, op)
  {
  }

  lemma RealisesFirst<Op(!new)>(ops: seq<Op>, paths: seq<Path>, sub: imap<Path, Op>, n: string, op: Op)
    requires Realises(ops, paths, sub)
    ensures Realises([op] + ops, [[n]] + Prefixed(n, paths), Joined(n, Some(op), sub))
  {
    RealisesUnder(ops, paths, sub, n);
    RealisesOwn(n, op);
    JoinedIsSum(n, op, sub);
    RealisesBoth([op], [[n]], Own(n, op), ops, Prefixed(n, paths), Under(n, sub));
  }

  lemma RealisesLast<Op(!new)>(ops: seq<Op>, paths: seq<Path>, sub: imap<Path, Op>, n: string, op: Op)
    requires Realises(ops, paths, sub)
    ensures Realises(ops + [op], Prefixed(n, paths) + [[n]], Joined(n, Some(op), sub))
  {
    RealisesUnder(ops, paths, sub, n);
    RealisesOwn(n, op);
    JoinedIsSum(n, op, sub);
    RealisesBoth(ops, Prefixed(n, paths), Under(n, sub), [op], [[n]], Own(n, op));
  }

  /** The wishes for the paths in `scope`. */
  ghost function Only<Op>(want: imap<Path, Op>, scope: iset<Path>): imap<Path, Op> {
    imap p: Path | p in want && p in scope :: want[p]
  }

  /** The union of two scopes that do not meet. */
  ghost predicate Splits(whole: iset<Path>, left: iset<Path>, right: iset<Path>) {
    forall p: Path :: (p in whole <==> p in left || p in right) && !(p in left && p in right)
  }

  lemma OnlySplits<Op>(want: imap<Path, Op>, whole: iset<Path>, left: iset<Path>, right: iset<Path>)
    requires Splits(whole, left, right)
    ensures Only(want, whole) == Only(want, left) + Only(want, right)
    ensures forall p :: p in Only(want, left) ==> p !in Only(want, right)
  {
  }

  lemma RealisesMore<Op(!new)>(want: imap<Path, Op>, whole: iset<Path>, left: iset<Path>, right: iset<Path>,
                               ops: seq<Op>, paths: seq<Path>, more: seq<Op>, morePaths: seq<Path>)
    requires Splits(whole, left, right)
    requires Realises(ops, paths, Only(want, left)) && Realises(more, morePaths, Only(want, right))
    ensures Realises(ops + more, paths + morePaths, Only(want, whole))
  {
    OnlySplits(want, whole, left, right);
    RealisesBoth(ops, paths, Only(want, left), more, morePaths, Only(want, right));
  }

  ghost function StartingWith(n: string): iset<Path> { iset p: Path | p[0] == n }

  ghost function Just(n: string): iset<Path> { iset{[n]} }

  ghost function Below(n: string): iset<Path> { iset p: Path | |p| > 1 && p[0] == n }

  /** The paths that start with a name in `names` but not in `todo`: all of them, those of length one,
      and the longer ones. */
  ghost function Starting(names: set<string>, todo: set<string>): iset<Path> {
    iset p: Path | p[0] in names && p[0] !in todo
  }

  ghost function Tops(names: set<string>, todo: set<string>): iset<Path> {
    iset p: Path | |p| == 1 && p[0] in names && p[0] !in todo
  }

  ghost function Deeps(names: set<string>, todo: set<string>): iset<Path> {
    iset p: Path | |p| > 1 && p[0] in names && p[0] !in todo
  }

  lemma ScopesGrow(names: set<string>, todo: set<string>, n: string)
    requires n in names && n in todo
    ensures Splits(Starting(names, todo - {n}), Starting(names, todo), StartingWith(n))
    ensures Splits(Tops(names, todo - {n}), Tops(names, todo), Just(n))
    ensures Splits(Deeps(names, todo - {n}), Deeps(names, todo), Below(n))
  {
    forall p: Path | |p| == 1 && p[0] == n ensures p == [n] {
    }
  }

  lemma NothingYet<Op(!new)>(want: imap<Path, Op>, names: set<string>)
    ensures Realises([], [], Only(want, Starting(names, names)))
    ensures Realises([], [], Only(want, Tops(names, names)))
    ensures Realises([], [], Only(want, Deeps(names, names)))
  {
  }

  lemma CountedTwice<T>(xs: seq<T>, i: nat, j: nat)
    requires i < j < |xs| && xs[i] == xs[j]
    ensures multiset(xs)[xs[i]] >= 2
  {
    assert xs == xs[..j] + [xs[j]] + xs[j + 1..];
    assert xs[..j][i] in multiset(xs[..j]);
  }

  lemma {:induction false} FoundTwice<T>(xs: seq<T>, x: T) returns (i: nat, j: nat)
    requires multiset(xs)[x] >= 2
    ensures i < j < |xs| && xs[i] == xs[j] == x
  {
    assert xs == [xs[0]] + xs[1..];
    if xs[0] == x {
      assert x in multiset(xs[1..]);
      i := 0;
      var k: nat :| k < |xs[1..]| && xs[1..][k] == x;
      j := k + 1;
    } else {
      i, j := FoundTwice(xs[1..], x);
      i, j := i + 1, j + 1;
    }
  }

  /** A list without repetition keeps that property, and its elements, when it is reordered. */
  lemma Reordered<T>(xs: seq<T>, ys: seq<T>)
    requires Distinct(xs) && multiset(xs) == multiset(ys)
    ensures Distinct(ys) && |xs| == |ys| && forall x :: x in xs <==> x in ys
  {
    assert |xs| == |multiset(xs)| && |ys| == |multiset(ys)|;
    forall x ensures x in xs <==> x in ys {
      assert x in xs <==> x in multiset(xs);
      assert x in ys <==> x in multiset(ys);
    }
    forall i, j | 0 <= i < j < |ys| ensures ys[i] != ys[j] {
      if ys[i] == ys[j] {
        CountedTwice(ys, i, j);
        var k, l := FoundTwice(xs, ys[i]);
      }
    }
  }
}
