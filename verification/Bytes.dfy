/** Byte strings, their concatenation, and the cutting of one into equal parts. */
module Bytes {

  type Byte = b: int | 0 <= b < 256

  function Concat<T>(xs: seq<seq<T>>): seq<T> {
    if xs == [] then [] else xs[0] + Concat(xs[1..])
  }

  lemma {:induction false} ConcatAppend<T>(xs: seq<seq<T>>, ys: seq<seq<T>>)
    ensures Concat(xs + ys) == Concat(xs) + Concat(ys)
  {
    if xs == [] {
      assert xs + ys == ys;
    } else {
      assert (xs + ys)[1..] == xs[1..] + ys;
      ConcatAppend(xs[1..], ys);
      assert xs[0] + (Concat(xs[1..]) + Concat(ys)) == (xs[0] + Concat(xs[1..])) + Concat(ys);
    }
  }

  lemma ConcatSnoc<T>(xs: seq<seq<T>>, y: seq<T>)
    ensures Concat(xs + [y]) == Concat(xs) + y
  {
    ConcatAppend(xs, [y]);
    assert Concat([y]) == y + Concat([]);
    assert [y][1..] == [];
  }

  function Min(a: int, b: int): int { if a < b then a else b }

  /** How many parts of `size` bytes cover `total` bytes: the source's rounded-up division. */
  function PartCount(total: nat, size: nat): nat
    requires size > 0
  {
    total / size + (if total % size == 0 then 0 else 1)
  }

  /** The client never sends or fetches fewer than one part. */
  function CountOfParts(total: nat, size: nat): nat
    requires size > 0
  {
    if PartCount(total, size) == 0 then 1 else PartCount(total, size)
  }

  /** Part `i` of an object cut at multiples of `size`. */
  function PartOf<T>(obj: seq<T>, size: nat, i: nat): seq<T>
    requires size > 0
  {
    obj[Min(i * size, |obj|)..Min((i + 1) * size, |obj|)]
  }

  /** Part `i` exists, perhaps as the single empty part of an empty object. */
  predicate IsPart(total: nat, size: nat, i: nat)
    requires size > 0
  {
    i * size < total || (i == 0 && total == 0)
  }

  lemma PartCountIsExact(total: nat, size: nat, i: nat)
    requires size > 0
    ensures i < PartCount(total, size) <==> i * size < total
    ensures PartCount(total, size) == 0 <==> total == 0
  {
    var q, r := total / size, total % size;
    assert total == q * size + r;
    if i < q {
      assert (i + 1) * size <= q * size;
    } else if i > q {
      assert (q + 1) * size <= i * size;
    }
  }

  function PartsFrom<T>(obj: seq<T>, size: nat, n: nat): seq<seq<T>>
    requires size > 0
  {
    seq(n, i requires 0 <= i < n => PartOf(obj, size, i))
  }

  /** The first `n` parts are the first `n * size` bytes. */
  lemma {:induction false} PartsArePrefix<T>(obj: seq<T>, size: nat, n: nat)
    requires size > 0
    ensures Concat(PartsFrom(obj, size, n)) == obj[..Min(n * size, |obj|)]
  {
    if n > 0 {
      PartsArePrefix(obj, size, n - 1);
      assert PartsFrom(obj, size, n) == PartsFrom(obj, size, n - 1) + [PartOf(obj, size, n - 1)];
      ConcatSnoc(PartsFrom(obj, size, n - 1), PartOf(obj, size, n - 1));
      assert (n - 1) * size <= n * size;
    }
  }

  lemma PartSize<T>(obj: seq<T>, size: nat, i: nat)
    requires size > 0
    ensures (i + 1) * size <= |obj| ==> |PartOf(obj, size, i)| == size
    ensures i * size < |obj| ==> 0 < |PartOf(obj, size, i)| <= size
  {
    assert (i + 1) * size == i * size + size;
  }

  /** Cutting and gluing is the identity, and every part but the last is full. */
  lemma PartsRoundTrip<T>(obj: seq<T>, size: nat, n: nat)
    requires size > 0 && (n == PartCount(|obj|, size) || (n == 1 && obj == []))
    ensures Concat(PartsFrom(obj, size, n)) == obj
    ensures forall i :: 0 <= i < n - 1 ==> |PartOf(obj, size, i)| == size
    ensures n > 0 && obj != [] ==> 0 < |PartOf(obj, size, n - 1)| <= size
  {
    hide PartOf, PartsFrom, PartCount, Concat;
    PartsArePrefix(obj, size, n);
    PartCountIsExact(|obj|, size, n);
    assert Min(n * size, |obj|) == |obj|;
    forall i | 0 <= i < n - 1 ensures |PartOf(obj, size, i)| == size {
      PartCountIsExact(|obj|, size, i + 1);
      PartSize(obj, size, i);
    }
    if n > 0 && obj != [] {
      PartCountIsExact(|obj|, size, n - 1);
      PartSize(obj, size, n - 1);
    }
  }
}
