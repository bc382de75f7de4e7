/** Cutting a file, given as scattered pieces, into numbered upload parts. */
module Uploader {
  import opened Bytes
  import opened Counting
  import opened Segments

  const MAX_PART_NUM: nat := 10000
  const READ_BUFFER: nat := 65536 * 8

  datatype PartTask = PartTask(num: nat, segment: Segment)

  /** What is still to be read when the pump stands at offset `off` of piece `k`. */
  ghost function Rest(pieces: seq<seq<Byte>>, k: nat, off: nat): seq<Byte>
    requires k < |pieces| && off <= |pieces[k]|
  {
    pieces[k][off..] + Concat(pieces[k + 1..])
  }

  /** Passing over a piece, and stopping inside it. */
  lemma SkipPiece(pieces: seq<seq<Byte>>, f: nat, all: seq<Byte>, skipped: nat)
    requires f < |pieces| && skipped <= |all| && all[skipped..] == Concat(pieces[f..])
    ensures skipped + |pieces[f]| <= |all|
    ensures all[skipped + |pieces[f]|..] == Concat(pieces[f + 1..])
  {
    assert pieces[f..][1..] == pieces[f + 1..];
    assert all[skipped..] == pieces[f] + Concat(pieces[f + 1..]);
    assert all[skipped..][|pieces[f]|..] == all[skipped + |pieces[f]|..];
  }

  lemma StopInPiece(pieces: seq<seq<Byte>>, f: nat, all: seq<Byte>, skipped: nat, off: nat)
    requires f < |pieces| && skipped <= |all| && all[skipped..] == Concat(pieces[f..]) && off <= |pieces[f]|
    ensures skipped + off <= |all| && Rest(pieces, f, off) == all[skipped + off..]
  {
    assert pieces[f..][1..] == pieces[f + 1..];
    assert all[skipped..] == pieces[f] + Concat(pieces[f + 1..]);
    assert all[skipped..][off..] == all[skipped + off..];
    assert (pieces[f] + Concat(pieces[f + 1..]))[off..] == pieces[f][off..] + Concat(pieces[f + 1..]);
  }

  /** Finds the piece that holds offset `start`, passing over pieces of length zero. */
  method SkipTo(pieces: seq<seq<Byte>>, start: nat) returns (k: nat, off: nat)
    requires pieces != [] && (start < |Concat(pieces)| || start == 0)
    ensures k < |pieces| && off <= |pieces[k]|
    ensures Rest(pieces, k, off) == Concat(pieces)[start..]
  {
    hide Rest, Concat;
    var skipped: nat := 0;
    ghost var all := Concat(pieces);
    assert pieces[0..] == pieces;
    for f := 0 to |pieces|
      invariant skipped <= start && skipped <= |all|
      invariant all[skipped..] == Concat(pieces[f..])
    {
      var size := |pieces[f]|;
      SkipPiece(pieces, f, all, skipped);
      if start < skipped + size {
        StopInPiece(pieces, f, all, skipped, start - skipped);
        return f, start - skipped;
      }
      skipped := skipped + size;
    }
    NothingBehind(pieces);
    StopInPiece(pieces, 0, all, 0, 0);
    k, off := 0, 0;
  }

  lemma NothingBehind(pieces: seq<seq<Byte>>)
    ensures Concat(pieces[|pieces|..]) == []
  {
  }

  lemma CopyOn(was: seq<Byte>, at: nat, x: seq<Byte>, y: seq<Byte>, now: seq<Byte>)
    requires at + |x| + |y| <= |was| && now == was[..at] + x + was[at + |x|..]
    ensures now[..at + |x|] + y + now[at + |x| + |y|..] == was[..at] + (x + y) + was[at + |x| + |y|..]
  {
    assert now[..at + |x|] == was[..at] + x;
    assert now[at + |x| + |y|..] == was[at + |x| + |y|..];
    assert was[..at] + x + y == was[..at] + (x + y);
  }

  /** Reads `remaining` bytes of a piece into the segment, in reads of any length the system likes. */
  method ReadInto(piece: seq<Byte>, off: nat, seg: Segment, at: nat, remaining: nat)
    requires off + remaining <= |piece| && at + remaining <= |seg.data|
    modifies seg
    ensures seg.data == old(seg.data)[..at] + piece[off..off + remaining] + old(seg.data)[at + remaining..]
  {
    var got := 0;
    while got < remaining
      invariant got <= remaining
      invariant seg.data == old(seg.data)[..at] + piece[off..off + got] + old(seg.data)[at + got..]
    {
      var chunk := Min(remaining - got, READ_BUFFER);
      var res: nat :| 1 <= res <= chunk;
      CopyOn(old(seg.data), at, piece[off..off + got], piece[off + got..off + got + res], seg.data);
      seg.Copy(at + got, piece[off + got..off + got + res]);
      assert piece[off..off + got + res] == piece[off..off + got] + piece[off + got..off + got + res];
      got := got + res;
    }
  }

  lemma RestAdvances(pieces: seq<seq<Byte>>, k: nat, off: nat, n: nat)
    requires k < |pieces| && off + n <= |pieces[k]|
    ensures |Rest(pieces, k, off)| >= n
    ensures Rest(pieces, k, off) == pieces[k][off..off + n] + Rest(pieces, k, off + n)
    ensures Rest(pieces, k, off)[..n] == pieces[k][off..off + n]
    ensures Rest(pieces, k, off)[n..] == Rest(pieces, k, off + n)
    ensures off + n == |pieces[k]| && k + 1 < |pieces| ==> Rest(pieces, k, off + n) == Rest(pieces, k + 1, 0)
    ensures off + n == |pieces[k]| && k + 1 == |pieces| ==> Rest(pieces, k, off + n) == []
  {
    if k + 1 < |pieces| {
      assert pieces[k + 1..][1..] == pieces[k + 2..];
    }
  }

  lemma Advance(rest: seq<Byte>, at: nat, n: nat, before: seq<Byte>, chunk: seq<Byte>, after: seq<Byte>)
    requires at <= |rest| && at + n <= |before| && n <= |rest| - at
    requires before[..at] == rest[..at] && chunk == rest[at..][..n]
    requires after == before[..at] + chunk + before[at + n..]
    ensures |after| == |before| && after[..at + n] == rest[..at + n]
    ensures rest[at..][n..] == rest[at + n..]
  {
    assert rest[..at + n] == rest[..at] + rest[at..][..n];
  }

  function Head(rest: seq<Byte>, size: nat): seq<Byte> { rest[..Min(size, |rest|)] }

  function Tail(rest: seq<Byte>, size: nat): seq<Byte> { rest[Min(size, |rest|)..] }

  /** Fills one segment: it ends up with the next `size` bytes, or with all the bytes that are left
      when the last piece runs out. */
  method FillSegment(pieces: seq<seq<Byte>>, k0: nat, off0: nat, seg: Segment, size: nat)
    returns (k: nat, off: nat)
    requires k0 < |pieces| && off0 <= |pieces[k0]| && size > 0
    modifies seg
    ensures k < |pieces| && off <= |pieces[k]|
    ensures seg.data == Head(Rest(pieces, k0, off0), size)
    ensures Rest(pieces, k, off) == Tail(Rest(pieces, k0, off0), size)
  {
    k, off := k0, off0;
    seg.Resize(size);
    ghost var rest := Rest(pieces, k0, off0);
    var at := 0;
    while at < |seg.data|
      invariant k < |pieces| && off <= |pieces[k]|
      invariant at <= |rest| && at <= |seg.data| <= size
      invariant |seg.data| == size || (at == |seg.data| && at == |rest|)
      invariant seg.data[..at] == rest[..at] && Rest(pieces, k, off) == rest[at..]
      decreases |pieces| - k, size - at, |seg.data| - at
    {
      at, off := FillFromPiece(pieces, k, off, seg, size, at, rest);
      if k == |pieces| - 1 {
        seg.Resize(at);
      } else if off == |pieces[k]| {
        k, off := k + 1, 0;
      } else {
        assert at == size;
      }
    }
  }

  /** One round of filling: takes what the current piece can give, at most up to the end of the
      segment. */
  method FillFromPiece(pieces: seq<seq<Byte>>, k: nat, off: nat, seg: Segment, size: nat, at: nat,
                       ghost rest: seq<Byte>)
    returns (at': nat, off': nat)
    requires k < |pieces| && off <= |pieces[k]|
    requires at < size == |seg.data| && at <= |rest|
    requires seg.data[..at] == rest[..at] && Rest(pieces, k, off) == rest[at..]
    modifies seg
    ensures at <= at' <= |rest| && off <= off' <= |pieces[k]| && |seg.data| == size
    ensures at' <= size && (at' == size || off' == |pieces[k]|)
    ensures at' == at ==> off' == off
    ensures seg.data[..at'] == rest[..at'] && Rest(pieces, k, off') == rest[at'..]
    ensures off' == |pieces[k]| && k + 1 < |pieces| ==> Rest(pieces, k + 1, 0) == rest[at'..]
    ensures off' == |pieces[k]| && k + 1 == |pieces| ==> at' == |rest|
  {
    var remaining := Min(size - at, |pieces[k]| - off);
    RestAdvances(pieces, k, off, remaining);
    ghost var before := seg.data;
    ReadInto(pieces[k], off, seg, at, remaining);
    Advance(rest, at, remaining, before, pieces[k][off..off + remaining], seg.data);
    at', off' := at + remaining, off + remaining;
  }

  /** What is left before each segment of a pump, and after the last. */
  ghost predicate Chain(rests: seq<seq<Byte>>, size: nat) {
    forall f {:trigger rests[f]} :: 0 <= f && f + 1 < |rests| ==> rests[f + 1] == Tail(rests[f], size)
  }

  lemma NextInChain(rests: seq<seq<Byte>>, size: nat, f: nat)
    requires Chain(rests, size) && f + 1 < |rests|
    ensures rests[f + 1] == Tail(rests[f], size)
  {
  }

  method FillAll(pieces: seq<seq<Byte>>, size: nat, k0: nat, off0: nat, cur: nat,
                 segments: seq<Segment>, ghost rests: seq<seq<Byte>>)
    returns (scheduled: seq<PartTask>)
    requires size > 0 && Distinct(segments)
    requires k0 < |pieces| && off0 <= |pieces[k0]|
    requires |rests| == |segments| + 1 && Chain(rests, size) && Rest(pieces, k0, off0) == rests[0]
    modifies segments
    ensures |scheduled| == |segments|
    ensures forall f :: 0 <= f < |segments| ==> scheduled[f] == PartTask(cur + f, segments[f])
    ensures forall f :: 0 <= f < |segments| ==> segments[f].data == Head(rests[f], size)
  {
    hide Rest, Head, Tail, Chain;
    var k: nat, off: nat := k0, off0;
    scheduled := [];
    for f := 0 to |segments|
      invariant k < |pieces| && off <= |pieces[k]|
      invariant Rest(pieces, k, off) == rests[f]
      invariant |scheduled| == f
      invariant forall i :: 0 <= i < f ==> scheduled[i] == PartTask(cur + i, segments[i])
      invariant forall i :: 0 <= i < f ==> segments[i].data == Head(rests[i], size)
    {
      NextInChain(rests, size, f);
      k, off := FillSegment(pieces, k, off, segments[f], size);
      scheduled := scheduled + [PartTask(cur + f, segments[f])];
    }
  }

  /** A file pump: fills its segments one after the other and hands each to an upload task. */
  method RunPump(pieces: seq<seq<Byte>>, size: nat, cur: nat, segments: seq<Segment>)
    returns (scheduled: seq<PartTask>)
    requires pieces != [] && size > 0 && Distinct(segments)
    requires |segments| > 0 ==> IsPart(|Concat(pieces)|, size, cur + |segments| - 1)
    modifies segments
    ensures |scheduled| == |segments|
    ensures forall f :: 0 <= f < |segments| ==> scheduled[f] == PartTask(cur + f, segments[f])
    ensures forall f :: 0 <= f < |segments| ==> segments[f].data == PartOf(Concat(pieces), size, cur + f)
  {
    if segments == [] { return []; }
    EarlierParts(|Concat(pieces)|, size, cur, cur + |segments| - 1);
    var k: nat, off: nat := SkipTo(pieces, size * cur);
    ghost var rests := Remainders(Concat(pieces), size, cur, |segments|);
    assert Rest(pieces, k, off) == RestFrom(Concat(pieces), size, cur);
    hide *;
    scheduled := FillAll(pieces, size, k, off, cur, segments, rests);
  }

  /** What is left of an object from part `i` on. */
  function RestFrom(obj: seq<Byte>, size: nat, i: nat): seq<Byte> { obj[Min(i * size, |obj|)..] }

  lemma Remainders(obj: seq<Byte>, size: nat, cur: nat, n: nat) returns (rests: seq<seq<Byte>>)
    requires size > 0
    ensures |rests| == n + 1 && Chain(rests, size) && rests[0] == RestFrom(obj, size, cur)
    ensures forall f :: 0 <= f < n ==> Head(rests[f], size) == PartOf(obj, size, cur + f)
  {
    hide RestFrom, PartOf, Head, Tail;
    rests := seq(n + 1, i requires 0 <= i => RestFrom(obj, size, cur + i));
    assert rests[0] == RestFrom(obj, size, cur);
    forall f | 0 <= f < n
      ensures Head(rests[f], size) == PartOf(obj, size, cur + f)
      ensures rests[f + 1] == Tail(rests[f], size)
    {
      PartFromRest(obj, size, cur + f);
      assert cur + f + 1 == cur + (f + 1);
    }
  }

  lemma EarlierParts(total: nat, size: nat, i: nat, j: nat)
    requires size > 0 && i <= j && IsPart(total, size, j)
    ensures IsPart(total, size, i)
  {
    assert i * size <= j * size;
  }

  lemma PartFromRest(obj: seq<Byte>, size: nat, i: nat)
    requires size > 0
    ensures Head(RestFrom(obj, size, i), size) == PartOf(obj, size, i)
    ensures Tail(RestFrom(obj, size, i), size) == RestFrom(obj, size, i + 1)
  {
    assert (i + 1) * size == i * size + size;
  }

  // ---------- planning the pumps ----------

  /** A pump to be scheduled: its first part and the number of parts it reads. */
  datatype Pump = Pump(cur: nat, count: nat)

  datatype Plan = TooBig | Planned(parts: nat, pumps: seq<Pump>)

  function PartNumbers(p: Pump): seq<nat> { seq(p.count, i requires 0 <= i => p.cur + i) }

  function AllPartNumbers(pumps: seq<Pump>): seq<nat> {
    Concat(seq(|pumps|, i requires 0 <= i < |pumps| => PartNumbers(pumps[i])))
  }

  /** How many parts each pump gets. */
  function PerPump(parts: nat, ioLimit: nat, maxInFlight: nat): nat
    requires ioLimit > 0
  {
    Min(parts / ioLimit + 1, maxInFlight / 2)
  }

  /** The share is the least with which as many pumps as there are threads for them take all parts, and
      some to spare; but never more than half the pool. */
  lemma ShareIsLeast(parts: nat, ioLimit: nat, maxInFlight: nat)
    requires ioLimit > 0
    ensures var n, half := PerPump(parts, ioLimit, maxInFlight), maxInFlight / 2;
      && n <= half
      && (n < half ==> parts < n * ioLimit)
      && (n > 0 ==> (n - 1) * ioLimit <= parts)
  {
    var q := parts / ioLimit;
    assert parts == q * ioLimit + parts % ioLimit;
    assert (q + 1) * ioLimit == q * ioLimit + ioLimit;
    var n := PerPump(parts, ioLimit, maxInFlight);
    if n > 0 { assert (n - 1) * ioLimit <= q * ioLimit; }
  }

  lemma AddPump(pumps: seq<Pump>, f: nat, count: nat)
    requires AllPartNumbers(pumps) == Numbers(f)
    ensures AllPartNumbers(pumps + [Pump(f, count)]) == Numbers(f + count)
  {
    var old' := seq(|pumps|, i requires 0 <= i < |pumps| => PartNumbers(pumps[i]));
    var more := pumps + [Pump(f, count)];
    assert seq(|more|, i requires 0 <= i < |more| => PartNumbers(more[i])) == old' + [PartNumbers(Pump(f, count))];
    ConcatSnoc(old', PartNumbers(Pump(f, count)));
    assert Numbers(f) + PartNumbers(Pump(f, count)) == Numbers(f + count);
  }

  method TotalSize(sizes: seq<nat>) returns (total: nat)
    ensures total == Sum(sizes)
  {
    total := 0;
    for f := 0 to |sizes|
      invariant total + Sum(sizes[f..]) == Sum(sizes)
    {
      total := total + sizes[f];
      assert sizes[f..][1..] == sizes[f + 1..];
    }
  }

  /** No pump is empty, none asks for more than `most` segments or goes past the last part. */
  predicate PumpsOk(pumps: seq<Pump>, parts: nat, most: nat) {
    forall p :: p in pumps ==> 1 <= p.count <= most && p.cur + p.count <= parts
  }

  method SchedulePumps(parts: nat, perPump: nat) returns (pumps: seq<Pump>)
    requires perPump > 0
    ensures AllPartNumbers(pumps) == Numbers(parts) && PumpsOk(pumps, parts, perPump)
    ensures forall i :: 0 <= i < |pumps| - 1 ==> pumps[i].count == perPump
    ensures parts > 0 ==> (|pumps| - 1) * perPump < parts
  {
    pumps := [];
    var f := 0;
    while f < parts
      invariant f <= parts && AllPartNumbers(pumps) == Numbers(f) && PumpsOk(pumps, parts, perPump)
      invariant f < parts ==> f == |pumps| * perPump && forall i :: 0 <= i < |pumps| ==> pumps[i].count == perPump
      invariant f > 0 ==> (|pumps| - 1) * perPump < f
      invariant forall i :: 0 <= i < |pumps| - 1 ==> pumps[i].count == perPump
    {
      assert (|pumps| + 1) * perPump == |pumps| * perPump + perPump;
      var count := parts - f;
      if count > perPump { count := perPump; }
      AddPump(pumps, f, count);
      pumps := pumps + [Pump(f, count)];
      f := f + count;
    }
  }

  method ShareOfPump(parts: nat, ioLimit: nat, maxInFlight: nat) returns (perPump: nat)
    requires ioLimit > 0
    ensures perPump == PerPump(parts, ioLimit, maxInFlight)
    ensures maxInFlight >= 2 ==> perPump > 0
  {
    perPump := parts / ioLimit + 1;
    if perPump > maxInFlight / 2 { perPump := maxInFlight / 2; }
  }

  /** The planning half of an upload. With `maxInFlight >= 2` the pumps, in the order they are
      scheduled, mention every part number exactly once, and none asks for more segments than half
      the pool. */
  method PlanUpload(sizes: seq<nat>, size: nat, ioLimit: nat, maxInFlight: nat) returns (r: Plan)
    requires size > 0 && ioLimit > 0 && maxInFlight >= 2
    ensures r.TooBig? <==> CountOfParts(Sum(sizes), size) > MAX_PART_NUM
    ensures r.Planned? ==> r.parts == CountOfParts(Sum(sizes), size)
    ensures r.Planned? ==> AllPartNumbers(r.pumps) == Numbers(r.parts)
    ensures r.Planned? ==> PumpsOk(r.pumps, r.parts, maxInFlight / 2)
    ensures r.Planned? ==>
      forall i :: 0 <= i < |r.pumps| - 1 ==> r.pumps[i].count == PerPump(r.parts, ioLimit, maxInFlight)
    ensures r.Planned? && PerPump(r.parts, ioLimit, maxInFlight) < maxInFlight / 2 ==> |r.pumps| <= ioLimit
  {
    var total := TotalSize(sizes);
    var parts := PartCount(total, size);
    if parts > MAX_PART_NUM { return TooBig; }
    if parts == 0 { parts := 1; }
    var perPump := ShareOfPump(parts, ioLimit, maxInFlight);
    hide *;
    var pumps := SchedulePumps(parts, perPump);
    ShareIsLeast(parts, ioLimit, maxInFlight);
    if perPump < maxInFlight / 2 { FewerThan(|pumps| - 1, ioLimit, perPump, parts); }
    r := Planned(parts, pumps);
  }

  lemma FewerThan(a: int, b: nat, n: nat, parts: nat)
    requires a * n < parts < n * b
    ensures a < b
  {
  }

  function Sum(sizes: seq<nat>): nat { if sizes == [] then 0 else sizes[0] + Sum(sizes[1..]) }

  /** Where the planning loop's counter stands after `k` rounds. */
  function CounterAfter(k: nat, perPump: nat): nat {
    if k == 0 then 0 else CounterAfter(k - 1, perPump) + perPump
  }

  lemma {:induction false} CounterMoves(k: nat, perPump: nat)
    ensures perPump == 0 ==> CounterAfter(k, perPump) == 0
    ensures perPump > 0 ==> CounterAfter(k, perPump) >= k
  {
    if k > 0 { CounterMoves(k - 1, perPump); }
  }

  /** The planning loop is left after finitely many rounds exactly when at least two segments may be
      in flight. With one, a pump's share rounds down to nothing and the counter stays at zero. */
  lemma PlanningEndsIff(parts: nat, ioLimit: nat, maxInFlight: nat)
    requires ioLimit > 0 && parts > 0
    ensures (exists k: nat :: CounterAfter(k, PerPump(parts, ioLimit, maxInFlight)) >= parts)
        <==> maxInFlight >= 2
  {
    var perPump := PerPump(parts, ioLimit, maxInFlight);
    CounterMoves(parts, perPump);
    if k: nat :| CounterAfter(k, perPump) >= parts { CounterMoves(k, perPump); }
  }
}
