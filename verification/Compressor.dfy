/** Splitting a file into blocks that are compressed independently, and decompressing the
    concatenation of the resulting members. */
module Compressor {
  import opened Bytes
  import opened Counting
  import opened Wrappers

  const MINIMAL_BLOCK: nat := 1024 * 1024

  // ---------- the block split ----------

  datatype Block = Block(num: nat, offset: nat, size: nat)

  function Contents(file: seq<Byte>, b: Block): seq<Byte>
    requires b.offset + b.size <= |file|
  {
    file[b.offset..b.offset + b.size]
  }

  /** One block per processor, but none smaller than the minimal block. */
  function Estimate(total: nat, cpus: nat): nat {
    Min(total / MINIMAL_BLOCK, cpus)
  }

  lemma EstimateFacts(total: nat, cpus: nat)
    requires total > MINIMAL_BLOCK && cpus > 0
    ensures Estimate(total, cpus) > 0 && total / Estimate(total, cpus) >= MINIMAL_BLOCK
  {
    var e := Estimate(total, cpus);
    assert e * MINIMAL_BLOCK <= total;
    QuotientAtLeast(total, e, MINIMAL_BLOCK);
  }

  function BlockSize(total: nat, cpus: nat): (size: nat)
    requires total > MINIMAL_BLOCK && cpus > 0
    ensures size >= MINIMAL_BLOCK
  {
    EstimateFacts(total, cpus);
    total / Estimate(total, cpus)
  }

  /** The blocks of a file. */
  function BlocksOf(file: seq<Byte>, cpus: nat): seq<seq<Byte>>
    requires |file| > MINIMAL_BLOCK && cpus > 0
  {
    var size := BlockSize(|file|, cpus);
    PartsFrom(file, size, PartCount(|file|, size))
  }

  lemma QuotientAtLeast(total: nat, e: nat, m: nat)
    requires e > 0 && e * m <= total
    ensures total / e >= m
  {
    var q := total / e;
    assert total < (q + 1) * e;
    if q < m { TimesIsMonotone(q + 1, m, e); }
  }

  lemma TimesIsMonotone(a: nat, b: nat, e: nat)
    requires a <= b
    ensures a * e <= b * e
  {
  }

  /** Dividing by the quotient again gives the divisor back, or one more. */
  lemma CountNearEstimate(total: nat, e: nat)
    requires 0 < e <= total && e <= total / e
    ensures e <= PartCount(total, total / e) <= e + 1
  {
    var size := total / e;
    PartCountIsExact(total, size, e - 1);
    PartCountIsExact(total, size, e + 1);
    assert total == size * e + total % e;
    assert (e - 1) * size < e * size;
    assert (e + 1) * size == e * size + size;
  }

  /** Block `f` is there, not empty, and holds part `f` of the file. */
  predicate BlockOk(file: seq<Byte>, blockSize: nat, b: Block, f: nat)
    requires blockSize > 0
  {
    b.num == f && b.size > 0 && b.offset + b.size <= |file| && Contents(file, b) == PartOf(file, blockSize, f)
  }

  lemma BlockIsPart(file: seq<Byte>, blockSize: nat, f: nat)
    requires blockSize > 0 && f < PartCount(|file|, blockSize)
    ensures blockSize * f < |file|
    ensures BlockOk(file, blockSize, Block(f, blockSize * f, Min(|file| - blockSize * f, blockSize)), f)
  {
    PartCountIsExact(|file|, blockSize, f);
    assert (f + 1) * blockSize == f * blockSize + blockSize;
  }

  method SplitBlocks(file: seq<Byte>, cpus: nat) returns (blockSize: nat, blocks: seq<Block>)
    requires |file| > MINIMAL_BLOCK && cpus > 0
    ensures blockSize == BlockSize(|file|, cpus) >= MINIMAL_BLOCK
    ensures |blocks| == PartCount(|file|, blockSize)
    ensures var e := if |file| / MINIMAL_BLOCK < cpus then |file| / MINIMAL_BLOCK else cpus;
      blockSize == |file| / e && (e <= blockSize ==> e <= |blocks| <= e + 1)
    ensures forall f :: 0 <= f < |blocks| ==> BlockOk(file, blockSize, blocks[f], f)
    ensures PartsFrom(file, blockSize, |blocks|) == BlocksOf(file, cpus) && Concat(BlocksOf(file, cpus)) == file
  {
    var total := |file|;
    EstimateFacts(total, cpus);
    var estimate := total / MINIMAL_BLOCK;
    if estimate > cpus { estimate := cpus; }
    blockSize := total / estimate;
    var count := total / blockSize + (if total % blockSize == 0 then 0 else 1);
    if estimate <= blockSize { CountNearEstimate(total, estimate); }
    blocks := CutBlocks(file, blockSize, count);
    PartsRoundTrip(file, blockSize, count);
  }

  /** Schedules the blocks one by one. */
  method CutBlocks(file: seq<Byte>, blockSize: nat, count: nat) returns (blocks: seq<Block>)
    requires blockSize > 0 && count == PartCount(|file|, blockSize)
    ensures |blocks| == count && forall f :: 0 <= f < count ==> BlockOk(file, blockSize, blocks[f], f)
  {
    hide BlockOk, PartCount;
    blocks := [];
    for f := 0 to count
      invariant |blocks| == f
      invariant forall i :: 0 <= i < f ==> BlockOk(file, blockSize, blocks[i], i)
    {
      BlockIsPart(file, blockSize, f);
      var offset := blockSize * f;
      var size := |file| - offset;
      if size > blockSize { size := blockSize; }
      blocks := blocks + [Block(f, offset, size)];
    }
  }

  // ---------- a streaming codec ----------

  /** One call of the decompressor on what is left of a chunk. */
  datatype Inflated<S> = Broken | Inflated(state: S, used: nat, out: seq<Byte>, ended: bool)

  /** An abstract codec. `enc` compresses a block into one member; `step` is the stream decompressor,
      started in `init`; `pending` bounds the output a state can still give without further input;
      `tracks(s, d, c, e)` says that state `s` has consumed `c` bytes of the member of `d` and has
      given `e` bytes of `d`. */
  datatype Codec<!S> = Codec(enc: seq<Byte> -> seq<Byte>, init: S,
                             step: (S, seq<Byte>) -> Inflated<S>, pending: S -> nat,
                             tracks: (S, seq<Byte>, nat, nat) -> bool)

  predicate Agrees(a: seq<Byte>, b: seq<Byte>) { a <= b || b <= a }

  /** What a step must do while it is inside the member of `d`: give the next bytes of `d`, never
      consume a byte behind the member, and report the end exactly when the member is consumed, with
      all of `d` given by then. Bytes behind the member make no difference to this. */
  ghost predicate StepLaw<S>(codec: Codec<S>, s: S, d: seq<Byte>, c: nat, e: nat, input: seq<Byte>) {
    var m := codec.enc(d);
    codec.tracks(s, d, c, e) && c < |m| && e <= |d| && input != [] && Agrees(input, m[c..]) ==>
      var r := codec.step(s, input);
      && r.Inflated? && c + r.used <= |m| && e + |r.out| <= |d|
      && r.out == d[e..e + |r.out|]
      && (r.ended <==> c + r.used == |m|)
      && (r.ended ==> e + |r.out| == |d|)
      && (!r.ended ==> codec.tracks(r.state, d, c + r.used, e + |r.out|))
  }

  /** On any input at all a step consumes something or gives something from a bounded store. */
  ghost predicate ProgressLaw<S>(codec: Codec<S>, s: S, input: seq<Byte>) {
    var r := codec.step(s, input);
    input != [] && r.Inflated? ==>
      r.used <= |input| && (r.used > 0 || (!r.ended && codec.pending(r.state) < codec.pending(s)))
  }

  ghost predicate Lawful<S(!new)>(codec: Codec<S>) {
    && (forall d :: codec.enc(d) != [] && codec.tracks(codec.init, d, 0, 0))
    && (forall s, d, c: nat, e: nat, input :: StepLaw(codec, s, d, c, e, input))
    && (forall s, input :: ProgressLaw(codec, s, input))
  }

  /** The stream of concatenated members, one for each block. */
  function Encoded<S>(codec: Codec<S>, blocks: seq<seq<Byte>>): seq<Byte> {
    if blocks == [] then [] else codec.enc(blocks[0]) + Encoded(codec, blocks[1..])
  }

  /** The decompressor stands `c` bytes into the member of the first block to do, having given `e`
      bytes of it, and `rest` is the stream still to be read. */
  ghost predicate At<S>(codec: Codec<S>, todo: seq<seq<Byte>>, s: S, c: nat, e: nat, rest: seq<Byte>) {
    if todo == [] then rest == [] && c == 0 && e == 0
    else
      && codec.tracks(s, todo[0], c, e) && c < |codec.enc(todo[0])| && e <= |todo[0]|
      && rest == codec.enc(todo[0])[c..] + Encoded(codec, todo[1..])
  }

  lemma AtStart<S(!new)>(codec: Codec<S>, todo: seq<seq<Byte>>)
    requires Lawful(codec)
    ensures At(codec, todo, codec.init, 0, 0, Encoded(codec, todo))
  {
  }

  ghost function Left(todo: seq<seq<Byte>>, e: nat): seq<Byte>
    requires todo == [] ==> e == 0
    requires todo != [] ==> e <= |todo[0]|
  {
    if todo == [] then [] else todo[0][e..] + Concat(todo[1..])
  }

  lemma LeftAtStart(blocks: seq<seq<Byte>>)
    ensures Left(blocks, 0) == Concat(blocks)
  {
  }

  lemma StepInMember<S(!new)>(codec: Codec<S>, s: S, d: seq<Byte>, c: nat, e: nat,
                              after: seq<Byte>, input: seq<Byte>)
    requires Lawful(codec) && codec.tracks(s, d, c, e) && c < |codec.enc(d)| && e <= |d|
    requires input != [] && input <= codec.enc(d)[c..] + after
    ensures var m, r := codec.enc(d), codec.step(s, input);
      && r.Inflated? && r.used <= |input| && c + r.used <= |m| && e + |r.out| <= |d|
      && r.out == d[e..e + |r.out|]
      && (r.ended <==> c + r.used == |m|)
      && (r.ended ==> e + |r.out| == |d|)
      && (!r.ended ==> codec.tracks(r.state, d, c + r.used, e + |r.out|))
  {
    assert StepLaw(codec, s, d, c, e, input);
    assert ProgressLaw(codec, s, input);
    PrefixAgrees(input, codec.enc(d)[c..], after);
  }

  lemma PrefixAgrees(input: seq<Byte>, tail: seq<Byte>, after: seq<Byte>)
    requires input <= tail + after
    ensures Agrees(input, tail)
  {
    if |input| <= |tail| {
      assert input == (tail + after)[..|input|] == tail[..|input|];
    } else {
      assert input[..|tail|] == (tail + after)[..|tail|] == tail;
    }
  }

  lemma Shift(m: seq<Byte>, c: nat, used: nat, after: seq<Byte>)
    requires c + used <= |m|
    ensures (m[c..] + after)[used..] == m[c + used..] + after
    ensures c + used == |m| ==> (m[c..] + after)[used..] == after
  {
  }

  lemma Split(d: seq<Byte>, e: nat, out: seq<Byte>, after: seq<Byte>)
    requires e + |out| <= |d| && out == d[e..e + |out|]
    ensures d[e..] + after == out + (d[e + |out|..] + after)
    ensures e + |out| == |d| ==> d[e..] + after == out + after
  {
    assert d[e..] == out + d[e + |out|..];
  }

  /** One step inside a member: it succeeds, gives the next bytes, and stands right afterwards. */
  lemma StepAdvances<S(!new)>(codec: Codec<S>, todo: seq<seq<Byte>>, s: S, c: nat, e: nat,
                              rest: seq<Byte>, input: seq<Byte>)
    returns (todo': seq<seq<Byte>>, c': nat, e': nat)
    requires Lawful(codec) && At(codec, todo, s, c, e, rest)
    requires input != [] && input <= rest
    ensures var r := codec.step(s, input);
      && r.Inflated? && r.used <= |input| <= |rest|
      && At(codec, todo', if r.ended then codec.init else r.state, c', e', rest[r.used..])
      && Left(todo, e) == r.out + Left(todo', e')
  {
    var d, after := todo[0], Encoded(codec, todo[1..]);
    var m := codec.enc(d);
    StepInMember(codec, s, d, c, e, after, input);
    var r := codec.step(s, input);
    Shift(m, c, r.used, after);
    Split(d, e, r.out, Concat(todo[1..]));
    if r.ended {
      todo', c', e' := todo[1..], 0, 0;
      AtStart(codec, todo');
      LeftAtStart(todo');
    } else {
      todo', c', e' := todo, c + r.used, e + |r.out|;
    }
  }

  const READ_BUFFER: nat := 1024 * 1024

  /** Inflates one chunk to its end, starting the stream state afresh after each member. With a
      valid stream it gives the next bytes of the blocks; a broken one is reported. */
  method InflateChunk<S(!new)>(codec: Codec<S>, s0: S, chunk: seq<Byte>, ghost valid: bool,
                               ghost todo: seq<seq<Byte>>, ghost c: nat, ghost e: nat, ghost rest: seq<Byte>)
    returns (ok: bool, s: S, out: seq<Byte>, ghost todo': seq<seq<Byte>>, ghost c': nat, ghost e': nat)
    requires Lawful(codec)
    requires valid ==> chunk <= rest && At(codec, todo, s0, c, e, rest)
    ensures valid ==> ok && At(codec, todo', s, c', e', rest[|chunk|..])
    ensures valid ==> Left(todo, e) == out + Left(todo', e')
  {
    s, out, ok := s0, [], true;
    todo', c', e' := todo, c, e;
    var avail := chunk;
    while avail != []
      invariant |avail| <= |chunk| && avail == chunk[|chunk| - |avail|..]
      invariant valid ==> At(codec, todo', s, c', e', rest[|chunk| - |avail|..])
      invariant valid ==> Left(todo, e) == out + Left(todo', e')
      decreases |avail|, codec.pending(s)
    {
      var r := codec.step(s, avail);
      assert ProgressLaw(codec, s, avail);
      if r.Broken? {
        if valid { NotBroken(codec, todo', s, c', e', rest, chunk, avail); }
        return false, s, out, todo', c', e';
      }
      if valid {
        todo', c', e' := ChunkAdvances(codec, todo', s, c', e', rest, chunk, avail, out, Left(todo, e));
      }
      out := out + r.out;
      avail := avail[r.used..];
      s := if r.ended then codec.init else r.state;
    }
  }

  lemma AvailIsNext(rest: seq<Byte>, chunk: seq<Byte>, avail: seq<Byte>)
    requires chunk <= rest && |avail| <= |chunk| && avail == chunk[|chunk| - |avail|..]
    ensures avail <= rest[|chunk| - |avail|..]
  {
    assert rest[..|chunk|] == chunk;
    assert rest[|chunk| - |avail|..][..|avail|] == avail;
  }

  lemma NotBroken<S(!new)>(codec: Codec<S>, todo: seq<seq<Byte>>, s: S, c: nat, e: nat,
                           rest: seq<Byte>, chunk: seq<Byte>, avail: seq<Byte>)
    requires Lawful(codec) && chunk <= rest && avail != [] && |avail| <= |chunk|
    requires avail == chunk[|chunk| - |avail|..]
    requires At(codec, todo, s, c, e, rest[|chunk| - |avail|..])
    ensures codec.step(s, avail).Inflated?
  {
    AvailIsNext(rest, chunk, avail);
    var _, _, _ := StepAdvances(codec, todo, s, c, e, rest[|chunk| - |avail|..], avail);
  }

  lemma ChunkAdvances<S(!new)>(codec: Codec<S>, todo: seq<seq<Byte>>, s: S, c: nat, e: nat,
                               rest: seq<Byte>, chunk: seq<Byte>, avail: seq<Byte>,
                               out: seq<Byte>, all: seq<Byte>)
    returns (todo': seq<seq<Byte>>, c': nat, e': nat)
    requires Lawful(codec) && chunk <= rest && avail != [] && |avail| <= |chunk|
    requires avail == chunk[|chunk| - |avail|..]
    requires At(codec, todo, s, c, e, rest[|chunk| - |avail|..]) && all == out + Left(todo, e)
    ensures var r := codec.step(s, avail);
      && r.Inflated? && r.used <= |avail|
      && At(codec, todo', if r.ended then codec.init else r.state, c', e',
            rest[|chunk| - (|avail| - r.used)..])
      && all == (out + r.out) + Left(todo', e')
  {
    hide At, Left, Lawful;
    var from := |chunk| - |avail|;
    AvailIsNext(rest, chunk, avail);
    todo', c', e' := StepAdvances(codec, todo, s, c, e, rest[from..], avail);
    var r := codec.step(s, avail);
    assert rest[from..][r.used..] == rest[from + r.used..];
    assert out + r.out + Left(todo', e') == out + (r.out + Left(todo', e'));
  }

  /** Reads the compressed file in chunks of any length and inflates them. For the concatenation of
      the members of any blocks the result is the concatenation of the blocks. */
  method Decompress<S(!new)>(codec: Codec<S>, src: seq<Byte>, ghost blocks: seq<seq<Byte>>)
    returns (r: Option<seq<Byte>>)
    requires Lawful(codec)
    ensures src == Encoded(codec, blocks) ==> r == Some(Concat(blocks))
  {
    hide Left, Lawful, Encoded, Concat;
    ghost var valid := src == Encoded(codec, blocks);
    ghost var todo, c: nat, e: nat := blocks, 0, 0;
    AtStart(codec, blocks);
    LeftAtStart(blocks);
    var s, written, pos: nat := codec.init, [], 0;
    assert src[0..] == src;
    assert [] + Left(blocks, 0) == Left(blocks, 0);
    while pos < |src|
      invariant pos <= |src|
      invariant valid ==> At(codec, todo, s, c, e, src[pos..])
      invariant valid ==> Concat(blocks) == written + Left(todo, e)
    {
      var most := Min(READ_BUFFER, |src| - pos);
      var n: nat :| 1 <= n <= most;
      var ok, out;
      ok, s, out, todo, c, e := InflateChunk(codec, s, src[pos..pos + n], valid, todo, c, e, src[pos..]);
      if !ok { return None; }
      assert src[pos..][n..] == src[pos + n..];
      if valid { assert written + (out + Left(todo, e)) == written + out + Left(todo, e); }
      written := written + out;
      pos := pos + n;
    }
    if valid {
      assert src[pos..] == [];
      NothingLeft(codec, todo, s, c, e);
      assert written + [] == written;
    }
    r := Some(written);
  }

  lemma RestIsNotEmpty<S(!new)>(codec: Codec<S>, todo: seq<seq<Byte>>, s: S, c: nat, e: nat, rest: seq<Byte>)
    requires At(codec, todo, s, c, e, rest) && todo != []
    ensures rest != []
  {
    assert codec.enc(todo[0])[c..] != [];
  }

  lemma NothingLeft<S(!new)>(codec: Codec<S>, todo: seq<seq<Byte>>, s: S, c: nat, e: nat)
    requires At(codec, todo, s, c, e, [])
    ensures Left(todo, e) == []
  {
    if todo != [] { RestIsNotEmpty(codec, todo, s, c, e, []); }
  }

  // ---------- a codec that obeys the laws ----------

  /** Stored bytes behind a marker each, and an end marker. */
  function Stored(d: seq<Byte>): (m: seq<Byte>)
    ensures |m| == 2 * |d| + 1
  {
    if d == [] then [0] else [1, d[0]] + Stored(d[1..])
  }

  lemma {:induction false} StoredAt(d: seq<Byte>, c: nat)
    requires c <= 2 * |d|
    ensures c == 2 * |d| ==> Stored(d)[c] == 0
    ensures c < 2 * |d| && c % 2 == 0 ==> Stored(d)[c] == 1
    ensures c < 2 * |d| && c % 2 == 1 ==> Stored(d)[c] == d[c / 2]
  {
    if d != [] {
      assert Stored(d) == [1, d[0]] + Stored(d[1..]);
      if c >= 2 {
        StoredAt(d[1..], c - 2);
        assert Stored(d)[c] == Stored(d[1..])[c - 2];
        assert c / 2 == (c - 2) / 2 + 1;
      }
    }
  }

  function StoredStep(marker: bool, input: seq<Byte>): Inflated<bool> {
    if input == [] then Broken
    else if !marker then Inflated(true, 1, [input[0]], false)
    else if input[0] == 0 then Inflated(true, 1, [], true)
    else Inflated(false, 1, [], false)
  }

  function StoredCodec(): Codec<bool> {
    Codec(d => Stored(d), true, (s, input) => StoredStep(s, input), s => 0,
          (s, d, c, e) => c <= 2 * |d| && e == c / 2 && s == (c % 2 == 0))
  }

  /** The codec laws can be met. */
  lemma StoredIsLawful()
    ensures Lawful(StoredCodec())
  {
    var codec := StoredCodec();
    forall s, d, c: nat, e: nat, input
      ensures StepLaw(codec, s, d, c, e, input)
    {
      if codec.tracks(s, d, c, e) && c < |codec.enc(d)| && e <= |d| && input != []
         && Agrees(input, codec.enc(d)[c..]) {
        StoredAt(d, c);
        assert input[0] == Stored(d)[c];
      }
    }
  }

  // ---------- completion of the block tasks ----------

  /** A block task: `Recorded` has filed its result and released the lock, but has not yet looked at
      the pending count. */
  datatype BlockState = Running | Recorded | Finished | Failed

  /** What a block task files: the name and the size of its member. */
  datatype Filed = Filed(name: string, size: nat)

  /** `fires` counts the calls of the completion callback, `complete` says whether each of them found
      every result filed, and `raced` is how many other tasks stood between filing and looking when
      the last result was filed. */
  datatype Completion = Completion(blocks: seq<BlockState>, pending: nat, results: seq<Option<Filed>>,
                                   fires: nat, complete: bool, raced: nat)

  datatype Action = Record(i: nat, result: Filed) | Look(i: nat) | Fail(i: nat) | RecordAndLook(i: nat, result: Filed)

  /** `guarded` is the variant that looks at the count before it releases the lock. */
  predicate Enabled(s: Completion, a: Action, guarded: bool) {
    && a.i < |s.blocks| == |s.results|
    && match a
      case Record(i, _) => !guarded && s.blocks[i].Running? && s.pending > 0
      case Look(i) => !guarded && s.blocks[i].Recorded?
      case Fail(i) => s.blocks[i].Running?
      case RecordAndLook(i, _) => guarded && s.blocks[i].Running? && s.pending > 0
  }

  function Is(b: BlockState): BlockState -> bool { (x: BlockState) => x == b }

  function CountIn(blocks: seq<BlockState>, b: BlockState): nat { Count(blocks, Is(b)) }

  predicate AllFiled(results: seq<Option<Filed>>) { forall i :: 0 <= i < |results| ==> results[i].Some? }

  function File(s: Completion, i: nat, result: Filed, next: BlockState): Completion
    requires i < |s.blocks| == |s.results| && s.pending > 0
  {
    s.(pending := s.pending - 1, results := s.results[i := Some(result)], blocks := s.blocks[i := next],
       raced := if s.pending == 1 then CountIn(s.blocks, Recorded) else s.raced)
  }

  function Test(s: Completion): Completion {
    if s.pending == 0 then s.(fires := s.fires + 1, complete := s.complete && AllFiled(s.results)) else s
  }

  function Apply(s: Completion, a: Action, guarded: bool): Completion
    requires Enabled(s, a, guarded)
  {
    match a
    case Record(i, result) => File(s, i, result, Recorded)
    case Look(i) => Test(s.(blocks := s.blocks[i := Finished]))
    case Fail(i) => s.(blocks := s.blocks[i := Failed])
    case RecordAndLook(i, result) => Test(File(s, i, result, Finished))
  }

  function Begin(n: nat): Completion {
    Completion(seq(n, _ => Running), n, seq(n, _ => None), 0, true, 0)
  }

  function NotFiled(blocks: seq<BlockState>): nat { CountIn(blocks, Running) + CountIn(blocks, Failed) }

  /** The count of pending blocks is exact; results are filed for the others; and once it is zero,
      the callback has run once for every task that has looked since. */
  ghost predicate Inv(s: Completion, guarded: bool) {
    && |s.results| == |s.blocks|
    && s.pending == NotFiled(s.blocks)
    && (forall i :: 0 <= i < |s.blocks| && s.results[i].None? ==> s.blocks[i].Running? || s.blocks[i].Failed?)
    && s.complete
    && (s.pending > 0 ==> s.fires == 0)
    && (s.pending == 0 && |s.blocks| > 0 ==> s.fires + CountIn(s.blocks, Recorded) == 1 + s.raced)
    && (guarded ==> CountIn(s.blocks, Recorded) == 0 && s.raced == 0)
  }

  lemma NothingUnfiled(s: Completion)
    requires |s.results| == |s.blocks| && NotFiled(s.blocks) == 0
    requires forall i :: 0 <= i < |s.blocks| && s.results[i].None? ==> s.blocks[i].Running? || s.blocks[i].Failed?
    ensures AllFiled(s.results)
  {
    CountBounds(s.blocks, Is(Running));
    CountBounds(s.blocks, Is(Failed));
  }

  lemma FileKeepsCounts(s: Completion, i: nat, result: Filed, next: BlockState)
    requires i < |s.blocks| == |s.results| && s.blocks[i].Running? && s.pending == NotFiled(s.blocks) > 0
    requires next.Recorded? || next.Finished?
    ensures var s' := File(s, i, result, next);
      && s'.pending == NotFiled(s'.blocks)
      && CountIn(s'.blocks, Recorded) == CountIn(s.blocks, Recorded) + (if next.Recorded? then 1 else 0)
  {
    CountUpdate(s.blocks, i, next, Is(Running));
    CountUpdate(s.blocks, i, next, Is(Failed));
    CountUpdate(s.blocks, i, next, Is(Recorded));
  }

  lemma StepKeepsInv(s: Completion, a: Action, guarded: bool)
    requires Inv(s, guarded) && Enabled(s, a, guarded)
    ensures Inv(Apply(s, a, guarded), guarded)
  {
    match a
    case Record(i, result) => FileKeepsCounts(s, i, result, Recorded);
    case RecordAndLook(i, result) =>
      FileKeepsCounts(s, i, result, Finished);
      if s.pending == 1 { NothingUnfiled(File(s, i, result, Finished)); }
    case Look(i) =>
      CountUpdate(s.blocks, i, Finished, Is(Running));
      CountUpdate(s.blocks, i, Finished, Is(Failed));
      CountUpdate(s.blocks, i, Finished, Is(Recorded));
      if s.pending == 0 { NothingUnfiled(s); }
    case Fail(i) =>
      CountUpdate(s.blocks, i, Failed, Is(Running));
      CountUpdate(s.blocks, i, Failed, Is(Failed));
      CountUpdate(s.blocks, i, Failed, Is(Recorded));
  }

  lemma AllRunning(n: nat)
    ensures CountIn(Begin(n).blocks, Running) == n
    ensures CountIn(Begin(n).blocks, Recorded) == 0 && CountIn(Begin(n).blocks, Failed) == 0
  {
    CountBounds(Begin(n).blocks, Is(Running));
    CountBounds(Begin(n).blocks, Is(Recorded));
    CountBounds(Begin(n).blocks, Is(Failed));
  }

  function Run(s: Completion, acts: seq<Action>, guarded: bool): Option<Completion>
    decreases |acts|
  {
    if acts == [] then Some(s)
    else if Enabled(s, acts[0], guarded) then Run(Apply(s, acts[0], guarded), acts[1..], guarded)
    else None
  }

  lemma {:induction false} RunKeepsInv(s: Completion, acts: seq<Action>, guarded: bool)
    requires Inv(s, guarded) && Run(s, acts, guarded).Some?
    ensures Inv(Run(s, acts, guarded).value, guarded)
    ensures |Run(s, acts, guarded).value.blocks| == |s.blocks|
    decreases |acts|
  {
    if acts != [] {
      StepKeepsInv(s, acts[0], guarded);
      RunKeepsInv(Apply(s, acts[0], guarded), acts[1..], guarded);
    }
  }

  /** Nothing is filed but what a block task has filed under its own number. */
  lemma {:induction false} FiledByItsTask(s: Completion, acts: seq<Action>, guarded: bool, k: nat)
    requires Run(s, acts, guarded).Some? && k < |s.results|
    ensures |Run(s, acts, guarded).value.results| == |s.results|
    ensures var now := Run(s, acts, guarded).value.results[k];
      now.Some? ==> s.results[k] == now || Record(k, now.value) in acts || RecordAndLook(k, now.value) in acts
    decreases |acts|
  {
    if acts != [] {
      var a, rest := acts[0], acts[1..];
      assert acts == [a] + rest;
      FiledByItsTask(Apply(s, a, guarded), rest, guarded, k);
    }
  }

  /** Over all interleavings the callback never runs before every result is filed. When all block
      tasks have ended well it has run at least once: exactly once if and only if no other task stood
      between filing and looking when the last result was filed. */
  lemma CallbackCount(n: nat, acts: seq<Action>)
    requires n > 0 && Run(Begin(n), acts, false).Some?
    ensures var s := Run(Begin(n), acts, false).value;
      && s.complete
      && (s.fires > 0 ==> AllFiled(s.results))
      && |s.blocks| == |s.results| == n
      && (forall k :: 0 <= k < n && s.results[k].Some? ==> Record(k, s.results[k].value) in acts)
      && ((forall i :: 0 <= i < |s.blocks| ==> s.blocks[i].Finished?) ==>
            s.fires >= 1 && (s.fires == 1 <==> s.raced == 0))
  {
    AllRunning(n);
    RunKeepsInv(Begin(n), acts, false);
    var s := Run(Begin(n), acts, false).value;
    CountBounds(s.blocks, Is(Running));
    CountBounds(s.blocks, Is(Failed));
    CountBounds(s.blocks, Is(Recorded));
    if s.pending == 0 { NothingUnfiled(s); }
    forall k | 0 <= k < n && s.results[k].Some? ensures Record(k, s.results[k].value) in acts {
      FiledByItsTask(Begin(n), acts, false, k);
      NothingGuarded(Begin(n), acts);
    }
  }

  lemma {:induction false} NothingGuarded(s: Completion, acts: seq<Action>)
    requires Run(s, acts, false).Some?
    ensures forall a :: a in acts ==> !a.RecordAndLook?
    decreases |acts|
  {
    if acts != [] {
      NothingGuarded(Apply(s, acts[0], false), acts[1..]);
      assert acts == [acts[0]] + acts[1..];
    }
  }

  /** With the look inside the guarded section the callback runs at most once, and exactly once when
      all block tasks have ended well. */
  lemma GuardedCallbackRunsOnce(n: nat, acts: seq<Action>)
    requires n > 0 && Run(Begin(n), acts, true).Some?
    ensures var s := Run(Begin(n), acts, true).value;
      && s.fires <= 1
      && |s.blocks| == n
      && ((forall i :: 0 <= i < |s.blocks| ==> s.blocks[i].Finished?) ==> s.fires == 1)
  {
    AllRunning(n);
    RunKeepsInv(Begin(n), acts, true);
    var s := Run(Begin(n), acts, true).value;
    CountBounds(s.blocks, Is(Running));
    CountBounds(s.blocks, Is(Failed));
  }

  lemma RunStep(s: Completion, a: Action, rest: seq<Action>, guarded: bool)
    requires Enabled(s, a, guarded)
    ensures Run(s, [a] + rest, guarded) == Run(Apply(s, a, guarded), rest, guarded)
  {
    assert ([a] + rest)[1..] == rest;
  }

  lemma FirstFiled()
    ensures Begin(2) == Completion([Running, Running], 2, [None, None], 0, true, 0)
    ensures CountIn([Running, Running], Recorded) == 0 && CountIn([Recorded, Running], Recorded) == 1
  {
    assert Begin(2).blocks == [Running, Running];
    assert [Running, Running][1..] == [Running] && [Recorded, Running][1..] == [Running] && [Running][1..] == [];
  }

  lemma FilesInTurn()
    ensures var s0 := Completion([Running, Running], 2, [None, None], 0, true, 0);
      Enabled(s0, Record(0, Filed("a", 7)), false) &&
      Apply(s0, Record(0, Filed("a", 7)), false)
        == Completion([Recorded, Running], 1, [Some(Filed("a", 7)), None], 0, true, 0)
    ensures var s1 := Completion([Recorded, Running], 1, [Some(Filed("a", 7)), None], 0, true, 0);
      Enabled(s1, Record(1, Filed("b", 8)), false) &&
      Apply(s1, Record(1, Filed("b", 8)), false)
        == Completion([Recorded, Recorded], 0, [Some(Filed("a", 7)), Some(Filed("b", 8))], 0, true, 1)
  {
    FirstFiled();
    hide CountIn;
  }

  lemma LooksInTurn()
    ensures var s2 := Completion([Recorded, Recorded], 0, [Some(Filed("a", 7)), Some(Filed("b", 8))], 0, true, 1);
      Enabled(s2, Look(0), false) &&
      Apply(s2, Look(0), false)
        == Completion([Finished, Recorded], 0, [Some(Filed("a", 7)), Some(Filed("b", 8))], 1, true, 1)
    ensures var s3 := Completion([Finished, Recorded], 0, [Some(Filed("a", 7)), Some(Filed("b", 8))], 1, true, 1);
      Enabled(s3, Look(1), false) &&
      Apply(s3, Look(1), false)
        == Completion([Finished, Finished], 0, [Some(Filed("a", 7)), Some(Filed("b", 8))], 2, true, 1)
  {
    hide CountIn;
  }

  /** Two tasks that both file before either looks run the callback twice. */
  lemma RaceRunsCallbackTwice()
    ensures var acts := [Record(0, Filed("a", 7))] + ([Record(1, Filed("b", 8))] + ([Look(0)] + ([Look(1)] + [])));
      var r := Run(Begin(2), acts, false);
      r.Some? && r.value.fires == 2
  {
    FirstFiled();
    FilesInTurn();
    LooksInTurn();
    hide CountIn, Enabled, Apply, Begin;
    var s1 := Completion([Recorded, Running], 1, [Some(Filed("a", 7)), None], 0, true, 0);
    var s2 := Completion([Recorded, Recorded], 0, [Some(Filed("a", 7)), Some(Filed("b", 8))], 0, true, 1);
    var s3 := Completion([Finished, Recorded], 0, [Some(Filed("a", 7)), Some(Filed("b", 8))], 1, true, 1);
    RunStep(s3, Look(1), [], false);
    RunStep(s2, Look(0), [Look(1)] + [], false);
    RunStep(s1, Record(1, Filed("b", 8)), [Look(0)] + ([Look(1)] + []), false);
    RunStep(Begin(2), Record(0, Filed("a", 7)), [Record(1, Filed("b", 8))] + ([Look(0)] + ([Look(1)] + [])), false);
  }

  // ---------- the record itself ----------

  /** The shared record of the source, among the block tasks and the callback that it belongs to. */
  class FileCompressor {
    var numPending: nat
    var files: seq<string>
    var sizes: seq<nat>
    ghost var around: Completion

    /** The fields hold exactly what has been filed. */
    ghost predicate Valid()
      reads this
    {
      && |files| == |sizes| == |around.results| == |around.blocks| && numPending == around.pending
      && forall k :: 0 <= k < |files| && around.results[k].Some? ==>
        around.results[k].value == Filed(files[k], sizes[k])
    }

    constructor (blocks: nat)
      ensures Valid() && around == Begin(blocks)
    {
      numPending, files, sizes := blocks, seq(blocks, _ => ""), seq(blocks, _ => 0);
      around := Begin(blocks);
    }

    /** The guarded section of a finishing block task: the step `Record`. */
    method FileResult(num: nat, name: string, size: nat)
      requires Valid() && Enabled(around, Record(num, Filed(name, size)), false)
      modifies this
      ensures Valid() && around == Apply(old(around), Record(num, Filed(name, size)), false)
    {
      numPending := numPending - 1;
      files := files[num := name];
      sizes := sizes[num := size];
      around := Apply(around, Record(num, Filed(name, size)), false);
    }

    /** The look at the counter that follows, outside the guarded section, and the callback: the step
        `Look`. What the callback is given is what has been filed. */
    method Finish(ghost num: nat) returns (callback: Option<(seq<string>, seq<nat>)>)
      requires Valid() && Enabled(around, Look(num), false)
      modifies this`around
      ensures Valid() && around == Apply(old(around), Look(num), false)
      ensures callback.Some? <==> around.fires == old(around).fires + 1
      ensures callback.Some? && AllFiled(around.results) ==>
        |callback.value.0| == |callback.value.1| == |around.results| &&
        forall k :: 0 <= k < |around.results| ==>
          around.results[k] == Some(Filed(callback.value.0[k], callback.value.1[k]))
    {
      callback := if numPending == 0 then Some((files, sizes)) else None;
      around := Apply(around, Look(num), false);
    }

    /** A block task that nobody comes between: files its result, then looks. */
    method OnComplete(num: nat, name: string, size: nat) returns (callback: Option<(seq<string>, seq<nat>)>)
      requires Valid() && Enabled(around, Record(num, Filed(name, size)), false)
      modifies this
      ensures Valid() && Run(old(around), [Record(num, Filed(name, size)), Look(num)], false) == Some(around)
      ensures callback.Some? <==> around.pending == 0
    {
      ghost var first, look := Record(num, Filed(name, size)), Look(num);
      RunStep(around, first, [look] + [], false);
      FileResult(num, name, size);
      RunStep(around, look, [], false);
      callback := Finish(num);
      assert [first] + ([look] + []) == [first, look];
    }
  }
}
