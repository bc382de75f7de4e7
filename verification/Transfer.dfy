/** The whole transfer, composed: compress, upload in parts, download by ranges, decompress. */
module Transfer {
  import opened Bytes
  import opened Counting
  import opened Segments
  import opened Wrappers
  import Uploader
  import Downloader
  import Compressor

  function Sizes(pieces: seq<seq<Byte>>): seq<nat> {
    seq(|pieces|, i requires 0 <= i < |pieces| => |pieces[i]|)
  }

  lemma {:induction false} SizesAddUp(pieces: seq<seq<Byte>>)
    ensures Uploader.Sum(Sizes(pieces)) == |Concat(pieces)|
  {
    if pieces != [] {
      assert Sizes(pieces)[1..] == Sizes(pieces[1..]);
      SizesAddUp(pieces[1..]);
    }
  }

  lemma {:induction false} InConcat<T>(xs: seq<seq<T>>, x: T)
    requires x in Concat(xs)
    ensures exists i :: 0 <= i < |xs| && x in xs[i]
  {
    if x !in xs[0] {
      InConcat(xs[1..], x);
      var i :| 0 <= i < |xs[1..]| && x in xs[1..][i];
      assert x in xs[i + 1];
    }
  }

  ghost predicate Covers(stored: map<nat, seq<Byte>>, p: Uploader.Pump) {
    forall k :: p.cur <= k < p.cur + p.count ==> k in stored
  }

  /** Every part number belongs to a pump. */
  lemma CoversPart(stored: map<nat, seq<Byte>>, pumps: seq<Uploader.Pump>, parts: nat, k: nat)
    requires Uploader.AllPartNumbers(pumps) == Numbers(parts) && k < parts
    requires forall p :: p in pumps ==> Covers(stored, p)
    ensures k in stored
  {
    var lists := seq(|pumps|, i requires 0 <= i < |pumps| => Uploader.PartNumbers(pumps[i]));
    assert Numbers(parts)[k] == k;
    InConcat(lists, k);
    var i :| 0 <= i < |lists| && k in lists[i];
    assert Covers(stored, pumps[i]);
  }

  method NewSegments(n: nat) returns (segments: seq<Segment>)
    ensures |segments| == n && Distinct(segments)
    ensures forall i :: 0 <= i < n ==> fresh(segments[i])
  {
    segments := [];
    for f := 0 to n
      invariant |segments| == f && Distinct(segments)
      invariant forall i :: 0 <= i < f ==> fresh(segments[i])
    {
      var s := new Segment();
      segments := segments + [s];
    }
  }

  /** What the server holds is right as far as it goes. */
  ghost predicate StoredOk(stored: map<nat, seq<Byte>>, obj: seq<Byte>, size: nat)
    requires size > 0
  {
    forall k :: k in stored ==> stored[k] == PartOf(obj, size, k)
  }

  /** One pump and its part uploads. */
  method UploadPump(pieces: seq<seq<Byte>>, size: nat, p: Uploader.Pump, stored: map<nat, seq<Byte>>)
    returns (stored': map<nat, seq<Byte>>)
    requires pieces != [] && size > 0 && p.count > 0
    requires IsPart(|Concat(pieces)|, size, p.cur + p.count - 1)
    requires StoredOk(stored, Concat(pieces), size)
    ensures StoredOk(stored', Concat(pieces), size)
    ensures forall k :: k in stored' <==> k in stored || p.cur <= k < p.cur + p.count
  {
    var segments := NewSegments(p.count);
    var tasks := Uploader.RunPump(pieces, size, p.cur, segments);
    stored' := stored;
    for f := 0 to p.count
      invariant StoredOk(stored', Concat(pieces), size)
      invariant forall k :: k in stored' <==> k in stored || p.cur <= k < p.cur + f
    {
      stored' := stored'[tasks[f].num := tasks[f].segment.data];
    }
  }

  method RunPumps(pieces: seq<seq<Byte>>, size: nat, pumps: seq<Uploader.Pump>, parts: nat)
    returns (stored: map<nat, seq<Byte>>)
    requires pieces != [] && size > 0
    requires forall p :: p in pumps ==> p.count > 0 && IsPart(|Concat(pieces)|, size, p.cur + p.count - 1)
    ensures StoredOk(stored, Concat(pieces), size)
    ensures forall p :: p in pumps ==> Covers(stored, p)
  {
    var todo := set p | p in pumps;
    stored := map[];
    while todo != {}
      invariant StoredOk(stored, Concat(pieces), size)
      invariant forall p :: p in todo ==> p in pumps
      invariant forall p :: p in pumps && p !in todo ==> Covers(stored, p)
      decreases |todo|
    {
      var p :| p in todo;
      var more := UploadPump(pieces, size, p, stored);
      forall q | q in pumps && q !in todo - {p} ensures Covers(more, q) {
        assert q != p ==> Covers(stored, q);
      }
      stored := more;
      todo := todo - {p};
    }
  }

  method Assemble(ghost obj: seq<Byte>, size: nat, parts: nat, stored: map<nat, seq<Byte>>)
    returns (whole: seq<Byte>)
    requires size > 0 && StoredOk(stored, obj, size) && forall k: nat :: k < parts ==> k in stored
    ensures whole == Concat(PartsFrom(obj, size, parts))
  {
    whole := [];
    for k := 0 to parts
      invariant whole == Concat(PartsFrom(obj, size, k))
    {
      whole := whole + stored[k];
      ConcatSnoc(PartsFrom(obj, size, k), PartOf(obj, size, k));
      assert PartsFrom(obj, size, k + 1) == PartsFrom(obj, size, k) + [PartOf(obj, size, k)];
    }
  }

  /** Plans the upload, runs the pumps in an arbitrary order and assembles the parts by number. */
  method Upload(pieces: seq<seq<Byte>>, size: nat, ioLimit: nat, maxInFlight: nat)
    returns (r: Option<seq<Byte>>)
    requires pieces != [] && size > 0 && ioLimit > 0 && maxInFlight >= 2
    ensures r == if CountOfParts(|Concat(pieces)|, size) > Uploader.MAX_PART_NUM
                 then None else Some(Concat(pieces))
  {
    SizesAddUp(pieces);
    var plan := Uploader.PlanUpload(Sizes(pieces), size, ioLimit, maxInFlight);
    if plan.TooBig? { return None; }
    ghost var obj := Concat(pieces);
    forall p | p in plan.pumps
      ensures p.count > 0 && IsPart(|obj|, size, p.cur + p.count - 1)
    {
      PartCountIsExact(|obj|, size, p.cur + p.count - 1);
      PartCountIsExact(|obj|, size, 0);
    }
    var stored := RunPumps(pieces, size, plan.pumps, plan.parts);
    forall k: nat | k < plan.parts { CoversPart(stored, plan.pumps, plan.parts, k); }
    var whole := Assemble(obj, size, plan.parts, stored);
    PartCountIsExact(|obj|, size, 0);
    PartsRoundTrip(obj, size, plan.parts);
    r := Some(whole);
  }

  /** Requests the ranges and writes the segments in an arbitrary order into a file that starts with
      arbitrary contents of the right length. */
  method Download(obj: seq<Byte>, size: nat) returns (r: Option<seq<Byte>>)
    requires size > 0
    ensures r == if PartCount(|obj|, size) > Downloader.MAX_SEGMENTS
                 then None else Some(obj)
  {
    var count := PartCount(|obj|, size);
    if count > Downloader.MAX_SEGMENTS { return None; }
    if count == 0 { count := 1; }
    PartCountIsExact(|obj|, size, 0);
    var file := new Byte[|obj|];
    WriteAll(file, obj, size, count);
    r := Some(file[..]);
  }

  ghost predicate SegmentOk(file: seq<Byte>, obj: seq<Byte>, size: nat, i: nat)
    requires |file| == |obj|
  {
    Downloader.RangeOk(file, obj, i * size, size)
  }

  method WriteAll(file: array<Byte>, obj: seq<Byte>, size: nat, count: nat)
    requires size > 0 && file.Length == |obj|
    requires count == (if PartCount(|obj|, size) == 0 then 1 else PartCount(|obj|, size))
    modifies file
    ensures file[..] == obj
  {
    hide Downloader.Overwrite, SegmentOk, PartOf;
    var todo := Indices(count);
    while todo != {}
      invariant forall i: nat :: i in todo ==> i < count
      invariant forall i: nat :: i < count && i !in todo ==> SegmentOk(file[..], obj, size, i)
      decreases |todo|
    {
      var i: nat :| i in todo;
      PartCountIsExact(|obj|, size, i);
      PartCountIsExact(|obj|, size, 0);
      var first, len := i * size, Downloader.RangeSize(|obj|, size, i);
      Downloader.RangeIsPart(obj, size, i);
      ghost var before := file[..];
      Downloader.DoWrite(file, first, obj[first..first + len]);
      forall j: nat | j < count && j !in todo - {i}
        ensures SegmentOk(file[..], obj, size, j)
      {
        WriteSettles(before, obj, size, i, j, j !in todo);
      }
      todo := todo - {i};
    }
    Complete(file[..], obj, size);
  }

  lemma WriteSettles(file: seq<Byte>, obj: seq<Byte>, size: nat, i: nat, j: nat, settled: bool)
    requires size > 0 && |file| == |obj| && IsPart(|obj|, size, i)
    requires (settled && SegmentOk(file, obj, size, j)) || j == i
    ensures var first, len := i * size, Downloader.RangeSize(|obj|, size, i);
      && first + len <= |obj|
      && SegmentOk(Downloader.Overwrite(file, first, obj[first..first + len]), obj, size, j)
  {
    var first, len := i * size, Downloader.RangeSize(|obj|, size, i);
    hide Downloader.Overwrite;
    if settled && SegmentOk(file, obj, size, j) {
      Downloader.OverwriteKeepsRange(file, obj, first, len, j * size, size);
    } else {
      Downloader.OverwriteKeepsRange(file, obj, first, len, first, 0);
    }
  }

  lemma Complete(file: seq<Byte>, obj: seq<Byte>, size: nat)
    requires size > 0 && |file| == |obj|
    requires forall i: nat :: i < PartCount(|obj|, size) ==> SegmentOk(file, obj, size, i)
    ensures file == obj
  {
    forall b: nat | b < |obj| ensures file[b] == obj[b] {
      Downloader.RangesPartition(|obj|, size, b);
      Downloader.Owner(b, size, b / size);
      assert SegmentOk(file, obj, size, b / size);
    }
  }

  /** The pieces that the block tasks leave behind: one member for each block. */
  method CompressBlocks<S(!new)>(codec: Compressor.Codec<S>, file: seq<Byte>, cpus: nat)
    returns (pieces: seq<seq<Byte>>)
    requires |file| > Compressor.MINIMAL_BLOCK && cpus > 0
    ensures pieces != [] && Concat(Compressor.BlocksOf(file, cpus)) == file
    ensures Concat(pieces) == Compressor.Encoded(codec, Compressor.BlocksOf(file, cpus))
  {
    var blockSize, split := Compressor.SplitBlocks(file, cpus);
    PartCountIsExact(|file|, blockSize, 0);
    ghost var blocks := PartsFrom(file, blockSize, |split|);
    pieces := [];
    for f := 0 to |split|
      invariant |pieces| == f
      invariant Concat(pieces) == Compressor.Encoded(codec, blocks[..f])
    {
      var member := codec.enc(Compressor.Contents(file, split[f]));
      ConcatSnoc(pieces, member);
      EncodedSnoc(codec, blocks[..f], blocks[f]);
      assert blocks[..f + 1] == blocks[..f] + [blocks[f]];
      pieces := pieces + [member];
    }
    assert blocks[..|split|] == blocks;
  }

  lemma {:induction false} EncodedSnoc<S>(codec: Compressor.Codec<S>, blocks: seq<seq<Byte>>, b: seq<Byte>)
    ensures Compressor.Encoded(codec, blocks + [b]) == Compressor.Encoded(codec, blocks) + codec.enc(b)
  {
    if blocks == [] {
      assert ([] + [b])[1..] == [];
    } else {
      assert (blocks + [b])[1..] == blocks[1..] + [b];
      EncodedSnoc(codec, blocks[1..], b);
    }
  }

  /** End to end: compressing a file into blocks, uploading the members in parts, downloading by
      ranges and decompressing gives the file back, whatever the block, part and segment boundaries,
      the order of tasks and the lengths of reads and writes. The two halves may run with different
      segment sizes. It fails only where one of them refuses the number of its parts. */
  method RoundTrip<S(!new)>(codec: Compressor.Codec<S>, file: seq<Byte>, cpus: nat, ioLimit: nat,
                            maxInFlight: nat, partSize: nat, rangeSize: nat)
    returns (r: Option<seq<Byte>>)
    requires Compressor.Lawful(codec) && |file| > Compressor.MINIMAL_BLOCK
    requires cpus > 0 && ioLimit > 0 && maxInFlight >= 2 && partSize > 0 && rangeSize > 0
    ensures var total := |Compressor.Encoded(codec, Compressor.BlocksOf(file, cpus))|;
      r == if CountOfParts(total, partSize) > Uploader.MAX_PART_NUM
              || PartCount(total, rangeSize) > Downloader.MAX_SEGMENTS
           then None else Some(file)
  {
    var pieces := CompressBlocks(codec, file, cpus);
    var stored := Upload(pieces, partSize, ioLimit, maxInFlight);
    if stored.None? { return None; }
    var fetched := Download(stored.value, rangeSize);
    if fetched.None? { return None; }
    r := Compressor.Decompress(codec, fetched.value, Compressor.BlocksOf(file, cpus));
  }
}
