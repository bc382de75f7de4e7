/** Fetching a remote object by byte ranges and reassembling it out of order. */
module Downloader {
  import opened Bytes
  import opened Counting
  import opened Tasks
  import opened Wrappers

  const MAX_SEGMENTS: nat := 9999
  const WRITE_BUFFER: nat := 1024 * 1024

  // ---------- byte ranges ----------

  /** First and last offset, both included, of the range requested for a segment. */
  datatype ByteRange = ByteRange(first: nat, last: int)

  function RangeSize(total: nat, size: nat, i: nat): nat
    requires size > 0 && IsPart(total, size, i)
  {
    var rest := total - i * size;
    if rest > size then size else rest
  }

  function RangeOf(total: nat, size: nat, i: nat): ByteRange
    requires size > 0 && IsPart(total, size, i)
  {
    ByteRange(i * size, i * size + RangeSize(total, size, i) - 1)
  }

  lemma RangeIsPart<T>(obj: seq<T>, size: nat, i: nat)
    requires size > 0 && IsPart(|obj|, size, i)
    ensures |PartOf(obj, size, i)| == RangeSize(|obj|, size, i)
    ensures obj != [] ==>
      var r := RangeOf(|obj|, size, i);
      0 <= r.first <= r.last < |obj| && PartOf(obj, size, i) == obj[r.first..r.last + 1]
  {
    assert (i + 1) * size == i * size + size;
  }

  lemma Owner(b: nat, size: nat, i: nat)
    requires size > 0
    ensures b / size == i <==> i * size <= b < i * size + size
    ensures b == (b / size) * size + b % size
  {
    var q := b / size;
    assert b == q * size + b % size;
    if q < i { assert (q + 1) * size <= i * size; }
    if i < q { assert (i + 1) * size <= q * size; }
  }

  /** The requested ranges partition a non-empty object: every byte is in exactly one of them. */
  lemma RangesPartition(total: nat, size: nat, b: nat)
    requires size > 0 && b < total
    ensures IsPart(total, size, b / size) && b / size < PartCount(total, size)
    ensures forall i: nat :: IsPart(total, size, i) ==>
      (RangeOf(total, size, i).first <= b <= RangeOf(total, size, i).last <==> i == b / size)
  {
    Owner(b, size, b / size);
    PartCountIsExact(total, size, b / size);
    forall i: nat | IsPart(total, size, i)
      ensures RangeOf(total, size, i).first <= b <= RangeOf(total, size, i).last <==> i == b / size
    {
      Owner(b, size, i);
    }
  }

  // ---------- writing one segment ----------

  function Overwrite(file: seq<Byte>, at: nat, data: seq<Byte>): seq<Byte>
    requires at + |data| <= |file|
  {
    file[..at] + data + file[at + |data|..]
  }

  lemma OverwriteTwice(file: seq<Byte>, at: nat, x: seq<Byte>, y: seq<Byte>)
    requires at + |x| + |y| <= |file|
    ensures Overwrite(Overwrite(file, at, x), at + |x|, y) == Overwrite(file, at, x + y)
  {
    var once := Overwrite(file, at, x);
    assert once[..at + |x|] == file[..at] + x;
    assert once[at + |x| + |y|..] == file[at + |x| + |y|..];
    assert file[..at] + x + y == file[..at] + (x + y);
  }

  /** One write call. */
  method Write(file: array<Byte>, at: nat, data: seq<Byte>)
    requires at + |data| <= file.Length
    modifies file
    ensures file[..] == Overwrite(old(file[..]), at, data)
  {
    forall i | 0 <= i < |data| {
      file[at + i] := data[i];
    }
  }

  /** Writes a segment at its offset, in writes of any length the system likes. */
  method DoWrite(file: array<Byte>, start: nat, data: seq<Byte>)
    requires start + |data| <= file.Length
    modifies file
    ensures file[..] == Overwrite(old(file[..]), start, data)
  {
    hide Overwrite;
    var offset := 0;
    ghost var before := file[..];
    NothingWritten(before, start);
    assert data[..0] == [];
    while offset < |data|
      invariant offset <= |data|
      invariant file[..] == Overwrite(before, start, data[..offset])
    {
      var chunk := Min(|data| - offset, WRITE_BUFFER);
      var res: nat :| 1 <= res <= chunk;
      Write(file, start + offset, data[offset..offset + res]);
      OverwriteTwice(before, start, data[..offset], data[offset..offset + res]);
      assert data[..offset + res] == data[..offset] + data[offset..offset + res];
      offset := offset + res;
    }
    assert data[..offset] == data;
  }

  lemma NothingWritten(file: seq<Byte>, at: nat)
    requires at <= |file|
    ensures Overwrite(file, at, []) == file
  {
  }

  // ---------- all segments of a download, interleaved ----------

  /** `Writing` holds the fetched bytes, of which `written` have reached the file. */
  datatype Segment = Wanted(tries: nat) | Writing(tries: nat, written: nat) | Counted | Lost

  /** `file` is the temporary file. `finals` counts how often the end was reached: then the file is
      renamed to its target, or, if it is `compressed`, handed on to a decompressor. `published` is
      what was under the target name then, `handed` what the file held when it was handed on.
      `deleteTemp` tells whether the file is to be deleted when the download is forgotten. */
  datatype Download = Download(obj: seq<Byte>, size: nat, compressed: bool, file: seq<Byte>, segments: seq<Segment>,
                               read: nat, finals: nat, published: Option<seq<Byte>>, handed: Option<seq<Byte>>,
                               deleteTemp: bool)

  datatype Action =
    | Fetch(i: nat)
    | FetchFails(i: nat, warn: bool)
    | WriteChunk(i: nat, n: nat)
    | WriteFails(i: nat, warn: bool)
    | Count(i: nat, ok: bool)

  predicate Enabled(d: Download, a: Action) {
    && d.size > 0 && a.i < |d.segments| && IsPart(|d.obj|, d.size, a.i) && |d.file| == |d.obj|
    && var seg := d.segments[a.i];
      var len := RangeSize(|d.obj|, d.size, a.i);
      match a
      case Fetch(_) => seg.Wanted?
      case FetchFails(_, _) => seg.Wanted?
      case WriteChunk(_, n) => seg.Writing? && n > 0 && seg.written + n <= len
      case WriteFails(_, _) => seg.Writing?
      case Count(_, _) => seg.Writing? && seg.written == len
  }

  function Chunk(d: Download, i: nat, from: nat, n: nat): seq<Byte>
    requires d.size > 0 && IsPart(|d.obj|, d.size, i) && from + n <= RangeSize(|d.obj|, d.size, i)
  {
    RangeIsPart(d.obj, d.size, i);
    PartOf(d.obj, d.size, i)[from..from + n]
  }

  /** `n` more bytes of segment `i`, of which `w` are already in the file, reach the file. */
  function AfterWrite(d: Download, i: nat, w: nat, n: nat): Download
    requires d.size > 0 && i < |d.segments| && IsPart(|d.obj|, d.size, i) && |d.file| == |d.obj|
    requires d.segments[i].Writing? && w + n <= RangeSize(|d.obj|, d.size, i)
  {
    d.(file := Overwrite(d.file, i * d.size + w, Chunk(d, i, w, n)),
       segments := d.segments[i := d.segments[i].(written := w + n)])
  }

  function Apply(d: Download, a: Action): Download
    requires Enabled(d, a)
  {
    var seg := d.segments[a.i];
    match a
    case Fetch(i) => d.(segments := d.segments[i := Writing(TRIES, 0)])
    case FetchFails(i, warn) =>
      d.(segments := d.segments[i := if warn && seg.tries > 1 then Wanted(seg.tries - 1) else Lost])
    case WriteChunk(i, n) =>
      AfterWrite(d, i, seg.written, n)
    case WriteFails(i, warn) =>
      d.(segments := d.segments[i := if warn && seg.tries > 1 then Writing(seg.tries - 1, 0) else Lost])
    case Count(i, ok) =>
      var counted := d.(segments := d.segments[i := Counted], read := d.read + 1);
      if counted.read != |d.segments| then counted else TheEnd(counted, ok)
  }

  /** The final action; `ok` tells whether the renaming works. */
  function TheEnd(d: Download, ok: bool): Download {
    if d.compressed then d.(finals := d.finals + 1, handed := Some(d.file), deleteTemp := false)
    else d.(finals := d.finals + 1, published := if ok then Some(d.file) else None)
  }

  /** The download before its first range request; the file has the right length but any contents. */
  ghost predicate Start(d: Download) {
    && d.size > 0 && |d.file| == |d.obj|
    && d.segments == seq(CountOfParts(|d.obj|, d.size), _ => Wanted(TRIES))
    && d.read == 0 && d.finals == 0 && d.published == None && d.handed == None && d.deleteTemp
  }

  /** How many leading bytes of a segment are certainly in the file. */
  function InFile(seg: Segment, size: nat): nat {
    match seg
    case Writing(_, written) => written
    case Counted => size
    case _ => 0
  }

  function IsCounted(): Segment -> bool { (x: Segment) => x.Counted? }

  ghost predicate Shape(d: Download) {
    d.size > 0 && |d.file| == |d.obj| && |d.segments| == CountOfParts(|d.obj|, d.size)
  }

  /** The first `upto` bytes from `start` on are right. */
  ghost predicate RangeOk(file: seq<Byte>, obj: seq<Byte>, start: nat, upto: nat)
    requires |file| == |obj|
  {
    forall b :: start <= b < start + upto && b < |obj| ==> file[b] == obj[b]
  }

  /** Every segment's bytes are right as far as the segment has got. */
  ghost predicate FileOk(d: Download)
    requires Shape(d)
  {
    forall j :: 0 <= j < |d.segments| ==> RangeOk(d.file, d.obj, j * d.size, InFile(d.segments[j], d.size))
  }

  ghost predicate CountOk(d: Download) {
    && d.read == Counting.Count(d.segments, IsCounted())
    && d.finals == (if d.read == |d.segments| then 1 else 0)
    && (d.published.Some? ==> d.finals == 1 && !d.compressed && d.published.value == d.obj)
    && d.handed == (if d.finals == 1 && d.compressed then Some(d.obj) else None)
    && (d.deleteTemp <==> d.handed.None?)
  }

  ghost predicate Inv(d: Download) { Shape(d) && FileOk(d) && CountOk(d) }

  lemma StartHasInv(d: Download)
    requires Start(d)
    ensures Inv(d)
  {
    CountBounds(d.segments, IsCounted());
  }

  lemma OverwriteKeepsRange(file: seq<Byte>, obj: seq<Byte>, at: nat, n: nat, start: nat, upto: nat)
    requires |file| == |obj| && at + n <= |obj| && RangeOk(file, obj, start, upto)
    ensures RangeOk(Overwrite(file, at, obj[at..at + n]), obj, start, upto)
    ensures start + upto == at ==> RangeOk(Overwrite(file, at, obj[at..at + n]), obj, start, upto + n)
  {
    var file' := Overwrite(file, at, obj[at..at + n]);
    assert forall b :: 0 <= b < |obj| ==> file'[b] == if at <= b < at + n then obj[b] else file[b];
  }

  lemma SliceOfSlice<T>(s: seq<T>, from: nat, to: nat, w: nat, n: nat)
    requires from <= to <= |s| && w + n <= to - from
    ensures s[from..to][w..w + n] == s[from + w..from + w + n]
  {
    var inner, outer := s[from..to][w..w + n], s[from + w..from + w + n];
    forall k | 0 <= k < n ensures inner[k] == outer[k] {
      assert s[from..to][w + k] == s[from + (w + k)];
    }
    assert inner == outer;
  }

  lemma ChunkIsObject(d: Download, i: nat, w: nat, n: nat)
    requires Shape(d) && IsPart(|d.obj|, d.size, i) && w + n <= RangeSize(|d.obj|, d.size, i)
    ensures i * d.size + w + n <= |d.obj|
    ensures Chunk(d, i, w, n) == d.obj[i * d.size + w..i * d.size + w + n]
  {
    RangeIsPart(d.obj, d.size, i);
    var r := RangeOf(|d.obj|, d.size, i);
    hide PartOf, RangeSize, CountOfParts;
    if d.obj != [] { SliceOfSlice(d.obj, r.first, r.last + 1, w, n); }
  }

  lemma WriteKeepsFile(d: Download, i: nat, n: nat)
    requires Shape(d) && FileOk(d) && i < |d.segments| && IsPart(|d.obj|, d.size, i)
    requires d.segments[i].Writing? && d.segments[i].written + n <= RangeSize(|d.obj|, d.size, i)
    ensures Shape(AfterWrite(d, i, d.segments[i].written, n))
    ensures FileOk(AfterWrite(d, i, d.segments[i].written, n))
  {
    var w := d.segments[i].written;
    var at := i * d.size + w;
    var d' := AfterWrite(d, i, w, n);
    ChunkIsObject(d, i, w, n);
    forall j | 0 <= j < |d.segments|
      ensures RangeOk(d'.file, d.obj, j * d.size, InFile(d'.segments[j], d.size))
    {
      OverwriteKeepsRange(d.file, d.obj, at, n, j * d.size, InFile(d.segments[j], d.size));
    }
  }

  /** A counted segment has reached its end, so all its bytes are right. */
  lemma CountKeepsFile(d: Download, a: Action)
    requires Shape(d) && FileOk(d) && Enabled(d, a) && a.Count?
    ensures FileOk(Apply(d, a))
  {
    RangeIsPart(d.obj, d.size, a.i);
    assert RangeOk(d.file, d.obj, a.i * d.size, d.segments[a.i].written);
    assert RangeOk(d.file, d.obj, a.i * d.size, d.size);
  }

  lemma StepKeepsFile(d: Download, a: Action)
    requires Shape(d) && Enabled(d, a) && FileOk(d)
    ensures Shape(Apply(d, a)) && FileOk(Apply(d, a))
  {
    match a
    case WriteChunk(i, n) => WriteKeepsFile(d, i, n);
    case Count(_, _) => CountKeepsFile(d, a);
    case _ =>
  }

  /** When every segment has been counted the file is the object. */
  lemma AllCountedMeansComplete(d: Download)
    requires Shape(d) && FileOk(d) && forall i :: 0 <= i < |d.segments| ==> d.segments[i].Counted?
    ensures d.file == d.obj
  {
    forall b: nat | b < |d.obj|
      ensures d.file[b] == d.obj[b]
    {
      RangesPartition(|d.obj|, d.size, b);
      Owner(b, d.size, b / d.size);
      assert d.segments[b / d.size].Counted?;
    }
  }

  lemma StepKeepsCount(d: Download, a: Action)
    requires Shape(d) && Enabled(d, a) && CountOk(d) && Shape(Apply(d, a)) && FileOk(Apply(d, a))
    ensures CountOk(Apply(d, a))
  {
    var d' := Apply(d, a);
    CountUpdate(d.segments, a.i, d'.segments[a.i], IsCounted());
    CountBounds(d.segments, IsCounted());
    CountBounds(d'.segments, IsCounted());
    if a.Count? && d'.read == |d.segments| { AllCountedMeansComplete(d'); }
  }

  lemma StepKeepsInv(d: Download, a: Action)
    requires Inv(d) && Enabled(d, a)
    ensures Inv(Apply(d, a))
  {
    StepKeepsFile(d, a);
    StepKeepsCount(d, a);
  }

  function Run(d: Download, acts: seq<Action>): Option<Download>
    decreases |acts|
  {
    if acts == [] then Some(d)
    else if Enabled(d, acts[0]) then Run(Apply(d, acts[0]), acts[1..])
    else None
  }

  lemma {:induction false} RunKeepsInv(d: Download, acts: seq<Action>)
    requires Inv(d) && Run(d, acts).Some?
    ensures Inv(Run(d, acts).value)
    ensures var r := Run(d, acts).value; r.obj == d.obj && r.size == d.size && r.compressed == d.compressed
    decreases |acts|
  {
    if acts != [] {
      StepKeepsInv(d, acts[0]);
      RunKeepsInv(Apply(d, acts[0]), acts[1..]);
    }
  }

  /** Over all interleavings, short writes and retries: the end is reached exactly once when every
      segment has been counted, and never before. The file is the remote object then and stays it.
      What is renamed to the target is the object; a compressed object is not, but handed on whole,
      and only then its file is spared. */
  lemma Reassembled(d: Download, acts: seq<Action>)
    requires Start(d) && Run(d, acts).Some?
    ensures var r := Run(d, acts).value;
      && r.finals == (if forall i :: 0 <= i < |r.segments| ==> r.segments[i].Counted? then 1 else 0)
      && (r.finals == 1 ==> r.file == d.obj)
      && (r.published.Some? ==> r.finals == 1 && !d.compressed && r.published.value == d.obj)
      && r.handed == (if r.finals == 1 && d.compressed then Some(d.obj) else None)
      && (r.deleteTemp <==> r.handed.None?)
  {
    StartHasInv(d);
    RunKeepsInv(d, acts);
    var r := Run(d, acts).value;
    CountBounds(r.segments, IsCounted());
    if r.finals == 1 { AllCountedMeansComplete(r); }
  }

  // ---------- retries ----------

  lemma {:induction false} RunLast(d: Download, acts: seq<Action>)
    requires acts != [] && Run(d, acts).Some?
    ensures var before := Run(d, acts[..|acts| - 1]);
      && before.Some? && Enabled(before.value, acts[|acts| - 1])
      && Run(d, acts) == Some(Apply(before.value, acts[|acts| - 1]))
    decreases |acts|
  {
    hide Enabled, Apply;
    if |acts| == 1 {
      assert acts[..0] == [] && acts[1..] == [];
    } else {
      RunLast(Apply(d, acts[0]), acts[1..]);
      assert acts[..|acts| - 1][1..] == acts[1..][..|acts| - 2];
    }
  }

  /** How often the request for a segment, or its writing, has failed. */
  function FetchFailures(acts: seq<Action>, i: nat): nat
    decreases |acts|
  {
    if acts == [] then 0
    else
      var last := acts[|acts| - 1];
      FetchFailures(acts[..|acts| - 1], i) + (if last.i == i && last.FetchFails? then 1 else 0)
  }

  function WriteFailures(acts: seq<Action>, i: nat): nat
    decreases |acts|
  {
    if acts == [] then 0
    else
      var last := acts[|acts| - 1];
      WriteFailures(acts[..|acts| - 1], i) + (if last.i == i && last.WriteFails? then 1 else 0)
  }

  lemma SegmentStep(d: Download, a: Action, i: nat)
    requires Enabled(d, a) && i < |d.segments|
    ensures |Apply(d, a).segments| == |d.segments|
    ensures var seg, seg' := d.segments[i], Apply(d, a).segments[i];
      if a.i != i then seg' == seg
      else match a
        case Fetch(_) => seg.Wanted? && seg' == Writing(10, 0)
        case FetchFails(_, warn) =>
          seg.Wanted? && seg' == if warn && seg.tries > 1 then Wanted(seg.tries - 1) else Lost
        case WriteChunk(_, _) => seg.Writing? && seg'.Writing? && seg'.tries == seg.tries
        case WriteFails(_, warn) =>
          seg.Writing? && seg' == if warn && seg.tries > 1 then Writing(seg.tries - 1, 0) else Lost
        case Count(_, _) => seg.Writing? && seg' == Counted
  {
  }

  /** A segment is lost exactly when its request or its writing has failed ten times, or once for good. */
  lemma {:induction false} LostIff(d: Download, acts: seq<Action>, i: nat)
    requires Start(d) && Run(d, acts).Some? && i < |d.segments|
    ensures |Run(d, acts).value.segments| == |d.segments|
    ensures FetchFailures(acts, i) <= 10 && WriteFailures(acts, i) <= 10
    ensures var seg := Run(d, acts).value.segments[i];
      && (seg.Wanted? ==> seg.tries == 10 - FetchFailures(acts, i) && WriteFailures(acts, i) == 0)
      && (seg.Writing? ==> seg.tries == 10 - WriteFailures(acts, i))
      && (seg.Lost? <==>
            FetchFailures(acts, i) == 10 || WriteFailures(acts, i) == 10
            || FetchFails(i, false) in acts || WriteFails(i, false) in acts)
    decreases |acts|
  {
    if acts != [] {
      var last, before := acts[|acts| - 1], acts[..|acts| - 1];
      RunLast(d, acts);
      LostIff(d, before, i);
      SegmentStep(Run(d, before).value, last, i);
      assert acts == before + [last];
      hide Run, Enabled, Apply, Start;
    }
  }

  // ---------- the record itself ----------

  /** What a write task does last. */
  datatype End = NotYet | Decompress | Rename

  /** The shared record of the source and the file on disk, among the segments that they belong to. */
  class DownloadContent {
    const numSegments: nat
    const compressed: bool
    const file: array<Byte>
    var segmentsRead: nat
    var deleteTempFile: bool
    ghost var around: Download

    /** The download as the step relation sees it. */
    ghost function Whole(): Download
      reads this, file
    {
      around.(file := file[..], read := segmentsRead, deleteTemp := deleteTempFile)
    }

    ghost predicate Valid()
      reads this, file
    {
      Shape(Whole()) && numSegments == |around.segments| && compressed == around.compressed
    }

    constructor (file: array<Byte>, compressed: bool, numSegments: nat, ghost obj: seq<Byte>, ghost size: nat)
      requires size > 0 && file.Length == |obj| && numSegments == CountOfParts(|obj|, size)
      ensures Valid() && Start(Whole()) && Whole().obj == obj && Whole().compressed == compressed
      ensures this.file == file
    {
      this.numSegments, this.compressed, this.file := numSegments, compressed, file;
      segmentsRead, deleteTempFile := 0, true;
      around := Download(obj, size, compressed, file[..], seq(numSegments, _ => Wanted(TRIES)), 0, 0, None, None, true);
    }

    /** Counts a segment that is in the file, under the lock, and does the final action when the count
        is full. */
    method CountSegment(ghost i: nat, ghost ok: bool) returns (end: End)
      requires Valid() && Enabled(Whole(), Count(i, ok))
      modifies this
      ensures Valid()
      ensures Whole() == Apply(old(Whole()), Count(i, ok))
      ensures end.NotYet? <==> Whole().finals == old(Whole()).finals
      ensures end.Decompress? ==> Whole().handed == Some(Whole().file)
      ensures end.Rename? && ok ==> Whole().published == Some(Whole().file)
    {
      ghost var before := Whole();
      segmentsRead := segmentsRead + 1;
      end := NotYet;
      if segmentsRead == numSegments {
        if compressed {
          deleteTempFile := false;
          end := Decompress;
        } else {
          end := Rename;
        }
      }
      around := Apply(before, Count(i, ok));
    }

    /** A write task: writes the segment into the file and counts it. */
    method WriteSegment(i: nat, size: nat, data: seq<Byte>, ghost ok: bool) returns (end: End)
      requires Valid() && size == around.size && i < |around.segments| && IsPart(|around.obj|, size, i)
      requires around.segments[i].Writing? && around.segments[i].written == 0
      requires data == PartOf(around.obj, size, i)
      modifies this, file
      ensures Valid()
      ensures Run(old(Whole()), WriteActions(i, |data|, ok)) == Some(Whole())
      ensures end.NotYet? <==> Whole().finals == old(Whole()).finals
      ensures end.Decompress? ==> Whole().handed == Some(Whole().file)
      ensures end.Rename? && ok ==> Whole().published == Some(Whole().file)
    {
      hide Overwrite, PartOf, RangeSize, CountOfParts, IsPart, Run, WriteActions, Enabled, Apply, Written;
      ghost var before := Whole();
      WrittenIs(before, i, data);
      WholeWrite(before, i, data, ok);
      DoWrite(file, size * i, data);
      around := Written(before, i, data);
      assert Whole() == Written(before, i, data);
      end := CountSegment(i, ok);
    }
  }

  function WriteActions(i: nat, n: nat, ok: bool): seq<Action> {
    (if n == 0 then [] else [WriteChunk(i, n)]) + [Count(i, ok)]
  }

  ghost function Written(d: Download, i: nat, data: seq<Byte>): Download
    requires Shape(d) && i < |d.segments| && IsPart(|d.obj|, d.size, i) && d.segments[i].Writing?
    requires data == PartOf(d.obj, d.size, i)
  {
    RangeIsPart(d.obj, d.size, i);
    d.(file := Overwrite(d.file, i * d.size, data), segments := d.segments[i := d.segments[i].(written := |data|)])
  }

  lemma WrittenIs(d: Download, i: nat, data: seq<Byte>)
    requires Shape(d) && i < |d.segments| && IsPart(|d.obj|, d.size, i) && data == PartOf(d.obj, d.size, i)
    requires d.segments[i].Writing?
    ensures d.size * i + |data| <= |d.obj|
    ensures var w := Written(d, i, data);
      && w.file == Overwrite(d.file, d.size * i, data) && w == d.(file := w.file, segments := w.segments)
      && Shape(w)
  {
    RangeIsPart(d.obj, d.size, i);
  }

  lemma RunOne(d: Download, a: Action)
    requires Enabled(d, a)
    ensures Run(d, [a]) == Some(Apply(d, a))
  {
    hide Enabled, Apply;
    assert [a][1..] == [];
    assert Run(Apply(d, a), []) == Some(Apply(d, a));
  }

  lemma WrittenCounts(d: Download, i: nat, data: seq<Byte>, ok: bool)
    requires Shape(d) && i < |d.segments| && IsPart(|d.obj|, d.size, i) && data == PartOf(d.obj, d.size, i)
    requires d.segments[i].Writing?
    ensures Enabled(Written(d, i, data), Count(i, ok))
  {
    RangeIsPart(d.obj, d.size, i);
    assert Written(d, i, data).segments[i].written == RangeSize(|d.obj|, d.size, i);
    assert |Written(d, i, data).file| == |d.obj|;
  }

  /** Writing the segment in one go, unless it is empty. */
  lemma WriteIsWritten(d: Download, i: nat, data: seq<Byte>)
    requires Shape(d) && i < |d.segments| && IsPart(|d.obj|, d.size, i) && data == PartOf(d.obj, d.size, i)
    requires d.segments[i].Writing? && d.segments[i].written == 0
    ensures data == [] ==> Written(d, i, data) == d
    ensures data != [] ==>
      Enabled(d, WriteChunk(i, |data|)) && Apply(d, WriteChunk(i, |data|)) == Written(d, i, data)
  {
    RangeIsPart(d.obj, d.size, i);
    assert i * d.size <= |d.file|;
    hide CountOfParts, PartOf, RangeSize, IsPart, Overwrite;
    if data == [] {
      NothingWritten(d.file, i * d.size);
    } else {
      assert data[0..|data|] == data;
    }
  }

  lemma WholeWrite(d: Download, i: nat, data: seq<Byte>, ok: bool)
    requires Shape(d) && i < |d.segments| && IsPart(|d.obj|, d.size, i) && data == PartOf(d.obj, d.size, i)
    requires d.segments[i].Writing? && d.segments[i].written == 0
    ensures Enabled(Written(d, i, data), Count(i, ok))
    ensures Run(d, WriteActions(i, |data|, ok)) == Some(Apply(Written(d, i, data), Count(i, ok)))
  {
    var w := Written(d, i, data);
    WrittenCounts(d, i, data, ok);
    WriteIsWritten(d, i, data);
    hide Enabled, Apply, Written, PartOf, IsPart, Shape;
    RunOne(w, Count(i, ok));
    if data == [] {
      assert WriteActions(i, 0, ok) == [Count(i, ok)];
    } else {
      assert WriteActions(i, |data|, ok)[1..] == [Count(i, ok)];
    }
  }
}
