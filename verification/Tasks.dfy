/** The task kinds the client schedules, with the class, the segment demand and the spawning
    discipline of each, and the multimap order in which a queue keeps them. */
module Tasks {

  /** How often a task is attempted. */
  const TRIES: nat := 10

  datatype TaskClass = Unbound | CpuBound | IoBound

  /** `depth` bounds the height of the remote tree below a listed directory; `segments` is the
      demand a file pump was created with. */
  datatype Kind =
    | Uploader | Compressor | CompressBlock | Pump(segments: nat) | Part | RemoteDelete
    | Downloader | RangeDownload | WriteSegment | Decompressor | LocalDelete
    | ListDirectory(depth: nat) | PublishDirectory(depth: nat) | PublishFile

  function ClassOf(k: Kind): TaskClass {
    match k
    case CompressBlock => CpuBound
    case Decompressor => CpuBound
    case Pump(_) => IoBound
    case WriteSegment => IoBound
    case _ => Unbound
  }

  function SegmentsNeeded(k: Kind): nat {
    match k
    case Pump(n) => n
    case RangeDownload => 1
    case _ => 0
  }

  /** Which tasks the body of a task schedules. A block schedules pumps because the last one to
      finish runs the compressor's callback. */
  predicate MaySpawn(parent: Kind, child: Kind) {
    match parent
    case Uploader => child.Compressor? || child.Pump?
    case Compressor => child.CompressBlock?
    case CompressBlock => child.Pump?
    case Pump(_) => child.Part?
    case Downloader => child.RangeDownload?
    case RangeDownload => child.WriteSegment?
    case WriteSegment => child.Decompressor?
    case ListDirectory(d) => child.ListDirectory? && child.depth < d
    case PublishDirectory(d) => child.PublishFile? || (child.PublishDirectory? && child.depth < d)
    case _ => false
  }

  function Rank(k: Kind): nat {
    match k
    case Uploader => 4
    case Compressor => 3
    case CompressBlock => 2
    case Pump(_) => 1
    case Downloader => 3
    case RangeDownload => 2
    case WriteSegment => 1
    case ListDirectory(d) => d
    case PublishDirectory(d) => d + 1
    case _ => 0
  }

  lemma SpawnLowersRank(parent: Kind, child: Kind)
    requires MaySpawn(parent, child)
    ensures Rank(child) < Rank(parent)
  {
  }

  /** A task object; `segs` are the segments it holds a reference to while it is queued. */
  datatype Task = Task(kind: Kind, ordinal: int, segs: set<nat>) {
    function Class(): TaskClass { ClassOf(kind) }

    function Needs(): nat { SegmentsNeeded(kind) }
  }

  /** Only a part upload and a segment write keep a segment, and a pump never asks for more
      segments than may be in flight. */
  predicate TaskOk(t: Task, maxSegments: nat) {
    && (t.segs != {} ==> t.kind.Part? || t.kind.WriteSegment?)
    && (t.kind.Pump? ==> t.kind.segments <= maxSegments)
  }

  predicate SortedByOrdinal(q: seq<Task>) {
    q == [] || ((forall t :: t in q[1..] ==> q[0].ordinal <= t.ordinal) && SortedByOrdinal(q[1..]))
  }

  /** Insertion into a multimap: after every element whose ordinal is not larger. */
  function Insert(q: seq<Task>, t: Task): seq<Task> {
    if q == [] || t.ordinal < q[0].ordinal then [t] + q else [q[0]] + Insert(q[1..], t)
  }

  lemma {:induction false} InsertContents(q: seq<Task>, t: Task)
    ensures multiset(Insert(q, t)) == multiset(q) + multiset{t}
    ensures |Insert(q, t)| == |q| + 1
    ensures forall x :: x in Insert(q, t) <==> x in q || x == t
  {
    if !(q == [] || t.ordinal < q[0].ordinal) {
      InsertContents(q[1..], t);
      assert q == [q[0]] + q[1..];
    }
  }

  lemma {:induction false} InsertSorted(q: seq<Task>, t: Task)
    requires SortedByOrdinal(q)
    ensures SortedByOrdinal(Insert(q, t))
  {
    if q == [] || t.ordinal < q[0].ordinal {
      assert ([t] + q)[1..] == q;
    } else {
      InsertSorted(q[1..], t);
      InsertContents(q[1..], t);
      assert ([q[0]] + Insert(q[1..], t))[1..] == Insert(q[1..], t);
    }
  }

  predicate InBucket(t: Task, n: nat, c: TaskClass) { t.Needs() == n && t.Class() == c }

  /** The queued tasks of one bucket: `n` segments needed, class `c`, in queue order. */
  function Select(q: seq<Task>, n: nat, c: TaskClass): seq<Task> {
    if q == [] then []
    else if InBucket(q[0], n, c) then [q[0]] + Select(q[1..], n, c)
    else Select(q[1..], n, c)
  }

  lemma {:induction false} SelectMembers(q: seq<Task>, n: nat, c: TaskClass)
    ensures forall t :: t in Select(q, n, c) <==> t in q && InBucket(t, n, c)
  {
    if q != [] { SelectMembers(q[1..], n, c); }
  }

  lemma {:induction false} SelectInsert(q: seq<Task>, t: Task, n: nat, c: TaskClass)
    requires SortedByOrdinal(q)
    ensures Select(Insert(q, t), n, c)
         == if InBucket(t, n, c) then Insert(Select(q, n, c), t) else Select(q, n, c)
  {
    if q == [] || t.ordinal < q[0].ordinal {
      assert ([t] + q)[1..] == q;
      SelectMembers(q, n, c);
      var s := Select(q, n, c);
      assert s != [] ==> s[0] in s;
    } else {
      SelectInsert(q[1..], t, n, c);
      assert ([q[0]] + Insert(q[1..], t))[1..] == Insert(q[1..], t);
      var s := Select(q[1..], n, c);
      assert ([q[0]] + s)[1..] == s;
    }
  }

  /** The queue without the first task of a bucket. */
  function Remove(q: seq<Task>, n: nat, c: TaskClass): seq<Task>
    requires Select(q, n, c) != []
  {
    if InBucket(q[0], n, c) then q[1..] else [q[0]] + Remove(q[1..], n, c)
  }

  lemma {:induction false} RemoveContents(q: seq<Task>, n: nat, c: TaskClass)
    requires Select(q, n, c) != []
    ensures multiset(q) == multiset(Remove(q, n, c)) + multiset{Select(q, n, c)[0]}
    ensures |Remove(q, n, c)| == |q| - 1
    ensures forall t :: t in q <==> t in Remove(q, n, c) || t == Select(q, n, c)[0]
  {
    assert q == [q[0]] + q[1..];
    if !InBucket(q[0], n, c) {
      RemoveContents(q[1..], n, c);
    }
  }

  lemma {:induction false} RemoveSorted(q: seq<Task>, n: nat, c: TaskClass)
    requires Select(q, n, c) != [] && SortedByOrdinal(q)
    ensures SortedByOrdinal(Remove(q, n, c))
  {
    if !InBucket(q[0], n, c) {
      RemoveSorted(q[1..], n, c);
      RemoveContents(q[1..], n, c);
      assert ([q[0]] + Remove(q[1..], n, c))[1..] == Remove(q[1..], n, c);
    }
  }

  lemma {:induction false} SelectRemove(q: seq<Task>, n: nat, c: TaskClass, m: nat, d: TaskClass)
    requires Select(q, n, c) != []
    ensures Select(Remove(q, n, c), m, d)
         == if m == n && d == c then Select(q, n, c)[1..] else Select(q, m, d)
  {
    if InBucket(q[0], n, c) {
      assert ([q[0]] + Select(q[1..], n, c))[1..] == Select(q[1..], n, c);
    } else {
      SelectRemove(q[1..], n, c, m, d);
      assert ([q[0]] + Remove(q[1..], n, c))[1..] == Remove(q[1..], n, c);
    }
  }

  /** What is taken from a bucket is the first of its tasks in the queue; the others stay in order. */
  lemma {:induction false} TakesFirst(q: seq<Task>, n: nat, c: TaskClass) returns (i: nat)
    requires Select(q, n, c) != []
    ensures i < |q| && q[i] == Select(q, n, c)[0] && q[i].Needs() == n && q[i].Class() == c
    ensures Remove(q, n, c) == q[..i] + q[i + 1..]
    ensures forall j :: 0 <= j < i ==> q[j].Needs() != n || q[j].Class() != c
  {
    if InBucket(q[0], n, c) {
      i := 0;
    } else {
      var rest := q[1..];
      var k := TakesFirst(rest, n, c);
      i := k + 1;
      assert q[..i] == [q[0]] + rest[..k] && q[i + 1..] == rest[k + 1..];
      assert [q[0]] + rest[..k] + rest[k + 1..] == [q[0]] + (rest[..k] + rest[k + 1..]);
      hide Remove, Select;
      forall j | 0 <= j < i ensures q[j].Needs() != n || q[j].Class() != c {
        assert j > 0 ==> q[j] == rest[j - 1];
      }
    }
  }

  lemma {:induction false} SelectAppend(q: seq<Task>, t: Task, n: nat, c: TaskClass)
    ensures Select(q + [t], n, c) == Select(q, n, c) + (if t.Needs() == n && t.Class() == c then [t] else [])
  {
    if q == [] {
      assert [t][1..] == [];
    } else {
      SelectAppend(q[1..], t, n, c);
      assert (q + [t])[1..] == q[1..] + [t] && (q + [t])[0] == q[0];
      var rest, last := Select(q[1..], n, c), if t.Needs() == n && t.Class() == c then [t] else [];
      assert [q[0]] + (rest + last) == [q[0]] + rest + last;
    }
  }

  lemma {:induction false} InsertAppends(q: seq<Task>, t: Task)
    requires forall u :: u in q ==> u.ordinal == t.ordinal
    ensures Insert(q, t) == q + [t]
  {
    if q != [] {
      InsertAppends(q[1..], t);
      assert q == [q[0]] + q[1..];
      assert [q[0]] + (q[1..] + [t]) == [q[0]] + q[1..] + [t];
    }
  }

  /** Tasks of one ordinal, which all tasks of the client have, queue up in the order in which they
      are scheduled, in the whole queue and in every bucket. */
  lemma FirstInFirstOut(q: seq<Task>, t: Task, n: nat, c: TaskClass)
    requires forall u :: u in q ==> u.ordinal == t.ordinal
    ensures Insert(q, t) == q + [t]
    ensures Select(Insert(q, t), n, c) == Select(q, n, c) + (if t.Needs() == n && t.Class() == c then [t] else [])
  {
    InsertAppends(q, t);
    SelectAppend(q, t, n, c);
  }

  function MaxNeeds(q: seq<Task>): (r: nat)
    requires q != []
    ensures forall t :: t in q ==> t.Needs() <= r
    ensures exists t :: t in q && t.Needs() == r
  {
    if |q| == 1 then q[0].Needs()
    else
      var m := MaxNeeds(q[1..]);
      if q[0].Needs() < m then m else q[0].Needs()
  }

  function MinNeeds(q: seq<Task>): (r: nat)
    requires q != []
    ensures forall t :: t in q ==> r <= t.Needs()
    ensures exists t :: t in q && t.Needs() == r
  {
    if |q| == 1 then q[0].Needs()
    else
      var m := MinNeeds(q[1..]);
      if m < q[0].Needs() then m else q[0].Needs()
  }
}
