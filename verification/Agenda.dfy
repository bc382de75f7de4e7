/** The scheduler object: the nested queue (segments needed, then class, then ordinal), the class
    counters and the segment pool, each method one critical section of the source. */
module Agendas {
  import opened Tasks
  import opened AgendaCore
  import opened Counting
  import opened Segments
  import opened Wrappers

  /** Which sleeping workers a critical section wakes. */
  datatype Notify = NotifyOne | NotifyAll

  datatype Claimant = NoMoreWork | GoToSleep | Run(task: Task, segments: seq<Segment>)

  type TaskMap = map<TaskClass, seq<Task>>

  function BucketAt(tasks: map<nat, TaskMap>, n: nat, c: TaskClass): seq<Task> {
    if n in tasks && c in tasks[n] then tasks[n][c] else []
  }

  /** The nested map is a faithful index of `q`, and no empty inner map survives. */
  ghost predicate Indexes(tasks: map<nat, TaskMap>, q: seq<Task>) {
    && (forall n: nat, c :: BucketAt(tasks, n, c) == Select(q, n, c))
    && (forall n | n in tasks :: tasks[n] != map[])
    && (forall n, c | n in tasks && c in tasks[n] :: tasks[n][c] != [])
  }

  lemma MaxExists(s: set<nat>)
    requires s != {}
    ensures exists x :: x in s && forall y :: y in s ==> y <= x
  {
    var a :| a in s;
    var rest := s - {a};
    if rest != {} {
      MaxExists(rest);
      var x :| x in rest && forall y :: y in rest ==> y <= x;
      assert forall y :: y in s ==> y == a || y in rest;
      if x < a { assert a in s && forall y :: y in s ==> y <= a; }
    } else {
      assert forall y :: y in s ==> y == a || y in rest;
    }
  }

  lemma MinExists(s: set<nat>, a: nat)
    requires a in s
    ensures exists x :: x in s && forall y :: y in s ==> x <= y
    decreases a
  {
    if y :| y in s && y < a { MinExists(s, y); }
  }

  /** The key before the end of the ordered map, and the one at its beginning. */
  function LastKey(keys: set<nat>): (r: nat)
    requires keys != {}
    ensures r in keys && forall y :: y in keys ==> y <= r
  {
    MaxExists(keys);
    var x :| x in keys && forall y :: y in keys ==> y <= x;
    x
  }

  function FirstKey(keys: set<nat>): (r: nat)
    requires keys != {}
    ensures r in keys && forall y :: y in keys ==> r <= y
  {
    var a :| a in keys;
    MinExists(keys, a);
    var x :| x in keys && forall y :: y in keys ==> x <= y;
    x
  }

  /** The outer keys are exactly the demands of the queued tasks. */
  lemma IndexKeys(tasks: map<nat, TaskMap>, q: seq<Task>)
    requires Indexes(tasks, q)
    ensures forall n: nat :: n in tasks <==> exists t :: t in q && t.Needs() == n
    ensures tasks == map[] <==> q == []
  {
    forall n: nat
      ensures n in tasks <==> exists t :: t in q && t.Needs() == n
    {
      if n in tasks {
        var c :| c in tasks[n];
        SelectMembers(q, n, c);
        assert BucketAt(tasks, n, c)[0] in Select(q, n, c);
      }
      if t :| t in q && t.Needs() == n {
        SelectMembers(q, n, t.Class());
        assert t in BucketAt(tasks, n, t.Class());
      }
    }
    if q != [] { assert q[0] in q && q[0].Needs() in tasks; }
    if tasks != map[] { var n :| n in tasks; }
  }

  lemma IndexKeysBound(tasks: map<nat, TaskMap>, q: seq<Task>)
    requires Indexes(tasks, q) && tasks != map[]
    ensures q != [] && tasks.Keys != {}
    ensures LastKey(tasks.Keys) == MaxNeeds(q) && FirstKey(tasks.Keys) == MinNeeds(q)
  {
    IndexKeys(tasks, q);
    assert exists n :: n in tasks;
    assert LastKey(tasks.Keys) in tasks && FirstKey(tasks.Keys) in tasks;
    assert MaxNeeds(q) in tasks && MinNeeds(q) in tasks;
  }

  function Put(tasks: map<nat, TaskMap>, n: nat, c: TaskClass, bucket: seq<Task>): map<nat, TaskMap> {
    tasks[n := (if n in tasks then tasks[n] else map[])[c := bucket]]
  }

  /** The map without the first task of a bucket: an emptied bucket goes, and so does an inner map
      that it was the last bucket of. */
  function Shorten(tasks: map<nat, TaskMap>, n: nat, c: TaskClass): map<nat, TaskMap>
    requires n in tasks && c in tasks[n] && tasks[n][c] != []
  {
    var rest := tasks[n][c][1..];
    if rest == [] then Erase(tasks, n, c) else Put(tasks, n, c, rest)
  }

  function Erase(tasks: map<nat, TaskMap>, n: nat, c: TaskClass): map<nat, TaskMap>
    requires n in tasks
  {
    var byClass := tasks[n] - {c};
    if byClass == map[] then tasks - {n} else tasks[n := byClass]
  }

  lemma PutIndexes(tasks: map<nat, TaskMap>, q: seq<Task>, t: Task)
    requires Indexes(tasks, q) && SortedByOrdinal(q)
    ensures Indexes(Put(tasks, t.Needs(), t.Class(), Insert(BucketAt(tasks, t.Needs(), t.Class()), t)),
                    Insert(q, t))
  {
    var n, c := t.Needs(), t.Class();
    var tasks' := Put(tasks, n, c, Insert(BucketAt(tasks, n, c), t));
    forall m: nat, d
      ensures BucketAt(tasks', m, d) == Select(Insert(q, t), m, d)
    {
      SelectInsert(q, t, m, d);
      assert BucketAt(tasks, m, d) == Select(q, m, d);
    }
    assert c in tasks'[n];
  }

  lemma TakeIndexes(tasks: map<nat, TaskMap>, q: seq<Task>, n: nat, c: TaskClass)
    requires Indexes(tasks, q) && n in tasks && c in tasks[n]
    ensures Select(q, n, c) == tasks[n][c] && tasks[n][c] != []
    ensures Indexes(Shorten(tasks, n, c), Remove(q, n, c))
  {
    assert BucketAt(tasks, n, c) == Select(q, n, c);
    var tasks' := Shorten(tasks, n, c);
    forall m: nat, d
      ensures BucketAt(tasks', m, d) == Select(Remove(q, n, c), m, d)
    {
      SelectRemove(q, n, c, m, d);
      ShortenBuckets(tasks, n, c, m, d);
      assert BucketAt(tasks, m, d) == Select(q, m, d);
    }
    ShortenLeavesNoEmptyMap(tasks, n, c);
  }

  lemma ShortenBuckets(tasks: map<nat, TaskMap>, n: nat, c: TaskClass, m: nat, d: TaskClass)
    requires n in tasks && c in tasks[n] && tasks[n][c] != []
    ensures BucketAt(Shorten(tasks, n, c), m, d)
         == if m == n && d == c then tasks[n][c][1..] else BucketAt(tasks, m, d)
  {
    assert d in tasks[n] && d != c ==> d in tasks[n] - {c};
  }

  lemma ShortenLeavesNoEmptyMap(tasks: map<nat, TaskMap>, n: nat, c: TaskClass)
    requires n in tasks && c in tasks[n] && tasks[n][c] != []
    requires forall m | m in tasks :: tasks[m] != map[]
    requires forall m, d | m in tasks && d in tasks[m] :: tasks[m][d] != []
    ensures var tasks' := Shorten(tasks, n, c);
      && (forall m | m in tasks' :: tasks'[m] != map[])
      && (forall m, d | m in tasks' && d in tasks'[m] :: tasks'[m][d] != [])
  {
    var tasks' := Shorten(tasks, n, c);
    if tasks[n][c][1..] != [] { assert c in tasks'[n]; }
  }

  predicate Suits(k: Core, lim: Limits, c: TaskClass) {
    && k.queue != [] && k.inFlight <= lim.maxSegments
    && Bucket(k, lim).Some? && Claimable(k, lim, Bucket(k, lim).value, c)
  }

  lemma ClaimIs(k: Core, lim: Limits, n: nat, i: nat)
    requires i < 3 && var order := [Unbound, CpuBound, IoBound];
      && Suits(k, lim, order[i]) && Bucket(k, lim) == Some(n)
      && forall j :: 0 <= j < i ==> !Suits(k, lim, order[j])
    ensures AgendaCore.ClaimTask(k, lim) == Take(k, n, [Unbound, CpuBound, IoBound][i])
  {
    var order := [Unbound, CpuBound, IoBound];
    assert i > 0 ==> !Suits(k, lim, order[0]);
    assert i > 1 ==> !Suits(k, lim, order[1]);
  }

  class Agenda {
    const limits: Limits
    const segmentSize: nat
    var tasks: map<nat, TaskMap>
    var classes: map<TaskClass, nat>
    var numWorking: nat
    var segmentsInFlight: nat
    var numSubmitted: nat
    var numDone: nat
    var numFailed: nat
    ghost var queue: seq<Task>

    ghost predicate Valid()
      reads this
    {
      && SortedByOrdinal(queue)
      && Indexes(tasks, queue)
      && segmentsInFlight <= limits.maxSegments
    }

    ghost function State(): Core
      reads this
    {
      Core(queue, classes, numWorking, segmentsInFlight, numSubmitted, numDone, numFailed)
    }

    constructor (limits: Limits, segmentSize: nat)
      ensures Valid() && this.limits == limits && this.segmentSize == segmentSize
      ensures State() == Core([], map[], 0, 0, 0, 0, 0)
    {
      this.limits, this.segmentSize := limits, segmentSize;
      tasks, classes := map[], map[];
      numWorking, segmentsInFlight, numSubmitted, numDone, numFailed := 0, 0, 0, 0, 0;
      queue := [];
    }

    method Schedule(t: Task) returns (wake: Notify)
      requires Valid()
      modifies this
      ensures Valid() && wake == NotifyOne
      ensures State() == AgendaCore.Schedule(old(State()), t)
    {
      var n, c := t.Needs(), t.Class();
      if c !in classes {
        classes := classes[c := 0];
      }
      PutIndexes(tasks, queue, t);
      InsertSorted(queue, t);
      tasks := Put(tasks, n, c, Insert(BucketAt(tasks, n, c), t));
      numSubmitted := numSubmitted + 1;
      queue := Insert(queue, t);
      wake := NotifyOne;
    }

    /** Grants segments all or nothing; the segments are new objects, all different. */
    method GetSegments(num: nat) returns (segments: seq<Segment>)
      requires Valid() && segmentsInFlight + num <= limits.maxSegments
      modifies this`segmentsInFlight
      ensures Valid() && State() == old(State()).(inFlight := old(segmentsInFlight) + num)
      ensures |segments| == num && Distinct(segments)
      ensures forall i :: 0 <= i < num ==> fresh(segments[i])
    {
      segments := [];
      for f := 0 to num
        invariant segmentsInFlight == old(segmentsInFlight) && Valid() && State() == old(State())
        invariant |segments| == f && Distinct(segments)
        invariant forall i :: 0 <= i < f ==> fresh(segments[i])
        invariant forall i :: 0 <= i < f ==> allocated(segments[i])
      {
        var s := new Segment();
        segments := segments + [s];
      }
      segmentsInFlight := segmentsInFlight + num;
    }

    /** Removes the first task of a bucket and counts it as running. */
    method TakeFrom(n: nat, c: TaskClass) returns (task: Task)
      requires Valid() && n in tasks && c in tasks[n] && c in classes
      modifies this`tasks, this`queue, this`classes, this`numWorking
      ensures Valid()
      ensures Select(old(queue), n, c) != []
      ensures task == Select(old(queue), n, c)[0] && task.Needs() == n
      ensures State() == old(State()).(queue := Remove(old(queue), n, c),
        running := old(classes)[c := old(classes)[c] + 1], working := old(numWorking) + 1)
    {
      TakeIndexes(tasks, queue, n, c);
      RemoveSorted(queue, n, c);
      SelectMembers(queue, n, c);
      var bucket := tasks[n][c];
      task := bucket[0];
      assert task in Select(queue, n, c);
      tasks := Shorten(tasks, n, c);
      numWorking := numWorking + 1;
      classes := classes[c := classes[c] + 1];
      queue := Remove(queue, n, c);
    }

    method TakeAndGrant(n: nat, c: TaskClass) returns (r: Claimant)
      requires Valid() && n in tasks && c in tasks[n] && c in classes
      requires segmentsInFlight + n <= limits.maxSegments
      modifies this
      ensures Valid()
      ensures Select(old(queue), n, c) != [] && c in old(classes)
      ensures r.Run? && Take(old(State()), n, c) == Claimed(r.task, State())
      ensures |r.segments| == n == r.task.Needs() && Distinct(r.segments)
      ensures forall i :: 0 <= i < |r.segments| ==> fresh(r.segments[i])
    {
      var task := TakeFrom(n, c);
      var segments := [];
      if n > 0 { segments := GetSegments(n); }
      r := Run(task, segments);
    }

    /** One pass of the claiming loop, from taking the lock to returning or waiting. */
    method ClaimTask() returns (r: Claimant)
      requires Valid()
      modifies this
      ensures Valid()
      ensures match AgendaCore.ClaimTask(old(State()), limits)
        case Quit => r == NoMoreWork && State() == old(State())
        case Wait => r == GoToSleep && State() == old(State())
        case Claimed(task, core) =>
          && r.Run? && r.task == task && State() == core
          && |r.segments| == task.Needs() && Distinct(r.segments)
          && forall i :: 0 <= i < |r.segments| ==> fresh(r.segments[i])
      ensures r.Run? <==> exists t :: Eligible(old(State()), limits, t)
      ensures r.Run? ==> Eligible(old(State()), limits, r.task)
    {
      ClaimIsEligible(State(), limits);
      hide Indexes, SortedByOrdinal, Remove, Eligible;
      IndexKeys(tasks, queue);
      if tasks == map[] {
        return if numWorking == 0 then NoMoreWork else GoToSleep;
      }
      var order := [Unbound, CpuBound, IoBound];
      for i := 0 to 3
        invariant State() == old(State()) && Valid() && tasks != map[]
        invariant forall j :: 0 <= j < i ==> !Suits(State(), limits, order[j])
      {
        var c := order[i];
        var n := BucketFor(c);
        if n.Some? {
          ClaimIs(State(), limits, n.value, i);
          r := TakeAndGrant(n.value, c);
          return;
        }
      }
      assert !Suits(State(), limits, order[0]) && !Suits(State(), limits, order[1])
          && !Suits(State(), limits, order[2]);
      r := GoToSleep;
    }

    /** What the loop body does for one class: the bucket to take from, if that class has room,
        the greediest or the most modest demand can be met, and the bucket has such a task. */
    method BucketFor(c: TaskClass) returns (r: Option<nat>)
      requires Valid() && tasks != map[]
      ensures queue != []
      ensures r.Some? <==> Suits(State(), limits, c)
      ensures r.Some? ==> r == Bucket(State(), limits)
      ensures r.Some? ==> r.value in tasks && c in tasks[r.value] && c in classes
      ensures r.Some? <==> exists t :: Eligible(State(), limits, t) && t.Class() == c
      ensures r.Some? ==> forall t :: Eligible(State(), limits, t) ==> t.Needs() == r.value
    {
      IndexKeysBound(tasks, queue);
      ClaimableIsEligible(State(), limits, c);
      hide Eligible;
      if c !in classes || limits.Of(c) <= classes[c] { return None; }
      var avail := limits.maxSegments - segmentsInFlight;
      var n := LastKey(tasks.Keys);
      if n > avail {
        n := FirstKey(tasks.Keys);
        if n > avail { return None; }
      }
      assert BucketAt(tasks, n, c) == Select(queue, n, c);
      return if c in tasks[n] then Some(n) else None;
    }

    method Cleanup(task: Task, fail: bool) returns (wake: Notify)
      requires Valid() && CanCleanup(State(), task.Class())
      modifies this
      ensures Valid()
      ensures State() == AgendaCore.Cleanup(old(State()), task.Class(), fail)
      ensures wake == NotifyAll <==> Quiescent(State())
      ensures numDone == old(numDone) + 1 && numFailed == old(numFailed) + (if fail then 1 else 0)
    {
      hide Indexes, SortedByOrdinal;
      IndexKeys(tasks, queue);
      numWorking := numWorking - 1;
      classes := classes[task.Class() := classes[task.Class()] - 1];
      wake := if tasks == map[] && numWorking == 0 then NotifyAll else NotifyOne;
      numDone := numDone + 1;
      if fail { numFailed := numFailed + 1; }
    }

    /** The segment deleter, run when the last reference to a segment goes away. */
    method ReleaseSegment() returns (wake: Notify)
      requires Valid() && segmentsInFlight > 0
      modifies this`segmentsInFlight
      ensures Valid() && wake == NotifyOne
      ensures State() == old(State()).(inFlight := old(segmentsInFlight) - 1)
    {
      segmentsInFlight := segmentsInFlight - 1;
      wake := NotifyOne;
    }
  }
}
