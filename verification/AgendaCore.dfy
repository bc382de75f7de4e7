/** What the scheduler's mutex protects, as a value, and what each critical section does to it. */
module AgendaCore {
  import opened Tasks
  import opened Wrappers

  datatype Limits = Limits(unbound: nat, cpu: nat, io: nat, maxSegments: nat) {
    function Of(c: TaskClass): nat {
      match c
      case Unbound => unbound
      case CpuBound => cpu
      case IoBound => io
    }

    function Threads(): nat { unbound + cpu + io }
  }

  /** `queue` holds the waiting tasks in claiming order; `running` has an entry for every class that
      was ever scheduled, as the source's class table has. */
  datatype Core = Core(queue: seq<Task>, running: map<TaskClass, nat>, working: nat, inFlight: nat,
                       submitted: nat, done: nat, failed: nat)

  datatype Claim = Quit | Wait | Claimed(task: Task, core: Core)

  function Schedule(k: Core, t: Task): Core {
    k.(queue := Insert(k.queue, t),
       running := if t.Class() in k.running then k.running else k.running[t.Class() := 0],
       submitted := k.submitted + 1)
  }

  /** The only bucket a claim looks at: the greediest one, or else the most modest one. */
  function Bucket(k: Core, lim: Limits): Option<nat>
    requires k.queue != [] && k.inFlight <= lim.maxSegments
  {
    var avail := lim.maxSegments - k.inFlight;
    if MaxNeeds(k.queue) <= avail then Some(MaxNeeds(k.queue))
    else if MinNeeds(k.queue) <= avail then Some(MinNeeds(k.queue))
    else None
  }

  predicate Claimable(k: Core, lim: Limits, n: nat, c: TaskClass) {
    c in k.running && k.running[c] < lim.Of(c) && Select(k.queue, n, c) != []
  }

  function Take(k: Core, n: nat, c: TaskClass): Claim
    requires Select(k.queue, n, c) != [] && c in k.running
  {
    Claimed(Select(k.queue, n, c)[0],
            k.(queue := Remove(k.queue, n, c), running := k.running[c := k.running[c] + 1],
               working := k.working + 1, inFlight := k.inFlight + n))
  }

  function ClaimTask(k: Core, lim: Limits): Claim
    requires k.inFlight <= lim.maxSegments
  {
    if k.queue == [] then (if k.working == 0 then Quit else Wait)
    else match Bucket(k, lim)
      case None => Wait
      case Some(n) =>
        if Claimable(k, lim, n, Unbound) then Take(k, n, Unbound)
        else if Claimable(k, lim, n, CpuBound) then Take(k, n, CpuBound)
        else if Claimable(k, lim, n, IoBound) then Take(k, n, IoBound)
        else Wait
  }

  predicate CanCleanup(k: Core, c: TaskClass) {
    k.working > 0 && c in k.running && k.running[c] > 0
  }

  function Cleanup(k: Core, c: TaskClass, fail: bool): Core
    requires CanCleanup(k, c)
  {
    k.(running := k.running[c := k.running[c] - 1], working := k.working - 1,
       done := k.done + 1, failed := if fail then k.failed + 1 else k.failed)
  }

  predicate Quiescent(k: Core) { k.queue == [] && k.working == 0 }

  /** What a claim that succeeds took: a queued task of a class with room, whose segments fit, and
      nothing else changed hands. */
  lemma ClaimedFacts(k: Core, lim: Limits)
    requires k.inFlight <= lim.maxSegments && ClaimTask(k, lim).Claimed?
    ensures var t, k' := ClaimTask(k, lim).task, ClaimTask(k, lim).core;
      && multiset(k.queue) == multiset(k'.queue) + multiset{t}
      && (forall x :: x in k.queue <==> x in k'.queue || x == t)
      && |k'.queue| == |k.queue| - 1
      && t.Class() in k.running && k.running[t.Class()] < lim.Of(t.Class())
      && k'.running == k.running[t.Class() := k.running[t.Class()] + 1]
      && k'.inFlight == k.inFlight + t.Needs() && k'.inFlight <= lim.maxSegments
      && k'.working == k.working + 1
      && k'.submitted == k.submitted && k'.done == k.done && k'.failed == k.failed
  {
    var n := Bucket(k, lim).value;
    var c := if Claimable(k, lim, n, Unbound) then Unbound
             else if Claimable(k, lim, n, CpuBound) then CpuBound else IoBound;
    RemoveContents(k.queue, n, c);
    SelectMembers(k.queue, n, c);
    assert Select(k.queue, n, c)[0] in Select(k.queue, n, c);
  }

  /** What a claim may take: a queued task of a class with room, whose segments are free, such that no
      queued task asks for more; or, if somebody asks for more than is free, nobody for less. */
  ghost predicate Eligible(k: Core, lim: Limits, t: Task) {
    && t in k.queue && t.Class() in k.running && k.running[t.Class()] < lim.Of(t.Class())
    && t.Needs() <= lim.maxSegments - k.inFlight
    && ((forall u :: u in k.queue ==> u.Needs() <= t.Needs())
        || ((exists u :: u in k.queue && u.Needs() > lim.maxSegments - k.inFlight)
            && forall u :: u in k.queue ==> t.Needs() <= u.Needs()))
  }

  /** The order in which a claim looks at the classes. */
  function Turn(c: TaskClass): nat {
    match c
    case Unbound => 0
    case CpuBound => 1
    case IoBound => 2
  }

  lemma BucketIsFit(k: Core, lim: Limits)
    requires k.queue != [] && k.inFlight <= lim.maxSegments && Bucket(k, lim).Some?
    ensures var n, avail := Bucket(k, lim).value, lim.maxSegments - k.inFlight;
      && n <= avail
      && ((forall u :: u in k.queue ==> u.Needs() <= n)
          || ((exists u :: u in k.queue && u.Needs() > avail) && forall u :: u in k.queue ==> n <= u.Needs()))
  {
  }

  /** The bucket that a claim looks at holds the eligible tasks of the classes with room. */
  lemma ClaimableIsEligible(k: Core, lim: Limits, c: TaskClass)
    requires k.queue != [] && k.inFlight <= lim.maxSegments
    ensures (Bucket(k, lim).Some? && Claimable(k, lim, Bucket(k, lim).value, c))
       <==> exists t :: Eligible(k, lim, t) && t.Class() == c
    ensures forall t :: Eligible(k, lim, t) ==> Bucket(k, lim) == Some(t.Needs())
  {
    if Bucket(k, lim).Some? {
      var n := Bucket(k, lim).value;
      SelectMembers(k.queue, n, c);
      if Claimable(k, lim, n, c) {
        assert Select(k.queue, n, c)[0] in Select(k.queue, n, c);
        assert Eligible(k, lim, Select(k.queue, n, c)[0]);
      }
    }
    forall t | Eligible(k, lim, t) ensures Bucket(k, lim) == Some(t.Needs()) {
    }
    if t :| Eligible(k, lim, t) && t.Class() == c { assert t in Select(k.queue, t.Needs(), c); }
  }

  lemma FirstIsEligible(k: Core, lim: Limits, c: TaskClass)
    requires k.queue != [] && k.inFlight <= lim.maxSegments
    requires Bucket(k, lim).Some? && Claimable(k, lim, Bucket(k, lim).value, c)
    ensures var t := Select(k.queue, Bucket(k, lim).value, c)[0]; Eligible(k, lim, t) && t.Class() == c
  {
    var i := TakesFirst(k.queue, Bucket(k, lim).value, c);
    BucketIsFit(k, lim);
    hide Bucket, Select, Remove;
  }

  /** Which task a claim takes: an eligible one, of the first class in turn that has any. It waits only
      when there is none, and quits only when all work is done. */
  lemma ClaimIsEligible(k: Core, lim: Limits)
    requires k.inFlight <= lim.maxSegments
    ensures ClaimTask(k, lim).Claimed? <==> exists t :: Eligible(k, lim, t)
    ensures ClaimTask(k, lim).Quit? <==> k.queue == [] && k.working == 0
    ensures ClaimTask(k, lim).Claimed? ==>
      var t := ClaimTask(k, lim).task;
      && Eligible(k, lim, t)
      && forall u :: Eligible(k, lim, u) ==> Turn(t.Class()) <= Turn(u.Class())
  {
    if k.queue != [] {
      ClaimableIsEligible(k, lim, Unbound);
      ClaimableIsEligible(k, lim, CpuBound);
      ClaimableIsEligible(k, lim, IoBound);
      forall c | Bucket(k, lim).Some? && Claimable(k, lim, Bucket(k, lim).value, c)
        ensures var t := Select(k.queue, Bucket(k, lim).value, c)[0]; Eligible(k, lim, t) && t.Class() == c
      {
        FirstIsEligible(k, lim, c);
      }
      hide Eligible, Bucket, Claimable, Select, Remove;
    }
  }

  /** Of the tasks of its class and demand, a claim takes the first in the queue. */
  lemma ClaimTakesFirst(k: Core, lim: Limits) returns (i: nat)
    requires k.inFlight <= lim.maxSegments && ClaimTask(k, lim).Claimed?
    ensures i < |k.queue| && k.queue[i] == ClaimTask(k, lim).task
    ensures ClaimTask(k, lim).core.queue == k.queue[..i] + k.queue[i + 1..]
    ensures forall j :: 0 <= j < i ==>
      k.queue[j].Needs() != k.queue[i].Needs() || k.queue[j].Class() != k.queue[i].Class()
  {
    var n := Bucket(k, lim).value;
    var c := if Claimable(k, lim, n, Unbound) then Unbound
             else if Claimable(k, lim, n, CpuBound) then CpuBound else IoBound;
    i := TakesFirst(k.queue, n, c);
  }

  /** With nobody working and either every segment free or a queued task that needs none, the
      largest-then-smallest search cannot fail. */
  lemma IdlePoolCanClaim(k: Core, lim: Limits)
    requires k.queue != [] && k.inFlight <= lim.maxSegments
    requires forall c :: lim.Of(c) >= 1
    requires forall t :: t in k.queue ==> t.Class() in k.running && k.running[t.Class()] == 0
    requires forall t :: t in k.queue ==> t.Needs() <= lim.maxSegments
    requires k.inFlight == 0 || exists t :: t in k.queue && t.Needs() == 0
    ensures ClaimTask(k, lim).Claimed?
  {
    var n := Bucket(k, lim).value;
    var t :| t in k.queue && t.Needs() == n;
    SelectMembers(k.queue, n, t.Class());
    assert t in Select(k.queue, n, t.Class());
    assert lim.Of(t.Class()) >= 1;
    assert Claimable(k, lim, n, t.Class());
  }
}
