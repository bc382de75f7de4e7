/** The weight of a state of the scheduler. Spawning lowers the rank and attempts are bounded, so the
    weight falls lexicographically with every step but two: a spurious wake-up, and a planning loop that
    schedules a pump of no segments. */
module AgendaWeights {
  import opened Tasks
  import opened AgendaCore
  import opened AgendaSystem
  import opened AgendaSafety

  const QUEUED: nat := 2 * TRIES + 2

  function TaskWeight(t: Task, r: nat): nat { if Rank(t.kind) == r then 1 else 0 }

  function CountRank(q: seq<Task>, r: nat): nat {
    if q == [] then 0 else TaskWeight(q[0], r) + CountRank(q[1..], r)
  }

  lemma {:induction false} CountRankInsert(q: seq<Task>, t: Task, r: nat)
    ensures CountRank(Insert(q, t), r) == CountRank(q, r) + TaskWeight(t, r)
  {
    if q == [] || t.ordinal < q[0].ordinal {
      assert ([t] + q)[1..] == q;
    } else {
      CountRankInsert(q[1..], t, r);
      assert ([q[0]] + Insert(q[1..], t))[1..] == Insert(q[1..], t);
    }
  }

  lemma {:induction false} CountRankRemove(q: seq<Task>, n: nat, c: TaskClass, r: nat)
    requires Select(q, n, c) != []
    ensures CountRank(q, r) == CountRank(Remove(q, n, c), r) + TaskWeight(Select(q, n, c)[0], r)
  {
    if !InBucket(q[0], n, c) {
      CountRankRemove(q[1..], n, c, r);
      assert ([q[0]] + Remove(q[1..], n, c))[1..] == Remove(q[1..], n, c);
    }
  }

  lemma CountRankClaim(k: Core, lim: Limits, r: nat)
    requires k.inFlight <= lim.maxSegments && ClaimTask(k, lim).Claimed?
    ensures CountRank(k.queue, r)
         == CountRank(ClaimTask(k, lim).core.queue, r) + TaskWeight(ClaimTask(k, lim).task, r)
  {
    var n := Bucket(k, lim).value;
    var c := if Claimable(k, lim, n, Unbound) then Unbound
             else if Claimable(k, lim, n, CpuBound) then CpuBound else IoBound;
    CountRankRemove(k.queue, n, c, r);
  }

  /** How many tasks of a rank a script still schedules, at most. */
  function ScriptRank(sc: Script, r: nat): nat {
    match sc
    case Listed(todo) => CountRank(todo, r)
    case Planning(parts, next, _) => if r == Rank(Pump(0)) && next < parts then parts - next else 0
  }

  /** A running task still owes its remaining attempts at its own rank, and the tasks it is about to
      schedule at theirs. */
  function WorkAt(r: nat): Worker -> nat {
    (w: Worker) => match w
      case Between(t, _, tries) => if Rank(t.kind) == r then 2 * tries + 1 else 0
      case Attempting(t, _, tries, script) =>
        (if Rank(t.kind) == r then 2 * tries + 2 else 0) + (QUEUED + 1) * ScriptRank(script, r)
      case _ => 0
  }

  function DrainWork(): Worker -> nat { (w: Worker) => if w.Draining? then |w.held| + 1 else 0 }

  function IdleWork(): Worker -> nat { (w: Worker) => if w.Idle? then 1 else 0 }

  /** The weight at one level: the claimers at the bottom, then what is left to drop, then the work
      owed at each rank. */
  ghost function Weight(s: Sys, level: nat): nat {
    if level == 0 then Total(s.workers, IdleWork())
    else if level == 1 then Total(s.workers, DrainWork())
    else QUEUED * CountRank(s.core.queue, level - 2) + Total(s.workers, WorkAt(level - 2))
  }

  ghost predicate FallsAt(s: Sys, s': Sys, level: nat) {
    Weight(s', level) < Weight(s, level) && forall k: nat :: level < k ==> Weight(s', k) == Weight(s, k)
  }

  /** What the queue and one worker contribute to the work at a rank. */
  function Share(q: seq<Task>, w: Worker, r: nat): nat {
    QUEUED * CountRank(q, r) + WorkAt(r)(w)
  }

  function ShareBefore(lim: Limits, s: Sys, a: Action, r: nat): nat
    requires Enabled(lim, s, a)
  {
    Share(s.core.queue, s.workers[a.w], r)
  }

  ghost function ShareAfter(lim: Limits, s: Sys, a: Action, r: nat): nat
    requires Enabled(lim, s, a)
  {
    Share(NewCore(lim, s, a).queue, NewWorker(lim, s, a), r)
  }

  lemma WorkLevel(lim: Limits, s: Sys, a: Action, r: nat)
    requires Enabled(lim, s, a)
    ensures Weight(Apply(lim, s, a), r + 2) + ShareBefore(lim, s, a, r)
         == Weight(s, r + 2) + ShareAfter(lim, s, a, r)
  {
    StepTotal(lim, s, a, WorkAt(r));
  }

  lemma {:induction false} CountRankZero(q: seq<Task>, r: nat)
    requires forall t :: t in q ==> Rank(t.kind) != r
    ensures CountRank(q, r) == 0
  {
    if q != [] {
      assert q[0] in q;
      CountRankZero(q[1..], r);
    }
  }

  /** The level at which a step makes the weight fall. */
  function FallLevel(lim: Limits, s: Sys, a: Action): nat
    requires Enabled(lim, s, a) && !a.Spurious?
  {
    match a
    case Claim(_) => Rank(ClaimTask(s.core, lim).task.kind) + 2
    case Begin(_, _) => Rank(s.workers[a.w].task.kind) + 2
    case Retry(_) => Rank(s.workers[a.w].task.kind) + 2
    case Finish(_, _, _) => Rank(s.workers[a.w].task.kind) + 2
    case Spawn(_, _) => Rank(NextTask(s.workers[a.w].script).kind) + 2
    case Drop(_, _, _) => 1
    case Recycle(_) => 1
    case Sleep(_) => 0
    case Leave(_) => 0
  }

  /** A planning loop that schedules a pump without moving on. */
  predicate Stalls(s: Sys, a: Action) {
    && a.Spawn? && a.w < |s.workers| && s.workers[a.w].Attempting?
    && s.workers[a.w].script.Planning? && s.workers[a.w].script.perPump == 0
  }

  /** The steps that make the weight fall. */
  predicate Productive(s: Sys, a: Action) { !a.Spurious? && !Stalls(s, a) }

  /** What an attempt is still about to schedule has a lower rank. */
  lemma ScriptIsLower(lim: Limits, t: Task, held: set<nat>, sc: Script, r: nat)
    requires ScriptOk(lim, t, held, sc) && r >= Rank(t.kind)
    ensures ScriptRank(sc, r) == 0
  {
    if sc.Listed? {
      forall x | x in sc.todo ensures Rank(x.kind) != r { SpawnLowersRank(t.kind, x.kind); }
      CountRankZero(sc.todo, r);
    }
  }

  lemma PendingIsLower(lim: Limits, s: Sys, w: nat, r: nat)
    requires TasksOk(lim, s) && w < |s.workers| && s.workers[w].Attempting?
    requires r >= Rank(s.workers[w].task.kind)
    ensures ScriptRank(s.workers[w].script, r) == 0
  {
    var me := s.workers[w];
    assert WorkerOk(lim, s.core.running, me);
    ScriptIsLower(lim, me.task, me.held, me.script, r);
  }

  /** Scheduling the next task takes it out of the script. */
  lemma ScriptFalls(sc: Script, r: nat)
    requires More(sc) && (sc.Planning? ==> sc.perPump > 0)
    ensures ScriptRank(AfterNext(sc), r) + TaskWeight(NextTask(sc), r) <= ScriptRank(sc, r)
    ensures Rank(NextTask(sc).kind) != r ==> ScriptRank(AfterNext(sc), r) == ScriptRank(sc, r)
  {
  }

  lemma TakingATask(q: seq<Task>, q': seq<Task>, t: Task, held: set<nat>, r: nat)
    requires CountRank(q, r) == CountRank(q', r) + TaskWeight(t, r)
    ensures Rank(t.kind) == r ==> Share(q', Between(t, held, TRIES), r) < Share(q, Idle, r)
    ensures Rank(t.kind) != r ==> Share(q', Between(t, held, TRIES), r) == Share(q, Idle, r)
  {
    hide CountRank, Rank, ScriptRank;
    assert Share(q, Idle, r) == QUEUED * CountRank(q, r);
    assert Share(q', Between(t, held, TRIES), r)
        == QUEUED * CountRank(q', r) + (if Rank(t.kind) == r then 2 * TRIES + 1 else 0);
  }

  lemma ClaimShares(lim: Limits, s: Sys, a: Action, r: nat)
    requires TasksOk(lim, s) && Enabled(lim, s, a) && a.Claim? && r + 2 >= FallLevel(lim, s, a)
    ensures r + 2 == FallLevel(lim, s, a) ==> ShareAfter(lim, s, a, r) < ShareBefore(lim, s, a, r)
    ensures r + 2 > FallLevel(lim, s, a) ==> ShareAfter(lim, s, a, r) == ShareBefore(lim, s, a, r)
  {
    CountRankClaim(s.core, lim, r);
    TakingATask(s.core.queue, NewCore(lim, s, a).queue, ClaimTask(s.core, lim).task,
                NewWorker(lim, s, a).held, r);
  }

  lemma SpawnShares(lim: Limits, s: Sys, a: Action, r: nat)
    requires Enabled(lim, s, a) && a.Spawn? && !Stalls(s, a) && r + 2 >= FallLevel(lim, s, a)
    ensures r + 2 == FallLevel(lim, s, a) ==> ShareAfter(lim, s, a, r) < ShareBefore(lim, s, a, r)
    ensures r + 2 > FallLevel(lim, s, a) ==> ShareAfter(lim, s, a, r) == ShareBefore(lim, s, a, r)
  {
    hide ClaimTask, Refs, Cleanup, Grant, CanWake, CanCleanup, Insert, ScriptOk, CountRank;
    var me := s.workers[a.w];
    CountRankInsert(s.core.queue, NextTask(me.script), r);
    ScriptFalls(me.script, r);
  }

  lemma BeginShares(lim: Limits, s: Sys, a: Action, r: nat)
    requires TasksOk(lim, s) && Enabled(lim, s, a) && a.Begin? && r + 2 >= FallLevel(lim, s, a)
    ensures r + 2 == FallLevel(lim, s, a) ==> ShareAfter(lim, s, a, r) < ShareBefore(lim, s, a, r)
    ensures r + 2 > FallLevel(lim, s, a) ==> ShareAfter(lim, s, a, r) == ShareBefore(lim, s, a, r)
  {
    var me := s.workers[a.w];
    ScriptIsLower(lim, me.task, me.held, a.script, r);
  }

  lemma EndShares(lim: Limits, s: Sys, a: Action, r: nat)
    requires TasksOk(lim, s) && Enabled(lim, s, a) && (a.Retry? || a.Finish?) && r + 2 >= FallLevel(lim, s, a)
    ensures r + 2 == FallLevel(lim, s, a) ==> ShareAfter(lim, s, a, r) < ShareBefore(lim, s, a, r)
    ensures r + 2 > FallLevel(lim, s, a) ==> ShareAfter(lim, s, a, r) == ShareBefore(lim, s, a, r)
  {
    PendingIsLower(lim, s, a.w, r);
  }

  /** How the queue's share and the acting worker's share of the work at one rank change. */
  lemma WorkShares(lim: Limits, s: Sys, a: Action, r: nat)
    requires TasksOk(lim, s) && Enabled(lim, s, a) && Productive(s, a) && r + 2 >= FallLevel(lim, s, a)
    ensures r + 2 == FallLevel(lim, s, a) ==> ShareAfter(lim, s, a, r) < ShareBefore(lim, s, a, r)
    ensures r + 2 > FallLevel(lim, s, a) ==> ShareAfter(lim, s, a, r) == ShareBefore(lim, s, a, r)
  {
    match a
    case Claim(_) => ClaimShares(lim, s, a, r);
    case Begin(_, _) => BeginShares(lim, s, a, r);
    case Spawn(_, _) => SpawnShares(lim, s, a, r);
    case Retry(_) => EndShares(lim, s, a, r);
    case Finish(_, _, _) => EndShares(lim, s, a, r);
    case _ =>
  }

  lemma LowLevels(lim: Limits, s: Sys, a: Action)
    requires Enabled(lim, s, a) && Productive(s, a)
    ensures FallLevel(lim, s, a) <= 1 ==>
      Weight(Apply(lim, s, a), FallLevel(lim, s, a)) < Weight(s, FallLevel(lim, s, a))
    ensures FallLevel(lim, s, a) == 0 ==> Weight(Apply(lim, s, a), 1) == Weight(s, 1)
  {
    StepTotal(lim, s, a, DrainWork());
    if a.Sleep? || a.Leave? {
      TotalUpdate(s.workers, a.w, NewWorker(lim, s, a), IdleWork());
    }
    if a.Drop? {
      var held := s.workers[a.w].held;
      assert |held - {a.segment}| == |held| - 1;
    }
  }

  lemma HighLevel(lim: Limits, s: Sys, a: Action, k: nat)
    requires TasksOk(lim, s) && Enabled(lim, s, a) && Productive(s, a)
    requires k >= 2 && k >= FallLevel(lim, s, a)
    ensures k == FallLevel(lim, s, a) ==> Weight(Apply(lim, s, a), k) < Weight(s, k)
    ensures k > FallLevel(lim, s, a) ==> Weight(Apply(lim, s, a), k) == Weight(s, k)
  {
    hide *;
    WorkLevel(lim, s, a, k - 2);
    WorkShares(lim, s, a, k - 2);
  }

  /** Every productive step lowers the weight at one level and leaves every
      higher level alone. */
  lemma StepFalls(lim: Limits, s: Sys, a: Action)
    requires TasksOk(lim, s) && Enabled(lim, s, a) && Productive(s, a)
    ensures FallsAt(s, Apply(lim, s, a), FallLevel(lim, s, a))
  {
    var l := FallLevel(lim, s, a);
    LowLevels(lim, s, a);
    forall k: nat | k >= 2 && k >= l { HighLevel(lim, s, a, k); }
  }

  // ---------- ranks never grow ----------

  ghost predicate RanksBelow(s: Sys, top: nat) {
    && (forall t :: t in s.core.queue ==> Rank(t.kind) < top)
    && (forall i :: 0 <= i < |s.workers| && Busy(s.workers[i]) ==> Rank(s.workers[i].task.kind) < top)
  }

  lemma RanksStep(lim: Limits, s: Sys, a: Action, top: nat)
    requires ConfigOk(lim) && TasksOk(lim, s) && Enabled(lim, s, a) && RanksBelow(s, top)
    ensures RanksBelow(Apply(lim, s, a), top)
  {
    if a.Claim? { ClaimedFacts(s.core, lim); }
    if a.Spawn? {
      SpawnedIsOk(lim, s, a);
      var me := s.workers[a.w];
      SpawnLowersRank(me.task.kind, NextTask(me.script).kind);
      InsertContents(s.core.queue, NextTask(me.script));
    }
    forall i | 0 <= i < |s.workers| { StepWorkers(lim, s, a, i); }
    StepWakes(lim, s, a);
  }

  lemma FallIsBelow(lim: Limits, s: Sys, a: Action, top: nat)
    requires ConfigOk(lim) && TasksOk(lim, s) && Enabled(lim, s, a) && !a.Spurious? && RanksBelow(s, top)
    ensures FallLevel(lim, s, a) < top + 2
  {
    if a.Claim? { ClaimedFacts(s.core, lim); }
    if a.Spawn? {
      SpawnedIsOk(lim, s, a);
      SpawnLowersRank(s.workers[a.w].task.kind, NextTask(s.workers[a.w].script).kind);
    }
  }
}
