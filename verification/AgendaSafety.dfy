/** Every step keeps the scheduler's invariant, and the invariant rules out deadlock. */
module AgendaSafety {
  import opened Tasks
  import opened AgendaCore
  import opened AgendaSystem
  import opened Wrappers

  // ---------- counters ----------

  lemma BusyCoversClass(ws: seq<Worker>, i: nat)
    requires i < |ws| && Busy(ws[i])
    ensures Total(ws, IsBusy()) > 0 && Total(ws, IsBusyIn(ws[i].task.Class())) > 0
  {
    assert IsBusy()(ws[i]) > 0 && IsBusyIn(ws[i].task.Class())(ws[i]) > 0;
    TotalPositive(ws, IsBusy());
    TotalPositive(ws, IsBusyIn(ws[i].task.Class()));
  }

  lemma ClassCountStep(lim: Limits, s: Sys, a: Action, c: TaskClass)
    requires CountsOk(lim, s) && Enabled(lim, s, a)
    ensures var running := NewCore(lim, s, a).running;
      && Total(NewWorkers(lim, s, a), IsBusyIn(c)) == (if c in running then running[c] else 0)
      && (c in running ==> running[c] <= lim.Of(c))
  {
    StepTotal(lim, s, a, IsBusyIn(c));
    assert Total(s.workers, IsBusyIn(c)) == if c in s.core.running then s.core.running[c] else 0;
    if a.Claim? { ClaimedFacts(s.core, lim); }
  }

  lemma {:induction false} BusySplitsByClass(ws: seq<Worker>)
    ensures Total(ws, IsBusy()) == Total(ws, IsBusyIn(Unbound)) + Total(ws, IsBusyIn(CpuBound))
                                 + Total(ws, IsBusyIn(IoBound))
  {
    if ws != [] { BusySplitsByClass(ws[1..]); }
  }

  /** The class counters add up to the number of threads at work. */
  lemma ClassesAddUp(lim: Limits, s: Sys)
    requires CountsOk(lim, s)
    ensures s.core.working == Running(s.core, Unbound) + Running(s.core, CpuBound) + Running(s.core, IoBound)
  {
    BusySplitsByClass(s.workers);
    assert forall c :: Total(s.workers, IsBusyIn(c)) == Running(s.core, c);
  }

  lemma ClassesKeepLimits(lim: Limits, s: Sys)
    requires CountsOk(lim, s)
    ensures Running(s.core, Unbound) <= lim.unbound && Running(s.core, CpuBound) <= lim.cpu
    ensures Running(s.core, IoBound) <= lim.io
  {
    hide Total;
    assert forall c :: c in s.core.running ==> s.core.running[c] <= lim.Of(c);
  }

  lemma CountsStep(lim: Limits, s: Sys, a: Action)
    requires CountsOk(lim, s) && Enabled(lim, s, a)
    ensures CountsOk(lim, Apply(lim, s, a))
    ensures var k := Apply(lim, s, a).core;
      k.working == Running(k, Unbound) + Running(k, CpuBound) + Running(k, IoBound)
  {
    hide Insert, Select, Remove, Refs, MaxNeeds, MinNeeds, ScriptOk, Grant, Total;
    StepTotal(lim, s, a, IsBusy());
    forall c { ClassCountStep(lim, s, a, c); }
    if a.Claim? { ClaimedFacts(s.core, lim); }
    ClassesAddUp(lim, Apply(lim, s, a));
  }

  /** A task that has been claimed can always be counted as done. */
  lemma BusyCanCleanup(lim: Limits, s: Sys, i: nat)
    requires CountsOk(lim, s) && i < |s.workers| && Busy(s.workers[i])
    ensures CanCleanup(s.core, s.workers[i].task.Class())
  {
    BusyCoversClass(s.workers, i);
  }

  // ---------- task discipline ----------

  lemma StepWorkers(lim: Limits, s: Sys, a: Action, i: nat)
    requires Enabled(lim, s, a) && i < |s.workers|
    ensures |NewWorkers(lim, s, a)| == |s.workers|
    ensures var w := NewWorkers(lim, s, a)[i];
      if i == a.w then w == NewWorker(lim, s, a) || (NewWorker(lim, s, a).Asleep? && w.Idle?)
      else w == s.workers[i] || (s.workers[i].Asleep? && w.Idle?)
  {
    StepWakes(lim, s, a);
  }

  lemma SpawnedIsOk(lim: Limits, s: Sys, a: Action)
    requires ConfigOk(lim) && TasksOk(lim, s) && Enabled(lim, s, a) && a.Spawn?
    ensures var t := NextTask(s.workers[a.w].script);
      && SpawnOk(lim, s.workers[a.w].task, s.workers[a.w].held, t)
  {
    var me := s.workers[a.w];
    assert WorkerOk(lim, s.core.running, me);
    if me.script.Listed? { assert NextTask(me.script) in me.script.todo; }
  }

  lemma QueueStep(lim: Limits, s: Sys, a: Action)
    requires ConfigOk(lim) && TasksOk(lim, s) && Enabled(lim, s, a)
    ensures s.core.running.Keys <= NewCore(lim, s, a).running.Keys
    ensures forall t :: t in NewCore(lim, s, a).queue ==>
      TaskOk(t, lim.maxSegments) && t.Class() in NewCore(lim, s, a).running
  {
    if a.Claim? { ClaimedFacts(s.core, lim); }
    if a.Spawn? {
      SpawnedIsOk(lim, s, a);
      InsertContents(s.core.queue, NextTask(s.workers[a.w].script));
    }
  }

  lemma NewWorkerOk(lim: Limits, s: Sys, a: Action)
    requires ConfigOk(lim) && TasksOk(lim, s) && Enabled(lim, s, a)
    ensures WorkerOk(lim, NewCore(lim, s, a).running, NewWorker(lim, s, a))
  {
    QueueStep(lim, s, a);
    assert WorkerOk(lim, s.core.running, s.workers[a.w]);
    if a.Claim? { ClaimedFacts(s.core, lim); }
  }

  lemma TasksStep(lim: Limits, s: Sys, a: Action)
    requires ConfigOk(lim) && TasksOk(lim, s) && Enabled(lim, s, a)
    ensures TasksOk(lim, Apply(lim, s, a))
  {
    QueueStep(lim, s, a);
    NewWorkerOk(lim, s, a);
    var s' := Apply(lim, s, a);
    forall i | 0 <= i < |s'.workers|
      ensures WorkerOk(lim, s'.core.running, s'.workers[i])
    {
      StepWakes(lim, s, a);
      StepWorkers(lim, s, a, i);
      assert WorkerOk(lim, s.core.running, s.workers[i]);
    }
  }

  // ---------- segments ----------

  lemma QueueRefsAdd(q: seq<Task>, t: Task, q': seq<Task>)
    requires forall x :: x in q' <==> x in q || x == t
    ensures QueueRefs(q') == QueueRefs(q) + t.segs
  {
  }

  ghost function OtherRefs(ws: seq<Worker>, w: nat): set<nat> {
    set i, s | 0 <= i < |ws| && i != w && s in Held(ws[i]) :: s
  }

  lemma WorkerRefsUpdate(ws: seq<Worker>, w: nat, new': Worker)
    requires w < |ws|
    ensures WorkerRefs(ws) == Held(ws[w]) + OtherRefs(ws, w)
    ensures WorkerRefs(ws[w := new']) == Held(new') + OtherRefs(ws, w)
  {
    var ws' := ws[w := new'];
    assert forall i :: 0 <= i < |ws| && i != w ==> ws'[i] == ws[i];
    forall x
      ensures x in WorkerRefs(ws') <==> x in Held(new') + OtherRefs(ws, w)
    {
      if x in Held(new') { assert x in Held(ws'[w]); }
      if x in OtherRefs(ws, w) {
        var i :| 0 <= i < |ws| && i != w && x in Held(ws[i]);
        assert x in Held(ws'[i]);
      }
    }
  }

  lemma WokenRefs(ws: seq<Worker>, ws': seq<Worker>)
    requires Woken(ws, ws')
    ensures WorkerRefs(ws) == WorkerRefs(ws')
  {
    assert forall i :: 0 <= i < |ws| ==> Held(ws[i]) == Held(ws'[i]);
  }

  /** What the workers refer to before and after a step. */
  lemma WorkerRefsStep(lim: Limits, s: Sys, a: Action)
    requires Enabled(lim, s, a)
    ensures var others := OtherRefs(s.workers, a.w);
      && WorkerRefs(s.workers) == Held(s.workers[a.w]) + others
      && WorkerRefs(Moved(lim, s, a)) == Held(NewWorker(lim, s, a)) + others
      && WorkerRefs(NewWorkers(lim, s, a)) == Held(NewWorker(lim, s, a)) + others
  {
    WorkerRefsUpdate(s.workers, a.w, NewWorker(lim, s, a));
    StepWakes(lim, s, a);
    WokenRefs(Moved(lim, s, a), NewWorkers(lim, s, a));
  }

  ghost function RefsAfter(lim: Limits, s: Sys, a: Action): set<nat>
    requires Enabled(lim, s, a)
  {
    Refs(NewCore(lim, s, a).queue, NewWorkers(lim, s, a))
  }

  lemma RefsClaimed(lim: Limits, s: Sys, a: Action)
    requires Enabled(lim, s, a) && a.Claim?
    ensures RefsAfter(lim, s, a)
         == Refs(s.core.queue, s.workers) + Grant(s.nextSegment, ClaimTask(s.core, lim).task.Needs())
  {
    ClaimedFacts(s.core, lim);
    QueueRefsAdd(NewCore(lim, s, a).queue, ClaimTask(s.core, lim).task, s.core.queue);
    WorkerRefsStep(lim, s, a);
  }

  /** A spawned task refers only to segments its parent holds. */
  lemma RefsSpawned(lim: Limits, s: Sys, a: Action)
    requires ConfigOk(lim) && TasksOk(lim, s) && Enabled(lim, s, a) && a.Spawn?
    ensures RefsAfter(lim, s, a) == Refs(s.core.queue, s.workers)
  {
    var t := NextTask(s.workers[a.w].script);
    SpawnedIsOk(lim, s, a);
    InsertContents(s.core.queue, t);
    QueueRefsAdd(s.core.queue, t, NewCore(lim, s, a).queue);
    WorkerRefsStep(lim, s, a);
  }

  lemma RefsUnchanged(lim: Limits, s: Sys, a: Action)
    requires Enabled(lim, s, a) && !a.Claim? && !a.Spawn? && !a.Drop?
    ensures RefsAfter(lim, s, a) == Refs(s.core.queue, s.workers)
    ensures NewCore(lim, s, a).inFlight == s.core.inFlight
  {
    WorkerRefsStep(lim, s, a);
    assert Held(NewWorker(lim, s, a)) == Held(s.workers[a.w]);
  }

  /** Dropping a reference frees the segment exactly when it was the last one. */
  lemma RefsDropped(lim: Limits, s: Sys, a: Action)
    requires Enabled(lim, s, a) && a.Drop?
    ensures var before := Refs(s.core.queue, s.workers);
      && a.segment in before
      && RefsAfter(lim, s, a) == Refs(s.core.queue, Moved(lim, s, a))
      && (if a.segment in RefsAfter(lim, s, a) then RefsAfter(lim, s, a) == before
          else RefsAfter(lim, s, a) == before - {a.segment})
  {
    WorkerRefsStep(lim, s, a);
    assert NewCore(lim, s, a).queue == s.core.queue;
  }

  lemma SegmentsClaimed(lim: Limits, s: Sys, a: Action)
    requires SegmentsOk(lim, s) && Enabled(lim, s, a) && a.Claim?
    ensures SegmentsOk(lim, Apply(lim, s, a))
  {
    ClaimedFacts(s.core, lim);
    RefsClaimed(lim, s, a);
    var before, n := Refs(s.core.queue, s.workers), ClaimTask(s.core, lim).task.Needs();
    assert before !! Grant(s.nextSegment, n);
    assert |before + Grant(s.nextSegment, n)| == |before| + n;
  }

  lemma SegmentsDropped(lim: Limits, s: Sys, a: Action)
    requires SegmentsOk(lim, s) && Enabled(lim, s, a) && a.Drop?
    ensures SegmentsOk(lim, Apply(lim, s, a))
  {
    RefsDropped(lim, s, a);
    var before := Refs(s.core.queue, s.workers);
    assert |before - {a.segment}| == |before| - 1;
  }

  lemma SegmentsStep(lim: Limits, s: Sys, a: Action)
    requires ConfigOk(lim) && TasksOk(lim, s) && SegmentsOk(lim, s) && Enabled(lim, s, a)
    ensures SegmentsOk(lim, Apply(lim, s, a))
  {
    if a.Claim? {
      SegmentsClaimed(lim, s, a);
    } else if a.Drop? {
      SegmentsDropped(lim, s, a);
    } else if a.Spawn? {
      RefsSpawned(lim, s, a);
    } else {
      RefsUnchanged(lim, s, a);
    }
  }

  // ---------- accounting ----------

  lemma QueueCountStep(lim: Limits, s: Sys, a: Action, t: Task)
    requires Enabled(lim, s, a)
    ensures multiset(NewCore(lim, s, a).queue)[t]
         + (if a.Claim? && ClaimTask(s.core, lim).task == t then 1 else 0)
         == multiset(s.core.queue)[t] + (if a.Spawn? && NextTask(s.workers[a.w].script) == t then 1 else 0)
  {
    if a.Claim? { ClaimedFacts(s.core, lim); }
    if a.Spawn? { InsertContents(s.core.queue, NextTask(s.workers[a.w].script)); }
  }

  lemma TaskMoves(lim: Limits, s: Sys, a: Action, t: Task)
    requires Enabled(lim, s, a)
    ensures IsAt(t)(NewWorker(lim, s, a)) + (if a.Finish? && s.workers[a.w].task == t then 1 else 0)
         == IsAt(t)(s.workers[a.w]) + (if a.Claim? && ClaimTask(s.core, lim).task == t then 1 else 0)
  {
  }

  lemma LogsMove(lim: Limits, s: Sys, a: Action, t: Task)
    requires Enabled(lim, s, a)
    ensures Apply(lim, s, a).submittedLog[t]
         == s.submittedLog[t] + (if a.Spawn? && NextTask(s.workers[a.w].script) == t then 1 else 0)
    ensures Apply(lim, s, a).doneLog[t] == s.doneLog[t] + (if a.Finish? && s.workers[a.w].task == t then 1 else 0)
  {
  }

  lemma TaskCountStep(lim: Limits, s: Sys, a: Action, t: Task)
    requires AccountsOk(s) && Enabled(lim, s, a)
    ensures var s' := Apply(lim, s, a);
      s'.submittedLog[t] == multiset(s'.core.queue)[t] + Total(s'.workers, IsAt(t)) + s'.doneLog[t]
  {
    StepTotal(lim, s, a, IsAt(t));
    QueueCountStep(lim, s, a, t);
    TaskMoves(lim, s, a, t);
    LogsMove(lim, s, a, t);
    assert Apply(lim, s, a).core == NewCore(lim, s, a) && Apply(lim, s, a).workers == NewWorkers(lim, s, a);
    hide *;
    assert s.submittedLog[t] == multiset(s.core.queue)[t] + Total(s.workers, IsAt(t)) + s.doneLog[t];
  }

  lemma AccountsStep(lim: Limits, s: Sys, a: Action)
    requires AccountsOk(s) && Enabled(lim, s, a)
    ensures AccountsOk(Apply(lim, s, a))
  {
    forall t { TaskCountStep(lim, s, a, t); }
    if a.Claim? { ClaimedFacts(s.core, lim); }
    if a.Spawn? { InsertContents(s.core.queue, NextTask(s.workers[a.w].script)); }
  }

  // ---------- wake-ups ----------

  lemma NobodyBusy(lim: Limits, s: Sys)
    requires CountsOk(lim, s) && s.core.working == 0
    ensures forall i :: 0 <= i < |s.workers| ==> !Busy(s.workers[i])
    ensures forall c :: c in s.core.running ==> s.core.running[c] == 0
  {
    TotalPositive(s.workers, IsBusy());
    forall i | 0 <= i < |s.workers|
      ensures !Busy(s.workers[i])
    {
      assert IsBusy()(s.workers[i]) == 0;
    }
    forall c | c in s.core.running
      ensures s.core.running[c] == 0
    {
      TotalPositive(s.workers, IsBusyIn(c));
      assert Total(s.workers, IsBusyIn(c)) == s.core.running[c];
    }
  }

  /** When nobody works or drains, the segments in flight are held by queued tasks, and those need
      none themselves: so the search for a task succeeds. */
  lemma RestingPoolCanClaim(lim: Limits, s: Sys)
    requires ConfigOk(lim) && CountsOk(lim, s) && TasksOk(lim, s) && SegmentsOk(lim, s)
    requires s.core.queue != [] && s.core.working == 0
    requires forall i :: 0 <= i < |s.workers| ==> !s.workers[i].Draining?
    ensures ClaimTask(s.core, lim).Claimed?
  {
    NobodyBusy(lim, s);
    assert WorkerRefs(s.workers) == {};
    if s.core.inFlight != 0 {
      assert QueueRefs(s.core.queue) != {};
      var x :| x in QueueRefs(s.core.queue);
      var t :| t in s.core.queue && x in t.segs;
      assert t.Needs() == 0;
    }
    IdlePoolCanClaim(s.core, lim);
  }

  lemma SleeperLeavesSomebodyAwake(lim: Limits, s: Sys, a: Action)
    requires ConfigOk(lim) && CountsOk(lim, s) && TasksOk(lim, s) && SegmentsOk(lim, s)
    requires Enabled(lim, s, a) && a.Sleep?
    ensures exists i :: 0 <= i < |s.workers| && i != a.w && Awake(s.workers[i])
  {
    if s.core.working > 0 {
      TotalPositive(s.workers, IsBusy());
      var i :| 0 <= i < |s.workers| && IsBusy()(s.workers[i]) > 0;
      assert i != a.w && Awake(s.workers[i]);
    } else if forall i :: 0 <= i < |s.workers| ==> !s.workers[i].Draining? {
      RestingPoolCanClaim(lim, s);
    } else {
      var i :| 0 <= i < |s.workers| && s.workers[i].Draining?;
      assert i != a.w && Awake(s.workers[i]);
    }
  }

  lemma ActorStaysAwake(lim: Limits, s: Sys, a: Action)
    requires Enabled(lim, s, a) && !a.Sleep? && !a.Leave?
    ensures |NewWorkers(lim, s, a)| == |s.workers| && Awake(NewWorkers(lim, s, a)[a.w])
  {
    StepWorkers(lim, s, a, a.w);
  }

  lemma StepStaysAwake(lim: Limits, s: Sys, a: Action)
    requires ConfigOk(lim) && CountsOk(lim, s) && TasksOk(lim, s) && SegmentsOk(lim, s)
    requires Enabled(lim, s, a) && !a.Leave?
    ensures var ws := NewWorkers(lim, s, a); exists i :: 0 <= i < |ws| && Awake(ws[i])
  {
    if a.Sleep? {
      SleeperLeavesSomebodyAwake(lim, s, a);
      var i :| 0 <= i < |s.workers| && i != a.w && Awake(s.workers[i]);
      assert NewWorkers(lim, s, a)[i] == s.workers[i];
    } else {
      ActorStaysAwake(lim, s, a);
    }
  }

  /** Quiescence is only left by nobody, and only reached by counting the last task as done. */
  lemma QuiescenceStep(lim: Limits, s: Sys, a: Action)
    requires CountsOk(lim, s) && Enabled(lim, s, a)
    ensures Quiescent(s.core) ==> Quiescent(NewCore(lim, s, a))
    ensures Quiescent(NewCore(lim, s, a)) && !a.Finish? ==> Quiescent(s.core)
  {
    if a.Claim? { ClaimedFacts(s.core, lim); }
    if a.Spawn? {
      BusyCoversClass(s.workers, a.w);
      InsertContents(s.core.queue, NextTask(s.workers[a.w].script));
    }
    if a.Finish? { BusyCoversClass(s.workers, a.w); }
  }

  lemma NoSleeperAtRest(lim: Limits, s: Sys, a: Action)
    requires CountsOk(lim, s) && WakesOk(s) && Enabled(lim, s, a) && Quiescent(NewCore(lim, s, a))
    ensures var ws := NewWorkers(lim, s, a); forall i :: 0 <= i < |ws| ==> !ws[i].Asleep?
  {
    QuiescenceStep(lim, s, a);
    if !a.Finish? {
      forall i | 0 <= i < |s.workers|
        ensures !NewWorkers(lim, s, a)[i].Asleep?
      {
        StepWorkers(lim, s, a, i);
      }
      StepWakes(lim, s, a);
    }
  }

  lemma NobodyLeavesEarly(lim: Limits, s: Sys, a: Action)
    requires CountsOk(lim, s) && WakesOk(s) && Enabled(lim, s, a) && !Quiescent(NewCore(lim, s, a))
    ensures !a.Leave?
    ensures var ws := NewWorkers(lim, s, a); forall i :: 0 <= i < |ws| ==> !ws[i].Exited?
  {
    QuiescenceStep(lim, s, a);
    forall i | 0 <= i < |s.workers|
      ensures !NewWorkers(lim, s, a)[i].Exited?
    {
      StepWorkers(lim, s, a, i);
    }
    StepWakes(lim, s, a);
  }

  lemma WakesStep(lim: Limits, s: Sys, a: Action)
    requires ConfigOk(lim) && CountsOk(lim, s) && TasksOk(lim, s) && SegmentsOk(lim, s) && WakesOk(s)
    requires Enabled(lim, s, a)
    ensures WakesOk(Apply(lim, s, a))
  {
    if Quiescent(NewCore(lim, s, a)) {
      NoSleeperAtRest(lim, s, a);
    } else {
      NobodyLeavesEarly(lim, s, a);
      StepStaysAwake(lim, s, a);
    }
  }

  // ---------- main results ----------

  /** A batch of tasks without segments has been scheduled and the threads are about to start; the
      counters may carry on from an earlier run. */
  ghost predicate Start(lim: Limits, s: Sys) {
    && ConfigOk(lim)
    && |s.workers| == lim.Threads() && (forall i :: 0 <= i < |s.workers| ==> s.workers[i].Idle?)
    && (forall t :: t in s.core.queue ==>
          t.segs == {} && TaskOk(t, lim.maxSegments) && t.Class() in s.core.running)
    && (forall c :: c in s.core.running ==> s.core.running[c] == 0)
    && s.core.working == 0 && s.core.inFlight == 0
    && s.submittedLog == multiset(s.core.queue) + s.doneLog
    && s.core.submitted == |s.submittedLog| && s.core.done == |s.doneLog|
    && s.core.failed <= s.core.done
  }

  lemma StartIsSafe(lim: Limits, s: Sys)
    requires Start(lim, s)
    ensures Inv(lim, s)
  {
    forall f: Worker -> nat | f(Idle) == 0
      ensures Total(s.workers, f) == 0
    {
      TotalPositive(s.workers, f);
    }
    assert IsBusy()(Idle) == 0;
    forall c ensures Total(s.workers, IsBusyIn(c)) == 0 { assert IsBusyIn(c)(Idle) == 0; }
    forall t ensures Total(s.workers, IsAt(t)) == 0 { assert IsAt(t)(Idle) == 0; }
    assert Refs(s.core.queue, s.workers) == {};
    assert Awake(s.workers[0]);
  }

  /** Safety: whatever a worker does next, the invariant survives. */
  lemma StepIsSafe(lim: Limits, s: Sys, a: Action)
    requires Inv(lim, s) && Enabled(lim, s, a)
    ensures Inv(lim, Apply(lim, s, a))
  {
    CountsStep(lim, s, a);
    TasksStep(lim, s, a);
    SegmentsStep(lim, s, a);
    AccountsStep(lim, s, a);
    WakesStep(lim, s, a);
  }

  ghost predicate Step(lim: Limits, s: Sys, a: Action, s': Sys) {
    Enabled(lim, s, a) && s' == Apply(lim, s, a)
  }

  lemma SomeWake(ws: seq<Worker>) returns (i: nat)
    ensures CanWake(ws, i)
  {
    i := 0;
    if j: nat :| j < |ws| && ws[j].Asleep? { i := j; }
  }

  /** An awake worker can always do something. */
  lemma AwakeCanStep(lim: Limits, s: Sys, i: nat) returns (a: Action)
    requires Inv(lim, s) && i < |s.workers| && Awake(s.workers[i])
    ensures Enabled(lim, s, a) && !a.Spurious?
  {
    var me := s.workers[i];
    if me.Idle? {
      var c := ClaimTask(s.core, lim);
      a := if c.Claimed? then Claim(i) else if c.Wait? then Sleep(i) else Leave(i);
    } else if me.Between? {
      assert WorkerOk(lim, s.core.running, me);
      a := Begin(i, Listed([]));
    } else if me.Attempting? {
      BusyCanCleanup(lim, s, i);
      var woken := SomeWake(s.workers);
      a := if More(me.script) then Spawn(i, woken) else Finish(i, false, woken);
    } else if me.held == {} {
      a := Recycle(i);
    } else {
      var x :| x in me.held;
      assert x in Held(s.workers[i]);
      assert x in Refs(s.core.queue, s.workers);
      var woken := SomeWake(s.workers);
      a := Drop(i, x, woken);
    }
  }

  /** A state where nothing but a spurious wake-up can happen. */
  ghost predicate Stuck(lim: Limits, s: Sys) {
    forall a :: Enabled(lim, s, a) ==> a.Spurious?
  }

  lemma StuckIsDone(lim: Limits, s: Sys)
    requires Inv(lim, s) && Stuck(lim, s)
    ensures forall i :: 0 <= i < |s.workers| ==> s.workers[i].Exited?
  {
    forall i | 0 <= i < |s.workers|
      ensures !Awake(s.workers[i])
    {
      if Awake(s.workers[i]) { var a := AwakeCanStep(lim, s, i); }
    }
  }

  /** Everything handed to the scheduler is done, and every segment is back in the pool. */
  predicate AllDone(s: Sys) {
    && s.core.queue == [] && s.core.working == 0 && s.core.inFlight == 0
    && s.submittedLog == s.doneLog && s.core.submitted == s.core.done
  }

  lemma ExitedIsDone(lim: Limits, s: Sys)
    requires Inv(lim, s) && s.workers != [] && forall i :: 0 <= i < |s.workers| ==> s.workers[i].Exited?
    ensures AllDone(s)
  {
    assert s.workers[0].Exited?;
    assert Quiescent(s.core);
    NobodyBusy(lim, s);
    assert WorkerRefs(s.workers) == {} && QueueRefs(s.core.queue) == {};
    forall t ensures s.submittedLog[t] == s.doneLog[t] { TotalPositive(s.workers, IsAt(t)); }
  }

  // ---------- runs of the agenda ----------

  /** The state after the steps `acts`, if they are possible one after the other. */
  ghost function Run(lim: Limits, s: Sys, acts: seq<Action>): Option<Sys>
    decreases |acts|
  {
    if acts == [] then Some(s)
    else if Enabled(lim, s, acts[0]) then Run(lim, Apply(lim, s, acts[0]), acts[1..])
    else None
  }

  lemma StepKeepsThreads(lim: Limits, s: Sys, a: Action)
    requires Enabled(lim, s, a)
    ensures |Apply(lim, s, a).workers| == |s.workers|
  {
    StepWakes(lim, s, a);
  }

  lemma {:induction false} RunKeepsInv(lim: Limits, s: Sys, acts: seq<Action>)
    requires Inv(lim, s) && Run(lim, s, acts).Some?
    ensures Inv(lim, Run(lim, s, acts).value) && |Run(lim, s, acts).value.workers| == |s.workers|
    decreases |acts|
  {
    hide Inv, Enabled, Apply;
    if acts != [] {
      StepIsSafe(lim, s, acts[0]);
      StepKeepsThreads(lim, s, acts[0]);
      RunKeepsInv(lim, Apply(lim, s, acts[0]), acts[1..]);
    }
  }

  /** Safety over whole runs, finished or not. */
  lemma ReachableIsSafe(lim: Limits, s: Sys, acts: seq<Action>)
    requires Start(lim, s) && Run(lim, s, acts).Some?
    ensures Inv(lim, Run(lim, s, acts).value) && |Run(lim, s, acts).value.workers| == lim.Threads() > 0
  {
    StartIsSafe(lim, s);
    RunKeepsInv(lim, s, acts);
  }

  /** No segment is lost or handed out twice: in every reachable state those in flight are those that
      somebody refers to, and no more than the pool has. */
  lemma SegmentsConserved(lim: Limits, s: Sys, acts: seq<Action>)
    requires Start(lim, s) && Run(lim, s, acts).Some?
    ensures var r := Run(lim, s, acts).value; r.core.inFlight == |Refs(r.core.queue, r.workers)| <= lim.maxSegments
  {
    ReachableIsSafe(lim, s, acts);
  }

  /** No task is lost: in every reachable state each submitted task is queued, at work or done, and
      the counters say the same. */
  lemma TasksAccounted(lim: Limits, s: Sys, acts: seq<Action>)
    requires Start(lim, s) && Run(lim, s, acts).Some?
    ensures var r := Run(lim, s, acts).value;
      && (forall t :: r.submittedLog[t] == multiset(r.core.queue)[t] + Total(r.workers, IsAt(t)) + r.doneLog[t])
      && r.core.submitted == |r.core.queue| + r.core.working + r.core.done && r.core.failed <= r.core.done
      && r.core.working == Running(r.core, Unbound) + Running(r.core, CpuBound) + Running(r.core, IoBound)
      && Running(r.core, Unbound) <= lim.unbound && Running(r.core, CpuBound) <= lim.cpu
      && Running(r.core, IoBound) <= lim.io
  {
    ReachableIsSafe(lim, s, acts);
    hide Run, Start, Total, TasksOk, SegmentsOk, WakesOk, CountsOk;
    ClassesAddUp(lim, Run(lim, s, acts).value);
    ClassesKeepLimits(lim, Run(lim, s, acts).value);
  }

  function Spawns(acts: seq<Action>): nat {
    if acts == [] then 0 else (if acts[0].Spawn? then 1 else 0) + Spawns(acts[1..])
  }

  function Finishes(acts: seq<Action>): nat {
    if acts == [] then 0 else (if acts[0].Finish? then 1 else 0) + Finishes(acts[1..])
  }

  /** The steps that finish a task whose last attempt has failed. */
  function Failures(acts: seq<Action>): nat {
    if acts == [] then 0 else (if acts[0].Finish? && acts[0].fail then 1 else 0) + Failures(acts[1..])
  }

  lemma StepCounts(lim: Limits, s: Sys, a: Action)
    requires Enabled(lim, s, a)
    ensures var k, k' := s.core, Apply(lim, s, a).core;
      && k'.submitted == k.submitted + (if a.Spawn? then 1 else 0)
      && k'.done == k.done + (if a.Finish? then 1 else 0)
      && k'.failed == k.failed + (if a.Finish? && a.fail then 1 else 0)
  {
    if a.Claim? { ClaimedFacts(s.core, lim); }
  }

  /** The statistics count what has happened: tasks scheduled, finished, and finished without success. */
  lemma {:induction false} CountersCount(lim: Limits, s: Sys, acts: seq<Action>)
    requires Run(lim, s, acts).Some?
    ensures var k, k' := s.core, Run(lim, s, acts).value.core;
      && k'.submitted == k.submitted + Spawns(acts)
      && k'.done == k.done + Finishes(acts)
      && k'.failed == k.failed + Failures(acts)
    decreases |acts|
  {
    if acts != [] {
      StepCounts(lim, s, acts[0]);
      hide Enabled, Apply;
      CountersCount(lim, Apply(lim, s, acts[0]), acts[1..]);
    }
  }

  lemma {:induction false} RunLast(lim: Limits, s: Sys, acts: seq<Action>)
    requires acts != [] && Run(lim, s, acts).Some?
    ensures var before := Run(lim, s, acts[..|acts| - 1]);
      && before.Some? && Enabled(lim, before.value, acts[|acts| - 1])
      && Run(lim, s, acts) == Some(Apply(lim, before.value, acts[|acts| - 1]))
    decreases |acts|
  {
    hide Enabled, Apply;
    if |acts| == 1 {
      assert acts[..0] == [] && acts[1..] == [];
    } else {
      RunLast(lim, Apply(lim, s, acts[0]), acts[1..]);
      assert acts[..|acts| - 1][1..] == acts[1..][..|acts| - 2];
    }
  }

  /** How often a worker has attempted the task that it claimed last. */
  function Attempts(acts: seq<Action>, i: nat): nat
    decreases |acts|
  {
    if acts == [] then 0
    else
      var last, before := acts[|acts| - 1], Attempts(acts[..|acts| - 1], i);
      if last.w == i && last.Claim? then 0 else if last.w == i && last.Begin? then before + 1 else before
  }

  lemma StepTries(lim: Limits, s: Sys, a: Action, i: nat)
    requires Enabled(lim, s, a) && i < |s.workers|
    ensures |Apply(lim, s, a).workers| == |s.workers|
    ensures var w, w' := s.workers[i], Apply(lim, s, a).workers[i];
      && (i == a.w && a.Claim? ==> Busy(w') && w'.tries == 10)
      && (i == a.w && a.Begin? ==> Busy(w) && Busy(w') && w.tries > 0 && w'.tries == w.tries - 1)
      && (Busy(w') && !(i == a.w && (a.Claim? || a.Begin?)) ==> Busy(w) && w'.tries == w.tries)
  {
    StepWorkers(lim, s, a, i);
  }

  /** No task is attempted more than ten times between being claimed and being counted as done. */
  lemma {:induction false} TenAttempts(lim: Limits, s: Sys, acts: seq<Action>, i: nat)
    requires i < |s.workers| && !Busy(s.workers[i]) && Run(lim, s, acts).Some?
    ensures Attempts(acts, i) <= 10
    ensures |Run(lim, s, acts).value.workers| == |s.workers|
    ensures var w := Run(lim, s, acts).value.workers[i]; Busy(w) ==> w.tries == 10 - Attempts(acts, i)
    decreases |acts|
  {
    hide Enabled, Apply;
    if acts != [] {
      RunLast(lim, s, acts);
      var before := acts[..|acts| - 1];
      TenAttempts(lim, s, before, i);
      StepTries(lim, Run(lim, s, before).value, acts[|acts| - 1], i);
    }
  }

  /** The threads have all returned only when everything is done: what was queued at the start and what
      was scheduled since. What the agenda then returns is the number of tasks that failed. */
  lemma ReturnsWhenDone(lim: Limits, s: Sys, acts: seq<Action>)
    requires Start(lim, s) && Run(lim, s, acts).Some?
    ensures var r := Run(lim, s, acts).value;
      (forall i :: 0 <= i < |r.workers| ==> r.workers[i].Exited?) ==>
        && AllDone(r)
        && Finishes(acts) == |s.core.queue| + Spawns(acts)
        && r.core.failed == s.core.failed + Failures(acts)
  {
    ReachableIsSafe(lim, s, acts);
    CountersCount(lim, s, acts);
    var r := Run(lim, s, acts).value;
    if forall i :: 0 <= i < |r.workers| ==> r.workers[i].Exited? { ExitedIsDone(lim, r); }
  }

  /** Deadlock freedom: the only reachable state in which nothing can happen is the one where every
      thread has returned and everything is done. */
  lemma DeadlockFree(lim: Limits, s: Sys, acts: seq<Action>)
    requires Start(lim, s) && Run(lim, s, acts).Some?
    ensures var r := Run(lim, s, acts).value;
      Stuck(lim, r) ==> (forall i :: 0 <= i < |r.workers| ==> r.workers[i].Exited?) && AllDone(r)
  {
    ReachableIsSafe(lim, s, acts);
    var r := Run(lim, s, acts).value;
    hide Run, Start, Inv;
    if Stuck(lim, r) {
      StuckIsDone(lim, r);
      ReturnsWhenDone(lim, s, acts);
    }
  }
}
