/** Runs of the scheduler with one segment in flight: they end without uploads, and need not end with
    one. So two segments are exactly what it takes. */
module AgendaEndless {
  import opened Tasks
  import opened AgendaCore
  import opened AgendaSystem
  import opened AgendaSafety
  import opened AgendaTermination
  import opened AgendaWeights
  import U = Uploader

  // ---------- without uploads ----------

  predicate Uploads(k: Kind) { k.Uploader? || k.Compressor? || k.CompressBlock? }

  ghost predicate NoUploads(s: Sys) {
    && (forall t :: t in s.core.queue ==> !Uploads(t.kind))
    && (forall i :: 0 <= i < |s.workers| && Busy(s.workers[i]) ==> !Uploads(s.workers[i].task.kind))
  }

  lemma NoUploadsQueued(lim: Limits, s: Sys, a: Action)
    requires ConfigOk(lim) && TasksOk(lim, s) && Enabled(lim, s, a) && NoUploads(s)
    ensures forall t :: t in NewCore(lim, s, a).queue ==> !Uploads(t.kind)
    ensures Busy(NewWorker(lim, s, a)) ==> !Uploads(NewWorker(lim, s, a).task.kind)
  {
    if a.Claim? { ClaimedFacts(s.core, lim); }
    if a.Spawn? {
      SpawnedIsOk(lim, s, a);
      InsertContents(s.core.queue, NextTask(s.workers[a.w].script));
    }
  }

  lemma NoUploadsStep(lim: Limits, s: Sys, a: Action)
    requires ConfigOk(lim) && TasksOk(lim, s) && Enabled(lim, s, a) && NoUploads(s)
    ensures NoUploads(Apply(lim, s, a))
  {
    NoUploadsQueued(lim, s, a);
    StepWakes(lim, s, a);
    hide TasksOk, ConfigOk, Uploads;
    forall i | 0 <= i < |s.workers| { StepWorkers(lim, s, a, i); }
  }

  lemma {:induction false} HistoryHasNoUploads(lim: Limits, run: nat -> Sys, acts: nat -> Action, i: nat)
    requires History(lim, run, acts) && NoUploads(run(0))
    ensures NoUploads(run(i))
  {
    hide NoUploads, Enabled, Apply, ConfigOk, CountsOk, TasksOk, SegmentsOk, AccountsOk, WakesOk;
    if i > 0 {
      HistoryHasNoUploads(lim, run, acts, i - 1);
      HistoryIsSafe(lim, run, acts, i - 1);
      assert Step(lim, run(i - 1), acts(i - 1), run(i - 1 + 1));
      NoUploadsStep(lim, run(i - 1), acts(i - 1));
    }
  }

  /** Listings, downloads and deletions come to an end with a single segment, too. */
  lemma HistoriesWithoutUploadsEnd(lim: Limits, run: nat -> Sys, acts: nat -> Action, n: nat)
    requires History(lim, run, acts) && NoUploads(run(0))
    ensures exists m: nat :: m >= n && acts(m).Spurious?
  {
    HistoriesEndOrStall(lim, run, acts, n);
    var m: nat :| m >= n && !Productive(run(m), acts(m));
    HistoryIsSafe(lim, run, acts, m);
    HistoryHasNoUploads(lim, run, acts, m);
    assert Step(lim, run(m), acts(m), run(m + 1));
    if Stalls(run(m), acts(m)) { StallsBelowTwo(lim, run(m), acts(m)); }
  }

  // ---------- the run that never ends ----------

  /** One uploader is queued, and the threads are about to start. */
  function OneUpload(lim: Limits): Sys {
    var t := Task(Kind.Uploader, 0, {});
    Sys(Core([t], map[Unbound := 0], 0, 0, 1, 0, 0), seq(lim.Threads(), _ => Idle), 0, multiset{t}, multiset{})
  }

  /** The first thread takes it and plans a single part, for ever. */
  function Endless(i: nat): Action {
    if i == 0 then Claim(0) else if i == 1 then Begin(0, Planning(1, 0, 0)) else Spawn(0, 0)
  }

  ghost function EndlessRun(lim: Limits, i: nat): Sys {
    if i == 0 then OneUpload(lim)
    else var s := EndlessRun(lim, i - 1); if Enabled(lim, s, Endless(i - 1)) then Apply(lim, s, Endless(i - 1)) else s
  }

  /** Where the endless run stands: the first thread in its loop, all the others idle. */
  ghost predicate InTheLoop(lim: Limits, s: Sys) {
    && s.core.inFlight == 0 && |s.workers| == lim.Threads() > 0
    && s.workers[0] == Attempting(Task(Kind.Uploader, 0, {}), {}, TRIES - 1, Planning(1, 0, 0))
    && forall i :: 0 < i < |s.workers| ==> s.workers[i].Idle?
  }

  lemma FirstSteps(lim: Limits)
    requires ConfigOk(lim) && lim.maxSegments == 1
    ensures Start(lim, EndlessRun(lim, 0)) && Enabled(lim, EndlessRun(lim, 0), Endless(0))
    ensures Enabled(lim, EndlessRun(lim, 1), Endless(1)) && InTheLoop(lim, EndlessRun(lim, 2))
  {
    var s := OneUpload(lim);
    var t := Task(Kind.Uploader, 0, {});
    assert s.core.queue == [t] && s.core.queue[1..] == [];
    assert Select(s.core.queue, 0, Unbound) == [t] && Remove(s.core.queue, 0, Unbound) == [];
    assert MaxNeeds(s.core.queue) == 0;
    assert ClaimTask(s.core, lim) == Take(s.core, 0, Unbound);
    assert Grant(0, 0) == {};
    assert U.PerPump(1, lim.io, 1) == 0;
  }

  lemma LoopIsOpen(lim: Limits, s: Sys)
    requires ConfigOk(lim) && InTheLoop(lim, s)
    ensures Enabled(lim, s, Spawn(0, 0)) && AfterNext(s.workers[0].script) == s.workers[0].script
  {
    hide ClaimTask, ScriptOk, CanCleanup;
    assert CanWake(s.workers, 0);
  }

  lemma SameWorkers(lim: Limits, s: Sys)
    requires Enabled(lim, s, Spawn(0, 0)) && !s.workers[0].Asleep?
    requires AfterNext(s.workers[0].script) == s.workers[0].script
    ensures NewWorkers(lim, s, Spawn(0, 0)) == s.workers
  {
    hide ClaimTask, ScriptOk, CanCleanup, CanWake, More, NextTask, AfterNext, Refs, WakeAll, Quiescent, Grant;
    var me := s.workers[0];
    assert me.(script := AfterNext(me.script)) == me;
    assert s.workers[0 := me] == s.workers;
  }

  lemma LoopGoesOn(lim: Limits, s: Sys)
    requires ConfigOk(lim) && InTheLoop(lim, s)
    ensures Enabled(lim, s, Spawn(0, 0)) && InTheLoop(lim, Apply(lim, s, Spawn(0, 0)))
  {
    hide ConfigOk, Enabled, ClaimTask, More, NextTask, AfterNext, Refs, NewWorkers, NewWorker, Insert, Cleanup;
    LoopIsOpen(lim, s);
    SameWorkers(lim, s);
  }

  lemma NextInTheLoop(lim: Limits, i: nat)
    requires ConfigOk(lim) && i >= 2 && InTheLoop(lim, EndlessRun(lim, i))
    ensures Enabled(lim, EndlessRun(lim, i), Endless(i)) && InTheLoop(lim, EndlessRun(lim, i + 1))
  {
    LoopGoesOn(lim, EndlessRun(lim, i));
    hide Enabled, Apply, InTheLoop, ConfigOk;
    assert Endless(i) == Spawn(0, 0);
  }

  lemma {:induction false} StaysInTheLoop(lim: Limits, i: nat)
    requires ConfigOk(lim) && lim.maxSegments == 1 && i >= 2
    ensures InTheLoop(lim, EndlessRun(lim, i))
  {
    hide *;
    if i == 2 {
      FirstSteps(lim);
    } else {
      StaysInTheLoop(lim, i - 1);
      NextInTheLoop(lim, i - 1);
    }
  }

  lemma EndlessStep(lim: Limits, i: nat)
    requires ConfigOk(lim) && lim.maxSegments == 1
    ensures Enabled(lim, EndlessRun(lim, i), Endless(i))
    ensures EndlessRun(lim, i + 1) == Apply(lim, EndlessRun(lim, i), Endless(i))
  {
    FirstSteps(lim);
    if i >= 2 {
      StaysInTheLoop(lim, i);
      NextInTheLoop(lim, i);
    }
    hide Enabled, Apply, InTheLoop, ConfigOk, Start, Endless;
  }

  lemma EndlessHistory(lim: Limits) returns (run: nat -> Sys, acts: nat -> Action)
    requires ConfigOk(lim) && lim.maxSegments == 1
    ensures History(lim, run, acts) && forall i: nat :: !acts(i).Spurious?
  {
    run, acts := (i: nat) => EndlessRun(lim, i), (i: nat) => Endless(i);
    FirstSteps(lim);
    hide Enabled, Apply, InTheLoop, ConfigOk, Start, EndlessRun;
    forall i: nat ensures Step(lim, run(i), acts(i), run(i + 1)) { EndlessStep(lim, i); }
  }

  /** Termination, exactly: every history without spurious wake-ups ends, whatever tasks it starts
      from, if and only if two segments may be in flight. */
  lemma RunsEndIff(lim: Limits)
    requires ConfigOk(lim)
    ensures (forall run: nat -> Sys, acts: nat -> Action ::
              History(lim, run, acts) ==> exists i: nat :: acts(i).Spurious?)
       <==> lim.maxSegments >= 2
  {
    if lim.maxSegments >= 2 {
      forall run: nat -> Sys, acts: nat -> Action | History(lim, run, acts)
        ensures exists i: nat :: acts(i).Spurious?
      {
        HistoriesEnd(lim, run, acts, 0);
      }
    } else {
      var run, acts := EndlessHistory(lim);
    }
  }
}
