/** The scheduler as a transition system: any number of workers, each step one critical section or
    one local event, interleaved in every possible way. */
module AgendaSystem {
  import opened Tasks
  import opened AgendaCore
  import opened Bytes
  import opened Wrappers
  import U = Uploader

  /** What an attempt is still going to schedule: a list, or the rest of a planning loop, which stands
      at part `next` of `parts` and gives each file pump `perPump` of them. */
  datatype Script = Listed(todo: seq<Task>) | Planning(parts: nat, next: nat, perPump: nat)

  predicate More(sc: Script) {
    match sc
    case Listed(todo) => todo != []
    case Planning(parts, next, _) => next < parts
  }

  function NextTask(sc: Script): Task
    requires More(sc)
  {
    match sc
    case Listed(todo) => todo[0]
    case Planning(parts, next, perPump) => Task(Pump(Min(parts - next, perPump)), 0, {})
  }

  function AfterNext(sc: Script): Script
    requires More(sc)
  {
    match sc
    case Listed(todo) => Listed(todo[1..])
    case Planning(parts, next, perPump) => Planning(parts, next + perPump, perPump)
  }

  /** `Idle` is about to take the lock and claim; `Between` and `Attempting` run a task with `tries`
      more attempts allowed; `Draining` has been counted as done but still drops its segments. */
  datatype Worker =
    | Idle
    | Asleep
    | Between(task: Task, held: set<nat>, tries: nat)
    | Attempting(task: Task, held: set<nat>, tries: nat, script: Script)
    | Draining(held: set<nat>)
    | Exited

  /** The two logs record every task handed to the scheduler and every task counted as done. */
  datatype Sys = Sys(core: Core, workers: seq<Worker>, nextSegment: nat,
                     submittedLog: multiset<Task>, doneLog: multiset<Task>)

  /** `woken` is the sleeper that a notification happens to reach. `Spurious` is a wake-up without a
      notification, which the condition variable allows. */
  datatype Action =
    | Claim(w: nat)
    | Sleep(w: nat)
    | Leave(w: nat)
    | Begin(w: nat, script: Script)
    | Spawn(w: nat, woken: nat)
    | Retry(w: nat)
    | Finish(w: nat, fail: bool, woken: nat)
    | Drop(w: nat, segment: nat, woken: nat)
    | Recycle(w: nat)
    | Spurious(w: nat)

  predicate Busy(w: Worker) { w.Between? || w.Attempting? }

  predicate Awake(w: Worker) { w.Idle? || Busy(w) || w.Draining? }

  function Held(w: Worker): set<nat> {
    match w
    case Between(_, held, _) => held
    case Attempting(_, held, _, _) => held
    case Draining(held) => held
    case _ => {}
  }

  ghost function QueueRefs(q: seq<Task>): set<nat> { set t, s | t in q && s in t.segs :: s }

  ghost function WorkerRefs(ws: seq<Worker>): set<nat> {
    set i, s | 0 <= i < |ws| && s in Held(ws[i]) :: s
  }

  /** Every segment that a queued task or a worker still refers to. */
  ghost function Refs(q: seq<Task>, ws: seq<Worker>): set<nat> { QueueRefs(q) + WorkerRefs(ws) }

  predicate SpawnOk(lim: Limits, parent: Task, held: set<nat>, t: Task) {
    MaySpawn(parent.kind, t.kind) && t.segs <= held && TaskOk(t, lim.maxSegments)
  }

  /** File pumps come from a planning loop, which an uploader runs, or the last block of a compressed
      file by way of the compressor's callback. */
  predicate ScriptOk(lim: Limits, parent: Task, held: set<nat>, sc: Script) {
    match sc
    case Listed(todo) => forall t :: t in todo ==> SpawnOk(lim, parent, held, t) && !t.kind.Pump?
    case Planning(parts, next, perPump) =>
      && (parent.kind.Uploader? || parent.kind.CompressBlock?)
      && 0 < parts <= U.MAX_PART_NUM && lim.io > 0
      && perPump == U.PerPump(parts, lim.io, lim.maxSegments)
  }

  predicate CanWake(ws: seq<Worker>, i: nat) {
    (i < |ws| && ws[i].Asleep?) || forall j :: 0 <= j < |ws| ==> !ws[j].Asleep?
  }

  function WakeOne(ws: seq<Worker>, i: nat): seq<Worker> {
    if i < |ws| && ws[i].Asleep? then ws[i := Idle] else ws
  }

  function WakeAll(ws: seq<Worker>): seq<Worker> {
    seq(|ws|, i requires 0 <= i < |ws| => if ws[i].Asleep? then Idle else ws[i])
  }

  /** The fresh segments of one grant. */
  function Grant(first: nat, n: nat): (r: set<nat>)
    ensures |r| == n && forall i :: i in r <==> first <= i < first + n
  {
    if n == 0 then {} else Grant(first, n - 1) + {first + n - 1}
  }

  /** A planning loop throws nothing: an attempt that runs one is neither retried nor failed. */
  predicate Enabled(lim: Limits, s: Sys, a: Action) {
    && a.w < |s.workers|
    && s.core.inFlight <= lim.maxSegments
    && var me := s.workers[a.w];
      match a
      case Claim(_) => me.Idle? && ClaimTask(s.core, lim).Claimed?
      case Sleep(_) => me.Idle? && ClaimTask(s.core, lim).Wait?
      case Leave(_) => me.Idle? && ClaimTask(s.core, lim).Quit?
      case Begin(_, script) => me.Between? && me.tries > 0
        && ScriptOk(lim, me.task, me.held, script) && (script.Planning? ==> script.next == 0)
      case Spawn(_, woken) => me.Attempting? && More(me.script) && CanWake(s.workers, woken)
      case Retry(_) => me.Attempting? && me.tries > 0 && me.script.Listed?
      case Finish(_, fail, woken) => me.Attempting? && (if fail then me.script.Listed? else !More(me.script))
        && CanCleanup(s.core, me.task.Class()) && CanWake(s.workers, woken)
      case Drop(_, segment, woken) => me.Draining? && segment in me.held && s.core.inFlight > 0
        && CanWake(s.workers, woken)
      case Recycle(_) => me.Draining? && me.held == {}
      case Spurious(_) => me.Asleep?
  }

  function NewWorker(lim: Limits, s: Sys, a: Action): Worker
    requires Enabled(lim, s, a)
  {
    var me := s.workers[a.w];
    match a
    case Claim(_) => var t := ClaimTask(s.core, lim).task;
      Between(t, Grant(s.nextSegment, t.Needs()) + t.segs, TRIES)
    case Sleep(_) => Asleep
    case Leave(_) => Exited
    case Begin(_, script) => Attempting(me.task, me.held, me.tries - 1, script)
    case Spawn(_, _) => me.(script := AfterNext(me.script))
    case Retry(_) => Between(me.task, me.held, me.tries)
    case Finish(_, _, _) => Draining(me.held)
    case Drop(_, segment, _) => Draining(me.held - {segment})
    case Recycle(_) => Idle
    case Spurious(_) => Idle
  }

  ghost function NewCore(lim: Limits, s: Sys, a: Action): Core
    requires Enabled(lim, s, a)
  {
    var me := s.workers[a.w];
    match a
    case Claim(_) => ClaimTask(s.core, lim).core
    case Spawn(_, _) => Schedule(s.core, NextTask(me.script))
    case Finish(_, fail, _) => Cleanup(s.core, me.task.Class(), fail)
    case Drop(_, segment, _) =>
      if segment in Refs(s.core.queue, Moved(lim, s, a)) then s.core
      else s.core.(inFlight := s.core.inFlight - 1)
    case _ => s.core
  }

  function Moved(lim: Limits, s: Sys, a: Action): seq<Worker>
    requires Enabled(lim, s, a)
  {
    s.workers[a.w := NewWorker(lim, s, a)]
  }

  ghost function NewWorkers(lim: Limits, s: Sys, a: Action): seq<Worker>
    requires Enabled(lim, s, a)
  {
    var ws := Moved(lim, s, a);
    match a
    case Spawn(_, woken) => WakeOne(ws, woken)
    case Finish(_, _, woken) =>
      if Quiescent(NewCore(lim, s, a)) then WakeAll(ws) else WakeOne(ws, woken)
    case Drop(_, _, woken) =>
      if NewCore(lim, s, a) == s.core then ws else WakeOne(ws, woken)
    case _ => ws
  }

  ghost function Apply(lim: Limits, s: Sys, a: Action): Sys
    requires Enabled(lim, s, a)
  {
    var me := s.workers[a.w];
    Sys(NewCore(lim, s, a), NewWorkers(lim, s, a),
        if a.Claim? then s.nextSegment + ClaimTask(s.core, lim).task.Needs() else s.nextSegment,
        if a.Spawn? then s.submittedLog + multiset{NextTask(me.script)} else s.submittedLog,
        if a.Finish? then s.doneLog + multiset{me.task} else s.doneLog)
  }

  // ---------- sums over the workers ----------

  ghost function Total(ws: seq<Worker>, f: Worker -> nat): nat {
    if ws == [] then 0 else f(ws[0]) + Total(ws[1..], f)
  }

  lemma {:induction false} TotalUpdate(ws: seq<Worker>, i: nat, w: Worker, f: Worker -> nat)
    requires i < |ws|
    ensures Total(ws[i := w], f) + f(ws[i]) == Total(ws, f) + f(w)
  {
    if i == 0 {
      assert ws[i := w][1..] == ws[1..];
    } else {
      assert ws[i := w][1..] == ws[1..][i - 1 := w];
      TotalUpdate(ws[1..], i - 1, w, f);
    }
  }

  lemma {:induction false} TotalSame(ws: seq<Worker>, ws': seq<Worker>, f: Worker -> nat)
    requires |ws| == |ws'| && forall i :: 0 <= i < |ws| ==> f(ws[i]) == f(ws'[i])
    ensures Total(ws, f) == Total(ws', f)
  {
    if ws != [] { TotalSame(ws[1..], ws'[1..], f); }
  }

  lemma {:induction false} TotalPositive(ws: seq<Worker>, f: Worker -> nat)
    ensures Total(ws, f) > 0 <==> exists i :: 0 <= i < |ws| && f(ws[i]) > 0
  {
    if ws != [] {
      TotalPositive(ws[1..], f);
      if i :| 0 <= i < |ws[1..]| && f(ws[1..][i]) > 0 { assert f(ws[i + 1]) > 0; }
      if i :| 0 <= i < |ws| && f(ws[i]) > 0 { if i > 0 { assert f(ws[1..][i - 1]) > 0; } }
    }
  }

  function IsBusy(): Worker -> nat { w => if Busy(w) then 1 else 0 }

  function IsBusyIn(c: TaskClass): Worker -> nat {
    w => if Busy(w) && w.task.Class() == c then 1 else 0
  }

  function IsAt(t: Task): Worker -> nat { w => if Busy(w) && w.task == t then 1 else 0 }

  // ---------- a notification only turns sleepers into claimers ----------

  ghost predicate Woken(ws: seq<Worker>, ws': seq<Worker>) {
    |ws| == |ws'| && forall i :: 0 <= i < |ws| ==> ws'[i] == ws[i] || (ws[i].Asleep? && ws'[i].Idle?)
  }

  lemma StepWakes(lim: Limits, s: Sys, a: Action)
    requires Enabled(lim, s, a)
    ensures Woken(Moved(lim, s, a), NewWorkers(lim, s, a))
  {
  }

  /** A sum that does not tell a sleeper from a claimer changes by the acting worker's share. */
  lemma StepTotal(lim: Limits, s: Sys, a: Action, f: Worker -> nat)
    requires Enabled(lim, s, a) && f(Idle) == f(Asleep)
    ensures Total(NewWorkers(lim, s, a), f) + f(s.workers[a.w])
         == Total(s.workers, f) + f(NewWorker(lim, s, a))
  {
    StepWakes(lim, s, a);
    TotalUpdate(s.workers, a.w, NewWorker(lim, s, a), f);
    TotalSame(Moved(lim, s, a), NewWorkers(lim, s, a), f);
  }

  // ---------- the invariant ----------

  /** Command-line values: every class has a thread and one segment may be in flight. */
  predicate ConfigOk(lim: Limits) {
    lim.unbound >= 1 && lim.cpu >= 1 && lim.io >= 1 && lim.maxSegments >= 1
  }

  /** The counter of a class, zero while it has none. */
  function Running(k: Core, c: TaskClass): nat { if c in k.running then k.running[c] else 0 }

  /** Every class counter is the number of workers busy in that class, and within its limit. */
  ghost predicate CountsOk(lim: Limits, s: Sys) {
    && s.core.working == Total(s.workers, IsBusy())
    && (forall c :: Total(s.workers, IsBusyIn(c)) == Running(s.core, c))
    && (forall c :: c in s.core.running ==> s.core.running[c] <= lim.Of(c))
  }

  ghost predicate WorkerOk(lim: Limits, running: map<TaskClass, nat>, w: Worker) {
    && (Busy(w) ==> TaskOk(w.task, lim.maxSegments) && w.task.Class() in running)
    && (w.Attempting? ==> ScriptOk(lim, w.task, w.held, w.script))
    && (w.Between? ==> w.tries > 0)
  }

  ghost predicate TasksOk(lim: Limits, s: Sys) {
    && (forall t :: t in s.core.queue ==> TaskOk(t, lim.maxSegments) && t.Class() in s.core.running)
    && (forall i :: 0 <= i < |s.workers| ==> WorkerOk(lim, s.core.running, s.workers[i]))
  }

  /** The in-flight counter is the number of segments somebody still refers to. */
  ghost predicate SegmentsOk(lim: Limits, s: Sys) {
    && s.core.inFlight == |Refs(s.core.queue, s.workers)| <= lim.maxSegments
    && (forall x :: x in Refs(s.core.queue, s.workers) ==> x < s.nextSegment)
  }

  /** Every task handed in is, with its multiplicity, either queued, or at work, or done. */
  ghost predicate AccountsOk(s: Sys) {
    && (forall t :: s.submittedLog[t]
                 == multiset(s.core.queue)[t] + Total(s.workers, IsAt(t)) + s.doneLog[t])
    && s.core.submitted == |s.core.queue| + s.core.working + s.core.done
    && s.core.submitted == |s.submittedLog| && s.core.done == |s.doneLog|
    && s.core.failed <= s.core.done
  }

  /** No wake-up is ever lost: while there is work somebody is awake, and once there is none nobody
      sleeps. Workers leave only then. */
  ghost predicate WakesOk(s: Sys) {
    && (Quiescent(s.core) ==> forall i :: 0 <= i < |s.workers| ==> !s.workers[i].Asleep?)
    && (!Quiescent(s.core) ==> forall i :: 0 <= i < |s.workers| ==> !s.workers[i].Exited?)
    && (!Quiescent(s.core) ==> exists i :: 0 <= i < |s.workers| && Awake(s.workers[i]))
  }

  ghost predicate Inv(lim: Limits, s: Sys) {
    ConfigOk(lim) && CountsOk(lim, s) && TasksOk(lim, s) && SegmentsOk(lim, s) && AccountsOk(s)
    && WakesOk(s)
  }
}
