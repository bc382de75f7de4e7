/** What attempts schedule: how far planning loops get, and that a task which succeeds has scheduled all
    that it was to schedule. */
module AgendaScripts {
  import opened Tasks
  import opened AgendaCore
  import opened AgendaSystem
  import opened AgendaSafety
  import opened Wrappers
  import U = Uploader

  /** The script of an attempt after `k` tasks. */
  function ScriptAfter(sc: Script, k: nat): Script {
    if k == 0 then sc
    else var before := ScriptAfter(sc, k - 1); if More(before) then AfterNext(before) else before
  }

  lemma {:induction false} PlanningAfter(parts: nat, perPump: nat, k: nat)
    ensures var sc := ScriptAfter(Planning(parts, 0, perPump), k);
      && sc.Planning? && sc.parts == parts && sc.perPump == perPump && sc.next <= U.CounterAfter(k, perPump)
      && (More(sc) ==> sc.next == U.CounterAfter(k, perPump))
      && (!More(sc) ==> U.CounterAfter(k, perPump) >= parts)
  {
    if k > 0 { PlanningAfter(parts, perPump, k - 1); }
  }

  /** A planning loop schedules finitely many pumps if and only if two segments may be in flight. */
  lemma PlanningAttemptEndsIff(lim: Limits, parts: nat)
    requires ConfigOk(lim) && parts > 0
    ensures (exists k: nat :: !More(ScriptAfter(Planning(parts, 0, U.PerPump(parts, lim.io, lim.maxSegments)), k)))
       <==> lim.maxSegments >= 2
  {
    var perPump := U.PerPump(parts, lim.io, lim.maxSegments);
    U.PlanningEndsIff(parts, lim.io, lim.maxSegments);
    if k: nat :| !More(ScriptAfter(Planning(parts, 0, perPump), k)) { PlanningAfter(parts, perPump, k); }
    if k: nat :| U.CounterAfter(k, perPump) >= parts { PlanningAfter(parts, perPump, k); }
  }

  /** How many segments the first `k` pumps of a planning loop ask for in all. */
  function AskedFor(sc: Script, k: nat): nat {
    if k == 0 then 0
    else
      var before := ScriptAfter(sc, k - 1);
      AskedFor(sc, k - 1) + if More(before) then NextTask(before).Needs() else 0
  }

  /** They ask for one segment for each part that they stand for; all of them together for all parts. */
  lemma {:induction false} PumpsAskForParts(parts: nat, perPump: nat, k: nat)
    ensures var sc := ScriptAfter(Planning(parts, 0, perPump), k);
      sc.Planning? && AskedFor(Planning(parts, 0, perPump), k) == if More(sc) then sc.next else parts
  {
    PlanningAfter(parts, perPump, k);
    if k > 0 {
      PlanningAfter(parts, perPump, k - 1);
      PumpsAskForParts(parts, perPump, k - 1);
    }
  }

  /** The script that a worker began last, and how many of its tasks it has scheduled since. */
  function Progress(acts: seq<Action>, w: nat): Option<(Script, nat)>
    decreases |acts|
  {
    if acts == [] then None
    else
      var last, before := acts[|acts| - 1], Progress(acts[..|acts| - 1], w);
      if last.w == w && last.Begin? then Some((last.script, 0))
      else if last.w == w && last.Spawn? && before.Some? then Some((before.value.0, before.value.1 + 1))
      else before
  }

  /** A worker has gone through as much of the script of its attempt as it has scheduled tasks of it. */
  ghost predicate Follows(me: Worker, done: Option<(Script, nat)>) {
    me.Attempting? ==>
      && done.Some? && me.script == ScriptAfter(done.value.0, done.value.1)
      && (done.value.0.Planning? ==> done.value.0.next == 0)
      && forall k: nat :: k < done.value.1 ==> More(ScriptAfter(done.value.0, k))
  }

  lemma ScriptStep(lim: Limits, s: Sys, a: Action, w: nat)
    requires Enabled(lim, s, a) && w < |s.workers|
    ensures |Apply(lim, s, a).workers| == |s.workers|
    ensures var me, me' := s.workers[w], Apply(lim, s, a).workers[w];
      me'.Attempting? ==>
        if a.w == w && a.Begin? then me'.script == a.script && (a.script.Planning? ==> a.script.next == 0)
        else if a.w == w && a.Spawn? then me.Attempting? && More(me.script) && me'.script == AfterNext(me.script)
        else me == me'
  {
    StepWorkers(lim, s, a, w);
  }

  lemma {:induction false} ScriptsAreFollowed(lim: Limits, s: Sys, acts: seq<Action>, w: nat)
    requires w < |s.workers| && !s.workers[w].Attempting? && Run(lim, s, acts).Some?
    ensures |Run(lim, s, acts).value.workers| == |s.workers|
    ensures Follows(Run(lim, s, acts).value.workers[w], Progress(acts, w))
    decreases |acts|
  {
    hide Enabled, Apply, More, AfterNext;
    if acts != [] {
      RunLast(lim, s, acts);
      ScriptsAreFollowed(lim, s, acts[..|acts| - 1], w);
      ScriptStep(lim, Run(lim, s, acts[..|acts| - 1]).value, acts[|acts| - 1], w);
    }
  }

  lemma {:induction false} ListAfter(todo: seq<Task>, k: nat)
    requires k <= |todo|
    ensures ScriptAfter(Listed(todo), k) == Listed(todo[k..])
  {
    if k > 0 {
      ListAfter(todo, k - 1);
      assert todo[k - 1..][1..] == todo[k..];
    } else {
      assert todo[0..] == todo;
    }
  }

  /** After `k` tasks the list is empty, or the pumps have asked for a segment for each part. */
  predicate ScheduledAll(script: Script, k: nat) {
    match script
    case Listed(todo) => k == |todo|
    case Planning(parts, _, _) => AskedFor(script, k) == parts
  }

  /** A task that is counted as done without failing has scheduled all that its last attempt was to
      schedule: its whole list, or pumps for all parts. */
  lemma SuccessSchedulesAll(lim: Limits, s: Sys, acts: seq<Action>, w: nat, woken: nat)
    requires w < |s.workers| && !s.workers[w].Attempting? && Run(lim, s, acts).Some?
    ensures Enabled(lim, Run(lim, s, acts).value, Finish(w, false, woken)) ==>
      Progress(acts, w).Some? && ScheduledAll(Progress(acts, w).value.0, Progress(acts, w).value.1)
  {
    ScriptsAreFollowed(lim, s, acts, w);
    if Enabled(lim, Run(lim, s, acts).value, Finish(w, false, woken)) {
      hide Run, Progress;
      var (script, k) := Progress(acts, w).value;
      if script.Listed? {
        ListEnds(script.todo, k);
      } else {
        PumpsAskForParts(script.parts, script.perPump, k);
      }
    }
  }

  lemma ListEnds(todo: seq<Task>, k: nat)
    requires !More(ScriptAfter(Listed(todo), k)) && forall j: nat :: j < k ==> More(ScriptAfter(Listed(todo), j))
    ensures k == |todo|
  {
    if k > |todo| { ListAfter(todo, |todo|); } else { ListAfter(todo, k); }
  }
}
