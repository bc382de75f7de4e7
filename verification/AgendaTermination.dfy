/** When runs of the scheduler come to rest: no weight falls for ever, so a run that never ends has
    spurious wake-ups or stalled planning for ever, and the latter takes a single segment in flight. */
module AgendaTermination {
  import opened Tasks
  import opened AgendaCore
  import opened AgendaSystem
  import opened AgendaSafety
  import opened AgendaWeights

  // ---------- no infinite descent ----------

  ghost predicate LowerAt(a: nat -> nat, b: nat -> nat, top: nat, l: nat) {
    b(l) < a(l) && forall k: nat :: l < k <= top ==> b(k) == a(k)
  }

  ghost predicate Lower(a: nat -> nat, b: nat -> nat, top: nat) {
    exists l: nat :: l <= top && LowerAt(a, b, top, l)
  }

  ghost predicate Descends(w: nat -> nat -> nat, top: nat, i: nat) { Lower(w(i), w(i + 1), top) }

  lemma {:induction false} TopNeverGrows(w: nat -> nat -> nat, top: nat, i: nat, j: nat)
    requires i <= j && forall n: nat :: n >= i ==> Descends(w, top, n)
    ensures w(j)(top) <= w(i)(top)
    decreases j - i
  {
    if i < j {
      assert Descends(w, top, i);
      TopNeverGrows(w, top, i + 1, j);
    }
  }

  /** No sequence of weights descends lexicographically for ever. */
  lemma {:induction false} NoInfiniteDescent(w: nat -> nat -> nat, top: nat, i: nat)
    requires forall n: nat :: n >= i ==> Descends(w, top, n)
    ensures false
    decreases top, w(i)(top)
  {
    if j: nat :| j >= i && w(j)(top) != w(i)(top) {
      TopNeverGrows(w, top, i, j);
      NoInfiniteDescent(w, top, j);
    } else if top == 0 {
      BottomFalls(w, i);
    } else {
      var low := top - 1;
      forall n: nat {:trigger Descends(w, low, n)} | n >= i
        ensures Descends(w, low, n)
      {
        DescendsBelow(w, top, i, n);
      }
      NoInfiniteDescent(w, low, i);
    }
  }

  lemma DescendsBelow(w: nat -> nat -> nat, top: nat, i: nat, n: nat)
    requires top > 0 && n >= i && Descends(w, top, n)
    requires forall j: nat :: j >= i ==> w(j)(top) == w(i)(top)
    ensures Descends(w, top - 1, n)
  {
    var l: nat :| l <= top && LowerAt(w(n), w(n + 1), top, l);
    assert w(n)(top) == w(i)(top) && w(n + 1)(top) == w(i)(top);
    assert l <= top - 1 && LowerAt(w(n), w(n + 1), top - 1, l);
  }

  lemma BottomFalls(w: nat -> nat -> nat, i: nat)
    requires Descends(w, 0, i)
    ensures w(i + 1)(0) < w(i)(0)
  {
  }

  // ---------- main result ----------

  /** An infinite history of the scheduler. */
  ghost predicate History(lim: Limits, run: nat -> Sys, acts: nat -> Action) {
    Start(lim, run(0)) && forall i: nat :: Step(lim, run(i), acts(i), run(i + 1))
  }

  lemma {:induction false} HistoryIsSafe(lim: Limits, run: nat -> Sys, acts: nat -> Action, i: nat)
    requires History(lim, run, acts)
    ensures Inv(lim, run(i))
  {
    hide Inv, Enabled, Apply;
    if i == 0 {
      StartIsSafe(lim, run(0));
    } else {
      HistoryIsSafe(lim, run, acts, i - 1);
      assert Step(lim, run(i - 1), acts(i - 1), run(i - 1 + 1));
      StepIsSafe(lim, run(i - 1), acts(i - 1));
    }
  }

  lemma {:induction false} HistoryRanks(lim: Limits, run: nat -> Sys, acts: nat -> Action, top: nat, i: nat)
    requires History(lim, run, acts) && RanksBelow(run(0), top)
    ensures RanksBelow(run(i), top)
  {
    hide RanksBelow, Enabled, Apply;
    if i > 0 {
      HistoryRanks(lim, run, acts, top, i - 1);
      HistoryIsSafe(lim, run, acts, i - 1);
      assert Step(lim, run(i - 1), acts(i - 1), run(i - 1 + 1));
      RanksStep(lim, run(i - 1), acts(i - 1), top);
    }
  }

  lemma {:induction false} RankBound(q: seq<Task>) returns (top: nat)
    ensures forall t :: t in q ==> Rank(t.kind) < top
  {
    if q == [] {
      top := 0;
    } else {
      top := RankBound(q[1..]);
      if top <= Rank(q[0].kind) { top := Rank(q[0].kind) + 1; }
    }
  }

  lemma HistoryDescends(lim: Limits, run: nat -> Sys, acts: nat -> Action, top: nat, i: nat)
    returns (l: nat)
    requires History(lim, run, acts) && RanksBelow(run(0), top) && Productive(run(i), acts(i))
    ensures l <= top + 1 && FallsAt(run(i), run(i + 1), l)
  {
    HistoryIsSafe(lim, run, acts, i);
    HistoryRanks(lim, run, acts, top, i);
    assert Step(lim, run(i), acts(i), run(i + 1));
    StepFalls(lim, run(i), acts(i));
    FallIsBelow(lim, run(i), acts(i), top);
    l := FallLevel(lim, run(i), acts(i));
  }

  /** A history can only go on for ever if spurious wake-ups or stalled planning never stop. No
      fairness is assumed of the scheduler of threads. */
  lemma HistoriesEndOrStall(lim: Limits, run: nat -> Sys, acts: nat -> Action, n: nat)
    requires History(lim, run, acts)
    ensures exists m: nat :: m >= n && !Productive(run(m), acts(m))
  {
    if forall m: nat :: m >= n ==> Productive(run(m), acts(m)) {
      var top := RankBound(run(0).core.queue);
      assert RanksBelow(run(0), top);
      var w := (i: nat) => (k: nat) => Weight(run(i), k);
      var high := top + 1;
      forall i: nat {:trigger Descends(w, high, i)} | i >= n
        ensures Descends(w, high, i)
      {
        var l := HistoryDescends(lim, run, acts, top, i);
        assert LowerAt(w(i), w(i + 1), high, l);
      }
      NoInfiniteDescent(w, high, n);
    }
  }

  lemma StallsBelowTwo(lim: Limits, s: Sys, a: Action)
    requires ConfigOk(lim) && TasksOk(lim, s) && Enabled(lim, s, a) && Stalls(s, a)
    ensures lim.maxSegments < 2
    ensures s.workers[a.w].task.kind.Uploader? || s.workers[a.w].task.kind.CompressBlock?
  {
    assert WorkerOk(lim, s.core.running, s.workers[a.w]);
  }

  /** With two segments or more in flight, every history without spurious wake-ups ends; and
      `DeadlockFree` says where. */
  lemma HistoriesEnd(lim: Limits, run: nat -> Sys, acts: nat -> Action, n: nat)
    requires History(lim, run, acts) && lim.maxSegments >= 2
    ensures exists m: nat :: m >= n && acts(m).Spurious?
  {
    HistoriesEndOrStall(lim, run, acts, n);
    var m: nat :| m >= n && !Productive(run(m), acts(m));
    HistoryIsSafe(lim, run, acts, m);
    assert Step(lim, run(m), acts(m), run(m + 1));
    if Stalls(run(m), acts(m)) { StallsBelowTwo(lim, run(m), acts(m)); }
  }
}
