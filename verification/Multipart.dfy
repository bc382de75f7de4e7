/** Completing a multipart upload: the part tasks of one file, retried and interleaved at will. The
    tasks are a list of part numbers, because nothing keeps a number from being scheduled twice. */
module Multipart {
  import opened Bytes
  import opened Counting
  import opened Tasks
  import opened Wrappers

  /** How a request ended: it worked, or it raised a warning (the task is tried again) or a fatal
      error (it is not). */
  datatype Outcome = Ok | Warn | Fatal

  /** The record that the part tasks of an upload share. */
  datatype Progress = Progress(numParts: nat, numCompleted: nat, etags: seq<string>)

  /** The guarded section at the end of a part task: counts it, then files its tag. */
  function Record(p: Progress, num: nat, etag: string): Progress
    requires num < |p.etags|
  {
    p.(numCompleted := p.numCompleted + 1, etags := p.etags[num := etag])
  }

  /** `Sent`: the part's bytes are with the server, but the task has not yet taken the lock. */
  datatype State = Pending(tries: nat) | Sent(tries: nat) | Done | Failed

  datatype PartTask = PartTask(num: nat, state: State)

  /** `tags` are the server's tags for the parts; the client gives up on any other answer. `stored`
      says which parts the server has; `commits` are the numbers of the guarded sections so far, in
      their order; `calls` counts the completing requests, `call` is how the last one ended, `named`
      whether it named the tag of every part; `assembled` is the object. */
  datatype Upload = Upload(data: seq<seq<Byte>>, tags: seq<string>, tasks: seq<PartTask>, progress: Progress,
                           stored: seq<bool>, commits: seq<nat>, calls: nat, call: Option<Outcome>,
                           named: bool, assembled: Option<seq<Byte>>)

  datatype Action =
    | Send(i: nat)
    | SendFails(i: nat, outcome: Outcome)
    | Commit(i: nat, outcome: Outcome)

  predicate Shape(u: Upload) {
    && |u.data| > 0
    && |u.data| == |u.tags| == |u.progress.etags| == |u.stored| == u.progress.numParts
    && (forall k :: 0 <= k < |u.tags| ==> u.tags[k] != "")
    && (forall i :: 0 <= i < |u.tasks| ==> u.tasks[i].num < |u.data|)
  }

  predicate Enabled(u: Upload, a: Action) {
    && Shape(u) && a.i < |u.tasks|
    && match a
      case Send(i) => u.tasks[i].state.Pending?
      case SendFails(i, outcome) => u.tasks[i].state.Pending? && !outcome.Ok?
      case Commit(i, _) => u.tasks[i].state.Sent?
  }

  function AfterError(tries: nat, outcome: Outcome): State {
    if outcome.Warn? && tries > 1 then Pending(tries - 1) else Failed
  }

  function Become(tasks: seq<PartTask>, i: nat, state: State): seq<PartTask>
    requires i < |tasks|
  {
    tasks[i := tasks[i].(state := state)]
  }

  /** No slot is empty. */
  predicate AllNamed(etags: seq<string>) { forall k :: 0 <= k < |etags| ==> etags[k] != "" }

  /** The completing request, with the tags as they are: the server puts an object together from the
      parts in number order, if it has them all under the tags that it is given. */
  function Complete(u: Upload, i: nat, outcome: Outcome): Upload
    requires i < |u.tasks| && u.tasks[i].state.Sent?
  {
    var named := AllNamed(u.progress.etags);
    var state := if outcome.Ok? then Done else AfterError(u.tasks[i].state.tries, outcome);
    u.(tasks := Become(u.tasks, i, state), calls := u.calls + 1, call := Some(outcome), named := named,
       assembled := if outcome.Ok? && u.progress.etags == u.tags && (forall k :: 0 <= k < |u.stored| ==> u.stored[k])
                    then Some(Concat(u.data)) else u.assembled)
  }

  function Apply(u: Upload, a: Action): Upload
    requires Enabled(u, a)
  {
    match a
    case Send(i) =>
      u.(tasks := Become(u.tasks, i, Sent(u.tasks[i].state.tries)), stored := u.stored[u.tasks[i].num := true])
    case SendFails(i, outcome) =>
      u.(tasks := Become(u.tasks, i, AfterError(u.tasks[i].state.tries, outcome)))
    case Commit(i, outcome) =>
      var num := u.tasks[i].num;
      var recorded := u.(progress := Record(u.progress, num, u.tags[num]), commits := u.commits + [num]);
      if recorded.progress.numCompleted == u.progress.numParts then Complete(recorded, i, outcome)
      else recorded.(tasks := Become(u.tasks, i, Done))
  }

  /** An upload of `data` whose scheduled part tasks have the numbers `nums`. */
  function Start(data: seq<seq<Byte>>, tags: seq<string>, nums: seq<nat>): Upload {
    Upload(data, tags, seq(|nums|, i requires 0 <= i < |nums| => PartTask(nums[i], Pending(TRIES))),
           Progress(|data|, 0, seq(|data|, _ => "")), seq(|data|, _ => false), [], 0, None, false, None)
  }

  /** What an upload starts from: a tag for each part, and numbers of parts. */
  predicate Planned(data: seq<seq<Byte>>, tags: seq<string>, nums: seq<nat>) {
    && |data| == |tags| > 0 && AllNamed(tags)
    && forall i :: 0 <= i < |nums| ==> nums[i] < |data|
  }

  function Run(u: Upload, acts: seq<Action>): Option<Upload>
    decreases |acts|
  {
    if acts == [] then Some(u)
    else if Enabled(u, acts[0]) then Run(Apply(u, acts[0]), acts[1..])
    else None
  }

  // ---------- what every step keeps ----------

  /** Slots are filled with the right tags, exactly for the numbers committed; a task that is past
      sending has its part stored. */
  ghost predicate SlotsOk(u: Upload)
    requires Shape(u)
  {
    && u.progress.numCompleted == |u.commits|
    && (forall k :: 0 <= k < |u.commits| ==> u.commits[k] < |u.data|)
    && (forall k :: 0 <= k < |u.data| ==> u.progress.etags[k] == if k in u.commits then u.tags[k] else "")
    && (forall k :: 0 <= k < |u.data| && k in u.commits ==> u.stored[k])
    && (forall i :: 0 <= i < |u.tasks| && u.tasks[i].state.Sent? ==> u.stored[u.tasks[i].num])
  }

  /** The completing request is made by the commit that brings the count to the number of parts. */
  ghost predicate CallOk(u: Upload)
    requires Shape(u)
  {
    && u.calls == (if |u.commits| >= |u.data| then 1 else 0)
    && (u.call.Some? <==> u.calls == 1)
    && (u.calls == 1 ==> (u.named <==> CoversAll(u.commits[..|u.data|], |u.data|)))
    && u.assembled == (if u.calls == 1 && u.named && u.call.value.Ok? then Some(Concat(u.data)) else None)
  }

  ghost predicate Inv(u: Upload) { Shape(u) && SlotsOk(u) && CallOk(u) }

  lemma CommittedSlots(u: Upload, i: nat)
    requires Inv(u) && Enabled(u, Commit(i, Ok))
    ensures var p, commits := Record(u.progress, u.tasks[i].num, u.tags[u.tasks[i].num]), u.commits + [u.tasks[i].num];
      && (forall k :: 0 <= k < |u.data| ==> p.etags[k] == if k in commits then u.tags[k] else "")
      && (forall k :: 0 <= k < |u.data| && k in commits ==> u.stored[k])
      && (AllNamed(p.etags) <==> CoversAll(commits, |u.data|))
      && (AllNamed(p.etags) ==> p.etags == u.tags)
  {
    var num := u.tasks[i].num;
    var p, commits := Record(u.progress, num, u.tags[num]), u.commits + [num];
    forall k | 0 <= k < |u.data|
      ensures p.etags[k] == if k in commits then u.tags[k] else ""
      ensures k in commits ==> u.stored[k]
    {
      assert k in commits <==> k in u.commits || k == num;
    }
    if AllNamed(p.etags) {
      forall k: nat | k < |u.data| ensures k in commits { assert p.etags[k] != ""; }
    }
  }

  /** Whatever a part task does next, the invariant survives. */
  lemma StepKeepsInv(u: Upload, a: Action)
    requires Inv(u) && Enabled(u, a)
    ensures Inv(Apply(u, a))
  {
    if a.Commit? {
      CommittedSlots(u, a.i);
      CommitKeepsInv(u, a.i, a.outcome);
    }
  }

  lemma CommitKeepsInv(u: Upload, i: nat, outcome: Outcome)
    requires Inv(u) && Enabled(u, Commit(i, outcome))
    ensures Inv(Apply(u, Commit(i, outcome)))
  {
    CommittedSlots(u, i);
    var u', n := Apply(u, Commit(i, outcome)), |u.data|;
    if |u.commits| >= n {
      assert u'.commits[..n] == u.commits[..n];
    } else if |u.commits| + 1 == n {
      assert u'.commits[..n] == u'.commits;
    }
  }

  lemma StartHasInv(data: seq<seq<Byte>>, tags: seq<string>, nums: seq<nat>)
    requires Planned(data, tags, nums)
    ensures Inv(Start(data, tags, nums))
  {
  }

  /** What no step changes. */
  ghost predicate SameUpload(u: Upload, u': Upload) {
    && u'.data == u.data && u'.tags == u.tags && |u'.tasks| == |u.tasks|
    && forall i :: 0 <= i < |u.tasks| ==> u'.tasks[i].num == u.tasks[i].num
  }

  lemma {:induction false} RunKeepsInv(u: Upload, acts: seq<Action>)
    requires Inv(u) && Run(u, acts).Some?
    ensures Inv(Run(u, acts).value)
    decreases |acts|
  {
    hide Inv, Enabled, Apply;
    if acts != [] {
      StepKeepsInv(u, acts[0]);
      RunKeepsInv(Apply(u, acts[0]), acts[1..]);
    }
  }

  lemma StepIsSame(u: Upload, a: Action)
    requires Enabled(u, a)
    ensures SameUpload(u, Apply(u, a))
  {
  }

  lemma {:induction false} RunIsSame(u: Upload, acts: seq<Action>)
    requires Run(u, acts).Some?
    ensures SameUpload(u, Run(u, acts).value)
    decreases |acts|
  {
    if acts != [] {
      StepIsSame(u, acts[0]);
      hide Enabled, Apply;
      RunIsSame(Apply(u, acts[0]), acts[1..]);
    }
  }

  /** Each finished task has committed. */
  function IsDone(): PartTask -> bool { (t: PartTask) => t.state.Done? }

  ghost predicate DoneOk(u: Upload) { Count(u.tasks, IsDone()) <= |u.commits| }

  lemma StepKeepsDone(u: Upload, a: Action)
    requires DoneOk(u) && Enabled(u, a)
    ensures DoneOk(Apply(u, a))
  {
    CountUpdate(u.tasks, a.i, Apply(u, a).tasks[a.i], IsDone());
  }

  lemma {:induction false} RunKeepsDone(u: Upload, acts: seq<Action>)
    requires DoneOk(u) && Run(u, acts).Some?
    ensures DoneOk(Run(u, acts).value)
    decreases |acts|
  {
    if acts != [] {
      StepKeepsDone(u, acts[0]);
      hide Enabled, Apply, DoneOk;
      RunKeepsDone(Apply(u, acts[0]), acts[1..]);
    }
  }

  // ---------- whole uploads ----------

  /** Over all interleavings and retries, however often a part number was scheduled: the completing
      request is made at most once, by the commit that fills the count. It names the tag of every part
      if and only if the commits up to then were of different parts. There is an object exactly if it
      named them all and did not fail, and then the object is all parts in number order. */
  lemma CompletedAtMostOnce(data: seq<seq<Byte>>, tags: seq<string>, nums: seq<nat>, acts: seq<Action>)
    requires Planned(data, tags, nums) && Run(Start(data, tags, nums), acts).Some?
    ensures var u := Run(Start(data, tags, nums), acts).value;
      && u.calls == (if |u.commits| >= |data| then 1 else 0)
      && (u.calls == 1 ==> (u.named <==> Distinct(u.commits[..|data|])))
      && u.assembled == if u.calls == 1 && u.named && u.call == Some(Ok) then Some(Concat(data)) else None
  {
    StartHasInv(data, tags, nums);
    RunKeepsInv(Start(data, tags, nums), acts);
    RunIsSame(Start(data, tags, nums), acts);
    var u := Run(Start(data, tags, nums), acts).value;
    if u.calls == 1 { Pigeonholes(u.commits[..|data|], |data|); }
  }

  /** The part numbers of the guarded sections in a run, in their order. */
  function Committed(nums: seq<nat>, acts: seq<Action>): seq<nat>
    requires forall k :: 0 <= k < |acts| ==> acts[k].i < |nums|
  {
    if acts == [] then []
    else (if acts[0].Commit? then [nums[acts[0].i]] else []) + Committed(nums, acts[1..])
  }

  lemma {:induction false} CommitsAreActions(u: Upload, nums: seq<nat>, acts: seq<Action>)
    requires Run(u, acts).Some? && |nums| == |u.tasks|
    requires forall i :: 0 <= i < |nums| ==> u.tasks[i].num == nums[i]
    ensures forall k :: 0 <= k < |acts| ==> acts[k].i < |nums|
    ensures Run(u, acts).value.commits == u.commits + Committed(nums, acts)
    decreases |acts|
  {
    if acts == [] {
      assert u.commits + [] == u.commits;
    } else {
      var u' := Apply(u, acts[0]);
      StepIsSame(u, acts[0]);
      var own := if acts[0].Commit? then [nums[acts[0].i]] else [];
      assert u'.commits == u.commits + own;
      hide Enabled, Apply;
      CommitsAreActions(u', nums, acts[1..]);
      assert u.commits + own + Committed(nums, acts[1..]) == u.commits + (own + Committed(nums, acts[1..]));
      assert forall k :: 0 < k < |acts| ==> acts[k] == acts[1..][k - 1];
    }
  }

  /** The same said of the run alone: the request is made exactly if as many guarded sections as there
      are parts have run, whichever they are, and it names every part exactly if the first so many are of
      different parts. */
  lemma RequestIff(data: seq<seq<Byte>>, tags: seq<string>, nums: seq<nat>, acts: seq<Action>)
    requires Planned(data, tags, nums) && Run(Start(data, tags, nums), acts).Some?
    ensures forall k :: 0 <= k < |acts| ==> acts[k].i < |nums|
    ensures var u, done := Run(Start(data, tags, nums), acts).value, Committed(nums, acts);
      && u.calls == (if |done| >= |data| then 1 else 0)
      && (|done| >= |data| ==> (u.named <==> Distinct(done[..|data|])))
  {
    var u := Start(data, tags, nums);
    CommitsAreActions(u, nums, acts);
    assert [] + Committed(nums, acts) == Committed(nums, acts);
    CompletedAtMostOnce(data, tags, nums, acts);
  }

  // ---------- retries ----------

  lemma {:induction false} RunLast(u: Upload, acts: seq<Action>)
    requires acts != [] && Run(u, acts).Some?
    ensures var before := Run(u, acts[..|acts| - 1]);
      && before.Some? && Enabled(before.value, acts[|acts| - 1])
      && Run(u, acts) == Some(Apply(before.value, acts[|acts| - 1]))
    decreases |acts|
  {
    hide Enabled, Apply;
    if |acts| == 1 {
      assert acts[..0] == [] && acts[1..] == [];
    } else {
      RunLast(Apply(u, acts[0]), acts[1..]);
      assert acts[..|acts| - 1][1..] == acts[1..][..|acts| - 2];
    }
  }

  /** How often a task has sent its part, or tried to. */
  function Sends(acts: seq<Action>, i: nat): nat
    decreases |acts|
  {
    if acts == [] then 0
    else
      var last := acts[|acts| - 1];
      Sends(acts[..|acts| - 1], i) + (if last.i == i && !last.Commit? then 1 else 0)
  }

  lemma StateStep(u: Upload, a: Action, i: nat)
    requires Enabled(u, a) && i < |u.tasks|
    ensures |Apply(u, a).tasks| == |u.tasks|
    ensures var t, t' := u.tasks[i].state, Apply(u, a).tasks[i].state;
      if a.i != i then t' == t
      else if a.Send? then t.Pending? && t' == Sent(t.tries)
      else if a.SendFails? then t.Pending? && a.outcome != Ok && t' == AfterError(t.tries, a.outcome)
      else t.Sent? && (t' == Done || (a.outcome != Ok && t' == AfterError(t.tries, a.outcome)))
  {
  }

  /** A task is attempted ten times at most. A fatal error while it sends ends it at once; but without
      fatal errors it is given up only after ten attempts. */
  lemma {:induction false} TenAttempts(data: seq<seq<Byte>>, tags: seq<string>, nums: seq<nat>, acts: seq<Action>,
                                       i: nat)
    requires Planned(data, tags, nums) && Run(Start(data, tags, nums), acts).Some? && i < |nums|
    ensures var u := Run(Start(data, tags, nums), acts).value;
      && |u.tasks| == |nums| && Sends(acts, i) <= 10
      && (u.tasks[i].state.Pending? ==> u.tasks[i].state.tries == 10 - Sends(acts, i) > 0)
      && (u.tasks[i].state.Sent? ==> u.tasks[i].state.tries == 11 - Sends(acts, i) > 0)
      && (SendFails(i, Fatal) in acts ==> u.tasks[i].state.Failed?)
      && (u.tasks[i].state.Failed? ==> Sends(acts, i) == 10 || SendFails(i, Fatal) in acts || Commit(i, Fatal) in acts)
    decreases |acts|
  {
    if acts != [] {
      var u, last, before := Start(data, tags, nums), acts[|acts| - 1], acts[..|acts| - 1];
      RunLast(u, acts);
      TenAttempts(data, tags, nums, before, i);
      StateStep(Run(u, before).value, last, i);
      assert acts == before + [last];
      hide Run, Enabled, Apply, AllNamed;
    }
  }

  /** When all part tasks end well, and there are enough of them, the request has been made. */
  lemma CompletedWhenAllEndWell(data: seq<seq<Byte>>, tags: seq<string>, nums: seq<nat>, acts: seq<Action>)
    requires Planned(data, tags, nums) && |nums| >= |data| && Run(Start(data, tags, nums), acts).Some?
    ensures var u := Run(Start(data, tags, nums), acts).value;
      (forall i :: 0 <= i < |u.tasks| ==> u.tasks[i].state.Done?) ==> u.calls == 1
  {
    var s := Start(data, tags, nums);
    CountBounds(s.tasks, IsDone());
    RunKeepsDone(s, acts);
    RunIsSame(s, acts);
    CountBounds(Run(s, acts).value.tasks, IsDone());
    CompletedAtMostOnce(data, tags, nums, acts);
  }

  // ---------- each number scheduled once ----------

  /** Before the request, a number has been committed exactly if its task is done. */
  ghost predicate OnceOk(u: Upload) {
    && (forall i, j :: 0 <= i < j < |u.tasks| ==> u.tasks[i].num != u.tasks[j].num)
    && Distinct(u.commits[..Min(|u.commits|, |u.data|)])
    && (|u.commits| < |u.data| ==>
          forall i :: 0 <= i < |u.tasks| ==> (u.tasks[i].state.Done? <==> u.tasks[i].num in u.commits))
  }

  lemma StepKeepsOnce(u: Upload, a: Action)
    requires Inv(u) && OnceOk(u) && Enabled(u, a)
    ensures OnceOk(Apply(u, a))
  {
    var u', n := Apply(u, a), |u.data|;
    if a.Commit? {
      if |u.commits| >= n {
        assert u'.commits[..n] == u.commits[..n];
      } else {
        assert u.commits[..|u.commits|] == u.commits && u'.commits[..|u'.commits|] == u'.commits;
        DistinctSnoc(u.commits, u.tasks[a.i].num);
      }
    }
  }

  lemma {:induction false} RunKeepsOnce(u: Upload, acts: seq<Action>)
    requires Inv(u) && OnceOk(u) && Run(u, acts).Some?
    ensures OnceOk(Run(u, acts).value)
    decreases |acts|
  {
    hide Inv, OnceOk, Enabled, Apply;
    if acts != [] {
      StepKeepsOnce(u, acts[0]);
      StepKeepsInv(u, acts[0]);
      RunKeepsOnce(Apply(u, acts[0]), acts[1..]);
    }
  }

  /** With no number scheduled twice the request names the tag of every part. */
  lemma NamesEveryPart(data: seq<seq<Byte>>, tags: seq<string>, nums: seq<nat>, acts: seq<Action>)
    requires Planned(data, tags, nums) && Distinct(nums) && Run(Start(data, tags, nums), acts).Some?
    ensures var u := Run(Start(data, tags, nums), acts).value; u.calls == 1 ==> u.named
  {
    var s := Start(data, tags, nums);
    StartHasInv(data, tags, nums);
    RunKeepsOnce(s, acts);
    RunIsSame(s, acts);
    CompletedAtMostOnce(data, tags, nums, acts);
  }

  // ---------- numbers scheduled several times ----------

  /** The part numbers that `fires` runs of the planning schedule. */
  function Copies(n: nat, fires: nat): seq<nat> { if fires == 0 then [] else Numbers(n) + Copies(n, fires - 1) }

  lemma {:induction false} CopiesFacts(n: nat, fires: nat)
    requires fires > 0
    ensures |Copies(n, fires)| >= n && Copies(n, fires)[..n] == Numbers(n)
    ensures forall i :: 0 <= i < |Copies(n, fires)| ==> Copies(n, fires)[i] < n
    ensures fires == 1 ==> Copies(n, fires) == Numbers(n)
    ensures fires > 1 && n > 0 ==> |Copies(n, fires)| > n && Copies(n, fires)[n] == 0
  {
    if fires > 1 {
      CopiesFacts(n, fires - 1);
      if n > 0 { assert Copies(n, fires - 1)[0] == Copies(n, fires - 1)[..n][0]; }
    } else {
      assert Copies(n, 0) == [];
    }
  }

  /** Tasks that run one after the other, each to its end. */
  function InTurn(order: seq<nat>): seq<Action> {
    if order == [] then [] else [Send(order[0]), Commit(order[0], Ok)] + InTurn(order[1..])
  }

  function NumsOf(tasks: seq<PartTask>, order: seq<nat>): seq<nat>
    requires forall i :: 0 <= i < |order| ==> order[i] < |tasks|
  {
    seq(|order|, i requires 0 <= i < |order| => tasks[order[i]].num)
  }

  lemma RunTwo(u: Upload, a: Action, b: Action, rest: seq<Action>)
    requires Enabled(u, a) && Enabled(Apply(u, a), b)
    ensures Run(u, [a, b] + rest) == Run(Apply(Apply(u, a), b), rest)
  {
    assert ([a, b] + rest)[1..] == [b] + rest && ([b] + rest)[1..] == rest;
  }

  ghost predicate AllPending(u: Upload, order: seq<nat>) {
    forall i :: 0 <= i < |order| ==> order[i] < |u.tasks| && u.tasks[order[i]].state.Pending?
  }

  lemma TaskInTurn(u: Upload, k: nat) returns (u': Upload)
    requires Inv(u) && k < |u.tasks| && u.tasks[k].state.Pending?
    ensures Enabled(u, Send(k)) && Enabled(Apply(u, Send(k)), Commit(k, Ok))
    ensures u' == Apply(Apply(u, Send(k)), Commit(k, Ok)) && Inv(u')
    ensures u'.commits == u.commits + [u.tasks[k].num] && SameUpload(u, u')
    ensures forall j :: 0 <= j < |u.tasks| && j != k ==> u'.tasks[j] == u.tasks[j]
  {
    var sent := Apply(u, Send(k));
    u' := Apply(sent, Commit(k, Ok));
    StepKeepsInv(u, Send(k));
    StepKeepsInv(sent, Commit(k, Ok));
  }

  lemma RestInTurn(u: Upload, u': Upload, order: seq<nat>)
    requires order != [] && Distinct(order) && AllPending(u, order) && SameUpload(u, u')
    requires forall j :: 0 <= j < |u.tasks| && j != order[0] ==> u'.tasks[j] == u.tasks[j]
    ensures Distinct(order[1..]) && AllPending(u', order[1..])
    ensures NumsOf(u.tasks, order) == [u.tasks[order[0]].num] + NumsOf(u'.tasks, order[1..])
  {
    var rest := order[1..];
    forall i | 0 <= i < |rest| ensures rest[i] < |u.tasks| && u'.tasks[rest[i]] == u.tasks[rest[i]] {
      assert order[i + 1] == rest[i];
    }
  }

  lemma {:induction false} RunInTurn(u: Upload, order: seq<nat>)
    requires Inv(u) && Distinct(order) && AllPending(u, order)
    ensures Run(u, InTurn(order)).Some?
    ensures Run(u, InTurn(order)).value.commits == u.commits + NumsOf(u.tasks, order)
    decreases |order|
  {
    if order != [] {
      var k, rest := order[0], order[1..];
      var u' := TaskInTurn(u, k);
      RunTwo(u, Send(k), Commit(k, Ok), InTurn(rest));
      RestInTurn(u, u', order);
      hide Inv, Enabled, Apply, Distinct, AllPending, SameUpload, NumsOf;
      RunInTurn(u', rest);
      assert u.commits + [u.tasks[k].num] + NumsOf(u'.tasks, rest)
          == u.commits + ([u.tasks[k].num] + NumsOf(u'.tasks, rest));
    }
  }

  /** Two runs of the planning over two or more parts: a run of the part tasks that sends the
      completing request without the tag of some part. */
  lemma SecondPlanningMissesAPart(data: seq<seq<Byte>>, tags: seq<string>, fires: nat) returns (acts: seq<Action>)
    requires Planned(data, tags, []) && |data| >= 2 && fires >= 2
    ensures var r := Run(Start(data, tags, Copies(|data|, fires)), acts);
      r.Some? && r.value.calls == 1 && !r.value.named
  {
    var n := |data|;
    CopiesFacts(n, fires);
    var nums := Copies(n, fires);
    var u := Start(data, tags, nums);
    var order := [0, n] + seq(n - 2, i requires 0 <= i => i + 1);
    acts := InTurn(order);
    StartHasInv(data, tags, nums);
    RunInTurn(u, order);
    var commits := NumsOf(u.tasks, order);
    assert nums[0] == nums[..n][0];
    assert commits[0] == 0 && commits[1] == 0;
    assert [] + commits == commits && commits[..n] == commits;
    CompletedAtMostOnce(data, tags, nums, acts);
  }

  /** The request names every part in every run if and only if the planning ran once, or there is a
      single part. */
  lemma NamesEveryPartIff(data: seq<seq<Byte>>, tags: seq<string>, fires: nat)
    requires Planned(data, tags, []) && fires > 0
    ensures (forall acts: seq<Action> :: var r := Run(Start(data, tags, Copies(|data|, fires)), acts);
               r.Some? && r.value.calls == 1 ==> r.value.named)
       <==> fires == 1 || |data| == 1
  {
    var n, nums := |data|, Copies(|data|, fires);
    CopiesFacts(n, fires);
    if fires == 1 {
      forall acts: seq<Action> | Run(Start(data, tags, nums), acts).Some?
        ensures var u := Run(Start(data, tags, nums), acts).value; u.calls == 1 ==> u.named
      {
        NamesEveryPart(data, tags, nums, acts);
      }
    } else if n == 1 {
      forall acts: seq<Action> | Run(Start(data, tags, nums), acts).Some?
        ensures var u := Run(Start(data, tags, nums), acts).value; u.calls == 1 ==> u.named
      {
        CompletedAtMostOnce(data, tags, nums, acts);
      }
    } else {
      var acts := SecondPlanningMissesAPart(data, tags, fires);
    }
  }

  // ---------- particular uploads ----------

  /** That every part task ends well is not enough: if the completing request raises a warning, the
      retried task passes the count by and reports success with nothing assembled. */
  lemma WarningLosesTheObject(bytes: seq<Byte>)
    ensures var acts := [Send(0), Commit(0, Warn)] + ([Send(0), Commit(0, Ok)] + []);
      var r := Run(Start([bytes], ["t"], [0]), acts);
      r.Some? && r.value.tasks == [PartTask(0, Done)] && r.value.calls == 1 && r.value.assembled == None
  {
    var u0 := Start([bytes], ["t"], [0]);
    var u1 := Apply(u0, Send(0));
    var u2 := Apply(u1, Commit(0, Warn));
    assert u2.tasks == [PartTask(0, Pending(TRIES - 1))];
    var u3 := Apply(u2, Send(0));
    RunTwo(u0, Send(0), Commit(0, Warn), [Send(0), Commit(0, Ok)] + []);
    RunTwo(u2, Send(0), Commit(0, Ok), []);
    assert Apply(u3, Commit(0, Ok)).tasks == [PartTask(0, Done)];
  }

  /** With the parts a planned upload produces, an assembled object is the file, however often the
      planning ran. */
  lemma AssembledIsTheFile(file: seq<Byte>, size: nat, n: nat, tags: seq<string>, nums: seq<nat>, acts: seq<Action>)
    requires size > 0 && n == CountOfParts(|file|, size)
    requires Planned(PartsFrom(file, size, n), tags, nums)
    requires Run(Start(PartsFrom(file, size, n), tags, nums), acts).Some?
    ensures var u := Run(Start(PartsFrom(file, size, n), tags, nums), acts).value;
      u.assembled.Some? ==> u.assembled.value == file
  {
    CompletedAtMostOnce(PartsFrom(file, size, n), tags, nums, acts);
    PartCountIsExact(|file|, size, 0);
    PartsRoundTrip(file, size, n);
  }

  // ---------- the record itself ----------

  /** The shared record of the source, among the tasks and the server that it belongs to. */
  class UploadContent {
    var numParts: nat
    var numCompleted: nat
    var etags: seq<string>
    ghost var around: Upload

    /** The upload as the step relation sees it. */
    ghost function Whole(): Upload
      reads this
    {
      around.(progress := Progress(numParts, numCompleted, etags))
    }

    constructor (parts: nat, ghost data: seq<seq<Byte>>, ghost tags: seq<string>, ghost nums: seq<nat>)
      requires Planned(data, tags, nums) && parts == |data|
      ensures Whole() == Start(data, tags, nums)
    {
      numParts, numCompleted, etags := parts, 0, seq(parts, _ => "");
      around := Start(data, tags, nums);
    }

    /** The end of a part task, all of it under the lock: counts and files the part, and makes the
        completing request when the count is full. This is the step `Commit`. */
    method FinishPart(num: nat, etag: string, ghost i: nat, answer: Outcome) returns (request: Option<seq<string>>)
      requires Enabled(Whole(), Commit(i, answer))
      requires num == Whole().tasks[i].num && etag == Whole().tags[num]
      modifies this
      ensures Whole() == Apply(old(Whole()), Commit(i, answer))
      ensures request.Some? <==> Whole().calls == old(Whole()).calls + 1
      ensures request.Some? ==> request.value == Whole().progress.etags
    {
      numCompleted := numCompleted + 1;
      etags := etags[num := etag];
      request := if numCompleted == numParts then Some(etags) else None;
      ghost var recorded := Whole().(commits := around.commits + [num]);
      around := if request.Some? then Complete(recorded, i, answer)
                else recorded.(tasks := Become(recorded.tasks, i, Done));
    }
  }
}
