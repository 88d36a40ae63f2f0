/** The background lifecycle worker: any number of Run loops on one Worker, their lifecycle
    goroutines, the shared `running` flag and each loop's wait group, interleaved one atomic
    action at a time. */
module Worker {
  import opened Prelude

  datatype Config = Config(enabled: bool, runOnStart: bool, startupDelay: int)

  /** Where a Run loop stands between two atomic actions. */
  datatype LoopPc =
    | Idle        // Run not called yet
    | Waiting     // select on the startup-delay timer and ctx.Done()
    | Selecting   // select on the ticker and ctx.Done()
    | Triggered   // in startRun, about to read ctx.Err()
    | Claiming    // about to compare-and-swap the running flag
    | Adding      // owns the flag, about to call runs.Add(1)
    | Spawning    // about to start the goroutine
    | Draining    // cancelled, blocked in runs.Wait()
    | Returned

  /** `handled` counts the triggers that entered startRun; each ends in one of the other three. */
  datatype Loop = Loop(pc: LoopPc, cancelled: bool, waitGroup: int,
                       handled: nat, started: nat, skipped: nat, ignored: nat)

  /** Where a lifecycle goroutine stands; its deferred calls run last-in first-out. */
  datatype RunPc = Evaluating | Releasing | Finishing | Finished

  datatype Goroutine = Goroutine(owner: nat, pc: RunPc)

  datatype State = State(running: bool, loops: seq<Loop>, runs: seq<Goroutine>)

  datatype Action =
    | Call(loop: nat)             // Run(ctx) is called
    | Cancel(loop: nat)           // that loop's context is cancelled
    | TimerFires(loop: nat)
    | Tick(loop: nat)
    | StopLoop(loop: nat)         // the select takes ctx.Done()
    | CheckContext(loop: nat)
    | CompareAndSwap(loop: nat)
    | AddToGroup(loop: nat)
    | Spawn(loop: nat)
    | Return(loop: nat)           // runs.Wait() lets go
    | EndEvaluation(run: nat)     // RunLifecycle returns, finished or cancelled
    | ReleaseFlag(run: nat)       // running.Store(false)
    | LeaveGroup(run: nat)        // runs.Done()

  function Init(n: nat): State {
    State(false, seq(n, i => Loop(Idle, false, 0, 0, 0, 0, 0)), [])
  }

  predicate LoopAt(s: State, i: nat, pc: LoopPc) { i < |s.loops| && s.loops[i].pc == pc }

  predicate RunAt(s: State, r: nat, pc: RunPc) {
    r < |s.runs| && s.runs[r].pc == pc && s.runs[r].owner < |s.loops|
  }

  predicate Enabled(s: State, a: Action) {
    match a
    case Call(i) => LoopAt(s, i, Idle)
    case Cancel(i) => i < |s.loops|
    case TimerFires(i) => LoopAt(s, i, Waiting)
    case Tick(i) => LoopAt(s, i, Selecting)
    case StopLoop(i) => (LoopAt(s, i, Waiting) || LoopAt(s, i, Selecting)) && s.loops[i].cancelled
    case CheckContext(i) => LoopAt(s, i, Triggered)
    case CompareAndSwap(i) => LoopAt(s, i, Claiming)
    case AddToGroup(i) => LoopAt(s, i, Adding)
    case Spawn(i) => LoopAt(s, i, Spawning)
    case Return(i) => LoopAt(s, i, Draining) && s.loops[i].waitGroup == 0
    case EndEvaluation(r) => RunAt(s, r, Evaluating)
    case ReleaseFlag(r) => RunAt(s, r, Releasing)
    case LeaveGroup(r) => RunAt(s, r, Finishing)
  }

  function Enter(l: Loop): Loop { l.(pc := Triggered, handled := l.handled + 1) }

  function FirstPc(c: Config, l: Loop): Loop {
    if !c.enabled then l.(pc := Returned)
    else if c.runOnStart then Enter(l)
    else if c.startupDelay > 0 then l.(pc := Waiting)
    else l.(pc := Selecting)
  }

  function StepLoop(c: Config, s: State, a: Action): State
    requires Enabled(s, a) && !a.EndEvaluation? && !a.ReleaseFlag? && !a.LeaveGroup?
  {
    var i := a.loop;
    var l := s.loops[i];
    match a
    case Call(_) => s.(loops := s.loops[i := FirstPc(c, l)])
    case Cancel(_) => s.(loops := s.loops[i := l.(cancelled := true)])
    case TimerFires(_) => s.(loops := s.loops[i := Enter(l)])
    case Tick(_) => s.(loops := s.loops[i := Enter(l)])
    case StopLoop(_) => s.(loops := s.loops[i := l.(pc := Draining)])
    case CheckContext(_) =>
      if l.cancelled then s.(loops := s.loops[i := l.(pc := Selecting, ignored := l.ignored + 1)])
      else s.(loops := s.loops[i := l.(pc := Claiming)])
    case CompareAndSwap(_) =>
      if s.running then s.(loops := s.loops[i := l.(pc := Selecting, skipped := l.skipped + 1)])
      else s.(running := true, loops := s.loops[i := l.(pc := Adding)])
    case AddToGroup(_) => s.(loops := s.loops[i := l.(pc := Spawning, waitGroup := l.waitGroup + 1)])
    case Spawn(_) =>
      s.(loops := s.loops[i := l.(pc := Selecting, started := l.started + 1)], runs := s.runs + [Goroutine(i, Evaluating)])
    case Return(_) => s.(loops := s.loops[i := l.(pc := Returned)])
  }

  function StepRun(s: State, a: Action): State
    requires Enabled(s, a) && (a.EndEvaluation? || a.ReleaseFlag? || a.LeaveGroup?)
  {
    var g := s.runs[a.run];
    match a
    case EndEvaluation(r) => s.(runs := s.runs[r := g.(pc := Releasing)])
    case ReleaseFlag(r) => s.(running := false, runs := s.runs[r := g.(pc := Finishing)])
    case LeaveGroup(r) =>
      var l := s.loops[g.owner];
      s.(loops := s.loops[g.owner := l.(waitGroup := l.waitGroup - 1)], runs := s.runs[r := g.(pc := Finished)])
  }

  function Step(c: Config, s: State, a: Action): State
    requires Enabled(s, a)
  {
    if a.EndEvaluation? || a.ReleaseFlag? || a.LeaveGroup? then StepRun(s, a) else StepLoop(c, s, a)
  }

  /** The state after an interleaving, or None when some action in it was not enabled. */
  function Execute(c: Config, n: nat, actions: seq<Action>): Option<State> {
    if actions == [] then Some(Init(n))
    else
      var k := |actions| - 1;
      match Execute(c, n, actions[..k])
      case None => None
      case Some(s) => if Enabled(s, actions[k]) then Some(Step(c, s, actions[k])) else None
  }

  // ----- Invariant -----

  function LoopOwns(l: Loop): nat { if l.pc == Adding || l.pc == Spawning then 1 else 0 }

  function RunOwns(g: Goroutine): nat { if g.pc == Evaluating || g.pc == Releasing then 1 else 0 }

  function Sum<T>(weight: T -> nat, xs: seq<T>): nat {
    if xs == [] then 0 else Sum(weight, xs[..|xs| - 1]) + weight(xs[|xs| - 1])
  }

  /** The flag is set exactly when one loop or goroutine owns it and will clear it. */
  ghost predicate FlagHasOneOwner(s: State) {
    Sum(LoopOwns, s.loops) + Sum(RunOwns, s.runs) == if s.running then 1 else 0
  }

  function Unfinished(runs: seq<Goroutine>, owner: nat): nat {
    if runs == [] then 0
    else
      var g := runs[|runs| - 1];
      Unfinished(runs[..|runs| - 1], owner) + (if g.owner == owner && g.pc != Finished then 1 else 0)
  }

  function Spawned(runs: seq<Goroutine>, owner: nat): nat {
    if runs == [] then 0
    else Spawned(runs[..|runs| - 1], owner) + (if runs[|runs| - 1].owner == owner then 1 else 0)
  }

  predicate InStartRun(l: Loop) {
    l.pc == Triggered || l.pc == Claiming || l.pc == Adding || l.pc == Spawning
  }

  ghost predicate LoopInvariant(s: State, i: nat)
    requires i < |s.loops|
  {
    var l := s.loops[i];
    && l.waitGroup == Unfinished(s.runs, i) + (if l.pc == Spawning then 1 else 0)
    && l.started == Spawned(s.runs, i)
    && l.handled == l.started + l.skipped + l.ignored + (if InStartRun(l) then 1 else 0)
    && (l.ignored > 0 ==> l.cancelled)
    && (l.pc == Idle || l.pc == Returned ==> Unfinished(s.runs, i) == 0)
  }

  ghost predicate Invariant(s: State) {
    && FlagHasOneOwner(s)
    && (forall r :: 0 <= r < |s.runs| ==> s.runs[r].owner < |s.loops|)
    && (forall i :: 0 <= i < |s.loops| ==> LoopInvariant(s, i))
  }

  lemma {:induction false} UnfinishedUpdate(runs: seq<Goroutine>, r: nat, g: Goroutine, owner: nat)
    requires r < |runs| && g.owner == runs[r].owner
    ensures Unfinished(runs[r := g], owner)
            == Unfinished(runs, owner)
               + (if g.owner == owner && g.pc != Finished then 1 else 0)
               - (if g.owner == owner && runs[r].pc != Finished then 1 else 0)
    ensures Spawned(runs[r := g], owner) == Spawned(runs, owner)
  {
    var n := |runs| - 1;
    if r == n {
      assert runs[r := g][..n] == runs[..n];
    } else {
      assert runs[r := g][..n] == runs[..n][r := g];
      UnfinishedUpdate(runs[..n], r, g, owner);
    }
  }

  lemma UnfinishedAppend(runs: seq<Goroutine>, g: Goroutine, owner: nat)
    ensures Unfinished(runs + [g], owner)
            == Unfinished(runs, owner) + (if g.owner == owner && g.pc != Finished then 1 else 0)
    ensures Spawned(runs + [g], owner) == Spawned(runs, owner) + (if g.owner == owner then 1 else 0)
  {
    var all := runs + [g];
    assert all[..|all| - 1] == runs;
  }

  lemma {:induction false} SumUpdate<T>(weight: T -> nat, xs: seq<T>, i: nat, x: T)
    requires i < |xs|
    ensures Sum(weight, xs[i := x]) + weight(xs[i]) == Sum(weight, xs) + weight(x)
  {
    var n := |xs| - 1;
    if i == n {
      assert xs[i := x][..n] == xs[..n];
    } else {
      assert xs[i := x][..n] == xs[..n][i := x];
      SumUpdate(weight, xs[..n], i, x);
    }
  }

  lemma SumAppend<T>(weight: T -> nat, xs: seq<T>, x: T)
    ensures Sum(weight, xs + [x]) == Sum(weight, xs) + weight(x)
  {
    var all := xs + [x];
    assert all[..|all| - 1] == xs;
  }

  lemma {:induction false} SumAtLeast<T>(weight: T -> nat, xs: seq<T>, i: nat)
    requires i < |xs|
    ensures Sum(weight, xs) >= weight(xs[i])
  {
    if i < |xs| - 1 {
      SumAtLeast(weight, xs[..|xs| - 1], i);
    }
  }

  lemma {:induction false} SumAtLeastTwo<T>(weight: T -> nat, xs: seq<T>, i: nat, j: nat)
    requires i < j < |xs|
    ensures Sum(weight, xs) >= weight(xs[i]) + weight(xs[j])
  {
    var n := |xs| - 1;
    if j == n {
      SumAtLeast(weight, xs[..n], i);
    } else {
      SumAtLeastTwo(weight, xs[..n], i, j);
    }
  }

  lemma {:induction false} SumZero<T>(weight: T -> nat, xs: seq<T>)
    requires forall i :: 0 <= i < |xs| ==> weight(xs[i]) == 0
    ensures Sum(weight, xs) == 0
  {
    if xs != [] {
      SumZero(weight, xs[..|xs| - 1]);
    }
  }

  /** How an action moves the total weight of the loops and goroutines. */
  lemma WeighStep(c: Config, s: State, a: Action, loopWeight: Loop -> nat, runWeight: Goroutine -> nat)
    requires Enabled(s, a)
    ensures
      var t := Step(c, s, a);
      if a.EndEvaluation? || a.ReleaseFlag? then
        && t.loops == s.loops
        && Sum(runWeight, t.runs) + runWeight(s.runs[a.run]) == Sum(runWeight, s.runs) + runWeight(t.runs[a.run])
      else if a.LeaveGroup? then
        var o := s.runs[a.run].owner;
        && Sum(loopWeight, t.loops) + loopWeight(s.loops[o]) == Sum(loopWeight, s.loops) + loopWeight(t.loops[o])
        && Sum(runWeight, t.runs) + runWeight(s.runs[a.run]) == Sum(runWeight, s.runs) + runWeight(t.runs[a.run])
      else
        && Sum(loopWeight, t.loops) + loopWeight(s.loops[a.loop]) == Sum(loopWeight, s.loops) + loopWeight(t.loops[a.loop])
        && Sum(runWeight, t.runs) == Sum(runWeight, s.runs) + (if a.Spawn? then runWeight(Goroutine(a.loop, Evaluating)) else 0)
  {
    hide Sum;
    var t := Step(c, s, a);
    if a.EndEvaluation? || a.ReleaseFlag? || a.LeaveGroup? {
      SumUpdate(runWeight, s.runs, a.run, t.runs[a.run]);
      if a.LeaveGroup? {
        var o := s.runs[a.run].owner;
        SumUpdate(loopWeight, s.loops, o, t.loops[o]);
      }
    } else {
      SumUpdate(loopWeight, s.loops, a.loop, t.loops[a.loop]);
      if a.Spawn? {
        SumAppend(runWeight, s.runs, Goroutine(a.loop, Evaluating));
      }
    }
  }

  lemma FlagStep(c: Config, s: State, a: Action)
    requires FlagHasOneOwner(s) && Enabled(s, a)
    ensures FlagHasOneOwner(Step(c, s, a))
  {
    hide Sum;
    WeighStep(c, s, a, LoopOwns, RunOwns);
    if a.ReleaseFlag? {
      SumAtLeast(RunOwns, s.runs, a.run);
    }
  }

  predicate IsRunAction(a: Action) { a.EndEvaluation? || a.ReleaseFlag? || a.LeaveGroup? }

  lemma RunActionKeepsLoops(c: Config, s: State, a: Action, i: nat)
    requires i < |s.loops| && LoopInvariant(s, i) && Enabled(s, a) && IsRunAction(a)
    ensures LoopInvariant(Step(c, s, a), i)
  {
    hide Unfinished, Spawned;
    UnfinishedUpdate(s.runs, a.run, Step(c, s, a).runs[a.run], i);
  }

  lemma LoopActionKeepsLoops(c: Config, s: State, a: Action, i: nat)
    requires i < |s.loops| && LoopInvariant(s, i) && Enabled(s, a) && !IsRunAction(a)
    ensures LoopInvariant(Step(c, s, a), i)
  {
    hide Unfinished, Spawned;
    if a.Spawn? {
      UnfinishedAppend(s.runs, Goroutine(a.loop, Evaluating), i);
    }
  }

  lemma LoopStep(c: Config, s: State, a: Action, i: nat)
    requires Invariant(s) && Enabled(s, a) && i < |s.loops|
    ensures LoopInvariant(Step(c, s, a), i)
  {
    assert LoopInvariant(s, i);
    hide *;
    if IsRunAction(a) {
      RunActionKeepsLoops(c, s, a, i);
    } else {
      LoopActionKeepsLoops(c, s, a, i);
    }
  }

  lemma StepKeepsInvariant(c: Config, s: State, a: Action)
    requires Invariant(s) && Enabled(s, a)
    ensures Invariant(Step(c, s, a)) && |Step(c, s, a).loops| == |s.loops|
  {
    FlagStep(c, s, a);
    OwnersStayKnown(c, s, a);
    hide Step, Enabled, FlagHasOneOwner, LoopInvariant;
    forall i | 0 <= i < |s.loops|
      ensures LoopInvariant(Step(c, s, a), i)
    {
      LoopStep(c, s, a, i);
    }
  }

  lemma OwnersStayKnown(c: Config, s: State, a: Action)
    requires Enabled(s, a) && forall r :: 0 <= r < |s.runs| ==> s.runs[r].owner < |s.loops|
    ensures
      var t := Step(c, s, a);
      |t.loops| == |s.loops| && forall r :: 0 <= r < |t.runs| ==> t.runs[r].owner < |t.loops|
  {
  }

  lemma {:induction false} InvariantHolds(c: Config, n: nat, actions: seq<Action>)
    requires Execute(c, n, actions).Some?
    ensures Invariant(Execute(c, n, actions).value)
    ensures |Execute(c, n, actions).value.loops| == n
  {
    hide *;
    if actions != [] {
      var k := |actions| - 1;
      LastAction(c, n, actions);
      InvariantHolds(c, n, actions[..k]);
      StepKeepsInvariant(c, Execute(c, n, actions[..k]).value, actions[k]);
    } else {
      InvariantAtStart(c, n);
    }
  }

  lemma LastAction(c: Config, n: nat, actions: seq<Action>)
    requires actions != [] && Execute(c, n, actions).Some?
    ensures
      var k := |actions| - 1;
      var before := Execute(c, n, actions[..k]);
      before.Some? && Enabled(before.value, actions[k]) && Execute(c, n, actions) == Some(Step(c, before.value, actions[k]))
  {
    hide Step, Enabled;
  }

  lemma InvariantAtStart(c: Config, n: nat)
    ensures Execute(c, n, []).Some? && Invariant(Execute(c, n, []).value) && |Execute(c, n, []).value.loops| == n
  {
    SumZero(LoopOwns, Init(n).loops);
  }

  // ----- What every interleaving guarantees -----

  /** At most one lifecycle evaluation is in progress. */
  lemma EvaluationsNeverOverlap(c: Config, n: nat, actions: seq<Action>, q: nat, r: nat)
    requires Execute(c, n, actions).Some?
    requires RunAt(Execute(c, n, actions).value, q, Evaluating) && RunAt(Execute(c, n, actions).value, r, Evaluating)
    ensures q == r
  {
    InvariantHolds(c, n, actions);
    var s := Execute(c, n, actions).value;
    if q < r {
      SumAtLeastTwo(RunOwns, s.runs, q, r);
    } else if r < q {
      SumAtLeastTwo(RunOwns, s.runs, r, q);
    }
  }

  /** Every trigger a loop has handled was exactly one of started, skipped and ignored, and only a
      cancelled loop ignores. */
  lemma TriggersAreAccountedFor(c: Config, n: nat, actions: seq<Action>, i: nat)
    requires Execute(c, n, actions).Some? && i < n
    ensures
      var s := Execute(c, n, actions).value;
      |s.loops| == n
      && var l := s.loops[i];
      && (!InStartRun(l) ==> l.handled == l.started + l.skipped + l.ignored)
      && (InStartRun(l) ==> l.handled == l.started + l.skipped + l.ignored + 1)
      && l.started == Spawned(s.runs, i)
      && (l.ignored > 0 ==> l.cancelled)
  {
    InvariantHolds(c, n, actions);
    assert LoopInvariant(Execute(c, n, actions).value, i);
  }

  /** When a loop has returned, every run it started has finished. */
  lemma ReturnsOnlyWhenRunsAreFinished(c: Config, n: nat, actions: seq<Action>, i: nat, r: nat)
    requires Execute(c, n, actions).Some?
    requires LoopAt(Execute(c, n, actions).value, i, Returned)
    requires r < |Execute(c, n, actions).value.runs| && Execute(c, n, actions).value.runs[r].owner == i
    ensures Execute(c, n, actions).value.runs[r].pc == Finished
  {
    InvariantHolds(c, n, actions);
    var s := Execute(c, n, actions).value;
    assert LoopInvariant(s, i);
    NoneUnfinished(s.runs, i, r);
  }

  lemma {:induction false} NoneUnfinished(runs: seq<Goroutine>, owner: nat, r: nat)
    requires r < |runs| && runs[r].owner == owner && Unfinished(runs, owner) == 0
    ensures runs[r].pc == Finished
  {
    if r < |runs| - 1 {
      NoneUnfinished(runs[..|runs| - 1], owner, r);
    }
  }

  // ----- Shutdown -----

  predicate IsShutdownAction(a: Action) {
    !a.Call? && !a.Cancel? && !a.Tick? && !a.TimerFires?
  }

  predicate AllCancelled(s: State) {
    forall i :: 0 <= i < |s.loops| ==> s.loops[i].pc == Idle || s.loops[i].cancelled
  }

  predicate Quiescent(s: State) {
    && (forall i :: 0 <= i < |s.loops| ==> s.loops[i].pc == Idle || s.loops[i].pc == Returned)
    && (forall r :: 0 <= r < |s.runs| ==> s.runs[r].pc == Finished)
  }

  function LoopWork(l: Loop): nat {
    match l.pc
    case Idle => 0
    case Returned => 0
    case Draining => 1
    case Selecting => 2
    case Waiting => 2
    case Spawning => 6
    case Adding => 7
    case Claiming => 8
    case Triggered => 9
  }

  function RunWork(g: Goroutine): nat {
    match g.pc
    case Evaluating => 3
    case Releasing => 2
    case Finishing => 1
    case Finished => 0
  }

  /** A bound on the actions a shutdown still needs. */
  function Remaining(s: State): nat {
    Sum(LoopWork, s.loops) + Sum(RunWork, s.runs)
  }

  /** Every shutdown action uses up some of the remaining work. */
  lemma ShutdownActionsMakeProgress(c: Config, s: State, a: Action)
    requires Invariant(s) && Enabled(s, a) && IsShutdownAction(a)
    ensures Remaining(Step(c, s, a)) < Remaining(s)
  {
    hide Sum;
    WeighStep(c, s, a, LoopWork, RunWork);
  }

  /** Once every context is cancelled, shutdown cannot get stuck: until all loops have returned
      and all runs have finished, some shutdown action is enabled. With
      ShutdownActionsMakeProgress, at most `Remaining` of them lead to quiescence. */
  lemma ShutdownNeverDeadlocks(c: Config, n: nat, actions: seq<Action>) returns (a: Action)
    requires Execute(c, n, actions).Some?
    requires AllCancelled(Execute(c, n, actions).value) && !Quiescent(Execute(c, n, actions).value)
    ensures Enabled(Execute(c, n, actions).value, a) && IsShutdownAction(a)
  {
    InvariantHolds(c, n, actions);
    var s := Execute(c, n, actions).value;
    if r :| 0 <= r < |s.runs| && s.runs[r].pc != Finished {
      a := NextOfRun(s, r);
    } else {
      var i :| 0 <= i < |s.loops| && s.loops[i].pc != Idle && s.loops[i].pc != Returned;
      assert LoopInvariant(s, i);
      AllFinished(s.runs, i);
      var pc := s.loops[i].pc;
      a := if pc == Triggered then CheckContext(i)
           else if pc == Claiming then CompareAndSwap(i)
           else if pc == Adding then AddToGroup(i)
           else if pc == Spawning then Spawn(i)
           else if pc == Draining then Return(i)
           else StopLoop(i);
    }
  }

  function NextOfRun(s: State, r: nat): (a: Action)
    requires r < |s.runs| && s.runs[r].pc != Finished
    ensures s.runs[r].owner < |s.loops| ==> Enabled(s, a) && IsShutdownAction(a)
  {
    match s.runs[r].pc
    case Evaluating => EndEvaluation(r)
    case Releasing => ReleaseFlag(r)
    case _ => LeaveGroup(r)
  }

  lemma {:induction false} AllFinished(runs: seq<Goroutine>, owner: nat)
    requires forall r :: 0 <= r < |runs| ==> runs[r].pc == Finished
    ensures Unfinished(runs, owner) == 0
  {
    if runs != [] {
      AllFinished(runs[..|runs| - 1], owner);
    }
  }

  /** A shutdown that keeps taking enabled shutdown actions is over within `Remaining` of them. */
  lemma {:induction false} ShutdownTerminates(c: Config, s: State, actions: seq<Action>) returns (t: State)
    requires Invariant(s)
    requires forall k :: 0 <= k < |actions| ==> IsShutdownAction(actions[k])
    requires Follows(c, s, actions).Some?
    ensures Follows(c, s, actions) == Some(t) && Invariant(t)
    ensures |actions| + Remaining(t) <= Remaining(s)
    decreases |actions|
  {
    if actions == [] {
      t := s;
    } else {
      StepKeepsInvariant(c, s, actions[0]);
      ShutdownActionsMakeProgress(c, s, actions[0]);
      t := ShutdownTerminates(c, Step(c, s, actions[0]), actions[1..]);
    }
  }

  function Follows(c: Config, s: State, actions: seq<Action>): Option<State>
    decreases |actions|
  {
    if actions == [] then Some(s)
    else if Enabled(s, actions[0]) then Follows(c, Step(c, s, actions[0]), actions[1..])
    else None
  }

  // ----- Which triggers lead to a run -----

  /** Someone has claimed the flag and not yet released it. */
  predicate Busy(s: State) {
    || (exists i :: 0 <= i < |s.loops| && (s.loops[i].pc == Adding || s.loops[i].pc == Spawning))
    || (exists r :: 0 <= r < |s.runs| && (s.runs[r].pc == Evaluating || s.runs[r].pc == Releasing))
  }

  lemma FlagIsSetExactlyWhileBusy(s: State)
    requires Invariant(s)
    ensures s.running <==> Busy(s)
  {
    if Busy(s) {
      if i :| 0 <= i < |s.loops| && (s.loops[i].pc == Adding || s.loops[i].pc == Spawning) {
        SumAtLeast(LoopOwns, s.loops, i);
      } else {
        var r :| 0 <= r < |s.runs| && (s.runs[r].pc == Evaluating || s.runs[r].pc == Releasing);
        SumAtLeast(RunOwns, s.runs, r);
      }
    } else {
      SumZero(LoopOwns, s.loops);
      SumZero(RunOwns, s.runs);
    }
  }

  /** In every reachable state, a trigger whose loop is not cancelled is skipped exactly while another
      run is under way; otherwise it goes on to start a run. A cancelled loop's trigger is ignored. */
  lemma TriggerIsSkippedExactlyWhenBusy(c: Config, n: nat, actions: seq<Action>, i: nat)
    requires Execute(c, n, actions).Some?
    ensures
      var s := Execute(c, n, actions).value;
      && (LoopAt(s, i, Triggered) ==>
            var l := Step(c, s, CheckContext(i)).loops[i];
            && (l.pc == Claiming <==> !s.loops[i].cancelled)
            && l.ignored == s.loops[i].ignored + (if s.loops[i].cancelled then 1 else 0))
      && (LoopAt(s, i, Claiming) ==>
            var l := Step(c, s, CompareAndSwap(i)).loops[i];
            && (l.pc == Adding <==> !Busy(s))
            && l.skipped == s.loops[i].skipped + (if Busy(s) then 1 else 0))
  {
    InvariantHolds(c, n, actions);
    var s := Execute(c, n, actions).value;
    FlagIsSetExactlyWhileBusy(s);
    hide Busy, Execute, Invariant;
    if LoopAt(s, i, Triggered) {
      ChecksItsContext(c, s, i);
    }
    if LoopAt(s, i, Claiming) {
      ClaimsTheFlag(c, s, i);
    }
    hide Step;
  }

  lemma ChecksItsContext(c: Config, s: State, i: nat)
    requires LoopAt(s, i, Triggered)
    ensures
      var t := Step(c, s, CheckContext(i));
      && |t.loops| == |s.loops| && (t.loops[i].pc == Claiming <==> !s.loops[i].cancelled)
      && t.loops[i].ignored == s.loops[i].ignored + (if s.loops[i].cancelled then 1 else 0)
  {
  }

  lemma ClaimsTheFlag(c: Config, s: State, i: nat)
    requires LoopAt(s, i, Claiming)
    ensures
      var t := Step(c, s, CompareAndSwap(i));
      && |t.loops| == |s.loops| && (t.loops[i].pc == Adding <==> !s.running)
      && t.loops[i].skipped == s.loops[i].skipped + (if s.running then 1 else 0)
  {
  }

  /** The triggers loop `i` was sent: the ticks, the end of the startup delay and, with runOnStart, the
      call itself. */
  function Sent(c: Config, actions: seq<Action>, i: nat): nat {
    if actions == [] then 0
    else
      var a := actions[|actions| - 1];
      Sent(c, actions[..|actions| - 1], i)
      + (if a == Tick(i) || a == TimerFires(i) || (a == Call(i) && c.enabled && c.runOnStart) then 1 else 0)
  }

  /** What a loop has done so far fits its configuration: a disabled worker has done nothing; the
      startup delay is waited for only without runOnStart; until it is over, or the run on start has
      been asked for, nothing else triggers. */
  predicate FitsConfig(c: Config, l: Loop) {
    && (!c.enabled ==> (l.pc == Idle || l.pc == Returned) && l.handled == 0)
    && (l.pc == Waiting ==> c.enabled && !c.runOnStart && c.startupDelay > 0 && l.handled == 0)
    && (l.pc == Idle ==> l.handled == 0)
    && (c.enabled && c.runOnStart && l.pc != Idle ==> l.handled >= 1)
    && (c.startupDelay > 0 && l.pc != Idle && l.pc != Waiting && l.pc != Draining && l.pc != Returned ==> l.handled >= 1)
  }

  /** In every interleaving each loop has handled exactly the triggers it was sent, as its
      configuration says; a disabled worker never starts a run. */
  lemma {:induction false} TriggersFollowTheConfig(c: Config, n: nat, actions: seq<Action>)
    requires Execute(c, n, actions).Some?
    ensures
      var s := Execute(c, n, actions).value;
      && |s.loops| == n
      && (forall i :: 0 <= i < n ==> s.loops[i].handled == Sent(c, actions, i) && FitsConfig(c, s.loops[i]))
      && (!c.enabled ==> s.runs == [])
  {
    if actions != [] {
      var k := |actions| - 1;
      LastAction(c, n, actions);
      TriggersFollowTheConfig(c, n, actions[..k]);
      var before := Execute(c, n, actions[..k]).value;
      hide Execute;
      OneMoreTrigger(c, before, actions);
    }
  }

  lemma OneMoreTrigger(c: Config, s: State, actions: seq<Action>)
    requires actions != [] && Enabled(s, actions[|actions| - 1])
    requires forall i :: 0 <= i < |s.loops| ==> s.loops[i].handled == Sent(c, actions[..|actions| - 1], i) && FitsConfig(c, s.loops[i])
    requires !c.enabled ==> s.runs == []
    ensures
      var t := Step(c, s, actions[|actions| - 1]);
      && |t.loops| == |s.loops|
      && (forall i :: 0 <= i < |t.loops| ==> t.loops[i].handled == Sent(c, actions, i) && FitsConfig(c, t.loops[i]))
      && (!c.enabled ==> t.runs == [])
  {
    var a := actions[|actions| - 1];
    var t := Step(c, s, a);
    assert |t.loops| == |s.loops| && (!c.enabled ==> t.runs == []) by {
      assert !c.enabled && !IsRunAction(a) && a.loop < |s.loops| ==> FitsConfig(c, s.loops[a.loop]);
      hide FitsConfig, Sent;
      DisabledStartsNothing(c, s, a);
    }
    hide Step, Enabled, FitsConfig, Sent;
    forall i | 0 <= i < |t.loops|
      ensures t.loops[i].handled == Sent(c, actions, i) && FitsConfig(c, t.loops[i])
    {
      if IsRunAction(a) {
        RunsTriggerNothing(c, s, a, i);
        NothingSent(c, actions, i);
      } else {
        LoopStepFitsConfig(c, s, actions, i);
      }
    }
  }

  lemma DisabledStartsNothing(c: Config, s: State, a: Action)
    requires Enabled(s, a) && (!c.enabled ==> s.runs == [])
    requires !c.enabled && !IsRunAction(a) && a.loop < |s.loops| ==> FitsConfig(c, s.loops[a.loop])
    ensures |Step(c, s, a).loops| == |s.loops| && (!c.enabled ==> Step(c, s, a).runs == [])
  {
  }

  lemma RunsTriggerNothing(c: Config, s: State, a: Action, i: nat)
    requires Enabled(s, a) && IsRunAction(a) && i < |s.loops|
    ensures
      var t := Step(c, s, a);
      |t.loops| == |s.loops| && t.loops[i] == s.loops[i].(waitGroup := t.loops[i].waitGroup)
    ensures FitsConfig(c, s.loops[i]) ==> FitsConfig(c, Step(c, s, a).loops[i])
  {
  }

  lemma NothingSent(c: Config, actions: seq<Action>, i: nat)
    requires actions != [] && IsRunAction(actions[|actions| - 1])
    ensures Sent(c, actions, i) == Sent(c, actions[..|actions| - 1], i)
  {
  }

  lemma LoopStepFitsConfig(c: Config, s: State, actions: seq<Action>, i: nat)
    requires actions != [] && Enabled(s, actions[|actions| - 1]) && !IsRunAction(actions[|actions| - 1]) && i < |s.loops|
    requires s.loops[i].handled == Sent(c, actions[..|actions| - 1], i) && FitsConfig(c, s.loops[i])
    ensures
      var t := Step(c, s, actions[|actions| - 1]);
      |t.loops| == |s.loops| && t.loops[i].handled == Sent(c, actions, i) && FitsConfig(c, t.loops[i])
  {
  }
}
