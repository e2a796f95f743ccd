/** Rounds of parallel tasks: BatchExecutor.execute, _execute_rounds and
    _execute_single_round, tools/vivado_core/batch.py:326-647. */
module Batch {
  import opened BatchTask

  datatype Policy = Continue | FailFast | StopAccepting

  const SKIP_MARK := "Skipped:"
  const SKIPPED := SKIP_MARK + " stop-accepting after earlier failure"
  const ROUND_CANCELLED := CANCEL_MARK + " by fail-fast (round skipped)"

  predicate StartsWith(s: string, prefix: string) {
    |prefix| <= |s| && s[..|prefix|] == prefix
  }

  /** A failure nobody expected: what fail-fast and stop-accepting react to. */
  predicate Unexpected(r: TaskResult) {
    !r.success && !r.expectedFail
  }

  predicate IsCancelled(r: TaskResult) {
    StartsWith(r.error, CANCEL_MARK)
  }

  /** A result as a worker makes one: the marker texts come from the executor alone, and an
      exception's text does not begin like one of them. */
  predicate FromWorker(r: TaskResult) {
    && (r.success ==> r.error == NO_ERROR)
    && (!r.success && r.expectedFail ==> r.error == OPS_FAILED)
    && !StartsWith(r.error, SKIP_MARK)
  }

  /** What a task returns is a worker result exactly when the text of its session error, if
      it got that far, does not begin with the skip mark. */
  lemma SingleIsFromWorker(name: string, ops: seq<string>, cancel: nat -> bool, sessionError: string,
                           ending: nat -> Ending, expectedFail: bool)
    ensures FromWorker(SingleResult(name, ops, cancel, sessionError, ending, expectedFail))
       <==> cancel(0) || !StartsWith(sessionError, SKIP_MARK)
    ensures SingleResult(name, ops, cancel, sessionError, ending, expectedFail).taskName == name
  {
    assert CANCELLED[..|SKIP_MARK|][0] == 'C' && OPS_FAILED[..|SKIP_MARK|][0] == 'O';
  }

  // ---------------------------------------------------------------------------
  // One round: a pool of workers, any interleaving
  // ---------------------------------------------------------------------------

  /** Where a task of the round is. */
  datatype Phase =
    | Queued
    | Running(started: nat, cleared: bool, stopped: bool)   // operations started; a check before the
                                                            // next one found no cancel; found a cancel
    | Finished(result: TaskResult)                          // its future is done
    | Collected

  /** All tasks are submitted before the first result is collected. `next` is the head of the
      pool's queue. */
  datatype Round = Round(phases: seq<Phase>, next: nat, cancel: bool, results: seq<TaskResult>)

  datatype Step =
    | Begin(task: nat)                       // a free worker takes the head of the queue
    | Check(task: nat)                       // cancel.is_set() before the next operation
    | StartOp(task: nat)                     // and the operation itself, some time later
    | Finish(task: nat, result: TaskResult)
    | Collect(task: nat)                     // as_completed hands the future over

  function RunningTasks(phases: seq<Phase>): nat {
    if phases == [] then 0 else RunningTasks(phases[1..]) + if phases[0].Running? then 1 else 0
  }

  /** A task makes a check before each of its `ops` operations, and starts the operation when
      the check found no cancel; it may end after any operation, but succeeds only after all. */
  predicate CanStep(y: Round, names: seq<string>, ops: nat, workers: nat, s: Step) {
    && s.task < |y.phases| == |names|
    && match s
       case Begin(i) => i == y.next && y.phases[i] == Queued && RunningTasks(y.phases) < workers
       case Check(i) =>
         y.phases[i].Running? && !y.phases[i].cleared && !y.phases[i].stopped && y.phases[i].started < ops
       case StartOp(i) => y.phases[i].Running? && y.phases[i].cleared
       case Finish(i, r) =>
         && y.phases[i].Running? && !y.phases[i].cleared && FromWorker(r) && r.taskName == names[i]
         && (r.success ==> y.phases[i].started == ops && !y.phases[i].stopped)
       case Collect(i) => y.phases[i].Finished?
  }

  function StepTo(y: Round, names: seq<string>, policy: Policy, s: Step): Round
    requires s.task < |y.phases| == |names| && (s.Collect? ==> y.phases[s.task].Finished?)
             && ((s.StartOp? || s.Check?) ==> y.phases[s.task].Running?)
  {
    match s
    case Begin(i) =>
      var p := if y.cancel then Finished(TaskResult(names[i], false, [], CANCELLED, false)) else Running(0, false, false);
      y.(phases := y.phases[i := p], next := i + 1)
    case Check(i) =>
      y.(phases := y.phases[i := if y.cancel then y.phases[i].(stopped := true) else y.phases[i].(cleared := true)])
    case StartOp(i) => y.(phases := y.phases[i := y.phases[i].(started := y.phases[i].started + 1, cleared := false)])
    case Finish(i, r) => y.(phases := y.phases[i := Finished(r)])
    case Collect(i) =>
      var r := y.phases[i].result;
      Round(y.phases[i := Collected], y.next, y.cancel || (policy == FailFast && Unexpected(r)), y.results + [r])
  }

  ghost predicate Runs(y: Round, names: seq<string>, ops: nat, workers: nat, policy: Policy, steps: seq<Step>, y': Round)
    decreases |steps|
  {
    if steps == [] then y' == y
    else CanStep(y, names, ops, workers, steps[0])
         && Runs(StepTo(y, names, policy, steps[0]), names, ops, workers, policy, steps[1..], y')
  }

  function Submitted(n: nat): Round {
    Round(seq(n, _ => Queued), 0, false, [])
  }

  predicate Over(y: Round) {
    forall i :: 0 <= i < |y.phases| ==> y.phases[i] == Collected
  }

  /** Names of the tasks whose result is not collected yet. */
  function Open(names: seq<string>, phases: seq<Phase>): multiset<string>
    requires |names| == |phases|
  {
    if names == [] then multiset{}
    else Open(names[1..], phases[1..]) + if phases[0] == Collected then multiset{} else multiset{names[0]}
  }

  function NamesOf(results: seq<TaskResult>): (names: seq<string>)
    ensures |names| == |results|
  {
    seq(|results|, i requires 0 <= i < |results| => results[i].taskName)
  }

  /** What holds at every moment of every round. */
  ghost predicate RoundOk(y: Round, names: seq<string>, ops: nat, workers: nat, policy: Policy) {
    && PhasesOk(y.phases, y.next, names, ops, workers) && |y.phases| == |names|
    && (forall r :: r in y.results ==> FromWorker(r))
    && multiset(NamesOf(y.results)) + Open(names, y.phases) == multiset(names)
    && (y.cancel <==> policy == FailFast && exists r :: r in y.results && Unexpected(r))
  }

  lemma {:induction false} OpenUpdate(names: seq<string>, phases: seq<Phase>, i: nat, p: Phase)
    requires |names| == |phases| && i < |names| && phases[i] != Collected
    ensures p != Collected ==> Open(names, phases[i := p]) == Open(names, phases)
    ensures p == Collected ==> Open(names, phases[i := p]) + multiset{names[i]} == Open(names, phases)
  {
    if i == 0 {
      assert phases[i := p][1..] == phases[1..];
    } else {
      assert phases[i := p][1..] == phases[1..][i - 1 := p];
      OpenUpdate(names[1..], phases[1..], i - 1, p);
    }
  }

  lemma {:induction false} RunningUpdate(phases: seq<Phase>, i: nat, p: Phase)
    requires i < |phases|
    ensures RunningTasks(phases[i := p]) + (if phases[i].Running? then 1 else 0)
         == RunningTasks(phases) + if p.Running? then 1 else 0
  {
    if i == 0 {
      assert phases[i := p][1..] == phases[1..];
    } else {
      assert phases[i := p][1..] == phases[1..][i - 1 := p];
      RunningUpdate(phases[1..], i - 1, p);
    }
  }

  /** The part of RoundOk that speaks of the phases alone. */
  ghost predicate PhasesOk(phases: seq<Phase>, next: nat, names: seq<string>, ops: nat, workers: nat) {
    && |phases| == |names| && next <= |names|
    && (forall i :: 0 <= i < |names| ==> (phases[i] == Queued <==> i >= next))
    && RunningTasks(phases) <= workers
    && (forall i :: 0 <= i < |names| && phases[i].Finished? ==>
          FromWorker(phases[i].result) && phases[i].result.taskName == names[i])
    && (forall i :: 0 <= i < |names| && phases[i].Running? && phases[i].cleared ==> phases[i].started < ops && !phases[i].stopped)
  }

  lemma StepKeepsPhases(y: Round, names: seq<string>, ops: nat, workers: nat, policy: Policy, s: Step)
    requires PhasesOk(y.phases, y.next, names, ops, workers) && CanStep(y, names, ops, workers, s)
    ensures var y' := StepTo(y, names, policy, s);
            PhasesOk(y'.phases, y'.next, names, ops, workers)
  {
    hide RunningTasks, FromWorker;
    var y' := StepTo(y, names, policy, s);
    RunningUpdate(y.phases, s.task, y'.phases[s.task]);
    CancelledIsFromWorker(names[s.task]);
  }

  lemma CollectKeepsResults(y: Round, names: seq<string>, policy: Policy, i: nat)
    requires |y.phases| == |names| && i < |names| && y.phases[i].Finished?
    requires FromWorker(y.phases[i].result) && y.phases[i].result.taskName == names[i]
    requires forall r :: r in y.results ==> FromWorker(r)
    requires multiset(NamesOf(y.results)) + Open(names, y.phases) == multiset(names)
    requires y.cancel <==> policy == FailFast && exists r :: r in y.results && Unexpected(r)
    ensures var y' := StepTo(y, names, policy, Collect(i));
            && (forall r :: r in y'.results ==> FromWorker(r))
            && multiset(NamesOf(y'.results)) + Open(names, y'.phases) == multiset(names)
            && (y'.cancel <==> policy == FailFast && exists r :: r in y'.results && Unexpected(r))
  {
    hide Open, FromWorker, Unexpected;
    var y' := StepTo(y, names, policy, Collect(i));
    var r := y.phases[i].result;
    OpenUpdate(names, y.phases, i, Collected);
    assert NamesOf(y'.results) == NamesOf(y.results) + [names[i]];
    assert r in y'.results && forall q :: q in y'.results <==> q in y.results || q == r;
  }

  lemma StepKeepsRound(y: Round, names: seq<string>, ops: nat, workers: nat, policy: Policy, s: Step)
    requires RoundOk(y, names, ops, workers, policy) && CanStep(y, names, ops, workers, s)
    ensures RoundOk(StepTo(y, names, policy, s), names, ops, workers, policy)
  {
    hide PhasesOk, Open, NamesOf, FromWorker, Unexpected;
    var y' := StepTo(y, names, policy, s);
    StepKeepsPhases(y, names, ops, workers, policy, s);
    if s.Collect? {
      FinishedIsOk(y, names, ops, workers, s.task);
      CollectKeepsResults(y, names, policy, s.task);
    } else {
      OpenUpdate(names, y.phases, s.task, y'.phases[s.task]);
    }
  }

  lemma FinishedIsOk(y: Round, names: seq<string>, ops: nat, workers: nat, i: nat)
    requires PhasesOk(y.phases, y.next, names, ops, workers) && i < |names| && y.phases[i].Finished?
    ensures FromWorker(y.phases[i].result) && y.phases[i].result.taskName == names[i]
  {
  }

  lemma CancelledIsFromWorker(name: string)
    ensures FromWorker(TaskResult(name, false, [], CANCELLED, false))
  {
    assert CANCELLED[..|SKIP_MARK|][0] == 'C';
  }

  lemma {:induction false} RunKeepsRound(y: Round, names: seq<string>, ops: nat, workers: nat, policy: Policy, steps: seq<Step>, y': Round)
    requires RoundOk(y, names, ops, workers, policy) && Runs(y, names, ops, workers, policy, steps, y')
    ensures RoundOk(y', names, ops, workers, policy)
    decreases |steps|
  {
    hide RoundOk;
    if steps != [] {
      StepKeepsRound(y, names, ops, workers, policy, steps[0]);
      RunKeepsRound(StepTo(y, names, policy, steps[0]), names, ops, workers, policy, steps[1..], y');
    }
  }

  lemma {:induction false} AllOpen(names: seq<string>, phases: seq<Phase>)
    requires |names| == |phases| && forall i :: 0 <= i < |phases| ==> phases[i] == Queued
    ensures Open(names, phases) == multiset(names) && RunningTasks(phases) == 0
  {
    if names != [] {
      AllOpen(names[1..], phases[1..]);
      assert names == [names[0]] + names[1..];
    }
  }

  lemma {:induction false} NoneOpen(names: seq<string>, phases: seq<Phase>)
    requires |names| == |phases| && forall i :: 0 <= i < |phases| ==> phases[i] == Collected
    ensures Open(names, phases) == multiset{}
  {
    if names != [] {
      NoneOpen(names[1..], phases[1..]);
    }
  }

  /** The results of a finished round: each task exactly once, made by its worker. */
  ghost predicate Legit(names: seq<string>, results: seq<TaskResult>) {
    multiset(NamesOf(results)) == multiset(names) && forall r :: r in results ==> FromWorker(r)
  }

  /** Over every interleaving of the pool, whatever the policy: never more than `workers`
      tasks run, the collected results are legitimate once the round is over, and the cancel
      event is set exactly when fail-fast collected an unexpected failure. So stop-accepting
      does nothing inside a round. */
  lemma RoundIsLegit(names: seq<string>, ops: nat, workers: nat, policy: Policy, steps: seq<Step>, y: Round)
    requires Runs(Submitted(|names|), names, ops, workers, policy, steps, y)
    ensures RunningTasks(y.phases) <= workers
    ensures y.cancel <==> policy == FailFast && exists r :: r in y.results && Unexpected(r)
    ensures Over(y) ==> Legit(names, y.results) && |y.results| == |names|
  {
    hide Runs, Open, RunningTasks, NamesOf;
    SubmittedOk(names, ops, workers, policy);
    RunKeepsRound(Submitted(|names|), names, ops, workers, policy, steps, y);
    if Over(y) {
      NoneOpen(names, y.phases);
      assert |multiset(NamesOf(y.results))| == |multiset(names)|;
    }
  }

  lemma SubmittedOk(names: seq<string>, ops: nat, workers: nat, policy: Policy)
    ensures RoundOk(Submitted(|names|), names, ops, workers, policy)
  {
    hide Open, RunningTasks;
    AllOpen(names, Submitted(|names|).phases);
    assert NamesOf([]) == [];
  }

  // ---------------------------------------------------------------------------
  // After a cancel
  // ---------------------------------------------------------------------------

  /** One for a worker past its check that has not started the operation yet. */
  function Cleared(p: Phase): nat {
    if p.Running? && p.cleared then 1 else 0
  }

  function ClearedTasks(phases: seq<Phase>): nat {
    if phases == [] then 0 else ClearedTasks(phases[1..]) + Cleared(phases[0])
  }

  /** How many operations start, of task i and altogether. */
  function StartsOf(steps: seq<Step>, i: nat): nat {
    if steps == [] then 0 else StartsOf(steps[1..], i) + if steps[0] == StartOp(i) then 1 else 0
  }

  function Starts(steps: seq<Step>): nat {
    if steps == [] then 0 else Starts(steps[1..]) + if steps[0].StartOp? then 1 else 0
  }

  lemma {:induction false} ClearedUpdate(phases: seq<Phase>, i: nat, p: Phase)
    requires i < |phases|
    ensures ClearedTasks(phases[i := p]) + Cleared(phases[i]) == ClearedTasks(phases) + Cleared(p)
  {
    if i == 0 {
      assert phases[i := p][1..] == phases[1..];
    } else {
      assert phases[i := p][1..] == phases[1..][i - 1 := p];
      ClearedUpdate(phases[1..], i - 1, p);
    }
  }

  lemma {:induction false} ClearedAreRunning(phases: seq<Phase>)
    ensures ClearedTasks(phases) <= RunningTasks(phases)
    ensures (forall i :: 0 <= i < |phases| ==> phases[i] == Collected) ==> ClearedTasks(phases) == 0
  {
    if phases != [] {
      ClearedAreRunning(phases[1..]);
    }
  }

  /** The task has ended, will end without success, or is done for in the queue. */
  predicate Halted(p: Phase) {
    match p
    case Queued => false
    case Running(_, _, stopped) => stopped
    case Finished(r) => !r.success
    case Collected => true
  }

  /** Once the cancel event is set, task i starts one more operation exactly when it is past
      its check, and none otherwise; its next check stops it; and if it is still queued it
      never runs. */
  lemma {:induction false} TaskAfterCancel(y: Round, names: seq<string>, ops: nat, workers: nat, policy: Policy,
                                           steps: seq<Step>, y': Round, i: nat)
    requires y.cancel && Runs(y, names, ops, workers, policy, steps, y') && i < |y.phases|
    ensures y'.cancel && |y'.phases| == |y.phases|
    ensures StartsOf(steps, i) + Cleared(y'.phases[i]) == Cleared(y.phases[i])
    ensures Check(i) in steps || Halted(y.phases[i]) ==> Halted(y'.phases[i])
    ensures !y.phases[i].Running? ==> !y'.phases[i].Running?
    decreases |steps|
  {
    hide RunningTasks, FromWorker, Unexpected;
    if steps != [] {
      TaskAfterCancel(StepTo(y, names, policy, steps[0]), names, ops, workers, policy, steps[1..], y', i);
      assert steps == [steps[0]] + steps[1..];
    }
  }

  /** Altogether: what still starts after a cancel are the operations of workers past their
      check, one each, so at most as many as there are workers; all of them by the end of the
      round. */
  lemma {:induction false} StartsAfterCancel(y: Round, names: seq<string>, ops: nat, workers: nat, policy: Policy,
                                             steps: seq<Step>, y': Round)
    requires y.cancel && RoundOk(y, names, ops, workers, policy) && Runs(y, names, ops, workers, policy, steps, y')
    ensures Starts(steps) + ClearedTasks(y'.phases) == ClearedTasks(y.phases) <= workers
    ensures Over(y') ==> Starts(steps) == ClearedTasks(y.phases)
    decreases |steps|
  {
    hide RunningTasks, RoundOk, FromWorker, Unexpected;
    RunningFits(y, names, ops, workers, policy);
    ClearedAreRunning(y.phases);
    ClearedAreRunning(y'.phases);
    if steps != [] {
      var y1 := StepTo(y, names, policy, steps[0]);
      ClearedUpdate(y.phases, steps[0].task, y1.phases[steps[0].task]);
      StepKeepsRound(y, names, ops, workers, policy, steps[0]);
      StartsAfterCancel(y1, names, ops, workers, policy, steps[1..], y');
    }
  }

  lemma RunningFits(y: Round, names: seq<string>, ops: nat, workers: nat, policy: Policy)
    requires RoundOk(y, names, ops, workers, policy)
    ensures RunningTasks(y.phases) <= workers
  {
  }

  lemma {:induction false} RunsSnoc(y: Round, names: seq<string>, ops: nat, workers: nat, policy: Policy,
                                    steps: seq<Step>, m: Round, s: Step)
    requires Runs(y, names, ops, workers, policy, steps, m) && CanStep(m, names, ops, workers, s)
    ensures Runs(y, names, ops, workers, policy, steps + [s], StepTo(m, names, policy, s))
    decreases |steps|
  {
    hide StepTo;
    if steps == [] {
      assert steps + [s] == [s];
      assert Runs(StepTo(m, names, policy, s), names, ops, workers, policy, [], StepTo(m, names, policy, s));
    } else {
      assert (steps + [s])[1..] == steps[1..] + [s];
      RunsSnoc(StepTo(y, names, policy, steps[0]), names, ops, workers, policy, steps[1..], m, s);
    }
  }

  lemma {:induction false} RunsAppend(y: Round, names: seq<string>, ops: nat, workers: nat, policy: Policy,
                                      xs: seq<Step>, m: Round, ys: seq<Step>, z: Round)
    requires Runs(y, names, ops, workers, policy, xs, m) && Runs(m, names, ops, workers, policy, ys, z)
    ensures Runs(y, names, ops, workers, policy, xs + ys, z)
    decreases |xs|
  {
    hide StepTo;
    if xs == [] {
      assert xs + ys == ys;
    } else {
      assert (xs + ys)[1..] == xs[1..] + ys;
      RunsAppend(StepTo(y, names, policy, xs[0]), names, ops, workers, policy, xs[1..], m, ys, z);
    }
  }

  /** Two tasks begin. */
  lemma TwoBegin(names: seq<string>, ops: nat, workers: nat) returns (steps: seq<Step>, y: Round)
    requires |names| >= 2 && workers >= 2
    ensures Runs(Submitted(|names|), names, ops, workers, FailFast, steps, y)
    ensures |y.phases| == |names| && !y.cancel && y.phases[0] == y.phases[1] == Running(0, false, false)
  {
    var y0 := Submitted(|names|);
    AllOpen(names, y0.phases);
    RunningUpdate(y0.phases, 0, Running(0, false, false));
    NoSteps(y0, names, ops, workers);
    hide Runs, RunningTasks;
    steps, y := OneMore(y0, names, ops, workers, [], y0, Begin(0));
    steps, y := OneMore(y0, names, ops, workers, steps, y, Begin(1));
  }

  /** Such starts happen: with two workers, one task can pass its check before the failure of
      the other is collected, and start its operation after. */
  lemma AStartMayFollowACancel(names: seq<string>, ops: nat, workers: nat) returns (steps: seq<Step>, y: Round)
    requires |names| >= 2 && ops >= 1 && workers >= 2
    ensures Runs(Submitted(|names|), names, ops, workers, FailFast, steps, y)
    ensures y.cancel && CanStep(y, names, ops, workers, StartOp(1))
  {
    hide Runs, RunningTasks, FromWorker, Submitted;
    var y0 := Submitted(|names|);
    FailureIsFromWorker(names[0]);
    steps, y := TwoBegin(names, ops, workers);
    steps, y := OneMore(y0, names, ops, workers, steps, y, Check(1));
    steps, y := OneMore(y0, names, ops, workers, steps, y, Finish(0, TaskResult(names[0], false, [], OPS_FAILED, false)));
    steps, y := OneMore(y0, names, ops, workers, steps, y, Collect(0));
  }

  lemma NoSteps(y: Round, names: seq<string>, ops: nat, workers: nat)
    ensures Runs(y, names, ops, workers, FailFast, [], y)
  {
  }

  lemma OneMore(y0: Round, names: seq<string>, ops: nat, workers: nat, steps: seq<Step>, y: Round, s: Step)
    returns (steps': seq<Step>, y': Round)
    requires Runs(y0, names, ops, workers, FailFast, steps, y) && CanStep(y, names, ops, workers, s)
    ensures Runs(y0, names, ops, workers, FailFast, steps', y') && y' == StepTo(y, names, FailFast, s)
  {
    steps', y' := steps + [s], StepTo(y, names, FailFast, s);
    RunsSnoc(y0, names, ops, workers, FailFast, steps, y, s);
  }

  lemma FailureIsFromWorker(name: string)
    ensures FromWorker(TaskResult(name, false, [], OPS_FAILED, false))
  {
    assert OPS_FAILED[..|SKIP_MARK|][0] == 'O';
  }

  // ---------------------------------------------------------------------------
  // A round ends
  // ---------------------------------------------------------------------------

  /** An upper bound on the steps a task still makes. */
  function Work(p: Phase, ops: nat): nat {
    match p
    case Queued => 2 * ops + 4
    case Running(started, cleared, stopped) =>
      if stopped || started > ops then 2 else 2 * (ops - started) + (if cleared then 2 else 3)
    case Finished(_) => 1
    case Collected => 0
  }

  function TotalWork(phases: seq<Phase>, ops: nat): nat {
    if phases == [] then 0 else TotalWork(phases[1..], ops) + Work(phases[0], ops)
  }

  lemma {:induction false} WorkUpdate(phases: seq<Phase>, ops: nat, i: nat, p: Phase)
    requires i < |phases|
    ensures TotalWork(phases[i := p], ops) + Work(phases[i], ops) == TotalWork(phases, ops) + Work(p, ops)
  {
    if i == 0 {
      assert phases[i := p][1..] == phases[1..];
    } else {
      assert phases[i := p][1..] == phases[1..][i - 1 := p];
      WorkUpdate(phases[1..], ops, i - 1, p);
    }
  }

  lemma {:induction false} WorkOfSubmitted(phases: seq<Phase>, ops: nat)
    requires forall i :: 0 <= i < |phases| ==> phases[i] == Queued
    ensures TotalWork(phases, ops) == |phases| * (2 * ops + 4)
  {
    if phases != [] {
      WorkOfSubmitted(phases[1..], ops);
    }
  }

  /** Every step of every task is progress. */
  lemma StepWorks(y: Round, names: seq<string>, ops: nat, workers: nat, policy: Policy, s: Step)
    requires RoundOk(y, names, ops, workers, policy) && CanStep(y, names, ops, workers, s)
    ensures TotalWork(StepTo(y, names, policy, s).phases, ops) < TotalWork(y.phases, ops)
  {
    hide RunningTasks, FromWorker, Open, NamesOf, TotalWork, Unexpected;
    var p := StepTo(y, names, policy, s).phases[s.task];
    WorkUpdate(y.phases, ops, s.task, p);
    assert Work(p, ops) < Work(y.phases[s.task], ops);
  }

  /** A round that is not over can go on: with at least one worker nothing waits forever. */
  lemma RoundCanStep(y: Round, names: seq<string>, ops: nat, workers: nat, policy: Policy) returns (s: Step)
    requires RoundOk(y, names, ops, workers, policy) && workers >= 1 && !Over(y)
    ensures CanStep(y, names, ops, workers, s)
  {
    hide FromWorker, Open, NamesOf, Unexpected, RunningTasks;
    var i :| 0 <= i < |y.phases| && y.phases[i] != Collected;
    if j :| 0 <= j < |y.phases| && y.phases[j].Finished? {
      s := Collect(j);
    } else if j :| 0 <= j < |y.phases| && y.phases[j].Running? {
      FailureIsFromWorker(names[j]);
      s := if y.phases[j].cleared then StartOp(j) else Finish(j, TaskResult(names[j], false, [], OPS_FAILED, false));
    } else {
      NoneRunning(y.phases);
      s := Begin(y.next);
    }
  }

  lemma {:induction false} NoneRunning(phases: seq<Phase>)
    requires forall i :: 0 <= i < |phases| ==> !phases[i].Running?
    ensures RunningTasks(phases) == 0
  {
    if phases != [] {
      NoneRunning(phases[1..]);
    }
  }

  lemma {:induction false} RunWorks(y: Round, names: seq<string>, ops: nat, workers: nat, policy: Policy,
                                    steps: seq<Step>, y': Round)
    requires RoundOk(y, names, ops, workers, policy) && Runs(y, names, ops, workers, policy, steps, y')
    ensures |steps| + TotalWork(y'.phases, ops) <= TotalWork(y.phases, ops)
    decreases |steps|
  {
    hide RoundOk, TotalWork, StepTo;
    if steps != [] {
      StepWorks(y, names, ops, workers, policy, steps[0]);
      StepKeepsRound(y, names, ops, workers, policy, steps[0]);
      RunWorks(StepTo(y, names, policy, steps[0]), names, ops, workers, policy, steps[1..], y');
    }
  }

  lemma {:induction false} RoundGoesOn(y: Round, names: seq<string>, ops: nat, workers: nat, policy: Policy)
    returns (steps: seq<Step>, y': Round)
    requires RoundOk(y, names, ops, workers, policy) && workers >= 1
    ensures Runs(y, names, ops, workers, policy, steps, y') && Over(y')
    decreases TotalWork(y.phases, ops)
  {
    hide RoundOk, TotalWork, StepTo, Over;
    if Over(y) {
      return [], y;
    }
    var s := RoundCanStep(y, names, ops, workers, policy);
    StepWorks(y, names, ops, workers, policy, s);
    StepKeepsRound(y, names, ops, workers, policy, s);
    var rest;
    rest, y' := RoundGoesOn(StepTo(y, names, policy, s), names, ops, workers, policy);
    steps := [s] + rest;
    assert steps[1..] == rest;
  }

  /** Every round ends: no run is longer than the work submitted, and from wherever a run has
      got the round can be finished, with each task's result collected. */
  lemma RoundEnds(names: seq<string>, ops: nat, workers: nat, policy: Policy, steps: seq<Step>, y: Round)
    returns (more: seq<Step>, z: Round)
    requires Runs(Submitted(|names|), names, ops, workers, policy, steps, y) && workers >= 1
    ensures |steps| <= |names| * (2 * ops + 4)
    ensures Runs(y, names, ops, workers, policy, more, z) && Over(z) && Legit(names, z.results)
  {
    hide Runs, RoundOk, TotalWork, Legit, Over;
    SubmittedOk(names, ops, workers, policy);
    WorkOfSubmitted(Submitted(|names|).phases, ops);
    RunWorks(Submitted(|names|), names, ops, workers, policy, steps, y);
    RunKeepsRound(Submitted(|names|), names, ops, workers, policy, steps, y);
    more, z := RoundGoesOn(y, names, ops, workers, policy);
    RunsAppend(Submitted(|names|), names, ops, workers, policy, steps, y, more, z);
    RoundIsLegit(names, ops, workers, policy, steps + more, z);
  }

  // ---------------------------------------------------------------------------
  // Counting
  // ---------------------------------------------------------------------------

  datatype BatchResult = BatchResult(total: nat, succeeded: nat, failed: nat, skipped: nat, results: seq<TaskResult>,
                                     exitCode: nat, xfailed: nat)

  function Count(results: seq<TaskResult>, p: TaskResult -> bool): nat {
    if results == [] then 0 else Count(results[1..], p) + if p(results[0]) then 1 else 0
  }

  predicate IsSkipped(r: TaskResult) {
    StartsWith(r.error, SKIP_MARK) || IsCancelled(r)
  }

  predicate IsXfailed(r: TaskResult) {
    !r.success && r.expectedFail
  }

  /** What one round counts as failed, and what several rounds do. */
  predicate FailedInRound(r: TaskResult) {
    Unexpected(r) && r.error != SKIPPED
  }

  predicate FailedInRounds(r: TaskResult) {
    Unexpected(r) && r.error != SKIPPED && !IsCancelled(r)
  }

  /** A result as it can occur in a batch: a worker's, or one for a round that was skipped. */
  predicate WellFormed(r: TaskResult) {
    FromWorker(r) || (Unexpected(r) && r.error in {SKIPPED, ROUND_CANCELLED})
  }

  lemma ExactlyOneKind(r: TaskResult)
    requires WellFormed(r)
    ensures (if r.success then 1 else 0) + (if FailedInRounds(r) then 1 else 0)
            + (if IsXfailed(r) then 1 else 0) + (if IsSkipped(r) then 1 else 0) == 1
    ensures FailedInRound(r) <==> FailedInRounds(r) || IsCancelled(r)
    ensures IsCancelled(r) ==> !FailedInRounds(r) && !r.success
  {
    assert OPS_FAILED[..|SKIP_MARK|][0] == OPS_FAILED[..|CANCEL_MARK|][0] == 'O' && NO_ERROR == "";
    assert SKIPPED[..|SKIP_MARK|] == SKIP_MARK && SKIPPED[..|CANCEL_MARK|][0] == 'S';
    assert ROUND_CANCELLED[..|CANCEL_MARK|] == CANCEL_MARK;
  }

  /** Every well-formed result is counted once by the multi-round counters; the single-round
      counters count a cancelled one twice, as failed and as skipped. */
  lemma {:induction false} CountersAddUp(results: seq<TaskResult>)
    requires forall r :: r in results ==> WellFormed(r)
    ensures Count(results, (r: TaskResult) => r.success) + Count(results, FailedInRounds)
            + Count(results, IsXfailed) + Count(results, IsSkipped) == |results|
    ensures Count(results, FailedInRound) == Count(results, FailedInRounds) + Count(results, IsCancelled)
  {
    hide WellFormed, FailedInRound, FailedInRounds, IsXfailed, IsSkipped, IsCancelled;
    if results != [] {
      CountersAddUp(results[1..]);
      ExactlyOneKind(results[0]);
    }
  }

  lemma {:induction false} CountZero(results: seq<TaskResult>, p: TaskResult -> bool)
    ensures Count(results, p) == 0 <==> forall r :: r in results ==> !p(r)
  {
    if results != [] {
      CountZero(results[1..], p);
      assert results == [results[0]] + results[1..];
    }
  }

  /** The aggregation at the end of a round, or of all rounds. */
  function Aggregated(total: nat, results: seq<TaskResult>, failedKind: TaskResult -> bool): BatchResult {
    var failed := Count(results, failedKind);
    var fine := forall r :: r in results ==> r.success || r.expectedFail;
    BatchResult(total, Count(results, (r: TaskResult) => r.success), failed, Count(results, IsSkipped), results,
                if failed == 0 && fine then 0 else 1, Count(results, IsXfailed))
  }

  /** A failure nobody expected of a task that was not skipped by stop-accepting. */
  predicate PlainFailure(r: TaskResult) {
    !r.success && !r.expectedFail && r.error != "Skipped:" + " stop-accepting after earlier failure"
  }

  /** Of those several rounds do not count the cancelled ones. */
  ghost function Failures(results: seq<TaskResult>, rounds: bool): set<nat> {
    set i: nat | i < |results| && PlainFailure(results[i]) && !(rounds && "Cancelled" <= results[i].error)
  }

  /** The counters, result by result: `rounds` tells whether there were several rounds. */
  ghost predicate Counted(b: BatchResult, rounds: bool) {
    && b.succeeded == |set i: nat | i < |b.results| && b.results[i].success|
    && b.xfailed == |set i: nat | i < |b.results| && !b.results[i].success && b.results[i].expectedFail|
    && b.skipped == |set i: nat | i < |b.results| && ("Skipped:" <= b.results[i].error || "Cancelled" <= b.results[i].error)|
    && b.failed == |Failures(b.results, rounds)|
    && b.exitCode in {0, 1}
  }

  ghost function Where(results: seq<TaskResult>, p: TaskResult -> bool): set<nat> {
    set i: nat | i < |results| && p(results[i])
  }

  lemma {:induction false} CountSnoc(results: seq<TaskResult>, p: TaskResult -> bool, r: TaskResult)
    ensures Count(results + [r], p) == Count(results, p) + if p(r) then 1 else 0
  {
    if results != [] {
      assert (results + [r])[1..] == results[1..] + [r];
      CountSnoc(results[1..], p, r);
    }
  }

  lemma {:induction false} CountIs(results: seq<TaskResult>, p: TaskResult -> bool)
    ensures Count(results, p) == |Where(results, p)|
  {
    if results == [] {
      assert Where(results, p) == {};
    } else {
      var n := |results| - 1;
      CountIs(results[..n], p);
      CountSnoc(results[..n], p, results[n]);
      assert results == results[..n] + [results[n]];
      assert Where(results, p) == Where(results[..n], p) + if p(results[n]) then {n} else {};
    }
  }

  lemma SetIsCount(results: seq<TaskResult>, p: TaskResult -> bool, s: set<nat>)
    requires forall i: nat :: i in s <==> i < |results| && p(results[i])
    ensures Count(results, p) == |s|
  {
    CountIs(results, p);
    assert s == Where(results, p);
  }

  lemma KindsMean(r: TaskResult)
    ensures IsSkipped(r) <==> ("Skipped:" <= r.error || "Cancelled" <= r.error)
    ensures FailedInRound(r) <==> PlainFailure(r)
    ensures FailedInRounds(r) <==> (PlainFailure(r) && !("Cancelled" <= r.error))
  {
  }

  lemma SkippedCount(results: seq<TaskResult>)
    ensures Count(results, IsSkipped) ==
            |set i: nat | i < |results| && ("Skipped:" <= results[i].error || "Cancelled" <= results[i].error)|
  {
    hide IsSkipped, Count;
    forall i: nat | i < |results|
      ensures IsSkipped(results[i]) <==> ("Skipped:" <= results[i].error || "Cancelled" <= results[i].error)
    {
      KindsMean(results[i]);
    }
    SetIsCount(results, IsSkipped,
               set i: nat | i < |results| && ("Skipped:" <= results[i].error || "Cancelled" <= results[i].error));
  }

  lemma FailedCounts(results: seq<TaskResult>)
    ensures Count(results, FailedInRound) == |set i: nat | i < |results| && PlainFailure(results[i])|
    ensures Count(results, FailedInRounds) ==
            |set i: nat | i < |results| && PlainFailure(results[i]) && !("Cancelled" <= results[i].error)|
  {
    hide FailedInRound, FailedInRounds, PlainFailure, Count;
    forall i: nat | i < |results|
      ensures FailedInRound(results[i]) <==> PlainFailure(results[i])
      ensures FailedInRounds(results[i]) <==> (PlainFailure(results[i]) && !("Cancelled" <= results[i].error))
    {
      KindsMean(results[i]);
    }
    SetIsCount(results, FailedInRound, set i: nat | i < |results| && PlainFailure(results[i]));
    SetIsCount(results, FailedInRounds,
               set i: nat | i < |results| && PlainFailure(results[i]) && !("Cancelled" <= results[i].error));
  }

  lemma AggregatedCounts(total: nat, results: seq<TaskResult>)
    ensures Counted(Aggregated(total, results, FailedInRounds), true)
    ensures Counted(Aggregated(total, results, FailedInRound), false)
  {
    hide IsSkipped, FailedInRound, FailedInRounds, PlainFailure, Count;
    SkippedCount(results);
    FailedCounts(results);
    SetIsCount(results, (r: TaskResult) => r.success, set i: nat | i < |results| && results[i].success);
    SetIsCount(results, IsXfailed, set i: nat | i < |results| && !results[i].success && results[i].expectedFail);
    SameFailures(results);
  }

  lemma SameFailures(results: seq<TaskResult>)
    ensures Failures(results, true) == set i: nat | i < |results| && PlainFailure(results[i]) && !("Cancelled" <= results[i].error)
    ensures Failures(results, false) == set i: nat | i < |results| && PlainFailure(results[i])
  {
    hide PlainFailure;
  }

  ghost predicate AllFine(results: seq<TaskResult>) {
    forall r :: r in results ==> r.success || r.expectedFail
  }

  lemma ExitCodeMeans(total: nat, results: seq<TaskResult>)
    ensures Aggregated(total, results, FailedInRounds).exitCode == 0 <==> AllFine(results)
    ensures Aggregated(total, results, FailedInRound).exitCode == 0 <==> AllFine(results)
  {
    CountZero(results, FailedInRounds);
    CountZero(results, FailedInRound);
  }

  // ---------------------------------------------------------------------------
  // Several rounds
  // ---------------------------------------------------------------------------

  function Min(a: nat, b: nat): nat {
    if a < b then a else b
  }

  /** The tasks of round k: the k-th run of at most `size` consecutive tasks. */
  function RoundTasks(names: seq<string>, size: nat, k: nat): seq<string> {
    names[Min(k * size, |names|)..Min(k * size + size, |names|)]
  }

  /** How many tasks the first k rounds take, and which. */
  function Taken(names: seq<string>, size: nat, k: nat): (n: nat)
    ensures n <= |names|
  {
    Min(k * size, |names|)
  }

  /** The results of the first k rounds. */
  function Concat(round: nat -> seq<TaskResult>, k: nat): seq<TaskResult> {
    if k == 0 then [] else Concat(round, k - 1) + round(k - 1)
  }

  /** Results for the tasks of rounds that never ran. */
  function Unrun(names: seq<string>, why: string): (r: seq<TaskResult>)
    ensures |r| == |names|
  {
    seq(|names|, i requires 0 <= i < |names| => TaskResult(names[i], false, [], why, false))
  }

  ghost predicate HasUnexpected(results: seq<TaskResult>) {
    exists r :: r in results && Unexpected(r)
  }

  lemma {:induction false} RoundsPartition(names: seq<string>, size: nat, round: nat -> seq<TaskResult>, k: nat)
    requires forall j :: 0 <= j < k ==> Legit(RoundTasks(names, size, j), round(j))
    ensures multiset(NamesOf(Concat(round, k))) == multiset(names[..Taken(names, size, k)])
  {
    hide RoundTasks, NamesOf, Legit;
    if k == 0 {
      NothingTaken(names, size);
    } else {
      hide Taken;
      RoundsPartition(names, size, round, k - 1);
      NamesOfConcat(Concat(round, k - 1), round(k - 1));
      NextRound(names, size, k - 1);
      LegitMeans(RoundTasks(names, size, k - 1), round(k - 1));
    }
  }

  lemma {:induction false} RoundsAreWorkers(names: seq<string>, size: nat, round: nat -> seq<TaskResult>, k: nat)
    requires forall j :: 0 <= j < k ==> Legit(RoundTasks(names, size, j), round(j))
    ensures forall r :: r in Concat(round, k) ==> FromWorker(r)
  {
    hide RoundTasks, Legit, FromWorker;
    if k > 0 {
      RoundsAreWorkers(names, size, round, k - 1);
      LegitMeans(RoundTasks(names, size, k - 1), round(k - 1));
    }
  }

  lemma NothingTaken(names: seq<string>, size: nat)
    ensures Taken(names, size, 0) == 0 && names[..0] == [] && NamesOf([]) == []
  {
  }

  lemma LegitMeans(names: seq<string>, results: seq<TaskResult>)
    requires Legit(names, results)
    ensures multiset(NamesOf(results)) == multiset(names) && forall r :: r in results ==> FromWorker(r)
  {
  }

  lemma NamesOfConcat(a: seq<TaskResult>, b: seq<TaskResult>)
    ensures NamesOf(a + b) == NamesOf(a) + NamesOf(b)
  {
  }

  lemma NextRound(names: seq<string>, size: nat, k: nat)
    ensures names[..Taken(names, size, k + 1)] == names[..Taken(names, size, k)] + RoundTasks(names, size, k)
  {
    assert (k + 1) * size == k * size + size;
  }

  /** The loop of _execute_rounds. `round(k)` is what the pool made of round k. */
  method RunRounds(names: seq<string>, maxSessions: nat, policy: Policy, round: nat -> seq<TaskResult>)
    returns (allResults: seq<TaskResult>, ran: nat)
    requires maxSessions > 0
    ensures ran * maxSessions < |names| + maxSessions
    ensures ran > 0 || names == []
    ensures forall k :: 0 <= k < ran - 1 ==> !(policy != Continue && HasUnexpected(round(k)))
    ensures ran * maxSessions < |names| ==> policy != Continue && HasUnexpected(round(ran - 1))
    ensures allResults == Concat(round, ran) + Unrun(names[Taken(names, maxSessions, ran)..], SkipReason(policy))
  {
    hide HasUnexpected, Unexpected, Unrun;
    allResults := [];
    var total := |names|;
    var numRounds := (total + maxSessions - 1) / maxSessions;
    RoundsCover(total, maxSessions);
    var globalCancel, globalFailureSeen := false, false;
    ran := 0;
    assert names[..0] == [];
    while ran < numRounds
      invariant ran <= numRounds && allResults == Concat(round, ran)
      invariant globalCancel <==> policy == FailFast && ran > 0 && HasUnexpected(round(ran - 1))
      invariant globalFailureSeen <==> policy == StopAccepting && ran > 0 && HasUnexpected(round(ran - 1))
      invariant forall k :: 0 <= k < ran - 1 ==> !(policy != Continue && HasUnexpected(round(k)))
    {
      var start := ran * maxSessions;
      RoundInRange(total, maxSessions, ran);
      if globalCancel {
        allResults := allResults + Unrun(names[start..], ROUND_CANCELLED);
        return;
      }
      if policy == StopAccepting && globalFailureSeen {
        allResults := allResults + Unrun(names[start..], SKIPPED);
        return;
      }
      var results := round(ran);
      allResults := allResults + results;
      var failed := Notice(results);
      if failed && policy == FailFast {
        globalCancel := true;
      } else if failed && policy == StopAccepting {
        globalFailureSeen := true;
      }
      ran := ran + 1;
    }
    NothingUnrun(SkipReason(policy));
    assert names[|names|..] == [] && allResults == Concat(round, ran) + [];
  }

  /** What the results of tasks in rounds that never ran say. */
  function SkipReason(policy: Policy): string {
    if policy == FailFast then ROUND_CANCELLED else SKIPPED
  }

  lemma NothingUnrun(why: string)
    ensures Unrun([], why) == []
  {
  }

  /** _execute_rounds. */
  method ExecuteRounds(names: seq<string>, maxSessions: nat, policy: Policy, round: nat -> seq<TaskResult>)
    returns (b: BatchResult, ran: nat)
    requires maxSessions > 0
    requires forall k :: Legit(RoundTasks(names, maxSessions, k), round(k))
    ensures ran * maxSessions < |names| + maxSessions
    ensures ran > 0 || names == []
    ensures forall k :: 0 <= k < ran - 1 ==> !(policy != Continue && HasUnexpected(round(k)))
    ensures ran * maxSessions < |names| ==> policy != Continue && HasUnexpected(round(ran - 1))
    ensures b.results == Concat(round, ran) + Unrun(names[Taken(names, maxSessions, ran)..], SkipReason(policy))
    ensures var cut := Min(ran * maxSessions, |names|);
            |b.results| == |names| && b.results[..cut] == Concat(round, ran)
            && forall i :: cut <= i < |names| ==>
                 b.results[i] == TaskResult(names[i], false, [], if policy == FailFast then "Cancelled" + " by fail-fast (round skipped)"
                                            else "Skipped:" + " stop-accepting after earlier failure", false)
    ensures multiset(NamesOf(b.results)) == multiset(names)
    ensures b.total == |names| == b.succeeded + b.failed + b.xfailed + b.skipped
    ensures Counted(b, true)
    ensures b.exitCode == 0 <==> AllFine(b.results)
  {
    hide Counted, HasUnexpected, Legit, NamesOf, Count, Unexpected, Unrun, Concat, Taken, RoundTasks, AllFine, WellFormed;
    var allResults;
    allResults, ran := RunRounds(names, maxSessions, policy, round);
    AllAccounted(names, maxSessions, round, ran, SkipReason(policy));
    UnrunSays(Concat(round, ran), names, Taken(names, maxSessions, ran), policy);
    assert Taken(names, maxSessions, ran) == Min(ran * maxSessions, |names|) by { TakenIs(names, maxSessions, ran); }
    CountersAddUp(allResults);
    ExitCodeMeans(|names|, allResults);
    AggregatedCounts(|names|, allResults);
    b := Aggregated(|names|, allResults, FailedInRounds);
  }

  lemma TakenIs(names: seq<string>, size: nat, k: nat)
    ensures Taken(names, size, k) == Min(k * size, |names|)
  {
  }

  /** What is said of tasks that never ran. */
  lemma UnrunSays(ran: seq<TaskResult>, names: seq<string>, cut: nat, policy: Policy)
    requires cut <= |names| && |ran + Unrun(names[cut..], SkipReason(policy))| == |names|
    ensures var all := ran + Unrun(names[cut..], SkipReason(policy));
            |ran| == cut && all[..cut] == ran
            && forall i :: cut <= i < |names| ==>
                 all[i] == TaskResult(names[i], false, [], if policy == FailFast then "Cancelled" + " by fail-fast (round skipped)"
                                      else "Skipped:" + " stop-accepting after earlier failure", false)
  {
    ReasonIs(policy);
    hide SkipReason;
  }

  lemma ReasonIs(policy: Policy)
    ensures SkipReason(policy) == if policy == FailFast then "Cancelled" + " by fail-fast (round skipped)"
                                  else "Skipped:" + " stop-accepting after earlier failure"
  {
  }

  /** The scan of a round's results for an unexpected failure. */
  method Notice(results: seq<TaskResult>) returns (failed: bool)
    ensures failed <==> HasUnexpected(results)
  {
    failed := false;
    for i := 0 to |results|
      invariant failed <==> HasUnexpected(results[..i])
    {
      SeesNext(results, i);
      if Unexpected(results[i]) {
        failed := true;
      }
    }
    assert results[..|results|] == results;
  }

  lemma SeesNext(results: seq<TaskResult>, i: nat)
    requires i < |results|
    ensures HasUnexpected(results[..i + 1]) <==> HasUnexpected(results[..i]) || Unexpected(results[i])
  {
    assert results[..i + 1] == results[..i] + [results[i]];
  }

  lemma RoundsCover(total: nat, size: nat)
    requires size > 0
    ensures var n := (total + size - 1) / size; n * size >= total && n * size < total + size
    ensures (total + size - 1) / size > 0 || total == 0
  {
  }

  lemma RoundInRange(total: nat, size: nat, k: nat)
    requires size > 0 && k < (total + size - 1) / size
    ensures k * size < total
  {
    RoundsCover(total, size);
    assert (k + 1) * size <= ((total + size - 1) / size) * size;
  }

  lemma AllAccounted(names: seq<string>, size: nat, round: nat -> seq<TaskResult>, k: nat, why: string)
    requires size > 0 && why in {SKIPPED, ROUND_CANCELLED}
    requires forall j :: Legit(RoundTasks(names, size, j), round(j))
    ensures var all := Concat(round, k) + Unrun(names[Taken(names, size, k)..], why);
            && multiset(NamesOf(all)) == multiset(names) && |all| == |names|
            && forall r :: r in all ==> WellFormed(r)
  {
    hide Concat, Legit;
    hide Taken;
    var cut := Taken(names, size, k);
    var rest := Unrun(names[cut..], why);
    RoundsPartition(names, size, round, k);
    RoundsAreWorkers(names, size, round, k);
    NamesOfConcat(Concat(round, k), rest);
    assert NamesOf(rest) == names[cut..];
    assert names == names[..cut] + names[cut..];
    var all := Concat(round, k) + rest;
    assert |multiset(NamesOf(all))| == |multiset(names)|;
  }

  /** execute: rounds when sessions must be created for more tasks than the cap allows, one
      round otherwise. */
  method Execute(names: seq<string>, creates: bool, maxSessions: nat, policy: Policy, round: nat -> seq<TaskResult>)
    returns (b: BatchResult)
    requires creates && |names| > maxSessions ==> maxSessions > 0
    requires forall k :: Legit(if creates && |names| > maxSessions then RoundTasks(names, maxSessions, k) else names, round(k))
    ensures multiset(NamesOf(b.results)) == multiset(names) && b.total == |names|
    ensures Counted(b, creates && |names| > maxSessions)
    ensures b.exitCode == 0 <==> AllFine(b.results)
    ensures var counted := b.succeeded + b.failed + b.xfailed + b.skipped;
            counted == if creates && |names| > maxSessions then b.total else b.total + Count(b.results, IsCancelled)
  {
    hide Counted;
    if creates && |names| > maxSessions {
      var ran;
      b, ran := ExecuteRounds(names, maxSessions, policy, round);
      return;
    }
    var results := round(0);
    assert |multiset(NamesOf(results))| == |multiset(names)|;
    CountersAddUp(results);
    ExitCodeMeans(|names|, results);
    AggregatedCounts(|names|, results);
    b := Aggregated(|names|, results, FailedInRound);
  }
}
