/**
  Serial execution of jobs on a thread pool. A job queue posts at most one RunJob to the job
  manager; the RunJob drains up to ten jobs and then either posts a successor or ends. Whether a
  RunJob is due is decided by a 32-bit counter and, when posting fails, by a recovery flag.

  The machine interleaves any number of addJob calls and RunJobs, one shared access per step. The
  underlying queue is an atomic first-in first-out queue; its push and pop, allocation, and the
  posting of a RunJob may fail at any time. Everything here happens before the stop job.
 */
module JobQueue {
  import opened Wrappers
  import opened Arithmetic

  const BATCH: nat := 10
  const WRAP: nat := 0x1_0000_0000

  type Job = nat

  /** One call of addJob, at the shared access it makes next. */
  datatype Adder =
    | Absent
    | Counting
    | CheckFlag
    | Starting

  /** One RunJob: waiting in the job manager, inside runStep, or destroyed. */
  datatype Runner =
    | Waiting(processed: nat, work: Option<Job>)
    | Stepping(processed: nat, job: Job, resumed: bool)
    | Looping(processed: nat)
    | Subtracting(processed: nat)
    | Reposting
    | Ended

  /**
    `jobCount` is the unsigned 32-bit counter. The other history variables record the mathematical
    value of that counter, all jobs pushed, started and finished, and how many jobs finished on a
    later step than their first.
   */
  datatype State = State(
    queue: seq<Job>,
    jobCount: nat,
    noNeedToRecover: bool,
    adders: seq<Adder>,
    runners: seq<Runner>,
    count: int,
    pushed: seq<Job>,
    started: seq<Job>,
    finished: seq<Job>,
    late: nat)

  datatype Step =
    | AddRefused(id: nat)
    | Push(id: nat, job: Job)
    | FetchAdd(id: nat)
    | TestAndSet(id: nat)
    | PostFromAdder(id: nat, ok: bool)
    | RunStep(id: nat)
    | JobReturns(id: nat, again: bool)
    | Pop(id: nat)
    | LeaveLoop(id: nat)
    | FetchSub(id: nat)
    | PostFromRunner(id: nat, ok: bool)

  ghost predicate Init(s: State) {
    && s.queue == [] && s.jobCount == 0 && s.noNeedToRecover
    && (forall i :: 0 <= i < |s.adders| ==> s.adders[i] == Absent)
    && s.runners == []
    && s.count == 0 && s.pushed == [] && s.started == [] && s.finished == [] && s.late == 0
  }

  /** The counter stays within 32 bits: fewer than 2^31 callers, queued jobs and late finishes together. */
  predicate Small(s: State) {
    |s.adders| + |s.queue| + s.late < 0x7FFF_0000
  }

  function SetAdder(s: State, i: nat, a: Adder): State
    requires i < |s.adders|
  {
    s.(adders := s.adders[i := a])
  }

  function SetRunner(s: State, i: nat, r: Runner): State
    requires i < |s.runners|
  {
    s.(runners := s.runners[i := r])
  }

  /** startProcessing: a new RunJob, or the recovery flag when the job manager is full. */
  function Post(s: State, ok: bool): State {
    if ok then s.(runners := s.runners + [Waiting(0, None)]) else s.(noNeedToRecover := false)
  }

  predicate IsAdderStep(step: Step) {
    step.AddRefused? || step.Push? || step.FetchAdd? || step.TestAndSet? || step.PostFromAdder?
  }

  ghost predicate NextAdder(s: State, step: Step, s': State)
    requires IsAdderStep(step)
  {
    && step.id < |s.adders|
    && var i, me := step.id, s.adders[step.id];
    match step {
      case AddRefused(_) =>
        me.Absent? && s' == SetAdder(s, i, CheckFlag)
      case Push(_, job) =>
        me.Absent? && s' == SetAdder(s, i, Counting).(queue := s.queue + [job], pushed := s.pushed + [job])
      case FetchAdd(_) =>
        me.Counting? &&
        s' == SetAdder(s, i, if s.jobCount == 0 then Starting else CheckFlag).(
              jobCount := (s.jobCount + 1) % WRAP, count := s.count + 1)
      case TestAndSet(_) =>
        me.CheckFlag? &&
        s' == SetAdder(s, i, if s.noNeedToRecover then Absent else Starting).(noNeedToRecover := true)
      case PostFromAdder(_, ok) =>
        me.Starting? && s' == Post(SetAdder(s, i, Absent), ok)
    }
  }

  ghost predicate NextRunner(s: State, step: Step, s': State)
    requires !IsAdderStep(step)
  {
    && step.id < |s.runners|
    && var i, me := step.id, s.runners[step.id];
    match step {
      case RunStep(_) =>
        me.Waiting? &&
        s' == SetRunner(s, i, if me.work.Some? then Stepping(me.processed, me.work.value, true)
                              else Looping(me.processed))
      case JobReturns(_, again) =>
        me.Stepping? &&
        if again then s' == SetRunner(s, i, Waiting(me.processed, Some(me.job)))
        else if me.resumed then
          s' == SetRunner(s, i, Looping(me.processed)).(finished := s.finished + [me.job], late := s.late + 1)
        else
          s' == SetRunner(s, i, Looping(me.processed + 1)).(finished := s.finished + [me.job])
      case Pop(_) =>
        me.Looping? && me.processed < BATCH && s.queue != [] &&
        s' == SetRunner(s, i, Stepping(me.processed, s.queue[0], false)).(
              queue := s.queue[1..], started := s.started + [s.queue[0]])
      case LeaveLoop(_) =>
        // ten jobs done, or pop found nothing to return
        me.Looping? && s' == SetRunner(s, i, Subtracting(me.processed))
      case FetchSub(_) =>
        me.Subtracting? &&
        s' == SetRunner(s, i, if s.jobCount > me.processed then Reposting else Ended).(
              jobCount := (s.jobCount - me.processed) % WRAP, count := s.count - me.processed)
      case PostFromRunner(_, ok) =>
        me.Reposting? && s' == Post(SetRunner(s, i, Ended), ok)
    }
  }

  ghost predicate Next(s: State, step: Step, s': State) {
    Small(s) && if IsAdderStep(step) then NextAdder(s, step, s') else NextRunner(s, step, s')
  }

  // ---------------------------------------------------------------------------------------
  // Sums over the calls and the RunJobs

  ghost function Total<T>(xs: seq<T>, f: T -> nat): nat {
    if xs == [] then 0 else Total(xs[..|xs| - 1], f) + f(xs[|xs| - 1])
  }

  lemma {:induction false} TotalUpdate<T>(xs: seq<T>, f: T -> nat, i: nat, x: T)
    requires i < |xs|
    ensures Total(xs[i := x], f) == Total(xs, f) - f(xs[i]) + f(x)
  {
    var n := |xs| - 1;
    if i < n {
      TotalUpdate(xs[..n], f, i, x);
      assert xs[i := x][..n] == xs[..n][i := x];
    } else {
      assert xs[i := x][..n] == xs[..n];
    }
  }

  lemma TotalAppend<T>(xs: seq<T>, f: T -> nat, x: T)
    ensures Total(xs + [x], f) == Total(xs, f) + f(x)
  {
    assert (xs + [x])[..|xs|] == xs;
  }

  lemma {:induction false} TotalAtLeast<T>(xs: seq<T>, f: T -> nat, i: nat)
    requires i < |xs|
    ensures Total(xs, f) >= f(xs[i])
  {
    var n := |xs| - 1;
    if i < n { TotalAtLeast(xs[..n], f, i); }
  }

  lemma {:induction false} TotalAtLeastTwo<T>(xs: seq<T>, f: T -> nat, i: nat, j: nat)
    requires i < j < |xs|
    ensures Total(xs, f) >= f(xs[i]) + f(xs[j])
  {
    var n := |xs| - 1;
    if j < n { TotalAtLeastTwo(xs[..n], f, i, j); } else { TotalAtLeast(xs[..n], f, i); }
  }

  lemma {:induction false} TotalZero<T>(xs: seq<T>, f: T -> nat)
    requires forall i :: 0 <= i < |xs| ==> f(xs[i]) == 0
    ensures Total(xs, f) == 0
  {
    if xs != [] { TotalZero(xs[..|xs| - 1], f); }
  }

  lemma {:induction false} TotalBounded<T>(xs: seq<T>, f: T -> nat)
    requires forall i :: 0 <= i < |xs| ==> f(xs[i]) <= 1
    ensures Total(xs, f) <= |xs|
  {
    if xs != [] { TotalBounded(xs[..|xs| - 1], f); }
  }

  // ---------------------------------------------------------------------------------------
  // The invariant

  /** A call that is about to start processing holds the token. */
  function AdderToken(a: Adder): nat { if a.Starting? then 1 else 0 }

  /** A RunJob holds the token until it ends. */
  function RunnerToken(r: Runner): nat { if r.Ended? then 0 else 1 }

  /** A call that has pushed its job and not yet counted it. */
  function Uncounted(a: Adder): nat { if a.Counting? then 1 else 0 }

  function InHand(r: Runner): nat { if r.Stepping? || (r.Waiting? && r.work.Some?) then 1 else 0 }

  /** Jobs a RunJob has popped and not yet subtracted from the counter. */
  function Unsubtracted(r: Runner): nat {
    if r.Reposting? || r.Ended? then 0 else r.processed + InHand(r)
  }

  ghost function Tokens(s: State): nat {
    Total(s.adders, AdderToken) + Total(s.runners, RunnerToken) + (if s.noNeedToRecover then 0 else 1)
  }

  /** There is a token exactly when the counter is positive, and then there is one. */
  ghost predicate TokenOk(s: State) {
    Tokens(s) == if s.count > 0 then 1 else 0
  }

  /** Nothing is lost: queued and popped jobs are the counted ones and those about to be counted. */
  ghost predicate CountOk(s: State) {
    |s.queue| + Total(s.runners, Unsubtracted) + s.late == s.count + Total(s.adders, Uncounted)
  }

  ghost predicate WordOk(s: State) {
    s.jobCount == s.count % WRAP
  }

  ghost predicate OrderOk(s: State) {
    && s.pushed == s.started + s.queue
    && |s.started| == |s.finished| + Total(s.runners, InHand)
    && s.finished <= s.started
    && (forall i :: 0 <= i < |s.runners| ==> HandOk(s, s.runners[i]))
  }

  /** The job in hand is the first one that started and has not finished. */
  ghost predicate HandOk(s: State, r: Runner) {
    match r
    case Stepping(_, job, _) => |s.finished| < |s.started| && job == s.started[|s.finished|]
    case Waiting(_, Some(job)) => |s.finished| < |s.started| && job == s.started[|s.finished|]
    case _ => true
  }

  ghost predicate BatchOk(s: State) {
    forall i :: 0 <= i < |s.runners| && !s.runners[i].Reposting? && !s.runners[i].Ended? ==>
      s.runners[i].processed + InHand(s.runners[i]) <= BATCH
  }

  ghost predicate Inv(s: State) {
    TokenOk(s) && CountOk(s) && WordOk(s) && OrderOk(s) && BatchOk(s)
  }

  lemma InitEstablishesInv(s: State)
    requires Init(s)
    ensures Inv(s)
  {
    TotalZero(s.adders, AdderToken);
    TotalZero(s.adders, Uncounted);
  }

  // ---------------------------------------------------------------------------------------
  // Every step keeps the invariant

  lemma SetAdderTotals(s: State, i: nat, a: Adder)
    requires i < |s.adders|
    ensures Total(s.adders[i := a], AdderToken) == Total(s.adders, AdderToken) - AdderToken(s.adders[i]) + AdderToken(a)
    ensures Total(s.adders[i := a], Uncounted) == Total(s.adders, Uncounted) - Uncounted(s.adders[i]) + Uncounted(a)
  {
    TotalUpdate(s.adders, AdderToken, i, a);
    TotalUpdate(s.adders, Uncounted, i, a);
  }

  lemma SetRunnerTotals(s: State, i: nat, r: Runner)
    requires i < |s.runners|
    ensures Total(s.runners[i := r], RunnerToken) ==
            Total(s.runners, RunnerToken) - RunnerToken(s.runners[i]) + RunnerToken(r)
    ensures Total(s.runners[i := r], Unsubtracted) ==
            Total(s.runners, Unsubtracted) - Unsubtracted(s.runners[i]) + Unsubtracted(r)
    ensures Total(s.runners[i := r], InHand) == Total(s.runners, InHand) - InHand(s.runners[i]) + InHand(r)
  {
    TotalUpdate(s.runners, RunnerToken, i, r);
    TotalUpdate(s.runners, Unsubtracted, i, r);
    TotalUpdate(s.runners, InHand, i, r);
  }

  lemma AddRunnerTotals(s: State)
    ensures var rs := s.runners + [Waiting(0, None)];
            && Total(rs, RunnerToken) == Total(s.runners, RunnerToken) + 1
            && Total(rs, Unsubtracted) == Total(s.runners, Unsubtracted)
            && Total(rs, InHand) == Total(s.runners, InHand)
  {
    TotalAppend(s.runners, RunnerToken, Waiting(0, None));
    TotalAppend(s.runners, Unsubtracted, Waiting(0, None));
    TotalAppend(s.runners, InHand, Waiting(0, None));
  }

  /** The 32-bit word tells apart what the code asks of it. */
  lemma WordIsFaithful(s: State)
    requires Inv(s) && Small(s)
    ensures s.jobCount == 0 <==> s.count == 0
    ensures s.count > 0 ==> s.jobCount == s.count
  {
    TotalBounded(s.adders, Uncounted);
    UnsubtractedBounded(s);
    if s.count >= 0 {
      DivModUnique(s.count, WRAP, 0, s.count);
    } else {
      DivModUnique(s.count, WRAP, -1, s.count + WRAP);
    }
  }

  /** At most one RunJob has jobs to account for, and at most ten. */
  lemma UnsubtractedBounded(s: State)
    requires TokenOk(s) && BatchOk(s)
    ensures Total(s.runners, Unsubtracted) <= BATCH
  {
    if i :| 0 <= i < |s.runners| && RunnerToken(s.runners[i]) == 1 {
      OnlyRunner(s, i);
      forall j | 0 <= j < |s.runners| && j != i ensures Unsubtracted(s.runners[j]) == 0 {
      }
      TotalUpdate(s.runners, Unsubtracted, i, Ended);
      TotalZero(s.runners[i := Ended], Unsubtracted);
    } else {
      TotalZero(s.runners, Unsubtracted);
    }
  }

  lemma OnlyRunner(s: State, i: nat)
    requires TokenOk(s) && i < |s.runners| && RunnerToken(s.runners[i]) == 1
    ensures s.count > 0 && s.noNeedToRecover
    ensures forall j :: 0 <= j < |s.runners| && j != i ==> s.runners[j].Ended?
    ensures forall a :: 0 <= a < |s.adders| ==> !s.adders[a].Starting?
  {
    TotalAtLeast(s.runners, RunnerToken, i);
    forall j | 0 <= j < |s.runners| && j != i ensures s.runners[j].Ended? {
      if i < j { TotalAtLeastTwo(s.runners, RunnerToken, i, j); } else { TotalAtLeastTwo(s.runners, RunnerToken, j, i); }
    }
    forall a | 0 <= a < |s.adders| ensures !s.adders[a].Starting? {
      TotalAtLeast(s.adders, AdderToken, a);
    }
  }

  lemma WordMoves(count: int, d: int)
    ensures (count % WRAP + d) % WRAP == (count + d) % WRAP
  {
    var x := count % WRAP + d;
    assert count + d == (count / WRAP + x / WRAP) * WRAP + x % WRAP;
    DivModUnique(count + d, WRAP, count / WRAP + x / WRAP, x % WRAP);
  }

  lemma StepKeepsWord(s: State, step: Step, s': State)
    requires WordOk(s) && Next(s, step, s')
    ensures WordOk(s')
  {
    WordMoves(s.count, s'.count - s.count);
  }

  lemma AdderStepKeepsCounts(s: State, step: Step, s': State)
    requires TokenOk(s) && CountOk(s) && (s.jobCount == 0 <==> s.count == 0)
    requires IsAdderStep(step) && NextAdder(s, step, s')
    ensures TokenOk(s') && CountOk(s')
  {
    var i := step.id;
    SetAdderTotals(s, i, s'.adders[i]);
    AddRunnerTotals(s);
    TotalAtLeast(s.adders, AdderToken, i);
  }

  lemma PushKeepsOrder(s: State, s': State, job: Job)
    requires OrderOk(s)
    requires s'.queue == s.queue + [job] && s'.pushed == s.pushed + [job]
    requires s'.started == s.started && s'.finished == s.finished && s'.runners == s.runners
    ensures OrderOk(s')
  {
    assert s.started + s.queue + [job] == s.started + (s.queue + [job]);
    forall i | 0 <= i < |s'.runners| ensures HandOk(s', s'.runners[i]) { assert HandOk(s, s.runners[i]); }
  }

  lemma PostKeepsOrder(s: State, s': State)
    requires OrderOk(s)
    requires s'.queue == s.queue && s'.pushed == s.pushed && s'.started == s.started && s'.finished == s.finished
    requires s'.runners == s.runners || s'.runners == s.runners + [Waiting(0, None)]
    ensures OrderOk(s')
  {
    AddRunnerTotals(s);
    forall i | 0 <= i < |s'.runners| ensures HandOk(s', s'.runners[i]) {
      if i < |s.runners| { assert HandOk(s, s.runners[i]); }
    }
  }

  lemma AdderStepKeepsOrder(s: State, step: Step, s': State)
    requires OrderOk(s) && BatchOk(s)
    requires IsAdderStep(step) && NextAdder(s, step, s')
    ensures OrderOk(s') && BatchOk(s')
  {
    if step.Push? { PushKeepsOrder(s, s', step.job); } else { PostKeepsOrder(s, s'); }
  }

  lemma RunnerStepKeepsTokens(s: State, step: Step, s': State)
    requires TokenOk(s) && (s.count > 0 ==> s.jobCount == s.count)
    requires !IsAdderStep(step) && NextRunner(s, step, s')
    ensures TokenOk(s')
  {
    var i := step.id;
    SetRunnerTotals(s, i, s'.runners[i]);
    AddRunnerTotals(SetRunner(s, i, s'.runners[i]));
    OnlyRunner(s, i);
  }

  lemma RunnerStepKeepsCount(s: State, step: Step, s': State)
    requires CountOk(s)
    requires !IsAdderStep(step) && NextRunner(s, step, s')
    ensures CountOk(s')
  {
    var i := step.id;
    SetRunnerTotals(s, i, s'.runners[i]);
    if step.PostFromRunner? {
      AddRunnerTotals(SetRunner(s, i, Ended));
    }
  }

  lemma OnlyRunnerInHand(s: State, i: nat)
    requires TokenOk(s) && i < |s.runners| && RunnerToken(s.runners[i]) == 1
    ensures Total(s.runners, InHand) == InHand(s.runners[i])
  {
    OnlyRunner(s, i);
    TotalUpdate(s.runners, InHand, i, Ended);
    TotalZero(s.runners[i := Ended], InHand);
  }

  lemma RunnerStepKeepsBatch(s: State, step: Step, s': State)
    requires BatchOk(s)
    requires !IsAdderStep(step) && NextRunner(s, step, s')
    ensures BatchOk(s')
  {
  }

  /** The runner that takes a step is the only one alive, so only its hand matters. */
  lemma OrderFromOnlyRunner(s: State, i: nat, s': State)
    requires TokenOk(s) && i < |s.runners| == |s'.runners| && RunnerToken(s.runners[i]) == 1
    requires s'.runners == s.runners[i := s'.runners[i]]
    requires s'.pushed == s'.started + s'.queue && s'.finished <= s'.started
    requires |s'.started| == |s'.finished| + InHand(s'.runners[i])
    requires HandOk(s', s'.runners[i])
    ensures OrderOk(s')
  {
    OnlyRunner(s, i);
    OnlyRunnerInHand(s, i);
    TotalUpdate(s.runners, InHand, i, s'.runners[i]);
  }

  lemma RunnerStepKeepsOrder(s: State, step: Step, s': State)
    requires TokenOk(s) && OrderOk(s)
    requires !IsAdderStep(step) && NextRunner(s, step, s')
    ensures OrderOk(s')
  {
    var i := step.id;
    OnlyRunnerInHand(s, i);
    assert HandOk(s, s.runners[i]);
    if step.PostFromRunner? {
      OrderFromOnlyRunner(s, i, SetRunner(s, i, Ended));
      PostKeepsOrder(SetRunner(s, i, Ended), s');
    } else {
      if step.Pop? { assert s.started + s.queue == s'.started + s'.queue; }
      OrderFromOnlyRunner(s, i, s');
    }
  }

  lemma StepKeepsInv(s: State, step: Step, s': State)
    requires Inv(s) && Next(s, step, s')
    ensures Inv(s')
  {
    WordIsFaithful(s);
    StepKeepsWord(s, step, s');
    if IsAdderStep(step) {
      AdderStepKeepsCounts(s, step, s');
      AdderStepKeepsOrder(s, step, s');
    } else {
      RunnerStepKeepsTokens(s, step, s');
      RunnerStepKeepsCount(s, step, s');
      RunnerStepKeepsBatch(s, step, s');
      RunnerStepKeepsOrder(s, step, s');
    }
  }

  // ---------------------------------------------------------------------------------------
  // Whole runs

  ghost predicate IsRun(run: seq<State>, steps: seq<Step>) {
    && |run| == |steps| + 1
    && Init(run[0])
    && (forall i :: 0 <= i < |steps| ==> Next(run[i], steps[i], run[i + 1]))
  }

  lemma {:induction false} RunKeepsInv(run: seq<State>, steps: seq<Step>, k: nat)
    requires IsRun(run, steps) && k < |run|
    ensures Inv(run[k])
  {
    hide Inv, Init, Next;
    if k == 0 {
      InitEstablishesInv(run[0]);
    } else {
      RunKeepsInv(run, steps, k - 1);
      StepKeepsInv(run[k - 1], steps[k - 1], run[k]);
    }
  }

  /**
    Mutual exclusion, however often posting fails: a positive counter means exactly one of a live
    RunJob, a call about to start one, and the recovery flag; otherwise there is none of them.
   */
  lemma OneTokenAtMost(run: seq<State>, steps: seq<Step>, k: nat)
    requires IsRun(run, steps) && k < |run|
    ensures run[k].count > 0 <==> Tokens(run[k]) == 1
    ensures run[k].count <= 0 <==> Tokens(run[k]) == 0
    ensures forall i, j :: 0 <= i < |run[k].runners| && 0 <= j < |run[k].runners| && i != j ==>
              run[k].runners[i].Ended? || run[k].runners[j].Ended?
  {
    RunKeepsInv(run, steps, k);
    forall i, j | 0 <= i < |run[k].runners| && 0 <= j < |run[k].runners| && i != j
      ensures run[k].runners[i].Ended? || run[k].runners[j].Ended?
    {
      if !run[k].runners[i].Ended? { OnlyRunner(run[k], i); }
    }
  }

  /** Jobs start in the order they were pushed, and each only after the one before it has finished. */
  lemma JobsRunSeriallyInOrder(run: seq<State>, steps: seq<Step>, k: nat)
    requires IsRun(run, steps) && k < |run|
    ensures run[k].finished <= run[k].started <= run[k].pushed
    ensures |run[k].started| <= |run[k].finished| + 1
    ensures k < |steps| && steps[k].Pop? ==>
              && run[k].started == run[k].finished
              && |run[k].started| < |run[k].pushed|
              && run[k + 1].started == run[k].started + [run[k].pushed[|run[k].started|]]
    ensures k < |steps| && steps[k].JobReturns? && !steps[k].again ==> run[k + 1].finished == run[k + 1].started
  {
    var s := run[k];
    RunKeepsInv(run, steps, k);
    InHandAtMostOne(s);
    if k < |steps| {
      assert Next(s, steps[k], run[k + 1]);
      if steps[k].Pop? || steps[k].JobReturns? {
        OnlyRunnerInHand(s, steps[k].id);
        assert HandOk(s, s.runners[steps[k].id]);
      }
    }
  }

  lemma InHandAtMostOne(s: State)
    requires TokenOk(s)
    ensures Total(s.runners, InHand) <= 1
  {
    if i :| 0 <= i < |s.runners| && RunnerToken(s.runners[i]) == 1 {
      OnlyRunnerInHand(s, i);
    } else {
      TotalZero(s.runners, InHand);
    }
  }

  /** No call of addJob is under way, no RunJob is alive, and no recovery is due. */
  ghost predicate Quiescent(s: State) {
    && (forall i :: 0 <= i < |s.adders| ==> s.adders[i] == Absent)
    && (forall i :: 0 <= i < |s.runners| ==> s.runners[i] == Ended)
    && s.noNeedToRecover
  }

  /** A queue at rest has run every job that was pushed; and no job had finished on a later step. */
  lemma NoJobIsLost(run: seq<State>, steps: seq<Step>, k: nat)
    requires IsRun(run, steps) && k < |run| && Quiescent(run[k])
    ensures run[k].queue == [] && run[k].finished == run[k].pushed
    ensures run[k].count == 0 && run[k].late == 0
  {
    var s := run[k];
    RunKeepsInv(run, steps, k);
    TotalZero(s.adders, AdderToken);
    TotalZero(s.adders, Uncounted);
    TotalZero(s.runners, RunnerToken);
    TotalZero(s.runners, Unsubtracted);
    TotalZero(s.runners, InHand);
  }

  lemma {:induction false} LateOnlyGrows(run: seq<State>, steps: seq<Step>, i: nat, j: nat)
    requires IsRun(run, steps) && i <= j < |run|
    ensures run[i].late <= run[j].late
    decreases j - i
  {
    if i < j {
      assert Next(run[j - 1], steps[j - 1], run[j]);
      LateOnlyGrows(run, steps, i, j - 1);
    }
  }

  /** Once a job has finished on a later step than its first, the queue never comes to rest again. */
  lemma LateFinishKeepsQueueBusy(run: seq<State>, steps: seq<Step>, i: nat, j: nat)
    requires IsRun(run, steps) && i <= j < |run|
    requires run[i].late > 0
    ensures !Quiescent(run[j])
  {
    LateOnlyGrows(run, steps, i, j);
    if Quiescent(run[j]) { NoJobIsLost(run, steps, j); }
  }

  /**
    The exact condition: when nothing is left in the queue and no call is counting, a RunJob posts
    a successor if and only if some job has finished on a later step.
   */
  lemma RepostsWhenDrainedIff(run: seq<State>, steps: seq<Step>, k: nat)
    requires IsRun(run, steps) && k < |steps| && steps[k].FetchSub?
    requires run[k].queue == []
    requires forall a :: 0 <= a < |run[k].adders| ==> !run[k].adders[a].Counting?
    ensures steps[k].id < |run[k + 1].runners|
    ensures run[k + 1].runners[steps[k].id] == Reposting <==> run[k].late > 0
  {
    var s, i := run[k], steps[k].id;
    RunKeepsInv(run, steps, k);
    assert Next(s, steps[k], run[k + 1]);
    TotalZero(s.adders, Uncounted);
    OnlyRunner(s, i);
    TotalUpdate(s.runners, Unsubtracted, i, Ended);
    TotalZero(s.runners[i := Ended], Unsubtracted);
    WordIsFaithful(s);
  }

  lemma ExtendRun(run: seq<State>, steps: seq<Step>, step: Step, s': State)
    requires IsRun(run, steps) && Next(run[|run| - 1], step, s')
    ensures IsRun(run + [s'], steps + [step])
  {
    var run', steps' := run + [s'], steps + [step];
    forall i | 0 <= i < |steps'| ensures Next(run'[i], steps'[i], run'[i + 1]) {
      if i < |steps| { assert Next(run[i], steps[i], run[i + 1]); }
    }
  }

  lemma OneJobPosted() returns (run: seq<State>, steps: seq<Step>)
    ensures IsRun(run, steps)
    ensures run[|run| - 1] == State([7], 1, true, [Absent], [Waiting(0, None)], 1, [7], [], [], 0)
  {
    var s0 := State([], 0, true, [Absent], [], 0, [], [], [], 0);
    var s1 := s0.(queue := [7], adders := [Counting], pushed := [7]);
    var s2 := s1.(adders := [Starting], jobCount := 1, count := 1);
    var s3 := s2.(adders := [Absent], runners := [Waiting(0, None)]);
    run, steps := [s0], [];
    ExtendRun(run, steps, Push(0, 7), s1);
    run, steps := run + [s1], steps + [Push(0, 7)];
    ExtendRun(run, steps, FetchAdd(0), s2);
    run, steps := run + [s2], steps + [FetchAdd(0)];
    ExtendRun(run, steps, PostFromAdder(0, true), s3);
    run, steps := run + [s3], steps + [PostFromAdder(0, true)];
  }

  lemma OneJobStarted() returns (run: seq<State>, steps: seq<Step>)
    ensures IsRun(run, steps)
    ensures run[|run| - 1] == State([], 1, true, [Absent], [Stepping(0, 7, false)], 1, [7], [7], [], 0)
  {
    run, steps := OneJobPosted();
    var s3 := run[|run| - 1];
    var s4 := s3.(runners := [Looping(0)]);
    var s5 := s4.(queue := [], runners := [Stepping(0, 7, false)], started := [7]);
    ExtendRun(run, steps, RunStep(0), s4);
    run, steps := run + [s4], steps + [RunStep(0)];
    ExtendRun(run, steps, Pop(0), s5);
    run, steps := run + [s5], steps + [Pop(0)];
  }

  /** Such runs exist: one job that needs two steps is enough. */
  lemma LateFinishHappens() returns (run: seq<State>, steps: seq<Step>)
    ensures IsRun(run, steps)
    ensures var last := run[|run| - 1];
            last.queue == [] && last.finished == last.pushed && last.adders == [Absent] && last.late > 0
  {
    run, steps := OneJobStarted();
    var s5 := run[|run| - 1];
    var s6 := s5.(runners := [Waiting(0, Some(7))]);
    var s7 := s6.(runners := [Stepping(0, 7, true)]);
    var s8 := s7.(runners := [Looping(0)], finished := [7], late := 1);
    ExtendRun(run, steps, JobReturns(0, true), s6);
    run, steps := run + [s6], steps + [JobReturns(0, true)];
    ExtendRun(run, steps, RunStep(0), s7);
    run, steps := run + [s7], steps + [RunStep(0)];
    ExtendRun(run, steps, JobReturns(0, false), s8);
    run, steps := run + [s8], steps + [JobReturns(0, false)];
  }

  // ---------------------------------------------------------------------------------------
  // Recovery after a failed post

  /** In step m a call takes the recovery flag and is about to post. */
  ghost predicate TakesFlag(run: seq<State>, steps: seq<Step>, m: nat)
    requires |run| == |steps| + 1
  {
    && m < |steps| && steps[m].TestAndSet? && steps[m].id < |run[m + 1].adders|
    && !run[m].noNeedToRecover && run[m + 1].noNeedToRecover && run[m + 1].adders[steps[m].id] == Starting
  }

  /** A call of addJob begins in step b, with its job accepted or refused. */
  predicate BeginsCall(step: Step, a: nat) {
    (step.Push? || step.AddRefused?) && step.id == a
  }

  lemma StepInRun(run: seq<State>, steps: seq<Step>, k: nat)
    requires IsRun(run, steps) && k < |steps|
    ensures Inv(run[k]) && Next(run[k], steps[k], run[k + 1])
    ensures |run[k + 1].adders| == |run[k].adders|
  {
    hide Inv, Init;
    RunKeepsInv(run, steps, k);
    assert Next(run[k], steps[k], run[k + 1]);
  }

  /** While the flag is cleared, the counter is positive, and a step leaves the flag or takes it. */
  lemma ClearedFlagStep(s: State, step: Step, s': State)
    requires Inv(s) && Next(s, step, s') && !s.noNeedToRecover
    ensures s.jobCount != 0
    ensures s'.noNeedToRecover ==>
      step.TestAndSet? && step.id < |s'.adders| && s'.adders[step.id] == Starting
  {
    WordIsFaithful(s);
  }

  /** A call that began with the flag cleared has not ended as long as the flag is. */
  lemma WaitingCallStep(s: State, step: Step, s': State, a: nat)
    requires Next(s, step, s') && a < |s.adders| && !s.noNeedToRecover && !s'.noNeedToRecover && s.jobCount != 0
    requires s.adders[a].Counting? || s.adders[a].CheckFlag? || BeginsCall(step, a)
    ensures a < |s'.adders| && (s'.adders[a].Counting? || s'.adders[a].CheckFlag?)
  {
  }

  lemma {:induction false} TakenOrWaiting(run: seq<State>, steps: seq<Step>, i: nat, b: nat, x: nat, a: nat)
    returns (taken: bool, m: nat)
    requires IsRun(run, steps) && i <= x < |run| && i <= b < |steps| && !run[i].noNeedToRecover
    requires BeginsCall(steps[b], a) && a < |run[x].adders|
    ensures taken ==> i <= m < x && TakesFlag(run, steps, m)
    ensures !taken ==> !run[x].noNeedToRecover
    ensures !taken && b < x ==> run[x].adders[a].Counting? || run[x].adders[a].CheckFlag?
    decreases x - i
  {
    hide Inv, Init, Next;
    taken, m := false, i;
    if i < x {
      StepInRun(run, steps, x - 1);
      taken, m := TakenOrWaiting(run, steps, i, b, x - 1, a);
      if !taken {
        ClearedFlagStep(run[x - 1], steps[x - 1], run[x]);
        if run[x].noNeedToRecover {
          taken, m := true, x - 1;
        } else if b < x {
          WaitingCallStep(run[x - 1], steps[x - 1], run[x], a);
        }
      }
    }
  }

  /**
    Recovery: if the flag is cleared in state i and a call of addJob, accepted or refused, begins at or after
    i and has ended in state j, some call took the flag in between to post a RunJob.
   */
  lemma FlagIsTaken(run: seq<State>, steps: seq<Step>, i: nat, b: nat, j: nat, a: nat) returns (m: nat)
    requires IsRun(run, steps) && i <= b < j < |run| && !run[i].noNeedToRecover
    requires BeginsCall(steps[b], a) && a < |run[j].adders| && run[j].adders[a] == Absent
    ensures i <= m < j && TakesFlag(run, steps, m)
  {
    hide Inv, Init, Next;
    var taken;
    taken, m := TakenOrWaiting(run, steps, i, b, j, a);
  }

  /** A live RunJob was added, or the flag is cleared again. */
  ghost predicate Posted(s: State, step: Step, s': State, a: nat) {
    && step.PostFromAdder? && step.id == a
    && if step.ok then s'.runners == s.runners + [Waiting(0, None)] else !s'.noNeedToRecover
  }

  /** A call about to post does nothing else; after it has moved on, it has posted. */
  lemma {:induction false} StartingPosts(run: seq<State>, steps: seq<Step>, m: nat, j: nat, a: nat) returns (p: nat)
    requires IsRun(run, steps) && m <= j < |run| && a < |run[m].adders| && run[m].adders[a] == Starting
    requires a < |run[j].adders| && run[j].adders[a] != Starting
    ensures m <= p < j && Posted(run[p], steps[p], run[p + 1], a)
    decreases j - m
  {
    hide Inv, Init;
    StepInRun(run, steps, m);
    if steps[m].PostFromAdder? && steps[m].id == a {
      p := m;
    } else {
      p := StartingPosts(run, steps, m + 1, j, a);
    }
  }

  /** A call takes the flag, posts, and ends, all between i and j. */
  ghost predicate Recovers(run: seq<State>, steps: seq<Step>, i: nat, m: nat, p: nat, j: nat)
    requires |run| == |steps| + 1
  {
    i <= m < p < j < |run| && TakesFlag(run, steps, m) && Posted(run[p], steps[p], run[p + 1], steps[m].id)
  }

  /** When no call is under way any more in state j, the call that took the flag has posted. */
  lemma RecoveryIsPosted(run: seq<State>, steps: seq<Step>, i: nat, b: nat, j: nat, a: nat) returns (m: nat, p: nat)
    requires IsRun(run, steps) && i <= b < j < |run| && !run[i].noNeedToRecover
    requires BeginsCall(steps[b], a) && a < |run[j].adders|
    requires forall c :: 0 <= c < |run[j].adders| ==> run[j].adders[c] == Absent
    ensures Recovers(run, steps, i, m, p, j)
  {
    hide Inv, Init, Next;
    m := FlagIsTaken(run, steps, i, b, j, a);
    SameAdders(run, steps, m + 1);
    SameAdders(run, steps, j);
    p := StartingPosts(run, steps, m + 1, j, steps[m].id);
  }

  lemma {:induction false} SameAdders(run: seq<State>, steps: seq<Step>, k: nat)
    requires IsRun(run, steps) && k < |run|
    ensures |run[k].adders| == |run[0].adders|
  {
    hide Inv, Init, Next;
    if k > 0 {
      SameAdders(run, steps, k - 1);
      StepInRun(run, steps, k - 1);
    }
  }

  /** No post fails in the steps from b up to j. */
  ghost predicate PostsSucceed(steps: seq<Step>, b: nat, j: nat)
    requires j <= |steps|
  {
    forall k :: b <= k < j ==> !(steps[k].PostFromAdder? && !steps[k].ok) && !(steps[k].PostFromRunner? && !steps[k].ok)
  }

  lemma {:induction false} FlagStaysSet(run: seq<State>, steps: seq<Step>, i: nat, j: nat)
    requires IsRun(run, steps) && i <= j < |run| && run[i].noNeedToRecover && PostsSucceed(steps, i, j)
    ensures run[j].noNeedToRecover
    decreases j - i
  {
    hide Inv, Init;
    if i < j {
      FlagStaysSet(run, steps, i, j - 1);
      StepInRun(run, steps, j - 1);
    }
  }

  /** Some RunJob is alive, or some call is about to post one. */
  ghost predicate WillRun(s: State) {
    || (exists r :: 0 <= r < |s.runners| && !s.runners[r].Ended?)
    || (exists c :: 0 <= c < |s.adders| && s.adders[c].Starting?)
  }

  /**
    So a call during which no post fails leaves no counted job behind, whatever failed before it: when it has
    ended, a RunJob is alive or about to be posted unless the counter is down to zero.
   */
  lemma CallGetsQueueGoing(run: seq<State>, steps: seq<Step>, b: nat, j: nat, a: nat)
    requires IsRun(run, steps) && b < j < |run| && BeginsCall(steps[b], a)
    requires a < |run[j].adders| && run[j].adders[a] == Absent && PostsSucceed(steps, b, j)
    ensures run[j].noNeedToRecover
    ensures run[j].count > 0 ==> WillRun(run[j])
  {
    hide Inv, Init, Next;
    if run[b].noNeedToRecover {
      FlagStaysSet(run, steps, b, j);
    } else {
      var m := FlagIsTaken(run, steps, b, b, j, a);
      FlagStaysSet(run, steps, m + 1, j);
    }
    OneTokenAtMost(run, steps, j);
    if run[j].count > 0 { TokenIsSomewhere(run[j]); }
  }

  lemma TokenIsSomewhere(s: State)
    requires Tokens(s) == 1 && s.noNeedToRecover
    ensures WillRun(s)
  {
    if !WillRun(s) {
      TotalZero(s.adders, AdderToken);
      TotalZero(s.runners, RunnerToken);
    }
  }

  // ---------------------------------------------------------------------------------------
  // Nobody is stuck

  ghost predicate CanTake(s: State, step: Step) {
    exists s' :: Next(s, step, s')
  }

  /** Every call can go on. */
  lemma CallIsNeverStuck(s: State, a: nat, job: Job, ok: bool)
    requires Small(s) && a < |s.adders|
    ensures match s.adders[a]
      case Absent => CanTake(s, Push(a, job)) && CanTake(s, AddRefused(a))
      case Counting => CanTake(s, FetchAdd(a))
      case CheckFlag => CanTake(s, TestAndSet(a))
      case Starting => CanTake(s, PostFromAdder(a, ok))
  {
    match s.adders[a] {
      case Absent =>
        assert Next(s, AddRefused(a), SetAdder(s, a, CheckFlag));
        assert Next(s, Push(a, job),
          SetAdder(s, a, Counting).(queue := s.queue + [job], pushed := s.pushed + [job]));
      case Counting =>
        assert Next(s, FetchAdd(a), SetAdder(s, a, if s.jobCount == 0 then Starting else CheckFlag).(
          jobCount := (s.jobCount + 1) % WRAP, count := s.count + 1));
      case CheckFlag =>
        assert Next(s, TestAndSet(a),
          SetAdder(s, a, if s.noNeedToRecover then Absent else Starting).(noNeedToRecover := true));
      case Starting =>
        assert Next(s, PostFromAdder(a, ok), Post(SetAdder(s, a, Absent), ok));
    }
  }

  /** So can every live RunJob; it takes the next job as long as there is one and its batch is not full. */
  lemma RunnerIsNeverStuck(s: State, r: nat, again: bool, ok: bool)
    requires Small(s) && r < |s.runners|
    ensures match s.runners[r]
      case Waiting(_, _) => CanTake(s, RunStep(r))
      case Stepping(_, _, _) => CanTake(s, JobReturns(r, again))
      case Looping(processed) =>
        if processed < BATCH && s.queue != [] then CanTake(s, Pop(r)) else CanTake(s, LeaveLoop(r))
      case Subtracting(_) => CanTake(s, FetchSub(r))
      case Reposting => CanTake(s, PostFromRunner(r, ok))
      case Ended => true
  {
    var me := s.runners[r];
    match me {
      case Waiting(processed, work) =>
        assert Next(s, RunStep(r), SetRunner(s, r,
          if work.Some? then Stepping(processed, work.value, true) else Looping(processed)));
      case Stepping(processed, job, resumed) =>
        var s' :=
          if again then SetRunner(s, r, Waiting(processed, Some(job)))
          else if resumed then
            SetRunner(s, r, Looping(processed)).(finished := s.finished + [job], late := s.late + 1)
          else SetRunner(s, r, Looping(processed + 1)).(finished := s.finished + [job]);
        assert Next(s, JobReturns(r, again), s');
      case Looping(processed) =>
        assert Next(s, LeaveLoop(r), SetRunner(s, r, Subtracting(processed)));
        if processed < BATCH && s.queue != [] {
          assert Next(s, Pop(r), SetRunner(s, r, Stepping(processed, s.queue[0], false)).(
            queue := s.queue[1..], started := s.started + [s.queue[0]]));
        }
      case Subtracting(processed) =>
        assert Next(s, FetchSub(r), SetRunner(s, r, if s.jobCount > processed then Reposting else Ended).(
          jobCount := (s.jobCount - processed) % WRAP, count := s.count - processed));
      case Reposting =>
        assert Next(s, PostFromRunner(r, ok), Post(SetRunner(s, r, Ended), ok));
      case Ended =>
    }
  }
}
