/**
  The pool allocator: a fixed set of blocks kept on eight lock-free stacks, visited in turn by two
  wrapping 32-bit counters. Any number of threads allocate and free concurrently.
 */
module PoolAllocator {
  import opened Arithmetic
  import opened Wrappers
  import Stack = WaitFreeStack

  const QCOUNT: nat := 8
  const WRAP: nat := 0x1_0000_0000

  /** `built` counts the blocks the constructor has put on the stacks so far. */
  datatype Pool = Pool(stacks: Stack.State, popIndex: nat, pushIndex: nat, built: nat)

  datatype Step =
    | Construct(tid: nat)
    | Allocate(tid: nat)
    | Free(tid: nat, block: nat)
    | Inner(step: Stack.Step)

  ghost predicate Init(p: Pool) {
    Stack.Init(p.stacks) && |p.stacks.heads| == QCOUNT && p.popIndex == 0 && p.pushIndex == 0 && p.built == 0
  }

  ghost predicate Next(p: Pool, step: Step, p': Pool) {
    && |p.stacks.place| == |p.stacks.next|
    && match step {
      case Construct(t) =>
        && p.built < |p.stacks.next|
        && p.stacks.place[p.built] == Stack.Fresh
        && Stack.Next(p.stacks, Stack.BeginPush(t, p.built % QCOUNT, p.built), p'.stacks)
        && p' == p.(stacks := p'.stacks, built := p.built + 1)
      case Allocate(t) =>
        && Stack.Next(p.stacks, Stack.BeginPop(t, p.popIndex % QCOUNT), p'.stacks)
        && p' == p.(stacks := p'.stacks, popIndex := (p.popIndex + 1) % WRAP)
      case Free(t, block) =>
        // a client frees only a block it was given
        && block < |p.stacks.next|
        && p.stacks.place[block] == Stack.Out
        && Stack.Next(p.stacks, Stack.BeginPush(t, p.pushIndex % QCOUNT, block), p'.stacks)
        && p' == p.(stacks := p'.stacks, pushIndex := (p.pushIndex + 1) % WRAP)
      case Inner(step) =>
        && !step.BeginPush? && !step.BeginPop?
        && Stack.Next(p.stacks, step, p'.stacks)
        && p' == p.(stacks := p'.stacks)
    }
  }

  /** allocate() returns a block in the step that ends a successful pop. */
  ghost predicate HandsOut(p: Pool, step: Step, block: nat) {
    && step.Inner?
    && step.step.ClearNext?
    && step.step.tid < |p.stacks.threads|
    && p.stacks.threads[step.step.tid].PopClear?
    && p.stacks.threads[step.step.tid].item == block
  }

  ghost predicate IsRun(run: seq<Pool>, steps: seq<Step>) {
    && |run| == |steps| + 1
    && Init(run[0])
    && (forall i :: 0 <= i < |steps| ==> Next(run[i], steps[i], run[i + 1]))
  }

  lemma StepKeepsInv(p: Pool, step: Step, p': Pool)
    requires Stack.Inv(p.stacks) && Next(p, step, p')
    ensures Stack.Inv(p'.stacks)
    ensures |p'.stacks.next| == |p.stacks.next|
  {
    match step {
      case Construct(t) => Stack.StepKeepsInv(p.stacks, Stack.BeginPush(t, p.built % QCOUNT, p.built), p'.stacks);
      case Allocate(t) => Stack.StepKeepsInv(p.stacks, Stack.BeginPop(t, p.popIndex % QCOUNT), p'.stacks);
      case Free(t, block) => Stack.StepKeepsInv(p.stacks, Stack.BeginPush(t, p.pushIndex % QCOUNT, block), p'.stacks);
      case Inner(step) => Stack.StepKeepsInv(p.stacks, step, p'.stacks);
    }
  }

  lemma {:induction false} RunKeepsInv(run: seq<Pool>, steps: seq<Step>, k: nat)
    requires IsRun(run, steps) && k < |run|
    ensures Stack.Inv(run[k].stacks)
    ensures |run[k].stacks.next| == |run[0].stacks.next|
  {
    if k == 0 {
      Stack.InitEstablishesInv(run[0].stacks);
    } else {
      RunKeepsInv(run, steps, k - 1);
      StepKeepsInv(run[k - 1], steps[k - 1], run[k]);
    }
  }

  /** A block with its client stays there until that block is freed. */
  lemma OutUntilFreed(p: Pool, step: Step, p': Pool, block: nat)
    requires Stack.Inv(p.stacks) && Next(p, step, p') && block < |p.stacks.next|
    requires p.stacks.place[block] == Stack.Out
    requires !(step.Free? && step.block == block)
    ensures |p'.stacks.place| == |p.stacks.place| && p'.stacks.place[block] == Stack.Out
  {
    if step.Inner? {
      var t := step.step.tid;
      assert Stack.ThreadOk(p.stacks, t);
      var me := p.stacks.threads[t];
      if step.step.CasPop? {
        Stack.StepRefinesStacks(p.stacks, step.step, p'.stacks);
        Stack.OnePlacePerNode(p.stacks, me.item);
        assert p.stacks.lists[me.stack][0] in p.stacks.lists[me.stack];
      }
    }
  }

  lemma {:induction false} OutUntilFreedInRun(run: seq<Pool>, steps: seq<Step>, i: nat, j: nat, block: nat)
    requires IsRun(run, steps) && i <= j < |run|
    requires block < |run[i].stacks.place| && run[i].stacks.place[block] == Stack.Out
    requires forall m :: i <= m < j ==> !(steps[m].Free? && steps[m].block == block)
    ensures block < |run[j].stacks.place| && run[j].stacks.place[block] == Stack.Out
    decreases j - i
  {
    if i < j {
      RunKeepsInv(run, steps, j - 1);
      OutUntilFreedInRun(run, steps, i, j - 1, block);
      OutUntilFreed(run[j - 1], steps[j - 1], run[j], block);
    }
  }

  lemma HandOutIsPopping(p: Pool, step: Step, p': Pool, block: nat)
    requires Stack.Inv(p.stacks) && Next(p, step, p') && HandsOut(p, step, block)
    ensures block < |p.stacks.place| == |p'.stacks.place|
    ensures p.stacks.place[block] == Stack.Popping(step.step.tid)
    ensures p'.stacks.place[block] == Stack.Out
  {
    assert Stack.ThreadOk(p.stacks, step.step.tid);
  }

  /** In every run, a block that is handed out twice was freed in between. */
  lemma NeverHandedOutTwice(run: seq<Pool>, steps: seq<Step>, i: nat, j: nat, block: nat)
    requires IsRun(run, steps) && i < j < |steps|
    requires HandsOut(run[i], steps[i], block) && HandsOut(run[j], steps[j], block)
    ensures exists m :: i < m < j && steps[m].Free? && steps[m].block == block
  {
    RunKeepsInv(run, steps, i);
    RunKeepsInv(run, steps, j);
    HandOutIsPopping(run[i], steps[i], run[i + 1], block);
    HandOutIsPopping(run[j], steps[j], run[j + 1], block);
    if forall m :: i + 1 <= m < j ==> !(steps[m].Free? && steps[m].block == block) {
      OutUntilFreedInRun(run, steps, i + 1, j, block);
      assert false;
    }
  }

  // ---------------------------------------------------------------------------------------
  // Conservation

  ghost function FreeBlocks(s: Stack.State, stacks: nat): set<nat> {
    set n | 0 <= n < |s.place| && s.place[n].InStack? && s.place[n].stack < stacks
  }

  ghost function TotalLength(lists: seq<seq<nat>>): nat {
    if lists == [] then 0 else TotalLength(lists[..|lists| - 1]) + |lists[|lists| - 1]|
  }

  ghost function Elements(list: seq<nat>): set<nat> {
    set n | n in list
  }

  lemma {:induction false} ElementsCount(list: seq<nat>)
    requires forall i, j :: 0 <= i < j < |list| ==> list[i] != list[j]
    ensures |Elements(list)| == |list|
  {
    if list != [] {
      var n := |list| - 1;
      ElementsCount(list[..n]);
      assert Elements(list) == Elements(list[..n]) + {list[n]};
      assert list[n] !in Elements(list[..n]);
    } else {
      assert Elements(list) == {};
    }
  }

  lemma FreeBlocksNext(s: Stack.State, k: nat)
    requires Stack.Inv(s) && k < |s.lists|
    ensures FreeBlocks(s, k + 1) == FreeBlocks(s, k) + Elements(s.lists[k])
    ensures FreeBlocks(s, k) !! Elements(s.lists[k])
  {
    hide Stack.ListOk, Stack.NodeOk, Stack.ThreadOk;
    assert |s.place| == |s.next|;
    forall n | n in s.lists[k] ensures n < |s.place| { }
    forall n | 0 <= n < |s.place| ensures n in Elements(s.lists[k]) <==> s.place[n] == Stack.InStack(k) {
      Stack.OnePlacePerNode(s, n);
    }
  }

  lemma {:induction false} FreeBlocksCount(s: Stack.State, stacks: nat)
    requires Stack.Inv(s) && stacks <= |s.lists|
    ensures |FreeBlocks(s, stacks)| == TotalLength(s.lists[..stacks])
  {
    if stacks > 0 {
      var k := stacks - 1;
      FreeBlocksCount(s, k);
      assert s.lists[..stacks][..k] == s.lists[..k];
      var top := Elements(s.lists[k]);
      assert Stack.ListOk(s, k);
      ElementsCount(s.lists[k]);
      FreeBlocksNext(s, k);
    } else {
      assert FreeBlocks(s, 0) == {};
    }
  }

  /**
    In every state of every run, the lengths of the eight free lists count exactly the blocks that
    are neither with a client, nor in the hands of a thread, nor still to be constructed.
   */
  lemma BlocksAreConserved(run: seq<Pool>, steps: seq<Step>, k: nat)
    requires IsRun(run, steps) && k < |run|
    ensures var s := run[k].stacks;
            && |s.place| == |run[0].stacks.place|
            && (set n | 0 <= n < |s.place| && s.place[n].InStack?) == FreeBlocks(s, |s.lists|)
            && TotalLength(s.lists) == |set n | 0 <= n < |s.place| && s.place[n].InStack?|
  {
    RunKeepsInv(run, steps, k);
    var s := run[k].stacks;
    FreeBlocksCount(s, |s.lists|);
    assert s.lists[..|s.lists|] == s.lists;
    forall n | 0 <= n < |s.place| && s.place[n].InStack? ensures s.place[n].stack < |s.lists| {
      assert Stack.NodeOk(s, n);
    }
  }

  // ---------------------------------------------------------------------------------------
  // Calls: the stacks are visited in turn, and allocation fails only on an empty stack

  /** What a step is to the stacks. */
  ghost function OnStacks(p: Pool, step: Step): Stack.Step {
    match step
    case Construct(t) => Stack.BeginPush(t, p.built % QCOUNT, p.built)
    case Allocate(t) => Stack.BeginPop(t, p.popIndex % QCOUNT)
    case Free(t, block) => Stack.BeginPush(t, p.pushIndex % QCOUNT, block)
    case Inner(step) => step
  }

  ghost function StackRun(run: seq<Pool>): seq<Stack.State> {
    seq(|run|, i requires 0 <= i < |run| => run[i].stacks)
  }

  ghost function StackSteps(run: seq<Pool>, steps: seq<Step>): seq<Stack.Step>
    requires |steps| <= |run|
  {
    seq(|steps|, i requires 0 <= i < |steps| => OnStacks(run[i], steps[i]))
  }

  /** A run of the pool is a run of its stacks. */
  lemma PoolRunIsStackRun(run: seq<Pool>, steps: seq<Step>)
    requires IsRun(run, steps)
    ensures Stack.IsRun(StackRun(run), StackSteps(run, steps))
  {
    hide Stack.Next, Stack.Init;
    forall i | 0 <= i < |steps|
      ensures Stack.Next(StackRun(run)[i], StackSteps(run, steps)[i], StackRun(run)[i + 1])
    {
      assert Next(run[i], steps[i], run[i + 1]);
    }
  }

  function AllocateCount(steps: seq<Step>, k: nat): nat
    requires k <= |steps|
  {
    if k == 0 then 0 else AllocateCount(steps, k - 1) + if steps[k - 1].Allocate? then 1 else 0
  }

  function FreeCount(steps: seq<Step>, k: nat): nat
    requires k <= |steps|
  {
    if k == 0 then 0 else FreeCount(steps, k - 1) + if steps[k - 1].Free? then 1 else 0
  }

  /** The wrapping counters visit the stacks in turn for ever, since 2^32 is a multiple of eight. */
  lemma {:induction false} CountersGoRound(run: seq<Pool>, steps: seq<Step>, k: nat)
    requires IsRun(run, steps) && k < |run|
    ensures run[k].popIndex == AllocateCount(steps, k) % WRAP && run[k].pushIndex == FreeCount(steps, k) % WRAP
    ensures run[k].popIndex % QCOUNT == AllocateCount(steps, k) % QCOUNT
    ensures run[k].pushIndex % QCOUNT == FreeCount(steps, k) % QCOUNT
  {
    hide Stack.Next, Stack.Init;
    if k > 0 {
      CountersGoRound(run, steps, k - 1);
      assert Next(run[k - 1], steps[k - 1], run[k]);
      WrapNext(AllocateCount(steps, k - 1));
      WrapNext(FreeCount(steps, k - 1));
    }
    WrapKeepsTurn(AllocateCount(steps, k));
    WrapKeepsTurn(FreeCount(steps, k));
  }

  lemma WrapNext(n: nat)
    ensures (n % WRAP + 1) % WRAP == (n + 1) % WRAP
  {
    var x := n % WRAP + 1;
    DivModUnique(n + 1, WRAP, n / WRAP + x / WRAP, x % WRAP);
  }

  lemma WrapKeepsTurn(n: nat)
    ensures n % WRAP % QCOUNT == n % QCOUNT
  {
    var x := n % WRAP;
    assert n == (n / WRAP * (WRAP / QCOUNT) + x / QCOUNT) * QCOUNT + x % QCOUNT;
    DivModUnique(n, QCOUNT, n / WRAP * (WRAP / QCOUNT) + x / QCOUNT, x % QCOUNT);
  }

  /** What a call that began in step b did to the stacks, by its effect in step m and its last step k. */
  ghost predicate Answered(run: seq<Pool>, steps: seq<Step>, b: nat, m: nat, k: nat, op: Stack.Operation)
    requires b < |steps| && m < |run| && k < |steps| <= |run|
  {
    match steps[b]
    case Allocate(t) =>
      var turn := AllocateCount(steps, b) % QCOUNT;
      || (exists block :: HandsOut(run[k], steps[k], block) && op == Stack.Popped(turn, block))
      || (op == Stack.FoundEmpty(turn) && turn < |run[m].stacks.lists| && run[m].stacks.lists[turn] == [])
    case Free(t, block) => op == Stack.Pushed(FreeCount(steps, b) % QCOUNT, block)
    case Construct(t) => op == Stack.Pushed(run[b].built % QCOUNT, run[b].built)
    case Inner(_) => false
  }

  /**
    Every call that returns, in every run, took effect exactly once: the n-th allocation took the block it
    hands out off stack n mod 8, or that stack was empty and it hands out nothing; the n-th free put its
    block on stack n mod 8; construction put each block on its stack.
   */
  lemma CallsVisitStacksInTurn(run: seq<Pool>, steps: seq<Step>, k: nat, t: nat)
    returns (b: nat, m: nat, op: Stack.Operation)
    requires IsRun(run, steps) && k < |steps| && Stack.Returns(StackRun(run), k, t)
    ensures Stack.IsRun(StackRun(run), StackSteps(run, steps))
    ensures Stack.InCall(StackRun(run), StackSteps(run, steps), t, b, k)
    ensures Stack.OnlyEffect(StackRun(run), StackSteps(run, steps), t, b, m, k + 1, op)
    ensures Answered(run, steps, b, m, k, op)
  {
    hide Stack.Next, Stack.Init, Stack.Effect, Stack.Inv;
    PoolRunIsStackRun(run, steps);
    b, m, op := Stack.CallsTakeEffectOnce(StackRun(run), StackSteps(run, steps), k, t);
    CountersGoRound(run, steps, b);
    OnlyCallsBegin(run, steps, b);
    if op.FoundEmpty? {
      Stack.RunKeepsInv(StackRun(run), StackSteps(run, steps), m);
      assert Stack.Next(StackRun(run)[m], StackSteps(run, steps)[m], StackRun(run)[m + 1]);
      Stack.EmptyWhenFound(run[m].stacks, StackSteps(run, steps)[m], run[m + 1].stacks, op);
    } else if op.Popped? {
      LastStepHandsOut(run, steps, k, t);
    }
  }

  lemma OnlyCallsBegin(run: seq<Pool>, steps: seq<Step>, b: nat)
    requires IsRun(run, steps) && b < |steps|
    requires StackSteps(run, steps)[b].BeginPush? || StackSteps(run, steps)[b].BeginPop?
    ensures !steps[b].Inner?
  {
    assert Next(run[b], steps[b], run[b + 1]);
  }

  lemma LastStepHandsOut(run: seq<Pool>, steps: seq<Step>, k: nat, t: nat)
    requires IsRun(run, steps) && k < |steps| && Stack.Returns(StackRun(run), k, t)
    requires run[k].stacks.threads[t].PopClear?
    ensures HandsOut(run[k], steps[k], run[k].stacks.threads[t].item)
  {
    assert Next(run[k], steps[k], run[k + 1]);
    PoolRunIsStackRun(run, steps);
    assert Stack.Next(StackRun(run)[k], StackSteps(run, steps)[k], StackRun(run)[k + 1]);
    Stack.OthersStay(run[k].stacks, StackSteps(run, steps)[k], run[k + 1].stacks, t);
    Stack.CallEnds(run[k].stacks, StackSteps(run, steps)[k], run[k + 1].stacks);
  }
}
