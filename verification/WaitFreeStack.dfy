/**
  The lock-free stack under the pool allocator: a linked list whose pointers carry a version that
  counts how often the node they point to was pushed.

  Several stacks share one set of nodes, as the free lists of a pool do. One step of the machine is
  one access to shared memory; atomics are sequentially consistent and push versions do not wrap.
 */
module WaitFreeStack {
  import opened Wrappers

  /** A node number with the version it was pushed under; `None` is the null pointer. */
  datatype VersionedPtr = VersionedPtr(item: Option<nat>, version: nat)

  const NULL_PTR := VersionedPtr(None, 0)

  /** Where a node is: not yet in use, in a stack, with its client, or with a thread inside push or pop. */
  datatype Place = Fresh | InStack(stack: nat) | Out | Pushing(tid: nat) | Popping(tid: nat)

  datatype Local =
    | Idle
    | PushLoadNext(stack: nat, item: nat)
    | PushLoadHead(stack: nat, item: nat, node: VersionedPtr)
    | PushStoreNext(stack: nat, item: nat, node: VersionedPtr, head: VersionedPtr)
    | PushCas(stack: nat, item: nat, node: VersionedPtr, head: VersionedPtr)
    | PopLoadHead(stack: nat)
    | PopLoadNext(stack: nat, item: nat, version: nat)
    | PopCas(stack: nat, item: nat, version: nat, next: VersionedPtr)
    | PopClear(stack: nat, item: nat, version: nat)

  /**
    Head pointers, the next pointer inside each node, and the threads. The last three fields are
    history variables: the nodes of each stack from the top, where each node is, and how often it
    was pushed.
   */
  datatype State = State(
    heads: seq<VersionedPtr>,
    next: seq<VersionedPtr>,
    threads: seq<Local>,
    lists: seq<seq<nat>>,
    place: seq<Place>,
    pushes: seq<nat>)

  datatype Step =
    | BeginPush(tid: nat, stack: nat, item: nat)
    | LoadOwnNext(tid: nat)
    | LoadHeadForPush(tid: nat)
    | StoreNext(tid: nat)
    | CasPush(tid: nat)
    | CasPushFails(tid: nat)
    | BeginPop(tid: nat, stack: nat)
    | LoadHeadForPop(tid: nat)
    | LoadNext(tid: nat)
    | CasPop(tid: nat)
    | CasPopFails(tid: nat)
    | ClearNext(tid: nat)

  ghost predicate Init(s: State) {
    && |s.lists| == |s.heads|
    && |s.place| == |s.next| && |s.pushes| == |s.next|
    && (forall k :: 0 <= k < |s.heads| ==> s.heads[k] == NULL_PTR && s.lists[k] == [])
    && (forall n :: 0 <= n < |s.next| ==> s.next[n] == NULL_PTR && s.place[n] == Fresh && s.pushes[n] == 0)
    && (forall t :: 0 <= t < |s.threads| ==> s.threads[t] == Idle)
  }

  ghost predicate PtrOk(s: State, p: VersionedPtr) {
    p.item.Some? ==> p.item.value < |s.next|
  }

  ghost predicate LocalShape(s: State, me: Local) {
    match me
    case Idle => true
    case PushLoadNext(k, item) => k < |s.heads| && item < |s.next|
    case PushLoadHead(k, item, _) => k < |s.heads| && item < |s.next|
    case PushStoreNext(k, item, _, head) => k < |s.heads| && item < |s.next| && PtrOk(s, head)
    case PushCas(k, item, _, head) => k < |s.heads| && item < |s.next| && PtrOk(s, head)
    case PopLoadHead(k) => k < |s.heads|
    case PopLoadNext(k, item, _) => k < |s.heads| && item < |s.next|
    case PopCas(k, item, _, next) => k < |s.heads| && item < |s.next| && PtrOk(s, next)
    case PopClear(k, item, _) => k < |s.heads| && item < |s.next|
  }

  ghost predicate WellFormed(s: State) {
    && |s.lists| == |s.heads|
    && |s.place| == |s.next| && |s.pushes| == |s.next|
    && (forall k :: 0 <= k < |s.heads| ==> PtrOk(s, s.heads[k]))
    && (forall n :: 0 <= n < |s.next| ==> PtrOk(s, s.next[n]))
    && (forall k, j :: 0 <= k < |s.lists| && 0 <= j < |s.lists[k]| ==> s.lists[k][j] < |s.next|)
    && (forall t :: 0 <= t < |s.threads| ==> LocalShape(s, s.threads[t]))
  }

  ghost function Goto(s: State, t: nat, local: Local): State
    requires t < |s.threads|
  {
    s.(threads := s.threads[t := local])
  }

  // The steps that change shared memory.

  ghost function DoStoreNext(s: State, t: nat): State
    requires WellFormed(s) && t < |s.threads| && s.threads[t].PushStoreNext?
  {
    var me := s.threads[t];
    Goto(s, t, PushCas(me.stack, me.item, me.node, me.head)).(next := s.next[me.item := me.head])
  }

  ghost function DoCasPush(s: State, t: nat): State
    requires WellFormed(s) && t < |s.threads| && s.threads[t].PushCas?
  {
    var me := s.threads[t];
    Goto(s, t, Idle).(
    heads := s.heads[me.stack := me.node],
    lists := s.lists[me.stack := [me.item] + s.lists[me.stack]],
    place := s.place[me.item := InStack(me.stack)],
    pushes := s.pushes[me.item := s.pushes[me.item] + 1])
  }

  ghost function DoCasPop(s: State, t: nat): State
    requires WellFormed(s) && t < |s.threads| && s.threads[t].PopCas?
  {
    var me := s.threads[t];
    Goto(s, t, PopClear(me.stack, me.item, me.version)).(
    heads := s.heads[me.stack := me.next],
    lists := s.lists[me.stack := if s.lists[me.stack] == [] then [] else s.lists[me.stack][1..]],
    place := s.place[me.item := Popping(t)])
  }

  ghost function DoClearNext(s: State, t: nat): State
    requires WellFormed(s) && t < |s.threads| && s.threads[t].PopClear?
  {
    var me := s.threads[t];
    Goto(s, t, Idle).(
    next := s.next[me.item := VersionedPtr(None, me.version)],
    place := s.place[me.item := Out])
  }

  ghost function DoBeginPush(s: State, t: nat, k: nat, item: nat): State
    requires WellFormed(s) && t < |s.threads| && item < |s.next|
  {
    Goto(s, t, PushLoadNext(k, item)).(place := s.place[item := Pushing(t)])
  }

  ghost predicate Next(s: State, step: Step, s': State) {
    && WellFormed(s)
    && step.tid < |s.threads|
    && var t, me := step.tid, s.threads[step.tid];
    match step {
      case BeginPush(_, k, item) =>
        // a client pushes only a node it holds
        me.Idle? && k < |s.heads| && item < |s.next| && s.place[item] in {Fresh, Out} &&
        s' == DoBeginPush(s, t, k, item)
      case LoadOwnNext(_) =>
        me.PushLoadNext? &&
        s' == Goto(s, t, PushLoadHead(me.stack, me.item, VersionedPtr(Some(me.item), s.next[me.item].version + 1)))
      case LoadHeadForPush(_) =>
        me.PushLoadHead? && s' == Goto(s, t, PushStoreNext(me.stack, me.item, me.node, s.heads[me.stack]))
      case StoreNext(_) =>
        me.PushStoreNext? && s' == DoStoreNext(s, t)
      case CasPush(_) =>
        me.PushCas? && s.heads[me.stack] == me.head && s' == DoCasPush(s, t)
      case CasPushFails(_) =>
        me.PushCas? && s' == Goto(s, t, PushStoreNext(me.stack, me.item, me.node, s.heads[me.stack]))
      case BeginPop(_, k) =>
        me.Idle? && k < |s.heads| && s' == Goto(s, t, PopLoadHead(k))
      case LoadHeadForPop(_) =>
        me.PopLoadHead? && s' == Goto(s, t, SawHead(me.stack, s.heads[me.stack]))
      case LoadNext(_) =>
        me.PopLoadNext? && s' == Goto(s, t, PopCas(me.stack, me.item, me.version, s.next[me.item]))
      case CasPop(_) =>
        me.PopCas? && s.heads[me.stack] == VersionedPtr(Some(me.item), me.version) && s' == DoCasPop(s, t)
      case CasPopFails(_) =>
        me.PopCas? && s' == Goto(s, t, SawHead(me.stack, s.heads[me.stack]))
      case ClearNext(_) =>
        me.PopClear? && s' == DoClearNext(s, t)
    }
  }

  /** A pop that sees a null head returns false. */
  function SawHead(k: nat, head: VersionedPtr): Local {
    match head.item
    case None => Idle
    case Some(n) => PopLoadNext(k, n, head.version)
  }

  // ---------------------------------------------------------------------------------------
  // The invariant

  /** The pointer that leads to element j of a list, or null past its end. */
  ghost function PtrTo(pushes: seq<nat>, list: seq<nat>, j: nat): VersionedPtr
    requires j < |list| ==> list[j] < |pushes|
  {
    if j < |list| then VersionedPtr(Some(list[j]), pushes[list[j]]) else NULL_PTR
  }

  ghost predicate ListOk(s: State, k: nat)
    requires WellFormed(s) && k < |s.lists|
  {
    var list := s.lists[k];
    && s.heads[k] == PtrTo(s.pushes, list, 0)
    && (forall j :: 0 <= j < |list| ==> s.place[list[j]] == InStack(k))
    && (forall j {:trigger s.next[list[j]]} :: 0 <= j < |list| ==> s.next[list[j]] == PtrTo(s.pushes, list, j + 1))
    && (forall i, j :: 0 <= i < j < |list| ==> list[i] != list[j])
  }

  ghost predicate HoldsNode(me: Local, item: nat) {
    || (me.PushLoadNext? && me.item == item)
    || (me.PushLoadHead? && me.item == item)
    || (me.PushStoreNext? && me.item == item)
    || (me.PushCas? && me.item == item)
  }

  ghost predicate NodeOk(s: State, n: nat)
    requires WellFormed(s) && n < |s.next|
  {
    match s.place[n]
    case Fresh => s.next[n] == VersionedPtr(None, s.pushes[n])
    case Out => s.next[n] == VersionedPtr(None, s.pushes[n])
    case InStack(k) => k < |s.lists| && n in s.lists[k]
    case Pushing(t) => t < |s.threads| && HoldsNode(s.threads[t], n)
    case Popping(t) => t < |s.threads| && s.threads[t].PopClear? && s.threads[t].item == n
  }

  /** The pointer (item, version) leads to a node that has not been popped since it was read. */
  ghost predicate Live(s: State, item: nat, version: nat)
    requires WellFormed(s) && item < |s.next|
  {
    s.place[item].InStack? && s.pushes[item] == version
  }

  ghost predicate ThreadOk(s: State, t: nat)
    requires WellFormed(s) && t < |s.threads|
  {
    match s.threads[t]
    case Idle => true
    case PushLoadNext(_, item) =>
      s.place[item] == Pushing(t) && s.next[item] == VersionedPtr(None, s.pushes[item])
    case PushLoadHead(_, item, node) =>
      s.place[item] == Pushing(t) && node == VersionedPtr(Some(item), s.pushes[item] + 1)
    case PushStoreNext(_, item, node, _) =>
      s.place[item] == Pushing(t) && node == VersionedPtr(Some(item), s.pushes[item] + 1)
    case PushCas(_, item, node, head) =>
      s.place[item] == Pushing(t) && node == VersionedPtr(Some(item), s.pushes[item] + 1) && s.next[item] == head
    case PopLoadHead(_) => true
    case PopLoadNext(_, item, version) => version <= s.pushes[item]
    case PopCas(_, item, version, next) =>
      version <= s.pushes[item] && (Live(s, item, version) ==> next == s.next[item])
    case PopClear(_, item, version) => s.place[item] == Popping(t) && version == s.pushes[item]
  }

  ghost predicate Inv(s: State) {
    && WellFormed(s)
    && (forall k :: 0 <= k < |s.lists| ==> ListOk(s, k))
    && (forall n :: 0 <= n < |s.next| ==> NodeOk(s, n))
    && (forall t :: 0 <= t < |s.threads| ==> ThreadOk(s, t))
  }

  lemma InitEstablishesInv(s: State)
    requires Init(s)
    ensures Inv(s)
  {
  }

  // ---------------------------------------------------------------------------------------
  // Every step keeps the invariant

  lemma StoreNextKeepsList(s: State, t: nat, k: nat)
    requires WellFormed(s) && t < |s.threads| && s.threads[t].PushStoreNext? && k < |s.lists|
    requires ThreadOk(s, t) && ListOk(s, k)
    ensures WellFormed(DoStoreNext(s, t)) && ListOk(DoStoreNext(s, t), k)
  {
  }

  lemma StoreNextKeepsNode(s: State, t: nat, n: nat)
    requires WellFormed(s) && t < |s.threads| && s.threads[t].PushStoreNext? && n < |s.next|
    requires ThreadOk(s, t) && NodeOk(s, n)
    ensures WellFormed(DoStoreNext(s, t)) && NodeOk(DoStoreNext(s, t), n)
  {
  }

  lemma StoreNextKeepsThread(s: State, t: nat, u: nat)
    requires WellFormed(s) && t < |s.threads| && s.threads[t].PushStoreNext? && u < |s.threads|
    requires ThreadOk(s, t) && ThreadOk(s, u)
    ensures WellFormed(DoStoreNext(s, t)) && ThreadOk(DoStoreNext(s, t), u)
  {
  }

  lemma StoreNextKeepsInv(s: State, t: nat)
    requires Inv(s) && t < |s.threads| && s.threads[t].PushStoreNext?
    ensures Inv(DoStoreNext(s, t))
  {
    var s' := DoStoreNext(s, t);
    assert ThreadOk(s, t);
    forall k | 0 <= k < |s.lists| ensures WellFormed(s') && ListOk(s', k) { StoreNextKeepsList(s, t, k); }
    forall n | 0 <= n < |s.next| ensures WellFormed(s') && NodeOk(s', n) { StoreNextKeepsNode(s, t, n); }
    forall u | 0 <= u < |s.threads| ensures WellFormed(s') && ThreadOk(s', u) { StoreNextKeepsThread(s, t, u); }
  }

  lemma CasPushShape(s: State, t: nat)
    requires WellFormed(s) && t < |s.threads| && s.threads[t].PushCas? && ThreadOk(s, t)
    ensures WellFormed(DoCasPush(s, t))
  {
  }

  lemma CasPushKeepsList(s: State, t: nat, k: nat)
    requires WellFormed(s) && t < |s.threads| && s.threads[t].PushCas? && k < |s.lists|
    requires s.heads[s.threads[t].stack] == s.threads[t].head
    requires ThreadOk(s, t) && ListOk(s, k)
    ensures WellFormed(DoCasPush(s, t)) && ListOk(DoCasPush(s, t), k)
  {
    CasPushShape(s, t);
    var s', me := DoCasPush(s, t), s.threads[t];
    var list, list' := s.lists[k], s'.lists[k];
    forall j | 0 <= j < |list| ensures list[j] != me.item {
      assert s.place[list[j]] == InStack(k);
    }
    if k == me.stack {
      forall j | 0 <= j < |list'|
        ensures s'.place[list'[j]] == InStack(k)
        ensures s'.next[list'[j]] == PtrTo(s'.pushes, list', j + 1)
      {
        if j > 0 {
          assert list'[j] == list[j - 1];
          assert s.next[list[j - 1]] == PtrTo(s.pushes, list, j);
        }
      }
    }
  }

  lemma CasPushKeepsNode(s: State, t: nat, n: nat)
    requires WellFormed(s) && t < |s.threads| && s.threads[t].PushCas? && n < |s.next|
    requires s.heads[s.threads[t].stack] == s.threads[t].head
    requires ThreadOk(s, t) && NodeOk(s, n)
    ensures WellFormed(DoCasPush(s, t)) && NodeOk(DoCasPush(s, t), n)
  {
  }

  lemma CasPushKeepsThread(s: State, t: nat, u: nat)
    requires WellFormed(s) && t < |s.threads| && s.threads[t].PushCas? && u < |s.threads|
    requires s.heads[s.threads[t].stack] == s.threads[t].head
    requires ThreadOk(s, t) && ThreadOk(s, u)
    ensures WellFormed(DoCasPush(s, t)) && ThreadOk(DoCasPush(s, t), u)
  {
  }

  lemma CasPushKeepsInv(s: State, t: nat)
    requires Inv(s) && t < |s.threads| && s.threads[t].PushCas?
    requires s.heads[s.threads[t].stack] == s.threads[t].head
    ensures Inv(DoCasPush(s, t))
  {
    var s' := DoCasPush(s, t);
    assert ThreadOk(s, t);
    forall k | 0 <= k < |s.lists| ensures WellFormed(s') && ListOk(s', k) { CasPushKeepsList(s, t, k); }
    forall n | 0 <= n < |s.next| ensures WellFormed(s') && NodeOk(s', n) { CasPushKeepsNode(s, t, n); }
    forall u | 0 <= u < |s.threads| ensures WellFormed(s') && ThreadOk(s', u) { CasPushKeepsThread(s, t, u); }
  }

  lemma CasPopShape(s: State, t: nat)
    requires WellFormed(s) && t < |s.threads| && s.threads[t].PopCas?
    ensures WellFormed(DoCasPop(s, t))
  {
  }

  lemma CasPopKeepsOtherList(s: State, t: nat, k: nat)
    requires WellFormed(s) && t < |s.threads| && s.threads[t].PopCas? && k < |s.lists| && k != s.threads[t].stack
    requires s.place[s.threads[t].item] == InStack(s.threads[t].stack) && ListOk(s, k)
    ensures WellFormed(DoCasPop(s, t)) && ListOk(DoCasPop(s, t), k)
  {
    hide PtrTo;
    CasPopShape(s, t);
  }

  lemma PtrToRest(pushes: seq<nat>, list: seq<nat>, j: nat)
    requires list != [] && (j + 1 < |list| ==> list[j + 1] < |pushes|)
    ensures PtrTo(pushes, list[1..], j) == PtrTo(pushes, list, j + 1)
  {
  }

  lemma RestIsChained(next: seq<VersionedPtr>, pushes: seq<nat>, list: seq<nat>)
    requires list != [] && |pushes| == |next| && forall j :: 0 <= j < |list| ==> list[j] < |next|
    requires forall j {:trigger next[list[j]]} :: 0 <= j < |list| ==> next[list[j]] == PtrTo(pushes, list, j + 1)
    ensures forall j {:trigger next[list[1..][j]]} :: 0 <= j < |list| - 1 ==>
      next[list[1..][j]] == PtrTo(pushes, list[1..], j + 1)
  {
    hide PtrTo;
    forall j {:trigger next[list[1..][j]]} | 0 <= j < |list| - 1
      ensures next[list[1..][j]] == PtrTo(pushes, list[1..], j + 1)
    {
      assert list[1..][j] == list[j + 1];
      PtrToRest(pushes, list, j + 1);
    }
  }

  lemma PoppedIsHead(s: State, t: nat)
    requires WellFormed(s) && t < |s.threads| && s.threads[t].PopCas? && ThreadOk(s, t)
    requires s.heads[s.threads[t].stack] == VersionedPtr(Some(s.threads[t].item), s.threads[t].version)
    requires ListOk(s, s.threads[t].stack)
    ensures var list := s.lists[s.threads[t].stack];
      list != [] && list[0] == s.threads[t].item && s.threads[t].next == PtrTo(s.pushes, list, 1)
  {
    var list := s.lists[s.threads[t].stack];
    assert list != [] && list[0] == s.threads[t].item && s.place[list[0]] == InStack(s.threads[t].stack);
    assert s.next[list[0]] == PtrTo(s.pushes, list, 1);
  }

  lemma CasPopKeepsOwnList(s: State, t: nat)
    requires WellFormed(s) && t < |s.threads| && s.threads[t].PopCas? && ThreadOk(s, t)
    requires s.heads[s.threads[t].stack] == VersionedPtr(Some(s.threads[t].item), s.threads[t].version)
    requires ListOk(s, s.threads[t].stack)
    ensures s.lists[s.threads[t].stack] != [] && s.lists[s.threads[t].stack][0] == s.threads[t].item
    ensures WellFormed(DoCasPop(s, t)) && ListOk(DoCasPop(s, t), s.threads[t].stack)
  {
    hide ThreadOk, PtrTo, PtrOk;
    CasPopShape(s, t);
    PoppedIsHead(s, t);
    var list := s.lists[s.threads[t].stack];
    PtrToRest(s.pushes, list, 0);
    RestIsChained(s.next, s.pushes, list);
  }

  lemma CasPopKeepsList(s: State, t: nat, k: nat)
    requires WellFormed(s) && t < |s.threads| && s.threads[t].PopCas? && k < |s.lists|
    requires s.heads[s.threads[t].stack] == VersionedPtr(Some(s.threads[t].item), s.threads[t].version)
    requires ThreadOk(s, t) && ListOk(s, s.threads[t].stack) && ListOk(s, k)
    ensures WellFormed(DoCasPop(s, t)) && ListOk(DoCasPop(s, t), k)
  {
    CasPopKeepsOwnList(s, t);
    if k != s.threads[t].stack { CasPopKeepsOtherList(s, t, k); }
  }

  lemma CasPopKeepsNode(s: State, t: nat, n: nat)
    requires WellFormed(s) && t < |s.threads| && s.threads[t].PopCas? && n < |s.next|
    requires s.heads[s.threads[t].stack] == VersionedPtr(Some(s.threads[t].item), s.threads[t].version)
    requires ThreadOk(s, t) && ListOk(s, s.threads[t].stack) && NodeOk(s, n)
    ensures WellFormed(DoCasPop(s, t)) && NodeOk(DoCasPop(s, t), n)
  {
  }

  lemma CasPopKeepsThread(s: State, t: nat, u: nat)
    requires WellFormed(s) && t < |s.threads| && s.threads[t].PopCas? && u < |s.threads|
    requires s.heads[s.threads[t].stack] == VersionedPtr(Some(s.threads[t].item), s.threads[t].version)
    requires ThreadOk(s, t) && ListOk(s, s.threads[t].stack) && ThreadOk(s, u)
    ensures WellFormed(DoCasPop(s, t)) && ThreadOk(DoCasPop(s, t), u)
  {
  }

  lemma CasPopKeepsInv(s: State, t: nat)
    requires Inv(s) && t < |s.threads| && s.threads[t].PopCas?
    requires s.heads[s.threads[t].stack] == VersionedPtr(Some(s.threads[t].item), s.threads[t].version)
    ensures Inv(DoCasPop(s, t))
  {
    var s' := DoCasPop(s, t);
    assert ThreadOk(s, t);
    assert ListOk(s, s.threads[t].stack);
    forall k | 0 <= k < |s.lists| ensures WellFormed(s') && ListOk(s', k) { CasPopKeepsList(s, t, k); }
    forall n | 0 <= n < |s.next| ensures WellFormed(s') && NodeOk(s', n) { CasPopKeepsNode(s, t, n); }
    forall u | 0 <= u < |s.threads| ensures WellFormed(s') && ThreadOk(s', u) { CasPopKeepsThread(s, t, u); }
  }

  lemma ClearNextKeepsList(s: State, t: nat, k: nat)
    requires WellFormed(s) && t < |s.threads| && s.threads[t].PopClear? && k < |s.lists|
    requires ThreadOk(s, t) && ListOk(s, k)
    ensures WellFormed(DoClearNext(s, t)) && ListOk(DoClearNext(s, t), k)
  {
  }

  lemma ClearNextKeepsNode(s: State, t: nat, n: nat)
    requires WellFormed(s) && t < |s.threads| && s.threads[t].PopClear? && n < |s.next|
    requires ThreadOk(s, t) && NodeOk(s, n)
    ensures WellFormed(DoClearNext(s, t)) && NodeOk(DoClearNext(s, t), n)
  {
  }

  lemma ClearNextKeepsThread(s: State, t: nat, u: nat)
    requires WellFormed(s) && t < |s.threads| && s.threads[t].PopClear? && u < |s.threads|
    requires ThreadOk(s, t) && ThreadOk(s, u)
    ensures WellFormed(DoClearNext(s, t)) && ThreadOk(DoClearNext(s, t), u)
  {
  }

  lemma ClearNextKeepsInv(s: State, t: nat)
    requires Inv(s) && t < |s.threads| && s.threads[t].PopClear?
    ensures Inv(DoClearNext(s, t))
  {
    var s' := DoClearNext(s, t);
    assert ThreadOk(s, t);
    forall k | 0 <= k < |s.lists| ensures WellFormed(s') && ListOk(s', k) { ClearNextKeepsList(s, t, k); }
    forall n | 0 <= n < |s.next| ensures WellFormed(s') && NodeOk(s', n) { ClearNextKeepsNode(s, t, n); }
    forall u | 0 <= u < |s.threads| ensures WellFormed(s') && ThreadOk(s', u) { ClearNextKeepsThread(s, t, u); }
  }

  lemma BeginPushKeepsList(s: State, t: nat, stack: nat, item: nat, k: nat)
    requires WellFormed(s) && t < |s.threads| && s.threads[t].Idle? && k < |s.lists|
    requires stack < |s.heads| && item < |s.next| && s.place[item] in {Fresh, Out}
    requires ThreadOk(s, t) && ListOk(s, k)
    ensures WellFormed(DoBeginPush(s, t, stack, item)) && ListOk(DoBeginPush(s, t, stack, item), k)
  {
  }

  lemma BeginPushKeepsNode(s: State, t: nat, stack: nat, item: nat, n: nat)
    requires WellFormed(s) && t < |s.threads| && s.threads[t].Idle? && n < |s.next|
    requires stack < |s.heads| && item < |s.next| && s.place[item] in {Fresh, Out}
    requires ThreadOk(s, t) && NodeOk(s, n)
    ensures WellFormed(DoBeginPush(s, t, stack, item)) && NodeOk(DoBeginPush(s, t, stack, item), n)
  {
  }

  lemma BeginPushKeepsThread(s: State, t: nat, stack: nat, item: nat, u: nat)
    requires WellFormed(s) && t < |s.threads| && s.threads[t].Idle? && u < |s.threads|
    requires stack < |s.heads| && item < |s.next| && s.place[item] in {Fresh, Out}
    requires ThreadOk(s, t) && NodeOk(s, item) && ThreadOk(s, u)
    ensures WellFormed(DoBeginPush(s, t, stack, item)) && ThreadOk(DoBeginPush(s, t, stack, item), u)
  {
  }

  lemma BeginPushKeepsInv(s: State, t: nat, stack: nat, item: nat)
    requires Inv(s) && t < |s.threads| && s.threads[t].Idle?
    requires stack < |s.heads| && item < |s.next| && s.place[item] in {Fresh, Out}
    ensures Inv(DoBeginPush(s, t, stack, item))
  {
    var s' := DoBeginPush(s, t, stack, item);
    assert ThreadOk(s, t);
    assert NodeOk(s, item);
    forall k | 0 <= k < |s.lists| ensures WellFormed(s') && ListOk(s', k) { BeginPushKeepsList(s, t, stack, item, k); }
    forall n | 0 <= n < |s.next| ensures WellFormed(s') && NodeOk(s', n) { BeginPushKeepsNode(s, t, stack, item, n); }
    forall u | 0 <= u < |s.threads| ensures WellFormed(s') && ThreadOk(s', u) { BeginPushKeepsThread(s, t, stack, item, u); }
  }

  /** A step that only changes the thread's own variables, and not the node it holds. */
  ghost predicate GoesTo(s: State, t: nat, s': State) {
    && t < |s.threads|
    && |s'.threads| == |s.threads|
    && s' == Goto(s, t, s'.threads[t])
    && !s.threads[t].PopClear?
    && (forall n :: HoldsNode(s.threads[t], n) ==> HoldsNode(s'.threads[t], n))
  }

  lemma LocalStepKeepsInv(s: State, t: nat, s': State)
    requires Inv(s) && GoesTo(s, t, s')
    requires WellFormed(s') && ThreadOk(s', t)
    ensures Inv(s')
  {
    forall k | 0 <= k < |s.lists| ensures ListOk(s', k) { assert ListOk(s, k); }
    forall n | 0 <= n < |s.next| ensures NodeOk(s', n) { assert NodeOk(s, n); }
    forall u | 0 <= u < |s.threads| ensures ThreadOk(s', u) { assert ThreadOk(s, u); }
  }

  predicate IsLocal(step: Step) {
    || step.LoadOwnNext? || step.LoadHeadForPush? || step.CasPushFails? || step.BeginPop?
    || step.LoadHeadForPop? || step.LoadNext? || step.CasPopFails?
  }

  lemma LocalStepShape(s: State, step: Step, s': State)
    requires WellFormed(s) && Next(s, step, s') && IsLocal(step)
    ensures GoesTo(s, step.tid, s') && WellFormed(s')
  {
    hide Next;
    LocalStepGoes(s, step, s');
  }

  lemma LocalStepGoes(s: State, step: Step, s': State)
    requires WellFormed(s) && Next(s, step, s') && IsLocal(step)
    ensures GoesTo(s, step.tid, s') && LocalShape(s, s'.threads[step.tid])
  {
    assert LocalShape(s, s.threads[step.tid]);
  }

  lemma LocalStepThreadOk(s: State, step: Step, s': State)
    requires WellFormed(s) && Next(s, step, s') && IsLocal(step)
    requires ThreadOk(s, step.tid)
    requires forall k :: 0 <= k < |s.lists| ==> s.heads[k] == PtrTo(s.pushes, s.lists[k], 0)
    ensures GoesTo(s, step.tid, s') && WellFormed(s') && ThreadOk(s', step.tid)
  {
    LocalStepShape(s, step, s');
  }

  lemma StepKeepsInv(s: State, step: Step, s': State)
    requires Inv(s) && Next(s, step, s')
    ensures Inv(s')
  {
    hide ListOk, NodeOk, ThreadOk;
    match step {
      case BeginPush(t, k, item) => BeginPushKeepsInv(s, t, k, item);
      case StoreNext(t) => StoreNextKeepsInv(s, t);
      case CasPush(t) => CasPushKeepsInv(s, t);
      case CasPop(t) => CasPopKeepsInv(s, t);
      case ClearNext(t) => ClearNextKeepsInv(s, t);
      case _ => LocalStepsKeepInv(s, step, s');
    }
  }

  lemma LocalStepsKeepInv(s: State, step: Step, s': State)
    requires Inv(s) && Next(s, step, s') && IsLocal(step)
    ensures Inv(s')
  {
    hide NodeOk, ThreadOk, Next;
    LocalStepTid(s, step, s');
    assert ThreadOk(s, step.tid);
    forall k | 0 <= k < |s.lists| ensures s.heads[k] == PtrTo(s.pushes, s.lists[k], 0) { assert ListOk(s, k); }
    LocalStepThreadOk(s, step, s');
    LocalStepKeepsInv(s, step.tid, s');
  }

  lemma LocalStepTid(s: State, step: Step, s': State)
    requires Next(s, step, s')
    ensures step.tid < |s.threads|
  {
  }

  // ---------------------------------------------------------------------------------------
  // The stacks behave as atomic stacks, free of the ABA problem

  /**
    A successful exchange in push puts the node on top; in pop it removes the top node and installs
    that node's true successor, however long ago the successor was read. A pop that gives up saw an
    empty stack. Nothing else changes any stack.
   */
  lemma StepRefinesStacks(s: State, step: Step, s': State)
    requires Inv(s) && Next(s, step, s')
    ensures match step
            case CasPush(t) =>
              var me := s.threads[t];
              s'.lists == s.lists[me.stack := [me.item] + s.lists[me.stack]]
            case CasPop(t) =>
              var me := s.threads[t];
              && s.lists[me.stack] != []
              && s.lists[me.stack][0] == me.item
              && s'.lists == s.lists[me.stack := s.lists[me.stack][1..]]
              && s'.heads[me.stack] == PtrTo(s.pushes, s.lists[me.stack], 1)
            case LoadHeadForPop(t) =>
              s'.lists == s.lists && (s'.threads[t].Idle? ==> s.lists[s.threads[t].stack] == [])
            case CasPopFails(t) =>
              s'.lists == s.lists && (s'.threads[t].Idle? ==> s.lists[s.threads[t].stack] == [])
            case _ => s'.lists == s.lists
  {
    var t := step.tid;
    assert ThreadOk(s, t);
    if step.CasPop? || step.LoadHeadForPop? || step.CasPopFails? {
      var k := s.threads[t].stack;
      assert ListOk(s, k);
      if s.lists[k] != [] { assert s.place[s.lists[k][0]] == InStack(k); }
    }
  }

  /** Each node is in exactly one place: a node in stack k is nowhere else, and a thread holds only its own. */
  lemma OnePlacePerNode(s: State, n: nat)
    requires Inv(s) && n < |s.next|
    ensures forall k :: 0 <= k < |s.lists| ==> (n in s.lists[k] <==> s.place[n] == InStack(k))
    ensures forall t :: 0 <= t < |s.threads| ==> (HoldsNode(s.threads[t], n) <==> s.place[n] == Pushing(t))
    ensures forall t :: 0 <= t < |s.threads| ==>
              (s.threads[t].PopClear? && s.threads[t].item == n <==> s.place[n] == Popping(t))
  {
    assert NodeOk(s, n);
    forall k | 0 <= k < |s.lists| ensures n in s.lists[k] <==> s.place[n] == InStack(k) {
      assert ListOk(s, k);
    }
    forall t | 0 <= t < |s.threads|
      ensures HoldsNode(s.threads[t], n) <==> s.place[n] == Pushing(t)
      ensures s.threads[t].PopClear? && s.threads[t].item == n <==> s.place[n] == Popping(t)
    {
      assert ThreadOk(s, t);
    }
  }

  // ---------------------------------------------------------------------------------------
  // Whole runs

  ghost predicate IsRun(run: seq<State>, steps: seq<Step>) {
    && |run| == |steps| + 1 && Init(run[0])
    && forall i :: 0 <= i < |steps| ==> Next(run[i], steps[i], run[i + 1])
  }

  lemma {:induction false} RunKeepsInv(run: seq<State>, steps: seq<Step>, n: nat)
    requires IsRun(run, steps) && n < |run|
    ensures Inv(run[n])
  {
    hide Inv, Init, Next;
    if n == 0 {
      InitEstablishesInv(run[0]);
    } else {
      RunKeepsInv(run, steps, n - 1);
      assert Next(run[n - 1], steps[n - 1], run[n - 1 + 1]);
      StepKeepsInv(run[n - 1], steps[n - 1], run[n]);
    }
  }

  /** What a stack is asked, with the answer. */
  datatype Operation = Pushed(stack: nat, item: nat) | Popped(stack: nat, item: nat) | FoundEmpty(stack: nat)

  /** The operation that takes effect in a step, if any. */
  ghost function Effect(s: State, step: Step, s': State): seq<Operation>
    requires step.tid < |s.threads| == |s'.threads|
  {
    var me := s.threads[step.tid];
    match step
    case CasPush(t) => if me.PushCas? then [Pushed(me.stack, me.item)] else []
    case CasPop(t) => if me.PopCas? then [Popped(me.stack, me.item)] else []
    case LoadHeadForPop(t) => if me.PopLoadHead? && s'.threads[t].Idle? then [FoundEmpty(me.stack)] else []
    case CasPopFails(t) => if me.PopCas? && s'.threads[t].Idle? then [FoundEmpty(me.stack)] else []
    case _ => []
  }

  /** An operation on sequential stacks: nothing if its answer would be wrong. */
  function Applied(lists: seq<seq<nat>>, op: Operation): Option<seq<seq<nat>>> {
    if op.stack >= |lists| then None
    else
      var list := lists[op.stack];
      match op
      case Pushed(k, item) => Some(lists[k := [item] + list])
      case Popped(k, item) => if list != [] && list[0] == item then Some(lists[k := list[1..]]) else None
      case FoundEmpty(_) => if list == [] then Some(lists) else None
  }

  function Replayed(lists: seq<seq<nat>>, ops: seq<Operation>): Option<seq<seq<nat>>> {
    if ops == [] then Some(lists)
    else
      var before := Replayed(lists, ops[..|ops| - 1]);
      if before.None? then None else Applied(before.value, ops[|ops| - 1])
  }

  lemma StepIsOperation(s: State, step: Step, s': State)
    requires Inv(s) && Next(s, step, s')
    ensures step.tid < |s.threads| == |s'.threads|
    ensures Replayed(s.lists, Effect(s, step, s')) == Some(s'.lists)
  {
    hide Inv, ThreadOk, ListOk, NodeOk, PtrTo;
    StepRefinesStacks(s, step, s');
    StackInRange(s, step.tid);
    var ops := Effect(s, step, s');
    if ops != [] {
      assert ops[..0] == [];
      assert Replayed(s.lists, ops) == Applied(s.lists, ops[0]);
    }
  }

  lemma StackInRange(s: State, t: nat)
    requires WellFormed(s) && t < |s.threads|
    ensures s.threads[t].PushCas? || s.threads[t].PopCas? || s.threads[t].PopLoadHead? ==>
      s.threads[t].stack < |s.lists|
  {
    assert LocalShape(s, s.threads[t]);
  }

  lemma NothingReplayed(lists: seq<seq<nat>>)
    ensures Replayed(lists, []) == Some(lists)
  {
  }

  lemma {:induction false} ReplayedMore(lists: seq<seq<nat>>, a: seq<Operation>, b: seq<Operation>)
    requires Replayed(lists, a).Some?
    ensures Replayed(lists, a + b) == Replayed(Replayed(lists, a).value, b)
    decreases |b|
  {
    if b == [] {
      assert a + b == a;
    } else {
      ReplayedMore(lists, a, b[..|b| - 1]);
      assert (a + b)[..|a + b| - 1] == a + b[..|b| - 1];
    }
  }

  /** The operations of a run, in the order in which they take effect. */
  ghost function History(run: seq<State>, steps: seq<Step>, n: nat): seq<Operation>
    requires IsRun(run, steps) && n < |run|
  {
    if n == 0 then []
    else
      assert Next(run[n - 1], steps[n - 1], run[n - 1 + 1]);
      RunKeepsInv(run, steps, n - 1);
      StepIsOperation(run[n - 1], steps[n - 1], run[n]);
      History(run, steps, n - 1) + Effect(run[n - 1], steps[n - 1], run[n])
  }

  /**
    Every run is a sequential one: its pushes and pops, each taken at one of its own steps, are what
    sequential stacks answer, popped items and empty answers included, and leave the same stacks.
   */
  lemma {:induction false} RunRefinesStacks(run: seq<State>, steps: seq<Step>, n: nat)
    requires IsRun(run, steps) && n < |run|
    ensures Replayed(run[0].lists, History(run, steps, n)) == Some(run[n].lists)
  {
    hide Inv, Effect, Init, Next, Replayed;
    if n == 0 {
      NothingReplayed(run[0].lists);
    } else {
      RunRefinesStacks(run, steps, n - 1);
      assert Next(run[n - 1], steps[n - 1], run[n - 1 + 1]);
      RunKeepsInv(run, steps, n - 1);
      StepIsOperation(run[n - 1], steps[n - 1], run[n]);
      ReplayedMore(run[0].lists, History(run, steps, n - 1), Effect(run[n - 1], steps[n - 1], run[n]));
    }
  }

  // ---------------------------------------------------------------------------------------
  // Calls: each takes effect once, at one of its own steps, with its own stack and item

  predicate IsPush(local: Local) {
    local.PushLoadNext? || local.PushLoadHead? || local.PushStoreNext? || local.PushCas?
  }

  /** The local variables belong to the call. */
  predicate Serves(call: Step, local: Local) {
    if call.BeginPush? then IsPush(local) && local.stack == call.stack && local.item == call.item
    else call.BeginPop? && !IsPush(local) && !local.Idle? && local.stack == call.stack
  }

  /** Thread t has been in the call that began at step b ever since, up to state k. */
  ghost predicate InCall(run: seq<State>, steps: seq<Step>, t: nat, b: nat, k: nat)
    requires |run| == |steps| + 1
  {
    && b < k < |run| && steps[b].tid == t && (steps[b].BeginPush? || steps[b].BeginPop?)
    && (forall i :: b < i <= k ==> t < |run[i].threads| && run[i].threads[t] != Idle)
  }

  /** The operation of step i, if it is a step of thread t. */
  ghost function EffectOf(run: seq<State>, steps: seq<Step>, t: nat, i: nat): seq<Operation>
    requires i < |steps| < |run|
  {
    if steps[i].tid == t < |run[i].threads| && t < |run[i + 1].threads| && |run[i].threads| == |run[i + 1].threads|
    then Effect(run[i], steps[i], run[i + 1]) else []
  }

  ghost predicate NoEffect(run: seq<State>, steps: seq<Step>, t: nat, b: nat, k: nat)
    requires k <= |steps| < |run|
  {
    forall i :: b < i < k ==> EffectOf(run, steps, t, i) == []
  }

  /** Of the steps of thread t after b and before k, exactly step m takes effect, as operation op. */
  ghost predicate OnlyEffect(run: seq<State>, steps: seq<Step>, t: nat, b: nat, m: nat, k: nat, op: Operation)
    requires k <= |steps| < |run|
  {
    && b < m < k && EffectOf(run, steps, t, m) == [op]
    && forall i :: b < i < k && i != m ==> EffectOf(run, steps, t, i) == []
  }

  lemma OthersStay(s: State, step: Step, s': State, t: nat)
    requires Next(s, step, s') && t < |s.threads|
    ensures step.tid < |s.threads| == |s'.threads| && (step.tid != t ==> s'.threads[t] == s.threads[t])
  {
    hide WellFormed;
  }

  /** A step of a busy thread that stays busy: nothing takes effect unless an item comes off. */
  lemma CallGoesOn(s: State, step: Step, s': State, call: Step)
    requires Next(s, step, s') && step.tid < |s.threads| == |s'.threads| && s'.threads[step.tid] != Idle
    ensures var me, me' := s.threads[step.tid], s'.threads[step.tid];
      && (me == Idle ==> (step.BeginPush? || step.BeginPop?) && Serves(step, me'))
      && (me != Idle && Serves(call, me) ==> Serves(call, me'))
      && !me.PopClear?
      && Effect(s, step, s') == if me'.PopClear? then [Popped(me'.stack, me'.item)] else []
  {
    hide PtrOk;
  }

  lemma CallEnds(s: State, step: Step, s': State)
    requires Next(s, step, s') && step.tid < |s.threads| == |s'.threads|
    requires s.threads[step.tid] != Idle && s'.threads[step.tid] == Idle
    ensures var me := s.threads[step.tid];
      if IsPush(me) then Effect(s, step, s') == [Pushed(me.stack, me.item)]
      else if me.PopClear? then step.ClearNext? && Effect(s, step, s') == []
      else Effect(s, step, s') == [FoundEmpty(me.stack)]
  {
    hide PtrOk;
  }

  lemma BusyIsLater(run: seq<State>, steps: seq<Step>, k: nat, t: nat)
    requires IsRun(run, steps) && k < |run| && t < |run[k].threads| && run[k].threads[t] != Idle
    ensures k > 0
  {
  }

  lemma {:induction false} CallOf(run: seq<State>, steps: seq<Step>, k: nat, t: nat) returns (b: nat, m: nat)
    requires IsRun(run, steps) && k < |run| && t < |run[k].threads| && run[k].threads[t] != Idle
    ensures InCall(run, steps, t, b, k) && Serves(steps[b], run[k].threads[t])
    ensures if run[k].threads[t].PopClear?
      then OnlyEffect(run, steps, t, b, m, k, Popped(run[k].threads[t].stack, run[k].threads[t].item))
      else NoEffect(run, steps, t, b, k)
  {
    hide Init, Next, Effect, Serves, IsPush;
    BusyIsLater(run, steps, k, t);
    var last := k - 1;
    assert Next(run[last], steps[last], run[last + 1]);
    SameThreads(run[last], steps[last], run[k]);
    OthersStay(run[last], steps[last], run[k], t);
    if steps[last].tid != t {
      b, m := CallOf(run, steps, last, t);
    } else if run[last].threads[t] == Idle {
      CallGoesOn(run[last], steps[last], run[k], steps[last]);
      FirstIsNoClear(steps[last], run[k].threads[t], run[last], run[k]);
      b, m := last, last;
    } else {
      b, m := CallOf(run, steps, last, t);
      CallGoesOn(run[last], steps[last], run[k], steps[b]);
      if run[k].threads[t].PopClear? { m := last; }
    }
  }

  lemma SameThreads(s: State, step: Step, s': State)
    requires Next(s, step, s')
    ensures |s'.threads| == |s.threads|
  {
    hide WellFormed;
  }

  lemma FirstIsNoClear(step: Step, local: Local, s: State, s': State)
    requires Next(s, step, s') && step.tid < |s'.threads| && local == s'.threads[step.tid]
    requires step.BeginPush? || step.BeginPop?
    ensures !local.PopClear?
  {
    hide WellFormed;
  }

  /** A call of thread t ends between state k and the next. */
  ghost predicate Returns(run: seq<State>, k: nat, t: nat) {
    && k + 1 < |run| && t < |run[k].threads| && t < |run[k + 1].threads|
    && run[k].threads[t] != Idle && run[k + 1].threads[t] == Idle
  }

  /** The operation is what the call asked for; a pop that ends in state k returns the item that came off. */
  predicate Answers(call: Step, op: Operation, last: Local) {
    if call.BeginPush? then op == Pushed(call.stack, call.item)
    else call.BeginPop? && (op == FoundEmpty(call.stack) || (last.PopClear? && op == Popped(call.stack, last.item)))
  }

  /**
    Every call that returns, in every run, took effect exactly once, at a step of its own between its begin
    and its end: a push as the push of its item to its stack, a pop as the pop of the item it returns, or as
    finding its stack empty if it returns nothing.
   */
  lemma CallsTakeEffectOnce(run: seq<State>, steps: seq<Step>, k: nat, t: nat)
    returns (b: nat, m: nat, op: Operation)
    requires IsRun(run, steps) && k < |steps| && Returns(run, k, t)
    ensures InCall(run, steps, t, b, k) && OnlyEffect(run, steps, t, b, m, k + 1, op)
    ensures Answers(steps[b], op, run[k].threads[t])
    ensures steps[b].BeginPop? ==> (op.FoundEmpty? <==> !run[k].threads[t].PopClear?)
  {
    hide Init, Next, Effect;
    b, m := CallOf(run, steps, k, t);
    assert Next(run[k], steps[k], run[k + 1]);
    SameThreads(run[k], steps[k], run[k + 1]);
    OthersStay(run[k], steps[k], run[k + 1], t);
    CallEnds(run[k], steps[k], run[k + 1]);
    var me := run[k].threads[t];
    if IsPush(me) {
      m, op := k, Pushed(me.stack, me.item);
    } else if me.PopClear? {
      op := Popped(me.stack, me.item);
    } else {
      m, op := k, FoundEmpty(me.stack);
    }
  }

  lemma EmptyWhenFound(s: State, step: Step, s': State, op: Operation)
    requires Inv(s) && Next(s, step, s') && step.tid < |s.threads| == |s'.threads|
    requires op.FoundEmpty? && Effect(s, step, s') == [op]
    ensures op.stack < |s.lists| && s.lists[op.stack] == []
  {
    hide ListOk, NodeOk, ThreadOk;
    StepRefinesStacks(s, step, s');
    StackInRange(s, step.tid);
  }

  ghost predicate CanTake(s: State, step: Step) {
    exists s' :: Next(s, step, s')
  }

  /** The next step of a busy thread; an exchange succeeds where the head is still the one loaded. */
  ghost function Due(s: State, t: nat): Step
    requires WellFormed(s) && t < |s.threads| && s.threads[t] != Idle
  {
    assert LocalShape(s, s.threads[t]);
    match s.threads[t]
    case PushLoadNext(_, _) => LoadOwnNext(t)
    case PushLoadHead(_, _, _) => LoadHeadForPush(t)
    case PushStoreNext(_, _, _, _) => StoreNext(t)
    case PushCas(k, _, _, head) => if s.heads[k] == head then CasPush(t) else CasPushFails(t)
    case PopLoadHead(_) => LoadHeadForPop(t)
    case PopLoadNext(_, _, _) => LoadNext(t)
    case PopCas(k, item, version, _) =>
      if s.heads[k] == VersionedPtr(Some(item), version) then CasPop(t) else CasPopFails(t)
    case PopClear(_, _, _) => ClearNext(t)
  }

  /** No thread ever waits for another: in every state of every run its next step can be taken. */
  lemma NoThreadIsStuck(run: seq<State>, steps: seq<Step>, n: nat, t: nat)
    requires IsRun(run, steps) && n < |run| && t < |run[n].threads|
    ensures WellFormed(run[n])
    ensures run[n].threads[t] == Idle ==> forall k :: 0 <= k < |run[n].heads| ==> CanTake(run[n], BeginPop(t, k))
    ensures run[n].threads[t] != Idle ==> CanTake(run[n], Due(run[n], t))
  {
    hide Init, ListOk, NodeOk, ThreadOk;
    RunKeepsInv(run, steps, n);
    var s := run[n];
    if s.threads[t] == Idle {
      forall k | 0 <= k < |s.heads| ensures CanTake(s, BeginPop(t, k)) {
        assert Next(s, BeginPop(t, k), Goto(s, t, PopLoadHead(k)));
      }
    } else {
      DueCanBeTaken(s, t);
    }
  }

  lemma DueCanBeTaken(s: State, t: nat)
    requires WellFormed(s) && t < |s.threads| && s.threads[t] != Idle
    ensures CanTake(s, Due(s, t))
  {
    var me := s.threads[t];
    assert LocalShape(s, me);
    var s' := match me
      case PushLoadNext(k, item) =>
        Goto(s, t, PushLoadHead(k, item, VersionedPtr(Some(item), s.next[item].version + 1)))
      case PushLoadHead(k, item, node) => Goto(s, t, PushStoreNext(k, item, node, s.heads[k]))
      case PushStoreNext(_, _, _, _) => DoStoreNext(s, t)
      case PushCas(k, item, node, head) =>
        if s.heads[k] == head then DoCasPush(s, t) else Goto(s, t, PushStoreNext(k, item, node, s.heads[k]))
      case PopLoadHead(k) => Goto(s, t, SawHead(k, s.heads[k]))
      case PopLoadNext(k, item, version) => Goto(s, t, PopCas(k, item, version, s.next[item]))
      case PopCas(k, item, version, _) =>
        if s.heads[k] == VersionedPtr(Some(item), version) then DoCasPop(s, t) else Goto(s, t, SawHead(k, s.heads[k]))
      case PopClear(_, _, _) => DoClearNext(s, t);
    assert Next(s, Due(s, t), s');
  }
}
