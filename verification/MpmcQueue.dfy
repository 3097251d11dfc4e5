/**
  The bounded multi-producer multi-consumer queue: a ring of versioned cells claimed through
  two compare-and-swap cursors.

  Every thread is a program counter plus its local variables, and one step of the machine is one
  access to shared memory. Atomics are sequentially consistent and lap counters do not wrap. A
  run may interleave any number of threads in any way.
 */
module MpmcQueue {
  import opened Arithmetic
  import opened Wrappers

  // ---------------------------------------------------------------------------------------
  // Positions and their placement in memory

  datatype VersionedIndex = VersionedIndex(version: nat, pos: nat)

  predicate Before(a: VersionedIndex, b: VersionedIndex) {
    a.version < b.version || (a.version == b.version && a.pos < b.pos)
  }

  predicate AtMost(a: VersionedIndex, b: VersionedIndex) {
    a == b || Before(a, b)
  }

  /** The same position one lap later. */
  function Lap(a: VersionedIndex): VersionedIndex {
    VersionedIndex(a.version + 1, a.pos)
  }

  function NextPosition(capacity: nat, index: VersionedIndex): VersionedIndex {
    if index.pos + 1 < capacity then index.(pos := index.pos + 1)
    else VersionedIndex(index.version + 1, 0)
  }

  /** The capacity is rounded up to whole cache lines of `perLine` entries. */
  function RoundedCapacity(perLine: nat, capacity: nat): nat
    requires perLine > 0
  {
    if capacity == 0 then 0 else perLine * ((capacity + perLine - 1) / perLine)
  }

  function IndexTransform(perLine: nat, elementsCount: nat, pos: nat): nat
    requires perLine > 0 && elementsCount > 0
  {
    if perLine == 1 then pos % elementsCount
    else
      var p := pos * perLine;
      (p / elementsCount + p) % elementsCount
  }

  function Layout(perLine: nat, elementsCount: nat): (layout: seq<nat>)
    requires perLine > 0 && elementsCount > 0
  {
    seq(elementsCount, pos requires 0 <= pos => IndexTransform(perLine, elementsCount, pos))
  }

  ghost predicate IsPermutation(layout: seq<nat>) {
    && (forall p :: 0 <= p < |layout| ==> layout[p] < |layout|)
    && (forall p, q :: 0 <= p < q < |layout| ==> layout[p] != layout[q])
  }

  /** Column-major numbering: position q*lines + r sits at entry q of cache line r. */
  lemma IndexTransformSplits(perLine: nat, lines: nat, q: nat, r: nat)
    requires perLine > 0 && q < perLine && r < lines
    ensures 0 <= r * perLine + q < perLine * lines
    ensures IndexTransform(perLine, perLine * lines, q * lines + r) == r * perLine + q
  {
    var n := perLine * lines;
    MulMonotone(r + 1, lines, perLine);
    assert (r + 1) * perLine == r * perLine + perLine;
    assert lines * perLine == n;
    if perLine > 1 {
      var p := (q * lines + r) * perLine;
      assert p == q * n + r * perLine by {
        assert (q * lines) * perLine == q * (lines * perLine);
      }
      DivModUnique(p, n, q, r * perLine);
      DivModUnique(q + p, n, q, r * perLine + q);
    } else {
      DivModUnique(r, n, 0, r);
    }
  }

  lemma IndexTransformInjective(perLine: nat, lines: nat, q: nat, r: nat, q': nat, r': nat)
    requires perLine > 0 && q < perLine && r < lines && q' < perLine && r' < lines
    requires r * perLine + q == r' * perLine + q'
    ensures q == q' && r == r'
  {
    DivModUnique(r * perLine + q, perLine, r, q);
    DivModUnique(r' * perLine + q', perLine, r', q');
  }

  lemma SplitPosition(perLine: nat, lines: nat, n: nat, p: nat) returns (q: nat, r: nat)
    requires perLine > 0 && n == perLine * lines && p < n
    ensures q < perLine && r < lines && p == q * lines + r
    ensures IndexTransform(perLine, n, p) == r * perLine + q < n
  {
    q, r := p / lines, p % lines;
    DivBelow(p, lines, perLine);
    assert p == q * lines + r;
    IndexTransformSplits(perLine, lines, q, r);
  }

  /** The scattered placement uses every cell exactly once, for every requested capacity. */
  lemma LayoutIsPermutation(perLine: nat, capacity: nat)
    requires perLine > 0
    ensures var c := RoundedCapacity(perLine, capacity);
            && c >= capacity
            && IsPermutation(Layout(perLine, if c == 0 then 1 else c))
  {
    if capacity > 0 {
      CeilDiv(capacity, perLine);
      var lines := (capacity + perLine - 1) / perLine;
      var n := perLine * lines;
      var layout := Layout(perLine, n);
      forall p | 0 <= p < n ensures layout[p] < n {
        var q, r := SplitPosition(perLine, lines, n, p);
      }
      forall p, q | 0 <= p < q < n ensures layout[p] != layout[q] {
        var q1, r1 := SplitPosition(perLine, lines, n, p);
        var q2, r2 := SplitPosition(perLine, lines, n, q);
        if layout[p] == layout[q] {
          IndexTransformInjective(perLine, lines, q1, r1, q2, r2);
        }
      }
    }
  }

  // ---------------------------------------------------------------------------------------
  // Shared memory, threads and steps

  datatype SlotState = EmptySlot | Committed | NullSlot

  /** A cell: its atomic state word, and its storage, which is raw memory while it holds no object. */
  datatype Cell<V> = Cell(version: nat, state: SlotState, data: Option<V>)

  /**
    What a thread does next, with its local variables. `blocked` and `starved` are history
    variables: whether the failed test was made at the cursor, with the queue full or a cell busy.
   */
  datatype Local<V> =
    | Idle
    | PushTest(pos: VersionedIndex, item: V)
    | PushReload(pos: VersionedIndex, item: V, blocked: bool)
    | PushCas(pos: VersionedIndex, item: V)
    | PushConstruct(pos: VersionedIndex, item: V)
    | PushStore(pos: VersionedIndex, item: V)
    | PopTest(pos: VersionedIndex)
    | PopReload(pos: VersionedIndex, starved: bool)
    | PopCas(pos: VersionedIndex)
    | PopTake(pos: VersionedIndex)
    | PopDestroy(pos: VersionedIndex, item: V)
    | PopStore(pos: VersionedIndex, item: V)

  /**
    The queue and the threads using it. The last four fields are history variables: who claimed
    each ticket for writing and with which object, who claimed it for reading, and what the
    reader returned.
   */
  datatype State<V> = State(
    capacity: nat,
    layout: seq<nat>,
    cells: seq<Cell<V>>,
    read: VersionedIndex,
    write: VersionedIndex,
    threads: seq<Local<V>>,
    writer: map<VersionedIndex, nat>,
    pushed: map<VersionedIndex, V>,
    reader: map<VersionedIndex, nat>,
    returned: map<VersionedIndex, V>)

  datatype Step<V> =
    | BeginPush(tid: nat, item: V)
    | TestWritable(tid: nat)
    | ReloadWrite(tid: nat)
    | CasWrite(tid: nat)
    | CasWriteFails(tid: nat)
    | Construct(tid: nat)
    | StoreCommitted(tid: nat)
    | BeginPop(tid: nat)
    | TestReadable(tid: nat)
    | ReloadRead(tid: nat)
    | CasRead(tid: nat)
    | CasReadFails(tid: nat)
    | Take(tid: nat)
    | Destroy(tid: nat)
    | StoreEmpty(tid: nat)

  ghost predicate Init<V>(s: State<V>, perLine: nat, capacity: nat)
    requires perLine > 0
  {
    && s.capacity == RoundedCapacity(perLine, capacity)
    && var n := if s.capacity == 0 then 1 else s.capacity;
    && s.layout == Layout(perLine, n)
    && |s.cells| == n
    && (forall i :: 0 <= i < n ==>
          s.cells[i] == Cell(0, if s.capacity == 0 then NullSlot else EmptySlot, None))
    && s.read == VersionedIndex(0, 0)
    && s.write == VersionedIndex(0, 0)
    && (forall t :: 0 <= t < |s.threads| ==> s.threads[t] == Idle)
    && s.writer == map[] && s.pushed == map[] && s.reader == map[] && s.returned == map[]
  }

  ghost predicate WellFormed<V>(s: State<V>) {
    && |s.layout| == |s.cells|
    && IsPermutation(s.layout)
    && |s.cells| == (if s.capacity == 0 then 1 else s.capacity)
    && s.read.pos < |s.cells|
    && s.write.pos < |s.cells|
    && (forall t :: 0 <= t < |s.threads| && s.threads[t] != Idle ==> s.threads[t].pos.pos < |s.cells|)
  }

  ghost function CellAt<V>(s: State<V>, index: VersionedIndex): Cell<V>
    requires WellFormed(s) && index.pos < |s.cells|
  {
    s.cells[s.layout[index.pos]]
  }

  ghost predicate IsWritable<V>(s: State<V>, index: VersionedIndex)
    requires WellFormed(s) && index.pos < |s.cells|
  {
    var cell := CellAt(s, index);
    cell.state == EmptySlot && cell.version == index.version
  }

  ghost predicate IsReadable<V>(s: State<V>, index: VersionedIndex)
    requires WellFormed(s) && index.pos < |s.cells|
  {
    var cell := CellAt(s, index);
    cell.state == Committed && cell.version == index.version
  }

  ghost function SetCell<V>(s: State<V>, index: VersionedIndex, cell: Cell<V>): State<V>
    requires WellFormed(s) && index.pos < |s.cells|
  {
    s.(cells := s.cells[s.layout[index.pos] := cell])
  }

  ghost function Goto<V>(s: State<V>, tid: nat, local: Local<V>): State<V>
    requires tid < |s.threads|
  {
    s.(threads := s.threads[tid := local])
  }

  /** The thread that claimed `index` for reading has not yet handed the cell back. */
  ghost predicate ReaderInside<V>(s: State<V>, index: VersionedIndex) {
    && index in s.reader
    && s.reader[index] < |s.threads|
    && HoldsForRead(s.threads[s.reader[index]])
    && s.threads[s.reader[index]].pos == index
  }

  /** The thread that claimed `index` for writing has not yet committed the cell. */
  ghost predicate WriterInside<V>(s: State<V>, index: VersionedIndex) {
    && index in s.writer
    && s.writer[index] < |s.threads|
    && HoldsForWrite(s.threads[s.writer[index]])
    && s.threads[s.writer[index]].pos == index
  }

  predicate HoldsForWrite<V>(local: Local<V>) {
    local.PushConstruct? || local.PushStore?
  }

  predicate HoldsForRead<V>(local: Local<V>) {
    local.PopTake? || local.PopDestroy? || local.PopStore?
  }

  /** All cells are taken, or the next one is still being read by a slow reader. */
  ghost predicate Blocked<V>(s: State<V>) {
    || s.capacity == 0
    || s.write == Lap(s.read)
    || (s.write.version > 0 && ReaderInside(s, VersionedIndex(s.write.version - 1, s.write.pos)))
  }

  /** No cell is taken, or the oldest one is still being filled by a slow writer. */
  ghost predicate Starved<V>(s: State<V>) {
    s.capacity == 0 || s.read == s.write || WriterInside(s, s.read)
  }

  // The steps that change shared memory, each for a thread at the right program counter.

  ghost predicate At<V>(s: State<V>, t: nat) {
    WellFormed(s) && t < |s.threads| && !s.threads[t].Idle?
  }

  ghost function DoCasWrite<V>(s: State<V>, t: nat): State<V>
    requires At(s, t) && s.threads[t].PushCas?
  {
    var me := s.threads[t];
    Goto(s, t, PushConstruct(me.pos, me.item)).(
    write := NextPosition(s.capacity, me.pos),
    writer := s.writer[me.pos := t],
    pushed := s.pushed[me.pos := me.item])
  }

  ghost function DoCasRead<V>(s: State<V>, t: nat): State<V>
    requires At(s, t) && s.threads[t].PopCas?
  {
    var me := s.threads[t];
    Goto(s, t, PopTake(me.pos)).(
    read := NextPosition(s.capacity, me.pos),
    reader := s.reader[me.pos := t])
  }

  /** A thread inside a cell changes the cell's storage and moves on to `local`. */
  ghost function DoInside<V>(s: State<V>, t: nat, data: Option<V>, local: Local<V>): State<V>
    requires At(s, t) && !local.Idle? && local.pos == s.threads[t].pos
  {
    var pos := s.threads[t].pos;
    SetCell(Goto(s, t, local), pos, CellAt(s, pos).(data := data))
  }

  ghost function DoStoreCommitted<V>(s: State<V>, t: nat): State<V>
    requires At(s, t)
  {
    var pos := s.threads[t].pos;
    SetCell(Goto(s, t, Idle), pos, Cell(pos.version, Committed, CellAt(s, pos).data))
  }

  ghost function DoStoreEmpty<V>(s: State<V>, t: nat): State<V>
    requires At(s, t) && s.threads[t].PopStore?
  {
    var me := s.threads[t];
    SetCell(Goto(s, t, Idle), me.pos, Cell(me.pos.version + 1, EmptySlot, CellAt(s, me.pos).data)).(
    returned := s.returned[me.pos := me.item])
  }

  ghost predicate Next<V>(s: State<V>, step: Step<V>, s': State<V>) {
    && WellFormed(s)
    && step.tid < |s.threads|
    && var t, me := step.tid, s.threads[step.tid];
    match step {
      case BeginPush(_, item) =>
        me.Idle? && s' == Goto(s, t, PushTest(s.write, item))
      case TestWritable(_) =>
        me.PushTest? &&
        s' == Goto(s, t, if IsWritable(s, me.pos) then PushCas(me.pos, me.item)
                         else PushReload(me.pos, me.item, me.pos == s.write && Blocked(s)))
      case ReloadWrite(_) =>
        me.PushReload? &&
        s' == Goto(s, t, if me.pos == s.write then Idle else PushTest(s.write, me.item))
      case CasWrite(_) =>
        me.PushCas? && me.pos == s.write && s' == DoCasWrite(s, t)
      case CasWriteFails(_) =>
        me.PushCas? && s' == Goto(s, t, PushTest(s.write, me.item))
      case Construct(_) =>
        me.PushConstruct? && s' == DoInside(s, t, Some(me.item), PushStore(me.pos, me.item))
      case StoreCommitted(_) =>
        me.PushStore? && s' == DoStoreCommitted(s, t)
      case BeginPop(_) =>
        me.Idle? && s' == Goto(s, t, PopTest(s.read))
      case TestReadable(_) =>
        me.PopTest? &&
        s' == Goto(s, t, if IsReadable(s, me.pos) then PopCas(me.pos)
                         else PopReload(me.pos, me.pos == s.read && Starved(s)))
      case ReloadRead(_) =>
        me.PopReload? &&
        s' == Goto(s, t, if me.pos == s.read then Idle else PopTest(s.read))
      case CasRead(_) =>
        me.PopCas? && me.pos == s.read && s' == DoCasRead(s, t)
      case CasReadFails(_) =>
        me.PopCas? && s' == Goto(s, t, PopTest(s.read))
      case Take(_) =>
        me.PopTake? && CellAt(s, me.pos).data.Some? &&
        s' == DoInside(s, t, CellAt(s, me.pos).data, PopDestroy(me.pos, CellAt(s, me.pos).data.value))
      case Destroy(_) =>
        me.PopDestroy? && s' == DoInside(s, t, None, PopStore(me.pos, me.item))
      case StoreEmpty(_) =>
        me.PopStore? && s' == DoStoreEmpty(s, t)
    }
  }

  // ---------------------------------------------------------------------------------------
  // The invariant

  ghost predicate CellOk<V>(s: State<V>, p: nat)
    requires WellFormed(s) && p < |s.cells|
  {
    var cell := s.cells[s.layout[p]];
    var here := VersionedIndex(cell.version, p);
    match cell.state
    case NullSlot => s.capacity == 0
    case EmptySlot =>
      && s.capacity > 0
      && AtMost(s.read, here)
      && Before(here, Lap(s.read))
      && (if Before(here, s.write) then WriterInside(s, here) else cell.data == None)
    case Committed =>
      && s.capacity > 0
      && Before(here, s.write)
      && AtMost(s.write, Lap(here))
      && (if Before(here, s.read) then ReaderInside(s, here)
          else here in s.pushed && cell.data == Some(s.pushed[here]))
  }

  ghost predicate ThreadOk<V>(s: State<V>, tid: nat)
    requires WellFormed(s) && tid < |s.threads|
  {
    var me := s.threads[tid];
    match me
    case Idle => true
    case PushTest(pos, _) => AtMost(pos, s.write)
    case PushReload(pos, _, blocked) => AtMost(pos, s.write) && (pos == s.write ==> blocked)
    case PushCas(pos, _) => AtMost(pos, s.write) && (pos == s.write ==> IsWritable(s, pos))
    case PushConstruct(pos, item) => WritesAt(s, tid, pos, item) && CellAt(s, pos).data == None
    case PushStore(pos, item) => WritesAt(s, tid, pos, item) && CellAt(s, pos).data == Some(item)
    case PopTest(pos) => AtMost(pos, s.read)
    case PopReload(pos, starved) => AtMost(pos, s.read) && (pos == s.read ==> starved)
    case PopCas(pos) => AtMost(pos, s.read) && (pos == s.read ==> IsReadable(s, pos))
    case PopTake(pos) => ReadsAt(s, tid, pos) && CellAt(s, pos).data == Some(s.pushed[pos])
    case PopDestroy(pos, item) =>
      ReadsAt(s, tid, pos) && item == s.pushed[pos] && CellAt(s, pos).data == Some(item)
    case PopStore(pos, item) =>
      ReadsAt(s, tid, pos) && item == s.pushed[pos] && CellAt(s, pos).data == None
  }

  ghost predicate WritesAt<V>(s: State<V>, tid: nat, pos: VersionedIndex, item: V)
    requires WellFormed(s) && pos.pos < |s.cells|
  {
    && s.capacity > 0
    && IsWritable(s, pos)
    && Before(pos, s.write)
    && pos in s.writer && s.writer[pos] == tid
    && pos in s.pushed && s.pushed[pos] == item
  }

  ghost predicate ReadsAt<V>(s: State<V>, tid: nat, pos: VersionedIndex)
    requires WellFormed(s) && pos.pos < |s.cells|
  {
    && s.capacity > 0
    && IsReadable(s, pos)
    && Before(pos, s.read)
    && pos in s.reader && s.reader[pos] == tid
    && pos in s.pushed
  }

  /** Tickets before the write cursor have a writer and an object; those before the read cursor a reader. */
  ghost predicate TicketsOk<V>(s: State<V>) {
    && s.writer.Keys == s.pushed.Keys
    && (forall x :: x in s.pushed <==> x.pos < |s.cells| && Before(x, s.write))
    && (forall x :: x in s.reader <==> x.pos < |s.cells| && Before(x, s.read))
  }

  /** Each ticket claimed for reading is either returned, with the pushed object, or still with its reader. */
  ghost predicate ReturnsOk<V>(s: State<V>) {
    && (forall x :: x in s.returned ==> x in s.reader && x in s.pushed && s.returned[x] == s.pushed[x])
    && (forall x :: x in s.reader ==> (x in s.returned <==> !ReaderInside(s, x)))
  }

  ghost predicate CursorsOk<V>(s: State<V>) {
    && AtMost(s.read, s.write)
    && AtMost(s.write, Lap(s.read))
    && (s.capacity == 0 ==> s.write == s.read)
  }

  ghost predicate Inv<V>(s: State<V>) {
    && WellFormed(s)
    && CursorsOk(s)
    && (forall p :: 0 <= p < |s.cells| ==> CellOk(s, p))
    && (forall t :: 0 <= t < |s.threads| ==> ThreadOk(s, t))
    && TicketsOk(s)
    && ReturnsOk(s)
  }

  lemma InitEstablishesInv<V>(s: State<V>, perLine: nat, capacity: nat)
    requires perLine > 0 && Init(s, perLine, capacity)
    ensures Inv(s)
  {
    LayoutIsPermutation(perLine, capacity);
  }

  /** The readable/writable test only fails when the ring is full/empty or a thread is inside the cell. */
  lemma RefusalIsJustified<V>(s: State<V>)
    requires Inv(s)
    ensures !IsWritable(s, s.write) ==> Blocked(s)
    ensures !IsReadable(s, s.read) ==> Starved(s)
  {
    hide CellOk, ThreadOk, IsWritable, IsReadable, Blocked, Starved, TicketsOk, ReturnsOk;
    assert CellOk(s, s.write.pos);
    assert CellOk(s, s.read.pos);
    PushRefusalIsJustified(s);
    PopRefusalIsJustified(s);
  }

  lemma PushRefusalIsJustified<V>(s: State<V>)
    requires WellFormed(s) && CursorsOk(s) && CellOk(s, s.write.pos)
    ensures !IsWritable(s, s.write) ==> Blocked(s)
  {
  }

  lemma PopRefusalIsJustified<V>(s: State<V>)
    requires WellFormed(s) && CursorsOk(s) && CellOk(s, s.read.pos)
    ensures !IsReadable(s, s.read) ==> Starved(s)
  {
  }

  // ---------------------------------------------------------------------------------------
  // Every step keeps the invariant

  /** A step that only changes one thread's program counter, in or out of the lock-free phases. */
  lemma LocalStepKeepsInv<V>(s: State<V>, tid: nat, s': State<V>)
    requires Inv(s) && GoesTo(s, tid, s')
    requires WellFormed(s') && ThreadOk(s', tid)
    ensures Inv(s')
  {
    hide ReturnsOk;
    forall p | 0 <= p < |s.cells| ensures CellOk(s', p) { assert CellOk(s, p); }
    forall t | 0 <= t < |s.threads| ensures ThreadOk(s', t) { assert ThreadOk(s, t); }
    ReturnsFrame(s, s', tid);
  }

  predicate SameHold<V>(a: Local<V>, b: Local<V>) {
    && HoldsForWrite(a) == HoldsForWrite(b)
    && HoldsForRead(a) == HoldsForRead(b)
    && (HoldsForWrite(a) || HoldsForRead(a))
    && a.pos == b.pos
  }

  lemma NextPositionIsNext(n: nat, w: VersionedIndex, x: VersionedIndex)
    requires w.pos < n && x.pos < n
    ensures Before(x, NextPosition(n, w)) <==> AtMost(x, w)
  {
  }

  /** A step that moves no thread into or out of a cell it reads leaves the returns as they are. */
  lemma ReturnsFrame<V>(s: State<V>, s': State<V>, t: nat)
    requires ReturnsOk(s) && t < |s.threads| && |s'.threads| == |s.threads|
    requires s'.returned == s.returned && s'.reader == s.reader
    requires forall x :: x in s.pushed ==> x in s'.pushed && s'.pushed[x] == s.pushed[x]
    requires forall u :: 0 <= u < |s.threads| && u != t ==> s'.threads[u] == s.threads[u]
    requires HoldsForRead(s.threads[t]) == HoldsForRead(s'.threads[t])
    requires HoldsForRead(s.threads[t]) ==> s.threads[t].pos == s'.threads[t].pos
    ensures ReturnsOk(s')
  {
    forall x | x in s.reader ensures ReaderInside(s', x) == ReaderInside(s, x) {
    }
  }

  lemma CasWriteKeepsTickets<V>(s: State<V>, t: nat)
    requires At(s, t) && s.threads[t].PushCas? && s.threads[t].pos == s.write
    requires CursorsOk(s) && TicketsOk(s) && ThreadOk(s, t) && CellOk(s, s.write.pos)
    ensures TicketsOk(DoCasWrite(s, t))
  {
    var s' := DoCasWrite(s, t);
    forall x: VersionedIndex
      ensures x in s'.pushed <==> x.pos < |s.cells| && Before(x, s'.write)
    {
      if x.pos < |s.cells| { NextPositionIsNext(|s.cells|, s.write, x); }
    }
  }

  lemma CasReadKeepsTickets<V>(s: State<V>, t: nat)
    requires At(s, t) && s.threads[t].PopCas? && s.threads[t].pos == s.read
    requires CursorsOk(s) && TicketsOk(s) && ThreadOk(s, t) && CellOk(s, s.read.pos)
    ensures TicketsOk(DoCasRead(s, t))
  {
    var s' := DoCasRead(s, t);
    forall x: VersionedIndex
      ensures x in s'.reader <==> x.pos < |s.cells| && Before(x, s'.read)
    {
      if x.pos < |s.cells| { NextPositionIsNext(|s.cells|, s.read, x); }
    }
  }

  lemma CasReadKeepsReturns<V>(s: State<V>, t: nat)
    requires At(s, t) && s.threads[t].PopCas? && s.threads[t].pos == s.read
    requires CursorsOk(s) && TicketsOk(s) && ReturnsOk(s)
    ensures ReturnsOk(DoCasRead(s, t))
  {
    var s' := DoCasRead(s, t);
    assert s.read !in s.reader;
    forall x | x in s.reader ensures ReaderInside(s', x) == ReaderInside(s, x) {
    }
  }

  lemma StoreEmptyKeepsReturns<V>(s: State<V>, t: nat)
    requires At(s, t) && s.threads[t].PopStore? && ThreadOk(s, t) && ReturnsOk(s)
    ensures ReturnsOk(DoStoreEmpty(s, t))
  {
    var s' := DoStoreEmpty(s, t);
    forall x | x in s.reader && x != s.threads[t].pos ensures ReaderInside(s', x) == ReaderInside(s, x) {
    }
  }

  lemma CasWriteKeepsCell<V>(s: State<V>, t: nat, p: nat)
    requires At(s, t) && CursorsOk(s) && p < |s.cells|
    requires s.threads[t].PushCas?
    requires s.threads[t].pos == s.write
    requires ThreadOk(s, t) && CellOk(s, p)
    ensures WellFormed(DoCasWrite(s, t)) && CellOk(DoCasWrite(s, t), p)
  {
  }

  lemma CasWriteKeepsThread<V>(s: State<V>, t: nat, u: nat)
    requires At(s, t) && CursorsOk(s) && u < |s.threads| && u != t
    requires s.threads[t].PushCas?
    requires s.threads[t].pos == s.write
    requires ThreadOk(s, t) && ThreadOk(s, u)
    ensures WellFormed(DoCasWrite(s, t)) && ThreadOk(DoCasWrite(s, t), u)
  {
    hide Blocked, Starved, IsPermutation;
  }

  lemma CasWriteKeepsSelf<V>(s: State<V>, t: nat)
    requires At(s, t) && s.threads[t].PushCas? && s.threads[t].pos == s.write
    requires CursorsOk(s) && TicketsOk(s) && ThreadOk(s, t) && CellOk(s, s.write.pos)
    ensures WellFormed(DoCasWrite(s, t)) && CursorsOk(DoCasWrite(s, t)) && ThreadOk(DoCasWrite(s, t), t)
    ensures forall x :: x in s.pushed ==> x in DoCasWrite(s, t).pushed && DoCasWrite(s, t).pushed[x] == s.pushed[x]
  {
  }

  lemma CasWriteKeepsInv<V>(s: State<V>, t: nat)
    requires Inv(s) && At(s, t)
    requires s.threads[t].PushCas?
    requires s.threads[t].pos == s.write
    ensures Inv(DoCasWrite(s, t))
  {
    hide CellOk, ThreadOk, CursorsOk, TicketsOk, ReturnsOk;
    var s' := DoCasWrite(s, t);
    assert ThreadOk(s, t);
    assert CellOk(s, s.threads[t].pos.pos);
    CasWriteKeepsSelf(s, t);
    forall p | 0 <= p < |s.cells| ensures WellFormed(s') && CellOk(s', p) { CasWriteKeepsCell(s, t, p); }
    forall u | 0 <= u < |s.threads| && u != t ensures ThreadOk(s', u) { CasWriteKeepsThread(s, t, u); }
    CasWriteKeepsTickets(s, t);
    ReturnsFrame(s, s', t);
  }

  lemma CasReadKeepsCell<V>(s: State<V>, t: nat, p: nat)
    requires At(s, t) && CursorsOk(s) && p < |s.cells|
    requires s.threads[t].PopCas?
    requires s.threads[t].pos == s.read
    requires ThreadOk(s, t) && CellOk(s, p)
    ensures WellFormed(DoCasRead(s, t)) && CellOk(DoCasRead(s, t), p)
  {
  }

  lemma CasReadKeepsThread<V>(s: State<V>, t: nat, u: nat)
    requires At(s, t) && CursorsOk(s) && u < |s.threads| && u != t
    requires s.threads[t].PopCas?
    requires s.threads[t].pos == s.read
    requires ThreadOk(s, t) && ThreadOk(s, u)
    ensures WellFormed(DoCasRead(s, t)) && ThreadOk(DoCasRead(s, t), u)
  {
  }

  lemma CasReadKeepsInv<V>(s: State<V>, t: nat)
    requires Inv(s) && At(s, t)
    requires s.threads[t].PopCas?
    requires s.threads[t].pos == s.read
    ensures Inv(DoCasRead(s, t))
  {
    hide ReturnsOk, TicketsOk;
    var s' := DoCasRead(s, t);
    assert ThreadOk(s, t);
    assert CellOk(s, s.threads[t].pos.pos);
    forall p | 0 <= p < |s.cells| ensures WellFormed(s') && CellOk(s', p) { CasReadKeepsCell(s, t, p); }
    forall u | 0 <= u < |s.threads| && u != t ensures ThreadOk(s', u) { CasReadKeepsThread(s, t, u); }
    CasReadKeepsTickets(s, t);
    CasReadKeepsReturns(s, t);
  }

  predicate Holds<V>(local: Local<V>) {
    HoldsForWrite(local) || HoldsForRead(local)
  }

  lemma HoldersAreApart<V>(s: State<V>, t: nat, u: nat)
    requires WellFormed(s) && t < |s.threads| && u < |s.threads| && t != u
    requires Holds(s.threads[t]) && Holds(s.threads[u]) && ThreadOk(s, t) && ThreadOk(s, u)
    ensures s.threads[t].pos.pos != s.threads[u].pos.pos
    ensures s.layout[s.threads[t].pos.pos] != s.layout[s.threads[u].pos.pos]
  {
    assert s.threads[t].pos != s.threads[u].pos;
  }

  lemma InsideKeepsCell<V>(s: State<V>, t: nat, data: Option<V>, local: Local<V>, p: nat)
    requires At(s, t) && CursorsOk(s) && p < |s.cells|
    requires HoldsForWrite(s.threads[t]) || HoldsForRead(s.threads[t])
    requires SameHold(s.threads[t], local)
    requires ThreadOk(DoInside(s, t, data, local), t)
    requires ThreadOk(s, t) && CellOk(s, p)
    ensures WellFormed(DoInside(s, t, data, local)) && CellOk(DoInside(s, t, data, local), p)
  {
  }

  lemma InsideLeavesRest<V>(s: State<V>, t: nat, data: Option<V>, local: Local<V>)
    requires At(s, t) && !local.Idle? && local.pos == s.threads[t].pos
    ensures var s', place := DoInside(s, t, data, local), s.layout[local.pos.pos];
      && WellFormed(s') && s' == s.(cells := s'.cells, threads := s.threads[t := local])
      && (forall p :: 0 <= p < |s.cells| ==> s'.cells[p].state == s.cells[p].state)
      && (forall p :: 0 <= p < |s.cells| ==> s'.cells[p].version == s.cells[p].version)
      && (forall p :: 0 <= p < |s.cells| && p != place ==> s'.cells[p] == s.cells[p])
  {
  }

  lemma InsideKeepsThread<V>(s: State<V>, t: nat, data: Option<V>, local: Local<V>, u: nat)
    requires At(s, t) && Holds(s.threads[t]) && u < |s.threads| && u != t
    requires !local.Idle? && local.pos == s.threads[t].pos
    requires ThreadOk(s, t) && ThreadOk(s, u)
    ensures WellFormed(DoInside(s, t, data, local)) && ThreadOk(DoInside(s, t, data, local), u)
  {
    hide DoInside, Before, AtMost;
    InsideLeavesRest(s, t, data, local);
    if Holds(s.threads[u]) { HoldersAreApart(s, t, u); }
  }

  lemma InsideKeepsInv<V>(s: State<V>, t: nat, data: Option<V>, local: Local<V>)
    requires Inv(s) && At(s, t)
    requires HoldsForWrite(s.threads[t]) || HoldsForRead(s.threads[t])
    requires SameHold(s.threads[t], local)
    requires ThreadOk(DoInside(s, t, data, local), t)
    ensures Inv(DoInside(s, t, data, local))
  {
    hide CellOk, ThreadOk;
    var s' := DoInside(s, t, data, local);
    assert ThreadOk(s, t);
    assert CellOk(s, s.threads[t].pos.pos);
    forall p | 0 <= p < |s.cells| ensures WellFormed(s') && CellOk(s', p) { InsideKeepsCell(s, t, data, local, p); }
    forall u | 0 <= u < |s.threads| && u != t ensures ThreadOk(s', u) { InsideKeepsThread(s, t, data, local, u); }
    ReturnsFrame(s, s', t);
  }

  lemma StoreCommittedKeepsCell<V>(s: State<V>, t: nat, p: nat)
    requires At(s, t) && CursorsOk(s) && p < |s.cells|
    requires s.threads[t].PushStore?
    requires s.capacity > 0
    requires ThreadOk(s, t) && CellOk(s, p)
    ensures WellFormed(DoStoreCommitted(s, t)) && CellOk(DoStoreCommitted(s, t), p)
  {
  }

  lemma StoreCommittedKeepsThread<V>(s: State<V>, t: nat, u: nat)
    requires At(s, t) && CursorsOk(s) && u < |s.threads| && u != t
    requires s.threads[t].PushStore?
    requires s.capacity > 0
    requires ThreadOk(s, t) && ThreadOk(s, u)
    ensures WellFormed(DoStoreCommitted(s, t)) && ThreadOk(DoStoreCommitted(s, t), u)
  {
  }

  lemma StoreCommittedKeepsInv<V>(s: State<V>, t: nat)
    requires Inv(s) && At(s, t)
    requires s.threads[t].PushStore?
    requires s.capacity > 0
    ensures Inv(DoStoreCommitted(s, t))
  {
    hide CellOk, ReturnsOk;
    var s' := DoStoreCommitted(s, t);
    assert ThreadOk(s, t);
    assert CellOk(s, s.threads[t].pos.pos);
    forall p | 0 <= p < |s.cells| ensures WellFormed(s') && CellOk(s', p) { StoreCommittedKeepsCell(s, t, p); }
    forall u | 0 <= u < |s.threads| && u != t ensures ThreadOk(s', u) { StoreCommittedKeepsThread(s, t, u); }
    ReturnsFrame(s, s', t);
  }

  lemma StoreEmptyKeepsCell<V>(s: State<V>, t: nat, p: nat)
    requires At(s, t) && CursorsOk(s) && p < |s.cells|
    requires s.threads[t].PopStore?
    requires s.capacity > 0
    requires ThreadOk(s, t) && CellOk(s, p)
    ensures WellFormed(DoStoreEmpty(s, t)) && CellOk(DoStoreEmpty(s, t), p)
  {
  }

  lemma StoreEmptyKeepsThread<V>(s: State<V>, t: nat, u: nat)
    requires At(s, t) && CursorsOk(s) && u < |s.threads| && u != t
    requires s.threads[t].PopStore?
    requires s.capacity > 0
    requires ThreadOk(s, t) && ThreadOk(s, u)
    ensures WellFormed(DoStoreEmpty(s, t)) && ThreadOk(DoStoreEmpty(s, t), u)
  {
  }

  lemma StoreEmptyKeepsInv<V>(s: State<V>, t: nat)
    requires Inv(s) && At(s, t)
    requires s.threads[t].PopStore?
    requires s.capacity > 0
    ensures Inv(DoStoreEmpty(s, t))
  {
    hide CellOk, ReturnsOk;
    var s' := DoStoreEmpty(s, t);
    assert ThreadOk(s, t);
    assert CellOk(s, s.threads[t].pos.pos);
    forall p | 0 <= p < |s.cells| ensures WellFormed(s') && CellOk(s', p) { StoreEmptyKeepsCell(s, t, p); }
    forall u | 0 <= u < |s.threads| && u != t ensures ThreadOk(s', u) { StoreEmptyKeepsThread(s, t, u); }
    StoreEmptyKeepsReturns(s, t);
  }

  /** The tests, loads and failed exchanges: only the thread's own variables change. */
  predicate IsLocal<V>(step: Step<V>) {
    || step.BeginPush? || step.TestWritable? || step.ReloadWrite? || step.CasWriteFails?
    || step.BeginPop? || step.TestReadable? || step.ReloadRead? || step.CasReadFails?
  }

  ghost predicate GoesTo<V>(s: State<V>, t: nat, s': State<V>) {
    && t < |s.threads|
    && |s'.threads| == |s.threads|
    && s' == Goto(s, t, s'.threads[t])
    && !HoldsForWrite(s.threads[t]) && !HoldsForRead(s.threads[t])
    && !HoldsForWrite(s'.threads[t]) && !HoldsForRead(s'.threads[t])
  }

  lemma LocalStepGoes<V>(s: State<V>, step: Step<V>, s': State<V>)
    requires WellFormed(s) && Next(s, step, s') && IsLocal(step)
    ensures GoesTo(s, step.tid, s')
    ensures s'.threads[step.tid] != Idle ==> s'.threads[step.tid].pos.pos < |s.cells|
  {
    hide IsPermutation, IsWritable, IsReadable, Blocked, Starved;
  }

  lemma LocalStepShape<V>(s: State<V>, step: Step<V>, s': State<V>)
    requires WellFormed(s) && Next(s, step, s') && IsLocal(step)
    ensures WellFormed(s') && GoesTo(s, step.tid, s')
  {
    hide Next, IsPermutation;
    LocalStepGoes(s, step, s');
  }

  lemma LocalStepThreadOk<V>(s: State<V>, step: Step<V>, s': State<V>)
    requires WellFormed(s) && Next(s, step, s') && IsLocal(step)
    requires ThreadOk(s, step.tid)
    requires !IsWritable(s, s.write) ==> Blocked(s)
    requires !IsReadable(s, s.read) ==> Starved(s)
    ensures WellFormed(s') && ThreadOk(s', step.tid)
    ensures GoesTo(s, step.tid, s')
  {
    hide Blocked, Starved;
    LocalStepShape(s, step, s');
  }

  lemma InsideStepsKeepInv<V>(s: State<V>, step: Step<V>, s': State<V>)
    requires Inv(s) && Next(s, step, s') && (step.Construct? || step.Take? || step.Destroy?)
    ensures Inv(s')
  {
    hide CellOk, TicketsOk, ReturnsOk;
    var t, me := step.tid, s.threads[step.tid];
    assert ThreadOk(s, t);
    match step {
      case Construct(_) => InsideKeepsInv(s, t, Some(me.item), PushStore(me.pos, me.item));
      case Take(_) => InsideKeepsInv(s, t, Some(s.pushed[me.pos]), PopDestroy(me.pos, s.pushed[me.pos]));
      case Destroy(_) => InsideKeepsInv(s, t, None, PopStore(me.pos, me.item));
    }
  }

  lemma StepKeepsInv<V>(s: State<V>, step: Step<V>, s': State<V>)
    requires Inv(s) && Next(s, step, s')
    ensures Inv(s')
  {
    hide CellOk, IsPermutation, TicketsOk, ReturnsOk;
    assert ThreadOk(s, step.tid);
    match step {
      case CasWrite(t) => CasWriteKeepsInv(s, t);
      case StoreCommitted(t) => StoreCommittedKeepsInv(s, t);
      case CasRead(t) => CasReadKeepsInv(s, t);
      case StoreEmpty(t) => StoreEmptyKeepsInv(s, t);
      case Construct(_) => InsideStepsKeepInv(s, step, s');
      case Take(_) => InsideStepsKeepInv(s, step, s');
      case Destroy(_) => InsideStepsKeepInv(s, step, s');
      case _ =>
        RefusalIsJustified(s);
        LocalStepThreadOk(s, step, s');
        LocalStepKeepsInv(s, step.tid, s');
    }
  }

  // ---------------------------------------------------------------------------------------
  // What the queue contains: the machine refines a bounded first-in first-out queue

  ghost predicate AllPushed<V>(pushed: map<VersionedIndex, V>, n: nat, hi: VersionedIndex) {
    forall x: VersionedIndex :: x.pos < n && Before(x, hi) ==> x in pushed
  }

  /** The objects of the tickets from `lo` up to `hi`. */
  ghost function Between<V>(pushed: map<VersionedIndex, V>, n: nat, lo: VersionedIndex, hi: VersionedIndex): seq<V>
    requires lo.pos < n && hi.pos < n && AtMost(lo, hi)
    requires AllPushed(pushed, n, hi)
    decreases hi.version - lo.version, n - lo.pos
  {
    if lo == hi then []
    else
      NextPositionIsNext(n, lo, hi);
      [pushed[lo]] + Between(pushed, n, NextPosition(n, lo), hi)
  }

  ghost function Contents<V>(s: State<V>): seq<V>
    requires Inv(s)
  {
    Between(s.pushed, |s.cells|, s.read, s.write)
  }

  lemma {:induction false} BetweenAppend<V>(pushed: map<VersionedIndex, V>, n: nat,
                                            lo: VersionedIndex, hi: VersionedIndex, item: V)
    requires lo.pos < n && hi.pos < n && AtMost(lo, hi)
    requires AllPushed(pushed, n, hi)
    ensures AllPushed(pushed[hi := item], n, NextPosition(n, hi))
    ensures AtMost(lo, NextPosition(n, hi))
    ensures Between(pushed[hi := item], n, lo, NextPosition(n, hi)) == Between(pushed, n, lo, hi) + [item]
    decreases hi.version - lo.version, n - lo.pos
  {
    var hi' := NextPosition(n, hi);
    forall x: VersionedIndex | x.pos < n && Before(x, hi') ensures x in pushed[hi := item] {
      NextPositionIsNext(n, hi, x);
    }
    if lo == hi {
      assert Between(pushed[hi := item], n, hi', hi') == [];
    } else {
      NextPositionIsNext(n, lo, hi);
      BetweenAppend(pushed, n, NextPosition(n, lo), hi, item);
    }
  }

  /** size(), on cursors read together; the subtraction is on unsigned 32-bit words that do not wrap here. */
  function Size(capacity: nat, write: VersionedIndex, read: VersionedIndex): nat
    requires capacity == 0 ==> write == read
    requires read.pos <= capacity + write.pos
  {
    if write == read then 0
    else if write.pos == read.pos then capacity
    else
      var n := (capacity + write.pos - read.pos) % capacity;
      if n < 1 then 1 else n
  }

  lemma {:induction false} BetweenLength<V>(pushed: map<VersionedIndex, V>, n: nat, lo: VersionedIndex, hi: VersionedIndex)
    requires lo.pos < n && hi.pos < n && AtMost(lo, hi) && AtMost(hi, Lap(lo))
    requires AllPushed(pushed, n, hi)
    ensures |Between(pushed, n, lo, hi)| ==
            (if lo.version == hi.version then hi.pos - lo.pos else n - lo.pos + hi.pos)
    decreases hi.version - lo.version, n - lo.pos
  {
    if lo != hi {
      NextPositionIsNext(n, lo, hi);
      BetweenLength(pushed, n, NextPosition(n, lo), hi);
    }
  }

  /** size() counts the objects exactly, and there are never more than the capacity. */
  lemma SizeIsExact<V>(s: State<V>)
    requires Inv(s)
    ensures s.capacity == 0 ==> s.write == s.read
    ensures |Contents(s)| == Size(s.capacity, s.write, s.read) <= s.capacity
  {
    BetweenLength(s.pushed, |s.cells|, s.read, s.write);
    var d := s.write.pos - s.read.pos;
    if d > 0 {
      DivModUnique(s.capacity + d, s.capacity, 1, d);
    } else if d < 0 {
      DivModUnique(s.capacity + d, s.capacity, 0, s.capacity + d);
    }
  }

  /**
    Every step is invisible to the abstract queue, or appends the pushing thread's object when there
    is room, or removes the oldest object, which is what the popping thread will return.
   */
  lemma StepRefinesQueue<V>(s: State<V>, step: Step<V>, s': State<V>)
    requires Inv(s) && Next(s, step, s') && Inv(s')
    ensures match step
            case CasWrite(t) =>
              && |Contents(s)| < s.capacity
              && Contents(s') == Contents(s) + [s.threads[t].item]
            case CasRead(t) =>
              && Contents(s) == [s'.pushed[s'.threads[t].pos]] + Contents(s')
            case _ => Contents(s') == Contents(s)
  {
    hide CellOk, ThreadOk, ReturnsOk, IsPermutation;
    if step.CasWrite? {
      CasWriteRefinesQueue(s, step.tid);
    } else if step.CasRead? {
      CasReadRefinesQueue(s, step.tid);
    } else {
      assert s'.pushed == s.pushed && s'.read == s.read && s'.write == s.write;
    }
  }

  lemma CasWriteRefinesQueue<V>(s: State<V>, t: nat)
    requires Inv(s) && At(s, t) && s.threads[t].PushCas? && s.threads[t].pos == s.write
    requires Inv(DoCasWrite(s, t))
    ensures |Contents(s)| < s.capacity
    ensures Contents(DoCasWrite(s, t)) == Contents(s) + [s.threads[t].item]
  {
    assert ThreadOk(s, t);
    assert CellOk(s, s.write.pos);
    BetweenAppend(s.pushed, |s.cells|, s.read, s.write, s.threads[t].item);
    SizeIsExact(s);
    SizeIsExact(DoCasWrite(s, t));
  }

  lemma CasReadRefinesQueue<V>(s: State<V>, t: nat)
    requires Inv(s) && At(s, t) && s.threads[t].PopCas? && s.threads[t].pos == s.read
    requires Inv(DoCasRead(s, t))
    ensures s.read in s.pushed
    ensures Contents(s) == [s.pushed[s.read]] + Contents(DoCasRead(s, t))
  {
    assert ThreadOk(s, t);
    assert CellOk(s, s.read.pos);
    assert AllPushed(s.pushed, |s.cells|, s.write);
    NextPositionIsNext(|s.cells|, s.read, s.write);
  }

  // ---------------------------------------------------------------------------------------
  // Whole runs

  ghost predicate IsRun<V>(run: seq<State<V>>, steps: seq<Step<V>>, perLine: nat, capacity: nat) {
    && perLine > 0
    && |run| == |steps| + 1
    && Init(run[0], perLine, capacity)
    && (forall i :: 0 <= i < |steps| ==> Next(run[i], steps[i], run[i + 1]))
  }

  lemma {:induction false} RunKeepsInv<V>(run: seq<State<V>>, steps: seq<Step<V>>, perLine: nat, capacity: nat, k: nat)
    requires IsRun(run, steps, perLine, capacity) && k < |run|
    ensures Inv(run[k])
  {
    hide Inv, Init, Next;
    if k == 0 {
      InitEstablishesInv(run[0], perLine, capacity);
    } else {
      RunKeepsInv(run, steps, perLine, capacity, k - 1);
      StepKeepsInv(run[k - 1], steps[k - 1], run[k]);
    }
  }

  /** The object a step puts into the queue, and the one it takes out: at most one of the two. */
  ghost function Put<V>(s: State<V>, step: Step<V>): seq<V> {
    if step.CasWrite? && At(s, step.tid) && s.threads[step.tid].PushCas? then [s.threads[step.tid].item] else []
  }

  ghost function Taken<V>(s: State<V>, step: Step<V>): seq<V> {
    if step.CasRead? && s.read in s.pushed then [s.pushed[s.read]] else []
  }

  /** The objects claimed for writing, and those claimed for reading, by the first k steps, in order. */
  ghost function AllPut<V>(run: seq<State<V>>, steps: seq<Step<V>>, k: nat): seq<V>
    requires k <= |steps| <= |run|
  {
    if k == 0 then [] else AllPut(run, steps, k - 1) + Put(run[k - 1], steps[k - 1])
  }

  ghost function AllTaken<V>(run: seq<State<V>>, steps: seq<Step<V>>, k: nat): seq<V>
    requires k <= |steps| <= |run|
  {
    if k == 0 then [] else AllTaken(run, steps, k - 1) + Taken(run[k - 1], steps[k - 1])
  }

  lemma StepConserves<V>(s: State<V>, step: Step<V>, s': State<V>)
    requires Inv(s) && Next(s, step, s') && Inv(s')
    ensures Contents(s) + Put(s, step) == Taken(s, step) + Contents(s')
    ensures step.CasWrite? ==> |Put(s, step)| == 1
    ensures step.CasRead? ==> |Taken(s, step)| == 1
  {
    hide Inv, Contents;
    StepRefinesQueue(s, step, s');
    StepClaims(s, step, s');
  }

  lemma StepClaims<V>(s: State<V>, step: Step<V>, s': State<V>)
    requires Inv(s) && Next(s, step, s')
    ensures step.CasWrite? ==> Put(s, step) == [s.threads[step.tid].item]
    ensures step.CasRead? ==>
      && step.tid < |s'.threads| && s'.threads[step.tid].PopTake? && s'.threads[step.tid].pos in s'.pushed
      && Taken(s, step) == [s'.pushed[s'.threads[step.tid].pos]]
  {
    if step.CasRead? {
      assert ThreadOk(s, step.tid) && CellOk(s, s.read.pos);
    }
  }

  /**
    First in, first out, over every run: what was claimed for writing is what was claimed for reading
    followed by what the queue holds, which never exceeds the capacity.
   */
  lemma {:induction false} RunRefinesQueue<V>(run: seq<State<V>>, steps: seq<Step<V>>, perLine: nat, capacity: nat,
                                              k: nat)
    requires IsRun(run, steps, perLine, capacity) && k <= |steps|
    ensures Inv(run[k])
    ensures AllPut(run, steps, k) == AllTaken(run, steps, k) + Contents(run[k])
    ensures AllTaken(run, steps, k) <= AllPut(run, steps, k)
    ensures |Contents(run[k])| <= run[k].capacity
  {
    hide Inv, Contents, Put, Taken, Next;
    RunKeepsInv(run, steps, perLine, capacity, k);
    SizeIsExact(run[k]);
    if k == 0 {
      EmptyAtFirst(run[0], perLine, capacity);
    } else {
      RunRefinesQueue(run, steps, perLine, capacity, k - 1);
      StepConserves(run[k - 1], steps[k - 1], run[k]);
      calc {
        AllPut(run, steps, k);
        AllTaken(run, steps, k - 1) + Contents(run[k - 1]) + Put(run[k - 1], steps[k - 1]);
        AllTaken(run, steps, k - 1) + (Contents(run[k - 1]) + Put(run[k - 1], steps[k - 1]));
        AllTaken(run, steps, k) + Contents(run[k]);
      }
    }
  }

  lemma EmptyAtFirst<V>(s: State<V>, perLine: nat, capacity: nat)
    requires perLine > 0 && Init(s, perLine, capacity) && Inv(s)
    ensures Contents(s) == []
  {
  }

  /** In every state of every run, no two threads are inside the same cell. */
  lemma ExclusiveAccess<V>(run: seq<State<V>>, steps: seq<Step<V>>, perLine: nat, capacity: nat, k: nat, t: nat, u: nat)
    requires IsRun(run, steps, perLine, capacity) && k < |run|
    requires t < |run[k].threads| && u < |run[k].threads| && t != u
    requires HoldsForWrite(run[k].threads[t]) || HoldsForRead(run[k].threads[t])
    requires HoldsForWrite(run[k].threads[u]) || HoldsForRead(run[k].threads[u])
    ensures Inv(run[k])
    ensures run[k].layout[run[k].threads[t].pos.pos] != run[k].layout[run[k].threads[u].pos.pos]
  {
    hide IsRun, CellOk, ThreadOk, CursorsOk, TicketsOk, ReturnsOk;
    RunKeepsInv(run, steps, perLine, capacity, k);
    assert ThreadOk(run[k], t) && ThreadOk(run[k], u);
    HoldersAreApart(run[k], t, u);
  }

  /** Each ticket is claimed by one writer and one reader, and read only after it was claimed for writing. */
  lemma TicketsAreClaimedOnce<V>(run: seq<State<V>>, steps: seq<Step<V>>, perLine: nat, capacity: nat, k: nat)
    requires IsRun(run, steps, perLine, capacity) && k < |steps|
    ensures steps[k].CasWrite? ==> run[k].write !in run[k].writer
    ensures steps[k].CasRead? ==> run[k].read !in run[k].reader && run[k].read in run[k].writer
  {
    RunKeepsInv(run, steps, perLine, capacity, k);
    assert Next(run[k], steps[k], run[k + 1]);
    assert ThreadOk(run[k], steps[k].tid);
    assert CellOk(run[k], run[k].read.pos);
  }

  /** Every pop returns the object its ticket was pushed with, into storage that held exactly that object. */
  lemma PopReturnsWhatWasPushed<V>(run: seq<State<V>>, steps: seq<Step<V>>, perLine: nat, capacity: nat, k: nat)
    requires IsRun(run, steps, perLine, capacity) && k < |run|
    ensures forall x :: x in run[k].returned ==> x in run[k].pushed && run[k].returned[x] == run[k].pushed[x]
    ensures forall x :: x in run[k].reader ==> (x in run[k].returned <==> !ReaderInside(run[k], x))
    ensures forall t :: 0 <= t < |run[k].threads| && run[k].threads[t].PopTake? ==>
              && WellFormed(run[k])
              && run[k].threads[t].pos in run[k].pushed
              && CellAt(run[k], run[k].threads[t].pos).data == Some(run[k].pushed[run[k].threads[t].pos])
  {
    RunKeepsInv(run, steps, perLine, capacity, k);
    forall t | 0 <= t < |run[k].threads| && run[k].threads[t].PopTake?
      ensures run[k].threads[t].pos in run[k].pushed
      ensures CellAt(run[k], run[k].threads[t].pos).data == Some(run[k].pushed[run[k].threads[t].pos])
    {
      assert ThreadOk(run[k], t);
    }
  }

  /** The failed test that sent thread t to its reload happened at step j of the run. */
  ghost predicate FailedTestAt<V>(run: seq<State<V>>, steps: seq<Step<V>>, t: nat, j: nat, k: nat)
    requires |run| == |steps| + 1
  {
    && j < k < |run|
    && (steps[j] == TestWritable(t) || steps[j] == TestReadable(t))
    && (forall i :: j < i < k ==> steps[i].tid != t)
    && (if steps[j].TestWritable? then Blocked(run[j]) else Starved(run[j]))
  }

  ghost predicate Refused<V>(s: State<V>, t: nat) {
    && t < |s.threads|
    && ((s.threads[t].PushReload? && s.threads[t].blocked) || (s.threads[t].PopReload? && s.threads[t].starved))
  }

  lemma RefusedBy<V>(s: State<V>, step: Step<V>, s': State<V>, t: nat)
    requires Next(s, step, s') && Refused(s', t)
    ensures t < |s.threads|
    ensures step.tid != t ==> s'.threads[t] == s.threads[t]
    ensures step.tid == t && s'.threads[t].PushReload? ==> step == TestWritable(t) && Blocked(s)
    ensures step.tid == t && s'.threads[t].PopReload? ==> step == TestReadable(t) && Starved(s)
  {
  }

  lemma {:induction false} FindFailedTest<V>(run: seq<State<V>>, steps: seq<Step<V>>, perLine: nat, capacity: nat,
                                             k: nat, t: nat) returns (j: nat)
    requires IsRun(run, steps, perLine, capacity) && k < |run| && Refused(run[k], t)
    ensures FailedTestAt(run, steps, t, j, k)
    ensures steps[j].TestWritable? <==> run[k].threads[t].PushReload?
  {
    assert k > 0;
    RefusedBy(run[k - 1], steps[k - 1], run[k], t);
    if steps[k - 1].tid == t {
      j := k - 1;
    } else {
      j := FindFailedTest(run, steps, perLine, capacity, k - 1, t);
    }
  }

  /** A call of thread t ends between state k and the next. */
  ghost predicate Returns<V>(run: seq<State<V>>, k: nat, t: nat) {
    && k + 1 < |run| && t < |run[k].threads| && t < |run[k + 1].threads|
    && run[k].threads[t] != Idle && run[k + 1].threads[t] == Idle
  }

  /**
    However a call ends: by the store that publishes or frees its cell, or refused. A push is refused only
    if, when it made its last test, the ring was full or the next cell still had a reader inside; a pop only
    if the ring was empty or the oldest cell still had a writer inside.
   */
  lemma RefusalsAreGenuine<V>(run: seq<State<V>>, steps: seq<Step<V>>, perLine: nat, capacity: nat, k: nat, t: nat)
    requires IsRun(run, steps, perLine, capacity) && k < |steps| && Returns(run, k, t)
    ensures steps[k].tid == t
    ensures
      || (IsPush(run[k].threads[t]) && steps[k].StoreCommitted?)
      || (!IsPush(run[k].threads[t]) && steps[k].StoreEmpty?)
      || exists j: nat :: FailedTestAt(run, steps, t, j, k) && steps[j].TestWritable? == IsPush(run[k].threads[t])
  {
    hide Inv, Init, Next, FailedTestAt;
    StepInRun(run, steps, perLine, capacity, k);
    SameThreads(run, steps, perLine, capacity, k);
    EndsByStoreOrReload(run[k], steps[k], run[k + 1], t);
    if Refused(run[k], t) {
      var j := FindFailedTest(run, steps, perLine, capacity, k, t);
    }
  }

  lemma StepInRun<V>(run: seq<State<V>>, steps: seq<Step<V>>, perLine: nat, capacity: nat, k: nat)
    requires IsRun(run, steps, perLine, capacity) && k < |steps|
    ensures Inv(run[k]) && Next(run[k], steps[k], run[k + 1])
  {
    hide Inv, Next;
    RunKeepsInv(run, steps, perLine, capacity, k);
  }

  predicate IsPush<V>(local: Local<V>) {
    local.PushTest? || local.PushReload? || local.PushCas? || local.PushConstruct? || local.PushStore?
  }

  lemma EndsByStoreOrReload<V>(s: State<V>, step: Step<V>, s': State<V>, t: nat)
    requires Inv(s) && Next(s, step, s')
    requires t < |s.threads| == |s'.threads| && s.threads[t] != Idle && s'.threads[t] == Idle
    ensures step.tid == t
    ensures Refused(s, t) <==> !Holds(s.threads[t])
    ensures Holds(s.threads[t]) ==> if IsPush(s.threads[t]) then step.StoreCommitted? else step.StoreEmpty?
    ensures Holds(s.threads[t]) && !IsPush(s.threads[t]) ==> s.threads[t].PopStore?
  {
    hide CellOk, TicketsOk, ReturnsOk, Blocked, Starved;
    assert ThreadOk(s, step.tid);
  }

  // ---------------------------------------------------------------------------------------
  // Calls: what each call does to the queue, and that it is never stuck

  /** Thread t claims a cell in this step. */
  ghost predicate Claims<V>(step: Step<V>, t: nat) {
    step == CasWrite(t) || step == CasRead(t)
  }

  /** Thread t has been in the call that began at step b ever since, up to state k. */
  ghost predicate InCall<V>(run: seq<State<V>>, steps: seq<Step<V>>, t: nat, b: nat, k: nat)
    requires |run| == |steps| + 1
  {
    && b < k < |run| && steps[b].tid == t && (steps[b].BeginPush? || steps[b].BeginPop?)
    && (forall i :: b < i <= k ==> t < |run[i].threads| && run[i].threads[t] != Idle)
  }

  /** The local variables belong to the call. */
  ghost predicate Serves<V>(call: Step<V>, local: Local<V>) {
    if call.BeginPush? then IsPush(local) && local.item == call.item
    else call.BeginPop? && !IsPush(local) && !local.Idle?
  }

  /** Of the steps of thread t after b and before k, exactly step m claims a cell. */
  ghost predicate OnlyClaim<V>(steps: seq<Step<V>>, t: nat, b: nat, m: nat, k: nat)
    requires k <= |steps|
  {
    b < m < k && Claims(steps[m], t) && forall i :: b < i < k && i != m ==> !Claims(steps[i], t)
  }

  ghost predicate NoClaim<V>(steps: seq<Step<V>>, t: nat, b: nat, k: nat)
    requires k <= |steps|
  {
    forall i :: b < i < k ==> !Claims(steps[i], t)
  }

  lemma OthersStay<V>(s: State<V>, step: Step<V>, s': State<V>, t: nat)
    requires Next(s, step, s') && t < |s.threads| && step.tid != t
    ensures |s'.threads| == |s.threads| && s'.threads[t] == s.threads[t] && !Claims(step, t)
  {
    hide IsPermutation, Blocked, Starved, IsWritable, IsReadable;
  }

  lemma CallBegins<V>(s: State<V>, step: Step<V>, s': State<V>)
    requires Next(s, step, s') && s.threads[step.tid] == Idle
    ensures step.BeginPush? || step.BeginPop?
    ensures |s'.threads| == |s.threads| && Serves(step, s'.threads[step.tid]) && !Holds(s'.threads[step.tid])
  {
    hide IsPermutation, Blocked, Starved, IsWritable, IsReadable;
  }

  lemma CallServes<V>(s: State<V>, step: Step<V>, s': State<V>, call: Step<V>)
    requires Next(s, step, s') && Serves(call, s.threads[step.tid])
    ensures |s'.threads| == |s.threads| && (s'.threads[step.tid] != Idle ==> Serves(call, s'.threads[step.tid]))
  {
    hide IsPermutation, Blocked, Starved, IsWritable, IsReadable;
  }

  lemma CallClaims<V>(s: State<V>, step: Step<V>, s': State<V>)
    requires Next(s, step, s') && s.threads[step.tid] != Idle
    ensures |s'.threads| == |s.threads|
    ensures s'.threads[step.tid] != Idle && (Holds(s.threads[step.tid]) || Claims(step, step.tid)) ==>
      Holds(s'.threads[step.tid]) && s'.threads[step.tid].pos == s.threads[step.tid].pos
    ensures Holds(s'.threads[step.tid]) ==> Holds(s.threads[step.tid]) || Claims(step, step.tid)
    ensures Claims(step, step.tid) ==>
      !Holds(s.threads[step.tid]) && step.CasWrite? == IsPush(s.threads[step.tid])
  {
    hide IsPermutation, Blocked, Starved, IsWritable, IsReadable;
  }

  /** What one step does to the call of its thread, and of the others. */
  lemma CallGoesOn<V>(s: State<V>, step: Step<V>, s': State<V>, t: nat, call: Step<V>)
    requires Next(s, step, s') && t < |s.threads| == |s'.threads| && s'.threads[t] != Idle
    ensures step.tid != t ==> s'.threads[t] == s.threads[t] && !Claims(step, t)
    ensures s.threads[t] == Idle ==>
      && (step.BeginPush? || step.BeginPop?) && step.tid == t
      && Serves(step, s'.threads[t]) && !Holds(s'.threads[t])
    ensures s.threads[t] != Idle && Serves(call, s.threads[t]) ==> Serves(call, s'.threads[t])
    ensures Holds(s.threads[t]) ==> Holds(s'.threads[t]) && s'.threads[t].pos == s.threads[t].pos && !Claims(step, t)
    ensures s.threads[t] != Idle && !Holds(s.threads[t]) ==>
      && (Holds(s'.threads[t]) <==> Claims(step, t))
      && (Claims(step, t) ==> s'.threads[t].pos == s.threads[t].pos && step.CasWrite? == IsPush(s.threads[t]))
  {
    hide Next, Serves, IsPush;
    TidInRange(s, step, s');
    if step.tid != t {
      OthersStay(s, step, s', t);
    } else if s.threads[t] == Idle {
      CallBegins(s, step, s');
    } else {
      CallClaims(s, step, s');
      if Serves(call, s.threads[t]) { CallServes(s, step, s', call); }
    }
  }

  lemma TidInRange<V>(s: State<V>, step: Step<V>, s': State<V>)
    requires Next(s, step, s')
    ensures step.tid < |s.threads|
  {
  }

  lemma SameThreads<V>(run: seq<State<V>>, steps: seq<Step<V>>, perLine: nat, capacity: nat, k: nat)
    requires IsRun(run, steps, perLine, capacity) && k < |steps|
    ensures |run[k + 1].threads| == |run[k].threads|
  {
    assert Next(run[k], steps[k], run[k + 1]);
  }

  /** Every busy thread is in a call, and is inside a cell exactly if the call has claimed one. */
  lemma {:induction false} CallOf<V>(run: seq<State<V>>, steps: seq<Step<V>>, perLine: nat, capacity: nat,
                                     k: nat, t: nat) returns (b: nat, m: nat)
    requires IsRun(run, steps, perLine, capacity) && k < |run|
    requires t < |run[k].threads| && run[k].threads[t] != Idle
    ensures InCall(run, steps, t, b, k) && Serves(steps[b], run[k].threads[t])
    ensures !Holds(run[k].threads[t]) ==> NoClaim(steps, t, b, k)
    ensures Holds(run[k].threads[t]) ==>
      && OnlyClaim(steps, t, b, m, k) && t < |run[m].threads| == |run[m + 1].threads|
      && Serves(steps[b], run[m].threads[t]) && steps[m].CasWrite? == steps[b].BeginPush?
      && run[m + 1].threads[t] != Idle && run[m + 1].threads[t].pos == run[k].threads[t].pos
  {
    hide Next, Serves, Holds, Claims, IsPush;
    BusyIsLater(run, steps, perLine, capacity, k, t);
    var last := k - 1;
    assert Next(run[last], steps[last], run[last + 1]);
    SameThreads(run, steps, perLine, capacity, last);
    if run[last].threads[t] == Idle {
      b, m := last, last;
      CallGoesOn(run[last], steps[last], run[k], t, steps[last]);
    } else {
      b, m := CallOf(run, steps, perLine, capacity, last, t);
      CallGoesOn(run[last], steps[last], run[k], t, steps[b]);
      if !Holds(run[last].threads[t]) && Claims(steps[last], t) {
        m := last;
        ServesKind(steps[b], run[last].threads[t]);
      }
    }
  }

  lemma ServesKind<V>(call: Step<V>, local: Local<V>)
    requires Serves(call, local)
    ensures IsPush(local) <==> call.BeginPush?
  {
  }

  lemma BusyIsLater<V>(run: seq<State<V>>, steps: seq<Step<V>>, perLine: nat, capacity: nat, k: nat, t: nat)
    requires IsRun(run, steps, perLine, capacity) && k < |run|
    requires t < |run[k].threads| && run[k].threads[t] != Idle
    ensures k > 0
  {
  }

  /** The ticket of an object keeps it. */
  lemma {:induction false} PushedStays<V>(run: seq<State<V>>, steps: seq<Step<V>>, perLine: nat, capacity: nat,
                                          i: nat, j: nat, x: VersionedIndex)
    requires IsRun(run, steps, perLine, capacity) && i <= j < |run| && x in run[i].pushed
    ensures x in run[j].pushed && run[j].pushed[x] == run[i].pushed[x]
    decreases j - i
  {
    hide Inv, Init, Next;
    if i < j {
      PushedStays(run, steps, perLine, capacity, i, j - 1, x);
      StepInRun(run, steps, perLine, capacity, j - 1);
      StepKeepsPushed(run[j - 1], steps[j - 1], run[j], x);
    }
  }

  lemma StepKeepsPushed<V>(s: State<V>, step: Step<V>, s': State<V>, x: VersionedIndex)
    requires Inv(s) && Next(s, step, s') && x in s.pushed
    ensures x in s'.pushed && s'.pushed[x] == s.pushed[x]
  {
    hide CellOk, ThreadOk, ReturnsOk, IsPermutation;
  }

  /** A push has put its own object, or a pop has taken the object it returns, in exactly one of its steps. */
  ghost predicate Completes<V>(run: seq<State<V>>, steps: seq<Step<V>>, t: nat, b: nat, m: nat, k: nat)
    requires k < |steps| < |run| && t < |run[k].threads|
  {
    && b < m < k && OnlyClaim(steps, t, b, m, k)
    && if steps[b].BeginPush? then
         steps[k] == StoreCommitted(t) && Put(run[m], steps[m]) == [steps[b].item]
       else
         && steps[k] == StoreEmpty(t) && run[k].threads[t].PopStore?
         && Taken(run[m], steps[m]) == [run[k].threads[t].item]
  }

  /** The call claimed nothing, and its last test failed for a good reason. */
  ghost predicate IsRefused<V>(run: seq<State<V>>, steps: seq<Step<V>>, t: nat, b: nat, j: nat, k: nat)
    requires k < |steps| < |run| == |steps| + 1
  {
    && b < j < k && NoClaim(steps, t, b, k)
    && FailedTestAt(run, steps, t, j, k) && steps[j].TestWritable? == steps[b].BeginPush?
  }

  /**
    Every call that returns, in every run, has either done its operation on the abstract queue once, with
    its own object, or changed nothing and been refused with good reason.
   */
  lemma CallsCompleteOnceOrAreRefused<V>(run: seq<State<V>>, steps: seq<Step<V>>, perLine: nat, capacity: nat,
                                         k: nat, t: nat) returns (b: nat, m: nat)
    requires IsRun(run, steps, perLine, capacity) && k < |steps| && Returns(run, k, t)
    ensures InCall(run, steps, t, b, k)
    ensures Completes(run, steps, t, b, m, k) || IsRefused(run, steps, t, b, m, k)
  {
    hide Inv, Init, Next, Put, Taken, Blocked, Starved;
    b, m := CallOf(run, steps, perLine, capacity, k, t);
    StepInRun(run, steps, perLine, capacity, k);
    SameThreads(run, steps, perLine, capacity, k);
    EndsByStoreOrReload(run[k], steps[k], run[k + 1], t);
    if Holds(run[k].threads[t]) {
      StepInRun(run, steps, perLine, capacity, m);
      StepClaims(run[m], steps[m], run[m + 1]);
      if steps[m].CasRead? {
        PushedStays(run, steps, perLine, capacity, m + 1, k, run[k].threads[t].pos);
        PoppedIsPushed(run[k], t);
      }
    } else {
      m := FindFailedTest(run, steps, perLine, capacity, k, t);
    }
  }

  lemma PoppedIsPushed<V>(s: State<V>, t: nat)
    requires Inv(s) && t < |s.threads| && s.threads[t].PopStore?
    ensures s.threads[t].pos in s.pushed && s.threads[t].item == s.pushed[s.threads[t].pos]
  {
    hide CellOk, TicketsOk, ReturnsOk, CursorsOk;
    assert ThreadOk(s, t);
  }

  ghost predicate CanTake<V(!new)>(s: State<V>, step: Step<V>) {
    exists s' :: Next(s, step, s')
  }

  /** The next step of a busy thread; an exchange succeeds where the cursor is still the one loaded. */
  ghost function Due<V>(s: State<V>, t: nat): Step<V>
    requires t < |s.threads| && s.threads[t] != Idle
  {
    match s.threads[t]
    case PushTest(_, _) => TestWritable(t)
    case PushReload(_, _, _) => ReloadWrite(t)
    case PushCas(pos, _) => if pos == s.write then CasWrite(t) else CasWriteFails(t)
    case PushConstruct(_, _) => Construct(t)
    case PushStore(_, _) => StoreCommitted(t)
    case PopTest(_) => TestReadable(t)
    case PopReload(_, _) => ReloadRead(t)
    case PopCas(pos) => if pos == s.read then CasRead(t) else CasReadFails(t)
    case PopTake(_) => Take(t)
    case PopDestroy(_, _) => Destroy(t)
    case PopStore(_, _) => StoreEmpty(t)
  }

  /** No thread ever waits for another: in every state of every run its next step can be taken. */
  lemma NoThreadIsStuck<V(!new)>(run: seq<State<V>>, steps: seq<Step<V>>, perLine: nat, capacity: nat,
                                 k: nat, t: nat, item: V)
    requires IsRun(run, steps, perLine, capacity) && k < |run| && t < |run[k].threads|
    ensures run[k].threads[t] == Idle ==> CanTake(run[k], BeginPush(t, item)) && CanTake(run[k], BeginPop(t))
    ensures run[k].threads[t] != Idle ==> CanTake(run[k], Due(run[k], t))
  {
    hide IsRun;
    RunKeepsInv(run, steps, perLine, capacity, k);
    if run[k].threads[t] == Idle {
      IdleCanBegin(run[k], t, item);
    } else {
      DueCanBeTaken(run[k], t);
    }
  }

  lemma IdleCanBegin<V(!new)>(s: State<V>, t: nat, item: V)
    requires WellFormed(s) && t < |s.threads| && s.threads[t] == Idle
    ensures CanTake(s, BeginPush(t, item)) && CanTake(s, BeginPop(t))
  {
    assert Next(s, BeginPush(t, item), Goto(s, t, PushTest(s.write, item)));
    assert Next(s, BeginPop(t), Goto(s, t, PopTest(s.read)));
  }

  lemma DueCanBeTaken<V(!new)>(s: State<V>, t: nat)
    requires Inv(s) && t < |s.threads| && s.threads[t] != Idle
    ensures CanTake(s, Due(s, t))
  {
    hide CellOk, CursorsOk, TicketsOk, ReturnsOk, IsPermutation;
    assert ThreadOk(s, t);
    var me := s.threads[t];
    var s' := match me
      case PushTest(pos, item) =>
        Goto(s, t, if IsWritable(s, pos) then PushCas(pos, item)
                   else PushReload(pos, item, pos == s.write && Blocked(s)))
      case PushReload(pos, item, _) => Goto(s, t, if pos == s.write then Idle else PushTest(s.write, item))
      case PushCas(pos, item) => if pos == s.write then DoCasWrite(s, t) else Goto(s, t, PushTest(s.write, item))
      case PushConstruct(pos, item) => DoInside(s, t, Some(item), PushStore(pos, item))
      case PushStore(_, _) => DoStoreCommitted(s, t)
      case PopTest(pos) =>
        Goto(s, t, if IsReadable(s, pos) then PopCas(pos) else PopReload(pos, pos == s.read && Starved(s)))
      case PopReload(pos, _) => Goto(s, t, if pos == s.read then Idle else PopTest(s.read))
      case PopCas(pos) => if pos == s.read then DoCasRead(s, t) else Goto(s, t, PopTest(s.read))
      case PopTake(pos) => DoInside(s, t, CellAt(s, pos).data, PopDestroy(pos, CellAt(s, pos).data.value))
      case PopDestroy(pos, item) => DoInside(s, t, None, PopStore(pos, item))
      case PopStore(_, _) => DoStoreEmpty(s, t);
    assert Next(s, Due(s, t), s');
  }
}
