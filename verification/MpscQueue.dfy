/**
  The multi-producer single-consumer queue of variable-size memory blocks: a ring from which
  producers reserve space by compare-and-swap on one (write, size) word, and whose single consumer
  finds the next block by the state word at the read cursor. Space that is not reserved is all
  zero, so that a state word is zero before its block is announced.

  Offsets and sizes are counted in 8-byte words. An entry is `front` guard words, a header word
  (state and payload size), the payload, and `tail` guard words; release builds have no guards.
  One step of the machine is one access to shared memory, atomics are sequentially consistent, and
  any number of producers interleave with the consumer.
 */
module MpscQueue {
  import opened Arithmetic

  // ---------------------------------------------------------------------------------------
  // Rounding of requested sizes

  /** allocate() rounds a byte count up to whole words, in 32-bit arithmetic. */
  function AlignUp(size: bv32): bv32 {
    if size & 7 != 0 then (size + 8) & !7 else size
  }

  /** The rounded size is the next multiple of eight, exactly for the sizes where that fits 32 bits. */
  lemma AlignUpIsNextMultiple(size: bv32)
    ensures AlignUp(size) & 7 == 0
    ensures size <= 0xFFFF_FFF8 <==> AlignUp(size) >= size
    ensures size <= 0xFFFF_FFF8 ==> AlignUp(size) - size < 8
    ensures size > 0xFFFF_FFF8 ==> AlignUp(size) == 0
  {
  }

  // ---------------------------------------------------------------------------------------
  // Memory, producers, consumer and steps

  /** Eight bytes; in a header `lo` is the entry state and `hi` the payload size. */
  datatype Word = Word(lo: nat, hi: nat)

  const ZERO := Word(0, 0)
  const ALLOCATED: nat := 1
  const COMMITTED: nat := 2
  const PADDING: nat := 3

  datatype Cursor = Cursor(write: nat, size: nat)

  /** `n` is the payload requested, `seen` the local copy of the cursor word. */
  datatype Producer =
    | Absent
    | Trying(n: nat, seen: Cursor)
    | SetSize(n: nat, seen: Cursor, at: nat, len: nat, id: nat, pad: bool)
    | SetState(n: nat, seen: Cursor, at: nat, len: nat, id: nat, pad: bool)
    | Filling(at: nat, len: nat, id: nat)

  datatype Consumer =
    | AtRest
    | HasFront
    | Clearing(len: nat)
    | Releasing(len: nat)

  /** History of a reservation: still with a producer, or committed with this payload, or padding. */
  datatype Progress = Busy(tid: nat) | Ready(payload: seq<Word>) | ReadyPad
  datatype Entry = Entry(start: nat, len: nat, progress: Progress)

  /**
    The ring and its users. The last five fields are history variables: the reserved entries in
    order from the read cursor, how many entries were popped, the numbers of the blocks in order of
    allocation, what each was committed with, and what the consumer received.
   */
  datatype State = State(
    front: nat,
    tail: nat,
    mem: seq<Word>,
    cursor: Cursor,
    read: nat,
    producers: seq<Producer>,
    consumer: Consumer,
    entries: seq<Entry>,
    popped: nat,
    order: seq<nat>,
    committed: map<nat, seq<Word>>,
    received: seq<seq<Word>>)

  datatype Step =
    | Begin(tid: nat, n: nat)
    | Refuse(tid: nat)
    | Reserve(tid: nat)
    | ReservePadding(tid: nat)
    | CasFails(tid: nat)
    | WriteSize(tid: nat)
    | StoreState(tid: nat)
    | WriteWord(tid: nat, at: nat, word: Word)
    | Commit(tid: nat)
    | LoadFront
    | BeginPop
    | ZeroWord(at: nat)
    | FinishClear
    | Release

  function Overhead(s: State): nat { s.front + 1 + s.tail }
  function Capacity(s: State): nat { |s.mem| }

  predicate IsPaddingNeeded(s: State, cursor: Cursor, entrySize: nat)
    requires cursor.write <= Capacity(s)
  {
    var spaceLeft := Capacity(s) - cursor.write;
    !(spaceLeft >= entrySize + Overhead(s) || spaceLeft == entrySize)
  }

  ghost predicate Init(s: State) {
    && Capacity(s) >= Overhead(s)
    && (forall i :: 0 <= i < |s.mem| ==> s.mem[i] == ZERO)
    && s.cursor == Cursor(0, 0) && s.read == 0
    && (forall t :: 0 <= t < |s.producers| ==> s.producers[t] == Absent)
    && s.consumer == AtRest
    && s.entries == [] && s.popped == 0 && s.order == [] && s.committed == map[] && s.received == []
  }

  function Goto(s: State, t: nat, p: Producer): State
    requires t < |s.producers|
  {
    s.(producers := s.producers[t := p])
  }

  /** Where the payload of an entry lies. */
  function PayloadAt(s: State, start: nat): nat { start + s.front + 1 }

  predicate OwnWord(s: State, p: Producer, i: nat) {
    && (p.SetState? || p.Filling?)
    && p.at <= i < p.at + p.len
    && i != p.at + s.front
  }

  ghost function DoReserve(s: State, t: nat, len: nat, pad: bool): State
    requires t < |s.producers| && s.producers[t].Trying? && Capacity(s) > 0
  {
    var me := s.producers[t];
    var id := s.popped + |s.entries|;
    var next := if pad then Cursor(0, me.seen.size + len)
                else Cursor((me.seen.write + len) % Capacity(s), me.seen.size + len);
    Goto(s, t, SetSize(me.n, next, me.seen.write, len, id, pad)).(
    cursor := next,
    entries := s.entries + [Entry(me.seen.write, len, Busy(t))],
    order := if pad then s.order else s.order + [id])
  }

  ghost predicate NextProducer(s: State, step: Step, s': State)
    requires step.Begin? || step.Refuse? || step.Reserve? || step.ReservePadding? || step.CasFails?
          || step.WriteSize? || step.StoreState? || step.WriteWord? || step.Commit?
  {
    && step.tid < |s.producers|
    && var t, me := step.tid, s.producers[step.tid];
    match step {
      case Begin(_, n) =>
        me.Absent? && s' == Goto(s, t, Trying(n, s.cursor))
      case Refuse(_) =>
        me.Trying? && me.n + Overhead(s) + me.seen.size > Capacity(s) && s' == Goto(s, t, Absent)
      case Reserve(_) =>
        && me.Trying? && me.seen == s.cursor && me.seen.write <= Capacity(s)
        && me.n + Overhead(s) + me.seen.size <= Capacity(s)
        && !IsPaddingNeeded(s, me.seen, me.n + Overhead(s))
        && s' == DoReserve(s, t, me.n + Overhead(s), false)
      case ReservePadding(_) =>
        && me.Trying? && me.seen == s.cursor && me.seen.write <= Capacity(s)
        && me.n + Overhead(s) + me.seen.size <= Capacity(s)
        && IsPaddingNeeded(s, me.seen, me.n + Overhead(s))
        && s' == DoReserve(s, t, Capacity(s) - me.seen.write, true)
      case CasFails(_) =>
        me.Trying? && s' == Goto(s, t, Trying(me.n, s.cursor))
      case WriteSize(_) =>
        && me.SetSize? && me.at + s.front < |s.mem| && me.len >= Overhead(s)
        && s' == Goto(s, t, SetState(me.n, me.seen, me.at, me.len, me.id, me.pad)).(
                 mem := s.mem[me.at + s.front := Word(s.mem[me.at + s.front].lo, me.len - Overhead(s))])
      case StoreState(_) =>
        && me.SetState? && me.at + s.front < |s.mem| && s.popped <= me.id < s.popped + |s.entries|
        && s' == Goto(s, t, if me.pad then Trying(me.n, me.seen) else Filling(me.at, me.len, me.id)).(
                 mem := s.mem[me.at + s.front := Word(if me.pad then PADDING else ALLOCATED, s.mem[me.at + s.front].hi)],
                 entries := if me.pad
                            then s.entries[me.id - s.popped := s.entries[me.id - s.popped].(progress := ReadyPad)]
                            else s.entries)
      case WriteWord(_, at, word) =>
        OwnWord(s, me, at) && at < |s.mem| && s' == s.(mem := s.mem[at := word])
      case Commit(_) =>
        && me.Filling? && me.at + me.len <= |s.mem| && me.len >= Overhead(s)
        && s.popped <= me.id < s.popped + |s.entries|
        && var payload := s.mem[PayloadAt(s, me.at)..me.at + me.len - s.tail];
           s' == Goto(s, t, Absent).(
                 mem := s.mem[me.at + s.front := Word(COMMITTED, s.mem[me.at + s.front].hi)],
                 entries := s.entries[me.id - s.popped := s.entries[me.id - s.popped].(progress := Ready(payload))],
                 committed := s.committed[me.id := payload])
    }
  }

  ghost predicate NextConsumer(s: State, step: Step, s': State)
    requires step.LoadFront? || step.BeginPop? || step.ZeroWord? || step.FinishClear? || step.Release?
  {
    && s.read + s.front < |s.mem|
    && var header := s.mem[s.read + s.front];
    match step {
      case LoadFront =>
        s.consumer.AtRest? && s' == s.(consumer := if header.lo <= ALLOCATED then AtRest else HasFront)
      case BeginPop =>
        && s.consumer.HasFront?
        && PayloadAt(s, s.read) + header.hi <= |s.mem|
        && s' == s.(consumer := Clearing(header.hi + Overhead(s)),
                    received := if header.lo == PADDING then s.received
                                else s.received + [s.mem[PayloadAt(s, s.read)..PayloadAt(s, s.read) + header.hi]])
      case ZeroWord(at) =>
        && s.consumer.Clearing? && s.read <= at < s.read + s.consumer.len && at < |s.mem|
        && s' == s.(mem := s.mem[at := ZERO])
      case FinishClear =>
        && s.consumer.Clearing? && s.read + s.consumer.len <= |s.mem| && s.entries != []
        && (forall i :: s.read <= i < s.read + s.consumer.len ==> s.mem[i] == ZERO)
        && s' == s.(consumer := Releasing(s.consumer.len),
                    read := (s.read + s.consumer.len) % Capacity(s),
                    entries := s.entries[1..], popped := s.popped + 1)
      case Release =>
        && s.consumer.Releasing? && s.cursor.size >= s.consumer.len
        && s' == s.(consumer := AtRest, cursor := s.cursor.(size := s.cursor.size - s.consumer.len))
    }
  }

  ghost predicate Next(s: State, step: Step, s': State) {
    if step.LoadFront? || step.BeginPop? || step.ZeroWord? || step.FinishClear? || step.Release?
    then NextConsumer(s, step, s') else NextProducer(s, step, s')
  }

  // ---------------------------------------------------------------------------------------
  // Geometry of the ring

  function Wrap(x: nat, cap: nat): int {
    if x >= cap then x - cap else x
  }

  lemma WrapIsModulo(x: nat, cap: nat)
    requires x <= cap && cap > 0
    ensures x % cap == Wrap(x, cap)
  {
    if x == cap { DivModUnique(x, cap, 1, 0); } else { DivModUnique(x, cap, 0, x); }
  }

  /** Word i belongs to the reserved stretch of `live` words from `read`, which may wrap once. */
  predicate Covers(cap: nat, read: nat, live: nat, i: nat) {
    read <= i < read + live || i < read + live - cap
  }

  /** The interval lies in that stretch without crossing the end of the ring. */
  predicate Inside(cap: nat, read: nat, live: nat, start: nat, len: nat) {
    && start + len <= cap
    && ((read <= start && start + len <= read + live) || start + len <= read + live - cap)
  }

  predicate Apart(a: Entry, b: Entry) {
    a.start + a.len <= b.start || b.start + b.len <= a.start
  }

  /** Free space at the write cursor, up to the end of the ring, is disjoint from everything reserved. */
  lemma FreeSpaceIsFree(cap: nat, read: nat, live: nat, write: nat, len: nat, e: Entry)
    requires read < cap && live <= cap && write == Wrap(read + live, cap)
    requires len > 0 && live + len <= cap && write + len <= cap
    requires e.len > 0 && Inside(cap, read, live, e.start, e.len)
    ensures Apart(e, Entry(write, len, e.progress))
    ensures Inside(cap, read, live + len, e.start, e.len)
  {
  }

  lemma GrowCovers(cap: nat, read: nat, live: nat, write: nat, len: nat, i: nat)
    requires read < cap && live <= cap && write == Wrap(read + live, cap) && i < cap
    requires len > 0 && live + len <= cap && write + len <= cap
    ensures Covers(cap, read, live + len, i) <==> Covers(cap, read, live, i) || write <= i < write + len
    ensures write <= i < write + len ==> !Covers(cap, read, live, i)
  {
  }

  lemma ShrinkCovers(cap: nat, read: nat, live: nat, len: nat, i: nat)
    requires read < cap && live <= cap && read + len <= cap && 0 < len <= live && i < cap
    ensures Covers(cap, Wrap(read + len, cap), live - len, i) ==> Covers(cap, read, live, i)
    ensures Covers(cap, read, live, i) ==>
              Covers(cap, Wrap(read + len, cap), live - len, i) || read <= i < read + len
  {
  }

  lemma ShrinkInside(cap: nat, read: nat, live: nat, len: nat, first: Entry, e: Entry)
    requires read < cap && live <= cap && read + len <= cap && 0 < len <= live
    requires first.start == read && first.len == len && Apart(first, e)
    requires e.len > 0 && Inside(cap, read, live, e.start, e.len)
    ensures Inside(cap, Wrap(read + len, cap), live - len, e.start, e.len)
  {
  }

  // ---------------------------------------------------------------------------------------
  // The invariant

  ghost function Live(entries: seq<Entry>): nat {
    if entries == [] then 0 else Live(entries[..|entries| - 1]) + entries[|entries| - 1].len
  }

  /** Words the consumer has cleared and not yet given back. */
  function Unreleased(s: State): nat {
    if s.consumer.Releasing? then s.consumer.len else 0
  }

  /** What is reserved fits, ends at the write cursor, and leaves room for a padding header before the end. */
  ghost predicate CursorOk(s: State) {
    var cap, live := Capacity(s), Live(s.entries);
    && Overhead(s) <= cap
    && s.read < cap
    && s.cursor.write + Overhead(s) <= cap
    && s.cursor.size == live + Unreleased(s) <= cap
    && s.cursor.write == Wrap(s.read + live, cap)
    && (s.consumer.Releasing? ==>
          s.consumer.len >= Overhead(s) && (s.consumer.len <= s.read || s.read == 0))
  }

  ghost function StartOf(s: State, k: nat): nat {
    if k < |s.entries| then s.entries[k].start else s.cursor.write
  }

  /** Entry k lies inside the ring and the next entry, or the write cursor, follows it. */
  ghost predicate Tiles(s: State, k: nat)
    requires k < |s.entries|
  {
    var e := s.entries[k];
    && Overhead(s) <= e.len
    && Inside(Capacity(s), s.read, Live(s.entries), e.start, e.len)
    && StartOf(s, k + 1) == Wrap(e.start + e.len, Capacity(s))
  }

  ghost predicate TilingOk(s: State) {
    && StartOf(s, 0) == s.read
    && (forall k :: 0 <= k < |s.entries| ==> Tiles(s, k))
    && (forall j, k :: 0 <= j < k < |s.entries| ==> Apart(s.entries[j], s.entries[k]))
  }

  ghost predicate FreeIsZero(s: State) {
    forall i :: 0 <= i < |s.mem| && !Covers(Capacity(s), s.read, Live(s.entries), i) ==> s.mem[i] == ZERO
  }

  /** Producer t works on the entry with number `id`. */
  ghost predicate Owns(s: State, t: nat, p: Producer) {
    && (p.SetSize? || p.SetState? || p.Filling?)
    && s.popped <= p.id < s.popped + |s.entries|
    && s.entries[p.id - s.popped] == Entry(p.at, p.len, Busy(t))
    && p.at + p.len <= |s.mem| && p.len >= Overhead(s)
  }

  ghost predicate ProducerOk(s: State, t: nat)
    requires t < |s.producers|
  {
    match s.producers[t]
    case Absent => true
    case Trying(_, seen) => seen.write < Capacity(s)
    case SetSize(_, seen, at, len, id, pad) =>
      && Owns(s, t, s.producers[t]) && seen.write < Capacity(s)
      && (pad <==> id !in s.order)
      && (forall i :: at <= i < at + len ==> s.mem[i] == ZERO)
    case SetState(_, seen, at, len, id, pad) =>
      && Owns(s, t, s.producers[t]) && seen.write < Capacity(s)
      && (pad <==> id !in s.order)
      && s.mem[at + s.front] == Word(0, len - Overhead(s))
    case Filling(at, len, id) =>
      && Owns(s, t, s.producers[t])
      && id in s.order
      && s.mem[at + s.front] == Word(ALLOCATED, len - Overhead(s))
  }

  ghost predicate EntryOk(s: State, k: nat)
    requires k < |s.entries|
  {
    var e := s.entries[k];
    && e.start + e.len <= |s.mem| && Overhead(s) <= e.len
    && match e.progress
       case Busy(t) =>
         t < |s.producers| && Owns(s, t, s.producers[t]) && s.producers[t].id == s.popped + k
       case Ready(payload) =>
         && s.popped + k in s.order
         && s.popped + k in s.committed && s.committed[s.popped + k] == payload
         && ((k == 0 && s.consumer.Clearing?) ||
             (&& s.mem[e.start + s.front] == Word(COMMITTED, e.len - Overhead(s))
              && s.mem[PayloadAt(s, e.start)..e.start + e.len - s.tail] == payload))
       case ReadyPad =>
         && s.popped + k !in s.order
         && ((k == 0 && s.consumer.Clearing?) ||
             s.mem[e.start + s.front] == Word(PADDING, e.len - Overhead(s)))
  }

  ghost predicate ConsumerOk(s: State) {
    match s.consumer
    case AtRest => true
    case HasFront => s.entries != [] && !s.entries[0].progress.Busy?
    case Clearing(len) => s.entries != [] && !s.entries[0].progress.Busy? && s.entries[0].len == len
    case Releasing(_) => true
  }

  /** Numbers below this have been handed to the consumer. */
  function Taken(s: State): nat {
    s.popped + if s.consumer.Clearing? then 1 else 0
  }

  ghost predicate HistoryOk(s: State) {
    && (forall j :: 0 <= j < |s.order| ==> s.order[j] < s.popped + |s.entries|)
    && (forall i, j :: 0 <= i < j < |s.order| ==> s.order[i] < s.order[j])
    && |s.received| <= |s.order|
    && (forall j :: 0 <= j < |s.order| ==> (j < |s.received| <==> s.order[j] < Taken(s)))
    && (forall j :: 0 <= j < |s.received| ==>
          s.order[j] in s.committed && s.received[j] == s.committed[s.order[j]])
  }

  ghost predicate Inv(s: State) {
    && CursorOk(s) && TilingOk(s) && FreeIsZero(s)
    && (forall t :: 0 <= t < |s.producers| ==> ProducerOk(s, t))
    && (forall k :: 0 <= k < |s.entries| ==> EntryOk(s, k))
    && ConsumerOk(s)
    && HistoryOk(s)
  }

  lemma InitEstablishesInv(s: State)
    requires Init(s)
    ensures Inv(s)
  {
  }

  lemma LiveAppend(entries: seq<Entry>, e: Entry)
    ensures Live(entries + [e]) == Live(entries) + e.len
  {
    assert (entries + [e])[..|entries|] == entries;
  }

  lemma {:induction false} LiveTail(entries: seq<Entry>)
    requires entries != []
    ensures Live(entries) == entries[0].len + Live(entries[1..])
  {
    var n := |entries| - 1;
    if n > 0 {
      LiveTail(entries[..n]);
      assert entries[..n][1..] == entries[1..][..n - 1];
    } else {
      assert entries[..0] == [] && entries[1..] == [];
    }
  }

  lemma {:induction false} LiveProgress(entries: seq<Entry>, k: nat, p: Progress)
    requires k < |entries|
    ensures Live(entries[k := entries[k].(progress := p)]) == Live(entries)
  {
    var n := |entries| - 1;
    var entries' := entries[k := entries[k].(progress := p)];
    if k < n {
      LiveProgress(entries[..n], k, p);
      assert entries'[..n] == entries[..n][k := entries[..n][k].(progress := p)];
    } else {
      assert entries'[..n] == entries[..n];
    }
  }

  // ---------------------------------------------------------------------------------------
  // Reservation keeps the invariant

  /** When padding is due, the space up to the end of the ring is free: the padding overruns nothing. */
  lemma PaddingFits(s: State, n: nat)
    requires CursorOk(s) && TilingOk(s)
    requires n + Overhead(s) + s.cursor.size <= Capacity(s)
    requires IsPaddingNeeded(s, s.cursor, n + Overhead(s))
    ensures s.cursor.size + (Capacity(s) - s.cursor.write) <= Capacity(s)
  {
    if s.entries != [] && !s.consumer.Releasing? {
      assert Tiles(s, 0);
    }
  }

  lemma {:induction false} LiveAtLeast(entries: seq<Entry>, k: nat)
    requires k < |entries|
    ensures Live(entries) >= entries[k].len
  {
    var n := |entries| - 1;
    if k < n { LiveAtLeast(entries[..n], k); }
  }

  /** Space for an entry of `len` words at the write cursor, leaving no gap too small for padding. */
  ghost predicate CanReserve(s: State, t: nat, len: nat, pad: bool) {
    var cap, write := Capacity(s), s.cursor.write;
    && CursorOk(s)
    && t < |s.producers| && s.producers[t].Trying? && s.producers[t].seen == s.cursor
    && Overhead(s) <= len
    && s.cursor.size + len <= cap
    && (write + len == cap || write + len + Overhead(s) <= cap)
    && (pad ==> write + len == cap)
  }

  lemma ReserveGeometry(s: State, t: nat, len: nat, pad: bool)
    requires CanReserve(s, t, len, pad)
    ensures var s' := DoReserve(s, t, len, pad);
            && CursorOk(s')
            && s'.cursor.write == Wrap(s.cursor.write + len, Capacity(s))
            && Live(s'.entries) == Live(s.entries) + len
  {
    LiveAppend(s.entries, Entry(s.cursor.write, len, Busy(t)));
    WrapIsModulo(s.cursor.write + len, Capacity(s));
  }

  lemma ReserveTiles(s: State, t: nat, len: nat, pad: bool, k: nat)
    requires CanReserve(s, t, len, pad) && k <= |s.entries|
    requires k < |s.entries| ==> Tiles(s, k)
    ensures Tiles(DoReserve(s, t, len, pad), k)
    ensures k < |s.entries| ==> Apart(s.entries[k], Entry(s.cursor.write, len, Busy(t)))
  {
    ReserveGeometry(s, t, len, pad);
    var s' := DoReserve(s, t, len, pad);
    if k < |s.entries| {
      assert s'.entries[k] == s.entries[k];
      FreeSpaceIsFree(Capacity(s), s.read, Live(s.entries), s.cursor.write, len, s.entries[k]);
      assert StartOf(s', k + 1) == StartOf(s, k + 1);
    }
  }

  lemma ReserveKeepsTiling(s: State, t: nat, len: nat, pad: bool)
    requires CanReserve(s, t, len, pad) && TilingOk(s)
    ensures TilingOk(DoReserve(s, t, len, pad))
  {
    var s' := DoReserve(s, t, len, pad);
    forall k | 0 <= k < |s'.entries| ensures Tiles(s', k) { ReserveTiles(s, t, len, pad, k); }
    forall j, k | 0 <= j < k < |s'.entries| ensures Apart(s'.entries[j], s'.entries[k]) {
      ReserveTiles(s, t, len, pad, j);
    }
  }

  lemma ReserveKeepsZero(s: State, t: nat, len: nat, pad: bool)
    requires CanReserve(s, t, len, pad) && FreeIsZero(s)
    ensures FreeIsZero(DoReserve(s, t, len, pad))
    ensures forall i :: s.cursor.write <= i < s.cursor.write + len ==> s.mem[i] == ZERO
  {
    var s' := DoReserve(s, t, len, pad);
    ReserveGeometry(s, t, len, pad);
    forall i | 0 <= i < |s.mem|
      ensures !Covers(Capacity(s), s.read, Live(s'.entries), i) ==> s.mem[i] == ZERO
      ensures s.cursor.write <= i < s.cursor.write + len ==> s.mem[i] == ZERO
    {
      GrowCovers(Capacity(s), s.read, Live(s.entries), s.cursor.write, len, i);
    }
  }

  lemma ReserveKeepsHistory(s: State, t: nat, len: nat, pad: bool)
    requires CanReserve(s, t, len, pad) && HistoryOk(s) && ConsumerOk(s)
    ensures HistoryOk(DoReserve(s, t, len, pad)) && ConsumerOk(DoReserve(s, t, len, pad))
  {
    var s' := DoReserve(s, t, len, pad);
    assert s'.order[..|s.order|] == s.order;
    forall j | 0 <= j < |s.order| ensures s'.order[j] == s.order[j] { }
  }

  lemma ReserveKeepsProducer(s: State, t: nat, len: nat, pad: bool, u: nat)
    requires CanReserve(s, t, len, pad) && HistoryOk(s) && u < |s.producers| && ProducerOk(s, u)
    requires forall i :: s.cursor.write <= i < s.cursor.write + len ==> s.mem[i] == ZERO
    ensures ProducerOk(DoReserve(s, t, len, pad), u)
  {
    ReserveGeometry(s, t, len, pad);
    var s', id := DoReserve(s, t, len, pad), s.popped + |s.entries|;
    forall x: nat | x < id ensures x in s'.order <==> x in s.order { }
    assert id !in s.order;
  }

  lemma ReserveKeepsEntry(s: State, t: nat, len: nat, pad: bool, k: nat)
    requires CanReserve(s, t, len, pad) && k <= |s.entries|
    requires k < |s.entries| ==> EntryOk(s, k)
    ensures EntryOk(DoReserve(s, t, len, pad), k)
  {
    var s', id := DoReserve(s, t, len, pad), s.popped + |s.entries|;
    forall x: nat | x < id ensures x in s'.order <==> x in s.order { }
  }

  lemma ReserveKeepsInv(s: State, t: nat, len: nat, pad: bool)
    requires Inv(s) && CanReserve(s, t, len, pad)
    ensures Inv(DoReserve(s, t, len, pad))
  {
    var s' := DoReserve(s, t, len, pad);
    ReserveGeometry(s, t, len, pad);
    ReserveKeepsTiling(s, t, len, pad);
    ReserveKeepsZero(s, t, len, pad);
    ReserveKeepsHistory(s, t, len, pad);
    forall u | 0 <= u < |s'.producers| ensures ProducerOk(s', u) { ReserveKeepsProducer(s, t, len, pad, u); }
    forall k | 0 <= k < |s'.entries| ensures EntryOk(s', k) { ReserveKeepsEntry(s, t, len, pad, k); }
  }

  // ---------------------------------------------------------------------------------------
  // A producer's work on its own entry keeps the invariant

  /** Producer t writes one word of its entry and goes on to `p`, its entry being in state `progress`. */
  ghost function DoOwn(s: State, t: nat, i: nat, w: Word, p: Producer, progress: Progress,
                       committed: map<nat, seq<Word>>): State
    requires t < |s.producers| && Owns(s, t, s.producers[t]) && i < |s.mem|
  {
    var k := s.producers[t].id - s.popped;
    s.(mem := s.mem[i := w],
       producers := s.producers[t := p],
       entries := s.entries[k := s.entries[k].(progress := progress)],
       committed := committed)
  }

  ghost predicate CanOwn(s: State, t: nat, i: nat, w: Word, p: Producer, progress: Progress,
                         committed: map<nat, seq<Word>>)
  {
    && t < |s.producers| && Owns(s, t, s.producers[t]) && i < |s.mem|
    && var me := s.producers[t];
    && me.at <= i < me.at + me.len
    && (progress.Busy? ==>
          && progress.tid == t
          && (p.SetSize? || p.SetState? || p.Filling?) && p.at == me.at && p.len == me.len && p.id == me.id)
    && (forall x :: x in s.committed && x != me.id ==> x in committed && committed[x] == s.committed[x])
  }

  /** The states differ in contents and progress but not in geometry. */
  ghost predicate SameGeometry(s: State, s': State) {
    && s'.front == s.front && s'.tail == s.tail && |s'.mem| == |s.mem|
    && s'.cursor == s.cursor && s'.read == s.read && Unreleased(s') == Unreleased(s)
    && (s'.consumer.Releasing? <==> s.consumer.Releasing?)
    && |s'.entries| == |s.entries|
    && Live(s'.entries) == Live(s.entries)
    && (forall k :: 0 <= k < |s.entries| ==>
          s'.entries[k].start == s.entries[k].start && s'.entries[k].len == s.entries[k].len)
  }

  lemma SameGeometryKeepsShape(s: State, s': State)
    requires SameGeometry(s, s') && CursorOk(s) && TilingOk(s)
    ensures CursorOk(s') && TilingOk(s')
  {
    forall k | 0 <= k < |s'.entries| ensures Tiles(s', k) { assert Tiles(s, k); }
    forall j, k | 0 <= j < k < |s'.entries| ensures Apart(s'.entries[j], s'.entries[k]) {
      assert Apart(s.entries[j], s.entries[k]);
    }
  }

  lemma InsideCovers(cap: nat, read: nat, live: nat, start: nat, len: nat, i: nat)
    requires Inside(cap, read, live, start, len) && start <= i < start + len
    ensures Covers(cap, read, live, i)
  {
  }

  lemma EntriesAreApart(s: State, j: nat, k: nat)
    requires TilingOk(s) && j < |s.entries| && k < |s.entries| && j != k
    ensures Apart(s.entries[j], s.entries[k])
  {
    assert Apart(s.entries[if j < k then j else k], s.entries[if j < k then k else j]);
  }

  lemma OwnKeepsProducer(s: State, t: nat, i: nat, w: Word, p: Producer, progress: Progress,
                         committed: map<nat, seq<Word>>, u: nat)
    requires CanOwn(s, t, i, w, p, progress, committed) && TilingOk(s)
    requires u < |s.producers| && u != t && ProducerOk(s, u)
    ensures ProducerOk(DoOwn(s, t, i, w, p, progress, committed), u)
  {
    hide TilingOk;
    var me, other := s.producers[t], s.producers[u];
    if !other.Absent? && !other.Trying? {
      EntriesAreApart(s, me.id - s.popped, other.id - s.popped);
    }
  }

  lemma OwnKeepsEntry(s: State, t: nat, i: nat, w: Word, p: Producer, progress: Progress,
                      committed: map<nat, seq<Word>>, k: nat)
    requires CanOwn(s, t, i, w, p, progress, committed) && TilingOk(s)
    requires k < |s.entries| && k != s.producers[t].id - s.popped && EntryOk(s, k)
    ensures EntryOk(DoOwn(s, t, i, w, p, progress, committed), k)
  {
    hide TilingOk;
    var s', me, e := DoOwn(s, t, i, w, p, progress, committed), s.producers[t], s.entries[k];
    EntriesAreApart(s, me.id - s.popped, k);
    if e.progress.Ready? {
      assert s'.mem[PayloadAt(s, e.start)..e.start + e.len - s.tail]
          == s.mem[PayloadAt(s, e.start)..e.start + e.len - s.tail];
    }
  }

  lemma OwnKeepsShape(s: State, t: nat, i: nat, w: Word, p: Producer, progress: Progress,
                      committed: map<nat, seq<Word>>)
    requires CanOwn(s, t, i, w, p, progress, committed)
    requires CursorOk(s) && TilingOk(s) && FreeIsZero(s)
    ensures var s' := DoOwn(s, t, i, w, p, progress, committed);
            CursorOk(s') && TilingOk(s') && FreeIsZero(s')
  {
    hide CursorOk, SameGeometry, Covers, Live;
    var s', me := DoOwn(s, t, i, w, p, progress, committed), s.producers[t];
    OwnKeepsGeometry(s, t, i, w, p, progress, committed);
    SameGeometryKeepsShape(s, s');
    assert Tiles(s, me.id - s.popped);
    InsideCovers(Capacity(s), s.read, Live(s.entries), me.at, me.len, i);
  }

  lemma OwnKeepsGeometry(s: State, t: nat, i: nat, w: Word, p: Producer, progress: Progress,
                         committed: map<nat, seq<Word>>)
    requires CanOwn(s, t, i, w, p, progress, committed)
    ensures SameGeometry(s, DoOwn(s, t, i, w, p, progress, committed))
    ensures Live(DoOwn(s, t, i, w, p, progress, committed).entries) == Live(s.entries)
  {
    LiveProgress(s.entries, s.producers[t].id - s.popped, progress);
  }

  lemma OwnKeepsHistory(s: State, t: nat, i: nat, w: Word, p: Producer, progress: Progress,
                        committed: map<nat, seq<Word>>)
    requires CanOwn(s, t, i, w, p, progress, committed)
    requires ConsumerOk(s) && HistoryOk(s)
    ensures var s' := DoOwn(s, t, i, w, p, progress, committed);
            ConsumerOk(s') && HistoryOk(s')
  {
  }

  lemma OwnKeepsInv(s: State, t: nat, i: nat, w: Word, p: Producer, progress: Progress,
                    committed: map<nat, seq<Word>>)
    requires Inv(s) && CanOwn(s, t, i, w, p, progress, committed)
    requires ProducerOk(DoOwn(s, t, i, w, p, progress, committed), t)
    requires EntryOk(DoOwn(s, t, i, w, p, progress, committed), s.producers[t].id - s.popped)
    ensures Inv(DoOwn(s, t, i, w, p, progress, committed))
  {
    var s', me := DoOwn(s, t, i, w, p, progress, committed), s.producers[t];
    OwnKeepsShape(s, t, i, w, p, progress, committed);
    OwnKeepsHistory(s, t, i, w, p, progress, committed);
    forall u | 0 <= u < |s'.producers| ensures ProducerOk(s', u) {
      if u != t { OwnKeepsProducer(s, t, i, w, p, progress, committed, u); }
    }
    forall k | 0 <= k < |s'.entries| ensures EntryOk(s', k) {
      if k != me.id - s.popped { OwnKeepsEntry(s, t, i, w, p, progress, committed, k); }
    }
  }

  /** What a producer's step amounts to: one word, its next local state, the progress of its entry. */
  datatype Effect = Effect(i: nat, w: Word, p: Producer, progress: Progress, committed: map<nat, seq<Word>>)

  ghost predicate OwnStep(s: State, t: nat, s': State, e: Effect) {
    && CanOwn(s, t, e.i, e.w, e.p, e.progress, e.committed)
    && s' == DoOwn(s, t, e.i, e.w, e.p, e.progress, e.committed)
    && ProducerOk(s', t)
    && EntryOk(s', s.producers[t].id - s.popped)
  }

  lemma WriteSizeIsOwn(s: State, t: nat, s': State) returns (e: Effect)
    requires NextProducer(s, WriteSize(t), s') && ProducerOk(s, t)
    ensures OwnStep(s, t, s', e)
  {
    var me := s.producers[t];
    e := Effect(me.at + s.front, Word(0, me.len - Overhead(s)),
                SetState(me.n, me.seen, me.at, me.len, me.id, me.pad), Busy(t), s.committed);
    assert s'.entries == DoOwn(s, t, e.i, e.w, e.p, e.progress, e.committed).entries;
  }

  lemma StoreStateIsOwn(s: State, t: nat, s': State) returns (e: Effect)
    requires NextProducer(s, StoreState(t), s') && ProducerOk(s, t)
    ensures OwnStep(s, t, s', e)
  {
    var me := s.producers[t];
    if me.pad {
      e := Effect(me.at + s.front, Word(PADDING, me.len - Overhead(s)), Trying(me.n, me.seen), ReadyPad, s.committed);
    } else {
      e := Effect(me.at + s.front, Word(ALLOCATED, me.len - Overhead(s)),
                  Filling(me.at, me.len, me.id), Busy(t), s.committed);
      assert s'.entries == DoOwn(s, t, e.i, e.w, e.p, e.progress, e.committed).entries;
    }
  }

  lemma WriteWordIsOwn(s: State, t: nat, at: nat, word: Word, s': State) returns (e: Effect)
    requires NextProducer(s, WriteWord(t, at, word), s') && ProducerOk(s, t)
    ensures OwnStep(s, t, s', e)
  {
    e := Effect(at, word, s.producers[t], Busy(t), s.committed);
    var s1 := DoOwn(s, t, e.i, e.w, e.p, e.progress, e.committed);
    assert s'.entries == s1.entries && s'.producers == s1.producers;
  }

  lemma CommitIsOwn(s: State, t: nat, s': State) returns (e: Effect)
    requires NextProducer(s, Commit(t), s') && ProducerOk(s, t)
    ensures OwnStep(s, t, s', e)
  {
    var me := s.producers[t];
    var payload := s.mem[PayloadAt(s, me.at)..me.at + me.len - s.tail];
    e := Effect(me.at + s.front, Word(COMMITTED, me.len - Overhead(s)), Absent, Ready(payload),
                s.committed[me.id := payload]);
    CommitIsDoOwn(s, t, s', e, payload);
    assert s'.mem[PayloadAt(s, me.at)..me.at + me.len - s.tail] == payload;
  }

  lemma CommitIsDoOwn(s: State, t: nat, s': State, e: Effect, payload: seq<Word>)
    requires NextProducer(s, Commit(t), s') && ProducerOk(s, t)
    requires var me := s.producers[t];
      && payload == s.mem[PayloadAt(s, me.at)..me.at + me.len - s.tail]
      && e == Effect(me.at + s.front, Word(COMMITTED, me.len - Overhead(s)), Absent, Ready(payload),
                     s.committed[me.id := payload])
    ensures CanOwn(s, t, e.i, e.w, e.p, e.progress, e.committed)
    ensures s' == DoOwn(s, t, e.i, e.w, e.p, e.progress, e.committed)
  {
  }

  /** Only the cursor, thread-local variables, the consumer's position and its log differ. */
  ghost predicate SameRing(s: State, s': State) {
    s' == s.(cursor := s'.cursor, producers := s'.producers, consumer := s'.consumer, received := s'.received)
  }

  lemma ProducerFrame(s: State, s': State, u: nat)
    requires SameRing(s, s') && u < |s.producers| == |s'.producers| && s'.producers[u] == s.producers[u]
    requires ProducerOk(s, u)
    ensures ProducerOk(s', u)
  {
  }

  lemma EntryFrame(s: State, s': State, k: nat)
    requires SameRing(s, s') && k < |s.entries| && EntryOk(s, k)
    requires s.consumer.Clearing? ==> s'.consumer.Clearing?
    requires |s'.producers| == |s.producers|
    requires s.entries[k].progress.Busy? ==>
               s'.producers[s.entries[k].progress.tid] == s.producers[s.entries[k].progress.tid]
    ensures EntryOk(s', k)
  {
  }

  lemma CasFailsKeepsInv(s: State, t: nat, p: Producer)
    requires Inv(s) && t < |s.producers| && (s.producers[t].Absent? || s.producers[t].Trying?)
    requires p.Absent? || (p.Trying? && p.seen == s.cursor)
    ensures Inv(Goto(s, t, p))
  {
    var s' := Goto(s, t, p);
    SameGeometryKeepsShape(s, s');
    forall u | 0 <= u < |s'.producers| ensures ProducerOk(s', u) { if u != t { ProducerFrame(s, s', u); } }
    forall k | 0 <= k < |s'.entries| ensures EntryOk(s', k) {
      assert EntryOk(s, k);
      EntryFrame(s, s', k);
    }
  }

  lemma OwnStepKeepsInv(s: State, t: nat, s': State, e: Effect)
    requires Inv(s) && OwnStep(s, t, s', e)
    ensures Inv(s')
  {
    OwnKeepsInv(s, t, e.i, e.w, e.p, e.progress, e.committed);
  }

  predicate IsConsumerStep(step: Step) {
    step.LoadFront? || step.BeginPop? || step.ZeroWord? || step.FinishClear? || step.Release?
  }

  lemma ReserveStepFits(s: State, step: Step, s': State) returns (len: nat)
    requires CursorOk(s) && TilingOk(s)
    requires (step.Reserve? || step.ReservePadding?) && NextProducer(s, step, s')
    ensures CanReserve(s, step.tid, len, step.ReservePadding?)
    ensures s' == DoReserve(s, step.tid, len, step.ReservePadding?)
  {
    var n := s.producers[step.tid].n;
    if step.Reserve? {
      len := n + Overhead(s);
    } else {
      PaddingFits(s, n);
      len := Capacity(s) - s.cursor.write;
    }
  }

  lemma ReserveStepKeepsInv(s: State, step: Step, s': State)
    requires Inv(s) && (step.Reserve? || step.ReservePadding?) && NextProducer(s, step, s')
    ensures Inv(s')
  {
    var len := ReserveStepFits(s, step, s');
    ReserveKeepsInv(s, step.tid, len, step.ReservePadding?);
  }

  lemma ProducerStepKeepsInv(s: State, step: Step, s': State)
    requires Inv(s) && !IsConsumerStep(step) && NextProducer(s, step, s')
    ensures Inv(s')
  {
    assert ProducerOk(s, step.tid);
    match step {
      case Begin(t, n) => CasFailsKeepsInv(s, t, Trying(n, s.cursor));
      case Refuse(t) => CasFailsKeepsInv(s, t, Absent);
      case CasFails(t) => CasFailsKeepsInv(s, t, Trying(s.producers[t].n, s.cursor));
      case Reserve(t) => ReserveStepKeepsInv(s, step, s');
      case ReservePadding(t) => ReserveStepKeepsInv(s, step, s');
      case WriteSize(t) =>
        var e := WriteSizeIsOwn(s, t, s');
        OwnStepKeepsInv(s, t, s', e);
      case StoreState(t) =>
        var e := StoreStateIsOwn(s, t, s');
        OwnStepKeepsInv(s, t, s', e);
      case WriteWord(t, at, word) =>
        var e := WriteWordIsOwn(s, t, at, word, s');
        OwnStepKeepsInv(s, t, s', e);
      case Commit(t) =>
        var e := CommitIsOwn(s, t, s');
        OwnStepKeepsInv(s, t, s', e);
    }
  }

  // ---------------------------------------------------------------------------------------
  // The consumer keeps the invariant

  /** The state word at the read cursor tells whether a finished entry is at the front. */
  lemma FrontIsReadyIff(s: State)
    requires Inv(s)
    ensures s.read + s.front < |s.mem|
    ensures !s.consumer.Clearing? ==>
              (s.mem[s.read + s.front].lo > ALLOCATED <==> s.entries != [] && !s.entries[0].progress.Busy?)
  {
    if s.entries == [] {
      assert !Covers(Capacity(s), s.read, 0, s.read + s.front);
    } else {
      assert Tiles(s, 0);
      assert EntryOk(s, 0);
      if s.entries[0].progress.Busy? { assert ProducerOk(s, s.entries[0].progress.tid); }
    }
  }

  lemma LoadFrontKeepsInv(s: State, s': State)
    requires Inv(s) && NextConsumer(s, LoadFront, s')
    ensures Inv(s')
  {
    FrontIsReadyIff(s);
    SameGeometryKeepsShape(s, s');
    forall u | 0 <= u < |s'.producers| ensures ProducerOk(s', u) { ProducerFrame(s, s', u); }
    forall k | 0 <= k < |s'.entries| ensures EntryOk(s', k) {
      assert EntryOk(s, k);
      EntryFrame(s, s', k);
    }
  }

  /** The next block to be received is the oldest one that was not received yet. */
  lemma NextInOrder(s: State)
    requires HistoryOk(s) && !s.consumer.Clearing? && s.popped in s.order
    ensures |s.received| < |s.order| && s.order[|s.received|] == s.popped
  {
    var j :| 0 <= j < |s.order| && s.order[j] == s.popped;
    var r := |s.received|;
    assert r <= j;
    assert s.order[r] <= s.order[j];
  }

  lemma BeginPopReceives(s: State, s': State)
    requires CursorOk(s) && TilingOk(s) && ConsumerOk(s) && NextConsumer(s, BeginPop, s')
    requires s.entries != [] && EntryOk(s, 0)
    ensures s'.consumer == Clearing(s.entries[0].len)
    ensures s'.received == if s.entries[0].progress.Ready? then s.received + [s.entries[0].progress.payload]
                           else s.received
  {
    assert Tiles(s, 0);
  }

  lemma BeginPopKeepsHistory(s: State, s': State)
    requires HistoryOk(s) && ConsumerOk(s) && SameRing(s, s') && s.consumer.HasFront?
    requires EntryOk(s, 0)
    requires s'.consumer == Clearing(s.entries[0].len)
    requires s'.received == if s.entries[0].progress.Ready? then s.received + [s.entries[0].progress.payload]
                            else s.received
    ensures HistoryOk(s') && ConsumerOk(s')
  {
    if s.entries[0].progress.Ready? {
      NextInOrder(s);
      forall j | |s.received| < j < |s.order| ensures s.order[j] > s.popped { }
    } else {
      forall j | 0 <= j < |s.order| ensures s.order[j] != s.popped { }
    }
  }

  lemma BeginPopKeepsInv(s: State, s': State)
    requires Inv(s) && NextConsumer(s, BeginPop, s')
    ensures Inv(s')
  {
    assert EntryOk(s, 0);
    BeginPopReceives(s, s');
    BeginPopKeepsHistory(s, s');
    SameGeometryKeepsShape(s, s');
    forall u | 0 <= u < |s'.producers| ensures ProducerOk(s', u) { ProducerFrame(s, s', u); }
    forall k | 0 <= k < |s'.entries| ensures EntryOk(s', k) {
      assert EntryOk(s, k);
      EntryFrame(s, s', k);
    }
  }

  /** The consumer clears a word of the front entry. */
  ghost predicate Zeroes(s: State, at: nat, s': State) {
    && s.consumer.Clearing? && at < |s.mem|
    && s.entries != [] && s.entries[0].start <= at < s.entries[0].start + s.entries[0].len
    && s' == s.(mem := s.mem[at := ZERO])
  }

  lemma ZeroWordKeepsProducer(s: State, at: nat, s': State, u: nat)
    requires Zeroes(s, at, s') && TilingOk(s) && ConsumerOk(s) && u < |s.producers| && ProducerOk(s, u)
    ensures ProducerOk(s', u)
  {
    var p := s.producers[u];
    if !p.Absent? && !p.Trying? {
      assert p.id != s.popped;
      assert Apart(s.entries[0], s.entries[p.id - s.popped]);
    }
  }

  lemma ZeroWordKeepsEntry(s: State, at: nat, s': State, k: nat)
    requires Zeroes(s, at, s') && TilingOk(s) && ConsumerOk(s) && k < |s.entries| && EntryOk(s, k)
    ensures EntryOk(s', k)
  {
    var e := s.entries[k];
    if k > 0 {
      assert Apart(s.entries[0], e);
      if e.progress.Ready? {
        assert s'.mem[PayloadAt(s, e.start)..e.start + e.len - s.tail]
            == s.mem[PayloadAt(s, e.start)..e.start + e.len - s.tail];
      }
    }
  }

  lemma ZeroWordKeepsInv(s: State, at: nat, s': State)
    requires Inv(s) && NextConsumer(s, ZeroWord(at), s')
    ensures Inv(s')
  {
    assert Zeroes(s, at, s');
    SameGeometryKeepsShape(s, s');
    forall u | 0 <= u < |s'.producers| ensures ProducerOk(s', u) { ZeroWordKeepsProducer(s, at, s', u); }
    forall k | 0 <= k < |s'.entries| ensures EntryOk(s', k) { ZeroWordKeepsEntry(s, at, s', k); }
  }

  /** The consumer moves past the cleared front entry. */
  ghost predicate Drops(s: State, s': State) {
    && s.consumer.Clearing? && s.entries != [] && s.entries[0].len == s.consumer.len
    && s.entries[0].start == s.read && s.read + s.consumer.len <= |s.mem| && |s.mem| > 0
    && s' == s.(consumer := Releasing(s.consumer.len),
                read := Wrap(s.read + s.consumer.len, |s.mem|),
                entries := s.entries[1..], popped := s.popped + 1)
  }

  lemma DropKeepsCursor(s: State, s': State)
    requires Drops(s, s') && CursorOk(s) && Tiles(s, 0)
    ensures CursorOk(s') && Live(s'.entries) == Live(s.entries) - s.consumer.len
  {
    LiveTail(s.entries);
  }

  lemma DropTiles(s: State, s': State, k: nat)
    requires Drops(s, s') && CursorOk(s) && TilingOk(s) && k < |s'.entries|
    ensures Tiles(s', k)
  {
    assert Tiles(s, 0);
    assert Tiles(s, k + 1);
    DropKeepsCursor(s, s');
    assert s'.entries[k] == s.entries[k + 1];
    assert Apart(s.entries[0], s.entries[k + 1]);
    ShrinkInside(Capacity(s), s.read, Live(s.entries), s.consumer.len, s.entries[0], s.entries[k + 1]);
    assert StartOf(s', k + 1) == StartOf(s, k + 2);
  }

  lemma DropKeepsTiling(s: State, s': State)
    requires Drops(s, s') && CursorOk(s) && TilingOk(s)
    ensures TilingOk(s')
  {
    assert Tiles(s, 0);
    assert StartOf(s', 0) == StartOf(s, 1);
    forall k | 0 <= k < |s'.entries| ensures Tiles(s', k) { DropTiles(s, s', k); }
    forall j, k | 0 <= j < k < |s'.entries| ensures Apart(s'.entries[j], s'.entries[k]) {
      assert Apart(s.entries[j + 1], s.entries[k + 1]);
    }
  }

  lemma DropKeepsZero(s: State, s': State)
    requires Drops(s, s') && CursorOk(s) && Tiles(s, 0) && FreeIsZero(s)
    requires forall i :: s.read <= i < s.read + s.consumer.len ==> s.mem[i] == ZERO
    ensures FreeIsZero(s')
  {
    DropKeepsCursor(s, s');
    LiveAtLeast(s.entries, 0);
    forall i | 0 <= i < |s.mem| && !Covers(Capacity(s), s'.read, Live(s'.entries), i) ensures s.mem[i] == ZERO {
      ShrinkCovers(Capacity(s), s.read, Live(s.entries), s.consumer.len, i);
    }
  }

  lemma DropKeepsProducer(s: State, s': State, u: nat)
    requires Drops(s, s') && ConsumerOk(s) && u < |s.producers| && ProducerOk(s, u)
    ensures ProducerOk(s', u)
  {
    var p := s.producers[u];
    if !p.Absent? && !p.Trying? {
      assert p.id != s.popped;
      assert s'.entries[p.id - s'.popped] == s.entries[p.id - s.popped];
    }
  }

  lemma DropKeepsEntry(s: State, s': State, k: nat)
    requires Drops(s, s') && k < |s'.entries| && EntryOk(s, k + 1)
    requires forall t :: 0 <= t < |s.producers| ==> ProducerOk(s', t)
    ensures EntryOk(s', k)
  {
    assert s'.entries[k] == s.entries[k + 1];
    if s'.entries[k].progress.Busy? { assert ProducerOk(s', s'.entries[k].progress.tid); }
  }

  lemma DropKeepsHistory(s: State, s': State)
    requires Drops(s, s') && HistoryOk(s)
    ensures HistoryOk(s') && ConsumerOk(s')
  {
  }

  lemma FinishClearKeepsInv(s: State, s': State)
    requires Inv(s) && NextConsumer(s, FinishClear, s')
    ensures Inv(s')
  {
    assert Tiles(s, 0);
    WrapIsModulo(s.read + s.consumer.len, Capacity(s));
    assert Drops(s, s');
    DropKeepsCursor(s, s');
    DropKeepsTiling(s, s');
    DropKeepsZero(s, s');
    DropKeepsHistory(s, s');
    forall u | 0 <= u < |s'.producers| ensures ProducerOk(s', u) { DropKeepsProducer(s, s', u); }
    forall k | 0 <= k < |s'.entries| ensures EntryOk(s', k) {
      assert EntryOk(s, k + 1);
      DropKeepsEntry(s, s', k);
    }
  }

  lemma ReleaseKeepsShape(s: State, s': State)
    requires CursorOk(s) && TilingOk(s) && FreeIsZero(s) && NextConsumer(s, Release, s')
    ensures CursorOk(s') && TilingOk(s') && FreeIsZero(s')
  {
    forall k | 0 <= k < |s'.entries| ensures Tiles(s', k) {
      assert Tiles(s, k);
      assert StartOf(s', k + 1) == StartOf(s, k + 1);
    }
  }

  lemma ReleaseKeepsInv(s: State, s': State)
    requires Inv(s) && NextConsumer(s, Release, s')
    ensures Inv(s')
  {
    ReleaseKeepsShape(s, s');
    forall u | 0 <= u < |s'.producers| ensures ProducerOk(s', u) { ProducerFrame(s, s', u); }
    forall k | 0 <= k < |s'.entries| ensures EntryOk(s', k) {
      assert EntryOk(s, k);
      EntryFrame(s, s', k);
    }
  }

  lemma StepKeepsInv(s: State, step: Step, s': State)
    requires Inv(s) && Next(s, step, s')
    ensures Inv(s')
  {
    hide Inv, NextProducer, NextConsumer;
    match step {
      case LoadFront => LoadFrontKeepsInv(s, s');
      case BeginPop => BeginPopKeepsInv(s, s');
      case ZeroWord(at) => ZeroWordKeepsInv(s, at, s');
      case FinishClear => FinishClearKeepsInv(s, s');
      case Release => ReleaseKeepsInv(s, s');
      case _ => ProducerStepKeepsInv(s, step, s');
    }
  }

  // ---------------------------------------------------------------------------------------
  // Whole runs

  ghost predicate IsRun(run: seq<State>, steps: seq<Step>) {
    && |run| == |steps| + 1
    && Init(run[0])
    && (forall i :: 0 <= i < |steps| ==> Next(run[i], steps[i], run[i + 1]))
  }

  lemma {:induction false} RunKeepsInv(run: seq<State>, steps: seq<Step>, k: nat)
    requires IsRun(run, steps) && k < |run|
    ensures Inv(run[k])
  {
    hide Inv, Init, Next;
    if k == 0 {
      InitEstablishesInv(run[0]);
    } else {
      RunKeepsInv(run, steps, k - 1);
      StepKeepsInv(run[k - 1], steps[k - 1], run[k]);
    }
  }

  /**
    The consumer has received exactly the first blocks in the order they were allocated, each as it
    was committed; and a block that is at the front still holds its committed contents.
   */
  lemma BlocksArriveIntactInOrder(run: seq<State>, steps: seq<Step>, k: nat)
    requires IsRun(run, steps) && k < |run|
    ensures var s := run[k];
            && |s.received| <= |s.order|
            && (forall j :: 0 <= j < |s.received| ==>
                  s.order[j] in s.committed && s.received[j] == s.committed[s.order[j]])
            && (forall i, j :: 0 <= i < j < |s.order| ==> s.order[i] < s.order[j])
            && (s.entries == [] ==> |s.received| == |s.order|)
            && (s.consumer.HasFront? && s.popped in s.order ==>
                  && |s.received| < |s.order| && s.order[|s.received|] == s.popped && s.popped in s.committed
                  && var from := PayloadAt(s, s.read);
                     && from + |s.committed[s.popped]| <= |s.mem|
                     && s.mem[from..from + |s.committed[s.popped]|] == s.committed[s.popped])
  {
    var s := run[k];
    RunKeepsInv(run, steps, k);
    if s.consumer.HasFront? && s.popped in s.order {
      assert Tiles(s, 0);
      assert EntryOk(s, 0);
      NextInOrder(s);
    }
    if |s.received| < |s.order| {
      assert s.order[|s.received|] < s.popped + |s.entries|;
    }
  }

  /**
    In every state the reservations are disjoint, none crosses the end of the ring, they follow each
    other from the read cursor to the write cursor, they never exceed the capacity, the gap left at
    the end can hold a padding header, and every word outside them is zero.
   */
  lemma ReservationsTileTheRing(run: seq<State>, steps: seq<Step>, k: nat)
    requires IsRun(run, steps) && k < |run|
    ensures var s := run[k];
            && (forall i, j :: 0 <= i < j < |s.entries| ==> Apart(s.entries[i], s.entries[j]))
            && (forall i :: 0 <= i < |s.entries| ==> s.entries[i].start + s.entries[i].len <= Capacity(s))
            && (s.entries != [] ==> s.entries[0].start == s.read)
            && (forall i :: 0 <= i < |s.entries| ==> Tiles(s, i))
            && s.cursor.size == Live(s.entries) + Unreleased(s) <= Capacity(s)
            && s.cursor.write + Overhead(s) <= Capacity(s)
    ensures forall i :: 0 <= i < |run[k].mem| && run[k].mem[i] != ZERO ==>
              Covers(Capacity(run[k]), run[k].read, Live(run[k].entries), i)
  {
    RunKeepsInv(run, steps, k);
    var s := run[k];
    forall i | 0 <= i < |s.entries| ensures s.entries[i].start + s.entries[i].len <= Capacity(s) {
      assert Tiles(s, i);
    }
  }

  /** Space for an entry was zero when it was reserved, and padding never exceeds what is free. */
  lemma ReservedSpaceIsClean(run: seq<State>, steps: seq<Step>, k: nat)
    requires IsRun(run, steps) && k < |steps| && (steps[k].Reserve? || steps[k].ReservePadding?)
    ensures var s, s' := run[k], run[k + 1];
            && s'.entries != []
            && s'.cursor.size <= Capacity(s')
            && var e := s'.entries[|s'.entries| - 1];
               && e.start + e.len <= |s.mem|
               && (forall i :: e.start <= i < e.start + e.len ==> s.mem[i] == ZERO)
               && (forall j :: 0 <= j < |s.entries| ==> Apart(s.entries[j], e))
  {
    var s, s' := run[k], run[k + 1];
    RunKeepsInv(run, steps, k);
    RunKeepsInv(run, steps, k + 1);
    assert Next(s, steps[k], s');
    var len := ReserveStepFits(s, steps[k], s');
    ReserveKeepsZero(s, steps[k].tid, len, steps[k].ReservePadding?);
    ReserveKeepsTiling(s, steps[k].tid, len, steps[k].ReservePadding?);
    forall j | 0 <= j < |s.entries| ensures Apart(s.entries[j], s'.entries[|s.entries|]) {
      assert s'.entries[j] == s.entries[j];
    }
  }

  lemma StateAccessesAreInRange(s: State, t: nat)
    requires CursorOk(s) && TilingOk(s) && ConsumerOk(s) && t < |s.producers| && ProducerOk(s, t)
    requires s.entries != [] ==> EntryOk(s, 0)
    ensures InRange(s, t)
  {
    if s.consumer.HasFront? || s.consumer.Clearing? {
      assert Tiles(s, 0);
      LiveAtLeast(s.entries, 0);
    }
  }

  /** The accesses and subtractions of producer t and of the consumer stay within bounds. */
  ghost predicate InRange(s: State, t: nat)
    requires t < |s.producers|
  {
    && s.read + s.front < |s.mem|
    && (Owns(s, t, s.producers[t]) || s.producers[t].Absent? || s.producers[t].Trying?)
    && (s.consumer.HasFront? ==>
          && PayloadAt(s, s.read) + s.mem[s.read + s.front].hi <= |s.mem|
          && s.mem[s.read + s.front].hi + Overhead(s) <= s.cursor.size)
    && (s.producers[t].Trying? ==> s.producers[t].seen.write < Capacity(s))
    && (s.consumer.Clearing? ==>
          s.entries != [] && s.read + s.consumer.len <= |s.mem| && s.consumer.len <= s.cursor.size)
    && (s.consumer.Releasing? ==> s.consumer.len <= s.cursor.size)
  }

  /** The guards that stand for in-range accesses and for the source's assertions never block a step. */
  lemma AccessesAreInRange(run: seq<State>, steps: seq<Step>, k: nat, t: nat)
    requires IsRun(run, steps) && k < |run| && t < |run[k].producers|
    ensures InRange(run[k], t)
  {
    hide IsRun, TilingOk, EntryOk, ProducerOk, FreeIsZero, HistoryOk, InRange;
    RunKeepsInv(run, steps, k);
    assert ProducerOk(run[k], t);
    assert run[k].entries != [] ==> EntryOk(run[k], 0);
    StateAccessesAreInRange(run[k], t);
  }

  // ---------------------------------------------------------------------------------------
  // Calls: why allocate refuses, what it returns, and what is committed

  predicate IsProducerStep(step: Step, t: nat) {
    !IsConsumerStep(step) && step.tid == t
  }

  /** Producer t has been busy with the block it asked for in step b ever since, up to state k. */
  ghost predicate InCall(run: seq<State>, steps: seq<Step>, t: nat, b: nat, k: nat)
    requires |run| == |steps| + 1
  {
    && b < k < |run| && steps[b].Begin? && steps[b].tid == t
    && (forall i :: b < i <= k ==> t < |run[i].producers| && run[i].producers[t] != Absent)
  }

  /** A producer still at work on a request for n words, with a cursor it has seen. */
  predicate Asks(p: Producer, n: nat) {
    IsAsking(p) && p.n == n
  }

  predicate IsAsking(p: Producer) {
    p.Trying? || p.SetSize? || p.SetState?
  }

  /** What one step does to the request of a producer. */
  lemma RequestGoesOn(s: State, step: Step, s': State, t: nat, n: nat)
    requires Next(s, step, s') && t < |s.producers|
    ensures |s'.producers| == |s.producers|
    ensures !IsProducerStep(step, t) ==> s'.producers[t] == s.producers[t]
    ensures s.producers[t] == Absent && s'.producers[t] != Absent ==>
      && step.Begin? && step.tid == t && Asks(s'.producers[t], step.n) && s'.producers[t].seen == s'.cursor
    ensures Asks(s.producers[t], n) && IsAsking(s'.producers[t]) ==>
      && Asks(s'.producers[t], n) && (s'.producers[t].seen == s.producers[t].seen || s'.producers[t].seen == s'.cursor)
    ensures s.producers[t].Filling? && s'.producers[t] != Absent ==> s'.producers[t] == s.producers[t]
  {
  }

  lemma StepInRun(run: seq<State>, steps: seq<Step>, k: nat)
    requires IsRun(run, steps) && k < |steps|
    ensures Inv(run[k]) && Next(run[k], steps[k], run[k + 1])
  {
    hide Inv, Next;
    RunKeepsInv(run, steps, k);
  }

  lemma BusyIsLater(run: seq<State>, steps: seq<Step>, k: nat, t: nat)
    requires IsRun(run, steps) && k < |run| && t < |run[k].producers| && run[k].producers[t] != Absent
    ensures k > 0
  {
  }

  /** Every busy producer is in a call; the cursor it goes by was the real one at some time during the call. */
  lemma {:induction false} CallOf(run: seq<State>, steps: seq<Step>, k: nat, t: nat) returns (b: nat, i: nat)
    requires IsRun(run, steps) && k < |run| && t < |run[k].producers| && run[k].producers[t] != Absent
    ensures InCall(run, steps, t, b, k)
    ensures !run[k].producers[t].Filling? ==>
      b < i <= k && Asks(run[k].producers[t], steps[b].n) && run[k].producers[t].seen == run[i].cursor
  {
    hide Inv, Init, Next;
    BusyIsLater(run, steps, k, t);
    var last := k - 1;
    StepInRun(run, steps, last);
    SameProducers(run[last], steps[last], run[k]);
    if run[last].producers[t] == Absent {
      RequestGoesOn(run[last], steps[last], run[k], t, 0);
      b, i := last, k;
    } else {
      b, i := CallOf(run, steps, last, t);
      RequestGoesOn(run[last], steps[last], run[k], t, steps[b].n);
      if !run[k].producers[t].Filling? && run[k].producers[t].seen == run[k].cursor { i := k; }
    }
  }

  lemma SameProducers(s: State, step: Step, s': State)
    requires Next(s, step, s')
    ensures |s'.producers| == |s.producers|
  {
  }

  /**
    A call that gives up does so for lack of room: in some state since it began, the entries, the words
    cleared and not yet given back, the request and its overhead together exceeded the capacity.
   */
  lemma RefusedForLackOfRoom(run: seq<State>, steps: seq<Step>, k: nat, t: nat) returns (b: nat, i: nat)
    requires IsRun(run, steps) && k < |steps| && t < |run[k].producers| && t < |run[k + 1].producers|
    requires IsAsking(run[k].producers[t]) && run[k + 1].producers[t] == Absent
    ensures InCall(run, steps, t, b, k) && b < i <= k
    ensures Live(run[i].entries) + Unreleased(run[i]) + steps[b].n + Overhead(run[i]) > Capacity(run[i])
  {
    hide Inv, Init, Next;
    b, i := CallOf(run, steps, k, t);
    StepInRun(run, steps, k);
    RefusesAbove(run[k], steps[k], run[k + 1], t);
    RunKeepsInv(run, steps, i);
    CursorCounts(run[i]);
    SameRingSize(run, steps, i);
    SameRingSize(run, steps, k);
  }

  lemma RefusesAbove(s: State, step: Step, s': State, t: nat)
    requires Next(s, step, s') && t < |s.producers| && t < |s'.producers|
    requires IsAsking(s.producers[t]) && s'.producers[t] == Absent
    ensures s.producers[t].n + Overhead(s) + s.producers[t].seen.size > Capacity(s)
  {
  }

  lemma CursorCounts(s: State)
    requires Inv(s)
    ensures s.cursor.size == Live(s.entries) + Unreleased(s)
  {
  }

  lemma {:induction false} SameRingSize(run: seq<State>, steps: seq<Step>, k: nat)
    requires IsRun(run, steps) && k < |run|
    ensures Overhead(run[k]) == Overhead(run[0]) && Capacity(run[k]) == Capacity(run[0])
  {
    hide Init;
    if k > 0 {
      SameRingSize(run, steps, k - 1);
      assert Next(run[k - 1], steps[k - 1], run[k]);
    }
  }

  /** A producer with space for its block, as opposed to padding. */
  predicate HasBlock(p: Producer) {
    p.Filling? || ((p.SetSize? || p.SetState?) && !p.pad)
  }

  /** The word producer t wrote last to an address, in the steps after r and before k; zero if it wrote none. */
  function LastWritten(steps: seq<Step>, t: nat, at: nat, r: nat, k: nat): Word
    requires k <= |steps|
  {
    if k <= r + 1 then ZERO
    else if steps[k - 1].WriteWord? && steps[k - 1].tid == t && steps[k - 1].at == at then steps[k - 1].word
    else LastWritten(steps, t, at, r, k - 1)
  }

  /** The words of an entry apart from its header. */
  predicate InBlock(s: State, p: Producer, a: nat)
    requires HasBlock(p)
  {
    p.at <= a < p.at + p.len && a != p.at + s.front
  }

  lemma BlockGoesOn(s: State, step: Step, s': State, t: nat)
    requires Next(s, step, s') && t < |s.producers| == |s'.producers| && HasBlock(s'.producers[t])
    ensures !HasBlock(s.producers[t]) ==>
      && step == Reserve(t) && IsAsking(s.producers[t])
      && s'.producers[t].len == s.producers[t].n + Overhead(s)
    ensures HasBlock(s.producers[t]) ==>
      && step != Reserve(t) && s'.producers[t].at == s.producers[t].at && s'.producers[t].len == s.producers[t].len
  {
  }

  /** What other threads do leaves the words of a producer's entry alone; the producer itself writes what it says. */
  lemma BlockWord(s: State, step: Step, s': State, t: nat, a: nat)
    requires Inv(s) && Next(s, step, s') && t < |s.producers| == |s'.producers|
    requires HasBlock(s.producers[t]) && HasBlock(s'.producers[t]) && InBlock(s, s.producers[t], a)
    ensures a < |s.mem| == |s'.mem|
    ensures s'.mem[a] == if step.WriteWord? && step.tid == t && step.at == a then step.word else s.mem[a]
  {
    hide CursorOk, FreeIsZero, HistoryOk, TilingOk, EntryOk, ProducerOk, NextProducer, NextConsumer;
    assert ProducerOk(s, t);
    BlockIsOwned(s, t);
    if IsConsumerStep(step) {
      ConsumerLeavesBlock(s, step, s', t, a);
    } else if step.tid == t {
      ProducerWritesBlock(s, step, s', a);
    } else {
      OthersLeaveBlock(s, step, s', t, a);
    }
  }

  lemma BlockIsOwned(s: State, t: nat)
    requires t < |s.producers| && HasBlock(s.producers[t]) && ProducerOk(s, t)
    ensures Owns(s, t, s.producers[t])
  {
  }

  lemma ConsumerLeavesBlock(s: State, step: Step, s': State, t: nat, a: nat)
    requires IsConsumerStep(step) && NextConsumer(s, step, s') && TilingOk(s) && ConsumerOk(s)
    requires t < |s.producers| && HasBlock(s.producers[t]) && Owns(s, t, s.producers[t])
    requires InBlock(s, s.producers[t], a)
    ensures |s'.mem| == |s.mem| && s'.mem[a] == s.mem[a]
  {
    hide TilingOk;
    if step.ZeroWord? { ClearedIsApart(s, t); }
  }

  lemma ProducerWritesBlock(s: State, step: Step, s': State, a: nat)
    requires !IsConsumerStep(step) && NextProducer(s, step, s') && step.tid < |s.producers| == |s'.producers|
    requires HasBlock(s.producers[step.tid]) && HasBlock(s'.producers[step.tid])
    requires Owns(s, step.tid, s.producers[step.tid]) && InBlock(s, s.producers[step.tid], a)
    ensures |s'.mem| == |s.mem|
    ensures s'.mem[a] == if step.WriteWord? && step.at == a then step.word else s.mem[a]
  {
  }

  lemma OthersLeaveBlock(s: State, step: Step, s': State, t: nat, a: nat)
    requires !IsConsumerStep(step) && NextProducer(s, step, s') && TilingOk(s)
    requires t < |s.producers| && step.tid != t && (step.tid < |s.producers| ==> ProducerOk(s, step.tid))
    requires HasBlock(s.producers[t]) && Owns(s, t, s.producers[t]) && InBlock(s, s.producers[t], a)
    ensures |s'.mem| == |s.mem| && s'.mem[a] == s.mem[a]
  {
    hide TilingOk;
    OthersAreApart(s, t, step.tid);
  }

  lemma OthersAreApart(s: State, t: nat, u: nat)
    requires TilingOk(s) && t < |s.producers| && u < |s.producers| && t != u
    requires Owns(s, t, s.producers[t])
    ensures Owns(s, u, s.producers[u]) ==>
      var p, q := s.producers[t], s.producers[u];
      p.at + p.len <= q.at || q.at + q.len <= p.at
  {
    var p, q := s.producers[t], s.producers[u];
    if Owns(s, u, q) { EntriesAreApart(s, p.id - s.popped, q.id - s.popped); }
  }

  lemma ClearedIsApart(s: State, t: nat)
    requires TilingOk(s) && ConsumerOk(s) && s.consumer.Clearing? && t < |s.producers| && Owns(s, t, s.producers[t])
    ensures var p := s.producers[t];
      p.at + p.len <= s.read || s.read + s.consumer.len <= p.at
  {
    EntriesAreApart(s, 0, s.producers[t].id - s.popped);
  }

  /** The words of a block since its reservation in step r. */
  ghost predicate HoldsWritten(s: State, steps: seq<Step>, t: nat, r: nat, k: nat)
    requires k <= |steps| && t < |s.producers| && HasBlock(s.producers[t])
  {
    forall a: nat :: InBlock(s, s.producers[t], a) ==> a < |s.mem| && s.mem[a] == LastWritten(steps, t, a, r, k)
  }

  /** Step r reserved the block producer t is at work on in state k. */
  ghost predicate ReservedBy(steps: seq<Step>, t: nat, r: nat, k: nat)
    requires k <= |steps|
  {
    r < k && steps[r] == Reserve(t) && forall i :: r < i < k ==> steps[i] != Reserve(t)
  }

  lemma NewBlockIsZero(s: State, steps: seq<Step>, t: nat, k: nat)
    requires Inv(s) && 0 < k <= |steps| && t < |s.producers| && s.producers[t].SetSize? && !s.producers[t].pad
    ensures HoldsWritten(s, steps, t, k - 1, k)
  {
    assert ProducerOk(s, t);
  }

  lemma BlockStillHolds(s: State, step: Step, s': State, steps: seq<Step>, t: nat, r: nat, k: nat)
    requires Inv(s) && Next(s, step, s') && t < |s.producers| == |s'.producers|
    requires HasBlock(s.producers[t]) && HasBlock(s'.producers[t])
    requires r < k < |steps| && steps[k] == step && HoldsWritten(s, steps, t, r, k)
    ensures HoldsWritten(s', steps, t, r, k + 1)
  {
    hide Inv, Next;
    BlockGoesOn(s, step, s', t);
    SameFront(s, step, s');
    forall a: nat | InBlock(s', s'.producers[t], a)
      ensures a < |s'.mem| && s'.mem[a] == LastWritten(steps, t, a, r, k + 1)
    {
      BlockWord(s, step, s', t, a);
    }
  }

  lemma SameFront(s: State, step: Step, s': State)
    requires Next(s, step, s')
    ensures s'.front == s.front && s'.tail == s.tail
  {
  }

  /**
    A producer at work on its block has as many words as it asked for, apart from the overhead, and each
    holds what the producer wrote there last, or zero.
   */
  lemma {:induction false} BlockOf(run: seq<State>, steps: seq<Step>, k: nat, t: nat) returns (b: nat, r: nat)
    requires IsRun(run, steps) && k < |run| && t < |run[k].producers| && HasBlock(run[k].producers[t])
    ensures InCall(run, steps, t, b, k) && b < r && ReservedBy(steps, t, r, k)
    ensures run[k].producers[t].len == steps[b].n + Overhead(run[k])
    ensures HoldsWritten(run[k], steps, t, r, k)
  {
    hide Inv, Init, Next, HoldsWritten;
    BusyIsLater(run, steps, k, t);
    var last := k - 1;
    StepInRun(run, steps, last);
    RunKeepsInv(run, steps, k);
    SameProducers(run[last], steps[last], run[k]);
    SameFront(run[last], steps[last], run[k]);
    BlockGoesOn(run[last], steps[last], run[k], t);
    if HasBlock(run[last].producers[t]) {
      b, r := BlockOf(run, steps, last, t);
      BlockStillHolds(run[last], steps[last], run[k], steps, t, r, last);
    } else {
      var i;
      b, i := CallOf(run, steps, last, t);
      r := last;
      ReservedGoesToSetSize(run[last], t, run[k]);
      NewBlockIsZero(run[k], steps, t, k);
    }
  }

  lemma ReservedGoesToSetSize(s: State, t: nat, s': State)
    requires Next(s, Reserve(t), s') && t < |s'.producers|
    ensures s'.producers[t].SetSize? && !s'.producers[t].pad
  {
  }

  /** What is committed is what the producer wrote since its block was reserved, as many words as it asked for. */
  lemma CommittedAsWritten(run: seq<State>, steps: seq<Step>, k: nat) returns (b: nat, r: nat)
    requires IsRun(run, steps) && k < |steps| && steps[k].Commit?
    ensures var s, t := run[k], steps[k].tid;
      && t < |s.producers| && s.producers[t].Filling?
      && InCall(run, steps, t, b, k) && b < r && ReservedBy(steps, t, r, k)
      && s.producers[t].id in run[k + 1].committed
      && var payload := run[k + 1].committed[s.producers[t].id];
      && |payload| == steps[b].n
      && forall x :: 0 <= x < |payload| ==>
        payload[x] == LastWritten(steps, t, PayloadAt(s, s.producers[t].at) + x, r, k)
  {
    hide Inv, Init;
    StepInRun(run, steps, k);
    var t := steps[k].tid;
    b, r := BlockOf(run, steps, k, t);
    var s, p := run[k], run[k].producers[t];
    var payload := run[k + 1].committed[p.id];
    assert payload == s.mem[PayloadAt(s, p.at)..p.at + p.len - s.tail];
    forall x | 0 <= x < |payload| ensures payload[x] == LastWritten(steps, t, PayloadAt(s, p.at) + x, r, k) {
      assert InBlock(s, p, PayloadAt(s, p.at) + x);
    }
  }

  // ---------------------------------------------------------------------------------------
  // Nobody is stuck

  /** A finished entry at the front is found whenever the consumer looks, and nothing else is. */
  lemma FrontIsFound(run: seq<State>, steps: seq<Step>, k: nat)
    requires IsRun(run, steps) && k < |steps| && steps[k].LoadFront?
    ensures run[k + 1].consumer == HasFront <==> run[k].entries != [] && !run[k].entries[0].progress.Busy?
  {
    hide Inv, Init;
    StepInRun(run, steps, k);
    FrontIsReadyIff(run[k]);
  }

  ghost predicate CanTake(s: State, step: Step) {
    exists s' :: Next(s, step, s')
  }

  /**
    In every state of every run each producer can go on. With an up-to-date cursor it reserves, or pads the
    end of the ring, if the request fits beside everything reserved, and gives up if it does not.
   */
  lemma ProducerIsNeverStuck(run: seq<State>, steps: seq<Step>, k: nat, t: nat, n: nat)
    requires IsRun(run, steps) && k < |run| && t < |run[k].producers|
    ensures var s := run[k];
      match s.producers[t]
      case Absent => CanTake(s, Begin(t, n))
      case Trying(m, seen) =>
        if seen != s.cursor then CanTake(s, CasFails(t))
        else if Live(s.entries) + Unreleased(s) + m + Overhead(s) > Capacity(s) then CanTake(s, Refuse(t))
        else CanTake(s, Reserve(t)) || CanTake(s, ReservePadding(t))
      case SetSize(_, _, _, _, _, _) => CanTake(s, WriteSize(t))
      case SetState(_, _, _, _, _, _) => CanTake(s, StoreState(t))
      case Filling(_, _, _) => CanTake(s, Commit(t))
  {
    hide IsRun, TilingOk, EntryOk, FreeIsZero, HistoryOk, ConsumerOk, Owns;
    RunKeepsInv(run, steps, k);
    var s := run[k];
    assert ProducerOk(s, t);
    match s.producers[t] {
      case Absent => assert Next(s, Begin(t, n), Goto(s, t, Trying(n, s.cursor)));
      case Trying(_, _) => TryingCanGoOn(s, t);
      case _ => OwnerCanGoOn(s, t);
    }
  }

  lemma TryingCanGoOn(s: State, t: nat)
    requires CursorOk(s) && t < |s.producers| && s.producers[t].Trying?
    ensures var m, seen := s.producers[t].n, s.producers[t].seen;
      if seen != s.cursor then CanTake(s, CasFails(t))
      else if Live(s.entries) + Unreleased(s) + m + Overhead(s) > Capacity(s) then CanTake(s, Refuse(t))
      else CanTake(s, Reserve(t)) || CanTake(s, ReservePadding(t))
  {
    var m, seen := s.producers[t].n, s.producers[t].seen;
    if seen != s.cursor {
      assert Next(s, CasFails(t), Goto(s, t, Trying(m, s.cursor)));
    } else if m + Overhead(s) + seen.size > Capacity(s) {
      assert Next(s, Refuse(t), Goto(s, t, Absent));
    } else if IsPaddingNeeded(s, seen, m + Overhead(s)) {
      assert Next(s, ReservePadding(t), DoReserve(s, t, Capacity(s) - seen.write, true));
    } else {
      assert Next(s, Reserve(t), DoReserve(s, t, m + Overhead(s), false));
    }
  }

  lemma OwnerCanGoOn(s: State, t: nat)
    requires t < |s.producers| && Owns(s, t, s.producers[t])
    ensures match s.producers[t]
      case SetSize(_, _, _, _, _, _) => CanTake(s, WriteSize(t))
      case SetState(_, _, _, _, _, _) => CanTake(s, StoreState(t))
      case _ => CanTake(s, Commit(t))
  {
    var me := s.producers[t];
    var k, header := me.id - s.popped, me.at + s.front;
    if me.SetSize? {
      assert Next(s, WriteSize(t), Goto(s, t, SetState(me.n, me.seen, me.at, me.len, me.id, me.pad)).(
        mem := s.mem[header := Word(s.mem[header].lo, me.len - Overhead(s))]));
    } else if me.SetState? {
      var p := if me.pad then Trying(me.n, me.seen) else Filling(me.at, me.len, me.id);
      assert Next(s, StoreState(t), Goto(s, t, p).(
        mem := s.mem[header := Word(if me.pad then PADDING else ALLOCATED, s.mem[header].hi)],
        entries := if me.pad then s.entries[k := s.entries[k].(progress := ReadyPad)] else s.entries));
    } else {
      var payload := s.mem[PayloadAt(s, me.at)..me.at + me.len - s.tail];
      assert Next(s, Commit(t), Goto(s, t, Absent).(
        mem := s.mem[header := Word(COMMITTED, s.mem[header].hi)],
        entries := s.entries[k := s.entries[k].(progress := Ready(payload))],
        committed := s.committed[me.id := payload]));
    }
  }

  ghost predicate ConsumerCanGoOn(s: State, at: nat) {
    match s.consumer
    case AtRest => CanTake(s, LoadFront)
    case HasFront => CanTake(s, BeginPop)
    case Clearing(len) =>
      if forall i :: s.read <= i < s.read + len ==> i < |s.mem| && s.mem[i] == ZERO then CanTake(s, FinishClear)
      else s.read <= at < s.read + len ==> CanTake(s, ZeroWord(at))
    case Releasing(_) => CanTake(s, Release)
  }

  /** So can the consumer: it may look, pop what it found, clear every word of it, and give the words back. */
  lemma ConsumerIsNeverStuck(run: seq<State>, steps: seq<Step>, k: nat, at: nat)
    requires IsRun(run, steps) && k < |run|
    ensures ConsumerCanGoOn(run[k], at)
  {
    hide IsRun, TilingOk, EntryOk, ProducerOk, FreeIsZero, HistoryOk, CursorOk, ConsumerOk, ConsumerCanGoOn;
    RunKeepsInv(run, steps, k);
    var s := run[k];
    assert s.entries != [] ==> EntryOk(s, 0);
    StateCanGoOn(s, at);
  }

  lemma StateCanGoOn(s: State, at: nat)
    requires CursorOk(s) && TilingOk(s) && ConsumerOk(s) && (s.entries != [] ==> EntryOk(s, 0))
    ensures ConsumerCanGoOn(s, at)
  {
    hide NextProducer;
    var header := s.mem[s.read + s.front];
    if s.entries != [] { assert Tiles(s, 0); }
    match s.consumer {
      case AtRest =>
        assert Next(s, LoadFront, s.(consumer := if header.lo <= ALLOCATED then AtRest else HasFront));
      case HasFront =>
        var from := PayloadAt(s, s.read);
        assert Next(s, BeginPop, s.(consumer := Clearing(header.hi + Overhead(s)),
          received := if header.lo == PADDING then s.received else s.received + [s.mem[from..from + header.hi]]));
      case Clearing(len) =>
        if s.read <= at < s.read + len { assert Next(s, ZeroWord(at), s.(mem := s.mem[at := ZERO])); }
        if forall i :: s.read <= i < s.read + len ==> i < |s.mem| && s.mem[i] == ZERO {
          assert Next(s, FinishClear, s.(consumer := Releasing(len), read := (s.read + len) % Capacity(s),
            entries := s.entries[1..], popped := s.popped + 1));
        }
      case Releasing(len) =>
        assert Next(s, Release, s.(consumer := AtRest, cursor := s.cursor.(size := s.cursor.size - len)));
    }
  }
}
