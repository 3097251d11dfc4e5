/**
  The jitter buffer: RTP packets in a linked list over a fixed store of 300 items, kept in the order
  of their 16-bit sequence numbers, which wrap from 65535 to 0 and are compared by the sign of their
  difference as a 16-bit integer (serial number arithmetic, section 3.2 of RFC 1982).

  Pointers are indices into the item store, with -1 for the null pointer.
 */
module JitterBufferList {
  import opened Wrappers

  const SIZE: nat := 300

  type Item = i: int | 0 <= i < SIZE

  type SequenceNumber = n: int | 0 <= n < 0x1_0000

  /** A packet whose bytes hold no RTP header is corrupt. */
  datatype Packet = Corrupt | Rtp(number: SequenceNumber, payload: nat)

  /** The difference of two sequence numbers, cast to a 16-bit signed integer. */
  function Diff(a: SequenceNumber, b: SequenceNumber): int {
    var d := (a - b) % 0x1_0000;
    if d < 0x8000 then d else d - 0x1_0000
  }

  // ---------------------------------------------------------------------------------------
  // What the buffer does to its contents

  predicate AllRtp(c: seq<Packet>) {
    forall i :: 0 <= i < |c| ==> c[i].Rtp?
  }

  /** The place of the first packet that is newer than n, or the number of packets. */
  function FirstNewer(c: seq<Packet>, n: SequenceNumber): (k: nat)
    requires AllRtp(c)
    ensures k <= |c|
    ensures forall i :: 0 <= i < k ==> Diff(c[i].number, n) <= 0
    ensures k < |c| ==> Diff(c[k].number, n) > 0
  {
    if c == [] || Diff(c[0].number, n) > 0 then 0
    else
      var k := FirstNewer(c[1..], n);
      assert forall i :: 1 <= i < k + 1 ==> c[i] == c[1..][i - 1];
      1 + k
  }

  predicate GoesLast(c: seq<Packet>, n: SequenceNumber)
    requires AllRtp(c)
  {
    c == [] || Diff(n, c[|c| - 1].number) >= 0
  }

  /** The contents after adding a packet, or nothing if the scan finds no place for it. */
  function Inserted(c: seq<Packet>, p: Packet): Option<seq<Packet>>
    requires AllRtp(c) && p.Rtp?
  {
    if GoesLast(c, p.number) then Some(c + [p])
    else
      var k := FirstNewer(c, p.number);
      if k == |c| then None else Some(c[..k] + [p] + c[k..])
  }

  /** The scan finds no place only for a packet exactly half a cycle away from the last one. */
  lemma NoPlaceIff(c: seq<Packet>, p: Packet)
    requires AllRtp(c) && p.Rtp?
    ensures Inserted(c, p).None? <==>
      && c != [] && (p.number - c[|c| - 1].number) % 0x1_0000 == 0x8000
      && forall i :: 0 <= i < |c| ==> Diff(c[i].number, p.number) <= 0
  {
  }

  // ---------------------------------------------------------------------------------------
  // Stable sorting

  /** All packets lie in a window of sequence numbers shorter than half the cycle. */
  ghost predicate InWindow(c: seq<Packet>) {
    AllRtp(c) && exists base: SequenceNumber :: FitsFrom(c, base)
  }

  predicate FitsFrom(c: seq<Packet>, base: SequenceNumber)
    requires AllRtp(c)
  {
    forall i :: 0 <= i < |c| ==> Offset(c[i].number, base) < 0x8000
  }

  function Offset(n: SequenceNumber, base: SequenceNumber): nat {
    (n - base) % 0x1_0000
  }

  lemma DiffOfOffsets(a: SequenceNumber, b: SequenceNumber, base: SequenceNumber)
    requires Offset(a, base) < 0x8000 && Offset(b, base) < 0x8000
    ensures Diff(a, b) == Offset(a, base) - Offset(b, base)
  {
  }

  predicate Sorted(c: seq<Packet>)
    requires AllRtp(c)
  {
    forall i, j :: 0 <= i < j < |c| ==> Diff(c[j].number, c[i].number) >= 0
  }

  /** The packets with a given sequence number, in order. */
  function WithNumber(c: seq<Packet>, n: SequenceNumber): seq<Packet>
    requires AllRtp(c)
  {
    if c == [] then []
    else WithNumber(c[..|c| - 1], n) + if c[|c| - 1].number == n then [c[|c| - 1]] else []
  }

  /** The list r is sorted and holds the packets of l, packets of equal number in the same order. */
  ghost predicate IsStableSort(r: seq<Packet>, l: seq<Packet>) {
    && AllRtp(r) && AllRtp(l) && Sorted(r)
    && forall n: SequenceNumber :: WithNumber(r, n) == WithNumber(l, n)
  }

  lemma {:induction false} WithNumberConcat(a: seq<Packet>, b: seq<Packet>, n: SequenceNumber)
    requires AllRtp(a) && AllRtp(b)
    ensures WithNumber(a + b, n) == WithNumber(a, n) + WithNumber(b, n)
    decreases |b|
  {
    if b == [] {
      assert a + b == a;
    } else {
      var most := b[..|b| - 1];
      WithNumberConcat(a, most, n);
      assert (a + b)[..|a + b| - 1] == a + most;
    }
  }

  lemma {:induction false} NoneWithNumber(c: seq<Packet>, n: SequenceNumber)
    requires AllRtp(c) && forall i :: 0 <= i < |c| ==> c[i].number != n
    ensures WithNumber(c, n) == []
  {
    if c != [] { NoneWithNumber(c[..|c| - 1], n); }
  }

  /** In a window, a packet finds its place: the list stays sorted, behind packets of equal number. */
  lemma InsertedIsStable(c: seq<Packet>, p: Packet)
    requires p.Rtp? && AllRtp(c) && Sorted(c) && InWindow(c + [p])
    ensures Inserted(c, p).Some?
    ensures AllRtp(Inserted(c, p).value) && Sorted(Inserted(c, p).value)
    ensures forall n: SequenceNumber :: WithNumber(Inserted(c, p).value, n) == WithNumber(c + [p], n)
  {
    var base: SequenceNumber :| FitsFrom(c + [p], base);
    forall i | 0 <= i < |c| ensures Offset(c[i].number, base) < 0x8000 {
      assert (c + [p])[i] == c[i];
    }
    assert (c + [p])[|c|] == p;
    assert Offset(p.number, base) < 0x8000;
    var k := if GoesLast(c, p.number) then |c| else FirstNewer(c, p.number);
    PlaceSplits(c, p.number, base, k);
    var r := c[..k] + [p] + c[k..];
    assert c[..|c|] + [p] + c[|c|..] == c + [p];
    assert Inserted(c, p) == Some(r);
    SortedWith(c, p, base, k);
    forall n: SequenceNumber ensures WithNumber(r, n) == WithNumber(c + [p], n) {
      SameNumbers(c, p, base, k, n);
    }
  }

  /** Before the place everything is at most n, from the place on everything is above it. */
  ghost predicate Splits(c: seq<Packet>, n: SequenceNumber, base: SequenceNumber, k: nat)
    requires AllRtp(c)
  {
    && k <= |c|
    && (forall i :: 0 <= i < k ==> Offset(c[i].number, base) <= Offset(n, base))
    && (forall i :: k <= i < |c| ==> Offset(c[i].number, base) > Offset(n, base))
  }

  lemma PlaceSplits(c: seq<Packet>, n: SequenceNumber, base: SequenceNumber, k: nat)
    requires AllRtp(c) && Sorted(c) && FitsFrom(c, base) && Offset(n, base) < 0x8000
    requires k == if GoesLast(c, n) then |c| else FirstNewer(c, n)
    ensures Splits(c, n, base, k)
    ensures !GoesLast(c, n) ==> k < |c|
  {
    hide Offset, Diff;
    forall i | 0 <= i < |c|
      ensures Diff(c[i].number, n) == Offset(c[i].number, base) - Offset(n, base)
    {
      DiffOfOffsets(c[i].number, n, base);
    }
    forall i, j | 0 <= i < j < |c| ensures Offset(c[i].number, base) <= Offset(c[j].number, base) {
      DiffOfOffsets(c[j].number, c[i].number, base);
    }
    if c != [] { DiffOfOffsets(n, c[|c| - 1].number, base); }
  }

  lemma SortedWith(c: seq<Packet>, p: Packet, base: SequenceNumber, k: nat)
    requires AllRtp(c) && p.Rtp? && Sorted(c) && FitsFrom(c, base) && Offset(p.number, base) < 0x8000
    requires Splits(c, p.number, base, k)
    ensures AllRtp(c[..k] + [p] + c[k..]) && Sorted(c[..k] + [p] + c[k..])
  {
    hide Offset, Diff;
    var r := c[..k] + [p] + c[k..];
    forall i, j | 0 <= i < j < |r| ensures Diff(r[j].number, r[i].number) >= 0 {
      var x, y := if i < k then c[i] else if i == k then p else c[i - 1],
                  if j < k then c[j] else if j == k then p else c[j - 1];
      assert r[i] == x && r[j] == y;
      DiffOfOffsets(y.number, x.number, base);
    }
  }

  lemma SameNumbers(c: seq<Packet>, p: Packet, base: SequenceNumber, k: nat, n: SequenceNumber)
    requires AllRtp(c) && p.Rtp? && Splits(c, p.number, base, k)
    ensures WithNumber(c[..k] + [p] + c[k..], n) == WithNumber(c + [p], n)
  {
    hide Offset, Diff;
    assert c[..k] + c[k..] == c;
    WithNumberConcat(c[..k], [p], n);
    WithNumberConcat(c[..k] + [p], c[k..], n);
    WithNumberConcat(c[..k], c[k..], n);
    WithNumberConcat(c, [p], n);
    if n == p.number {
      NoneWithNumber(c[k..], n);
    }
  }

  // ---------------------------------------------------------------------------------------
  // Whole runs

  /** The contents, and the number of items the store has lost to packets that found no place. */
  datatype Buffer = Buffer(contents: seq<Packet>, lost: nat)

  predicate Taken(b: Buffer, p: Packet)
    requires AllRtp(b.contents)
  {
    p.Rtp? && |b.contents| + b.lost < SIZE && Inserted(b.contents, p).Some?
  }

  function AfterAdd(b: Buffer, p: Packet): Buffer
    requires AllRtp(b.contents)
  {
    if p.Corrupt? || |b.contents| + b.lost >= SIZE then b
    else match Inserted(b.contents, p)
      case Some(c) => b.(contents := c)
      case None => b.(lost := b.lost + 1)
  }

  function AfterPop(b: Buffer): Buffer {
    if b.contents == [] then b else b.(contents := b.contents[1..])
  }

  datatype Operation = Add(packet: Packet) | Pop

  function After(b: Buffer, op: Operation): Buffer
    requires AllRtp(b.contents)
  {
    match op
    case Add(p) => AfterAdd(b, p)
    case Pop => AfterPop(b)
  }

  lemma AfterKeepsRtp(b: Buffer, op: Operation)
    requires AllRtp(b.contents)
    ensures AllRtp(After(b, op).contents)
  {
  }

  /** The packets added and not yet popped, in order of arrival. */
  function Waiting(b: Buffer, arrivals: seq<Packet>, op: Operation): seq<Packet>
    requires AllRtp(b.contents) && AllRtp(arrivals)
  {
    match op
    case Add(p) => if Taken(b, p) then arrivals + [p] else arrivals
    case Pop => if b.contents == [] then arrivals else WithoutFirst(arrivals, b.contents[0].number)
  }

  function WithoutFirst(l: seq<Packet>, n: SequenceNumber): (r: seq<Packet>)
    requires AllRtp(l)
    ensures AllRtp(r)
  {
    if l == [] then []
    else if WithNumber(l[..|l| - 1], n) == [] && l[|l| - 1].number == n then l[..|l| - 1]
    else WithoutFirst(l[..|l| - 1], n) + [l[|l| - 1]]
  }

  lemma {:induction false} WithoutFirstNumbers(l: seq<Packet>, n: SequenceNumber, m: SequenceNumber)
    requires AllRtp(l)
    ensures WithNumber(WithoutFirst(l, n), m) ==
      if m == n && WithNumber(l, n) != [] then WithNumber(l, n)[1..] else WithNumber(l, m)
  {
    if l != [] {
      var most, last := l[..|l| - 1], l[|l| - 1];
      WithoutFirstNumbers(most, n, m);
      WithNumberConcat(WithoutFirst(most, n), [last], m);
      assert [last][..0] == [];
    }
  }

  /** A run: the buffer and the waiting packets after each operation, starting empty. */
  function Run(ops: seq<Operation>): (r: (Buffer, seq<Packet>))
    ensures AllRtp(r.0.contents) && AllRtp(r.1)
  {
    if ops == [] then (Buffer([], 0), [])
    else
      var before := Run(ops[..|ops| - 1]);
      var op := ops[|ops| - 1];
      AfterKeepsRtp(before.0, op);
      (After(before.0, op), Waiting(before.0, before.1, op))
  }

  /** Every added packet fits a window with those it joins. */
  ghost predicate Windowed(ops: seq<Operation>) {
    forall i :: 0 <= i < |ops| && ops[i].Add? && ops[i].packet.Rtp? ==>
      InWindow(Run(ops[..i]).0.contents + [ops[i].packet])
  }

  lemma {:induction false} AppearsWithNumber(c: seq<Packet>, i: nat)
    requires AllRtp(c) && i < |c|
    ensures WithNumber(c, c[i].number) != []
  {
    if i < |c| - 1 { AppearsWithNumber(c[..|c| - 1], i); }
  }

  lemma PopKeepsStableSort(c: seq<Packet>, l: seq<Packet>)
    requires IsStableSort(c, l) && c != []
    ensures IsStableSort(c[1..], WithoutFirst(l, c[0].number))
    ensures WithNumber(l, c[0].number) != [] && WithNumber(l, c[0].number)[0] == c[0]
  {
    var n := c[0].number;
    assert [c[0]] + c[1..] == c;
    assert [c[0]][..0] == [];
    assert WithNumber([c[0]], n) == [c[0]];
    forall m: SequenceNumber ensures WithNumber(c[1..], m) == WithNumber(WithoutFirst(l, n), m) {
      WithNumberConcat([c[0]], c[1..], m);
      WithNumberConcat([c[0]], c[1..], n);
      WithoutFirstNumbers(l, n, m);
    }
    WithNumberConcat([c[0]], c[1..], n);
  }

  /**
    In every run of adds and pops in which each added packet fits a window with the buffered ones,
    the buffer is the stable sort of the packets added and not popped, and no item is lost.
   */
  lemma {:induction false} RunIsStableSort(ops: seq<Operation>)
    requires Windowed(ops)
    ensures IsStableSort(Run(ops).0.contents, Run(ops).1)
    ensures Run(ops).0.lost == 0 && |Run(ops).0.contents| <= SIZE
  {
    hide Offset, Diff, WithNumber, WithoutFirst, FirstNewer;
    if ops == [] {
      return;
    }
    var most, op := ops[..|ops| - 1], ops[|ops| - 1];
    assert Windowed(most) by {
      forall i | 0 <= i < |most| ensures most[..i] == ops[..i] {}
    }
    RunIsStableSort(most);
    var (b, l) := Run(most);
    match op
    case Add(p) =>
      if p.Rtp? {
        assert InWindow(b.contents + [p]);
        InsertedIsStable(b.contents, p);
        forall n: SequenceNumber ensures WithNumber(b.contents + [p], n) == WithNumber(l + [p], n) {
          WithNumberConcat(b.contents, [p], n);
          WithNumberConcat(l, [p], n);
        }
        InsertedLength(b.contents, p);
      }
    case Pop =>
      if b.contents != [] { PopKeepsStableSort(b.contents, l); }
  }

  lemma InsertedLength(c: seq<Packet>, p: Packet)
    requires AllRtp(c) && p.Rtp? && Inserted(c, p).Some?
    ensures |Inserted(c, p).value| == |c| + 1
  {
  }

  /** A popped packet is the first to have arrived among the oldest waiting ones. */
  lemma PopReturnsOldest(ops: seq<Operation>)
    requires Windowed(ops) && Run(ops).0.contents != []
    ensures var (b, l) := Run(ops);
      var first := b.contents[0];
      && WithNumber(l, first.number) != [] && WithNumber(l, first.number)[0] == first
      && forall i :: 0 <= i < |l| ==> Diff(l[i].number, first.number) >= 0
  {
    hide Diff, Offset, WithoutFirst, FirstNewer;
    RunIsStableSort(ops);
    var (b, l) := Run(ops);
    PopKeepsStableSort(b.contents, l);
    forall i | 0 <= i < |l| ensures Diff(l[i].number, b.contents[0].number) >= 0 {
      AppearsWithNumber(l, i);
      var k := HoldsNumber(b.contents, l[i].number);
      DiffSelf(l[i].number);
    }
  }

  lemma DiffSelf(n: SequenceNumber)
    ensures Diff(n, n) == 0
  {
  }

  lemma {:induction false} HoldsNumber(c: seq<Packet>, n: SequenceNumber) returns (k: nat)
    requires AllRtp(c) && WithNumber(c, n) != []
    ensures k < |c| && c[k].number == n
  {
    if c[|c| - 1].number == n { k := |c| - 1; } else { k := HoldsNumber(c[..|c| - 1], n); }
  }

  /** Such packets exist: 0x8000 right after 0 finds no place, and an item is lost. */
  lemma HalfCycleLosesItem()
    ensures Run([Add(Rtp(0, 1)), Add(Rtp(0x8000, 2))]) == (Buffer([Rtp(0, 1)], 1), [Rtp(0, 1)])
  {
    var first := [Add(Rtp(0, 1))];
    var both := first + [Add(Rtp(0x8000, 2))];
    assert both == [Add(Rtp(0, 1)), Add(Rtp(0x8000, 2))];
    assert first[..0] == [] && both[..1] == first;
    assert [] + [Rtp(0, 1)] == [Rtp(0, 1)];
    assert Run(first) == (Buffer([Rtp(0, 1)], 0), [Rtp(0, 1)]);
    NoPlaceIff([Rtp(0, 1)], Rtp(0x8000, 2));
  }

  // ---------------------------------------------------------------------------------------
  // Linked lists in the item store

  /** What follows place i of a list: the next item, or null at the end. */
  function Following(list: seq<Item>, i: int): int
    requires -1 <= i < |list|
  {
    if i + 1 < |list| then list[i + 1] else -1
  }

  /** Following the next pointers from head visits the items of the list and ends. */
  ghost predicate Chain(head: int, list: seq<Item>, next: seq<int>)
    requires |next| == SIZE
  {
    && head == Following(list, -1)
    && (forall i {:trigger next[list[i]]} :: 0 <= i < |list| ==> next[list[i]] == Following(list, i))
  }

  lemma ChainHead(head: int, list: seq<Item>, next: seq<int>)
    requires |next| == SIZE && Chain(head, list, next)
    ensures head == if list == [] then -1 else list[0]
  {
  }

  ghost predicate Distinct(list: seq<Item>) {
    forall i, j :: 0 <= i < j < |list| ==> list[i] != list[j]
  }

  lemma ChainFrame(head: int, list: seq<Item>, next: seq<int>, at: Item, value: int)
    requires |next| == SIZE && Chain(head, list, next) && at !in list
    ensures Chain(head, list, next[at := value])
  {
  }

  lemma ChainAppend(head: int, list: seq<Item>, next: seq<int>, item: Item)
    requires |next| == SIZE && Chain(head, list, next) && list != [] && Distinct(list)
    requires item !in list && next[item] == -1
    ensures Chain(head, list + [item], next[list[|list| - 1] := item])
  {
    var more, after := list + [item], next[list[|list| - 1] := item];
    forall i | 0 <= i < |more| ensures after[more[i]] == Following(more, i) {
      if i < |list| { assert next[list[i]] == Following(list, i); }
    }
  }

  lemma ChainRest(head: int, list: seq<Item>, next: seq<int>)
    requires |next| == SIZE && Chain(head, list, next) && list != []
    ensures head == list[0] && Chain(next[head], list[1..], next)
  {
    assert next[list[0]] == Following(list, 0);
    var rest := list[1..];
    forall i | 0 <= i < |rest| ensures next[rest[i]] == Following(rest, i) {
      assert next[list[i + 1]] == Following(list, i + 1);
    }
  }

  lemma ChainPush(head: int, list: seq<Item>, next: seq<int>, item: Item)
    requires |next| == SIZE && Chain(head, list, next) && item !in list
    ensures Chain(item, [item] + list, next[item := head])
  {
    var more, after := [item] + list, next[item := head];
    forall i | 0 <= i < |more| ensures after[more[i]] == Following(more, i) {
      if i > 0 { assert next[list[i - 1]] == Following(list, i - 1); }
    }
  }

  /** An item is put before place k by pointing it at the old item there, and the pointer there at it. */
  lemma ChainInsert(head: int, list: seq<Item>, next: seq<int>, k: nat, item: Item)
    requires |next| == SIZE && Chain(head, list, next) && Distinct(list) && 0 < k < |list|
    requires item !in list
    ensures Chain(head, list[..k] + [item] + list[k..], next[item := list[k]][list[k - 1] := item])
  {
    var more, after := list[..k] + [item] + list[k..], next[item := list[k]][list[k - 1] := item];
    forall i | 0 <= i < |more| ensures after[more[i]] == Following(more, i) {
      if i < k {
        assert more[i] == list[i] && next[list[i]] == Following(list, i);
      } else if i > k {
        assert more[i] == list[i - 1] && next[list[i - 1]] == Following(list, i - 1);
      }
    }
  }

  /** Every item of the store is in exactly one of three lists. */
  ghost predicate Partition(linked: seq<Item>, free: seq<Item>, lost: seq<Item>) {
    && Distinct(linked) && Distinct(free) && Distinct(lost)
    && Apart(linked, free) && Apart(linked, lost) && Apart(free, lost)
    && |linked| + |free| + |lost| == SIZE
  }

  ghost predicate Apart(a: seq<Item>, b: seq<Item>) {
    forall x :: x in a ==> x !in b
  }

  lemma PartitionPop(linked: seq<Item>, free: seq<Item>, lost: seq<Item>)
    requires Partition(linked, free, lost) && linked != []
    ensures linked[0] !in linked[1..] && linked[0] !in free
    ensures Partition(linked[1..], [linked[0]] + free, lost)
  {
    assert linked[0] in linked;
    assert forall x :: x in linked[1..] ==> x in linked;
    var more := [linked[0]] + free;
    forall i, j | 0 <= i < j < |more| ensures more[i] != more[j] {
      assert more[j] in free;
    }
  }

  lemma PartitionTake(linked: seq<Item>, free: seq<Item>, lost: seq<Item>, k: nat)
    requires Partition(linked, free, lost) && free != [] && k <= |linked|
    ensures free[0] !in linked && free[0] !in free[1..]
    ensures Partition(linked[..k] + [free[0]] + linked[k..], free[1..], lost)
  {
    assert free[0] in free;
    assert forall x :: x in free[1..] ==> x in free;
    var item := free[0];
    var more := linked[..k] + [item] + linked[k..];
    forall i | 0 <= i < |more| ensures more[i] == if i < k then linked[i] else if i == k then item else linked[i - 1] {}
    assert forall x :: x in more ==> x in linked || x == item;
    forall i, j | 0 <= i < j < |more| ensures more[i] != more[j] {
      assert i < k ==> more[i] in linked;
      assert j > k ==> more[j] in linked;
    }
  }

  lemma PartitionLose(linked: seq<Item>, free: seq<Item>, lost: seq<Item>)
    requires Partition(linked, free, lost) && free != []
    ensures free[0] !in linked && free[0] !in free[1..]
    ensures Partition(linked, free[1..], lost + [free[0]])
  {
    assert free[0] in free;
    assert forall x :: x in free[1..] ==> x in free;
    var more := lost + [free[0]];
    forall i, j | 0 <= i < j < |more| ensures more[i] != more[j] {
      assert more[i] in lost;
    }
  }

  lemma PartitionCount(linked: seq<Item>, free: seq<Item>, lost: seq<Item>)
    requires Partition(linked, free, lost)
    ensures |linked| + |free| + |lost| == SIZE
  {
  }

  /** A free item can be linked at any place. */
  lemma PartitionLink(linked: seq<Item>, item: Item, free: seq<Item>, lost: seq<Item>, k: nat)
    requires Partition(linked, [item] + free, lost) && k <= |linked|
    ensures Distinct(linked) && item !in linked && item !in free
    ensures forall i :: 0 <= i < |linked| ==> linked[i] !in free
    ensures Partition(linked[..k] + [item] + linked[k..], free, lost)
  {
    var all := [item] + free;
    assert all[1..] == free;
    PartitionTake(linked, all, lost, k);
    assert forall x :: x in free ==> x in all;
    assert forall i :: 0 <= i < |linked| ==> linked[i] in linked;
  }

  lemma ChainSingle(item: Item, next: seq<int>)
    requires |next| == SIZE && next[item] == -1
    ensures Chain(item, [item], next)
  {
  }

  lemma ChainAt(head: int, list: seq<Item>, next: seq<int>, k: nat)
    requires |next| == SIZE && Chain(head, list, next) && k < |list|
    ensures next[list[k]] == Following(list, k)
  {
  }

  lemma FirstNewerIs(c: seq<Packet>, n: SequenceNumber, k: nat)
    requires AllRtp(c) && k <= |c|
    requires forall i :: 0 <= i < k ==> Diff(c[i].number, n) <= 0
    requires k < |c| ==> Diff(c[k].number, n) > 0
    ensures FirstNewer(c, n) == k
  {
    hide FirstNewer, Diff;
  }

  function Gather(list: seq<Item>, packets: seq<Packet>): (r: seq<Packet>)
    requires |packets| == SIZE
    ensures |r| == |list| && forall i :: 0 <= i < |list| ==> r[i] == packets[list[i]]
  {
    seq(|list|, i requires 0 <= i < |list| => packets[list[i]])
  }

  class JitterBufferList {
    const next: array<int>
    const packets: array<Packet>
    var freeItems: int
    var head: int
    var tail: int
    var count: nat
    /** The items in the list, the free items, and the items lost to packets that found no place. */
    ghost var linked: seq<Item>
    ghost var free: seq<Item>
    ghost var lost: seq<Item>

    ghost predicate Valid()
      reads this, next, packets
    {
      && next.Length == SIZE && packets.Length == SIZE && {next as object} !! {packets as object}
      && Chain(head, linked, next[..]) && Chain(freeItems, free, next[..])
      && tail == (if linked == [] then -1 else linked[|linked| - 1])
      && Partition(linked, free, lost)
      && count == |linked| + |lost|
      && AllRtp(Contents())
    }

    /** The packets in list order. */
    ghost function Contents(): seq<Packet>
      requires packets.Length == SIZE
      reads this, packets
    {
      Gather(linked, packets[..])
    }

    ghost function Value(): Buffer
      requires Valid()
      reads this, next, packets
    {
      Buffer(Contents(), |lost|)
    }

    constructor ()
      ensures Valid() && Value() == Buffer([], 0) && fresh(next) && fresh(packets)
    {
      next := new int[SIZE](i => -1);
      packets := new Packet[SIZE](i => Corrupt);
      head, tail, count, linked, lost := -1, -1, 0, [], [];
      freeItems, free := -1, [];
      new;
      for i := 0 to SIZE
        invariant Chain(freeItems, free, next[..])
        invariant |free| == i && Distinct(free) && forall k :: 0 <= k < i ==> free[k] < i
        invariant head == -1 && tail == -1 && count == 0 && linked == [] && lost == []
      {
        ChainPush(freeItems, free, next[..], i);
        next[i] := freeItems;
        freeItems := i;
        free := [i] + free;
      }
    }

    method AllocItem() returns (item: int)
      requires Valid()
      modifies this, next
      ensures linked == old(linked) && head == old(head) && tail == old(tail) && count == old(count) && lost == old(lost)
      ensures item == -1 ==> Valid() && old(free) == [] && free == []
      ensures item != -1 ==>
        && old(free) != [] && item == old(free)[0] && free == old(free)[1..]
        && Chain(head, linked, next[..]) && Chain(freeItems, free, next[..]) && next[item] == -1
    {
      hide Chain, Partition;
      ChainHead(freeItems, free, next[..]);
      if freeItems == -1 {
        return -1;
      }
      item := freeItems;
      PartitionLose(linked, free, lost);
      ChainRest(freeItems, free, next[..]);
      ChainFrame(next[item], free[1..], next[..], item, -1);
      ChainFrame(head, linked, next[..], item, -1);
      freeItems := next[item];
      next[item] := -1;
      free := free[1..];
    }

    /** Links a free item behind the last one, or as the only one. */
    method LinkLast(item: Item, packet: Packet)
      requires Allocated(item) && packets[item] == packet && packet.Rtp?
      requires GoesLast(Contents(), packet.number)
      modifies this, next
      ensures Valid() && lost == old(lost) && Contents() == old(Contents()) + [packet]
    {
      hide Chain, Partition;
      assert linked[..|linked|] + [item] + linked[|linked|..] == linked + [item];
      PartitionLink(linked, item, free, lost, |linked|);
      if tail != -1 {
        ChainAppend(head, linked, next[..], item);
        ChainFrame(freeItems, free, next[..], tail, item);
        next[tail] := item;
      } else {
        ChainSingle(item, next[..]);
        assert linked + [item] == [item];
        head := item;
      }
      tail := item;
      linked := linked + [item];
    }

    /** Links a free item before place k, where prev is the item before that place, or null. */
    method LinkBefore(item: Item, packet: Packet, prev: int, ghost k: nat)
      requires Allocated(item) && packets[item] == packet && packet.Rtp?
      requires k < |linked| && prev == if k == 0 then -1 else linked[k - 1]
      modifies this, next
      ensures Valid() && lost == old(lost)
      ensures Contents() == old(Contents()[..k] + [packet] + Contents()[k..])
    {
      hide Chain, Partition, Gather, Distinct;
      PartitionLink(linked, item, free, lost, k);
      ChainHead(head, linked, next[..]);
      if prev == -1 {
        ChainPush(head, linked, next[..], item);
        ChainFrame(freeItems, free, next[..], item, head);
        assert linked[..k] + [item] + linked[k..] == [item] + linked;
        next[item] := head;
        head := item;
      } else {
        ChainInsert(head, linked, next[..], k, item);
        ChainAt(head, linked, next[..], k - 1);
        ChainFrame(freeItems, free, next[..], item, linked[k]);
        ChainFrame(freeItems, free, next[..][item := linked[k]], prev, item);
        next[item] := next[prev];
        next[prev] := item;
      }
      linked := linked[..k] + [item] + linked[k..];
    }

    /** An item has been taken from the free list and counted, and is in no list yet. */
    ghost predicate Allocated(item: Item)
      reads this, next, packets
    {
      && next.Length == SIZE && packets.Length == SIZE && {next as object} !! {packets as object}
      && Chain(head, linked, next[..]) && Chain(freeItems, free, next[..]) && next[item] == -1
      && tail == (if linked == [] then -1 else linked[|linked| - 1])
      && Partition(linked, [item] + free, lost)
      && count == |linked| + 1 + |lost|
      && AllRtp(Contents())
    }

    method Add(packet: Packet) returns (ok: bool)
      requires Valid()
      modifies this, next, packets
      ensures Valid() && Value() == AfterAdd(old(Value()), packet)
      ensures ok <==> Taken(old(Value()), packet)
    {
      hide Chain, Partition, FirstNewer, Diff, Gather;
      if packet.Corrupt? {
        return false;
      }
      ghost var before := Contents();
      PartitionCount(linked, free, lost);
      var item := AllocItem();
      if item == -1 {
        return false;
      }
      assert [item as Item] + free == old(free);
      PartitionLose(linked, old(free), lost);
      packets[item] := packet;
      assert Contents() == before;
      count := count + 1;
      if tail == -1 || Diff(packet.number, packets[tail].number) >= 0 {
        LinkLast(item, packet);
        return true;
      }
      var prev, current, k := Scan(packet.number);
      if current != -1 {
        LinkBefore(item, packet, prev, k);
        return true;
      }
      assert ([item as Item] + free)[1..] == free;
      lost := lost + [item];
      return false;
    }

    /** Walks to the first packet newer than n, keeping the item before it. */
    method Scan(n: SequenceNumber) returns (prev: int, current: int, ghost k: nat)
      requires next.Length == SIZE && packets.Length == SIZE && Chain(head, linked, next[..]) && AllRtp(Contents())
      ensures k == FirstNewer(Contents(), n)
      ensures current == Following(linked, k - 1) && prev == if k == 0 then -1 else linked[k - 1]
    {
      hide Chain, FirstNewer, Diff;
      ChainHead(head, linked, next[..]);
      prev, current, k := -1, head, 0;
      while current != -1
        invariant k <= |linked| && current == Following(linked, k - 1)
        invariant prev == if k == 0 then -1 else linked[k - 1]
        invariant forall i :: 0 <= i < k ==> Diff(Contents()[i].number, n) <= 0
        decreases |linked| - k
      {
        if Diff(packets[current].number, n) > 0 {
          break;
        }
        ChainAt(head, linked, next[..], k);
        prev, current := current, next[current];
        k := k + 1;
      }
      FirstNewerIs(Contents(), n, k);
    }

    method Pop() returns (packet: Option<Packet>)
      requires Valid()
      modifies this, next
      ensures Valid() && Value() == AfterPop(old(Value()))
      ensures packet == if old(Contents()) == [] then None else Some(old(Contents()[0]))
    {
      hide Chain, Partition;
      ChainHead(head, linked, next[..]);
      if head == -1 {
        return None;
      }
      var item := head;
      PartitionPop(linked, free, lost);
      ChainRest(head, linked, next[..]);
      head := next[item];
      if tail == item {
        tail := -1;
      }
      ChainFrame(head, linked[1..], next[..], item, freeItems);
      ChainPush(freeItems, free, next[..], item);
      next[item] := freeItems;
      freeItems := item;
      linked, free := linked[1..], [item as Item] + free;
      count := count - 1;
      return Some(packets[item]);
    }
  }
}
