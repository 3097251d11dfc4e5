/**
  The generic NACK of section 6.2.1 of RFC 4585: a feedback packet listing lost sequence numbers,
  each item a packet id (PID) and a 16-bit mask (BLP) of the sixteen numbers after it. The builder
  appends numbers and writes the packet; the reader counts them.

  Unsigned 16-bit words are natural numbers below 65536, bytes natural numbers below 256.
 */
module RtcpNack {
  const MAX_PIDS: nat := 16
  const DATA_SIZE: nat := 128
  const HEADER_SIZE: nat := 12

  type Byte = b: int | 0 <= b < 256
  type Word16 = w: int | 0 <= w < 0x1_0000
  type Word32 = w: int | 0 <= w < 0x1_0000_0000

  // ---------------------------------------------------------------------------------------
  // Bits

  predicate Bit(x: nat, k: nat) {
    if k == 0 then x % 2 == 1 else Bit(x / 2, k - 1)
  }

  /** The bitwise or of two words. */
  function BitOr(x: nat, y: nat): nat
    decreases x
  {
    if x == 0 then y
    else (if x % 2 == 1 || y % 2 == 1 then 1 else 0) + 2 * BitOr(x / 2, y / 2)
  }

  function OneShifted(s: nat): nat {
    if s == 0 then 1 else 2 * OneShifted(s - 1)
  }

  lemma {:induction false} ZeroHasNoBits(k: nat)
    ensures !Bit(0, k)
  {
    if k > 0 { ZeroHasNoBits(k - 1); }
  }

  lemma {:induction false} BitOrBits(x: nat, y: nat, k: nat)
    ensures Bit(BitOr(x, y), k) <==> Bit(x, k) || Bit(y, k)
    decreases x
  {
    if x == 0 {
      ZeroHasNoBits(k);
    } else if k > 0 {
      BitOrBits(x / 2, y / 2, k - 1);
    }
  }

  lemma {:induction false} OneShiftedBits(s: nat, k: nat)
    ensures Bit(OneShifted(s), k) <==> k == s
  {
    if s == 0 {
      if k > 0 { ZeroHasNoBits(k - 1); }
    } else if k > 0 {
      OneShiftedBits(s - 1, k - 1);
    }
  }

  lemma {:induction false} BitOrBound(x: nat, y: nat, n: nat)
    requires x < OneShifted(n) && y < OneShifted(n)
    ensures BitOr(x, y) < OneShifted(n)
    decreases x
  {
    if x > 0 { BitOrBound(x / 2, y / 2, n - 1); }
  }

  lemma {:induction false} OneShiftedGrows(s: nat, n: nat)
    requires s < n
    ensures OneShifted(s) < OneShifted(n)
    decreases n
  {
    if s < n - 1 { OneShiftedGrows(s, n - 1); } else { assert OneShifted(n) == 2 * OneShifted(s); OneShiftedPositive(s); }
  }

  lemma {:induction false} OneShiftedPositive(s: nat)
    ensures OneShifted(s) > 0
  {
    if s > 0 { OneShiftedPositive(s - 1); }
  }

  lemma SixteenBits()
    ensures OneShifted(16) == 0x1_0000
  {
    assert OneShifted(4) == 16;
    assert OneShifted(8) == 256;
    assert OneShifted(12) == 4096;
  }

  // ---------------------------------------------------------------------------------------
  // Items and the numbers they stand for

  datatype Item = Item(pid: Word16, blp: Word16)

  /** An item requests its packet id, and the numbers after it whose mask bit is set. */
  predicate Requests(item: Item, x: nat) {
    x == item.pid || (item.pid < x <= item.pid + 16 && Bit(item.blp, x - 1 - item.pid))
  }

  /** The number x belongs to the range of the item. */
  predicate Covers(item: Item, x: nat) {
    item.pid <= x <= item.pid + 16
  }

  ghost predicate Requested(items: seq<Item>, x: nat) {
    exists i :: 0 <= i < |items| && Requests(items[i], x)
  }

  /** Every number is requested by the first item whose range holds it, so by no other item. */
  ghost predicate FirstFit(items: seq<Item>) {
    forall i, j, x: nat {:trigger Covers(items[i], x), Requests(items[j], x)} ::
      0 <= i < j < |items| && Requests(items[j], x) ==> !Covers(items[i], x)
  }

  /** Every requested number is a 16-bit number: no mask bit reaches past 65535. */
  ghost predicate InRange(items: seq<Item>) {
    forall i, k: nat :: 0 <= i < |items| && Bit(items[i].blp, k) ==> k < 16 && items[i].pid + 1 + k < 0x1_0000
  }

  // ---------------------------------------------------------------------------------------
  // Appending a number

  /** The index of the first item whose range holds x, or the number of items. */
  function FirstCover(items: seq<Item>, x: nat): (r: nat)
    ensures r <= |items|
    ensures r < |items| ==> Covers(items[r], x)
    ensures forall i :: 0 <= i < r ==> !Covers(items[i], x)
  {
    if items == [] then 0
    else if Covers(items[0], x) then 0
    else
      var rest := FirstCover(items[1..], x);
      assert forall i :: 1 <= i < rest + 1 ==> items[i] == items[1..][i - 1];
      rest + 1
  }

  predicate Accepts(items: seq<Item>, x: Word16) {
    FirstCover(items, x) < |items| || |items| < MAX_PIDS
  }

  function WithBit(item: Item, x: Word16): (r: Item)
    requires item.pid < x <= item.pid + 16
    ensures r.pid == item.pid && r.blp == BitOr(item.blp, OneShifted(x - 1 - item.pid))
    ensures forall k: nat :: Bit(r.blp, k) <==> Bit(item.blp, k) || k == x - 1 - item.pid
  {
    var s := x - 1 - item.pid;
    SixteenBits();
    OneShiftedGrows(s, 16);
    BitOrBound(item.blp, OneShifted(s), 16);
    assert forall k: nat :: Bit(BitOr(item.blp, OneShifted(s)), k) <==> Bit(item.blp, k) || k == s by {
      forall k: nat ensures Bit(BitOr(item.blp, OneShifted(s)), k) <==> Bit(item.blp, k) || k == s {
        BitOrBits(item.blp, OneShifted(s), k);
        OneShiftedBits(s, k);
      }
    }
    item.(blp := BitOr(item.blp, OneShifted(s)))
  }

  /** The items after appending x: a mask bit in the first item that can hold it, else a new item. */
  function Added(items: seq<Item>, x: Word16): seq<Item>
    requires Accepts(items, x)
  {
    var i := FirstCover(items, x);
    if i == |items| then items + [Item(x, 0)]
    else if items[i].pid == x then items
    else items[i := WithBit(items[i], x)]
  }

  /** Appending x makes x requested and changes nothing about any other number. */
  lemma AddedRequests(items: seq<Item>, x: Word16, y: Word16)
    requires Accepts(items, x)
    ensures Requested(Added(items, x), y) <==> Requested(items, y) || y == x
  {
    var i := FirstCover(items, x);
    var more := Added(items, x);
    if i == |items| {
      ZeroBits();
      assert Requests(more[i], x);
      forall j | 0 <= j < |items| ensures more[j] == items[j] {}
    } else {
      assert Requests(more[i], x);
      forall j | 0 <= j < |items| ensures Requests(more[j], y) <==> Requests(items[j], y) || (j == i && y == x) {}
    }
  }

  lemma ZeroBits()
    ensures forall k: nat :: !Bit(0, k)
  {
    forall k: nat ensures !Bit(0, k) { ZeroHasNoBits(k); }
  }

  lemma AddedKeepsFirstFit(items: seq<Item>, x: Word16)
    requires Accepts(items, x) && FirstFit(items) && InRange(items)
    ensures FirstFit(Added(items, x)) && InRange(Added(items, x))
  {
    ZeroBits();
    var at := FirstCover(items, x);
    var more := Added(items, x);
    forall i, j, y: nat | 0 <= i < j < |more| && Requests(more[j], y) ensures !Covers(more[i], y) {
      assert more[i].pid == items[i].pid;
      if j < |items| && Requests(items[j], y) {
        assert !Covers(items[i], y);
      } else {
        assert y == x && j == at;
        assert !Covers(items[i], x);
      }
    }
  }

  // ---------------------------------------------------------------------------------------
  // Counting

  function Ones(b: nat): nat {
    if b == 0 then 0 else b % 2 + Ones(b / 2)
  }

  lemma {:induction false} OnesOfBitOr(b: nat, s: nat)
    ensures Ones(BitOr(b, OneShifted(s))) == Ones(b) + if Bit(b, s) then 0 else 1
    decreases s
  {
    OneShiftedPositive(s);
    if b == 0 {
      ZeroHasNoBits(s);
      OnesOfOneShifted(s);
    } else if s == 0 {
      BitOrZero(b / 2);
    } else {
      OnesOfBitOr(b / 2, s - 1);
    }
  }

  lemma {:induction false} OnesOfOneShifted(s: nat)
    ensures Ones(OneShifted(s)) == 1
  {
    OneShiftedPositive(s);
    if s > 0 { OnesOfOneShifted(s - 1); }
  }

  lemma {:induction false} BitOrZero(b: nat)
    ensures BitOr(b, 0) == b
  {
    if b > 0 { BitOrZero(b / 2); }
  }

  /** How many numbers a reader counts: one for each packet id and one for each mask bit. */
  function Total(items: seq<Item>): nat {
    if items == [] then 0 else Total(items[..|items| - 1]) + 1 + Ones(items[|items| - 1].blp)
  }

  lemma {:induction false} TotalUpdate(items: seq<Item>, i: nat, item: Item)
    requires i < |items|
    ensures Total(items[i := item]) == Total(items) - Ones(items[i].blp) + Ones(item.blp)
    decreases |items|
  {
    var n := |items| - 1;
    var more := items[i := item];
    if i < n {
      assert more[..n] == items[..n][i := item];
      TotalUpdate(items[..n], i, item);
    } else {
      assert more[..n] == items[..n];
    }
  }

  /** A reader counts one more number when x is new and no more when it was requested already. */
  lemma AddedTotal(items: seq<Item>, x: Word16)
    requires Accepts(items, x) && FirstFit(items)
    ensures Total(Added(items, x)) == Total(items) + if Requested(items, x) then 0 else 1
  {
    var i := FirstCover(items, x);
    if i == |items| {
      assert (items + [Item(x, 0)])[..|items|] == items;
      assert forall j :: 0 <= j < |items| ==> !Covers(items[j], x);
      assert !Requested(items, x);
    } else {
      assert Requested(items, x) <==> Requests(items[i], x);
      if items[i].pid != x {
        TotalUpdate(items, i, WithBit(items[i], x));
        OnesOfBitOr(items[i].blp, x - 1 - items[i].pid);
      }
    }
  }

  ghost function AllNumbers(items: seq<Item>): set<nat> {
    set x: nat | x < 0x1_0000 && Requested(items, x)
  }

  // ---------------------------------------------------------------------------------------
  // Whole runs

  datatype Run = Run(items: seq<Item>, accepted: set<nat>)

  /** The items and the accepted numbers after appending a list of numbers to an empty builder. */
  function AppendAll(numbers: seq<Word16>): Run {
    if numbers == [] then Run([], {})
    else
      var last := |numbers| - 1;
      var r := AppendAll(numbers[..last]);
      if Accepts(r.items, numbers[last]) then Run(Added(r.items, numbers[last]), r.accepted + {numbers[last]})
      else r
  }

  lemma AppendAllMore(numbers: seq<Word16>, x: Word16)
    ensures var r := AppendAll(numbers);
      AppendAll(numbers + [x]) ==
        if Accepts(r.items, x) then Run(Added(r.items, x), r.accepted + {x}) else r
  {
    assert (numbers + [x])[..|numbers|] == numbers;
  }

  lemma {:induction false} RunIsExact(numbers: seq<Word16>)
    ensures var r := AppendAll(numbers);
      && |r.items| <= MAX_PIDS && FirstFit(r.items) && InRange(r.items)
      && AllNumbers(r.items) == r.accepted
      && Total(r.items) == |r.accepted|
  {
    if numbers != [] {
      var last := |numbers| - 1;
      RunIsExact(numbers[..last]);
      var r := AppendAll(numbers[..last]);
      var x := numbers[last];
      if Accepts(r.items, x) {
        AddedKeepsFirstFit(r.items, x);
        AddedTotal(r.items, x);
        forall y: nat | y < 0x1_0000 ensures Requested(Added(r.items, x), y) <==> Requested(r.items, y) || y == x {
          AddedRequests(r.items, x, y);
        }
        assert Requested(r.items, x) <==> x in r.accepted;
      }
    }
  }

  // ---------------------------------------------------------------------------------------
  // The packet

  function Join(high: Byte, low: Byte): Word16 {
    (high as int) * 256 + low as int
  }

  function High(w: Word16): Byte {
    (w as int) / 256
  }

  function Low(w: Word16): Byte {
    (w as int) % 256
  }

  lemma JoinSplit(w: Word16)
    ensures Join(High(w), Low(w)) == w
  {
  }

  function HeaderLength(data: seq<Byte>): Word16
    requires |data| >= HEADER_SIZE
  {
    Join(data[2], data[3])
  }

  function Word32At(data: seq<Byte>, at: nat): nat
    requires at + 4 <= |data|
  {
    (Join(data[at], data[at + 1]) as int) * 0x1_0000 + Join(data[at + 2], data[at + 3]) as int
  }

  /** The bytes hold a feedback packet whose length field is in range. */
  predicate IsPacket(data: seq<Byte>) {
    |data| >= HEADER_SIZE && HeaderLength(data) >= 2 && 4 + 4 * HeaderLength(data) <= |data|
  }

  function NumFeedbackControlInfos(data: seq<Byte>): (n: nat)
    requires IsPacket(data)
    ensures HEADER_SIZE + 4 * n <= |data|
  {
    (4 + HeaderLength(data) * 4 - HEADER_SIZE) / 4
  }

  function FeedbackControlInfo(data: seq<Byte>, index: nat): Item
    requires HEADER_SIZE + 4 * index + 4 <= |data|
  {
    var at := HEADER_SIZE + 4 * index;
    Item(Join(data[at], data[at + 1]), Join(data[at + 2], data[at + 3]))
  }

  /** What a reader finds in a packet. */
  function Decode(data: seq<Byte>): seq<Item>
    requires IsPacket(data)
  {
    seq(NumFeedbackControlInfos(data), i requires 0 <= i < NumFeedbackControlInfos(data) =>
      FeedbackControlInfo(data, i))
  }

  method CountOnes(mask: Word16) returns (count: nat)
    ensures count == Ones(mask)
  {
    var blp := mask;
    count := 0;
    while blp != 0
      invariant 0 <= blp < 0x1_0000
      invariant count + Ones(blp) == Ones(mask)
      decreases blp
    {
      if blp % 2 == 1 {
        count := count + 1;
      }
      blp := blp / 2;
    }
  }

  /** Counts the numbers of any packet, well built or not. */
  method GetNackPacketCount(data: seq<Byte>) returns (count: nat)
    requires IsPacket(data)
    ensures count == Total(Decode(data))
  {
    hide Join, Ones;
    var items := Decode(data);
    count := 0;
    for i := 0 to NumFeedbackControlInfos(data)
      invariant count == Total(items[..i])
    {
      var item := FeedbackControlInfo(data, i);
      var ones := CountOnes(item.blp);
      assert items[..i + 1][..i] == items[..i];
      count := count + 1 + ones;
    }
    assert items[..|items|] == items;
  }

  /**
    For every list of numbers: a packet that decodes to the items of a builder fed with the list
    requests exactly the accepted numbers, each by exactly one item, and the reader's count is the
    number of distinct accepted numbers.
   */
  lemma RoundTrip(numbers: seq<Word16>, data: seq<Byte>)
    requires IsPacket(data) && Decode(data) == AppendAll(numbers).items
    ensures AllNumbers(Decode(data)) == AppendAll(numbers).accepted
    ensures var items := Decode(data);
      forall x: nat, i, j :: 0 <= i < |items| && 0 <= j < |items| && Requests(items[i], x) && Requests(items[j], x) ==>
        i == j
    ensures Total(Decode(data)) == |AppendAll(numbers).accepted|
  {
    RunIsExact(numbers);
    var items := Decode(data);
    forall x: nat, i, j | 0 <= i < |items| && 0 <= j < |items| && Requests(items[i], x) && Requests(items[j], x)
      ensures i == j
    {
      assert Covers(items[i], x) && Covers(items[j], x);
    }
  }

  /** A number is refused exactly when sixteen items exist and none of their ranges holds it. */
  lemma RefusedIff(numbers: seq<Word16>, x: Word16)
    ensures var items := AppendAll(numbers).items;
      !Accepts(items, x) <==> |items| == MAX_PIDS && forall i :: 0 <= i < |items| ==> !Covers(items[i], x)
  {
    RunIsExact(numbers);
  }

  /** Writes a 32-bit word in network byte order. */
  method WriteWord32(data: array<Byte>, at: nat, w: Word32)
    requires at + 4 <= data.Length
    modifies data
    ensures Word32At(data[..], at) == w
    ensures forall i :: 0 <= i < data.Length && !(at <= i < at + 4) ==> data[i] == old(data[i])
  {
    hide Join, High, Low;
    var high: Word16, low: Word16 := (w as int) / 0x1_0000, (w as int) % 0x1_0000;
    data[at], data[at + 1] := High(high), Low(high);
    data[at + 2], data[at + 3] := High(low), Low(low);
    JoinSplit(high);
    JoinSplit(low);
  }

  function Zip(pids: seq<Word16>, blps: seq<Word16>): (items: seq<Item>)
    requires |pids| == |blps|
    ensures |items| == |pids| && forall i :: 0 <= i < |pids| ==> items[i] == Item(pids[i], blps[i])
  {
    seq(|pids|, i requires 0 <= i < |pids| => Item(pids[i], blps[i]))
  }

  /** Writes item number index of a packet. */
  method WriteItem(data: array<Byte>, index: nat, item: Item)
    requires HEADER_SIZE + 4 * index + 4 <= data.Length
    modifies data
    ensures FeedbackControlInfo(data[..], index) == item
    ensures forall i :: 0 <= i < data.Length && !(0 <= i - HEADER_SIZE - 4 * index < 4) ==> data[i] == old(data[i])
  {
    hide Join, High, Low;
    var at := HEADER_SIZE + 4 * index;
    data[at], data[at + 1] := High(item.pid), Low(item.pid);
    data[at + 2], data[at + 3] := High(item.blp), Low(item.blp);
    JoinSplit(item.pid);
    JoinSplit(item.blp);
  }

  class RtcpNackBuilder {
    const data: array<Byte>
    const pids: array<Word16>
    const blps: array<Word16>
    var nextFreePid: nat
    /** The numbers appended so far, accepted or not. */
    ghost var appended: seq<Word16>

    ghost predicate Valid()
      reads this, data, pids, blps
    {
      && data.Length == DATA_SIZE && pids.Length == MAX_PIDS && blps.Length == MAX_PIDS
      && pids != blps && {data as object} !! {pids as object, blps as object}
      && nextFreePid <= MAX_PIDS
      && (forall i :: nextFreePid <= i < MAX_PIDS ==> blps[i] == 0)
      && Items() == AppendAll(appended).items
    }

    ghost function Items(): seq<Item>
      requires pids.Length == MAX_PIDS && blps.Length == MAX_PIDS && nextFreePid <= MAX_PIDS
      reads this, pids, blps
    {
      Zip(pids[..nextFreePid], blps[..nextFreePid])
    }

    constructor (reporterSsrc: Word32, mediaSsrc: Word32)
      ensures Valid() && appended == [] && fresh(data) && fresh(pids) && fresh(blps)
      ensures HeaderLength(data[..]) == 2
      ensures Word32At(data[..], 4) == reporterSsrc && Word32At(data[..], 8) == mediaSsrc
    {
      data := new Byte[DATA_SIZE](i => 0);
      pids := new Word16[MAX_PIDS](i => 0);
      blps := new Word16[MAX_PIDS](i => 0);
      nextFreePid := 0;
      appended := [];
      new;
      hide Join, High, Low, Items;
      data[0], data[1] := 0x81, 205;
      data[2], data[3] := 0, 2;
      WriteWord32(data, 4, reporterSsrc);
      WriteWord32(data, 8, mediaSsrc);
    }

    /** Appends a number to the request, unless sixteen items exist and none has room for it. */
    method AppendSequenceNumber(x: Word16) returns (ok: bool)
      requires Valid()
      modifies this, pids, blps
      ensures Valid() && appended == old(appended) + [x]
      ensures ok <==> old(Accepts(Items(), x))
      ensures Items() == if ok then Added(old(Items()), x) else old(Items())
    {
      hide Zip, WithBit, AppendAll, FirstCover, Bit;
      ghost var items := Items();
      appended := appended + [x];
      AppendAllMore(old(appended), x);
      var i := 0;
      while i < nextFreePid
        invariant i <= nextFreePid
        invariant forall j :: 0 <= j < i ==> !Covers(items[j], x)
      {
        if x == pids[i] {
          FirstCoverIs(items, x, i);
          return true;
        }
        if x > pids[i] && x <= (pids[i] as int) + 16 {
          FirstCoverIs(items, x, i);
          blps[i] := WithBit(Item(pids[i], blps[i]), x).blp;
          assert Items() == Added(items, x);
          return true;
        }
        i := i + 1;
      }
      FirstCoverIs(items, x, i);
      if nextFreePid >= MAX_PIDS {
        return false;
      }
      pids[nextFreePid] := x;
      nextFreePid := nextFreePid + 1;
      assert Items() == Added(items, x);
      return true;
    }

    /**
      Writes the packet. The first packet a builder makes decodes to the items it holds. Building
      again adds the items to the length field a second time, and the packet is then malformed.
     */
    method Build() returns (outSize: nat)
      requires Valid()
      modifies data
      ensures Valid()
      ensures outSize == HEADER_SIZE + 4 * nextFreePid
      ensures forall i :: 0 <= i < HEADER_SIZE && i != 2 && i != 3 ==> data[i] == old(data[i])
      ensures HeaderLength(data[..]) == (old(HeaderLength(data[..])) as int + nextFreePid) % 0x1_0000
      ensures 2 <= old(HeaderLength(data[..])) < 0xFFF0 ==>
        (IsPacket(data[..outSize]) <==> old(HeaderLength(data[..])) == 2)
      ensures old(HeaderLength(data[..])) == 2 ==> Decode(data[..outSize]) == Items()
    {
      hide Join, High, Low, AppendAll, Zip;
      ghost var items := Items();
      var offset := HEADER_SIZE;
      var headerLengthField: int := Join(data[2], data[3]);
      for i := 0 to nextFreePid
        invariant offset == HEADER_SIZE + 4 * i
        invariant headerLengthField == old(Join(data[2], data[3])) as int + i
        invariant forall k :: 0 <= k < HEADER_SIZE ==> data[k] == old(data[k])
        invariant forall k :: 0 <= k < i ==> FeedbackControlInfo(data[..], k) == items[k]
      {
        WriteItem(data, i, Item(pids[i], blps[i]));
        headerLengthField := headerLengthField + 1;
        offset := offset + 4;
      }
      JoinSplit(headerLengthField % 0x1_0000);
      data[2], data[3] := High(headerLengthField % 0x1_0000), Low(headerLengthField % 0x1_0000);
      outSize := offset;
    }
  }

  /**
    From the numbers to the reader, for every list: the packet requests exactly the numbers that were
    accepted, each by one item, and the count read from it is how many different ones there were.
   */
  method RequestAndRead(reporterSsrc: Word32, mediaSsrc: Word32, numbers: seq<Word16>)
    returns (packet: seq<Byte>, count: nat)
    ensures IsPacket(packet)
    ensures AllNumbers(Decode(packet)) == AppendAll(numbers).accepted
    ensures count == |AppendAll(numbers).accepted|
    ensures var items := Decode(packet);
      forall x: nat, i, j :: 0 <= i < |items| && 0 <= j < |items| && Requests(items[i], x) && Requests(items[j], x) ==>
        i == j
  {
    hide AppendAll, Decode, IsPacket, Requests, Zip, FirstCover;
    var builder := new RtcpNackBuilder(reporterSsrc, mediaSsrc);
    for i := 0 to |numbers|
      invariant builder.Valid() && builder.appended == numbers[..i] && HeaderLength(builder.data[..]) == 2
      invariant fresh(builder) && fresh(builder.data) && fresh(builder.pids) && fresh(builder.blps)
    {
      var accepted := builder.AppendSequenceNumber(numbers[i]);
    }
    assert numbers[..|numbers|] == numbers;
    var outSize := builder.Build();
    packet := builder.data[..outSize];
    count := GetNackPacketCount(packet);
    RoundTrip(numbers, packet);
  }

  /** The packet of one more build; its length field has moved on by the number of items. */
  method BuildPacket(builder: RtcpNackBuilder) returns (packet: seq<Byte>)
    requires builder.Valid() && 2 <= HeaderLength(builder.data[..]) < 0xFFF0
    modifies builder.data
    ensures builder.Valid() && |packet| == HEADER_SIZE + 4 * builder.nextFreePid
    ensures HeaderLength(builder.data[..]) == old(HeaderLength(builder.data[..])) as int + builder.nextFreePid
    ensures IsPacket(packet) <==> old(HeaderLength(builder.data[..])) == 2
  {
    hide Decode, IsPacket, Zip, FirstCover, Accepts, AppendAll, HeaderLength;
    var size := builder.Build();
    packet := builder.data[..size];
  }

  /** Such packets exist: a builder with one number that builds twice returns a malformed packet. */
  method BuildTwice(reporterSsrc: Word32, mediaSsrc: Word32, number: Word16)
    returns (first: seq<Byte>, second: seq<Byte>)
    ensures IsPacket(first) && |second| == |first| && !IsPacket(second)
  {
    hide Decode, IsPacket, Zip, FirstCover, Accepts, AppendAll, HeaderLength;
    var builder := new RtcpNackBuilder(reporterSsrc, mediaSsrc);
    OneIsAccepted(number);
    var accepted := builder.AppendSequenceNumber(number);
    first := BuildPacket(builder);
    second := BuildPacket(builder);
  }

  lemma OneIsAccepted(x: Word16)
    ensures Accepts([], x) && |Added([], x)| == 1
  {
  }

  lemma FirstCoverIs(items: seq<Item>, x: nat, i: nat)
    requires i <= |items|
    requires forall j :: 0 <= j < i ==> !Covers(items[j], x)
    requires i < |items| ==> Covers(items[i], x)
    ensures FirstCover(items, x) == i
  {
  }
}
