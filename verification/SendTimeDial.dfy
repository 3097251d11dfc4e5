/**
  Conversion of the 24-bit absolute send time of RTP packets (6.18 fixed-point seconds) to a 64-bit
  nanosecond clock. 512 send-time units are exactly one tick of 1953125 ns, so a reference pair
  moved by whole ticks stays on the line through the first reference.
 */
module SendTimeDial {
  import opened Arithmetic

  // In the arithmetic below: 1_953_125 ns is the local tick (a second / 512), 512 the send-time tick,
  // 0x100_0000 the 24-bit send-time cycle and 0x80_0000 half of it.

  const SECOND: int := 1_000_000_000
  const TIME_LIMIT: int := 0x8000_0000_0000_0000

  /** Wrap-around of 64-bit unsigned arithmetic. */
  function Wrap64(x: int): nat {
    x % 0x1_0000_0000_0000_0000
  }

  /** Division of signed integers, truncating toward zero. */
  function TruncatedDiv(a: int, b: int): int
    requires b > 0
  {
    if a >= 0 then a / b else -((-a) / b)
  }

  datatype Dial = Dial(timeReference: nat, sendTimeReference: nat, initialized: bool)

  // ---------------------------------------------------------------------------------------
  // The conversion

  function Initialized(sendTime: nat, timestamp: nat): Dial {
    Dial(Wrap64(timestamp - timestamp % 1_953_125 - 2 * 1_953_125), sendTime - sendTime % 512, true)
  }

  function Ticks(advance: nat): nat {
    advance / 1_953_125
  }

  function Moved(d: Dial, timestamp: nat): Dial {
    var localAdvance := Wrap64(timestamp - d.timeReference);
    if localAdvance > SECOND then
      var ticks := Ticks(localAdvance);
      Dial(Wrap64(d.timeReference + ticks * 1_953_125),
           Wrap64(d.sendTimeReference + ticks * 512) % 0x100_0000, true)
    else d
  }

  function Reference(d: Dial, sendTime: nat, timestamp: nat): Dial {
    if d.initialized then Moved(d, timestamp) else Initialized(sendTime, timestamp)
  }

  /** The signed distance from the reference to a send time, the short way round the cycle. */
  function Advance(d: Dial, sendTime: nat): int {
    var advance := sendTime - d.sendTimeReference;
    if advance <= -0x80_0000 then advance + 0x100_0000
    else if advance > 0x80_0000 then advance - 0x100_0000
    else advance
  }

  function Converted(d: Dial, sendTime: nat): nat {
    Wrap64(d.timeReference + TruncatedDiv(1_953_125 * Advance(d, sendTime), 512))
  }

  // ---------------------------------------------------------------------------------------
  // The line through the first reference

  /** The first reference, on clocks that never wrap. */
  datatype Anchor = Anchor(time: int, sendTime: int)

  function TimeAt(a: Anchor, k: int): int {
    a.time + 1_953_125 * k
  }

  function SendTimeAt(a: Anchor, k: int): int {
    a.sendTime + 512 * k
  }

  /** The dial's reference is k whole ticks from an anchor, on clocks that wrap. */
  predicate AtTick(d: Dial, a: Anchor, k: int) {
    && d.initialized
    && d.timeReference == Wrap64(TimeAt(a, k))
    && d.sendTimeReference == SendTimeAt(a, k) % 0x100_0000
  }

  /** The dial's reference is k whole ticks after the anchor, and no later than time t. */
  predicate OnLine(d: Dial, a: Anchor, k: nat, t: int) {
    AtTick(d, a, k) && -2 * 1_953_125 <= a.time && TimeAt(a, k) <= t < TIME_LIMIT
  }

  ghost predicate OnSomeTick(d: Dial, a: Anchor) {
    exists k: nat, t: int :: OnLine(d, a, k, t)
  }

  /** r is less than one nanosecond away from the line at true send time e: all in 512ths of a ns. */
  predicate Near(a: Anchor, e: int, r: int) {
    -512 < 512 * (r - a.time) - 1_953_125 * (e - a.sendTime) < 512
  }

  /** Some time less than a nanosecond from the line has this 64-bit value. */
  ghost predicate IsNear(a: Anchor, e: int, result: nat) {
    exists r: int :: Near(a, e, r) && result == Wrap64(r)
  }

  /** On the line, send time e belongs to a local time between earliest and latest (in 512ths). */
  predicate LineTimeWithin(a: Anchor, e: int, earliest: int, latest: int) {
    512 * (earliest - a.time) <= 1_953_125 * (e - a.sendTime) <= 512 * (latest - a.time)
  }

  lemma WrapShift(x: int, n: int)
    ensures Wrap64(x + n * 0x1_0000_0000_0000_0000) == Wrap64(x)
  {
    var period := 0x1_0000_0000_0000_0000;
    DivModUnique(x + n * period, period, x / period + n, x % period);
  }

  lemma WrapAdd(x: int, y: int)
    ensures Wrap64(Wrap64(x) + y) == Wrap64(x + y)
    ensures Wrap64(y - Wrap64(x)) == Wrap64(y - x)
  {
    var n := x / 0x1_0000_0000_0000_0000;
    WrapShift(Wrap64(x) + y, n);
    WrapShift(y - Wrap64(x), -n);
  }

  lemma WrapSmall(x: int)
    requires 0 <= x < 0x1_0000_0000_0000_0000
    ensures Wrap64(x) == x
  {
  }

  lemma CycleAdd(x: int, ticks: nat)
    ensures (x % 0x100_0000 + ticks * 512) % 0x100_0000 == (x + ticks * 512) % 0x100_0000
  {
    var y := x % 0x100_0000 + ticks * 512;
    DivModUnique(x + ticks * 512, 0x100_0000, x / 0x100_0000 + y / 0x100_0000, y % 0x100_0000);
  }

  lemma TicksBounds(advance: nat)
    ensures 0 <= advance - 1_953_125 * Ticks(advance) < 1_953_125
  {
  }

  /** How far the reference moves, in ticks, when it stands at tick k. */
  function MoveTicks(a: Anchor, k: nat, t: int): nat
    requires TimeAt(a, k) <= t
  {
    if t - TimeAt(a, k) > SECOND then Ticks(t - TimeAt(a, k)) else 0
  }

  lemma MoveStaysOnLine(d: Dial, a: Anchor, k: nat, before: int, t: nat)
    requires OnLine(d, a, k, before) && before <= t < TIME_LIMIT
    ensures OnLine(Moved(d, t), a, k + MoveTicks(a, k, t), t)
    ensures t - TimeAt(a, k + MoveTicks(a, k, t)) <= SECOND
  {
    hide Wrap64, Ticks;
    var reference := TimeAt(a, k);
    WrapAdd(reference, t);
    WrapSmall(t - reference);
    var ticks := Ticks(t - reference);
    TicksBounds(t - reference);
    WrapAdd(reference, ticks * 1_953_125);
    CycleAdd(SendTimeAt(a, k), ticks);
    WrapSmall(d.sendTimeReference + ticks * 512);
    assert TimeAt(a, k + ticks) == reference + ticks * 1_953_125;
    assert SendTimeAt(a, k + ticks) == SendTimeAt(a, k) + ticks * 512;
  }

  lemma AlignedInCycle(e: int)
    ensures e % 0x100_0000 - e % 0x100_0000 % 512 == (e - e % 512) % 0x100_0000
  {
    var tick, rest := e / 512, e % 512;
    var cycle, m := tick / 0x8000, tick % 0x8000;
    DivModUnique(e, 0x100_0000, cycle, 512 * m + rest);
    DivModUnique(e - rest, 0x100_0000, cycle, 512 * m);
    DivModUnique(512 * m + rest, 512, m, rest);
  }

  lemma StartsOnLine(e: int, t: nat)
    requires t < TIME_LIMIT
    ensures var a := Anchor(t - t % 1_953_125 - 2 * 1_953_125, e - e % 512);
      OnLine(Initialized(e % 0x100_0000, t), a, 0, t) && t - TimeAt(a, 0) <= SECOND
  {
    hide Wrap64;
    AlignedInCycle(e);
  }

  /** Within half a cycle of the reference the short way round is the true distance. */
  lemma AdvanceIsTrue(d: Dial, a: Anchor, k: int, e: int)
    requires AtTick(d, a, k)
    requires -0x80_0000 < e - SendTimeAt(a, k) <= 0x80_0000
    ensures Advance(d, e % 0x100_0000) == e - SendTimeAt(a, k)
  {
  }

  lemma TruncatedDivNear(x: int)
    ensures -512 < 512 * TruncatedDiv(x, 512) - x < 512
  {
  }

  lemma ConvertedIsNear(d: Dial, a: Anchor, k: int, e: int) returns (r: int)
    requires AtTick(d, a, k)
    requires -0x80_0000 < e - SendTimeAt(a, k) <= 0x80_0000
    ensures Near(a, e, r) && Converted(d, e % 0x100_0000) == Wrap64(r)
    ensures r == TimeAt(a, k) + TruncatedDiv(1_953_125 * (e - SendTimeAt(a, k)), 512)
  {
    hide Wrap64, TruncatedDiv;
    AdvanceIsTrue(d, a, k, e);
    var advance := Advance(d, e % 0x100_0000);
    var step := TruncatedDiv(1_953_125 * advance, 512);
    TruncatedDivNear(1_953_125 * advance);
    WrapAdd(TimeAt(a, k), step);
    r := TimeAt(a, k) + step;
  }

  /**
    The exact limit of the claim: a timestamp before the reference, however little, moves the
    reference off the line (the difference wraps to almost 2^64 ns, which is no whole number of ticks).
   */
  lemma EarlyTimestampLeavesLine(d: Dial, a: Anchor, k: nat, before: int, t: nat)
    requires OnLine(d, a, k, before) && t < TimeAt(a, k)
    ensures !OnSomeTick(Moved(d, t), a)
  {
    hide Wrap64, Ticks;
    var reference := TimeAt(a, k);
    WrapAdd(reference, t);
    WrapAround(t - reference);
    var advance := Wrap64(t - reference);
    TicksBounds(advance);
    WrapAdd(reference, Ticks(advance) * 1_953_125);
    var moved := reference + Ticks(advance) * 1_953_125 - 0x1_0000_0000_0000_0000;
    WrapShift(moved, 1);
    forall j: nat, later: int | OnLine(Moved(d, t), a, j, later) ensures false {
      WrapInjective(moved, TimeAt(a, j));
      NoWholeTicks(k + Ticks(advance) - j);
    }
  }

  lemma WrapAround(x: int)
    requires -0x1_0000_0000_0000_0000 <= x < 0
    ensures Wrap64(x) == x + 0x1_0000_0000_0000_0000
  {
  }

  lemma WrapInjective(x: int, y: int)
    requires Wrap64(x) == Wrap64(y) && -0x1_0000_0000_0000_0000 < x - y < 0x1_0000_0000_0000_0000
    ensures x == y
  {
  }

  lemma NoWholeTicks(n: int)
    ensures n * 1_953_125 != 0x1_0000_0000_0000_0000
  {
  }

  /** The reference is on its line after a call exactly when the timestamp is not before it. */
  lemma StaysOnLineIff(d: Dial, a: Anchor, k: nat, t: nat)
    requires t < TIME_LIMIT && OnLine(d, a, k, TimeAt(a, k))
    ensures OnSomeTick(Moved(d, t), a) <==> TimeAt(a, k) <= t
  {
    hide Wrap64, Ticks;
    if TimeAt(a, k) <= t {
      MoveStaysOnLine(d, a, k, TimeAt(a, k), t);
    } else {
      EarlyTimestampLeavesLine(d, a, k, TimeAt(a, k), t);
    }
  }

  // ---------------------------------------------------------------------------------------
  // What a timestamp before the reference does to the result

  /** 2^64 ns are 288_230_376 cycles of 64 s and 9_709_551_616 ns: the line the wrap moves to. */
  function Shifted(a: Anchor): Anchor {
    Anchor(a.time - 9_709_551_616, a.sendTime)
  }

  /** Every timestamp before the reference moves it to the same other line, 9.7 s away. */
  lemma EarlyTimestampShiftsLine(d: Dial, a: Anchor, k: nat, before: int, t: nat) returns (j: int)
    requires OnLine(d, a, k, before) && t < TimeAt(a, k)
    ensures AtTick(Moved(d, t), Shifted(a), j)
    ensures TimeAt(Shifted(a), j) <= t < TimeAt(Shifted(a), j) + 1_953_125
  {
    hide Wrap64, Ticks;
    var reference := TimeAt(a, k);
    WrapAdd(reference, t);
    WrapAround(t - reference);
    var advance := Wrap64(t - reference);
    var ticks := Ticks(advance);
    TicksBounds(advance);
    j := k + ticks - 0x8000 * 288_230_376;
    WrapAdd(reference, ticks * 1_953_125);
    WrapShift(TimeAt(Shifted(a), j), 1);
    assert TimeAt(Shifted(a), j) == reference + ticks * 1_953_125 - 0x1_0000_0000_0000_0000;
    CycleAdd(SendTimeAt(a, k), ticks);
    WrapSmall(d.sendTimeReference + ticks * 512);
    assert SendTimeAt(Shifted(a), j) == SendTimeAt(a, k) + ticks * 512 - 288_230_376 * 0x100_0000;
    CycleShift(SendTimeAt(a, k) + ticks * 512, 288_230_376);
  }

  lemma CycleShift(x: int, n: int)
    ensures (x - n * 0x100_0000) % 0x100_0000 == x % 0x100_0000
  {
    DivModUnique(x - n * 0x100_0000, 0x100_0000, x / 0x100_0000 - n, x % 0x100_0000);
  }

  /** A result next to one line is not next to the other, even on a clock that wraps. */
  lemma LinesAreApart(a: Anchor, e: int, r: int, other: int)
    requires Near(Shifted(a), e, r) && Near(a, e, other)
    ensures Wrap64(r) != Wrap64(other)
  {
    if Wrap64(r) == Wrap64(other) { WrapInjective(r, other); }
  }

  /**
    The converted time itself: for every packet whose line time is within 20 s of the timestamp, the
    result is next to the line if and only if the timestamp is not before the reference.
   */
  lemma ResultIsNearIff(d: Dial, a: Anchor, k: nat, t: nat, e: int)
    requires t < TIME_LIMIT && OnLine(d, a, k, TimeAt(a, k))
    requires LineTimeWithin(a, e, t - 20 * SECOND, t + 20 * SECOND)
    ensures IsNear(a, e, Converted(Moved(d, t), e % 0x100_0000)) <==> TimeAt(a, k) <= t
  {
    hide Wrap64, Ticks, Moved, Converted;
    if TimeAt(a, k) <= t {
      MoveStaysOnLine(d, a, k, TimeAt(a, k), t);
      var r := ConvertedIsNear(Moved(d, t), a, k + MoveTicks(a, k, t), e);
    } else {
      var j := EarlyTimestampShiftsLine(d, a, k, TimeAt(a, k), t);
      var r := ConvertedIsNear(Moved(d, t), Shifted(a), j, e);
      forall other: int | Near(a, e, other) ensures Converted(Moved(d, t), e % 0x100_0000) != Wrap64(other) {
        LinesAreApart(a, e, r, other);
      }
    }
  }

  // ---------------------------------------------------------------------------------------
  // Whole runs

  /** A call: the packet's send time on a clock that never wraps, and the local time of the call. */
  datatype Call = Call(sendTime: int, timestamp: nat)

  predicate NonDecreasing(calls: seq<Call>) {
    && (forall i :: 0 <= i < |calls| ==> calls[i].timestamp < TIME_LIMIT)
    && (forall i, j :: 0 <= i < j < |calls| ==> calls[i].timestamp <= calls[j].timestamp)
  }

  /** The dial just before the result of call n is computed. */
  function ReferenceAt(calls: seq<Call>, n: nat): Dial
    requires n < |calls|
  {
    Reference(if n == 0 then Dial(0, 0, false) else ReferenceAt(calls, n - 1),
      calls[n].sendTime % 0x100_0000, calls[n].timestamp)
  }

  function Result(calls: seq<Call>, n: nat): nat
    requires n < |calls|
  {
    Converted(ReferenceAt(calls, n), calls[n].sendTime % 0x100_0000)
  }

  function AnchorOf(first: Call): Anchor {
    Anchor(first.timestamp - first.timestamp % 1_953_125 - 2 * 1_953_125, first.sendTime - first.sendTime % 512)
  }

  lemma {:induction false} RunStaysOnLine(calls: seq<Call>, n: nat) returns (k: nat)
    requires NonDecreasing(calls) && n < |calls|
    ensures OnLine(ReferenceAt(calls, n), AnchorOf(calls[0]), k, calls[n].timestamp)
    ensures calls[n].timestamp - TimeAt(AnchorOf(calls[0]), k) <= SECOND
  {
    hide Wrap64, Ticks;
    var a := AnchorOf(calls[0]);
    if n == 0 {
      StartsOnLine(calls[0].sendTime, calls[0].timestamp);
      k := 0;
    } else {
      var j := RunStaysOnLine(calls, n - 1);
      MoveStaysOnLine(ReferenceAt(calls, n - 1), a, j, calls[n - 1].timestamp, calls[n].timestamp);
      k := j + MoveTicks(a, j, calls[n].timestamp);
    }
  }

  /**
    For every run with non-decreasing local times, after any number of reference moves and wraps of
    the send time, each packet whose line time is within 31 seconds of its local time is converted
    to less than a nanosecond from the line through the first packet.
   */
  lemma NeverDrifts(calls: seq<Call>, n: nat)
    requires NonDecreasing(calls) && n < |calls|
    requires var t := calls[n].timestamp;
      LineTimeWithin(AnchorOf(calls[0]), calls[n].sendTime, t - 31 * SECOND, t + 31 * SECOND)
    ensures IsNear(AnchorOf(calls[0]), calls[n].sendTime, Result(calls, n))
  {
    hide Wrap64, Ticks, ReferenceAt, AnchorOf;
    var k := RunStaysOnLine(calls, n);
    var r := ConvertedIsNear(ReferenceAt(calls, n), AnchorOf(calls[0]), k, calls[n].sendTime);
  }

  /** A first call on a tick of the local clock: the anchor is two ticks before it. */
  lemma AlignedFirst(call: Call, k: nat)
    requires call.sendTime == 0 && call.timestamp == k * 1_953_125 < TIME_LIMIT
    ensures AnchorOf(call) == Anchor((k - 2) * 1_953_125, 0) && Initialized(0, call.timestamp).initialized
    ensures OnLine(Initialized(0, call.timestamp), AnchorOf(call), 0, TimeAt(AnchorOf(call), 0))
  {
    hide Wrap64;
    DivModUnique(call.timestamp, 1_953_125, k, 0);
  }

  /** The converted time 10 ms before that, computed on the line the reference moves to. */
  lemma TenMillisecondsEarlier(d: Dial, a: Anchor, t: nat)
    requires OnLine(d, a, 0, TimeAt(a, 0)) && a == Anchor(9_996_093_750, 0) && t == 9_990_000_000
    ensures Converted(Moved(d, t), 0) == 286_542_134
  {
    hide Wrap64, Ticks, Moved, Converted, TruncatedDiv, AtTick;
    var j := EarlyTimestampShiftsLine(d, a, 0, TimeAt(a, 0), t);
    assert j == 4968;
    var r := ConvertedIsNear(Moved(d, t), Shifted(a), j, 0);
    assert r == 286_542_134;
    WrapSmall(r);
  }

  /**
    Such runs exist: a packet sent at 0 and received at 10 s, then one whose timestamp is 10 ms earlier.
    The second is converted to 286 ms, about 9.7 s from the line through the first.
   */
  lemma ClockStepsBack(calls: seq<Call>)
    requires calls == [Call(0, 10_000_000_000), Call(0, 9_990_000_000)]
    ensures AnchorOf(calls[0]) == Anchor(9_996_093_750, 0)
    ensures Result(calls, 1) == 286_542_134 && !IsNear(AnchorOf(calls[0]), 0, Result(calls, 1))
  {
    hide Wrap64, Ticks, Moved, Converted, AnchorOf, Initialized, OnLine;
    var a, d := AnchorOf(calls[0]), Initialized(0, calls[0].timestamp);
    AlignedFirst(calls[0], 5120);
    assert ReferenceAt(calls, 0) == d;
    ResultIsNearIff(d, a, 0, calls[1].timestamp, 0);
    TenMillisecondsEarlier(d, a, calls[1].timestamp);
  }

  class SendTimeDial {
    var timeReference: nat
    var sendTimeReference: nat
    var initialized: bool

    constructor ()
      ensures Value() == Dial(0, 0, false)
    {
      timeReference, sendTimeReference, initialized := 0, 0, false;
    }

    function Value(): Dial
      reads this
    {
      Dial(timeReference, sendTimeReference, initialized)
    }

    method ToAbsoluteTime(sendTime: nat, timestamp: nat) returns (time: nat)
      requires sendTime < 0x100_0000
      requires initialized ==> sendTimeReference < 0x100_0000
      modifies this
      ensures initialized && sendTimeReference < 0x100_0000
      ensures Value() == Reference(old(Value()), sendTime, timestamp)
      ensures time == Converted(Value(), sendTime)
    {
      if !initialized {
        timeReference := Wrap64(timestamp - timestamp % 1_953_125 - 2 * 1_953_125);
        sendTimeReference := sendTime - sendTime % 512;
        initialized := true;
        return Wrap64(timeReference + 1_953_125 * (sendTime - sendTimeReference) / 512);
      }
      var localAdvance := Wrap64(timestamp - timeReference);
      if localAdvance > SECOND {
        var ticks := localAdvance / 1_953_125;
        timeReference := Wrap64(timeReference + ticks * 1_953_125);
        sendTimeReference := Wrap64(sendTimeReference + ticks * 512) % 0x100_0000;
      }
      var sendTimeAdvance := sendTime - sendTimeReference;
      if sendTimeAdvance <= -0x80_0000 {
        sendTimeAdvance := sendTimeAdvance + 0x100_0000;
      } else if sendTimeAdvance > 0x80_0000 {
        sendTimeAdvance := sendTimeAdvance - 0x100_0000;
      }
      time := Wrap64(timeReference + TruncatedDiv(1_953_125 * sendTimeAdvance, 512));
    }
  }
}
