/**
  The send-side rate controller: a backlog of sent packets on which receiver reports mark what has
  arrived, a model of the network queue, and an estimate of the bandwidth that reports move.

  Floating point is idealised as real arithmetic and timestamps stay below 2^63.
 */
module RateController {
  import opened Arithmetic
  import opened Wrappers
  import Ring = RandomAccessBacklog

  const UINT16: int := 0x1_0000
  const UINT32: int := 0x1_0000_0000
  const UINT64: int := 0x1_0000_0000_0000_0000

  datatype Kind = SR | RR | RTP | RTCP_PADDING | SCTP

  datatype Packet = Packet(
    time: nat, ssrc: nat, sequenceNumber: nat, size: nat, kind: Kind,
    reportNtp: nat, queueSize: nat, lossCount: nat, delaySinceSR: nat, received: bool)

  function NewPacket(time: nat, ssrc: nat, sequenceNumber: nat, size: nat, kind: Kind): Packet {
    Packet(time, ssrc, sequenceNumber, size, kind, 0, 0, 0, 0, false)
  }

  function Min(a: int, b: int): int {
    if a < b then a else b
  }

  function Max(a: int, b: int): int {
    if a < b then b else a
  }

  function Clamp(value: int, low: int, high: int): int {
    Min(Max(value, low), high)
  }

  // ---------------------------------------------------------------------------------------
  // Marking what a report confirms

  predicate IsStreamRtp(p: Packet, ssrc: nat) {
    p.ssrc == ssrc && p.kind == RTP
  }

  predicate OnlyRtpReceived(items: seq<Packet>) {
    forall i :: 0 <= i < |items| && items[i].received ==> items[i].kind == RTP
  }

  /** Whatever was sent on a stream before a received packet is received too. Items are newest first. */
  predicate OlderAreReceived(items: seq<Packet>) {
    forall i, j :: 0 <= i < j < |items| && items[i].received && IsStreamRtp(items[j], items[i].ssrc) ==>
      items[j].received
  }

  predicate BacklogOk(items: seq<Packet>) {
    OnlyRtpReceived(items) && OlderAreReceived(items)
  }

  datatype Report = Report(ssrc: nat, sequenceNumber: nat, lossCount: nat, reportNtp: nat, delaySinceSR: nat)

  /** The packet a report names, with what the report says. */
  function Confirmed(p: Packet, r: Report): Packet {
    p.(received := true, lossCount := r.lossCount, reportNtp := r.reportNtp, delaySinceSR := r.delaySinceSR)
  }

  /** The backlog after a report; found says that the packet it names is newer than these items. */
  function Marked(items: seq<Packet>, r: Report, found: bool): (after: seq<Packet>)
    ensures |after| == |items|
  {
    if items == [] then []
    else
      var p, rest := items[0], items[1..];
      if !IsStreamRtp(p, r.ssrc) then [p] + Marked(rest, r, found)
      else if p.received then items
      else if p.sequenceNumber == r.sequenceNumber then [Confirmed(p, r)] + Marked(rest, r, true)
      else if found then [p.(received := true)] + Marked(rest, r, found)
      else [p] + Marked(rest, r, found)
  }

  /** A report changes only unreceived RTP packets of its stream, and only by marking them. */
  lemma {:induction false} MarkedIsLocal(items: seq<Packet>, r: Report, found: bool, i: nat)
    requires i < |items|
    ensures var p, q := items[i], Marked(items, r, found)[i];
      && q.time == p.time && q.ssrc == p.ssrc && q.size == p.size && q.kind == p.kind
      && q.sequenceNumber == p.sequenceNumber && (p.received ==> q.received)
      && (q.received && !p.received ==> IsStreamRtp(p, r.ssrc))
      && (!IsStreamRtp(p, r.ssrc) ==> q == p)
  {
    if i > 0 {
      MarkedIsLocal(items[1..], r, found, i - 1);
      MarkedIsLocal(items[1..], r, true, i - 1);
    }
  }

  /** Once the named packet is found, every older packet of the stream ends up received. */
  lemma {:induction false} MarkedOlder(items: seq<Packet>, r: Report, i: nat)
    requires OlderAreReceived(items) && i < |items| && IsStreamRtp(items[i], r.ssrc)
    ensures Marked(items, r, true)[i].received
  {
    var p, rest := items[0], items[1..];
    if i > 0 && !(IsStreamRtp(p, r.ssrc) && p.received) {
      assert rest[i - 1] == items[i];
      OlderTail(items);
      MarkedOlder(rest, r, i - 1);
    }
  }

  lemma OlderTail(items: seq<Packet>)
    requires OlderAreReceived(items) && items != []
    ensures OlderAreReceived(items[1..])
  {
    var rest := items[1..];
    forall i, j | 0 <= i < j < |rest| && rest[i].received && IsStreamRtp(rest[j], rest[i].ssrc)
      ensures rest[j].received
    {
      assert rest[i] == items[i + 1] && rest[j] == items[j + 1];
    }
  }

  lemma OlderCons(p: Packet, rest: seq<Packet>)
    requires OlderAreReceived(rest)
    requires p.received ==> forall j :: 0 <= j < |rest| && IsStreamRtp(rest[j], p.ssrc) ==> rest[j].received
    ensures OlderAreReceived([p] + rest)
  {
  }

  lemma {:induction false} MarkedKeepsOlder(items: seq<Packet>, r: Report, found: bool)
    requires OnlyRtpReceived(items) && OlderAreReceived(items)
    ensures OlderAreReceived(Marked(items, r, found))
  {
    if items == [] || (IsStreamRtp(items[0], r.ssrc) && items[0].received) {
      return;
    }
    var p, rest := items[0], items[1..];
    OlderTail(items);
    assert OnlyRtpReceived(rest);
    var found' := found || (IsStreamRtp(p, r.ssrc) && p.sequenceNumber == r.sequenceNumber);
    MarkedKeepsOlder(rest, r, found');
    var first, after := Marked(items, r, found)[0], Marked(rest, r, found');
    assert Marked(items, r, found) == [first] + after;
    forall j | 0 <= j < |after| && first.received && IsStreamRtp(after[j], first.ssrc) ensures after[j].received {
      MarkedIsLocal(rest, r, found', j);
      if p.received {
        assert items[j + 1] == rest[j];
      } else {
        MarkedOlder(rest, r, j);
      }
    }
    OlderCons(first, after);
  }

  /** An unreceived packet of the stream that has the reported number, newer than item i. */
  predicate NamedBefore(items: seq<Packet>, r: Report, i: nat)
    requires i <= |items|
  {
    exists j :: 0 <= j < i && Names(items[j], r)
  }

  predicate Names(p: Packet, r: Report) {
    IsStreamRtp(p, r.ssrc) && !p.received && p.sequenceNumber == r.sequenceNumber
  }

  /**
    What a report does to each item: an unreceived packet with the reported number gets the report's
    data, an unreceived packet of the stream behind such a one is marked, nothing else changes.
   */
  function Outlook(items: seq<Packet>, r: Report, i: nat, found: bool): Packet
    requires i < |items|
  {
    var p := items[i];
    if Names(p, r) then Confirmed(p, r)
    else if IsStreamRtp(p, r.ssrc) && (found || NamedBefore(items, r, i)) then p.(received := true)
    else p
  }

  /** The walk with its early stop does to each item exactly that. */
  lemma {:induction false} MarkedIs(items: seq<Packet>, r: Report, found: bool, i: nat)
    requires OlderAreReceived(items) && i < |items|
    ensures Marked(items, r, found)[i] == Outlook(items, r, i, found)
  {
    var p, rest := items[0], items[1..];
    if IsStreamRtp(p, r.ssrc) && p.received {
      forall j | 0 <= j <= i ensures !Names(items[j], r) {}
    } else if i > 0 {
      OlderTail(items);
      var found' := found || Names(p, r);
      MarkedIs(rest, r, found', i - 1);
      NamedInRest(items, r, i);
    }
  }

  lemma NamedInRest(items: seq<Packet>, r: Report, i: nat)
    requires 0 < i < |items|
    ensures NamedBefore(items, r, i) <==> Names(items[0], r) || NamedBefore(items[1..], r, i - 1)
  {
    var rest := items[1..];
    if NamedBefore(items, r, i) {
      var j :| 0 <= j < i && Names(items[j], r);
      if j > 0 { assert rest[j - 1] == items[j]; }
    }
    if NamedBefore(rest, r, i - 1) {
      var j :| 0 <= j < i - 1 && Names(rest[j], r);
      assert items[j + 1] == rest[j];
    }
  }

  /** Which packets are received after a report, as a condition on the backlog and the report alone. */
  lemma ReceivedAfterIff(items: seq<Packet>, r: Report, i: nat)
    requires BacklogOk(items) && i < |items|
    ensures Marked(items, r, false)[i].received <==>
      (items[i].received || (IsStreamRtp(items[i], r.ssrc) && (Names(items[i], r) || NamedBefore(items, r, i))))
  {
    MarkedIs(items, r, false, i);
  }

  /** Every report keeps the backlog in order. */
  lemma MarkedKeepsBacklog(items: seq<Packet>, r: Report)
    requires BacklogOk(items)
    ensures BacklogOk(Marked(items, r, false))
  {
    MarkedKeepsOlder(items, r, false);
    forall i | 0 <= i < |items| && Marked(items, r, false)[i].received
      ensures Marked(items, r, false)[i].kind == RTP
    {
      MarkedIsLocal(items, r, false, i);
    }
  }

  /** A new packet keeps the backlog in order, whichever packet the ring drops for it. */
  lemma PushKeepsBacklog(items: seq<Packet>, p: Packet, n: nat)
    requires BacklogOk(items) && !p.received && n > 0
    ensures BacklogOk(Ring.PushedFront(items, p, n))
  {
    var kept := if |items| >= n then items[..n - 1] else items;
    assert OlderAreReceived(kept);
    OlderCons(p, kept);
  }

  // ---------------------------------------------------------------------------------------
  // The model of the network queue

  /**
    Bytes the queue model takes out between two times: 8 ns at one kbit/s carry a millionth of a byte.
    The product is divided as a 64-bit unsigned integer, also when the time goes back, and the quotient
    is cut to 32 bits.
   */
  function Drain(last: nat, now: nat, kbps: nat): nat {
    (now - last) * kbps % UINT64 / 8_000_000 % UINT32
  }

  datatype NetworkQueue = NetworkQueue(size: nat, lastTransmission: nat, bandwidthKbps: nat)

  function PredictQueueAt(q: NetworkQueue, now: nat): nat {
    q.size - Min(q.size, Drain(q.lastTransmission, now, q.bandwidthKbps))
  }

  /** The size is a 16-bit parameter and the queue a 32-bit counter. */
  function OnPacketSent(q: NetworkQueue, now: nat, size: nat): NetworkQueue {
    q.(size := (PredictQueueAt(q, now) + size % UINT16) % UINT32, lastTransmission := now)
  }

  // ---------------------------------------------------------------------------------------
  // Probes: what the code computes

  const BACKLOG_SIZE: nat := 2048

  /** Packet j of the train that starts with the sender report, in sending order. */
  function InTrain(items: seq<Packet>, sr: nat, j: nat): Packet
    requires j <= sr < |items|
  {
    items[sr - j]
  }

  /** Bytes the queue model has taken in up to and including packet j of the train. */
  function QueuedBy(items: seq<Packet>, sr: nat, j: nat): nat
    requires j <= sr < |items|
  {
    InTrain(items, sr, j).size % UINT16 + if j == 0 then 0 else QueuedBy(items, sr, j - 1)
  }

  /** Bytes the queue model has taken out when packet j is sent. */
  function DrainedBy(items: seq<Packet>, kbps: nat, sr: nat, j: nat): nat
    requires j <= sr < |items|
  {
    if j == 0 then 0
    else DrainedBy(items, kbps, sr, j - 1) + Drain(InTrain(items, sr, j - 1).time, InTrain(items, sr, j).time, kbps)
  }

  /** What a size loses as a 16-bit parameter. */
  function Excess(p: Packet): nat {
    p.size - p.size % UINT16
  }

  /** When packet j is sent, more bytes wait in the queue model than packet j loses as a parameter. */
  predicate AheadAt(items: seq<Packet>, kbps: nat, sr: nat, j: nat)
    requires 1 <= j <= sr < |items|
  {
    QueuedBy(items, sr, j - 1) > DrainedBy(items, kbps, sr, j) + Excess(InTrain(items, sr, j))
  }

  lemma {:induction false} QueuedIsBounded(items: seq<Packet>, sr: nat, j: nat)
    requires j <= sr < |items|
    ensures QueuedBy(items, sr, j) <= 65535 * (j + 1)
  {
    if j > 0 { QueuedIsBounded(items, sr, j - 1); }
  }

  lemma QueueStarts(items: seq<Packet>, kbps: nat, sr: nat)
    requires sr < |items|
    ensures OnPacketSent(NetworkQueue(0, 0, kbps), items[sr].time, items[sr].size).size ==
      QueuedBy(items, sr, 0) - DrainedBy(items, kbps, sr, 0)
  {
  }

  /** The queue model, while it was never at or below a packet, holds what went in and did not go out. */
  lemma QueueStep(items: seq<Packet>, sr: nat, j: nat, q: NetworkQueue)
    requires 1 <= j <= sr < |items| <= BACKLOG_SIZE && q.lastTransmission == InTrain(items, sr, j - 1).time
    requires q.size == QueuedBy(items, sr, j - 1) - DrainedBy(items, q.bandwidthKbps, sr, j - 1)
    ensures var p := InTrain(items, sr, j);
      var after := OnPacketSent(q, p.time, p.size);
      && (after.size > p.size <==> AheadAt(items, q.bandwidthKbps, sr, j))
      && (after.size > p.size ==>
        after.size == QueuedBy(items, sr, j) - DrainedBy(items, q.bandwidthKbps, sr, j))
  {
    hide Drain;
    QueuedIsBounded(items, sr, j);
  }

  /**
    Whether the queue stays above each packet of the train. The first condition is exact for every
    backlog; the second says what it means for a regular train.
   */
  method IsProbe(items: seq<Packet>, kbps: nat, trainEnd: nat, srIndex: nat) returns (probe: bool)
    requires |items| <= BACKLOG_SIZE && srIndex < |items| && (srIndex >= 1 ==> trainEnd < srIndex)
    ensures probe <==> srIndex >= 1 && forall j :: 1 <= j <= srIndex - trainEnd ==> AheadAt(items, kbps, srIndex, j)
    ensures srIndex >= 1 && IsRegular(items, kbps, srIndex, srIndex - trainEnd) ==>
      (probe <==> NeverIdle(items, kbps, srIndex, srIndex - trainEnd))
  {
    hide PredictQueueAt, DrainedBy, AheadAt, IsRegular, NeverIdle;
    if srIndex < 1 {
      return false;
    }
    RegularIsExact(items, kbps, srIndex, srIndex - trainEnd);
    QueueStarts(items, kbps, srIndex);
    var queue := OnPacketSent(NetworkQueue(0, 0, kbps), items[srIndex].time, items[srIndex].size);
    var i := srIndex - 1;
    while true
      invariant trainEnd <= i < srIndex
      invariant queue.lastTransmission == items[i + 1].time && queue.bandwidthKbps == kbps
      invariant queue.size ==
        QueuedBy(items, srIndex, srIndex - 1 - i) - DrainedBy(items, kbps, srIndex, srIndex - 1 - i)
      invariant forall j :: 1 <= j < srIndex - i ==> AheadAt(items, kbps, srIndex, j)
      decreases i
    {
      QueueStep(items, srIndex, srIndex - i, queue);
      queue := OnPacketSent(queue, items[i].time, items[i].size);
      if queue.size <= items[i].size {
        assert !AheadAt(items, kbps, srIndex, srIndex - i);
        return false;
      }
      if i == trainEnd {
        return true;
      }
      i := i - 1;
    }
  }

  // ---------------------------------------------------------------------------------------
  // Probes: was the link never idle?

  /** Bytes a link takes between two times, rounded down. */
  function LinkTakes(last: nat, now: nat, kbps: nat): nat {
    if last <= now then (now - last) * kbps / 8_000_000 else 0
  }

  /** Bytes sent up to and including packet j of the train. */
  function SentBy(items: seq<Packet>, sr: nat, j: nat): nat
    requires j <= sr < |items|
  {
    InTrain(items, sr, j).size + if j == 0 then 0 else SentBy(items, sr, j - 1)
  }

  /** Bytes the link could take until packet j is sent, whole bytes for each gap. */
  function TakenBy(items: seq<Packet>, kbps: nat, sr: nat, j: nat): nat
    requires j <= sr < |items|
  {
    if j == 0 then 0
    else TakenBy(items, kbps, sr, j - 1) + LinkTakes(InTrain(items, sr, j - 1).time, InTrain(items, sr, j).time, kbps)
  }

  /** When packet j is sent, earlier bytes of the train are still waiting. */
  predicate BusyAt(items: seq<Packet>, kbps: nat, sr: nat, j: nat)
    requires 1 <= j <= sr < |items|
  {
    SentBy(items, sr, j - 1) > TakenBy(items, kbps, sr, j)
  }

  predicate NeverIdle(items: seq<Packet>, kbps: nat, sr: nat, n: nat)
    requires n <= sr < |items|
  {
    forall j :: 1 <= j <= n ==> BusyAt(items, kbps, sr, j)
  }

  /** The time does not go back before packet j, and the gap is short enough for a 32-bit byte count. */
  predicate GapOk(items: seq<Packet>, kbps: nat, sr: nat, j: nat)
    requires 1 <= j <= sr < |items|
  {
    var last, now := InTrain(items, sr, j - 1).time, InTrain(items, sr, j).time;
    last <= now && (now - last) * kbps < 8_000_000 * UINT32
  }

  predicate GapsOk(items: seq<Packet>, kbps: nat, sr: nat, n: nat)
    requires n <= sr < |items|
  {
    forall j :: 1 <= j <= n ==> GapOk(items, kbps, sr, j)
  }

  /** A train the code was written for: ordered times, and sizes of 16 bits. */
  predicate IsRegular(items: seq<Packet>, kbps: nat, sr: nat, n: nat)
    requires n <= sr < |items|
  {
    GapsOk(items, kbps, sr, n) && forall j :: 0 <= j <= n ==> InTrain(items, sr, j).size < UINT16
  }

  lemma DrainOfGap(last: nat, now: nat, kbps: nat)
    requires last <= now && (now - last) * kbps < 8_000_000 * UINT32
    ensures Drain(last, now, kbps) == LinkTakes(last, now, kbps)
    ensures 0 <= (now - last) * kbps - 8_000_000 * LinkTakes(last, now, kbps) < 8_000_000
  {
  }

  lemma {:induction false} DrainedIsTaken(items: seq<Packet>, kbps: nat, sr: nat, j: nat)
    requires j <= sr < |items| && GapsOk(items, kbps, sr, j)
    ensures DrainedBy(items, kbps, sr, j) == TakenBy(items, kbps, sr, j)
  {
    hide Drain, LinkTakes;
    if j > 0 {
      DrainedIsTaken(items, kbps, sr, j - 1);
      assert GapOk(items, kbps, sr, j);
      DrainOfGap(InTrain(items, sr, j - 1).time, InTrain(items, sr, j).time, kbps);
    }
  }

  lemma {:induction false} QueuedIsSent(items: seq<Packet>, sr: nat, j: nat)
    requires j <= sr < |items|
    ensures QueuedBy(items, sr, j) <= SentBy(items, sr, j)
    ensures (forall i :: 0 <= i <= j ==> InTrain(items, sr, i).size < UINT16) ==>
      QueuedBy(items, sr, j) == SentBy(items, sr, j)
  {
    if j > 0 { QueuedIsSent(items, sr, j - 1); }
  }

  /** With ordered times, a train that passes was never idle, whatever the sizes. */
  lemma ProbeIsSound(items: seq<Packet>, kbps: nat, sr: nat, n: nat)
    requires n <= sr < |items| && GapsOk(items, kbps, sr, n)
    requires forall j :: 1 <= j <= n ==> AheadAt(items, kbps, sr, j)
    ensures NeverIdle(items, kbps, sr, n)
  {
    forall j | 1 <= j <= n ensures BusyAt(items, kbps, sr, j) {
      DrainedIsTaken(items, kbps, sr, j);
      QueuedIsSent(items, sr, j - 1);
      assert AheadAt(items, kbps, sr, j);
    }
  }

  /** For regular trains the test is exact. */
  lemma RegularIsExact(items: seq<Packet>, kbps: nat, sr: nat, n: nat)
    requires n <= sr < |items|
    ensures IsRegular(items, kbps, sr, n) ==>
      (NeverIdle(items, kbps, sr, n) <==> forall j :: 1 <= j <= n ==> AheadAt(items, kbps, sr, j))
  {
    if IsRegular(items, kbps, sr, n) {
      forall j | 1 <= j <= n ensures BusyAt(items, kbps, sr, j) <==> AheadAt(items, kbps, sr, j) {
        DrainedIsTaken(items, kbps, sr, j);
        QueuedIsSent(items, sr, j - 1);
      }
    }
  }

  /**
    The first item of 65536 bytes or more passes if and only if, beyond what the link took, at least the
    multiple of 65536 it loses as a parameter is still waiting: never being idle is not enough.
   */
  lemma OversizedPassesIff(items: seq<Packet>, kbps: nat, sr: nat, j: nat)
    requires 1 <= j <= sr < |items| && GapsOk(items, kbps, sr, j)
    requires InTrain(items, sr, j).size >= UINT16
    requires forall i :: 0 <= i < j ==> InTrain(items, sr, i).size < UINT16
    ensures Excess(InTrain(items, sr, j)) >= UINT16
    ensures AheadAt(items, kbps, sr, j) <==>
      SentBy(items, sr, j - 1) - TakenBy(items, kbps, sr, j) > Excess(InTrain(items, sr, j))
  {
    DrainedIsTaken(items, kbps, sr, j);
    QueuedIsSent(items, sr, j - 1);
  }

  /**
    A time that goes back, by any amount worth less than 3.6 GB at the bandwidth, empties every queue a
    backlog can fill, so no train that holds such a step is recognised.
   */
  lemma StepBackFails(items: seq<Packet>, kbps: nat, sr: nat, j: nat)
    requires 1 <= j <= sr < |items| <= BACKLOG_SIZE
    requires 0 < (InTrain(items, sr, j - 1).time - InTrain(items, sr, j).time) * kbps <= 8_000_000 * 3_600_000_000
    ensures !AheadAt(items, kbps, sr, j)
  {
    var last, now := InTrain(items, sr, j - 1).time, InTrain(items, sr, j).time;
    assert (now - last) * kbps == -((last - now) * kbps);
    DrainOfStepBack((now - last) * kbps);
    QueuedIsBounded(items, sr, j - 1);
  }

  lemma DrainOfStepBack(product: int)
    requires -8_000_000 * 3_600_000_000 <= product < 0
    ensures product % UINT64 / 8_000_000 % UINT32 > 65535 * BACKLOG_SIZE
  {
    assert product % UINT64 == product + UINT64;
    var quotient := (product + UINT64) / 8_000_000;
    assert 2305843009213 - 3_600_000_000 <= quotient <= 2305843009213;
    assert 536 * UINT32 <= quotient < 537 * UINT32;
    assert quotient % UINT32 == quotient - 536 * UINT32;
  }

  /** Eight million times the bytes a link takes until packet j is sent, without rounding. */
  function ExactDrain(items: seq<Packet>, kbps: nat, sr: nat, j: nat): int
    requires j <= sr < |items|
  {
    (InTrain(items, sr, j).time - items[sr].time) * kbps
  }

  /** Rounding loses less than a byte for each packet of the train. */
  lemma {:induction false} DrainIsNearlyExact(items: seq<Packet>, kbps: nat, sr: nat, j: nat)
    requires j <= sr < |items| && GapsOk(items, kbps, sr, j)
    ensures 8_000_000 * TakenBy(items, kbps, sr, j) <= ExactDrain(items, kbps, sr, j)
    ensures ExactDrain(items, kbps, sr, j) <= 8_000_000 * TakenBy(items, kbps, sr, j) + 8_000_000 * j - j
  {
    hide Drain, LinkTakes;
    if j > 0 {
      DrainIsNearlyExact(items, kbps, sr, j - 1);
      assert GapOk(items, kbps, sr, j);
      DrainOfGap(InTrain(items, sr, j - 1).time, InTrain(items, sr, j).time, kbps);
      assert ExactDrain(items, kbps, sr, j) == ExactDrain(items, kbps, sr, j - 1)
        + (InTrain(items, sr, j).time - InTrain(items, sr, j - 1).time) * kbps;
    }
  }

  /** A link that is busy without rounding is busy with it. */
  lemma FluidImpliesBusy(items: seq<Packet>, kbps: nat, sr: nat, j: nat)
    requires 1 <= j <= sr < |items| && GapsOk(items, kbps, sr, j)
    requires 8_000_000 * SentBy(items, sr, j - 1) > ExactDrain(items, kbps, sr, j)
    ensures BusyAt(items, kbps, sr, j)
  {
    DrainIsNearlyExact(items, kbps, sr, j);
  }

  /** When a link is busy with rounding, the exact link is ahead of the sender by less than a byte per packet. */
  lemma BusyImpliesNearlyFluid(items: seq<Packet>, kbps: nat, sr: nat, j: nat)
    requires 1 <= j <= sr < |items| && GapsOk(items, kbps, sr, j)
    requires BusyAt(items, kbps, sr, j)
    ensures 8_000_000 * (SentBy(items, sr, j - 1) + j) > ExactDrain(items, kbps, sr, j)
  {
    DrainIsNearlyExact(items, kbps, sr, j);
  }

  // ---------------------------------------------------------------------------------------
  // Analysing a probe

  predicate CountsAsSent(p: Packet) {
    p.kind == RTP || p.kind == RTCP_PADDING
  }

  predicate CountsAsReceived(p: Packet) {
    p.received || p.kind == RTCP_PADDING
  }

  function SentBytes(items: seq<Packet>, low: nat, high: nat): nat
    requires low <= high <= |items|
  {
    if low == high then 0
    else SentBytes(items, low, high - 1) + if CountsAsSent(items[high - 1]) then items[high - 1].size else 0
  }

  function ReceivedBytes(items: seq<Packet>, low: nat, high: nat): nat
    requires low <= high <= |items|
  {
    if low == high then 0
    else ReceivedBytes(items, low, high - 1) + if CountsAsReceived(items[high - 1]) then items[high - 1].size else 0
  }

  function SentPackets(items: seq<Packet>, low: nat, high: nat): nat
    requires low <= high <= |items|
  {
    if low == high then 0 else SentPackets(items, low, high - 1) + if CountsAsSent(items[high - 1]) then 1 else 0
  }

  function ReceivedPackets(items: seq<Packet>, low: nat, high: nat): nat
    requires low <= high <= |items|
  {
    if low == high then 0
    else ReceivedPackets(items, low, high - 1) + if CountsAsReceived(items[high - 1]) then 1 else 0
  }

  function Losses(items: seq<Packet>, low: nat, high: nat): nat
    requires low <= high <= |items|
  {
    if low == high then 0 else Losses(items, low, high - 1) + items[high - 1].lossCount
  }

  function Largest(items: seq<Packet>, low: nat, high: nat): nat
    requires low <= high <= |items|
  {
    if low == high then 0 else Max(items[high - 1].size, Largest(items, low, high - 1))
  }

  /** Every lost packet is taken to be as large as the largest one sent. */
  function Deducted(received: nat, loss: nat, largest: nat): (r: nat)
    ensures r <= received && (received == 0 ==> r == 0)
  {
    received - Min(received, loss * largest % UINT32)
  }

  predicate HasPadding(items: seq<Packet>, low: nat, high: nat)
    requires low <= high <= |items|
  {
    exists i :: low <= i < high && items[i].kind == RTCP_PADDING
  }

  /** With only RTP packets marked, what was received was sent. */
  lemma {:induction false} ReceivedWithinSent(items: seq<Packet>, low: nat, high: nat)
    requires low <= high <= |items| && OnlyRtpReceived(items)
    ensures ReceivedBytes(items, low, high) <= SentBytes(items, low, high)
    ensures ReceivedPackets(items, low, high) <= SentPackets(items, low, high)
    decreases high
  {
    if low < high { ReceivedWithinSent(items, low, high - 1); }
  }

  lemma TallyOfOne(items: seq<Packet>, end: nat)
    requires end < |items|
    ensures Losses(items, end, end + 1) == items[end].lossCount
    ensures Largest(items, end, end + 1) == items[end].size
  {
    assert Losses(items, end, end) == 0 && Largest(items, end, end) == 0;
  }

  datatype Analysis = Analysis(
    senderReport: Option<nat>, transmitPeriod: int, receivedAfterSR: nat, sentAfterSR: nat,
    packetsSent: nat, packetsReceived: nat, lossCount: nat, delaySinceSR: nat, probing: bool, rtpProbe: bool)

  predicate IsReportOf(p: Packet, end: Packet) {
    p.kind == SR && p.reportNtp == end.reportNtp
  }

  /** The first sender report a packet's receiver report belongs to, from index i on, or the end. */
  function FirstReport(items: seq<Packet>, end: nat, i: nat): (stop: nat)
    requires end < i <= |items|
    ensures i <= stop <= |items| && (stop < |items| ==> IsReportOf(items[stop], items[end]))
    ensures forall k :: i <= k < stop ==> !IsReportOf(items[k], items[end])
    decreases |items| - i
  {
    if i == |items| || IsReportOf(items[i], items[end]) then i else FirstReport(items, end, i + 1)
  }

  /** Everything the code adds up between a confirmed packet and its sender report. */
  ghost function AnalysisOf(items: seq<Packet>, end: nat, kbps: nat): Analysis
    requires end < |items|
  {
    var stop := FirstReport(items, end, end + 1);
    var received := items[end].size + ReceivedBytes(items, end + 1, stop);
    var sent := SentBytes(items, end + 1, stop);
    var packetsSent := 1 + SentPackets(items, end + 1, stop);
    var packetsReceived := 1 + ReceivedPackets(items, end + 1, stop);
    var rtpProbe := !HasPadding(items, end + 1, stop);
    if stop == |items| then
      Analysis(None, 0, received, sent, packetsSent, packetsReceived, 0, items[end].delaySinceSR, false, rtpProbe)
    else
      var losses := Losses(items, end, stop);
      Analysis(Some(stop), items[end].time - items[stop].time, Deducted(received, losses, Largest(items, end, stop)),
        sent, packetsSent, packetsReceived, losses, items[end].delaySinceSR,
        received > 0 && forall j :: 1 <= j <= stop - end ==> AheadAt(items, kbps, stop, j), rtpProbe)
  }

  /**
    What was received was sent, and probing means that the link was never idle: for regular trains
    exactly, for ordered ones at least when the answer is yes.
   */
  lemma AnalysisIsSound(items: seq<Packet>, end: nat, kbps: nat)
    requires end < |items| && BacklogOk(items)
    ensures var a := AnalysisOf(items, end, kbps);
      && a.packetsReceived <= a.packetsSent
      && a.receivedAfterSR <= items[end].size + a.sentAfterSR
      && (a.senderReport.Some? ==>
        var sr := a.senderReport.value;
        && end < sr < |items| && IsReportOf(items[sr], items[end])
        && (a.probing && GapsOk(items, kbps, sr, sr - end) ==> NeverIdle(items, kbps, sr, sr - end))
        && (items[end].size > 0 && IsRegular(items, kbps, sr, sr - end) ==>
          (a.probing <==> NeverIdle(items, kbps, sr, sr - end))))
  {
    hide Deducted, AheadAt, IsRegular, NeverIdle, GapsOk, OlderAreReceived;
    var stop := FirstReport(items, end, end + 1);
    ReceivedWithinSent(items, end + 1, stop);
    if stop < |items| {
      RegularIsExact(items, kbps, stop, stop - end);
      if AnalysisOf(items, end, kbps).probing && GapsOk(items, kbps, stop, stop - end) {
        ProbeIsSound(items, kbps, stop, stop - end);
      }
    }
  }

  /**
    Padding that adds up to 70000 bytes between a sender report and a confirmed packet: the link was never
    idle, every other size and every gap is within bounds, and the train is not recognised.
   */
  lemma BigPaddingIsMissed(items: seq<Packet>)
    requires items == [NewPacket(5, 1, 0, 100, RTP).(received := true), NewPacket(5, 1, 0, 70000, RTCP_PADDING),
                       NewPacket(5, 1, 0, 100, SR)]
    ensures BacklogOk(items) && GapsOk(items, 300, 2, 2) && NeverIdle(items, 300, 2, 2)
    ensures AnalysisOf(items, 0, 300).senderReport == Some(2) && !AnalysisOf(items, 0, 300).probing
  {
    hide Drain, LinkTakes;
    assert InTrain(items, 2, 0).size == 100 && InTrain(items, 2, 1).size == 70000;
    NothingTaken(items, 300, 2, 1);
    NothingTaken(items, 300, 2, 2);
    assert SentBy(items, 2, 0) == 100;
    assert SentBy(items, 2, 1) == 70000 + SentBy(items, 2, 0);
    assert BusyAt(items, 300, 2, 1) && BusyAt(items, 300, 2, 2);
    assert QueuedBy(items, 2, 0) == 100;
    assert !AheadAt(items, 300, 2, 1);
    assert FirstReport(items, 0, 1) == 2;
  }

  /** Packets sent at one time leave the link no time to take anything. */
  lemma {:induction false} NothingTaken(items: seq<Packet>, kbps: nat, sr: nat, j: nat)
    requires j <= sr < |items| && forall i :: 0 <= i <= j ==> InTrain(items, sr, i).time == items[sr].time
    ensures TakenBy(items, kbps, sr, j) == 0
  {
    if j > 0 { NothingTaken(items, kbps, sr, j - 1); }
  }

  /** One nanosecond back is enough: a packet confirmed 1 ns before its sender report ends no probe. */
  lemma OneNanosecondBack(items: seq<Packet>)
    requires items == [NewPacket(999, 1, 0, 100, RTP).(received := true), NewPacket(1000, 1, 0, 100, SR)]
    ensures BacklogOk(items) && NeverIdle(items, 100, 1, 1)
    ensures AnalysisOf(items, 0, 100).senderReport == Some(1) && !AnalysisOf(items, 0, 100).probing
  {
    assert InTrain(items, 1, 0).time == 1000 && InTrain(items, 1, 1).time == 999;
    StepBackFails(items, 100, 1, 1);
    assert BusyAt(items, 100, 1, 1) && !AheadAt(items, 100, 1, 1);
    assert FirstReport(items, 0, 1) == 1;
  }

  /** Walks back from a confirmed packet to the sender report its receiver report belongs to. */
  method AnalyzeProbe(items: seq<Packet>, end: nat, kbps: nat) returns (report: Analysis)
    requires end < |items| <= BACKLOG_SIZE
    ensures report == AnalysisOf(items, end, kbps)
  {
    hide Deducted, AheadAt, NeverIdle, IsRegular, IsReportOf;
    var received: nat, sent: nat, packetsSent: nat, packetsReceived: nat := items[end].size, 0, 1, 1;
    var loss: nat, largest: nat, rtpProbe := items[end].lossCount, items[end].size, true;
    var i := end + 1;
    TallyOfOne(items, end);
    while i < |items|
      invariant end < i <= |items| && FirstReport(items, end, i) == FirstReport(items, end, end + 1)
      invariant received == items[end].size + ReceivedBytes(items, end + 1, i) && sent == SentBytes(items, end + 1, i)
      invariant packetsSent == 1 + SentPackets(items, end + 1, i)
      invariant packetsReceived == 1 + ReceivedPackets(items, end + 1, i)
      invariant rtpProbe == !HasPadding(items, end + 1, i)
      invariant loss == Losses(items, end, i) && largest == Largest(items, end, i)
    {
      var item := items[i];
      if IsReportOf(item, items[end]) {
        var probing := false;
        if received > 0 {
          probing := IsProbe(items, kbps, end, i);
          received := Deducted(received, loss, largest);
        }
        return Analysis(Some(i), items[end].time - item.time, received, sent, packetsSent, packetsReceived,
          loss, items[end].delaySinceSR, probing, rtpProbe);
      }
      if item.kind == RTCP_PADDING {
        rtpProbe := false;
      }
      if item.received || item.kind == RTCP_PADDING {
        received, packetsReceived := received + item.size, packetsReceived + 1;
      }
      loss := loss + item.lossCount;
      largest := Max(item.size, largest);
      if item.kind == RTP || item.kind == RTCP_PADDING {
        packetsSent, sent := packetsSent + 1, sent + item.size;
      }
      i := i + 1;
    }
    return Analysis(None, 0, received, sent, packetsSent, packetsReceived, 0, items[end].delaySinceSR, false, rtpProbe);
  }

  // ---------------------------------------------------------------------------------------
  // Choosing among the probes of the backlog

  /** 16.16 fixed-point seconds. */
  const NTP_SECOND: nat := 0x1_0000

  function BitrateKbps(a: Analysis): nat {
    var divisor := 125 * a.delaySinceSR % UINT32;
    if a.delaySinceSR == 0 || divisor == 0 then 0 else Min(a.receivedAfterSR * NTP_SECOND / divisor, 0x7FFF_FFFF)
  }

  /** Below 524 s the bit rate is the bytes received by the time they took, in whole kbit/s, up to 2^31 - 1. */
  lemma BitrateIsRate(a: Analysis)
    requires 0 < 125 * a.delaySinceSR < UINT32
    ensures var rate, time := BitrateKbps(a), 125 * a.delaySinceSR;
      && rate * time <= a.receivedAfterSR * NTP_SECOND
      && (a.receivedAfterSR * NTP_SECOND < (rate + 1) * time || rate == 0x7FFF_FFFF)
  {
    hide BitrateKbps;
    var time := 125 * a.delaySinceSR;
    DivModUnique(time, UINT32, 0, time);
    BitrateIsQuotient(a, time);
    QuotientBounds(a.receivedAfterSR * NTP_SECOND, time, BitrateKbps(a));
  }

  lemma BitrateIsQuotient(a: Analysis, time: nat)
    requires 0 < time == 125 * a.delaySinceSR % UINT32
    ensures BitrateKbps(a) == Min(a.receivedAfterSR * NTP_SECOND / time, 0x7FFF_FFFF)
  {
  }

  lemma QuotientBounds(bits: nat, time: nat, rate: nat)
    requires time > 0 && rate == Min(bits / time, 0x7FFF_FFFF)
    ensures rate * time <= bits && (bits < (rate + 1) * time || rate == 0x7FFF_FFFF)
  {
    var quotient := bits / time;
    assert bits == quotient * time + bits % time;
    MulMonotone(rate, quotient, time);
    assert (quotient + 1) * time == quotient * time + time;
  }

  predicate EnoughConfirmed(a: Analysis) {
    if a.sentAfterSR == 0 then a.receivedAfterSR > 0 else 10 * a.receivedAfterSR > 9 * a.sentAfterSR
  }

  /** A complete probe with enough delay and confirmed data, or a measurement above the estimate. */
  predicate IsGood(a: Analysis, kbps: nat) {
    && a.senderReport.Some? && a.delaySinceSR > NTP_SECOND / 10 && EnoughConfirmed(a)
    && (a.probing || (a.delaySinceSR > NTP_SECOND / 5 && BitrateKbps(a) > kbps))
  }

  /**
    A good probe of a regular train: more than a tenth of a second of data of which more than nine tenths is
    confirmed, over a link that was never idle, or for a fifth of a second faster than the estimate.
   */
  lemma GoodProbeIff(items: seq<Packet>, end: nat, kbps: nat)
    requires end < |items| && BacklogOk(items) && items[end].size > 0
    requires var a := AnalysisOf(items, end, kbps);
      a.senderReport.Some? ==> IsRegular(items, kbps, a.senderReport.value, a.senderReport.value - end)
    ensures var a := AnalysisOf(items, end, kbps);
      IsGood(a, kbps) <==>
        && a.senderReport.Some? && a.receivedAfterSR > 0
        && a.delaySinceSR >= 6554 && a.receivedAfterSR as real > 0.9 * a.sentAfterSR as real
        && (NeverIdle(items, kbps, a.senderReport.value, a.senderReport.value - end)
            || (a.delaySinceSR >= 13108 && BitrateKbps(a) > kbps))
  {
    hide AnalysisOf, BitrateKbps, NeverIdle, IsRegular, BacklogOk;
    AnalysisIsSound(items, end, kbps);
  }

  const NO_ANALYSIS: Analysis := Analysis(None, 0, 0, 0, 0, 0, 0, 0, false, true)

  /** Whether the first probe received faster, by products of 32 bits. */
  predicate SeemsFaster(a: Analysis, b: Analysis) {
    b.delaySinceSR * a.receivedAfterSR % UINT32 > a.delaySinceSR * b.receivedAfterSR % UINT32
  }

  /** Whether the first probe received more bytes in the same time. */
  predicate IsFaster(a: Analysis, b: Analysis) {
    b.delaySinceSR * a.receivedAfterSR > a.delaySinceSR * b.receivedAfterSR
  }

  function BestReport(a: Analysis, b: Analysis, kbps: nat): Analysis {
    if IsGood(b, kbps) && !(IsGood(a, kbps) && SeemsFaster(a, b)) then b else a
  }

  /** Where the products compare rightly, the choice between two good probes is never the slower one. */
  lemma BestIsNotSlower(a: Analysis, b: Analysis, kbps: nat)
    requires IsGood(a, kbps) && IsGood(b, kbps) && (SeemsFaster(a, b) <==> IsFaster(a, b))
    ensures !IsFaster(a, BestReport(a, b, kbps)) && !IsFaster(b, BestReport(a, b, kbps))
  {
  }

  /**
    The products compare rightly exactly when they wrapped equally often, or the rests agree with the laps;
    so they do whenever both are below 2^32.
   */
  lemma SeemsFasterIff(a: Analysis, b: Analysis)
    ensures b.delaySinceSR * a.receivedAfterSR < UINT32 && a.delaySinceSR * b.receivedAfterSR < UINT32 ==>
      (SeemsFaster(a, b) <==> IsFaster(a, b))
    ensures var x, y := b.delaySinceSR * a.receivedAfterSR, a.delaySinceSR * b.receivedAfterSR;
      (SeemsFaster(a, b) <==> IsFaster(a, b)) <==>
        (x / UINT32 == y / UINT32 || (x % UINT32 > y % UINT32 <==> x / UINT32 > y / UINT32))
  {
    var x, y := b.delaySinceSR * a.receivedAfterSR, a.delaySinceSR * b.receivedAfterSR;
    WrappedOrder(x, y);
  }

  lemma WrappedOrder(x: nat, y: nat)
    ensures x / UINT32 == y / UINT32 ==> (x % UINT32 > y % UINT32 <==> x > y)
    ensures x / UINT32 != y / UINT32 ==> (x / UINT32 > y / UINT32 <==> x > y)
  {
  }

  /** A probe of one second and 65536 bytes loses against one of 60000 bytes. */
  lemma FasterProbeIsDropped()
    ensures var a := NO_ANALYSIS.(senderReport := Some(1), receivedAfterSR := 65536, sentAfterSR := 65536,
        delaySinceSR := NTP_SECOND, probing := true);
      var b := a.(receivedAfterSR := 60000, sentAfterSR := 60000);
      IsGood(a, 300) && IsGood(b, 300) && IsFaster(a, b) && BestReport(a, b, 300) == b
  {
  }

  predicate IsCandidate(p: Packet) {
    p.kind == RTP && p.reportNtp != 0 && p.received && p.delaySinceSR > NTP_SECOND / 20
  }

  /** A sender report from before the limit ends the walk. */
  predicate EndsWalk(p: Packet, limit: nat) {
    p.kind == SR && (p.reportNtp - limit) % UINT32 >= 0x8000_0000
  }

  /** The bytes sent after the newest received packet, up to index i. */
  function InTransit(items: seq<Packet>, i: nat): nat
    requires i <= |items|
  {
    if i == 0 then 0
    else InTransit(items, i - 1) + if HasReceived(items, i) then 0 else items[i - 1].size
  }

  predicate HasReceived(items: seq<Packet>, i: nat)
    requires i <= |items|
  {
    exists k :: 0 <= k < i && items[k].received
  }

  datatype Choice = Choice(report: Analysis, networkQueue: nat)

  /** The walk over the backlog from item i on, with the best probe found so far. */
  ghost function Chosen(items: seq<Packet>, limit: nat, kbps: nat, i: nat, best: Analysis): Choice
    requires i <= |items|
    decreases |items| - i
  {
    if i == |items| then Choice(best, InTransit(items, i))
    else
      var a := AnalysisOf(items, i, kbps);
      if IsCandidate(items[i]) && a.lossCount > 0 && best.senderReport.None? then Choice(a, InTransit(items, i))
      else
        var next := if IsCandidate(items[i]) && IsGood(a, kbps) then BestReport(a, best, kbps) else best;
        if EndsWalk(items[i], limit) then Choice(next, InTransit(items, i + 1))
        else Chosen(items, limit, kbps, i + 1, next)
  }

  /** The analysis that is used found nothing, or a loss before any good probe, or is good. */
  lemma {:induction false} ChosenIsGoodOrLossy(items: seq<Packet>, limit: nat, kbps: nat, i: nat, best: Analysis)
    requires i <= |items| && (best == NO_ANALYSIS || IsGood(best, kbps))
    ensures var r := Chosen(items, limit, kbps, i, best).report;
      r == NO_ANALYSIS || IsGood(r, kbps) || (r.lossCount > 0 && best == NO_ANALYSIS)
    decreases |items| - i
  {
    hide IsGood, AnalysisOf;
    if i < |items| {
      var a := AnalysisOf(items, i, kbps);
      GoodHasReport(best, kbps);
      var next := if IsCandidate(items[i]) && IsGood(a, kbps) then BestReport(a, best, kbps) else best;
      ChosenIsGoodOrLossy(items, limit, kbps, i + 1, next);
    }
  }

  lemma GoodHasReport(a: Analysis, kbps: nat)
    ensures IsGood(a, kbps) ==> a.senderReport.Some?
    ensures !IsGood(NO_ANALYSIS, kbps)
  {
  }

  /** The walk from item i has not ended before item j. */
  predicate Reaches(items: seq<Packet>, limit: nat, i: nat, j: nat)
    requires i <= j < |items|
  {
    forall k :: i <= k < j ==> !EndsWalk(items[k], limit)
  }

  /** A confirmed packet that ends a good probe. */
  ghost predicate IsGoodCandidate(items: seq<Packet>, kbps: nat, j: nat)
    requires j < |items|
  {
    IsCandidate(items[j]) && IsGood(AnalysisOf(items, j, kbps), kbps)
  }

  /** The products compare any two good probes rightly, the best one so far included. */
  ghost predicate ComparesRightly(items: seq<Packet>, kbps: nat, i: nat, best: Analysis)
    requires i <= |items|
  {
    forall j :: i <= j < |items| && IsGoodCandidate(items, kbps, j) ==>
      && (IsGood(best, kbps) ==> RightOrder(AnalysisOf(items, j, kbps), best))
      && forall k :: i <= k < |items| && IsGoodCandidate(items, kbps, k) ==>
        RightOrder(AnalysisOf(items, j, kbps), AnalysisOf(items, k, kbps))
  }

  predicate RightOrder(a: Analysis, b: Analysis) {
    SeemsFaster(a, b) <==> IsFaster(a, b)
  }

  /** Being no slower is transitive among probes that took some time. */
  lemma NotFasterTransitive(a: Analysis, b: Analysis, c: Analysis)
    requires !IsFaster(a, b) && !IsFaster(b, c) && b.delaySinceSR > 0
    ensures !IsFaster(a, c)
  {
    var x, y := b.delaySinceSR * a.receivedAfterSR, a.delaySinceSR * b.receivedAfterSR;
    var z := c.delaySinceSR * b.receivedAfterSR;
    MulMonotone(x, y, c.delaySinceSR);
    MulMonotone(z, b.delaySinceSR * c.receivedAfterSR, a.delaySinceSR);
    assert x * c.delaySinceSR == (c.delaySinceSR * a.receivedAfterSR) * b.delaySinceSR;
    assert y * c.delaySinceSR == z * a.delaySinceSR;
    assert (b.delaySinceSR * c.receivedAfterSR) * a.delaySinceSR
        == (a.delaySinceSR * c.receivedAfterSR) * b.delaySinceSR;
    if IsFaster(a, c) {
      MulBounds(c.delaySinceSR * a.receivedAfterSR - a.delaySinceSR * c.receivedAfterSR, b.delaySinceSR);
    }
  }

  /** The walk stopped at a confirmed packet with losses, before any good probe was found. */
  ghost predicate IsFirstLossy(items: seq<Packet>, kbps: nat, j: nat, r: Analysis)
    requires j < |items|
  {
    IsCandidate(items[j]) && r == AnalysisOf(items, j, kbps) && r.lossCount > 0
  }

  /** The result is no slower than the best one before item i and every good probe reached from there. */
  ghost predicate IsFastest(items: seq<Packet>, limit: nat, kbps: nat, i: nat, best: Analysis, r: Analysis)
    requires i <= |items|
  {
    && NoSlower(best, r, kbps)
    && forall j :: i <= j < |items| && Reaches(items, limit, i, j) && IsGoodCandidate(items, kbps, j) ==>
      NoSlower(AnalysisOf(items, j, kbps), r, kbps)
  }

  predicate NoSlower(a: Analysis, r: Analysis, kbps: nat) {
    IsGood(a, kbps) ==> IsGood(r, kbps) && !IsFaster(a, r)
  }

  ghost predicate StoppedAtLoss(items: seq<Packet>, kbps: nat, i: nat, r: Analysis) {
    exists j :: i <= j < |items| && IsFirstLossy(items, kbps, j, r)
  }

  /**
    Among all probes the walk reaches, the one it chooses is good if any is, and none was received faster,
    as long as the products compare rightly; unless the walk stopped at a loss before it found a good one.
   */
  lemma {:induction false} ChosenIsFastest(items: seq<Packet>, limit: nat, kbps: nat, i: nat, best: Analysis)
    requires i <= |items| && (best == NO_ANALYSIS || IsGood(best, kbps)) && ComparesRightly(items, kbps, i, best)
    ensures var r := Chosen(items, limit, kbps, i, best).report;
      (best == NO_ANALYSIS && StoppedAtLoss(items, kbps, i, r)) || IsFastest(items, limit, kbps, i, best, r)
    decreases |items| - i
  {
    hide IsGood, AnalysisOf, ComparesRightly, NoSlower, EndsWalk;
    GoodHasReport(best, kbps);
    NoSlowerThanItself(best, kbps);
    if i < |items| {
      var a := AnalysisOf(items, i, kbps);
      var r := Chosen(items, limit, kbps, i, best).report;
      if IsCandidate(items[i]) && a.lossCount > 0 && best.senderReport.None? {
        assert IsFirstLossy(items, kbps, i, r);
      } else {
        var next := if IsGoodCandidate(items, kbps, i) then BestReport(a, best, kbps) else best;
        BetterIsNoSlower(items, kbps, i, best, next);
        if !EndsWalk(items[i], limit) {
          ChosenIsFastest(items, limit, kbps, i + 1, next);
          if IsFastest(items, limit, kbps, i + 1, next, r) {
            FastestFromBefore(items, limit, kbps, i, best, next, r);
          }
        }
      }
    }
  }

  lemma NoSlowerThanItself(a: Analysis, kbps: nat)
    ensures NoSlower(a, a, kbps)
  {
  }

  lemma NoSlowerTransitive(a: Analysis, b: Analysis, c: Analysis, kbps: nat)
    requires NoSlower(a, b, kbps) && NoSlower(b, c, kbps)
    ensures NoSlower(a, c, kbps)
  {
    hide IsFaster;
    if IsGood(a, kbps) { NotFasterTransitive(a, b, c); }
  }

  lemma BetterIsNoSlower(items: seq<Packet>, kbps: nat, i: nat, best: Analysis, next: Analysis)
    requires i < |items| && (best == NO_ANALYSIS || IsGood(best, kbps)) && ComparesRightly(items, kbps, i, best)
    requires next ==
      if IsGoodCandidate(items, kbps, i) then BestReport(AnalysisOf(items, i, kbps), best, kbps) else best
    ensures next == NO_ANALYSIS || IsGood(next, kbps)
    ensures IsGood(best, kbps) ==> next != NO_ANALYSIS
    ensures ComparesRightly(items, kbps, i + 1, next)
    ensures NoSlower(best, next, kbps)
    ensures IsGoodCandidate(items, kbps, i) ==> NoSlower(AnalysisOf(items, i, kbps), next, kbps)
  {
    hide IsGood, AnalysisOf, SeemsFaster;
    GoodHasReport(best, kbps);
    if IsGoodCandidate(items, kbps, i) && IsGood(best, kbps) {
      assert RightOrder(AnalysisOf(items, i, kbps), best);
    }
  }

  lemma FastestFromBefore(
      items: seq<Packet>, limit: nat, kbps: nat, i: nat, best: Analysis, next: Analysis, r: Analysis)
    requires i < |items| && IsFastest(items, limit, kbps, i + 1, next, r) && NoSlower(best, next, kbps)
    requires IsGoodCandidate(items, kbps, i) ==> NoSlower(AnalysisOf(items, i, kbps), next, kbps)
    ensures IsFastest(items, limit, kbps, i, best, r)
  {
    hide IsGood, AnalysisOf, NoSlower, EndsWalk;
    NoSlowerTransitive(best, next, r, kbps);
    forall j | i <= j < |items| && Reaches(items, limit, i, j) && IsGoodCandidate(items, kbps, j)
      ensures NoSlower(AnalysisOf(items, j, kbps), r, kbps)
    {
      if j == i {
        NoSlowerTransitive(AnalysisOf(items, i, kbps), next, r, kbps);
      } else {
        assert Reaches(items, limit, i + 1, j);
      }
    }
  }

  method AnalyzeBacklog(items: seq<Packet>, limit: nat, kbps: nat) returns (report: Analysis, networkQueue: nat)
    requires |items| <= BACKLOG_SIZE
    ensures Choice(report, networkQueue) == Chosen(items, limit, kbps, 0, NO_ANALYSIS)
  {
    hide AnalysisOf, IsGood;
    report, networkQueue := NO_ANALYSIS, 0;
    var hasReceived, i := false, 0;
    while i < |items|
      invariant i <= |items| && hasReceived == HasReceived(items, i) && networkQueue == InTransit(items, i)
      invariant Chosen(items, limit, kbps, i, report) == Chosen(items, limit, kbps, 0, NO_ANALYSIS)
    {
      var item := items[i];
      if IsCandidate(item) {
        var candidate := AnalyzeProbe(items, i, kbps);
        if candidate.lossCount > 0 && report.senderReport.None? {
          return candidate, networkQueue;
        }
        if IsGood(candidate, kbps) {
          report := BestReport(candidate, report, kbps);
        }
      }
      assert HasReceived(items, i + 1) <==> HasReceived(items, i) || item.received;
      if item.received && !hasReceived {
        hasReceived := true;
      } else if !hasReceived {
        networkQueue := networkQueue + item.size;
      }
      if EndsWalk(item, limit) {
        break;
      }
      i := i + 1;
    }
  }

  // ---------------------------------------------------------------------------------------
  // The estimate

  const SECOND: int := 1_000_000_000
  const MAX_INTERVAL: int := 4_000_000_000
  datatype Config = Config(
    enabled: bool, ipOverhead: nat, mtu: nat, maxPaddingSize: nat, bandwidthFloorKbps: nat, bandwidthCeilingKbps: nat,
    minPadPinInterval: nat, minPadSize: nat, rtcpProbeCeiling: nat, maxTargetQueue: nat, initialEstimateKbps: nat,
    probeDuration: nat)

  predicate ConfigOk(c: Config) {
    && c.bandwidthFloorKbps <= c.initialEstimateKbps <= c.bandwidthCeilingKbps
    && 0 < c.maxPaddingSize <= UINT16
  }

  /** What the analysis of the backlog says after a report. */
  datatype Outcome = Outcome(
    good: bool, lossCount: nat, lossRatio: real, bitrateKbps: nat, rtpProbe: bool, networkQueue: nat, packetsSent: nat)

  /** The last analysis that moved the estimate. */
  datatype LastProbe = LastProbe(ntp: nat, delaySinceSR: nat, packetsReceived: nat)

  predicate IsValid(choice: Choice) {
    choice.networkQueue != UINT32 - 1 && choice.report.receivedAfterSR != 0 && choice.report.senderReport.Some?
  }

  predicate IsSame(items: seq<Packet>, a: Analysis, last: LastProbe) {
    && a.senderReport.Some? && a.senderReport.value < |items|
    && LastProbe(items[a.senderReport.value].reportNtp, a.delaySinceSR, a.packetsReceived) == last
  }

  /** A good probe is always used, unless it was the one used last; nothing found is never used. */
  lemma GoodIsValid(choice: Choice, kbps: nat)
    requires choice.networkQueue < UINT32 - 1
    ensures IsGood(choice.report, kbps) ==> IsValid(choice)
    ensures IsValid(choice) ==> choice.report.receivedAfterSR > 0 && choice.report.senderReport.Some?
  {
  }

  /** Two analyses that match the last probe measured the same report, for as long, with as many packets. */
  lemma SameProbeIsTheSame(items: seq<Packet>, a: Analysis, b: Analysis, last: LastProbe)
    requires a.senderReport.Some? && a.senderReport.value < |items|
    requires b.senderReport.Some? && b.senderReport.value < |items|
    requires IsSame(items, a, last)
    ensures IsSame(items, b, last) <==>
      && items[a.senderReport.value].reportNtp == items[b.senderReport.value].reportNtp
      && a.delaySinceSR == b.delaySinceSR && a.packetsReceived == b.packetsReceived
  {
  }

  function OutcomeOf(choice: Choice, kbps: nat): Outcome {
    var a := choice.report;
    Outcome(IsGood(a, kbps), a.lossCount, a.lossCount as real / Max(1, a.packetsSent) as real,
      BitrateKbps(a), a.rtpProbe, choice.networkQueue, a.packetsSent)
  }

  /** The oldest sender report the blocks of a report refer to, by serial numbers; zero stands for none. */
  function OldestReport(lastSRs: seq<nat>): nat
    requires lastSRs != []
  {
    if |lastSRs| == 1 then lastSRs[0]
    else
      var limit, last := OldestReport(lastSRs[..|lastSRs| - 1]), lastSRs[|lastSRs| - 1];
      if last != 0 && 0 < (limit - last) % UINT32 < 0x8000_0000 then last else limit
  }

  /** The walk over the backlog ends at a sender report from before the limit, on a clock that wraps. */
  lemma EndsWalkIff(p: Packet, limit: nat, base: int)
    requires Since(base, p.reportNtp) < 0x8000_0000 && Since(base, limit) < 0x8000_0000
    ensures EndsWalk(p, limit) <==> p.kind == SR && Since(base, p.reportNtp) < Since(base, limit)
  {
    hide Since;
    SerialOrder(base, p.reportNtp, limit);
    SerialOrder(base, limit, p.reportNtp);
    SerialOpposite(p.reportNtp, limit);
    SinceInjective(base, p.reportNtp, limit);
  }

  lemma SerialOpposite(x: int, y: int)
    ensures (x - y) % UINT32 == 0 <==> (y - x) % UINT32 == 0
    ensures (x - y) % UINT32 != 0 ==> (y - x) % UINT32 == UINT32 - (x - y) % UINT32
  {
    var d := (x - y) % UINT32;
    var laps := (x - y) / UINT32;
    if d == 0 { DivModUnique(y - x, UINT32, -laps, 0); } else { DivModUnique(y - x, UINT32, -laps - 1, UINT32 - d); }
  }

  lemma SinceInjective(base: int, x: int, y: int)
    ensures (x - y) % UINT32 == 0 <==> Since(base, x) == Since(base, y)
  {
    var laps := (x - base) / UINT32 - (y - base) / UINT32;
    assert x - y == laps * UINT32 + Since(base, x) - Since(base, y);
    if Since(base, x) == Since(base, y) { DivModUnique(x - y, UINT32, laps, 0); }
    if (x - y) % UINT32 == 0 {
      var k := (x - y) / UINT32;
      assert Since(base, x) - Since(base, y) == (k - laps) * UINT32;
      MulBounds(k - laps, UINT32);
    }
  }

  /** How far a 32-bit time is after another one. */
  function Since(base: int, x: int): nat {
    (x - base) % UINT32
  }

  /** Serial numbers within half a cycle are ordered as their distances from a common base. */
  lemma SerialOrder(base: int, x: int, y: int)
    requires Since(base, x) < 0x8000_0000 && Since(base, y) < 0x8000_0000
    ensures 0 < (x - y) % UINT32 < 0x8000_0000 <==> Since(base, y) < Since(base, x)
  {
    var a, b := Since(base, x), Since(base, y);
    var laps := (x - base) / UINT32 - (y - base) / UINT32;
    assert x - y == laps * UINT32 + (a - b);
    if a >= b {
      DivModUnique(x - y, UINT32, laps, a - b);
    } else {
      DivModUnique(x - y, UINT32, laps - 1, a - b + UINT32);
    }
  }

  /**
    When the blocks refer to reports within half a cycle of 18 hours from some time on, the limit is one of
    them and none is older; blocks that refer to none are passed over, except the first.
   */
  lemma {:induction false} OldestIsOldest(lastSRs: seq<nat>, base: int)
    requires lastSRs != [] && lastSRs[0] != 0
    requires forall i :: 0 <= i < |lastSRs| && lastSRs[i] != 0 ==> Since(base, lastSRs[i]) < 0x8000_0000
    ensures var limit := OldestReport(lastSRs);
      && limit != 0 && limit in lastSRs
      && forall i :: 0 <= i < |lastSRs| && lastSRs[i] != 0 ==> Since(base, limit) <= Since(base, lastSRs[i])
  {
    hide Since;
    if |lastSRs| > 1 {
      var front, last := lastSRs[..|lastSRs| - 1], lastSRs[|lastSRs| - 1];
      OldestIsOldest(front, base);
      if last != 0 { SerialOrder(base, OldestReport(front), last); }
    }
  }

  method FindOldestReport(lastSRs: seq<nat>) returns (limit: nat)
    requires lastSRs != []
    ensures limit == OldestReport(lastSRs)
  {
    limit := lastSRs[0];
    assert lastSRs[..1] == [lastSRs[0]];
    for i := 1 to |lastSRs|
      invariant limit == OldestReport(lastSRs[..i])
    {
      assert lastSRs[..i + 1][..i] == lastSRs[..i];
      if lastSRs[i] != 0 && 0 < (limit - lastSRs[i]) % UINT32 < 0x8000_0000 {
        limit := lastSRs[i];
      }
    }
    assert lastSRs[..|lastSRs|] == lastSRs;
  }

  function ReceiveRate(c: Config, o: Outcome): nat {
    if o.rtpProbe then Min(c.bandwidthCeilingKbps, o.bitrateKbps) else Min(c.rtcpProbeCeiling, o.bitrateKbps)
  }

  /** The estimate a report leads to, before it is kept in range. */
  function Moved(c: Config, o: Outcome, estimate: nat, queueSize: nat, targetQueue: nat, backedOff: bool): int {
    var receiveRate := ReceiveRate(c, o);
    if o.good && o.lossCount < 3 && o.lossRatio <= 0.02 then
      if receiveRate > estimate then Min(estimate + 1000, o.bitrateKbps)
      else if o.networkQueue + c.mtu < queueSize then (estimate as real * 1.02).Floor
      else if o.packetsSent > 4 then (estimate as real - 0.1 * (estimate - receiveRate) as real).Floor
      else estimate
    else if o.lossCount > 2 && o.lossRatio > 0.02 && o.networkQueue > targetQueue / 2 && !backedOff then
      Max(c.bandwidthFloorKbps, (estimate as real * 0.95).Floor)
    else estimate
  }

  /** One report lowers an estimate in range by at most a tenth and raises it by at most 1000 or a fiftieth. */
  lemma MovedIsBounded(c: Config, o: Outcome, estimate: nat, queueSize: nat, targetQueue: nat, backedOff: bool)
    requires c.bandwidthFloorKbps <= estimate <= c.bandwidthCeilingKbps
    ensures var next := Clamp(Moved(c, o, estimate, queueSize, targetQueue, backedOff),
                              c.bandwidthFloorKbps, c.bandwidthCeilingKbps);
      c.bandwidthFloorKbps <= next <= c.bandwidthCeilingKbps && MovesLittle(estimate, next)
  {
    var receiveRate := ReceiveRate(c, o);
    assert (estimate as real * 1.02).Floor <= estimate + estimate / 50 by {
      assert estimate as real * 1.02 == estimate as real + estimate as real * 0.02;
      assert estimate as real * 0.02 < (estimate / 50 + 1) as real;
    }
    if receiveRate <= estimate {
      var lowered := estimate as real - 0.1 * (estimate - receiveRate) as real;
      assert lowered >= estimate as real * 0.9;
      assert lowered <= estimate as real;
    }
  }

  /** A complete probe that lost at most two packets, and at most a fiftieth. */
  predicate FewLosses(o: Outcome) {
    o.good && o.lossCount < 3 && o.lossRatio <= 0.02
  }

  /** More than two packets, and more than a fiftieth, were lost while much waits in the network. */
  predicate HeavyLosses(o: Outcome, targetQueue: nat) {
    o.lossCount > 2 && o.lossRatio > 0.02 && o.networkQueue > targetQueue / 2
  }

  /** The network queue is more than an MTU shorter than the queue model. */
  predicate QueueIsShort(c: Config, o: Outcome, queueSize: nat) {
    o.networkQueue + c.mtu < queueSize
  }

  lemma TwoPercentMore(estimate: nat)
    ensures estimate <= (estimate as real * 1.02).Floor <= estimate + estimate / 50
    ensures estimate >= 50 <==> (estimate as real * 1.02).Floor > estimate
  {
    assert estimate as real * 1.02 == estimate as real + estimate as real * 0.02;
    assert estimate as real * 0.02 < (estimate / 50 + 1) as real;
    if estimate >= 50 { assert estimate as real * 0.02 >= 1.0; }
  }

  lemma TenthOfGap(estimate: nat, rate: nat)
    requires rate <= estimate
    ensures var lowered := (estimate as real - 0.1 * (estimate - rate) as real).Floor;
      && rate <= lowered <= estimate && (lowered < estimate <==> rate < estimate)
      && 10 * (estimate - lowered) < estimate - rate + 10
  {
    var exact := estimate as real - 0.1 * (estimate - rate) as real;
    assert 10.0 * exact == (10 * estimate - (estimate - rate)) as real;
    assert exact.Floor as real <= exact < exact.Floor as real + 1.0;
  }

  lemma FivePercentLess(estimate: nat)
    ensures var lowered := (estimate as real * 0.95).Floor;
      0 <= lowered <= estimate && 20 * (estimate - lowered) < estimate + 20 && (estimate > 0 ==> lowered < estimate)
  {
    var exact := estimate as real * 0.95;
    assert 20.0 * exact == (19 * estimate) as real;
    assert exact.Floor as real <= exact < exact.Floor as real + 1.0;
  }

  function TargetQueueOf(bandwidthKbps: nat, minRttNtp: nat, c: Config): nat {
    var bandwidth := bandwidthKbps as real;
    var milliseconds := 40.0 + 51000.0 / (if bandwidth < 200.0 then 200.0 else bandwidth)
      + (minRttNtp * 125 % UINT32 / UINT16) as real;
    Max(0, Clamp((bandwidth * milliseconds / 8.0).Floor, 4 * c.mtu, c.maxTargetQueue))
  }

  // ---------------------------------------------------------------------------------------
  // Probing and pacing

  datatype Probe = Probe(
    start: nat, lastGoodProbe: nat, interval: nat, duration: nat, count: nat, countOnLastIntervalReduction: nat,
    targetQueue: nat)

  predicate IsProbing(p: Probe, timestamp: nat) {
    p.duration != 0 && timestamp - p.start <= p.duration
  }

  predicate StartsProbe(p: Probe, queueSize: nat, targetQueue: nat, timestamp: nat, backedOff: bool) {
    var timeToProbe := p.start == 0 || timestamp - p.start >= p.interval;
    queueSize < targetQueue && ((p.count < 5 && p.duration == 0) || (timeToProbe && !backedOff))
  }

  /** A sender report starts a probe, or makes a running probe aim for a longer queue. */
  function ProbeAfterSenderReport(
      p: Probe, c: Config, queueSize: nat, targetQueue: nat, timestamp: nat, backedOff: bool): Probe {
    if StartsProbe(p, queueSize, targetQueue, timestamp, backedOff) then
      var sinceReduction := p.count + 1 - p.countOnLastIntervalReduction;
      p.(start := timestamp, duration := c.probeDuration, count := p.count + 1,
         targetQueue := Max(targetQueue, queueSize + targetQueue / 3),
         interval := if p.interval < MAX_INTERVAL && (sinceReduction == 10 || sinceReduction == 30)
           then Min(p.interval * 2, MAX_INTERVAL) else p.interval)
    else if IsProbing(p, timestamp) then
      p.(targetQueue := Min(targetQueue * 2, p.targetQueue + targetQueue / 3))
    else p
  }

  /** After a sender report the probe aims for at most twice the longest queue allowed. */
  lemma ProbeTargetIsBounded(
      p: Probe, c: Config, queueSize: nat, targetQueue: nat, timestamp: nat, backedOff: bool)
    requires targetQueue <= c.maxTargetQueue && p.targetQueue <= 2 * c.maxTargetQueue
    ensures ProbeAfterSenderReport(p, c, queueSize, targetQueue, timestamp, backedOff).targetQueue
      <= 2 * c.maxTargetQueue
    ensures var after := ProbeAfterSenderReport(p, c, queueSize, targetQueue, timestamp, backedOff);
      p.interval <= MAX_INTERVAL ==> p.interval <= after.interval <= MAX_INTERVAL
  {
  }

  /**
    A probe starts only with less than the target in the queue, and then has bytes to spend. Beyond the
    first five, starts are at least the interval apart and none comes within five seconds of a loss back-off;
    one that is due is not left out.
   */
  lemma ProbeStartsWhenDue(
      p: Probe, c: Config, queueSize: nat, targetQueue: nat, timestamp: nat, backedOff: bool)
    ensures var after := ProbeAfterSenderReport(p, c, queueSize, targetQueue, timestamp, backedOff);
      && (after.count != p.count ==>
        && after.count == p.count + 1 && after.start == timestamp
        && queueSize < targetQueue <= after.targetQueue && (c.probeDuration > 0 ==> IsProbing(after, timestamp)))
      && (after.count != p.count && p.count >= 5 ==> !backedOff && (p.start == 0 || p.start + p.interval <= timestamp))
      && (after.count == p.count ==> after.start == p.start && after.duration == p.duration)
      && (queueSize < targetQueue && !backedOff && p.start + p.interval <= timestamp ==> after.count == p.count + 1)
      && (queueSize < targetQueue && p.count < 5 && p.duration == 0 ==> after.count == p.count + 1)
      && (after.count == p.count ==> (IsProbing(after, timestamp) <==> IsProbing(p, timestamp)))
  {
  }

  /** A running probe aims for a queue that only grows, up to twice the target. */
  lemma RunningProbeAimsHigher(
      p: Probe, c: Config, queueSize: nat, targetQueue: nat, timestamp: nat, backedOff: bool)
    requires IsProbing(p, timestamp) && p.targetQueue <= 2 * targetQueue
    ensures var after := ProbeAfterSenderReport(p, c, queueSize, targetQueue, timestamp, backedOff);
      after.count == p.count ==> p.targetQueue <= after.targetQueue <= 2 * targetQueue
  {
  }

  /** Spending the budget fills the queue model to the target, and never beyond it. */
  lemma BudgetFillsQueue(q: NetworkQueue, p: Probe, targetQueue: nat, timestamp: nat)
    ensures var target := if IsProbing(p, timestamp) then p.targetQueue else targetQueue;
      var filled := PredictQueueAt(q, timestamp) + PacingBudget(q, p, targetQueue, timestamp);
      filled >= target && (filled > target ==> PacingBudget(q, p, targetQueue, timestamp) == 0)
  {
  }

  function PacingBudget(q: NetworkQueue, p: Probe, targetQueue: nat, timestamp: nat): nat {
    var target := if IsProbing(p, timestamp) then p.targetQueue else targetQueue;
    target - Min(target, PredictQueueAt(q, timestamp))
  }

  function PaddingCount(batch: nat, maxPaddingSize: nat): nat
    requires maxPaddingSize > 0
  {
    1 + batch / maxPaddingSize
  }

  function PaddingSize(batch: nat, maxPaddingSize: nat): nat
    requires maxPaddingSize > 0
  {
    batch / PaddingCount(batch, maxPaddingSize)
  }

  /** n pieces below the maximum size can hold the batch. */
  predicate Holds(n: nat, maxPaddingSize: nat, batch: nat) {
    n * maxPaddingSize > batch
  }

  ghost predicate IsFewest(count: nat, maxPaddingSize: nat, batch: nat) {
    forall n: nat :: Holds(n, maxPaddingSize, batch) ==> count <= n
  }

  /**
    The padding pieces and the packet they follow use up the budget to within a byte a piece, each piece is
    in range, and no smaller number of pieces would do.
   */
  lemma PaddingFits(budget: nat, size: nat, maxPaddingSize: nat)
    requires size <= budget && maxPaddingSize > 0
    ensures var batch := budget - size;
      var count, piece := PaddingCount(batch, maxPaddingSize), PaddingSize(batch, maxPaddingSize);
      && count * piece + size <= budget < count * (piece + 1) + size
      && piece < maxPaddingSize
      && IsFewest(count, maxPaddingSize, batch)
  {
    var batch := budget - size;
    forall n: nat | Holds(n, maxPaddingSize, batch) ensures PaddingCount(batch, maxPaddingSize) <= n {
      if n < PaddingCount(batch, maxPaddingSize) { MulMonotone(n, batch / maxPaddingSize, maxPaddingSize); }
    }
    var count := PaddingCount(batch, maxPaddingSize);
    assert count * (batch / count) == batch - batch % count;
    assert batch < count * maxPaddingSize;
    DivBelow(batch, count, maxPaddingSize);
  }

  /** No probe runs, or there is nothing to spend: padding only keeps the stream alive. */
  predicate NoProbe(q: NetworkQueue, p: Probe, targetQueue: nat, timestamp: nat) {
    PacingBudget(q, p, targetQueue, timestamp) == 0 || p.start == 0 || timestamp - p.start >= p.duration
  }

  predicate FitsBudget(count: nat, paddingSize: nat, size: nat, budget: nat) {
    count * paddingSize + size <= budget
  }

  /** The state of the controller apart from the backlog. */
  datatype Model = Model(queue: NetworkQueue, targetQueue: nat, probe: Probe, minRttNtp: nat, lastLossBackoff: nat)

  predicate InBounds(m: Model, c: Config) {
    && c.bandwidthFloorKbps <= m.queue.bandwidthKbps <= c.bandwidthCeilingKbps
    && m.targetQueue <= c.maxTargetQueue
    && m.probe.targetQueue <= 2 * c.maxTargetQueue
  }

  predicate BackedOff(m: Model, timestamp: nat) {
    m.lastLossBackoff != 0 && timestamp - m.lastLossBackoff < 5 * SECOND
  }

  predicate LossBackoff(m: Model, o: Outcome, timestamp: nat) {
    && !(o.good && o.lossCount < 3 && o.lossRatio <= 0.02)
    && o.lossCount > 2 && o.lossRatio > 0.02 && o.networkQueue > m.targetQueue / 2 && !BackedOff(m, timestamp)
  }

  /** What a new and valid report does to the model. */
  function AfterReport(m: Model, c: Config, o: Outcome, timestamp: nat): Model
    requires InBounds(m, c) && c.bandwidthFloorKbps <= c.bandwidthCeilingKbps
  {
    var moved := Moved(c, o, m.queue.bandwidthKbps, m.queue.size, m.targetQueue, BackedOff(m, timestamp));
    var stop := m.probe.duration != 0 && (o.lossCount > 0 || timestamp - m.probe.start >= m.probe.duration);
    m.(targetQueue := TargetQueueOf(Max(0, moved), m.minRttNtp, c),
       queue := m.queue.(size := Min(m.queue.size, o.networkQueue),
                         bandwidthKbps := Clamp(moved, c.bandwidthFloorKbps, c.bandwidthCeilingKbps)),
       lastLossBackoff := if LossBackoff(m, o, timestamp) then timestamp else m.lastLossBackoff,
       probe := if stop then m.probe.(duration := 0, targetQueue := 0) else m.probe)
  }

  function WithRtt(m: Model, rttNtp: nat): Model {
    m.(minRttNtp := Min(m.minRttNtp, rttNtp))
  }

  /** Remembers a good probe; after half a minute without one, makes the next probe last a second. */
  function ProbeSeen(m: Model, timestamp: nat, good: bool, canRtxPad: bool): Model {
    var last := if m.probe.lastGoodProbe == 0 || good then timestamp else m.probe.lastGoodProbe;
    var p := m.probe.(lastGoodProbe := last);
    m.(probe := if !good && canRtxPad && timestamp - last >= 30 * SECOND
      then p.(duration := SECOND, countOnLastIntervalReduction := p.count) else p)
  }

  /** The time of the last good probe is this one's, or unchanged, or starts to run with the first report. */
  lemma GoodProbeIsRemembered(m: Model, timestamp: nat, good: bool, canRtxPad: bool)
    ensures var after := ProbeSeen(m, timestamp, good, canRtxPad);
      && (good ==> after.probe == m.probe.(lastGoodProbe := timestamp))
      && (!good && m.probe.lastGoodProbe != 0 ==> after.probe.lastGoodProbe == m.probe.lastGoodProbe)
      && (m.probe.lastGoodProbe == 0 ==>
        after.probe.lastGoodProbe == timestamp && after.probe.duration == m.probe.duration)
      && (!Resets(m, timestamp, good, canRtxPad) ==> after.probe.duration == m.probe.duration)
      && after == m.(probe := after.probe)
  {
  }

  /** A report that finds no good probe for half a minute resets the probing. */
  predicate Resets(m: Model, timestamp: nat, good: bool, canRtxPad: bool) {
    !good && canRtxPad && m.probe.lastGoodProbe != 0 && timestamp - m.probe.lastGoodProbe >= 30 * SECOND
  }

  /** No report ever changes the probe interval; a reset sets the duration of the probe instead. */
  lemma ReportsKeepInterval(m: Model, timestamp: nat, good: bool, canRtxPad: bool)
    ensures ProbeSeen(m, timestamp, good, canRtxPad).probe.interval == m.probe.interval
    ensures Resets(m, timestamp, good, canRtxPad) ==> ProbeSeen(m, timestamp, good, canRtxPad).probe.duration == SECOND
  {
  }

  /** So a reset leaves the initial interval if and only if the interval had not grown before. */
  lemma ResetRestoresIntervalIff(m: Model, timestamp: nat, good: bool, canRtxPad: bool)
    requires Resets(m, timestamp, good, canRtxPad)
    ensures ProbeSeen(m, timestamp, good, canRtxPad).probe.interval == SECOND <==> m.probe.interval == SECOND
  {
    ReportsKeepInterval(m, timestamp, good, canRtxPad);
  }

  /** The tenth probe doubles the interval; half a minute later a reset leaves it doubled. */
  lemma ResetLeavesDoubledInterval(c: Config, q: NetworkQueue)
    ensures var p := ProbeAfterSenderReport(Probe(1, 1, SECOND, 0, 9, 0, 0), c, 0, 3000, 2 * SECOND, false);
      var m := Model(q, 3000, p, 1, 0);
      && Resets(m, 31 * SECOND, false, true)
      && ProbeSeen(m, 31 * SECOND, false, true).probe.interval == 2 * SECOND
  {
  }

  /** From one estimate to the next: at most a tenth down, at most 1000 or a fiftieth up. */
  predicate MovesLittle(estimate: nat, next: nat) {
    (estimate as real * 0.9).Floor <= next <= estimate + Max(1000, estimate / 50)
  }

  lemma StayingIsLittle(estimate: nat)
    ensures MovesLittle(estimate, estimate)
  {
  }

  /** Every report, whatever the analysis finds, keeps the model in bounds and moves it little. */
  lemma AfterReportIsBounded(m: Model, c: Config, o: Outcome, timestamp: nat)
    requires InBounds(m, c) && c.bandwidthFloorKbps <= c.bandwidthCeilingKbps
    ensures InBounds(AfterReport(m, c, o, timestamp), c)
    ensures MovesLittle(m.queue.bandwidthKbps, AfterReport(m, c, o, timestamp).queue.bandwidthKbps)
    ensures AfterReport(m, c, o, timestamp).queue.size <= m.queue.size
    ensures AfterReport(m, c, o, timestamp).minRttNtp == m.minRttNtp
  {
    hide TargetQueueOf;
    MovedIsBounded(c, o, m.queue.bandwidthKbps, m.queue.size, m.targetQueue, BackedOff(m, timestamp));
    var moved := Moved(c, o, m.queue.bandwidthKbps, m.queue.size, m.targetQueue, BackedOff(m, timestamp));
    TargetQueueIsBounded(Max(0, moved), m.minRttNtp, c);
  }

  /**
    The estimate rises exactly when a good probe was received faster than the estimate, or finds the network
    queue shorter than modelled; it then goes to the measured rate, by at most 1000, or up by a fiftieth.
   */
  lemma EstimateRisesIff(m: Model, c: Config, o: Outcome, timestamp: nat)
    requires InBounds(m, c) && c.bandwidthFloorKbps <= c.bandwidthCeilingKbps
    ensures var estimate, next := m.queue.bandwidthKbps, AfterReport(m, c, o, timestamp).queue.bandwidthKbps;
      var faster := o.bitrateKbps > estimate
        && (if o.rtpProbe then c.bandwidthCeilingKbps else c.rtcpProbeCeiling) > estimate;
      && (next > estimate <==>
        && FewLosses(o) && estimate < c.bandwidthCeilingKbps
        && (faster || (QueueIsShort(c, o, m.queue.size) && estimate >= 50)))
      && (next > estimate && faster ==>
        && next <= o.bitrateKbps && next <= estimate + 1000
        && (next == o.bitrateKbps || next == estimate + 1000 || next == c.bandwidthCeilingKbps))
      && (next > estimate && !faster ==> next <= estimate + estimate / 50)
  {
    hide TargetQueueOf, BackedOff;
    var estimate := m.queue.bandwidthKbps;
    TwoPercentMore(estimate);
    if ReceiveRate(c, o) <= estimate { TenthOfGap(estimate, ReceiveRate(c, o)); }
    FivePercentLess(estimate);
  }

  /**
    The estimate falls exactly when a good probe of more than four packets was received slower, with no
    shorter queue, or when losses are heavy and the last back-off is not recent. It then falls by a tenth of
    the difference to the measured rate and never below that rate, or by a twentieth; rounded to a whole kbit/s.
   */
  lemma EstimateFallsIff(m: Model, c: Config, o: Outcome, timestamp: nat)
    requires InBounds(m, c) && c.bandwidthFloorKbps <= c.bandwidthCeilingKbps
    ensures var estimate, next := m.queue.bandwidthKbps, AfterReport(m, c, o, timestamp).queue.bandwidthKbps;
      var rate := ReceiveRate(c, o);
      var slower := o.bitrateKbps < estimate || (!o.rtpProbe && c.rtcpProbeCeiling < estimate);
      && (next < estimate <==>
        && c.bandwidthFloorKbps < estimate
        && ((FewLosses(o) && slower && !QueueIsShort(c, o, m.queue.size) && o.packetsSent > 4)
            || (HeavyLosses(o, m.targetQueue) && !BackedOff(m, timestamp))))
      && rate <= o.bitrateKbps
      && (o.bitrateKbps <= c.rtcpProbeCeiling && o.bitrateKbps <= estimate ==> rate == o.bitrateKbps)
      && (next < estimate && FewLosses(o) ==> next >= rate && 10 * (estimate - next) < estimate - rate + 10)
      && (next < estimate && !FewLosses(o) ==> 20 * (estimate - next) < estimate + 20)
  {
    hide TargetQueueOf, BackedOff;
    var estimate := m.queue.bandwidthKbps;
    TwoPercentMore(estimate);
    if ReceiveRate(c, o) <= estimate { TenthOfGap(estimate, ReceiveRate(c, o)); }
    FivePercentLess(estimate);
  }

  /**
    What else a report does: the queue model shrinks to what the network holds and never grows; the back-off
    starts exactly on heavy losses without a recent one; and a probe goes on exactly while it is within its
    time and nothing was lost.
   */
  lemma ReportSettles(m: Model, c: Config, o: Outcome, timestamp: nat, later: nat)
    requires InBounds(m, c) && c.bandwidthFloorKbps <= c.bandwidthCeilingKbps
    ensures var after := AfterReport(m, c, o, timestamp);
      && after.queue.size <= m.queue.size && after.queue.size <= o.networkQueue
      && (after.queue.size < m.queue.size ==> after.queue.size == o.networkQueue)
      && (HeavyLosses(o, m.targetQueue) && timestamp > 0 ==> BackedOff(after, timestamp))
      && (!HeavyLosses(o, m.targetQueue) ==> (BackedOff(after, later) <==> BackedOff(m, later)))
      && (IsProbing(after.probe, later) <==>
        IsProbing(m.probe, later) && o.lossCount == 0 && timestamp - m.probe.start < m.probe.duration)
  {
    hide TargetQueueOf, Moved;
  }

  /** Eight times the target queue before rounding and clamping: kbit/s times milliseconds. */
  function TargetBits(bandwidthKbps: nat, minRttNtp: nat): real {
    var bandwidth := bandwidthKbps as real;
    bandwidth * (40.0 + 51000.0 / (if bandwidth < 200.0 then 200.0 else bandwidth)
                 + (minRttNtp * 125 % UINT32 / UINT16) as real)
  }

  /** The target queue is sent in 40 ms and an eighth of the round trip, plus 51000 bits but at most 255 ms. */
  lemma TargetBitsAre(bandwidthKbps: nat, minRttNtp: nat)
    ensures var rtt := (minRttNtp * 125 % UINT32 / UINT16) as real;
      TargetBits(bandwidthKbps, minRttNtp) == bandwidthKbps as real * (40.0 + rtt)
        + if bandwidthKbps < 200 then bandwidthKbps as real * 255.0 else 51000.0
  {
    var bandwidth, rtt := bandwidthKbps as real, (minRttNtp * 125 % UINT32 / UINT16) as real;
    if bandwidthKbps < 200 {
      assert 51000.0 / 200.0 == 255.0;
      DistributeOver(bandwidth, 40.0 + rtt, 255.0);
    } else {
      DistributeOver(bandwidth, 40.0 + rtt, 51000.0 / bandwidth);
      MultiplyBack(bandwidth, 51000.0);
    }
  }

  lemma DistributeOver(a: real, b: real, c: real)
    ensures a * (b + c) == a * b + a * c
  {
  }

  lemma MultiplyBack(a: real, b: real)
    requires a != 0.0
    ensures a * (b / a) == b
  {
  }

  /** A higher estimate never shortens the target queue. */
  lemma TargetQueueGrows(slower: nat, faster: nat, minRttNtp: nat, c: Config)
    requires slower <= faster
    ensures TargetQueueOf(slower, minRttNtp, c) <= TargetQueueOf(faster, minRttNtp, c)
  {
    hide TargetQueueOf, TargetBits;
    MoreBits(slower, faster, minRttNtp);
    TargetQueueIsBits(slower, minRttNtp, c);
    TargetQueueIsBits(faster, minRttNtp, c);
    FloorGrows(TargetBits(slower, minRttNtp), TargetBits(faster, minRttNtp));
  }

  lemma MoreBits(slower: nat, faster: nat, minRttNtp: nat)
    requires slower <= faster
    ensures TargetBits(slower, minRttNtp) <= TargetBits(faster, minRttNtp)
  {
    hide TargetBits;
    TargetBitsAre(slower, minRttNtp);
    TargetBitsAre(faster, minRttNtp);
    ScaleUp(slower as real, faster as real, 40.0 + (minRttNtp * 125 % UINT32 / UINT16) as real);
    ScaleUp(slower as real, if slower < 200 then 200.0 else slower as real, 255.0);
    ScaleUp(slower as real, faster as real, 255.0);
  }

  lemma FloorGrows(a: real, b: real)
    requires a <= b
    ensures (a / 8.0).Floor <= (b / 8.0).Floor
  {
  }

  lemma TargetQueueIsBits(bandwidthKbps: nat, minRttNtp: nat, c: Config)
    ensures TargetQueueOf(bandwidthKbps, minRttNtp, c) ==
      Max(0, Clamp((TargetBits(bandwidthKbps, minRttNtp) / 8.0).Floor, 4 * c.mtu, c.maxTargetQueue))
  {
  }

  lemma ScaleUp(a: real, b: real, factor: real)
    requires a <= b && factor >= 0.0
    ensures a * factor <= b * factor
  {
  }

  lemma TargetQueueIsBounded(bandwidthKbps: nat, minRttNtp: nat, c: Config)
    ensures TargetQueueOf(bandwidthKbps, minRttNtp, c) <= c.maxTargetQueue
    ensures 4 * c.mtu <= c.maxTargetQueue ==> 4 * c.mtu <= TargetQueueOf(bandwidthKbps, minRttNtp, c)
  {
  }

  // ---------------------------------------------------------------------------------------
  // Losses of each stream

  const SAMPLES: nat := 32

  /** The cumulative loss a stream reported last. */
  datatype LossSample = LossSample(ssrc: nat, lossCount: nat)

  /** The place of a stream's sample, or the number of samples. */
  function SampleIndex(samples: seq<LossSample>, ssrc: nat): (k: nat)
    ensures k <= |samples| && (k < |samples| ==> samples[k].ssrc == ssrc)
    ensures forall i :: 0 <= i < k ==> samples[i].ssrc != ssrc
  {
    if samples == [] || samples[0].ssrc == ssrc then 0
    else
      var k := SampleIndex(samples[1..], ssrc);
      assert forall i :: 1 <= i < k + 1 ==> samples[i] == samples[1..][i - 1];
      1 + k
  }

  function LossBefore(samples: seq<LossSample>, ssrc: nat): nat {
    var k := SampleIndex(samples, ssrc);
    if k < |samples| then samples[k].lossCount else 0
  }

  function NewLosses(samples: seq<LossSample>, ssrc: nat, cumulative: nat): nat {
    cumulative - Min(cumulative, LossBefore(samples, ssrc))
  }

  function SamplesAfter(samples: seq<LossSample>, ssrc: nat, cumulative: nat): seq<LossSample> {
    var k := SampleIndex(samples, ssrc);
    if k < |samples| then samples[k := LossSample(ssrc, cumulative)]
    else Ring.PushedFront(samples, LossSample(ssrc, cumulative), SAMPLES)
  }

  predicate DistinctStreams(samples: seq<LossSample>) {
    forall i, j :: 0 <= i < j < |samples| ==> samples[i].ssrc != samples[j].ssrc
  }

  lemma SampleIndexIs(samples: seq<LossSample>, ssrc: nat, k: nat)
    requires k <= |samples| && (k < |samples| ==> samples[k].ssrc == ssrc)
    requires forall i :: 0 <= i < k ==> samples[i].ssrc != ssrc
    ensures SampleIndex(samples, ssrc) == k
  {
    hide SampleIndex;
  }

  /** A report replaces the sample of its stream and no other, unless the ring is full of other streams. */
  lemma SamplesAfterReport(samples: seq<LossSample>, ssrc: nat, cumulative: nat, other: nat)
    requires DistinctStreams(samples)
    requires |samples| < SAMPLES || SampleIndex(samples, ssrc) < |samples|
    ensures var after := SamplesAfter(samples, ssrc, cumulative);
      && DistinctStreams(after)
      && LossBefore(after, other) == if other == ssrc then cumulative else LossBefore(samples, other)
  {
    hide SampleIndex;
    var after := SamplesAfter(samples, ssrc, cumulative);
    var k, o := SampleIndex(samples, ssrc), SampleIndex(samples, other);
    if k < |samples| {
      SampleIndexIs(after, other, o);
    } else {
      assert after == [LossSample(ssrc, cumulative)] + samples;
      SampleIndexIs(after, other, if other == ssrc then 0 else o + 1);
    }
  }

  /** Two reports of a stream, with the loss counts of any other streams in between, add up. */
  lemma LossesAddUp(samples: seq<LossSample>, ssrc: nat, reports: seq<LossSample>, last: nat)
    requires DistinctStreams(samples)
    requires forall i :: 0 <= i < |reports| ==>
      reports[i].ssrc != ssrc && SampleIndex(samples, reports[i].ssrc) < |samples|
    requires SampleIndex(samples, ssrc) < |samples| && LossBefore(samples, ssrc) <= last
    ensures LossBefore(samples, ssrc) + NewLosses(AfterReports(samples, reports), ssrc, last) == last
  {
    ReportsOfOthers(samples, ssrc, reports);
  }

  function AfterReports(samples: seq<LossSample>, reports: seq<LossSample>): seq<LossSample>
    decreases |reports|
  {
    if reports == [] then samples
    else AfterReports(SamplesAfter(samples, reports[0].ssrc, reports[0].lossCount), reports[1..])
  }

  lemma {:induction false} ReportsOfOthers(samples: seq<LossSample>, ssrc: nat, reports: seq<LossSample>)
    requires DistinctStreams(samples)
    requires forall i :: 0 <= i < |reports| ==>
      reports[i].ssrc != ssrc && SampleIndex(samples, reports[i].ssrc) < |samples|
    ensures LossBefore(AfterReports(samples, reports), ssrc) == LossBefore(samples, ssrc)
    decreases |reports|
  {
    hide SampleIndex;
    if reports != [] {
      var r := reports[0];
      var after := SamplesAfter(samples, r.ssrc, r.lossCount);
      SamplesAfterReport(samples, r.ssrc, r.lossCount, ssrc);
      forall i | 0 <= i < |reports[1..]| ensures SampleIndex(after, reports[1..][i].ssrc) < |after| {
        var stream := reports[i + 1].ssrc;
        SampleIndexIs(after, stream, SampleIndex(samples, stream));
      }
      ReportsOfOthers(after, ssrc, reports[1..]);
    }
  }

  // ---------------------------------------------------------------------------------------
  // The controller

  class RateController {
    const config: Config
    const backlog: Ring.RandomAccessBacklog<Packet>
    const receiveBlocks: Ring.RandomAccessBacklog<LossSample>
    var lastProbe: LastProbe
    var queue: NetworkQueue
    var targetQueue: nat
    var probe: Probe
    var canRtxPad: bool
    var rtxSendTime: nat
    var minRttNtp: nat
    var lastLossBackoff: nat

    function Value(): Model
      reads this
    {
      Model(queue, targetQueue, probe, minRttNtp, lastLossBackoff)
    }

    /** The backlog is in order, and estimate, target queue and probe are in bounds. */
    ghost predicate Valid()
      reads this, backlog, backlog.data, receiveBlocks, receiveBlocks.data
    {
      && ConfigOk(config)
      && {backlog as object, backlog.data} !! {receiveBlocks as object, receiveBlocks.data}
      && receiveBlocks.Valid() && receiveBlocks.data.Length == SAMPLES && DistinctStreams(receiveBlocks.Contents())
      && backlog.Valid() && backlog.data.Length == BACKLOG_SIZE && BacklogOk(backlog.Contents())
      && InBounds(Value(), config)
    }

    constructor (config: Config)
      requires ConfigOk(config)
      ensures Valid() && this.config == config && backlog.Contents() == [] && receiveBlocks.Contents() == []
      ensures Value() == Model(NetworkQueue(0, 0, config.initialEstimateKbps),
        TargetQueueOf(config.initialEstimateKbps, 1, config), Probe(0, 0, SECOND, 0, 0, 0, 0), UINT32 - 1, 0)
      ensures lastProbe == LastProbe(0, 0, 0) && canRtxPad && rtxSendTime == 0
      ensures fresh(backlog) && fresh(backlog.data) && fresh(receiveBlocks) && fresh(receiveBlocks.data)
    {
      this.config := config;
      backlog := new Ring.RandomAccessBacklog(BACKLOG_SIZE, NewPacket(0, 0, 0, 0, RTP));
      receiveBlocks := new Ring.RandomAccessBacklog(SAMPLES, LossSample(0, 0));
      lastProbe := LastProbe(0, 0, 0);
      queue := NetworkQueue(0, 0, config.initialEstimateKbps);
      targetQueue := TargetQueueOf(config.initialEstimateKbps, 1, config);
      probe := Probe(0, 0, SECOND, 0, 0, 0, 0);
      canRtxPad, rtxSendTime, minRttNtp, lastLossBackoff := true, 0, UINT32 - 1, 0;
    }

    /** Adds a packet to the queue model and the backlog. */
    method Send(packet: Packet, modelSize: nat)
      requires Valid() && !packet.received
      modifies this`queue, backlog, backlog.data
      ensures Valid() && queue == OnPacketSent(old(queue), packet.time, modelSize)
      ensures backlog.Contents() == Ring.PushedFront(old(backlog.Contents()), packet, BACKLOG_SIZE)
    {
      hide BacklogOk, Drain;
      PushKeepsBacklog(backlog.Contents(), packet, BACKLOG_SIZE);
      queue := OnPacketSent(queue, packet.time, modelSize);
      backlog.EmplaceFront(packet);
    }

    /** Whether a packet is recorded at all, and its size in the queue model. */
    predicate Records(size: nat) {
      size > 0 && config.enabled
    }

    function ModelSize(size: nat): nat {
      size + config.ipOverhead
    }

    method OnRtpSent(timestamp: nat, ssrc: nat, sequenceNumber: nat, size: nat)
      requires Valid() && size < UINT16
      modifies this`queue, this`minRttNtp, backlog, backlog.data
      ensures Valid()
      ensures queue == if Records(size) then OnPacketSent(old(queue), timestamp, ModelSize(size)) else old(queue)
      ensures backlog.Contents() == if Records(size)
        then Ring.PushedFront(old(backlog.Contents()),
          NewPacket(timestamp, ssrc, sequenceNumber, size + config.ipOverhead, RTP), BACKLOG_SIZE)
        else old(backlog.Contents())
      ensures minRttNtp == if Records(size) && old(minRttNtp) != UINT32 - 1
        then (old(minRttNtp) + 2) % UINT32 else old(minRttNtp)
    {
      hide BacklogOk, Drain, DistinctStreams;
      if size == 0 || !config.enabled {
        return;
      }
      if minRttNtp != UINT32 - 1 {
        minRttNtp := (minRttNtp + 2) % UINT32;
      }
      Send(NewPacket(timestamp, ssrc, sequenceNumber, size + config.ipOverhead, RTP), ModelSize(size));
    }

    method OnSctpSent(timestamp: nat, size: nat)
      requires Valid() && size < UINT16
      modifies this`queue, backlog, backlog.data
      ensures Valid()
      ensures queue == if Records(size) then OnPacketSent(old(queue), timestamp, ModelSize(size)) else old(queue)
      ensures backlog.Contents() == if Records(size)
        then Ring.PushedFront(old(backlog.Contents()),
          NewPacket(timestamp, 0, 0, size + config.ipOverhead, SCTP), BACKLOG_SIZE)
        else old(backlog.Contents())
    {
      hide BacklogOk, Drain, DistinctStreams;
      if size == 0 || !config.enabled {
        return;
      }
      Send(NewPacket(timestamp, 0, 0, size + config.ipOverhead, SCTP), ModelSize(size));
    }

    /** Padding sent at one time is one item of the backlog. */
    method OnRtcpPaddingSent(timestamp: nat, ssrc: nat, size: nat)
      requires Valid() && size < UINT16
      modifies this`queue, backlog, backlog.data
      ensures Valid()
      ensures queue == if Records(size) then OnPacketSent(old(queue), timestamp, ModelSize(size)) else old(queue)
      ensures backlog.Contents() == if Records(size)
        then PaddingAdded(old(backlog.Contents()), timestamp, ssrc, size, config.ipOverhead)
        else old(backlog.Contents())
    {
      hide BacklogOk, Drain, DistinctStreams;
      if size == 0 || !config.enabled {
        return;
      }
      if backlog.count > 0 {
        var item := backlog.Get(0);
        if item.kind == RTCP_PADDING && item.time == timestamp {
          queue := OnPacketSent(queue, timestamp, ModelSize(size));
          GrowKeepsBacklog(backlog.Contents(), size);
          backlog.Set(0, item.(size := item.size + size));
          return;
        }
      }
      Send(NewPacket(timestamp, ssrc, 0, size + config.ipOverhead, RTCP_PADDING), ModelSize(size));
    }

    /** Sends a sender report, which may start a probe. */
    method OnSenderReportSent(timestamp: nat, ssrc: nat, reportNtp: nat, size: nat)
      requires Valid() && size < UINT16
      modifies this, backlog, backlog.data
      ensures Valid()
      ensures !Records(size) ==> Value() == old(Value()) && backlog.Contents() == old(backlog.Contents())
      ensures Records(size) ==> queue == OnPacketSent(old(queue), timestamp, ModelSize(size))
      ensures Records(size) ==>
        var backedOff := BackedOff(old(Value()), timestamp);
        Value() == old(Value()).(queue := queue,
          probe := ProbeAfterSenderReport(old(probe), config, queue.size, targetQueue, timestamp, backedOff))
      ensures Records(size) ==> backlog.Contents() == Ring.PushedFront(old(backlog.Contents()),
        NewPacket(timestamp, ssrc, 0, size, SR).(reportNtp := reportNtp, queueSize := queue.size), BACKLOG_SIZE)
    {
      hide BacklogOk, Drain, DistinctStreams;
      if size == 0 || !config.enabled {
        return;
      }
      var packet := NewPacket(timestamp, ssrc, 0, size, SR)
        .(reportNtp := reportNtp, queueSize := OnPacketSent(queue, timestamp, ModelSize(size)).size);
      Send(packet, ModelSize(size));
      var backedOff := lastLossBackoff != 0 && timestamp - lastLossBackoff < 5 * SECOND;
      ProbeTargetIsBounded(probe, config, queue.size, targetQueue, timestamp, backedOff);
      if StartsProbe(probe, queue.size, targetQueue, timestamp, backedOff) {
        var sinceReduction := probe.count + 1 - probe.countOnLastIntervalReduction;
        probe := probe.(start := timestamp, duration := config.probeDuration, count := probe.count + 1,
          targetQueue := Max(targetQueue, queue.size + targetQueue / 3));
        if probe.interval < MAX_INTERVAL && (sinceReduction == 10 || sinceReduction == 30) {
          probe := probe.(interval := Min(probe.interval * 2, MAX_INTERVAL));
        }
      } else if IsProbing(probe, timestamp) {
        probe := probe.(targetQueue := probe.targetQueue + targetQueue / 3);
        probe := probe.(targetQueue := Min(targetQueue * 2, probe.targetQueue));
      }
    }

    /** The losses a report adds to those its stream reported before. */
    method TakeLosses(ssrc: nat, cumulativeLossCount: nat) returns (lossCount: nat)
      requires Valid()
      modifies receiveBlocks, receiveBlocks.data
      ensures Valid()
      ensures lossCount == NewLosses(old(receiveBlocks.Contents()), ssrc, cumulativeLossCount)
      ensures receiveBlocks.Contents() == SamplesAfter(old(receiveBlocks.Contents()), ssrc, cumulativeLossCount)
    {
      hide BacklogOk, SampleIndex, InBounds, DistinctStreams;
      SamplesStayDistinct(receiveBlocks.Contents(), ssrc, cumulativeLossCount);
      var k := FindSample(ssrc);
      if k == receiveBlocks.count {
        receiveBlocks.EmplaceFront(LossSample(ssrc, cumulativeLossCount));
        return cumulativeLossCount;
      }
      var sample := receiveBlocks.Get(k);
      receiveBlocks.Set(k, LossSample(ssrc, cumulativeLossCount));
      return cumulativeLossCount - Min(cumulativeLossCount, sample.lossCount);
    }

    method FindSample(ssrc: nat) returns (k: nat)
      requires receiveBlocks.Valid()
      ensures k == SampleIndex(receiveBlocks.Contents(), ssrc)
    {
      hide SampleIndex;
      k := 0;
      while k < receiveBlocks.count
        invariant k <= receiveBlocks.count && forall i :: 0 <= i < k ==> receiveBlocks.Contents()[i].ssrc != ssrc
      {
        var sample := receiveBlocks.Get(k);
        if sample.ssrc == ssrc {
          break;
        }
        k := k + 1;
      }
      SampleIndexIs(receiveBlocks.Contents(), ssrc, k);
    }

    method OnReportBlockReceived(
        ssrc: nat, receivedSequenceNumber: nat, cumulativeLossCount: nat, reportNtp: nat, delaySinceSR: nat)
      requires Valid()
      modifies backlog.data, receiveBlocks, receiveBlocks.data
      ensures Valid()
      ensures !config.enabled ==>
        backlog.Contents() == old(backlog.Contents()) && receiveBlocks.Contents() == old(receiveBlocks.Contents())
      ensures config.enabled ==>
        var samples := old(receiveBlocks.Contents());
        var losses := NewLosses(samples, ssrc, cumulativeLossCount);
        && receiveBlocks.Contents() == SamplesAfter(samples, ssrc, cumulativeLossCount)
        && backlog.Contents() == Marked(old(backlog.Contents()),
          Report(ssrc, receivedSequenceNumber % UINT16, losses, reportNtp, delaySinceSR), false)
    {
      hide BacklogOk, Marked, NewLosses, SamplesAfter, InBounds, DistinctStreams;
      if !config.enabled {
        return;
      }
      var lossCount := TakeLosses(ssrc, cumulativeLossCount);
      MarkReceived(Report(ssrc, receivedSequenceNumber % UINT16, lossCount, reportNtp, delaySinceSR));
    }

    /** Marks what a report block confirms, from the newest packet to the first one confirmed before. */
    method MarkReceived(r: Report)
      requires Valid()
      modifies backlog.data
      ensures Valid() && backlog.Contents() == Marked(old(backlog.Contents()), r, false)
    {
      hide BacklogOk, Marked, InBounds, DistinctStreams;
      ghost var items := backlog.Contents();
      MarkedKeepsBacklog(items, r);
      WalkStarts(items, r);
      var found, i := false, 0;
      while i < backlog.count
        invariant backlog.Valid() && backlog.data.Length == BACKLOG_SIZE && i <= backlog.count
        invariant Walking(items, backlog.Contents(), r, i, found)
      {
        var item := backlog.Get(i);
        WalkGoesOn(items, backlog.Contents(), r, i, found);
        if IsStreamRtp(item, r.ssrc) {
          if item.received {
            break;
          } else if item.sequenceNumber == r.sequenceNumber {
            backlog.Set(i, Confirmed(item, r));
            found := true;
          } else if found {
            backlog.Set(i, item.(received := true));
          }
        }
        i := i + 1;
      }
      WalkEnds(items, backlog.Contents(), r, i, found);
    }

    /** Analyses the backlog after a report and moves the estimate if the analysis is valid and new. */
    method OnReportReceived(timestamp: nat, lastSRs: seq<nat>, rttNtp: nat)
      requires Valid() && lastSRs != []
      modifies this
      ensures Valid() && canRtxPad == old(canRtxPad)
      ensures !config.enabled ==> Value() == old(Value()) && lastProbe == old(lastProbe)
      ensures config.enabled && OldestReport(lastSRs) == 0 ==>
        Value() == WithRtt(old(Value()), rttNtp) && lastProbe == old(lastProbe)
      ensures config.enabled && OldestReport(lastSRs) != 0 ==>
        var items, kbps := backlog.Contents(), old(queue.bandwidthKbps);
        var choice := Chosen(items, (OldestReport(lastSRs) - 10 * NTP_SECOND) % UINT32, kbps, 0, NO_ANALYSIS);
        var o := OutcomeOf(choice, kbps);
        var m := ProbeSeen(WithRtt(old(Value()), rttNtp), timestamp, IsValid(choice) && o.good, canRtxPad);
        if IsValid(choice) && !IsSame(items, choice.report, old(lastProbe))
        then Value() == AfterReport(m, config, o, timestamp) && IsSame(items, choice.report, lastProbe)
        else Value() == m && lastProbe == old(lastProbe)
      ensures MovesLittle(old(queue.bandwidthKbps), queue.bandwidthKbps)
    {
      hide BacklogOk, AfterReport, MovesLittle, Chosen, OutcomeOf, OldestReport, DistinctStreams, InBounds;
      StayingIsLittle(queue.bandwidthKbps);
      if !config.enabled {
        return;
      }
      var limit := FindOldestReport(lastSRs);
      if limit == 0 {
        SetRtt(rttNtp);
        return;
      }
      ReportsAreInside(backlog.Contents(), (limit - 10 * NTP_SECOND) % UINT32, queue.bandwidthKbps);
      var items := ReadBacklog();
      var report, networkQueue := AnalyzeBacklog(items, (limit - 10 * NTP_SECOND) % UINT32, queue.bandwidthKbps);
      var choice := Choice(report, networkQueue);
      var sameProbe := IsSame(items, report, lastProbe);
      ApplyOutcome(timestamp, rttNtp, IsValid(choice), sameProbe, OutcomeOf(choice, queue.bandwidthKbps));
      if IsValid(choice) && !sameProbe {
        lastProbe := LastProbe(items[report.senderReport.value].reportNtp, report.delaySinceSR, report.packetsReceived);
      }
    }

    method SetRtt(rttNtp: nat)
      requires Valid()
      modifies this`minRttNtp
      ensures Valid() && Value() == WithRtt(old(Value()), rttNtp)
    {
      minRttNtp := Min(minRttNtp, rttNtp);
    }

    /** The backlog, newest item first. */
    method ReadBacklog() returns (items: seq<Packet>)
      requires backlog.Valid()
      ensures items == backlog.Contents()
    {
      items := [];
      for i := 0 to backlog.count
        invariant items == backlog.Contents()[..i]
      {
        var item := backlog.Get(i);
        items := items + [item];
      }
    }

    /** The first half of an analysis: the shortest round trip, and how long ago the last good probe was. */
    method NoteProbe(timestamp: nat, rttNtp: nat, good: bool)
      requires Valid()
      modifies this`minRttNtp, this`probe
      ensures Valid() && Value() == ProbeSeen(WithRtt(old(Value()), rttNtp), timestamp, good, canRtxPad)
    {
      hide BacklogOk, DistinctStreams;
      minRttNtp := Min(minRttNtp, rttNtp);
      if probe.lastGoodProbe == 0 {
        probe := probe.(lastGoodProbe := timestamp);
      }
      if good {
        probe := probe.(lastGoodProbe := timestamp);
      } else if canRtxPad && timestamp - probe.lastGoodProbe >= 30 * SECOND {
        probe := probe.(duration := SECOND, countOnLastIntervalReduction := probe.count);
      }
    }

    /** What an analysis does to the controller: isValid says that it found a complete probe, sameProbe that
        it is the one used last. */
    method ApplyOutcome(timestamp: nat, rttNtp: nat, isValid: bool, sameProbe: bool, o: Outcome)
      requires Valid()
      modifies this
      ensures Valid() && canRtxPad == old(canRtxPad) && lastProbe == old(lastProbe)
      ensures
        var m := ProbeSeen(WithRtt(old(Value()), rttNtp), timestamp, isValid && o.good, canRtxPad);
        Value() == if isValid && !sameProbe then AfterReport(m, config, o, timestamp) else m
      ensures MovesLittle(old(queue.bandwidthKbps), queue.bandwidthKbps)
    {
      hide BacklogOk, AfterReport, MovesLittle, DistinctStreams, BackedOff, ProbeSeen, WithRtt;
      StayingIsLittle(queue.bandwidthKbps);
      NoteProbe(timestamp, rttNtp, isValid && o.good);
      if !isValid || sameProbe {
        return;
      }
      AfterReportIsBounded(Value(), config, o, timestamp);
      var next := AfterReport(Value(), config, o, timestamp);
      queue, targetQueue, probe, lastLossBackoff := next.queue, next.targetQueue, next.probe, next.lastLossBackoff;
    }

    /** Enabling padding on media streams resets the probing, which again leaves the interval alone. */
    method SetRtpProbingEnabled(enabled: bool)
      requires Valid()
      modifies this`canRtxPad, this`probe
      ensures Valid() && canRtxPad == enabled && probe.interval == old(probe.interval)
      ensures probe == if !old(canRtxPad) && enabled
        then old(probe).(lastGoodProbe := 0, duration := SECOND, countOnLastIntervalReduction := old(probe).count)
        else old(probe)
    {
      hide BacklogOk, DistinctStreams;
      if canRtxPad != enabled {
        canRtxPad := enabled;
        if canRtxPad {
          probe := probe.(lastGoodProbe := 0, duration := SECOND, countOnLastIntervalReduction := probe.count);
        }
      }
    }

    /** The budget is never more than twice the longest target queue. */
    method GetPacingBudget(timestamp: nat) returns (budget: nat)
      requires Valid()
      ensures budget == PacingBudget(queue, probe, targetQueue, timestamp)
      ensures budget <= 2 * config.maxTargetQueue
    {
      hide BacklogOk, Drain;
      var currentQueue := PredictQueueAt(queue, timestamp);
      var currentTarget := if IsProbing(probe, timestamp) then probe.targetQueue else targetQueue;
      budget := currentTarget - Min(currentTarget, currentQueue);
    }

    /** How many padding packets to send after a packet, and their size. */
    method GetPadding(timestamp: nat, size: nat) returns (count: nat, paddingSize: nat)
      requires Valid() && size < UINT16
      ensures !config.enabled ==> count == 0
      ensures config.enabled && NoProbe(queue, probe, targetQueue, timestamp) ==>
        && count <= 1 && (count == 1 ==> paddingSize == 22)
        && (count == 1 <==> canRtxPad && (rtxSendTime == 0 || timestamp - rtxSendTime >= config.minPadPinInterval))
      ensures config.enabled && !NoProbe(queue, probe, targetQueue, timestamp) ==>
        var budget := PacingBudget(queue, probe, targetQueue, timestamp);
        && (count > 0 <==> size <= budget && config.minPadSize <= PaddingSize(budget - size, config.maxPaddingSize))
        && (count > 0 ==> count * (paddingSize + 1) + size > budget)
        && (count > 0 ==> IsFewest(count, config.maxPaddingSize, budget - size))
      ensures !NoProbe(queue, probe, targetQueue, timestamp) && count > 0 ==>
        FitsBudget(count, paddingSize, size, PacingBudget(queue, probe, targetQueue, timestamp))
      ensures !NoProbe(queue, probe, targetQueue, timestamp) && count > 0 ==>
        config.minPadSize <= paddingSize < config.maxPaddingSize
    {
      hide BacklogOk, PredictQueueAt, PaddingCount, PaddingSize;
      if !config.enabled {
        return 0, 0;
      }
      var budget := GetPacingBudget(timestamp);
      if budget == 0 || probe.start == 0 || timestamp - probe.start >= probe.duration {
        if canRtxPad && (rtxSendTime == 0 || timestamp - rtxSendTime >= config.minPadPinInterval) {
          return 1, 12 + 10;
        }
        return 0, 0;
      }
      if budget >= size {
        PaddingFits(budget, size, config.maxPaddingSize);
        var batchSize := budget - size;
        count := PaddingCount(batchSize, config.maxPaddingSize);
        paddingSize := PaddingSize(batchSize, config.maxPaddingSize) % UINT16;
        if paddingSize < config.minPadSize {
          return 0, paddingSize;
        }
        return count, paddingSize;
      }
      return 0, 0;
    }
  }

  function PaddingAdded(items: seq<Packet>, timestamp: nat, ssrc: nat, size: nat, ipOverhead: nat): seq<Packet> {
    if items != [] && items[0].kind == RTCP_PADDING && items[0].time == timestamp then
      items[0 := items[0].(size := items[0].size + size)]
    else Ring.PushedFront(items, NewPacket(timestamp, ssrc, 0, size + ipOverhead, RTCP_PADDING), BACKLOG_SIZE)
  }

  lemma SamplesStayDistinct(samples: seq<LossSample>, ssrc: nat, cumulative: nat)
    requires DistinctStreams(samples)
    ensures DistinctStreams(SamplesAfter(samples, ssrc, cumulative))
  {
    hide SampleIndex;
  }

  /** The sender report of a chosen analysis is in the backlog. */
  lemma {:induction false} ChosenIsInside(items: seq<Packet>, limit: nat, kbps: nat, i: nat, best: Analysis)
    requires i <= |items| && (best.senderReport.Some? ==> best.senderReport.value < |items|)
    ensures var r := Chosen(items, limit, kbps, i, best).report;
      r.senderReport.Some? ==> r.senderReport.value < |items|
    decreases |items| - i
  {
    hide IsGood;
    if i < |items| {
      var a := AnalysisOf(items, i, kbps);
      var next := if IsCandidate(items[i]) && IsGood(a, kbps) then BestReport(a, best, kbps) else best;
      ChosenIsInside(items, limit, kbps, i + 1, next);
    }
  }

  lemma ReportsAreInside(items: seq<Packet>, limit: nat, kbps: nat)
    ensures var r := Chosen(items, limit, kbps, 0, NO_ANALYSIS).report;
      r.senderReport.Some? ==> r.senderReport.value < |items|
  {
    ChosenIsInside(items, limit, kbps, 0, NO_ANALYSIS);
  }

  lemma GrowKeepsBacklog(items: seq<Packet>, size: nat)
    requires BacklogOk(items) && items != []
    ensures BacklogOk(items[0 := items[0].(size := items[0].size + size)])
  {
  }

  // ---------------------------------------------------------------------------------------
  // The walk over the backlog, item by item

  ghost predicate Walking(items: seq<Packet>, now: seq<Packet>, r: Report, i: nat, found: bool) {
    && i <= |items| == |now| && now[i..] == items[i..]
    && Marked(items, r, false) == now[..i] + Marked(items[i..], r, found)
  }

  lemma WalkStarts(items: seq<Packet>, r: Report)
    ensures Walking(items, items, r, 0, false)
  {
    assert items[0..] == items;
  }

  lemma WalkGoesOn(items: seq<Packet>, now: seq<Packet>, r: Report, i: nat, found: bool)
    requires Walking(items, now, r, i, found) && i < |items|
    ensures var p := now[i];
      if !IsStreamRtp(p, r.ssrc) then Walking(items, now, r, i + 1, found)
      else if p.received then true
      else if p.sequenceNumber == r.sequenceNumber then Walking(items, now[i := Confirmed(p, r)], r, i + 1, true)
      else if found then Walking(items, now[i := p.(received := true)], r, i + 1, found)
      else Walking(items, now, r, i + 1, found)
  {
    var p, rest := now[i], items[i..];
    assert p == now[i..][0];
    assert rest[1..] == items[i + 1..];
    assert now[i..][1..] == now[i + 1..];
    forall q: Packet ensures now[..i] + ([q] + items[i + 1..]) == now[i := q] {
      assert now[i + 1..] == items[i + 1..];
    }
    forall q: Packet, tail: seq<Packet> ensures now[..i] + ([q] + tail) == now[i := q][..i + 1] + tail {
      assert now[i := q][..i + 1] == now[..i] + [q];
    }
    assert now[i := p] == now;
  }

  lemma WalkEnds(items: seq<Packet>, now: seq<Packet>, r: Report, i: nat, found: bool)
    requires Walking(items, now, r, i, found)
    requires i < |items| ==> IsStreamRtp(now[i], r.ssrc) && now[i].received
    ensures Marked(items, r, false) == now
  {
    assert i < |items| ==> now[i] == now[i..][0];
    assert now == now[..i] + now[i..];
  }
}
