/**
  The audio stream buffer between a decoding thread (producer) and a mixing thread (consumer): a ring
  of samples that keeps the most recently fetched ones for replay.

  The two threads are a state machine over single steps: loading the shared length, copying one
  sample, and publishing the new head and length. Heads are private to their thread. The state also
  keeps the two streams, everything appended and everything fetched since the buffer was cleared.
 */
module SpscAudioBuffer {
  import opened Arithmetic

  type Sample = int

  const SILENCE: Sample := 0

  /** What the producer is doing. The head is later moved by claimed, not by what was written. */
  datatype Producer = Resting | Writing(samples: seq<Sample>, done: nat, claimed: nat)

  datatype Consumer =
    | Waiting
    | Fetching(count: nat, got: seq<Sample>)
    | Replaying(count: nat, got: seq<Sample>)

  datatype State = State(
    data: seq<Sample>,
    readHead: nat,
    writeHead: nat,
    length: int,
    replayMemory: nat,
    producer: Producer,
    consumer: Consumer,
    appended: seq<Sample>,
    fetched: seq<Sample>)

  // ---------------------------------------------------------------------------------------
  // Places in the ring

  /** Where sample i of a run of count samples from head is: after the end the ring starts again. */
  function Place(head: nat, count: nat, i: nat, size: nat): int {
    if head + count > size && i >= size - head then i - (size - head) else head + i
  }

  function NextHead(head: nat, count: nat, claimed: nat, size: nat): int {
    if head + count > size then claimed - (size - head) else head + count
  }

  /** The place of a position in the endless stream. */
  function Cell(position: nat, size: nat): (cell: nat)
    requires size > 0
    ensures cell < size
  {
    position % size
  }

  /** A head stands at the place of a stream position; at the end it may stand one past the last place. */
  predicate At(head: nat, position: nat, size: nat)
    requires size > 0
  {
    head <= size && head % size == Cell(position, size)
  }

  lemma CellStep(position: nat, i: nat, head: nat, size: nat)
    requires size > 0 && i <= size && At(head, position, size)
    ensures head + i < size ==> Cell(position + i, size) == head + i
    ensures size <= head + i < 2 * size ==> Cell(position + i, size) == head + i - size
    ensures head + i == 2 * size ==> Cell(position + i, size) == 0
  {
    var turns := position / size;
    if head < size {
      DivModUnique(head, size, 0, head);
    } else {
      DivModUnique(head, size, 1, 0);
    }
    var offset := if head < size then head else 0;
    assert position == turns * size + offset;
    if head < size && head + i < size {
      DivModUnique(position + i, size, turns, head + i);
    } else if head < size {
      assert (turns + 1) * size == turns * size + size;
      DivModUnique(position + i, size, turns + 1, head + i - size);
    } else if i < size {
      DivModUnique(position + i, size, turns, i);
    } else {
      assert (turns + 1) * size == turns * size + size;
      DivModUnique(position + i, size, turns + 1, 0);
    }
  }

  lemma PlaceIsCell(head: nat, position: nat, count: nat, i: nat, size: nat)
    requires size > 0 && i < count <= size && At(head, position, size)
    ensures Place(head, count, i, size) == Cell(position + i, size)
    ensures 0 <= Place(head, count, i, size) < size
  {
    CellStep(position, i, head, size);
  }

  /** Moving a head by a run keeps it at its stream position exactly when it is moved by what was copied. */
  lemma NextHeadAtIff(head: nat, position: nat, count: nat, claimed: nat, size: nat)
    requires size > 0 && count <= size && count <= claimed && At(head, position, size)
    ensures var next := NextHead(head, count, claimed, size);
      0 <= next && (At(next, position + count, size) <==> claimed == count || head + count <= size)
  {
    CellStep(position, count, head, size);
    var next := NextHead(head, count, claimed, size);
    if next < size { DivModUnique(next, size, 0, next); }
    if next == size { DivModUnique(next, size, 1, 0); }
  }

  /** Positions less than one turn apart have different places. */
  lemma CellsDiffer(p: nat, q: nat, size: nat)
    requires size > 0 && p < q < p + size
    ensures Cell(p, size) != Cell(q, size)
  {
    if p % size == q % size {
      assert q - p == (q / size - p / size) * size;
      MulBounds(q / size - p / size, size);
    }
  }

  // ---------------------------------------------------------------------------------------
  // Steps

  datatype Step =
    | StartAppend(samples: seq<Sample>)
    | StartSilence(silence: nat)
    | WriteSample
    | FinishWrite
    | StartFetch(most: nat)
    | ReadSample
    | FinishFetch
    | StartReplay(last: nat)
    | ReplaySample
    | FinishReplay

  predicate Initial(s: State) {
    && 0 < |s.data| && s.replayMemory <= |s.data|
    && s.readHead == 0 && s.writeHead == 0 && s.length == 0
    && s.producer == Resting && s.consumer == Waiting && s.appended == [] && s.fetched == []
  }

  function Min(a: int, b: int): int {
    if a < b then a else b
  }

  /** How many silent samples fit now. */
  function SilenceLength(s: State, count: nat): int {
    Min(|s.data| - s.replayMemory - s.length, count)
  }

  function WritePlace(s: State): int
    requires s.producer.Writing?
  {
    Place(s.writeHead, |s.producer.samples|, s.producer.done, |s.data|)
  }

  function ReplayStart(s: State, count: nat): int
    requires |s.data| > 0
  {
    (s.readHead + |s.data| - count) % |s.data|
  }

  /** The next place the consumer reads. */
  function ReadPlace(s: State): int
    requires !s.consumer.Waiting? && |s.data| > 0
  {
    var head := if s.consumer.Fetching? then s.readHead else ReplayStart(s, s.consumer.count);
    Place(head, s.consumer.count, |s.consumer.got|, |s.data|)
  }

  function DoStartAppend(s: State, samples: seq<Sample>): State {
    if s.length + |samples| + s.replayMemory > |s.data| then s
    else s.(producer := Writing(samples, 0, |samples|))
  }

  function Silence(count: nat): (samples: seq<Sample>)
    ensures |samples| == count && forall i :: 0 <= i < count ==> samples[i] == SILENCE
  {
    seq(count, _ => SILENCE)
  }

  function DoStartSilence(s: State, count: nat): State
    requires SilenceLength(s, count) >= 0
  {
    s.(producer := Writing(Silence(SilenceLength(s, count)), 0, count))
  }

  function DoWriteSample(s: State): State
    requires s.producer.Writing? && s.producer.done < |s.producer.samples| && 0 <= WritePlace(s) < |s.data|
  {
    s.(data := s.data[WritePlace(s) := s.producer.samples[s.producer.done]],
       producer := s.producer.(done := s.producer.done + 1))
  }

  function DoFinishWrite(s: State): State
    requires s.producer.Writing?
    requires 0 <= NextHead(s.writeHead, |s.producer.samples|, s.producer.claimed, |s.data|)
  {
    var samples := s.producer.samples;
    s.(writeHead := NextHead(s.writeHead, |samples|, s.producer.claimed, |s.data|),
       length := s.length + |samples|, producer := Resting, appended := s.appended + samples)
  }

  function DoStartFetch(s: State, most: nat): State
    requires s.length >= 0
  {
    if s.length == 0 then s else s.(consumer := Fetching(Min(s.length, most), []))
  }

  function DoReadSample(s: State): State
    requires !s.consumer.Waiting? && |s.data| > 0 && 0 <= ReadPlace(s) < |s.data|
  {
    s.(consumer := s.consumer.(got := s.consumer.got + [s.data[ReadPlace(s)]]))
  }

  function DoFinishFetch(s: State): State
    requires s.consumer.Fetching?
    requires 0 <= NextHead(s.readHead, s.consumer.count, s.consumer.count, |s.data|)
  {
    var count := s.consumer.count;
    s.(readHead := NextHead(s.readHead, count, count, |s.data|), length := s.length - count,
       consumer := Waiting, fetched := s.fetched + s.consumer.got)
  }

  function DoStartReplay(s: State, count: nat): State {
    if count > s.replayMemory then s else s.(consumer := Replaying(count, []))
  }

  /** Whether a step can be taken: the threads run one operation at a time. */
  predicate Enabled(s: State, step: Step) {
    match step
    case StartAppend(_) => s.producer.Resting?
    case StartSilence(count) => s.producer.Resting?
    case WriteSample => s.producer.Writing? && s.producer.done < |s.producer.samples|
    case FinishWrite => s.producer.Writing? && s.producer.done == |s.producer.samples|
    case StartFetch(_) => s.consumer.Waiting?
    case ReadSample => s.consumer.Fetching? && |s.consumer.got| < s.consumer.count
    case FinishFetch => s.consumer.Fetching? && |s.consumer.got| == s.consumer.count
    case StartReplay(_) => s.consumer.Waiting?
    case ReplaySample => s.consumer.Replaying? && |s.consumer.got| < s.consumer.count
    case FinishReplay => s.consumer.Replaying? && |s.consumer.got| == s.consumer.count
  }

  /** The places, heads and lengths a step uses are in range. */
  predicate InRange(s: State, step: Step) {
    match step
    case StartAppend(_) => true
    case StartSilence(count) => SilenceLength(s, count) >= 0
    case WriteSample => s.producer.Writing? && 0 <= WritePlace(s) < |s.data|
    case FinishWrite => s.producer.Writing?
      && 0 <= NextHead(s.writeHead, |s.producer.samples|, s.producer.claimed, |s.data|)
    case StartFetch(_) => s.length >= 0
    case ReadSample => !s.consumer.Waiting? && |s.data| > 0 && 0 <= ReadPlace(s) < |s.data|
    case FinishFetch => s.consumer.Fetching?
      && 0 <= NextHead(s.readHead, s.consumer.count, s.consumer.count, |s.data|) <= |s.data|
    case StartReplay(_) => true
    case ReplaySample => !s.consumer.Waiting? && |s.data| > 0 && 0 <= ReadPlace(s) < |s.data|
    case FinishReplay => true
  }

  function After(s: State, step: Step): State
    requires Enabled(s, step) && InRange(s, step)
  {
    match step
    case StartAppend(samples) => DoStartAppend(s, samples)
    case StartSilence(count) => DoStartSilence(s, count)
    case WriteSample => DoWriteSample(s)
    case FinishWrite => DoFinishWrite(s)
    case StartFetch(most) => DoStartFetch(s, most)
    case ReadSample => DoReadSample(s)
    case FinishFetch => DoFinishFetch(s)
    case StartReplay(last) => DoStartReplay(s, last)
    case ReplaySample => DoReadSample(s)
    case FinishReplay => s.(consumer := Waiting)
  }

  /**
    Silence is appended whole: it fits, or what fits does not pass the end of the ring. Otherwise the
    write head is moved past what was written.
   */
  predicate SilenceIsWhole(s: State, step: Step) {
    step.StartSilence? ==>
      step.silence == SilenceLength(s, step.silence) || s.writeHead + SilenceLength(s, step.silence) <= |s.data|
  }

  /** What is being written is what the head will be moved by, or does not pass the end of the ring. */
  predicate IsWhole(s: State) {
    s.producer.Writing? ==>
      s.producer.claimed == |s.producer.samples| || s.writeHead + |s.producer.samples| <= |s.data|
  }

  // ---------------------------------------------------------------------------------------
  // The invariant

  ghost predicate Shape(s: State) {
    && 0 < |s.data| && |s.fetched| <= |s.appended|
    && s.length == |s.appended| - |s.fetched|
    && s.length + s.replayMemory <= |s.data|
    && s.fetched == s.appended[..|s.fetched|]
    && At(s.writeHead, |s.appended|, |s.data|) && At(s.readHead, |s.fetched|, |s.data|)
  }

  /** The ring holds everything appended and not fetched, and the last fetched samples. */
  ghost predicate Holds(s: State)
    requires 0 < |s.data|
  {
    forall p :: 0 <= p < |s.appended| && |s.fetched| - s.replayMemory <= p ==>
      s.data[Cell(p, |s.data|)] == s.appended[p]
  }

  ghost predicate ProducerOk(s: State)
    requires 0 < |s.data|
  {
    s.producer.Writing? ==>
      var samples := s.producer.samples;
      && s.producer.done <= |samples| <= s.producer.claimed
      && |s.appended| + |samples| + s.replayMemory <= |s.fetched| + |s.data|
      && forall i :: 0 <= i < s.producer.done ==> s.data[Cell(|s.appended| + i, |s.data|)] == samples[i]
  }

  ghost predicate ConsumerOk(s: State) {
    var read := |s.fetched|;
    match s.consumer
    case Waiting => true
    case Fetching(count, got) =>
      |got| <= count && read + count <= |s.appended| && got == s.appended[read..read + |got|]
    case Replaying(count, got) =>
      |got| <= count <= s.replayMemory
      && (count <= read <= |s.appended| ==> got == s.appended[read - count..read - count + |got|])
  }

  ghost predicate Inv(s: State) {
    Shape(s) && Holds(s) && ProducerOk(s) && ConsumerOk(s)
  }

  lemma StepIsInRange(s: State, step: Step)
    requires Inv(s) && Enabled(s, step)
    ensures InRange(s, step)
  {
    var size, read, written := |s.data|, |s.fetched|, |s.appended|;
    match step
    case WriteSample => PlaceIsCell(s.writeHead, written, |s.producer.samples|, s.producer.done, size);
    case FinishWrite => NextHeadAtIff(s.writeHead, written, |s.producer.samples|, s.producer.claimed, size);
    case ReadSample => PlaceIsCell(s.readHead, read, s.consumer.count, |s.consumer.got|, size);
    case FinishFetch => NextHeadAtIff(s.readHead, read, s.consumer.count, s.consumer.count, size);
    case ReplaySample => ReplayPlace(s);
    case StartAppend(_) =>
    case StartSilence(_) =>
    case StartFetch(_) =>
    case StartReplay(_) =>
    case FinishReplay =>
  }

  /** A replay reads the stream positions just before the read position. */
  lemma ReplayPlace(s: State)
    requires Shape(s) && s.consumer.Replaying? && |s.consumer.got| < s.consumer.count <= s.replayMemory
    ensures 0 <= ReadPlace(s) < |s.data|
    ensures s.consumer.count <= |s.fetched| ==>
      ReadPlace(s) == Cell(|s.fetched| - s.consumer.count + |s.consumer.got|, |s.data|)
  {
    var size, count, start := |s.data|, s.consumer.count, ReplayStart(s, s.consumer.count);
    DivModUnique(start, size, 0, start);
    PlaceIsCell(start, start, count, |s.consumer.got|, size);
    if count <= |s.fetched| {
      ReplayStartAt(s.readHead, |s.fetched|, count, size);
      PlaceIsCell(start, |s.fetched| - count, count, |s.consumer.got|, size);
    }
  }

  lemma ReplayStartAt(head: nat, position: nat, count: nat, size: nat)
    requires 0 < size && count <= size && count <= position && At(head, position, size)
    ensures At((head + size - count) % size, position - count, size)
  {
    var turns := position / size - head / size;
    assert position == head + turns * size;
    var x := head + size - count;
    var quotient, start := x / size, x % size;
    assert position - count == (quotient + turns - 1) * size + start;
    DivModUnique(position - count, size, quotient + turns - 1, start);
    DivModUnique(start, size, 0, start);
  }

  // ---------------------------------------------------------------------------------------
  // Every step keeps the invariant

  lemma WriteKeepsInv(s: State)
    requires Inv(s) && Enabled(s, WriteSample) && InRange(s, WriteSample)
    ensures Inv(DoWriteSample(s))
  {
    hide Cell, At;
    var size, written, samples, done := |s.data|, |s.appended|, s.producer.samples, s.producer.done;
    PlaceIsCell(s.writeHead, written, |samples|, done, size);
    var s' := DoWriteSample(s);
    forall p | 0 <= p < written && |s.fetched| - s.replayMemory <= p
      ensures s'.data[Cell(p, size)] == s.appended[p]
    {
      CellsDiffer(p, written + done, size);
    }
    forall i | 0 <= i < done + 1 ensures s'.data[Cell(written + i, size)] == samples[i] {
      if i < done { CellsDiffer(written + i, written + done, size); }
    }
  }

  lemma FinishWriteKeepsInv(s: State)
    requires Inv(s) && Enabled(s, FinishWrite) && InRange(s, FinishWrite) && IsWhole(s)
    ensures Inv(DoFinishWrite(s))
  {
    hide Cell, At, NextHead;
    var size, written, samples := |s.data|, |s.appended|, s.producer.samples;
    NextHeadAtIff(s.writeHead, written, |samples|, s.producer.claimed, size);
    var s' := DoFinishWrite(s);
    forall p | 0 <= p < |s'.appended| && |s.fetched| - s.replayMemory <= p
      ensures s.data[Cell(p, size)] == s'.appended[p]
    {
      if p >= written { assert samples[p - written] == s.data[Cell(written + (p - written), size)]; }
    }
  }

  lemma ReadKeepsInv(s: State)
    requires Inv(s) && Enabled(s, ReadSample) && InRange(s, ReadSample)
    ensures Inv(DoReadSample(s))
  {
    hide Cell, At;
    var read, got := |s.fetched|, s.consumer.got;
    PlaceIsCell(s.readHead, read, s.consumer.count, |got|, |s.data|);
    assert s.data[ReadPlace(s)] == s.appended[read + |got|];
  }

  lemma FinishFetchKeepsInv(s: State)
    requires Inv(s) && Enabled(s, FinishFetch) && InRange(s, FinishFetch)
    ensures Inv(DoFinishFetch(s))
  {
    hide Cell, At, NextHead;
    NextHeadAtIff(s.readHead, |s.fetched|, s.consumer.count, s.consumer.count, |s.data|);
  }

  lemma ReplayKeepsInv(s: State)
    requires Inv(s) && Enabled(s, ReplaySample) && InRange(s, ReplaySample)
    ensures Inv(DoReadSample(s))
  {
    hide Cell, At;
    var start, got := |s.fetched| - s.consumer.count, s.consumer.got;
    ReplayPlace(s);
    if start >= 0 { assert s.data[ReadPlace(s)] == s.appended[start + |got|]; }
  }

  lemma StepKeepsInv(s: State, step: Step)
    requires Inv(s) && Enabled(s, step) && InRange(s, step) && (step.FinishWrite? ==> IsWhole(s))
    ensures Inv(After(s, step))
  {
    hide Cell, At, NextHead;
    match step
    case WriteSample => WriteKeepsInv(s);
    case FinishWrite => FinishWriteKeepsInv(s);
    case ReadSample => ReadKeepsInv(s);
    case FinishFetch => FinishFetchKeepsInv(s);
    case ReplaySample => ReplayKeepsInv(s);
    case StartAppend(_) =>
    case StartSilence(_) =>
    case StartFetch(_) =>
    case StartReplay(_) =>
    case FinishReplay =>
  }

  /** A write is whole as long as it lasts exactly if it began whole; samples always begin whole. */
  lemma WholeLasts(s: State, step: Step)
    requires Enabled(s, step) && InRange(s, step) && !step.FinishWrite?
    ensures IsWhole(After(s, step)) <==> IsWhole(s) && SilenceIsWhole(s, step)
  {
  }

  // ---------------------------------------------------------------------------------------
  // Whole runs

  /** A run of the two threads, interleaved in any way. Out of range, anything may happen. */
  ghost predicate IsRun(run: seq<State>, steps: seq<Step>) {
    && |run| == |steps| + 1 && Initial(run[0])
    && forall i :: 0 <= i < |steps| ==> Moves(run[i], steps[i], run[i + 1])
  }

  ghost predicate Moves(s: State, step: Step, s': State) {
    Enabled(s, step) && (InRange(s, step) ==> s' == After(s, step))
  }

  /** Every silence begun before state n is appended whole. */
  ghost predicate SilencesWhole(run: seq<State>, steps: seq<Step>, n: nat)
    requires n <= |steps| < |run|
  {
    forall i :: 0 <= i < n ==> SilenceIsWhole(run[i], steps[i])
  }

  lemma {:induction false} RunKeepsInv(run: seq<State>, steps: seq<Step>, n: nat)
    requires IsRun(run, steps) && n < |run| && SilencesWhole(run, steps, n)
    ensures Inv(run[n]) && IsWhole(run[n])
  {
    if n == 0 {
      DivModUnique(0, |run[0].data|, 0, 0);
    } else {
      RunKeepsInv(run, steps, n - 1);
      StepInRun(run, steps, n - 1);
      assert SilenceIsWhole(run[n - 1], steps[n - 1]);
      StepKeepsInv(run[n - 1], steps[n - 1]);
      if !steps[n - 1].FinishWrite? { WholeLasts(run[n - 1], steps[n - 1]); }
    }
  }

  lemma StepInRun(run: seq<State>, steps: seq<Step>, i: nat)
    requires IsRun(run, steps) && i < |steps| && Inv(run[i])
    ensures Enabled(run[i], steps[i]) && InRange(run[i], steps[i]) && run[i + 1] == After(run[i], steps[i])
  {
    assert Moves(run[i], steps[i], run[i + 1]);
    StepIsInRange(run[i], steps[i]);
  }

  // ---------------------------------------------------------------------------------------
  // The streams, from the calls alone

  /** How many samples fit beside those that wait and the replay memory. */
  function Room(s: State): int {
    |s.data| - s.replayMemory - s.length
  }

  /** The samples of the append or silence that is under way in state n: those the caller passed, or zeros. */
  ghost function Asked(run: seq<State>, steps: seq<Step>, n: nat): seq<Sample>
    requires n <= |steps| < |run|
  {
    if n == 0 then []
    else match steps[n - 1]
      case StartAppend(samples) => if |samples| <= Room(run[n - 1]) then samples else []
      case StartSilence(count) =>
        var fits := Min(Room(run[n - 1]), count);
        if fits < 0 then [] else Silence(fits)
      case FinishWrite => []
      case _ => Asked(run, steps, n - 1)
  }

  /** Everything the callers appended, in order: the samples of every write that has finished. */
  ghost function Stream(run: seq<State>, steps: seq<Step>, n: nat): seq<Sample>
    requires n <= |steps| < |run|
  {
    if n == 0 then []
    else Stream(run, steps, n - 1) + if steps[n - 1].FinishWrite? then Asked(run, steps, n - 1) else []
  }

  /** Everything the fetches returned, in order. */
  ghost function Delivered(run: seq<State>, steps: seq<Step>, n: nat): seq<Sample>
    requires n <= |steps| < |run|
  {
    if n == 0 then []
    else
      var s := run[n - 1];
      Delivered(run, steps, n - 1) + if steps[n - 1].FinishFetch? && s.consumer.Fetching? then s.consumer.got else []
  }

  lemma {:induction false} HistoriesAreStreams(run: seq<State>, steps: seq<Step>, n: nat)
    requires IsRun(run, steps) && n < |run| && SilencesWhole(run, steps, n)
    ensures run[n].appended == Stream(run, steps, n) && run[n].fetched == Delivered(run, steps, n)
    ensures (if run[n].producer.Writing? then run[n].producer.samples else []) == Asked(run, steps, n)
  {
    hide Inv, NextHead, Place;
    if n > 0 {
      HistoriesAreStreams(run, steps, n - 1);
      RunKeepsInv(run, steps, n - 1);
      StepInRun(run, steps, n - 1);
    }
  }

  /** As long as silence is whole, what was delivered is a prefix of what the callers appended. */
  lemma FetchedIsPrefix(run: seq<State>, steps: seq<Step>, n: nat)
    requires IsRun(run, steps) && n < |run| && SilencesWhole(run, steps, n)
    ensures Delivered(run, steps, n) <= Stream(run, steps, n)
    ensures run[n].length == |Stream(run, steps, n)| - |Delivered(run, steps, n)|
  {
    RunKeepsInv(run, steps, n);
    HistoriesAreStreams(run, steps, n);
  }

  /** The fetch or replay under way in state n began in step j. */
  ghost predicate BeganAt(run: seq<State>, steps: seq<Step>, j: nat, n: nat)
    requires n <= |steps| < |run|
  {
    j < n && (steps[j].StartFetch? || steps[j].StartReplay?) && forall i :: j < i <= n ==> !run[i].consumer.Waiting?
  }

  /** What a fetch or replay will copy was settled when it began, and the delivered stream stands still meanwhile. */
  lemma {:induction false} FetchBegan(run: seq<State>, steps: seq<Step>, n: nat) returns (j: nat)
    requires IsRun(run, steps) && n < |run| && SilencesWhole(run, steps, n) && !run[n].consumer.Waiting?
    ensures BeganAt(run, steps, j, n) && Delivered(run, steps, j) == Delivered(run, steps, n)
    ensures run[n].consumer.Fetching? ==>
      steps[j].StartFetch? && run[j].length > 0 && run[n].consumer.count == Min(run[j].length, steps[j].most)
    ensures run[n].consumer.Replaying? ==> steps[j].StartReplay? && run[n].consumer.count == steps[j].last
  {
    hide Inv, NextHead, Place;
    assert n > 0;
    RunKeepsInv(run, steps, n - 1);
    StepInRun(run, steps, n - 1);
    if run[n - 1].consumer.Waiting? {
      j := n - 1;
    } else {
      j := FetchBegan(run, steps, n - 1);
    }
  }

  /**
    A finished fetch that began in step j returns the next samples of the appended stream: as many as waited
    then, or as many as were asked for if those are fewer.
   */
  lemma FetchReturnsNext(run: seq<State>, steps: seq<Step>, n: nat) returns (j: nat)
    requires IsRun(run, steps) && n < |steps| && steps[n].FinishFetch? && SilencesWhole(run, steps, n)
    ensures BeganAt(run, steps, j, n) && steps[j].StartFetch? && run[n].consumer.Fetching?
    ensures var read, got := |Delivered(run, steps, j)|, run[n].consumer.got;
      && |got| == Min(|Stream(run, steps, j)| - read, steps[j].most)
      && read + |got| <= |Stream(run, steps, n)| && got == Stream(run, steps, n)[read..read + |got|]
  {
    RunKeepsInv(run, steps, n);
    assert Moves(run[n], steps[n], run[n + 1]);
    j := FetchBegan(run, steps, n);
    FetchedIsPrefix(run, steps, j);
    HistoriesAreStreams(run, steps, n);
  }

  /** A fetch gets going exactly when samples wait, and a replay exactly when it is within the replay memory. */
  lemma StartsIff(run: seq<State>, steps: seq<Step>, n: nat)
    requires IsRun(run, steps) && n < |steps| && SilencesWhole(run, steps, n)
    ensures steps[n].StartFetch? ==>
      (run[n + 1].consumer.Fetching? <==> |Delivered(run, steps, n)| < |Stream(run, steps, n)|)
    ensures steps[n].StartReplay? ==>
      (run[n + 1].consumer.Replaying? <==> steps[n].last <= run[n].replayMemory)
  {
    hide Inv;
    RunKeepsInv(run, steps, n);
    StepInRun(run, steps, n);
    FetchedIsPrefix(run, steps, n);
  }

  /** A finished replay that began in step j holds exactly the last samples delivered, as many as were asked for. */
  lemma ReplayIsExact(run: seq<State>, steps: seq<Step>, n: nat) returns (j: nat)
    requires IsRun(run, steps) && n < |steps| && steps[n].FinishReplay? && SilencesWhole(run, steps, n)
    ensures BeganAt(run, steps, j, n) && steps[j].StartReplay? && run[n].consumer.Replaying?
    ensures var delivered, got := Delivered(run, steps, n), run[n].consumer.got;
      && |got| == steps[j].last
      && (|got| <= |delivered| ==> got == delivered[|delivered| - |got|..])
  {
    RunKeepsInv(run, steps, n);
    assert Moves(run[n], steps[n], run[n + 1]);
    j := FetchBegan(run, steps, n);
    HistoriesAreStreams(run, steps, n);
  }

  /** Every operation under way can go on; the other thread cannot stop it. */
  lemma OperationIsNeverStuck(run: seq<State>, steps: seq<Step>, n: nat)
    requires IsRun(run, steps) && n < |run| && SilencesWhole(run, steps, n)
    ensures Enabled(run[n], WriteSample) || Enabled(run[n], FinishWrite) || run[n].producer.Resting?
    ensures Enabled(run[n], ReadSample) || Enabled(run[n], FinishFetch) || !run[n].consumer.Fetching?
    ensures Enabled(run[n], ReplaySample) || Enabled(run[n], FinishReplay) || !run[n].consumer.Replaying?
  {
    RunKeepsInv(run, steps, n);
  }

  /**
    While the producer is about to write a place, the consumer is not reading it, and the place holds
    none of the samples that are still to be fetched or may be replayed.
   */
  lemma WritesTouchNothingReadable(run: seq<State>, steps: seq<Step>, n: nat)
    requires IsRun(run, steps) && n < |run| && SilencesWhole(run, steps, n)
    requires run[n].producer.Writing? && run[n].producer.done < |run[n].producer.samples|
    ensures var s := run[n];
      && (forall p :: 0 <= p < |s.appended| && |s.fetched| - s.replayMemory <= p ==>
        0 < |s.data| && WritePlace(s) != Cell(p, |s.data|))
      && (s.consumer.Fetching? && |s.consumer.got| < s.consumer.count ==>
        0 < |s.data| && WritePlace(s) != ReadPlace(s))
      && (s.consumer.Replaying? && |s.consumer.got| < s.consumer.count <= |s.fetched| ==>
        0 < |s.data| && WritePlace(s) != ReadPlace(s))
  {
    hide Cell;
    RunKeepsInv(run, steps, n);
    var s := run[n];
    var size, written := |s.data|, |s.appended|;
    PlaceIsCell(s.writeHead, written, |s.producer.samples|, s.producer.done, size);
    forall p | 0 <= p < written && |s.fetched| - s.replayMemory <= p ensures WritePlace(s) != Cell(p, size) {
      CellsDiffer(p, written + s.producer.done, size);
    }
    if !s.consumer.Waiting? && |s.consumer.got| < s.consumer.count {
      if s.consumer.Fetching? {
        PlaceIsCell(s.readHead, |s.fetched|, s.consumer.count, |s.consumer.got|, size);
      } else {
        ReplayPlace(s);
      }
    }
  }

  /** Appending is refused exactly when the samples and the replay memory do not fit beside what waits. */
  lemma AppendRefusedIff(run: seq<State>, steps: seq<Step>, n: nat)
    requires IsRun(run, steps) && n < |steps| && steps[n].StartAppend? && SilencesWhole(run, steps, n)
    ensures run[n + 1].producer.Resting? <==>
      |Stream(run, steps, n)| - |Delivered(run, steps, n)| + |steps[n].samples| > |run[n].data| - run[n].replayMemory
  {
    RunKeepsInv(run, steps, n);
    FetchedIsPrefix(run, steps, n);
    assert Moves(run[n], steps[n], run[n + 1]);
  }

  // ---------------------------------------------------------------------------------------
  // Silence that is cut short

  /** Where the write head goes when a write finishes, and when it is still in the ring. */
  lemma FinishedHead(s: State)
    requires Inv(s) && Enabled(s, FinishWrite) && InRange(s, FinishWrite)
    ensures var head, claimed := DoFinishWrite(s).writeHead, s.producer.claimed;
      && (!IsWhole(s) ==> head == s.writeHead + claimed - |s.data|)
      && (head <= |s.data| <==> IsWhole(s) || s.writeHead + claimed <= 2 * |s.data|)
      && (At(head, |DoFinishWrite(s).appended|, |s.data|) <==> IsWhole(s))
  {
    NextHeadAtIff(s.writeHead, |s.appended|, |s.producer.samples|, s.producer.claimed, |s.data|);
  }

  /** In every state up to n, the write head is at the end of the appended stream. */
  ghost predicate HeadsRight(run: seq<State>, n: nat)
    requires n < |run|
  {
    forall k :: 0 <= k <= n ==> HeadRight(run[k])
  }

  predicate HeadRight(s: State) {
    0 < |s.data| && At(s.writeHead, |s.appended|, |s.data|)
  }

  /** A silence that is not whole is found at the end of its write. */
  lemma {:induction false} BadWriteFinishes(run: seq<State>, steps: seq<Step>, i: nat, n: nat) returns (k: nat)
    requires IsRun(run, steps) && i <= n < |run| && Inv(run[i]) && !IsWhole(run[i]) && run[n].producer.Resting?
    ensures i < k <= n && !HeadRight(run[k])
    decreases n - i
  {
    hide Inv, At, NextHead;
    assert i < n;
    StepInRun(run, steps, i);
    if steps[i].FinishWrite? {
      InvHasRing(run[i]);
      FinishedHead(run[i]);
      k := i + 1;
    } else {
      StepKeepsInv(run[i], steps[i]);
      WholeLasts(run[i], steps[i]);
      k := BadWriteFinishes(run, steps, i + 1, n);
    }
  }

  lemma InvHasRing(s: State)
    requires Inv(s)
    ensures 0 < |s.data|
  {
  }

  lemma {:induction false} FirstCut(run: seq<State>, steps: seq<Step>, n: nat) returns (i: nat)
    requires IsRun(run, steps) && n <= |steps| && !SilencesWhole(run, steps, n)
    ensures i < n && !SilenceIsWhole(run[i], steps[i]) && SilencesWhole(run, steps, i)
  {
    if SilencesWhole(run, steps, n - 1) {
      i := n - 1;
    } else {
      i := FirstCut(run, steps, n - 1);
    }
  }

  /**
    The exact condition, over every run: up to a moment when the producer rests, the write head was
    always at the end of the stream if and only if every silence was whole when it began.
   */
  lemma HeadStaysRightIff(run: seq<State>, steps: seq<Step>, n: nat)
    requires IsRun(run, steps) && n < |run| && run[n].producer.Resting?
    ensures HeadsRight(run, n) <==> SilencesWhole(run, steps, n)
  {
    hide Inv, At, NextHead;
    if SilencesWhole(run, steps, n) {
      forall k | 0 <= k <= n ensures HeadRight(run[k]) {
        RunKeepsInv(run, steps, k);
        InvHasHead(run[k]);
      }
    } else {
      var i := FirstCut(run, steps, n);
      RunKeepsInv(run, steps, i);
      StepInRun(run, steps, i);
      StepKeepsInv(run[i], steps[i]);
      WholeLasts(run[i], steps[i]);
      var k := BadWriteFinishes(run, steps, i + 1, n);
    }
  }

  lemma InvHasHead(s: State)
    requires Inv(s)
    ensures HeadRight(s)
  {
  }

  /** A run that ends in a given state. */
  ghost predicate EndsIn(run: seq<State>, steps: seq<Step>, s: State) {
    IsRun(run, steps) && run[|run| - 1] == s
  }

  lemma RunStarts(s: State)
    requires Initial(s)
    ensures EndsIn([s], [], s)
  {
  }

  lemma Extend(run: seq<State>, steps: seq<Step>, s: State, step: Step, s': State)
    returns (more: seq<State>, all: seq<Step>)
    requires EndsIn(run, steps, s) && Enabled(s, step) && InRange(s, step) && s' == After(s, step)
    ensures EndsIn(more, all, s')
  {
    more, all := run + [s'], steps + [step];
    forall i | 0 <= i < |all| ensures Moves(more[i], all[i], more[i + 1]) {
      if i < |steps| { assert Moves(run[i], steps[i], run[i + 1]); }
    }
  }

  /** A ring of two samples, filled once. */
  lemma RingFilled() returns (run: seq<State>, steps: seq<Step>)
    ensures EndsIn(run, steps, State([1, 2], 0, 2, 2, 0, Resting, Waiting, [1, 2], []))
  {
    hide EndsIn;
    var s0 := State([0, 0], 0, 0, 0, 0, Resting, Waiting, [], []);
    RunStarts(s0);
    var s1 := s0.(producer := Writing([1, 2], 0, 2));
    run, steps := Extend([s0], [], s0, StartAppend([1, 2]), s1);
    var s2 := s1.(data := [1, 0], producer := Writing([1, 2], 1, 2));
    run, steps := Extend(run, steps, s1, WriteSample, s2);
    var s3 := s2.(data := [1, 2], producer := Writing([1, 2], 2, 2));
    run, steps := Extend(run, steps, s2, WriteSample, s3);
    assert s3.appended + [1, 2] == [1, 2];
    run, steps := Extend(run, steps, s3, FinishWrite, After(s3, FinishWrite));
  }

  /** The same ring, filled and emptied once. */
  lemma RingUsedOnce() returns (run: seq<State>, steps: seq<Step>)
    ensures EndsIn(run, steps, State([1, 2], 2, 2, 0, 0, Resting, Waiting, [1, 2], [1, 2]))
  {
    hide EndsIn;
    run, steps := RingFilled();
    var s4 := State([1, 2], 0, 2, 2, 0, Resting, Waiting, [1, 2], []);
    var s5 := s4.(consumer := Fetching(2, []));
    run, steps := Extend(run, steps, s4, StartFetch(2), s5);
    assert s5.consumer.got + [1] == [1];
    var s6 := s5.(consumer := Fetching(2, [1]));
    run, steps := Extend(run, steps, s5, ReadSample, s6);
    var s7 := s6.(consumer := Fetching(2, [1, 2]));
    assert s6.consumer.got + [2] == [1, 2];
    run, steps := Extend(run, steps, s6, ReadSample, s7);
    assert s7.fetched + [1, 2] == [1, 2];
    run, steps := Extend(run, steps, s7, FinishFetch, After(s7, FinishFetch));
  }

  /** Five samples of silence, of which two fit, then leave the write head three places past the ring. */
  lemma CutSilenceLeavesRing() returns (run: seq<State>, steps: seq<Step>)
    ensures IsRun(run, steps)
    ensures var last := run[|run| - 1]; |last.data| == 2 && last.writeHead == 5 && last.producer.Resting?
  {
    run, steps := RingUsedOnce();
    var s8 := State([1, 2], 2, 2, 0, 0, Resting, Waiting, [1, 2], [1, 2]);
    assert Silence(2) == [0, 0];
    var s9 := s8.(producer := Writing([0, 0], 0, 5));
    run, steps := Extend(run, steps, s8, StartSilence(5), s9);
    var s10 := s9.(data := [0, 2], producer := Writing([0, 0], 1, 5));
    run, steps := Extend(run, steps, s9, WriteSample, s10);
    var s11 := s10.(data := [0, 0], producer := Writing([0, 0], 2, 5));
    run, steps := Extend(run, steps, s10, WriteSample, s11);
    run, steps := Extend(run, steps, s11, FinishWrite, After(s11, FinishWrite));
  }
}
