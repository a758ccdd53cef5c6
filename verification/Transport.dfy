/**
 A byte stream read by a thread and consumed on the event loop, joined by a bounded queue.  Every interleaving of the
 reader, the queue, the consumer and an early exit of the consumer is a run of the steps below.
 */
module Transport {
  import opened Text

  const MAX_CHUNKS := 1024

  type Chunk = s: seq<bv8> | s != [] witness [0]

  /** Why opening or reading failed.  A refused open has a body of its own, whose reading may time out or fail. */
  datatype Cause = HttpStatus | RefusalTimedOut | RefusalFailed | OpenTimedOut | OpenFailed | ReadTimedOut | ReadFailed

  datatype Error = StreamOpenError | NetworkTimeout | TransportError

  /** What the consumer is told.  A timeout of the opening itself is reported as a transport error, not as a timeout. */
  function Reported(c: Cause): Error {
    match c
    case HttpStatus => StreamOpenError
    case ReadTimedOut => NetworkTimeout
    case RefusalTimedOut => NetworkTimeout
    case _ => TransportError
  }

  predicate IsTimeout(c: Cause) {
    c.OpenTimedOut? || c.RefusalTimedOut? || c.ReadTimedOut?
  }

  datatype Item = Data(chunk: Chunk) | Failure(error: Error) | End

  /** What follows a put: the read loop, the `finally` block, or the end of the thread. */
  datatype Next = ToLoop | ToFinally | ToDone

  datatype Reader =
    | Opening
    | Checking
    | Reading
    | Putting(item: Item, next: Next)   // scheduled on the loop, not yet in the queue
    | Landed(next: Next)                // in the queue, the reader has not noticed
    | Closing
    | Done

  datatype Consumer = Running | Finished | Raised(error: Error) | Left

  /** `chunks` are the chunks read so far, `eof` an empty read, `cause` the failure of the reader. */
  datatype Pipe = Pipe(
    reader: Reader,
    queue: seq<Item>,
    consumer: Consumer,
    stop: bool,
    yielded: seq<Chunk>,
    chunks: seq<Chunk>,
    eof: bool,
    cause: Option<Cause>)

  const START := Pipe(Opening, [], Running, false, [], [], false, None)

  datatype Step =
    | Opened
    | OpenRaises(c: Cause)
    | Check
    | ReadChunk(chunk: Chunk)
    | ReadNothing
    | ReadRaises(c: Cause)
    | Land
    | Notice
    | WaitTimesOut
    | Close
    | Get
    | Leave

  predicate IsReaderStep(step: Step) {
    !step.Get? && !step.Leave?
  }

  predicate Enabled(s: Pipe, step: Step) {
    match step
    case Opened => s.reader.Opening?
    case OpenRaises(c) => s.reader.Opening? && !c.ReadTimedOut? && !c.ReadFailed?
    case Check => s.reader.Checking?
    case ReadChunk(_) => s.reader.Reading?
    case ReadNothing => s.reader.Reading?
    case ReadRaises(c) => s.reader.Reading? && (c.ReadTimedOut? || c.ReadFailed?)
    case Land => s.reader.Putting? && |s.queue| < MAX_CHUNKS
    case Notice => s.reader.Landed?
    case WaitTimesOut => s.reader.Putting?
    case Close => s.reader.Closing?
    case Get => s.consumer.Running? && s.queue != []
    case Leave => s.consumer.Running?
  }

  function After(next: Next): Reader {
    match next
    case ToLoop => Checking
    case ToFinally => Closing
    case ToDone => Done
  }

  function Fail(s: Pipe, c: Cause): Pipe {
    s.(reader := Putting(Failure(Reported(c)), ToFinally), cause := Some(c))
  }

  function Apply(s: Pipe, step: Step): Pipe
    requires Enabled(s, step)
  {
    match step
    case Opened => s.(reader := Checking)
    case OpenRaises(c) => Fail(s, c)
    case Check => s.(reader := if s.stop then Closing else Reading)
    case ReadChunk(chunk) => s.(reader := Putting(Data(chunk), ToLoop), chunks := s.chunks + [chunk])
    case ReadNothing => s.(reader := Closing, eof := true)
    case ReadRaises(c) => Fail(s, c)
    case Land => s.(reader := Landed(s.reader.next), queue := s.queue + [s.reader.item])
    case Notice => s.(reader := After(s.reader.next))
    case WaitTimesOut => if s.stop then s.(reader := After(s.reader.next)) else s
    case Close => s.(reader := Putting(End, ToDone))
    case Get =>
      var rest := s.(queue := s.queue[1..]);
      (match s.queue[0]
       case Data(chunk) => rest.(yielded := s.yielded + [chunk])
       case Failure(e) => rest.(consumer := Raised(e), stop := true)
       case End => rest.(consumer := Finished, stop := true))
    case Leave => s.(consumer := Left, stop := true)
  }

  ghost predicate CanRun(s: Pipe, steps: seq<Step>)
    decreases |steps|
  {
    steps == [] || (Enabled(s, steps[0]) && CanRun(Apply(s, steps[0]), steps[1..]))
  }

  ghost function Final(s: Pipe, steps: seq<Step>): Pipe
    requires CanRun(s, steps)
    decreases |steps|
  {
    if steps == [] then s else Final(Apply(s, steps[0]), steps[1..])
  }

  // ---------- what every step keeps ----------

  /** What is on its way to the consumer: the queue and the put that has not landed. */
  function InFlight(s: Pipe): seq<Item> {
    s.queue + if s.reader.Putting? then [s.reader.item] else []
  }

  /** The reader has announced its end, or is about to. */
  predicate IsLast(r: Reader) {
    r.Done? || ((r.Putting? || r.Landed?) && r.next.ToDone?)
  }

  /** In the `finally` block, past it or on the way to it. */
  predicate IsOver(r: Reader) {
    IsLast(r) || r.Closing? || ((r.Putting? || r.Landed?) && r.next.ToFinally?)
  }

  /** How the reader's account ends: with its failure, if any, and then the end mark. */
  function Ending(s: Pipe): seq<Item> {
    (if s.cause.Some? then [Failure(Reported(s.cause.value))] else []) + if IsLast(s.reader) then [End] else []
  }

  function AsData(chunks: seq<Chunk>): seq<Item> {
    seq(|chunks|, i requires 0 <= i < |chunks| => Data(chunks[i]))
  }

  /** Everything the reader has produced: its chunks in order, then its ending. */
  function Account(s: Pipe): seq<Item> {
    AsData(s.chunks) + Ending(s)
  }

  /**
   While the consumer is there nothing is lost or reordered: what it got and what is on its way are together
   everything the reader has produced.
   */
  ghost predicate Conserves(s: Pipe) {
    AsData(s.yielded) + InFlight(s) == Account(s)
  }

  ghost predicate Inv(s: Pipe) {
    && |s.queue| <= MAX_CHUNKS
    && (s.stop <==> !s.consumer.Running?)
    && s.yielded <= s.chunks
    && !(s.eof && s.cause.Some?)
    && (s.eof || s.cause.Some? ==> IsOver(s.reader))
    && (s.consumer.Running? ==> Conserves(s) && (IsOver(s.reader) ==> s.eof || s.cause.Some?))
    && (s.consumer.Finished? ==> s.eof && s.yielded == s.chunks)
    && (s.consumer.Raised? ==> s.cause.Some? && s.consumer.error == Reported(s.cause.value) && s.yielded == s.chunks)
  }

  lemma {:induction false} StartIsInv()
    ensures Inv(START)
  {
  }

  lemma {:induction false} AsDataAppend(chunks: seq<Chunk>, c: Chunk)
    ensures AsData(chunks + [c]) == AsData(chunks) + [Data(c)]
  {
  }

  /** What a reader step adds to the items in flight is what it adds to the reader's account. */
  lemma {:induction false} ReaderConserves(s: Pipe, step: Step)
    requires Enabled(s, step) && IsReaderStep(step) && !s.stop
    requires Conserves(s) && (s.cause.Some? ==> IsOver(s.reader))
    ensures Conserves(Apply(s, step))
  {
    var t := Apply(s, step);
    if step.ReadChunk? {
      AsDataAppend(s.chunks, step.chunk);
      assert Account(t) == Account(s) + [Data(step.chunk)];
      assert InFlight(t) == InFlight(s) + [Data(step.chunk)];
    } else if step.OpenRaises? || step.ReadRaises? {
      assert Account(t) == Account(s) + [Failure(Reported(step.c))];
      assert InFlight(t) == InFlight(s) + [Failure(Reported(step.c))];
    } else if step.Close? {
      assert Account(t) == Account(s) + [End];
      assert InFlight(t) == InFlight(s) + [End];
    } else {
      assert InFlight(t) == InFlight(s);
    }
  }

  /** The head of the queue is the first item of the account that the consumer has not got. */
  lemma {:induction false} HeadIsNext(s: Pipe)
    requires Inv(s) && s.consumer.Running? && s.queue != []
    ensures |s.yielded| < |Account(s)| && s.queue[0] == Account(s)[|s.yielded|]
    ensures s.queue[0].Data? <==> |s.yielded| < |s.chunks|
    ensures s.queue[0].Data? ==> s.queue[0].chunk == s.chunks[|s.yielded|]
    ensures !s.queue[0].Data? ==> s.yielded == s.chunks
    ensures s.queue[0].Failure? ==> s.cause.Some? && s.queue[0].error == Reported(s.cause.value)
    ensures s.queue[0].End? ==> s.cause.None? && IsLast(s.reader)
  {
    var k := |s.yielded|;
    assert (AsData(s.yielded) + InFlight(s))[k] == s.queue[0];
  }

  lemma {:induction false} GetKeepsInv(s: Pipe)
    requires Inv(s) && Enabled(s, Get)
    ensures Inv(Apply(s, Get))
  {
    HeadIsNext(s);
    if s.queue[0].Data? {
      var t := Apply(s, Get);
      AsDataAppend(s.yielded, s.queue[0].chunk);
      assert InFlight(s) == [s.queue[0]] + InFlight(t);
      assert AsData(t.yielded) + InFlight(t) == AsData(s.yielded) + InFlight(s);
    }
  }

  lemma {:induction false} StepKeepsInv(s: Pipe, step: Step)
    requires Inv(s) && Enabled(s, step)
    ensures Inv(Apply(s, step))
  {
    if step.Get? {
      GetKeepsInv(s);
    } else if IsReaderStep(step) && !s.stop {
      ReaderConserves(s, step);
    }
  }

  lemma {:induction false} RunKeepsInv(s: Pipe, steps: seq<Step>)
    requires Inv(s) && CanRun(s, steps)
    ensures Inv(Final(s, steps))
    decreases |steps|
  {
    if steps != [] {
      StepKeepsInv(s, steps[0]);
      RunKeepsInv(Apply(s, steps[0]), steps[1..]);
    }
  }

  /**
   Every run, whatever the interleaving: the queue stays bounded and so does the reader's lead over a present
   consumer; the consumer has got an in-order prefix of the chunks read; a normal end means that all chunks up to
   the end of the stream were delivered and nothing failed; an error is the reader's own, after all its chunks.
   */
  lemma {:induction false} RunsAreSafe(steps: seq<Step>)
    requires CanRun(START, steps)
    ensures var s := Final(START, steps);
            && |s.queue| <= MAX_CHUNKS
            && s.yielded <= s.chunks
            && (!s.stop ==> |s.chunks| <= |s.yielded| + MAX_CHUNKS + 1)
            && (s.consumer.Finished? ==> s.eof && s.cause.None? && s.yielded == s.chunks)
            && (s.consumer.Raised? ==>
                  s.cause.Some? && !s.eof && s.consumer.error == Reported(s.cause.value) && s.yielded == s.chunks)
  {
    StartIsInv();
    RunKeepsInv(START, steps);
    var s := Final(START, steps);
    if !s.stop {
      assert |AsData(s.yielded) + InFlight(s)| == |Account(s)|;
    }
  }

  /**
   Of the timeouts that reach a caller, those while reading a chunk or the body of a refused open are network timeouts,
   and that of the opening itself looks like any transport error; nothing else looks like a network timeout.
   */
  lemma {:induction false} NetworkTimeoutIff(steps: seq<Step>)
    requires CanRun(START, steps) && Final(START, steps).consumer.Raised?
    ensures var s := Final(START, steps);
            && s.cause.Some?
            && (s.consumer.error.NetworkTimeout? <==> s.cause.value.ReadTimedOut? || s.cause.value.RefusalTimedOut?)
            && (IsTimeout(s.cause.value) ==> (s.consumer.error.TransportError? <==> s.cause.value.OpenTimedOut?))
  {
    RunsAreSafe(steps);
  }

  /** Opening times out, the failure travels through the queue, and the consumer sees no timeout. */
  lemma {:induction false} OpenTimeoutIsMasked()
    ensures var steps := [OpenRaises(OpenTimedOut), Land, Get];
            && CanRun(START, steps)
            && Final(START, steps).cause == Some(OpenTimedOut) && Final(START, steps).consumer == Raised(TransportError)
  {
    var steps := [OpenRaises(OpenTimedOut), Land, Get];
    var s1 := Apply(START, OpenRaises(OpenTimedOut));
    var s2 := Apply(s1, Land);
    assert steps[1..] == [Land, Get] && steps[1..][1..] == [Get] && steps[1..][1..][1..] == [];
    assert CanRun(s2, [Get]) && CanRun(s1, [Land, Get]);
  }

  /** A refused open whose body times out, by contrast, reaches the consumer as a network timeout. */
  lemma {:induction false} RefusalTimeoutIsReported()
    ensures var steps := [OpenRaises(RefusalTimedOut), Land, Get];
            CanRun(START, steps) && Final(START, steps).consumer == Raised(NetworkTimeout)
  {
    var steps := [OpenRaises(RefusalTimedOut), Land, Get];
    var s1 := Apply(START, OpenRaises(RefusalTimedOut));
    var s2 := Apply(s1, Land);
    assert steps[1..] == [Land, Get] && steps[1..][1..] == [Get] && steps[1..][1..][1..] == [];
    assert CanRun(s2, [Get]) && CanRun(s1, [Land, Get]);
  }

  // ---------- shutdown ----------

  /** How many more steps the reader can take once it has been asked to stop. */
  function StepsLeft(r: Reader): nat {
    match r
    case Opening => 8
    case Reading => 7
    case Putting(_, next) => (match next case ToLoop => 6 case ToFinally => 5 case ToDone => 2)
    case Landed(next) => (match next case ToLoop => 5 case ToFinally => 4 case ToDone => 1)
    case Checking => 4
    case Closing => 3
    case Done => 0
  }

  predicate IsRead(step: Step) {
    step.ReadChunk? || step.ReadNothing? || step.ReadRaises?
  }

  ghost function Count(steps: seq<Step>, p: Step -> bool): nat {
    if steps == [] then 0 else (if p(steps[0]) then 1 else 0) + Count(steps[1..], p)
  }

  /** Reads still to come once stopping: one at most, and only if the reader is already inside it. */
  function ReadsLeft(r: Reader): nat {
    if r.Reading? then 1 else 0
  }

  /** Waits for a full queue still to come: for the chunk or failure at hand and for the end mark. */
  function WaitsLeft(r: Reader): nat {
    match r
    case Putting(_, next) => if next.ToDone? then 1 else 2
    case Landed(next) => if next.ToDone? then 0 else 1
    case Opening => 2
    case Reading => 2
    case Checking => 1
    case Closing => 1
    case Done => 0
  }

  /** After a stop every step of the reader uses up its allowance, and nothing gives it back. */
  lemma {:induction false} StoppingIsFinite(s: Pipe, steps: seq<Step>)
    requires s.stop && CanRun(s, steps)
    ensures Final(s, steps).stop
    ensures Count(steps, IsReaderStep) + StepsLeft(Final(s, steps).reader) <= StepsLeft(s.reader) <= 8
    ensures Count(steps, IsRead) <= ReadsLeft(s.reader) <= 1
    ensures Count(steps, (step: Step) => step.WaitTimesOut?) <= WaitsLeft(s.reader) <= 2
    decreases |steps|
  {
    if steps != [] {
      StoppingIsFinite(Apply(s, steps[0]), steps[1..]);
    }
  }

  /** The reader is never stuck once stopping: until it is done a step of its own is possible, queue full or not. */
  lemma {:induction false} StoppingReaderCanMove(s: Pipe)
    requires s.stop && !s.reader.Done?
    ensures exists step :: Enabled(s, step) && IsReaderStep(step)
                           && StepsLeft(Apply(s, step).reader) < StepsLeft(s.reader)
  {
    var step := match s.reader
      case Opening => Opened
      case Checking => Check
      case Reading => ReadNothing
      case Putting(_, _) => WaitTimesOut
      case Landed(_) => Notice
      case Closing => Close
      case Done => Leave;
    assert Enabled(s, step) && IsReaderStep(step) && StepsLeft(Apply(s, step).reader) < StepsLeft(s.reader);
  }

  /** A waiting consumer is never stranded: an item is there, or the reader can still move it along. */
  lemma {:induction false} ConsumerIsNotStranded(s: Pipe)
    requires Inv(s) && s.consumer.Running? && s.queue == []
    ensures !s.reader.Done?
    ensures s.reader.Putting? ==> Enabled(s, Land)
    ensures s.reader.Landed? ==> !s.reader.next.ToDone?
  {
    if IsLast(s.reader) {
      var account := Account(s);
      assert account[|account| - 1] == End;
      assert (AsData(s.yielded) + InFlight(s))[|account| - 1] == End;
    }
  }
}
