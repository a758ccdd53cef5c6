/**
 The event stream over many connections: parsing, classification, the stop at GoAway, and the reconnect budget
 that refills whenever data arrives.
 */
module StreamSession {
  import opened Text
  import opened Json
  import opened JsonValue
  import opened Utf8
  import opened StreamParser
  import opened ChunkIndependence
  import opened RateLimit
  import opened Reals

  datatype Kind = Data | EndSnapshot | GoAway | Heartbeat | Error

  datatype Event = Event(kind: Kind, payload: Value)

  /** What ends a connection early. */
  datatype Failure =
    | AuthenticationFailure
    | ConfigurationFailure
    | RateLimited(retryAfter: Option<real>)
    | ApiFailure(status: int)
    | OtherFailure

  datatype Ending = Eof | Broken(failure: Failure)

  datatype Connection = Connection(chunks: seq<Chunk>, ending: Ending)

  const MARKET_DATA_KEYS: seq<string> := [
    "Symbol", "Bid", "Ask", "Last", "Close", "TimeStamp", "Bids", "Asks", "BidLevels", "AskLevels", "Side",
    "Price", "Size", "Entries"]

  predicate Has(payload: Value, key: string) {
    payload.Dict? && PointsOf(key) in payload.members
  }

  predicate HasStatus(payload: Value, status: string) {
    Has(payload, "StreamStatus") && payload.members[PointsOf("StreamStatus")] == JsonValue.Value.Text(PointsOf(status))
  }

  predicate LooksLikeMarketData(payload: Value) {
    exists i | 0 <= i < |MARKET_DATA_KEYS| :: Has(payload, MARKET_DATA_KEYS[i])
  }

  function Classify(payload: Value): Event {
    if HasStatus(payload, "EndSnapshot") then Event(EndSnapshot, payload)
    else if HasStatus(payload, "GoAway") then Event(GoAway, payload)
    else if Has(payload, "Heartbeat") then Event(Heartbeat, payload)
    else if Has(payload, "Error") || (Has(payload, "Message") && !LooksLikeMarketData(payload)) then
      Event(Error, payload)
    else Event(Data, payload)
  }

  // ---------- one connection ----------

  /** Why the reading of a connection stopped. */
  datatype Stop = Exhausted | SawGoAway | SawError | ParseFailed

  datatype Reading = Reading(events: seq<Event>, stop: Stop)

  /** Messages in order, up to and including the first GoAway, or up to an error event that is to be raised. */
  function Deliver(messages: seq<Value>, raiseOnError: bool): Reading {
    if messages == [] then Reading([], Exhausted)
    else
      var e := Classify(messages[0]);
      if raiseOnError && e.kind.Error? then Reading([], SawError)
      else if e.kind.GoAway? then Reading([e], SawGoAway)
      else Resume([e], Deliver(messages[1..], raiseOnError))
  }

  function Resume(events: seq<Event>, r: Reading): Reading { r.(events := events + r.events) }

  /** A connection read chunk by chunk: a chunk is parsed whole before any of its messages is looked at. */
  function ReadChunks(st: Buffered, chunks: seq<Chunk>, raiseOnError: bool): Reading
    decreases |chunks|
  {
    if chunks == [] then Reading([], Exhausted)
    else
      var fed := Feed(st, chunks[0]);
      if fed.Raised? then Reading([], ParseFailed)
      else
        var r := Deliver(fed.messages, raiseOnError);
        if !r.stop.Exhausted? then r else Resume(r.events, ReadChunks(fed.state, chunks[1..], raiseOnError))
  }

  lemma {:induction false} ResumeTwice(a: seq<Event>, b: seq<Event>, r: Reading)
    ensures Resume(a, Resume(b, r)) == Resume(a + b, r)
  {
    assert a + (b + r.events) == (a + b) + r.events;
  }

  lemma {:induction false} DeliverConcat(a: seq<Value>, b: seq<Value>, raiseOnError: bool)
    ensures Deliver(a + b, raiseOnError) ==
            var r := Deliver(a, raiseOnError);
            if r.stop.Exhausted? then Resume(r.events, Deliver(b, raiseOnError)) else r
  {
    if a == [] {
      assert a + b == b;
      assert [] + Deliver(b, raiseOnError).events == Deliver(b, raiseOnError).events;
    } else {
      assert (a + b)[1..] == a[1..] + b;
      DeliverConcat(a[1..], b, raiseOnError);
      var tail := Deliver(a[1..], raiseOnError);
      ResumeTwice([Classify(a[0])], tail.events, Deliver(b, raiseOnError));
    }
  }

  /**
   Reading a connection chunk by chunk delivers what the messages parsed from its chunks deliver; a parse failure
   ends the reading only if nothing before it did.
   */
  lemma {:induction false} ReadingIsDelivery(st: Buffered, chunks: seq<Chunk>, raiseOnError: bool)
    ensures var run := FeedAll(st, chunks);
            var r := Deliver(run.messages, raiseOnError);
            ReadChunks(st, chunks, raiseOnError) ==
              if r.stop.Exhausted? && run.raised then Reading(r.events, ParseFailed) else r
    decreases |chunks|
  {
    if chunks != [] {
      var fed := Feed(st, chunks[0]);
      if fed.Fed? {
        ReadingIsDelivery(fed.state, chunks[1..], raiseOnError);
        DeliverConcat(fed.messages, FeedAll(fed.state, chunks[1..]).messages, raiseOnError);
      }
    }
  }

  /**
   The events of a connection that carried part of a well-formed stream: those of the objects complete in the
   characters received, up to and including the first GoAway, however the bytes were cut into chunks.
   */
  lemma {:induction false} ConnectionEvents(
    gaps: seq<string>, objects: seq<Json>, chunks: seq<seq<Byte>>, raiseOnError: bool)
    requires IsStream(gaps, objects) && Join(chunks) <= Encode(StreamText(gaps, objects))
    ensures Decode(Join(chunks)).Decoded?
    ensures ReadChunks(INITIAL, AsChunks(chunks), raiseOnError) ==
            Deliver(Values(objects[..CompleteWithin(gaps, objects, |Decode(Join(chunks)).text|)]), raiseOnError)
  {
    StreamInAnyChunks(gaps, objects, chunks);
    ReadingIsDelivery(INITIAL, AsChunks(chunks), raiseOnError);
  }

  /** `Deliver` cuts at the first GoAway: only the last event can be one, and all before it was delivered. */
  lemma {:induction false} DeliverStopsAtGoAway(messages: seq<Value>, raiseOnError: bool)
    ensures var r := Deliver(messages, raiseOnError);
            && |r.events| <= |messages|
            && (forall i | 0 <= i < |r.events| :: r.events[i] == Classify(messages[i]))
            && (forall i | 0 <= i < |r.events| - 1 :: !r.events[i].kind.GoAway?)
            && (r.stop.SawGoAway? <==> r.events != [] && r.events[|r.events| - 1].kind.GoAway?)
            && (r.stop.Exhausted? ==> |r.events| == |messages|)
            && (r.stop.SawError? <==>
                  raiseOnError && |r.events| < |messages| && Classify(messages[|r.events|]).kind.Error?
                  && (r.events == [] || !r.events[|r.events| - 1].kind.GoAway?))
  {
    if messages != [] {
      DeliverStopsAtGoAway(messages[1..], raiseOnError);
    }
  }

  // ---------- the session ----------

  /** One visible act of the session: a connection next, an event yielded, or a wait before reconnecting. */
  datatype Act =
    | Open
    | Yield(event: Event)
    | Wait(number: int, delay: real)

  datatype Outcome =
    | Finished
    | StreamError
    | StreamParseError
    | Raised(failure: Failure)
    | Running

  datatype Session = Session(acts: seq<Act>, outcome: Outcome)

  /** What the session does once a connection is over. */
  datatype Verdict = Stop(outcome: Outcome) | Reconnect(retryAfter: Option<real>, ifSpent: Outcome)

  function VerdictOf(stop: Stop, ending: Ending): Verdict {
    match stop
    case ParseFailed => Verdict.Stop(StreamParseError)
    case SawError => Verdict.Stop(StreamError)
    case SawGoAway => Reconnect(None, Finished)
    case Exhausted =>
      match ending
      case Eof => Verdict.Stop(Finished)
      case Broken(AuthenticationFailure) => Verdict.Stop(Outcome.Raised(AuthenticationFailure))
      case Broken(ConfigurationFailure) => Verdict.Stop(Outcome.Raised(ConfigurationFailure))
      case Broken(RateLimited(retryAfter)) => Reconnect(retryAfter, Outcome.Raised(ending.failure))
      case Broken(ApiFailure(status)) =>
        if 400 <= status < 500 then Verdict.Stop(Outcome.Raised(ending.failure))
        else Reconnect(None, Outcome.Raised(ending.failure))
      case Broken(OtherFailure) => Reconnect(None, Outcome.Raised(ending.failure))
  }

  function Yields(events: seq<Event>): seq<Act> {
    seq(|events|, i requires 0 <= i < |events| => Yield(events[i]))
  }

  /** Reconnects that count after these events: any event but GoAway resets the count. */
  function CountAfter(reconnects: nat, events: seq<Event>): nat
    decreases |events|
  {
    if events == [] then reconnects
    else CountAfter(if events[0].kind.GoAway? then reconnects else 0, events[1..])
  }

  /** One turn of the session: over, or the waiting done and the count of reconnects so far. */
  datatype Turn = Over(acts: seq<Act>, outcome: Outcome) | Again(acts: seq<Act>, count: nat)

  function TurnAfter(r: Reading, ending: Ending, reconnects: nat, p: ReconnectPolicy): Turn {
    var acts := [Open] + Yields(r.events);
    var count := CountAfter(reconnects, r.events);
    match VerdictOf(r.stop, ending)
    case Stop(outcome) => Over(acts, outcome)
    case Reconnect(retryAfter, ifSpent) =>
      if count >= p.maxReconnects then Over(acts, ifSpent)
      else Again(acts + [Wait(count + 1, DelayForReconnect(p, count + 1, retryAfter))], count + 1)
  }

  /** The session over the connections that the source will hand out; `Running` when it wants one more. */
  function RunSession(source: seq<Connection>, reconnects: nat, p: ReconnectPolicy, raiseOnError: bool): Session
    decreases |source|
  {
    if source == [] then Session([], Running)
    else
      var turn := TurnAfter(ReadChunks(INITIAL, source[0].chunks, raiseOnError), source[0].ending, reconnects, p);
      if turn.Over? then Session(turn.acts, turn.outcome)
      else Follow(turn.acts, RunSession(source[1..], turn.count, p, raiseOnError))
  }

  function Follow(acts: seq<Act>, s: Session): Session { s.(acts := acts + s.acts) }

  lemma {:induction false} FollowTwice(a: seq<Act>, b: seq<Act>, s: Session)
    ensures Follow(a, Follow(b, s)) == Follow(a + b, s)
  {
    assert a + (b + s.acts) == (a + b) + s.acts;
  }

  lemma {:induction false} FirstTurn(
    source: seq<Connection>, reconnects: nat, p: ReconnectPolicy, raiseOnError: bool, turn: Turn)
    requires source != []
    requires turn == TurnAfter(ReadChunks(INITIAL, source[0].chunks, raiseOnError), source[0].ending, reconnects, p)
    ensures RunSession(source, reconnects, p, raiseOnError) ==
            if turn.Over? then Session(turn.acts, turn.outcome)
            else Follow(turn.acts, RunSession(source[1..], turn.count, p, raiseOnError))
  {
  }

  lemma {:induction false} NextTurn(
    acts: seq<Act>, source: seq<Connection>, next: nat, reconnects: nat, p: ReconnectPolicy,
                 raiseOnError: bool, turn: Turn)
    requires next < |source|
    requires turn ==
             TurnAfter(ReadChunks(INITIAL, source[next].chunks, raiseOnError), source[next].ending, reconnects, p)
    ensures Follow(acts, RunSession(source[next..], reconnects, p, raiseOnError)) ==
            if turn.Over? then Session(acts + turn.acts, turn.outcome)
            else Follow(acts + turn.acts, RunSession(source[next + 1..], turn.count, p, raiseOnError))
  {
    assert source[next..][0] == source[next] && source[next..][1..] == source[next + 1..];
    FirstTurn(source[next..], reconnects, p, raiseOnError, turn);
    if turn.Again? {
      FollowTwice(acts, turn.acts, RunSession(source[next + 1..], turn.count, p, raiseOnError));
    }
  }

  /** The event generator as the source writes it, with the connections handed out by the chunk source. */
  class TradeStationStream {
    const policy: ReconnectPolicy
    const raiseOnError: bool

    constructor (policy: ReconnectPolicy, raiseOnError: bool)
      ensures this.policy == policy && this.raiseOnError == raiseOnError
    {
      this.policy := policy;
      this.raiseOnError := raiseOnError;
    }

    method Events(source: seq<Connection>) returns (session: Session)
      ensures session == RunSession(source, 0, policy, raiseOnError)
    {
      var acts: seq<Act> := [];
      var reconnects: nat := 0;
      var next := 0;
      while next < |source|
        invariant next <= |source|
        invariant RunSession(source, 0, policy, raiseOnError) ==
                  Follow(acts, RunSession(source[next..], reconnects, policy, raiseOnError))
      {
        var connection := source[next];
        var parser := new JsonStreamParser();
        var r := ReadConnection(parser, connection.chunks);
        var turn := Decide(r, connection.ending, reconnects);
        NextTurn(acts, source, next, reconnects, policy, raiseOnError, turn);
        if turn.Over? {
          return Session(acts + turn.acts, turn.outcome);
        }
        acts := acts + turn.acts;
        reconnects := turn.count;
        next := next + 1;
      }
      assert source[next..] == [] && acts + [] == acts;
      return Session(acts, Running);
    }

    /** The end of a connection: return, raise, or wait and count one more reconnect. */
    method Decide(r: Reading, ending: Ending, count: nat) returns (turn: Turn)
      ensures turn == TurnAfter(r, ending, count, policy)
    {
      var acts := [Open] + Yields(r.events);
      var reconnects := CountAfter(count, r.events);
      match VerdictOf(r.stop, ending) {
        case Stop(outcome) =>
          return Over(acts, outcome);
        case Reconnect(retryAfter, ifSpent) =>
          if reconnects >= policy.maxReconnects {
            return Over(acts, ifSpent);
          }
          reconnects := reconnects + 1;
          return Again(acts + [Wait(reconnects, DelayForReconnect(policy, reconnects, retryAfter))], reconnects);
      }
    }

    /** The two inner loops: chunks of the connection, messages of the chunk. */
    method ReadConnection(parser: JsonStreamParser, chunks: seq<Chunk>) returns (r: Reading)
      modifies parser
      ensures r == ReadChunks(old(parser.Contents()), chunks, raiseOnError)
    {
      var events: seq<Event> := [];
      var next := 0;
      while next < |chunks|
        invariant next <= |chunks|
        invariant ReadChunks(old(parser.Contents()), chunks, raiseOnError) ==
                  Resume(events, ReadChunks(parser.Contents(), chunks[next..], raiseOnError))
      {
        assert chunks[next..][0] == chunks[next] && chunks[next..][1..] == chunks[next + 1..];
        var fed := parser.FeedChunk(chunks[next]);
        if fed.Raised? {
          assert events + [] == events;
          return Reading(events, ParseFailed);
        }
        var delivered := DeliverMessages(fed.messages);
        ResumeTwice(events, delivered.events, ReadChunks(fed.state, chunks[next + 1..], raiseOnError));
        events := events + delivered.events;
        if !delivered.stop.Exhausted? {
          return Reading(events, delivered.stop);
        }
        next := next + 1;
      }
      assert chunks[next..] == [] && events + [] == events;
      return Reading(events, Exhausted);
    }

    method DeliverMessages(messages: seq<Value>) returns (r: Reading)
      ensures r == Deliver(messages, raiseOnError)
    {
      var events: seq<Event> := [];
      var i := 0;
      while i < |messages|
        invariant i <= |messages|
        invariant Deliver(messages, raiseOnError) == Resume(events, Deliver(messages[i..], raiseOnError))
      {
        assert messages[i..][0] == messages[i] && messages[i..][1..] == messages[i + 1..];
        var event := Classify(messages[i]);
        if raiseOnError && event.kind.Error? {
          assert events + [] == events;
          return Reading(events, SawError);
        }
        ResumeTwice(events, [event], Deliver(messages[i + 1..], raiseOnError));
        events := events + [event];
        if event.kind.GoAway? {
          return Reading(events, SawGoAway);
        }
        i := i + 1;
      }
      assert messages[i..] == [] && events + [] == events;
      return Reading(events, Exhausted);
    }
  }

  // ---------- chunking is invisible to a whole session ----------

  /** A connection that carried the first bytes of a well-formed stream in some chunks. */
  datatype Wire = Wire(gaps: seq<string>, objects: seq<Json>, chunks: seq<seq<Byte>>, ending: Ending)

  ghost predicate IsWire(w: Wire) {
    IsStream(w.gaps, w.objects) && Join(w.chunks) <= Encode(StreamText(w.gaps, w.objects))
  }

  ghost predicate AreWires(wires: seq<Wire>) {
    wires == [] || (IsWire(wires[0]) && AreWires(wires[1..]))
  }

  function Wired(wires: seq<Wire>): seq<Connection> {
    seq(|wires|, i requires 0 <= i < |wires| => Connection(AsChunks(wires[i].chunks), wires[i].ending))
  }

  ghost function WireMessages(w: Wire): seq<Value>
    requires IsWire(w)
  {
    PrefixIsFed(w.gaps, w.objects, Join(w.chunks));
    Values(w.objects[..CompleteWithin(w.gaps, w.objects, |Decode(Join(w.chunks)).text|)])
  }

  /** The session that sees each connection as the list of its complete objects. */
  ghost function IdealSession(wires: seq<Wire>, reconnects: nat, p: ReconnectPolicy, raiseOnError: bool): Session
    requires AreWires(wires)
    decreases |wires|
  {
    if wires == [] then Session([], Running)
    else
      var turn := TurnAfter(Deliver(WireMessages(wires[0]), raiseOnError), wires[0].ending, reconnects, p);
      if turn.Over? then Session(turn.acts, turn.outcome)
      else Follow(turn.acts, IdealSession(wires[1..], turn.count, p, raiseOnError))
  }

  /**
   Event refinement: over all its connections a session of well-formed streams does exactly what it would do on
   the lists of complete objects.  Cutting, truncation inside an object and later messages leave no trace.
   */
  lemma {:induction false} SessionRefinesIdeal(
    wires: seq<Wire>, reconnects: nat, p: ReconnectPolicy, raiseOnError: bool)
    requires AreWires(wires)
    ensures RunSession(Wired(wires), reconnects, p, raiseOnError) == IdealSession(wires, reconnects, p, raiseOnError)
    decreases |wires|
  {
    if wires != [] {
      var reading := Deliver(WireMessages(wires[0]), raiseOnError);
      WireReading(wires[0], raiseOnError);
      FirstWire(wires, reconnects, p, raiseOnError, reading);
      var turn := TurnAfter(reading, wires[0].ending, reconnects, p);
      if turn.Again? {
        SessionRefinesIdeal(wires[1..], turn.count, p, raiseOnError);
      }
    }
  }

  lemma {:induction false} FirstWire(
    wires: seq<Wire>, reconnects: nat, p: ReconnectPolicy, raiseOnError: bool, reading: Reading)
    requires wires != [] && reading == ReadChunks(INITIAL, AsChunks(wires[0].chunks), raiseOnError)
    ensures var turn := TurnAfter(reading, wires[0].ending, reconnects, p);
            RunSession(Wired(wires), reconnects, p, raiseOnError) ==
              if turn.Over? then Session(turn.acts, turn.outcome)
              else Follow(turn.acts, RunSession(Wired(wires[1..]), turn.count, p, raiseOnError))
  {
    WiredCons(wires);
    FirstReading(Wired(wires), Wired(wires[1..]), reconnects, p, raiseOnError, reading);
  }

  lemma {:induction false} WiredCons(wires: seq<Wire>)
    requires wires != []
    ensures var source := Wired(wires);
            source != [] && source[1..] == Wired(wires[1..])
            && source[0] == Connection(AsChunks(wires[0].chunks), wires[0].ending)
  {
  }

  lemma {:induction false} FirstReading(
    source: seq<Connection>, rest: seq<Connection>, reconnects: nat, p: ReconnectPolicy,
                                        raiseOnError: bool, reading: Reading)
    requires source != [] && rest == source[1..] && reading == ReadChunks(INITIAL, source[0].chunks, raiseOnError)
    ensures var turn := TurnAfter(reading, source[0].ending, reconnects, p);
            RunSession(source, reconnects, p, raiseOnError) ==
              if turn.Over? then Session(turn.acts, turn.outcome)
              else Follow(turn.acts, RunSession(rest, turn.count, p, raiseOnError))
  {
    FirstTurn(source, reconnects, p, raiseOnError, TurnAfter(reading, source[0].ending, reconnects, p));
  }

  lemma {:induction false} WireReading(w: Wire, raiseOnError: bool)
    requires IsWire(w)
    ensures ReadChunks(INITIAL, AsChunks(w.chunks), raiseOnError) == Deliver(WireMessages(w), raiseOnError)
  {
    ConnectionEvents(w.gaps, w.objects, w.chunks, raiseOnError);
  }

  // ---------- the reconnect budget ----------

  /**
   The acts of a session, checked against a counter of reconnects since the last event that was not GoAway: each
   wait carries the next number, never above the limit.
   */
  ghost predicate WellNumbered(acts: seq<Act>, count: nat, most: int) {
    acts == [] ||
    match acts[0] {
      case Open => WellNumbered(acts[1..], count, most)
      case Yield(e) => WellNumbered(acts[1..], if e.kind.GoAway? then count else 0, most)
      case Wait(number, _) => number == count + 1 <= most && WellNumbered(acts[1..], number, most)
    }
  }

  lemma {:induction false} WellNumberedYields(events: seq<Event>, tail: seq<Act>, count: nat, most: int)
    requires WellNumbered(tail, CountAfter(count, events), most)
    ensures WellNumbered(Yields(events) + tail, count, most)
    decreases |events|
  {
    if events == [] {
      assert Yields(events) + tail == tail;
    } else {
      var rest := Yields(events[1..]) + tail;
      assert Yields(events) + tail == [Yield(events[0])] + rest;
      assert (Yields(events) + tail)[1..] == rest;
      WellNumberedYields(events[1..], tail, if events[0].kind.GoAway? then count else 0, most);
    }
  }

  lemma {:induction false} TurnIsWellNumbered(
    r: Reading, ending: Ending, count: nat, p: ReconnectPolicy, tail: seq<Act>)
    requires var turn := TurnAfter(r, ending, count, p); turn.Again? ==> WellNumbered(tail, turn.count, p.maxReconnects)
    requires TurnAfter(r, ending, count, p).Over? ==> tail == []
    ensures WellNumbered(TurnAfter(r, ending, count, p).acts + tail, count, p.maxReconnects)
  {
    var turn := TurnAfter(r, ending, count, p);
    var after := if turn.Over? then [] else [turn.acts[|turn.acts| - 1]] + tail;
    assert turn.Again? ==> after[1..] == tail;
    WellNumberedYields(r.events, after, count, p.maxReconnects);
    var acts := [Open] + (Yields(r.events) + after);
    assert turn.acts + tail == acts && acts[1..] == Yields(r.events) + after;
  }

  lemma {:induction false} SessionIsWellNumbered(
    source: seq<Connection>, count: nat, p: ReconnectPolicy, raiseOnError: bool)
    ensures WellNumbered(RunSession(source, count, p, raiseOnError).acts, count, p.maxReconnects)
    decreases |source|
  {
    if source != [] {
      var r := ReadChunks(INITIAL, source[0].chunks, raiseOnError);
      var turn := TurnAfter(r, source[0].ending, count, p);
      var tail: seq<Act> := [];
      if turn.Again? {
        SessionIsWellNumbered(source[1..], turn.count, p, raiseOnError);
        tail := RunSession(source[1..], turn.count, p, raiseOnError).acts;
      }
      TurnIsWellNumbered(r, source[0].ending, count, p, tail);
      assert turn.acts + [] == turn.acts;
    }
  }

  function Opens(acts: seq<Act>): nat {
    if acts == [] then 0 else (if acts[0].Open? then 1 else 0) + Opens(acts[1..])
  }

  /** Events yielded that are not GoAway. */
  function DataEvents(acts: seq<Act>): nat {
    if acts == [] then 0
    else (if acts[0].Yield? && !acts[0].event.kind.GoAway? then 1 else 0) + DataEvents(acts[1..])
  }

  lemma {:induction false} CountsConcat(a: seq<Act>, b: seq<Act>)
    ensures Opens(a + b) == Opens(a) + Opens(b) && DataEvents(a + b) == DataEvents(a) + DataEvents(b)
  {
    if a == [] {
      assert a + b == b;
    } else {
      assert (a + b)[1..] == a[1..] + b;
      CountsConcat(a[1..], b);
    }
  }

  lemma {:induction false} CountsOfYields(events: seq<Event>, count: nat)
    ensures Opens(Yields(events)) == 0
    ensures CountAfter(count, events) == if DataEvents(Yields(events)) == 0 then count else CountAfter(0, events)
    decreases |events|
  {
    if events != [] {
      assert Yields(events)[1..] == Yields(events[1..]);
      CountsOfYields(events[1..], if events[0].kind.GoAway? then count else 0);
      CountsOfYields(events[1..], 0);
    }
  }

  lemma {:induction false} CountFromZero(events: seq<Event>)
    ensures CountAfter(0, events) == 0
    decreases |events|
  {
    if events != [] {
      CountFromZero(events[1..]);
    }
  }

  /** A turn opens once; if it goes on, the count is one more than before, or one after fresh data. */
  lemma {:induction false} TurnCounts(r: Reading, ending: Ending, count: nat, p: ReconnectPolicy)
    ensures var turn := TurnAfter(r, ending, count, p);
            && Opens(turn.acts) == 1
            && (turn.Again? ==> turn.count <= p.maxReconnects
                                && turn.count == if DataEvents(turn.acts) == 0 then count + 1 else 1)
  {
    var turn := TurnAfter(r, ending, count, p);
    CountsConcat([Open], Yields(r.events));
    CountsOfYields(r.events, count);
    CountFromZero(r.events);
    assert Opens([Open]) == 1 && DataEvents([Open]) == 0;
    if turn.Again? {
      var wait := turn.acts[|turn.acts| - 1];
      assert turn.acts == ([Open] + Yields(r.events)) + [wait];
      CountsConcat([Open] + Yields(r.events), [wait]);
      assert Opens([wait]) == 0 && DataEvents([wait]) == 0;
    }
  }

  /** The endings after which the session asks for another connection, budget permitting. */
  predicate IsTransient(stop: Stop, ending: Ending) {
    || stop.SawGoAway?
    || (stop.Exhausted? && ending.Broken? &&
        match ending.failure
        case RateLimited(_) => true
        case ApiFailure(status) => status < 400 || 500 <= status
        case OtherFailure => true
        case _ => false)
  }

  ghost predicate IsSanePolicy(p: ReconnectPolicy) {
    p.baseDelay >= 0.0 && p.maxDelay >= 0.0 && p.retryAfterCeiling >= 0.0
  }

  /**
   What each ending of a connection leads to: one more connection exactly after a transient ending with budget left,
   after a wait that is counted and bounded; otherwise a normal end, or the very failure that ended the connection.
   */
  lemma {:induction false} EndingsAreClassified(r: Reading, ending: Ending, count: nat, p: ReconnectPolicy)
    ensures var turn := TurnAfter(r, ending, count, p);
            && (turn.Again? <==> IsTransient(r.stop, ending) && CountAfter(count, r.events) < p.maxReconnects)
            && (turn.Over? ==>
                  && (turn.outcome == Finished <==> (r.stop.Exhausted? && ending.Eof?) || r.stop.SawGoAway?)
                  && (turn.outcome == StreamParseError <==> r.stop.ParseFailed?)
                  && (turn.outcome == StreamError <==> r.stop.SawError?)
                  && (r.stop.Exhausted? && ending.Broken? ==> turn.outcome == Outcome.Raised(ending.failure)))
    ensures var turn := TurnAfter(r, ending, count, p);
            turn.Again? && IsSanePolicy(p) ==>
              var wait := turn.acts[|turn.acts| - 1];
              wait.Wait? && wait.number == turn.count && 0.0 <= wait.delay <= Max(p.retryAfterCeiling, p.maxDelay)
  {
    var number := CountAfter(count, r.events) + 1;
    if IsSanePolicy(p) {
      BackoffIsBounded(p.baseDelay, p.maxDelay, number);
    }
  }

  /** The outcome of a session that stopped after a connection with this reading and this ending. */
  predicate IsOutcomeOf(stop: Stop, ending: Ending, outcome: Outcome) {
    match outcome
    case Running => false
    case Finished => (stop.Exhausted? && ending.Eof?) || stop.SawGoAway?
    case StreamError => stop.SawError?
    case StreamParseError => stop.ParseFailed?
    case Raised(failure) => stop.Exhausted? && ending == Broken(failure)
  }

  ghost predicate EndsTransiently(source: seq<Connection>, i: nat, raiseOnError: bool)
    requires i < |source|
  {
    IsTransient(ReadChunks(INITIAL, source[i].chunks, raiseOnError).stop, source[i].ending)
  }

  ghost predicate EndsAs(source: seq<Connection>, i: nat, raiseOnError: bool, outcome: Outcome)
    requires i < |source|
  {
    IsOutcomeOf(ReadChunks(INITIAL, source[i].chunks, raiseOnError).stop, source[i].ending, outcome)
  }

  /**
   `opens` connections were used in turn: all but the last ended in a transient way, and the last one as the outcome
   says; a session that still runs has used all it was given, and all ended in that way.
   */
  ghost predicate IsExplained(source: seq<Connection>, opens: nat, raiseOnError: bool, outcome: Outcome) {
    && opens <= |source|
    && (forall i: nat | i < opens - 1 :: EndsTransiently(source, i, raiseOnError))
    && (if outcome.Running? then
          opens == |source| && (opens > 0 ==> EndsTransiently(source, opens - 1, raiseOnError))
        else opens > 0 && EndsAs(source, opens - 1, raiseOnError, outcome))
  }

  lemma {:induction false} ExplainedCons(source: seq<Connection>, opens: nat, raiseOnError: bool, outcome: Outcome)
    requires source != [] && EndsTransiently(source, 0, raiseOnError)
    requires IsExplained(source[1..], opens, raiseOnError, outcome)
    ensures IsExplained(source, opens + 1, raiseOnError, outcome)
  {
    var rest := source[1..];
    forall i: nat | i < |rest|
      ensures EndsTransiently(source, i + 1, raiseOnError) <==> EndsTransiently(rest, i, raiseOnError)
      ensures EndsAs(source, i + 1, raiseOnError, outcome) <==> EndsAs(rest, i, raiseOnError, outcome)
    {
      assert rest[i] == source[i + 1];
    }
    forall i: nat | i < opens
      ensures EndsTransiently(source, i, raiseOnError)
    {
      if i > 0 {
        assert i - 1 < opens - 1 && EndsTransiently(rest, i - 1, raiseOnError);
      }
    }
  }

  lemma {:induction false} FirstIsExplained(
    source: seq<Connection>, count: nat, p: ReconnectPolicy, raiseOnError: bool, r: Reading)
    requires source != [] && r == ReadChunks(INITIAL, source[0].chunks, raiseOnError)
    ensures var turn := TurnAfter(r, source[0].ending, count, p);
            && Opens(turn.acts) == 1
            && (turn.Again? ==> EndsTransiently(source, 0, raiseOnError))
            && (turn.Over? ==> IsExplained(source, 1, raiseOnError, turn.outcome))
  {
    TurnCounts(r, source[0].ending, count, p);
    EndingsAreClassified(r, source[0].ending, count, p);
  }

  /** Every session explains itself by how the connections that it opened have ended. */
  lemma {:induction false} OutcomeIsLastEnding(
    source: seq<Connection>, count: nat, p: ReconnectPolicy, raiseOnError: bool)
    ensures var s := RunSession(source, count, p, raiseOnError);
            IsExplained(source, Opens(s.acts), raiseOnError, s.outcome)
    decreases |source|
  {
    if source != [] {
      var r := ReadChunks(INITIAL, source[0].chunks, raiseOnError);
      var turn := TurnAfter(r, source[0].ending, count, p);
      FirstTurn(source, count, p, raiseOnError, turn);
      FirstIsExplained(source, count, p, raiseOnError, r);
      if turn.Again? {
        var rest := RunSession(source[1..], turn.count, p, raiseOnError);
        OutcomeIsLastEnding(source[1..], turn.count, p, raiseOnError);
        CountsConcat(turn.acts, rest.acts);
        ExplainedCons(source, Opens(rest.acts), raiseOnError, rest.outcome);
      }
    }
  }

  /** Opens that remain possible with `count` reconnects spent and `e` more events to come. */
  function Budget(most: nat, count: nat, e: nat): int {
    if e == 0 then 1 + most - count else most + Budget(most, count, e - 1)
  }

  lemma {:induction false} BudgetInClosedForm(most: nat, count: nat, e: nat)
    ensures Budget(most, count, e) == 1 + most - count + most * e
  {
    if e > 0 {
      BudgetInClosedForm(most, count, e - 1);
      assert most * e == most + most * (e - 1);
    }
  }

  lemma {:induction false} BudgetAdds(most: nat, count: nat, next: nat, e: nat, f: nat)
    requires count <= most && next <= most && next == if e == 0 then count + 1 else 1
    ensures 1 + Budget(most, next, f) <= Budget(most, count, e + f)
    decreases e + f
  {
    if f > 0 {
      BudgetAdds(most, count, next, e, f - 1);
    } else if e > 1 {
      BudgetAdds(most, count, next, e - 1, f);
    }
  }

  lemma {:induction false} BudgetIsPositive(most: nat, count: nat, e: nat)
    requires count <= most
    ensures Budget(most, count, e) >= 1
  {
    if e > 0 {
      BudgetIsPositive(most, count, e - 1);
    }
  }

  lemma {:induction false} TurnWithinBudget(turn: Turn, s: Session, most: nat, count: nat)
    requires turn.Again? && Opens(turn.acts) == 1 && count <= most && turn.count <= most
    requires turn.count == if DataEvents(turn.acts) == 0 then count + 1 else 1
    requires Opens(s.acts) <= Budget(most, turn.count, DataEvents(s.acts))
    ensures Opens(Follow(turn.acts, s).acts) <= Budget(most, count, DataEvents(Follow(turn.acts, s).acts))
  {
    CountsConcat(turn.acts, s.acts);
    BudgetAdds(most, count, turn.count, DataEvents(turn.acts), DataEvents(s.acts));
  }

  lemma {:induction false} OpensWithinBudget(
    source: seq<Connection>, count: nat, p: ReconnectPolicy, raiseOnError: bool)
    requires count <= p.maxReconnects
    ensures var s := RunSession(source, count, p, raiseOnError);
            Opens(s.acts) <= Budget(p.maxReconnects, count, DataEvents(s.acts))
    decreases |source|
  {
    if source == [] {
      BudgetIsPositive(p.maxReconnects, count, 0);
    } else {
      var r := ReadChunks(INITIAL, source[0].chunks, raiseOnError);
      var turn := TurnAfter(r, source[0].ending, count, p);
      TurnCounts(r, source[0].ending, count, p);
      if turn.Again? {
        OpensWithinBudget(source[1..], turn.count, p, raiseOnError);
        TurnWithinBudget(turn, RunSession(source[1..], turn.count, p, raiseOnError), p.maxReconnects, count);
      } else {
        BudgetIsPositive(p.maxReconnects, count, DataEvents(turn.acts));
      }
    }
  }

  /** Budget: a session that yields E events other than GoAway opens its source at most 1 + most * (1 + E) times. */
  lemma {:induction false} ReconnectBudget(source: seq<Connection>, p: ReconnectPolicy, raiseOnError: bool)
    requires p.maxReconnects >= 0
    ensures var s := RunSession(source, 0, p, raiseOnError);
            Opens(s.acts) <= 1 + p.maxReconnects * (1 + DataEvents(s.acts))
  {
    var s := RunSession(source, 0, p, raiseOnError);
    OpensWithinBudget(source, 0, p, raiseOnError);
    WholeBudget(Opens(s.acts), p.maxReconnects, DataEvents(s.acts));
  }

  lemma {:induction false} WholeBudget(opens: nat, most: nat, e: nat)
    requires opens <= Budget(most, 0, e)
    ensures opens <= 1 + most * (1 + e)
  {
    BudgetInClosedForm(most, 0, e);
    assert most * (1 + e) == most + most * e;
  }

  /** A policy that allows no reconnects opens its source once. */
  lemma {:induction false} NoBudgetOneOpen(source: seq<Connection>, count: nat, p: ReconnectPolicy, raiseOnError: bool)
    requires p.maxReconnects <= 0
    ensures Opens(RunSession(source, count, p, raiseOnError).acts) <= 1
  {
    if source != [] {
      TurnCounts(ReadChunks(INITIAL, source[0].chunks, raiseOnError), source[0].ending, count, p);
    }
  }

  // ---------- HTTP opens behind each connection ----------

  /** One attempt to open the stream over HTTP. */
  datatype Attempt =
    | NoToken(failure: Failure)
    | Refused(status: int, retryAfter: Option<real>)
    | Streaming(chunks: seq<Chunk>, ending: Ending)

  function OpenFailure(status: int, retryAfter: Option<real>): Failure {
    if status == 401 then AuthenticationFailure
    else if status == 429 then RateLimited(retryAfter)
    else ApiFailure(status)
  }

  /** The connection made from the attempts, and how many it used; nothing if they run out after a 401. */
  function Connect(attempts: seq<Attempt>, refreshed: bool): (r: Option<(Connection, nat)>)
    ensures r.Some? ==> 1 <= r.value.1 <= |attempts|
    ensures r.Some? ==> r.value.1 <= if refreshed then 1 else 2
    decreases |attempts|
  {
    if attempts == [] then None
    else
      match attempts[0]
      case NoToken(failure) => Some((Connection([], Broken(failure)), 1))
      case Streaming(chunks, ending) => Some((Connection(chunks, ending), 1))
      case Refused(status, retryAfter) =>
        if status == 401 && !refreshed then
          var r := Connect(attempts[1..], true);
          if r.None? then None else Some((r.value.0, r.value.1 + 1))
        else Some((Connection([], Broken(OpenFailure(status, retryAfter))), 1))
  }

  /** The loop behind one connection, as the source writes it. */
  method ConnectOnce(attempts: seq<Attempt>) returns (r: Option<(Connection, nat)>)
    ensures r == Connect(attempts, false)
  {
    var refreshed := false;
    var used := 0;
    while used < |attempts|
      invariant used <= |attempts|
      invariant var rest := Connect(attempts[used..], refreshed);
                Connect(attempts, false) ==
                  if rest.None? then None else Some((rest.value.0, rest.value.1 + used))
    {
      var attempt := attempts[used];
      assert attempts[used..][0] == attempt && attempts[used..][1..] == attempts[used + 1..];
      used := used + 1;
      match attempt {
        case NoToken(failure) =>
          return Some((Connection([], Broken(failure)), used));
        case Streaming(chunks, ending) =>
          return Some((Connection(chunks, ending), used));
        case Refused(status, retryAfter) =>
          if status != 401 || refreshed {
            return Some((Connection([], Broken(OpenFailure(status, retryAfter))), used));
          }
          refreshed := true;
      }
    }
    assert attempts[used..] == [];
    return None;
  }

  /** The connections that a run of attempts makes one after the other. */
  function Connections(attempts: seq<Attempt>): seq<(Connection, nat)>
    decreases |attempts|
  {
    var r := Connect(attempts, false);
    if r.None? then [] else [r.value] + Connections(attempts[r.value.1..])
  }

  function Sources(made: seq<(Connection, nat)>): seq<Connection> {
    seq(|made|, i requires 0 <= i < |made| => made[i].0)
  }

  /** Attempts used by the first `k` connections. */
  function AttemptsUsed(made: seq<(Connection, nat)>, k: nat): nat {
    if k == 0 || made == [] then 0 else made[0].1 + AttemptsUsed(made[1..], k - 1)
  }

  lemma {:induction false} TwoAttemptsEach(attempts: seq<Attempt>, k: nat)
    ensures AttemptsUsed(Connections(attempts), k) <= 2 * k
    ensures AttemptsUsed(Connections(attempts), k) <= |attempts|
    decreases k
  {
    var r := Connect(attempts, false);
    if k > 0 && r.Some? {
      assert Connections(attempts)[1..] == Connections(attempts[r.value.1..]);
      TwoAttemptsEach(attempts[r.value.1..], k - 1);
    }
  }

  /**
   Over the whole session the server sees at most two HTTP opens for each open of the source: with E events other
   than GoAway, at most 2 * (1 + most * (1 + E)).
   */
  lemma {:induction false} HttpOpenBudget(attempts: seq<Attempt>, p: RetryPolicy, raiseOnError: bool)
    ensures var made := Connections(attempts);
            var s := RunSession(Sources(made), 0, StreamPolicy(p), raiseOnError);
            AttemptsUsed(made, Opens(s.acts))
              <= 2 * (1 + StreamPolicy(p).maxReconnects * (1 + DataEvents(s.acts)))
  {
    var s := RunSession(Sources(Connections(attempts)), 0, StreamPolicy(p), raiseOnError);
    ReconnectBudget(Sources(Connections(attempts)), StreamPolicy(p), raiseOnError);
    TwoAttemptsEach(attempts, Opens(s.acts));
    DoubleBound(AttemptsUsed(Connections(attempts), Opens(s.acts)), Opens(s.acts),
      1 + StreamPolicy(p).maxReconnects * (1 + DataEvents(s.acts)));
  }

  lemma {:induction false} DoubleBound(used: int, opens: int, bound: int)
    requires used <= 2 * opens && opens <= bound
    ensures used <= 2 * bound
  {
  }
}
