/**
 The incremental parser of a JSON stream: chunks of bytes or text go in, whole JSON objects come out, and the
 unfinished rest waits in two buffers.
 */
module StreamParser {
  import opened Text
  import opened Utf8
  import opened Json
  import opened JsonValue
  import opened JsonRoundTrip
  import opened Scanner

  datatype Chunk = Bytes(bytes: seq<Byte>) | Str(text: string)

  datatype Buffered = Buffered(buffer: string, pending: seq<Byte>)

  const INITIAL := Buffered("", [])

  datatype Cause = NotUtf8 | Malformed

  datatype Fed =
    | Fed(messages: seq<Value>, state: Buffered)
    | Raised(cause: Cause, state: Buffered)

  /** The decoding loop over a buffer: objects found, text left in the buffer, and whether it ended by raising. */
  datatype Drained = Drained(messages: seq<Value>, held: string, raised: bool)

  function Drain(buffer: string): Drained
    decreases |buffer|
  {
    var b := Lstrip(buffer);
    if b == "" then Drained([], "", false)
    else
      var r := ParseValue(b);
      if r.None? then Drained([], b, !LooksIncomplete(b))
      else if !IsObject(r.value.0) then Drained([], b, true)
      else After([Denote(r.value.0)], Drain(r.value.1))
  }

  /** What a loop reports that had already found `messages`. */
  function After(messages: seq<Value>, d: Drained): Drained {
    d.(messages := messages + d.messages)
  }

  function FeedText(buffer: string, pending: seq<Byte>): Fed {
    var d := Drain(buffer);
    if d.raised then Raised(Malformed, Buffered(d.held, pending)) else Fed(d.messages, Buffered(d.held, pending))
  }

  function Feed(st: Buffered, chunk: Chunk): Fed {
    match chunk
    case Str(text) => FeedText(st.buffer + text, st.pending)
    case Bytes(bytes) =>
      match Decode(st.pending + bytes)
      case Refused => Raised(NotUtf8, st)
      case Decoded(text, pending) => FeedText(st.buffer + text, pending)
  }

  /** The parser object as the source writes it. */
  class JsonStreamParser {
    var buffer: string
    var pending: seq<Byte>

    ghost function Contents(): Buffered
      reads this
    {
      Buffered(buffer, pending)
    }

    constructor ()
      ensures Contents() == INITIAL
    {
      buffer := "";
      pending := [];
    }

    method FeedChunk(chunk: Chunk) returns (fed: Fed)
      modifies this
      ensures fed == Feed(old(Contents()), chunk)
      ensures Contents() == fed.state
    {
      match chunk {
        case Str(text) =>
          buffer := buffer + text;
        case Bytes(bytes) =>
          match Decode(pending + bytes) {
            case Refused =>
              return Raised(NotUtf8, Buffered(buffer, pending));
            case Decoded(text, rest) =>
              buffer, pending := buffer + text, rest;
          }
      }
      var messages, raised := DecodeBuffer();
      return if raised then Raised(Malformed, Buffered(buffer, pending)) else Fed(messages, Buffered(buffer, pending));
    }

    /** The loop that takes whole objects off the front of the buffer. */
    method DecodeBuffer() returns (messages: seq<Value>, raised: bool)
      modifies this`buffer
      ensures raised == Drain(old(buffer)).raised && buffer == Drain(old(buffer)).held
      ensures !raised ==> messages == Drain(old(buffer)).messages
    {
      messages := [];
      while true
        invariant Drain(old(buffer)) == After(messages, Drain(buffer))
        decreases |buffer|
      {
        ghost var before := buffer;
        buffer := Lstrip(buffer);
        if buffer == "" {
          return messages, false;
        }
        var r := ParseValue(buffer);
        if r.None? {
          var incomplete := ScanBuffer(buffer);
          return messages, !incomplete;
        }
        if !IsObject(r.value.0) {
          return messages, true;
        }
        var decoded := Denote(r.value.0);
        AfterTwice(messages, [decoded], Drain(r.value.1));
        messages := messages + [decoded];
        buffer := r.value.1;
      }
    }
  }

  lemma {:induction false} AfterTwice(a: seq<Value>, b: seq<Value>, d: Drained)
    ensures After(a, After(b, d)) == After(a + b, d)
  {
    assert a + (b + d.messages) == (a + b) + d.messages;
  }

  lemma {:induction false} AfterNothing(d: Drained)
    ensures After([], d) == d
  {
    assert [] + d.messages == d.messages;
  }
}
