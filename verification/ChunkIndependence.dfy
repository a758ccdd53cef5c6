/**
 Cutting a stream into chunks does not change what the parser delivers; and exactly when cutting malformed text changes
 what is delivered and what is rejected.
 */
module ChunkIndependence {
  import opened Text
  import opened Utf8
  import opened Json
  import opened JsonValue
  import opened JsonRoundTrip
  import opened Scanner
  import opened StreamParser

  // ---------- the decoding loop and a cut in its text ----------

  lemma {:induction false} DrainSeesStripped(a: string, b: string)
    requires Lstrip(a) == Lstrip(b)
    ensures Drain(a) == Drain(b)
  {
  }

  /** An object at the front of a text is found there whatever is appended. */
  lemma {:induction false} ObjectFrontIsStable(s: string, more: string)
    requires ParseValue(s).Some? && IsObject(ParseValue(s).value.0)
    ensures ParseValue(s + more) == Some((ParseValue(s).value.0, ParseValue(s).value.1 + more))
  {
    var (j, rest) := ParseValue(s).value;
    ObjectDecodedIff(s, j, rest);
    assert s + more == Render(j) + (rest + more);
    ObjectDecodedIff(s + more, j, rest + more);
  }

  /**
   Cutting the text anywhere, well-formed or not: what the loop finds in the whole is what it finds in the first
   part, then what it finds after the text held back from the first part.
   */
  lemma {:induction false} DrainSplit(a: string, b: string)
    ensures Drain(a + b) == After(Drain(a).messages, Drain(Drain(a).held + b))
    decreases |a|
  {
    var s := Lstrip(a);
    LstripAppend(a, b);
    DrainSeesStripped(a + b, s + b);
    var r := ParseValue(s);
    if s != "" && r.Some? && IsObject(r.value.0) {
      ObjectFrontIsStable(s, b);
      LstripKeeps(s, b);
      DrainSplit(r.value.1, b);
      var d := Drain(r.value.1);
      AfterTwice([Denote(r.value.0)], d.messages, Drain(d.held + b));
    } else {
      AfterNothing(Drain(s + b));
    }
  }

  lemma {:induction false} LstripKeeps(s: string, more: string)
    requires s != "" && !IsPythonSpace(s[0])
    ensures Lstrip(s + more) == s + more
  {
    assert (s + more)[0] == s[0];
  }

  lemma {:induction false} DrainFound(s: string)
    requires s != "" && !IsPythonSpace(s[0]) && ParseValue(s).Some? && IsObject(ParseValue(s).value.0)
    ensures var (j, rest) := ParseValue(s).value; Drain(s) == After([Denote(j)], Drain(rest))
  {
    LstripIdle(s);
  }

  lemma {:induction false} DrainStuck(s: string)
    requires s != "" && !IsPythonSpace(s[0]) && (ParseValue(s).Some? ==> !IsObject(ParseValue(s).value.0))
    ensures Drain(s) == Drained([], s, !(ParseValue(s).None? && LooksIncomplete(s)))
  {
    LstripIdle(s);
  }

  lemma {:induction false} DrainGap(gap: string, s: string)
    requires AllOf(gap, IsPythonSpace)
    ensures Drain(gap + s) == Drain(s)
  {
    LstripOfGap(gap, s);
  }

  lemma {:induction false} OnlyGap(gap: string)
    requires AllOf(gap, IsPythonSpace)
    ensures Drain(gap) == Drained([], "", false)
  {
    DrainGap(gap, "");
    assert gap + "" == gap;
  }

  ghost predicate UsesExactly(used: string, messages: seq<Value>) {
    Drain(used) == Drained(messages, "", false)
  }

  /** The text held back is the end of the buffer, and what was taken off decodes to the messages and nothing else. */
  lemma {:induction false} DrainConserves(buffer: string) returns (used: string)
    ensures buffer == used + Drain(buffer).held && UsesExactly(used, Drain(buffer).messages)
    decreases |buffer|
  {
    var s := Lstrip(buffer);
    var gap := buffer[..|buffer| - |s|];
    LstripCuts(buffer);
    DrainGap(gap, s);
    OnlyGap(gap);
    used := gap;
    if s != "" {
      if ParseValue(s).Some? && IsObject(ParseValue(s).value.0) {
        var (j, rest) := ParseValue(s).value;
        ObjectDecodedIff(s, j, rest);
        DrainFound(s);
        var tail := DrainConserves(rest);
        used := gap + (Render(j) + tail);
        DrainObject(gap, j, tail);
        JoinThree(gap, Render(j), tail, Drain(rest).held);
      } else {
        DrainStuck(s);
      }
    }
  }

  lemma {:induction false} JoinThree(a: string, b: string, c: string, d: string)
    ensures a + (b + (c + d)) == (a + (b + c)) + d
  {
  }

  /** White space and one object text in front of anything: the object is found first. */
  lemma {:induction false} DrainObject(gap: string, j: Json, rest: string)
    requires AllOf(gap, IsPythonSpace) && Valid(j) && IsObject(j)
    ensures Drain(gap + (Render(j) + rest)) == After([Denote(j)], Drain(rest))
  {
    var s := Render(j) + rest;
    EmitStart(j, "");
    assert s[0] == '{';
    ObjectDecodedIff(s, j, rest);
    DrainGap(gap, s);
    DrainFound(s);
  }

  /** The decoder raises on an unfinished object text, and the scanner calls it incomplete. */
  lemma {:induction false} UnfinishedIsUnread(j: Json, s: string, more: string)
    requires Valid(j) && IsObject(j) && s != "" && more != "" && Render(j) == s + more
    ensures s[0] == '{' && ParseValue(s).None? && LooksIncomplete(s)
  {
    EmitStart(j, "");
    assert Render(j)[0] == s[0];
    ScannerOnObjectPrefix(j, |s|);
    assert Render(j)[..|s|] == s;
    if ParseValue(s).Some? {
      OnlyObjectsOpenWithBrace(s);
      var (other, rest) := ParseValue(s).value;
      ObjectDecodedIff(s, other, rest);
      JoinTexts(Render(other), rest, more);
      ObjectsArePrefixFree(other, j, rest + more);
    }
  }

  lemma {:induction false} OnlyObjectsOpenWithBrace(s: string)
    requires ParseValue(s).Some?
    ensures s != "" && (s[0] == '{' <==> IsObject(ParseValue(s).value.0))
  {
    ValueReadWasWritten(s);
    EmitStart(ParseValue(s).value.0, ParseValue(s).value.1);
  }

  /** White space and a non-empty, unfinished object text: nothing is found, all of it is held back, nothing raises. */
  lemma {:induction false} DrainUnfinished(gap: string, j: Json, s: string, more: string)
    requires AllOf(gap, IsPythonSpace) && Valid(j) && IsObject(j)
    requires s != "" && more != "" && Render(j) == s + more
    ensures Drain(gap + s) == Drained([], s, false)
  {
    UnfinishedIsUnread(j, s, more);
    DrainGap(gap, s);
    DrainStuck(s);
  }

  /** A rejected text stays rejected: no continuation makes a message of it; at most it is held back instead. */
  lemma {:induction false} RejectionIsFinal(a: string, b: string)
    requires Drain(a).raised
    ensures var s := Drain(a).held + b;
            Drain(s) == Drained([], s, !(ParseValue(s).None? && LooksIncomplete(s)))
    decreases |a|
  {
    var h := Lstrip(a);
    LstripIdle(h);
    DrainSeesStripped(a, h);
    if ParseValue(h).Some? && IsObject(ParseValue(h).value.0) {
      DrainFound(h);
      RejectionIsFinal(ParseValue(h).value.1, b);
    } else {
      DrainStuck(h);
      StuckStaysStuck(h, b);
      DrainStuck(h + b);
    }
  }

  lemma {:induction false} StuckStaysStuck(h: string, b: string)
    requires h != "" && (ParseValue(h).Some? ==> !IsObject(ParseValue(h).value.0))
    requires !(ParseValue(h).None? && LooksIncomplete(h))
    ensures ParseValue(h + b).Some? ==> !IsObject(ParseValue(h + b).value.0)
  {
    var s := h + b;
    if ParseValue(s).Some? && IsObject(ParseValue(s).value.0) {
      var (j, rest) := ParseValue(s).value;
      ObjectDecodedIff(s, j, rest);
      var n := |Render(j)|;
      assert s[..n] == Render(j) && s[..|h|] == h;
      if n <= |h| {
        assert h[..n] == Render(j) && h == h[..n] + h[n..];
        ObjectDecodedIff(h, j, h[n..]);
      } else {
        assert Render(j)[..|h|] == h && Render(j) == h + Render(j)[|h|..];
        UnfinishedIsUnread(j, h, Render(j)[|h|..]);
      }
    }
  }

  /** The text at which the loop stopped is one that it raises on: a value that is no object, or not even unfinished. */
  predicate IsRejected(held: string) {
    held != "" && (ParseValue(held).Some? || !LooksIncomplete(held))
  }

  lemma {:induction false} RaisedIffRejected(buffer: string)
    ensures Drain(buffer).raised <==> IsRejected(Drain(buffer).held)
    decreases |buffer|
  {
    var s := Lstrip(buffer);
    if s != "" && ParseValue(s).Some? && IsObject(ParseValue(s).value.0) {
      RaisedIffRejected(ParseValue(s).value.1);
    }
  }

  /**
   Whether two calls raise if and only if one call would: always, except that a text rejected by the first call
   may, with the rest of the stream behind it, pass for an unfinished one.
   */
  lemma {:induction false} SplitRaisesAlikeIff(a: string, b: string)
    ensures var held := Drain(a).held;
            var s := held + b;
            (Drain(a + b).raised <==> Drain(a).raised || Drain(s).raised)
            <==> !(IsRejected(held) && ParseValue(s).None? && LooksIncomplete(s))
  {
    DrainSplit(a, b);
    RaisedIffRejected(a);
    if Drain(a).raised {
      RejectionIsFinal(a, b);
    }
  }

  /** A concrete text: fed in two calls it is rejected, fed in one it is held back. */
  lemma {:induction false} MalformedThenBracketIsHeld()
    ensures Drain("{:}").raised
    ensures Drain("{:}" + "{") == Drained([], "{:}{", false)
  {
    BadObject("");
    assert "{:}" + "" == "{:}";
    BadObject("{");
    assert "{:}" + "{" == "{:}{";
    BracketsOfBadObject();
    DrainStuck("{:}");
    DrainStuck("{:}{");
  }

  lemma {:induction false} BracketsOfBadObject()
    ensures !LooksIncomplete("{:}") && LooksIncomplete("{:}{")
  {
    ScanAppend("", '{');
    ScanAppend("{", ':');
    ScanAppend("{:", '}');
    ScanAppend("{:}", '{');
    assert "" + ['{'] == "{" && "{" + [':'] == "{:" && "{:" + ['}'] == "{:}" && "{:}" + ['{'] == "{:}{";
    assert Scan(Clean([]), "{") == Clean(['{']);
    assert Scan(Clean([]), "{:") == Clean(['{']);
    assert Scan(Clean([]), "{:}") == Clean([]);
  }

  lemma {:induction false} ScanAppend(s: string, c: char)
    ensures Scan(Clean([]), s + [c]) == Step(Scan(Clean([]), s), c)
  {
    assert (s + [c])[..|s|] == s;
  }

  lemma {:induction false} BadObject(rest: string)
    ensures ParseValue("{:}" + rest).None?
  {
    var s := "{:}" + rest;
    var t := s[1..];
    assert t[0] == ':' && Span(t, IsGap) == 0;
    assert SkipGap(t) == ("", t) by {
      assert t[..0] == "" && t[0..] == t;
    }
    assert ParseMembers(t).None?;
  }

  // ---------- chunks of bytes and text ----------

  datatype Run = Run(messages: seq<Value>, state: Buffered, raised: bool)

  /** Feeding chunks one after the other, up to the first call that raises. */
  function FeedAll(st: Buffered, chunks: seq<Chunk>): Run
    decreases |chunks|
  {
    if chunks == [] then Run([], st, false)
    else
      var fed := Feed(st, chunks[0]);
      if fed.Raised? then Run([], fed.state, true)
      else
        var r := FeedAll(fed.state, chunks[1..]);
        r.(messages := fed.messages + r.messages)
  }

  lemma {:induction false} FeedAllTwo(st: Buffered, first: Chunk, second: Chunk)
    requires Feed(st, first).Fed?
    ensures FeedAll(st, [first, second]).messages ==
            Feed(st, first).messages + FeedAll(Feed(st, first).state, [second]).messages
  {
    assert [first, second][1..] == [second];
  }

  /** The messages that one call finds, whether or not it lives to deliver them. */
  function Found(st: Buffered, chunk: Chunk): seq<Value> {
    match chunk
    case Str(text) => Drain(st.buffer + text).messages
    case Bytes(bytes) =>
      match Decode(st.pending + bytes)
      case Refused => []
      case Decoded(text, _) => Drain(st.buffer + text).messages
  }

  /** One call fails: its bytes are not UTF-8, or its loop stops at text that is rejected. */
  predicate Fails(st: Buffered, chunk: Chunk) {
    match chunk
    case Str(text) => IsRejected(Drain(st.buffer + text).held)
    case Bytes(bytes) =>
      match Decode(st.pending + bytes)
      case Refused => true
      case Decoded(text, _) => IsRejected(Drain(st.buffer + text).held)
  }

  lemma {:induction false} OneCall(st: Buffered, chunk: Chunk)
    ensures Feed(st, chunk).Raised? <==> Fails(st, chunk)
    ensures FeedAll(st, [chunk]).messages == if Fails(st, chunk) then [] else Found(st, chunk)
  {
    var text := match chunk case Str(t) => t case Bytes(bs) =>
      match Decode(st.pending + bs) { case Refused => "" case Decoded(t, _) => t };
    RaisedIffRejected(st.buffer + text);
    FeedAllOne(st, chunk);
  }

  lemma {:induction false} FeedAllOne(st: Buffered, chunk: Chunk)
    ensures FeedAll(st, [chunk]).messages == if Feed(st, chunk).Raised? then [] else Feed(st, chunk).messages
  {
    if Feed(st, chunk).Fed? {
      assert [chunk][1..] == [];
      assert Feed(st, chunk).messages + [] == Feed(st, chunk).messages;
    }
  }

  /** Two chunks of the same kind as one. */
  function Glued(c: Chunk, d: Chunk): Chunk
    requires c.Str? <==> d.Str?
  {
    if c.Str? then Chunk.Str(c.text + d.text) else Bytes(c.bytes + d.bytes)
  }

  lemma {:induction false} TextsSplit(a: string, b: string, c: string)
    ensures var d := Drain(a + b);
            && Drain(a + (b + c)).messages == d.messages + Drain(d.held + c).messages
            && (IsRejected(Drain(a + (b + c)).held) <==> Drain(d.held + c).raised)
            && (d.raised && !Drain(d.held + c).raised ==> Drain(d.held + c).messages == [])
  {
    JoinTexts(a, b, c);
    DrainSplit(a + b, c);
    RaisedIffRejected(a + (b + c));
    if Drain(a + b).raised {
      RejectionIsFinal(a + b, c);
    }
  }

  /** A call on two chunks at once, by what a call on the first and then one on the second would do. */
  lemma {:induction false} GluedCall(st: Buffered, c: Chunk, d: Chunk)
    requires c.Str? <==> d.Str?
    ensures !Fails(st, c) ==>
              var next := Feed(st, c).state;
              && Feed(st, c).Fed? && Feed(st, c).messages == Found(st, c)
              && (Fails(st, Glued(c, d)) <==> Fails(next, d))
              && (!Fails(next, d) ==> Found(st, Glued(c, d)) == Found(st, c) + Found(next, d))
    ensures Fails(st, c) && !Fails(st, Glued(c, d)) ==> Found(st, Glued(c, d)) == Found(st, c)
  {
    OneCall(st, c);
    match c {
      case Str(a) =>
        TextsSplit(st.buffer, a, d.text);
        RaisedIffRejected(Drain(st.buffer + a).held + d.text);
        RaisedIffRejected(st.buffer + a);
      case Bytes(a) =>
        assert st.pending + (a + d.bytes) == (st.pending + a) + d.bytes;
        DecodeSplit(st.pending + a, d.bytes);
        var e := Decode(st.pending + a);
        if e.Decoded? && Decode(e.pending + d.bytes).Decoded? {
          var u := Decode(e.pending + d.bytes).text;
          TextsSplit(st.buffer, e.text, u);
          RaisedIffRejected(Drain(st.buffer + e.text).held + u);
          RaisedIffRejected(st.buffer + e.text);
        }
    }
  }

  /**
   A call that fails keeps to itself the messages it had found.  From any state, two chunks of bytes, or two of text,
   deliver the same in two calls as in one exactly if the first holds no message, or the call on the first and the call
   on both fail alike.
   */
  lemma {:induction false} SplitDeliversAlikeIff(st: Buffered, c: Chunk, d: Chunk)
    requires c.Str? <==> d.Str?
    ensures FeedAll(st, [c, d]).messages == FeedAll(st, [Glued(c, d)]).messages
            <==> Found(st, c) == [] || (Fails(st, c) <==> Fails(st, Glued(c, d)))
  {
    OneCall(st, c);
    OneCall(st, Glued(c, d));
    GluedCall(st, c, d);
    if !Fails(st, c) {
      OneCall(Feed(st, c).state, d);
      FeedAllTwo(st, c, d);
      Unequal(Found(st, c), Found(Feed(st, c).state, d));
    }
  }

  lemma {:induction false} Unequal(found: seq<Value>, more: seq<Value>)
    ensures found + [] == found
    ensures found != [] ==> found + more != []
  {
  }

  /** Concrete texts: fed apart they deliver the object before the malformed one, fed together they deliver nothing. */
  lemma {:induction false} MalformedTailDropsMessage()
    ensures FeedAll(INITIAL, [Chunk.Str("{}"), Chunk.Str("{:}")]).messages == [Dict(map[])]
    ensures FeedAll(INITIAL, [Chunk.Str("{}" + "{:}")]).messages == []
  {
    MalformedTailDrains();
    var d, tail, whole := Drain("{}"), Drain("{:}"), Drain("{}" + "{:}");
    assert "" + "{}" == "{}" && "" + "{:}" == "{:}" && "" + ("{}" + "{:}") == "{}" + "{:}";
    FeedTextIs("{}", [], d);
    FeedTextIs("{:}", [], tail);
    FeedTextIs("{}" + "{:}", [], whole);
    FeedAllOne(INITIAL, Chunk.Str("{:}"));
    FeedAllOne(INITIAL, Chunk.Str("{}" + "{:}"));
    FeedAllTwo(INITIAL, Chunk.Str("{}"), Chunk.Str("{:}"));
  }

  lemma {:induction false} MalformedTailDrains()
    ensures Drain("{}") == Drained([Dict(map[])], "", false)
    ensures Drain("{:}").raised && Drain("{}" + "{:}").raised
  {
    MalformedThenBracketIsHeld();
    AfterEmptyObject("{}", "");
    AfterEmptyObject("{}" + "{:}", "{:}");
    OnlyGap("");
  }

  lemma {:induction false} AfterEmptyObject(whole: string, rest: string)
    requires whole == "{}" + rest
    ensures Drain(whole) == After([Dict(map[])], Drain(rest))
  {
    EmptyObjectText();
    DrainObject("", EmptyObj(""), rest);
    assert "" + whole == whole;
  }

  lemma {:induction false} EmptyObjectText()
    ensures Valid(EmptyObj("")) && IsObject(EmptyObj("")) && Render(EmptyObj("")) == "{}"
    ensures Denote(EmptyObj("")) == Dict(map[])
  {
    assert "{" + ("" + ("}" + "")) == "{}";
  }

  function Join(chunks: seq<seq<Byte>>): seq<Byte> {
    if chunks == [] then [] else chunks[0] + Join(chunks[1..])
  }

  function AsChunks(chunks: seq<seq<Byte>>): seq<Chunk> {
    seq(|chunks|, i requires 0 <= i < |chunks| => Bytes(chunks[i]))
  }

  /** Text that one round of the loop would leave as it is. */
  ghost predicate IsWaiting(s: string) {
    s != "" ==> !IsPythonSpace(s[0]) && ParseValue(s).None? && LooksIncomplete(s)
  }

  /** A state between calls: nothing in it could have been taken out already. */
  ghost predicate Settled(st: Buffered) {
    Decode(st.pending) == Decoded("", st.pending) && IsWaiting(st.buffer)
  }

  lemma {:induction false} WaitingStays(s: string)
    requires IsWaiting(s)
    ensures Drain(s) == Drained([], s, false)
  {
    if s != "" {
      DrainStuck(s);
    }
  }

  lemma {:induction false} DecodeSettles(bs: seq<Byte>)
    requires Decode(bs).Decoded?
    ensures Decode(Decode(bs).pending) == Decoded("", Decode(bs).pending)
  {
    PendingIsShort(bs);
  }

  lemma {:induction false} DrainSettles(buffer: string)
    requires !Drain(buffer).raised
    ensures IsWaiting(Drain(buffer).held)
    decreases |buffer|
  {
    var s := Lstrip(buffer);
    if s != "" {
      var r := ParseValue(s);
      if r.Some? {
        DrainSettles(r.value.1);
      } else {
        LstripIdle(s);
      }
    }
  }

  lemma {:induction false} FeedSettles(st: Buffered, chunk: Chunk)
    requires Settled(st) && Feed(st, chunk).Fed?
    ensures Settled(Feed(st, chunk).state)
  {
    match chunk {
      case Str(text) => DrainSettles(st.buffer + text);
      case Bytes(bytes) =>
        DecodeSettles(st.pending + bytes);
        DrainSettles(st.buffer + Decode(st.pending + bytes).text);
    }
  }

  /** `fed` and then `next`, as one answer. */
  function Both(fed: Fed, next: Fed): Fed
    requires fed.Fed?
  {
    match next
    case Fed(more, last) => Fed(fed.messages + more, last)
    case Raised(_, _) => next
  }

  lemma {:induction false} FeedTextTwice(buffer: string, p: seq<Byte>, more: string, q: seq<Byte>)
    requires FeedText(buffer, p).Fed?
    ensures FeedText(buffer + more, q) ==
            Both(FeedText(buffer, p), FeedText(FeedText(buffer, p).state.buffer + more, q))
  {
    DrainSplit(buffer, more);
  }

  lemma {:induction false} DecodedTwice(buffer: string, t: string, p: seq<Byte>, u: string, q: seq<Byte>)
    requires FeedText(buffer + t, p).Fed?
    ensures FeedText(buffer + (t + u), q) ==
            Both(FeedText(buffer + t, p), FeedText(FeedText(buffer + t, p).state.buffer + u, q))
  {
    JoinTexts(buffer, t, u);
    FeedTextTwice(buffer + t, p, u, q);
  }

  /** Two calls of which the first does not raise are one call. */
  lemma {:induction false} FeedTwice(st: Buffered, a: seq<Byte>, b: seq<Byte>)
    requires Feed(st, Bytes(a)).Fed?
    ensures Feed(st, Bytes(a + b)).Fed? <==> Feed(Feed(st, Bytes(a)).state, Bytes(b)).Fed?
    ensures Feed(st, Bytes(a + b)).Fed? ==>
              Feed(st, Bytes(a + b)) == Both(Feed(st, Bytes(a)), Feed(Feed(st, Bytes(a)).state, Bytes(b)))
    ensures Feed(st, Bytes(a + b)).Raised? ==>
              Feed(st, Bytes(a + b)).cause == Feed(Feed(st, Bytes(a)).state, Bytes(b)).cause
  {
    assert st.pending + (a + b) == (st.pending + a) + b;
    DecodeSplit(st.pending + a, b);
    var next := Feed(st, Bytes(a)).state;
    var d := Decode(st.pending + a);
    var e := Decode(next.pending + b);
    if e.Decoded? {
      DecodedTwice(st.buffer, d.text, d.pending, e.text, e.pending);
    }
  }

  lemma {:induction false} JoinTexts(a: string, b: string, c: string)
    ensures a + (b + c) == (a + b) + c
  {
  }

  lemma {:induction false} FeedNothing(st: Buffered, bs: seq<Byte>)
    requires Settled(st) && bs == []
    ensures Feed(st, Bytes(bs)) == Fed([], st)
  {
    var text := "";
    WithNothing(st, bs, text);
    WaitingStays(st.buffer);
    FeedIs(st, bs, text, st.pending, Drained([], st.buffer, false));
  }

  lemma {:induction false} WithNothing(st: Buffered, bs: seq<Byte>, text: string)
    requires bs == [] && text == ""
    ensures st.pending + bs == st.pending && st.buffer + text == st.buffer
  {
  }

  lemma {:induction false} FeedIs(st: Buffered, bs: seq<Byte>, text: string, p: seq<Byte>, d: Drained)
    requires Decode(st.pending + bs) == Decoded(text, p) && Drain(st.buffer + text) == d && !d.raised
    ensures Feed(st, Bytes(bs)) == Fed(d.messages, Buffered(d.held, p))
  {
  }

  lemma {:induction false} FeedTextIs(buffer: string, p: seq<Byte>, d: Drained)
    requires Drain(buffer) == d
    ensures FeedText(buffer, p) ==
            if d.raised then Raised(Malformed, Buffered(d.held, p)) else Fed(d.messages, Buffered(d.held, p))
  {
  }

  lemma {:induction false} FeedBytesIs(st: Buffered, bs: seq<Byte>, text: string, p: seq<Byte>)
    requires Decode(st.pending + bs) == Decoded(text, p)
    ensures Feed(st, Bytes(bs)) == FeedText(st.buffer + text, p)
  {
  }

  lemma {:induction false} RunOfCons(st: Buffered, chunks: seq<seq<Byte>>)
    requires chunks != []
    ensures var fed := Feed(st, Bytes(chunks[0]));
            FeedAll(st, AsChunks(chunks)) ==
              if fed.Raised? then Run([], fed.state, true)
              else
                var r := FeedAll(fed.state, AsChunks(chunks[1..]));
                r.(messages := fed.messages + r.messages)
  {
    assert AsChunks(chunks)[1..] == AsChunks(chunks[1..]);
  }

  /** One call with the bytes of all chunks, when the calls one by one did not raise. */
  lemma {:induction false} ChunkingIsInvisible(st: Buffered, chunks: seq<seq<Byte>>)
    requires Settled(st) && !FeedAll(st, AsChunks(chunks)).raised
    ensures var r := FeedAll(st, AsChunks(chunks));
            Feed(st, Bytes(Join(chunks))) == Fed(r.messages, r.state)
    decreases |chunks|
  {
    if chunks == [] {
      FeedNothing(st, Join(chunks));
    } else {
      RunOfCons(st, chunks);
      var next := Feed(st, Bytes(chunks[0])).state;
      FeedSettles(st, Bytes(chunks[0]));
      ChunkingIsInvisible(next, chunks[1..]);
      FeedTwice(st, chunks[0], Join(chunks[1..]));
    }
  }

  // ---------- well-formed streams ----------

  /** Object texts separated by white space: `gaps[i]` stands in front of the i-th object, the last gap at the end. */
  ghost predicate IsStream(gaps: seq<string>, objects: seq<Json>) {
    && |gaps| == |objects| + 1
    && (forall i | 0 <= i < |gaps| :: AllOf(gaps[i], IsPythonSpace))
    && (forall i | 0 <= i < |objects| :: Valid(objects[i]) && IsObject(objects[i]))
  }

  ghost function StreamText(gaps: seq<string>, objects: seq<Json>): string
    requires IsStream(gaps, objects)
  {
    if objects == [] then gaps[0]
    else gaps[0] + (Render(objects[0]) + StreamText(gaps[1..], objects[1..]))
  }

  /** How many of the objects end within the first `n` characters of the stream. */
  ghost function CompleteWithin(gaps: seq<string>, objects: seq<Json>, n: nat): (k: nat)
    requires IsStream(gaps, objects)
    ensures k <= |objects|
  {
    if objects == [] || n < |gaps[0]| + |Render(objects[0])| then 0
    else 1 + CompleteWithin(gaps[1..], objects[1..], n - |gaps[0]| - |Render(objects[0])|)
  }

  function Values(objects: seq<Json>): seq<Value> {
    if objects == [] then [] else [Denote(objects[0])] + Values(objects[1..])
  }

  /** The characters of a stream up to `n`, when `n` is past the first gap, past the first object, or neither. */
  lemma {:induction false} StreamPrefix(gaps: seq<string>, objects: seq<Json>, n: nat)
    requires IsStream(gaps, objects) && n <= |StreamText(gaps, objects)|
    ensures var text, gap := StreamText(gaps, objects), gaps[0];
            && (n <= |gap| ==> text[..n] == gap[..n])
            && (n > |gap| ==>
                  && objects != []
                  && var t, m := Render(objects[0]), n - |gap|;
                     && (m < |t| ==> text[..n] == gap + t[..m])
                     && (m >= |t| ==>
                           && m - |t| <= |StreamText(gaps[1..], objects[1..])|
                           && text[..n] == gap + (t + StreamText(gaps[1..], objects[1..])[..m - |t|])))
  {
  }

  /** The loop on the first `n` characters of a stream: exactly the objects complete by then, and no rejection. */
  lemma {:induction false} DrainStreamPrefix(gaps: seq<string>, objects: seq<Json>, n: nat)
    requires IsStream(gaps, objects) && n <= |StreamText(gaps, objects)|
    ensures var d := Drain(StreamText(gaps, objects)[..n]);
            && !d.raised
            && d.messages == Values(objects[..CompleteWithin(gaps, objects, n)])
            && (n == |StreamText(gaps, objects)| ==> d.held == "")
    decreases |objects|
  {
    StreamPrefix(gaps, objects, n);
    if n <= |gaps[0]| {
      OnlyGap(gaps[0][..n]);
    } else if n - |gaps[0]| < |Render(objects[0])| {
      CutInFirstObject(gaps[0], objects[0], n - |gaps[0]|);
    } else {
      var m := n - |gaps[0]| - |Render(objects[0])|;
      DrainStreamPrefix(gaps[1..], objects[1..], m);
      var tail := StreamText(gaps[1..], objects[1..])[..m];
      PastFirstObject(gaps[0], objects, tail, CompleteWithin(gaps[1..], objects[1..], m));
    }
  }

  lemma {:induction false} CutInFirstObject(gap: string, j: Json, m: nat)
    requires AllOf(gap, IsPythonSpace) && Valid(j) && IsObject(j) && 0 < m < |Render(j)|
    ensures var d := Drain(gap + Render(j)[..m]); !d.raised && d.messages == []
  {
    var t := Render(j);
    assert t == t[..m] + t[m..];
    DrainUnfinished(gap, j, t[..m], t[m..]);
  }

  lemma {:induction false} PastFirstObject(gap: string, objects: seq<Json>, tail: string, k: nat)
    requires objects != [] && AllOf(gap, IsPythonSpace) && Valid(objects[0]) && IsObject(objects[0]) && k < |objects|
    requires Drain(tail).messages == Values(objects[1..][..k])
    ensures var d := Drain(gap + (Render(objects[0]) + tail));
            d.raised == Drain(tail).raised && d.held == Drain(tail).held && d.messages == Values(objects[..k + 1])
  {
    DrainObject(gap, objects[0], tail);
    ValuesOfCons(objects, k);
  }

  lemma {:induction false} ValuesOfCons(objects: seq<Json>, k: nat)
    requires objects != [] && k <= |objects| - 1
    ensures Values(objects[..k + 1]) == [Denote(objects[0])] + Values(objects[1..][..k])
  {
    assert objects[..k + 1][1..] == objects[1..][..k];
  }

  /** The bytes of a text, cut after `n` bytes: whole characters, then the start of one. */
  lemma {:induction false} DecodeEncodedPrefix(text: string, bs: seq<Byte>)
    requires bs <= Encode(text)
    ensures Decode(bs).Decoded? && Decode(bs).text <= text
    ensures bs == Encode(text) ==> Decode(bs) == Decoded(text, [])
  {
    var rest := Encode(text)[|bs|..];
    assert bs + rest == Encode(text) + [];
    DecodeEncoded(text, []);
    assert text + "" == text;
    DecodeSplit(bs, rest);
    if bs == Encode(text) {
      assert bs + [] == bs;
    }
  }

  /**
   Chunk independence.  Whatever bytes of a well-formed stream have arrived, in whatever chunks, the parser has
   not raised and has delivered exactly the objects that are complete in the characters received, in order.
   */
  lemma {:induction false} StreamInAnyChunks(gaps: seq<string>, objects: seq<Json>, chunks: seq<seq<Byte>>)
    requires IsStream(gaps, objects) && Join(chunks) <= Encode(StreamText(gaps, objects))
    ensures var run := FeedAll(INITIAL, AsChunks(chunks));
            && !run.raised
            && Decode(Join(chunks)).Decoded?
            && run.messages == Values(objects[..CompleteWithin(gaps, objects, |Decode(Join(chunks)).text|)])
  {
    NeverRaises(gaps, objects, INITIAL, [], chunks);
    ChunkingIsInvisible(INITIAL, chunks);
    PrefixIsFed(gaps, objects, Join(chunks));
  }

  /** A whole stream, in whatever chunks, is delivered whole, and nothing of it stays behind. */
  lemma {:induction false} WholeStreamInAnyChunks(gaps: seq<string>, objects: seq<Json>, chunks: seq<seq<Byte>>)
    requires IsStream(gaps, objects) && Join(chunks) == Encode(StreamText(gaps, objects))
    ensures FeedAll(INITIAL, AsChunks(chunks)) == Run(Values(objects), INITIAL, false)
  {
    NeverRaises(gaps, objects, INITIAL, [], chunks);
    ChunkingIsInvisible(INITIAL, chunks);
    WholeIsFed(gaps, objects);
  }

  /**
   Conservation, for any chunks that do not raise, well-formed or not: the bytes fed are those of the text used up,
   which decodes to the messages and nothing else, then of the buffer, and then the pending ones.
   */
  lemma {:induction false} FeedingConserves(chunks: seq<seq<Byte>>)
    requires !FeedAll(INITIAL, AsChunks(chunks)).raised
    ensures var run := FeedAll(INITIAL, AsChunks(chunks));
            exists used :: UsesExactly(used, run.messages)
                           && Encode(used + run.state.buffer) + run.state.pending == Join(chunks)
  {
    ChunkingIsInvisible(INITIAL, chunks);
    var used := FedConserves(Join(chunks));
  }

  lemma {:induction false} FedConserves(bs: seq<Byte>) returns (used: string)
    requires Feed(INITIAL, Bytes(bs)).Fed?
    ensures var Fed(messages, st) := Feed(INITIAL, Bytes(bs));
            UsesExactly(used, messages) && Encode(used + st.buffer) + st.pending == bs
  {
    assert [] + bs == bs;
    var Decoded(t, p) := Decode(bs);
    assert "" + t == t;
    var d := Drain(t);
    FeedBytesIs(INITIAL, bs, t, p);
    FeedTextIs(t, p, d);
    used := DrainConserves(t);
    DecodeConserves(bs);
  }

  lemma {:induction false} WholeIsFed(gaps: seq<string>, objects: seq<Json>)
    requires IsStream(gaps, objects)
    ensures Feed(INITIAL, Bytes(Encode(StreamText(gaps, objects)))) == Fed(Values(objects), INITIAL)
  {
    var text := StreamText(gaps, objects);
    DecodeEncodedPrefix(text, Encode(text));
    assert text[..|text|] == text && objects[..|objects|] == objects;
    DrainStreamPrefix(gaps, objects, |text|);
    AllComplete(gaps, objects);
    assert [] + Encode(text) == Encode(text) && "" + text == text;
    FeedIs(INITIAL, Encode(text), text, [], Drain(text));
  }

  lemma {:induction false} AllComplete(gaps: seq<string>, objects: seq<Json>)
    requires IsStream(gaps, objects)
    ensures CompleteWithin(gaps, objects, |StreamText(gaps, objects)|) == |objects|
    decreases |objects|
  {
    if objects != [] {
      AllComplete(gaps[1..], objects[1..]);
    }
  }

  /** Mid-stream: after the bytes `before` led to `st`, no further chunk of the stream raises. */
  lemma {:induction false} NeverRaises(
    gaps: seq<string>, objects: seq<Json>, st: Buffered, before: seq<Byte>, chunks: seq<seq<Byte>>)
    requires IsStream(gaps, objects) && before + Join(chunks) <= Encode(StreamText(gaps, objects))
    requires Feed(INITIAL, Bytes(before)).Fed? && Feed(INITIAL, Bytes(before)).state == st
    ensures !FeedAll(st, AsChunks(chunks)).raised
    decreases |chunks|
  {
    if chunks != [] {
      RunOfCons(st, chunks);
      var now := before + chunks[0];
      assert now + Join(chunks[1..]) == before + Join(chunks);
      assert now <= Encode(StreamText(gaps, objects));
      FeedTwice(INITIAL, before, chunks[0]);
      PrefixIsFed(gaps, objects, now);
      NeverRaises(gaps, objects, Feed(INITIAL, Bytes(now)).state, now, chunks[1..]);
    }
  }

  lemma {:induction false} PrefixIsFed(gaps: seq<string>, objects: seq<Json>, bs: seq<Byte>)
    requires IsStream(gaps, objects) && bs <= Encode(StreamText(gaps, objects))
    ensures Decode(bs).Decoded? && Feed(INITIAL, Bytes(bs)).Fed?
    ensures Feed(INITIAL, Bytes(bs)).messages ==
            Values(objects[..CompleteWithin(gaps, objects, |Decode(bs).text|)])
  {
    var text := StreamText(gaps, objects);
    DecodeEncodedPrefix(text, bs);
    assert [] + bs == bs;
    var Decoded(t, p) := Decode(bs);
    assert "" + t == t && t == text[..|t|];
    FeedBytesIs(INITIAL, bs, t, p);
    DrainStreamPrefix(gaps, objects, |t|);
  }
}
