/**
 The incremental UTF-8 decoder (sections 3 and 4 of RFC 3629): complete characters come out at once, the bytes of
 an unfinished character wait for the next chunk, and a sequence that no continuation can complete is refused.
 */
module Utf8 {

  type Byte = b: int | 0 <= b < 256

  datatype Head =
    | Scalar(c: char, size: nat)
    | Partial
    | Invalid

  datatype Decoded =
    | Decoded(text: string, pending: seq<Byte>)
    | Refused

  predicate IsTail(b: Byte) { 0x80 <= b < 0xC0 }

  /** The second byte of a three-byte character: no overlong form, no surrogate. */
  predicate Second3(b0: Byte, b1: Byte) {
    IsTail(b1) && (b0 == 0xE0 ==> b1 >= 0xA0) && (b0 == 0xED ==> b1 < 0xA0)
  }

  /** The second byte of a four-byte character: no overlong form, nothing above U+10FFFF. */
  predicate Second4(b0: Byte, b1: Byte) {
    IsTail(b1) && (b0 == 0xF0 ==> b1 >= 0x90) && (b0 == 0xF4 ==> b1 < 0x90)
  }

  function Code2(b0: int, b1: int): int { (b0 - 0xC0) * 64 + (b1 - 0x80) }

  function Code3(b0: int, b1: int, b2: int): int { ((b0 - 0xE0) * 64 + (b1 - 0x80)) * 64 + (b2 - 0x80) }

  function Code4(b0: int, b1: int, b2: int, b3: int): int {
    (((b0 - 0xF0) * 64 + (b1 - 0x80)) * 64 + (b2 - 0x80)) * 64 + (b3 - 0x80)
  }

  /** Reads the character at the start of `bs`. */
  function First(bs: seq<Byte>): (h: Head)
    requires bs != []
    ensures h.Scalar? ==> 0 < h.size <= |bs|
    ensures h.Partial? ==> |bs| < 4
  {
    var b0 := bs[0];
    if b0 < 0x80 then Scalar(b0 as char, 1)
    else if 0xC2 <= b0 < 0xE0 then
      if |bs| < 2 then Partial
      else if !IsTail(bs[1]) then Invalid
      else Scalar(Code2(b0, bs[1]) as char, 2)
    else if 0xE0 <= b0 < 0xF0 then
      if |bs| < 2 then Partial
      else if !Second3(b0, bs[1]) then Invalid
      else if |bs| < 3 then Partial
      else if !IsTail(bs[2]) then Invalid
      else Scalar(Code3(b0, bs[1], bs[2]) as char, 3)
    else if 0xF0 <= b0 < 0xF5 then
      if |bs| < 2 then Partial
      else if !Second4(b0, bs[1]) then Invalid
      else if |bs| < 3 then Partial
      else if !IsTail(bs[2]) then Invalid
      else if |bs| < 4 then Partial
      else if !IsTail(bs[3]) then Invalid
      else Scalar(Code4(b0, bs[1], bs[2], bs[3]) as char, 4)
    else Invalid
  }

  /** One non-final call of the decoder on the bytes it holds plus the new ones. */
  function Decode(bs: seq<Byte>): (d: Decoded)
  {
    if bs == [] then Decoded("", [])
    else
      match First(bs)
      case Invalid => Refused
      case Partial => Decoded("", bs)
      case Scalar(c, n) =>
        match Decode(bs[n..])
        case Refused => Refused
        case Decoded(text, pending) => Decoded([c] + text, pending)
  }

  // ---------- the encoding, for reference ----------

  function EncodeChar(c: char): (bs: seq<Byte>)
    ensures 0 < |bs| <= 4
  {
    var n := c as int;
    if n < 0x80 then [n]
    else if n < 0x800 then [0xC0 + n / 64, 0x80 + n % 64]
    else if n < 0x10000 then [0xE0 + n / 64 / 64, 0x80 + n / 64 % 64, 0x80 + n % 64]
    else [0xF0 + n / 64 / 64 / 64, 0x80 + n / 64 / 64 % 64, 0x80 + n / 64 % 64, 0x80 + n % 64]
  }

  function Encode(text: string): seq<Byte> {
    if text == "" then [] else EncodeChar(text[0]) + Encode(text[1..])
  }

  lemma {:induction false} EncodedIsRead(c: char, bs: seq<Byte>)
    requires EncodeChar(c) <= bs
    ensures bs != [] && First(bs) == Scalar(c, |EncodeChar(c)|)
  {
    var e := EncodeChar(c);
    assert forall i | 0 <= i < |e| :: bs[i] == e[i];
  }

  lemma {:induction false} Horner(a: int, b: int)
    requires 0 <= b < 64
    ensures (a * 64 + b) / 64 == a && (a * 64 + b) % 64 == b
  {
  }

  lemma {:induction false} ReadWasEncoded(bs: seq<Byte>)
    requires bs != [] && First(bs).Scalar?
    ensures var Scalar(c, n) := First(bs); EncodeChar(c) == bs[..n]
  {
    var n := First(bs).size;
    var b0: int := bs[0];
    if n == 2 {
      Horner(b0 - 0xC0, bs[1] as int - 0x80);
    } else if n == 3 {
      var a := (b0 - 0xE0) * 64 + (bs[1] as int - 0x80);
      Horner(b0 - 0xE0, bs[1] as int - 0x80);
      Horner(a, bs[2] as int - 0x80);
    } else if n == 4 {
      var a := (b0 - 0xF0) * 64 + (bs[1] as int - 0x80);
      Horner(b0 - 0xF0, bs[1] as int - 0x80);
      Horner(a, bs[2] as int - 0x80);
      Horner(a * 64 + (bs[2] as int - 0x80), bs[3] as int - 0x80);
    }
  }

  /** What one call has settled about a character is not changed by more bytes. */
  lemma {:induction false} FirstIsStable(bs: seq<Byte>, more: seq<Byte>)
    requires bs != []
    ensures !First(bs).Partial? ==> First(bs + more) == First(bs)
  {
    var s := bs + more;
    assert forall i | 0 <= i < |bs| :: s[i] == bs[i];
  }

  /** The decoder's answer once one character has been split off. */
  function Prepend(text: string, d: Decoded): (r: Decoded)
    ensures r.Decoded? <==> d.Decoded?
  {
    match d
    case Refused => Refused
    case Decoded(t, p) => Decoded(text + t, p)
  }

  lemma {:induction false} DecodeCons(bs: seq<Byte>, c: char, n: nat)
    requires bs != [] && First(bs) == Scalar(c, n)
    ensures Decode(bs) == Prepend([c], Decode(bs[n..]))
  {
  }

  lemma {:induction false} EncodeCons(c: char, text: string)
    ensures Encode([c] + text) == EncodeChar(c) + Encode(text)
  {
    assert ([c] + text)[1..] == text;
  }

  /** Nothing is lost or invented: the bytes read are the encoding of the text, then the bytes still waiting. */
  lemma {:induction false} DecodeConserves(bs: seq<Byte>)
    requires Decode(bs).Decoded?
    ensures Encode(Decode(bs).text) + Decode(bs).pending == bs
    decreases |bs|
  {
    if bs != [] && First(bs).Scalar? {
      var Scalar(c, n) := First(bs);
      DecodeCons(bs, c, n);
      ReadWasEncoded(bs);
      DecodeConserves(bs[n..]);
      var Decoded(text, pending) := Decode(bs[n..]);
      EncodeCons(c, text);
      Reassociate(bs, n, Encode(text), pending);
    }
  }

  lemma {:induction false} Reassociate(bs: seq<Byte>, n: nat, tail: seq<Byte>, pending: seq<Byte>)
    requires n <= |bs| && tail + pending == bs[n..]
    ensures (bs[..n] + tail) + pending == bs
  {
    assert (bs[..n] + tail) + pending == bs[..n] + (tail + pending);
  }

  /** At most three bytes ever wait, and they are the start of some character. */
  lemma {:induction false} PendingIsShort(bs: seq<Byte>)
    requires Decode(bs).Decoded?
    ensures var p := Decode(bs).pending; |p| < 4 && (p != [] ==> First(p).Partial?)
    decreases |bs|
  {
    if bs != [] && First(bs).Scalar? {
      PendingIsShort(bs[First(bs).size..]);
    }
  }

  lemma {:induction false} DecodeAfter(c: char, head: seq<Byte>, text: string, tail: seq<Byte>, more: seq<Byte>)
    requires head != [] && First(head + (tail + more)) == Scalar(c, |head|)
    requires Decode(tail + more) == Prepend(text, Decode(more))
    ensures Decode((head + tail) + more) == Prepend([c] + text, Decode(more))
  {
    var bs := head + (tail + more);
    assert bs == (head + tail) + more && bs[|head|..] == tail + more;
    DecodeCons(bs, c, |head|);
    assert Decode(more).Decoded? ==> [c] + (text + Decode(more).text) == ([c] + text) + Decode(more).text;
  }

  /** Any text in front of more bytes is decoded whole. */
  lemma {:induction false} DecodeEncoded(text: string, more: seq<Byte>)
    ensures Decode(Encode(text) + more) == Prepend(text, Decode(more))
    decreases |text|
  {
    if text == "" {
      assert Encode(text) + more == more;
      assert Decode(more).Decoded? ==> "" + Decode(more).text == Decode(more).text;
    } else {
      EncodedIsRead(text[0], EncodeChar(text[0]) + (Encode(text[1..]) + more));
      DecodeEncoded(text[1..], more);
      DecodeAfter(text[0], EncodeChar(text[0]), text[1..], Encode(text[1..]), more);
      assert [text[0]] + text[1..] == text;
    }
  }

  /**
   Decoding in two calls, carrying the pending bytes, is decoding in one, whether or not the split falls inside a
   character; a refusal in the first call is a refusal of the whole.
   */
  lemma {:induction false} DecodeSplit(a: seq<Byte>, b: seq<Byte>)
    ensures Decode(a + b) ==
            match Decode(a) {
              case Refused => Refused
              case Decoded(t, p) => Prepend(t, Decode(p + b))
            }
    decreases |a|
  {
    if a == [] {
      assert a + b == b && [] + b == b;
      assert Decode(b).Decoded? ==> "" + Decode(b).text == Decode(b).text;
    } else if First(a).Partial? {
      assert Decode(a + b).Decoded? ==> "" + Decode(a + b).text == Decode(a + b).text;
    } else {
      FirstIsStable(a, b);
      if First(a).Scalar? {
        var Scalar(c, n) := First(a);
        assert (a + b)[n..] == a[n..] + b;
        DecodeSplit(a[n..], b);
        var d := Decode(a[n..]);
        if d.Decoded? && Decode(d.pending + b).Decoded? {
          var u := Decode(d.pending + b).text;
          assert [c] + (d.text + u) == ([c] + d.text) + u;
        }
      }
    }
  }
}
