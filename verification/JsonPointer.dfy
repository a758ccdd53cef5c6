/**
 Local references of a JSON document: pointers in the fragment of a `$ref` (sections 3, 4 and 6 of RFC 6901), and what
 they resolve to.
 */
module JsonPointer {
  import opened Text
  import opened JsonValue

  type Token = seq<int>

  const SLASH := '/' as int
  const TILDE := '~' as int
  const HASH := '#' as int
  const ZERO := '0' as int
  const ONE := '1' as int

  // ---------- tokens ----------

  /** The parts between slashes. */
  function Split(p: seq<int>): (r: seq<Token>)
    ensures r != []
  {
    if p == [] then [[]]
    else
      var rest := Split(p[1..]);
      if p[0] == SLASH then [[]] + rest else [[p[0]] + rest[0]] + rest[1..]
  }

  function Escape(t: Token): seq<int> {
    if t == [] then []
    else (if t[0] == TILDE then [TILDE, ZERO] else if t[0] == SLASH then [TILDE, ONE] else [t[0]]) + Escape(t[1..])
  }

  function Unescape(p: seq<int>): Token {
    if p == [] then []
    else if |p| >= 2 && p[0] == TILDE && p[1] == ONE then [SLASH] + Unescape(p[2..])
    else if |p| >= 2 && p[0] == TILDE && p[1] == ZERO then [TILDE] + Unescape(p[2..])
    else [p[0]] + Unescape(p[1..])
  }

  function Unescaped(parts: seq<seq<int>>): seq<Token> {
    if parts == [] then [] else [Unescape(parts[0])] + Unescaped(parts[1..])
  }

  /** The tokens of a reference into the document itself; nothing for any other reference. */
  function LocalPointer(reference: seq<int>): Option<seq<Token>> {
    if reference == [HASH] then Some([])
    else if |reference| >= 2 && reference[0] == HASH && reference[1] == SLASH then
      Some(Unescaped(Split(reference[2..])))
    else None
  }

  /** The reference to a place. */
  function Joined(tokens: seq<Token>): seq<int> {
    if tokens == [] then [] else [SLASH] + Escape(tokens[0]) + Joined(tokens[1..])
  }

  function ReferenceFor(tokens: seq<Token>): seq<int> {
    [HASH] + Joined(tokens)
  }

  lemma {:induction false} UnescapeEscape(t: Token)
    ensures Unescape(Escape(t)) == t
    ensures SLASH !in Escape(t)
  {
    if t != [] {
      UnescapeEscape(t[1..]);
      var tail := Escape(t[1..]);
      var e := Escape(t);
      if t[0] == TILDE || t[0] == SLASH {
        assert e[2..] == tail;
      } else {
        assert e[1..] == tail;
      }
    }
  }

  lemma {:induction false} SplitPart(part: seq<int>, rest: seq<int>)
    requires SLASH !in part
    ensures Split(part) == [part]
    ensures Split(part + ([SLASH] + rest)) == [part] + Split(rest)
  {
    var whole := part + ([SLASH] + rest);
    if part == [] {
      assert whole[1..] == rest;
    } else {
      SplitPart(part[1..], rest);
      assert whole[1..] == part[1..] + ([SLASH] + rest);
      assert [part[0]] + part[1..] == part;
    }
  }

  lemma {:induction false} JoinedCons(tokens: seq<Token>)
    requires |tokens| > 1
    ensures Joined(tokens)[1..] == Escape(tokens[0]) + ([SLASH] + Joined(tokens[1..])[1..])
  {
    var rest := Joined(tokens[1..]);
    assert rest[0] == SLASH && rest == [SLASH] + rest[1..];
    assert Joined(tokens) == [SLASH] + Escape(tokens[0]) + rest;
  }

  lemma {:induction false} UnescapedCons(part: seq<int>, parts: seq<seq<int>>)
    ensures Unescaped([part] + parts) == [Unescape(part)] + Unescaped(parts)
  {
    assert ([part] + parts)[1..] == parts;
  }

  lemma {:induction false} SplitJoined(tokens: seq<Token>)
    requires tokens != []
    ensures Unescaped(Split(Joined(tokens)[1..])) == tokens
  {
    var part := Escape(tokens[0]);
    UnescapeEscape(tokens[0]);
    if |tokens| == 1 {
      SplitPart(part, []);
      UnescapedCons(part, []);
      assert Joined(tokens)[1..] == part;
    } else {
      var rest := Joined(tokens[1..])[1..];
      SplitJoined(tokens[1..]);
      JoinedCons(tokens);
      SplitPart(part, rest);
      UnescapedCons(part, Split(rest));
    }
  }

  /** A reference to a place is read as that place, whatever characters its names hold. */
  lemma {:induction false} ReferenceRoundTrip(tokens: seq<Token>)
    ensures LocalPointer(ReferenceFor(tokens)) == Some(tokens)
  {
    var r := ReferenceFor(tokens);
    if tokens == [] {
      assert r == [HASH];
    } else {
      SplitJoined(tokens);
      assert r[0] == HASH && r[1] == SLASH && r[2..] == Joined(tokens)[1..];
    }
  }

  // ---------- resolution ----------

  function Decimal(t: Token): nat
    requires forall i | 0 <= i < |t| :: ZERO <= t[i] <= ZERO + 9
  {
    if t == [] then 0 else 10 * Decimal(t[..|t| - 1]) + (t[|t| - 1] - ZERO)
  }

  /** An array index: digits without a leading zero. */
  function IndexOf(t: Token): Option<nat> {
    if t == [] || (exists i | 0 <= i < |t| :: t[i] < ZERO || ZERO + 9 < t[i]) || (t[0] == ZERO && |t| > 1) then None
    else Some(Decimal(t))
  }

  /** The child that a token selects. */
  function Child(v: Value, t: Token): Option<Value> {
    match v
    case Dict(members) => if t in members then Some(members[t]) else None
    case List(items) =>
      var i := IndexOf(t);
      if i.Some? && i.value < |items| then Some(items[i.value]) else None
    case _ => None
  }

  function Resolve(v: Value, tokens: seq<Token>): Option<Value>
    decreases |tokens|
  {
    if tokens == [] then Some(v)
    else
      var child := Child(v, tokens[0]);
      if child.None? then None else Resolve(child.value, tokens[1..])
  }
}
