/**
 The JSON texts accepted by Python's `json.JSONDecoder().raw_decode`, as concrete syntax that keeps every
 character, and the recursive-descent decoder itself.  Sections 2 to 7 of RFC 8259 give the grammar; the decoder
 additionally takes the words NaN, Infinity and -Infinity.
 */
module Json {
  import opened Text

  // ---------- concrete syntax ----------

  /** One character of a string literal: itself, a two-character escape, or a `\uXXXX` escape. */
  datatype Item =
    | Plain(c: char)
    | Short(c: char)
    | Hex(h0: char, h1: char, h2: char, h3: char)

  /** `mark` is the exponent letter with its sign; empty `fraction` or `mark` means that part is absent. */
  datatype Number = Number(negative: bool, whole: string, fraction: string, mark: string, exponent: string)

  datatype Json =
    | Str(items: seq<Item>)
    | Num(number: Number)
    | Word(word: string)
    | EmptyArr(gap: string)
    | Arr(gap: string, elements: Elements)
    | EmptyObj(gap: string)
    | Obj(gap: string, members: Members)

  datatype Elements =
    | LastElement(value: Json, after: string)
    | MoreElements(value: Json, after: string, before: string, tail: Elements)

  datatype Member = Member(key: seq<Item>, beforeColon: string, afterColon: string, value: Json)

  datatype Members =
    | LastMember(member: Member, after: string)
    | MoreMembers(member: Member, after: string, before: string, tail: Members)

  const WORDS: seq<string> := ["null", "true", "false", "NaN", "Infinity", "-Infinity"]

  predicate IsGap(c: char) { c == ' ' || c == '\t' || c == '\n' || c == '\r' }

  predicate IsDigit(c: char) { '0' <= c <= '9' }

  predicate IsHex(c: char) { IsDigit(c) || 'a' <= c <= 'f' || 'A' <= c <= 'F' }

  predicate IsShortEscape(c: char) {
    c == '"' || c == '\\' || c == '/' || c == 'b' || c == 'f' || c == 'n' || c == 'r' || c == 't'
  }

  /** An exponent letter with an optional sign, or nothing. */
  predicate IsMark(m: string) {
    && |m| <= 2
    && (|m| >= 1 ==> m[0] == 'e' || m[0] == 'E')
    && (|m| == 2 ==> m[1] == '+' || m[1] == '-')
  }

  ghost predicate ValidItem(i: Item) {
    match i
    case Plain(c) => c >= ' ' && c != '"' && c != '\\'
    case Short(c) => IsShortEscape(c)
    case Hex(a, b, c, d) => IsHex(a) && IsHex(b) && IsHex(c) && IsHex(d)
  }

  ghost predicate ValidItems(items: seq<Item>) {
    forall i | 0 <= i < |items| :: ValidItem(items[i])
  }

  ghost predicate ValidNumber(n: Number) {
    && n.whole != "" && AllOf(n.whole, IsDigit) && (n.whole[0] == '0' ==> |n.whole| == 1)
    && AllOf(n.fraction, IsDigit) && AllOf(n.exponent, IsDigit)
    && IsMark(n.mark)
    && (n.mark == "" <==> n.exponent == "")
  }

  ghost predicate Valid(j: Json) {
    match j
    case Str(items) => ValidItems(items)
    case Num(n) => ValidNumber(n)
    case Word(w) => w in WORDS
    case EmptyArr(gap) => AllOf(gap, IsGap)
    case Arr(gap, es) => AllOf(gap, IsGap) && ValidElements(es)
    case EmptyObj(gap) => AllOf(gap, IsGap)
    case Obj(gap, ms) => AllOf(gap, IsGap) && ValidMembers(ms)
  }

  ghost predicate ValidElements(es: Elements) {
    && Valid(es.value) && AllOf(es.after, IsGap)
    && (es.MoreElements? ==> AllOf(es.before, IsGap) && ValidElements(es.tail))
  }

  ghost predicate ValidMember(m: Member) {
    ValidItems(m.key) && AllOf(m.beforeColon, IsGap) && AllOf(m.afterColon, IsGap) && Valid(m.value)
  }

  ghost predicate ValidMembers(ms: Members) {
    && ValidMember(ms.member) && AllOf(ms.after, IsGap)
    && (ms.MoreMembers? ==> AllOf(ms.before, IsGap) && ValidMembers(ms.tail))
  }

  // ---------- the text of a syntax tree, in front of `rest` ----------

  function EmitItem(i: Item, rest: string): string {
    match i
    case Plain(c) => [c] + rest
    case Short(c) => ['\\', c] + rest
    case Hex(a, b, c, d) => ['\\', 'u', a, b, c, d] + rest
  }

  function EmitItems(items: seq<Item>, rest: string): (r: string)
    ensures |r| >= |rest|
  {
    if items == [] then rest else EmitItem(items[0], EmitItems(items[1..], rest))
  }

  function EmitNumber(n: Number, rest: string): string {
    var fraction := if n.fraction == "" then "" else "." + n.fraction;
    (if n.negative then "-" else "") + (n.whole + (fraction + (n.mark + (n.exponent + rest))))
  }

  function Emit(j: Json, rest: string): string {
    match j
    case Str(items) => "\"" + EmitItems(items, "\"" + rest)
    case Num(n) => EmitNumber(n, rest)
    case Word(w) => w + rest
    case EmptyArr(gap) => "[" + (gap + ("]" + rest))
    case Arr(gap, es) => "[" + (gap + EmitElements(es, rest))
    case EmptyObj(gap) => "{" + (gap + ("}" + rest))
    case Obj(gap, ms) => "{" + (gap + EmitMembers(ms, rest))
  }

  function EmitElements(es: Elements, rest: string): string {
    match es
    case LastElement(v, after) => Emit(v, after + ("]" + rest))
    case MoreElements(v, after, before, tail) => Emit(v, after + ("," + (before + EmitElements(tail, rest))))
  }

  function EmitMember(m: Member, rest: string): string {
    "\"" + EmitItems(m.key, "\"" + (m.beforeColon + (":" + (m.afterColon + Emit(m.value, rest)))))
  }

  function EmitMembers(ms: Members, rest: string): string {
    match ms
    case LastMember(m, after) => EmitMember(m, after + ("}" + rest))
    case MoreMembers(m, after, before, tail) => EmitMember(m, after + ("," + (before + EmitMembers(tail, rest))))
  }

  /** The characters of one JSON text. */
  function Render(j: Json): string { Emit(j, "") }

  predicate IsObject(j: Json) { j.Obj? || j.EmptyObj? }

  // ---------- the decoder ----------

  function ParseItems(s: string): (r: Option<(seq<Item>, string)>)
    ensures r.Some? ==> ValidItems(r.value.0) && s == EmitItems(r.value.0, "\"" + r.value.1)
    ensures r.Some? ==> |r.value.1| < |s|
  {
    if s == "" then None
    else if s[0] == '"' then
      assert s == "\"" + s[1..];
      Some(([], s[1..]))
    else if s[0] == '\\' then
      if |s| >= 2 && IsShortEscape(s[1]) then
        Consed(Short(s[1]), s, ParseItems(s[2..]))
      else if |s| >= 6 && s[1] == 'u' && IsHex(s[2]) && IsHex(s[3]) && IsHex(s[4]) && IsHex(s[5]) then
        Consed(Hex(s[2], s[3], s[4], s[5]), s, ParseItems(s[6..]))
      else None
    else if s[0] < ' ' then None
    else Consed(Plain(s[0]), s, ParseItems(s[1..]))
  }

  function Consed(i: Item, s: string, r: Option<(seq<Item>, string)>): (c: Option<(seq<Item>, string)>)
    requires ValidItem(i)
    requires r.Some? ==> ValidItems(r.value.0) && s == EmitItem(i, EmitItems(r.value.0, "\"" + r.value.1))
    ensures c.Some? <==> r.Some?
    ensures c.Some? ==> c.value.1 == r.value.1 && c.value.0 == [i] + r.value.0
    ensures c.Some? ==> ValidItems(c.value.0) && s == EmitItems(c.value.0, "\"" + c.value.1)
  {
    match r
    case None => None
    case Some((items, rest)) =>
      assert ([i] + items)[1..] == items;
      Some(([i] + items, rest))
  }

  function ExponentMark(s: string): (m: nat)
    ensures m <= |s|
  {
    if s != "" && (s[0] == 'e' || s[0] == 'E') then
      if |s| >= 2 && (s[1] == '+' || s[1] == '-') then 2 else 1
    else 0
  }

  function ParseExponent(s: string): (r: (string, string, string))
    ensures |r.2| <= |s|
  {
    var m := ExponentMark(s);
    var x := if m > 0 then Span(s[m..], IsDigit) else 0;
    if x == 0 then ("", "", s) else (s[..m], s[m..][..x], s[m..][x..])
  }

  function ParseFraction(s: string): (r: (string, string))
    ensures |r.1| <= |s|
  {
    var f := if s != "" && s[0] == '.' then Span(s[1..], IsDigit) else 0;
    if f == 0 then ("", s) else (s[1..][..f], s[1..][f..])
  }

  /** The integer digits: a lone zero, or a run that does not start with zero. */
  function ParseWhole(s: string): (r: (string, string))
    ensures |r.0| + |r.1| == |s|
  {
    var w := if s != "" && s[0] == '0' then 1 else Span(s, IsDigit);
    (s[..w], s[w..])
  }

  function ParseNumber(s: string): (r: Option<(Number, string)>)
    ensures r.Some? ==> |r.value.1| < |s|
  {
    var negative := s != "" && s[0] == '-';
    var (whole, afterWhole) := ParseWhole(if negative then s[1..] else s);
    if whole == "" then None
    else
      var (fraction, afterFraction) := ParseFraction(afterWhole);
      var (mark, exponent, rest) := ParseExponent(afterFraction);
      Some((Number(negative, whole, fraction, mark, exponent), rest))
  }

  function ParseWord(s: string, k: nat): (r: Option<(string, string)>)
    requires k <= |WORDS|
    ensures r.Some? ==> |r.value.1| < |s|
    decreases |WORDS| - k
  {
    if k == |WORDS| then None
    else if WORDS[k] <= s then
      assert |WORDS[k]| > 0;
      Some((WORDS[k], s[|WORDS[k]|..]))
    else ParseWord(s, k + 1)
  }

  /** A bare word, or else a number. */
  function ParseScalar(s: string): (r: Option<(Json, string)>)
    ensures r.Some? ==> |r.value.1| < |s|
  {
    var w := ParseWord(s, 0);
    if w.Some? then Some((Word(w.value.0), w.value.1))
    else
      var n := ParseNumber(s);
      if n.None? then None else Some((Num(n.value.0), n.value.1))
  }

  /** Drops the JSON white space in front of a token. */
  function SkipGap(s: string): (r: (string, string))
    ensures |r.1| <= |s|
  {
    var n := Span(s, IsGap);
    (s[..n], s[n..])
  }

  /** `raw_decode` at the start of `s`: the value read and what follows it, or nothing when it raises. */
  function ParseValue(s: string): (r: Option<(Json, string)>)
    ensures r.Some? ==> |r.value.1| < |s|
    decreases |s|, 0
  {
    if s == "" then None
    else if s[0] == '"' then
      var r := ParseItems(s[1..]);
      if r.None? then None else Some((Str(r.value.0), r.value.1))
    else if s[0] == '{' then
      var (gap, t) := SkipGap(s[1..]);
      if t != "" && t[0] == '}' then
        Some((EmptyObj(gap), t[1..]))
      else
        var r := ParseMembers(t);
        if r.None? then None else Some((Obj(gap, r.value.0), r.value.1))
    else if s[0] == '[' then
      var (gap, t) := SkipGap(s[1..]);
      if t != "" && t[0] == ']' then
        Some((EmptyArr(gap), t[1..]))
      else
        var r := ParseElements(t);
        if r.None? then None else Some((Arr(gap, r.value.0), r.value.1))
    else
      ParseScalar(s)
  }

  function ParseElements(s: string): (r: Option<(Elements, string)>)
    ensures r.Some? ==> |r.value.1| < |s|
    decreases |s|, 1
  {
    var v := ParseValue(s);
    if v.None? then None
    else
      var (after, t) := SkipGap(v.value.1);
      if t == "" then None
      else if t[0] == ']' then
        Some((LastElement(v.value.0, after), t[1..]))
      else if t[0] == ',' then
        var (before, u) := SkipGap(t[1..]);
        var r := ParseElements(u);
        if r.None? then None else Some((MoreElements(v.value.0, after, before, r.value.0), r.value.1))
      else None
  }

  function ParseMember(s: string): (r: Option<(Member, string)>)
    ensures r.Some? ==> |r.value.1| < |s|
    decreases |s|, 1
  {
    if s == "" || s[0] != '"' then None
    else
      var key := ParseItems(s[1..]);
      if key.None? then None
      else
        var (beforeColon, t) := SkipGap(key.value.1);
        if t == "" || t[0] != ':' then None
        else
          var (afterColon, u) := SkipGap(t[1..]);
          var v := ParseValue(u);
          if v.None? then None
          else Some((Member(key.value.0, beforeColon, afterColon, v.value.0), v.value.1))
  }

  function ParseMembers(s: string): (r: Option<(Members, string)>)
    ensures r.Some? ==> |r.value.1| < |s|
    decreases |s|, 2
  {
    var m := ParseMember(s);
    if m.None? then None
    else
      var (after, t) := SkipGap(m.value.1);
      if t == "" then None
      else if t[0] == '}' then
        Some((LastMember(m.value.0, after), t[1..]))
      else if t[0] == ',' then
        var (before, u) := SkipGap(t[1..]);
        var r := ParseMembers(u);
        if r.None? then None else Some((MoreMembers(m.value.0, after, before, r.value.0), r.value.1))
      else None
  }
}
