/** What a JSON text means to the caller: the Python value that the decoder builds. */
module JsonValue {
  import opened Json

  /** Text is kept as code points, because a lone `\uD800` escape decodes to a lone surrogate. */
  datatype Value =
    | Constant(word: string)
    | Numeral(number: Number)
    | Text(points: seq<int>)
    | List(items: seq<Value>)
    | Dict(members: map<seq<int>, Value>)

  function HexDigit(c: char): int {
    if c <= '9' then c as int - '0' as int
    else if c >= 'a' then c as int - 'a' as int + 10
    else c as int - 'A' as int + 10
  }

  function CodeUnit(i: Item): int {
    match i
    case Plain(c) => c as int
    case Short('b') => 8
    case Short('f') => 12
    case Short('n') => 10
    case Short('r') => 13
    case Short('t') => 9
    case Short(c) => c as int
    case Hex(a, b, c, d) => HexDigit(a) * 4096 + HexDigit(b) * 256 + HexDigit(c) * 16 + HexDigit(d)
  }

  /** An escaped high surrogate directly followed by an escaped low one is a single character. */
  function Points(items: seq<Item>): seq<int> {
    if items == [] then []
    else if |items| >= 2 && items[0].Hex? && items[1].Hex?
            && 0xD800 <= CodeUnit(items[0]) <= 0xDBFF && 0xDC00 <= CodeUnit(items[1]) <= 0xDFFF then
      [0x10000 + (CodeUnit(items[0]) - 0xD800) * 1024 + (CodeUnit(items[1]) - 0xDC00)] + Points(items[2..])
    else [CodeUnit(items[0])] + Points(items[1..])
  }

  function PointsOf(s: string): seq<int> {
    seq(|s|, i requires 0 <= i < |s| => s[i] as int)
  }

  function Denote(j: Json): Value {
    match j
    case Str(items) => Text(Points(items))
    case Num(n) => Numeral(n)
    case Word(w) => Constant(w)
    case EmptyArr(_) => List([])
    case Arr(_, es) => List(DenoteElements(es))
    case EmptyObj(_) => Dict(map[])
    case Obj(_, ms) => Dict(DenoteMembers(ms))
  }

  function DenoteElements(es: Elements): seq<Value> {
    [Denote(es.value)] + if es.LastElement? then [] else DenoteElements(es.tail)
  }

  /** Of two members with the same name the later one counts. */
  function DenoteMembers(ms: Members): map<seq<int>, Value> {
    map[Points(ms.member.key) := Denote(ms.member.value)]
    + if ms.LastMember? then map[] else DenoteMembers(ms.tail)
  }
}
