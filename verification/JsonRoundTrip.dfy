/** The decoder reads back exactly the syntax tree that a text renders, whatever follows the text. */
module JsonRoundTrip {
  import opened Text
  import opened Json

  // ---------- what is read was written ----------

  lemma {:induction false} HeadAndTail(s: string)
    requires s != ""
    ensures s == [s[0]] + s[1..]
  {
  }

  lemma {:induction false} GapRead(s: string)
    ensures var (gap, t) := SkipGap(s); s == gap + t && AllOf(gap, IsGap) && (t != "" ==> !IsGap(t[0]))
  {
    SpanIsRun(s, IsGap);
  }

  lemma {:induction false} WordRead(s: string, k: nat)
    requires k <= |WORDS| && ParseWord(s, k).Some?
    ensures var (w, rest) := ParseWord(s, k).value; w in WORDS && s == w + rest
    decreases |WORDS| - k
  {
    if WORDS[k] <= s {
      assert s == WORDS[k] + s[|WORDS[k]|..];
    } else {
      WordRead(s, k + 1);
    }
  }

  lemma {:induction false} NumberReadWasWritten(s: string)
    requires ParseNumber(s).Some?
    ensures var (n, rest) := ParseNumber(s).value; ValidNumber(n) && s == EmitNumber(n, rest)
  {
    var (n, rest) := ParseNumber(s).value;
    var t := if n.negative then s[1..] else s;
    if n.negative {
      HeadAndTail(s);
    }
    assert s == (if n.negative then "-" else "") + t;
    DigitsRead(t, n, rest);
  }

  lemma {:induction false} ExponentRead(s: string)
    ensures var (mark, digits, rest) := ParseExponent(s);
            s == mark + (digits + rest) && IsMark(mark) && AllOf(digits, IsDigit) && (mark == "" <==> digits == "")
  {
    var (mark, digits, rest) := ParseExponent(s);
    if digits != "" {
      var m := ExponentMark(s);
      SpanIsRun(s[m..], IsDigit);
      assert s == s[..m] + s[m..] && s[m..] == digits + rest;
    } else {
      assert "" + ("" + s) == s;
    }
  }

  lemma {:induction false} FractionRead(s: string)
    ensures var (digits, rest) := ParseFraction(s);
            s == (if digits == "" then "" else "." + digits) + rest && AllOf(digits, IsDigit)
  {
    var (digits, rest) := ParseFraction(s);
    if digits != "" {
      HeadAndTail(s);
      SpanIsRun(s[1..], IsDigit);
      assert s[1..] == digits + rest;
    }
  }

  lemma {:induction false} WholeRead(s: string)
    ensures var (whole, rest) := ParseWhole(s);
            s == whole + rest && AllOf(whole, IsDigit) && (whole != "" && whole[0] == '0' ==> |whole| == 1)
  {
    SpanIsRun(s, IsDigit);
  }

  lemma {:induction false} DigitsRead(t: string, n: Number, rest: string)
    requires ParseWhole(t).0 == n.whole && n.whole != ""
    requires ParseFraction(ParseWhole(t).1).0 == n.fraction
    requires ParseExponent(ParseFraction(ParseWhole(t).1).1) == (n.mark, n.exponent, rest)
    ensures ValidNumber(n)
    ensures t == n.whole + ((if n.fraction == "" then "" else "." + n.fraction) + (n.mark + (n.exponent + rest)))
  {
    WholeRead(t);
    FractionRead(ParseWhole(t).1);
    ExponentRead(ParseFraction(ParseWhole(t).1).1);
  }

  lemma {:induction false} ScalarReadWasWritten(s: string)
    requires ParseScalar(s).Some?
    ensures var (j, rest) := ParseScalar(s).value; Valid(j) && s == Emit(j, rest)
  {
    if ParseWord(s, 0).None? {
      NumberReadWasWritten(s);
    } else {
      WordRead(s, 0);
    }
  }

  lemma {:induction false} ValueReadWasWritten(s: string)
    requires ParseValue(s).Some?
    ensures var (j, rest) := ParseValue(s).value; Valid(j) && s == Emit(j, rest)
    decreases |s|, 0
  {
    HeadAndTail(s);
    GapRead(s[1..]);
    var (gap, t) := SkipGap(s[1..]);
    if s[0] == '{' {
      if t != "" && t[0] == '}' {
        HeadAndTail(t);
      } else {
        MembersReadWereWritten(t);
      }
    } else if s[0] == '[' {
      if t != "" && t[0] == ']' {
        HeadAndTail(t);
      } else {
        ElementsReadWereWritten(t);
      }
    } else if s[0] != '"' {
      ScalarReadWasWritten(s);
    }
  }

  lemma {:induction false} ElementsReadWereWritten(s: string)
    requires ParseElements(s).Some?
    ensures var (es, rest) := ParseElements(s).value; ValidElements(es) && s == EmitElements(es, rest)
    decreases |s|, 1
  {
    ValueReadWasWritten(s);
    var (v, afterValue) := ParseValue(s).value;
    var (after, t) := SkipGap(afterValue);
    GapRead(afterValue);
    HeadAndTail(t);
    if t[0] == ',' {
      GapRead(t[1..]);
      ElementsReadWereWritten(SkipGap(t[1..]).1);
    }
  }

  lemma {:induction false} MemberReadWasWritten(s: string)
    requires ParseMember(s).Some?
    ensures var (m, rest) := ParseMember(s).value; ValidMember(m) && s == EmitMember(m, rest)
    decreases |s|, 1
  {
    HeadAndTail(s);
    var (key, afterKey) := ParseItems(s[1..]).value;
    var (beforeColon, t) := SkipGap(afterKey);
    GapRead(afterKey);
    HeadAndTail(t);
    GapRead(t[1..]);
    ValueReadWasWritten(SkipGap(t[1..]).1);
  }

  lemma {:induction false} MembersReadWereWritten(s: string)
    requires ParseMembers(s).Some?
    ensures var (ms, rest) := ParseMembers(s).value; ValidMembers(ms) && s == EmitMembers(ms, rest)
    decreases |s|, 2
  {
    MemberReadWasWritten(s);
    var (m, afterMember) := ParseMember(s).value;
    var (after, t) := SkipGap(afterMember);
    GapRead(afterMember);
    HeadAndTail(t);
    if t[0] == ',' {
      GapRead(t[1..]);
      MembersReadWereWritten(SkipGap(t[1..]).1);
    }
  }

  // ---------- what was written is read back ----------

  /** A number is only delimited by what follows it. */
  predicate EndsNumber(rest: string) {
    rest == "" || (!IsDigit(rest[0]) && rest[0] != '.' && rest[0] != 'e' && rest[0] != 'E')
  }

  lemma {:induction false} EmitItemsAppend(items: seq<Item>, a: string, b: string)
    ensures EmitItems(items, a) + b == EmitItems(items, a + b)
  {
    if items != [] {
      EmitItemsAppend(items[1..], a, b);
      var tail := EmitItems(items[1..], a);
      assert EmitItem(items[0], tail) + b == EmitItem(items[0], tail + b);
    }
  }

  lemma {:induction false} ParseItemFirst(i: Item, t: string)
    requires ValidItem(i)
    ensures ParseItems(EmitItem(i, t)) == Consed(i, EmitItem(i, t), ParseItems(t))
  {
    var s := EmitItem(i, t);
    match i {
      case Plain(c) => assert s[1..] == t;
      case Short(c) => assert s[2..] == t;
      case Hex(a, b, c, d) => assert s[6..] == t;
    }
  }

  lemma {:induction false} ParseItemsEmit(items: seq<Item>, rest: string)
    requires ValidItems(items)
    ensures ParseItems(EmitItems(items, "\"" + rest)) == Some((items, rest))
  {
    var tail := "\"" + rest;
    if items == [] {
      assert tail[1..] == rest;
    } else {
      ParseItemsEmit(items[1..], rest);
      ParseItemFirst(items[0], EmitItems(items[1..], tail));
      assert [items[0]] + items[1..] == items;
    }
  }

  lemma {:induction false} ParseWholeEmit(whole: string, rest: string)
    requires whole != "" && AllOf(whole, IsDigit) && (whole[0] == '0' ==> |whole| == 1)
    requires rest == "" || !IsDigit(rest[0])
    ensures ParseWhole(whole + rest) == (whole, rest)
  {
    SpanOfRun(whole, rest, IsDigit);
  }

  lemma {:induction false} ParseFractionEmit(fraction: string, rest: string)
    requires AllOf(fraction, IsDigit)
    requires rest == "" || (!IsDigit(rest[0]) && rest[0] != '.')
    ensures ParseFraction((if fraction == "" then "" else "." + fraction) + rest) == (fraction, rest)
  {
    if fraction == "" {
      assert "" + rest == rest;
    } else {
      var s := "." + fraction + rest;
      assert s[1..] == fraction + rest;
      SpanOfRun(fraction, rest, IsDigit);
    }
  }

  lemma {:induction false} ParseExponentEmit(mark: string, exponent: string, rest: string)
    requires IsMark(mark) && AllOf(exponent, IsDigit) && (mark == "" <==> exponent == "")
    requires EndsNumber(rest)
    ensures ParseExponent(mark + (exponent + rest)) == (mark, exponent, rest)
  {
    var t := exponent + rest;
    var s := mark + t;
    if mark == "" {
      assert s == rest;
    } else {
      assert ExponentMark(s) == |mark|;
      assert s[..|mark|] == mark && s[|mark|..] == t;
      SpanOfRun(exponent, rest, IsDigit);
    }
  }

  lemma {:induction false} ParseNumberEmit(n: Number, rest: string)
    requires ValidNumber(n) && EndsNumber(rest)
    ensures ParseNumber(EmitNumber(n, rest)) == Some((n, rest))
  {
    var afterFraction := n.mark + (n.exponent + rest);
    ParseExponentEmit(n.mark, n.exponent, rest);
    assert afterFraction == "" || (!IsDigit(afterFraction[0]) && afterFraction[0] != '.') by {
      assert n.mark == "" ==> afterFraction == rest;
      assert n.mark != "" ==> afterFraction[0] == n.mark[0];
    }
    var fraction := if n.fraction == "" then "" else "." + n.fraction;
    var afterWhole := fraction + afterFraction;
    ParseFractionEmit(n.fraction, afterFraction);
    ParseSignAndWhole(n, afterWhole);
  }

  lemma {:induction false} ParseSignAndWhole(n: Number, afterWhole: string)
    requires n.whole != "" && AllOf(n.whole, IsDigit) && (n.whole[0] == '0' ==> |n.whole| == 1)
    requires afterWhole == "" || !IsDigit(afterWhole[0])
    ensures var s := (if n.negative then "-" else "") + (n.whole + afterWhole);
            && (s != "" && s[0] == '-' <==> n.negative)
            && ParseWhole(if n.negative then s[1..] else s) == (n.whole, afterWhole)
  {
    var t := n.whole + afterWhole;
    assert ("-" + t)[1..] == t && "" + t == t && t[0] == n.whole[0];
    ParseWholeEmit(n.whole, afterWhole);
  }

  lemma {:induction false} ParseWordEmit(w: string, rest: string)
    requires w in WORDS
    ensures ParseWord(w + rest, 0) == Some((w, rest))
  {
    var s := w + rest;
    assert s[|w|..] == rest;
    ParseWordFrom(w, rest, 0);
  }

  lemma {:induction false} ParseWordFrom(w: string, rest: string, k: nat)
    requires k < |WORDS| && w in WORDS[k..]
    ensures ParseWord(w + rest, k) == Some((w, rest))
    decreases |WORDS| - k
  {
    var s := w + rest;
    assert s[|w|..] == rest && w <= s;
    if WORDS[k] != w {
      assert !(WORDS[k] <= s) by {
        assert s[0] == w[0] && s[1] == w[1];
      }
      assert WORDS[k..] == [WORDS[k]] + WORDS[k + 1..];
      ParseWordFrom(w, rest, k + 1);
    }
  }

  lemma {:induction false} SkipGapEmit(gap: string, rest: string)
    requires AllOf(gap, IsGap) && (rest != "" ==> !IsGap(rest[0]))
    ensures SkipGap(gap + rest) == (gap, rest)
  {
    SpanOfRun(gap, rest, IsGap);
  }

  lemma {:induction false} EmitNumberStart(n: Number, rest: string)
    requires ValidNumber(n)
    ensures var s := EmitNumber(n, rest); s != "" && (s[0] == '-' || IsDigit(s[0])) && ParseWord(s, 0).None?
  {
    var s := EmitNumber(n, rest);
    assert IsDigit(n.whole[0]);
    assert s[0] == if n.negative then '-' else n.whole[0];
    assert n.negative ==> s[1] == n.whole[0];
    assert forall k | 0 <= k < |WORDS| :: !(WORDS[k] <= s);
    NoWord(s, 0);
  }

  /** Every value starts with a character of its own that no bracket, separator or white space shares. */
  lemma {:induction false} EmitStart(j: Json, rest: string)
    requires Valid(j)
    ensures var s := Emit(j, rest); s != "" && !IsGap(s[0]) && s[0] !in "]},:"
    ensures Emit(j, rest)[0] == '{' <==> IsObject(j)
  {
    match j {
      case Num(n) => EmitNumberStart(n, rest);
      case Word(w) => assert (w + rest)[0] == w[0];
      case _ =>
    }
  }

  lemma {:induction false} NoWord(s: string, k: nat)
    requires k <= |WORDS| && forall i | 0 <= i < |WORDS| :: !(WORDS[i] <= s)
    ensures ParseWord(s, k).None?
    decreases |WORDS| - k
  {
    if k < |WORDS| {
      NoWord(s, k + 1);
    }
  }

  lemma {:induction false} ParseEmit(j: Json, rest: string)
    requires Valid(j) && (j.Num? ==> EndsNumber(rest))
    ensures ParseValue(Emit(j, rest)) == Some((j, rest))
    decreases j, 0
  {
    match j {
      case Str(items) => ParseStr(items, rest);
      case Num(n) => ParseNum(n, rest);
      case Word(w) => ParseBareWord(w, rest);
      case EmptyArr(gap) => ParseEmptyBrackets(gap, rest);
      case Arr(gap, es) =>
        ParseElementsEmit(es, rest);
        ParseArr(gap, EmitElements(es, rest), es, rest);
      case EmptyObj(gap) => ParseEmptyBrackets(gap, rest);
      case Obj(gap, ms) =>
        ParseMembersEmit(ms, rest);
        ParseObj(gap, EmitMembers(ms, rest), ms, rest);
    }
  }

  lemma {:induction false} NumberIsValue(s: string, n: Number, rest: string)
    requires s != "" && (s[0] == '-' || IsDigit(s[0])) && ParseScalar(s) == Some((Num(n), rest))
    ensures ParseValue(s) == Some((Num(n), rest))
  {
    ScalarIsValue(s);
  }

  lemma {:induction false} NumberIsScalar(s: string, n: Number, rest: string)
    requires ParseWord(s, 0).None? && ParseNumber(s) == Some((n, rest))
    ensures ParseScalar(s) == Some((Num(n), rest))
  {
  }

  lemma {:induction false} ParseNum(n: Number, rest: string)
    requires ValidNumber(n) && EndsNumber(rest)
    ensures ParseValue(EmitNumber(n, rest)) == Some((Num(n), rest))
  {
    EmitNumberStart(n, rest);
    ParseNumberEmit(n, rest);
    NumberIsScalar(EmitNumber(n, rest), n, rest);
    NumberIsValue(EmitNumber(n, rest), n, rest);
  }

  lemma {:induction false} ParseBareWord(w: string, rest: string)
    requires w in WORDS
    ensures ParseValue(w + rest) == Some((Word(w), rest))
  {
    ParseWordEmit(w, rest);
    assert (w + rest)[0] == w[0];
    ScalarIsValue(w + rest);
  }

  lemma {:induction false} ScalarIsValue(s: string)
    requires s != "" && s[0] !in "\"{["
    ensures ParseValue(s) == ParseScalar(s)
  {
  }

  lemma {:induction false} ParseStr(items: seq<Item>, rest: string)
    requires ValidItems(items)
    ensures ParseValue("\"" + EmitItems(items, "\"" + rest)) == Some((Str(items), rest))
  {
    var t := EmitItems(items, "\"" + rest);
    assert ("\"" + t)[1..] == t;
    ParseItemsEmit(items, rest);
  }

  lemma {:induction false} ParseEmptyBrackets(gap: string, rest: string)
    requires AllOf(gap, IsGap)
    ensures ParseValue("[" + (gap + ("]" + rest))) == Some((EmptyArr(gap), rest))
    ensures ParseValue("{" + (gap + ("}" + rest))) == Some((EmptyObj(gap), rest))
  {
    var t, u := "]" + rest, "}" + rest;
    assert ("[" + (gap + t))[1..] == gap + t && t[1..] == rest;
    assert ("{" + (gap + u))[1..] == gap + u && u[1..] == rest;
    SkipGapEmit(gap, t);
    SkipGapEmit(gap, u);
  }

  lemma {:induction false} ParseArr(gap: string, t: string, es: Elements, rest: string)
    requires AllOf(gap, IsGap) && t != "" && !IsGap(t[0]) && t[0] != ']'
    requires ParseElements(t) == Some((es, rest))
    ensures ParseValue("[" + (gap + t)) == Some((Arr(gap, es), rest))
  {
    assert ("[" + (gap + t))[1..] == gap + t;
    SkipGapEmit(gap, t);
  }

  lemma {:induction false} ParseObj(gap: string, t: string, ms: Members, rest: string)
    requires AllOf(gap, IsGap) && t != "" && !IsGap(t[0]) && t[0] != '}'
    requires ParseMembers(t) == Some((ms, rest))
    ensures ParseValue("{" + (gap + t)) == Some((Obj(gap, ms), rest))
  {
    assert ("{" + (gap + t))[1..] == gap + t;
    SkipGapEmit(gap, t);
  }

  lemma {:induction false} GapEndsNumber(gap: string, rest: string)
    requires AllOf(gap, IsGap) && EndsNumber(rest)
    ensures EndsNumber(gap + rest)
  {
    assert gap == "" ==> gap + rest == rest;
    assert gap != "" ==> (gap + rest)[0] == gap[0];
  }

  lemma {:induction false} ParseElementsEmit(es: Elements, rest: string)
    requires ValidElements(es)
    ensures var s := EmitElements(es, rest); s != "" && !IsGap(s[0]) && s[0] != ']'
    ensures ParseElements(EmitElements(es, rest)) == Some((es, rest))
    decreases es, 0
  {
    match es {
      case LastElement(v, after) =>
        ElementBefore(v, after, "]" + rest);
        assert ("]" + rest)[1..] == rest;
      case MoreElements(v, after, before, tail) =>
        var u := EmitElements(tail, rest);
        ParseElementsEmit(tail, rest);
        SkipGapEmit(before, u);
        ElementBefore(v, after, "," + (before + u));
        assert ("," + (before + u))[1..] == before + u;
    }
  }

  lemma {:induction false} ElementBefore(v: Json, after: string, t: string)
    requires Valid(v) && AllOf(after, IsGap) && t != "" && (t[0] == ']' || t[0] == ',')
    ensures var s := Emit(v, after + t);
            && s != "" && !IsGap(s[0]) && s[0] != ']'
            && (t[0] == ']' ==> ParseElements(s) == Some((LastElement(v, after), t[1..])))
            && (t[0] == ',' ==>
                  var (before, u) := SkipGap(t[1..]);
                  var r := ParseElements(u);
                  r.Some? ==> ParseElements(s) == Some((MoreElements(v, after, before, r.value.0), r.value.1)))
    decreases v, 1
  {
    GapEndsNumber(after, t);
    EmitStart(v, after + t);
    ParseEmit(v, after + t);
    SkipGapEmit(after, t);
    ParseElementsStep(Emit(v, after + t), v, after, t);
  }

  lemma {:induction false} ParseElementsStep(s: string, v: Json, after: string, t: string)
    requires ParseValue(s) == Some((v, after + t)) && t != "" && SkipGap(after + t) == (after, t)
    ensures t[0] == ']' ==> ParseElements(s) == Some((LastElement(v, after), t[1..]))
    ensures t[0] == ',' ==>
              var (before, u) := SkipGap(t[1..]);
              var r := ParseElements(u);
              r.Some? ==> ParseElements(s) == Some((MoreElements(v, after, before, r.value.0), r.value.1))
  {
  }

  lemma {:induction false} ParseMemberEmit(m: Member, rest: string)
    requires ValidMember(m) && EndsNumber(rest)
    ensures EmitMember(m, rest)[0] == '"'
    ensures ParseMember(EmitMember(m, rest)) == Some((m, rest))
    decreases m, 0
  {
    var u := Emit(m.value, rest);
    var t := ":" + (m.afterColon + u);
    var afterKey := m.beforeColon + t;
    var s := EmitMember(m, rest);
    assert s[1..] == EmitItems(m.key, "\"" + afterKey);
    ParseItemsEmit(m.key, afterKey);
    SkipGapEmit(m.beforeColon, t);
    EmitStart(m.value, rest);
    SkipGapEmit(m.afterColon, u);
    assert t[1..] == m.afterColon + u;
    ParseEmit(m.value, rest);
  }

  lemma {:induction false} ParseMembersEmit(ms: Members, rest: string)
    requires ValidMembers(ms)
    ensures var s := EmitMembers(ms, rest); s != "" && s[0] == '"'
    ensures ParseMembers(EmitMembers(ms, rest)) == Some((ms, rest))
    decreases ms, 0
  {
    match ms {
      case LastMember(m, after) =>
        MemberBefore(m, after, "}" + rest);
        assert ("}" + rest)[1..] == rest;
      case MoreMembers(m, after, before, tail) =>
        var u := EmitMembers(tail, rest);
        ParseMembersEmit(tail, rest);
        SkipGapEmit(before, u);
        MemberBefore(m, after, "," + (before + u));
        assert ("," + (before + u))[1..] == before + u;
    }
  }

  lemma {:induction false} MemberBefore(m: Member, after: string, t: string)
    requires ValidMember(m) && AllOf(after, IsGap) && t != "" && (t[0] == '}' || t[0] == ',')
    ensures var s := EmitMember(m, after + t);
            && s != "" && s[0] == '"'
            && (t[0] == '}' ==> ParseMembers(s) == Some((LastMember(m, after), t[1..])))
            && (t[0] == ',' ==>
                  var (before, u) := SkipGap(t[1..]);
                  var r := ParseMembers(u);
                  r.Some? ==> ParseMembers(s) == Some((MoreMembers(m, after, before, r.value.0), r.value.1)))
    decreases m, 1
  {
    GapEndsNumber(after, t);
    ParseMemberEmit(m, after + t);
    SkipGapEmit(after, t);
    ParseMembersStep(EmitMember(m, after + t), m, after, t);
  }

  lemma {:induction false} ParseMembersStep(s: string, m: Member, after: string, t: string)
    requires ParseMember(s) == Some((m, after + t)) && t != "" && SkipGap(after + t) == (after, t)
    ensures t[0] == '}' ==> ParseMembers(s) == Some((LastMember(m, after), t[1..]))
    ensures t[0] == ',' ==>
              var (before, u) := SkipGap(t[1..]);
              var r := ParseMembers(u);
              r.Some? ==> ParseMembers(s) == Some((MoreMembers(m, after, before, r.value.0), r.value.1))
  {
  }

  lemma {:induction false} EmitNumberAppend(n: Number, a: string, b: string)
    ensures EmitNumber(n, a) + b == EmitNumber(n, a + b)
  {
    assert (n.exponent + a) + b == n.exponent + (a + b);
  }

  lemma {:induction false} EmitAppend(j: Json, a: string, b: string)
    ensures Emit(j, a) + b == Emit(j, a + b)
  {
    match j {
      case Str(items) =>
        EmitItemsAppend(items, "\"" + a, b);
        assert ("\"" + a) + b == "\"" + (a + b);
      case Num(n) => EmitNumberAppend(n, a, b);
      case Word(w) => assert (w + a) + b == w + (a + b);
      case EmptyArr(gap) => assert ("[" + (gap + ("]" + a))) + b == "[" + (gap + ("]" + (a + b)));
      case Arr(gap, es) =>
        EmitElementsAppend(es, a, b);
        assert ("[" + (gap + EmitElements(es, a))) + b == "[" + (gap + (EmitElements(es, a) + b));
      case EmptyObj(gap) => assert ("{" + (gap + ("}" + a))) + b == "{" + (gap + ("}" + (a + b)));
      case Obj(gap, ms) =>
        EmitMembersAppend(ms, a, b);
        assert ("{" + (gap + EmitMembers(ms, a))) + b == "{" + (gap + (EmitMembers(ms, a) + b));
    }
  }

  lemma {:induction false} EmitElementsAppend(es: Elements, a: string, b: string)
    ensures EmitElements(es, a) + b == EmitElements(es, a + b)
  {
    match es {
      case LastElement(v, after) =>
        EmitAppend(v, after + ("]" + a), b);
        assert (after + ("]" + a)) + b == after + ("]" + (a + b));
      case MoreElements(v, after, before, tail) =>
        var u := EmitElements(tail, a);
        EmitElementsAppend(tail, a, b);
        EmitAppend(v, after + ("," + (before + u)), b);
        assert (after + ("," + (before + u))) + b == after + ("," + (before + (u + b)));
    }
  }

  lemma {:induction false} EmitMemberAppend(m: Member, a: string, b: string)
    ensures EmitMember(m, a) + b == EmitMember(m, a + b)
  {
    var u := Emit(m.value, a);
    EmitAppend(m.value, a, b);
    var t := "\"" + (m.beforeColon + (":" + (m.afterColon + u)));
    EmitItemsAppend(m.key, t, b);
    assert t + b == "\"" + (m.beforeColon + (":" + (m.afterColon + (u + b))));
  }

  lemma {:induction false} EmitMembersAppend(ms: Members, a: string, b: string)
    ensures EmitMembers(ms, a) + b == EmitMembers(ms, a + b)
  {
    match ms {
      case LastMember(m, after) =>
        EmitMemberAppend(m, after + ("}" + a), b);
        assert (after + ("}" + a)) + b == after + ("}" + (a + b));
      case MoreMembers(m, after, before, tail) =>
        var u := EmitMembers(tail, a);
        EmitMembersAppend(tail, a, b);
        EmitMemberAppend(m, after + ("," + (before + u)), b);
        assert (after + ("," + (before + u))) + b == after + ("," + (before + (u + b)));
    }
  }

  /** The decoder accepts exactly the object texts of the grammar, in front of anything. */
  lemma {:induction false} ObjectDecodedIff(s: string, j: Json, rest: string)
    requires IsObject(j)
    ensures ParseValue(s) == Some((j, rest)) <==> Valid(j) && s == Render(j) + rest
  {
    EmitAppend(j, "", rest);
    assert "" + rest == rest;
    if ParseValue(s) == Some((j, rest)) {
      ValueReadWasWritten(s);
    }
    if Valid(j) {
      ParseEmit(j, rest);
    }
  }
}
