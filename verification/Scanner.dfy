/**
 The bracket-and-string scanner that tells an incomplete buffer from a malformed one, and its soundness against
 the grammar: it is silent on every complete object text and true on every non-empty proper prefix of one.
 */
module Scanner {
  import opened Text
  import opened Json
  import opened JsonRoundTrip

  /** `Dead` is reached at a closing bracket that matches nothing. */
  datatype State = Dead | Live(stack: seq<char>, inString: bool, escaped: bool)

  function Clean(stack: seq<char>): State { Live(stack, false, false) }

  function Closed(st: State, open: char): State
    requires st.Live?
  {
    if st.stack == [] || st.stack[|st.stack| - 1] != open then Dead
    else st.(stack := st.stack[..|st.stack| - 1])
  }

  function Step(st: State, c: char): State {
    if st.Dead? then Dead
    else if st.escaped then st.(escaped := false)
    else if c == '\\' then st.(escaped := true)
    else if c == '"' then st.(inString := !st.inString)
    else if st.inString then st
    else if c == '{' || c == '[' then st.(stack := st.stack + [c])
    else if c == '}' then Closed(st, '{')
    else if c == ']' then Closed(st, '[')
    else st
  }

  function Scan(st: State, s: string): State {
    if s == "" then st else Step(Scan(st, s[..|s| - 1]), s[|s| - 1])
  }

  predicate LooksIncomplete(s: string) {
    var st := Scan(Clean([]), s);
    st.Live? && (st.inString || st.stack != [])
  }

  /** The scanner as the source runs it: one pass over the buffer, giving up at the first bad bracket. */
  method ScanBuffer(buffer: string) returns (incomplete: bool)
    ensures incomplete == LooksIncomplete(buffer)
  {
    var stack: seq<char> := [];
    var inString, escaped := false, false;
    var i := 0;
    while i < |buffer|
      invariant i <= |buffer|
      invariant Scan(Clean([]), buffer[..i]) == Live(stack, inString, escaped)
    {
      var c := buffer[i];
      assert buffer[..i + 1][..i] == buffer[..i];
      i := i + 1;
      if escaped {
        escaped := false;
        continue;
      }
      if c == '\\' {
        escaped := true;
        continue;
      }
      if c == '"' {
        inString := !inString;
        continue;
      }
      if inString {
        continue;
      }
      if c == '{' || c == '[' {
        stack := stack + [c];
      } else if c == '}' || c == ']' {
        if stack == [] || stack[|stack| - 1] != (if c == '}' then '{' else '[') {
          DeadForever(buffer[..i], buffer[i..]);
          assert buffer[..i] + buffer[i..] == buffer;
          return false;
        }
        stack := stack[..|stack| - 1];
      }
    }
    assert buffer[..i] == buffer;
    return inString || stack != [];
  }

  lemma {:induction false} ScanConcat(st: State, a: string, b: string)
    ensures Scan(st, a + b) == Scan(Scan(st, a), b)
    decreases |b|
  {
    if b == "" {
      assert a + b == a;
    } else {
      var n := |b| - 1;
      assert (a + b)[..|a| + n] == a + b[..n];
      ScanConcat(st, a, b[..n]);
    }
  }

  lemma {:induction false} ScanDead(s: string)
    ensures Scan(Dead, s) == Dead
  {
    if s != "" {
      ScanDead(s[..|s| - 1]);
    }
  }

  lemma {:induction false} DeadForever(a: string, b: string)
    requires Scan(Clean([]), a) == Dead
    ensures !LooksIncomplete(a + b)
  {
    ScanConcat(Clean([]), a, b);
    ScanDead(b);
  }

  // ---------- text that leaves the surrounding brackets alone ----------

  ghost predicate Above(k: seq<char>, st: State) { st.Live? && k <= st.stack }

  /** Scanning `t` from `st` ends in `st` again and never closes a bracket that was open before. */
  ghost predicate Keeps(st: State, t: string)
    requires st.Live?
  {
    && Scan(st, t) == st
    && forall i | 0 <= i <= |t| :: Above(st.stack, Scan(st, t[..i]))
  }

  lemma {:induction false} KeepsEmpty(st: State)
    requires st.Live?
    ensures Keeps(st, "")
  {
    assert ""[..0] == "";
  }

  lemma {:induction false} KeepsConcat(st: State, a: string, b: string)
    requires st.Live? && Keeps(st, a) && Keeps(st, b)
    ensures Keeps(st, a + b)
  {
    ScanConcat(st, a, b);
    forall i | 0 <= i <= |a + b|
      ensures Above(st.stack, Scan(st, (a + b)[..i]))
    {
      if i <= |a| {
        assert (a + b)[..i] == a[..i];
      } else {
        assert (a + b)[..i] == a + b[..i - |a|];
        ScanConcat(st, a, b[..i - |a|]);
      }
    }
  }

  lemma {:induction false} ScanOne(st: State, c: char)
    ensures Scan(st, [c]) == Step(st, c)
  {
    assert [c][..0] == "";
  }

  lemma {:induction false} KeepsOne(st: State, c: char)
    requires st.Live? && Step(st, c) == st
    ensures Keeps(st, [c])
  {
    ScanOne(st, c);
    assert [c][..0] == "" && [c][..1] == [c];
  }

  lemma {:induction false} KeepsRun(st: State, t: string)
    requires st.Live? && forall i | 0 <= i < |t| :: Step(st, t[i]) == st
    ensures Keeps(st, t)
    decreases |t|
  {
    if t == "" {
      KeepsEmpty(st);
    } else {
      KeepsOne(st, t[0]);
      KeepsRun(st, t[1..]);
      KeepsConcat(st, [t[0]], t[1..]);
      assert [t[0]] + t[1..] == t;
    }
  }

  predicate IsNeutral(c: char) { c !in "\\\"{}[]" }

  lemma {:induction false} KeepsNeutral(k: seq<char>, t: string)
    requires AllOf(t, IsNeutral)
    ensures Keeps(Clean(k), t)
  {
    forall i | 0 <= i < |t|
      ensures Step(Clean(k), t[i]) == Clean(k)
    {
      assert IsNeutral(t[i]);
    }
    KeepsRun(Clean(k), t);
  }

  lemma {:induction false} KeepsEscape(st: State, c: char)
    requires st.Live? && !st.escaped
    ensures Keeps(st, ['\\', c])
  {
    var t := ['\\', c];
    assert t[..0] == "" && t[..1] == ['\\'] && t[..2] == t;
    ScanOne(st, '\\');
  }

  lemma {:induction false} KeepsItem(st: State, i: Item)
    requires ValidItem(i) && st.Live? && st.inString && !st.escaped
    ensures Keeps(st, EmitItem(i, ""))
  {
    match i {
      case Plain(c) =>
        KeepsOne(st, c);
        assert [c] + "" == [c];
      case Short(c) =>
        KeepsEscape(st, c);
        assert ['\\', c] + "" == ['\\', c];
      case Hex(h0, h1, h2, h3) =>
        KeepsEscape(st, 'u');
        KeepsRun(st, [h0, h1, h2, h3]);
        KeepsConcat(st, ['\\', 'u'], [h0, h1, h2, h3]);
        assert ['\\', 'u', h0, h1, h2, h3] + "" == ['\\', 'u'] + [h0, h1, h2, h3];
    }
  }

  lemma {:induction false} KeepsItems(st: State, items: seq<Item>)
    requires ValidItems(items) && st.Live? && st.inString && !st.escaped
    ensures Keeps(st, EmitItems(items, ""))
  {
    if items == [] {
      KeepsEmpty(st);
    } else {
      assert ValidItem(items[0]);
      KeepsItem(st, items[0]);
      KeepsItems(st, items[1..]);
      var a, b := EmitItem(items[0], ""), EmitItems(items[1..], "");
      KeepsConcat(st, a, b);
      assert EmitItem(items[0], b) == a + b;
    }
  }

  /** `open` ... `close` around text that keeps the inner state: every non-empty proper prefix is still inside. */
  lemma {:induction false} Wrapped(k: State, inner: State, open: char, body: string, close: char)
    requires k.Live? && inner.Live? && Step(k, open) == inner && Step(inner, close) == k
    requires k.stack <= inner.stack && Keeps(inner, body)
    ensures Keeps(k, [open] + (body + [close]))
    ensures forall i :: 0 < i < |body| + 2 ==> Above(inner.stack, Scan(k, ([open] + (body + [close]))[..i]))
  {
    var t := [open] + (body + [close]);
    ScanOne(k, open);
    forall i | 0 < i < |t|
      ensures Above(inner.stack, Scan(k, t[..i]))
    {
      assert t[..i] == [open] + body[..i - 1];
      ScanConcat(k, [open], body[..i - 1]);
    }
    assert t[..|t| - 1] == [open] + body;
    ScanConcat(k, [open], body);
    assert t[..0] == "" && t[..|t|] == t;
  }

  lemma {:induction false} KeepsString(k: seq<char>, items: seq<Item>)
    requires ValidItems(items)
    ensures Keeps(Clean(k), "\"" + EmitItems(items, "\""))
  {
    EmitItemsAppend(items, "", "\"");
    assert "" + "\"" == "\"";
    KeepsItems(Live(k, true, false), items);
    Wrapped(Clean(k), Live(k, true, false), '"', EmitItems(items, ""), '"');
  }

  /** Every non-empty proper prefix of `t` stays inside the bracket that `t` starts with. */
  ghost predicate Encloses(k: seq<char>, open: char, t: string) {
    && Keeps(Clean(k), t)
    && forall i | 0 < i < |t| :: Above(k + [open], Scan(Clean(k), t[..i]))
  }

  lemma {:induction false} Enclose(k: seq<char>, open: char, gap: string, body: string, close: char)
    requires (open == '{' && close == '}') || (open == '[' && close == ']')
    requires AllOf(gap, IsGap) && Keeps(Clean(k + [open]), body)
    ensures Encloses(k, open, [open] + (gap + (body + [close])))
  {
    var inner := k + [open];
    assert inner[..|inner| - 1] == k;
    GapIsNeutral(gap);
    KeepsNeutral(inner, gap);
    KeepsConcat(Clean(inner), gap, body);
    assert (gap + body) + [close] == gap + (body + [close]);
    Wrapped(Clean(k), Clean(inner), open, gap + body, close);
  }

  // ---------- the scanner on the grammar ----------

  lemma {:induction false} GapIsNeutral(gap: string)
    requires AllOf(gap, IsGap)
    ensures AllOf(gap, IsNeutral)
  {
  }

  /** Any value, wherever it stands, leaves the open brackets around it as they were. */
  lemma {:induction false} ValueKeeps(k: seq<char>, j: Json)
    requires Valid(j)
    ensures Keeps(Clean(k), Render(j))
    ensures IsObject(j) ==> Encloses(k, '{', Render(j))
    decreases j, 0
  {
    match j {
      case Str(items) => StringKeeps(k, items);
      case Num(n) => NumberKeeps(k, n);
      case Word(w) => WordKeeps(k, w);
      case EmptyArr(gap) => EmptyKeeps(k, gap);
      case EmptyObj(gap) => EmptyKeeps(k, gap);
      case Arr(gap, es) =>
        var body := ElementsKeep(k + ['['], es);
        Enclose(k, '[', gap, body, ']');
      case Obj(gap, ms) =>
        var body := MembersKeep(k + ['{'], ms);
        Enclose(k, '{', gap, body, '}');
    }
  }

  lemma {:induction false} NumberKeeps(k: seq<char>, n: Number)
    requires ValidNumber(n)
    ensures Keeps(Clean(k), Render(Num(n)))
  {
    NumberIsNeutral(n);
    KeepsNeutral(k, EmitNumber(n, ""));
  }

  lemma {:induction false} WordKeeps(k: seq<char>, w: string)
    requires w in WORDS
    ensures Keeps(Clean(k), Render(Word(w)))
  {
    assert w + "" == w;
    KeepsNeutral(k, w);
  }

  lemma {:induction false} StringKeeps(k: seq<char>, items: seq<Item>)
    requires ValidItems(items)
    ensures Keeps(Clean(k), Render(Str(items)))
  {
    KeepsString(k, items);
    assert "\"" + "" == "\"";
  }

  lemma {:induction false} EmptyKeeps(k: seq<char>, gap: string)
    requires AllOf(gap, IsGap)
    ensures Encloses(k, '[', Render(EmptyArr(gap))) && Encloses(k, '{', Render(EmptyObj(gap)))
  {
    KeepsEmpty(Clean(k + ['[']));
    KeepsEmpty(Clean(k + ['{']));
    Enclose(k, '[', gap, "", ']');
    Enclose(k, '{', gap, "", '}');
    assert "]" + "" == "" + "]" && "}" + "" == "" + "}";
  }

  lemma {:induction false} NumberIsNeutral(n: Number)
    requires ValidNumber(n)
    ensures AllOf(EmitNumber(n, ""), IsNeutral)
  {
    var fraction := if n.fraction == "" then "" else "." + n.fraction;
    DigitsAreNeutral(n.whole);
    DigitsAreNeutral(n.exponent);
    FractionIsNeutral(n.fraction);
    AllOfConcat(n.exponent, "");
    AllOfConcat(n.mark, n.exponent + "");
    AllOfConcat(fraction, n.mark + (n.exponent + ""));
    AllOfConcat(n.whole, fraction + (n.mark + (n.exponent + "")));
  }

  lemma {:induction false} DigitsAreNeutral(digits: string)
    requires AllOf(digits, IsDigit)
    ensures AllOf(digits, IsNeutral)
  {
  }

  lemma {:induction false} FractionIsNeutral(fraction: string)
    requires AllOf(fraction, IsDigit)
    ensures AllOf(if fraction == "" then "" else "." + fraction, IsNeutral)
  {
    DigitsAreNeutral(fraction);
    AllOfConcat(".", fraction);
  }

  lemma {:induction false} AllOfConcat(a: string, b: string)
    requires AllOf(a, IsNeutral) && AllOf(b, IsNeutral)
    ensures AllOf(a + b, IsNeutral)
  {
  }

  lemma {:induction false} KeepsSeparated(k: seq<char>, value: string, after: string, separator: string)
    requires Keeps(Clean(k), value) && AllOf(after, IsGap) && AllOf(separator, IsNeutral)
    ensures Keeps(Clean(k), value + (after + separator))
  {
    GapIsNeutral(after);
    assert AllOf(after + separator, IsNeutral);
    KeepsNeutral(k, after + separator);
    KeepsConcat(Clean(k), value, after + separator);
  }

  /** One entry, its separator and the entries after it, up to the closing bracket. */
  lemma {:induction false} KeepsMore(
    k: seq<char>, value: string, after: string, before: string, rest: string, close: string)
      returns (body: string)
    requires Keeps(Clean(k), value) && AllOf(after, IsGap) && AllOf(before, IsGap) && Keeps(Clean(k), rest)
    ensures Keeps(Clean(k), body)
    ensures body + close == value + (after + ("," + (before + (rest + close))))
  {
    assert AllOf("," + before, IsNeutral);
    KeepsSeparated(k, value, after, "," + before);
    KeepsConcat(Clean(k), value + (after + ("," + before)), rest);
    body := (value + (after + ("," + before))) + rest;
  }

  lemma {:induction false} ElementsKeep(k: seq<char>, es: Elements) returns (body: string)
    requires ValidElements(es)
    ensures Keeps(Clean(k), body) && EmitElements(es, "") == body + "]"
    decreases es, 1
  {
    var v, after := es.value, es.after;
    ValueKeeps(k, v);
    if es.LastElement? {
      KeepsSeparated(k, Render(v), after, "");
      body := Render(v) + (after + "");
      RenderThen(v, after + ("]" + ""));
      assert body + "]" == Render(v) + (after + ("]" + ""));
    } else {
      var rest := ElementsKeep(k, es.tail);
      body := KeepsMore(k, Render(v), after, es.before, rest, "]");
      RenderThen(v, after + ("," + (es.before + (rest + "]"))));
    }
  }

  lemma {:induction false} RenderThen(v: Json, t: string)
    ensures Emit(v, t) == Render(v) + t
  {
    EmitAppend(v, "", t);
    assert "" + t == t;
  }

  lemma {:induction false} MemberThen(m: Member, t: string)
    ensures EmitMember(m, t) == EmitMember(m, "") + t
  {
    EmitMemberAppend(m, "", t);
    assert "" + t == t;
  }

  lemma {:induction false} MemberKeeps(k: seq<char>, m: Member)
    requires ValidMember(m)
    ensures Keeps(Clean(k), EmitMember(m, ""))
    decreases m, 1
  {
    var u := Render(m.value);
    ValueKeeps(k, m.value);
    KeepsString(k, m.key);
    var key := "\"" + EmitItems(m.key, "\"");
    var colon := ":" + m.afterColon;
    assert AllOf(colon, IsNeutral);
    KeepsSeparated(k, key, m.beforeColon, colon);
    KeepsConcat(Clean(k), key + (m.beforeColon + colon), u);
    MemberParts(m);
  }

  lemma {:induction false} MemberParts(m: Member)
    ensures var key := "\"" + EmitItems(m.key, "\"");
            EmitMember(m, "") == (key + (m.beforeColon + (":" + m.afterColon))) + Render(m.value)
  {
    var t := m.beforeColon + (":" + (m.afterColon + Render(m.value)));
    var items := EmitItems(m.key, "\"");
    EmitItemsAppend(m.key, "\"", t);
    assert ("\"" + items) + t == "\"" + (items + t);
    assert (("\"" + items) + (m.beforeColon + (":" + m.afterColon))) + Render(m.value) == ("\"" + items) + t;
  }

  lemma {:induction false} MembersKeep(k: seq<char>, ms: Members) returns (body: string)
    requires ValidMembers(ms)
    ensures Keeps(Clean(k), body) && EmitMembers(ms, "") == body + "}"
    decreases ms, 1
  {
    var m, after := ms.member, ms.after;
    var t := EmitMember(m, "");
    MemberKeeps(k, m);
    if ms.LastMember? {
      KeepsSeparated(k, t, after, "");
      body := t + (after + "");
      MemberThen(m, after + ("}" + ""));
      assert body + "}" == t + (after + ("}" + ""));
    } else {
      var rest := MembersKeep(k, ms.tail);
      body := KeepsMore(k, t, after, ms.before, rest, "}");
      MemberThen(m, after + ("," + (ms.before + (rest + "}"))));
    }
  }

  /**
   On the prefixes of an object text the scanner answers exactly "there is more to come": true on every
   non-empty proper prefix, false on the whole text.
   */
  lemma {:induction false} ScannerOnObjectPrefix(j: Json, n: nat)
    requires Valid(j) && IsObject(j) && 0 < n <= |Render(j)|
    ensures LooksIncomplete(Render(j)[..n]) <==> n < |Render(j)|
  {
    ValueKeeps([], j);
    var t := Render(j);
    assert t[..|t|] == t;
    if n < |t| {
      assert Above([] + ['{'], Scan(Clean([]), t[..n]));
    }
  }

  /** No object text is a proper prefix of another, so an object is never decoded before it is complete. */
  lemma {:induction false} ObjectsArePrefixFree(a: Json, b: Json, rest: string)
    requires Valid(a) && IsObject(a) && Valid(b) && IsObject(b)
    requires Render(b) == Render(a) + rest
    ensures a == b && rest == ""
  {
    EmitStart(a, "");
    var n := |Render(a)|;
    assert Render(b)[..n] == Render(a)[..n];
    ScannerOnObjectPrefix(b, n);
    ScannerOnObjectPrefix(a, n);
    assert Render(a) + "" == Render(a) && Render(b) + "" == Render(b);
    ObjectDecodedIff(Render(a), a, "");
    ObjectDecodedIff(Render(b), b, "");
  }
}
