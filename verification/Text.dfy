/** Small vocabulary shared by the models: optional values and scanning a string for a run of characters. */
module Text {

  datatype Option<+T> = None | Some(value: T)

  /** Length of the longest prefix of `s` whose characters all satisfy `p`. */
  function Span(s: string, p: char -> bool): (n: nat)
    ensures n <= |s|
  {
    if s == "" || !p(s[0]) then 0 else 1 + Span(s[1..], p)
  }

  ghost predicate AllOf(s: string, p: char -> bool) {
    forall i | 0 <= i < |s| :: p(s[i])
  }

  lemma {:induction false} SpanIsRun(s: string, p: char -> bool)
    ensures AllOf(s[..Span(s, p)], p) && (Span(s, p) < |s| ==> !p(s[Span(s, p)]))
  {
    if s != "" && p(s[0]) {
      SpanIsRun(s[1..], p);
      var n := Span(s[1..], p);
      assert forall i | 1 <= i <= n :: s[i] == s[1..][..n][i - 1];
    }
  }

  /** A run followed by something that does not continue it is found whole. */
  lemma {:induction false} SpanOfRun(run: string, rest: string, p: char -> bool)
    requires AllOf(run, p)
    requires rest != "" ==> !p(rest[0])
    ensures Span(run + rest, p) == |run|
    ensures (run + rest)[..|run|] == run && (run + rest)[|run|..] == rest
  {
    var s := run + rest;
    assert s[..|run|] == run && s[|run|..] == rest;
    if run != "" {
      SpanOfRun(run[1..], rest, p);
      assert s[1..] == run[1..] + rest;
    }
  }

  /** Characters removed by Python's `str.lstrip()`. */
  predicate IsPythonSpace(c: char) {
    var n := c as int;
    9 <= n <= 13 || 28 <= n <= 32 || n == 0x85 || n == 0xA0 || n == 0x1680 ||
    0x2000 <= n <= 0x200A || n == 0x2028 || n == 0x2029 || n == 0x202F || n == 0x205F || n == 0x3000
  }

  function Lstrip(s: string): (r: string)
    ensures |r| <= |s|
    ensures r != "" ==> !IsPythonSpace(r[0])
  {
    SpanIsRun(s, IsPythonSpace);
    s[Span(s, IsPythonSpace)..]
  }

  /** What is stripped is white space in front of what remains. */
  lemma {:induction false} LstripCuts(s: string)
    ensures var r := Lstrip(s); var gap := s[..|s| - |r|]; AllOf(gap, IsPythonSpace) && s == gap + r
  {
    SpanIsRun(s, IsPythonSpace);
  }

  lemma {:induction false} LstripOfGap(gap: string, rest: string)
    requires AllOf(gap, IsPythonSpace)
    ensures Lstrip(gap + rest) == Lstrip(rest)
  {
    var s := gap + rest;
    if gap == "" {
      assert s == rest;
    } else {
      LstripOfGap(gap[1..], rest);
      assert s[1..] == gap[1..] + rest;
      assert Lstrip(s) == Lstrip(s[1..]);
    }
  }

  lemma {:induction false} LstripIdle(s: string)
    requires s == "" || !IsPythonSpace(s[0])
    ensures Lstrip(s) == s
  {
  }

  /** Stripping early never changes what a later strip sees. */
  lemma {:induction false} LstripAppend(a: string, b: string)
    ensures Lstrip(Lstrip(a) + b) == Lstrip(a + b)
  {
    var r := Lstrip(a);
    var gap := a[..|a| - |r|];
    LstripCuts(a);
    assert a + b == gap + (r + b);
    LstripOfGap(gap, r + b);
  }
}
