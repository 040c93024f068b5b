/** How the operations that `line_test_contexts` tracks come from the text of the lines. */
module TestText {
  import opened Options
  import opened Sequences
  import opened LineSanitizer
  import opened TestContexts

  // ---- Which items are tests ----

  /** A blank line or one that starts with an attribute, and no item: a test attribute waits on. */
  predicate PassesOn(p: Patterns, code: string) {
    p.item(code).None? && (Strip(p, code) == "" || "#[" <= Strip(p, code))
  }

  /** A test attribute stands on line `m`, and nothing stops it before line `n`. */
  predicate AttrReaches(p: Patterns, lines: seq<string>, m: nat, n: nat)
    requires m <= n <= |lines|
  {
    m < |lines| && p.testAttr(Strip(p, CodeOf(p, lines, m))) && forall j | m <= j < n :: PassesOn(p, CodeOf(p, lines, j))
  }

  lemma AttrReachesOn(p: Patterns, lines: seq<string>, m: nat, n: nat)
    requires m < n <= |lines|
    ensures AttrReaches(p, lines, m, n) <==> AttrReaches(p, lines, m, n - 1) && PassesOn(p, CodeOf(p, lines, n - 1))
    ensures AttrReaches(p, lines, n - 1, n - 1) <==> p.testAttr(Strip(p, CodeOf(p, lines, n - 1)))
  {
  }

  /** Some test attribute at or above line `m` reaches line `n`. */
  predicate Announced(p: Patterns, lines: seq<string>, m: nat, n: nat)
    requires m <= n <= |lines|
  {
    exists k: nat | k < m :: AttrReaches(p, lines, k, n)
  }

  lemma AnnouncedOn(p: Patterns, lines: seq<string>, n: nat)
    requires 0 < n <= |lines|
    ensures var code := CodeOf(p, lines, n - 1);
            Announced(p, lines, n, n) <==> (Announced(p, lines, n - 1, n - 1) || p.testAttr(Strip(p, code))) && PassesOn(p, code)
  {
    AttrReachesOn(p, lines, n - 1, n);
    if Announced(p, lines, n, n) {
      var k: nat :| k < n && AttrReaches(p, lines, k, n);
      AttrReachesOn(p, lines, k, n);
    }
    if Announced(p, lines, n - 1, n - 1) {
      var k: nat :| k < n - 1 && AttrReaches(p, lines, k, n - 1);
      AttrReachesOn(p, lines, k, n);
    }
  }

  lemma {:induction false} AttrBeforeIs(p: Patterns, lines: seq<string>, n: nat)
    requires n <= |lines|
    ensures AttrBefore(p, lines, n) <==> Announced(p, lines, n, n)
  {
    if n > 0 {
      AttrBeforeIs(p, lines, n - 1);
      AnnouncedOn(p, lines, n);
    }
  }

  /** An item is a test exactly if it is `mod tests`, or a test attribute on its line or above reaches its line. */
  lemma ItemIsTest(p: Patterns, lines: seq<string>, n: nat)
    requires n < |lines| && p.item(CodeOf(p, lines, n)).Some?
    ensures OpsToItem(p, lines, n) ==
            OpsBefore(p, lines, n) + [Item(p.item(CodeOf(p, lines, n)).value || Announced(p, lines, n, n) || AttrReaches(p, lines, n, n))]
  {
    AttrBeforeIs(p, lines, n);
  }

  // ---- Stripped lines and their ends ----

  predicate AllSpace(space: char -> bool, s: string) {
    forall i | 0 <= i < |s| :: space(s[i])
  }

  lemma {:induction false} StripStartIs(space: char -> bool, s: string) returns (front: string)
    ensures s == front + StripStart(space, s) && AllSpace(space, front)
    ensures StripStart(space, s) != "" ==> !space(StripStart(space, s)[0])
  {
    if s != "" && space(s[0]) {
      var rest := StripStartIs(space, s[1..]);
      front := [s[0]] + rest;
      assert s == [s[0]] + s[1..];
    } else {
      front := "";
    }
  }

  lemma {:induction false} StripEndIs(space: char -> bool, s: string) returns (back: string)
    ensures s == StripEnd(space, s) + back && AllSpace(space, back)
    ensures StripEnd(space, s) != "" ==> !space(StripEnd(space, s)[|StripEnd(space, s)| - 1])
  {
    if s != "" && space(s[|s| - 1]) {
      var rest := StripEndIs(space, s[..|s| - 1]);
      back := rest + [s[|s| - 1]];
      assert s == s[..|s| - 1] + [s[|s| - 1]];
    } else {
      back := "";
    }
  }

  /** At `i` stands the last character that is no space, and it is a semicolon. */
  predicate SemicolonLast(space: char -> bool, s: string, i: nat) {
    i < |s| && s[i] == ';' && forall k | i < k < |s| :: space(s[k])
  }

  predicate LastIsSemicolon(space: char -> bool, s: string) {
    exists i: nat | i < |s| :: SemicolonLast(space, s, i)
  }

  lemma {:induction false} StripEndSemicolon(space: char -> bool, s: string)
    requires !space(';')
    ensures EndsInSemicolon(StripEnd(space, s)) <==> LastIsSemicolon(space, s)
  {
    if s != "" {
      var t := s[..|s| - 1];
      if space(s[|s| - 1]) {
        StripEndSemicolon(space, t);
        forall i: nat ensures SemicolonLast(space, s, i) <==> SemicolonLast(space, t, i) {}
      } else {
        assert s[|s| - 1] == ';' ==> SemicolonLast(space, s, |s| - 1);
      }
    }
  }

  lemma {:induction false} StripStartSemicolon(space: char -> bool, s: string)
    requires !space(';')
    ensures LastIsSemicolon(space, StripStart(space, s)) <==> LastIsSemicolon(space, s)
  {
    if s != "" && space(s[0]) {
      var t := s[1..];
      StripStartSemicolon(space, t);
      forall i: nat ensures SemicolonLast(space, s, i + 1) <==> SemicolonLast(space, t, i) {
        if SemicolonLast(space, t, i) { assert forall k | i + 1 < k < |s| :: s[k] == t[k - 1]; }
        if SemicolonLast(space, s, i + 1) { assert forall k | i < k < |t| :: t[k] == s[k + 1]; }
      }
      assert !SemicolonLast(space, s, 0);
      if LastIsSemicolon(space, s) {
        var i: nat :| i < |s| && SemicolonLast(space, s, i);
        assert SemicolonLast(space, t, i - 1);
      }
      if LastIsSemicolon(space, t) {
        var i: nat :| i < |t| && SemicolonLast(space, t, i);
        assert SemicolonLast(space, s, i + 1);
      }
    }
  }

  /** A waiting item is given up at the end of exactly the lines whose last character is a semicolon, spaces aside. */
  lemma StopsExactly(p: Patterns, code: string)
    requires !p.classes.space(';')
    ensures StopOps(p, code) == if LastIsSemicolon(p.classes.space, code) then [LineStop] else []
  {
    StripEndSemicolon(p.classes.space, StripStart(p.classes.space, code));
    StripStartSemicolon(p.classes.space, code);
  }

  // ---- Braces ----

  /** The braces of a text, in order. */
  function Braces(s: string): string {
    if s == "" then "" else Braces(s[..|s| - 1]) + if s[|s| - 1] == '{' || s[|s| - 1] == '}' then [s[|s| - 1]] else ""
  }

  /** The braces that operations stand for. */
  function Shape(ops: seq<Op>): string {
    if ops == [] then "" else Shape(ops[..|ops| - 1]) + match ops[|ops| - 1] case Open(_) => "{" case Close => "}" case _ => ""
  }

  lemma {:induction false} ShapeConcat(a: seq<Op>, b: seq<Op>)
    ensures Shape(a + b) == Shape(a) + Shape(b)
  {
    if b == [] {
      assert a + b == a;
    } else {
      ShapeConcat(a, b[..|b| - 1]);
      assert (a + b)[..|a + b| - 1] == a + b[..|b| - 1];
    }
  }

  lemma ShapeOne(op: Op)
    ensures Shape([op]) == match op case Open(_) => "{" case Close => "}" case _ => ""
  {
    assert [op][..0] == [];
  }

  /** The operations of a line open and close exactly at its braces. */
  lemma {:induction false} BracesAreTracked(p: Patterns, code: string, n: nat, b: Brackets)
    requires n <= |code|
    ensures Shape(BraceOps(p, code, n, b)) == Braces(code[..n])
  {
    if n > 0 {
      BracesAreTracked(p, code, n - 1, b);
      var ops := CharOps(code[n - 1], BracketsAfter(p, code, n - 1, b));
      ShapeConcat(BraceOps(p, code, n - 1, b), ops);
      if ops != [] { ShapeOne(ops[0]); }
      assert code[..n][..n - 1] == code[..n - 1];
    }
  }
}
