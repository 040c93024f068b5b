/** When the marks of the panic check are exact: test items and their blocks by Rust's own braces, against the script's. */
module TestMarks {
  import opened Options
  import opened TestContexts

  // ---- Test items and what belongs to them ----

  /** The brace group that opens at `g` in brackets closes at `c`. */
  predicate Group(ops: seq<Op>, g: nat, c: nat) {
    c < |ops| && Within(ops, g, c) && ops[g].bracketed && ops[c] == Close && Depth(ops, g, c) == 0
  }

  /**
   * The item at `i` goes on up to `t`: since then there have been ends of lines and whole brace groups in brackets, and no
   * semicolon outside of brackets, no other item, no block of its own and no end of the block it stands in.
   */
  predicate GoesOn(ops: seq<Op>, i: nat, t: nat)
    decreases t
  {
    i < t <= |ops| && ops[i].Item? &&
    (|| t == i + 1
     || (ops[t - 1] == LineStop && GoesOn(ops, i, t - 1))
     || (exists g | i < g < t - 1 :: Group(ops, g, t - 1) && GoesOn(ops, i, g)))
  }

  predicate TestItemGoesOn(ops: seq<Op>, t: nat) {
    exists i | 0 <= i < t :: GoesOn(ops, i, t) && ops[i].test
  }

  /** The brace at `k` opens the block of a test item, or a group in its header. */
  predicate OpensTestItem(ops: seq<Op>, k: nat) {
    k < |ops| && ops[k].Open? && TestItemGoesOn(ops, k)
  }

  /** Position `t` lies between the braces of some test item. */
  predicate InTestItem(ops: seq<Op>, t: nat)
    requires t <= |ops|
  {
    exists k | 0 <= k < t :: Within(ops, k, t) && OpensTestItem(ops, k)
  }

  /** What should be marked: test items from where they are announced to the end of their blocks. */
  predicate AtTestItem(ops: seq<Op>, t: nat)
    requires t <= |ops|
  {
    InTestItem(ops, t) || TestItemGoesOn(ops, t)
  }

  /** What the script marks at position `t`. */
  predicate Marked(ops: seq<Op>, t: nat)
    requires t <= |ops|
  {
    InTest(ops, t) || (LastItem(ops, t).Some? && TestItem(ops, LastItem(ops, t).value))
  }

  /** Since the item at `i` there have been closing braces and semicolons, and nothing else. */
  predicate Since(ops: seq<Op>, i: nat, t: nat) {
    i < t <= |ops| && ops[i].Item? && forall j | i < j < t :: ops[j] == Close || ops[j] == Semicolon
  }

  /** Such an item is a test or stands in one. */
  predicate SinceTest(ops: seq<Op>, t: nat)
    requires t <= |ops|
  {
    exists i | 0 <= i < t :: Since(ops, i, t) && (ops[i].test || InTestItem(ops, i))
  }

  /** An item that is a test or stood in one has ended, and nothing but closing braces and semicolons has come since. */
  predicate Lingers(ops: seq<Op>, t: nat)
    requires t <= |ops|
  {
    SinceTest(ops, t) && !AtTestItem(ops, t)
  }

  /** A test item goes on, outside of others, over the end of a line or a brace group in its header. */
  predicate Lost(ops: seq<Op>, t: nat)
    requires t <= |ops|
  {
    TestItemGoesOn(ops, t) && !InTestItem(ops, t) && !SinceTest(ops, t)
  }

  // ---- Braces and items ----

  lemma {:induction false} DepthConcat(ops: seq<Op>, i: nat, j: nat, l: nat)
    requires i < j < l <= |ops|
    ensures Depth(ops, i, l) == Depth(ops, i, j) + Delta(ops[j]) + Depth(ops, j, l)
  {
    if j + 1 < l { DepthConcat(ops, i, j, l - 1); }
  }

  lemma WithinNests(ops: seq<Op>, outer: nat, inner: nat, t: nat)
    requires Within(ops, outer, inner) && Within(ops, inner, t)
    ensures Within(ops, outer, t)
  {
    forall j | outer < j <= t ensures Depth(ops, outer, j) >= 0 {
      if j > inner { DepthConcat(ops, outer, inner, j); }
    }
  }

  lemma {:induction false} LastItemIs(ops: seq<Op>, i: nat, t: nat)
    requires Since(ops, i, t)
    ensures LastItem(ops, t) == Some(i)
  {
    if i + 1 < t { LastItemIs(ops, i, t - 1); }
  }

  lemma {:induction false} SinceLast(ops: seq<Op>, t: nat)
    requires t <= |ops| && LastItem(ops, t).Some?
    ensures Since(ops, LastItem(ops, t).value, t)
  {
    if !ops[t - 1].Item? { SinceLast(ops, t - 1); }
  }

  /** The brace that makes a position test code. */
  lemma TestBrace(ops: seq<Op>, t: nat) returns (k: nat)
    requires t <= |ops| && InTest(ops, t)
    ensures k < t && Within(ops, k, t) && OpensTest(ops, k)
  {
    k :| k < t && Within(ops, k, t) && OpensTest(ops, k);
  }

  lemma InTestItemNests(ops: seq<Op>, k: nat, t: nat)
    requires k < t <= |ops| && Within(ops, k, t) && InTestItem(ops, k)
    ensures InTestItem(ops, t)
  {
    var outer: nat :| outer < k && Within(ops, outer, k) && OpensTestItem(ops, outer);
    WithinNests(ops, outer, k, t);
  }

  lemma InTestItemFromOpen(ops: seq<Op>, k: nat, t: nat)
    requires Within(ops, k, t) && InTestItem(ops, k + 1)
    ensures InTestItem(ops, t)
  {
    var outer: nat :| outer < k + 1 && Within(ops, outer, k + 1) && OpensTestItem(ops, outer);
    if outer < k {
      WithinStep(ops, outer, k);
      WithinNests(ops, outer, k, t);
    }
  }

  lemma InTestFromOpen(ops: seq<Op>, k: nat, t: nat)
    requires Within(ops, k, t) && InTest(ops, k + 1)
    ensures InTest(ops, t)
  {
    var outer := TestBrace(ops, k + 1);
    if outer < k {
      WithinStep(ops, outer, k);
      WithinNests(ops, outer, k, t);
    }
  }

  /** Whoever stands in a test item after closing braces and semicolons stood in it before them. */
  lemma InTestItemSince(ops: seq<Op>, i: nat, t: nat)
    requires Since(ops, i, t) && InTestItem(ops, t)
    ensures InTestItem(ops, i)
  {
    var outer: nat :| outer < t && Within(ops, outer, t) && OpensTestItem(ops, outer);
    assert outer < i && Within(ops, outer, i);
  }

  // ---- The if-and-only-if ----

  predicate NoneLingers(ops: seq<Op>) {
    forall t | 0 <= t <= |ops| :: !Lingers(ops, t)
  }

  predicate NoneLost(ops: seq<Op>) {
    forall t | 0 <= t <= |ops| :: !Lost(ops, t)
  }

  /** The script and the braces agree on what is inside. */
  predicate BlocksExact(ops: seq<Op>) {
    forall t | 0 <= t <= |ops| :: InTest(ops, t) <==> InTestItem(ops, t)
  }

  predicate Exact(ops: seq<Op>) {
    forall t | 0 <= t <= |ops| :: Marked(ops, t) <==> AtTestItem(ops, t)
  }

  /** Where no test item is lost, nothing between its braces is missed. */
  lemma {:induction false} TestItemsAreMarked(ops: seq<Op>, t: nat)
    requires t <= |ops| && InTestItem(ops, t) && NoneLost(ops)
    ensures InTest(ops, t)
    decreases t
  {
    var k: nat :| k < t && Within(ops, k, t) && OpensTestItem(ops, k);
    assert !Lost(ops, k);
    match LastItem(ops, k)
    case Some(i) =>
      SinceLast(ops, k);
      if InTestItem(ops, k) { InTestItemSince(ops, i, k); }
      OnlySince(ops, i, k);
      if !ops[i].test { TestItemsAreMarked(ops, i); }
      assert TestItem(ops, i) && OpensTest(ops, k);
    case None =>
      NoneSince(ops, k);
      TestItemsAreMarked(ops, k);
      assert OpensTest(ops, k);
  }

  lemma OnlySince(ops: seq<Op>, i: nat, t: nat)
    requires Since(ops, i, t)
    ensures SinceTest(ops, t) <==> ops[i].test || InTestItem(ops, i)
  {
    forall i': nat | Since(ops, i', t) ensures i' == i {
      LastItemIs(ops, i, t);
      LastItemIs(ops, i', t);
    }
  }

  lemma NoneSince(ops: seq<Op>, t: nat)
    requires t <= |ops| && LastItem(ops, t) == None
    ensures !SinceTest(ops, t)
  {
    forall i: nat | i < t ensures !Since(ops, i, t) { if Since(ops, i, t) { LastItemIs(ops, i, t); } }
  }

  /** Where nothing lingers, the script opens test code in test items only. */
  lemma {:induction false} MarkedOnlyTestItems(ops: seq<Op>, t: nat)
    requires t <= |ops| && InTest(ops, t) && NoneLingers(ops)
    ensures InTestItem(ops, t)
    decreases t
  {
    var k := TestBrace(ops, t);
    assert !Lingers(ops, k);
    match LastItem(ops, k) {
      case Some(i) =>
        SinceLast(ops, k);
        assert TestItem(ops, i);
        if !ops[i].test { MarkedOnlyTestItems(ops, i); }
        OnlySince(ops, i, k);
      case None =>
        MarkedOnlyTestItems(ops, k);
    }
    assert AtTestItem(ops, k);
    if InTestItem(ops, k) { InTestItemNests(ops, k, t); } else { assert OpensTestItem(ops, k); }
  }

  /** Where blocks are exact, a position is marked when it lies between the braces of a test item or comes since one. */
  lemma MarkedMeans(ops: seq<Op>, t: nat)
    requires t <= |ops| && BlocksExact(ops)
    ensures Marked(ops, t) <==> InTestItem(ops, t) || SinceTest(ops, t)
  {
    match LastItem(ops, t)
    case Some(i) =>
      SinceLast(ops, t);
      OnlySince(ops, i, t);
      assert InTest(ops, i) <==> InTestItem(ops, i);
    case None => NoneSince(ops, t);
  }

  /** A wrong block is a wrong mark right behind its brace. */
  lemma WrongBlockIsWrongMark(ops: seq<Op>, t: nat)
    requires t <= |ops| && InTest(ops, t) != InTestItem(ops, t)
    ensures !Exact(ops)
  {
    if InTest(ops, t) {
      var k := TestBrace(ops, t);
      assert Within(ops, k, k + 1) && InTest(ops, k + 1);
      if InTestItem(ops, k + 1) { InTestItemFromOpen(ops, k, t); }
      NothingGoesOnBehindBrace(ops, k, k + 1);
      assert Marked(ops, k + 1) && !AtTestItem(ops, k + 1);
    } else {
      var k: nat :| k < t && Within(ops, k, t) && OpensTestItem(ops, k);
      assert Within(ops, k, k + 1) && InTestItem(ops, k + 1);
      if InTest(ops, k + 1) { InTestFromOpen(ops, k, t); }
      assert LastItem(ops, k + 1) == None;
      assert !Marked(ops, k + 1) && AtTestItem(ops, k + 1);
    }
  }

  lemma NothingGoesOnBehindBrace(ops: seq<Op>, k: nat, t: nat)
    requires k < |ops| && ops[k].Open? && t == k + 1
    ensures !TestItemGoesOn(ops, t)
  {
    forall i: nat | i < t ensures !GoesOn(ops, i, t) {}
  }

  /**
   * The marks are the test items and their blocks, at every position, if and only if no ended item lingers and no test
   * item is lost over the end of a line or a brace group in its header.
   */
  lemma MarksExact(ops: seq<Op>)
    ensures Exact(ops) <==> NoneLingers(ops) && NoneLost(ops)
  {
    if NoneLingers(ops) && NoneLost(ops) {
      forall t | 0 <= t <= |ops| ensures InTest(ops, t) <==> InTestItem(ops, t) {
        if InTest(ops, t) { MarkedOnlyTestItems(ops, t); }
        if InTestItem(ops, t) { TestItemsAreMarked(ops, t); }
      }
      forall t | 0 <= t <= |ops| ensures Marked(ops, t) <==> AtTestItem(ops, t) {
        MarkedMeans(ops, t);
        assert !Lingers(ops, t) && !Lost(ops, t);
      }
    }
    if Exact(ops) {
      forall t | 0 <= t <= |ops| ensures InTest(ops, t) <==> InTestItem(ops, t) {
        if InTest(ops, t) != InTestItem(ops, t) { WrongBlockIsWrongMark(ops, t); }
      }
      forall t | 0 <= t <= |ops| ensures !Lingers(ops, t) && !Lost(ops, t) {
        MarkedMeans(ops, t);
        assert Marked(ops, t) <==> AtTestItem(ops, t);
      }
    }
  }

  /** An item just announced that is a test or stands in one is no wrong mark. */
  lemma RightAtOnce(ops: seq<Op>, i: nat)
    requires i < |ops| && ops[i].Item? && (ops[i].test || InTestItem(ops, i))
    ensures AtTestItem(ops, i + 1)
  {
    if ops[i].test {
      assert GoesOn(ops, i, i + 1);
    } else {
      var outer: nat :| outer < i && Within(ops, outer, i) && OpensTestItem(ops, outer);
      WithinStep(ops, outer, i);
    }
  }

  /** An item that lingers has been ended: by a semicolon, or by the end of the block it stood in. */
  lemma LingersBecause(ops: seq<Op>, t: nat)
    requires t <= |ops| && Lingers(ops, t)
    ensures exists i | 0 <= i < t - 1 :: Since(ops, i, t) && (ops[i].test || InTestItem(ops, i))
  {
    var i: nat :| i < t && Since(ops, i, t) && (ops[i].test || InTestItem(ops, i));
    if i + 1 == t { RightAtOnce(ops, i); }
  }

  /** A brace group in brackets, opened after `i`, closes at `c`. */
  predicate GroupSince(ops: seq<Op>, i: nat, c: nat) {
    exists g | i < g < c :: Group(ops, g, c)
  }

  /** A lost item has gone over the end of a line that ends in a semicolon in brackets, or over a brace group. */
  lemma LostBecause(ops: seq<Op>, t: nat)
    requires t <= |ops| && Lost(ops, t)
    ensures exists i | 0 <= i < t - 1 :: GoesOn(ops, i, t) && ops[i].test && (ops[t - 1] == LineStop || GroupSince(ops, i, t - 1))
  {
    var i: nat :| i < t && GoesOn(ops, i, t) && ops[i].test;
    if i + 1 == t { assert Since(ops, i, t); }
  }

  /** A line is marked as its position after a possible item is. */
  lemma LineIsMarked(p: Patterns, lines: seq<string>, n: nat)
    requires n < |lines|
    ensures var ops := OpsToItem(p, lines, n); TestLine(p, lines, n) <==> Marked(ops, |ops|)
  {
    var ops, t := OpsToItem(p, lines, n), |OpsBefore(p, lines, n)|;
    if t < |ops| {
      assert ops[t].Item?;
      forall k | 0 <= k < t ensures Within(ops, k, t) <==> Within(ops, k, t + 1) { WithinStep(ops, k, t); }
      assert InTest(ops, t) <==> InTest(ops, t + 1);
    }
  }

  // ---- Inputs on which the marks are wrong ----

  /** Nothing goes on behind a closing brace that ends no group, nor behind a semicolon. */
  lemma NothingGoesOn(ops: seq<Op>, t: nat)
    requires 0 < t <= |ops| && (ops[t - 1] == Semicolon || (ops[t - 1] == Close && forall g | 0 <= g < |ops| :: ops[g].Open? ==> !ops[g].bracketed))
    ensures !TestItemGoesOn(ops, t)
  {
    forall i: nat | i < t ensures !GoesOn(ops, i, t) {}
  }

  /** A test item ended with its module: `mod a {`, `#[cfg(test)]`, `struct S; }`, `use foo::{` marks the import. */
  lemma TestItemEndedEarlier()
    ensures var ops := [Item(false), Open(false), Item(true), Semicolon, Close, Open(false)];
            InTest(ops, 6) && !AtTestItem(ops, 6)
  {
    var ops := [Item(false), Open(false), Item(true), Semicolon, Close, Open(false)];
    NothingGoesOn(ops, 5);
    NothingGoesOnBehindBrace(ops, 5, 6);
    assert !TestItemGoesOn(ops, 1) by { assert ops[0] == Item(false); }
    LastItemIs(ops, 2, 5);
    assert TestItem(ops, 2) && OpensTest(ops, 5) && Within(ops, 5, 6);
  }

  /** An ordinary item ended with a test module: `mod tests {`, `struct S; }`, `use foo::{` marks the import. */
  lemma OrdinaryItemEndedEarlier()
    ensures var ops := [Item(true), Open(false), Item(false), Semicolon, Close, Open(false)];
            InTest(ops, 6) && !AtTestItem(ops, 6)
  {
    var ops := [Item(true), Open(false), Item(false), Semicolon, Close, Open(false)];
    assert Depth(ops, 1, 2) == 0 && Depth(ops, 1, 3) == 0 && Depth(ops, 1, 4) == 0 && Depth(ops, 1, 5) == -1;
    NothingGoesOn(ops, 5);
    NothingGoesOnBehindBrace(ops, 5, 6);
    assert !Within(ops, 1, 6);
    assert LastItem(ops, 1) == Some(0) && TestItem(ops, 0) && OpensTest(ops, 1) && Within(ops, 1, 2);
    LastItemIs(ops, 2, 5);
    assert InTest(ops, 2) && TestItem(ops, 2) && OpensTest(ops, 5) && Within(ops, 5, 6);
  }

  /** A test item with an ordinary one on its line: `#[cfg(test)]`, `struct S; fn f() {` marks the function. */
  lemma TestItemEndedOnItsLine()
    ensures var ops := [Item(true), Semicolon, Open(false)];
            InTest(ops, 3) && !AtTestItem(ops, 3)
  {
    var ops := [Item(true), Semicolon, Open(false)];
    NothingGoesOn(ops, 2);
    NothingGoesOnBehindBrace(ops, 2, 3);
    LastItemIs(ops, 0, 2);
    assert TestItem(ops, 0) && OpensTest(ops, 2) && Within(ops, 2, 3);
  }

  /** A test whose parameters break the line behind a semicolon: `#[test]`, `fn f(a: [u8;`, `4]) {` is not marked at all. */
  lemma TestItemLostInBrackets()
    ensures var ops := [Item(true), LineStop, Open(false)];
            InTestItem(ops, 3) && !Marked(ops, 3)
  {
    var ops := [Item(true), LineStop, Open(false)];
    assert GoesOn(ops, 0, 1) && GoesOn(ops, 0, 2) && OpensTestItem(ops, 2) && Within(ops, 2, 3);
    assert LastItem(ops, 2) == None && !OpensTest(ops, 2);
  }

  /** A test with a braced array length in its parameters: of `#[test]`, `fn f(a: [u8; {2}]) {` only the length is marked. */
  lemma TestItemLostBehindGroup()
    ensures var ops := [Item(true), Open(true), Close, Open(false)];
            InTest(ops, 2) && InTestItem(ops, 4) && !Marked(ops, 4)
  {
    var ops := [Item(true), Open(true), Close, Open(false)];
    assert Depth(ops, 1, 2) == 0 && Depth(ops, 1, 3) == -1;
    assert GoesOn(ops, 0, 1) && Within(ops, 1, 2) && Group(ops, 1, 2) && GoesOn(ops, 0, 3);
    assert OpensTestItem(ops, 3) && Within(ops, 3, 4);
    assert LastItem(ops, 1) == Some(0) && TestItem(ops, 0) && OpensTest(ops, 1);
    assert LastItem(ops, 3) == None && !Within(ops, 1, 3) && !Within(ops, 1, 4);
    assert !InTest(ops, 3);
    assert !OpensTest(ops, 3);
  }

  /** The brackets and operations after `n` characters. */
  ghost predicate Reached(p: Patterns, code: string, n: nat, b: Brackets, ops: seq<Op>) {
    n <= |code| && BracketsAfter(p, code, n, Brackets([], 0)) == b && BraceOps(p, code, n, Brackets([], 0)) == ops
  }

  lemma {:induction false} ReachNext(p: Patterns, code: string, n: nat, b: Brackets, ops: seq<Op>, b': Brackets, ops': seq<Op>)
    requires n < |code| && Reached(p, code, n, b, ops) && b' == BracketsNext(p, code, n, b) && ops' == ops + CharOps(code[n], b)
    ensures Reached(p, code, n + 1, b', ops')
  {
  }

  /** Over characters that are no brackets, braces or semicolons. */
  lemma {:induction false} ReachOver(p: Patterns, code: string, n: nat, end: nat, b: Brackets, ops: seq<Op>)
    requires n <= end <= |code| && Reached(p, code, n, b, ops) && PlainBetween(code, n, end)
    ensures Reached(p, code, end, b, ops)
    decreases end
  {
    if n < end {
      ReachOver(p, code, n, end - 1, b, ops);
      ReachNext(p, code, end - 1, b, ops, b, ops);
    }
  }

  predicate PlainBetween(code: string, i: nat, j: nat) {
    j <= |code| && forall k | i <= k < j :: code[k] !in "()[]<>{};"
  }

  /** The header of a function with an array parameter: round and square bracket, semicolon, group, brackets, block. */
  predicate BracedLengthHeader(code: string, a: nat, b: nat, c: nat, g: nat, e: nat) {
    && a < b < c < g < e && e + 3 < |code|
    && code[a] == '(' && code[b] == '[' && code[c] == ';' && code[g] == '{'
    && code[e] == '}' && code[e + 1] == ']' && code[e + 2] == ')' && code[|code| - 1] == '{'
    && PlainBetween(code, 0, a) && PlainBetween(code, a + 1, b) && PlainBetween(code, b + 1, c) && PlainBetween(code, c + 1, g)
    && PlainBetween(code, g + 1, e) && PlainBetween(code, e + 3, |code| - 1)
  }

  /** Of the braces of such a header the first stands in brackets and the second does not. */
  lemma BracedLengthOps(p: Patterns, code: string, a: nat, b: nat, c: nat, g: nat, e: nat)
    requires BracedLengthHeader(code, a, b, c, g, e)
    ensures BraceOps(p, code, |code|, Brackets([], 0)) == [Open(true), Close, Open(false)]
  {
    ToTheGroup(p, code, a, b, c, g, e);
    OverTheGroup(p, code, a, b, c, g, e);
    FromTheGroup(p, code, a, b, c, g, e);
  }

  lemma FromTheGroup(p: Patterns, code: string, a: nat, b: nat, c: nat, g: nat, e: nat)
    requires BracedLengthHeader(code, a, b, c, g, e) && Reached(p, code, e + 1, Brackets([], 2), [Open(true), Close])
    ensures Reached(p, code, |code|, Brackets([0], 0), [Open(true), Close, Open(false)])
  {
    var all := [Open(true), Close];
    ReachNext(p, code, e + 1, Brackets([], 2), all, Brackets([], 1), all);
    ReachNext(p, code, e + 2, Brackets([], 1), all, Brackets([], 0), all);
    ReachOver(p, code, e + 3, |code| - 1, Brackets([], 0), all);
    ReachNext(p, code, |code| - 1, Brackets([], 0), all, Brackets([0], 0), all + [Open(false)]);
  }

  lemma ToTheLength(p: Patterns, code: string, a: nat, b: nat, c: nat, g: nat, e: nat)
    requires BracedLengthHeader(code, a, b, c, g, e)
    ensures Reached(p, code, b + 1, Brackets([], 2), [])
  {
    ReachOver(p, code, 0, a, Brackets([], 0), []);
    ReachNext(p, code, a, Brackets([], 0), [], Brackets([], 1), []);
    ReachOver(p, code, a + 1, b, Brackets([], 1), []);
    ReachNext(p, code, b, Brackets([], 1), [], Brackets([], 2), []);
  }

  lemma ToTheGroup(p: Patterns, code: string, a: nat, b: nat, c: nat, g: nat, e: nat)
    requires BracedLengthHeader(code, a, b, c, g, e)
    ensures Reached(p, code, g, Brackets([], 2), [])
  {
    ToTheLength(p, code, a, b, c, g, e);
    ReachOver(p, code, b + 1, c, Brackets([], 2), []);
    ReachNext(p, code, c, Brackets([], 2), [], Brackets([], 2), []);
    ReachOver(p, code, c + 1, g, Brackets([], 2), []);
  }

  lemma OverTheGroup(p: Patterns, code: string, a: nat, b: nat, c: nat, g: nat, e: nat)
    requires BracedLengthHeader(code, a, b, c, g, e) && Reached(p, code, g, Brackets([], 2), [])
    ensures Reached(p, code, e + 1, Brackets([], 2), [Open(true), Close])
  {
    ReachNext(p, code, g, Brackets([], 2), [], Brackets([2], 0), [Open(true)]);
    ReachOver(p, code, g + 1, e, Brackets([2], 0), [Open(true)]);
    ReachNext(p, code, e, Brackets([2], 0), [Open(true)], Brackets([], 2), [Open(true), Close]);
  }

  /** `fn f(a: [u8; {2}]) {` is one. */
  lemma BracedLengthExample()
    ensures BracedLengthHeader("fn f(a: [u8; {2}]) {", 4, 8, 11, 13, 15)
  {
  }
}
