/** `line_test_contexts` of the panic check: which lines of a source file are test code. */
module TestContexts {
  import opened Options
  import opened LineSanitizer

  /**
   * The two regular expressions of the script; `item` also says whether the item is `mod tests`. Which `<` and `>` of a line
   * are brackets and not comparisons or arrows is for Rust's grammar to say.
   */
  datatype Patterns = Patterns(classes: Classes, testAttr: string -> bool, item: string -> Option<bool>, angle: (string, nat) -> bool)

  /**
   * What matters in the text, in its order. An opening brace may stand in brackets, as in an array length or a constant
   * argument, and is then no block of an item. `Semicolon` is one outside of brackets, which ends an item. The script
   * looks at neither; it looks at `LineStop`, the end of a line that ends in a semicolon.
   */
  datatype Op = Item(test: bool) | Open(bracketed: bool) | Close | Semicolon | LineStop

  // ---- The text as a sequence of operations ----

  function StripStart(space: char -> bool, s: string): string {
    if s != "" && space(s[0]) then StripStart(space, s[1..]) else s
  }

  function StripEnd(space: char -> bool, s: string): string {
    if s != "" && space(s[|s| - 1]) then StripEnd(space, s[..|s| - 1]) else s
  }

  function Strip(p: Patterns, s: string): string {
    StripEnd(p.classes.space, StripStart(p.classes.space, s))
  }

  predicate AttrSeen(p: Patterns, code: string, attr: bool) {
    attr || p.testAttr(Strip(p, code))
  }

  /** Whether a test attribute is still waiting for its item after the line. */
  predicate AttrAfter(p: Patterns, code: string, attr: bool) {
    && AttrSeen(p, code, attr) && p.item(code).None?
    && (Strip(p, code) == "" || "#[" <= Strip(p, code))
  }

  function ItemOps(p: Patterns, code: string, attr: bool): seq<Op> {
    match p.item(code)
    case None => []
    case Some(namedTests) => [Item(AttrSeen(p, code, attr) || namedTests)]
  }

  /** How deep in brackets the text is since the last open brace, and how deep it was at each of the open braces. */
  datatype Brackets = Brackets(outer: seq<nat>, depth: nat)

  function BracketsNext(p: Patterns, code: string, i: nat, b: Brackets): Brackets
    requires i < |code|
  {
    var c := code[i];
    if c == '(' || c == '[' || (c == '<' && p.angle(code, i)) then b.(depth := b.depth + 1)
    else if c == ')' || c == ']' || (c == '>' && p.angle(code, i)) then b.(depth := if b.depth > 0 then b.depth - 1 else 0)
    else if c == '{' then Brackets(b.outer + [b.depth], 0)
    else if c == '}' then (if b.outer == [] then Brackets([], 0) else Brackets(b.outer[..|b.outer| - 1], b.outer[|b.outer| - 1]))
    else b
  }

  /** After the first `n` characters. */
  function BracketsAfter(p: Patterns, code: string, n: nat, b: Brackets): Brackets
    requires n <= |code|
  {
    if n == 0 then b else BracketsNext(p, code, n - 1, BracketsAfter(p, code, n - 1, b))
  }

  function CharOps(c: char, b: Brackets): seq<Op> {
    if c == '{' then [Open(b.depth > 0)] else if c == '}' then [Close] else if c == ';' && b.depth == 0 then [Semicolon] else []
  }

  /** The operations of the first `n` characters. */
  function BraceOps(p: Patterns, code: string, n: nat, b: Brackets): seq<Op>
    requires n <= |code|
  {
    if n == 0 then [] else BraceOps(p, code, n - 1, b) + CharOps(code[n - 1], BracketsAfter(p, code, n - 1, b))
  }

  predicate EndsInSemicolon(s: string) {
    s != "" && s[|s| - 1] == ';'
  }

  function StopOps(p: Patterns, code: string): seq<Op> {
    if EndsInSemicolon(Strip(p, code)) then [LineStop] else []
  }

  /** The lexer mode before line `n`, the sanitised line, the waiting attribute, and all operations before it. */
  function ModeBefore(p: Patterns, lines: seq<string>, n: nat): Mode
    requires n <= |lines|
  {
    if n == 0 then Code else Sanitized(p.classes, lines[n - 1], ModeBefore(p, lines, n - 1)).mode
  }

  function CodeOf(p: Patterns, lines: seq<string>, n: nat): string
    requires n < |lines|
  {
    Sanitized(p.classes, lines[n], ModeBefore(p, lines, n)).out
  }

  predicate AttrBefore(p: Patterns, lines: seq<string>, n: nat)
    requires n <= |lines|
  {
    n > 0 && AttrAfter(p, CodeOf(p, lines, n - 1), AttrBefore(p, lines, n - 1))
  }

  /** The brackets open before line `n`, and those its characters start from: an item starts outside of all. */
  function BracketsBefore(p: Patterns, lines: seq<string>, n: nat): Brackets
    requires n <= |lines|
    decreases n, 0
  {
    if n == 0 then Brackets([], 0) else
      var code := CodeOf(p, lines, n - 1);
      BracketsAfter(p, code, |code|, BracketsIn(p, lines, n - 1))
  }

  function BracketsIn(p: Patterns, lines: seq<string>, n: nat): Brackets
    requires n < |lines|
    decreases n, 1
  {
    var b := BracketsBefore(p, lines, n);
    if p.item(CodeOf(p, lines, n)).Some? then b.(depth := 0) else b
  }

  /** The operations up to the braces of line `n`. */
  function OpsToItem(p: Patterns, lines: seq<string>, n: nat): seq<Op>
    requires n < |lines|
  {
    OpsBefore(p, lines, n) + ItemOps(p, CodeOf(p, lines, n), AttrBefore(p, lines, n))
  }

  function OpsBefore(p: Patterns, lines: seq<string>, n: nat): seq<Op>
    requires n <= |lines|
  {
    if n == 0 then [] else
      var code := CodeOf(p, lines, n - 1);
      OpsBefore(p, lines, n - 1) + ItemOps(p, code, AttrBefore(p, lines, n - 1)) + BraceOps(p, code, |code|, BracketsIn(p, lines, n - 1)) + StopOps(p, code)
  }

  // ---- What is test code, by matching braces ----

  function Delta(op: Op): int {
    match op case Open(_) => 1 case Close => -1 case _ => 0
  }

  /** Opening braces less closing braces, after `i` and before `j`. */
  function Depth(ops: seq<Op>, i: nat, j: nat): int
    requires i < j <= |ops|
  {
    if i + 1 == j then 0 else Depth(ops, i, j - 1) + Delta(ops[j - 1])
  }

  /** Position `t` lies between the opening brace at `k` and the brace that closes it. */
  predicate Within(ops: seq<Op>, k: nat, t: nat) {
    k < t <= |ops| && ops[k].Open? && forall j | k < j <= t :: Depth(ops, k, j) >= 0
  }

  /** The item for whose block the script still waits at `t`: no brace opened and no semicolon ended a line since. */
  function LastItem(ops: seq<Op>, t: nat): (r: Option<nat>)
    requires t <= |ops|
    ensures r.Some? ==> r.value < t && ops[r.value].Item?
  {
    if t == 0 then None
    else match ops[t - 1]
      case Item(_) => Some(t - 1)
      case Close => LastItem(ops, t - 1)
      case Semicolon => LastItem(ops, t - 1)
      case _ => None
  }

  /** The item at `i` is a test, or stands in test code. */
  predicate TestItem(ops: seq<Op>, i: nat)
    requires i < |ops| && ops[i].Item?
    decreases i, 1
  {
    ops[i].test || InTest(ops, i)
  }

  /** The brace at `k` opens test code: that of a test item, or any inside test code. */
  predicate OpensTest(ops: seq<Op>, k: nat)
    requires k < |ops|
    decreases k, 1
  {
    match LastItem(ops, k)
    case Some(i) => TestItem(ops, i)
    case None => InTest(ops, k)
  }

  predicate InTest(ops: seq<Op>, t: nat)
    requires t <= |ops|
    decreases t, 0
  {
    exists k | 0 <= k < t :: Within(ops, k, t) && OpensTest(ops, k)
  }

  /** Position `t` lies between a test block's braces, or a test item has been announced at the end of `ops`. */
  predicate TestFrom(ops: seq<Op>, t: nat)
    requires t <= |ops|
  {
    InTest(ops, t) || (LastItem(ops, |ops|).Some? && TestItem(ops, LastItem(ops, |ops|).value))
  }

  /** A line is test code when it starts between a test block's braces, or a test item is announced by it or still waits for its block. */
  predicate TestLine(p: Patterns, lines: seq<string>, n: nat)
    requires n < |lines|
  {
    TestFrom(OpsToItem(p, lines, n), |OpsBefore(p, lines, n)|)
  }

  // ---- The tracker ----

  /** `block_stack` and `pending_block_context`. */
  datatype Blocks = Blocks(stack: seq<bool>, pending: Option<bool>)

  const START := Blocks([], None)

  predicate Top(stack: seq<bool>) {
    stack != [] && stack[|stack| - 1]
  }

  function Step(b: Blocks, op: Op): Blocks {
    match op
    case Item(test) => Blocks(b.stack, Some(test || Top(b.stack)))
    case Open(_) => Blocks(b.stack + [if b.pending.Some? then b.pending.value else Top(b.stack)], None)
    case Close => Blocks(if b.stack == [] then [] else b.stack[..|b.stack| - 1], b.pending)
    case Semicolon => b
    case LineStop => Blocks(b.stack, None)
  }

  function Run(b: Blocks, ops: seq<Op>): Blocks {
    if ops == [] then b else Step(Run(b, ops[..|ops| - 1]), ops[|ops| - 1])
  }

  lemma {:induction false} RunConcat(b: Blocks, xs: seq<Op>, ys: seq<Op>)
    ensures Run(b, xs + ys) == Run(Run(b, xs), ys)
    decreases |ys|
  {
    if ys == [] {
      assert xs + ys == xs;
    } else {
      RunConcat(b, xs, ys[..|ys| - 1]);
      assert (xs + ys)[..|xs + ys| - 1] == xs + ys[..|ys| - 1];
    }
  }

  /** What one character does to the tracker, whatever the brackets. */
  function AfterChar(b: Blocks, c: char): Blocks {
    if c == '{' then Step(b, Open(false)) else if c == '}' then Step(b, Close) else b
  }

  lemma RunChar(b: Blocks, c: char, brackets: Brackets)
    ensures Run(b, CharOps(c, brackets)) == AfterChar(b, c)
  {
    var ops := CharOps(c, brackets);
    if ops != [] { RunOne(b, ops[0]); }
  }

  /** After `i` characters the tracker has come from `from` to `now`. */
  ghost predicate Walked(p: Patterns, code: string, i: nat, start: Brackets, from: Blocks, now: Blocks) {
    i <= |code| && now == Run(from, BraceOps(p, code, i, start))
  }

  lemma {:induction false} WalkedOn(p: Patterns, code: string, i: nat, start: Brackets, from: Blocks, now: Blocks, next: Blocks)
    requires i < |code| && Walked(p, code, i, start, from, now) && next == AfterChar(now, code[i])
    ensures Walked(p, code, i + 1, start, from, next)
  {
    var here := BracketsAfter(p, code, i, start);
    RunConcat(from, BraceOps(p, code, i, start), CharOps(code[i], here));
    RunChar(now, code[i], here);
  }

  /** The body of the loop over the characters of a line. */
  method WalkChar(c: char, stack: seq<bool>, pending: Option<bool>) returns (stack': seq<bool>, pending': Option<bool>)
    ensures Blocks(stack', pending') == AfterChar(Blocks(stack, pending), c)
  {
    stack', pending' := stack, pending;
    if c == '{' {
      stack', pending' := stack + [if pending.Some? then pending.value else Top(stack)], None;
    } else if c == '}' && stack != [] {
      stack' := stack[..|stack| - 1];
    }
  }

  /** The loop over the characters of a line. */
  method WalkBraces(ghost p: Patterns, code: string, ghost start: Brackets, stack: seq<bool>, pending: Option<bool>)
    returns (stack': seq<bool>, pending': Option<bool>)
    ensures Blocks(stack', pending') == Run(Blocks(stack, pending), BraceOps(p, code, |code|, start))
  {
    ghost var from := Blocks(stack, pending);
    stack', pending' := stack, pending;
    for i := 0 to |code|
      invariant Walked(p, code, i, start, from, Blocks(stack', pending'))
    {
      ghost var now := Blocks(stack', pending');
      stack', pending' := WalkChar(code[i], stack', pending');
      WalkedOn(p, code, i, start, from, now, Blocks(stack', pending'));
    }
  }

  function Seen(p: Patterns, code: string, attr: bool, b: Blocks): Blocks {
    Run(b, ItemOps(p, code, attr))
  }

  /** `contexts[idx]`, and the tracker after the line. */
  predicate ContextOf(p: Patterns, code: string, attr: bool, b: Blocks) {
    Top(b.stack) || Seen(p, code, attr, b).pending == Some(true)
  }

  function AfterLine(p: Patterns, code: string, start: Brackets, attr: bool, b: Blocks): Blocks {
    Run(Run(Seen(p, code, attr, b), BraceOps(p, code, |code|, start)), StopOps(p, code))
  }

  lemma RunLine(p: Patterns, lines: seq<string>, n: nat, code: string, attr: bool, b: Blocks)
    requires n < |lines| && code == CodeOf(p, lines, n) && attr == AttrBefore(p, lines, n) && b == Run(START, OpsBefore(p, lines, n))
    ensures Run(START, OpsToItem(p, lines, n)) == Seen(p, code, attr, b)
    ensures Run(START, OpsBefore(p, lines, n + 1)) == AfterLine(p, code, BracketsIn(p, lines, n), attr, b)
  {
    var braces := BraceOps(p, code, |code|, BracketsIn(p, lines, n));
    var before, items := OpsBefore(p, lines, n), ItemOps(p, code, attr);
    RunConcat(START, before, items);
    RunConcat(START, before + items, braces);
    RunConcat(START, before + items + braces, StopOps(p, code));
  }

  lemma RunOne(b: Blocks, op: Op)
    ensures Run(b, [op]) == Step(b, op)
  {
    assert [op][..0] == [];
  }

  /** The body of the loop over the lines, after sanitising: the context of the line and the tracker after it. */
  method TrackLine(p: Patterns, code: string, ghost start: Brackets, attr: bool, stack: seq<bool>, pending: Option<bool>)
    returns (context: bool, attr': bool, stack': seq<bool>, pending': Option<bool>)
    ensures context == ContextOf(p, code, attr, Blocks(stack, pending))
    ensures Blocks(stack', pending') == AfterLine(p, code, start, attr, Blocks(stack, pending))
    ensures attr' == AttrAfter(p, code, attr)
  {
    var stripped := Strip(p, code);
    var currentContext := Top(stack);
    attr', pending' := attr, pending;
    if p.testAttr(stripped) { attr' := true; }
    var item := p.item(code);
    if item.Some? {
      RunOne(Blocks(stack, pending), Item(attr' || item.value));
      pending' := Some((attr' || item.value) || currentContext);
      attr' := false;
    } else if stripped != "" && !("#[" <= stripped) && attr' {
      attr' := false;
    }
    context := currentContext || pending' == Some(true);
    stack', pending' := WalkBraces(p, code, start, stack, pending');
    if EndsInSemicolon(stripped) {
      RunOne(Blocks(stack', pending'), LineStop);
      pending' := None;
    }
  }

  method ReadLine(p: Patterns, lines: seq<string>, n: nat, lexer: LexerState) returns (code: string)
    requires n < |lines| && lexer.Valid() && lexer.Mode() == ModeBefore(p, lines, n)
    modifies lexer
    ensures lexer.Valid() && lexer.Mode() == ModeBefore(p, lines, n + 1) && code == CodeOf(p, lines, n)
  {
    code := SanitizeLine(p.classes, lines[n], lexer);
  }

  /** The tracker before line `n`. */
  ghost predicate Tracked(p: Patterns, lines: seq<string>, n: nat, attr: bool, b: Blocks) {
    n <= |lines| && attr == AttrBefore(p, lines, n) && b == Run(START, OpsBefore(p, lines, n))
  }

  /** The body of the loop over the lines. */
  method DoLine(p: Patterns, lines: seq<string>, n: nat, lexer: LexerState, attr: bool, stack: seq<bool>, pending: Option<bool>)
    returns (context: bool, attr': bool, stack': seq<bool>, pending': Option<bool>)
    requires n < |lines| && lexer.Valid() && lexer.Mode() == ModeBefore(p, lines, n)
    requires Tracked(p, lines, n, attr, Blocks(stack, pending))
    modifies lexer
    ensures lexer.Valid() && lexer.Mode() == ModeBefore(p, lines, n + 1)
    ensures Tracked(p, lines, n + 1, attr', Blocks(stack', pending'))
    ensures context <==> TestLine(p, lines, n)
  {
    var code := ReadLine(p, lines, n, lexer);
    LineMeaning(p, lines, n, code, attr, Blocks(stack, pending));
    context, attr', stack', pending' := TrackLine(p, code, BracketsIn(p, lines, n), attr, stack, pending);
  }

  ghost predicate MarkedBefore(p: Patterns, lines: seq<string>, contexts: seq<bool>, n: nat) {
    n <= |contexts| == |lines| && forall i | 0 <= i < n :: contexts[i] <==> TestLine(p, lines, i)
  }

  lemma MarkOne(p: Patterns, lines: seq<string>, contexts: seq<bool>, n: nat, context: bool)
    requires MarkedBefore(p, lines, contexts, n) && n < |lines| && (context <==> TestLine(p, lines, n))
    ensures MarkedBefore(p, lines, contexts[n := context], n + 1)
  {
  }

  method LineTestContexts(p: Patterns, lines: seq<string>) returns (contexts: seq<bool>)
    ensures |contexts| == |lines|
    ensures forall n | 0 <= n < |lines| :: contexts[n] <==> TestLine(p, lines, n)
  {
    contexts := seq(|lines|, _ => false);
    var lexer := new LexerState();
    var stack: seq<bool>, pending: Option<bool>, attr := [], None, false;
    for idx := 0 to |lines|
      invariant fresh(lexer) && lexer.Valid() && lexer.Mode() == ModeBefore(p, lines, idx)
      invariant Tracked(p, lines, idx, attr, Blocks(stack, pending)) && MarkedBefore(p, lines, contexts, idx)
    {
      var context;
      context, attr, stack, pending := DoLine(p, lines, idx, lexer, attr, stack, pending);
      MarkOne(p, lines, contexts, idx, context);
      contexts := contexts[idx := context];
    }
  }

  // ---- The stack and the matching braces agree ----

  /** No block of ordinary code above a block of test code. */
  predicate UpwardClosed(stack: seq<bool>) {
    forall i, j | 0 <= i < j < |stack| :: stack[i] ==> stack[j]
  }

  /** An announced block of ordinary code finds no test code below it. */
  predicate Closed(b: Blocks) {
    UpwardClosed(b.stack) && (b.pending == Some(false) ==> forall i | 0 <= i < |b.stack| :: !b.stack[i])
  }

  lemma StepKeepsClosed(b: Blocks, op: Op)
    requires Closed(b)
    ensures Closed(Step(b, op))
  {
  }

  lemma {:induction false} RunKeepsClosed(b: Blocks, ops: seq<Op>)
    requires Closed(b)
    ensures Closed(Run(b, ops))
  {
    if ops != [] {
      RunKeepsClosed(b, ops[..|ops| - 1]);
      StepKeepsClosed(Run(b, ops[..|ops| - 1]), ops[|ops| - 1]);
    }
  }

  /** The opening braces that are not closed before `t`, outermost first. */
  ghost function Opened(ops: seq<Op>, t: nat): seq<nat>
    requires t <= |ops|
  {
    if t == 0 then [] else
      var before := Opened(ops, t - 1);
      match ops[t - 1]
      case Open(_) => before + [t - 1]
      case Close => if before == [] then [] else before[..|before| - 1]
      case _ => before
  }

  lemma {:induction false} OpenedDepth(ops: seq<Op>, t: nat, j: nat)
    requires t <= |ops| && j < |Opened(ops, t)|
    ensures var k := Opened(ops, t)[j]; k < t && ops[k].Open? && Depth(ops, k, t) == |Opened(ops, t)| - 1 - j
  {
    if t > 0 && Opened(ops, t)[j] != t - 1 { OpenedDepth(ops, t - 1, j); }
    if t > 0 && Opened(ops, t)[j] == t - 1 && j < |Opened(ops, t - 1)| { OpenedDepth(ops, t - 1, j); }
  }

  lemma WithinStep(ops: seq<Op>, k: nat, t: nat)
    requires k < t < |ops|
    ensures Within(ops, k, t + 1) <==> Within(ops, k, t) && Depth(ops, k, t + 1) >= 0
  {
  }

  /** They are exactly the braces whose block reaches `t`. */
  lemma {:induction false} OpenedIsWithin(ops: seq<Op>, t: nat, k: nat)
    requires t <= |ops|
    ensures k in Opened(ops, t) <==> Within(ops, k, t)
  {
    if t > 0 {
      var before, now := Opened(ops, t - 1), Opened(ops, t);
      OpenedIsWithin(ops, t - 1, k);
      if k < t - 1 { WithinStep(ops, k, t - 1); }
      if k in before {
        var j :| 0 <= j < |before| && before[j] == k;
        OpenedDepth(ops, t - 1, j);
        if ops[t - 1] == Close { LastIsNoOther(ops, t - 1, j); }
      }
    }
  }

  lemma LastIsNoOther(ops: seq<Op>, t: nat, j: nat)
    requires t <= |ops| && j < |Opened(ops, t)|
    ensures var all := Opened(ops, t); all[j] in all[..|all| - 1] <==> j < |all| - 1
  {
    var all := Opened(ops, t);
    OpenedDepth(ops, t, j);
    if j < |all| - 1 {
      assert all[..|all| - 1][j] == all[j];
    } else {
      forall i | 0 <= i < |all| - 1 ensures all[i] != all[j] { OpenedDepth(ops, t, i); }
    }
  }

  /** What the tracker should hold before position `t`. */
  ghost predicate Means(b: Blocks, ops: seq<Op>, t: nat)
    requires t <= |ops|
  {
    && |b.stack| == |Opened(ops, t)|
    && (forall j | 0 <= j < |b.stack| :: Opened(ops, t)[j] < |ops| && (b.stack[j] <==> OpensTest(ops, Opened(ops, t)[j])))
    && b.pending == match LastItem(ops, t) case None => None case Some(i) => Some(TestItem(ops, i))
  }

  lemma TopMeans(b: Blocks, ops: seq<Op>, t: nat)
    requires t <= |ops| && Means(b, ops, t) && Closed(b)
    ensures Top(b.stack) <==> InTest(ops, t)
  {
    var all := Opened(ops, t);
    if Top(b.stack) {
      var k := all[|all| - 1];
      OpenedIsWithin(ops, t, k);
    }
    if InTest(ops, t) {
      var k: nat :| k < t && Within(ops, k, t) && OpensTest(ops, k);
      OpenedIsWithin(ops, t, k);
      var j :| 0 <= j < |all| && all[j] == k;
      assert b.stack[j];
    }
  }

  /** What is pushed for the brace at `t`. */
  lemma OpenMeans(b: Blocks, ops: seq<Op>, t: nat)
    requires t < |ops| && Means(b, ops, t) && Closed(b)
    ensures OpensTest(ops, t) == if b.pending.Some? then b.pending.value else Top(b.stack)
  {
    TopMeans(b, ops, t);
  }

  lemma StackMeans(b: Blocks, ops: seq<Op>, t: nat)
    requires t < |ops| && Means(b, ops, t) && Closed(b)
    ensures |Step(b, ops[t]).stack| == |Opened(ops, t + 1)|
    ensures forall j | 0 <= j < |Opened(ops, t + 1)| ::
              Opened(ops, t + 1)[j] < |ops| && (Step(b, ops[t]).stack[j] <==> OpensTest(ops, Opened(ops, t + 1)[j]))
  {
    OpenMeans(b, ops, t);
  }

  lemma PendingMeans(b: Blocks, ops: seq<Op>, t: nat)
    requires t < |ops| && Means(b, ops, t) && Closed(b)
    ensures Step(b, ops[t]).pending == match LastItem(ops, t + 1) case None => None case Some(i) => Some(TestItem(ops, i))
  {
    TopMeans(b, ops, t);
  }

  lemma StepMeans(b: Blocks, ops: seq<Op>, t: nat)
    requires t < |ops| && Means(b, ops, t) && Closed(b)
    ensures Means(Step(b, ops[t]), ops, t + 1)
  {
    StackMeans(b, ops, t);
    PendingMeans(b, ops, t);
  }

  lemma {:induction false} RunMeans(ops: seq<Op>, t: nat)
    requires t <= |ops|
    ensures Means(Run(START, ops[..t]), ops, t) && Closed(Run(START, ops[..t]))
  {
    RunKeepsClosed(START, ops[..t]);
    if t > 0 {
      RunMeans(ops, t - 1);
      assert ops[..t][..t - 1] == ops[..t - 1];
      StepMeans(Run(START, ops[..t - 1]), ops, t - 1);
    }
  }

  lemma LineMeaning(p: Patterns, lines: seq<string>, n: nat, code: string, attr: bool, b: Blocks)
    requires n < |lines| && code == CodeOf(p, lines, n) && Tracked(p, lines, n, attr, b)
    ensures TestLine(p, lines, n) <==> ContextOf(p, code, attr, b)
    ensures Tracked(p, lines, n + 1, AttrAfter(p, code, attr), AfterLine(p, code, BracketsIn(p, lines, n), attr, b))
  {
    RunLine(p, lines, n, code, attr, b);
    PointMeaning(OpsBefore(p, lines, n), ItemOps(p, code, attr));
  }

  lemma PointMeaning(before: seq<Op>, items: seq<Op>)
    ensures TestFrom(before + items, |before|) <==>
            Top(Run(START, before).stack) || Run(START, before + items).pending == Some(true)
  {
    var ops, t := before + items, |before|;
    assert ops[..t] == before && ops[..|ops|] == ops;
    RunMeans(ops, t);
    TopMeans(Run(START, before), ops, t);
    RunMeans(ops, |ops|);
  }
}
