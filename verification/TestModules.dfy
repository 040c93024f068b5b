/** The brace walks of the gateway boundary check: `_blank_test_modules` and the grouped-import body. */
module TestModules {
  import opened GatewayScanner

  function Delta(c: char): int {
    if c == '{' then 1 else if c == '}' then -1 else 0
  }

  /** How deep the text is at `to`, counting from inside the brace at `open`. */
  function Depth(s: string, open: nat, to: nat): int
    requires open < to <= |s|
  {
    if to == open + 1 then 1 else Depth(s, open, to - 1) + Delta(s[to - 1])
  }

  /** `j` is one past the brace that closes the one at `open`, or the end of the text if none does. */
  predicate ClosesAt(s: string, open: nat, j: nat, closed: bool) {
    && open < j <= |s|
    && (forall k | open < k < j :: Depth(s, open, k) > 0)
    && if closed then Depth(s, open, j) == 0 else j == |s| && Depth(s, open, j) > 0
  }

  lemma CloseUnique(s: string, open: nat, j: nat, closed: bool, j': nat, closed': bool)
    requires ClosesAt(s, open, j, closed) && ClosesAt(s, open, j', closed')
    ensures j == j' && closed == closed'
  {
  }

  /** Where the walk from `open` that has come to `j` ends. */
  function WalkEnd(s: string, open: nat, j: nat): (end: nat)
    requires open < j <= |s| && Depth(s, open, j) >= 0 && forall k | open < k < j :: Depth(s, open, k) > 0
    ensures j <= end <= |s| && ClosesAt(s, open, end, Depth(s, open, end) == 0)
    decreases |s| - j
  {
    if j == |s| || Depth(s, open, j) == 0 then j else WalkEnd(s, open, j + 1)
  }

  /** The `while j < n and depth > 0` walk. */
  method FindClose(s: string, open: nat) returns (j: nat, closed: bool)
    requires open < |s|
    ensures j == WalkEnd(s, open, open + 1) && ClosesAt(s, open, j, closed)
  {
    var depth := 1;
    j := open + 1;
    while j < |s| && depth > 0
      invariant open < j <= |s| && depth == Depth(s, open, j) && depth >= 0
      invariant forall k | open < k < j :: Depth(s, open, k) > 0
      invariant WalkEnd(s, open, j) == WalkEnd(s, open, open + 1)
    {
      if s[j] == '{' { depth := depth + 1; } else if s[j] == '}' { depth := depth - 1; }
      j := j + 1;
    }
    closed := depth == 0;
  }

  /** The body of a grouped import: everything up to the closing brace, or all that is left. */
  method GroupedImportBody(s: string, open: nat) returns (body: string)
    requires open < |s|
    ensures var j := WalkEnd(s, open, open + 1);
            body == s[open + 1..if Depth(s, open, j) == 0 then j - 1 else |s|]
  {
    var j, closed := FindClose(s, open);
    body := s[open + 1..if closed then j - 1 else |s|];
  }

  // ---- Blanking ----

  /** A header match: where it starts and the position of its opening brace. */
  datatype Header = Header(start: nat, open: nat)

  /** Regular expression matches come in order and do not overlap. */
  predicate Matches(s: string, hs: seq<Header>) {
    && (forall i | 0 <= i < |hs| :: hs[i].start <= hs[i].open < |s|)
    && (forall a, b | 0 <= a < b < |hs| :: hs[a].open < hs[b].start)
  }

  /** A module that is blanked: its opening brace, and one past the end of the walk. */
  datatype Module = Module(open: nat, end: nat)

  function LastEnd(ms: seq<Module>): nat {
    if ms == [] then 0 else ms[|ms| - 1].end
  }

  /** The modules taken among the first `n` headers: a header inside the last module is skipped. */
  function Modules(s: string, hs: seq<Header>, n: nat): seq<Module>
    requires Matches(s, hs) && n <= |hs|
  {
    if n == 0 then [] else
      var ms, h := Modules(s, hs, n - 1), hs[n - 1];
      if h.start < LastEnd(ms) then ms else ms + [Module(h.open, WalkEnd(s, h.open, h.open + 1))]
  }

  predicate InBody(m: Module, k: nat) {
    m.open < k < m.end - 1
  }

  predicate Covered(ms: seq<Module>, k: nat) {
    exists i | 0 <= i < |ms| :: InBody(ms[i], k)
  }

  /** Every position strictly inside a module is blank; nothing else is touched. */
  predicate BlankedIn(out: string, s: string, ms: seq<Module>) {
    |out| == |s| && forall k | 0 <= k < |s| :: out[k] == if Covered(ms, k) then Blank(s[k]) else s[k]
  }

  method BlankTestModules(s: string, hs: seq<Header>) returns (r: string)
    requires Matches(s, hs)
    ensures BlankedIn(r, s, Modules(s, hs, |hs|))
  {
    r := s;
    var lastEnd := 0;
    for x := 0 to |hs|
      invariant lastEnd == LastEnd(Modules(s, hs, x)) && BlankedIn(r, s, Modules(s, hs, x))
    {
      if hs[x].start >= lastEnd {
        var open := hs[x].open;
        var j, closed := FindClose(s, open);
        var blanked := BlankBetween(r, open + 1, if j - 1 > open + 1 then j - 1 else open + 1);
        BlankedMore(blanked, r, s, Modules(s, hs, x), Module(open, j));
        r, lastEnd := blanked, j;
      }
    }
  }

  /** The inner loop: overwrite a range, keeping newlines and tabs. */
  method BlankBetween(s: string, from: nat, to: nat) returns (r: string)
    requires from <= to <= |s|
    ensures |r| == |s| && forall k | 0 <= k < |s| :: r[k] == if from <= k < to then Blank(s[k]) else s[k]
  {
    r := s;
    for k := from to to
      invariant |r| == |s| && forall i | 0 <= i < |s| :: r[i] == if from <= i < k then Blank(s[i]) else s[i]
    {
      if r[k] != '\n' && r[k] != '\t' { r := r[k := ' ']; }
    }
  }

  lemma CoveredMore(ms: seq<Module>, m: Module, k: nat)
    ensures Covered(ms + [m], k) <==> Covered(ms, k) || InBody(m, k)
  {
    if InBody(m, k) { assert (ms + [m])[|ms|] == m; }
    if Covered(ms, k) {
      var i :| 0 <= i < |ms| && InBody(ms[i], k);
      assert (ms + [m])[i] == ms[i];
    }
  }

  lemma BlankedMore(out: string, r: string, s: string, ms: seq<Module>, m: Module)
    requires BlankedIn(r, s, ms) && |out| == |s|
    requires forall k | 0 <= k < |s| :: out[k] == if InBody(m, k) then Blank(r[k]) else r[k]
    ensures BlankedIn(out, s, ms + [m])
  {
    forall k | 0 <= k < |s| ensures out[k] == if Covered(ms + [m], k) then Blank(s[k]) else s[k] { CoveredMore(ms, m, k); }
  }

  // ---- What blanking keeps ----

  /** A module is a whole walk from its opening brace. */
  predicate Walked(s: string, m: Module) {
    m.open < m.end <= |s| && ClosesAt(s, m.open, m.end, Depth(s, m.open, m.end) == 0)
  }

  predicate Apart(ms: seq<Module>) {
    forall a, b | 0 <= a < b < |ms| :: ms[a].end <= ms[b].open
  }

  /** Modules come one after the other and never overlap; each is a whole walk. */
  lemma {:induction false} ModulesApart(s: string, hs: seq<Header>, n: nat)
    requires Matches(s, hs) && n <= |hs|
    ensures Apart(Modules(s, hs, n)) && forall m <- Modules(s, hs, n) :: Walked(s, m)
  {
    if n > 0 {
      ModulesApart(s, hs, n - 1);
      var ms, h := Modules(s, hs, n - 1), hs[n - 1];
      if h.start >= LastEnd(ms) {
        var m := Module(h.open, WalkEnd(s, h.open, h.open + 1));
        assert Walked(s, m) && Modules(s, hs, n) == ms + [m];
        forall a | 0 <= a < |ms| ensures ms[a].end <= m.open { assert Walked(s, ms[|ms| - 1]); }
      }
    }
  }

  /** Every header is the start of a module or lies inside one. */
  lemma {:induction false} HeadersTaken(s: string, hs: seq<Header>, n: nat, x: nat)
    requires Matches(s, hs) && x < n <= |hs|
    ensures exists m <- Modules(s, hs, n) :: m.open == hs[x].open || m.open < hs[x].start < m.end
  {
    var ms := Modules(s, hs, n - 1);
    if x < n - 1 {
      HeadersTaken(s, hs, n - 1, x);
      var m :| m in ms && (m.open == hs[x].open || m.open < hs[x].start < m.end);
      assert m in Modules(s, hs, n);
    } else if hs[x].start < LastEnd(ms) {
      ModuleHeaders(s, hs, n - 1, |ms| - 1);
      assert ms[|ms| - 1] in Modules(s, hs, n);
    } else {
      var m := Module(hs[x].open, WalkEnd(s, hs[x].open, hs[x].open + 1));
      assert Modules(s, hs, n) == ms + [m];
      assert m in Modules(s, hs, n);
    }
  }

  lemma {:induction false} ModuleHeaders(s: string, hs: seq<Header>, n: nat, i: nat)
    requires Matches(s, hs) && n <= |hs| && i < |Modules(s, hs, n)|
    ensures exists x | 0 <= x < n :: hs[x].open == Modules(s, hs, n)[i].open
  {
    if i < |Modules(s, hs, n - 1)| {
      ModuleHeaders(s, hs, n - 1, i);
      var x :| 0 <= x < n - 1 && hs[x].open == Modules(s, hs, n - 1)[i].open;
      assert hs[x].open == Modules(s, hs, n)[i].open;
    } else {
      assert hs[n - 1].open == Modules(s, hs, n)[i].open;
    }
  }

  /** Lines stay where they are. */
  lemma BlankingKeepsLines(out: string, s: string, ms: seq<Module>)
    requires BlankedIn(out, s, ms)
    ensures forall k | 0 <= k < |s| :: out[k] == '\n' <==> s[k] == '\n'
  {
  }

  /** Text between the braces holds no brace any more, so the walk counts nothing there. */
  lemma {:induction false} FlatDepth(out: string, open: nat, to: nat)
    requires open < to <= |out| && forall k | open < k < to :: Delta(out[k]) == 0
    ensures Depth(out, open, to) == 1
  {
    if to > open + 1 { FlatDepth(out, open, to - 1); }
  }

  /** No brace is left inside a module. */
  lemma BodyHasNoBrace(out: string, s: string, ms: seq<Module>, i: nat, k: nat)
    requires BlankedIn(out, s, ms) && i < |ms| && InBody(ms[i], k) && ms[i].end <= |s|
    ensures Delta(out[k]) == 0
  {
    assert Covered(ms, k);
  }

  /** A closed module still closes at the same brace, and no brace is left inside it. */
  lemma ClosedModuleStays(out: string, s: string, ms: seq<Module>, i: nat)
    requires BlankedIn(out, s, ms) && i < |ms| && Apart(ms) && Walked(s, ms[i]) && Depth(s, ms[i].open, ms[i].end) == 0
    ensures ClosesAt(out, ms[i].open, ms[i].end, true)
  {
    var m := ms[i];
    assert m.end - 1 > m.open && Depth(s, m.open, m.end - 1) > 0;
    assert s[m.end - 1] == '}';
    EndNotCovered(ms, i);
    forall k | m.open < k < m.end - 1 ensures Delta(out[k]) == 0 { BodyHasNoBrace(out, s, ms, i, k); }
    forall k | m.open < k < m.end ensures Depth(out, m.open, k) == 1 { FlatDepth(out, m.open, k); }
  }

  lemma EndNotCovered(ms: seq<Module>, i: nat)
    requires i < |ms| && ms[i].open < ms[i].end && Apart(ms)
    ensures !Covered(ms, ms[i].end - 1)
  {
    forall b | 0 <= b < |ms| ensures !InBody(ms[b], ms[i].end - 1) {
      if b < i { assert ms[b].end <= ms[i].open; } else if b > i { assert ms[i].end <= ms[b].open; }
    }
  }

  predicate IsBlank(c: char) {
    c == Blank(c)
  }

  /** The brace that closes the module comes last in it. */
  predicate IsClosed(s: string, m: Module)
    requires m.open < m.end <= |s|
  {
    Depth(s, m.open, m.end) == 0
  }

  /**
   * The body of a taken module, up to its closing brace or else to the end of the text, is blanked completely if and only
   * if the module is closed, or has an empty body, or the text ends in a blank: an unclosed module keeps its last character.
   */
  lemma BodyBlankExactly(out: string, s: string, hs: seq<Header>, i: nat)
    requires Matches(s, hs) && BlankedIn(out, s, Modules(s, hs, |hs|)) && i < |Modules(s, hs, |hs|)|
    ensures var m := Modules(s, hs, |hs|)[i];
            && m.open < m.end <= |s| && (!IsClosed(s, m) ==> m.end == |s|)
            && ((forall k | m.open < k < if IsClosed(s, m) then m.end - 1 else m.end :: IsBlank(out[k])) <==>
                IsClosed(s, m) || m.open + 1 == |s| || IsBlank(s[|s| - 1]))
  {
    var ms := Modules(s, hs, |hs|);
    var m := ms[i];
    ModulesApart(s, hs, |hs|);
    assert Walked(s, m);
    EndNotCovered(ms, i);
    forall k | m.open < k < m.end - 1 ensures IsBlank(out[k]) { assert InBody(m, k) && Covered(ms, k); }
    assert out[m.end - 1] == s[m.end - 1];
  }

  /** So the last character of `mod tests {x` stays visible. */
  lemma UnclosedModuleKeepsLastChar(out: string)
    requires BlankedIn(out, "mod tests {x", Modules("mod tests {x", [Header(0, 10)], 1))
    ensures out[11] == 'x' && !IsBlank(out[11])
  {
    var s, hs := "mod tests {x", [Header(0, 10)];
    var m := Module(10, WalkEnd(s, 10, 11));
    assert Depth(s, 10, 11) == 1 && Depth(s, 10, 12) == 1;
    assert Modules(s, hs, 0) == [] && Modules(s, hs, 1) == [m];
    assert m.end == 12;
    EndNotCovered([m], 0);
  }
}
