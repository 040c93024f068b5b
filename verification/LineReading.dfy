/** The panic check's line sanitiser as a reader of whole texts: what it does to a text of many lines, turn by turn. */
module LineReading {
  import opened Options
  import opened Sequences
  import opened LineSanitizer
  import G = GatewayScanner

  /** What one turn reads, what is left of it, and the mode after. */
  datatype Turned = Turned(len: nat, out: string, mode: Mode)

  type Turner = (string, Mode) -> Turned

  /** The first `n` characters of a text, if some turn ends there. */
  function Reads(turn: Turner, t: string, m: Mode, n: nat): Option<Walked>
    requires n <= |t|
    decreases n
  {
    if n == 0 then Some(Walked("", m))
    else
      var v := turn(t, m);
      if !(1 <= v.len <= n) then None else Onwards(v.out, Reads(turn, t[v.len..], v.mode, n - v.len))
  }

  function Onwards(first: string, rest: Option<Walked>): Option<Walked> {
    match rest case None => None case Some(x) => Some(Walked(first + x.out, x.mode))
  }

  /** Before `after`, the text `w` is read in whole turns: from mode `m` to `m'`, leaving `o`. */
  predicate On(turn: Turner, w: string, m: Mode, o: string, m': Mode, after: string) {
    Reads(turn, w + after, m, |w|) == Some(Walked(o, m'))
  }

  lemma OnwardsTwice(a: string, b: string, rest: Option<Walked>)
    ensures Onwards(a, Onwards(b, rest)) == Onwards(a + b, rest)
  {
    if rest.Some? { Regroup(a, b, rest.value.out); }
  }

  lemma OnwardsEmpty(rest: Option<Walked>)
    ensures Onwards("", rest) == rest
  {
    if rest.Some? { assert "" + rest.value.out == rest.value.out; }
  }

  /** What has been read is followed by what is read from there. */
  lemma {:induction false} ReadsOn(turn: Turner, w: string, m: Mode, o: string, m': Mode, rest: string, n: nat)
    requires On(turn, w, m, o, m', rest) && n <= |rest|
    ensures Reads(turn, w + rest, m, |w| + n) == Onwards(o, Reads(turn, rest, m', n))
    decreases |w|
  {
    var t := w + rest;
    if w == "" {
      assert t == rest;
      OnwardsEmpty(Reads(turn, rest, m', n));
    } else {
      var v := turn(t, m);
      var w' := w[v.len..];
      assert t[v.len..] == w' + rest;
      var o' := Reads(turn, w' + rest, v.mode, |w'|).value.out;
      ReadsOn(turn, w', v.mode, o', m', rest, n);
      OnwardsTwice(v.out, o', Reads(turn, rest, m', n));
    }
  }

  lemma Then(turn: Turner, a: string, m: Mode, oa: string, m1: Mode, b: string, ob: string, m2: Mode, after: string)
    requires On(turn, a, m, oa, m1, b + after) && On(turn, b, m1, ob, m2, after)
    ensures On(turn, a + b, m, oa + ob, m2, after)
  {
    Regroup(a, b, after);
    ReadsOn(turn, a, m, oa, m1, b + after, |b|);
  }

  lemma OneTurn(turn: Turner, w: string, m: Mode, o: string, m': Mode, after: string)
    requires w != "" && turn(w + after, m) == Turned(|w|, o, m')
    ensures On(turn, w, m, o, m', after)
  {
    assert (w + after)[|w|..] == after && o + "" == o;
  }

  // ---- The turns of the sanitiser, on a text of several lines ----

  /** The characters before the first newline. */
  function LineLen(t: string): (n: nat)
    ensures n <= |t|
  {
    if t == "" || t[0] == '\n' then 0 else 1 + LineLen(t[1..])
  }

  /** Some `#` and a double quote. */
  predicate QuoteAfterHashes(t: string) {
    t != "" && (t[0] == '"' || (t[0] == '#' && QuoteAfterHashes(t[1..])))
  }

  /** Some characters of an identifier and an apostrophe. */
  predicate QuoteAfterIdent(cs: Classes, t: string) {
    t != "" && (if cs.alnum(t[0]) || t[0] == '_' then QuoteAfterIdent(cs, t[1..]) else t[0] == '\'')
  }

  /** At an apostrophe: what follows it is taken for a lifetime. */
  predicate LifetimeSeen(cs: Classes, rest: string) {
    rest != "" && (cs.alpha(rest[0]) || rest[0] == '_') && !QuoteAfterIdent(cs, rest[1..])
  }

  predicate Second(t: string, c: char) {
    |t| > 1 && t[1] == c
  }

  function TurnComment(t: string, depth: nat): Turned
    requires t != ""
  {
    if t[0] == '/' && Second(t, '*') then Turned(2, "  ", BlockComment(depth + 1))
    else if t[0] == '*' && Second(t, '/') then Turned(2, "  ", if depth <= 1 then Code else BlockComment(depth - 1))
    else Turned(1, " ", BlockComment(depth))
  }

  function TurnRaw(t: string, hashes: nat): Turned
    requires t != ""
  {
    if t[0] == '"' && G.HashRun(t[1..]) == hashes then Turned(hashes + 1, G.Spaces(hashes + 1), Code) else Turned(1, " ", RawString(hashes))
  }

  function TurnCode(cs: Classes, t: string): Turned
    requires t != ""
  {
    var c := t[0];
    if c == '/' && Second(t, '/') then Turned(LineLen(t), G.Spaces(LineLen(t)), Code)
    else if c == '/' && Second(t, '*') then Turned(2, "  ", BlockComment(1))
    else if c == 'r' && QuoteAfterHashes(t[1..]) then
      var n := G.HashRun(t[1..]); Turned(n + 2, G.Spaces(n + 2), RawString(n))
    else if c == '"' then Turned(1, " ", InString(false))
    else if c == '\'' then Turned(1, " ", if LifetimeSeen(cs, t[1..]) then Code else InChar(false))
    else Turned(1, [c], Code)
  }

  function TurnOf(cs: Classes, t: string, m: Mode): Turned {
    if t == "" then Turned(0, "", m)
    else if t[0] == '\n' then Turned(1, "\n", LineEnd(m))
    else match m
      case Code => TurnCode(cs, t)
      case BlockComment(depth) => TurnComment(t, depth)
      case RawString(hashes) => TurnRaw(t, hashes)
      case InString(escaped) =>
        Turned(1, " ", if escaped then InString(false) else if t[0] == '\\' then InString(true) else if t[0] == '"' then Code else m)
      case InChar(escaped) =>
        Turned(1, " ", if escaped then InChar(false) else if t[0] == '\\' then InChar(true) else if t[0] == '\'' then Code else m)
  }

  function Turning(cs: Classes): Turner {
    (t: string, m: Mode) => TurnOf(cs, t, m)
  }

  // ---- They are those of the sanitiser, on the line they stand in ----

  /** A newline, an apostrophe and a backslash are no letters and no digits. */
  predicate Sane(cs: Classes) {
    !cs.alnum('\n') && !cs.alpha('\n') && !cs.alnum('\'') && !cs.alpha('\\')
  }

  predicate AtLineEnd(tail: string) {
    tail == "" || tail[0] == '\n'
  }

  lemma {:induction false} HashesOnLine(s: string, j: nat, tail: string, t: string)
    requires j <= |s| && AtLineEnd(tail) && t == s[j..] + tail
    ensures G.HashRun(t) == HashEnd(s, j) - j && (QuoteAfterHashes(t) <==> Is(s, HashEnd(s, j), '"'))
    decreases |s| - j
  {
    if j < |s| {
      assert t[0] == s[j] && t[1..] == s[j + 1..] + tail;
      if s[j] == '#' { HashesOnLine(s, j + 1, tail, t[1..]); }
    } else {
      assert t == tail;
    }
  }

  lemma {:induction false} IdentOnLine(cs: Classes, s: string, j: nat, tail: string, t: string)
    requires Sane(cs) && j <= |s| && AtLineEnd(tail) && t == s[j..] + tail
    ensures QuoteAfterIdent(cs, t) <==> Is(s, IdentEnd(cs, s, j), '\'')
    decreases |s| - j
  {
    if j < |s| {
      assert t[0] == s[j] && t[1..] == s[j + 1..] + tail;
      IdentOnLine(cs, s, j + 1, tail, t[1..]);
    } else {
      assert t == tail;
    }
  }

  lemma {:induction false} LineLenIs(line: string, tail: string, t: string)
    requires '\n' !in line && AtLineEnd(tail) && t == line + tail
    ensures LineLen(t) == |line|
  {
    if line == "" {
      assert t == tail;
    } else {
      assert t[0] == line[0] && t[1..] == line[1..] + tail;
      LineLenIs(line[1..], tail, t[1..]);
    }
  }

  /** What `Next` does at a position of a line, as a turn. */
  function NextTurned(cs: Classes, s: string, i: nat, m: Mode): Turned
    requires i < |s|
  {
    match Next(cs, s, i, m)
    case Stop => Turned(|s| - i, G.Spaces(|s| - i), Code)
    case Move(len, copied, mode) => Turned(len, if copied then [s[i]] else G.Spaces(len), mode)
  }

  lemma SecondOnLine(s: string, i: nat, tail: string, t: string, c: char)
    requires i < |s| && AtLineEnd(tail) && t == s[i..] + tail && c != '\n'
    ensures t[0] == s[i] && t[1..] == s[i + 1..] + tail && (Second(t, c) <==> Is(s, i + 1, c))
  {
  }

  lemma CodeTurns(cs: Classes, s: string, i: nat, tail: string, t: string)
    requires Sane(cs) && i < |s| && '\n' !in s && AtLineEnd(tail) && t == s[i..] + tail
    ensures TurnCode(cs, t) == NextTurned(cs, s, i, Code)
  {
    SecondOnLine(s, i, tail, t, '/');
    SecondOnLine(s, i, tail, t, '*');
    HashesOnLine(s, i + 1, tail, t[1..]);
    if s[i] == '/' { LineLenIs(s[i..], tail, t); }
    if s[i] == '\'' { LifetimeOnLine(cs, s, i, tail, t[1..]); }
    assert G.Spaces(1) == " " && G.Spaces(2) == "  ";
  }

  lemma LifetimeOnLine(cs: Classes, s: string, i: nat, tail: string, rest: string)
    requires Sane(cs) && i < |s| && s[i] == '\'' && '\n' !in s && AtLineEnd(tail) && rest == s[i + 1..] + tail
    ensures LifetimeSeen(cs, rest) <==> StartsLifetime(cs, s, i)
  {
    if i + 1 < |s| {
      assert rest[0] == s[i + 1] && rest[1..] == s[i + 2..] + tail;
      IdentOnLine(cs, s, i + 2, tail, rest[1..]);
    } else {
      assert rest == tail;
    }
  }

  lemma TurnIsNext(cs: Classes, s: string, i: nat, m: Mode, tail: string, t: string)
    requires Sane(cs) && i < |s| && '\n' !in s && AtLineEnd(tail) && t == s[i..] + tail
    ensures TurnOf(cs, t, m) == NextTurned(cs, s, i, m)
  {
    assert t[0] == s[i] && G.Spaces(1) == " " && G.Spaces(2) == "  ";
    match m
    case Code => CodeTurns(cs, s, i, tail, t);
    case BlockComment(_) =>
      SecondOnLine(s, i, tail, t, '/');
      SecondOnLine(s, i, tail, t, '*');
    case RawString(_) =>
      SecondOnLine(s, i, tail, t, '"');
      HashesOnLine(s, i + 1, tail, t[1..]);
    case InString(_) =>
    case InChar(_) =>
  }

  /** Writing at the front of the blanks. */
  lemma PutFront(out: string, i: nat, c: char, copied: bool, n: nat, piece: string)
    requires i + n <= |out| && n >= 1 && SpacesFrom(out, i) && piece == (if copied then [c] else G.Spaces(n)) && (copied ==> n == 1)
    ensures Put(out, i, c, copied)[..i + n] == out[..i] + piece && SpacesFrom(Put(out, i, c, copied), i + n)
  {
  }

  /** What is written of the line after one turn. */
  function Written(cs: Classes, s: string, i: nat, m: Mode, out: string): (r: string)
    requires i < |s| == |out|
    ensures |r| == |s|
  {
    match Next(cs, s, i, m)
    case Stop => out
    case Move(_, copied, _) => Put(out, i, s[i], copied)
  }

  lemma WrittenFront(cs: Classes, s: string, i: nat, m: Mode, out: string, v: Turned, r: string)
    requires i < |s| == |out| && SpacesFrom(out, i) && v == NextTurned(cs, s, i, m) && r == Written(cs, s, i, m, out)
    ensures 1 <= v.len && i + v.len <= |s| && SpacesFrom(r, i + v.len) && r[..i + v.len] == out[..i] + v.out
  {
    match Next(cs, s, i, m)
    case Stop => assert out[..i] + v.out == out;
    case Move(len, copied, _) => PutFront(out, i, s[i], copied, len, v.out);
  }

  lemma WalkTurn(cs: Classes, s: string, i: nat, m: Mode, out: string, v: Turned, r: string)
    requires i < |s| == |out| && v == NextTurned(cs, s, i, m) && r == Written(cs, s, i, m, out) && 1 <= v.len && i + v.len <= |s|
    ensures Walk(cs, s, i, m, out) == Walk(cs, s, i + v.len, v.mode, r)
  {
    var x := Next(cs, s, i, m);
    if x.Move? { WalkStep(cs, s, i, m, out, x); } else { assert m == Code; }
  }

  /** What is left of a line of length `n` from position `i` on, turn by turn. */
  function RestBy(next: (nat, Mode) -> Turned, n: nat, i: nat, m: Mode): Option<Walked>
    requires i <= n
    decreases n - i
  {
    if i == n then Some(Walked("", m))
    else
      var v := next(i, m);
      if !(1 <= v.len <= n - i) then None else Onwards(v.out, RestBy(next, n, i + v.len, v.mode))
  }

  /** Reading a line takes the turns of the line. */
  lemma {:induction false} RestIsRead(turn: Turner, next: (nat, Mode) -> Turned, s: string, tail: string, i: nat, m: Mode)
    requires i <= |s| && forall j: nat, m' | j < |s| :: turn(s[j..] + tail, m') == next(j, m')
    ensures Reads(turn, s[i..] + tail, m, |s| - i) == RestBy(next, |s|, i, m)
    decreases |s| - i
  {
    if i < |s| {
      var v := next(i, m);
      if 1 <= v.len <= |s| - i {
        RestOfLine(s, i, tail, s[i..] + tail, v.len);
        RestIsRead(turn, next, s, tail, i + v.len, v.mode);
      }
    }
  }

  /** The turns of a line, as a function of the position. */
  function NextOn(cs: Classes, s: string): (nat, Mode) -> Turned {
    (i: nat, m: Mode) => if i < |s| then NextTurned(cs, s, i, m) else Turned(0, "", m)
  }

  /** One turn of a walk leaves a line of the same length, written up to where the turn ends. */
  predicate TurnOfWalk(next: (nat, Mode) -> Turned, walk: (nat, Mode, string) -> Walked, n: nat, i: nat, m: Mode, out: string, r: string) {
    var v := next(i, m);
    i <= n == |out| == |r| && 1 <= v.len <= n - i && SpacesFrom(r, i + v.len)
    && r[..i + v.len] == out[..i] + v.out && walk(i, m, out) == walk(i + v.len, v.mode, r)
  }

  /** A walk that goes by such turns writes what they leave. */
  lemma {:induction false} WalkByTurns(next: (nat, Mode) -> Turned, walk: (nat, Mode, string) -> Walked,
      written: (nat, Mode, string) -> string, n: nat, i: nat, m: Mode, out: string, front: string)
    requires i <= n == |out| && SpacesFrom(out, i) && front == out[..i]
    requires forall j: nat, m', o: string | j < n == |o| && SpacesFrom(o, j) :: TurnOfWalk(next, walk, n, j, m', o, written(j, m', o))
    requires forall m', o: string | |o| == n :: walk(n, m', o) == Walked(o, m')
    ensures Onwards(front, RestBy(next, n, i, m)) == Some(walk(i, m, out))
    decreases n - i
  {
    if i == n {
      assert front + "" == out;
    } else {
      var v, r := next(i, m), written(i, m, out);
      assert TurnOfWalk(next, walk, n, i, m, out, r);
      WalkByTurns(next, walk, written, n, i + v.len, v.mode, r, front + v.out);
      OnwardsTwice(front, v.out, RestBy(next, n, i + v.len, v.mode));
    }
  }

  function WalkOn(cs: Classes, s: string): (nat, Mode, string) -> Walked {
    (i: nat, m: Mode, out: string) => if i <= |s| == |out| then Walk(cs, s, i, m, out) else Walked(out, m)
  }

  function WrittenOn(cs: Classes, s: string): (nat, Mode, string) -> string {
    (i: nat, m: Mode, out: string) => if i < |s| == |out| then Written(cs, s, i, m, out) else out
  }

  lemma WalkIsOfTurns(cs: Classes, s: string, i: nat, m: Mode, out: string)
    requires i < |s| == |out| && SpacesFrom(out, i)
    ensures TurnOfWalk(NextOn(cs, s), WalkOn(cs, s), |s|, i, m, out, WrittenOn(cs, s)(i, m, out))
  {
    var v, r := NextTurned(cs, s, i, m), Written(cs, s, i, m, out);
    WrittenFront(cs, s, i, m, out, v, r);
    WalkTurn(cs, s, i, m, out, v, r);
  }

  /** Walking along a line writes what these turns leave. */
  lemma WalkIsRest(cs: Classes, s: string, m: Mode)
    ensures Onwards("", RestBy(NextOn(cs, s), |s|, 0, m)) == Some(Walk(cs, s, 0, m, G.Spaces(|s|)))
  {
    forall i: nat, m', out: string | i < |s| == |out| && SpacesFrom(out, i)
      ensures TurnOfWalk(NextOn(cs, s), WalkOn(cs, s), |s|, i, m', out, WrittenOn(cs, s)(i, m', out))
    {
      WalkIsOfTurns(cs, s, i, m', out);
    }
    WalkByTurns(NextOn(cs, s), WalkOn(cs, s), WrittenOn(cs, s), |s|, 0, m, G.Spaces(|s|), "");
  }

  lemma RestOfLine(s: string, i: nat, tail: string, t: string, n: nat)
    requires i + n <= |s| && t == s[i..] + tail
    ensures t[n..] == s[i + n..] + tail
  {
  }

  /** A line of a text is read as it is sanitised, whatever the lines after it. */
  lemma LineIsRead(cs: Classes, line: string, m: Mode, tail: string)
    requires Sane(cs) && '\n' !in line && AtLineEnd(tail)
    ensures var w := Walk(cs, line, 0, m, G.Spaces(|line|)); On(Turning(cs), line, m, w.out, w.mode, tail)
  {
    forall i: nat, m' | i < |line| ensures Turning(cs)(line[i..] + tail, m') == NextOn(cs, line)(i, m') {
      TurnIsNext(cs, line, i, m', tail, line[i..] + tail);
    }
    RestIsRead(Turning(cs), NextOn(cs, line), line, tail, 0, m);
    WalkIsRest(cs, line, m);
    assert line[0..] == line;
    OnwardsEmpty(Reads(Turning(cs), line + tail, m, |line|));
  }

  lemma NewlineOn(cs: Classes, m: Mode, after: string)
    ensures On(Turning(cs), "\n", m, "\n", LineEnd(m), after)
  {
    OneTurn(Turning(cs), "\n", m, "\n", LineEnd(m), after);
  }

  /** The lines of a text sanitised one after the other, with the lexer state carried along. */
  function TextOf(cs: Classes, t: string, m: Mode): (r: Walked)
    decreases |t|
  {
    var line := t[..LineLen(t)];
    var w := Sanitized(cs, line, m);
    if |line| == |t| then w
    else
      var r := TextOf(cs, t[|line| + 1..], w.mode);
      Walked(w.out + ("\n" + r.out), r.mode)
  }

  lemma {:induction false} LineHoldsNone(t: string)
    ensures '\n' !in t[..LineLen(t)] && (LineLen(t) < |t| ==> t[LineLen(t)] == '\n')
  {
    if t != "" && t[0] != '\n' {
      LineHoldsNone(t[1..]);
      assert t[..LineLen(t)] == [t[0]] + t[1..][..LineLen(t[1..])];
    }
  }

  /** Sanitising line by line is reading the whole text; at its end a character literal is given up. */
  lemma {:induction false} TextIsRead(cs: Classes, t: string, m: Mode) returns (r: Walked)
    requires Sane(cs)
    ensures Reads(Turning(cs), t, m, |t|) == Some(r) && TextOf(cs, t, m) == Walked(r.out, LineEnd(r.mode))
    decreases |t|
  {
    var line := t[..LineLen(t)];
    var w := Walk(cs, line, 0, m, G.Spaces(|line|));
    LineHoldsNone(t);
    if |line| == |t| {
      LineIsRead(cs, line, m, "");
      assert line + "" == t;
      r := w;
    } else {
      var tail := t[|line| + 1..];
      assert t == line + ("\n" + tail);
      LineIsRead(cs, line, m, "\n" + tail);
      var x := TextIsRead(cs, tail, LineEnd(w.mode));
      r := ThenText(cs, line, m, w, tail, x);
    }
  }

  lemma ThenText(cs: Classes, line: string, m: Mode, w: Walked, tail: string, x: Walked) returns (r: Walked)
    requires On(Turning(cs), line, m, w.out, w.mode, "\n" + tail)
    requires Reads(Turning(cs), tail, LineEnd(w.mode), |tail|) == Some(x)
    ensures r == Walked(w.out + ("\n" + x.out), x.mode)
    ensures var t := line + ("\n" + tail); Reads(Turning(cs), t, m, |t|) == Some(r)
  {
    NewlineOn(cs, w.mode, tail);
    ReadsOn(Turning(cs), "\n", w.mode, "\n", LineEnd(w.mode), tail, |tail|);
    ReadsOn(Turning(cs), line, m, w.out, w.mode, "\n" + tail, |"\n" + tail|);
    r := Walked(w.out + ("\n" + x.out), x.mode);
  }
}
