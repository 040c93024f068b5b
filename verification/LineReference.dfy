/** The panic check's line sanitiser against Rust's own tokens: on which sources it keeps the code and blanks the rest. */
module LineReference {
  import opened Options
  import opened Sequences
  import opened LineSanitizer
  import opened LineReading
  import opened RustTokens
  import G = GatewayScanner

  // ---- What should be left ----

  function Hide(s: string): (r: string)
    ensures |r| == |s| && forall i | 0 <= i < |s| :: r[i] == if s[i] == '\n' then '\n' else ' '
  {
    seq(|s|, i requires 0 <= i < |s| => if s[i] == '\n' then '\n' else ' ')
  }

  /** Of a token, the code; a lifetime keeps its name. Lines stay apart. */
  function Kept(t: Token): string {
    match t
    case CodeChar(c) => [c]
    case Lifetime(name) => " " + name
    case _ => Hide(Text(t))
  }

  function KeptSource(ts: seq<Token>): string {
    if ts == [] then "" else Kept(ts[0]) + KeptSource(ts[1..])
  }

  lemma HideConcat(a: string, b: string)
    ensures Hide(a + b) == Hide(a) + Hide(b)
  {
    assert forall i | |a| <= i < |a + b| :: (a + b)[i] == b[i - |a|];
  }

  lemma HideSpaces(s: string)
    requires '\n' !in s
    ensures Hide(s) == G.Spaces(|s|)
  {
  }

  // ---- Comments ----

  lemma CommentCharOn(cs: Classes, c: char, depth: nat, after: string)
    requires !(c == '/' && after != "" && after[0] == '*') && !(c == '*' && after != "" && after[0] == '/')
    ensures On(Turning(cs), [c], BlockComment(depth), Hide([c]), BlockComment(depth), after)
  {
    OneTurn(Turning(cs), [c], BlockComment(depth), Hide([c]), BlockComment(depth), after);
  }

  lemma OpenComment(cs: Classes, depth: nat, after: string)
    ensures On(Turning(cs), "/*", BlockComment(depth), Hide("/*"), BlockComment(depth + 1), after)
    ensures On(Turning(cs), "/*", Code, Hide("/*"), BlockComment(1), after)
  {
    assert Hide("/*") == "  ";
    OneTurn(Turning(cs), "/*", BlockComment(depth), Hide("/*"), BlockComment(depth + 1), after);
    OneTurn(Turning(cs), "/*", Code, Hide("/*"), BlockComment(1), after);
  }

  lemma CloseComment(cs: Classes, depth: nat, after: string)
    requires depth >= 1
    ensures On(Turning(cs), "*/", BlockComment(depth), Hide("*/"), if depth == 1 then Code else BlockComment(depth - 1), after)
  {
    assert Hide("*/") == "  ";
    OneTurn(Turning(cs), "*/", BlockComment(depth), Hide("*/"), if depth == 1 then Code else BlockComment(depth - 1), after);
  }

  /** The inside of a comment, nested comments included, is read to its end and no further. */
  lemma {:induction false} InsideOn(cs: Classes, c: Comment, depth: nat, after: string)
    requires depth >= 1 && CommentFits(c, after)
    ensures On(Turning(cs), Inside(c), BlockComment(depth), Hide(Inside(c)), BlockComment(depth), after)
  {
    var here := BlockComment(depth);
    match c
    case End =>
    case Char(ch, rest) =>
      var body := Inside(rest);
      assert [ch] + body + after == [ch] + (body + after);
      CommentCharOn(cs, ch, depth, body + after);
      InsideOn(cs, rest, depth, after);
      Then(Turning(cs), [ch], here, Hide([ch]), here, body, Hide(body), here, after);
      HideConcat([ch], body);
    case Nested(inner, rest) =>
      InsideOn(cs, inner, depth + 1, "*/" + (Inside(rest) + after));
      InsideOn(cs, rest, depth, after);
      NestedOn(cs, Inside(inner), Inside(rest), depth, after);
  }

  lemma NestedOn(cs: Classes, inner: string, body: string, depth: nat, after: string)
    requires depth >= 1
    requires On(Turning(cs), inner, BlockComment(depth + 1), Hide(inner), BlockComment(depth + 1), "*/" + (body + after))
    requires On(Turning(cs), body, BlockComment(depth), Hide(body), BlockComment(depth), after)
    ensures var s := "/*" + inner + "*/" + body; On(Turning(cs), s, BlockComment(depth), Hide(s), BlockComment(depth), after)
  {
    var turn, here, below := Turning(cs), BlockComment(depth), BlockComment(depth + 1);
    OpenComment(cs, depth, inner + ("*/" + (body + after)));
    CloseComment(cs, depth + 1, body + after);
    BlankThen(turn, "/*", here, below, inner, below, "*/" + (body + after));
    BlankThen(turn, "/*" + inner, here, below, "*/", here, body + after);
    BlankThen(turn, "/*" + inner + "*/", here, here, body, here, after);
  }

  /** One blanked text after another. */
  lemma BlankThen(turn: Turner, a: string, m: Mode, m1: Mode, b: string, m2: Mode, after: string)
    requires On(turn, a, m, Hide(a), m1, b + after) && On(turn, b, m1, Hide(b), m2, after)
    ensures On(turn, a + b, m, Hide(a + b), m2, after)
  {
    Then(turn, a, m, Hide(a), m1, b, Hide(b), m2, after);
    HideConcat(a, b);
  }

  lemma BlockOn(cs: Classes, comment: Comment, after: string)
    requires CommentFits(comment, "*/" + after)
    ensures On(Turning(cs), Text(Block(comment)), Code, Hide(Text(Block(comment))), Code, after)
  {
    var turn, body, inside := Turning(cs), Inside(comment), BlockComment(1);
    OpenComment(cs, 0, body + ("*/" + after));
    InsideOn(cs, comment, 1, "*/" + after);
    CloseComment(cs, 1, after);
    BlankThen(turn, "/*", Code, inside, body, inside, "*/" + after);
    BlankThen(turn, "/*" + body, Code, inside, "*/", Code, after);
  }

  lemma LineOn(cs: Classes, body: string, after: string)
    requires '\n' !in body && AtLineEnd(after)
    ensures On(Turning(cs), "//" + body, Code, Hide("//" + body), Code, after)
  {
    var w := "//" + body;
    LineLenIs(w, after, w + after);
    HideSpaces(w);
    assert (w + after)[0] == '/' && (w + after)[1] == '/';
    OneTurn(Turning(cs), w, Code, Hide(w), Code, after);
  }

  // ---- Strings ----

  /**
   * Whether an escape is open after the pieces, for a reader like the script that takes an escaped newline for the end of
   * the line and carries the escape over to the next one; none if that reader sees the string closed before its end.
   */
  function Carried(ps: seq<Piece>, escape: bool): Option<bool> {
    if ps == [] then Some(escape)
    else match ps[0]
      case Plain(c) => Carried(ps[1..], escape && c == '\n')
      case Escape(c) => if escape then (if c == '"' then None else Carried(ps[1..], c == '\\')) else Carried(ps[1..], c == '\n')
  }

  function PieceText(p: Piece): string {
    if p.Plain? then [p.c] else ['\\', p.c]
  }

  lemma StringCharOn(cs: Classes, c: char, escape: bool, after: string)
    ensures On(Turning(cs), [c], InString(escape), Hide([c]),
              if c == '\n' then InString(escape) else if escape then InString(false)
              else if c == '\\' then InString(true) else if c == '"' then Code else InString(false), after)
  {
    var m' := if c == '\n' then InString(escape) else if escape then InString(false)
              else if c == '\\' then InString(true) else if c == '"' then Code else InString(false);
    OneTurn(Turning(cs), [c], InString(escape), Hide([c]), m', after);
  }

  /** One piece, from a string with or without an escape carried over. */
  lemma PieceOn(cs: Classes, p: Piece, escape: bool, after: string)
    requires p.Plain? ==> p.c != '"' && p.c != '\\'
    ensures On(Turning(cs), PieceText(p), InString(escape), Hide(PieceText(p)),
              if p.Plain? then InString(escape && p.c == '\n')
              else if !escape then InString(p.c == '\n') else if p.c == '"' then Code else InString(p.c == '\\'), after)
  {
    if p.Plain? {
      StringCharOn(cs, p.c, escape, after);
    } else {
      var m1 := InString(!escape);
      var m2 := if !escape then InString(p.c == '\n') else if p.c == '"' then Code else InString(p.c == '\\');
      StringCharOn(cs, '\\', escape, [p.c] + after);
      StringCharOn(cs, p.c, !escape, after);
      BlankThen(Turning(cs), ['\\'], InString(escape), m1, [p.c], m2, after);
      assert ['\\'] + [p.c] == PieceText(p);
    }
  }

  lemma {:induction false} PiecesOn(cs: Classes, ps: seq<Piece>, escape: bool, tail: string)
    requires PiecesFit(ps, '"') && Carried(ps, escape).Some?
    ensures On(Turning(cs), Pieces(ps), InString(escape), Hide(Pieces(ps)), InString(Carried(ps, escape).value), tail)
  {
    if ps != [] {
      var first, body := PieceText(ps[0]), Pieces(ps[1..]);
      var next := if ps[0].Plain? then escape && ps[0].c == '\n' else if escape then ps[0].c == '\\' else ps[0].c == '\n';
      PieceOn(cs, ps[0], escape, body + tail);
      PiecesOn(cs, ps[1..], next, tail);
      BlankThen(Turning(cs), first, InString(escape), InString(next), body, InString(Carried(ps, escape).value), tail);
    }
  }

  /** After each piece the script is still inside the string. */
  predicate PiecesInStep(cs: Classes, ps: seq<Piece>, escape: bool, tail: string) {
    ps == [] ||
    match Reads(Turning(cs), PieceText(ps[0]) + (Pieces(ps[1..]) + tail), InString(escape), |PieceText(ps[0])|)
    case None => false
    case Some(w) => w.mode.InString? && PiecesInStep(cs, ps[1..], w.mode.escaped, tail)
  }

  lemma {:induction false} PiecesInStepExactly(cs: Classes, ps: seq<Piece>, escape: bool, tail: string)
    requires PiecesFit(ps, '"')
    ensures PiecesInStep(cs, ps, escape, tail) <==> Carried(ps, escape).Some?
  {
    if ps != [] {
      PieceOn(cs, ps[0], escape, Pieces(ps[1..]) + tail);
      var next := if ps[0].Plain? then escape && ps[0].c == '\n' else if escape then ps[0].c == '\\' else ps[0].c == '\n';
      PiecesInStepExactly(cs, ps[1..], next, tail);
    }
  }

  lemma OpenString(cs: Classes, after: string)
    ensures On(Turning(cs), "\"", Code, Hide("\""), InString(false), after)
  {
    OneTurn(Turning(cs), "\"", Code, Hide("\""), InString(false), after);
  }

  /** The whole literal, as far as the closing quote is seen. */
  lemma StringOn(cs: Classes, ps: seq<Piece>, after: string)
    requires PiecesFit(ps, '"') && Carried(ps, false).Some?
    ensures On(Turning(cs), Text(Str(ps)), Code, Hide(Text(Str(ps))), if Carried(ps, false).value then InString(false) else Code, after)
  {
    var turn, body, escape := Turning(cs), Pieces(ps), Carried(ps, false).value;
    var last := if escape then InString(false) else Code;
    OpenString(cs, body + ("\"" + after));
    PiecesOn(cs, ps, false, "\"" + after);
    StringCharOn(cs, '"', escape, after);
    BlankThen(turn, "\"", Code, InString(false), body, InString(escape), "\"" + after);
    BlankThen(turn, "\"" + body, Code, InString(escape), "\"", last, after);
  }

  // ---- Raw strings ----

  lemma {:induction false} HashesThen(n: nat, rest: string)
    ensures G.HashRun(Hashes(n) + rest) == n + G.HashRun(rest) && (QuoteAfterHashes(Hashes(n) + rest) <==> QuoteAfterHashes(rest))
  {
    if n > 0 {
      HashesThen(n - 1, rest);
      assert (Hashes(n) + rest)[1..] == Hashes(n - 1) + rest;
    } else {
      assert Hashes(0) + rest == rest;
    }
  }

  lemma OpenRaw(cs: Classes, n: nat, after: string)
    ensures var w := "r" + Hashes(n) + "\""; On(Turning(cs), w, Code, Hide(w), RawString(n), after)
  {
    var w := "r" + Hashes(n) + "\"";
    var t := w + after;
    HideSpaces(w);
    HashesThen(n, "\"" + after);
    assert t[0] == 'r' && t[1..] == Hashes(n) + ("\"" + after);
    OneTurn(Turning(cs), w, Code, Hide(w), RawString(n), after);
  }

  lemma RawCharOn(cs: Classes, c: char, n: nat, after: string)
    requires c != '"' || G.HashRun(after) != n
    ensures On(Turning(cs), [c], RawString(n), Hide([c]), RawString(n), after)
  {
    assert ([c] + after)[1..] == after;
    OneTurn(Turning(cs), [c], RawString(n), Hide([c]), RawString(n), after);
  }

  /** A quote that as many `#` follow would close the string. */
  lemma ClosesHere(n: nat, after: string)
    requires G.HashRun(after) == n
    ensures "\"" + Hashes(n) <= "\"" + after
  {
    G.HashRunIs(after);
    assert after[..n] == Hashes(n);
  }

  lemma {:induction false} RawBodyOn(cs: Classes, body: string, n: nat, tail: string)
    requires forall p | 0 <= p < |body| :: !("\"" + Hashes(n) <= (body + tail)[p..])
    ensures On(Turning(cs), body, RawString(n), Hide(body), RawString(n), tail)
  {
    if body != "" {
      var c, rest := body[0], body[1..];
      assert body + tail == [c] + (rest + tail) && (body + tail)[0..] == body + tail && body == [c] + rest;
      forall p | 0 <= p < |rest| ensures !("\"" + Hashes(n) <= (rest + tail)[p..]) { assert (rest + tail)[p..] == (body + tail)[p + 1..]; }
      if c == '"' && G.HashRun(rest + tail) == n { ClosesHere(n, rest + tail); }
      RawCharOn(cs, c, n, rest + tail);
      RawBodyOn(cs, rest, n, tail);
      BlankThen(Turning(cs), [c], RawString(n), RawString(n), rest, RawString(n), tail);
    }
  }

  /** At the closing quote: one `#` more behind it, and the script does not see it. */
  lemma CloseRaw(cs: Classes, n: nat, after: string)
    ensures var w := "\"" + Hashes(n);
            On(Turning(cs), w, RawString(n), Hide(w), if after != "" && after[0] == '#' then RawString(n) else Code, after)
  {
    var w := "\"" + Hashes(n);
    assert (w + after)[0] == '"' && (w + after)[1..] == Hashes(n) + after;
    HashesThen(n, after);
    if after != "" && after[0] == '#' {
      RawCharOn(cs, '"', n, Hashes(n) + after);
      RawHashesOn(cs, Hashes(n), n, after);
      BlankThen(Turning(cs), "\"", RawString(n), RawString(n), Hashes(n), RawString(n), after);
    } else {
      HideSpaces(w);
      OneTurn(Turning(cs), w, RawString(n), Hide(w), Code, after);
    }
  }

  lemma {:induction false} RawHashesOn(cs: Classes, w: string, n: nat, after: string)
    requires '"' !in w
    ensures On(Turning(cs), w, RawString(n), Hide(w), RawString(n), after)
  {
    if w != "" {
      assert w == [w[0]] + w[1..];
      RawCharOn(cs, w[0], n, w[1..] + after);
      RawHashesOn(cs, w[1..], n, after);
      BlankThen(Turning(cs), [w[0]], RawString(n), RawString(n), w[1..], RawString(n), after);
    }
  }

  lemma RawOn(u: Idents, cs: Classes, n: nat, body: string, after: string)
    requires Fits(u, Raw(n, body), after)
    ensures var w := Text(Raw(n, body));
            On(Turning(cs), w, Code, Hide(w), if after != "" && after[0] == '#' then RawString(n) else Code, after)
  {
    var open, close, last := "r" + Hashes(n) + "\"", "\"" + Hashes(n), if after != "" && after[0] == '#' then RawString(n) else Code;
    assert body + (close + after) == body + "\"" + Hashes(n) + after;
    OpenRaw(cs, n, body + (close + after));
    RawBodyOn(cs, body, n, close + after);
    CloseRaw(cs, n, after);
    BlankThen(Turning(cs), open, Code, RawString(n), body, RawString(n), close + after);
    BlankThen(Turning(cs), open + body, Code, RawString(n), close, last, after);
    assert open + body + close == Text(Raw(n, body));
  }

  // ---- Apostrophes ----

  lemma InCharOn(cs: Classes, c: char, escape: bool, after: string)
    requires c != '\n'
    ensures On(Turning(cs), [c], InChar(escape), Hide([c]),
              if escape then InChar(false) else if c == '\\' then InChar(true) else if c == '\'' then Code else InChar(false), after)
  {
    var m' := if escape then InChar(false) else if c == '\\' then InChar(true) else if c == '\'' then Code else InChar(false);
    OneTurn(Turning(cs), [c], InChar(escape), Hide([c]), m', after);
  }

  lemma {:induction false} InCharRun(cs: Classes, w: string, after: string)
    requires '\n' !in w && '\\' !in w && '\'' !in w
    ensures On(Turning(cs), w, InChar(false), Hide(w), InChar(false), after)
  {
    if w != "" {
      assert w == [w[0]] + w[1..];
      InCharOn(cs, w[0], false, w[1..] + after);
      InCharRun(cs, w[1..], after);
      BlankThen(Turning(cs), [w[0]], InChar(false), InChar(false), w[1..], InChar(false), after);
    }
  }

  lemma CharBodyOn(cs: Classes, body: string, after: string)
    requires CharBody(body)
    ensures On(Turning(cs), body, InChar(false), Hide(body), InChar(false), after)
  {
    if |body| == 1 {
      InCharRun(cs, body, after);
    } else {
      var rest := body[2..];
      assert body == "\\" + [body[1]] + rest;
      EscapeThenRun(cs, body[1], rest, after);
    }
  }

  lemma EscapeThenRun(cs: Classes, c: char, rest: string, after: string)
    requires c != '\n' && '\n' !in rest && '\\' !in rest && '\'' !in rest
    ensures var w := "\\" + [c] + rest; On(Turning(cs), w, InChar(false), Hide(w), InChar(false), after)
  {
    InCharOn(cs, '\\', false, [c] + (rest + after));
    InCharOn(cs, c, true, rest + after);
    InCharRun(cs, rest, after);
    BlankThen(Turning(cs), "\\", InChar(false), InChar(true), [c], InChar(false), rest + after);
    BlankThen(Turning(cs), "\\" + [c], InChar(false), InChar(false), rest, InChar(false), after);
  }

  /** The rule for apostrophes: what follows decides between a lifetime and a literal. */
  lemma ApostropheOn(cs: Classes, rest: string)
    ensures On(Turning(cs), "'", Code, " ", if LifetimeSeen(cs, rest) then Code else InChar(false), rest)
  {
    assert ("'" + rest)[1..] == rest;
    OneTurn(Turning(cs), "'", Code, " ", if LifetimeSeen(cs, rest) then Code else InChar(false), rest);
  }

  /** It never takes a character literal for a lifetime. */
  lemma NoLifetimeInChar(cs: Classes, body: string, after: string)
    requires Sane(cs) && CharBody(body)
    ensures !LifetimeSeen(cs, body + ("'" + after))
  {
    var t := body + ("'" + after);
    assert t[0] == body[0] && (|body| == 1 ==> t[1..] == "'" + after);
  }

  lemma CharOn(cs: Classes, body: string, after: string)
    requires Sane(cs) && CharBody(body)
    ensures On(Turning(cs), Text(Chr(body)), Code, Hide(Text(Chr(body))), Code, after)
  {
    NoLifetimeInChar(cs, body, after);
    ApostropheOn(cs, body + ("'" + after));
    CharBodyOn(cs, body, "'" + after);
    InCharOn(cs, '\'', false, after);
    BetweenApostrophes(Turning(cs), body, after);
  }

  lemma BetweenApostrophes(turn: Turner, body: string, after: string)
    requires On(turn, "'", Code, " ", InChar(false), body + ("'" + after))
    requires On(turn, body, InChar(false), Hide(body), InChar(false), "'" + after)
    requires On(turn, "'", InChar(false), Hide("'"), Code, after)
    ensures On(turn, "'" + body + "'", Code, Hide("'" + body + "'"), Code, after)
  {
    assert Hide("'") == " ";
    BlankThen(turn, "'", Code, InChar(false), body, InChar(false), "'" + after);
    BlankThen(turn, "'" + body, Code, InChar(false), "'", Code, after);
  }

  lemma {:induction false} SameOpens(t: string)
    ensures RawOpens(t) <==> QuoteAfterHashes(t)
  {
    if t != "" { SameOpens(t[1..]); }
  }

  /** A character that Rust reads as code is copied. */
  lemma CodeOn(cs: Classes, c: char, after: string)
    requires c != '"' && c != '\'' && !(c == '/' && after != "" && (after[0] == '/' || after[0] == '*')) && !(c == 'r' && RawOpens(after))
    ensures On(Turning(cs), [c], Code, [c], Code, after)
  {
    assert ([c] + after)[1..] == after;
    SameOpens(after);
    OneTurn(Turning(cs), [c], Code, [c], Code, after);
  }

  lemma NameCharIs(u: Idents, c: char)
    requires Unicode(u) && u.continues(c)
    ensures c != '"' && c != '\'' && c != '/' && c != '#' && c != '\n' && c != '\\' && c != ' '
  {
  }

  lemma {:induction false} NameOn(u: Idents, cs: Classes, name: string, after: string)
    requires Unicode(u) && (forall i | 0 <= i < |name| :: u.continues(name[i]))
    requires !(name != "" && name[|name| - 1] == 'r' && RawOpens(after))
    ensures On(Turning(cs), name, Code, name, Code, after)
  {
    if name != "" {
      var c, rest := name[0], name[1..];
      assert name == [c] + rest;
      NameCharIs(u, c);
      if rest != "" {
        NameCharIs(u, rest[0]);
        assert (rest + after)[0] == rest[0];
      } else {
        assert rest + after == after;
      }
      CodeOn(cs, c, rest + after);
      NameOn(u, cs, rest, after);
      Then(Turning(cs), [c], Code, [c], Code, rest, rest, Code, after);
    }
  }

  lemma {:induction false} NameInChar(u: Idents, name: string)
    requires Unicode(u) && (forall i | 0 <= i < |name| :: u.continues(name[i]))
    ensures '\n' !in name && '\\' !in name && '\'' !in name && '"' !in name
  {
    forall i | 0 <= i < |name| ensures name[i] != '\n' && name[i] != '\\' && name[i] != '\'' && name[i] != '"' { NameCharIs(u, name[i]); }
  }

  /** A lifetime that is taken for a literal. */
  lemma LifetimeInChar(u: Idents, cs: Classes, name: string, after: string)
    requires Unicode(u) && Fits(u, Lifetime(name), after) && !LifetimeSeen(cs, name + after)
    ensures On(Turning(cs), "'" + name, Code, " " + Hide(name), InChar(false), after)
  {
    NameInChar(u, name);
    ApostropheOn(cs, name + after);
    InCharRun(cs, name, after);
    Then(Turning(cs), "'", Code, " ", InChar(false), name, Hide(name), InChar(false), after);
  }

  /** A lifetime whose last letter is taken for the opening of a raw string. */
  lemma LifetimeBeforeRaw(u: Idents, cs: Classes, init: string, after: string)
    requires Unicode(u) && Fits(u, Lifetime(init + "r"), after) && LifetimeSeen(cs, init + "r" + after) && RawOpens(after)
    ensures On(Turning(cs), "'" + init, Code, " " + init, Code, "r" + after)
    ensures var v := TurnOf(cs, "r" + after, Code); v.len >= 2 && v.out != "" && v.out[0] == ' '
    ensures ("'" + init) + ("r" + after) == ("'" + (init + "r")) + after
  {
    Regroup(init, "r", after);
    assert forall i | 0 <= i < |init| :: init[i] == (init + "r")[i];
    NotHash(after);
    NameKept(u, cs, init, "r" + after);
    RawTurn(cs, after);
  }

  lemma NameKept(u: Idents, cs: Classes, init: string, rest: string)
    requires Unicode(u) && LifetimeSeen(cs, init + rest) && (forall i | 0 <= i < |init| :: u.continues(init[i])) && !RawOpens(rest)
    ensures On(Turning(cs), "'" + init, Code, " " + init, Code, rest)
  {
    ApostropheOn(cs, init + rest);
    NameOn(u, cs, init, rest);
    Then(Turning(cs), "'", Code, " ", Code, init, init, Code, rest);
  }

  lemma RawTurn(cs: Classes, after: string)
    requires RawOpens(after)
    ensures var v := TurnOf(cs, "r" + after, Code); v.len >= 2 && v.out != "" && v.out[0] == ' '
  {
    SameOpens(after);
    assert ("r" + after)[1..] == after;
  }

  lemma NotHash(after: string)
    ensures !RawOpens("r" + after)
  {
    assert ("r" + after)[0] == 'r';
  }

  lemma LifetimeOn(u: Idents, cs: Classes, name: string, after: string)
    requires Unicode(u) && Fits(u, Lifetime(name), after) && LifetimeSeen(cs, name + after)
    requires !(name[|name| - 1] == 'r' && RawOpens(after))
    ensures On(Turning(cs), "'" + name, Code, " " + name, Code, after)
  {
    ApostropheOn(cs, name + after);
    NameOn(u, cs, name, after);
    Then(Turning(cs), "'", Code, " ", Code, name, name, Code, after);
  }

  // ---- Tokens ----

  /** Before `after`, the script reads the token as a whole, keeps its code, blanks the rest and is in plain code again. */
  predicate InStep(cs: Classes, t: Token, after: string) {
    On(Turning(cs), Text(t), Code, Kept(t), Code, after) && (t.Str? ==> PiecesInStep(cs, t.pieces, false, "\"" + after))
  }

  /**
   * Which tokens it gets right: a lifetime that its rule for apostrophes takes for one, and that does not end in an `r` before
   * a string; a raw string with no `#` too many behind it; a string into which no escape is carried over a line end wrongly.
   */
  predicate Right(cs: Classes, t: Token, after: string) {
    match t
    case Lifetime(name) => LifetimeSeen(cs, name + after) && !(name != "" && name[|name| - 1] == 'r' && RawOpens(after))
    case Raw(_, _) => after == "" || after[0] != '#'
    case Str(ps) => Carried(ps, false) == Some(false)
    case _ => true
  }

  lemma StringExactly(u: Idents, cs: Classes, ps: seq<Piece>, after: string)
    requires Fits(u, Str(ps), after)
    ensures InStep(cs, Str(ps), after) <==> Right(cs, Str(ps), after)
  {
    PiecesInStepExactly(cs, ps, false, "\"" + after);
    if Carried(ps, false).Some? { StringOn(cs, ps, after); }
  }

  /** Its end is read over. */
  lemma RawReadOver(u: Idents, cs: Classes, init: string, after: string)
    requires Unicode(u) && Fits(u, Lifetime(init + "r"), after) && LifetimeSeen(cs, init + "r" + after) && RawOpens(after)
    ensures var w := "'" + (init + "r"); Reads(Turning(cs), w + after, Code, |w|) == None
  {
    LifetimeBeforeRaw(u, cs, init, after);
    ReadsOn(Turning(cs), "'" + init, Code, " " + init, Code, "r" + after, 1);
  }

  lemma LifetimeExactly(u: Idents, cs: Classes, name: string, after: string)
    requires Unicode(u) && Fits(u, Lifetime(name), after)
    ensures InStep(cs, Lifetime(name), after) <==> Right(cs, Lifetime(name), after)
  {
    if !LifetimeSeen(cs, name + after) {
      LifetimeInChar(u, cs, name, after);
    } else if name[|name| - 1] == 'r' && RawOpens(after) {
      assert name == name[..|name| - 1] + "r";
      RawReadOver(u, cs, name[..|name| - 1], after);
    } else {
      LifetimeOn(u, cs, name, after);
    }
  }

  lemma TokenExactly(u: Idents, cs: Classes, t: Token, after: string)
    requires Unicode(u) && Sane(cs) && Fits(u, t, after)
    ensures InStep(cs, t, after) <==> Right(cs, t, after)
  {
    match t
    case CodeChar(c) => CodeOn(cs, c, after);
    case Line(body) => LineOn(cs, body, after);
    case Block(comment) => BlockOn(cs, comment, after);
    case Str(ps) => StringExactly(u, cs, ps, after);
    case Raw(n, body) => RawOn(u, cs, n, body, after);
    case Chr(body) => CharOn(cs, body, after);
    case Lifetime(name) => LifetimeExactly(u, cs, name, after);
  }

  // ---- Whole sources ----

  predicate AllInStep(cs: Classes, ts: seq<Token>) {
    ts == [] || (InStep(cs, ts[0], Source(ts[1..])) && AllInStep(cs, ts[1..]))
  }

  predicate AllRight(cs: Classes, ts: seq<Token>) {
    ts == [] || (Right(cs, ts[0], Source(ts[1..])) && AllRight(cs, ts[1..]))
  }

  /** For every tokenised source: the script keeps in step with Rust's tokens if and only if each of them is one it gets right. */
  lemma {:induction false} InStepExactly(u: Idents, cs: Classes, ts: seq<Token>)
    requires Unicode(u) && Sane(cs) && Tokens(u, ts)
    ensures AllInStep(cs, ts) <==> AllRight(cs, ts)
  {
    if ts != [] {
      TokenExactly(u, cs, ts[0], Source(ts[1..]));
      InStepExactly(u, cs, ts[1..]);
    }
  }

  lemma {:induction false} SourceOn(cs: Classes, ts: seq<Token>)
    requires AllInStep(cs, ts)
    ensures On(Turning(cs), Source(ts), Code, KeptSource(ts), Code, "")
  {
    if ts != [] {
      SourceOn(cs, ts[1..]);
      assert Source(ts[1..]) + "" == Source(ts[1..]);
      Then(Turning(cs), Text(ts[0]), Code, Kept(ts[0]), Code, Source(ts[1..]), KeptSource(ts[1..]), Code, "");
    }
  }

  /** And then, sanitised line by line, exactly the code is left and everything else is blank; nothing stays open. */
  lemma SanitizedKeepsCode(u: Idents, cs: Classes, ts: seq<Token>)
    requires Unicode(u) && Sane(cs) && Tokens(u, ts) && AllRight(cs, ts)
    ensures TextOf(cs, Source(ts), Code) == Walked(KeptSource(ts), Code)
  {
    InStepExactly(u, cs, ts);
    SourceOn(cs, ts);
    assert Source(ts) + "" == Source(ts);
    var r := TextIsRead(cs, Source(ts), Code);
  }

  // ---- What shows in the output ----

  /** No string literal has a line end behind a backslash. */
  predicate NoCarry(ts: seq<Token>) {
    forall i | 0 <= i < |ts| && ts[i].Str? :: Escape('\n') !in ts[i].pieces
  }

  lemma {:induction false} NothingCarried(ps: seq<Piece>)
    requires Escape('\n') !in ps
    ensures Carried(ps, false) == Some(false)
  {
    if ps != [] {
      assert ps[0] in ps && forall q <- ps[1..] :: q in ps;
      NothingCarried(ps[1..]);
    }
  }

  /** All of a text is read. */
  lemma WholeRead(cs: Classes, t: string) returns (x: Walked)
    requires Sane(cs)
    ensures Reads(Turning(cs), t, Code, |t|) == Some(x) && TextOf(cs, t, Code).out == x.out && |x.out| == |t|
  {
    x := TextIsRead(cs, t, Code);
    TextLength(cs, t, Code);
  }

  lemma {:induction false} TextLength(cs: Classes, t: string, m: Mode)
    ensures |TextOf(cs, t, m).out| == |t|
    decreases |t|
  {
    var line := t[..LineLen(t)];
    if |line| < |t| { TextLength(cs, t[|line| + 1..], Sanitized(cs, line, m).mode); }
  }

  /** What is left of a text starts with what has been read of it. */
  lemma FrontRead(turn: Turner, w: string, m: Mode, o: string, m': Mode, rest: string, x: Walked)
    requires On(turn, w, m, o, m', rest) && Reads(turn, w + rest, m, |w + rest|) == Some(x)
    ensures Reads(turn, rest, m', |rest|).Some? && x.out == o + Reads(turn, rest, m', |rest|).value.out
  {
    ReadsOn(turn, w, m, o, m', rest, |rest|);
  }

  /** The first turn shows. */
  lemma FirstRead(turn: Turner, t: string, m: Mode, x: Walked)
    requires t != "" && Reads(turn, t, m, |t|) == Some(x) && turn(t, m).out != ""
    ensures x.out != "" && x.out[0] == turn(t, m).out[0]
  {
  }

  /** A token that is not read right, and holds no carried escape, leaves a blank where its code or the code behind it should be. */
  lemma MisreadShows(u: Idents, cs: Classes, t: Token, after: string, x: Walked) returns (i: nat)
    requires Unicode(u) && Sane(cs) && Fits(u, t, after) && !Right(cs, t, after) && (t.Str? ==> Escape('\n') !in t.pieces)
    requires Reads(Turning(cs), Text(t) + after, Code, |Text(t) + after|) == Some(x)
    ensures i < |x.out| && x.out[i] == ' '
    ensures (t.Lifetime? && 1 <= i <= |t.name| && t.name[i - 1] != ' ') || (t.Raw? && i == |Text(t)| && after != "" && after[0] == '#')
  {
    var turn := Turning(cs);
    if t.Str? {
      NothingCarried(t.pieces);
      assert false;
    } else if t.Raw? {
      RawOn(u, cs, t.hashes, t.body, after);
      FrontRead(turn, Text(t), Code, Hide(Text(t)), RawString(t.hashes), after, x);
      FirstRead(turn, after, RawString(t.hashes), Reads(turn, after, RawString(t.hashes), |after|).value);
      i := |Text(t)|;
    } else {
      i := LifetimeShows(u, cs, t.name, after, x);
    }
  }

  lemma LifetimeShows(u: Idents, cs: Classes, name: string, after: string, x: Walked) returns (i: nat)
    requires Unicode(u) && Fits(u, Lifetime(name), after) && !Right(cs, Lifetime(name), after)
    requires Reads(Turning(cs), ("'" + name) + after, Code, |("'" + name) + after|) == Some(x)
    ensures 1 <= i <= |name| && i < |x.out| && x.out[i] == ' ' && name[i - 1] != ' '
  {
    if !LifetimeSeen(cs, name + after) {
      LifetimeInChar(u, cs, name, after);
      NameCharIs(u, name[0]);
      HiddenFront(Turning(cs), name, after, x);
      i := 1;
    } else {
      assert name == name[..|name| - 1] + "r";
      LifetimeBeforeRaw(u, cs, name[..|name| - 1], after);
      BlankAfterFront(Turning(cs), name[..|name| - 1], "r" + after, x);
      i := |name|;
    }
  }

  lemma HiddenFront(turn: Turner, name: string, after: string, x: Walked)
    requires name != "" && name[0] != '\n' && On(turn, "'" + name, Code, " " + Hide(name), InChar(false), after)
    requires Reads(turn, ("'" + name) + after, Code, |("'" + name) + after|) == Some(x)
    ensures |x.out| > 1 && x.out[1] == ' '
  {
    FrontRead(turn, "'" + name, Code, " " + Hide(name), InChar(false), after, x);
  }

  lemma BlankAfterFront(turn: Turner, init: string, rest: string, x: Walked)
    requires On(turn, "'" + init, Code, " " + init, Code, rest) && rest != "" && turn(rest, Code).out != "" && turn(rest, Code).out[0] == ' '
    requires Reads(turn, ("'" + init) + rest, Code, |("'" + init) + rest|) == Some(x)
    ensures |x.out| > |init| + 1 && x.out[|init| + 1] == ' '
  {
    FrontRead(turn, "'" + init, Code, " " + init, Code, rest, x);
    FirstRead(turn, rest, Code, Reads(turn, rest, Code, |rest|).value);
  }

  lemma TextNotEmpty(t: Token)
    ensures Text(t) != "" && Kept(t) != "" && |Kept(t)| == |Text(t)|
    ensures Text(t)[0] == '#' ==> Kept(t)[0] == '#'
  {
  }

  lemma HashIsKept(ts: seq<Token>)
    requires Source(ts) != "" && Source(ts)[0] == '#'
    ensures KeptSource(ts) != "" && KeptSource(ts)[0] == '#'
  {
    TextNotEmpty(ts[0]);
  }

  lemma SameTail(a: string, b: string, c: string)
    ensures a + b == a + c <==> b == c
  {
    if a + b == a + c { assert (a + b)[|a|..] == b && (a + c)[|a|..] == c; }
  }

  lemma KeptAt(ts: seq<Token>, i: nat)
    requires ts != [] && i < |Kept(ts[0])|
    ensures i < |KeptSource(ts)| && KeptSource(ts)[i] == Kept(ts[0])[i]
  {
  }

  lemma {:induction false} ReadExactly(u: Idents, cs: Classes, ts: seq<Token>, x: Walked)
    requires Unicode(u) && Sane(cs) && Tokens(u, ts) && NoCarry(ts)
    requires Reads(Turning(cs), Source(ts), Code, |Source(ts)|) == Some(x)
    ensures x.out == KeptSource(ts) <==> AllRight(cs, ts)
  {
    if ts != [] {
      var t, more := ts[0], ts[1..];
      var after := Source(more);
      assert NoCarry(more) by { forall i | 0 <= i < |more| && more[i].Str? ensures Escape('\n') !in more[i].pieces { assert more[i] == ts[i + 1]; } }
      if Right(cs, t, after) {
        TokenExactly(u, cs, t, after);
        FrontRead(Turning(cs), Text(t), Code, Kept(t), Code, after, x);
        var y := Reads(Turning(cs), after, Code, |after|).value;
        ReadExactly(u, cs, more, y);
        SameTail(Kept(t), y.out, KeptSource(more));
      } else {
        assert ts[0] == t && (t.Str? ==> Escape('\n') !in t.pieces);
        var i := MisreadShows(u, cs, t, after, x);
        TextNotEmpty(t);
        if t.Lifetime? { KeptAt(ts, i); } else { HashIsKept(more); }
      }
    }
  }

  /**
   * For every tokenised source without carried escapes: sanitised line by line, exactly the code is left and everything else
   * is blank if and only if every token is one the script gets right.
   */
  lemma SanitizedExactly(u: Idents, cs: Classes, ts: seq<Token>)
    requires Unicode(u) && Sane(cs) && Tokens(u, ts) && NoCarry(ts)
    ensures TextOf(cs, Source(ts), Code).out == KeptSource(ts) <==> AllRight(cs, ts)
  {
    var x := WholeRead(cs, Source(ts));
    ReadExactly(u, cs, ts, x);
  }

  // ---- Where it errs ----

  /** The classes of the script's language fit Rust's: names start with its letters, and its letters and digits may stand in names. */
  ghost predicate Agree(u: Idents, cs: Classes) {
    forall c: char :: (u.starts(c) ==> cs.alpha(c) || c == '_') && (cs.alnum(c) ==> u.continues(c))
  }

  lemma {:induction false} NoQuoteAfterName(u: Idents, cs: Classes, name: string, after: string)
    requires Unicode(u) && Agree(u, cs) && forall i | 0 <= i < |name| :: u.continues(name[i])
    requires after == "" || (!u.continues(after[0]) && after[0] != '\'')
    ensures !QuoteAfterIdent(cs, name + after)
  {
    if name == "" {
      assert name + after == after;
      if after != "" { assert after[0] != '_'; }
    } else {
      NameCharIs(u, name[0]);
      NoQuoteAfterName(u, cs, name[1..], after);
      assert (name + after)[0] == name[0] && (name + after)[1..] == name[1..] + after;
    }
  }

  /** Then its rule for apostrophes takes every lifetime for one; what is left is the `r` before a string. */
  lemma LifetimesSeen(u: Idents, cs: Classes, name: string, after: string)
    requires Unicode(u) && Agree(u, cs) && Fits(u, Lifetime(name), after)
    ensures LifetimeSeen(cs, name + after)
  {
    NoQuoteAfterName(u, cs, name[1..], after);
    assert (name + after)[0] == name[0] && (name + after)[1..] == name[1..] + after;
  }

  /** A text that is blanked from end to end. */
  lemma AllHidden(cs: Classes, t: string, m: Mode)
    requires Sane(cs) && On(Turning(cs), t, Code, Hide(t), m, "") && !m.InChar?
    ensures TextOf(cs, t, Code) == Walked(Hide(t), m)
  {
    assert t + "" == t;
    var r := TextIsRead(cs, t, Code);
  }

  /** If the script still waits for an escaped character at the closing quote, the code behind the string is lost. */
  lemma CodeBehindLost(u: Idents, cs: Classes, ps: seq<Piece>, c: char)
    requires Unicode(u) && Sane(cs) && PiecesFit(ps, '"') && Carried(ps, false) == Some(true)
    requires c != '"' && c != '\'' && c != '\\' && c != '\n'
    ensures var t := Text(Str(ps)) + [c]; TextOf(cs, t, Code) == Walked(Hide(t), InString(false))
  {
    StringOn(cs, ps, [c]);
    StringCharOn(cs, c, false, "");
    assert [c] + "" == [c];
    BlankThen(Turning(cs), Text(Str(ps)), Code, InString(false), [c], InString(false), "");
    AllHidden(cs, Text(Str(ps)) + [c], InString(false));
  }

  /** As when a line ends in a backslash and the string closes at the start of the next line: the `x` behind it is lost. */
  lemma CarriedEscapeMisread(u: Idents, cs: Classes)
    requires Unicode(u) && Sane(cs)
    ensures var ps := [Escape('\n')];
            PiecesFit(ps, '"') && TextOf(cs, Text(Str(ps)) + ['x'], Code) == Walked(Hide(Text(Str(ps)) + ['x']), InString(false))
  {
    var ps := [Escape('\n')];
    assert ps[1..] == [];
    CodeBehindLost(u, cs, ps, 'x');
  }

  lemma SourceOfOne(ts: seq<Token>)
    requires |ts| == 1
    ensures Source(ts) == Text(ts[0]) && KeptSource(ts) == Kept(ts[0])
  {
    assert ts[1..] == [];
  }

  lemma SourceOfTwo(ts: seq<Token>)
    requires |ts| == 2
    ensures Source(ts) == Text(ts[0]) + Text(ts[1]) && KeptSource(ts) == Kept(ts[0]) + Kept(ts[1])
    ensures Source(ts[1..]) == Text(ts[1]) && ts[1..][1..] == []
  {
    SourceOfOne(ts[1..]);
  }

  /** An empty string where the script is still inside one: it is blanked, and the script is inside one again. */
  lemma EmptyStringOn(cs: Classes)
    ensures On(Turning(cs), Text(Str([])), InString(false), Hide(Text(Str([]))), InString(false), "")
  {
    assert Text(Str([])) == "\"" + "\"";
    StringCharOn(cs, '"', false, "\"");
    OpenString(cs, "");
    BlankThen(Turning(cs), "\"", InString(false), Code, "\"", InString(false), "");
  }

  /** Such a misreading may leave no trace: with an empty string right behind that one, everything is blanked as it should be. */
  lemma CarriedEscapeUnseen(u: Idents, cs: Classes, ts: seq<Token>)
    requires Unicode(u) && Sane(cs) && ts == [Str([Escape('\n')]), Str([])]
    ensures Tokens(u, ts) && !AllRight(cs, ts)
    ensures TextOf(cs, Source(ts), Code) == Walked(KeptSource(ts), InString(false))
  {
    var ps, w, e := ts[0].pieces, Text(ts[0]), Text(ts[1]);
    assert ps[1..] == [];
    SourceOfTwo(ts);
    StringOn(cs, ps, e);
    EmptyStringOn(cs);
    assert e + "" == e;
    BlankThen(Turning(cs), w, Code, InString(false), e, InString(false), "");
    HideConcat(w, e);
    AllHidden(cs, w + e, InString(false));
  }

  /** Whatever follows a raw string with a `#` too many, as in `r""#x`, is lost with it as long as no quote comes. */
  lemma RawNeverEnds(u: Idents, cs: Classes, n: nat, body: string, rest: string)
    requires Unicode(u) && Sane(cs) && Fits(u, Raw(n, body), rest) && rest != "" && rest[0] == '#' && '"' !in rest
    ensures TextOf(cs, Text(Raw(n, body)) + rest, Code) == Walked(Hide(Text(Raw(n, body)) + rest), RawString(n))
  {
    var w := Text(Raw(n, body));
    RawOn(u, cs, n, body, rest);
    RawHashesOn(cs, rest, n, "");
    assert rest + "" == rest;
    BlankThen(Turning(cs), w, Code, RawString(n), rest, RawString(n), "");
    AllHidden(cs, w + rest, RawString(n));
  }
}
