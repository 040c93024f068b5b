/** The scanner against the reference: which sources it strips as Rust reads them. */
module ScannerReference {
  import opened Sequences
  import opened GatewayScanner
  import opened RustTokens

  // ---- The scanner reads each token as a whole ----

  lemma BlankAllConcat(a: string, b: string)
    ensures BlankAll(a + b) == BlankAll(a) + BlankAll(b)
  {
    assert forall i | |a| <= i < |a + b| :: (a + b)[i] == b[i - |a|];
  }

  /** A move over `head`, then the rest. */
  lemma MoveThen(head: string, rest: string, m: Mode, blanks: string, next: Mode, out: string)
    requires head != "" && Next(head + rest, m) == Move(|head|, blanks, next) && Scan(rest, next) == out
    ensures Scan(head + rest, m) == blanks + out
  {
    assert (head + rest)[|head|..] == rest;
    ScanOn(head + rest, m, Move(|head|, blanks, next), rest);
  }

  lemma BlankPair(s: string)
    requires s == "/*" || s == "*/" || s == "//"
    ensures BlankAll(s) == Spaces(2)
  {
  }

  lemma OpenNested(rest: string, depth: nat, out: string)
    requires Scan(rest, BlockComment(depth + 1)) == out
    ensures Scan("/*" + rest, BlockComment(depth)) == BlankAll("/*") + out
  {
    BlankPair("/*");
    MoveThen("/*", rest, BlockComment(depth), Spaces(2), BlockComment(depth + 1), out);
  }

  lemma CloseComment(rest: string, out: string)
    requires Scan(rest, Code) == out
    ensures Scan("*/" + rest, BlockComment(1)) == BlankAll("*/") + out
  {
    BlankPair("*/");
    MoveThen("*/", rest, BlockComment(1), Spaces(2), Code, out);
  }

  /** Regrouping what is blanked, with no scanning involved. */
  lemma BlankCons(c: char, body: string, out: string)
    ensures [Blank(c)] + (BlankAll(body) + out) == BlankAll([c] + body) + out
  {
    assert ([c] + body)[1..] == body;
  }

  lemma BlankNested(inner: string, body: string, out: string)
    ensures BlankAll("/*") + (BlankAll(inner) + (BlankAll("*/") + (BlankAll(body) + out))) ==
            BlankAll("/*" + inner + "*/" + body) + out
  {
    BlankAllConcat("/*" + inner + "*/", body);
    BlankAllConcat("/*" + inner, "*/");
    BlankAllConcat("/*", inner);
  }

  lemma NestedRegroup(inner: string, body: string, after: string)
    ensures "/*" + inner + "*/" + body + after == "/*" + (inner + ("*/" + (body + after)))
  {
  }

  lemma CommentChar(c: char, rest: string, depth: nat, out: string)
    requires !StartsBlockComment([c] + rest) && !(c == '*' && rest != "" && rest[0] == '/') && Scan(rest, BlockComment(depth)) == out
    ensures Scan([c] + rest, BlockComment(depth)) == [Blank(c)] + out
  {
    MoveThen([c], rest, BlockComment(depth), [Blank(c)], BlockComment(depth), out);
  }

  lemma {:induction false} CommentRead(c: Comment, after: string, depth: nat, out: string)
    requires depth >= 1 && CommentFits(c, after) && Scan(after, BlockComment(depth)) == out
    ensures Scan(Inside(c) + after, BlockComment(depth)) == BlankAll(Inside(c)) + out
    decreases c, 1
  {
    match c
    case End => assert Inside(c) + after == after;
    case Char(ch, rest) =>
      CommentRead(rest, after, depth, out);
      CommentCharRead(ch, Inside(rest), after, depth, out);
    case Nested(inner, rest) => NestedCommentRead(inner, rest, after, depth, out);
  }

  lemma {:induction false} NestedCommentRead(inner: Comment, rest: Comment, after: string, depth: nat, out: string)
    requires depth >= 1 && CommentFits(inner, "*/" + (Inside(rest) + after)) && CommentFits(rest, after)
    requires Scan(after, BlockComment(depth)) == out
    ensures Scan("/*" + Inside(inner) + "*/" + Inside(rest) + after, BlockComment(depth))
            == BlankAll("/*" + Inside(inner) + "*/" + Inside(rest)) + out
    decreases Nested(inner, rest), 0
  {
    assert Scan("*/" + (Inside(rest) + after), BlockComment(depth + 1)) == BlankAll("*/") + (BlankAll(Inside(rest)) + out) by {
      CommentRead(rest, after, depth, out);
      CloseThen(Inside(rest) + after, depth, BlankAll(Inside(rest)) + out);
    }
    CommentRead(inner, "*/" + (Inside(rest) + after), depth + 1, BlankAll("*/") + (BlankAll(Inside(rest)) + out));
    NestedRead(Inside(inner), Inside(rest), after, depth, out);
  }

  lemma CloseThen(rest: string, depth: nat, out: string)
    requires depth >= 1 && Scan(rest, BlockComment(depth)) == out
    ensures Scan("*/" + rest, BlockComment(depth + 1)) == BlankAll("*/") + out
  {
    BlankPair("*/");
    MoveThen("*/", rest, BlockComment(depth + 1), Spaces(2), BlockComment(depth), out);
  }

  lemma CommentCharRead(ch: char, body: string, after: string, depth: nat, out: string)
    requires Scan(body + after, BlockComment(depth)) == BlankAll(body) + out
    requires var t := [ch] + body + after; !StartsBlockComment(t) && !(|t| > 1 && t[0] == '*' && t[1] == '/')
    ensures Scan([ch] + body + after, BlockComment(depth)) == BlankAll([ch] + body) + out
  {
    assert [ch] + body + after == [ch] + (body + after);
    CommentChar(ch, body + after, depth, BlankAll(body) + out);
    BlankCons(ch, body, out);
  }

  lemma NestedRead(inner: string, body: string, after: string, depth: nat, out: string)
    requires depth >= 1
    requires Scan(inner + ("*/" + (body + after)), BlockComment(depth + 1)) == BlankAll(inner) + (BlankAll("*/") + (BlankAll(body) + out))
    ensures Scan("/*" + inner + "*/" + body + after, BlockComment(depth)) == BlankAll("/*" + inner + "*/" + body) + out
  {
    var rest := inner + ("*/" + (body + after));
    NestedRegroup(inner, body, after);
    OpenNested(rest, depth, Scan(rest, BlockComment(depth + 1)));
    BlankNested(inner, body, out);
  }

  lemma {:induction false} LineRead(body: string, after: string)
    requires '\n' !in body && (after == "" || after[0] == '\n')
    ensures Scan(body + after, LineComment) == BlankAll(body) + Scan(after, Code)
  {
    if body == "" {
      assert body + after == after;
      LineEnds(after);
    } else {
      var c, rest, tail := body[0], body[1..], Scan(after, Code);
      LineRead(rest, after);
      assert body == [c] + rest;
      Regroup([c], rest, after);
      LineChar(c, rest + after, BlankAll(rest) + tail);
      BlankCons(c, rest, tail);
    }
  }

  lemma LineEnds(after: string)
    requires after == "" || after[0] == '\n'
    ensures Scan(after, LineComment) == Scan(after, Code)
  {
  }

  lemma LineChar(c: char, rest: string, out: string)
    requires c != '\n' && Scan(rest, LineComment) == out
    ensures Scan([c] + rest, LineComment) == [Blank(c)] + out
  {
    MoveThen([c], rest, LineComment, [Blank(c)], LineComment, out);
  }

  lemma StringPlain(c: char, rest: string, out: string)
    requires c != '"' && c != '\\' && Scan(rest, InString(false)) == out
    ensures Scan([c] + rest, InString(false)) == [Blank(c)] + out
  {
    MoveThen([c], rest, InString(false), [Blank(c)], InString(false), out);
  }

  lemma StringEscape(c: char, rest: string, out: string)
    requires Scan(rest, InString(false)) == out
    ensures Scan(['\\', c] + rest, InString(false)) == [' ', Blank(c)] + out
  {
    MoveThen([c], rest, InString(true), [Blank(c)], InString(false), out);
    MoveThen(['\\'], [c] + rest, InString(false), " ", InString(true), [Blank(c)] + out);
    TwoThen('\\', c, rest);
    TwoThen(' ', Blank(c), out);
  }

  lemma TwoThen(a: char, b: char, rest: string)
    ensures [a] + ([b] + rest) == [a, b] + rest
  {
  }

  lemma BlankEscape(c: char, body: string, out: string)
    ensures [' ', Blank(c)] + (BlankAll(body) + out) == BlankAll(['\\', c] + body) + out
  {
    BlankCons(c, body, out);
    BlankCons('\\', [c] + body, out);
    assert ['\\', c] + body == ['\\'] + ([c] + body);
  }

  lemma {:induction false} StringRead(ps: seq<Piece>, tail: string, out: string)
    requires PiecesFit(ps, '"') && Scan(tail, InString(false)) == out
    ensures Scan(Pieces(ps) + tail, InString(false)) == BlankAll(Pieces(ps)) + out
  {
    if ps == [] {
      assert Pieces(ps) + tail == tail;
    } else {
      var first, body := if ps[0].Plain? then [ps[0].c] else ['\\', ps[0].c], Pieces(ps[1..]);
      StringRead(ps[1..], tail, out);
      assert Pieces(ps) == first + body;
      StringPieceRead(ps[0], body, tail, out);
    }
  }

  lemma StringPieceRead(p: Piece, body: string, tail: string, out: string)
    requires p.Plain? ==> p.c != '"' && p.c != '\\'
    requires Scan(body + tail, InString(false)) == BlankAll(body) + out
    ensures var first := if p.Plain? then [p.c] else ['\\', p.c];
            Scan(first + body + tail, InString(false)) == BlankAll(first + body) + out
  {
    if p.Plain? {
      assert [p.c] + body + tail == [p.c] + (body + tail);
      StringPlain(p.c, body + tail, BlankAll(body) + out);
      BlankCons(p.c, body, out);
    } else {
      assert ['\\', p.c] + body + tail == ['\\', p.c] + (body + tail);
      StringEscape(p.c, body + tail, BlankAll(body) + out);
      BlankEscape(p.c, body, out);
    }
  }

  lemma CharPlain(c: char, rest: string, out: string)
    requires c != '\'' && c != '\\' && Scan(rest, InChar(false)) == out
    ensures Scan([c] + rest, InChar(false)) == [Blank(c)] + out
  {
    MoveThen([c], rest, InChar(false), [Blank(c)], InChar(false), out);
  }

  lemma CharEscape(c: char, rest: string, out: string)
    requires c != '\n' && c != '\t' && Scan(rest, InChar(false)) == out
    ensures Scan(['\\', c] + rest, InChar(false)) == BlankAll(['\\', c]) + out
  {
    MoveThen([c], rest, InChar(true), " ", InChar(false), out);
    MoveThen(['\\'], [c] + rest, InChar(false), " ", InChar(true), " " + out);
    TwoThen('\\', c, rest);
    TwoThen(' ', ' ', out);
    BlankAllSpaces(['\\', c]);
  }

  /** Characters without an apostrophe or a backslash. */
  lemma {:induction false} CharPlainRun(body: string, tail: string, out: string)
    requires '\'' !in body && '\\' !in body && Scan(tail, InChar(false)) == out
    ensures Scan(body + tail, InChar(false)) == BlankAll(body) + out
  {
    if body == "" {
      assert body + tail == tail;
    } else {
      var c, rest := body[0], body[1..];
      CharPlainRun(rest, tail, out);
      assert body == [c] + rest;
      Regroup([c], rest, tail);
      CharPlain(c, rest + tail, BlankAll(rest) + out);
      BlankCons(c, rest, out);
    }
  }

  lemma CharBodyRead(body: string, tail: string, out: string)
    requires CharBody(body) && Scan(tail, InChar(false)) == out
    ensures Scan(body + tail, InChar(false)) == BlankAll(body) + out
  {
    if |body| == 1 {
      CharPlainRun(body, tail, out);
    } else {
      var esc, rest := body[..2], body[2..];
      assert body == esc + rest && esc == ['\\', body[1]];
      CharPlainRun(rest, tail, out);
      Regroup(esc, rest, tail);
      CharEscape(body[1], rest + tail, BlankAll(rest) + out);
      BlankAllConcat(esc, rest);
      Regroup(BlankAll(esc), BlankAll(rest), out);
    }
  }

  lemma RawChar(c: char, rest: string, n: nat, out: string)
    requires !ClosesRaw([c] + rest, n) && Scan(rest, RawString(n)) == out
    ensures Scan([c] + rest, RawString(n)) == [Blank(c)] + out
  {
    MoveThen([c], rest, RawString(n), [Blank(c)], RawString(n), out);
  }

  lemma RawClose(n: nat, after: string, out: string)
    requires Scan(after, Code) == out
    ensures Scan("\"" + Hashes(n) + after, RawString(n)) == Spaces(n + 1) + out
  {
    assert ClosesRaw("\"" + Hashes(n) + after, n);
    MoveThen("\"" + Hashes(n), after, RawString(n), Spaces(n + 1), Code, out);
  }

  lemma ClosesRawIs(t: string, n: nat)
    ensures ClosesRaw(t, n) <==> "\"" + Hashes(n) <= t
  {
    var close := "\"" + Hashes(n);
    assert close[0] == '"' && forall i | 1 <= i <= n :: close[i] == '#';
    if ClosesRaw(t, n) { assert t[..n + 1] == close; }
  }

  lemma {:induction false} RawRead(body: string, n: nat, tail: string, out: string)
    requires forall p | 0 <= p < |body| :: !("\"" + Hashes(n) <= (body + tail)[p..])
    requires Scan(tail, RawString(n)) == out
    ensures Scan(body + tail, RawString(n)) == BlankAll(body) + out
  {
    if body == "" {
      assert body + tail == tail;
    } else {
      var c, rest := body[0], body[1..];
      assert body + tail == [c] + (rest + tail) && (body + tail)[0..] == body + tail;
      forall p | 0 <= p < |rest| ensures !("\"" + Hashes(n) <= (rest + tail)[p..]) { assert (rest + tail)[p..] == (body + tail)[p + 1..]; }
      ClosesRawIs([c] + (rest + tail), n);
      RawRead(rest, n, tail, out);
      RawChar(c, rest + tail, n, BlankAll(rest) + out);
      BlankCons(c, rest, out);
      assert body == [c] + rest;
    }
  }

  lemma BlankAllSpaces(s: string)
    requires forall i | 0 <= i < |s| :: s[i] != '\n' && s[i] != '\t'
    ensures BlankAll(s) == Spaces(|s|)
  {
  }

  lemma {:induction false} HashRunOf(n: nat, t: string)
    requires t == "" || t[0] != '#'
    ensures HashRun(Hashes(n) + t) == n
  {
    if n > 0 {
      HashRunOf(n - 1, t);
      assert (Hashes(n) + t)[1..] == Hashes(n - 1) + t;
    } else {
      assert Hashes(0) + t == t;
    }
  }

  // ---- Whole sources ----

  lemma OpenBlock(rest: string, out: string)
    requires Scan(rest, BlockComment(1)) == out
    ensures Scan("/*" + rest, Code) == BlankAll("/*") + out
  {
    BlankPair("/*");
    MoveThen("/*", rest, Code, Spaces(2), BlockComment(1), out);
  }

  lemma OpenLine(rest: string, out: string)
    requires Scan(rest, LineComment) == out
    ensures Scan("//" + rest, Code) == BlankAll("//") + out
  {
    BlankPair("//");
    MoveThen("//", rest, Code, Spaces(2), LineComment, out);
  }

  lemma OpenString(rest: string, out: string)
    requires Scan(rest, InString(false)) == out
    ensures Scan("\"" + rest, Code) == " " + out
  {
    MoveThen("\"", rest, Code, " ", InString(false), out);
  }

  lemma CloseString(rest: string, out: string)
    requires Scan(rest, Code) == out
    ensures Scan("\"" + rest, InString(false)) == " " + out
  {
    MoveThen("\"", rest, InString(false), " ", Code, out);
  }

  lemma OpenChar(rest: string, out: string)
    requires StartsChar("'" + rest) && Scan(rest, InChar(false)) == out
    ensures Scan("'" + rest, Code) == " " + out
  {
    MoveThen("'", rest, Code, " ", InChar(false), out);
  }

  lemma CloseChar(rest: string, out: string)
    requires Scan(rest, Code) == out
    ensures Scan("'" + rest, InChar(false)) == " " + out
  {
    MoveThen("'", rest, InChar(false), " ", Code, out);
  }

  lemma OpenRaw(n: nat, rest: string, out: string)
    requires Scan(rest, RawString(n)) == out
    ensures Scan("r" + Hashes(n) + "\"" + rest, Code) == Spaces(n + 2) + out
  {
    NextRaw(n, rest);
    MoveThen("r" + Hashes(n) + "\"", rest, Code, Spaces(n + 2), RawString(n), out);
  }

  lemma NextRaw(n: nat, rest: string)
    ensures Next("r" + Hashes(n) + "\"" + rest, Code) == Move(n + 2, Spaces(n + 2), RawString(n))
  {
    var t := "r" + Hashes(n) + "\"" + rest;
    assert t[1..] == Hashes(n) + ("\"" + rest);
    HashRunOf(n, "\"" + rest);
    assert t[n + 1] == '"';
  }

  lemma BlockTokenRead(comment: Comment, after: string)
    requires CommentFits(comment, "*/" + after)
    ensures Scan(Text(Block(comment)) + after, Code) == Stripped(Block(comment)) + Scan(after, Code)
  {
    var inside, tail := Inside(comment), Scan(after, Code);
    CloseComment(after, tail);
    CommentRead(comment, "*/" + after, 1, BlankAll("*/") + tail);
    OpenBlock(inside + ("*/" + after), BlankAll(inside) + (BlankAll("*/") + tail));
    Quoted("/*", inside, "*/", after);
    BlankThree("/*", inside, "*/", tail);
  }

  lemma BlankThree(a: string, b: string, c: string, out: string)
    ensures BlankAll(a) + (BlankAll(b) + (BlankAll(c) + out)) == BlankAll(a + b + c) + out
  {
    BlankAllConcat(a + b, c);
    BlankAllConcat(a, b);
  }

  lemma LineTokenRead(body: string, after: string)
    requires '\n' !in body && (after == "" || after[0] == '\n')
    ensures Scan(Text(Line(body)) + after, Code) == Stripped(Line(body)) + Scan(after, Code)
  {
    var tail := Scan(after, Code);
    LineRead(body, after);
    OpenLine(body + after, BlankAll(body) + tail);
    Regroup("//", body, after);
    BlankAllConcat("//", body);
    Regroup(BlankAll("//"), BlankAll(body), tail);
  }

  lemma StringTokenRead(ps: seq<Piece>, after: string)
    requires PiecesFit(ps, '"')
    ensures Scan(Text(Str(ps)) + after, Code) == Stripped(Str(ps)) + Scan(after, Code)
  {
    var body, tail := Pieces(ps), Scan(after, Code);
    CloseString(after, tail);
    StringRead(ps, "\"" + after, " " + tail);
    OpenString(body + ("\"" + after), BlankAll(body) + (" " + tail));
    Quoted("\"", body, "\"", after);
    BlankQuote();
    BlankThree("\"", body, "\"", tail);
  }

  lemma BlankQuote()
    ensures BlankAll("\"") == " "
  {
  }

  lemma ClosesSoon(body: string, after: string)
    requires |body| <= 4
    ensures StartsChar("'" + (body + ("'" + after)))
  {
    var t := "'" + (body + ("'" + after));
    assert t[0] == '\'' && t[|body| + 1] == '\'';
  }

  /** Whatever lies between two close apostrophes is blanked. */
  lemma BetweenApostrophes(body: string, after: string, out: string)
    requires |body| <= 4 && Scan(body + ("'" + after), InChar(false)) == BlankAll(body) + (" " + out)
    ensures Scan("'" + body + "'" + after, Code) == " " + (BlankAll(body) + (" " + out))
  {
    ClosesSoon(body, after);
    OpenChar(body + ("'" + after), BlankAll(body) + (" " + out));
    Quoted("'", body, "'", after);
  }

  lemma CharTokenRead(body: string, after: string)
    requires CharBody(body) && |body| <= 4
    ensures Scan(Text(Chr(body)) + after, Code) == Stripped(Chr(body)) + Scan(after, Code)
  {
    var tail := Scan(after, Code);
    CloseChar(after, tail);
    CharBodyRead(body, "'" + after, " " + tail);
    BetweenApostrophes(body, after, tail);
    BlankApostrophe();
    BlankThree("'", body, "'", tail);
  }

  lemma BlankApostrophe()
    ensures BlankAll("'") == " "
  {
  }

  /** A literal that closes later is not taken for one: its apostrophe stays. */
  lemma LongCharMisread(body: string, after: string)
    requires CharBody(body) && |body| > 4
    ensures Scan(Text(Chr(body)) + after, Code)[0] == '\'' && Stripped(Chr(body))[0] == ' '
  {
    var t := Text(Chr(body)) + after;
    assert t[0] == '\'' && forall k | 1 <= k <= 5 :: t[k] == body[k - 1];
  }

  // ---- Lifetimes ----

  lemma {:induction false} RawOpensIs(t: string)
    ensures RawOpens(t) <==> HashRun(t) < |t| && t[HashRun(t)] == '"'
  {
    if t != "" && t[0] == '#' {
      RawOpensIs(t[1..]);
      assert HashRun(t) < |t| ==> t[HashRun(t)] == t[1..][HashRun(t[1..])];
    }
  }

  /** A character that Rust reads as code, the scanner copies. */
  lemma CodeCopied(c: char, after: string, out: string)
    requires c != '"' && c != '\'' && !(c == '/' && after != "" && (after[0] == '/' || after[0] == '*')) && !(c == 'r' && RawOpens(after))
    requires Scan(after, Code) == out
    ensures Scan([c] + after, Code) == [c] + out
  {
    var t := [c] + after;
    assert t[1..] == after;
    RawOpensIs(after);
    MoveThen([c], after, Code, [c], Code, out);
  }

  lemma {:induction false} NameRead(u: Idents, name: string, after: string, out: string)
    requires Unicode(u) && (forall i | 0 <= i < |name| :: u.continues(name[i]))
    requires !(name != "" && name[|name| - 1] == 'r' && RawOpens(after)) && Scan(after, Code) == out
    ensures Scan(name + after, Code) == name + out
  {
    if name == "" {
      assert name + after == after;
    } else {
      var c, rest := name[0], name[1..];
      NameRead(u, rest, after, out);
      NotInNames(u, c);
      assert name == [c] + rest;
      if rest != "" { NoRawInName(u, rest, after); }
      NameCons(c, rest, after, out);
    }
  }

  lemma NoRawInName(u: Idents, rest: string, after: string)
    requires Unicode(u) && rest != "" && u.continues(rest[0])
    ensures !RawOpens(rest + after)
  {
    NotInNames(u, rest[0]);
    assert (rest + after)[0] == rest[0];
  }

  lemma NameCons(c: char, rest: string, after: string, out: string)
    requires c != '"' && c != '\'' && c != '/' && Scan(rest + after, Code) == rest + out
    requires if rest == "" then !(c == 'r' && RawOpens(after)) else !RawOpens(rest + after)
    ensures Scan([c] + rest + after, Code) == [c] + rest + out
  {
    if rest == "" { assert rest + after == after; }
    CodeCopied(c, rest + after, rest + out);
    Regroup([c], rest, after);
    Regroup([c], rest, out);
  }

  lemma NotInNames(u: Idents, c: char)
    requires Unicode(u) && u.continues(c)
    ensures c != '"' && c != '\'' && c != '/' && c != '#'
  {
  }

  lemma ApostropheCopied(rest: string, out: string)
    requires NoApostrophe(rest) && Scan(rest, Code) == out
    ensures Scan("'" + rest, Code) == "'" + out
  {
    var t := "'" + rest;
    assert t[0] == '\'' && forall k | 1 <= k < |t| :: t[k] == rest[k - 1];
    MoveThen("'", rest, Code, "'", Code, out);
  }

  lemma LifetimeRead(u: Idents, name: string, after: string)
    requires Unicode(u) && Fits(u, Lifetime(name), after) && ReadRight(Lifetime(name), after)
    ensures Scan(Text(Lifetime(name)) + after, Code) == Stripped(Lifetime(name)) + Scan(after, Code)
  {
    var tail := Scan(after, Code);
    NameRead(u, name, after, tail);
    ApostropheCopied(name + after, name + tail);
    Regroup("'", name, after);
    Regroup("'", name, tail);
  }

  /** Another apostrophe among the next five characters: the lifetime is taken for a literal. */
  lemma LifetimeTakenForChar(name: string, after: string)
    requires !NoApostrophe(name + after)
    ensures Scan(Text(Lifetime(name)) + after, Code)[0] == ' '
  {
    var t := "'" + (name + after);
    Regroup("'", name, after);
    var k :| 0 <= k < |name + after| && k < 5 && (name + after)[k] == '\'';
    assert t[0] == '\'' && t[k + 1] == '\'';
    assert StartsChar(t);
    assert Next(t, Code) == Move(1, " ", InChar(false));
  }

  /** A name that ends in `r` before a string: the scanner takes the `r` for the opening of a raw string. */
  lemma LifetimeTakenForRaw(u: Idents, name: string, after: string)
    requires Unicode(u) && Fits(u, Lifetime(name), after) && NoApostrophe(name + after)
    requires name[|name| - 1] == 'r' && RawOpens(after)
    ensures Scan(Text(Lifetime(name)) + after, Code)[|name|] == ' '
  {
    var init, rest := name[..|name| - 1], "r" + after;
    var out := Scan(rest, Code);
    assert name == init + "r";
    Regroup(init, "r", after);
    RawOpensIs(after);
    assert rest[1..] == after && rest[0] == 'r';
    assert out[0] == ' ';
    RawOpensIs(rest);
    NameRead(u, init, rest, out);
    ApostropheCopied(name + after, init + out);
    Regroup("'", name, after);
    assert ("'" + (init + out))[|name|] == out[0];
  }

  lemma Quoted(open: string, body: string, close: string, after: string)
    ensures open + body + close + after == open + (body + (close + after))
  {
  }

  lemma RawRegroup(n: nat, body: string, after: string)
    ensures var open, close := "r" + Hashes(n) + "\"", "\"" + Hashes(n);
            && Text(Raw(n, body)) == open + body + close
            && Text(Raw(n, body)) + after == open + (body + (close + after))
            && body + "\"" + Hashes(n) + after == body + (close + after)
  {
  }

  lemma RawBlank(n: nat)
    ensures BlankAll("r" + Hashes(n) + "\"") == Spaces(n + 2) && BlankAll("\"" + Hashes(n)) == Spaces(n + 1)
  {
    BlankAllSpaces("r" + Hashes(n) + "\"");
    BlankAllSpaces("\"" + Hashes(n));
  }

  lemma RawBodyRead(u: Idents, n: nat, body: string, after: string)
    requires Fits(u, Raw(n, body), after)
    ensures Scan(body + (("\"" + Hashes(n)) + after), RawString(n)) ==
            BlankAll(body) + (BlankAll("\"" + Hashes(n)) + Scan(after, Code))
  {
    RawRegroup(n, body, after);
    RawClose(n, after, Scan(after, Code));
    RawBlank(n);
    RawRead(body, n, ("\"" + Hashes(n)) + after, BlankAll("\"" + Hashes(n)) + Scan(after, Code));
  }

  lemma RawTokenRead(u: Idents, n: nat, body: string, after: string)
    requires Fits(u, Raw(n, body), after)
    ensures Scan(Text(Raw(n, body)) + after, Code) == Stripped(Raw(n, body)) + Scan(after, Code)
  {
    RawRegroup(n, body, after);
    RawBodyRead(u, n, body, after);
    OpenRaw(n, body + (("\"" + Hashes(n)) + after), BlankAll(body) + (BlankAll("\"" + Hashes(n)) + Scan(after, Code)));
    RawBlank(n);
    BlankThree("r" + Hashes(n) + "\"", body, "\"" + Hashes(n), Scan(after, Code));
  }

  /** A token that the rule of thumb gets right is read as a whole, kept if it is code and blanked if not. */
  lemma TokenRead(u: Idents, t: Token, after: string)
    requires Unicode(u) && Fits(u, t, after) && ReadRight(t, after)
    ensures Scan(Text(t) + after, Code) == Stripped(t) + Scan(after, Code)
  {
    match t
    case CodeChar(c) => CodeCopied(c, after, Scan(after, Code));
    case Line(body) => LineTokenRead(body, after);
    case Block(comment) => BlockTokenRead(comment, after);
    case Str(ps) => StringTokenRead(ps, after);
    case Raw(n, body) => RawTokenRead(u, n, body, after);
    case Chr(body) => CharTokenRead(body, after);
    case Lifetime(name) => LifetimeRead(u, name, after);
  }

  /** Any other token shows in the output. */
  lemma TokenMisread(u: Idents, t: Token, after: string) returns (i: nat)
    requires Unicode(u) && Fits(u, t, after) && !ReadRight(t, after)
    ensures i < |Text(t)| == |Stripped(t)| && Scan(Text(t) + after, Code)[i] != Stripped(t)[i]
  {
    if t.Chr? {
      LongCharMisread(t.body, after);
      i := 0;
    } else if !NoApostrophe(t.name + after) {
      LifetimeTakenForChar(t.name, after);
      i := 0;
    } else {
      LifetimeTakenForRaw(u, t.name, after);
      i := |t.name|;
    }
  }

  lemma SameTail(a: string, b: string, c: string)
    ensures a + b == a + c <==> b == c
  {
    if a + b == a + c { assert (a + b)[|a|..] == b && (a + c)[|a|..] == c; }
  }

  /**
   * For every tokenised source: the scanner keeps exactly the code and blanks exactly the rest if and only if its rule of
   * thumb for apostrophes gets every lifetime and every character literal right.
   */
  lemma {:induction false} ScannerMeetsReference(u: Idents, ts: seq<Token>)
    requires Unicode(u) && Tokens(u, ts)
    ensures Scan(Source(ts), Code) == StrippedSource(ts) <==> AllReadRight(ts)
  {
    if ts != [] {
      var t, after := ts[0], Source(ts[1..]);
      if ReadRight(t, after) {
        ScannerMeetsReference(u, ts[1..]);
        TokenRead(u, t, after);
        SameTail(Stripped(t), Scan(after, Code), StrippedSource(ts[1..]));
      } else {
        var i := TokenMisread(u, t, after);
        assert StrippedSource(ts)[i] == Stripped(t)[i];
      }
    }
  }

  /** Code between the apostrophes of two lifetimes is taken for a literal. */
  lemma LifetimesTakenTogether(mid: string, rest: string, out: string)
    requires '\'' !in mid && '\\' !in mid && |mid| <= 4 && Scan(rest, Code) == out
    ensures Scan("'" + mid + "'" + rest, Code) == " " + (BlankAll(mid) + (" " + out))
  {
    CloseChar(rest, out);
    CharPlainRun(mid, "'" + rest, " " + out);
    BetweenApostrophes(mid, rest, out);
  }

  predicate CodeAnywhere(c: char) {
    c != '"' && c != '\'' && c != '/' && c != 'r'
  }

  lemma TwoCopied(a: char, b: char)
    requires CodeAnywhere(a) && CodeAnywhere(b)
    ensures Scan([a] + ([b] + ""), Code) == [a] + ([b] + "")
  {
    CodeCopied(b, "", "");
    CodeCopied(a, [b] + "", [b] + "");
  }

  /** So of generic parameters that open with two lifetimes, only the second name is left. */
  lemma GenericsScanned(open: char, mid: string, name: char, close: char)
    requires CodeAnywhere(open) && CodeAnywhere(name) && CodeAnywhere(close)
    requires '\'' !in mid && '\\' !in mid && |mid| <= 4
    ensures var rest := [name] + ([close] + "");
            Scan([open] + ("'" + mid + "'" + rest), Code) == [open] + (" " + (BlankAll(mid) + (" " + rest)))
  {
    var rest := [name] + ([close] + "");
    TwoCopied(name, close);
    LifetimesTakenTogether(mid, rest, rest);
    CodeCopied(open, "'" + mid + "'" + rest, " " + (BlankAll(mid) + (" " + rest)));
  }

  lemma {:induction false} Prepend(u: Idents, t: Token, ts: seq<Token>, after: string)
    requires Tokens(u, ts) && Source(ts) == after && StrippedSource(ts) == after && Fits(u, t, after) && (t.CodeChar? || t.Lifetime?)
    ensures Tokens(u, [t] + ts) && Source([t] + ts) == Text(t) + after && StrippedSource([t] + ts) == Text(t) + after
  {
    assert ([t] + ts)[1..] == ts;
  }

  /** Generic parameters with two lifetimes. */
  function TwoLifetimes(open: char, a: string, comma: char, space: char, b: string, close: char): seq<Token> {
    [CodeChar(open)] + ([Lifetime(a)] + ([CodeChar(comma)] + ([CodeChar(space)] + ([Lifetime(b)] + ([CodeChar(close)] + [])))))
  }

  lemma TwoLifetimesTokens(u: Idents, open: char, a: string, comma: char, space: char, b: string, close: char)
    requires Unicode(u) && CodeAnywhere(open) && CodeAnywhere(comma) && CodeAnywhere(space) && CodeAnywhere(close)
    requires Fits(u, Lifetime(a), [comma]) && Fits(u, Lifetime(b), [close])
    ensures var ts := TwoLifetimes(open, a, comma, space, b, close);
            var text := [open] + (("'" + a) + ([comma] + ([space] + (("'" + b) + ([close] + "")))));
            Tokens(u, ts) && Source(ts) == text && StrippedSource(ts) == text
  {
    var t5 := [close] + "";
    var t4 := ("'" + b) + t5;
    var t3 := [space] + t4;
    var t2 := [comma] + t3;
    var t1 := ("'" + a) + t2;
    var ts5 := [CodeChar(close)] + [];
    var ts4 := [Lifetime(b)] + ts5;
    var ts3 := [CodeChar(space)] + ts4;
    var ts2 := [CodeChar(comma)] + ts3;
    var ts1 := [Lifetime(a)] + ts2;
    Prepend(u, CodeChar(close), [], "");
    Prepend(u, Lifetime(b), ts5, t5);
    Prepend(u, CodeChar(space), ts4, t4);
    Prepend(u, CodeChar(comma), ts3, t3);
    Prepend(u, Lifetime(a), ts2, t2);
    Prepend(u, CodeChar(open), ts1, t1);
  }

  /** Ordinary Rust that the scanner gets wrong: in the generic parameters `<'a, 'b>` it blanks `'a, '`. */
  lemma GenericLifetimesMisread(u: Idents)
    requires Unicode(u)
    ensures var ts := TwoLifetimes('<', "a", ',', ' ', "b", '>');
            Tokens(u, ts) && Source(ts) == "<'a, 'b>" && StrippedSource(ts) == "<'a, 'b>" && Scan(Source(ts), Code) == "<     b>"
  {
    TwoLifetimesTokens(u, '<', "a", ',', ' ', "b", '>');
    var text := Source(TwoLifetimes('<', "a", ',', ' ', "b", '>'));
    assert text == "<'a, 'b>";
    GenericTextMisread(text);
  }

  lemma GenericTextMisread(text: string)
    requires text == "<'a, 'b>"
    ensures Scan(text, Code) == "<     b>"
  {
    var mid, rest := text[2..5], text[6..];
    assert rest == [text[6]] + ([text[7]] + "") && text == [text[0]] + ("'" + mid + "'" + rest);
    GenericsScanned(text[0], mid, text[6], text[7]);
    BlankAllSpaces(mid);
    assert [text[0]] + (" " + (Spaces(3) + (" " + rest))) == "<     b>";
  }
}
