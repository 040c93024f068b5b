/**
 * A reference for the scanner: Rust text as tokens of Rust's own lexical grammar (edition 2024, where an identifier
 * or keyword directly before a quote or `#` is no token), and what stripping them should leave.
 */
module RustTokens {
  import GatewayScanner

  /** The Unicode classes XID_Start and XID_Continue, with the underscore. */
  datatype Idents = Idents(starts: char -> bool, continues: char -> bool)

  predicate Letter(c: char) {
    'a' <= c <= 'z' || 'A' <= c <= 'Z'
  }

  predicate Digit(c: char) {
    '0' <= c <= '9'
  }

  predicate Hex(c: char) {
    Digit(c) || 'a' <= c <= 'f' || 'A' <= c <= 'F'
  }

  /** Among the ASCII characters they are letters, digits and the underscore; beyond, they are what they may be. */
  ghost predicate Unicode(u: Idents) {
    forall c: char | c < '\U{80}' :: (u.starts(c) <==> Letter(c) || c == '_') && (u.continues(c) <==> Letter(c) || Digit(c) || c == '_')
  }

  /** The inside of a block comment, which may hold whole block comments. */
  datatype Comment = End | Char(c: char, rest: Comment) | Nested(inner: Comment, rest: Comment)

  /** A character of a string literal, or one after a backslash. */
  datatype Piece = Plain(c: char) | Escape(c: char)

  datatype Token =
    | CodeChar(c: char)
    | Line(body: string)
    | Block(comment: Comment)
    | Str(pieces: seq<Piece>)
    | Raw(hashes: nat, body: string)
    | Chr(body: string)
    | Lifetime(name: string)

  function Inside(c: Comment): string {
    match c
    case End => ""
    case Char(ch, rest) => [ch] + Inside(rest)
    case Nested(inner, rest) => "/*" + Inside(inner) + "*/" + Inside(rest)
  }

  function Pieces(ps: seq<Piece>): string {
    if ps == [] then "" else (if ps[0].Plain? then [ps[0].c] else ['\\', ps[0].c]) + Pieces(ps[1..])
  }

  function Hashes(n: nat): (r: string)
    ensures |r| == n && forall i | 0 <= i < n :: r[i] == '#'
  {
    seq(n, _ => '#')
  }

  function Text(t: Token): (r: string) {
    match t
    case CodeChar(c) => [c]
    case Line(body) => "//" + body
    case Block(comment) => "/*" + Inside(comment) + "*/"
    case Str(ps) => "\"" + Pieces(ps) + "\""
    case Raw(n, body) => "r" + Hashes(n) + "\"" + body + "\"" + Hashes(n)
    case Chr(body) => "'" + body + "'"
    case Lifetime(name) => "'" + name
  }

  function Source(ts: seq<Token>): string {
    if ts == [] then "" else Text(ts[0]) + Source(ts[1..])
  }

  function BlankAll(s: string): (r: string)
    ensures |r| == |s| && forall i | 0 <= i < |s| :: r[i] == GatewayScanner.Blank(s[i])
  {
    seq(|s|, i requires 0 <= i < |s| => GatewayScanner.Blank(s[i]))
  }

  /** What stripping should leave of a token: code as it is, everything else blank. A lifetime is code. */
  function Stripped(t: Token): (r: string) {
    match t
    case CodeChar(c) => [c]
    case Lifetime(name) => Text(t)
    case _ => BlankAll(Text(t))
  }

  function StrippedSource(ts: seq<Token>): string {
    if ts == [] then "" else Stripped(ts[0]) + StrippedSource(ts[1..])
  }

  /** No plain character of the comment, with what follows it, reads as an opening or a closing. */
  predicate CommentFits(c: Comment, after: string) {
    match c
    case End => true
    case Char(ch, rest) =>
      var t := [ch] + Inside(rest) + after;
      !(|t| > 1 && t[0] == '/' && t[1] == '*') && !(|t| > 1 && t[0] == '*' && t[1] == '/') && CommentFits(rest, after)
    case Nested(inner, rest) => CommentFits(inner, "*/" + (Inside(rest) + after)) && CommentFits(rest, after)
  }

  predicate PiecesFit(ps: seq<Piece>, quote: char) {
    forall i | 0 <= i < |ps| :: ps[i].Plain? ==> ps[i].c != quote && ps[i].c != '\\'
  }

  /** Hashes and a quote: with `r` before it, the opening of a raw string. */
  predicate RawOpens(t: string) {
    t != "" && (t[0] == '"' || (t[0] == '#' && RawOpens(t[1..])))
  }

  /** One character, a simple escape, a byte escape, or the escape of a code point. */
  predicate CharBody(b: string) {
    || (|b| == 1 && b[0] !in "'\\\n\r\t")
    || (|b| == 2 && b[0] == '\\' && b[1] in "nrt\\0'\"")
    || (|b| == 4 && b[0] == '\\' && b[1] == 'x' && Hex(b[2]) && Hex(b[3]))
    || (|b| >= 5 && b[0] == '\\' && b[1] == 'u' && b[2] == '{' && Hex(b[3]) && b[|b| - 1] == '}' &&
        forall i | 3 <= i < |b| - 1 :: Hex(b[i]) || b[i] == '_')
  }

  /** The token, followed by `after`, is what a reader of Rust sees there. */
  predicate Fits(u: Idents, t: Token, after: string) {
    match t
    case CodeChar(c) =>
      && c != '"' && c != '\''
      && !(c == '/' && after != "" && (after[0] == '/' || after[0] == '*'))
      && !(c == 'r' && RawOpens(after))
    case Line(body) => '\n' !in body && (after == "" || after[0] == '\n')
    case Block(comment) => CommentFits(comment, "*/" + after)
    case Str(ps) => PiecesFit(ps, '"')
    case Raw(n, body) => forall p | 0 <= p < |body| :: !("\"" + Hashes(n) <= (body + "\"" + Hashes(n) + after)[p..])
    case Chr(body) => CharBody(body)
    case Lifetime(name) =>
      && name != "" && u.starts(name[0]) && (forall i | 0 <= i < |name| :: u.continues(name[i]))
      && (after == "" || (!u.continues(after[0]) && after[0] != '\''))
  }

  predicate Tokens(u: Idents, ts: seq<Token>) {
    ts == [] || (Fits(u, ts[0], Source(ts[1..])) && Tokens(u, ts[1..]))
  }

  /**
   * What the scanner's rule of thumb for apostrophes makes of a token: a lifetime needs five characters without another
   * apostrophe after its own, and must not end in an `r` before a string; a character literal must close within five.
   */
  predicate ReadRight(t: Token, after: string) {
    match t
    case Chr(body) => |body| <= 4
    case Lifetime(name) => NoApostrophe(name + after) && !(name != "" && name[|name| - 1] == 'r' && RawOpens(after))
    case _ => true
  }

  /** None among the first five characters. */
  predicate NoApostrophe(t: string) {
    forall k | 0 <= k < |t| && k < 5 :: t[k] != '\''
  }

  predicate AllReadRight(ts: seq<Token>) {
    ts == [] || (ReadRight(ts[0], Source(ts[1..])) && AllReadRight(ts[1..]))
  }
}
