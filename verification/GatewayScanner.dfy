/** `_strip_comments_and_strings` and the brace walks of the gateway boundary check. */
module GatewayScanner {
  import opened Sequences

  /** Where the scanner is; block comments nest, `escaped` is set after a backslash. */
  datatype Mode = Code | LineComment | BlockComment(depth: nat) | RawString(hashes: nat) | InString(escaped: bool) | InChar(escaped: bool)

  /** What one turn of the loop reads and writes. */
  datatype Move = Move(len: nat, out: string, mode: Mode)

  function Blank(c: char): char {
    if c == '\n' || c == '\t' then c else ' '
  }

  /** Same length, and each character is the original or a space. */
  predicate Dims(r: string, t: string) {
    |r| == |t| && forall i | 0 <= i < |t| :: r[i] == t[i] || r[i] == ' '
  }

  function Spaces(n: nat): (r: string)
    ensures |r| == n && forall i | 0 <= i < n :: r[i] == ' '
  {
    seq(n, _ => ' ')
  }

  /** The length of the run of `#` at the start. */
  function HashRun(t: string): (n: nat)
    ensures n <= |t|
  {
    if t == "" || t[0] != '#' then 0 else 1 + HashRun(t[1..])
  }

  lemma {:induction false} HashRunIs(t: string)
    ensures (forall i | 0 <= i < HashRun(t) :: t[i] == '#') && (HashRun(t) < |t| ==> t[HashRun(t)] != '#')
  {
    if t != "" && t[0] == '#' {
      HashRunIs(t[1..]);
      assert forall i | 1 <= i < |t| :: t[i] == t[1..][i - 1];
    }
  }

  predicate StartsLineComment(t: string) {
    |t| > 1 && t[0] == '/' && t[1] == '/'
  }

  predicate StartsBlockComment(t: string) {
    |t| > 1 && t[0] == '/' && t[1] == '*'
  }

  /** `r`, some `#`, a double quote. */
  predicate StartsRawString(t: string) {
    t != "" && t[0] == 'r' && var n := HashRun(t[1..]); n + 1 < |t| && t[n + 1] == '"'
  }

  /** An apostrophe with another one among the next five characters. */
  predicate StartsChar(t: string) {
    |t| > 1 && t[0] == '\'' && exists k | 1 <= k < |t| && k <= 5 :: t[k] == '\''
  }

  predicate StartsSomething(t: string) {
    StartsLineComment(t) || StartsBlockComment(t) || StartsRawString(t) || (t != "" && t[0] == '"') || StartsChar(t)
  }

  predicate ClosesRaw(t: string, hashes: nat) {
    t != "" && t[0] == '"' && hashes + 1 <= |t| && forall i | 1 <= i <= hashes :: t[i] == '#'
  }

  /** One turn of the loop on the text still to be read. */
  function Next(t: string, m: Mode): (r: Move)
    requires t != ""
    ensures 1 <= r.len <= |t| && |r.out| == r.len
  {
    var c := t[0];
    match m
    case LineComment => Move(1, [Blank(c)], if c == '\n' then Code else LineComment)
    case BlockComment(depth) =>
      if |t| > 1 && c == '/' && t[1] == '*' then Move(2, Spaces(2), BlockComment(depth + 1))
      else if |t| > 1 && c == '*' && t[1] == '/' then Move(2, Spaces(2), if depth <= 1 then Code else BlockComment(depth - 1))
      else Move(1, [Blank(c)], m)
    case RawString(hashes) =>
      if ClosesRaw(t, hashes) then Move(hashes + 1, Spaces(hashes + 1), Code) else Move(1, [Blank(c)], m)
    case InString(escaped) =>
      if escaped then Move(1, [Blank(c)], InString(false))
      else if c == '\\' then Move(1, " ", InString(true))
      else if c == '"' then Move(1, " ", Code)
      else Move(1, [Blank(c)], m)
    case InChar(escaped) =>
      if escaped then Move(1, " ", InChar(false))
      else if c == '\\' then Move(1, " ", InChar(true))
      else if c == '\'' then Move(1, " ", Code)
      else Move(1, [Blank(c)], m)
    case Code =>
      if StartsLineComment(t) then Move(2, Spaces(2), LineComment)
      else if StartsBlockComment(t) then Move(2, Spaces(2), BlockComment(1))
      else if StartsRawString(t) then var n := HashRun(t[1..]); Move(n + 2, Spaces(n + 2), RawString(n))
      else if c == '"' then Move(1, " ", InString(false))
      else if StartsChar(t) then Move(1, " ", InChar(false))
      else Move(1, [c], Code)
  }

  /** The sanitised form of a text that is entered in mode `m`. */
  function Scan(t: string, m: Mode): (r: string)
    ensures |r| == |t|
    decreases |t|
  {
    if t == "" then "" else
      var v := Next(t, m);
      v.out + Scan(t[v.len..], v.mode)
  }

  /** The locals of `_strip_comments_and_strings`; `rawStringHashes` is -1 outside raw strings. */
  class Scanner {
    const src: string
    var out: string
    var i: nat
    var inLineComment: bool
    var inBlockComment: nat
    var inString: bool
    var stringEscape: bool
    var rawStringHashes: int
    var inChar: bool
    var charEscape: bool

    /** At most one flag is up, and an escape only in its own literal. */
    ghost predicate Valid()
      reads this
    {
      && i <= |src| && rawStringHashes >= -1
      && (inString || !stringEscape) && (inChar || !charEscape)
      && (inLineComment ==> inBlockComment == 0 && rawStringHashes == -1 && !inString && !inChar)
      && (inBlockComment > 0 ==> rawStringHashes == -1 && !inString && !inChar)
      && (rawStringHashes >= 0 ==> !inString && !inChar)
      && (inString ==> !inChar)
    }

    function Mode(): Mode
      reads this
    {
      if inLineComment then LineComment
      else if inBlockComment > 0 then BlockComment(inBlockComment)
      else if rawStringHashes >= 0 then RawString(rawStringHashes)
      else if inString then InString(stringEscape)
      else if inChar then InChar(charEscape)
      else Code
    }

    /** The next turn of the loop from here. */
    ghost function Ahead(): Move
      requires Valid() && i < |src|
      reads this
    {
      Next(src[i..], Mode())
    }

    constructor (src: string)
      ensures Valid() && this.src == src && out == "" && i == 0 && Mode() == Code
    {
      this.src, out, i := src, "", 0;
      inLineComment, inBlockComment, rawStringHashes := false, 0, -1;
      inString, stringEscape, inChar, charEscape := false, false, false, false;
    }

    method Emit(piece: string)
      requires i + |piece| <= |src|
      modifies this`out, this`i
      ensures out == old(out) + piece && i == old(i) + |piece|
    {
      out, i := out + piece, i + |piece|;
    }

    method InComment()
      requires Valid() && i < |src| && (inLineComment || inBlockComment > 0)
      modifies this
      ensures Valid() && i == old(i) + old(Ahead()).len && out == old(out) + old(Ahead()).out && Mode() == old(Ahead()).mode
    {
      var c := src[i];
      if inLineComment {
        if c == '\n' { inLineComment := false; }
        Emit([Blank(c)]);
      } else if i + 1 < |src| && c == '/' && src[i + 1] == '*' {
        inBlockComment := inBlockComment + 1;
        Emit(Spaces(2));
      } else if i + 1 < |src| && c == '*' && src[i + 1] == '/' {
        inBlockComment := inBlockComment - 1;
        Emit(Spaces(2));
      } else {
        Emit([Blank(c)]);
      }
    }

    method InLiteral()
      requires Valid() && i < |src| && (rawStringHashes >= 0 || inString || inChar)
      modifies this
      ensures Valid() && i == old(i) + old(Ahead()).len && out == old(out) + old(Ahead()).out && Mode() == old(Ahead()).mode
    {
      var c := src[i];
      if rawStringHashes >= 0 {
        if ClosesRaw(src[i..], rawStringHashes) {
          Emit(Spaces(rawStringHashes + 1));
          rawStringHashes := -1;
        } else {
          Emit([Blank(c)]);
        }
      } else if inString {
        if stringEscape {
          stringEscape := false;
          Emit([Blank(c)]);
        } else if c == '\\' {
          stringEscape := true;
          Emit(" ");
        } else if c == '"' {
          inString := false;
          Emit(" ");
        } else {
          Emit([Blank(c)]);
        }
      } else if charEscape {
        charEscape := false;
        Emit(" ");
      } else if c == '\\' {
        charEscape := true;
        Emit(" ");
      } else if c == '\'' {
        inChar := false;
        Emit(" ");
      } else {
        Emit([Blank(c)]);
      }
    }

    method InCode()
      requires Valid() && i < |src| && Mode() == Code
      modifies this
      ensures Valid() && i == old(i) + old(Ahead()).len && out == old(out) + old(Ahead()).out && Mode() == old(Ahead()).mode
    {
      var t := src[i..];
      if StartsLineComment(t) {
        inLineComment := true;
        Emit(Spaces(2));
      } else if StartsBlockComment(t) {
        inBlockComment := 1;
        Emit(Spaces(2));
      } else if StartsRawString(t) {
        rawStringHashes := HashRun(t[1..]);
        Emit(Spaces(rawStringHashes + 2));
      } else if t[0] == '"' {
        inString := true;
        Emit(" ");
      } else if StartsChar(t) {
        inChar := true;
        Emit(" ");
      } else {
        Emit([t[0]]);
      }
    }

    /** One turn of the loop. */
    method Turn()
      requires Valid() && i < |src|
      modifies this
      ensures Valid() && i == old(i) + old(Ahead()).len && out == old(out) + old(Ahead()).out && Mode() == old(Ahead()).mode
    {
      if inLineComment || inBlockComment > 0 {
        InComment();
      } else if rawStringHashes >= 0 || inString || inChar {
        InLiteral();
      } else {
        InCode();
      }
    }
  }

  /** From position `i` in mode `m`, with `out` written, the scan ends in `goal`. */
  ghost predicate Leads(src: string, i: nat, m: Mode, out: string, goal: string) {
    i <= |src| && out + Scan(src[i..], m) == goal
  }

  lemma LeadsFrom(src: string)
    ensures Leads(src, 0, Code, "", Scan(src, Code))
  {
    assert src[0..] == src;
  }

  lemma LeadsOn(src: string, i: nat, m: Mode, out: string, goal: string, v: Move, i': nat, m': Mode, out': string)
    requires i < |src| && Leads(src, i, m, out, goal) && v == Next(src[i..], m)
    requires i' == i + v.len && m' == v.mode && out' == out + v.out
    ensures Leads(src, i', m', out', goal)
  {
    assert src[i..][v.len..] == src[i'..];
    ScanOn(src[i..], m, v, src[i'..]);
    Regroup(out, v.out, Scan(src[i'..], m'));
  }

  lemma ScanOn(t: string, m: Mode, v: Move, rest: string)
    requires t != "" && v == Next(t, m) && rest == t[v.len..]
    ensures Scan(t, m) == v.out + Scan(rest, v.mode)
  {
  }

  lemma LeadsToEnd(src: string, m: Mode, out: string, goal: string)
    requires Leads(src, |src|, m, out, goal)
    ensures out == goal
  {
  }

  /** One turn of the loop, towards the same end. */
  method Advance(s: Scanner, ghost goal: string)
    requires s.Valid() && s.i < |s.src| && Leads(s.src, s.i, s.Mode(), s.out, goal)
    modifies s
    ensures s.Valid() && old(s.i) < s.i && Leads(s.src, s.i, s.Mode(), s.out, goal)
  {
    ghost var i, m, out, v := s.i, s.Mode(), s.out, s.Ahead();
    s.Turn();
    LeadsOn(s.src, i, m, out, goal, v, s.i, s.Mode(), s.out);
  }

  /** `_strip_comments_and_strings`. */
  method StripCommentsAndStrings(src: string) returns (out: string)
    ensures out == Scan(src, Code)
  {
    var s := new Scanner(src);
    ghost var goal := Scan(src, Code);
    LeadsFrom(src);
    while s.i < |src|
      invariant fresh(s) && s.Valid() && s.src == src && Leads(src, s.i, s.Mode(), s.out, goal)
      decreases |src| - s.i
    {
      Advance(s, goal);
    }
    LeadsToEnd(src, s.Mode(), s.out, goal);
    out := s.out;
  }
}
