/** `sanitize_line` of the panic check: one line at a time, with the lexer state carried from line to line. */
module LineSanitizer {
  import G = GatewayScanner

  /** The character classes of the language the script runs in. */
  datatype Classes = Classes(alpha: char -> bool, alnum: char -> bool, space: char -> bool)

  datatype Mode = Code | BlockComment(depth: nat) | RawString(hashes: nat) | InString(escaped: bool) | InChar(escaped: bool)

  /** One turn of the loop: how much is read, whether the first character is copied, the mode after. `Stop` is the `break`. */
  datatype Move = Stop | Move(len: nat, copied: bool, mode: Mode)

  /** The end of the run of `#` from `j` on. */
  function HashEnd(s: string, j: nat): (e: nat)
    requires j <= |s|
    ensures j <= e <= |s|
    decreases |s| - j
  {
    if j < |s| && s[j] == '#' then HashEnd(s, j + 1) else j
  }

  /** The end of the run of identifier characters from `j` on. */
  function IdentEnd(cs: Classes, s: string, j: nat): (e: nat)
    requires j <= |s|
    ensures j <= e <= |s|
    decreases |s| - j
  {
    if j < |s| && (cs.alnum(s[j]) || s[j] == '_') then IdentEnd(cs, s, j + 1) else j
  }

  predicate Is(s: string, j: nat, c: char) {
    j < |s| && s[j] == c
  }

  predicate StartsLineComment(s: string, i: nat) {
    Is(s, i, '/') && Is(s, i + 1, '/')
  }

  predicate StartsRawString(s: string, i: nat) {
    Is(s, i, 'r') && Is(s, HashEnd(s, i + 1), '"')
  }

  predicate ClosesRaw(s: string, i: nat, hashes: nat) {
    Is(s, i, '"') && HashEnd(s, i + 1) == i + 1 + hashes
  }

  /** An apostrophe and an identifier that no other apostrophe follows. */
  predicate StartsLifetime(cs: Classes, s: string, i: nat) {
    && i + 1 < |s| && s[i] == '\'' && (cs.alpha(s[i + 1]) || s[i + 1] == '_')
    && !Is(s, IdentEnd(cs, s, i + 2), '\'')
  }

  function Next(cs: Classes, s: string, i: nat, m: Mode): (r: Move)
    requires i < |s|
    ensures r.Move? ==> 1 <= r.len && i + r.len <= |s| && (r.copied ==> r.len == 1)
  {
    var c := s[i];
    match m
    case BlockComment(depth) =>
      if c == '/' && Is(s, i + 1, '*') then Move(2, false, BlockComment(depth + 1))
      else if c == '*' && Is(s, i + 1, '/') then Move(2, false, if depth <= 1 then Code else BlockComment(depth - 1))
      else Move(1, false, m)
    case RawString(hashes) =>
      if ClosesRaw(s, i, hashes) then Move(hashes + 1, false, Code) else Move(1, false, m)
    case InString(escaped) =>
      Move(1, false, if escaped then InString(false) else if c == '\\' then InString(true) else if c == '"' then Code else m)
    case InChar(escaped) =>
      Move(1, false, if escaped then InChar(false) else if c == '\\' then InChar(true) else if c == '\'' then Code else m)
    case Code =>
      if StartsLineComment(s, i) then Stop
      else if c == '/' && Is(s, i + 1, '*') then Move(2, false, BlockComment(1))
      else if StartsRawString(s, i) then var j := HashEnd(s, i + 1); Move(j + 1 - i, false, RawString(j - i - 1))
      else if c == '"' then Move(1, false, InString(false))
      else if c == '\'' then Move(1, false, if StartsLifetime(cs, s, i) then Code else InChar(false))
      else Move(1, true, Code)
  }

  /** What is left of a line, and the mode at its end. */
  datatype Walked = Walked(out: string, mode: Mode)

  function Put(out: string, i: nat, c: char, copied: bool): (r: string)
    requires i < |out|
    ensures |r| == |out|
  {
    if copied then out[i := c] else out
  }

  /** From position `i` in mode `m`, with `out` as written so far. */
  function Walk(cs: Classes, s: string, i: nat, m: Mode, out: string): (r: Walked)
    requires i <= |s| == |out|
    ensures |r.out| == |s|
    decreases |s| - i
  {
    if i == |s| then Walked(out, m) else
      var v := Next(cs, s, i, m);
      if v.Stop? then Walked(out, m) else Walk(cs, s, i + v.len, v.mode, Put(out, i, s[i], v.copied))
  }

  /** Character literals do not span lines. */
  function LineEnd(m: Mode): Mode {
    if m.InChar? then Code else m
  }

  function Sanitized(cs: Classes, line: string, m: Mode): (r: Walked)
    ensures |r.out| == |line|
  {
    var w := Walk(cs, line, 0, m, G.Spaces(|line|));
    Walked(w.out, LineEnd(w.mode))
  }

  // ---- The loop ----

  class LexerState {
    var blockCommentDepth: nat
    var inString: bool
    var stringEscape: bool
    var inChar: bool
    var charEscape: bool
    var rawStringHashes: int

    /** At most one kind of literal or comment is open, and an escape only in its own literal. */
    ghost predicate Valid()
      reads this
    {
      && rawStringHashes >= -1 && (inString || !stringEscape) && (inChar || !charEscape)
      && (blockCommentDepth > 0 ==> rawStringHashes == -1 && !inString && !inChar)
      && (rawStringHashes >= 0 ==> !inString && !inChar)
      && (inString ==> !inChar)
    }

    function Mode(): Mode
      reads this
    {
      if blockCommentDepth > 0 then BlockComment(blockCommentDepth)
      else if rawStringHashes >= 0 then RawString(rawStringHashes)
      else if inString then InString(stringEscape)
      else if inChar then InChar(charEscape)
      else Code
    }

    constructor ()
      ensures Valid() && Mode() == Code
    {
      blockCommentDepth, rawStringHashes := 0, -1;
      inString, stringEscape, inChar, charEscape := false, false, false, false;
    }

    /** A turn inside a comment or a literal. */
    method Inside(cs: Classes, s: string, i: nat) returns (n: nat)
      requires Valid() && i < |s| && Mode() != Code
      modifies this
      ensures Valid() && Move(n, false, Mode()) == Next(cs, s, i, old(Mode()))
    {
      n := 1;
      var c := s[i];
      if blockCommentDepth > 0 {
        if c == '/' && Is(s, i + 1, '*') {
          blockCommentDepth, n := blockCommentDepth + 1, 2;
        } else if c == '*' && Is(s, i + 1, '/') {
          blockCommentDepth, n := blockCommentDepth - 1, 2;
        }
      } else if rawStringHashes >= 0 {
        if ClosesRaw(s, i, rawStringHashes) {
          rawStringHashes, n := -1, rawStringHashes + 1;
        }
      } else if inString {
        if stringEscape { stringEscape := false; } else if c == '\\' { stringEscape := true; } else if c == '"' { inString := false; }
      } else {
        if charEscape { charEscape := false; } else if c == '\\' { charEscape := true; } else if c == '\'' { inChar := false; }
      }
    }

    /** A turn in plain code that does not end the line. */
    method Outside(cs: Classes, s: string, i: nat) returns (n: nat, copied: bool)
      requires Valid() && i < |s| && Mode() == Code && !StartsLineComment(s, i)
      modifies this
      ensures Valid() && Move(n, copied, Mode()) == Next(cs, s, i, Code)
    {
      n, copied := 1, false;
      if s[i] == '/' && Is(s, i + 1, '*') {
        blockCommentDepth, n := blockCommentDepth + 1, 2;
      } else if StartsRawString(s, i) {
        var j := HashEnd(s, i + 1);
        rawStringHashes, n := j - i - 1, j + 1 - i;
      } else if s[i] == '"' {
        inString := true;
      } else if s[i] == '\'' {
        inChar := !StartsLifetime(cs, s, i);
      } else {
        copied := true;
      }
    }

    method Turn(cs: Classes, s: string, i: nat) returns (n: nat, copied: bool)
      requires Valid() && i < |s| && (Mode() == Code ==> !StartsLineComment(s, i))
      modifies this
      ensures Valid() && Move(n, copied, Mode()) == Next(cs, s, i, old(Mode()))
    {
      if Mode() == Code {
        n, copied := Outside(cs, s, i);
      } else {
        n := Inside(cs, s, i);
        copied := false;
      }
    }
  }

  lemma WalkStep(cs: Classes, line: string, i: nat, m: Mode, out: string, v: Move)
    requires i < |line| == |out| && v == Next(cs, line, i, m) && v.Move?
    ensures Walk(cs, line, i, m, out) == Walk(cs, line, i + v.len, v.mode, Put(out, i, line[i], v.copied))
  {
  }

  /** One turn of the loop, towards the same end. */
  method Advance(cs: Classes, line: string, i: nat, out: string, state: LexerState, ghost goal: Walked) returns (i': nat, out': string)
    requires i < |line| == |out| && state.Valid() && (state.Mode() == Code ==> !StartsLineComment(line, i))
    requires Walk(cs, line, i, state.Mode(), out) == goal
    modifies state
    ensures state.Valid() && i < i' <= |line| == |out'| && Walk(cs, line, i', state.Mode(), out') == goal
  {
    ghost var m := state.Mode();
    var n, copied := state.Turn(cs, line, i);
    WalkStep(cs, line, i, m, out, Move(n, copied, state.Mode()));
    i', out' := i + n, Put(out, i, line[i], copied);
  }

  method SanitizeLine(cs: Classes, line: string, state: LexerState) returns (out: string)
    requires state.Valid()
    modifies state
    ensures state.Valid() && Walked(out, state.Mode()) == Sanitized(cs, line, old(state.Mode()))
  {
    out := G.Spaces(|line|);
    ghost var goal := Walk(cs, line, 0, state.Mode(), out);
    var i := 0;
    while i < |line| && !(state.Mode() == Code && StartsLineComment(line, i))
      invariant i <= |line| == |out| && state.Valid() && Walk(cs, line, i, state.Mode(), out) == goal
      decreases |line| - i
    {
      i, out := Advance(cs, line, i, out, state, goal);
    }
    if state.inChar { state.inChar, state.charEscape := false, false; }
  }

  // ---- What a sanitised line promises ----

  /** No quote, and no slash that would start a comment. */
  predicate Quiet(t: string) {
    forall i | 0 <= i < |t| :: t[i] != '"' && t[i] != '\'' &&
      (t[i] == '/' && i + 1 < |t| ==> t[i + 1] != '/' && t[i + 1] != '*')
  }

  predicate SpacesFrom(out: string, i: nat) {
    forall k | i <= k < |out| :: out[k] == ' '
  }

  lemma PutIsQuiet(s: string, i: nat, out: string, n: nat, copied: bool)
    requires i < i + n <= |s| == |out| && G.Dims(out, s) && Quiet(out) && SpacesFrom(out, i)
    requires copied ==> s[i] != '"' && s[i] != '\'' && (i > 0 && out[i - 1] == '/' ==> s[i] != '/' && s[i] != '*')
    ensures var r := Put(out, i, s[i], copied);
            G.Dims(r, s) && Quiet(r) && SpacesFrom(r, i + n)
  {
    var r := Put(out, i, s[i], copied);
    forall k | 0 <= k < |r|
      ensures r[k] != '"' && r[k] != '\'' && (r[k] == '/' && k + 1 < |r| ==> r[k + 1] != '/' && r[k + 1] != '*')
    {
      assert k != i ==> r[k] == out[k];
      assert k + 1 < |r| && k + 1 != i ==> r[k + 1] == out[k + 1];
    }
  }

  /** A slash at the front of what is written was copied, and so did not start a comment. */
  predicate NoStart(s: string, i: nat, out: string)
    requires i <= |s| == |out|
  {
    0 < i < |s| && out[i - 1] == '/' ==> s[i] != '/' && s[i] != '*'
  }

  lemma NextCopies(cs: Classes, s: string, i: nat, m: Mode)
    requires i < |s| && Next(cs, s, i, m).Move? && Next(cs, s, i, m).copied
    ensures s[i] != '"' && s[i] != '\'' && (s[i] == '/' && i + 1 < |s| ==> s[i + 1] != '/' && s[i + 1] != '*')
  {
  }

  lemma {:induction false} WalkIsQuiet(cs: Classes, s: string, i: nat, m: Mode, out: string)
    requires i <= |s| == |out| && G.Dims(out, s) && Quiet(out) && SpacesFrom(out, i) && NoStart(s, i, out)
    ensures G.Dims(Walk(cs, s, i, m, out).out, s) && Quiet(Walk(cs, s, i, m, out).out)
    decreases |s| - i
  {
    if i < |s| && Next(cs, s, i, m).Move? {
      var v := Next(cs, s, i, m);
      if v.copied { NextCopies(cs, s, i, m); }
      PutIsQuiet(s, i, out, v.len, v.copied);
      WalkIsQuiet(cs, s, i + v.len, v.mode, Put(out, i, s[i], v.copied));
    }
  }

  lemma {:induction false} QuietIsKept(cs: Classes, t: string, i: nat, out: string)
    requires Quiet(t) && i <= |t| == |out| && (forall k | 0 <= k < i :: out[k] == t[k])
    ensures Walk(cs, t, i, Code, out) == Walked(t, Code)
    decreases |t| - i
  {
    if i < |t| {
      assert t[i] != '"' && t[i] != '\'';
      QuietIsKept(cs, t, i + 1, out[i := t[i]]);
    } else {
      assert out == t;
    }
  }

  /** A sanitised line keeps its length, blanks or keeps each character, and sanitised again is unchanged and leaves nothing open. */
  lemma SanitizedIsStable(cs: Classes, line: string, m: Mode)
    ensures G.Dims(Sanitized(cs, line, m).out, line)
    ensures Sanitized(cs, Sanitized(cs, line, m).out, Code) == Walked(Sanitized(cs, line, m).out, Code)
  {
    var blank := G.Spaces(|line|);
    WalkIsQuiet(cs, line, 0, m, blank);
    QuietIsKept(cs, Walk(cs, line, 0, m, blank).out, 0, blank);
  }
}
