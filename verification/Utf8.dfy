/** UTF-8 safe truncation: `utf8_floor`, `floor_char_boundary`, and the per-event buffer of the log writer. */
module Utf8 {

  type Bytes = seq<bv8>

  // ---- The syntax of section 4 of RFC 3629 ----

  predicate Tail(b: bv8) {
    0x80 <= b <= 0xBF
  }

  predicate Pair(s: Bytes) {
    |s| >= 2 && 0xC2 <= s[0] <= 0xDF && Tail(s[1])
  }

  predicate Triple(s: Bytes) {
    |s| >= 3 && Tail(s[1]) && Tail(s[2]) &&
    (if s[0] == 0xE0 then 0xA0 <= s[1] else if s[0] == 0xED then s[1] <= 0x9F else 0xE1 <= s[0] <= 0xEF)
  }

  predicate Quad(s: Bytes) {
    |s| >= 4 && Tail(s[1]) && Tail(s[2]) && Tail(s[3]) &&
    (if s[0] == 0xF0 then 0x90 <= s[1] else if s[0] == 0xF4 then s[1] <= 0x8F else 0xF1 <= s[0] <= 0xF3)
  }

  /** The length of the character at the start, or 0 if there is none. */
  function CharLen(s: Bytes): (n: nat)
    ensures n <= 4 && n <= |s|
    ensures n > 0 ==> !Tail(s[0]) && forall i | 0 < i < n :: Tail(s[i])
  {
    if s == [] then 0
    else if s[0] <= 0x7F then 1
    else if Pair(s) then 2
    else if Triple(s) then 3
    else if Quad(s) then 4
    else 0
  }

  predicate WellFormed(s: Bytes) {
    s == [] || (CharLen(s) > 0 && WellFormed(s[CharLen(s)..]))
  }

  /** A position where the text can be cut: both sides are well-formed. */
  predicate Boundary(s: Bytes, i: nat) {
    i <= |s| && WellFormed(s[..i]) && WellFormed(s[i..])
  }

  lemma CharLenPrefix(s: Bytes, n: nat)
    requires CharLen(s) <= n <= |s| && CharLen(s) > 0
    ensures CharLen(s[..n]) == CharLen(s)
  {
    var t := s[..n];
    assert forall i | 0 <= i < n :: t[i] == s[i];
  }

  lemma {:induction false} WellFormedConcat(a: Bytes, b: Bytes)
    requires WellFormed(a) && WellFormed(b)
    ensures WellFormed(a + b)
    decreases |a|
  {
    if a == [] {
      assert a + b == b;
    } else {
      var n := CharLen(a);
      WellFormedConcat(a[n..], b);
      CharLenExtends(a, b);
      assert (a + b)[n..] == a[n..] + b;
    }
  }

  lemma CharLenExtends(a: Bytes, b: Bytes)
    requires CharLen(a) > 0
    ensures CharLen(a + b) == CharLen(a)
  {
    assert forall i | 0 <= i < |a| :: (a + b)[i] == a[i];
  }

  /** In well-formed text the boundaries are exactly the positions that hold no continuation byte. */
  lemma {:induction false} BoundaryIsNoTail(s: Bytes, i: nat)
    requires WellFormed(s) && i < |s|
    ensures Boundary(s, i) <==> !Tail(s[i])
    decreases |s|
  {
    var n := CharLen(s);
    if i == 0 {
      assert s[..0] == [] && s[0..] == s;
    } else if i < n {
      assert s[i..][0] == s[i];
    } else {
      var rest := s[n..];
      assert rest[i - n] == s[i] && rest[i - n..] == s[i..];
      BoundaryIsNoTail(rest, i - n);
      if !Tail(s[i]) {
        CharLenPrefix(s, i);
        assert s[..i][n..] == rest[..i - n];
      } else {
        assert !WellFormed(s[i..]) by { assert s[i..][0] == s[i]; }
      }
    }
  }

  /** Never more than three continuation bytes in a row. */
  lemma {:induction false} TailRun(s: Bytes, i: nat)
    requires WellFormed(s) && i < |s|
    ensures exists k :: i - 3 <= k <= i && 0 <= k && !Tail(s[k])
    decreases |s|
  {
    var n := CharLen(s);
    if i < n {
      assert !Tail(s[0]);
    } else {
      var rest := s[n..];
      TailRun(rest, i - n);
      var k :| i - n - 3 <= k <= i - n && 0 <= k && !Tail(rest[k]);
      assert !Tail(s[k + n]);
    }
  }

  /** `r` is the largest boundary at or below `pos`. */
  predicate IsFloor(s: Bytes, pos: nat, r: nat) {
    r <= pos && Boundary(s, r) && forall k | r < k <= pos :: !Boundary(s, k)
  }

  lemma FloorUnique(s: Bytes, pos: nat, a: nat, b: nat)
    requires IsFloor(s, pos, a) && IsFloor(s, pos, b)
    ensures a == b
  {
  }

  // ---- The two walks ----

  predicate IsContinuation(b: bv8) {
    b & 0xC0 == 0x80
  }

  lemma MaskIsTail(b: bv8)
    ensures IsContinuation(b) <==> Tail(b)
  {
  }

  /** `utf8_floor`: walk back while the byte is a continuation byte. */
  method Utf8Floor(bytes: Bytes, pos: nat) returns (i: nat)
    requires pos < |bytes|
    ensures i <= pos && (i == 0 || !Tail(bytes[i])) && forall k | i < k <= pos :: Tail(bytes[k])
    ensures WellFormed(bytes) ==> IsFloor(bytes, pos, i) && pos - i <= 3
  {
    i := pos;
    while i > 0 && IsContinuation(bytes[i])
      invariant i <= pos && forall k | i < k <= pos :: Tail(bytes[k])
    {
      MaskIsTail(bytes[i]);
      i := i - 1;
    }
    MaskIsTail(bytes[i]);
    if WellFormed(bytes) { WalkedToFloor(bytes, pos, i); }
  }

  /** A walk over continuation bytes that stops at another byte, or at the start, stops at the floor. */
  lemma WalkedToFloor(s: Bytes, pos: nat, i: nat)
    requires WellFormed(s) && i <= pos < |s|
    requires (i == 0 || !Tail(s[i])) && forall k | i < k <= pos :: Tail(s[k])
    ensures IsFloor(s, pos, i) && pos - i <= 3
  {
    if i == 0 { assert s[..0] == [] && s[0..] == s; }
    BoundaryIsNoTail(s, i);
    forall k | i < k <= pos ensures !Boundary(s, k) { BoundaryIsNoTail(s, k); }
    TailRun(s, pos);
  }

  /** `str::is_char_boundary`, as its documentation defines it. */
  predicate IsCharBoundary(s: Bytes, i: nat) {
    i == 0 || i == |s| || (i < |s| && !Tail(s[i]))
  }

  /** `floor_char_boundary`. */
  method FloorCharBoundary(s: Bytes, pos: nat) returns (i: nat)
    requires WellFormed(s)
    ensures pos >= |s| ==> i == |s|
    ensures pos < |s| ==> IsFloor(s, pos, i) && pos - i <= 3
    ensures Boundary(s, i)
  {
    if pos >= |s| {
      assert s[..|s|] == s && s[|s|..] == [];
      return |s|;
    }
    i := pos;
    while i > 0 && !IsCharBoundary(s, i)
      invariant i <= pos && forall k | i < k <= pos :: Tail(s[k])
    {
      i := i - 1;
    }
    WalkedToFloor(s, pos, i);
  }

  /** The byte-mask walk and the string walk cut at the same place. */
  method WalksAgree(s: Bytes, pos: nat) returns (a: nat, b: nat)
    requires WellFormed(s) && pos < |s|
    ensures a == b && IsFloor(s, pos, a)
  {
    a := Utf8Floor(s, pos);
    b := FloorCharBoundary(s, pos);
    FloorUnique(s, pos, a, b);
  }

  // ---- Truncated output ----

  predicate Ascii(s: Bytes) {
    forall i | 0 <= i < |s| :: s[i] <= 0x7F
  }

  lemma {:induction false} AsciiWellFormed(s: Bytes)
    requires Ascii(s)
    ensures WellFormed(s)
  {
    if s != [] { AsciiWellFormed(s[1..]); }
  }

  const NEWLINE: bv8 := 0x0A

  function TrimNewline(s: Bytes): Bytes {
    if s != [] && s[|s| - 1] == NEWLINE then s[..|s| - 1] else s
  }

  /** Dropping a last newline leaves whole characters. */
  lemma TrimKeepsWellFormed(s: Bytes)
    requires WellFormed(s)
    ensures WellFormed(TrimNewline(s))
  {
    if s != [] && s[|s| - 1] == NEWLINE { BoundaryIsNoTail(s, |s| - 1); }
  }

  /** `truncate_for_preview`. */
  method TruncateForPreview(s: Bytes, max: nat) returns (r: Bytes)
    requires WellFormed(s)
    ensures WellFormed(r)
    ensures |s| <= max ==> r == s
    ensures |s| > max ==> exists cut: nat :: IsFloor(s, max, cut) && r == s[..cut] + [0x2E, 0x2E, 0x2E]
  {
    if |s| <= max { return s; }
    var end := FloorCharBoundary(s, max);
    AsciiWellFormed([0x2E, 0x2E, 0x2E]);
    WellFormedConcat(s[..end], [0x2E, 0x2E, 0x2E]);
    r := s[..end] + [0x2E, 0x2E, 0x2E];
  }

  /** The number that a text of digits stands for. */
  function ValueOf(digits: Bytes): nat
    requires Digits(digits)
  {
    if digits == [] then 0 else ValueOf(digits[..|digits| - 1]) * 10 + (digits[|digits| - 1] as nat - 0x30)
  }

  predicate Digits(s: Bytes) {
    forall i | 0 <= i < |s| :: 0x30 <= s[i] <= 0x39
  }

  /** The decimal digits of `n`, without leading zeros. */
  predicate IsDecimal(digits: Bytes, n: nat) {
    digits != [] && Digits(digits) && ValueOf(digits) == n && (|digits| > 1 ==> digits[0] != 0x30)
  }

  function Digit(d: nat): (b: bv8)
    requires d < 10
    ensures 0x30 <= b <= 0x39 && b as nat == 0x30 + d && (b == 0x30 <==> d == 0)
  {
    [0x30, 0x31, 0x32, 0x33, 0x34, 0x35, 0x36, 0x37, 0x38, 0x39][d]
  }

  function Decimal(n: nat): (r: Bytes)
    ensures IsDecimal(r, n) && (n > 0 ==> r[0] != 0x30)
  {
    var init := if n < 10 then [] else Decimal(n / 10);
    var r := init + [Digit(n % 10)];
    assert r[..|r| - 1] == init;
    r
  }

  const BEFORE_TOTAL: Bytes := [0x2E, 0x2E, 0x2E, 0x5B]
  const AFTER_TOTAL: Bytes := [0x42, 0x20, 0x74, 0x6F, 0x74, 0x61, 0x6C, 0x5D, NEWLINE]

  /** "...[nB total]" and a newline. */
  function Suffix(n: nat): (r: Bytes)
    ensures WellFormed(r)
    ensures exists digits :: IsDecimal(digits, n) && r == BEFORE_TOTAL + digits + AFTER_TOTAL
  {
    var r := BEFORE_TOTAL + Decimal(n) + AFTER_TOTAL;
    AsciiWellFormed(r);
    r
  }

  /** A cut text without its last byte if that is a newline. */
  predicate IsTrimmed(kept: Bytes, cut: Bytes) {
    kept == if cut != [] && cut[|cut| - 1] == 0x0A then cut[..|cut| - 1] else cut
  }

  /** The buffer of one log event. */
  class EventBuffer {
    var buf: Bytes
    const maxBytes: nat

    constructor (maxBytes: nat)
      ensures buf == [] && this.maxBytes == maxBytes
    {
      buf, this.maxBytes := [], maxBytes;
    }

    method Write(data: Bytes) returns (n: nat)
      modifies this
      ensures buf == old(buf) + data && n == |data|
    {
      buf := buf + data;
      n := |data|;
    }

    /** `drop`: what reaches the log. */
    method Drop() returns (out: Bytes)
      ensures |buf| <= maxBytes ==> out == buf
      ensures |out| <= maxBytes + |Suffix(|buf|)|
      ensures WellFormed(buf) ==> WellFormed(out)
      ensures WellFormed(buf) && |buf| > maxBytes ==>
                exists cut: nat, kept, digits :: IsFloor(buf, maxBytes, cut) && maxBytes - cut <= 3 &&
                  IsTrimmed(kept, buf[..cut]) && IsDecimal(digits, |buf|) && out == kept + (BEFORE_TOTAL + digits + AFTER_TOTAL)
    {
      if |buf| <= maxBytes { return buf; }
      var cut := Utf8Floor(buf, maxBytes);
      out := TrimNewline(buf[..cut]) + Suffix(|buf|);
      if WellFormed(buf) {
        var digits :| IsDecimal(digits, |buf|) && Suffix(|buf|) == BEFORE_TOTAL + digits + AFTER_TOTAL;
        assert IsFloor(buf, maxBytes, cut) && IsTrimmed(TrimNewline(buf[..cut]), buf[..cut]);
        TrimKeepsWellFormed(buf[..cut]);
        WellFormedConcat(TrimNewline(buf[..cut]), Suffix(|buf|));
      }
    }
  }
}
