/** Order-insensitive JSON values, as `serde_json::Value` compares them, and dotted paths into them. */
module JsonTree {

  const U64_LIMIT: int := 0x1_0000_0000_0000_0000
  const I64_LIMIT: int := 0x8000_0000_0000_0000

  type U64 = n: int | 0 <= n < U64_LIMIT
  type I64 = n: int | -I64_LIMIT <= n < I64_LIMIT
  type NegI64 = n: int | -I64_LIMIT <= n < 0 witness -1

  /** `serde_json::Number`: a non-negative integer, a negative integer, or a finite double (its bit pattern). */
  datatype Number = PosInt(u: U64) | NegInt(i: NegI64) | Float(bits: U64)

  datatype Json =
    | Null
    | Bool(b: bool)
    | Num(n: Number)
    | Str(s: string)
    | Arr(items: seq<Json>)
    | Obj(fields: map<string, Json>)

  predicate DotFree(k: string) {
    '.' !in k
  }

  /** `str::split('.')`: always at least one piece. */
  function Split(path: string): (parts: seq<string>)
    ensures parts != []
    ensures forall p <- parts :: DotFree(p)
  {
    if path == "" then [""]
    else
      var rest := Split(path[1..]);
      if path[0] == '.' then [""] + rest
      else
        assert DotFree(rest[0]) && forall p <- rest[1..] :: p in rest;
        [[path[0]] + rest[0]] + rest[1..]
  }

  /** The pieces put back together with dots between them. */
  function Join(parts: seq<string>): string
    requires parts != []
  {
    if |parts| == 1 then parts[0] else parts[0] + "." + Join(parts[1..])
  }

  /** `collect_settings_json` extends a prefix with this. */
  function ExtendPath(prefix: string, key: string): string {
    if prefix == "" then key else prefix + "." + key
  }

  lemma {:induction false} SplitDotFree(k: string)
    requires DotFree(k)
    ensures Split(k) == [k]
  {
    if k != "" {
      SplitDotFree(k[1..]);
      assert k == [k[0]] + k[1..];
    }
  }

  /** What a first character does to the pieces of the rest. */
  function ConsPiece(c: char, rest: seq<string>): seq<string>
    requires rest != []
  {
    if c == '.' then [""] + rest else [[c] + rest[0]] + rest[1..]
  }

  lemma SplitCons(c: char, s: string)
    ensures Split([c] + s) == ConsPiece(c, Split(s))
  {
    assert ([c] + s)[1..] == s && ([c] + s)[0] == c;
  }

  lemma ConsPieceConcat(c: char, left: seq<string>, right: seq<string>)
    requires left != []
    ensures ConsPiece(c, left + right) == ConsPiece(c, left) + right
  {
    assert (left + right)[0] == left[0] && (left + right)[1..] == left[1..] + right;
  }

  /** Splitting at a dot splits both sides. */
  lemma {:induction false} SplitAtDot(a: string, b: string)
    ensures Split(a + "." + b) == Split(a) + Split(b)
  {
    if a == "" {
      assert a + "." + b == ['.'] + b;
      SplitCons('.', b);
    } else {
      var c, rest := a[0], a[1..];
      SplitAtDot(rest, b);
      assert a == [c] + rest && a + "." + b == [c] + (rest + "." + b);
      SplitCons(c, rest);
      SplitCons(c, rest + "." + b);
      ConsPieceConcat(c, Split(rest), Split(b));
    }
  }

  lemma {:induction false} JoinThenSplit(parts: seq<string>)
    requires parts != [] && forall p <- parts :: DotFree(p)
    ensures Split(Join(parts)) == parts
  {
    SplitDotFree(parts[0]);
    if |parts| > 1 {
      JoinThenSplit(parts[1..]);
      SplitAtDot(parts[0], Join(parts[1..]));
    }
  }

  lemma {:induction false} SplitThenJoin(path: string)
    ensures Join(Split(path)) == path
  {
    if path != "" {
      SplitThenJoin(path[1..]);
    }
  }

  /** Different paths split differently, so no two stored keys share their pieces. */
  lemma SplitInjective(a: string, b: string)
    requires Split(a) == Split(b)
    ensures a == b
  {
    SplitThenJoin(a);
    SplitThenJoin(b);
  }

  predicate Comparable(p: seq<string>, q: seq<string>) {
    p <= q || q <= p
  }
}
