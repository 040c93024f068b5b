/** `str::replace` of one character by a string. */
module TextReplace {
  import opened Sequences

  function Replace(s: string, c: char, sub: string): string {
    if s == "" then "" else (if s[0] == c then sub else [s[0]]) + Replace(s[1..], c, sub)
  }

  lemma {:induction false} ReplaceConcat(a: string, b: string, c: char, sub: string)
    ensures Replace(a + b, c, sub) == Replace(a, c, sub) + Replace(b, c, sub)
  {
    if a == "" {
      assert a + b == b;
    } else {
      var rest, piece := a[1..], if a[0] == c then sub else [a[0]];
      ReplaceConcat(rest, b, c, sub);
      assert (a + b)[1..] == rest + b;
      Regroup(piece, Replace(rest, c, sub), Replace(b, c, sub));
    }
  }

  lemma {:induction false} ReplaceAbsent(s: string, c: char, sub: string)
    requires c !in s
    ensures Replace(s, c, sub) == s
  {
    if s != "" { ReplaceAbsent(s[1..], c, sub); }
  }

  lemma ReplaceOne(x: char, c: char, sub: string)
    ensures Replace([x], c, sub) == if x == c then sub else [x]
  {
    assert [x][1..] == "";
  }
}
