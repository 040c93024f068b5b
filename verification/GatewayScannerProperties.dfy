/** What `_strip_comments_and_strings` promises on every text: a stable layout, and nothing left to strip. */
module GatewayScannerProperties {
  import opened GatewayScanner

  // ---- Layout ----

  lemma DimsConcat(a: string, b: string, t: string)
    requires |a| <= |t| && Dims(a, t[..|a|]) && Dims(b, t[|a|..])
    ensures Dims(a + b, t)
  {
    forall i | 0 <= i < |t| ensures (a + b)[i] == t[i] || (a + b)[i] == ' ' {
      if i < |a| { assert a[i] == t[..|a|][i] || a[i] == ' '; } else { assert b[i - |a|] == t[|a|..][i - |a|] || b[i - |a|] == ' '; }
    }
  }

  lemma {:induction false} ScanDims(t: string, m: Mode)
    ensures Dims(Scan(t, m), t)
    decreases |t|
  {
    if t != "" {
      var v := Next(t, m);
      ScanDims(t[v.len..], v.mode);
      DimsConcat(v.out, Scan(t[v.len..], v.mode), t);
    }
  }

  /** The mode in which the scanner reads position `k`, unless it reads over it. */
  function ModeAt(t: string, m: Mode, k: nat): (r: (bool, Mode))
    requires k < |t|
    decreases |t|
  {
    if k == 0 then (true, m)
    else
      var v := Next(t, m);
      if k < v.len then (false, m) else ModeAt(t[v.len..], v.mode, k - v.len)
  }

  /** The characters read together with the first one are never newlines. */
  lemma NotReadOver(t: string, m: Mode, k: nat)
    requires t != "" && 0 < k < Next(t, m).len
    ensures t[k] != '\n'
  {
    HashRunIs(t[1..]);
    if m.Code? && StartsRawString(t) && k < HashRun(t[1..]) + 1 { assert t[k] == t[1..][k - 1]; }
  }

  /** A newline survives exactly when it is not escaped inside a character literal. */
  lemma {:induction false} NewlinesSurvive(t: string, m: Mode, k: nat)
    requires k < |t| && t[k] == '\n'
    ensures ModeAt(t, m, k).0
    ensures Scan(t, m)[k] == '\n' <==> ModeAt(t, m, k).1 != InChar(true)
    decreases |t|
  {
    var v := Next(t, m);
    if k > 0 {
      if k < v.len { NotReadOver(t, m, k); }
      NewlinesSurvive(t[v.len..], v.mode, k - v.len);
    }
  }

  // ---- Nothing left to strip ----

  /** No position starts a comment or a literal. */
  predicate Quiet(t: string) {
    t == "" || (!StartsSomething(t) && Quiet(t[1..]))
  }

  lemma {:induction false} QuietIsKept(t: string)
    requires Quiet(t)
    ensures Scan(t, Code) == t
  {
    if t != "" {
      QuietIsKept(t[1..]);
      assert t == [t[0]] + t[1..];
    }
  }

  lemma {:induction false} BlanksAreQuiet(blanks: string, t: string)
    requires Quiet(t) && forall i | 0 <= i < |blanks| :: blanks[i] == Blank(blanks[i])
    ensures Quiet(blanks + t)
  {
    if blanks == "" {
      assert blanks + t == t;
    } else {
      BlanksAreQuiet(blanks[1..], t);
      assert (blanks + t)[1..] == blanks[1..] + t;
      assert (blanks + t)[0] == blanks[0];
    }
  }

  /** Blanking text cannot create the start of anything. */
  lemma DimsStartsNothing(r: string, t: string)
    requires Dims(r, t) && StartsSomething(r)
    ensures StartsSomething(t)
  {
    if StartsRawString(r) {
      var n := HashRun(r[1..]);
      HashRunIs(r[1..]);
      forall i | 0 <= i < n ensures t[1..][i] == '#' { assert r[1..][i] == '#' && r[i + 1] == '#'; }
      assert t[n + 1] == '"';
      HashRunAt(t[1..], n);
    } else if StartsChar(r) {
      var k :| 1 <= k < |r| && k <= 5 && r[k] == '\'';
      assert t[k] == '\'';
    }
  }

  lemma {:induction false} HashRunAt(t: string, n: nat)
    requires n < |t| && (forall i | 0 <= i < n :: t[i] == '#') && t[n] != '#'
    ensures HashRun(t) == n
  {
    HashRunIs(t);
  }

  lemma {:induction false} ScanIsQuiet(t: string, m: Mode)
    ensures Quiet(Scan(t, m))
    decreases |t|
  {
    if t != "" {
      var v := Next(t, m);
      var rest := Scan(t[v.len..], v.mode);
      ScanIsQuiet(t[v.len..], v.mode);
      if m.Code? && !StartsSomething(t) {
        ScanDims(t, m);
        var r := Scan(t, m);
        assert r == [t[0]] + rest && r[1..] == rest;
        if StartsSomething(r) { DimsStartsNothing(r, t); }
      } else {
        BlanksAreQuiet(v.out, rest);
      }
    }
  }

  /** Scanning the output again changes nothing, for every source text. */
  lemma ScanIdempotent(src: string)
    ensures Scan(Scan(src, Code), Code) == Scan(src, Code)
  {
    ScanIsQuiet(src, Code);
    QuietIsKept(Scan(src, Code));
  }
}
