/** The `.env` editing of `bootstrap.rs`: whole-file rewrites that act on the variables one key at a time. */
module EnvFile {
  import opened Options
  import opened TextReplace

  // ---- Lines ----

  function FirstAt(s: string, c: char): (i: nat)
    ensures i <= |s| && (forall k | 0 <= k < i :: s[k] != c) && (i < |s| ==> s[i] == c)
  {
    if s == "" || s[0] == c then 0 else 1 + FirstAt(s[1..], c)
  }

  function StripCr(line: string): string {
    if line != "" && line[|line| - 1] == '\r' then line[..|line| - 1] else line
  }

  /** `str::lines`: a carriage return is dropped only before a newline, and no line follows the last newline. */
  function Lines(s: string): seq<string>
    decreases |s|
  {
    if s == "" then []
    else
      var i := FirstAt(s, '\n');
      if i == |s| then [s] else [StripCr(s[..i])] + Lines(s[i + 1..])
  }

  function Unlines(ls: seq<string>): string {
    if ls == [] then "" else Unlines(ls[..|ls| - 1]) + ls[|ls| - 1] + "\n"
  }

  lemma FirstAtConcat(a: string, c: char, b: string)
    requires c !in a
    ensures FirstAt(a + ([c] + b), c) == |a|
  {
    var s := a + ([c] + b);
    assert s[|a|] == c && forall k | 0 <= k < |a| :: s[k] == a[k];
  }

  lemma LinesStep(line: string, rest: string)
    requires '\n' !in line
    ensures Lines(line + "\n" + rest) == [StripCr(line)] + Lines(rest)
  {
    var s := line + ("\n" + rest);
    assert line + "\n" + rest == s;
    FirstAtConcat(line, '\n', rest);
    assert s[..|line|] == line && s[|line| + 1..] == rest;
  }

  lemma {:induction false} UnlinesConcat(a: seq<string>, b: seq<string>)
    ensures Unlines(a + b) == Unlines(a) + Unlines(b)
  {
    if b == [] {
      assert a + b == a;
    } else {
      var init, last := b[..|b| - 1], b[|b| - 1];
      UnlinesConcat(a, init);
      assert (a + b)[..|a + b| - 1] == a + init && (a + b)[|a + b| - 1] == last;
      RegroupLine(Unlines(a), Unlines(init), last);
    }
  }

  lemma UnlinesCons(line: string, rest: seq<string>)
    ensures Unlines([line] + rest) == line + "\n" + Unlines(rest)
  {
    UnlinesConcat([line], rest);
    assert Unlines([line]) == line + "\n" by { assert [line][..0] == []; }
  }

  lemma RegroupLine(a: string, b: string, last: string)
    ensures a + b + last + "\n" == a + (b + last + "\n")
  {
  }

  /** Lines as they come back: a carriage return at the end is lost with the newline. */
  function StripAll(ls: seq<string>): (r: seq<string>)
    ensures |r| == |ls| && forall i | 0 <= i < |ls| :: r[i] == StripCr(ls[i])
  {
    seq(|ls|, i requires 0 <= i < |ls| => StripCr(ls[i]))
  }

  /** Writing lines without newlines and reading the file gives them back, stripped. */
  lemma {:induction false} LinesReadBack(ls: seq<string>)
    requires forall l <- ls :: '\n' !in l
    ensures Lines(Unlines(ls)) == StripAll(ls)
    decreases |ls|
  {
    if ls != [] {
      var line, rest := ls[0], ls[1..];
      assert line in ls && forall l <- rest :: l in ls;
      LinesReadBack(rest);
      assert ls == [line] + rest;
      UnlinesCons(line, rest);
      LinesStep(line, Unlines(rest));
      StripAllCons(line, rest);
    }
  }

  lemma StripAllCons(line: string, rest: seq<string>)
    ensures StripAll([line] + rest) == [StripCr(line)] + StripAll(rest)
  {
  }

  /** Every line that is read holds no newline. */
  lemma {:induction false} LinesHoldNoNewline(s: string)
    ensures forall l <- Lines(s) :: '\n' !in l
    decreases |s|
  {
    if s != "" {
      var i := FirstAt(s, '\n');
      if i < |s| {
        var rest := Lines(s[i + 1..]);
        LinesHoldNoNewline(s[i + 1..]);
        assert '\n' !in StripCr(s[..i]);
        assert Lines(s) == [StripCr(s[..i])] + rest;
      }
    }
  }

  // ---- Values ----

  /** Backslashes first, then quotes. */
  function Escape(v: string): string {
    Replace(Replace(v, '\\', "\\\\"), '"', "\\\"")
  }

  function EscapeChar(c: char): string {
    if c == '\\' then "\\\\" else if c == '"' then "\\\"" else [c]
  }

  /** The two passes act on each character by itself: the second never touches what the first wrote. */
  lemma EscapeStep(v: string)
    requires v != ""
    ensures Escape(v) == EscapeChar(v[0]) + Escape(v[1..])
  {
    var head := if v[0] == '\\' then "\\\\" else [v[0]];
    ReplaceConcat(head, Replace(v[1..], '\\', "\\\\"), '"', "\\\"");
    assert Replace(head, '"', "\\\"") == EscapeChar(v[0]) by {
      assert [v[0]][1..] == "" && "\\\\"[1..] == "\\" && "\\"[1..] == "";
    }
  }

  /** A quoted value up to its closing quote; a backslash takes the next character as it is. */
  function Unquote(s: string): Option<(string, string)> {
    if s == "" then None
    else if s[0] == '"' then Some(("", s[1..]))
    else
      var n := if s[0] == '\\' && |s| > 1 then 1 else 0;
      match Unquote(s[n + 1..])
      case None => None
      case Some(r) => Some(([s[n]] + r.0, r.1))
  }

  /** Whatever the value, the first quote that is not escaped is the closing one, and the value reads back. */
  lemma {:induction false} EscapeReadsBack(v: string, rest: string)
    ensures Unquote(Escape(v) + ("\"" + rest)) == Some((v, rest))
  {
    if v == "" {
      assert Escape(v) == "";
      UnquoteEnd(rest);
    } else {
      var c, w := v[0], v[1..];
      EscapeReadsBack(w, rest);
      EscapeStep(v);
      UnquoteCons(c, Escape(w), "\"" + rest, w, rest);
      assert v == [c] + w;
    }
  }

  lemma UnquoteEnd(rest: string)
    ensures Unquote("" + ("\"" + rest)) == Some(("", rest))
  {
    assert "" + ("\"" + rest) == "\"" + rest && ("\"" + rest)[1..] == rest;
  }

  lemma UnquoteCons(c: char, e: string, tail: string, v: string, rest: string)
    requires Unquote(e + tail) == Some((v, rest))
    ensures Unquote(EscapeChar(c) + e + tail) == Some(([c] + v, rest))
  {
    var w, t := EscapeChar(c), e + tail;
    assert w + e + tail == w + t;
    assert (w + t)[|w|..] == t && (w + t)[0] == w[0] && (w + t)[|w| - 1] == c;
  }

  lemma {:induction false} EscapeKeepsLines(v: string)
    ensures '\n' in Escape(v) <==> '\n' in v
  {
    if v != "" {
      EscapeKeepsLines(v[1..]);
      EscapeStep(v);
      assert v == [v[0]] + v[1..];
    }
  }

  // ---- Variables ----

  /** `KEY="value"`. */
  function EnvLine(key: string, value: string): string {
    key + "=\"" + Escape(value) + "\""
  }

  /** The text before the first `=`, if there is one. */
  function KeyOf(line: string): Option<string> {
    var i := FirstAt(line, '=');
    if i == |line| then None else Some(line[..i])
  }

  function RawValue(line: string): string
    requires KeyOf(line).Some?
  {
    line[FirstAt(line, '=') + 1..]
  }

  predicate ValidKey(key: string) {
    '=' !in key && '\n' !in key
  }

  lemma EnvLineParts(key: string, value: string)
    requires ValidKey(key)
    ensures KeyOf(EnvLine(key, value)) == Some(key) && RawValue(EnvLine(key, value)) == Quoted(value)
  {
    var v := "\"" + Escape(value) + "\"";
    assert "=\"" == "=" + "\"";
    assert EnvLine(key, value) == key + ("=" + v);
    FirstAtConcat(key, '=', v);
    assert (key + ("=" + v))[..|key|] == key && (key + ("=" + v))[|key| + 1..] == v;
  }

  /** `line.starts_with("KEY=")` is a test of the key. */
  lemma StartsWithKey(line: string, key: string)
    requires ValidKey(key)
    ensures LineOf(line, key) <==> KeyOf(line) == Some(key)
  {
    var i := FirstAt(line, '=');
    if LineOf(line, key) {
      var rest := line[|key| + 1..];
      assert line == key + ("=" + rest);
      FirstAtConcat(key, '=', rest);
    }
    if KeyOf(line) == Some(key) {
      assert line == line[..i] + "=" + line[i + 1..];
    }
  }

  /** What the lines say of each variable; the first line of a key counts. */
  function Env(ls: seq<string>): map<string, string> {
    if ls == [] then map[]
    else
      var rest := Env(ls[1..]);
      if KeyOf(ls[0]).Some? then rest[KeyOf(ls[0]).value := RawValue(ls[0])] else rest
  }

  /** The test by which single edits find the lines of a key. */
  predicate LineOf(line: string, key: string) {
    key + "=" <= line
  }

  function Without(ls: seq<string>, key: string): (r: seq<string>) {
    if ls == [] then []
    else if LineOf(ls[0], key) then Without(ls[1..], key)
    else [ls[0]] + Without(ls[1..], key)
  }

  function CountKey(ls: seq<string>, key: string): nat {
    if ls == [] then 0 else CountKey(ls[1..], key) + if KeyOf(ls[0]) == Some(key) then 1 else 0
  }

  // ---- The three edits, on lines ----

  /** `upsert_bootstrap_var_to`: the first line of the key is replaced, later ones dropped, else the line is appended. */
  function Upserted(ls: seq<string>, key: string, line: string): seq<string> {
    if ls == [] then [line]
    else if LineOf(ls[0], key) then [line] + Without(ls[1..], key)
    else [ls[0]] + Upserted(ls[1..], key, line)
  }

  /** Lines whose trimmed key is none of the keys. */
  function WithoutAll(ls: seq<string>, keys: set<string>, trim: string -> string): seq<string> {
    if ls == [] then []
    else if KeyOf(ls[0]).Some? && trim(KeyOf(ls[0]).value) in keys then WithoutAll(ls[1..], keys, trim)
    else [ls[0]] + WithoutAll(ls[1..], keys, trim)
  }

  function KeysOf(vars: seq<(string, string)>): set<string> {
    set v <- vars :: v.0
  }

  function EnvLines(vars: seq<(string, string)>): (ls: seq<string>)
    ensures |ls| == |vars|
  {
    if vars == [] then [] else [EnvLine(vars[0].0, vars[0].1)] + EnvLines(vars[1..])
  }

  /** `upsert_bootstrap_vars_to`: every line of a written key goes, the new lines come last. */
  function BatchUpserted(ls: seq<string>, vars: seq<(string, string)>, trim: string -> string): seq<string> {
    WithoutAll(ls, KeysOf(vars), trim) + EnvLines(vars)
  }

  lemma {:induction false} WithoutEnv(ls: seq<string>, key: string)
    requires ValidKey(key)
    ensures Env(Without(ls, key)) == Env(ls) - {key} && CountKey(Without(ls, key), key) == 0
  {
    if ls != [] {
      var rest := Without(ls[1..], key);
      StartsWithKey(ls[0], key);
      WithoutEnv(ls[1..], key);
      assert ([ls[0]] + rest)[1..] == rest;
    }
  }

  lemma {:induction false} WithoutTwice(ls: seq<string>, key: string)
    ensures Without(Without(ls, key), key) == Without(ls, key)
  {
    if ls != [] {
      var rest := Without(ls[1..], key);
      WithoutTwice(ls[1..], key);
      assert ([ls[0]] + rest)[1..] == rest;
    }
  }

  /** Whatever the key, an upsert leaves the lines of other keys as they were. */
  lemma {:induction false} UpsertKeepsOthers(ls: seq<string>, key: string, line: string)
    requires LineOf(line, key)
    ensures Without(Upserted(ls, key, line), key) == Without(ls, key)
  {
    if ls == [] {
      assert [line][1..] == [];
    } else if LineOf(ls[0], key) {
      var rest := Without(ls[1..], key);
      WithoutTwice(ls[1..], key);
      assert ([line] + rest)[1..] == rest;
    } else {
      var rest := Upserted(ls[1..], key, line);
      UpsertKeepsOthers(ls[1..], key, line);
      assert ([ls[0]] + rest)[1..] == rest;
    }
  }

  /** Single upsert: point update, exactly one line for the key, everything else as it was. */
  lemma {:induction false} UpsertRefines(ls: seq<string>, key: string, line: string)
    requires ValidKey(key) && KeyOf(line) == Some(key)
    ensures Env(Upserted(ls, key, line)) == Env(ls)[key := RawValue(line)] && CountKey(Upserted(ls, key, line), key) == 1
  {
    if ls == [] {
      assert [line][1..] == [];
    } else if LineOf(ls[0], key) {
      var rest := Without(ls[1..], key);
      StartsWithKey(ls[0], key);
      WithoutEnv(ls[1..], key);
      assert ([line] + rest)[1..] == rest;
    } else {
      var rest := Upserted(ls[1..], key, line);
      StartsWithKey(ls[0], key);
      UpsertRefines(ls[1..], key, line);
      assert ([ls[0]] + rest)[1..] == rest;
    }
  }

  /** The variables whose trimmed key is none of the keys. */
  function Kept(m: map<string, string>, keys: set<string>, trim: string -> string): map<string, string> {
    map k | k in m && trim(k) !in keys :: m[k]
  }

  lemma {:induction false} WithoutAllEnv(ls: seq<string>, keys: set<string>, trim: string -> string)
    ensures Env(WithoutAll(ls, keys, trim)) == Kept(Env(ls), keys, trim)
  {
    if ls != [] {
      WithoutAllEnv(ls[1..], keys, trim);
      var r := WithoutAll(ls[1..], keys, trim);
      assert ([ls[0]] + r)[1..] == r;
    }
  }

  lemma {:induction false} WithoutAllCount(ls: seq<string>, keys: set<string>, trim: string -> string, k: string)
    ensures CountKey(WithoutAll(ls, keys, trim), k) == if trim(k) in keys then 0 else CountKey(ls, k)
  {
    if ls != [] {
      WithoutAllCount(ls[1..], keys, trim, k);
      var r := WithoutAll(ls[1..], keys, trim);
      assert ([ls[0]] + r)[1..] == r;
    }
  }

  lemma {:induction false} EnvConcat(a: seq<string>, b: seq<string>)
    ensures Env(a + b) == Env(b) + Env(a)
  {
    if a == [] {
      assert a + b == b;
    } else {
      EnvConcat(a[1..], b);
      assert (a + b)[1..] == a[1..] + b && (a + b)[0] == a[0];
    }
  }

  lemma {:induction false} CountConcat(a: seq<string>, b: seq<string>, key: string)
    ensures CountKey(a + b, key) == CountKey(a, key) + CountKey(b, key)
  {
    if a == [] {
      assert a + b == b;
    } else {
      CountConcat(a[1..], b, key);
      assert (a + b)[1..] == a[1..] + b && (a + b)[0] == a[0];
    }
  }

  /** The variables as a map, quoted as they are written. */
  function VarMap(vars: seq<(string, string)>): map<string, string> {
    if vars == [] then map[] else VarMap(vars[1..])[vars[0].0 := Quoted(vars[0].1)]
  }

  predicate DistinctKeys(vars: seq<(string, string)>) {
    forall a, b :: 0 <= a < b < |vars| ==> vars[a].0 != vars[b].0
  }

  lemma {:induction false} EnvOfLines(vars: seq<(string, string)>)
    requires forall i | 0 <= i < |vars| :: ValidKey(vars[i].0)
    ensures Env(EnvLines(vars)) == VarMap(vars) && VarMap(vars).Keys == KeysOf(vars)
    ensures DistinctKeys(vars) ==> forall k <- KeysOf(vars) :: CountKey(EnvLines(vars), k) == 1
    ensures forall k :: k !in KeysOf(vars) ==> CountKey(EnvLines(vars), k) == 0
  {
    if vars != [] {
      EnvOfLines(vars[1..]);
      EnvLineParts(vars[0].0, vars[0].1);
      assert KeysOf(vars) == KeysOf(vars[1..]) + {vars[0].0};
      var l := EnvLine(vars[0].0, vars[0].1);
      assert ([l] + EnvLines(vars[1..]))[1..] == EnvLines(vars[1..]);
      assert DistinctKeys(vars) ==> vars[0].0 !in KeysOf(vars[1..]);
    }
  }

  /**
   * Batch upsert on any file: the variables whose trimmed key is written go, the others stay and come first, and
   * each key has the lines that were kept and those that were written.
   */
  lemma BatchEnv(ls: seq<string>, vars: seq<(string, string)>, trim: string -> string)
    requires forall i | 0 <= i < |vars| :: ValidKey(vars[i].0)
    ensures Env(BatchUpserted(ls, vars, trim)) == VarMap(vars) + Kept(Env(ls), KeysOf(vars), trim)
    ensures forall k :: CountKey(BatchUpserted(ls, vars, trim), k) ==
              (if trim(k) in KeysOf(vars) then 0 else CountKey(ls, k)) + CountKey(EnvLines(vars), k)
  {
    var kept := WithoutAll(ls, KeysOf(vars), trim);
    WithoutAllEnv(ls, KeysOf(vars), trim);
    EnvOfLines(vars);
    EnvConcat(kept, EnvLines(vars));
    forall k ensures CountKey(kept + EnvLines(vars), k) == (if trim(k) in KeysOf(vars) then 0 else CountKey(ls, k)) + CountKey(EnvLines(vars), k) {
      WithoutAllCount(ls, KeysOf(vars), trim, k);
      CountConcat(kept, EnvLines(vars), k);
    }
  }

  /** No old variable is taken for a written key by its trimmed name alone. */
  predicate NoneTaken(m: map<string, string>, keys: set<string>, trim: string -> string) {
    forall k | k in m :: trim(k) in keys ==> k in keys
  }

  /** No old variable of a written key stays in front of what is written, unless it says the same. */
  predicate NoneHidden(m: map<string, string>, n: map<string, string>, trim: string -> string) {
    forall k | k in m && k in n :: trim(k) in n.Keys || m[k] == n[k]
  }

  lemma OverrideExactly(m: map<string, string>, n: map<string, string>, trim: string -> string)
    ensures n + Kept(m, n.Keys, trim) == m + n <==> NoneTaken(m, n.Keys, trim) && NoneHidden(m, n, trim)
  {
    var l, r := n + Kept(m, n.Keys, trim), m + n;
    if l == r {
      forall k | k in m && trim(k) in n.Keys ensures k in n.Keys { assert k in r; }
      forall k | k in m && k in n ensures trim(k) in n.Keys || m[k] == n[k] { assert l[k] == r[k]; }
    }
    if NoneTaken(m, n.Keys, trim) && NoneHidden(m, n, trim) { assert l.Keys == r.Keys; }
  }

  /** A batch is a map override if and only if trimming takes no other variable for a written key and hides none. */
  lemma BatchRefines(ls: seq<string>, vars: seq<(string, string)>, trim: string -> string)
    requires forall i | 0 <= i < |vars| :: ValidKey(vars[i].0)
    ensures Env(BatchUpserted(ls, vars, trim)) == Env(ls) + VarMap(vars) <==>
            NoneTaken(Env(ls), KeysOf(vars), trim) && NoneHidden(Env(ls), VarMap(vars), trim)
  {
    BatchEnv(ls, vars, trim);
    EnvOfLines(vars);
    OverrideExactly(Env(ls), VarMap(vars), trim);
  }

  /** In particular on files whose keys carry no surrounding spaces, and each distinct key then has exactly one line. */
  lemma TidyBatch(ls: seq<string>, vars: seq<(string, string)>, trim: string -> string)
    requires (forall i | 0 <= i < |vars| :: ValidKey(vars[i].0)) && forall k <- Env(ls) :: trim(k) == k
    ensures Env(BatchUpserted(ls, vars, trim)) == Env(ls) + VarMap(vars)
    ensures DistinctKeys(vars) && (forall k <- KeysOf(vars) :: trim(k) == k) ==>
              forall k <- KeysOf(vars) :: CountKey(BatchUpserted(ls, vars, trim), k) == 1
  {
    BatchRefines(ls, vars, trim);
    BatchEnv(ls, vars, trim);
    EnvOfLines(vars);
  }

  /**
   * A batch of one and a single upsert write the same variables if and only if no other key trims to the written one, and
   * the written key trims to itself, is new, or has the value already.
   */
  lemma BatchOfOne(ls: seq<string>, key: string, value: string, trim: string -> string)
    requires ValidKey(key)
    ensures Env(BatchUpserted(ls, [(key, value)], trim)) == Env(Upserted(ls, key, EnvLine(key, value))) <==>
            && (forall k <- Env(ls) :: trim(k) == key ==> k == key)
            && (trim(key) == key || key !in Env(ls) || Env(ls)[key] == Quoted(value))
  {
    var vars := [(key, value)];
    EnvLineParts(key, value);
    UpsertRefines(ls, key, EnvLine(key, value));
    BatchRefines(ls, vars, trim);
    OneVar(key, value);
    OneOverride(Env(ls), key, Quoted(value), trim);
  }

  lemma OneOverride(m: map<string, string>, key: string, v: string, trim: string -> string)
    ensures m[key := v] == m + map[key := v]
    ensures NoneTaken(m, {key}, trim) && NoneHidden(m, map[key := v], trim) <==>
            (forall k <- m :: trim(k) == key ==> k == key) && (trim(key) == key || key !in m || m[key] == v)
  {
  }

  lemma OneVar(key: string, value: string)
    ensures VarMap([(key, value)]) == map[key := Quoted(value)] && KeysOf([(key, value)]) == {key}
  {
    assert [(key, value)][1..] == [];
  }

  /** They differ on a file with a padded key: the batch takes it for the key, the single upsert does not. */
  lemma PaddedKeyDiffers(value: string, trim: string -> string)
    requires trim(" K") == "K"
    ensures Env(BatchUpserted([" K=old"], [("K", value)], trim)) != Env(Upserted([" K=old"], "K", EnvLine("K", value)))
  {
    var ls := [" K=old"];
    FirstAtConcat(" K", '=', "old");
    assert " K" + (['='] + "old") == " K=old";
    assert KeyOf(ls[0]) == Some(" K") by { assert " K=old"[..2] == " K"; }
    assert ls[1..] == [] && " K" in Env(ls);
    BatchOfOne(ls, "K", value, trim);
  }

  // ---- Files ----

  /** What reading the file gives. */
  datatype Disk = Text(content: string) | NotFound | Unreadable

  lemma EnvLineNewline(key: string, value: string)
    ensures '\n' in EnvLine(key, value) <==> '\n' in key || '\n' in value
  {
    EscapeKeepsLines(value);
  }

  /** Lines that end in no carriage return are read back exactly when none holds a newline. */
  lemma LinesIntact(ls: seq<string>)
    requires forall i | 0 <= i < |ls| :: StripCr(ls[i]) == ls[i]
    ensures Lines(Unlines(ls)) == ls <==> forall i | 0 <= i < |ls| :: '\n' !in ls[i]
  {
    if forall i | 0 <= i < |ls| :: '\n' !in ls[i] {
      LinesReadBack(ls);
      assert StripAll(ls) == ls;
    }
    if Lines(Unlines(ls)) == ls {
      LinesHoldNoNewline(Unlines(ls));
      forall i | 0 <= i < |ls| ensures '\n' !in ls[i] { assert ls[i] in ls; }
    }
  }

  /** Saved variables are read back line by line exactly when no key and no value holds a newline. */
  lemma SavedLinesIntact(vars: seq<(string, string)>)
    ensures Lines(Unlines(EnvLines(vars))) == EnvLines(vars) <==>
            forall i | 0 <= i < |vars| :: '\n' !in vars[i].0 && '\n' !in vars[i].1
  {
    var ls := EnvLines(vars);
    forall i | 0 <= i < |vars| ensures ('\n' in ls[i] <==> '\n' in vars[i].0 || '\n' in vars[i].1) && StripCr(ls[i]) == ls[i] {
      EnvLinesAt(vars, i);
      EnvLineNewline(vars[i].0, vars[i].1);
      EnvLineEnds(vars[i].0, vars[i].1);
    }
    LinesIntact(ls);
  }

  lemma {:induction false} EnvLinesAt(vars: seq<(string, string)>, i: nat)
    requires i < |vars|
    ensures EnvLines(vars)[i] == EnvLine(vars[i].0, vars[i].1)
  {
    if i > 0 { EnvLinesAt(vars[1..], i - 1); }
  }

  lemma EnvLineEnds(key: string, value: string)
    ensures StripCr(EnvLine(key, value)) == EnvLine(key, value)
  {
    var l := EnvLine(key, value);
    assert l[|l| - 1] == '"';
  }

  function Quoted(value: string): string {
    "\"" + Escape(value) + "\""
  }

  lemma QuotedReadsBack(value: string)
    ensures Quoted(value) != "" && Unquote(Quoted(value)[1..]) == Some((value, ""))
  {
    assert Quoted(value)[1..] == Escape(value) + ("\"" + "");
    EscapeReadsBack(value, "");
  }

  function StripValues(m: map<string, string>): map<string, string> {
    map k | k in m :: StripCr(m[k])
  }

  lemma PrefixKey(line: string, l: string)
    requires l <= line && FirstAt(line, '=') < |l|
    ensures FirstAt(l, '=') == FirstAt(line, '=')
  {
    var i := FirstAt(line, '=');
    assert l[i] == '=' && forall k | 0 <= k < i :: l[k] == line[k];
  }

  lemma StripKeepsKey(line: string)
    ensures KeyOf(StripCr(line)) == KeyOf(line)
    ensures KeyOf(line).Some? ==> RawValue(StripCr(line)) == StripCr(RawValue(line))
  {
    var i, l := FirstAt(line, '='), StripCr(line);
    if i < |line| {
      PrefixKey(line, l);
      StripTail(line, i + 1);
      assert l[..i] == line[..i];
    } else {
      assert forall k | 0 <= k < |l| :: l[k] == line[k];
    }
  }

  lemma StripTail(line: string, i: nat)
    requires 0 < i <= |line| && line[i - 1] != '\r'
    ensures i <= |StripCr(line)| && StripCr(line)[i..] == StripCr(line[i..])
  {
    if i < |line| { assert line[i..][|line| - i - 1] == line[|line| - 1]; }
  }

  lemma {:induction false} StripEnv(ls: seq<string>)
    ensures Env(StripAll(ls)) == StripValues(Env(ls))
  {
    if ls != [] {
      StripEnv(ls[1..]);
      StripKeepsKey(ls[0]);
      assert StripAll(ls)[1..] == StripAll(ls[1..]);
    }
  }

  lemma {:induction false} StripCount(ls: seq<string>, key: string)
    ensures CountKey(StripAll(ls), key) == CountKey(ls, key)
  {
    if ls != [] {
      StripCount(ls[1..], key);
      StripKeepsKey(ls[0]);
      assert StripAll(ls)[1..] == StripAll(ls[1..]);
    }
  }

  lemma {:induction false} UpsertedHoldsNoNewline(ls: seq<string>, key: string, line: string)
    requires (forall l <- ls :: '\n' !in l) && '\n' !in line
    ensures forall l <- Upserted(ls, key, line) :: '\n' !in l
  {
    if ls != [] {
      WithoutHoldsNoNewline(ls[1..], key);
      UpsertedHoldsNoNewline(ls[1..], key, line);
    }
  }

  lemma WithoutHoldsNoNewline(ls: seq<string>, key: string)
    requires forall l <- ls :: '\n' !in l
    ensures forall l <- Without(ls, key) :: '\n' !in l
  {
  }

  /** The file after an upsert, read again: the key holds this value on one line, every other variable is as it was read. */
  lemma UpsertReadsBack(content: string, key: string, value: string, after: seq<string>)
    requires ValidKey(key) && '\n' !in value
    requires after == Lines(Unlines(Upserted(Lines(content), key, EnvLine(key, value))))
    ensures Env(after) == StripValues(Env(Lines(content)))[key := Quoted(value)] && CountKey(after, key) == 1
    ensures Unquote(Quoted(value)[1..]) == Some((value, ""))
  {
    var ls, line := Lines(content), EnvLine(key, value);
    LinesHoldNoNewline(content);
    EnvLineNewline(key, value);
    UpsertedHoldsNoNewline(ls, key, line);
    LinesReadBack(Upserted(ls, key, line));
    EnvLineParts(key, value);
    UpsertRefines(ls, key, line);
    StripEnv(Upserted(ls, key, line));
    StripCount(Upserted(ls, key, line), key);
    QuotedReadsBack(value);
    StripUpdate(Env(ls), key, Quoted(value));
  }

  lemma StripUpdate(m: map<string, string>, key: string, v: string)
    requires StripCr(v) == v
    ensures StripValues(m[key := v]) == StripValues(m)[key := v]
  {
  }

  /** Removing what was just upserted leaves the lines without that key. */
  lemma RemoveAfterUpsert(ls: seq<string>, key: string, value: string)
    ensures Without(Upserted(ls, key, EnvLine(key, value)), key) == Without(ls, key)
  {
    EnvLineOf(key, value);
    UpsertKeepsOthers(ls, key, EnvLine(key, value));
  }

  lemma EnvLineOf(key: string, value: string)
    ensures LineOf(EnvLine(key, value), key)
  {
    assert EnvLine(key, value) == key + "=" + Quoted(value);
  }

  // ---- Which lines stay, whatever is on them ----

  lemma {:induction false} WithoutConcat(a: seq<string>, b: seq<string>, key: string)
    ensures Without(a + b, key) == Without(a, key) + Without(b, key)
  {
    if a == [] {
      assert a + b == b;
    } else {
      WithoutConcat(a[1..], b, key);
      assert (a + b)[0] == a[0] && (a + b)[1..] == a[1..] + b;
    }
  }

  lemma {:induction false} WithoutAllConcat(a: seq<string>, b: seq<string>, keys: set<string>, trim: string -> string)
    ensures WithoutAll(a + b, keys, trim) == WithoutAll(a, keys, trim) + WithoutAll(b, keys, trim)
  {
    if a == [] {
      assert a + b == b;
    } else {
      WithoutAllConcat(a[1..], b, keys, trim);
      assert (a + b)[0] == a[0] && (a + b)[1..] == a[1..] + b;
    }
  }

  /** Removing a key drops exactly the lines that start with the key and `=`; comments and all others stay where they are. */
  lemma WithoutDropsOnly(a: seq<string>, line: string, b: seq<string>, key: string)
    ensures Without([], key) == []
    ensures Without(a + [line] + b, key) == Without(a, key) + (if key + "=" <= line then [] else [line]) + Without(b, key)
  {
    assert [line][1..] == [];
    WithoutConcat(a + [line], b, key);
    WithoutConcat(a, [line], key);
  }

  lemma WithoutAllAt(a: seq<string>, line: string, b: seq<string>, keys: set<string>, trim: string -> string)
    ensures WithoutAll(a + [line] + b, keys, trim) == WithoutAll(a, keys, trim) + WithoutAll([line], keys, trim) + WithoutAll(b, keys, trim)
  {
    WithoutAllConcat(a + [line], b, keys, trim);
    WithoutAllConcat(a, [line], keys, trim);
  }

  /** A batch leaves comments and all other lines without an `=` where they are. */
  lemma BatchKeepsComments(a: seq<string>, line: string, b: seq<string>, keys: set<string>, trim: string -> string)
    requires '=' !in line
    ensures WithoutAll(a + [line] + b, keys, trim) == WithoutAll(a, keys, trim) + [line] + WithoutAll(b, keys, trim)
  {
    WithoutAllAt(a, line, b, keys, trim);
    assert [line][1..] == [];
  }

  /** Of the lines with a key it drops exactly those whose key, trimmed, is written. */
  lemma BatchDropsOnly(a: seq<string>, key: string, rest: string, b: seq<string>, keys: set<string>, trim: string -> string)
    requires '=' !in key
    ensures var line: string := key + ("=" + rest);
            WithoutAll(a + [line] + b, keys, trim) ==
            WithoutAll(a, keys, trim) + (if trim(key) in keys then [] else [line]) + WithoutAll(b, keys, trim)
  {
    var line: string := key + ("=" + rest);
    WithoutAllAt(a, line, b, keys, trim);
    FirstAtConcat(key, '=', rest);
    assert line[..|key|] == key;
    assert [line][1..] == [];
  }

  /** A single upsert writes the new line where the key's first line was, and at the end if there was none. */
  lemma {:induction false} UpsertInPlace(a: seq<string>, rest: seq<string>, key: string, line: string)
    requires forall l <- a :: !LineOf(l, key)
    ensures rest == [] ==> Upserted(a, key, line) == a + [line]
    ensures rest != [] && LineOf(rest[0], key) ==> Upserted(a + rest, key, line) == a + [line] + Without(rest[1..], key)
  {
    if a == [] {
      assert a + rest == rest;
    } else {
      assert a[0] in a && forall l <- a[1..] :: l in a;
      UpsertInPlace(a[1..], rest, key, line);
      assert (a + rest)[0] == a[0] && (a + rest)[1..] == a[1..] + rest;
      assert a == [a[0]] + a[1..];
    }
  }

  /** The loop that copies the lines of all other keys. */
  method KeepOthers(lines: seq<string>, keys: set<string>, trim: string -> string) returns (result: string)
    ensures result == Unlines(WithoutAll(lines, keys, trim))
  {
    result := "";
    ghost var goal := Unlines(WithoutAll(lines, keys, trim));
    assert lines[0..] == lines;
    for i := 0 to |lines|
      invariant result + Unlines(WithoutAll(lines[i..], keys, trim)) == goal
    {
      assert lines[i..][1..] == lines[i + 1..] && lines[i..][0] == lines[i];
      var key := KeyOf(lines[i]);
      if !(key.Some? && trim(key.value) in keys) {
        PushLine(result, lines[i], WithoutAll(lines[i + 1..], keys, trim));
        result := result + lines[i] + "\n";
      }
    }
  }

  /** The loop that writes one line for each variable. */
  method AppendVars(content: string, vars: seq<(string, string)>) returns (result: string)
    ensures result == content + Unlines(EnvLines(vars))
  {
    result := content;
    for i := 0 to |vars|
      invariant result + Unlines(EnvLines(vars[i..])) == content + Unlines(EnvLines(vars))
    {
      PushLine(result, EnvLine(vars[i].0, vars[i].1), EnvLines(vars[i + 1..]));
      assert vars[i..][1..] == vars[i + 1..];
      result := result + EnvLine(vars[i].0, vars[i].1) + "\n";
    }
  }

  class EnvFile {
    var disk: Disk

    /** The lines an edit starts from. */
    function Current(): seq<string>
      reads this
    {
      if disk.Text? then Lines(disk.content) else []
    }

    /** `save_bootstrap_env_to`: replaces the whole file. */
    method Save(vars: seq<(string, string)>)
      modifies this
      ensures disk == Text(Unlines(EnvLines(vars)))
    {
      var content := AppendVars("", vars);
      disk := Text(content);
    }

    /** `upsert_bootstrap_var_to`; a file that cannot be read counts as empty and is replaced. */
    method Upsert(key: string, value: string)
      modifies this
      ensures disk == Text(Unlines(Upserted(old(Current()), key, EnvLine(key, value))))
    {
      var newLine, lines := EnvLine(key, value), Current();
      ghost var goal := Unlines(Upserted(lines, key, newLine));
      var found, result := false, "";
      for i := 0 to |lines|
        invariant result + Unlines(if found then Without(lines[i..], key) else Upserted(lines[i..], key, newLine)) == goal
      {
        var line := lines[i];
        assert lines[i..][1..] == lines[i + 1..] && lines[i..][0] == line;
        ghost var rest := if found || LineOf(line, key) then Without(lines[i + 1..], key) else Upserted(lines[i + 1..], key, newLine);
        if LineOf(line, key) {
          if !found {
            PushLine(result, newLine, rest);
            result := result + newLine + "\n";
            found := true;
          }
        } else {
          PushLine(result, line, rest);
          result := result + line + "\n";
        }
      }
      if !found {
        PushLine(result, newLine, []);
        result := result + newLine + "\n";
      }
      disk := Text(result);
    }

    /** `remove_bootstrap_var_to`: the file is only written when a line was removed. */
    method Remove(key: string) returns (ok: bool)
      modifies this
      ensures ok <==> !old(disk).Unreadable?
      ensures disk == if forall l <- old(Current()) :: !LineOf(l, key) then old(disk) else Text(Unlines(Without(old(Current()), key)))
    {
      if disk.NotFound? { return true; }
      if disk.Unreadable? { return false; }
      var lines := Lines(disk.content);
      ghost var goal := Unlines(Without(lines, key));
      var removed, result := false, "";
      assert lines[0..] == lines;
      for i := 0 to |lines|
        invariant disk == old(disk) && result + Unlines(Without(lines[i..], key)) == goal
        invariant removed <==> exists l <- lines[..i] :: LineOf(l, key)
      {
        assert lines[i..][1..] == lines[i + 1..] && lines[i..][0] == lines[i];
        if LineOf(lines[i], key) {
          removed := true;
        } else {
          PushLine(result, lines[i], Without(lines[i + 1..], key));
          result := result + lines[i] + "\n";
        }
      }
      assert lines[|lines|..] == [] && result + "" == result;
      if removed { disk := Text(result); }
      return true;
    }

    /** `upsert_bootstrap_vars_to`: a file that cannot be read is left alone. */
    method UpsertAll(vars: seq<(string, string)>, trim: string -> string) returns (ok: bool)
      modifies this
      ensures ok <==> !old(disk).Unreadable?
      ensures disk == if ok then Text(Unlines(BatchUpserted(old(Current()), vars, trim))) else old(disk)
    {
      if disk.Unreadable? { return false; }
      var lines := Current();
      var kept := KeepOthers(lines, KeysOf(vars), trim);
      var result := AppendVars(kept, vars);
      UnlinesConcat(WithoutAll(lines, KeysOf(vars), trim), EnvLines(vars));
      disk := Text(result);
      return true;
    }
  }

  lemma PushLine(result: string, line: string, rest: seq<string>)
    ensures result + Unlines([line] + rest) == result + line + "\n" + Unlines(rest)
  {
    UnlinesCons(line, rest);
    assert result + (line + "\n" + Unlines(rest)) == result + line + "\n" + Unlines(rest);
  }
}
