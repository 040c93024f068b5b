/** `canonicalize_json_value`: objects that remember insertion order, rebuilt with sorted keys. */
module CanonicalJson {
  import opened Options
  import opened Sequences
  import opened JsonTree

  datatype Member = Member(key: string, value: Value)
  datatype Value =
    | Null
    | Bool(b: bool)
    | Num(n: Number)
    | Str(s: string)
    | Arr(items: seq<Value>)
    | Obj(members: seq<Member>)

  function Keys(ms: seq<Member>): (ks: seq<string>)
    ensures |ks| == |ms| && forall i | 0 <= i < |ms| :: ks[i] == ms[i].key
  {
    seq(|ms|, i requires 0 <= i < |ms| => ms[i].key)
  }

  predicate Distinct(ks: seq<string>) {
    forall a, b :: 0 <= a < b < |ks| ==> ks[a] != ks[b]
  }

  /** A map never holds one key twice. */
  predicate WellFormed(v: Value) {
    match v
    case Arr(items) => forall i | 0 <= i < |items| :: WellFormed(items[i])
    case Obj(ms) => Distinct(Keys(ms)) && forall i | 0 <= i < |ms| :: WellFormed(ms[i].value)
    case _ => true
  }

  // ---- String order (by code point, which is also UTF-8 byte order) ----

  predicate Less(a: string, b: string) {
    b != "" && (a == "" || a[0] < b[0] || (a[0] == b[0] && Less(a[1..], b[1..])))
  }

  lemma {:induction false} LessTotal(a: string, b: string)
    ensures a == b || Less(a, b) || Less(b, a)
  {
    if a != "" && b != "" && a[0] == b[0] {
      LessTotal(a[1..], b[1..]);
      assert a == [a[0]] + a[1..] && b == [b[0]] + b[1..];
    }
  }

  lemma {:induction false} LessTransitive(a: string, b: string, c: string)
    requires Less(a, b) && Less(b, c)
    ensures Less(a, c)
  {
    if a != "" && a[0] == b[0] == c[0] { LessTransitive(a[1..], b[1..], c[1..]); }
  }

  lemma {:induction false} LessIrreflexive(a: string)
    ensures !Less(a, a)
  {
    if a != "" { LessIrreflexive(a[1..]); }
  }

  /** Insertion of one key before the first larger one. */
  function Insert(k: string, ks: seq<string>): (r: seq<string>)
    ensures multiset(r) == multiset(ks) + multiset{k}
  {
    if ks == [] then [k]
    else if Less(ks[0], k) then
      assert ks == [ks[0]] + ks[1..];
      [ks[0]] + Insert(k, ks[1..])
    else [k] + ks
  }

  function Sort(ks: seq<string>): (r: seq<string>)
    ensures multiset(r) == multiset(ks)
  {
    if ks == [] then [] else
      assert ks == [ks[0]] + ks[1..];
      Insert(ks[0], Sort(ks[1..]))
  }

  /** Strictly ascending: what sorting distinct keys gives. */
  predicate Ascending(ks: seq<string>) {
    forall a, b :: 0 <= a < b < |ks| ==> Less(ks[a], ks[b])
  }

  lemma {:induction false} InsertAscending(k: string, ks: seq<string>)
    requires Ascending(ks) && k !in ks
    ensures Ascending(Insert(k, ks))
  {
    if ks != [] {
      LessTotal(k, ks[0]);
      if Less(ks[0], k) {
        InsertAscending(k, ks[1..]);
        var r := Insert(k, ks[1..]);
        forall x | x in r ensures Less(ks[0], x) {
          assert x in multiset(ks[1..]) + multiset{k};
        }
      } else {
        forall x | x in ks ensures Less(k, x) {
          if x != ks[0] { LessTransitive(k, ks[0], x); }
        }
      }
    }
  }

  lemma {:induction false} SortAscending(ks: seq<string>)
    requires Distinct(ks)
    ensures Ascending(Sort(ks))
  {
    if ks != [] {
      SortAscending(ks[1..]);
      assert ks[0] !in Sort(ks[1..]) by { assert ks[0] !in multiset(ks[1..]); }
      InsertAscending(ks[0], Sort(ks[1..]));
    }
  }

  lemma Inhabited(a: seq<string>)
    ensures a != [] ==> exists k :: k in a
  {
    if a != [] { assert a[0] in a; }
  }

  /** A set of keys has one ascending listing. */
  lemma {:induction false} AscendingUnique(a: seq<string>, b: seq<string>)
    requires Ascending(a) && Ascending(b) && forall k :: k in a <==> k in b
    ensures a == b
  {
    Inhabited(a);
    Inhabited(b);
    if a != [] {
      assert a[0] in b;
      assert b[0] in a;
      if a[0] != b[0] {
        assert Less(b[0], a[0]) && Less(a[0], b[0]);
        LessTransitive(a[0], b[0], a[0]);
        LessIrreflexive(a[0]);
      }
      forall k ensures k in a[1..] <==> k in b[1..] {
        AscendingTail(a, k);
        AscendingTail(b, k);
      }
      AscendingUnique(a[1..], b[1..]);
    }
  }

  lemma AscendingTail(a: seq<string>, k: string)
    requires Ascending(a) && a != []
    ensures k in a[1..] <==> k in a && k != a[0]
  {
    LessIrreflexive(a[0]);
    assert a == [a[0]] + a[1..];
  }

  // ---- Canonical form ----

  /** `obj.get(key)`. */
  function Find(ms: seq<Member>, k: string): (r: Option<Value>)
    ensures r.Some? <==> k in Keys(ms)
    ensures r.Some? ==> exists i | 0 <= i < |ms| :: ms[i] == Member(k, r.value)
  {
    if ms == [] then None
    else if ms[0].key == k then Some(ms[0].value)
    else
      var r := Find(ms[1..], k);
      assert forall i | 0 <= i < |ms| - 1 :: ms[1..][i] == ms[i + 1];
      assert forall i | 1 <= i < |ms| :: Keys(ms)[i] == Keys(ms[1..])[i - 1];
      r
  }

  function Canonical(v: Value): Value
    decreases v, 1, 0
  {
    match v
    case Arr(items) => Value.Arr(CanonicalItems(v, |items|))
    case Obj(ms) => Value.Obj(CanonicalMembers(v, Sort(Keys(ms))))
    case _ => v
  }

  function CanonicalItems(v: Value, n: nat): (r: seq<Value>)
    requires v.Arr? && n <= |v.items|
    ensures |r| == n && forall i | 0 <= i < n :: r[i] == Canonical(v.items[i])
    decreases v, 0, n
  {
    if n == 0 then [] else CanonicalItems(v, n - 1) + [Canonical(v.items[n - 1])]
  }

  /** One member per key, in the order of the keys. */
  function CanonicalMembers(v: Value, ks: seq<string>): (r: seq<Member>)
    requires v.Obj?
    decreases v, 0, |ks|
  {
    if ks == [] then []
    else
      match Find(v.members, ks[0])
      case Some(x) => [Member(ks[0], Canonical(x))] + CanonicalMembers(v, ks[1..])
      case None => CanonicalMembers(v, ks[1..])
  }

  method CanonicalizeJsonValue(value: Value) returns (r: Value)
    ensures r == Canonical(value)
    decreases value, 1
  {
    match value
    case Arr(_) => r := CanonicalizeItems(value);
    case Obj(_) => r := CanonicalizeMembers(value);
    case _ => r := value;
  }

  method CanonicalizeItems(value: Value) returns (r: Value)
    requires value.Arr?
    ensures r == Canonical(value)
    decreases value, 0
  {
    var items, out: seq<Value> := value.items, [];
    for i := 0 to |items|
      invariant |out| == i && forall j | 0 <= j < i :: out[j] == Canonical(items[j])
    {
      var x := CanonicalizeJsonValue(items[i]);
      out := out + [x];
    }
    assert out == CanonicalItems(value, |items|);
    r := Value.Arr(out);
  }

  /** The rest of the members from key `i` on, after what has been rebuilt. */
  lemma MembersFrom(v: Value, keys: seq<string>, i: nat, done: seq<Member>)
    requires v.Obj? && i < |keys|
    ensures done + CanonicalMembers(v, keys[i..]) ==
            match Find(v.members, keys[i])
            case Some(x) => done + [Member(keys[i], Canonical(x))] + CanonicalMembers(v, keys[i + 1..])
            case None => done + CanonicalMembers(v, keys[i + 1..])
  {
    assert keys[i..][0] == keys[i] && keys[i..][1..] == keys[i + 1..];
  }

  /** The members still to come, after `done`, end in `goal`. */
  ghost predicate Leads(v: Value, keys: seq<string>, i: nat, done: seq<Member>, goal: seq<Member>) {
    v.Obj? && i <= |keys| && done + CanonicalMembers(v, keys[i..]) == goal
  }

  lemma LeadsFrom(v: Value, keys: seq<string>)
    requires v.Obj?
    ensures Leads(v, keys, 0, [], CanonicalMembers(v, keys))
  {
    assert keys[0..] == keys;
  }

  lemma LeadsOn(v: Value, keys: seq<string>, i: nat, done: seq<Member>, goal: seq<Member>, next: seq<Member>)
    requires i < |keys| && Leads(v, keys, i, done, goal)
    requires next == done + match Find(v.members, keys[i]) case Some(x) => [Member(keys[i], Canonical(x))] case None => []
    ensures Leads(v, keys, i + 1, next, goal)
  {
    MembersFrom(v, keys, i, done);
    assert done + [] == done;
  }

  lemma LeadsToEnd(v: Value, keys: seq<string>, done: seq<Member>, goal: seq<Member>)
    requires Leads(v, keys, |keys|, done, goal)
    ensures done == goal
  {
    assert keys[|keys|..] == [];
  }

  method CanonicalizeMembers(value: Value) returns (r: Value)
    requires value.Obj?
    ensures r == Canonical(value)
    decreases value, 0
  {
    var keys := Sort(Keys(value.members));
    var canonical: seq<Member> := [];
    ghost var goal := CanonicalMembers(value, keys);
    LeadsFrom(value, keys);
    for i := 0 to |keys|
      invariant Leads(value, keys, i, canonical, goal)
    {
      ghost var before := canonical;
      var found := Find(value.members, keys[i]);
      if found.Some? {
        var x := CanonicalizeJsonValue(found.value);
        canonical := canonical + [Member(keys[i], x)];
      }
      LeadsOn(value, keys, i, before, goal, canonical);
    }
    LeadsToEnd(value, keys, canonical, goal);
    r := Value.Obj(canonical);
  }

  // ---- What the canonical form identifies ----

  /** Equal but for the order of object members, at any depth. */
  predicate SameUpToOrder(a: Value, b: Value)
    decreases a, 1
  {
    match a
    case Arr(items) => b.Arr? && |b.items| == |items| && forall i | 0 <= i < |items| :: SameUpToOrder(items[i], b.items[i])
    case Obj(ms) => b.Obj? && |b.members| == |ms| && forall i | 0 <= i < |ms| :: Matched(ms[i], b.members)
    case _ => a == b
  }

  /** The members hold this key with the same value, up to order. */
  predicate Matched(m: Member, ms: seq<Member>)
    decreases m, 0
  {
    Find(ms, m.key).Some? && SameUpToOrder(m.value, Find(ms, m.key).value)
  }

  lemma {:induction false} FindAt(ms: seq<Member>, i: nat)
    requires Distinct(Keys(ms)) && i < |ms|
    ensures Find(ms, ms[i].key) == Some(ms[i].value)
  {
    if i > 0 {
      assert forall j | 0 <= j < |ms| - 1 :: Keys(ms[1..])[j] == Keys(ms)[j + 1];
      FindAt(ms[1..], i - 1);
      assert Keys(ms)[0] != Keys(ms)[i];
    }
  }

  lemma {:induction false} MembersAt(v: Value, ks: seq<string>, i: nat)
    requires v.Obj? && (forall k <- ks :: k in Keys(v.members)) && i < |ks|
    ensures var r := CanonicalMembers(v, ks);
            |r| == |ks| && Find(v.members, ks[i]).Some? && r[i] == Member(ks[i], Canonical(Find(v.members, ks[i]).value))
    decreases |ks|
  {
    if |ks| > 1 { MembersAt(v, ks[1..], if i == 0 then 0 else i - 1); }
  }

  lemma KeysSorted(v: Value)
    requires v.Obj? && WellFormed(v)
    ensures var ks := Sort(Keys(v.members));
            Ascending(ks) && |ks| == |v.members| && forall k :: k in ks <==> k in Keys(v.members)
  {
    var ks := Sort(Keys(v.members));
    SortAscending(Keys(v.members));
    assert |multiset(ks)| == |ks| && |multiset(Keys(v.members))| == |v.members|;
    forall k ensures k in ks <==> k in Keys(v.members) { assert k in multiset(ks) <==> k in multiset(Keys(v.members)); }
  }

  lemma SortedKeys(v: Value)
    requires v.Obj? && WellFormed(v)
    ensures var ks := Sort(Keys(v.members));
            Ascending(ks) && |ks| == |v.members| && |CanonicalMembers(v, ks)| == |ks| &&
            (forall k :: k in ks <==> k in Keys(v.members)) &&
            forall i | 0 <= i < |ks| :: Find(v.members, ks[i]).Some? && CanonicalMembers(v, ks)[i] == Member(ks[i], Canonical(Find(v.members, ks[i]).value))
  {
    var ks := Sort(Keys(v.members));
    KeysSorted(v);
    forall i | 0 <= i < |ks|
      ensures |CanonicalMembers(v, ks)| == |ks|
      ensures Find(v.members, ks[i]).Some? && CanonicalMembers(v, ks)[i] == Member(ks[i], Canonical(Find(v.members, ks[i]).value))
    {
      MembersAt(v, ks, i);
    }
  }

  /** Equal canonical forms: the values differ only by member order. */
  lemma {:induction false} CanonicalComplete(a: Value, b: Value)
    requires WellFormed(a) && WellFormed(b) && Canonical(a) == Canonical(b)
    ensures SameUpToOrder(a, b)
    decreases a, 1
  {
    match a
    case Arr(items) =>
      forall i | 0 <= i < |items| ensures SameUpToOrder(items[i], b.items[i]) {
        assert Canonical(a).items[i] == Canonical(b).items[i];
        CanonicalComplete(items[i], b.items[i]);
      }
    case Obj(ms) =>
      SortedKeys(a);
      SortedKeys(b);
      assert |ms| == |Canonical(a).members| == |Canonical(b).members| == |b.members|;
      forall i | 0 <= i < |ms| ensures Matched(ms[i], b.members) { CompleteMember(a, b, i); }
    case _ =>
  }

  lemma {:induction false} CompleteMember(a: Value, b: Value, i: nat)
    requires WellFormed(a) && WellFormed(b) && Canonical(a) == Canonical(b) && a.Obj? && b.Obj? && i < |a.members|
    ensures Matched(a.members[i], b.members)
    decreases a, 0
  {
    SortedKeys(a);
    SortedKeys(b);
    var ka, kb := Sort(Keys(a.members)), Sort(Keys(b.members));
    assert Keys(a.members)[i] in ka;
    var n :| 0 <= n < |ka| && ka[n] == a.members[i].key;
    FindAt(a.members, i);
    assert Canonical(a).members[n] == Canonical(b).members[n];
    FindWellFormed(b, kb[n]);
    CanonicalComplete(a.members[i].value, Find(b.members, kb[n]).value);
  }

  lemma FindWellFormed(v: Value, k: string)
    requires WellFormed(v) && v.Obj? && Find(v.members, k).Some?
    ensures WellFormed(Find(v.members, k).value)
  {
    var i :| 0 <= i < |v.members| && v.members[i] == Member(k, Find(v.members, k).value);
  }

  /** As many members, all keys matched: the same keys. */
  lemma MatchedKeys(a: seq<Member>, b: seq<Member>, k: string)
    requires Distinct(Keys(a)) && |a| == |b| && forall i | 0 <= i < |a| :: a[i].key in Keys(b)
    ensures k in Keys(a) <==> k in Keys(b)
  {
    var sa, sb := Elements(Keys(a)), Elements(Keys(b));
    DistinctCount(Keys(a));
    CountBound(Keys(b));
    assert sa <= sb;
    assert |sb - sa| == |sb| - |sa|;
    assert sa == sb;
    assert k in sa <==> k in sb;
  }

  lemma {:induction false} DistinctCount(ks: seq<string>)
    requires Distinct(ks)
    ensures |Elements(ks)| == |ks|
  {
    if ks != [] {
      DistinctCount(ks[1..]);
      assert Elements(ks) == {ks[0]} + Elements(ks[1..]);
    }
  }

  lemma {:induction false} CountBound(ks: seq<string>)
    ensures |Elements(ks)| <= |ks|
  {
    if ks != [] {
      CountBound(ks[1..]);
      assert Elements(ks) == {ks[0]} + Elements(ks[1..]);
    }
  }

  /** Values that differ only by member order have one canonical form. */
  lemma {:induction false} CanonicalSound(a: Value, b: Value)
    requires WellFormed(a) && WellFormed(b) && SameUpToOrder(a, b)
    ensures Canonical(a) == Canonical(b)
    decreases a, 2
  {
    match a
    case Arr(items) => SoundItems(a, b);
    case Obj(ms) => SoundMembers(a, b);
    case _ =>
  }

  lemma {:induction false} SoundItems(a: Value, b: Value)
    requires WellFormed(a) && WellFormed(b) && SameUpToOrder(a, b) && a.Arr?
    ensures Canonical(a) == Canonical(b)
    decreases a, 1
  {
    forall i | 0 <= i < |a.items| ensures Canonical(a.items[i]) == Canonical(b.items[i]) { CanonicalSound(a.items[i], b.items[i]); }
    assert CanonicalItems(a, |a.items|) == CanonicalItems(b, |b.items|);
  }

  lemma {:induction false} SoundMembers(a: Value, b: Value)
    requires WellFormed(a) && WellFormed(b) && SameUpToOrder(a, b) && a.Obj?
    ensures Canonical(a) == Canonical(b)
    decreases a, 1
  {
    SameKeys(a, b);
    forall n | 0 <= n < |a.members|
      ensures n < |Canonical(a).members| && n < |Canonical(b).members| && Canonical(a).members[n] == Canonical(b).members[n]
    {
      SoundMember(a, b, n);
    }
    SortedKeys(a);
    SortedKeys(b);
    assert Canonical(a).members == Canonical(b).members;
  }

  lemma {:induction false} SameKeys(a: Value, b: Value)
    requires WellFormed(a) && WellFormed(b) && SameUpToOrder(a, b) && a.Obj?
    ensures Sort(Keys(a.members)) == Sort(Keys(b.members))
  {
    KeysSorted(a);
    KeysSorted(b);
    forall k ensures k in Keys(a.members) <==> k in Keys(b.members) { SameKey(a, b, k); }
    AscendingUnique(Sort(Keys(a.members)), Sort(Keys(b.members)));
  }

  lemma {:induction false} SameKey(a: Value, b: Value, k: string)
    requires WellFormed(a) && WellFormed(b) && SameUpToOrder(a, b) && a.Obj?
    ensures k in Keys(a.members) <==> k in Keys(b.members)
  {
    assert forall i | 0 <= i < |a.members| :: Matched(a.members[i], b.members);
    MatchedKeys(a.members, b.members, k);
  }

  lemma {:induction false} SoundMember(a: Value, b: Value, n: nat)
    requires WellFormed(a) && WellFormed(b) && SameUpToOrder(a, b) && a.Obj? && n < |a.members|
    requires Sort(Keys(a.members)) == Sort(Keys(b.members))
    ensures n < |Canonical(a).members| && n < |Canonical(b).members| && Canonical(a).members[n] == Canonical(b).members[n]
    decreases a, 0
  {
    SortedKeys(a);
    SortedKeys(b);
    var ks := Sort(Keys(a.members));
    assert ks[n] in Keys(a.members);
    var i :| 0 <= i < |a.members| && Keys(a.members)[i] == ks[n];
    assert Matched(a.members[i], b.members);
    FindAt(a.members, i);
    FindWellFormed(b, ks[n]);
    CanonicalSound(a.members[i].value, Find(b.members, ks[n]).value);
  }

  /** Two values have the same canonical form exactly when they differ only by member order. */
  lemma CanonicalExact(a: Value, b: Value)
    requires WellFormed(a) && WellFormed(b)
    ensures Canonical(a) == Canonical(b) <==> SameUpToOrder(a, b)
  {
    if Canonical(a) == Canonical(b) { CanonicalComplete(a, b); }
    if SameUpToOrder(a, b) { CanonicalSound(a, b); }
  }

  /** The canonical form is itself one of the values it stands for. */
  lemma {:induction false} CanonicalIsSame(v: Value)
    requires WellFormed(v)
    ensures WellFormed(Canonical(v)) && SameUpToOrder(v, Canonical(v))
    decreases v
  {
    match v
    case Arr(items) => forall i | 0 <= i < |items| { CanonicalIsSame(items[i]); }
    case Obj(ms) =>
      forall i | 0 <= i < |ms| ensures WellFormed(Canonical(ms[i].value)) && SameUpToOrder(ms[i].value, Canonical(ms[i].value)) {
        CanonicalIsSame(ms[i].value);
      }
      CanonicalWellFormed(v);
      forall i | 0 <= i < |ms| ensures Matched(ms[i], Canonical(v).members) { CanonicalHolds(v, i); }
      SortedKeys(v);
    case _ =>
  }

  lemma CanonicalWellFormed(v: Value)
    requires v.Obj? && WellFormed(v) && forall i | 0 <= i < |v.members| :: WellFormed(Canonical(v.members[i].value))
    ensures WellFormed(Canonical(v)) && Keys(Canonical(v).members) == Sort(Keys(v.members))
  {
    SortedKeys(v);
    var c, ks := Canonical(v), Sort(Keys(v.members));
    assert Keys(c.members) == ks;
    forall a, b | 0 <= a < b < |ks| ensures ks[a] != ks[b] { LessIrreflexive(ks[a]); }
    forall n | 0 <= n < |ks| ensures WellFormed(c.members[n].value) {
      var i :| 0 <= i < |v.members| && v.members[i] == Member(ks[n], Find(v.members, ks[n]).value);
    }
  }

  lemma CanonicalHolds(v: Value, i: nat)
    requires v.Obj? && WellFormed(v) && i < |v.members| && WellFormed(Canonical(v))
    requires SameUpToOrder(v.members[i].value, Canonical(v.members[i].value))
    ensures Matched(v.members[i], Canonical(v).members)
  {
    SortedKeys(v);
    var ks := Sort(Keys(v.members));
    assert Keys(v.members)[i] in ks;
    var n :| 0 <= n < |ks| && ks[n] == v.members[i].key;
    FindAt(v.members, i);
    FindAt(Canonical(v).members, n);
  }

  lemma CanonicalIdempotent(v: Value)
    requires WellFormed(v)
    ensures Canonical(Canonical(v)) == Canonical(v)
  {
    CanonicalIsSame(v);
    CanonicalSound(v, Canonical(v));
  }
}
