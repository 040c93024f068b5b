/** `from_db_map(to_db_map(s))`: exactly which settings survive it, in every iteration order. */
module SettingsRoundTrip {
  import opened Options
  import opened Sequences
  import opened JsonTree
  import opened SettingsSchema
  import opened SettingsPaths
  import opened SettingsStore

  // ---- Flattened paths as lists of pieces ----

  /** The leaves with their paths split again at the dots, which is how `set` sees them. */
  ghost function SplitLeaves(j: Json): set<Entry> {
    match j
    case Obj(m) => set k, e | k in m && e in SplitLeaves(m[k]) :: (Split(k) + e.0, e.1)
    case _ => {([], j)}
  }

  /** Each stored path splits into the pieces of the prefix followed by the pieces below it. */
  lemma {:induction false} LeafSplits(j: Json, prefix: string, e: (string, Json)) returns (f: Entry)
    requires prefix != "" && e in Leaves(j, prefix)
    ensures f in SplitLeaves(j) && Split(e.0) == Split(prefix) + f.0 && f.1 == e.1
    decreases j
  {
    match j
    case Obj(m) =>
      var k :| k in m && e in Leaves(m[k], ExtendPath(prefix, k));
      var g := LeafSplits(m[k], ExtendPath(prefix, k), e);
      SplitAtDot(prefix, k);
      f := (Split(k) + g.0, g.1);
      Regroup(Split(prefix), Split(k), g.0);
    case _ =>
      f := ([], j);
  }

  lemma {:induction false} LeafJoins(j: Json, prefix: string, f: Entry) returns (e: (string, Json))
    requires prefix != "" && f in SplitLeaves(j)
    ensures e in Leaves(j, prefix) && Split(e.0) == Split(prefix) + f.0 && f.1 == e.1
    decreases j
  {
    match j
    case Obj(m) =>
      var k, g :| k in m && g in SplitLeaves(m[k]) && f == (Split(k) + g.0, g.1);
      e := LeafJoins(m[k], ExtendPath(prefix, k), g);
      SplitAtDot(prefix, k);
      Regroup(Split(prefix), Split(k), g.0);
    case _ =>
      e := (prefix, j);
  }

  // ---- Entries below one key ----

  function Below(es: seq<Entry>, k: string): (r: seq<Entry>) {
    if es == [] then []
    else if es[0].0 != [] && es[0].0[0] == k then [(es[0].0[1..], es[0].1)] + Below(es[1..], k)
    else Below(es[1..], k)
  }

  ghost function BelowSet(es: set<Entry>, k: string): set<Entry> {
    set e | e in es && e.0 != [] && e.0[0] == k :: (e.0[1..], e.1)
  }

  predicate Covers(es: seq<Entry>, path: seq<string>) {
    exists i | 0 <= i < |es| :: es[i].0 == path
  }

  predicate DistinctPaths(es: seq<Entry>) {
    forall a, b :: 0 <= a < b < |es| ==> es[a].0 != es[b].0
  }

  /** `es` lists `leaves` once per path, in some order; a path with several values appears with one of them. */
  ghost predicate Lists(es: seq<Entry>, leaves: set<Entry>) {
    && (forall e <- es :: e in leaves)
    && (forall e <- leaves :: Covers(es, e.0))
    && DistinctPaths(es)
  }

  lemma {:induction false} BelowMembers(es: seq<Entry>, k: string, x: Entry)
    ensures x in Below(es, k) <==> ([k] + x.0, x.1) in es
  {
    if es != [] {
      BelowMembers(es[1..], k, x);
      assert es == [es[0]] + es[1..];
      if es[0].0 != [] && es[0].0[0] == k {
        assert [k] + es[0].0[1..] == es[0].0;
        assert ([k] + x.0)[1..] == x.0;
      } else {
        assert ([k] + x.0, x.1) != es[0];
      }
    }
  }

  lemma {:induction false} BelowDistinct(es: seq<Entry>, k: string)
    requires DistinctPaths(es)
    ensures DistinctPaths(Below(es, k))
  {
    if es != [] {
      BelowDistinct(es[1..], k);
      if es[0].0 != [] && es[0].0[0] == k {
        assert [k] + es[0].0[1..] == es[0].0;
        forall x | x in Below(es[1..], k) ensures x.0 != es[0].0[1..] { BelowMembers(es[1..], k, x); }
      }
    }
  }

  lemma BelowListed(es: seq<Entry>, leaves: set<Entry>, k: string, x: Entry)
    requires (forall e <- es :: e in leaves) && x in Below(es, k)
    ensures x in BelowSet(leaves, k)
  {
    BelowMembers(es, k, x);
    var e := ([k] + x.0, x.1);
    assert e in leaves && e.0[1..] == x.0;
  }

  lemma BelowCovers(es: seq<Entry>, leaves: set<Entry>, k: string, x: Entry)
    requires (forall e <- leaves :: Covers(es, e.0)) && x in BelowSet(leaves, k)
    ensures Covers(Below(es, k), x.0)
  {
    var e :| e in leaves && e.0 != [] && e.0[0] == k && x == (e.0[1..], e.1);
    assert Covers(es, e.0);
    var i :| 0 <= i < |es| && es[i].0 == e.0;
    assert [k] + x.0 == es[i].0;
    BelowMembers(es, k, (x.0, es[i].1));
  }

  lemma BelowLists(es: seq<Entry>, leaves: set<Entry>, k: string)
    requires Lists(es, leaves)
    ensures Lists(Below(es, k), BelowSet(leaves, k))
  {
    BelowDistinct(es, k);
    forall x | x in Below(es, k) ensures x in BelowSet(leaves, k) { BelowListed(es, leaves, k, x); }
    forall x | x in BelowSet(leaves, k) ensures Covers(Below(es, k), x.0) { BelowCovers(es, leaves, k, x); }
  }

  /** An object with dot-free keys splits cleanly into its fields. */
  lemma LeavesBelowKey(m: map<string, Json>, k: string)
    requires forall l <- m :: DotFree(l)
    ensures BelowSet(SplitLeaves(Obj(m)), k) == if k in m then SplitLeaves(m[k]) else {}
  {
    forall l | l in m ensures Split(l) == [l] { SplitDotFree(l); }
    var s := SplitLeaves(Obj(m));
    forall x | x in BelowSet(s, k) ensures k in m && x in SplitLeaves(m[k]) {
      var e :| e in s && e.0 != [] && e.0[0] == k && x == (e.0[1..], e.1);
      var l, f :| l in m && f in SplitLeaves(m[l]) && e == (Split(l) + f.0, f.1);
      assert e.0[1..] == f.0;
    }
    if k in m {
      forall x | x in SplitLeaves(m[k]) ensures x in BelowSet(s, k) {
        var e := (Split(k) + x.0, x.1);
        assert e in s && e.0[1..] == x.0;
      }
    }
  }

  // ---- Replay, one key at a time ----

  /** Replaying entries below an object replays, in each field, the entries below that field. */
  lemma {:induction false} ReplayBelow(c: Codec, sch: Schema, m: map<string, Json>, es: seq<Entry>, k: string)
    requires WellFormed(sch) && Conforms(sch, Obj(m)) && forall e <- es :: e.0 != []
    ensures var r := Replay(c, sch, Some(Obj(m)), es);
            r.Some? && r.value.Obj? &&
            match ChildSchema(sch, k)
            case None => k !in r.value.fields
            case Some(child) =>
              && WellFormed(child) && SlotConforms(child, Lookup(m, k))
              && Lookup(r.value.fields, k) == Replay(c, child, Lookup(m, k), Below(es, k))
    decreases |es|
  {
    ChildConforms(sch, Obj(m), k);
    if es != [] {
      var e := es[0];
      var next := ApplyEntry(c, sch, Some(Obj(m)), e);
      if !e.1.Null? {
        if ChildSchema(sch, e.0[0]).Some? {
          ApplyBelow(c, sch, m, e.0, Text(c, e.1));
        } else {
          ApplyUnknown(c, sch, Some(Obj(m)), e.0, Text(c, e.1));
        }
      }
      assert next.value.Obj?;
      ReplayBelow(c, sch, next.value.fields, es[1..], k);
      if ChildSchema(sch, k).Some? { ReplayStep(c, sch, m, es, k); }
    }
  }

  lemma ReplayStep(c: Codec, sch: Schema, m: map<string, Json>, es: seq<Entry>, k: string)
    requires WellFormed(sch) && Conforms(sch, Obj(m)) && es != [] && es[0].0 != []
    requires ChildSchema(sch, k).Some?
    ensures var next, child := ApplyEntry(c, sch, Some(Obj(m)), es[0]), ChildSchema(sch, k).value;
            WellFormed(child) && SlotConforms(child, Lookup(m, k)) && next.value.Obj? &&
            SlotConforms(child, Lookup(next.value.fields, k)) &&
            Replay(c, child, Lookup(m, k), Below(es, k)) ==
            Replay(c, child, Lookup(next.value.fields, k), Below(es[1..], k))
  {
    EntryBelow(c, sch, m, es[0], k);
    if es[0].0[0] == k { assert Below(es, k)[1..] == Below(es[1..], k); }
  }

  /** One entry changes the slot of its first key and no other. */
  lemma EntryBelow(c: Codec, sch: Schema, m: map<string, Json>, e: Entry, k: string)
    requires WellFormed(sch) && Conforms(sch, Obj(m)) && e.0 != [] && ChildSchema(sch, k).Some?
    ensures var next, child := ApplyEntry(c, sch, Some(Obj(m)), e), ChildSchema(sch, k).value;
            WellFormed(child) && SlotConforms(child, Lookup(m, k)) && next.value.Obj? &&
            Lookup(next.value.fields, k) == if e.0[0] == k then ApplyEntry(c, child, Lookup(m, k), (e.0[1..], e.1)) else Lookup(m, k)
  {
    ChildConforms(sch, Obj(m), k);
    if !e.1.Null? {
      if ChildSchema(sch, e.0[0]).Some? {
        ApplyBelow(c, sch, m, e.0, Text(c, e.1));
      } else {
        ApplyUnknown(c, sch, Some(Obj(m)), e.0, Text(c, e.1));
      }
    }
  }

  // ---- The slot theorem ----

  /**
   * The settings that survive: nulls only over null defaults, values of the default's kind, no text that
   * reads as JSON over a null or missing value, no object there either, and no dot in a map key.
   */
  predicate Restorable(c: Codec, sch: Schema, s: Json)
    requires Conforms(sch, s)
  {
    match sch
    case Leaf(_, def) => if s.Null? then def.Null? else Keeps(c, Some(def), s)
    case Struct(fields, _) => forall k | k in fields :: Restorable(c, fields[k], s.fields[k])
    case Opt(_) => !s.Obj? && Keeps(c, Some(Null), s)
    case Dict(_) => forall k | k in s.fields :: DotFree(k) && !s.fields[k].Obj? && Keeps(c, None, s.fields[k])
  }

  /** Paths into a slot that holds no object are refused one after the other. */
  lemma {:induction false} ReplayStuck(c: Codec, sch: Schema, slot: Option<Json>, es: seq<Entry>)
    requires WellFormed(sch) && SlotConforms(sch, slot) && (slot.None? || !slot.value.Obj?)
    requires forall e <- es :: e.0 != []
    ensures Replay(c, sch, slot, es) == slot
    decreases |es|
  {
    if es != [] { ReplayStuck(c, sch, slot, es[1..]); }
  }

  lemma OneLeaf(es: seq<Entry>, v: Json)
    requires !v.Obj? && Lists(es, SplitLeaves(v))
    ensures es == [([], v)]
  {
    assert ([], v) in SplitLeaves(v);
    assert Covers(es, []);
    assert es[0] in SplitLeaves(v) && es[|es| - 1] in SplitLeaves(v);
  }

  /** A stored scalar or list comes back exactly when the slot keeps its printed form. */
  lemma ScalarRestored(c: Codec, sch: Schema, slot: Option<Json>, v: Json, es: seq<Entry>)
    requires ValidCodec(c) && WellFormed(sch) && SlotConforms(sch, slot) && Conforms(sch, v) && !v.Obj?
    requires Lists(es, SplitLeaves(v))
    ensures Replay(c, sch, slot, es) == Some(v) <==> if v.Null? then slot == Some(Null) else Keeps(c, slot, v)
  {
    OneLeaf(es, v);
    assert Replay(c, sch, slot, es) == ApplyEntry(c, sch, slot, es[0]) by { assert es[1..] == []; }
    InferKeeps(c, slot, v);
    var w := Infer(c, slot, Text(c, v));
    if w.Some? && Deserialize(sch, w.value).Some? { DeserializeScalar(sch, w.value); }
  }

  lemma SplitLeavesBelow(j: Json, e: Entry)
    requires e in SplitLeaves(j)
    ensures j.Obj? ==> e.0 != []
    ensures j.Obj? ==> DotFree(e.0[0])
  {
  }

  lemma {:induction false} BelowNothing(es: seq<Entry>, k: string)
    requires forall e <- es :: e.0 != [] && e.0[0] != k
    ensures Below(es, k) == []
  {
    if es != [] { BelowNothing(es[1..], k); }
  }

  lemma MapFieldRestored(c: Codec, elem: Schema, m: map<string, Json>, es: seq<Entry>, k: string)
    requires ValidCodec(c) && WellFormed(Dict(elem)) && Conforms(Dict(elem), Obj(m))
    requires Lists(es, SplitLeaves(Obj(m))) && forall l <- m :: DotFree(l)
    ensures Replay(c, elem, None, Below(es, k)) == Lookup(m, k) <==>
            (k in m ==> !m[k].Obj? && Keeps(c, None, m[k]))
  {
    BelowLists(es, SplitLeaves(Obj(m)), k);
    LeavesBelowKey(m, k);
    if k !in m {
      assert forall e | e in Below(es, k) :: e in BelowSet(SplitLeaves(Obj(m)), k);
    } else if m[k].Obj? {
      forall e | e in Below(es, k) ensures e.0 != [] { SplitLeavesBelow(m[k], e); }
      ReplayStuck(c, elem, None, Below(es, k));
    } else {
      ScalarRestored(c, elem, None, m[k], Below(es, k));
    }
  }

  /** One slot, from its default: what is replayed is what was flattened, exactly for restorable settings. */
  lemma {:induction false} SlotRoundTrip(c: Codec, sch: Schema, s: Json, es: seq<Entry>)
    requires ValidCodec(c) && WellFormed(sch) && Conforms(sch, s)
    requires Lists(es, SplitLeaves(s))
    ensures Conforms(sch, Default(sch))
    ensures Replay(c, sch, Some(Default(sch)), es) == Some(s) <==> Restorable(c, sch, s)
    decreases sch, 2
  {
    DefaultConforms(sch);
    match sch
    case Leaf(_, def) => ScalarRestored(c, sch, Some(def), s, es);
    case Opt(_) =>
      if s.Obj? {
        forall e | e in es ensures e.0 != [] { SplitLeavesBelow(s, e); }
        ReplayStuck(c, sch, Some(Null), es);
      } else {
        ScalarRestored(c, sch, Some(Null), s, es);
      }
    case Struct(fields, _) =>
      StructRoundTrip(c, sch, s, es);
    case Dict(elem) =>
      DictRoundTrip(c, elem, s.fields, es);
  }

  lemma {:induction false} StructFieldRestored(c: Codec, sch: Schema, s: Json, es: seq<Entry>, k: string)
    requires ValidCodec(c) && sch.Struct? && WellFormed(sch) && Conforms(sch, s) && Conforms(sch, Default(sch))
    requires Lists(es, SplitLeaves(s)) && k in sch.fields
    ensures var r := Replay(c, sch, Some(Default(sch)), es);
            r.Some? && r.value.Obj? && k in r.value.fields &&
            (r.value.fields[k] == s.fields[k] <==> Restorable(c, sch.fields[k], s.fields[k]))
    decreases sch, 0
  {
    forall e | e in es ensures e.0 != [] { SplitLeavesBelow(s, e); }
    ReplayBelow(c, sch, Default(sch).fields, es, k);
    BelowLists(es, SplitLeaves(s), k);
    LeavesBelowKey(s.fields, k);
    SlotRoundTrip(c, sch.fields[k], s.fields[k], Below(es, k));
  }

  lemma {:induction false} StructRoundTrip(c: Codec, sch: Schema, s: Json, es: seq<Entry>)
    requires ValidCodec(c) && sch.Struct? && WellFormed(sch) && Conforms(sch, s)
    requires Lists(es, SplitLeaves(s))
    ensures Conforms(sch, Default(sch))
    ensures Replay(c, sch, Some(Default(sch)), es) == Some(s) <==> Restorable(c, sch, s)
    decreases sch, 1
  {
    DefaultConforms(sch);
    var r := Replay(c, sch, Some(Default(sch)), es).value;
    forall k | k in sch.fields
      ensures r.Obj? && k in r.fields && (r.fields[k] == s.fields[k] <==> Restorable(c, sch.fields[k], s.fields[k]))
    {
      StructFieldRestored(c, sch, s, es, k);
    }
    assert r.Obj? && r.fields.Keys == s.fields.Keys;
    assert r == s <==> r.fields == s.fields;
  }

  lemma DictRoundTrip(c: Codec, elem: Schema, m: map<string, Json>, es: seq<Entry>)
    requires ValidCodec(c) && WellFormed(Dict(elem)) && Conforms(Dict(elem), Obj(m))
    requires Lists(es, SplitLeaves(Obj(m)))
    ensures Replay(c, Dict(elem), Some(Obj(map[])), es) == Some(Obj(m)) <==> Restorable(c, Dict(elem), Obj(m))
  {
    var sch := Dict(elem);
    forall e | e in es ensures e.0 != [] && DotFree(e.0[0]) { SplitLeavesBelow(Obj(m), e); }
    var r := Replay(c, sch, Some(Obj(map[])), es);
    ReplayBelow(c, sch, map[], es, "");
    forall k ensures Lookup(r.value.fields, k) == Replay(c, elem, None, Below(es, k)) {
      ReplayBelow(c, sch, map[], es, k);
    }
    SameLookups(r.value.fields, m);
    if k :| k in m && !DotFree(k) {
      BelowNothing(es, k);
      assert Lookup(r.value.fields, k) != Lookup(m, k);
    } else {
      forall k ensures Lookup(r.value.fields, k) == Lookup(m, k) <==> (k in m ==> !m[k].Obj? && Keeps(c, None, m[k])) {
        MapFieldRestored(c, elem, m, es, k);
      }
    }
  }

  // ---- The whole settings ----

  /** The leaves of the settings without the owner. */
  ghost function Stored(s: Json): set<Entry> {
    set e | e in SplitLeaves(s) && e.0 != [OWNER]
  }

  lemma StoredKey(s: Json, e: (string, Json))
    requires s.Obj? && "" !in s.fields && e in Leaves(s, "") && e.0 != OWNER
    ensures (Split(e.0), e.1) in Stored(s)
  {
    var k :| k in s.fields && e in Leaves(s.fields[k], ExtendPath("", k));
    var f := LeafSplits(s.fields[k], k, e);
    SplitDotFree(OWNER);
    if Split(e.0) == Split(OWNER) { SplitInjective(e.0, OWNER); }
  }

  lemma StoredPath(s: Json, f: Entry) returns (p: string)
    requires s.Obj? && "" !in s.fields && f in SplitLeaves(s)
    ensures (p, f.1) in Leaves(s, "") && Split(p) == f.0
  {
    var k, g :| k in s.fields && g in SplitLeaves(s.fields[k]) && f == (Split(k) + g.0, g.1);
    var e := LeafJoins(s.fields[k], k, g);
    p := e.0;
    assert ExtendPath("", k) == k;
    assert e in Leaves(s.fields[k], ExtendPath("", k));
  }

  lemma {:induction false} EntriesAt(m: map<string, Json>, order: seq<string>, i: nat)
    requires (forall k <- order :: k in m && k != OWNER) && i < |order|
    ensures |Entries(m, order)| == |order| && Entries(m, order)[i] == (Split(order[i]), m[order[i]])
  {
    var rest := order[1..];
    assert order[0] in order && order[i] in order;
    assert Entries(m, order) == [(Split(order[0]), m[order[0]])] + Entries(m, rest);
    if rest == [] {
      assert Entries(m, rest) == [];
    } else {
      EntriesAt(m, rest, if i > 0 then i - 1 else 0);
      assert i > 0 ==> rest[i - 1] == order[i];
    }
  }

  lemma EntriesDistinct(m: map<string, Json>, order: seq<string>)
    requires Iterates(order, m) && forall k <- order :: k in m && k != OWNER
    ensures DistinctPaths(Entries(m, order))
  {
    forall a, b | 0 <= a < b < |Entries(m, order)| ensures Entries(m, order)[a].0 != Entries(m, order)[b].0 {
      if order != [] { EntriesAt(m, order, 0); }
      EntriesAt(m, order, a);
      EntriesAt(m, order, b);
      if Split(order[a]) == Split(order[b]) { SplitInjective(order[a], order[b]); }
    }
  }

  lemma StoredInMap(s: Json, m: map<string, Json>, e: Entry) returns (p: string)
    requires s.Obj? && "" !in s.fields && IsDbMap(m, s) && e in Stored(s)
    ensures p in m && Split(p) == e.0
  {
    p := StoredPath(s, e);
    SplitDotFree(OWNER);
    assert p in Paths(Leaves(s, ""));
  }

  lemma EntriesCover(m: map<string, Json>, order: seq<string>, p: string)
    requires (forall k <- order :: k in m && k != OWNER) && p in order
    ensures Covers(Entries(m, order), Split(p))
  {
    var i :| 0 <= i < |order| && order[i] == p;
    EntriesAt(m, order, i);
  }

  /** Whatever the hash map's order, its entries list the stored leaves. */
  lemma EntriesListLeaves(s: Json, m: map<string, Json>, order: seq<string>)
    requires s.Obj? && "" !in s.fields && IsDbMap(m, s) && Iterates(order, m)
    ensures forall k <- order :: k in m
    ensures Lists(Entries(m, order), Stored(s))
  {
    assert forall k <- order :: k in Elements(order);
    EntriesDistinct(m, order);
    var es := Entries(m, order);
    forall e | e in es ensures e in Stored(s) {
      if order != [] { EntriesAt(m, order, 0); }
      var i :| 0 <= i < |es| && e == es[i];
      EntriesAt(m, order, i);
      StoredKey(s, (order[i], m[order[i]]));
    }
    forall e | e in Stored(s) ensures Covers(es, e.0) {
      var p := StoredInMap(s, m, e);
      assert p in Elements(order);
      EntriesCover(m, order, p);
    }
  }

  /** The entries without the owner, seen from each other field. */
  lemma StoredBelow(s: Json, k: string)
    requires s.Obj? && (forall l <- s.fields :: DotFree(l)) && k in s.fields && k != OWNER
    ensures BelowSet(Stored(s), k) == SplitLeaves(s.fields[k])
  {
    LeavesBelowKey(s.fields, k);
    assert BelowSet(Stored(s), k) == BelowSet(SplitLeaves(s), k);
  }

  lemma OwnerNotStored(s: Json, e: Entry)
    requires s.Obj? && (forall l <- s.fields :: DotFree(l)) && OWNER in s.fields && !s.fields[OWNER].Obj?
    requires e in Stored(s)
    ensures e.0 != [] && e.0[0] != OWNER
  {
    var k, f :| k in s.fields && f in SplitLeaves(s.fields[k]) && e == (Split(k) + f.0, f.1);
    SplitDotFree(k);
    assert k == OWNER ==> e.0 == [OWNER];
  }

  /** `Settings`: a struct whose `owner_id` is optional text. */
  ghost predicate SettingsType(sch: Schema) {
    sch.Struct? && WellFormed(sch) && OWNER in sch.fields && sch.fields[OWNER].Leaf? && sch.fields[OWNER].def.Null?
  }

  /** The settings with the owner forgotten. */
  function WithoutOwner(s: Json): Json
    requires s.Obj?
  {
    Obj(s.fields[OWNER := Null])
  }

  lemma SettingsFieldRestored(c: Codec, sch: Schema, s: Json, es: seq<Entry>, k: string)
    requires ValidCodec(c) && sch.Struct? && WellFormed(sch) && Conforms(sch, s) && Conforms(sch, Default(sch))
    requires Lists(es, Stored(s)) && k in s.fields && k != OWNER && forall l <- s.fields :: DotFree(l)
    ensures var r := Replay(c, sch, Some(Default(sch)), es);
            r.Some? && r.value.Obj? && k in r.value.fields &&
            (r.value.fields[k] == s.fields[k] <==> Restorable(c, sch.fields[k], s.fields[k]))
  {
    forall e | e in es ensures e.0 != [] { SplitLeavesBelow(s, e); }
    ReplayBelow(c, sch, Default(sch).fields, es, k);
    BelowLists(es, Stored(s), k);
    StoredBelow(s, k);
    SlotRoundTrip(c, sch.fields[k], s.fields[k], Below(es, k));
  }

  lemma OwnerForgotten(c: Codec, sch: Schema, s: Json, es: seq<Entry>)
    requires SettingsType(sch) && Conforms(sch, s) && Conforms(sch, Default(sch))
    requires (forall e <- es :: e in Stored(s)) && !s.fields[OWNER].Obj?
    ensures var r := Replay(c, sch, Some(Default(sch)), es);
            r.Some? && r.value.Obj? && OWNER in r.value.fields && r.value.fields[OWNER] == Null
  {
    forall e | e in es ensures e.0 != [] && e.0[0] != OWNER { OwnerNotStored(s, e); }
    BelowNothing(es, OWNER);
    ReplayBelow(c, sch, Default(sch).fields, es, OWNER);
  }

  lemma SettingsKeys(sch: Schema, s: Json)
    requires SettingsType(sch) && Conforms(sch, s)
    ensures "" !in s.fields && (forall l <- s.fields :: DotFree(l)) && !s.fields[OWNER].Obj?
    ensures Conforms(sch, Default(sch))
  {
    DefaultConforms(sch);
    assert WellFormed(sch.fields[OWNER]) && Conforms(sch.fields[OWNER], s.fields[OWNER]);
    assert sch.fields[OWNER].accepts(s.fields[OWNER]);
  }

  /** What loading leaves in each field. */
  lemma FieldsRestored(c: Codec, sch: Schema, s: Json, es: seq<Entry>, r: Json)
    requires ValidCodec(c) && SettingsType(sch) && Conforms(sch, s) && Conforms(sch, Default(sch))
    requires Lists(es, Stored(s)) && !s.fields[OWNER].Obj? && forall l <- s.fields :: DotFree(l)
    requires Replay(c, sch, Some(Default(sch)), es) == Some(r)
    ensures r.Obj? && r.fields.Keys == sch.fields.Keys && r.fields[OWNER] == Null
    ensures forall k | k in sch.fields && k != OWNER :: r.fields[k] == s.fields[k] <==> Restorable(c, sch.fields[k], s.fields[k])
  {
    assert Conforms(sch, r);
    OwnerForgotten(c, sch, s, es);
    forall k | k in sch.fields && k != OWNER ensures r.fields[k] == s.fields[k] <==> Restorable(c, sch.fields[k], s.fields[k]) {
      SettingsFieldRestored(c, sch, s, es, k);
    }
  }

  lemma SettingsRestored(c: Codec, sch: Schema, s: Json, es: seq<Entry>)
    requires ValidCodec(c) && SettingsType(sch) && Conforms(sch, s) && Conforms(sch, Default(sch))
    requires Lists(es, Stored(s)) && !s.fields[OWNER].Obj? && forall l <- s.fields :: DotFree(l)
    ensures Replay(c, sch, Some(Default(sch)), es) == Some(WithoutOwner(s)) <==>
            forall k | k in sch.fields && k != OWNER :: Restorable(c, sch.fields[k], s.fields[k])
  {
    var r := Replay(c, sch, Some(Default(sch)), es).value;
    FieldsRestored(c, sch, s, es, r);
    SameButOwner(r.fields, WithoutOwner(s).fields);
    assert forall k | k in sch.fields && k != OWNER :: WithoutOwner(s).fields[k] == s.fields[k];
  }

  lemma SameButOwner(a: map<string, Json>, b: map<string, Json>)
    requires a.Keys == b.Keys && OWNER in a && a[OWNER] == b[OWNER]
    ensures a == b <==> forall k | k in a && k != OWNER :: a[k] == b[k]
  {
  }

  /**
   * The round trip: for every settings value, every map `to_db_map` may return for it and every order in
   * which the hash map iterates, `from_db_map` gives the settings back (owner forgotten) if and only if
   * every field is restorable.
   */
  lemma RoundTrip(c: Codec, sch: Schema, s: Json, m: map<string, Json>, order: seq<string>)
    requires ValidCodec(c) && SettingsType(sch) && Conforms(sch, s)
    requires IsDbMap(m, s) && Iterates(order, m)
    ensures forall k <- order :: k in m
    ensures Rebuilt(c, sch, m, order) == WithoutOwner(s) <==>
            forall k | k in sch.fields && k != OWNER :: Restorable(c, sch.fields[k], s.fields[k])
  {
    SettingsKeys(sch, s);
    EntriesListLeaves(s, m, order);
    SettingsRestored(c, sch, s, Entries(m, order));
  }

  // ---- Any order ----

  predicate PairwiseApart(es: seq<Entry>) {
    forall a, b :: 0 <= a < b < |es| ==> !Comparable(es[a].0, es[b].0)
  }

  /** An entry apart from all before it may as well come first. */
  lemma {:induction false} MoveToFront(c: Codec, sch: Schema, slot: Option<Json>, before: seq<Entry>, e: Entry, after: seq<Entry>)
    requires WellFormed(sch) && SlotConforms(sch, slot)
    requires forall f <- before :: !Comparable(f.0, e.0)
    ensures Replay(c, sch, slot, before + [e] + after) == Replay(c, sch, slot, [e] + before + after)
    decreases |before|
  {
    if before == [] {
      assert before + [e] + after == [e] + before + after;
    } else {
      var f := before[0];
      var slot' := ApplyEntry(c, sch, slot, f);
      assert (before + [e] + after)[1..] == before[1..] + [e] + after;
      MoveToFront(c, sch, slot', before[1..], e, after);
      assert ([e] + before + after)[1..] == before + after && (before + after)[1..] == before[1..] + after;
      assert ([e] + before[1..] + after)[1..] == before[1..] + after;
      if !e.1.Null? && !f.1.Null? { SetsCommute(c, sch, slot, f.0, Text(c, f.1), e.0, Text(c, e.1)); }
      assert ApplyEntry(c, sch, slot', e) == ApplyEntry(c, sch, ApplyEntry(c, sch, slot, e), f);
    }
  }

  /** Replaying pairwise incomparable entries gives the same settings in every order. */
  lemma {:induction false} OrderIrrelevant(c: Codec, sch: Schema, slot: Option<Json>, es: seq<Entry>, fs: seq<Entry>)
    requires WellFormed(sch) && SlotConforms(sch, slot)
    requires PairwiseApart(es) && multiset(es) == multiset(fs)
    ensures Replay(c, sch, slot, es) == Replay(c, sch, slot, fs)
    decreases |fs|
  {
    if fs == [] {
      assert |multiset(es)| == 0;
    } else {
      assert fs[0] in multiset(es) && fs == [fs[0]] + fs[1..];
      var i :| 0 <= i < |es| && es[i] == fs[0];
      var rest := WithoutIndex(es, i, fs[1..]);
      FirstPicked(c, sch, slot, es, i);
      OrderIrrelevant(c, sch, ApplyEntry(c, sch, slot, fs[0]), rest, fs[1..]);
    }
  }

  lemma FirstPicked(c: Codec, sch: Schema, slot: Option<Json>, es: seq<Entry>, i: nat)
    requires WellFormed(sch) && SlotConforms(sch, slot) && i < |es| && PairwiseApart(es)
    ensures Replay(c, sch, slot, es) == Replay(c, sch, ApplyEntry(c, sch, slot, es[i]), es[..i] + es[i + 1..])
  {
    var before, e, after := es[..i], es[i], es[i + 1..];
    assert es == before + [e] + after;
    MoveToFront(c, sch, slot, before, e, after);
    assert ([e] + before + after)[1..] == before + after;
  }

  lemma WithoutIndexApart(es: seq<Entry>, i: nat)
    requires i < |es| && PairwiseApart(es)
    ensures PairwiseApart(es[..i] + es[i + 1..])
  {
    var rest := es[..i] + es[i + 1..];
    forall a, b | 0 <= a < b < |rest| ensures !Comparable(rest[a].0, rest[b].0) {
      var a', b' := if a < i then a else a + 1, if b < i then b else b + 1;
      assert rest[a] == es[a'] && rest[b] == es[b'];
    }
  }

  lemma WithoutIndex(es: seq<Entry>, i: nat, fs: seq<Entry>) returns (rest: seq<Entry>)
    requires i < |es| && PairwiseApart(es) && multiset(es) == multiset([es[i]] + fs)
    ensures rest == es[..i] + es[i + 1..] && PairwiseApart(rest) && multiset(rest) == multiset(fs)
    ensures es == es[..i] + [es[i]] + es[i + 1..]
  {
    WithoutIndexApart(es, i);
    rest := es[..i] + es[i + 1..];
    assert es == es[..i] + [es[i]] + es[i + 1..];
    assert multiset(es) == multiset(es[..i]) + multiset{es[i]} + multiset(es[i + 1..]);
    assert multiset(rest) == multiset(es[..i]) + multiset(es[i + 1..]);
    assert multiset([es[i]] + fs) == multiset{es[i]} + multiset(fs);
    assert multiset(rest) == multiset(es) - multiset{es[i]};
    assert multiset(fs) == multiset([es[i]] + fs) - multiset{es[i]};
  }

  /** No stored key is a dotted prefix of another. */
  predicate PrefixFree(m: map<string, Json>) {
    forall a, b | a in m && b in m && a != b :: !Comparable(Split(a), Split(b))
  }

  lemma {:induction false} EntriesMember(m: map<string, Json>, order: seq<string>, e: Entry)
    requires forall k <- order :: k in m
    ensures e in Entries(m, order) <==> exists i | 0 <= i < |order| :: order[i] != OWNER && e == (Split(order[i]), m[order[i]])
  {
    if order != [] {
      EntriesMember(m, order[1..], e);
      assert forall i | 0 <= i < |order| - 1 :: order[1..][i] == order[i + 1];
      assert forall i | 1 <= i < |order| :: order[i] == order[1..][i - 1];
    }
  }

  lemma {:induction false} EntriesApart(m: map<string, Json>, order: seq<string>)
    requires PrefixFree(m) && (forall k <- order :: k in m)
    requires forall a, b :: 0 <= a < b < |order| ==> order[a] != order[b]
    ensures PairwiseApart(Entries(m, order))
  {
    if order != [] {
      EntriesApart(m, order[1..]);
      forall e | e in Entries(m, order[1..]) ensures !Comparable(Split(order[0]), e.0) {
        EntriesMember(m, order[1..], e);
      }
    }
  }

  lemma {:induction false} ApartCounts(es: seq<Entry>, e: Entry)
    requires PairwiseApart(es)
    ensures multiset(es)[e] == if e in es then 1 else 0
  {
    if es != [] {
      assert es == [es[0]] + es[1..];
      ApartCounts(es[1..], e);
      if es[0] == e { assert e !in es[1..]; }
    }
  }

  /** `from_db_map` on a prefix-free map does not depend on the order in which the map iterates. */
  lemma RebuiltInAnyOrder(c: Codec, sch: Schema, m: map<string, Json>, order: seq<string>, other: seq<string>)
    requires WellFormed(sch) && PrefixFree(m) && Iterates(order, m) && Iterates(other, m)
    ensures (forall k <- order :: k in m) && (forall k <- other :: k in m)
    ensures Rebuilt(c, sch, m, order) == Rebuilt(c, sch, m, other)
  {
    assert (forall k <- order :: k in Elements(order)) && (forall k <- other :: k in Elements(other));
    EntriesApart(m, order);
    EntriesApart(m, other);
    var es, fs := Entries(m, order), Entries(m, other);
    forall e ensures multiset(es)[e] == multiset(fs)[e] {
      SameEntries(m, order, other, e);
      SameEntries(m, other, order, e);
      ApartCounts(es, e);
      ApartCounts(fs, e);
    }
    DefaultConforms(sch);
    OrderIrrelevant(c, sch, Some(Default(sch)), es, fs);
  }

  lemma SameEntries(m: map<string, Json>, order: seq<string>, other: seq<string>, e: Entry)
    requires (forall k <- order :: k in m) && (forall k <- other :: k in m) && Elements(order) == Elements(other)
    ensures e in Entries(m, order) ==> e in Entries(m, other)
  {
    EntriesMember(m, order, e);
    EntriesMember(m, other, e);
    if e in Entries(m, order) {
      var i :| 0 <= i < |order| && order[i] != OWNER && e == (Split(order[i]), m[order[i]]);
      assert order[i] in Elements(order);
      assert order[i] in Elements(other);
    }
  }

  /** Every key at every depth is free of dots. */
  predicate DeepDotFree(j: Json) {
    j.Obj? ==> forall k | k in j.fields :: DotFree(k) && DeepDotFree(j.fields[k])
  }

  /** Flattened paths of such a tree never lie one above the other. */
  lemma {:induction false} LeavesApart(j: Json, e: Entry, f: Entry)
    requires DeepDotFree(j) && e in SplitLeaves(j) && f in SplitLeaves(j) && e != f
    ensures !Comparable(e.0, f.0)
    decreases j
  {
    if j.Obj? {
      var k, e' :| k in j.fields && e' in SplitLeaves(j.fields[k]) && e == (Split(k) + e'.0, e'.1);
      var l, f' :| l in j.fields && f' in SplitLeaves(j.fields[l]) && f == (Split(l) + f'.0, f'.1);
      SplitDotFree(k);
      SplitDotFree(l);
      assert e.0[0] == k && f.0[0] == l && e.0[1..] == e'.0 && f.0[1..] == f'.0;
      if k == l {
        LeavesApart(j.fields[k], e', f');
      }
    }
  }

  /** So what `to_db_map` stores is prefix-free, and loses no leaf to a collision. */
  lemma DbMapPrefixFree(s: Json, m: map<string, Json>)
    requires s.Obj? && "" !in s.fields && DeepDotFree(s) && IsDbMap(m, s)
    ensures PrefixFree(m)
    ensures forall e <- Leaves(s, "") :: e.0 != OWNER ==> e.0 in m && m[e.0] == e.1
  {
    forall a, b | a in m && b in m && a != b ensures !Comparable(Split(a), Split(b)) {
      StoredKey(s, (a, m[a]));
      StoredKey(s, (b, m[b]));
      if Split(a) == Split(b) { SplitInjective(a, b); }
      LeavesApart(s, (Split(a), m[a]), (Split(b), m[b]));
    }
    forall e | e in Leaves(s, "") && e.0 != OWNER ensures e.0 in m && m[e.0] == e.1 {
      assert e.0 in Paths(Leaves(s, ""));
      StoredKey(s, e);
      StoredKey(s, (e.0, m[e.0]));
      if m[e.0] != e.1 { LeavesApart(s, (Split(e.0), e.1), (Split(e.0), m[e.0])); }
    }
  }
}
