/** `merge_non_default`: layering one settings tree over another, and the algebra of layers. */
module SettingsMerge {
  import opened Options
  import opened JsonTree
  import opened SettingsSchema
  import opened SettingsPaths

  function DefaultFor(d: map<string, Json>, k: string): Json {
    if k in d then d[k] else Null
  }

  /** What is in `target` after `merge_non_default(target, other, defaults)`. */
  function Merge(t: Json, o: Json, d: Json): Json
    decreases o
  {
    if t.Obj? && o.Obj? && d.Obj? then
      Obj(map k | k in t.fields.Keys + o.fields.Keys && (k in t.fields || o.fields[k] != DefaultFor(d.fields, k)) ::
        if k !in o.fields then t.fields[k]
        else if k in t.fields then Merge(t.fields[k], o.fields[k], DefaultFor(d.fields, k))
        else o.fields[k])
    else if o != d then o else t
  }

  method MergeNonDefault(target: Json, other: Json, defaults: Json) returns (r: Json)
    ensures r == Merge(target, other, defaults)
    decreases other
  {
    r := target;
    if target.Obj? && other.Obj? && defaults.Obj? {
      var m, todo := target.fields, other.fields.Keys;
      while todo != {}
        invariant todo <= other.fields.Keys
        invariant forall k :: k in todo ==> Lookup(m, k) == Lookup(target.fields, k)
        invariant forall k :: k !in todo ==> Lookup(m, k) == Lookup(Merge(target, other, defaults).fields, k)
        decreases |todo|
      {
        var key :| key in todo;
        var defaultVal := DefaultFor(defaults.fields, key);
        assert Lookup(m, key) == Lookup(target.fields, key);
        if key in m {
          var v := MergeNonDefault(m[key], other.fields[key], defaultVal);
          m := m[key := v];
        } else if other.fields[key] != defaultVal {
          m := m[key := other.fields[key]];
        }
        todo := todo - {key};
      }
      r := Obj(m);
      SameLookups(m, Merge(target, other, defaults).fields);
    } else if other != defaults {
      r := other;
    }
  }

  // ---- Trees that settings serialise to ----

  /** Wherever the default is an object the tree is one, with at least its keys and no null under another key. */
  predicate Layer(d: Json, t: Json)
    decreases t
  {
    d.Obj? ==>
      && t.Obj? && d.fields.Keys <= t.fields.Keys
      && forall k | k in t.fields :: Layer(DefaultFor(d.fields, k), t.fields[k]) && (k in d.fields || !t.fields[k].Null?)
  }

  /** Every tree that a well-formed settings type serialises to is a layer over its defaults. */
  lemma {:induction false} ConformingIsLayer(sch: Schema, t: Json)
    requires WellFormed(sch) && Conforms(sch, t)
    ensures Layer(Default(sch), t)
  {
    match sch
    case Leaf(_, _) =>
    case Struct(fields, _) => forall k | k in fields { ConformingIsLayer(fields[k], t.fields[k]); }
    case Opt(_) =>
    case Dict(_) =>
  }

  /** Merging two conforming trees gives a conforming tree, so `merge_from` always takes the merged value. */
  lemma {:induction false} MergeConforms(sch: Schema, t: Json, o: Json)
    requires WellFormed(sch) && Conforms(sch, t) && Conforms(sch, o)
    ensures Conforms(sch, Merge(t, o, Default(sch)))
  {
    match sch
    case Leaf(_, _) =>
    case Struct(fields, _) => forall k | k in fields { MergeConforms(fields[k], t.fields[k], o.fields[k]); }
    case Opt(_) =>
    case Dict(_) =>
  }

  lemma {:induction false} MergeLayer(t: Json, o: Json, d: Json)
    requires Layer(d, t) && Layer(d, o)
    ensures Layer(d, Merge(t, o, d))
    decreases o
  {
    if d.Obj? {
      forall k | k in t.fields && k in o.fields { MergeLayer(t.fields[k], o.fields[k], DefaultFor(d.fields, k)); }
    }
  }

  lemma {:induction false} DefaultIsLayer(d: Json)
    ensures Layer(d, d)
  {
    if d.Obj? { forall k | k in d.fields { DefaultIsLayer(d.fields[k]); } }
  }

  // ---- The monoid of layers ----

  function FieldMerge(t: Option<Json>, o: Option<Json>, dk: Json): Option<Json> {
    match (t, o)
    case (_, None) => t
    case (Some(tv), Some(ov)) => Some(Merge(tv, ov, dk))
    case (None, Some(ov)) => if ov != dk then o else None
  }

  lemma MergeField(t: Json, o: Json, d: Json, k: string)
    requires t.Obj? && o.Obj? && d.Obj?
    ensures Lookup(Merge(t, o, d).fields, k) == FieldMerge(Lookup(t.fields, k), Lookup(o.fields, k), DefaultFor(d.fields, k))
  {
  }

  lemma {:induction false} MergeAssociative(a: Json, b: Json, c: Json, d: Json)
    requires Layer(d, a) && Layer(d, b) && Layer(d, c)
    ensures Merge(Merge(a, b, d), c, d) == Merge(a, Merge(b, c, d), d)
    decreases c, b
  {
    if d.Obj? {
      var l, r := Merge(Merge(a, b, d), c, d).fields, Merge(a, Merge(b, c, d), d).fields;
      MergeLayer(a, b, d);
      MergeLayer(b, c, d);
      forall k ensures Lookup(l, k) == Lookup(r, k) {
        MergeField(a, b, d, k);
        MergeField(b, c, d, k);
        MergeField(Merge(a, b, d), c, d, k);
        MergeField(a, Merge(b, c, d), d, k);
        if k in a.fields && k in b.fields && k in c.fields {
          MergeAssociative(a.fields[k], b.fields[k], c.fields[k], DefaultFor(d.fields, k));
        }
      }
      SameLookups(l, r);
    }
  }

  lemma {:induction false} MergeDefaultRight(t: Json, d: Json)
    requires Layer(d, t)
    ensures Merge(t, d, d) == t
    decreases d
  {
    if d.Obj? {
      var l := Merge(t, d, d).fields;
      forall k ensures Lookup(l, k) == Lookup(t.fields, k) {
        if k in d.fields { MergeDefaultRight(t.fields[k], d.fields[k]); }
      }
      SameLookups(l, t.fields);
    }
  }

  lemma {:induction false} MergeDefaultLeft(o: Json, d: Json)
    requires Layer(d, o)
    ensures Merge(d, o, d) == o
    decreases d
  {
    if d.Obj? {
      var l := Merge(d, o, d).fields;
      forall k ensures Lookup(l, k) == Lookup(o.fields, k) {
        if k in d.fields { MergeDefaultLeft(o.fields[k], d.fields[k]); }
      }
      SameLookups(l, o.fields);
    }
  }

  /** Layers over one default are a monoid: merging stays among them, is associative, and the default is the identity. */
  lemma LayersAreMonoid(a: Json, b: Json, c: Json, d: Json)
    requires Layer(d, a) && Layer(d, b) && Layer(d, c)
    ensures Layer(d, d) && Layer(d, Merge(a, b, d))
    ensures Merge(Merge(a, b, d), c, d) == Merge(a, Merge(b, c, d), d) && Merge(a, d, d) == a && Merge(d, a, d) == a
  {
    DefaultIsLayer(d);
    MergeLayer(a, b, d);
    MergeAssociative(a, b, c, d);
    MergeDefaultRight(a, d);
    MergeDefaultLeft(a, d);
  }

  /** Without the last clause of `Layer` the left identity is lost: a null under a new key disappears. */
  lemma NullUnderNewKeyIsLost(k: string)
    ensures Merge(Obj(map[]), Obj(map[k := Null]), Obj(map[])) == Obj(map[])
  {
  }

  // ---- Leaf by leaf ----

  /** Where the layering bottoms out: no object in the defaults at this path, but objects above it. */
  predicate LeafPath(d: Json, p: seq<string>)
    decreases |p|
  {
    if p == [] then !d.Obj? else d.Obj? && LeafPath(DefaultFor(d.fields, p[0]), p[1..])
  }

  /** The default at a leaf path; a key the defaults do not have counts as null. */
  function LeafDefault(d: Json, p: seq<string>): Json
    requires LeafPath(d, p)
    decreases |p|
  {
    if p == [] then d else LeafDefault(DefaultFor(d.fields, p[0]), p[1..])
  }

  /** At every leaf the overlay wins where it is present and not default; otherwise the base stays. */
  lemma {:induction false} MergeAtLeaf(t: Json, o: Json, d: Json, p: seq<string>)
    requires Layer(d, t) && Layer(d, o) && LeafPath(d, p)
    ensures Get(Merge(t, o, d), p) ==
            if Get(o, p).Some? && Get(o, p).value != LeafDefault(d, p) then Get(o, p) else Get(t, p)
    decreases |p|
  {
    if p != [] {
      var k := p[0];
      var dk := DefaultFor(d.fields, k);
      if k in t.fields && k in o.fields {
        MergeAtLeaf(t.fields[k], o.fields[k], dk, p[1..]);
      } else if k !in d.fields {
        assert p[1..] == [];
      }
    }
  }

  /** A value that differs from the default never merges back to the default. */
  lemma NonDefaultStays(t: Json, o: Json, d: Json, p: seq<string>)
    requires Layer(d, t) && Layer(d, o) && LeafPath(d, p)
    requires Get(t, p).Some? && Get(t, p).value != LeafDefault(d, p)
    ensures Get(Merge(t, o, d), p).Some? && Get(Merge(t, o, d), p).value != LeafDefault(d, p)
  {
    MergeAtLeaf(t, o, d, p);
  }

  lemma GetKey(j: Json, k: string)
    requires j.Obj?
    ensures Get(j, [k]) == Lookup(j.fields, k)
  {
    if k in j.fields { assert [k][1..] == [] && Get(j.fields[k], []) == Some(j.fields[k]); }
  }

  /** Two layers that agree at every leaf are equal, so `MergeAtLeaf` says all there is to say. */
  lemma {:induction false} LeavesDetermine(d: Json, a: Json, b: Json)
    requires Layer(d, a) && Layer(d, b)
    requires forall p: seq<string> :: LeafPath(d, p) ==> Get(a, p) == Get(b, p)
    ensures a == b
    decreases d
  {
    if !d.Obj? {
      assert Get(a, []) == Get(b, []);
    } else {
      forall k ensures Lookup(a.fields, k) == Lookup(b.fields, k) {
        var dk := DefaultFor(d.fields, k);
        if k in d.fields {
          forall p | LeafPath(dk, p) ensures Get(a.fields[k], p) == Get(b.fields[k], p) {
            assert ([k] + p)[1..] == p;
            assert LeafPath(d, [k] + p);
            assert Get(a, [k] + p) == Get(b, [k] + p);
          }
          LeavesDetermine(dk, a.fields[k], b.fields[k]);
        } else {
          assert [k][1..] == [];
          assert LeafPath(d, [k]);
          GetKey(a, k);
          GetKey(b, k);
          assert Get(a, [k]) == Get(b, [k]);
        }
      }
      SameLookups(a.fields, b.fields);
    }
  }

  /** Merging the same overlay again changes nothing. */
  lemma MergeTwice(t: Json, o: Json, d: Json)
    requires Layer(d, t) && Layer(d, o)
    ensures Merge(Merge(t, o, d), o, d) == Merge(t, o, d)
  {
    var m := Merge(t, o, d);
    MergeLayer(t, o, d);
    MergeLayer(m, o, d);
    forall p: seq<string> | LeafPath(d, p) ensures Get(Merge(m, o, d), p) == Get(m, p) {
      MergeAtLeaf(t, o, d, p);
      MergeAtLeaf(m, o, d, p);
    }
    LeavesDetermine(d, Merge(m, o, d), m);
  }

  /** Wizard recovery: loading the database over a step and re-applying the step is the step over the database. */
  lemma WizardRecovery(step: Json, db: Json, d: Json)
    requires Layer(d, step) && Layer(d, db)
    ensures Merge(Merge(step, db, d), step, d) == Merge(db, step, d)
  {
    var loaded := Merge(step, db, d);
    MergeLayer(step, db, d);
    MergeLayer(loaded, step, d);
    MergeLayer(db, step, d);
    forall p: seq<string> | LeafPath(d, p) ensures Get(Merge(loaded, step, d), p) == Get(Merge(db, step, d), p) {
      MergeAtLeaf(step, db, d, p);
      MergeAtLeaf(loaded, step, d, p);
      MergeAtLeaf(db, step, d, p);
    }
    LeavesDetermine(d, Merge(loaded, step, d), Merge(db, step, d));
  }
}
