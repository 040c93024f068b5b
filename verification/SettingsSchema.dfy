/** What serde makes of a JSON tree: the shape of `Settings`, its defaults, and deserialisation. */
module SettingsSchema {
  import opened Options
  import opened JsonTree

  /**
   * `Leaf` is a scalar, enum or list field, `Opt` an `Option<struct>`, `Dict` a `HashMap<String, _>`. A struct says what
   * its missing fields are read as, which need not be their default; one that is not listed must be there.
   */
  datatype Schema =
    | Leaf(accepts: Json -> bool, def: Json)
    | Struct(fields: map<string, Schema>, missing: map<string, Json>)
    | Opt(inner: Schema)
    | Dict(elem: Schema)

  /** Field names are non-empty and dot-free, a leaf never holds an object, a map never holds a null. */
  ghost predicate WellFormed(sch: Schema) {
    match sch
    case Leaf(accepts, def) => accepts(def) && forall j: Json :: accepts(j) ==> !j.Obj?
    case Struct(fields, missing) =>
      && (forall k <- fields :: k != "" && DotFree(k) && WellFormed(fields[k]))
      && (forall k <- missing :: k in fields && Conforms(fields[k], missing[k]))
    case Opt(inner) => WellFormed(inner)
    case Dict(elem) => WellFormed(elem) && !Conforms(elem, Null)
  }

  /** `T::default()` as a JSON tree. */
  function Default(sch: Schema): Json {
    match sch
    case Leaf(_, def) => def
    case Struct(fields, _) => Obj(map k | k in fields :: Default(fields[k]))
    case Opt(_) => Null
    case Dict(_) => Obj(map[])
  }

  /** The trees that `serde_json::to_value` produces for a value of this type. */
  predicate Conforms(sch: Schema, j: Json) {
    match sch
    case Leaf(accepts, _) => accepts(j)
    case Struct(fields, _) => j.Obj? && j.fields.Keys == fields.Keys && forall k | k in fields :: Conforms(fields[k], j.fields[k])
    case Opt(inner) => j.Null? || Conforms(inner, j)
    case Dict(elem) => j.Obj? && forall k | k in j.fields :: Conforms(elem, j.fields[k])
  }

  /**
   * `serde_json::from_value` followed by `to_value`: unknown struct fields are dropped, missing ones are read as their
   * attribute says, and one bad leaf or missing field refuses the whole tree.
   */
  function Deserialize(sch: Schema, j: Json): (r: Option<Json>)
    ensures r.Some? ==> WellFormed(sch) ==> Conforms(sch, r.value)
    ensures Conforms(sch, j) ==> r == Some(j)
    decreases sch, 1
  {
    match sch
    case Leaf(accepts, _) => if accepts(j) then Some(j) else None
    case Struct(_, _) => ReadStruct(sch, j)
    case Opt(inner) => if j.Null? then Some(Null) else Deserialize(inner, j)
    case Dict(_) => ReadDict(sch, j)
  }

  function ReadStruct(sch: Schema, j: Json): (r: Option<Json>)
    requires sch.Struct?
    ensures r.Some? ==> WellFormed(sch) ==> Conforms(sch, r.value)
    ensures Conforms(sch, j) ==> r == Some(j)
    decreases sch, 0
  {
    var fields := sch.fields;
    if !j.Obj? || !(fields.Keys <= j.fields.Keys + sch.missing.Keys) then None
    else if exists k | k in fields && k in j.fields :: Deserialize(fields[k], j.fields[k]).None? then None
    else
      var m := map k | k in fields :: if k in j.fields then Deserialize(fields[k], j.fields[k]).value else sch.missing[k];
      assert Conforms(sch, j) ==> m == j.fields;
      Some(Obj(m))
  }

  function ReadDict(sch: Schema, j: Json): (r: Option<Json>)
    requires sch.Dict?
    ensures r.Some? ==> WellFormed(sch) ==> Conforms(sch, r.value)
    ensures Conforms(sch, j) ==> r == Some(j)
    decreases sch, 0
  {
    if !j.Obj? || exists k | k in j.fields :: Deserialize(sch.elem, j.fields[k]).None? then None
    else
      var m := map k | k in j.fields :: Deserialize(sch.elem, j.fields[k]).value;
      assert Conforms(sch, j) ==> m == j.fields;
      Some(Obj(m))
  }

  lemma {:induction false} DefaultConforms(sch: Schema)
    requires WellFormed(sch)
    ensures Conforms(sch, Default(sch))
  {
    match sch
    case Leaf(_, _) =>
    case Struct(fields, _) => forall k | k in fields { DefaultConforms(fields[k]); }
    case Opt(_) =>
    case Dict(_) =>
  }
}
