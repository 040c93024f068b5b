/** `Settings::get`, `set` and `reset` on dotted paths, and what one `set` can touch. */
module SettingsPaths {
  import opened Options
  import opened JsonTree
  import opened SettingsSchema

  /** Text conversions of `serde_json` and `str::parse`, which this model does not open up. */
  datatype Codec = Codec(
    printNumber: Number -> string,
    printJson: Json -> string,
    parseU64: string -> Option<U64>,
    parseI64: string -> Option<I64>,
    parseF64: string -> Option<Option<U64>>, // inner None: NaN or infinite
    parseJson: string -> Option<Json>)

  /** Printing then parsing gives the value back, and a JSON text of a string is never the bare string. */
  ghost predicate ValidCodec(c: Codec) {
    && (forall n: Number :: c.parseU64(c.printNumber(n)) == if n.PosInt? then Some(n.u) else None)
    && (forall n: Number :: c.parseI64(c.printNumber(n)) ==
          match n case PosInt(u) => (if u < I64_LIMIT then Some(u) else None) case NegInt(i) => Some(i) case Float(_) => None)
    && (forall n: Number :: n.Float? ==> c.parseF64(c.printNumber(n)) == Some(Some(n.bits)))
    && (forall n: Number :: c.parseF64(c.printNumber(n)) != Some(None))
    && (forall n: Number :: c.parseJson(c.printNumber(n)) == Some(Num(n)))
    && c.parseJson("true") == Some(Bool(true)) && c.parseJson("false") == Some(Bool(false))
    && c.parseJson("null") == Some(Null)
    && (forall j: Json :: j.Arr? || j.Obj? ==> c.parseJson(c.printJson(j)) == Some(j))
    && (forall t: string :: c.parseJson(t) != Some(Str(t)))
  }

  datatype SetError = PathNotFound | ParentNotObject | BadValue | ApplyFailed
  datatype Result = Ok(tree: Json) | Err(error: SetError)

  /** The text that `get` prints and that `from_db_map` feeds to `set`. */
  function Text(c: Codec, v: Json): string {
    match v
    case Null => "null"
    case Bool(b) => if b then "true" else "false"
    case Num(n) => c.printNumber(n)
    case Str(s) => s
    case Arr(_) => c.printJson(v)
    case Obj(_) => c.printJson(v)
  }

  function ParseOrString(c: Codec, text: string): Json {
    match c.parseJson(text)
    case Some(j) => j
    case None => Str(text)
  }

  /** The new value `set` infers from the value already there. */
  function Infer(c: Codec, existing: Option<Json>, text: string): Option<Json>
  {
    match existing
    case None => Some(ParseOrString(c, text))
    case Some(Bool(_)) => if text == "true" then Some(Bool(true)) else if text == "false" then Some(Bool(false)) else None
    case Some(Num(PosInt(_))) =>
      (match c.parseU64(text) case Some(u) => Some(Num(PosInt(u))) case None => None)
    case Some(Num(NegInt(_))) =>
      (match c.parseI64(text) case Some(i) => Some(Num(if i >= 0 then PosInt(i) else NegInt(i))) case None => None)
    case Some(Num(Float(_))) =>
      (match c.parseF64(text) case Some(Some(f)) => Some(Num(Float(f))) case Some(None) => Some(Str(text)) case None => None)
    case Some(Null) => Some(ParseOrString(c, text))
    case Some(Arr(_)) => c.parseJson(text)
    case Some(Obj(_)) => c.parseJson(text)
    case Some(Str(_)) => Some(Str(text))
  }

  /** `Value::get` along a path. */
  function Get(j: Json, parts: seq<string>): Option<Json> {
    if parts == [] then Some(j)
    else if j.Obj? && parts[0] in j.fields then Get(j.fields[parts[0]], parts[1..])
    else None
  }

  /** `get_mut` down to the parent, then `insert` of the last key. */
  function Put(j: Json, parts: seq<string>, v: Json): Json
    requires parts != []
    requires Get(j, parts[..|parts| - 1]).Some? && Get(j, parts[..|parts| - 1]).value.Obj?
  {
    if |parts| == 1 then Obj(j.fields[parts[0] := v])
    else
      assert parts[..|parts| - 1][1..] == parts[1..][..|parts| - 2];
      Obj(j.fields[parts[0] := Put(j.fields[parts[0]], parts[1..], v)])
  }

  /** `Settings::set`: find the parent, infer the value, insert it, and deserialise the whole tree again. */
  function Set(c: Codec, sch: Schema, j: Json, parts: seq<string>, text: string): Result
    requires parts != []
  {
    var parent := Get(j, parts[..|parts| - 1]);
    if parent.None? then Err(PathNotFound)
    else if !parent.value.Obj? then Err(ParentNotObject)
    else
      match Infer(c, Lookup(parent.value.fields, parts[|parts| - 1]), text)
      case None => Err(BadValue)
      case Some(v) =>
        match Deserialize(sch, Put(j, parts, v))
        case None => Err(ApplyFailed)
        case Some(t) => Ok(t)
  }

  // ---- The local form: only the slot at the end of the path is looked at ----

  function ChildSchema(sch: Schema, k: string): Option<Schema> {
    match sch
    case Leaf(_, _) => None
    case Struct(fields, _) => Lookup(fields, k)
    case Opt(inner) => ChildSchema(inner, k)
    case Dict(elem) => Some(elem)
  }

  lemma {:induction false} ChildConforms(sch: Schema, j: Json, k: string)
    requires WellFormed(sch) && Conforms(sch, j) && j.Obj?
    ensures ChildSchema(sch, k).Some? ==> WellFormed(ChildSchema(sch, k).value)
    ensures ChildSchema(sch, k).Some? && k in j.fields ==> Conforms(ChildSchema(sch, k).value, j.fields[k])
    ensures ChildSchema(sch, k).None? ==> k !in j.fields
  {
    match sch
    case Leaf(_, _) =>
    case Struct(_, _) =>
    case Opt(inner) => ChildConforms(inner, j, k);
    case Dict(_) =>
  }

  lemma {:induction false} UpdateConforms(sch: Schema, j: Json, k: string, w: Json)
    requires WellFormed(sch) && Conforms(sch, j) && j.Obj?
    requires ChildSchema(sch, k).Some? && Conforms(ChildSchema(sch, k).value, w)
    ensures Conforms(sch, Obj(j.fields[k := w]))
  {
    match sch
    case Leaf(_, _) =>
    case Struct(_, _) =>
    case Opt(inner) => UpdateConforms(inner, j, k, w);
    case Dict(_) =>
  }

  /** A slot that conforms: absent, or a conforming tree. */
  predicate SlotConforms(sch: Schema, slot: Option<Json>) {
    slot.Some? ==> Conforms(sch, slot.value)
  }

  /** One `set` seen from the slot it starts at: an empty path replaces the slot itself. */
  function SetSlot(c: Codec, sch: Schema, slot: Option<Json>, parts: seq<string>, text: string): (r: Result)
    requires WellFormed(sch) && SlotConforms(sch, slot)
    ensures r.Ok? ==> Conforms(sch, r.tree)
    decreases |parts|
  {
    if parts == [] then
      match Infer(c, slot, text)
      case None => Err(BadValue)
      case Some(v) => (match Deserialize(sch, v) case None => Err(ApplyFailed) case Some(w) => Ok(w))
    else if slot.None? then Err(PathNotFound)
    else if !slot.value.Obj? then Err(if |parts| == 1 then ParentNotObject else PathNotFound)
    else
      ChildConforms(sch, slot.value, parts[0]);
      match ChildSchema(sch, parts[0])
      case None => if |parts| == 1 then Ok(slot.value) else Err(PathNotFound)
      case Some(child) =>
        match SetSlot(c, child, Lookup(slot.value.fields, parts[0]), parts[1..], text)
        case Err(e) => Err(e)
        case Ok(w) =>
          UpdateConforms(sch, slot.value, parts[0], w);
          Ok(Obj(slot.value.fields[parts[0] := w]))
  }

  lemma {:induction false} StructUpdate(sch: Schema, j: Json, k: string, v: Json)
    requires sch.Struct? && Conforms(sch, j)
    ensures ReadStruct(sch, Obj(j.fields[k := v])) ==
            if k !in sch.fields then Some(j)
            else match Deserialize(sch.fields[k], v) case None => None case Some(w) => Some(Obj(j.fields[k := w]))
  {
    if k !in sch.fields {
      UnknownFieldUpdate(sch, j, k, v);
    } else if Deserialize(sch.fields[k], v).Some? {
      KnownFieldUpdate(sch, j, k, v);
    } else {
      var u := Obj(j.fields[k := v]);
      assert k in sch.fields && k in u.fields && Deserialize(sch.fields[k], u.fields[k]).None?;
    }
  }

  /** A struct whose fields are all there reads as what they read as. */
  lemma {:induction false} ReadStructIs(sch: Schema, u: map<string, Json>, m: map<string, Json>)
    requires sch.Struct? && m.Keys == sch.fields.Keys <= u.Keys
    requires forall l | l in sch.fields :: Deserialize(sch.fields[l], u[l]) == Some(m[l])
    ensures ReadStruct(sch, Obj(u)) == Some(Obj(m))
  {
    var r := ReadStruct(sch, Obj(u));
    assert r.Some?;
    assert r.value.fields == m;
  }

  lemma {:induction false} ReadDictIs(sch: Schema, u: map<string, Json>, m: map<string, Json>)
    requires sch.Dict? && m.Keys == u.Keys
    requires forall l | l in u :: Deserialize(sch.elem, u[l]) == Some(m[l])
    ensures ReadDict(sch, Obj(u)) == Some(Obj(m))
  {
    var r := ReadDict(sch, Obj(u));
    assert r.Some?;
    assert r.value.fields == m;
  }

  lemma {:induction false} UnknownFieldUpdate(sch: Schema, j: Json, k: string, v: Json)
    requires sch.Struct? && Conforms(sch, j) && k !in sch.fields
    ensures ReadStruct(sch, Obj(j.fields[k := v])) == Some(j)
  {
    ReadStructIs(sch, j.fields[k := v], j.fields);
  }

  lemma {:induction false} KnownFieldUpdate(sch: Schema, j: Json, k: string, v: Json)
    requires sch.Struct? && Conforms(sch, j) && k in sch.fields && Deserialize(sch.fields[k], v).Some?
    ensures ReadStruct(sch, Obj(j.fields[k := v])) == Some(Obj(j.fields[k := Deserialize(sch.fields[k], v).value]))
  {
    ReadStructIs(sch, j.fields[k := v], j.fields[k := Deserialize(sch.fields[k], v).value]);
  }

  lemma {:induction false} DictUpdate(sch: Schema, j: Json, k: string, v: Json)
    requires sch.Dict? && Conforms(sch, j)
    ensures ReadDict(sch, Obj(j.fields[k := v])) ==
            match Deserialize(sch.elem, v) case None => None case Some(w) => Some(Obj(j.fields[k := w]))
  {
    var u := j.fields[k := v];
    if Deserialize(sch.elem, v).Some? {
      ReadDictIs(sch, u, j.fields[k := Deserialize(sch.elem, v).value]);
    } else {
      assert k in u && Deserialize(sch.elem, u[k]).None?;
    }
  }

  /** Deserialising a conforming tree with one changed field re-reads only that field. */
  lemma {:induction false} DeserializeUpdate(sch: Schema, j: Json, k: string, v: Json)
    requires WellFormed(sch) && Conforms(sch, j) && j.Obj?
    ensures Deserialize(sch, Obj(j.fields[k := v])) ==
            match ChildSchema(sch, k)
            case None => Some(j)
            case Some(child) => match Deserialize(child, v) case None => None case Some(w) => Some(Obj(j.fields[k := w]))
  {
    match sch
    case Leaf(_, _) =>
    case Struct(_, _) => StructUpdate(sch, j, k, v);
    case Opt(inner) => DeserializeUpdate(inner, j, k, v);
    case Dict(_) => DictUpdate(sch, j, k, v);
  }

  /** A path of two or more pieces: `set` works below the first key exactly as it works from there. */
  lemma {:induction false} SetBelow(c: Codec, sch: Schema, j: Json, parts: seq<string>, text: string)
    requires WellFormed(sch) && Conforms(sch, j) && |parts| > 1
    requires j.Obj? && parts[0] in j.fields && ChildSchema(sch, parts[0]).Some?
    ensures Set(c, sch, j, parts, text) ==
            match Set(c, ChildSchema(sch, parts[0]).value, j.fields[parts[0]], parts[1..], text)
            case Err(e) => Err(e)
            case Ok(w) => Ok(Obj(j.fields[parts[0] := w]))
  {
    var k := parts[0];
    var up, down := parts[..|parts| - 1], parts[1..][..|parts| - 2];
    assert up[1..] == down && up[0] == k;
    assert parts[1..][|parts| - 2] == parts[|parts| - 1];
    var parent := Get(j, up);
    assert parent == Get(j.fields[k], down);
    if parent.Some? && parent.value.Obj? {
      var v := Infer(c, Lookup(parent.value.fields, parts[|parts| - 1]), text);
      if v.Some? { DeserializeUpdate(sch, j, k, Put(j.fields[k], parts[1..], v.value)); }
    }
  }

  /** Re-deserialising the whole tree has only a local effect: `set` is `SetSlot` from the root. */
  lemma {:induction false} SetIsLocal(c: Codec, sch: Schema, j: Json, parts: seq<string>, text: string)
    requires WellFormed(sch) && Conforms(sch, j) && parts != []
    ensures Set(c, sch, j, parts, text) == SetSlot(c, sch, Some(j), parts, text)
    decreases |parts|
  {
    var k := parts[0];
    if j.Obj? {
      ChildConforms(sch, j, k);
      if |parts| == 1 {
        assert parts[..0] == [] && parts[1..] == [];
        var v := Infer(c, Lookup(j.fields, k), text);
        if v.Some? { DeserializeUpdate(sch, j, k, v.value); }
      } else if k in j.fields {
        SetBelow(c, sch, j, parts, text);
        SetIsLocal(c, ChildSchema(sch, k).value, j.fields[k], parts[1..], text);
      }
    }
  }

  // ---- Lens laws ----

  /** State after a `set`, which leaves the settings alone when it fails. */
  function Apply(c: Codec, sch: Schema, slot: Option<Json>, parts: seq<string>, text: string): (r: Option<Json>)
    requires WellFormed(sch) && SlotConforms(sch, slot)
    ensures SlotConforms(sch, r)
    ensures slot.Some? ==> r.Some?
  {
    var r := SetSlot(c, sch, slot, parts, text);
    if r.Ok? then Some(r.tree) else slot
  }

  /** What is stored in a slot below `slot`, if anything. */
  function Read(slot: Option<Json>, parts: seq<string>): Option<Json> {
    if slot.None? then None else Get(slot.value, parts)
  }

  /** How a `set` fails, if it does. */
  function Failure(c: Codec, sch: Schema, slot: Option<Json>, parts: seq<string>, text: string): Option<SetError>
    requires WellFormed(sch) && SlotConforms(sch, slot)
  {
    match SetSlot(c, sch, slot, parts, text)
    case Ok(_) => None
    case Err(e) => Some(e)
  }

  function WithSlot(m: map<string, Json>, k: string, slot: Option<Json>): map<string, Json> {
    if slot.Some? then m[k := slot.value] else m
  }

  lemma WithSlotTwice(m: map<string, Json>, k: string, x: Option<Json>, l: string, y: Option<Json>)
    requires x.None? ==> k !in m
    requires y.None? ==> l !in m
    ensures Lookup(WithSlot(m, k, x), k) == x
    ensures k != l ==> WithSlot(WithSlot(m, k, x), l, y) == WithSlot(WithSlot(m, l, y), k, x)
    ensures k == l && y.Some? ==> WithSlot(WithSlot(m, k, x), l, y) == WithSlot(m, l, y)
  {
  }

  /** Below an object, a `set` acts on the slot of the first key and on nothing else. */
  lemma ApplyBelow(c: Codec, sch: Schema, m: map<string, Json>, parts: seq<string>, text: string)
    requires WellFormed(sch) && Conforms(sch, Obj(m)) && parts != []
    requires ChildSchema(sch, parts[0]).Some?
    ensures var child := ChildSchema(sch, parts[0]).value;
            WellFormed(child) && SlotConforms(child, Lookup(m, parts[0])) &&
            Apply(c, sch, Some(Obj(m)), parts, text) ==
              Some(Obj(WithSlot(m, parts[0], Apply(c, child, Lookup(m, parts[0]), parts[1..], text)))) &&
            Failure(c, sch, Some(Obj(m)), parts, text) == Failure(c, child, Lookup(m, parts[0]), parts[1..], text)
  {
    ChildConforms(sch, Obj(m), parts[0]);
    assert parts[0] in m ==> m[parts[0] := m[parts[0]]] == m;
  }

  /** A key the type does not know: the value is dropped on deserialisation, so nothing changes. */
  lemma ApplyUnknown(c: Codec, sch: Schema, slot: Option<Json>, parts: seq<string>, text: string)
    requires WellFormed(sch) && SlotConforms(sch, slot) && parts != []
    requires slot.Some? && slot.value.Obj? ==> ChildSchema(sch, parts[0]).None?
    ensures Apply(c, sch, slot, parts, text) == slot
  {
  }

  lemma ReadBelow(m: map<string, Json>, k: string, slot: Option<Json>, q: seq<string>)
    requires q != [] && (slot.None? ==> k !in m)
    ensures Read(Some(Obj(WithSlot(m, k, slot))), q) == if q[0] == k then Read(slot, q[1..]) else Read(Some(Obj(m)), q)
    ensures Read(Some(Obj(m)), q) == Read(Lookup(m, q[0]), q[1..])
  {
  }

  /** A `set` leaves every path that is not comparable with its own as it was. */
  lemma {:induction false} SetFrame(c: Codec, sch: Schema, slot: Option<Json>, p: seq<string>, text: string, q: seq<string>)
    requires WellFormed(sch) && SlotConforms(sch, slot)
    requires !Comparable(p, q)
    ensures Read(Apply(c, sch, slot, p, text), q) == Read(slot, q)
    decreases |p|
  {
    if slot.Some? && slot.value.Obj? && ChildSchema(sch, p[0]).Some? {
      var m, child := slot.value.fields, ChildSchema(sch, p[0]).value;
      ApplyBelow(c, sch, m, p, text);
      if p[0] == q[0] {
        assert p == [p[0]] + p[1..] && q == [q[0]] + q[1..];
        SetFrame(c, child, Lookup(m, p[0]), p[1..], text, q[1..]);
      }
      ReadBelow(m, p[0], Apply(c, child, Lookup(m, p[0]), p[1..], text), q);
    } else {
      ApplyUnknown(c, sch, slot, p, text);
    }
  }

  /** The claim of `SetsCommute`, for one slot. */
  predicate Commute(c: Codec, sch: Schema, slot: Option<Json>, p: seq<string>, a: string, q: seq<string>, b: string)
    requires WellFormed(sch) && SlotConforms(sch, slot)
  {
    && Apply(c, sch, Apply(c, sch, slot, p, a), q, b) == Apply(c, sch, Apply(c, sch, slot, q, b), p, a)
    && Failure(c, sch, Apply(c, sch, slot, p, a), q, b) == Failure(c, sch, slot, q, b)
    && Failure(c, sch, Apply(c, sch, slot, q, b), p, a) == Failure(c, sch, slot, p, a)
  }

  lemma CommuteApart(c: Codec, sch: Schema, m: map<string, Json>, p: seq<string>, a: string, q: seq<string>, b: string)
    requires WellFormed(sch) && Conforms(sch, Obj(m)) && p != [] && q != [] && p[0] != q[0]
    requires ChildSchema(sch, p[0]).Some? && ChildSchema(sch, q[0]).Some?
    ensures Commute(c, sch, Some(Obj(m)), p, a, q, b)
  {
    ApplyBelow(c, sch, m, p, a);
    ApplyBelow(c, sch, m, q, b);
    var x := Apply(c, ChildSchema(sch, p[0]).value, Lookup(m, p[0]), p[1..], a);
    var y := Apply(c, ChildSchema(sch, q[0]).value, Lookup(m, q[0]), q[1..], b);
    WithSlotTwice(m, p[0], x, q[0], y);
    ApplyBelow(c, sch, WithSlot(m, p[0], x), q, b);
    ApplyBelow(c, sch, WithSlot(m, q[0], y), p, a);
  }

  lemma CommuteTogether(c: Codec, sch: Schema, m: map<string, Json>, p: seq<string>, a: string, q: seq<string>, b: string)
    requires WellFormed(sch) && Conforms(sch, Obj(m)) && p != [] && q != [] && p[0] == q[0]
    requires ChildSchema(sch, p[0]).Some? && WellFormed(ChildSchema(sch, p[0]).value)
    requires SlotConforms(ChildSchema(sch, p[0]).value, Lookup(m, p[0]))
    requires Commute(c, ChildSchema(sch, p[0]).value, Lookup(m, p[0]), p[1..], a, q[1..], b)
    ensures Commute(c, sch, Some(Obj(m)), p, a, q, b)
  {
    ApplyBelow(c, sch, m, p, a);
    ApplyBelow(c, sch, m, q, b);
    var child := ChildSchema(sch, p[0]).value;
    var x := Apply(c, child, Lookup(m, p[0]), p[1..], a);
    var y := Apply(c, child, Lookup(m, q[0]), q[1..], b);
    var z := Apply(c, child, x, q[1..], b);
    WithSlotTwice(m, p[0], x, q[0], z);
    WithSlotTwice(m, q[0], y, p[0], z);
    ApplyBelow(c, sch, WithSlot(m, p[0], x), q, b);
    ApplyBelow(c, sch, WithSlot(m, q[0], y), p, a);
  }

  /** Two `set`s on incomparable paths commute, and neither changes whether or how the other fails. */
  lemma {:induction false} SetsCommute(c: Codec, sch: Schema, slot: Option<Json>, p: seq<string>, a: string, q: seq<string>, b: string)
    requires WellFormed(sch) && SlotConforms(sch, slot)
    requires !Comparable(p, q)
    ensures Commute(c, sch, slot, p, a, q, b)
    decreases |p|
  {
    if slot.None? || !slot.value.Obj? || ChildSchema(sch, p[0]).None? {
      UnknownCommutes(c, sch, slot, p, a, q, b);
    } else if ChildSchema(sch, q[0]).None? {
      UnknownCommutes(c, sch, slot, q, b, p, a);
    } else if p[0] != q[0] {
      CommuteApart(c, sch, slot.value.fields, p, a, q, b);
    } else {
      assert p == [p[0]] + p[1..] && q == [q[0]] + q[1..];
      ChildConforms(sch, slot.value, p[0]);
      SetsCommute(c, ChildSchema(sch, p[0]).value, Lookup(slot.value.fields, p[0]), p[1..], a, q[1..], b);
      CommuteTogether(c, sch, slot.value.fields, p, a, q, b);
    }
  }

  lemma UnknownCommutes(c: Codec, sch: Schema, slot: Option<Json>, p: seq<string>, a: string, q: seq<string>, b: string)
    requires WellFormed(sch) && SlotConforms(sch, slot) && p != [] && q != []
    requires slot.Some? && slot.value.Obj? ==> ChildSchema(sch, p[0]).None?
    ensures Commute(c, sch, slot, p, a, q, b)
  {
    ApplyUnknown(c, sch, slot, p, a);
    var r := Apply(c, sch, slot, q, b);
    ApplyUnknown(c, sch, r, p, a);
  }

  // ---- Which values survive being printed and set again ----

  /** Whether `set` over `existing` understands the printed form of `v` as `v` itself. */
  predicate Keeps(c: Codec, existing: Option<Json>, v: Json) {
    match existing
    case None => !v.Str? || c.parseJson(v.s).None?
    case Some(Null) => !v.Str? || c.parseJson(v.s).None?
    case Some(Bool(_)) => v.Bool?
    case Some(Num(PosInt(_))) => v.Num? && v.n.PosInt?
    case Some(Num(NegInt(_))) => v.Num? && (v.n.NegInt? || (v.n.PosInt? && v.n.u < I64_LIMIT))
    case Some(Num(Float(_))) => (v.Num? && v.n.Float?) || (v.Str? && c.parseF64(v.s) == Some(None))
    case Some(Str(_)) => v.Str?
    case Some(Arr(_)) => !v.Str?
    case Some(Obj(_)) => !v.Str?
  }

  lemma InferKeeps(c: Codec, existing: Option<Json>, v: Json)
    requires ValidCodec(c)
    ensures Infer(c, existing, Text(c, v)) == Some(v) <==> Keeps(c, existing, v)
  {
    if v.Num? {
      assert c.parseU64(c.printNumber(v.n)) == if v.n.PosInt? then Some(v.n.u) else None;
      assert c.parseJson(c.printNumber(v.n)) == Some(Num(v.n));
      assert c.parseF64(c.printNumber(v.n)) != Some(None);
      assert v.n.Float? ==> c.parseF64(c.printNumber(v.n)) == Some(Some(v.n.bits));
    } else if v.Arr? || v.Obj? {
      assert c.parseJson(c.printJson(v)) == Some(v);
    } else if v.Str? {
      assert c.parseJson(v.s) != Some(Str(v.s));
    }
  }

  /** Deserialisation only ever rewrites objects. */
  lemma {:induction false} DeserializeScalar(sch: Schema, v: Json)
    requires Deserialize(sch, v).Some?
    ensures Deserialize(sch, v).value.Obj? <==> v.Obj?
    ensures !v.Obj? ==> Deserialize(sch, v).value == v
  {
    if sch.Opt? && !v.Null? { DeserializeScalar(sch.inner, v); }
  }

  function SchemaAt(sch: Schema, parts: seq<string>): Option<Schema>
    decreases |parts|
  {
    if parts == [] then Some(sch)
    else match ChildSchema(sch, parts[0]) case None => None case Some(child) => SchemaAt(child, parts[1..])
  }

  /** A successful `set` stores the inferred value, as its field type reads it; an unknown field stays out. */
  lemma {:induction false} SetThenGet(c: Codec, sch: Schema, slot: Option<Json>, parts: seq<string>, text: string)
    requires WellFormed(sch) && SlotConforms(sch, slot)
    requires SetSlot(c, sch, slot, parts, text).Ok?
    ensures var after := Some(SetSlot(c, sch, slot, parts, text).tree);
            match SchemaAt(sch, parts)
            case None => after == slot && Read(after, parts).None?
            case Some(at) =>
              var v := Infer(c, Read(slot, parts), text);
              v.Some? && Read(after, parts).Some? && Read(after, parts) == Deserialize(at, v.value)
    decreases |parts|
  {
    if parts != [] {
      ChildConforms(sch, slot.value, parts[0]);
      var child := ChildSchema(sch, parts[0]);
      if child.Some? {
        SetThenGet(c, child.value, Lookup(slot.value.fields, parts[0]), parts[1..], text);
        var m := slot.value.fields;
        assert parts[0] in m ==> m[parts[0] := m[parts[0]]] == m;
      }
    }
  }

  lemma {:induction false} ConformsAt(sch: Schema, j: Json, parts: seq<string>)
    requires WellFormed(sch) && Conforms(sch, j) && Get(j, parts).Some?
    ensures SchemaAt(sch, parts).Some? && WellFormed(SchemaAt(sch, parts).value)
    ensures Conforms(SchemaAt(sch, parts).value, Get(j, parts).value)
    decreases |parts|
  {
    if parts != [] {
      ChildConforms(sch, j, parts[0]);
      ConformsAt(ChildSchema(sch, parts[0]).value, j.fields[parts[0]], parts[1..]);
    }
  }

  /** Whether and how `set` fails at a slot that is there. */
  lemma {:induction false} SetAtFails(c: Codec, sch: Schema, j: Json, parts: seq<string>, text: string)
    requires WellFormed(sch) && Conforms(sch, j) && Get(j, parts).Some?
    ensures SchemaAt(sch, parts).Some?
    ensures Failure(c, sch, Some(j), parts, text) ==
            match Infer(c, Get(j, parts), text)
            case None => Some(BadValue)
            case Some(v) => if Deserialize(SchemaAt(sch, parts).value, v).None? then Some(ApplyFailed) else None
    decreases |parts|
  {
    if parts != [] {
      ChildConforms(sch, j, parts[0]);
      SetAtFails(c, ChildSchema(sch, parts[0]).value, j.fields[parts[0]], parts[1..], text);
    }
  }

  /** `Settings::reset`: `set` with the printed default. */
  function Reset(c: Codec, sch: Schema, j: Json, parts: seq<string>): Option<Result>
    requires parts != []
  {
    match Get(Default(sch), parts)
    case None => None
    case Some(d) => Some(Set(c, sch, j, parts, Text(c, d)))
  }

  /** What a slot that is there holds after a `set`. */
  lemma GetAfterSet(c: Codec, sch: Schema, j: Json, parts: seq<string>, text: string)
    requires WellFormed(sch) && Conforms(sch, j) && parts != [] && Get(j, parts).Some?
    ensures SchemaAt(sch, parts).Some?
    ensures var r := Set(c, sch, j, parts, text);
            Get(if r.Ok? then r.tree else j, parts) == AfterSet(c, SchemaAt(sch, parts).value, Get(j, parts), text)
  {
    ConformsAt(sch, j, parts);
    SetIsLocal(c, sch, j, parts, text);
    SetAtFails(c, sch, j, parts, text);
    if SetSlot(c, sch, Some(j), parts, text).Ok? { SetThenGet(c, sch, Some(j), parts, text); }
  }

  /** The value that `set` leaves in a slot of type `at`. */
  function AfterSet(c: Codec, at: Schema, existing: Option<Json>, text: string): Option<Json> {
    match Infer(c, existing, text)
    case None => existing
    case Some(v) => if Deserialize(at, v).None? then existing else Deserialize(at, v)
  }

  lemma AfterSetDefault(c: Codec, at: Schema, existing: Json, d: Json)
    requires ValidCodec(c) && WellFormed(at) && Conforms(at, existing) && d == Default(at)
    ensures AfterSet(c, at, Some(existing), Text(c, d)) == Some(d) <==> Keeps(c, Some(existing), d)
  {
    DefaultConforms(at);
    InferKeeps(c, Some(existing), d);
    InferKeeps(c, Some(existing), existing);
    var v := Infer(c, Some(existing), Text(c, d));
    if v.Some? && Deserialize(at, v.value).Some? { DeserializeScalar(at, v.value); }
  }

  /** A path of the defaults goes through structs alone, so every tree of the type has it. */
  lemma {:induction false} DefaultPathThere(sch: Schema, j: Json, parts: seq<string>)
    requires WellFormed(sch) && Conforms(sch, j) && Get(Default(sch), parts).Some?
    ensures Get(j, parts).Some?
    decreases |parts|
  {
    if parts != [] && sch.Struct? { DefaultPathThere(sch.fields[parts[0]], j.fields[parts[0]], parts[1..]); }
  }

  /** After `reset` the default is stored exactly when the value being replaced keeps the printed default. */
  lemma ResetRestoresDefault(c: Codec, sch: Schema, j: Json, parts: seq<string>)
    requires ValidCodec(c) && WellFormed(sch) && Conforms(sch, j) && parts != [] && Get(Default(sch), parts).Some?
    ensures var d := Get(Default(sch), parts).value;
            var r := Reset(c, sch, j, parts);
            r.Some? &&
            (Get(if r.value.Ok? then r.value.tree else j, parts) == Some(d) <==> Keeps(c, Get(j, parts), d))
  {
    DefaultPathThere(sch, j, parts);
    ConformsAt(sch, j, parts);
    DefaultAt(sch, parts);
    var d := Get(Default(sch), parts).value;
    GetAfterSet(c, sch, j, parts, Text(c, d));
    AfterSetDefault(c, SchemaAt(sch, parts).value, Get(j, parts).value, d);
  }

  /** Inside the defaults, every path holds the default of its own type. */
  lemma {:induction false} DefaultAt(sch: Schema, parts: seq<string>)
    requires WellFormed(sch) && Get(Default(sch), parts).Some?
    ensures SchemaAt(sch, parts).Some? && Get(Default(sch), parts).value == Default(SchemaAt(sch, parts).value)
    decreases |parts|
  {
    if parts != [] && sch.Struct? { DefaultAt(sch.fields[parts[0]], parts[1..]); }
  }

  /** The field type `Option<String>`. */
  const OPTIONAL_STRING: Schema := Leaf((j: Json) => j.Null? || j.Str?, Null)

  /** The case the code gets wrong: resetting an optional string that is set stores the text "null". */
  lemma ResetOptionalString(c: Codec, name: string, model: string)
    requires ValidCodec(c) && name != "" && DotFree(name)
    ensures var sch := Struct(map[name := OPTIONAL_STRING], map[name := Null]);
            Reset(c, sch, Obj(map[name := Str(model)]), [name]) == Some(Ok(Obj(map[name := Str("null")])))
  {
    var sch := Struct(map[name := OPTIONAL_STRING], map[name := Null]);
    var j := Obj(map[name := Str(model)]);
    assert Get(Default(sch), [name]) == Some(Null);
    SetOptionalString(c, name, model);
  }

  lemma SetOptionalString(c: Codec, name: string, model: string)
    requires name != "" && DotFree(name)
    ensures var sch := Struct(map[name := OPTIONAL_STRING], map[name := Null]);
            Set(c, sch, Obj(map[name := Str(model)]), [name], "null") == Ok(Obj(map[name := Str("null")]))
  {
    var sch, j := Struct(map[name := OPTIONAL_STRING], map[name := Null]), Obj(map[name := Str(model)]);
    assert WellFormed(OPTIONAL_STRING) && Conforms(OPTIONAL_STRING, Null);
    assert WellFormed(sch) && Conforms(sch, j);
    SetIsLocal(c, sch, j, [name], "null");
    assert [name][1..] == [] && ChildSchema(sch, name) == Some(OPTIONAL_STRING);
    assert j.fields[name := Str("null")] == map[name := Str("null")];
  }
}
