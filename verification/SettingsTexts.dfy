/** What `set` makes of any text, by the kind of the value that is there; and which stored entries `from_db_map` ignores. */
module SettingsTexts {
  import opened Options
  import opened Sequences
  import opened JsonTree
  import opened SettingsSchema
  import opened SettingsPaths
  import opened SettingsStore

  /** The field type takes the value. */
  predicate Takes(at: Schema, v: Json) {
    Deserialize(at, v).Some?
  }

  /** The field type takes both truth values. */
  predicate IsFlag(at: Schema) {
    Takes(at, Bool(true)) && Takes(at, Bool(false))
  }

  /** The settings after a `set`, which a failure leaves alone. */
  function Afterwards(j: Json, r: Result): Json {
    if r.Ok? then r.tree else j
  }

  /** The text was understood as `v`: it is stored if the field type takes it, as that type reads it, and else refused. */
  predicate Offered(at: Schema, v: Json, before: Option<Json>, r: Result, after: Option<Json>) {
    if Takes(at, v) then r.Ok? && after == Deserialize(at, v) && (!v.Obj? ==> after == Some(v))
    else r == Err(ApplyFailed) && after == before
  }

  /** The text was not understood. */
  predicate Refused(before: Option<Json>, r: Result, after: Option<Json>) {
    r == Err(BadValue) && after == before
  }

  /** What a text does to a slot that holds a flag, a number, a text, a list or object, or a null. */
  predicate Understood(c: Codec, at: Schema, was: Json, text: string, r: Result, after: Option<Json>) {
    match was
    case Bool(_) =>
      if text == "true" then Offered(at, Bool(true), Some(was), r, after)
      else if text == "false" then Offered(at, Bool(false), Some(was), r, after)
      else Refused(Some(was), r, after)
    case Num(n) => UnderstoodNumber(c, at, n, text, r, after)
    case Str(_) => Offered(at, Str(text), Some(was), r, after)
    case Null => OfferedJsonOrText(c, at, text, Some(was), r, after)
    case _ =>
      if c.parseJson(text).Some? then Offered(at, c.parseJson(text).value, Some(was), r, after) else Refused(Some(was), r, after)
  }

  /** Each kind of number has its own parser; a float text that is no finite number becomes a text. */
  predicate UnderstoodNumber(c: Codec, at: Schema, n: Number, text: string, r: Result, after: Option<Json>) {
    var was := Some(Num(n));
    if n.PosInt? then
      (if c.parseU64(text).Some? then Offered(at, Num(PosInt(c.parseU64(text).value)), was, r, after) else Refused(was, r, after))
    else if n.NegInt? then
      (if c.parseI64(text).None? then Refused(was, r, after)
       else if c.parseI64(text).value < 0 then Offered(at, Num(NegInt(c.parseI64(text).value)), was, r, after)
       else Offered(at, Num(PosInt(c.parseI64(text).value)), was, r, after))
    else if c.parseF64(text).None? then Refused(was, r, after)
    else if c.parseF64(text).value.Some? then Offered(at, Num(Float(c.parseF64(text).value.value)), was, r, after)
    else Offered(at, Str(text), was, r, after)
  }

  /** Over a null or a missing key: JSON if the text is JSON, and the text itself if not. */
  predicate OfferedJsonOrText(c: Codec, at: Schema, text: string, was: Option<Json>, r: Result, after: Option<Json>) {
    if c.parseJson(text).Some? then Offered(at, c.parseJson(text).value, was, r, after) else Offered(at, Str(text), was, r, after)
  }

  /** What the text is understood as, if it is, says what becomes of the slot. */
  lemma ReadAs(c: Codec, at: Schema, was: Json, text: string, r: Result, after: Option<Json>)
    requires match Infer(c, Some(was), text)
             case None => Refused(Some(was), r, after)
             case Some(v) => Offered(at, v, Some(was), r, after)
    ensures Understood(c, at, was, text, r, after)
  {
  }

  /** Whatever the text, over a value that is there. */
  lemma SetUnderstood(c: Codec, sch: Schema, j: Json, parts: seq<string>, text: string)
    requires WellFormed(sch) && Conforms(sch, j) && parts != [] && Get(j, parts).Some?
    ensures SchemaAt(sch, parts).Some?
    ensures var r := Set(c, sch, j, parts, text);
            Understood(c, SchemaAt(sch, parts).value, Get(j, parts).value, text, r, Get(Afterwards(j, r), parts))
  {
    ConformsAt(sch, j, parts);
    var at, was, r := SchemaAt(sch, parts).value, Get(j, parts).value, Set(c, sch, j, parts, text);
    var v := Infer(c, Some(was), text);
    assert match v case None => Refused(Some(was), r, Get(Afterwards(j, r), parts))
                   case Some(x) => Offered(at, x, Some(was), r, Get(Afterwards(j, r), parts)) by {
      SetIsLocal(c, sch, j, parts, text);
      SetAtFails(c, sch, j, parts, text);
      GetAfterSet(c, sch, j, parts, text);
      if v.Some? && Takes(at, v.value) { DeserializeScalar(at, v.value); }
    }
    ReadAs(c, at, was, text, r, Get(Afterwards(j, r), parts));
  }

  /** So a flag takes "true" and "false" and prints what was set; any other text is refused and changes nothing. */
  lemma SetFlag(c: Codec, sch: Schema, j: Json, parts: seq<string>, text: string)
    requires WellFormed(sch) && Conforms(sch, j) && parts != [] && Get(j, parts).Some? && Get(j, parts).value.Bool?
    requires SchemaAt(sch, parts).Some? && IsFlag(SchemaAt(sch, parts).value)
    ensures var r := Set(c, sch, j, parts, text);
            && (r.Ok? <==> text == "true" || text == "false")
            && (r.Ok? ==> Get(r.tree, parts).Some? && Get(r.tree, parts).value.Bool? && Text(c, Get(r.tree, parts).value) == text)
            && (r.Err? ==> r.error == BadValue)
  {
    SetUnderstood(c, sch, j, parts, text);
  }

  /** The object a path leads into. */
  function Parent(j: Json, parts: seq<string>): Option<Json>
    requires parts != []
  {
    Get(j, parts[..|parts| - 1])
  }

  /** Whatever the text, over a value that is not there: a missing map key is written, an unknown field changes nothing. */
  lemma SetMissing(c: Codec, sch: Schema, j: Json, parts: seq<string>, text: string)
    requires WellFormed(sch) && Conforms(sch, j) && parts != [] && Get(j, parts).None?
    ensures var r := Set(c, sch, j, parts, text);
            && (Parent(j, parts).None? ==> r == Err(PathNotFound))
            && (Parent(j, parts).Some? && !Parent(j, parts).value.Obj? ==> r == Err(ParentNotObject))
            && (Parent(j, parts).Some? && Parent(j, parts).value.Obj? ==>
                  match SchemaAt(sch, parts)
                  case None => r == Ok(j)
                  case Some(at) => OfferedJsonOrText(c, at, text, None, r, Get(Afterwards(j, r), parts)))
  {
    SetIsLocal(c, sch, j, parts, text);
    var parent := Parent(j, parts);
    if parent.Some? && parent.value.Obj? {
      MissingFails(c, sch, j, parts, text);
      if SetSlot(c, sch, Some(j), parts, text).Ok? { SetThenGet(c, sch, Some(j), parts, text); }
      var v := ParseOrString(c, text);
      if SchemaAt(sch, parts).Some? && Takes(SchemaAt(sch, parts).value, v) { DeserializeScalar(SchemaAt(sch, parts).value, v); }
    }
  }

  /** A missing slot right below an object: only the field type can refuse. */
  lemma MissingHere(c: Codec, sch: Schema, j: Json, k: string, text: string)
    requires WellFormed(sch) && Conforms(sch, j) && j.Obj? && k !in j.fields
    ensures Failure(c, sch, Some(j), [k], text) ==
            match ChildSchema(sch, k)
            case None => None
            case Some(at) => if Takes(at, ParseOrString(c, text)) then None else Some(ApplyFailed)
  {
    ChildConforms(sch, j, k);
    assert [k][1..] == [];
    if ChildSchema(sch, k).Some? {
      var at := ChildSchema(sch, k).value;
      ApplyBelow(c, sch, j.fields, [k], text);
      assert Obj(j.fields) == j && Lookup(j.fields, k) == None;
      assert Infer(c, None, text) == Some(ParseOrString(c, text));
      assert Failure(c, at, None, [], text) == if Takes(at, ParseOrString(c, text)) then None else Some(ApplyFailed);
    }
  }

  /** And so at a missing slot of any object that is there. */
  lemma {:induction false} MissingFails(c: Codec, sch: Schema, j: Json, parts: seq<string>, text: string)
    requires WellFormed(sch) && Conforms(sch, j) && parts != [] && Get(j, parts).None?
    requires Parent(j, parts).Some? && Parent(j, parts).value.Obj?
    ensures Failure(c, sch, Some(j), parts, text) ==
            match SchemaAt(sch, parts)
            case None => None
            case Some(at) => if Takes(at, ParseOrString(c, text)) then None else Some(ApplyFailed)
    decreases |parts|
  {
    var k, rest := parts[0], parts[1..];
    if |parts| == 1 {
      assert parts[..0] == [] && rest == [] && parts == [k];
      MissingHere(c, sch, j, k, text);
    } else {
      assert parts[..|parts| - 1][1..] == rest[..|parts| - 2] && parts[..|parts| - 1][0] == k;
      assert j.Obj? && k in j.fields && Parent(j, parts) == Parent(j.fields[k], rest);
      ChildConforms(sch, j, k);
      ApplyBelow(c, sch, j.fields, parts, text);
      assert Obj(j.fields) == j;
      MissingFails(c, ChildSchema(sch, k).value, j.fields[k], rest, text);
    }
  }

  // ---- Entries that `from_db_map` ignores ----

  /** A null keeps what is there, and the owner is never read. */
  predicate Ignored(m: map<string, Json>, k: string) {
    k == OWNER || (k in m && m[k] == Null)
  }

  function Heeded(m: map<string, Json>): map<string, Json> {
    map k | k in m && !Ignored(m, k) :: m[k]
  }

  function HeededKeys(m: map<string, Json>, order: seq<string>): (r: seq<string>)
    ensures forall k <- r :: k in order && !Ignored(m, k)
  {
    if order == [] then [] else (if Ignored(m, order[0]) then [] else [order[0]]) + HeededKeys(m, order[1..])
  }

  lemma {:induction false} ReplayHeeded(c: Codec, sch: Schema, slot: Option<Json>, m: map<string, Json>, order: seq<string>)
    requires WellFormed(sch) && SlotConforms(sch, slot) && forall k <- order :: k in m
    ensures Replay(c, sch, slot, Entries(m, order)) == Replay(c, sch, slot, Entries(Heeded(m), HeededKeys(m, order)))
    decreases |order|
  {
    if order != [] {
      var k, rest := order[0], order[1..];
      if Ignored(m, k) {
        assert HeededKeys(m, order) == HeededKeys(m, rest);
        ReplayFirst(c, sch, slot, m, order);
        ReplayHeeded(c, sch, slot, m, rest);
      } else {
        var kept := HeededKeys(m, rest);
        assert ([k] + kept)[1..] == kept;
        ReplayFirst(c, sch, slot, m, order);
        ReplayFirst(c, sch, slot, Heeded(m), [k] + kept);
        ReplayHeeded(c, sch, ApplyEntry(c, sch, slot, (Split(k), m[k])), m, rest);
      }
    }
  }

  /** The first key of an iteration: passed over if it is ignored, and else applied. */
  lemma ReplayFirst(c: Codec, sch: Schema, slot: Option<Json>, m: map<string, Json>, order: seq<string>)
    requires WellFormed(sch) && SlotConforms(sch, slot) && (forall k <- order :: k in m) && order != []
    ensures Replay(c, sch, slot, Entries(m, order)) ==
            Replay(c, sch, if Ignored(m, order[0]) then slot else ApplyEntry(c, sch, slot, (Split(order[0]), m[order[0]])), Entries(m, order[1..]))
  {
    var es := Entries(m, order[1..]);
    assert ([(Split(order[0]), m[order[0]])] + es)[1..] == es;
  }

  lemma {:induction false} HeededIterates(m: map<string, Json>, order: seq<string>)
    requires forall a, b :: 0 <= a < b < |order| ==> order[a] != order[b]
    ensures Elements(HeededKeys(m, order)) == set k | k in order && !Ignored(m, k)
    ensures var r := HeededKeys(m, order); forall a, b :: 0 <= a < b < |r| ==> r[a] != r[b]
  {
    if order != [] {
      var rest := HeededKeys(m, order[1..]);
      HeededIterates(m, order[1..]);
      assert order == [order[0]] + order[1..] && order[0] !in order[1..];
      forall k ensures k in Elements(HeededKeys(m, order)) <==> k in order && !Ignored(m, k) {
        assert k in Elements(rest) <==> k in order[1..] && !Ignored(m, k);
      }
    }
  }

  /** Nulls and the owner can be left out of the stored map: the settings rebuilt from it are the same. */
  lemma IgnoredEntries(c: Codec, sch: Schema, m: map<string, Json>, order: seq<string>)
    requires WellFormed(sch) && Iterates(order, m)
    ensures forall k <- order :: k in m
    ensures Iterates(HeededKeys(m, order), Heeded(m))
    ensures Rebuilt(c, sch, m, order) == Rebuilt(c, sch, Heeded(m), HeededKeys(m, order))
  {
    assert forall k <- order :: k in Elements(order);
    HeededIterates(m, order);
    assert forall k :: k in m <==> k in Elements(order);
    DefaultConforms(sch);
    ReplayHeeded(c, sch, Some(Default(sch)), m, order);
  }

  lemma {:induction false} ReplayLeaves(c: Codec, sch: Schema, slot: Option<Json>, m: map<string, Json>, order: seq<string>, q: seq<string>)
    requires WellFormed(sch) && SlotConforms(sch, slot) && forall k <- order :: k in m
    requires forall k <- order :: Ignored(m, k) || !Comparable(Split(k), q)
    ensures Read(Replay(c, sch, slot, Entries(m, order)), q) == Read(slot, q)
    decreases |order|
  {
    if order != [] {
      var k := order[0];
      ReplayFirst(c, sch, slot, m, order);
      if !Ignored(m, k) && m[k] != Null { SetFrame(c, sch, slot, Split(k), Text(c, m[k]), q); }
      var next := if Ignored(m, k) then slot else ApplyEntry(c, sch, slot, (Split(k), m[k]));
      ReplayLeaves(c, sch, next, m, order[1..], q);
    }
  }

  /** A path that only ignored entries lie at, above or below keeps its default, a null entry at the path itself included. */
  lemma DefaultStays(c: Codec, sch: Schema, m: map<string, Json>, order: seq<string>, q: seq<string>)
    requires WellFormed(sch) && Iterates(order, m)
    requires forall k <- m :: Ignored(m, k) || !Comparable(Split(k), q)
    ensures forall k <- order :: k in m
    ensures Get(Rebuilt(c, sch, m, order), q) == Get(Default(sch), q)
  {
    assert forall k <- order :: k in Elements(order);
    DefaultConforms(sch);
    ReplayLeaves(c, sch, Some(Default(sch)), m, order, q);
  }
}
