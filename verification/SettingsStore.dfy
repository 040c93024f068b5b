/** `to_db_map` and `from_db_map`: flattening settings to dotted keys and rebuilding them in any order. */
module SettingsStore {
  import opened Options
  import opened Sequences
  import opened JsonTree
  import opened SettingsSchema
  import opened SettingsPaths

  type Entry = (seq<string>, Json)

  const OWNER := "owner_id"

  // ---- Flattening ----

  /** Every (dotted path, value) pair that `collect_settings_json` inserts. */
  ghost function Leaves(j: Json, prefix: string): set<(string, Json)> {
    match j
    case Obj(m) => set k, e | k in m && e in Leaves(m[k], ExtendPath(prefix, k)) :: e
    case _ => {(prefix, j)}
  }

  ghost function Paths(leaves: set<(string, Json)>): set<string> {
    set e <- leaves :: e.0
  }

  /** `r` is `results` with the leaves inserted in some order: a colliding path keeps one of its values. */
  ghost predicate Absorbs(r: map<string, Json>, results: map<string, Json>, leaves: set<(string, Json)>) {
    && r.Keys == results.Keys + Paths(leaves)
    && forall p <- r :: (p, r[p]) in leaves || (p !in Paths(leaves) && p in results && r[p] == results[p])
  }

  /** `map` is what `to_db_map` may return for `j`. */
  ghost predicate IsDbMap(m: map<string, Json>, j: Json) {
    && m.Keys == Paths(Leaves(j, "")) - {OWNER}
    && forall p <- m :: (p, m[p]) in Leaves(j, "")
  }

  method CollectSettingsJson(value: Json, prefix: string, results: map<string, Json>) returns (r: map<string, Json>)
    ensures Absorbs(r, results, Leaves(value, prefix))
    decreases value
  {
    r := results;
    if value.Obj? {
      var todo := value.fields.Keys;
      ghost var done: set<string> := {};
      while todo != {}
        invariant done + todo == value.fields.Keys
        invariant Absorbs(r, results, LeavesBelow(value.fields, prefix, done))
        decreases |todo|
      {
        var key :| key in todo;
        ghost var before := r;
        r := CollectSettingsJson(value.fields[key], ExtendPath(prefix, key), r);
        AbsorbsTrans(r, before, results, LeavesBelow(value.fields, prefix, done), Leaves(value.fields[key], ExtendPath(prefix, key)));
        LeavesBelowGrow(value.fields, prefix, done, key);
        todo, done := todo - {key}, done + {key};
      }
      LeavesBelowAll(value.fields, prefix, done);
    } else {
      r := r[prefix := value];
    }
  }

  /** The leaves of an object below some of its keys. */
  ghost function LeavesBelow(m: map<string, Json>, prefix: string, keys: set<string>): set<(string, Json)>
    requires keys <= m.Keys
  {
    set k, e | k in keys && e in Leaves(m[k], ExtendPath(prefix, k)) :: e
  }

  lemma LeavesBelowAll(m: map<string, Json>, prefix: string, keys: set<string>)
    requires keys == m.Keys
    ensures LeavesBelow(m, prefix, keys) == Leaves(Obj(m), prefix)
  {
  }

  lemma LeavesBelowGrow(m: map<string, Json>, prefix: string, keys: set<string>, key: string)
    requires keys <= m.Keys && key in m
    ensures LeavesBelow(m, prefix, keys + {key}) == LeavesBelow(m, prefix, keys) + Leaves(m[key], ExtendPath(prefix, key))
  {
  }

  lemma AbsorbsTrans(r: map<string, Json>, s: map<string, Json>, t: map<string, Json>, first: set<(string, Json)>, second: set<(string, Json)>)
    requires Absorbs(s, t, first) && Absorbs(r, s, second)
    ensures Absorbs(r, t, first + second)
  {
    assert Paths(first + second) == Paths(first) + Paths(second);
  }

  method ToDbMap(j: Json) returns (m: map<string, Json>)
    ensures IsDbMap(m, j)
  {
    m := CollectSettingsJson(j, "", map[]);
    m := m - {OWNER};
  }

  // ---- Rebuilding ----

  /** One entry of `from_db_map`: a null means "keep the default", a failing `set` is skipped. */
  function ApplyEntry(c: Codec, sch: Schema, slot: Option<Json>, e: Entry): (r: Option<Json>)
    requires WellFormed(sch) && SlotConforms(sch, slot)
    ensures SlotConforms(sch, r)
    ensures slot.Some? ==> r.Some?
  {
    if e.1.Null? then slot else Apply(c, sch, slot, e.0, Text(c, e.1))
  }

  function Replay(c: Codec, sch: Schema, slot: Option<Json>, es: seq<Entry>): (r: Option<Json>)
    requires WellFormed(sch) && SlotConforms(sch, slot)
    ensures SlotConforms(sch, r)
    ensures slot.Some? ==> r.Some?
    decreases |es|
  {
    if es == [] then slot else Replay(c, sch, ApplyEntry(c, sch, slot, es[0]), es[1..])
  }

  /** The entries in iteration order, `owner_id` left out. */
  function Entries(m: map<string, Json>, order: seq<string>): (es: seq<Entry>)
    requires forall k <- order :: k in m
    ensures forall e <- es :: e.0 != []
  {
    if order == [] then []
    else
      var rest := Entries(m, order[1..]);
      if order[0] == OWNER then rest else [(Split(order[0]), m[order[0]])] + rest
  }

  /** `order` is an iteration order of the map. */
  predicate Iterates(order: seq<string>, m: map<string, Json>) {
    && Elements(order) == m.Keys
    && forall a, b :: 0 <= a < b < |order| ==> order[a] != order[b]
  }

  /** The settings `from_db_map` builds when the hash map iterates in `order`. */
  function Rebuilt(c: Codec, sch: Schema, m: map<string, Json>, order: seq<string>): (r: Json)
    requires WellFormed(sch) && forall k <- order :: k in m
    ensures Conforms(sch, r)
  {
    DefaultConforms(sch);
    Replay(c, sch, Some(Default(sch)), Entries(m, order)).value
  }

  /** The settings after the entry of one key. */
  function AfterKey(c: Codec, sch: Schema, s: Json, m: map<string, Json>, key: string): (r: Json)
    requires WellFormed(sch) && Conforms(sch, s) && key in m
    ensures Conforms(sch, r)
  {
    if key == OWNER then s else ApplyEntry(c, sch, Some(s), (Split(key), m[key])).value
  }

  /** From position `i` on, replaying over `s` ends in `goal`. */
  ghost predicate Leads(c: Codec, sch: Schema, s: Json, m: map<string, Json>, order: seq<string>, i: nat, goal: Json) {
    && WellFormed(sch) && Conforms(sch, s) && (forall k <- order :: k in m) && i <= |order|
    && Replay(c, sch, Some(s), Entries(m, order[i..])) == Some(goal)
  }

  lemma LeadsOn(c: Codec, sch: Schema, s: Json, m: map<string, Json>, order: seq<string>, i: nat, goal: Json)
    requires i < |order| && Leads(c, sch, s, m, order, i, goal)
    ensures order[i] in m && Leads(c, sch, AfterKey(c, sch, s, m, order[i]), m, order, i + 1, goal)
  {
    assert order[i] in order;
    EntriesFrom(m, order, i);
    var rest := Entries(m, order[i + 1..]);
    if order[i] != OWNER { assert ([(Split(order[i]), m[order[i]])] + rest)[1..] == rest; }
  }

  lemma EntriesFrom(m: map<string, Json>, order: seq<string>, i: nat)
    requires (forall k <- order :: k in m) && i < |order| && order[i] in m
    ensures Entries(m, order[i..]) ==
            (if order[i] == OWNER then [] else [(Split(order[i]), m[order[i]])]) + Entries(m, order[i + 1..])
  {
    assert order[i..][0] == order[i] && order[i..][1..] == order[i + 1..];
  }

  lemma LeadsFrom(c: Codec, sch: Schema, m: map<string, Json>, order: seq<string>)
    requires WellFormed(sch) && Iterates(order, m)
    ensures forall k <- order :: k in m
    ensures Leads(c, sch, Default(sch), m, order, 0, Rebuilt(c, sch, m, order))
  {
    assert forall k <- order :: k in Elements(order);
    assert order[0..] == order;
    DefaultConforms(sch);
  }

  lemma LeadsToEnd(c: Codec, sch: Schema, s: Json, m: map<string, Json>, order: seq<string>, goal: Json)
    requires Leads(c, sch, s, m, order, |order|, goal)
    ensures s == goal
  {
    assert order[|order|..] == [];
  }

  /** The body of the loop. */
  method ApplyKey(c: Codec, sch: Schema, settings: Json, m: map<string, Json>, key: string) returns (r: Json)
    requires WellFormed(sch) && Conforms(sch, settings) && key in m
    ensures r == AfterKey(c, sch, settings, m, key)
  {
    r := settings;
    if key == OWNER || m[key].Null? { return; }
    var parts, text := Split(key), Text(c, m[key]);
    SetIsLocal(c, sch, settings, parts, text);
    var done := Set(c, sch, settings, parts, text);
    if done.Ok? { r := done.tree; }
  }

  method FromDbMap(c: Codec, sch: Schema, m: map<string, Json>, order: seq<string>) returns (settings: Json)
    requires WellFormed(sch) && Iterates(order, m)
    ensures settings == Rebuilt(c, sch, m, order)
  {
    LeadsFrom(c, sch, m, order);
    ghost var goal := Rebuilt(c, sch, m, order);
    settings := Default(sch);
    for i := 0 to |order|
      invariant Leads(c, sch, settings, m, order, i, goal)
    {
      LeadsOn(c, sch, settings, m, order, i, goal);
      settings := ApplyKey(c, sch, settings, m, order[i]);
    }
    LeadsToEnd(c, sch, settings, m, order, goal);
  }
}
