/** The `Settings` object: every operation goes through the serialised tree. */
module Settings {
  import opened Options
  import opened Sequences
  import opened JsonTree
  import opened SettingsSchema
  import opened SettingsPaths
  import opened SettingsMerge
  import opened SettingsTexts
  import opened SettingsStore
  import opened SettingsRoundTrip

  class Settings {
    const codec: Codec
    const schema: Schema
    var tree: Json

    ghost predicate Valid()
      reads this
    {
      WellFormed(schema) && Conforms(schema, tree)
    }

    /** `Settings::default()`. */
    constructor (codec: Codec, schema: Schema)
      requires WellFormed(schema)
      ensures Valid() && this.codec == codec && this.schema == schema && tree == Default(schema)
    {
      this.codec, this.schema, tree := codec, schema, Default(schema);
      DefaultConforms(schema);
    }

    /** `set`: on failure the settings are as before; on success only slots comparable with the path changed. */
    method Set(path: string, value: string) returns (r: Result)
      requires Valid()
      modifies this
      ensures Valid()
      ensures r == SettingsPaths.Set(codec, schema, old(tree), Split(path), value)
      ensures tree == if r.Ok? then r.tree else old(tree)
      ensures forall q: seq<string> :: !Comparable(Split(path), q) ==> SettingsPaths.Get(tree, q) == old(SettingsPaths.Get(tree, q))
      // what the text does to the value at the path, by its kind
      ensures old(SettingsPaths.Get(tree, Split(path))).Some? ==>
                && SchemaAt(schema, Split(path)).Some?
                && Understood(codec, SchemaAt(schema, Split(path)).value, old(SettingsPaths.Get(tree, Split(path))).value, value, r,
                              SettingsPaths.Get(tree, Split(path)))
    {
      ghost var before := tree;
      if SettingsPaths.Get(tree, Split(path)).Some? { SetUnderstood(codec, schema, tree, Split(path), value); }
      SetIsLocal(codec, schema, tree, Split(path), value);
      r := SettingsPaths.Set(codec, schema, tree, Split(path), value);
      if r.Ok? { tree := r.tree; }
      forall q: seq<string> | !Comparable(Split(path), q) ensures SettingsPaths.Get(tree, q) == SettingsPaths.Get(before, q) {
        SetFrame(codec, schema, Some(before), Split(path), value, q);
      }
    }

    /** `reset`: the default is stored exactly when the replaced value keeps the default's printed form. */
    method Reset(path: string) returns (r: Option<Result>)
      requires Valid()
      modifies this
      ensures Valid()
      ensures r.None? <==> SettingsPaths.Get(Default(schema), Split(path)).None?
      ensures r.None? ==> tree == old(tree)
      ensures ValidCodec(codec) && r.Some? ==>
                var d := SettingsPaths.Get(Default(schema), Split(path)).value;
                SettingsPaths.Get(tree, Split(path)) == Some(d) <==> Keeps(codec, old(SettingsPaths.Get(tree, Split(path))), d)
    {
      var d := SettingsPaths.Get(Default(schema), Split(path));
      if d.None? { return None; }
      ghost var before := tree;
      if ValidCodec(codec) { ResetRestoresDefault(codec, schema, before, Split(path)); }
      var s := Set(path, Text(codec, d.value));
      r := Some(s);
    }

    /** `merge_from`: the other settings layered over these. */
    method MergeFrom(other: Settings)
      requires Valid() && other.Valid() && other.schema == schema
      modifies this
      ensures Valid() && tree == Merge(old(tree), old(other.tree), Default(schema))
    {
      var mine, theirs, defaults := tree, other.tree, Default(schema);
      MergeConforms(schema, mine, theirs);
      var merged := MergeNonDefault(mine, theirs, defaults);
      assert Conforms(schema, merged);
      var read := Deserialize(schema, merged);
      if read.Some? { tree := read.value; }
    }

    /**
     * Saving to the database and loading back, in whatever order the stored map iterates: the settings
     * come back, owner forgotten, if and only if every field is restorable.
     */
    method SaveAndLoad(shuffle: set<string> -> seq<string>)
      requires Valid() && ValidCodec(codec) && SettingsType(schema)
      requires forall s: set<string> :: Elements(shuffle(s)) == s && forall a, b :: 0 <= a < b < |shuffle(s)| ==> shuffle(s)[a] != shuffle(s)[b]
      modifies this
      ensures Valid()
      ensures tree == WithoutOwner(old(tree)) <==>
              forall k | k in schema.fields && k != OWNER :: Restorable(codec, schema.fields[k], old(tree).fields[k])
    {
      var m := ToDbMap(tree);
      RoundTrip(codec, schema, tree, m, shuffle(m.Keys));
      tree := FromDbMap(codec, schema, m, shuffle(m.Keys));
    }
  }
}
