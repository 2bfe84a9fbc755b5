/** Deep merge of configuration layers with a shared source map, and what the layering means path by path. */
module ConfigMerge {
  import opened Ordering
  import opened ConfigJson
  import opened ConfigPaths
  import opened ConfigDiff

  datatype Source = Builtin | Env | User | Project | ContractLayer | Request

  type SourceNames = map<string, Source>

  /** `object[key] = value`: in place when the key is there, at the end otherwise. */
  function SetField(fields: seq<Field>, key: string, value: Json): seq<Field> {
    if fields == [] then [Field(key, value)]
    else if fields[0].key == key then [Field(key, value)] + fields[1..]
    else [fields[0]] + SetField(fields[1..], key, value)
  }

  lemma {:induction false} SetFieldAt(fields: seq<Field>, key: string, value: Json, k: string)
    ensures HasKey(SetField(fields, key, value), k) <==> HasKey(fields, k) || k == key
    ensures HasKey(SetField(fields, key, value), k) ==>
              Get(SetField(fields, key, value), k) == if k == key then value else Get(fields, k)
  {
    var r := SetField(fields, key, value);
    if fields != [] {
      if fields[0].key == key {
        assert r[1..] == fields[1..];
      } else {
        assert r[1..] == SetField(fields[1..], key, value);
        SetFieldAt(fields[1..], key, value, k);
      }
    }
  }

  /** The value a layer's field leaves behind over `base`. */
  function MergedValue(base: seq<Field>, key: string, value: Json): Json
    decreases Size(value), 0
  {
    if value.Obj? then Obj(Merged(OldFields(base, key), value.fields)) else value
  }

  function Merged(base: seq<Field>, over: seq<Field>): seq<Field>
    decreases SizeOfFields(over), |over|
  {
    if over == [] then base
    else
      var n := |over| - 1;
      FieldIsSmaller(over, n);
      FrontIsSmaller(over);
      SetField(Merged(base, over[..n]), over[n].key, MergedValue(base, over[n].key, over[n].value))
  }

  lemma {:induction false} FrontIsSmaller(fields: seq<Field>)
    requires fields != []
    ensures SizeOfFields(fields[..|fields| - 1]) < SizeOfFields(fields)
  {
    if |fields| > 1 {
      assert fields[..|fields| - 1][1..] == fields[1..][..|fields| - 2];
      FrontIsSmaller(fields[1..]);
    }
  }

  /** The source map after the layer named `source` is merged. */
  function Marked(names: SourceNames, over: seq<Field>, source: Source, prefix: string): SourceNames
    decreases SizeOfFields(over), |over|
  {
    if over == [] then names
    else
      var n := |over| - 1;
      FieldIsSmaller(over, n);
      FrontIsSmaller(over);
      var before := Marked(names, over[..n], source, prefix);
      var full := FullPath(prefix, over[n].key);
      if over[n].value.Obj? then Marked(before, over[n].value.fields, source, full) else before[full := source]
  }

  /** The map every call of one load shares and writes to. */
  class SourceMap {
    var names: SourceNames

    constructor (initial: SourceNames)
      ensures names == initial
    {
      names := initial;
    }
  }

  method MergeConfigs(base: seq<Field>, over: seq<Field>, source: Source, sources: SourceMap, prefix: string)
    returns (result: seq<Field>)
    modifies sources
    ensures result == Merged(base, over)
    ensures sources.names == Marked(old(sources.names), over, source, prefix)
    decreases SizeOfFields(over)
  {
    result := base;
    for i := 0 to |over|
      invariant result == Merged(base, over[..i])
      invariant sources.names == Marked(old(sources.names), over[..i], source, prefix)
    {
      var key, value := over[i].key, over[i].value;
      var fullKey := FullPath(prefix, key);
      assert over[..i + 1][..i] == over[..i];
      if value.Obj? {
        FieldIsSmaller(over, i);
        var nested := MergeConfigs(OldFields(base, key), value.fields, source, sources, fullKey);
        result := SetField(result, key, Obj(nested));
      } else {
        result := SetField(result, key, value);
        sources.names := sources.names[fullKey := source];
      }
    }
    assert over[..|over|] == over;
  }

  // ----- Merging, key by key and path by path -----

  lemma {:induction false} MergedAtKey(base: seq<Field>, over: seq<Field>, k: string)
    requires WellKeyed(over)
    ensures HasKey(Merged(base, over), k) <==> HasKey(base, k) || HasKey(over, k)
    ensures HasKey(over, k) ==> Get(Merged(base, over), k) == MergedValue(base, k, Get(over, k))
    ensures HasKey(base, k) && !HasKey(over, k) ==> Get(Merged(base, over), k) == Get(base, k)
    decreases |over|
  {
    if over != [] {
      var n := |over| - 1;
      assert forall i :: 0 <= i < n ==> over[..n][i] == over[i];
      MergedAtKey(base, over[..n], k);
      FrontKeys(over, k);
      SetFieldAt(Merged(base, over[..n]), over[n].key, MergedValue(base, over[n].key, over[n].value), k);
    }
  }

  lemma FrontKeys(over: seq<Field>, k: string)
    requires WellKeyed(over) && over != []
    ensures var front := over[..|over| - 1];
            if over[|over| - 1].key == k then !HasKey(front, k) && HasKey(over, k)
                && Get(over, k) == over[|over| - 1].value
            else (HasKey(over, k) <==> HasKey(front, k)) && (HasKey(over, k) ==> Get(over, k) == Get(front, k))
  {
  }

  /** Where a path leads: to a leaf, to an object, past a leaf, or nowhere. */
  datatype Place = Missing | Blocked | Branch | LeafValue(value: Json)

  function Walk(fields: seq<Field>, path: seq<string>): Place
    requires path != []
    decreases |path|
  {
    if !HasKey(fields, path[0]) then Missing
    else
      var v := Get(fields, path[0]);
      if |path| == 1 then if v.Obj? then Branch else LeafValue(v)
      else if v.Obj? then Walk(v.fields, path[1..]) else Blocked
  }

  function LeafOf(fields: seq<Field>, path: seq<string>): Option<Json>
    requires path != []
  {
    var p := Walk(fields, path);
    if p.LeafValue? then Some(p.value) else None
  }

  /** A leaf of the merge is the layer's if the layer leads anywhere along the path, the base's otherwise. */
  lemma {:induction false} MergedLeaf(base: seq<Field>, over: seq<Field>, path: seq<string>)
    requires path != [] && WellKeyed(over)
    ensures LeafOf(Merged(base, over), path) ==
              if Walk(over, path).Missing? then LeafOf(base, path) else LeafOf(over, path)
    decreases |path|
  {
    var k := path[0];
    MergedAtKey(base, over, k);
    if HasKey(over, k) && Get(over, k).Obj? && |path| > 1 {
      GetKeepsShape(over, k);
      MergedLeaf(OldFields(base, k), Get(over, k).fields, path[1..]);
    }
  }

  /** How one layer treats one path's name: its own leaves take its source, everything else keeps what it had. */
  predicate RenamesOnly(before: SourceNames, after: SourceNames, name: string, source: Source, mine: bool) {
    if mine then name in after && after[name] == source
    else (name in after <==> name in before) && (name in before ==> after[name] == before[name])
  }

  /** The layer sets a leaf whose dotted name is `name`. */
  ghost predicate Names(over: seq<Field>, prefix: string, name: string) {
    exists path :: path != [] && LeafOf(over, path).Some? && JoinPath(prefix, path) == name
  }

  lemma RenamesCompose(
    a: SourceNames, b: SourceNames, c: SourceNames, name: string, source: Source, first: bool, second: bool)
    requires RenamesOnly(a, b, name, source, first) && RenamesOnly(b, c, name, source, second)
    ensures RenamesOnly(a, c, name, source, first || second)
  {
  }

  lemma FrontIsWellKeyed(over: seq<Field>)
    requires WellKeyed(over) && over != []
    ensures WellKeyed(over[..|over| - 1])
    ensures over[|over| - 1].value.Obj? ==> WellKeyed(over[|over| - 1].value.fields)
  {
    assert forall i :: 0 <= i < |over| - 1 ==> over[..|over| - 1][i] == over[i];
  }

  lemma LeafOfLast(over: seq<Field>, path: seq<string>)
    requires WellKeyed(over) && over != [] && path != []
    ensures var front, last := over[..|over| - 1], over[|over| - 1];
            LeafOf(over, path).Some? <==> LeafOf(front, path).Some? || LeafOf([last], path).Some?
  {
    FrontKeys(over, path[0]);
    var last := over[|over| - 1];
    assert last.key == path[0] ==> HasKey([last], path[0]) && Get([last], path[0]) == last.value;
  }

  lemma NamesOfLast(over: seq<Field>, prefix: string, name: string)
    requires WellKeyed(over) && over != []
    ensures Names(over, prefix, name) <==>
              Names(over[..|over| - 1], prefix, name) || Names([over[|over| - 1]], prefix, name)
  {
    forall path: seq<string> | path != []
      ensures LeafOf(over, path).Some? <==>
                LeafOf(over[..|over| - 1], path).Some? || LeafOf([over[|over| - 1]], path).Some?
    {
      LeafOfLast(over, path);
    }
  }

  /** The leaves below one field are the leaves of the object it holds, or the field itself. */
  lemma NamesOfField(field: Field, prefix: string, name: string)
    ensures var full := FullPath(prefix, field.key);
            Names([field], prefix, name) <==>
              if field.value.Obj? then Names(field.value.fields, full, name) else name == full
  {
    var full, k := FullPath(prefix, field.key), field.key;
    assert HasKey([field], k) && Get([field], k) == field.value && JoinPath(prefix, [k]) == full;
    if Names([field], prefix, name) {
      var path :| path != [] && LeafOf([field], path).Some? && JoinPath(prefix, path) == name;
      assert path[0] == k;
      if |path| == 1 {
        assert path == [k];
      } else {
        assert LeafOf(field.value.fields, path[1..]).Some? && JoinPath(full, path[1..]) == name;
      }
    }
    if field.value.Obj? {
      if rest :| rest != [] && LeafOf(field.value.fields, rest).Some? && JoinPath(full, rest) == name {
        assert ([k] + rest)[1..] == rest;
        assert LeafOf([field], [k] + rest).Some? && JoinPath(prefix, [k] + rest) == name;
      }
    } else if name == full {
      assert LeafOf([field], [k]).Some? && JoinPath(prefix, [k]) == name;
    }
  }

  /** The source map renames exactly the names of the layer's leaves, whatever the keys. */
  lemma {:induction false} MarkedAtName(
    names: SourceNames, over: seq<Field>, source: Source, prefix: string, name: string)
    requires WellKeyed(over)
    ensures RenamesOnly(names, Marked(names, over, source, prefix), name, source, Names(over, prefix, name))
    decreases SizeOfFields(over), |over|
  {
    if over != [] {
      var n := |over| - 1;
      var front, last, full := over[..n], over[n], FullPath(prefix, over[n].key);
      var before := Marked(names, front, source, prefix);
      FrontIsSmaller(over);
      FieldIsSmaller(over, n);
      FrontIsWellKeyed(over);
      NamesOfLast(over, prefix, name);
      NamesOfField(last, prefix, name);
      MarkedAtName(names, front, source, prefix, name);
      if last.value.Obj? {
        MarkedAtName(before, last.value.fields, source, full, name);
      }
      RenamesCompose(names, before, Marked(names, over, source, prefix), name, source,
                     Names(front, prefix, name), Names([last], prefix, name));
    }
  }

  /** A leaf lies at a chain of the layer's own keys. */
  lemma {:induction false} LeafIsOverKeys(fields: seq<Field>, path: seq<string>, keys: iset<string>)
    requires path != [] && KeysIn(fields, keys) && LeafOf(fields, path).Some?
    ensures Over(path, keys)
    decreases |path|
  {
    if |path| > 1 {
      LeafIsOverKeys(Get(fields, path[0]).fields, path[1..], keys);
      assert path == [path[0]] + path[1..];
    }
  }

  /** With unambiguous keys a name is a layer's exactly when the place it names is. */
  lemma NamesItsPlace(over: seq<Field>, path: seq<string>, keys: iset<string>)
    requires Unambiguous(keys) && KeysIn(over, keys) && Over(path, keys) && path != []
    ensures Names(over, "", JoinPath("", path)) <==> LeafOf(over, path).Some?
  {
    if Names(over, "", JoinPath("", path)) {
      var other :| other != [] && LeafOf(over, other).Some? && JoinPath("", other) == JoinPath("", path);
      LeafIsOverKeys(over, other, keys);
    }
  }

  // ----- Whole stacks of layers -----

  datatype Layer = Layer(source: Source, fields: seq<Field>)

  function Stacked(base: seq<Field>, layers: seq<Layer>): seq<Field> {
    if layers == [] then base else Merged(Stacked(base, layers[..|layers| - 1]), layers[|layers| - 1].fields)
  }

  function StackedNames(names: SourceNames, layers: seq<Layer>): SourceNames {
    if layers == [] then names
    else
      var last := layers[|layers| - 1];
      Marked(StackedNames(names, layers[..|layers| - 1]), last.fields, last.source, "")
  }

  predicate Usable(layers: seq<Layer>) {
    forall i :: 0 <= i < |layers| ==> WellKeyed(layers[i].fields)
  }

  ghost predicate LayersOver(layers: seq<Layer>, keys: iset<string>) {
    forall i :: 0 <= i < |layers| ==> KeysIn(layers[i].fields, keys)
  }

  /** The last layer with a leaf of that name, or -1. */
  ghost function LastNamer(layers: seq<Layer>, name: string): (i: int)
    ensures -1 <= i < |layers|
    ensures i >= 0 ==> Names(layers[i].fields, "", name)
    ensures forall j :: i < j < |layers| ==> !Names(layers[j].fields, "", name)
  {
    if layers == [] then -1
    else if Names(layers[|layers| - 1].fields, "", name) then |layers| - 1
    else LastNamer(layers[..|layers| - 1], name)
  }

  /** The last layer that sets a leaf at the path, or -1. */
  function LastSetter(layers: seq<Layer>, path: seq<string>): (i: int)
    requires path != []
    ensures -1 <= i < |layers|
    ensures i >= 0 ==> LeafOf(layers[i].fields, path).Some?
    ensures forall j :: i < j < |layers| ==> LeafOf(layers[j].fields, path).None?
  {
    if layers == [] then -1
    else if LeafOf(layers[|layers| - 1].fields, path).Some? then |layers| - 1
    else LastSetter(layers[..|layers| - 1], path)
  }

  /** The last layer that leads anywhere along the path, or -1. */
  function LastToucher(layers: seq<Layer>, path: seq<string>): (i: int)
    requires path != []
    ensures -1 <= i < |layers|
    ensures i >= 0 ==> !Walk(layers[i].fields, path).Missing?
    ensures forall j :: i < j < |layers| ==> Walk(layers[j].fields, path).Missing?
  {
    if layers == [] then -1
    else if !Walk(layers[|layers| - 1].fields, path).Missing? then |layers| - 1
    else LastToucher(layers[..|layers| - 1], path)
  }

  lemma {:induction false} StackedLeaf(base: seq<Field>, layers: seq<Layer>, path: seq<string>)
    requires path != [] && Usable(layers)
    ensures var i := LastToucher(layers, path);
            LeafOf(Stacked(base, layers), path) ==
              if i < 0 then LeafOf(base, path) else LeafOf(layers[i].fields, path)
  {
    if layers != [] {
      var n := |layers| - 1;
      assert forall i :: 0 <= i < n ==> layers[..n][i] == layers[i];
      StackedLeaf(base, layers[..n], path);
      MergedLeaf(Stacked(base, layers[..n]), layers[n].fields, path);
    }
  }

  /** The map gives each name to the last layer with a leaf of that name, whatever the keys. */
  lemma {:induction false} StackedName(names: SourceNames, layers: seq<Layer>, name: string)
    requires Usable(layers)
    ensures var i := LastNamer(layers, name);
            RenamesOnly(names, StackedNames(names, layers), name, if i >= 0 then layers[i].source else Builtin, i >= 0)
  {
    if layers != [] {
      var n := |layers| - 1;
      assert forall i :: 0 <= i < n ==> layers[..n][i] == layers[i];
      StackedName(names, layers[..n], name);
      MarkedAtName(StackedNames(names, layers[..n]), layers[n].fields, layers[n].source, "", name);
    }
  }

  /** With unambiguous keys that is the last layer that sets the place. */
  lemma LastNamerIsLastSetter(layers: seq<Layer>, path: seq<string>, keys: iset<string>)
    requires Unambiguous(keys) && LayersOver(layers, keys) && Over(path, keys) && path != []
    ensures LastNamer(layers, JoinPath("", path)) == LastSetter(layers, path)
  {
    forall i | 0 <= i < |layers|
      ensures Names(layers[i].fields, "", JoinPath("", path)) <==> LeafOf(layers[i].fields, path).Some?
    {
      NamesItsPlace(layers[i].fields, path, keys);
    }
  }

  /**
   * A layer's leaf is what the configuration holds at its path, and the map says so, if and only if
   * no later layer leads anywhere along that path.
   */
  lemma SourceIsTrueExactlyWhenUntouchedLater(
    base: seq<Field>, names: SourceNames, layers: seq<Layer>, path: seq<string>, keys: iset<string>)
    requires Unambiguous(keys) && LayersOver(layers, keys) && Over(path, keys)
    requires path != [] && Usable(layers) && LastSetter(layers, path) >= 0
    ensures var i, name := LastSetter(layers, path), JoinPath("", path);
            && name in StackedNames(names, layers)
            && StackedNames(names, layers)[name] == layers[i].source
            && (LeafOf(Stacked(base, layers), path) == LeafOf(layers[i].fields, path) <==>
                forall j :: i < j < |layers| ==> Walk(layers[j].fields, path).Missing?)
  {
    StackedName(names, layers, JoinPath("", path));
    LastNamerIsLastSetter(layers, path, keys);
    InForceExactlyWhenUntouchedLater(base, layers, path);
  }

  lemma InForceExactlyWhenUntouchedLater(base: seq<Field>, layers: seq<Layer>, path: seq<string>)
    requires path != [] && Usable(layers) && LastSetter(layers, path) >= 0
    ensures var i := LastSetter(layers, path);
            LeafOf(Stacked(base, layers), path) == LeafOf(layers[i].fields, path) <==>
            forall j :: i < j < |layers| ==> Walk(layers[j].fields, path).Missing?
  {
    StackedLeaf(base, layers, path);
    var i, j := LastSetter(layers, path), LastToucher(layers, path);
    assert j >= i;
    if j > i {
      assert LeafOf(layers[j].fields, path).None?;
    }
  }

  /** `later` turns no leaf of `earlier` into an object, or into something without members. */
  ghost predicate KeepsShape(earlier: seq<Field>, later: seq<Field>) {
    forall path: seq<string> :: path != [] && LeafOf(earlier, path).Some? ==>
      Walk(later, path).Missing? || Walk(later, path).LeafValue?
  }

  ghost predicate ShapeCompatible(base: seq<Field>, layers: seq<Layer>) {
    && (forall j :: 0 <= j < |layers| ==> KeepsShape(base, layers[j].fields))
    && (forall i, j :: 0 <= i < j < |layers| ==> KeepsShape(layers[i].fields, layers[j].fields))
  }

  /** The base's own source map names only leaves of the base, and calls them built in. */
  ghost predicate HonestNames(base: seq<Field>, names: SourceNames, keys: iset<string>) {
    forall path :: path != [] && Over(path, keys) && JoinPath("", path) in names ==>
      LeafOf(base, path).Some? && names[JoinPath("", path)] == Builtin
  }

  /** The value at the path is that of the highest layer that sets it, or the base's, and the map says which. */
  ghost predicate ComesFromNamed(
    base: seq<Field>, layers: seq<Layer>, effective: seq<Field>, names: SourceNames, path: seq<string>)
    requires path != []
  {
    var i, name := LastSetter(layers, path), JoinPath("", path);
    var origin := if i < 0 then base else layers[i].fields;
    && LeafOf(origin, path).Some? && LeafOf(effective, path) == LeafOf(origin, path)
    && name in names && names[name] == if i < 0 then Builtin else layers[i].source
  }

  /** With compatible shapes the highest layer that sets a leaf, or the base, is what the configuration holds. */
  lemma CompatibleLayersKeepLeaves(base: seq<Field>, layers: seq<Layer>, path: seq<string>)
    requires path != [] && Usable(layers) && ShapeCompatible(base, layers)
    ensures var i := LastSetter(layers, path);
            var origin := if i < 0 then base else layers[i].fields;
            LeafOf(origin, path).Some? ==> LeafOf(Stacked(base, layers), path) == LeafOf(origin, path)
  {
    StackedLeaf(base, layers, path);
    var i := LastSetter(layers, path);
    var origin := if i < 0 then base else layers[i].fields;
    if LeafOf(origin, path).Some? {
      assert forall l :: i < l < |layers| ==> KeepsShape(origin, layers[l].fields);
      forall l | i < l < |layers|
        ensures Walk(layers[l].fields, path).Missing?
      {
        assert LeafOf(layers[l].fields, path).None?;
      }
    }
  }

  /** With compatible shapes each named leaf comes from the highest layer that sets it, and the map names that layer. */
  lemma CompatibleLayersKeepProvenance(
    base: seq<Field>, names: SourceNames, layers: seq<Layer>, path: seq<string>, keys: iset<string>)
    requires Unambiguous(keys) && LayersOver(layers, keys) && Over(path, keys) && HonestNames(base, names, keys)
    requires path != [] && Usable(layers) && ShapeCompatible(base, layers)
    requires JoinPath("", path) in StackedNames(names, layers)
    ensures ComesFromNamed(base, layers, Stacked(base, layers), StackedNames(names, layers), path)
  {
    StackedName(names, layers, JoinPath("", path));
    LastNamerIsLastSetter(layers, path, keys);
    CompatibleLayersKeepLeaves(base, layers, path);
  }
}
