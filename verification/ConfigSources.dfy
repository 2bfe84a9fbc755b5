/** Whom the source map names: exactly for unambiguous keys it is the layer a value comes from. */
module ConfigSources {
  import opened Ordering
  import opened ConfigJson
  import opened ConfigPaths
  import opened ConfigKeys
  import opened ConfigMerge

  // ----- Layers that set a single place -----

  /** A document with one value in it leads to that value and nowhere else. */
  lemma {:induction false} NestedWalk(place: seq<string>, value: Json, path: seq<string>)
    requires place != [] && path != [] && !value.Obj?
    ensures WellKeyed(Nested(place, value).fields)
    ensures LeafOf(Nested(place, value).fields, path) == if path == place then Some(value) else None
    ensures Incomparable(place, path) ==> Walk(Nested(place, value).fields, path).Missing?
    decreases |place|
  {
    var fields, k := Nested(place, value).fields, place[0];
    assert HasKey(fields, k) && Get(fields, k) == Nested(place[1..], value);
    assert forall j :: j != k ==> !HasKey(fields, j);
    assert place == [k] + place[1..] && path == [path[0]] + path[1..];
    if path[0] == k && |place| > 1 {
      if |path| > 1 {
        NestedWalk(place[1..], value, path[1..]);
      } else {
        NestedWalk(place[1..], value, place[1..]);
      }
    } else if |place| > 1 {
      NestedWalk(place[1..], value, place[1..]);
    }
  }

  lemma NestedKeepsShape(earlier: seq<string>, value: Json, later: seq<string>, other: Json)
    requires Incomparable(earlier, later) && !value.Obj? && !other.Obj?
    ensures KeepsShape(Nested(earlier, value).fields, Nested(later, other).fields)
  {
    forall path: seq<string> | path != [] && LeafOf(Nested(earlier, value).fields, path).Some?
      ensures Walk(Nested(later, other).fields, path).Missing?
    {
      NestedWalk(earlier, value, path);
      NestedWalk(later, other, path);
    }
  }

  lemma NestedNamesItsPlace(place: seq<string>, value: Json)
    requires place != [] && !value.Obj?
    ensures Names(Nested(place, value).fields, "", JoinPath("", place))
  {
    NestedWalk(place, value, place);
  }

  // ----- One name, two places -----

  /** A layer that sets one place takes the name of another, where the default is still in force. */
  lemma LayerTakesADefaultsName(place: seq<string>, value: Json, other: seq<string>, theirs: Json, source: Source)
    requires Incomparable(place, other) && JoinPath("", place) == JoinPath("", other) && !value.Obj? && !theirs.Obj?
    ensures var base, layers := Nested(place, value).fields, [Layer(source, Nested(other, theirs).fields)];
            var name := JoinPath("", place);
            && Usable(layers) && ShapeCompatible(base, layers)
            && LeafOf(Stacked(base, layers), place) == LeafOf(base, place) == Some(value)
            && LastSetter(layers, place) == -1 && name in StackedNames(map[name := Builtin], layers)
            && StackedNames(map[name := Builtin], layers)[name] == source
  {
    var base, layers := Nested(place, value).fields, [Layer(source, Nested(other, theirs).fields)];
    var name := JoinPath("", place);
    NestedWalk(place, value, place);
    NestedWalk(other, theirs, place);
    NestedKeepsShape(place, value, other, theirs);
    NestedNamesItsPlace(other, theirs);
    OneLayerOverDefaults(base, layers[0], place, name);
  }

  lemma OneLayerOverDefaults(base: seq<Field>, layer: Layer, path: seq<string>, name: string)
    requires path != [] && WellKeyed(layer.fields) && KeepsShape(base, layer.fields)
    requires Walk(layer.fields, path).Missing? && Names(layer.fields, "", name)
    ensures var layers := [layer];
            && Usable(layers) && ShapeCompatible(base, layers) && LastSetter(layers, path) == -1
            && LeafOf(Stacked(base, layers), path) == LeafOf(base, path)
            && name in StackedNames(map[name := Builtin], layers)
            && StackedNames(map[name := Builtin], layers)[name] == layer.source
  {
    var layers := [layer];
    assert Names(layers[0].fields, "", name);
    assert LastToucher(layers, path) == -1 && LastNamer(layers, name) == 0;
    StackedLeaf(base, layers, path);
    StackedName(map[name := Builtin], layers, name);
  }

  lemma TwoLayersOverNothing(first: Layer, second: Layer, path: seq<string>, name: string)
    requires path != [] && WellKeyed(first.fields) && WellKeyed(second.fields)
    requires KeepsShape(first.fields, second.fields) && LeafOf(first.fields, path).Some?
    requires Walk(second.fields, path).Missing? && Names(second.fields, "", name)
    ensures var layers := [first, second];
            && Usable(layers) && ShapeCompatible([], layers) && LastSetter(layers, path) == 0
            && LeafOf(Stacked([], layers), path) == LeafOf(first.fields, path)
            && name in StackedNames(map[], layers) && StackedNames(map[], layers)[name] == second.source
  {
    var layers := [first, second];
    assert Names(layers[1].fields, "", name);
    assert LastToucher(layers, path) == 0 && LastNamer(layers, name) == 1;
    StackedLeaf([], layers, path);
    StackedName(map[], layers, name);
    TwoLayersShape(first, second);
  }

  lemma TwoLayersShape(first: Layer, second: Layer)
    requires WellKeyed(first.fields) && WellKeyed(second.fields) && KeepsShape(first.fields, second.fields)
    ensures Usable([first, second]) && ShapeCompatible([], [first, second])
  {
    var layers := [first, second];
    assert forall j: nat :: j < 2 ==> KeepsShape([], layers[j].fields);
  }

  /** A later layer that sets one place takes the name of another, where the earlier layer's value is in force. */
  lemma LaterLayerTakesTheName(
    place: seq<string>, value: Json, other: seq<string>, theirs: Json, earlier: Source, later: Source)
    requires Incomparable(place, other) && JoinPath("", place) == JoinPath("", other) && !value.Obj? && !theirs.Obj?
    ensures var name := JoinPath("", place);
            var layers := [Layer(earlier, Nested(place, value).fields), Layer(later, Nested(other, theirs).fields)];
            && Usable(layers) && ShapeCompatible([], layers)
            && LeafOf(Stacked([], layers), place) == Some(value) && LastSetter(layers, place) == 0
            && name in StackedNames(map[], layers) && StackedNames(map[], layers)[name] == later
  {
    var name := JoinPath("", place);
    var layers := [Layer(earlier, Nested(place, value).fields), Layer(later, Nested(other, theirs).fields)];
    NestedWalk(place, value, place);
    NestedWalk(other, theirs, place);
    NestedKeepsShape(place, value, other, theirs);
    NestedNamesItsPlace(other, theirs);
    TwoLayersOverNothing(layers[0], layers[1], place, name);
  }

  /** A dotted key in a layer is named for the default the dot's two parts lead to. */
  lemma DottedKeyTakesADefaultsName(a: string, b: string, value: Json, theirs: Json, source: Source)
    requires a != "" && !value.Obj? && !theirs.Obj?
    ensures var base, layers := [Field(a, Obj([Field(b, value)]))], [Layer(source, [Field(a + "." + b, theirs)])];
            var name := a + "." + b;
            && ShapeCompatible(base, layers) && LeafOf(Stacked(base, layers), [a, b]) == Some(value)
            && LastSetter(layers, [a, b]) == -1 && name in StackedNames(map[name := Builtin], layers)
            && StackedNames(map[name := Builtin], layers)[name] == source
  {
    DottedKeySharesPath(a, b);
    SinglePlaces(a, b, value, theirs);
    LayerTakesADefaultsName([a, b], value, [a + "." + b], theirs, source);
  }

  /** A layer that sets nested keys is named for the value an earlier layer set under the dotted one. */
  lemma NestedKeysTakeADottedName(a: string, b: string, value: Json, theirs: Json, earlier: Source, later: Source)
    requires a != "" && !value.Obj? && !theirs.Obj?
    ensures var name := a + "." + b;
            var layers := [Layer(earlier, [Field(name, value)]), Layer(later, [Field(a, Obj([Field(b, theirs)]))])];
            && ShapeCompatible([], layers) && LeafOf(Stacked([], layers), [name]) == Some(value)
            && LastSetter(layers, [name]) == 0
            && name in StackedNames(map[], layers) && StackedNames(map[], layers)[name] == later
  {
    DottedKeySharesPath(a, b);
    SinglePlaces(a, b, theirs, value);
    LaterLayerTakesTheName([a + "." + b], value, [a, b], theirs, earlier, later);
  }

  lemma SinglePlaces(a: string, b: string, nested: Json, dotted: Json)
    ensures Nested([a, b], nested) == Obj([Field(a, Obj([Field(b, nested)]))])
    ensures Nested([a + "." + b], dotted) == Obj([Field(a + "." + b, dotted)])
    ensures a != "" ==> Incomparable([a, b], [a + "." + b])
  {
    assert [a, b][1..] == [b] && [b][1..] == [] && [a + "." + b][1..] == [];
    assert Nested([b], nested) == Obj([Field(b, nested)]);
    assert [a, b][0] != [a + "." + b][0];
  }

  // ----- Exactly the unambiguous keys -----

  /** If the configuration holds a leaf there and its name is in the map, the map tells where the leaf comes from. */
  ghost predicate TrueAt(
    base: seq<Field>, names: SourceNames, layers: seq<Layer>, path: seq<string>, keys: iset<string>) {
    && path != [] && Over(path, keys) && KeysIn(base, keys) && LayersOver(layers, keys)
    && Usable(layers) && ShapeCompatible(base, layers) && HonestNames(base, names, keys)
    && LeafOf(Stacked(base, layers), path).Some? && JoinPath("", path) in StackedNames(names, layers) ==>
      ComesFromNamed(base, layers, Stacked(base, layers), StackedNames(names, layers), path)
  }

  ghost predicate MapIsTrue(keys: iset<string>) {
    forall base, names, layers, path :: TrueAt(base, names, layers, path, keys)
  }

  /** The map names the true layer for all compatible stacks over some keys if and only if the keys are unambiguous. */
  lemma MapIsTrueExactlyWhenUnambiguous(keys: iset<string>)
    requires exists k :: k in keys && k != ""
    ensures MapIsTrue(keys) <==> Unambiguous(keys)
  {
    if Unambiguous(keys) {
      forall base, names, layers, path
        ensures TrueAt(base, names, layers, path, keys)
      {
        if path != [] && Over(path, keys) && LayersOver(layers, keys) && Usable(layers) && ShapeCompatible(base, layers)
           && HonestNames(base, names, keys) && JoinPath("", path) in StackedNames(names, layers) {
          CompatibleLayersKeepProvenance(base, names, layers, path, keys);
        }
      }
    } else {
      var place, other := AmbiguousPlaces(keys);
      var value := Null;
      var layers := [Layer(User, Nested(place, value).fields), Layer(Request, Nested(other, value).fields)];
      LaterLayerTakesTheName(place, value, other, value, User, Request);
      NestedKeysIn(place, value, keys);
      NestedKeysIn(other, value, keys);
      assert !TrueAt([], map[], layers, place, keys);
    }
  }
}
