/** Loading the effective configuration: the project layer is filtered, then allowed only to tighten. */
module ConfigLayers {
  import opened Ordering
  import opened ConfigJson
  import opened ConfigPaths
  import opened ConfigDiff
  import opened ConfigMerge

  // ----- The forbidden-key filter -----

  function RecursiveFilter(j: Json, forbidden: string -> bool): Json
    decreases j
  {
    match j
    case Arr(items) => Arr(FilterItems(items, forbidden))
    case Obj(fields) => Obj(FilterFields(fields, forbidden))
    case _ => j
  }

  function FilterItems(items: seq<Json>, forbidden: string -> bool): (r: seq<Json>)
    ensures |r| == |items| && forall i :: 0 <= i < |items| ==> r[i] == RecursiveFilter(items[i], forbidden)
  {
    if items == [] then [] else [RecursiveFilter(items[0], forbidden)] + FilterItems(items[1..], forbidden)
  }

  function FilterFields(fields: seq<Field>, forbidden: string -> bool): seq<Field> {
    if fields == [] then []
    else
      var rest := FilterFields(fields[1..], forbidden);
      if forbidden(fields[0].key) then rest
      else [Field(fields[0].key, RecursiveFilter(fields[0].value, forbidden))] + rest
  }

  /** No forbidden key at any depth, arrays included. */
  predicate Clean(j: Json, forbidden: string -> bool) {
    match j
    case Arr(items) => forall i :: 0 <= i < |items| ==> Clean(items[i], forbidden)
    case Obj(fields) => CleanFields(fields, forbidden)
    case _ => true
  }

  predicate CleanFields(fields: seq<Field>, forbidden: string -> bool) {
    forall i :: 0 <= i < |fields| ==> !forbidden(fields[i].key) && Clean(fields[i].value, forbidden)
  }

  lemma {:induction false} FilteredIsClean(j: Json, forbidden: string -> bool)
    ensures Clean(RecursiveFilter(j, forbidden), forbidden)
    decreases j
  {
    match j
    case Arr(items) =>
      forall i | 0 <= i < |items|
        ensures Clean(FilterItems(items, forbidden)[i], forbidden)
      {
        FilteredIsClean(items[i], forbidden);
      }
    case Obj(fields) => FilteredFieldsAreClean(fields, forbidden);
    case _ =>
  }

  lemma {:induction false} FilteredFieldsAreClean(fields: seq<Field>, forbidden: string -> bool)
    ensures CleanFields(FilterFields(fields, forbidden), forbidden)
  {
    if fields != [] {
      FilteredIsClean(fields[0].value, forbidden);
      FilteredFieldsAreClean(fields[1..], forbidden);
    }
  }

  lemma {:induction false} FilteredAtKey(fields: seq<Field>, forbidden: string -> bool, k: string)
    ensures HasKey(FilterFields(fields, forbidden), k) <==> HasKey(fields, k) && !forbidden(k)
    ensures HasKey(fields, k) && !forbidden(k) ==>
              Get(FilterFields(fields, forbidden), k) == RecursiveFilter(Get(fields, k), forbidden)
  {
    if fields != [] {
      FilteredAtKey(fields[1..], forbidden, k);
      var r := FilterFields(fields, forbidden);
      if !forbidden(fields[0].key) {
        assert r[1..] == FilterFields(fields[1..], forbidden);
      }
    }
  }

  /** The filter removes what lies at or below a forbidden key, and nothing else. */
  lemma {:induction false} FilterKeepsTheRest(fields: seq<Field>, forbidden: string -> bool, path: seq<string>)
    requires path != []
    ensures var before := LeafOf(fields, path);
            LeafOf(FilterFields(fields, forbidden), path) ==
              if before.None? || (exists i :: 0 <= i < |path| && forbidden(path[i])) then None
              else Some(RecursiveFilter(before.value, forbidden))
    decreases |path|
  {
    var k := path[0];
    FilteredAtKey(fields, forbidden, k);
    if HasKey(fields, k) && Get(fields, k).Obj? && |path| > 1 {
      FilterKeepsTheRest(Get(fields, k).fields, forbidden, path[1..]);
      assert forall i :: 0 < i < |path| ==> path[i] == path[1..][i - 1];
    }
  }

  lemma PrependKeepsKeys(field: Field, rest: seq<Field>, keys: iset<string>)
    requires field.key in keys && KeysIn(rest, keys) && (field.value.Obj? ==> KeysIn(field.value.fields, keys))
    ensures KeysIn([field] + rest, keys)
  {
  }

  lemma PrependStaysWellKeyed(field: Field, rest: seq<Field>)
    requires !HasKey(rest, field.key) && WellKeyed(rest) && (field.value.Obj? ==> WellKeyed(field.value.fields))
    ensures WellKeyed([field] + rest)
  {
  }

  lemma RestShape(fields: seq<Field>, keys: iset<string>)
    requires fields != []
    ensures WellKeyed(fields) ==> !HasKey(fields[1..], fields[0].key) && WellKeyed(fields[1..]) &&
                                  (fields[0].value.Obj? ==> WellKeyed(fields[0].value.fields))
    ensures KeysIn(fields, keys) ==> fields[0].key in keys && KeysIn(fields[1..], keys) &&
                                     (fields[0].value.Obj? ==> KeysIn(fields[0].value.fields, keys))
  {
  }

  lemma {:induction false} FilterKeepsShape(fields: seq<Field>, forbidden: string -> bool, keys: iset<string>)
    ensures WellKeyed(fields) ==> WellKeyed(FilterFields(fields, forbidden))
    ensures KeysIn(fields, keys) ==> KeysIn(FilterFields(fields, forbidden), keys)
  {
    if fields != [] {
      var rest := FilterFields(fields[1..], forbidden);
      var first := Field(fields[0].key, RecursiveFilter(fields[0].value, forbidden));
      RestShape(fields, keys);
      FilterKeepsShape(fields[1..], forbidden, keys);
      if fields[0].value.Obj? {
        FilterKeepsShape(fields[0].value.fields, forbidden, keys);
      }
      FilteredAtKey(fields[1..], forbidden, fields[0].key);
      if KeysIn(fields, keys) { PrependKeepsKeys(first, rest, keys); }
    }
  }

  // ----- Tightening -----

  predicate IsDirectionKey(key: string) {
    key in ["sameProjectOnly", "allowRemoteTransport", "handoffRequiresUserConfirmation"]
  }

  predicate IsCeilingKey(key: string) {
    key in ["maxHops", "maxOutstandingConsultsPerTask", "maxMessagesPerMinutePerTask", "maxMessageBytes",
            "maxContextRefs", "defaultTtlSeconds", "maxTtlSeconds", "messageRetentionDays"]
  }

  /** Strictness of an inbound policy; -1 for anything that is not one. */
  function PolicyRank(v: Option<Json>): int {
    if v == Some(Str("accept")) then 0
    else if v == Some(Str("hold")) then 1
    else if v == Some(Str("refuse")) then 2
    else -1
  }

  function At(fields: seq<Field>, key: string): Option<Json> {
    if HasKey(fields, key) then Some(Get(fields, key)) else None
  }

  datatype Verdict = Keep | Reject | Drop

  function Judge(key: string, value: Json, higher: seq<Field>): Verdict {
    var above := At(higher, key);
    if key == "enabled" then
      if !value.Bool? then Drop
      else if value.flag && above == Some(Bool(false)) then Reject
      else Keep
    else if key == "defaultInboundPolicy" then
      if PolicyRank(Some(value)) < 0 || PolicyRank(above) < 0 then Drop
      else if PolicyRank(Some(value)) >= PolicyRank(above) then Keep
      else Reject
    else if IsDirectionKey(key) then
      // `===`: two objects or arrays are never the same one.
      if Some(value) == above && !value.Obj? && !value.Arr? then Keep else Reject
    else if IsCeilingKey(key) then
      if !value.Num? then Drop
      else if above.Some? && above.value.Num? && value.number <= above.value.number then Keep
      else Reject
    else Drop
  }

  function Kept(fields: seq<Field>, higher: seq<Field>): seq<Field> {
    if fields == [] then []
    else
      var front, last := Kept(fields[..|fields| - 1], higher), fields[|fields| - 1];
      if Judge(last.key, last.value, higher) == Keep then SetField(front, last.key, last.value) else front
  }

  function Rejected(fields: seq<Field>, higher: seq<Field>): seq<string> {
    if fields == [] then []
    else
      var front, last := Rejected(fields[..|fields| - 1], higher), fields[|fields| - 1];
      if Judge(last.key, last.value, higher) == Reject then front + [last.key] else front
  }

  method SanitizeProjectCollaboration(project: Json, higher: seq<Field>)
    returns (sanitized: Option<seq<Field>>, missingFields: seq<string>)
    ensures sanitized == if project.Obj? then Some(Kept(project.fields, higher)) else None
    ensures project.Obj? ==> missingFields == Rejected(project.fields, higher)
    ensures !project.Obj? ==> missingFields == ["collaboration"]
  {
    if !project.Obj? {
      return None, ["collaboration"];
    }
    var fields, kept := project.fields, [];
    missingFields := [];
    for i := 0 to |fields|
      invariant kept == Kept(fields[..i], higher)
      invariant missingFields == Rejected(fields[..i], higher)
    {
      assert fields[..i + 1][..i] == fields[..i];
      match Judge(fields[i].key, fields[i].value, higher) {
        case Keep => kept := SetField(kept, fields[i].key, fields[i].value);
        case Reject => missingFields := missingFields + [fields[i].key];
        case Drop =>
      }
    }
    assert fields[..|fields|] == fields;
    sanitized := Some(kept);
  }

  lemma {:induction false} KeptAtKey(fields: seq<Field>, higher: seq<Field>, k: string)
    requires WellKeyed(fields)
    ensures At(Kept(fields, higher), k) ==
              if HasKey(fields, k) && Judge(k, Get(fields, k), higher) == Keep then Some(Get(fields, k)) else None
  {
    if fields != [] {
      var n := |fields| - 1;
      assert forall i :: 0 <= i < n ==> fields[..n][i] == fields[i];
      KeptAtKey(fields[..n], higher, k);
      FrontKeys(fields, k);
      SetFieldAt(Kept(fields[..n], higher), fields[n].key, fields[n].value, k);
    }
  }

  /** The collaboration settings `after` allow nothing that `before` did not. */
  ghost predicate NoLooser(before: seq<Field>, after: seq<Field>) {
    forall k :: NoLooserAt(k, At(before, k), At(after, k))
  }

  predicate NoLooserAt(key: string, before: Option<Json>, after: Option<Json>) {
    if key == "enabled" then before == Some(Bool(false)) ==> after == Some(Bool(false))
    else if key == "defaultInboundPolicy" then PolicyRank(after) >= PolicyRank(before)
    else if IsCeilingKey(key) then CeilingHolds(before, after)
    else after == before
  }

  predicate CeilingHolds(before: Option<Json>, after: Option<Json>) {
    before == after || (before.Some? && before.value.Num? && after.Some? && after.value.Num?
        && after.value.number <= before.value.number)
  }

  /** The project layer as merged: its collaboration block sanitized, or dropped when it is not an object. */
  function Tightened(project: seq<Field>, effective: seq<Field>): seq<Field> {
    if !HasKey(project, "collaboration") then project
    else if Get(project, "collaboration").Obj? then
      SetField(project, "collaboration",
               Obj(Kept(Get(project, "collaboration").fields, OldFields(effective, "collaboration"))))
    else RemoveField(project, "collaboration")
  }

  function RemoveField(fields: seq<Field>, key: string): seq<Field> {
    if fields == [] then []
    else if fields[0].key == key then RemoveField(fields[1..], key)
    else [fields[0]] + RemoveField(fields[1..], key)
  }

  method ApplyProjectTightening(project: seq<Field>, effective: seq<Field>)
    returns (result: seq<Field>, missingFields: seq<string>)
    ensures result == Tightened(project, effective)
  {
    result, missingFields := project, [];
    if HasKey(project, "collaboration") {
      var higher := OldFields(effective, "collaboration");
      var sanitized;
      sanitized, missingFields := SanitizeProjectCollaboration(Get(project, "collaboration"), higher);
      if sanitized.None? {
        result := RemoveField(result, "collaboration");
      } else {
        result := SetField(result, "collaboration", Obj(sanitized.value));
      }
    }
  }

  lemma AtPrepended(field: Field, rest: seq<Field>, k: string)
    ensures At([field] + rest, k) == if field.key == k then Some(field.value) else At(rest, k)
  {
    assert ([field] + rest)[1..] == rest;
  }

  lemma {:induction false} RemoveFieldAt(fields: seq<Field>, key: string, k: string)
    ensures At(RemoveField(fields, key), k) == if k == key then None else At(fields, k)
  {
    if fields != [] {
      RemoveFieldAt(fields[1..], key, k);
      AtPrepended(fields[0], fields[1..], k);
      assert fields == [fields[0]] + fields[1..];
      AtPrepended(fields[0], RemoveField(fields[1..], key), k);
    }
  }

  lemma {:induction false} RemoveFieldKeepsShape(fields: seq<Field>, key: string, keys: iset<string>)
    ensures WellKeyed(fields) ==> WellKeyed(RemoveField(fields, key))
    ensures KeysIn(fields, keys) ==> KeysIn(RemoveField(fields, key), keys)
  {
    if fields != [] {
      var rest := RemoveField(fields[1..], key);
      RestShape(fields, keys);
      RemoveFieldKeepsShape(fields[1..], key, keys);
      RemoveFieldAt(fields[1..], key, fields[0].key);
      if WellKeyed(fields) { PrependStaysWellKeyed(fields[0], rest); }
      if KeysIn(fields, keys) { PrependKeepsKeys(fields[0], rest, keys); }
    }
  }

  lemma {:induction false} SetFieldKeepsShape(fields: seq<Field>, key: string, value: Json, keys: iset<string>)
    ensures WellKeyed(fields) && (value.Obj? ==> WellKeyed(value.fields)) ==> WellKeyed(SetField(fields, key, value))
    ensures KeysIn(fields, keys) && key in keys && (value.Obj? ==> KeysIn(value.fields, keys)) ==>
              KeysIn(SetField(fields, key, value), keys)
  {
    if fields != [] {
      RestShape(fields, keys);
      var same := fields[0].key == key;
      var first := if same then Field(key, value) else fields[0];
      var rest := if same then fields[1..] else SetField(fields[1..], key, value);
      SetFieldKeepsShape(fields[1..], key, value, keys);
      SetFieldAt(fields[1..], key, value, fields[0].key);
      if KeysIn(fields, keys) && key in keys && (value.Obj? ==> KeysIn(value.fields, keys)) {
        PrependKeepsKeys(first, rest, keys);
      }
    }
  }

  lemma {:induction false} KeptKeepsShape(fields: seq<Field>, higher: seq<Field>, keys: iset<string>)
    ensures WellKeyed(Kept(fields, higher))
    ensures KeysIn(fields, keys) ==> KeysIn(Kept(fields, higher), keys)
  {
    if fields != [] {
      var n := |fields| - 1;
      assert forall i :: 0 <= i < n ==> fields[..n][i] == fields[i];
      KeptKeepsShape(fields[..n], higher, keys);
      if Judge(fields[n].key, fields[n].value, higher) == Keep {
        KeepNeverLoosens(fields[n].key, fields[n].value, higher);
        SetFieldKeepsShape(Kept(fields[..n], higher), fields[n].key, fields[n].value, keys);
      }
    }
  }

  lemma TightenedKeepsShape(project: seq<Field>, effective: seq<Field>, keys: iset<string>)
    ensures WellKeyed(project) ==> WellKeyed(Tightened(project, effective))
    ensures KeysIn(project, keys) ==> KeysIn(Tightened(project, effective), keys)
  {
    var key := "collaboration";
    if HasKey(project, key) {
      if Get(project, key).Obj? {
        GetKeepsShape(project, key);
        var kept := Kept(Get(project, key).fields, OldFields(effective, key));
        KeptKeepsShape(Get(project, key).fields, OldFields(effective, key), keys);
        SetFieldKeepsShape(project, key, Obj(kept), keys);
      } else {
        RemoveFieldKeepsShape(project, key, keys);
      }
    }
  }

  /** Whatever the project layer says, the collaboration settings after it are no looser than before it. */
  lemma ProjectNeverLoosens(effective: seq<Field>, project: seq<Field>)
    requires WellKeyed(project)
    ensures NoLooser(OldFields(effective, "collaboration"),
                     OldFields(Merged(effective, Tightened(project, effective)), "collaboration"))
  {
    var key, over := "collaboration", Tightened(project, effective);
    TightenedKeepsShape(project, effective, iset{});
    MergedAtKey(effective, over, key);
    var before := OldFields(effective, key);
    if HasKey(project, key) && Get(project, key).Obj? {
      var fields := Get(project, key).fields;
      GetKeepsShape(project, key);
      SetFieldAt(project, key, Obj(Kept(fields, before)), key);
      KeptKeepsShape(fields, before, iset{});
      KeptNeverLoosens(before, fields);
    } else if HasKey(project, key) {
      RemoveFieldAt(project, key, key);
    }
  }

  /** The strictness order of inbound policies, loosest first. */
  const POLICIES := ["accept", "hold", "refuse"]

  /**
   * What a project may set, key by key: it may close collaboration or leave it open, keep or raise the strictness of a
   * policy, repeat a direction, and keep or lower a ceiling that is set above it. Everything else it says is rejected
   * when it is a change it may not make, and dropped without a word otherwise.
   */
  lemma ProjectMaySetExactly(key: string, value: Json, higher: seq<Field>)
    ensures Judge(key, value, higher) == Keep <==>
            || (key == "enabled" && value.Bool? && (At(higher, key) == Some(Bool(false)) ==> value == Bool(false)))
            || (key == "defaultInboundPolicy" &&
                exists i, j ::
                  0 <= i <= j < 3 && At(higher, key) == Some(Str(POLICIES[i])) && value == Str(POLICIES[j]))
            || (key in {"sameProjectOnly", "allowRemoteTransport", "handoffRequiresUserConfirmation"}
                && At(higher, key) == Some(value) && !value.Obj? && !value.Arr?)
            || (key in {"maxHops", "maxOutstandingConsultsPerTask", "maxMessagesPerMinutePerTask", "maxMessageBytes",
                        "maxContextRefs", "defaultTtlSeconds", "maxTtlSeconds", "messageRetentionDays"}
                && value.Num? && exists x :: At(higher, key) == Some(Num(x)) && value.number <= x)
    ensures Judge(key, value, higher) == Reject <==>
            || (key == "enabled" && value == Bool(true) && At(higher, key) == Some(Bool(false)))
            || (key == "defaultInboundPolicy" &&
                exists i, j ::
                  0 <= j < i < 3 && At(higher, key) == Some(Str(POLICIES[i])) && value == Str(POLICIES[j]))
            || (key in {"sameProjectOnly", "allowRemoteTransport", "handoffRequiresUserConfirmation"}
                && (At(higher, key) != Some(value) || value.Obj? || value.Arr?))
            || (key in {"maxHops", "maxOutstandingConsultsPerTask", "maxMessagesPerMinutePerTask", "maxMessageBytes",
                        "maxContextRefs", "defaultTtlSeconds", "maxTtlSeconds", "messageRetentionDays"}
                && value.Num? && !exists x :: At(higher, key) == Some(Num(x)) && value.number <= x)
  {
    if key == "defaultInboundPolicy" {
      var above, own := PolicyRank(At(higher, key)), PolicyRank(Some(value));
      assert above >= 0 ==> At(higher, key) == Some(Str(POLICIES[above]));
      assert own >= 0 ==> value == Str(POLICIES[own]);
    } else if IsCeilingKey(key) && At(higher, key).Some? && At(higher, key).value.Num? {
      assert At(higher, key) == Some(Num(At(higher, key).value.number));
    }
  }

  /** After a project layer each collaboration setting is the project's where it may set it, and as before elsewhere. */
  lemma ProjectSetsWhatItMay(effective: seq<Field>, project: seq<Field>, key: string)
    requires WellKeyed(project)
    ensures var before := OldFields(effective, "collaboration");
            var own := OldFields(project, "collaboration");
            At(OldFields(Merged(effective, Tightened(project, effective)), "collaboration"), key) ==
            if HasKey(own, key) && Judge(key, Get(own, key), before) == Keep then Some(Get(own, key))
            else At(before, key)
  {
    var block, over := "collaboration", Tightened(project, effective);
    var before := OldFields(effective, block);
    TightenedKeepsShape(project, effective, iset{});
    MergedAtKey(effective, over, block);
    if HasKey(project, block) && Get(project, block).Obj? {
      var fields := Get(project, block).fields;
      GetKeepsShape(project, block);
      SetFieldAt(project, block, Obj(Kept(fields, before)), block);
      KeptKeepsShape(fields, before, iset{});
      MergedAtKey(before, Kept(fields, before), key);
      KeptAtKey(fields, before, key);
      if At(Kept(fields, before), key).Some? { KeepNeverLoosens(key, Get(fields, key), before); }
    } else if HasKey(project, block) {
      RemoveFieldAt(project, block, block);
    }
  }

  lemma KeptNeverLoosens(before: seq<Field>, fields: seq<Field>)
    requires WellKeyed(fields) && WellKeyed(Kept(fields, before))
    ensures NoLooser(before, Merged(before, Kept(fields, before)))
  {
    var kept := Kept(fields, before);
    var after := Merged(before, kept);
    forall k
      ensures NoLooserAt(k, At(before, k), At(after, k))
    {
      MergedAtKey(before, kept, k);
      KeptAtKey(fields, before, k);
      if At(kept, k).Some? {
        KeepNeverLoosens(k, Get(fields, k), before);
        assert At(after, k) == Some(Get(fields, k));
      } else {
        assert At(after, k) == At(before, k);
        SameIsNoLooser(k, At(before, k));
      }
    }
  }

  lemma KeepNeverLoosens(key: string, value: Json, before: seq<Field>)
    requires Judge(key, value, before) == Keep
    ensures NoLooserAt(key, At(before, key), Some(value)) && !value.Obj?
  {
  }

  lemma SameIsNoLooser(key: string, value: Option<Json>)
    ensures NoLooserAt(key, value, value)
  {
  }

  // ----- The load -----

  datatype Layers = Layers(
    env: Option<seq<Field>>, user: Option<seq<Field>>, project: Option<seq<Field>>,
    contract: Option<seq<Field>>, request: Option<seq<Field>>)

  function InOrder(layers: Layers): seq<(Source, Option<seq<Field>>)> {
    [(Env, layers.env), (User, layers.user), (Project, layers.project), (ContractLayer, layers.contract),
     (Request, layers.request)]
  }

  /** The fields a layer really merges: nothing when absent, the filtered and tightened fields for a project. */
  function MergedFields(source: Source, fields: Option<seq<Field>>, effective: seq<Field>,
      forbidden: string -> bool): seq<Field> {
    if fields.None? then []
    else if source == Project then Tightened(FilterFields(fields.value, forbidden), effective)
    else fields.value
  }

  function Applied(base: seq<Field>, order: seq<(Source, Option<seq<Field>>)>, forbidden: string -> bool): seq<Layer> {
    if order == [] then []
    else
      var front, last := Applied(base, order[..|order| - 1], forbidden), order[|order| - 1];
      front + [Layer(last.0, MergedFields(last.0, last.1, Stacked(base, front), forbidden))]
  }

  function Given(fields: Option<seq<Field>>): seq<Field> {
    if fields.Some? then fields.value else []
  }

  /** What is left of the project layer over the defaults, the environment and the user's settings. */
  function ProjectPart(defaults: seq<Field>, layers: Layers, forbidden: string -> bool): seq<Field> {
    if layers.project.None? then []
    else
      Tightened(FilterFields(layers.project.value, forbidden),
                Merged(Merged(defaults, Given(layers.env)), Given(layers.user)))
  }

  /** `effective` is what the schema is asked about; when it refuses, the defaults are returned under the same names. */
  method LoadEffectiveConfig(
    defaults: seq<Field>, defaultNames: SourceNames, layers: Layers, forbidden: string -> bool,
    parse: seq<Field> -> Option<seq<Field>>)
    returns (effective: seq<Field>, value: seq<Field>, names: SourceNames)
    ensures effective == Stacked(defaults, Applied(defaults, InOrder(layers), forbidden))
    ensures names == StackedNames(defaultNames, Applied(defaults, InOrder(layers), forbidden))
    // The environment first, then the user, the project, the contract and the request, each over those before it.
    ensures var project := ProjectPart(defaults, layers, forbidden);
            var user := Merged(Merged(defaults, Given(layers.env)), Given(layers.user));
            effective == Merged(Merged(Merged(user, project), Given(layers.contract)), Given(layers.request))
    ensures value == if parse(effective).Some? then parse(effective).value else defaults
    // Each value named comes from the highest layer that sets it, as merged, and the name is that layer's.
    ensures var applied := Applied(defaults, InOrder(layers), forbidden);
            forall keys, path ::
              && LayersWritten(layers, keys) && HonestNames(defaults, defaultNames, keys) && Unambiguous(keys)
              && ShapeCompatible(defaults, applied) && path != [] && Over(path, keys) && JoinPath("", path) in names ==>
                ComesFromNamed(defaults, applied, effective, names, path)
  {
    var sources := new SourceMap(defaultNames);
    effective := defaults;
    var order := InOrder(layers);
    for i := 0 to |order|
      invariant effective == Stacked(defaults, Applied(defaults, order[..i], forbidden))
      invariant sources.names == StackedNames(defaultNames, Applied(defaults, order[..i], forbidden))
    {
      var (source, layer) := order[i];
      ghost var before, front := effective, Applied(defaults, order[..i], forbidden);
      ghost var over := MergedFields(source, layer, effective, forbidden);
      AppliedNext(defaults, order, i, forbidden, front);
      StackedMore(defaults, front, Layer(source, over));
      if layer.Some? && |layer.value| > 0 {
        var filtered := if source == Project then FilterFields(layer.value, forbidden) else layer.value;
        if |filtered| > 0 {
          var merged := filtered;
          if source == Project {
            var missing;
            merged, missing := ApplyProjectTightening(filtered, effective);
          }
          effective := MergeConfigs(effective, merged, source, sources, "");
        }
      }
      assert effective == Merged(before, over);
    }
    assert order[..|order|] == order;
    AppliedInTurn(defaults, layers, forbidden);
    ghost var turn := InTurn(defaults, layers, forbidden);
    StackedInTurn(defaults, turn[0], turn[1], turn[2], turn[3], turn[4]);
    names := sources.names;
    value := if parse(effective).Some? then parse(effective).value else defaults;
    forall keys, path |
      && LayersWritten(layers, keys) && HonestNames(defaults, defaultNames, keys) && Unambiguous(keys)
      && ShapeCompatible(defaults, Applied(defaults, order, forbidden))
      && path != [] && Over(path, keys) && JoinPath("", path) in names
      ensures ComesFromNamed(defaults, Applied(defaults, order, forbidden), effective, names, path)
    {
      AppliedIsUsable(defaults, order, forbidden, keys);
      CompatibleLayersKeepProvenance(defaults, defaultNames, Applied(defaults, order, forbidden), path, keys);
    }
  }

  /** The layers as merged, lowest first. */
  function InTurn(defaults: seq<Field>, layers: Layers, forbidden: string -> bool): seq<Layer> {
    [Layer(Env, Given(layers.env)), Layer(User, Given(layers.user)),
     Layer(Project, ProjectPart(defaults, layers, forbidden)), Layer(ContractLayer, Given(layers.contract)),
     Layer(Request, Given(layers.request))]
  }

  lemma StackedInTurn(base: seq<Field>, a: Layer, b: Layer, c: Layer, d: Layer, e: Layer)
    ensures Stacked(base, [a, b]) == Merged(Merged(base, a.fields), b.fields)
    ensures Stacked(base, [a, b, c, d, e]) ==
              Merged(Merged(Merged(Stacked(base, [a, b]), c.fields), d.fields), e.fields)
  {
    var none: seq<Layer> := [];
    StackedMore(base, none, a);
    StackedMore(base, [a], b);
    StackedMore(base, [a, b], c);
    StackedMore(base, [a, b, c], d);
    StackedMore(base, [a, b, c, d], e);
    assert none + [a] == [a] && [a] + [b] == [a, b] && [a, b] + [c] == [a, b, c];
    assert [a, b, c] + [d] == [a, b, c, d] && [a, b, c, d] + [e] == [a, b, c, d, e];
  }

  lemma AppliedInTurn(defaults: seq<Field>, layers: Layers, forbidden: string -> bool)
    ensures Applied(defaults, InOrder(layers), forbidden) == InTurn(defaults, layers, forbidden)
  {
    var order, all := InOrder(layers), InTurn(defaults, layers, forbidden);
    StackedInTurn(defaults, all[0], all[1], all[2], all[3], all[4]);
    assert order[..0] == [];
    AppliedNext(defaults, order, 0, forbidden, []);
    AppliedNext(defaults, order, 1, forbidden, [all[0]]);
    AppliedNext(defaults, order, 2, forbidden, [all[0], all[1]]);
    AppliedNext(defaults, order, 3, forbidden, [all[0], all[1], all[2]]);
    AppliedNext(defaults, order, 4, forbidden, [all[0], all[1], all[2], all[3]]);
    assert order[..5] == order;
  }

  lemma StackedMore(base: seq<Field>, layers: seq<Layer>, layer: Layer)
    ensures Stacked(base, layers + [layer]) == Merged(Stacked(base, layers), layer.fields)
  {
    assert (layers + [layer])[..|layers|] == layers;
  }

  lemma AppliedNext(
    base: seq<Field>, order: seq<(Source, Option<seq<Field>>)>, n: nat, forbidden: string -> bool, front: seq<Layer>)
    requires n < |order| && Applied(base, order[..n], forbidden) == front
    ensures var (source, fields) := order[n];
            Applied(base, order[..n + 1], forbidden) ==
            front + [Layer(source, MergedFields(source, fields, Stacked(base, front), forbidden))]
  {
    assert order[..n + 1][..n] == order[..n];
  }

  /** What the last layer that sets a leaf decides, with unambiguous keys and compatible shapes. */
  lemma LastSetterDecides(
    base: seq<Field>, names: SourceNames, layers: seq<Layer>, path: seq<string>, keys: iset<string>)
    requires Unambiguous(keys) && LayersOver(layers, keys) && Over(path, keys) && HonestNames(base, names, keys)
    requires path != [] && Usable(layers)
    ensures var i, name, after := LastSetter(layers, path), JoinPath("", path), StackedNames(names, layers);
            && (i >= 0 ==> name in after && after[name] == layers[i].source)
            && (i < 0 && name in after ==> after[name] == Builtin)
            && (ShapeCompatible(base, layers) && i >= 0 ==>
                  LeafOf(Stacked(base, layers), path) == LeafOf(layers[i].fields, path))
            && (ShapeCompatible(base, layers) && i < 0 && LeafOf(base, path).Some? ==>
                  LeafOf(Stacked(base, layers), path) == LeafOf(base, path))
  {
    if ShapeCompatible(base, layers) { CompatibleLayersKeepLeaves(base, layers, path); }
    StackedName(names, layers, JoinPath("", path));
    LastNamerIsLastSetter(layers, path, keys);
  }

  /** Among five layers the last setter is the highest that sets the leaf. */
  lemma LastSetterOfFive(layers: seq<Layer>, path: seq<string>)
    requires |layers| == 5 && path != []
    ensures LastSetter(layers, path) ==
            if LeafOf(layers[4].fields, path).Some? then 4
            else if LeafOf(layers[3].fields, path).Some? then 3
            else if LeafOf(layers[2].fields, path).Some? then 2
            else if LeafOf(layers[1].fields, path).Some? then 1
            else if LeafOf(layers[0].fields, path).Some? then 0 else -1
  {
  }

  /**
   * With shape-compatible layers a leaf the request sets is the request's and named so; otherwise the contract's,
   * otherwise the project's as filtered and tightened, otherwise the user's, otherwise the environment's, otherwise
   * the default.
   */
  lemma HighestLayerDecides(
    defaults: seq<Field>, defaultNames: SourceNames, layers: Layers, forbidden: string -> bool, keys: iset<string>,
    path: seq<string>)
    requires LayersWritten(layers, keys) && HonestNames(defaults, defaultNames, keys) && Unambiguous(keys)
    requires ShapeCompatible(defaults, InTurn(defaults, layers, forbidden)) && path != [] && Over(path, keys)
    ensures var applied, name := Applied(defaults, InOrder(layers), forbidden), JoinPath("", path);
            var effective, names := Stacked(defaults, applied), StackedNames(defaultNames, applied);
            var project, here := ProjectPart(defaults, layers, forbidden), LeafOf(effective, path);
            if LeafOf(Given(layers.request), path).Some? then
              here == LeafOf(Given(layers.request), path) && name in names && names[name] == Request
            else if LeafOf(Given(layers.contract), path).Some? then
              here == LeafOf(Given(layers.contract), path) && name in names && names[name] == ContractLayer
            else if LeafOf(project, path).Some? then
              here == LeafOf(project, path) && name in names && names[name] == Project
            else if LeafOf(Given(layers.user), path).Some? then
              here == LeafOf(Given(layers.user), path) && name in names && names[name] == User
            else if LeafOf(Given(layers.env), path).Some? then
              here == LeafOf(Given(layers.env), path) && name in names && names[name] == Env
            else
              && (LeafOf(defaults, path).Some? ==> here == LeafOf(defaults, path))
              && (name in names ==> names[name] == Builtin)
  {
    var applied := InTurn(defaults, layers, forbidden);
    AppliedInTurn(defaults, layers, forbidden);
    AppliedIsUsable(defaults, InOrder(layers), forbidden, keys);
    LastSetterDecides(defaults, defaultNames, applied, path, keys);
    LastSetterOfFive(applied, path);
  }

  /**
   * When the schema refuses what was merged, the defaults come back with the names of the layers: the map is then
   * untrue of exactly the leaves some layer sets.
   */
  lemma RefusedLoadMisnamesExactlyWhatLayersSet(
    defaults: seq<Field>, defaultNames: SourceNames, layers: Layers, forbidden: string -> bool, keys: iset<string>,
    path: seq<string>)
    requires LayersWritten(layers, keys) && HonestNames(defaults, defaultNames, keys) && Unambiguous(keys)
    requires path != [] && Over(path, keys)
    ensures var applied, name := Applied(defaults, InOrder(layers), forbidden), JoinPath("", path);
            var names := StackedNames(defaultNames, applied);
            name in names && names[name] != Builtin <==>
            || LeafOf(Given(layers.request), path).Some? || LeafOf(Given(layers.contract), path).Some?
            || LeafOf(ProjectPart(defaults, layers, forbidden), path).Some?
            || LeafOf(Given(layers.user), path).Some? || LeafOf(Given(layers.env), path).Some?
  {
    var applied := InTurn(defaults, layers, forbidden);
    AppliedInTurn(defaults, layers, forbidden);
    AppliedIsUsable(defaults, InOrder(layers), forbidden, keys);
    LastSetterDecides(defaults, defaultNames, applied, path, keys);
    LastSetterOfFive(applied, path);
  }

  /** Every layer given is a JavaScript object written with these keys. */
  ghost predicate LayersWritten(layers: Layers, keys: iset<string>) {
    forall i :: 0 <= i < |InOrder(layers)| ==> Written(InOrder(layers)[i].1, keys)
  }

  ghost predicate Written(fields: Option<seq<Field>>, keys: iset<string>) {
    fields.Some? ==> WellKeyed(fields.value) && KeysIn(fields.value, keys)
  }

  /** The layers as merged use only the keys of those given, so the provenance theorems apply to every load. */
  lemma {:induction false} AppliedIsUsable(
    base: seq<Field>, order: seq<(Source, Option<seq<Field>>)>, forbidden: string -> bool, keys: iset<string>)
    requires forall i :: 0 <= i < |order| ==> Written(order[i].1, keys)
    ensures Usable(Applied(base, order, forbidden)) && LayersOver(Applied(base, order, forbidden), keys)
  {
    if order != [] {
      var n := |order| - 1;
      var front := Applied(base, order[..n], forbidden);
      assert forall i :: 0 <= i < n ==> order[..n][i] == order[i];
      AppliedIsUsable(base, order[..n], forbidden, keys);
      MergedFieldsKeepShape(order[n].0, order[n].1, Stacked(base, front), forbidden, keys);
      var merged := MergedFields(order[n].0, order[n].1, Stacked(base, front), forbidden);
      UsableAppend(front, Layer(order[n].0, merged), keys);
    }
  }

  lemma UsableAppend(layers: seq<Layer>, layer: Layer, keys: iset<string>)
    requires Usable(layers) && LayersOver(layers, keys) && WellKeyed(layer.fields) && KeysIn(layer.fields, keys)
    ensures Usable(layers + [layer]) && LayersOver(layers + [layer], keys)
  {
  }

  lemma MergedFieldsKeepShape(
    source: Source, fields: Option<seq<Field>>, effective: seq<Field>, forbidden: string -> bool, keys: iset<string>)
    requires Written(fields, keys)
    ensures var merged := MergedFields(source, fields, effective, forbidden);
            WellKeyed(merged) && KeysIn(merged, keys)
  {
    if fields.Some? && source == Project {
      FilterKeepsShape(fields.value, forbidden, keys);
      TightenedKeepsShape(FilterFields(fields.value, forbidden), effective, keys);
    }
  }

  /** No merged project layer holds a forbidden key, at any depth. */
  lemma ProjectLayerIsClean(effective: seq<Field>, fields: seq<Field>, forbidden: string -> bool)
    requires WellKeyed(fields)
    ensures CleanFields(MergedFields(Project, Some(fields), effective, forbidden), forbidden)
  {
    FilteredFieldsAreClean(fields, forbidden);
    TightenedIsClean(FilterFields(fields, forbidden), effective, forbidden);
  }

  lemma TightenedIsClean(project: seq<Field>, effective: seq<Field>, forbidden: string -> bool)
    requires CleanFields(project, forbidden)
    ensures CleanFields(Tightened(project, effective), forbidden)
  {
    var key := "collaboration";
    if HasKey(project, key) {
      var v := Get(project, key);
      assert !forbidden(key) && Clean(v, forbidden);
      if v.Obj? {
        KeptIsClean(v.fields, OldFields(effective, key), forbidden);
        SetFieldIsClean(project, key, Obj(Kept(v.fields, OldFields(effective, key))), forbidden);
      } else {
        RemoveFieldIsClean(project, key, forbidden);
      }
    }
  }

  lemma {:induction false} SetFieldIsClean(fields: seq<Field>, key: string, value: Json, forbidden: string -> bool)
    requires CleanFields(fields, forbidden) && !forbidden(key) && Clean(value, forbidden)
    ensures CleanFields(SetField(fields, key, value), forbidden)
  {
    if fields != [] && fields[0].key != key {
      SetFieldIsClean(fields[1..], key, value, forbidden);
    }
  }

  lemma {:induction false} RemoveFieldIsClean(fields: seq<Field>, key: string, forbidden: string -> bool)
    requires CleanFields(fields, forbidden)
    ensures CleanFields(RemoveField(fields, key), forbidden)
  {
    if fields != [] {
      RemoveFieldIsClean(fields[1..], key, forbidden);
    }
  }

  lemma {:induction false} KeptIsClean(fields: seq<Field>, higher: seq<Field>, forbidden: string -> bool)
    requires CleanFields(fields, forbidden)
    ensures CleanFields(Kept(fields, higher), forbidden)
  {
    if fields != [] {
      var n := |fields| - 1;
      KeptIsClean(fields[..n], higher, forbidden);
      SetFieldIsClean(Kept(fields[..n], higher), fields[n].key, fields[n].value, forbidden);
    }
  }
}
