/** The two diff algorithms as they run, proved to list exactly what each diff reports. */
module ConfigDiffRuns {
  import opened Ordering
  import opened ConfigJson
  import opened ConfigPaths
  import opened ConfigDiff

  // ----- The apply-time diff -----

  method AllKeys(cur: seq<Field>, prop: seq<Field>) returns (keys: seq<string>)
    ensures forall k :: k in keys <==> HasKey(cur, k) || HasKey(prop, k)
    ensures Ascending(keys, Identity)
  {
    var found: seq<string> := [];
    var both := cur + prop;
    for i := 0 to |both|
      invariant forall k :: k in found <==> exists j :: 0 <= j < i && both[j].key == k
      invariant DistinctKeys(found, Identity)
    {
      if both[i].key !in found {
        found := found + [both[i].key];
      }
    }
    keys := SortByKey(found, Identity);
    SortDistinct(found, Identity);
    forall k
      ensures k in found <==> HasKey(cur, k) || HasKey(prop, k)
    {
      if HasKey(cur, k) {
        assert both[IndexOfKey(cur, k)].key == k;
      } else if HasKey(prop, k) {
        assert both[|cur| + IndexOfKey(prop, k)].key == k;
      }
    }
  }

  ghost predicate SimpleFrom(cur: seq<Field>, prop: seq<Field>, prefix: string, keys: seq<string>, e: Entry) {
    exists k :: k in keys && SimpleAt(cur, prop, prefix, k, e)
  }

  /** What key `k` contributes: its own entry, or the recursion's when both documents hold an object there. */
  ghost predicate IsBatch(cur: seq<Field>, prop: seq<Field>, prefix: string, k: string, batch: seq<Entry>) {
    && (forall e :: e in batch <==> SimpleAt(cur, prop, prefix, k, e))
    && (SimpleApart(cur, prop, prefix) ==> DistinctKeys(batch, EntryPath))
  }

  lemma BatchExtends(
    cur: seq<Field>, prop: seq<Field>, prefix: string, keys: seq<string>, n: nat, entries: seq<Entry>,
    batch: seq<Entry>)
    requires n < |keys| && Ascending(keys, Identity)
    requires forall e :: e in entries <==> SimpleFrom(cur, prop, prefix, keys[..n], e)
    requires IsBatch(cur, prop, prefix, keys[n], batch)
    ensures forall e :: e in entries + batch <==> SimpleFrom(cur, prop, prefix, keys[..n + 1], e)
    ensures SimpleApart(cur, prop, prefix) && DistinctKeys(entries, EntryPath) ==>
        DistinctKeys(entries + batch, EntryPath)
  {
    assert keys[..n + 1] == keys[..n] + [keys[n]];
    if SimpleApart(cur, prop, prefix) && DistinctKeys(entries, EntryPath) {
      BatchStaysDistinct(cur, prop, prefix, keys, n, entries, batch);
    }
  }

  lemma BatchStaysDistinct(
    cur: seq<Field>, prop: seq<Field>, prefix: string, keys: seq<string>, n: nat, entries: seq<Entry>,
    batch: seq<Entry>)
    requires n < |keys| && Ascending(keys, Identity) && SimpleApart(cur, prop, prefix)
    requires forall e :: e in entries ==> SimpleFrom(cur, prop, prefix, keys[..n], e)
    requires IsBatch(cur, prop, prefix, keys[n], batch) && DistinctKeys(entries, EntryPath)
    ensures DistinctKeys(entries + batch, EntryPath)
  {
    var all := entries + batch;
    forall i, j | 0 <= i < j < |all|
      ensures EntryPath(all[i]) != EntryPath(all[j])
    {
      if i < |entries| <= j {
        assert all[i] in entries && all[j] in batch;
        var k :| k in keys[..n] && SimpleAt(cur, prop, prefix, k, all[i]);
        AscendingIsDistinct(keys, Identity);
        assert Identity(k) != Identity(keys[n]);
        assert SimpleAt(cur, prop, prefix, keys[n], all[j]);
      }
    }
  }

  /** What the apply-time diff returns: its entries and nothing else, each path once where no two keys report one. */
  ghost predicate IsSimpleDiff(es: seq<Entry>, cur: seq<Field>, prop: seq<Field>, prefix: string) {
    && (forall e :: e in es <==> SimpleHas(cur, prop, prefix, e))
    && (SimpleApart(cur, prop, prefix) ==> ListsSimple(es, cur, prop, prefix))
  }

  method ComputeSimpleDiff(cur: seq<Field>, prop: seq<Field>, prefix: string) returns (entries: seq<Entry>)
    ensures IsSimpleDiff(entries, cur, prop, prefix)
    decreases SizeOfFields(cur)
  {
    entries := [];
    var keys := AllKeys(cur, prop);
    for i := 0 to |keys|
      invariant forall e :: e in entries <==> SimpleFrom(cur, prop, prefix, keys[..i], e)
      invariant SimpleApart(cur, prop, prefix) ==> DistinctKeys(entries, EntryPath)
    {
      var key := keys[i];
      var batch := SimpleBatch(cur, prop, prefix, key);
      BatchExtends(cur, prop, prefix, keys, i, entries, batch);
      entries := entries + batch;
    }
    assert keys[..|keys|] == keys;
    forall e
      ensures e in entries <==> SimpleHas(cur, prop, prefix, e)
    {
      if SimpleHas(cur, prop, prefix, e) {
        var k := SimpleKey(cur, prop, prefix, e);
        assert k in keys;
      }
    }
    ghost var unsorted := entries;
    entries := SortByKey(entries, EntryPath);
    SortByKeySorts(unsorted, EntryPath);
    SameMembers(unsorted, entries);
    if SimpleApart(cur, prop, prefix) {
      SortDistinct(unsorted, EntryPath);
    }
  }

  lemma SameMembers<T>(a: seq<T>, b: seq<T>)
    requires multiset(a) == multiset(b)
    ensures forall x :: x in a <==> x in b
  {
    assert forall x :: x in a <==> x in multiset(a);
    assert forall x :: x in b <==> x in multiset(b);
  }

  method SimpleBatch(cur: seq<Field>, prop: seq<Field>, prefix: string, key: string) returns (batch: seq<Entry>)
    requires HasKey(cur, key) || HasKey(prop, key)
    ensures IsBatch(cur, prop, prefix, key, batch)
    decreases SizeOfFields(cur), 0
  {
    var full := FullPath(prefix, key);
    if !HasKey(cur, key) {
      batch := [Entry(full, Added, None, Some(Get(prop, key)))];
    } else if !HasKey(prop, key) {
      batch := [Entry(full, Removed, Some(Get(cur, key)), None)];
    } else {
      var oldV, newV := Get(cur, key), Get(prop, key);
      if newV.Obj? && oldV.Obj? {
        batch := ComputeSimpleDiff(oldV.fields, newV.fields, full);
        if SimpleApart(cur, prop, prefix) {
          AscendingIsDistinct(batch, EntryPath);
        }
      } else if Canon(oldV) != Canon(newV) {
        batch := [Entry(full, Changed, Some(oldV), Some(newV))];
      } else {
        batch := [];
      }
    }
  }

  // ----- The preview's diff -----

  function EntryId(e: Entry): (string, Kind) {
    (e.path, e.kind)
  }

  ghost function Ids(es: seq<Entry>): set<(string, Kind)> {
    set e | e in es :: EntryId(e)
  }

  /** Every entry of `es` comes from a key in `done`, and every entry of such a key has its identity in `es`. */
  ghost predicate Covers(es: seq<Entry>, cur: seq<Field>, prop: seq<Field>, prefix: string, done: set<string>) {
    && (forall e :: e in es ==> LeafFrom(cur, prop, prefix, done, e))
    && (forall k, e :: k in done && LeafAt(cur, prop, prefix, k, e) ==> EntryId(e) in Ids(es))
  }

  ghost predicate LeafFrom(cur: seq<Field>, prop: seq<Field>, prefix: string, done: set<string>, e: Entry) {
    exists k :: k in done && LeafAt(cur, prop, prefix, k, e)
  }

  /**
   * What the preview's diff returns: entries of its own, one for each path and kind, and each path once where no two
   * keys report one.
   */
  ghost predicate IsPreviewDiff(es: seq<Entry>, cur: seq<Field>, prop: seq<Field>, prefix: string) {
    && (forall e :: e in es ==> LeafHas(cur, prop, prefix, e))
    && (forall e :: LeafHas(cur, prop, prefix, e) ==> EntryId(e) in Ids(es))
    && DistinctIds(es)
    && (LeafApart(cur, prop, prefix) ==> ListsLeaves(es, cur, prop, prefix))
  }

  method ComputeDiff(cur: seq<Field>, prop: seq<Field>, prefix: string) returns (deduped: seq<Entry>)
    requires WellKeyed(cur) && WellKeyed(prop)
    ensures IsPreviewDiff(deduped, cur, prop, prefix)
    decreases SizeOfFields(prop), 2
  {
    var diffs: seq<Entry> := [];
    ghost var done: set<string> := {};
    for i := 0 to |prop|
      invariant done == set j | 0 <= j < i :: prop[j].key
      invariant Covers(diffs, cur, prop, prefix, done)
    {
      var batch := ProposedBatch(cur, prop, prefix, prop[i].key, prop[i].value);
      diffs := diffs + batch;
      done := done + {prop[i].key};
    }
    assert forall k :: k in done <==> HasKey(prop, k) by { KeysListed(prop); }
    for i := 0 to |cur|
      invariant done == (set j | 0 <= j < |prop| :: prop[j].key) + (set j | 0 <= j < i :: cur[j].key)
      invariant Covers(diffs, cur, prop, prefix, done)
    {
      var batch := CurrentBatch(cur, prop, prefix, cur[i].key, cur[i].value, diffs, done);
      diffs := diffs + batch;
      done := done + {cur[i].key};
    }
    KeysListed(prop);
    KeysListed(cur);
    assert forall k :: HasKey(cur, k) || HasKey(prop, k) ==> k in done;
    deduped := Dedup(diffs);
    SortedIsPreviewDiff(deduped, cur, prop, prefix);
    deduped := SortByKey(deduped, EntryPath);
  }

  lemma SortedIsPreviewDiff(es: seq<Entry>, cur: seq<Field>, prop: seq<Field>, prefix: string)
    requires forall e :: e in es ==> LeafHas(cur, prop, prefix, e)
    requires forall e :: LeafHas(cur, prop, prefix, e) ==> EntryId(e) in Ids(es)
    requires DistinctIds(es)
    ensures IsPreviewDiff(SortByKey(es, EntryPath), cur, prop, prefix)
  {
    var sorted := SortByKey(es, EntryPath);
    SortByKeySorts(es, EntryPath);
    SameMembers(es, sorted);
    assert Ids(es) == Ids(sorted);
    ReorderedStaysDistinct(es, sorted, EntryId);
    if LeafApart(cur, prop, prefix) {
      ExactWhenApart(es, cur, prop, prefix);
      SortDistinct(es, EntryPath);
    }
  }

  lemma KeysListed(fields: seq<Field>)
    ensures forall k :: k in (set j | 0 <= j < |fields| :: fields[j].key) <==> HasKey(fields, k)
  {
  }

  /** Then nothing was lost to deduplication, and no path is left twice. */
  lemma ExactWhenApart(es: seq<Entry>, cur: seq<Field>, prop: seq<Field>, prefix: string)
    requires LeafApart(cur, prop, prefix)
    requires forall e :: e in es ==> LeafHas(cur, prop, prefix, e)
    requires forall e :: LeafHas(cur, prop, prefix, e) ==> EntryId(e) in Ids(es)
    requires DistinctIds(es)
    ensures forall e :: e in es <==> LeafHas(cur, prop, prefix, e)
    ensures DistinctKeys(es, EntryPath)
  {
    forall e | LeafHas(cur, prop, prefix, e)
      ensures e in es
    {
      var d :| d in es && EntryId(d) == EntryId(e);
      LeafPathsDistinct(cur, prop, prefix, d, e);
    }
    forall i, j | 0 <= i < j < |es|
      ensures EntryPath(es[i]) != EntryPath(es[j])
    {
      assert es[i] in es && es[j] in es && EntryId(es[i]) != EntryId(es[j]);
      if es[i].path == es[j].path {
        LeafPathsDistinct(cur, prop, prefix, es[i], es[j]);
      }
    }
  }

  ghost predicate DistinctIds(es: seq<Entry>) {
    DistinctKeys(es, EntryId)
  }

  method ProposedBatch(cur: seq<Field>, prop: seq<Field>, prefix: string, key: string, newValue: Json)
    returns (batch: seq<Entry>)
    requires WellKeyed(cur) && WellKeyed(prop) && HasKey(prop, key) && Get(prop, key) == newValue
    ensures Covers(batch, cur, prop, prefix, {key})
    decreases SizeOfFields(prop), 0
  {
    var fullPath := FullPath(prefix, key);
    var oldValue := if HasKey(cur, key) then Some(Get(cur, key)) else None;
    if newValue.Obj? {
      GetKeepsShape(prop, key);
      if HasKey(cur, key) && Get(cur, key).Obj? { GetKeepsShape(cur, key); }
      batch := ComputeDiff(OldFields(cur, key), newValue.fields, fullPath);
      assert forall e :: LeafAt(cur, prop, prefix, key, e) <==>
          LeafHas(OldFields(cur, key), newValue.fields, fullPath, e);
    } else if oldValue != Some(newValue) {
      var e := Entry(fullPath, if oldValue.None? then Added else Changed, oldValue, Some(newValue));
      batch := [e];
      assert e in batch && EntryId(e) in Ids(batch);
    } else {
      batch := [];
    }
  }

  method CurrentBatch(
    cur: seq<Field>, prop: seq<Field>, prefix: string, key: string, oldValue: Json,
    ghost diffs: seq<Entry>, ghost done: set<string>)
    returns (batch: seq<Entry>)
    requires WellKeyed(cur) && WellKeyed(prop) && HasKey(cur, key) && Get(cur, key) == oldValue
    requires forall k :: HasKey(prop, k) ==> k in done
    requires Covers(diffs, cur, prop, prefix, done)
    ensures Covers(diffs + batch, cur, prop, prefix, done + {key})
    decreases SizeOfFields(prop), 0
  {
    var fullPath := FullPath(prefix, key);
    batch := [];
    if !HasKey(prop, key) {
      var e := Entry(fullPath, Removed, Some(oldValue), None);
      batch := [e];
      assert e in batch && EntryId(e) in Ids(batch);
    } else {
      if oldValue.Obj? && Get(prop, key).Obj? {
        GetKeepsShape(prop, key);
        GetKeepsShape(cur, key);
        batch := ComputeDiff(oldValue.fields, Get(prop, key).fields, fullPath);
        assert forall e :: LeafAt(cur, prop, prefix, key, e) <==>
            LeafHas(oldValue.fields, Get(prop, key).fields, fullPath, e);
      } else {
        assert diffs + batch == diffs && done + {key} == done;
      }
    }
  }

  /** Keeps the first entry of each path and kind. */
  method Dedup(diffs: seq<Entry>) returns (deduped: seq<Entry>)
    ensures forall e :: e in deduped ==> e in diffs
    ensures Ids(deduped) == Ids(diffs) && DistinctIds(deduped)
  {
    var seen: set<(string, Kind)> := {};
    deduped := [];
    for i := 0 to |diffs|
      invariant seen == Ids(diffs[..i]) == Ids(deduped)
      invariant forall e :: e in deduped ==> e in diffs
      invariant DistinctIds(deduped)
    {
      assert diffs[..i + 1] == diffs[..i] + [diffs[i]];
      assert Ids(diffs[..i + 1]) == Ids(diffs[..i]) + {EntryId(diffs[i])};
      if EntryId(diffs[i]) !in seen {
        assert forall j :: 0 <= j < |deduped| ==> EntryId(deduped[j]) in Ids(deduped);
        assert Ids(deduped + [diffs[i]]) == Ids(deduped) + {EntryId(diffs[i])};
        seen := seen + {EntryId(diffs[i])};
        deduped := deduped + [diffs[i]];
      }
    }
    assert diffs[..|diffs|] == diffs;
  }
}
