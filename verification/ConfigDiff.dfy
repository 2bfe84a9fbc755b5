/** The two separately written diffs: the one shown at preview and the one recomputed at apply. */
module ConfigDiff {
  import opened Ordering
  import opened ConfigJson
  import opened ConfigPaths

  datatype Kind = Added | Removed | Changed

  datatype Entry = Entry(path: string, kind: Kind, oldValue: Option<Json>, newValue: Option<Json>)

  function EntryPath(e: Entry): string {
    e.path
  }

  function Identity(s: string): string {
    s
  }

  // ----- What each diff reports -----

  /** `computeSimpleDiff`: an entry of the recursion on key `k`. */
  ghost predicate SimpleAt(cur: seq<Field>, prop: seq<Field>, prefix: string, k: string, e: Entry)
    decreases SizeOfFields(cur), 0
  {
    var full := FullPath(prefix, k);
    if !HasKey(cur, k) then HasKey(prop, k) && e == Entry(full, Added, None, Some(Get(prop, k)))
    else if !HasKey(prop, k) then e == Entry(full, Removed, Some(Get(cur, k)), None)
    else
      var o, n := Get(cur, k), Get(prop, k);
      if o.Obj? && n.Obj? then SimpleHas(o.fields, n.fields, full, e)
      else Canon(o) != Canon(n) && e == Entry(full, Changed, Some(o), Some(n))
  }

  ghost predicate SimpleHas(cur: seq<Field>, prop: seq<Field>, prefix: string, e: Entry)
    decreases SizeOfFields(cur), 1
  {
    exists k :: SimpleAt(cur, prop, prefix, k, e)
  }

  function OldFields(cur: seq<Field>, k: string): seq<Field> {
    if HasKey(cur, k) && Get(cur, k).Obj? then Get(cur, k).fields else []
  }

  /** `computeDiff`: an entry of the recursion on key `k`. */
  ghost predicate LeafAt(cur: seq<Field>, prop: seq<Field>, prefix: string, k: string, e: Entry)
    decreases SizeOfFields(prop), 0
  {
    var full := FullPath(prefix, k);
    var before := if HasKey(cur, k) then Some(Get(cur, k)) else None;
    if !HasKey(prop, k) then before.Some? && e == Entry(full, Removed, before, None)
    else
      var n := Get(prop, k);
      if n.Obj? then LeafHas(OldFields(cur, k), n.fields, full, e)
      else before != Some(n) && e == Entry(full, if before.None? then Added else Changed, before, Some(n))
  }

  ghost predicate LeafHas(cur: seq<Field>, prop: seq<Field>, prefix: string, e: Entry)
    decreases SizeOfFields(prop), 1
  {
    exists k :: LeafAt(cur, prop, prefix, k, e)
  }

  /** Every object proposed faces an object at the same place. */
  ghost predicate Faces(cur: seq<Field>, prop: seq<Field>)
    decreases SizeOfFields(prop)
  {
    forall k :: HasKey(prop, k) && Get(prop, k).Obj? ==>
      HasKey(cur, k) && Get(cur, k).Obj? && Faces(Get(cur, k).fields, Get(prop, k).fields)
  }

  /** Two values compared as a whole are equal up to key order only when they are written alike. */
  ghost predicate WrittenAlike(cur: seq<Field>, prop: seq<Field>)
    decreases SizeOfFields(prop)
  {
    forall k :: HasKey(cur, k) && HasKey(prop, k) ==>
      var o, n := Get(cur, k), Get(prop, k);
      if o.Obj? && n.Obj? then WrittenAlike(o.fields, n.fields) else Canon(o) == Canon(n) ==> o == n
  }

  // ----- Paths tell entries apart -----

  /** The key an entry of the apply-time diff comes from. */
  lemma SimpleKey(cur: seq<Field>, prop: seq<Field>, prefix: string, e: Entry) returns (k: string)
    requires SimpleHas(cur, prop, prefix, e)
    ensures SimpleAt(cur, prop, prefix, k, e)
  {
    k :| SimpleAt(cur, prop, prefix, k, e);
  }

  /** The key an entry of the preview's diff comes from. */
  lemma LeafKey(cur: seq<Field>, prop: seq<Field>, prefix: string, e: Entry) returns (k: string)
    requires LeafHas(cur, prop, prefix, e)
    ensures LeafAt(cur, prop, prefix, k, e)
  {
    k :| LeafAt(cur, prop, prefix, k, e);
  }

  /** The place an entry of the apply-time diff is about. */
  lemma {:induction false} SimpleChain(
    cur: seq<Field>, prop: seq<Field>, prefix: string, k: string, e: Entry, keys: iset<string>)
    returns (chain: seq<string>)
    requires SimpleAt(cur, prop, prefix, k, e) && KeysIn(cur, keys) && KeysIn(prop, keys)
    ensures chain != [] && chain[0] == k && Over(chain, keys) && e.path == JoinPath(prefix, chain)
    ensures HasKey(cur, k) && HasKey(prop, k) && Get(cur, k).Obj? && Get(prop, k).Obj? ==> |chain| > 1
    decreases SizeOfFields(cur)
  {
    chain := [k];
    if HasKey(cur, k) && HasKey(prop, k) && Get(cur, k).Obj? && Get(prop, k).Obj? {
      var o, n, full := Get(cur, k).fields, Get(prop, k).fields, FullPath(prefix, k);
      assert SimpleHas(o, n, full, e);
      var j := SimpleKey(o, n, full, e);
      var rest := SimpleChain(o, n, full, j, e, keys);
      chain := [k] + rest;
    }
  }

  /** The place an entry of the preview's diff is about. */
  lemma {:induction false} LeafChain(
    cur: seq<Field>, prop: seq<Field>, prefix: string, k: string, e: Entry, keys: iset<string>)
    returns (chain: seq<string>)
    requires LeafAt(cur, prop, prefix, k, e) && KeysIn(cur, keys) && KeysIn(prop, keys)
    ensures chain != [] && chain[0] == k && Over(chain, keys) && e.path == JoinPath(prefix, chain)
    decreases SizeOfFields(prop)
  {
    chain := [k];
    if HasKey(prop, k) && Get(prop, k).Obj? {
      var o, n, full := OldFields(cur, k), Get(prop, k).fields, FullPath(prefix, k);
      assert LeafHas(o, n, full, e);
      var j := LeafKey(o, n, full, e);
      var rest := LeafChain(o, n, full, j, e, keys);
      chain := [k] + rest;
    }
  }

  /** What a document holds at a place, if anything. */
  function ValueAt(fields: seq<Field>, place: seq<string>): Option<Json>
    requires place != []
  {
    if !HasKey(fields, place[0]) then None
    else if |place| == 1 then Some(Get(fields, place[0]))
    else if Get(fields, place[0]).Obj? then ValueAt(Get(fields, place[0]).fields, place[1..])
    else None
  }

  lemma {:induction false} NothingAt(place: seq<string>)
    requires place != []
    ensures ValueAt([], place) == None
  {
  }

  /** An entry says what stood and what is to stand at its place, and its kind says which of the two there is. */
  ghost predicate SaysWhatChanged(cur: seq<Field>, prop: seq<Field>, place: seq<string>, e: Entry)
    requires place != []
  {
    && e.oldValue == ValueAt(cur, place) && e.newValue == ValueAt(prop, place) && e.oldValue != e.newValue
    && (e.kind == Added <==> e.oldValue == None) && (e.kind == Removed <==> e.newValue == None)
  }

  lemma {:induction false} SimpleEntrySaysWhatChanged(
    cur: seq<Field>, prop: seq<Field>, prefix: string, e: Entry) returns (place: seq<string>)
    requires SimpleHas(cur, prop, prefix, e)
    ensures place != [] && e.path == JoinPath(prefix, place) && SaysWhatChanged(cur, prop, place, e)
    decreases SizeOfFields(cur)
  {
    var k := SimpleKey(cur, prop, prefix, e);
    place := [k];
    if HasKey(cur, k) && HasKey(prop, k) && Get(cur, k).Obj? && Get(prop, k).Obj? {
      var rest := SimpleEntrySaysWhatChanged(Get(cur, k).fields, Get(prop, k).fields, FullPath(prefix, k), e);
      place := [k] + rest;
      assert place[1..] == rest;
    }
  }

  lemma {:induction false} LeafEntrySaysWhatChanged(
    cur: seq<Field>, prop: seq<Field>, prefix: string, e: Entry) returns (place: seq<string>)
    requires LeafHas(cur, prop, prefix, e)
    ensures place != [] && e.path == JoinPath(prefix, place) && SaysWhatChanged(cur, prop, place, e)
    decreases SizeOfFields(prop)
  {
    var k := LeafKey(cur, prop, prefix, e);
    place := [k];
    if HasKey(prop, k) && Get(prop, k).Obj? {
      var rest := LeafEntrySaysWhatChanged(OldFields(cur, k), Get(prop, k).fields, FullPath(prefix, k), e);
      place := [k] + rest;
      assert place[1..] == rest;
      NothingAt(rest);
    }
  }

  /** At no depth do two keys report a common path. */
  ghost predicate SimpleApart(cur: seq<Field>, prop: seq<Field>, prefix: string)
    decreases SizeOfFields(cur)
  {
    && (forall j, k, e, d ::
          SimpleAt(cur, prop, prefix, j, e) && SimpleAt(cur, prop, prefix, k, d) && e.path == d.path ==> j == k)
    && (forall k :: HasKey(cur, k) && HasKey(prop, k) && Get(cur, k).Obj? && Get(prop, k).Obj? ==>
          SimpleApart(Get(cur, k).fields, Get(prop, k).fields, FullPath(prefix, k)))
  }

  ghost predicate LeafApart(cur: seq<Field>, prop: seq<Field>, prefix: string)
    decreases SizeOfFields(prop)
  {
    && (forall j, k, e, d ::
          LeafAt(cur, prop, prefix, j, e) && LeafAt(cur, prop, prefix, k, d) && e.path == d.path ==> j == k)
    && (forall k :: HasKey(prop, k) && Get(prop, k).Obj? ==>
          LeafApart(OldFields(cur, k), Get(prop, k).fields, FullPath(prefix, k)))
  }

  /** Unambiguous keys keep the paths of different keys apart. */
  lemma SameFirstKey(base: seq<string>, a: seq<string>, b: seq<string>, keys: iset<string>)
    requires Unambiguous(keys) && Over(base, keys) && Over(a, keys) && Over(b, keys) && a != [] && b != []
    requires JoinPath(JoinPath("", base), a) == JoinPath(JoinPath("", base), b)
    ensures a[0] == b[0]
  {
    JoinConcat("", base, a);
    JoinConcat("", base, b);
    assert (base + a)[|base|] == a[0] && (base + b)[|base|] == b[0];
  }

  lemma {:induction false} UnambiguousIsSimpleApart(cur: seq<Field>, prop: seq<Field>, base: seq<string>,
      keys: iset<string>)
    requires Unambiguous(keys) && Over(base, keys) && KeysIn(cur, keys) && KeysIn(prop, keys)
    ensures SimpleApart(cur, prop, JoinPath("", base))
    decreases SizeOfFields(cur)
  {
    var prefix := JoinPath("", base);
    forall j, k, e, d | SimpleAt(cur, prop, prefix, j, e) && SimpleAt(cur, prop, prefix, k, d) && e.path == d.path
      ensures j == k
    {
      var a := SimpleChain(cur, prop, prefix, j, e, keys);
      var b := SimpleChain(cur, prop, prefix, k, d, keys);
      SameFirstKey(base, a, b, keys);
    }
    forall k | HasKey(cur, k) && HasKey(prop, k) && Get(cur, k).Obj? && Get(prop, k).Obj?
      ensures SimpleApart(Get(cur, k).fields, Get(prop, k).fields, FullPath(prefix, k))
    {
      JoinConcat("", base, [k]);
      UnambiguousIsSimpleApart(Get(cur, k).fields, Get(prop, k).fields, base + [k], keys);
    }
  }

  lemma {:induction false} UnambiguousIsLeafApart(cur: seq<Field>, prop: seq<Field>, base: seq<string>,
      keys: iset<string>)
    requires Unambiguous(keys) && Over(base, keys) && KeysIn(cur, keys) && KeysIn(prop, keys)
    ensures LeafApart(cur, prop, JoinPath("", base))
    decreases SizeOfFields(prop)
  {
    var prefix := JoinPath("", base);
    forall j, k, e, d | LeafAt(cur, prop, prefix, j, e) && LeafAt(cur, prop, prefix, k, d) && e.path == d.path
      ensures j == k
    {
      var a := LeafChain(cur, prop, prefix, j, e, keys);
      var b := LeafChain(cur, prop, prefix, k, d, keys);
      SameFirstKey(base, a, b, keys);
    }
    forall k | HasKey(prop, k) && Get(prop, k).Obj?
      ensures LeafApart(OldFields(cur, k), Get(prop, k).fields, FullPath(prefix, k))
    {
      JoinConcat("", base, [k]);
      UnambiguousIsLeafApart(OldFields(cur, k), Get(prop, k).fields, base + [k], keys);
    }
  }

  /** Then no two entries of the apply-time diff share a path. */
  lemma {:induction false} SimplePathsDistinct(cur: seq<Field>, prop: seq<Field>, prefix: string, e: Entry, d: Entry)
    requires SimpleApart(cur, prop, prefix)
    requires SimpleHas(cur, prop, prefix, e) && SimpleHas(cur, prop, prefix, d) && e.path == d.path
    ensures e == d
    decreases SizeOfFields(cur)
  {
    var j := SimpleKey(cur, prop, prefix, e);
    var k := SimpleKey(cur, prop, prefix, d);
    assert j == k;
    if HasKey(cur, k) && HasKey(prop, k) && Get(cur, k).Obj? && Get(prop, k).Obj? {
      SimplePathsDistinct(Get(cur, k).fields, Get(prop, k).fields, FullPath(prefix, k), e, d);
    }
  }

  lemma {:induction false} LeafPathsDistinct(cur: seq<Field>, prop: seq<Field>, prefix: string, e: Entry, d: Entry)
    requires LeafApart(cur, prop, prefix)
    requires LeafHas(cur, prop, prefix, e) && LeafHas(cur, prop, prefix, d) && e.path == d.path
    ensures e == d
    decreases SizeOfFields(prop)
  {
    var j := LeafKey(cur, prop, prefix, e);
    var k := LeafKey(cur, prop, prefix, d);
    assert j == k;
    if HasKey(prop, k) && Get(prop, k).Obj? {
      LeafPathsDistinct(OldFields(cur, k), Get(prop, k).fields, FullPath(prefix, k), e, d);
    }
  }

  // ----- When they agree -----

  lemma {:induction false} AlikeDiffsAgree(cur: seq<Field>, prop: seq<Field>, prefix: string, k: string, e: Entry)
    requires Faces(cur, prop) && WrittenAlike(cur, prop)
    ensures SimpleAt(cur, prop, prefix, k, e) <==> LeafAt(cur, prop, prefix, k, e)
    decreases SizeOfFields(prop)
  {
    if HasKey(cur, k) && HasKey(prop, k) && Get(cur, k).Obj? && Get(prop, k).Obj? {
      var o, n, full := Get(cur, k).fields, Get(prop, k).fields, FullPath(prefix, k);
      forall j
        ensures SimpleAt(o, n, full, j, e) <==> LeafAt(o, n, full, j, e)
      {
        AlikeDiffsAgree(o, n, full, j, e);
      }
      assert SimpleHas(o, n, full, e) <==> LeafHas(o, n, full, e);
    }
  }

  lemma AlikeDiffsReportAlike(cur: seq<Field>, prop: seq<Field>, prefix: string, e: Entry)
    requires Faces(cur, prop) && WrittenAlike(cur, prop)
    ensures SimpleHas(cur, prop, prefix, e) <==> LeafHas(cur, prop, prefix, e)
  {
    forall k
      ensures SimpleAt(cur, prop, prefix, k, e) <==> LeafAt(cur, prop, prefix, k, e)
    {
      AlikeDiffsAgree(cur, prop, prefix, k, e);
    }
  }

  /** The preview never reports an object as a new value: it goes on into it. */
  lemma {:induction false} LeafValueIsNoObject(cur: seq<Field>, prop: seq<Field>, prefix: string, d: Entry)
    requires LeafHas(cur, prop, prefix, d)
    ensures d.newValue.Some? ==> !d.newValue.value.Obj?
    decreases SizeOfFields(prop)
  {
    var k := LeafKey(cur, prop, prefix, d);
    if HasKey(prop, k) && Get(prop, k).Obj? {
      LeafValueIsNoObject(OldFields(cur, k), Get(prop, k).fields, FullPath(prefix, k), d);
    }
  }

  /** The apply-time diff reports no change between values equal up to key order. */
  lemma {:induction false} SimpleChangeIsReal(cur: seq<Field>, prop: seq<Field>, prefix: string, d: Entry)
    requires SimpleHas(cur, prop, prefix, d)
    ensures d.oldValue.Some? && d.newValue.Some? ==> Canon(d.oldValue.value) != Canon(d.newValue.value)
    decreases SizeOfFields(cur)
  {
    var k := SimpleKey(cur, prop, prefix, d);
    if HasKey(cur, k) && HasKey(prop, k) && Get(cur, k).Obj? && Get(prop, k).Obj? {
      SimpleChangeIsReal(Get(cur, k).fields, Get(prop, k).fields, FullPath(prefix, k), d);
    }
  }

  /** Where an object does not face an object, the apply-time diff reports the object whole. */
  lemma {:induction false} UnfacedIsReportedWhole(cur: seq<Field>, prop: seq<Field>, prefix: string) returns (e: Entry)
    requires !Faces(cur, prop)
    ensures SimpleHas(cur, prop, prefix, e) && e.newValue.Some? && e.newValue.value.Obj?
    decreases SizeOfFields(prop)
  {
    var k :| HasKey(prop, k) && Get(prop, k).Obj? &&
      !(HasKey(cur, k) && Get(cur, k).Obj? && Faces(Get(cur, k).fields, Get(prop, k).fields));
    var full := FullPath(prefix, k);
    if HasKey(cur, k) && Get(cur, k).Obj? {
      e := UnfacedIsReportedWhole(Get(cur, k).fields, Get(prop, k).fields, full);
    } else {
      var before := if HasKey(cur, k) then Some(Get(cur, k)) else None;
      e := Entry(full, if before.None? then Added else Changed, before, Some(Get(prop, k)));
    }
    assert SimpleAt(cur, prop, prefix, k, e);
  }

  /** Where a value was only rewritten in another key order, the preview reports a change between equal values. */
  lemma {:induction false} RewrittenIsReported(cur: seq<Field>, prop: seq<Field>, prefix: string) returns (e: Entry)
    requires Faces(cur, prop) && !WrittenAlike(cur, prop)
    ensures LeafHas(cur, prop, prefix, e)
    ensures e.oldValue.Some? && e.newValue.Some? && Canon(e.oldValue.value) == Canon(e.newValue.value)
    decreases SizeOfFields(prop)
  {
    var k :| HasKey(cur, k) && HasKey(prop, k) &&
      if Get(cur, k).Obj? && Get(prop, k).Obj? then !WrittenAlike(Get(cur, k).fields, Get(prop, k).fields)
      else Canon(Get(cur, k)) == Canon(Get(prop, k)) && Get(cur, k) != Get(prop, k);
    var o, n, full := Get(cur, k), Get(prop, k), FullPath(prefix, k);
    if o.Obj? && n.Obj? {
      e := RewrittenIsReported(o.fields, n.fields, full);
    } else {
      e := Entry(full, Changed, Some(o), Some(n));
    }
    assert LeafAt(cur, prop, prefix, k, e);
  }

  // ----- The listings both return -----

  /** `es` lists what the apply-time diff reports, in path order, each path once. */
  ghost predicate ListsSimple(es: seq<Entry>, cur: seq<Field>, prop: seq<Field>, prefix: string) {
    Ascending(es, EntryPath) && forall e :: e in es <==> SimpleHas(cur, prop, prefix, e)
  }

  /** `es` lists what the preview's diff reports, in path order, each path once. */
  ghost predicate ListsLeaves(es: seq<Entry>, cur: seq<Field>, prop: seq<Field>, prefix: string) {
    Ascending(es, EntryPath) && forall e :: e in es <==> LeafHas(cur, prop, prefix, e)
  }

  /**
   * The preview's diff and the apply-time diff are the same list if and only if every object of
   * the proposal faces an object of the current document and no value compared as a whole was
   * only rewritten in another key order.
   */
  lemma DiffsAgreeExactlyWhenAlike(cur: seq<Field>, prop: seq<Field>, prefix: string, shown: seq<Entry>,
      recomputed: seq<Entry>)
    requires ListsLeaves(shown, cur, prop, prefix) && ListsSimple(recomputed, cur, prop, prefix)
    ensures shown == recomputed <==> Faces(cur, prop) && WrittenAlike(cur, prop)
  {
    if !Faces(cur, prop) {
      var e := UnfacedIsReportedWhole(cur, prop, prefix);
      if e in shown { LeafValueIsNoObject(cur, prop, prefix, e); }
      assert e in recomputed && e !in shown;
    } else if !WrittenAlike(cur, prop) {
      var e := RewrittenIsReported(cur, prop, prefix);
      if e in recomputed { SimpleChangeIsReal(cur, prop, prefix, e); }
      assert e in shown && e !in recomputed;
    } else {
      forall e
        ensures e in shown <==> e in recomputed
      {
        AlikeDiffsReportAlike(cur, prop, prefix, e);
      }
      AscendingListingIsUnique(shown, recomputed, EntryPath);
    }
  }

  /** Arrays that hold no objects cannot be rewritten in another key order. */
  lemma {:induction false} FlatArraysAreWrittenAlike(cur: seq<Field>, prop: seq<Field>)
    requires FlatArrays(cur) && FlatArrays(prop)
    ensures WrittenAlike(cur, prop)
    decreases SizeOfFields(prop)
  {
    forall k | HasKey(cur, k) && HasKey(prop, k)
      ensures
        var o, n := Get(cur, k), Get(prop, k);
        if o.Obj? && n.Obj? then WrittenAlike(o.fields, n.fields) else Canon(o) == Canon(n) ==> o == n
    {
      var o, n := Get(cur, k), Get(prop, k);
      if o.Obj? && n.Obj? {
        FlatArraysAreWrittenAlike(o.fields, n.fields);
      } else if !o.Obj? && !n.Obj? {
        CanonIsFaithful(o, n);
      }
    }
  }
}
