/** Which keys a configuration may use: where paths are ambiguous, one confirmation fits two documents. */
module ConfigKeys {
  import opened Ordering
  import opened ConfigJson
  import opened ConfigPaths
  import opened ConfigDiff
  import opened ConfigReplay
  import opened ConfigDiffRuns
  import opened ConfigWrite

  // ----- Two places with one path -----

  /** `value` alone, at the end of a chain of keys. */
  function Nested(chain: seq<string>, value: Json): Json
    decreases |chain|
  {
    if chain == [] then value else Obj([Field(chain[0], Nested(chain[1..], value))])
  }

  /** A document with two numbers in it, at two places. */
  function Document(a: seq<string>, x: real, b: seq<string>, y: real): seq<Field>
    requires Incomparable(a, b)
    decreases |a|
  {
    if a[0] == b[0] then [Field(a[0], Obj(Document(a[1..], x, b[1..], y)))]
    else [Field(a[0], Nested(a[1..], Num(x))), Field(b[0], Nested(b[1..], Num(y)))]
  }

  lemma TailsIncomparable(a: seq<string>, b: seq<string>)
    requires Incomparable(a, b)
    ensures a != [] && b != [] && (a[0] == b[0] ==> Incomparable(a[1..], b[1..]))
  {
    if a[0] == b[0] {
      assert a == [a[0]] + a[1..] && b == [b[0]] + b[1..];
    }
  }

  lemma {:induction false} NestedKeysIn(chain: seq<string>, value: Json, keys: iset<string>)
    requires chain != [] && Over(chain, keys) && !value.Obj?
    ensures KeysIn(Nested(chain, value).fields, keys)
    decreases |chain|
  {
    if |chain| > 1 {
      NestedKeysIn(chain[1..], value, keys);
    }
  }

  lemma {:induction false} DocumentKeysIn(a: seq<string>, x: real, b: seq<string>, y: real, keys: iset<string>)
    requires Incomparable(a, b) && Over(a, keys) && Over(b, keys)
    ensures KeysIn(Document(a, x, b, y), keys)
    decreases |a|
  {
    TailsIncomparable(a, b);
    if a[0] == b[0] {
      DocumentKeysIn(a[1..], x, b[1..], y, keys);
    } else {
      if |a| > 1 { NestedKeysIn(a[1..], Num(x), keys); }
      if |b| > 1 { NestedKeysIn(b[1..], Num(y), keys); }
    }
  }

  /** The entry for a number changed at the end of a chain. */
  function ChangeAt(prefix: string, chain: seq<string>, x: real, u: real): Entry {
    Entry(JoinPath(prefix, chain), Changed, Some(Num(x)), Some(Num(u)))
  }

  /** A key that is written alike in two pairs of documents reports alike in both. */
  lemma SameFieldReportsAlike(
    cur: seq<Field>, prop: seq<Field>, cur1: seq<Field>, prop1: seq<Field>, prefix: string, k: string, e: Entry)
    requires HasKey(cur, k) && HasKey(prop, k) && HasKey(cur1, k) && HasKey(prop1, k)
    requires Get(cur, k) == Get(cur1, k) && Get(prop, k) == Get(prop1, k)
    ensures SimpleAt(cur, prop, prefix, k, e) <==> SimpleAt(cur1, prop1, prefix, k, e)
  {
  }

  lemma {:induction false} NestedDiff(chain: seq<string>, x: real, u: real, prefix: string, e: Entry)
    requires chain != []
    ensures var cur, prop := Nested(chain, Num(x)).fields, Nested(chain, Num(u)).fields;
            && (SimpleHas(cur, prop, prefix, e) <==> x != u && e == ChangeAt(prefix, chain, x, u))
            && (SimpleAt(cur, prop, prefix, chain[0], e) <==> SimpleHas(cur, prop, prefix, e))
    decreases |chain|
  {
    var cur, prop, k := Nested(chain, Num(x)).fields, Nested(chain, Num(u)).fields, chain[0];
    assert HasKey(cur, k) && HasKey(prop, k);
    assert Get(cur, k) == Nested(chain[1..], Num(x)) && Get(prop, k) == Nested(chain[1..], Num(u));
    assert forall j :: j != k ==> !SimpleAt(cur, prop, prefix, j, e);
    assert SimpleHas(cur, prop, prefix, e) <==> SimpleAt(cur, prop, prefix, k, e);
    if |chain| > 1 {
      var o, n := Get(cur, k).fields, Get(prop, k).fields;
      assert SimpleAt(cur, prop, prefix, k, e) <==> SimpleHas(o, n, FullPath(prefix, k), e);
      NestedDiff(chain[1..], x, u, FullPath(prefix, k), e);
    } else {
      assert chain[1..] == [] && JoinPath(prefix, chain) == FullPath(prefix, k);
      assert Canon(Num(x)) == Canon(Num(u)) <==> x == u;
    }
  }

  /** The diff of two such documents reports the changed numbers, each under its own path. */
  lemma {:induction false} DocumentDiff(
    a: seq<string>, b: seq<string>, x: real, y: real, u: real, v: real, prefix: string, e: Entry)
    requires Incomparable(a, b)
    ensures SimpleHas(Document(a, x, b, y), Document(a, u, b, v), prefix, e) <==>
              || (x != u && e == ChangeAt(prefix, a, x, u))
              || (y != v && e == ChangeAt(prefix, b, y, v))
    decreases |a|
  {
    var cur, prop, j, k := Document(a, x, b, y), Document(a, u, b, v), a[0], b[0];
    TailsIncomparable(a, b);
    assert HasKey(cur, j) && HasKey(prop, j) && HasKey(cur, k) && HasKey(prop, k);
    assert forall i :: i != j && i != k ==> !SimpleAt(cur, prop, prefix, i, e);
    if j == k {
      assert Get(cur, k) == Obj(Document(a[1..], x, b[1..], y)) && Get(prop, k) == Obj(Document(a[1..], u, b[1..], v));
      DocumentDiff(a[1..], b[1..], x, y, u, v, FullPath(prefix, k), e);
      assert SimpleHas(cur, prop, prefix, e) <==> SimpleAt(cur, prop, prefix, k, e);
    } else {
      NestedDiff(a, x, u, prefix, e);
      NestedDiff(b, y, v, prefix, e);
      assert Get(cur, k) == Nested(b[1..], Num(y)) && Get(prop, k) == Nested(b[1..], Num(v));
      SameFieldReportsAlike(cur, prop, Nested(a, Num(x)).fields, Nested(a, Num(u)).fields, prefix, j, e);
      SameFieldReportsAlike(cur, prop, Nested(b, Num(y)).fields, Nested(b, Num(v)).fields, prefix, k, e);
      assert SimpleHas(cur, prop, prefix, e) <==>
          SimpleAt(cur, prop, prefix, j, e) || SimpleAt(cur, prop, prefix, k, e);
    }
  }

  /** One path, two places: changing the one or the other gives the same entry, but not the same document. */
  lemma OnePathTwoDocuments(a: seq<string>, b: seq<string>)
    requires Incomparable(a, b) && JoinPath("", a) == JoinPath("", b)
    ensures var cur, es := Document(a, 0.0, b, 0.0), [ChangeAt("", a, 0.0, 1.0)];
            && ListsSimple(es, cur, Document(a, 1.0, b, 0.0), "") && ListsSimple(es, cur, Document(a, 0.0, b, 1.0), "")
            && CanonFields(Document(a, 1.0, b, 0.0)) != CanonFields(Document(a, 0.0, b, 1.0))
  {
    var cur, first, second := Document(a, 0.0, b, 0.0), Document(a, 1.0, b, 0.0), Document(a, 0.0, b, 1.0);
    forall e
      ensures SimpleHas(cur, first, "", e) <==> e == ChangeAt("", a, 0.0, 1.0)
      ensures SimpleHas(cur, second, "", e) <==> e == ChangeAt("", a, 0.0, 1.0)
    {
      DocumentDiff(a, b, 0.0, 0.0, 1.0, 0.0, "", e);
      DocumentDiff(a, b, 0.0, 0.0, 0.0, 1.0, "", e);
    }
    DocumentDiff(a, b, 1.0, 0.0, 0.0, 1.0, "", ChangeAt("", a, 1.0, 0.0));
    DiffIsEmptyExactlyWhenEqual(first, second, "");
  }

  /** A key with a dot: it and the nested keys the dot splits it into share one diff. */
  lemma DottedKeysShareADiff(a: string, b: string)
    requires a != ""
    ensures var dotted, nested := [a + "." + b], [a, b];
            && Incomparable(dotted, nested)
            && var cur, es := Document(dotted, 0.0, nested, 0.0),
                [Entry(a + "." + b, Changed, Some(Num(0.0)), Some(Num(1.0)))];
               && ListsSimple(es, cur, Document(dotted, 1.0, nested, 0.0), "")
               && ListsSimple(es, cur, Document(dotted, 0.0, nested, 1.0), "")
               && CanonFields(Document(dotted, 1.0, nested, 0.0)) != CanonFields(Document(dotted, 0.0, nested, 1.0))
  {
    DottedKeySharesPath(a, b);
    assert [a + "." + b][0] != [a, b][0];
    OnePathTwoDocuments([a + "." + b], [a, b]);
  }

  /** An empty key: what it holds shares its diff with what stands beside it. */
  lemma EmptyKeySharesADiff(b: string)
    requires b != ""
    ensures var within, beside := ["", b], [b];
            && Incomparable(within, beside)
            && var cur, es := Document(within, 0.0, beside, 0.0), [Entry(b, Changed, Some(Num(0.0)), Some(Num(1.0)))];
               && ListsSimple(es, cur, Document(within, 1.0, beside, 0.0), "")
               && ListsSimple(es, cur, Document(within, 0.0, beside, 1.0), "")
               && CanonFields(Document(within, 1.0, beside, 0.0)) != CanonFields(Document(within, 0.0, beside, 1.0))
  {
    EmptyKeySharesPath(b);
    assert ["", b][0] != [b][0];
    OnePathTwoDocuments(["", b], [b]);
  }

  // ----- Exactly the unambiguous keys are safe -----

  ghost predicate WrittenWith(cur: seq<Field>, prop: seq<Field>, keys: iset<string>) {
    KeysIn(cur, keys) && KeysIn(prop, keys)
  }

  /** Whatever the documents, one confirmed diff over one file fits one document. */
  ghost predicate OneDocumentPerConfirmation(keys: iset<string>) {
    forall cur, prop, other, es, ds ::
      && WrittenWith(cur, prop, keys) && WrittenWith(cur, other, keys)
      && ListsSimple(es, cur, prop, "") && ListsSimple(ds, cur, other, "") && CanonEntries(es) == CanonEntries(ds) ==>
        CanonFields(prop) == CanonFields(other)
  }

  /** Whatever the documents, the diff replayed onto the first gives the second. */
  ghost predicate ReplayIsExact(keys: iset<string>) {
    forall cur, prop, es :: WrittenWith(cur, prop, keys) && ListsSimple(es, cur, prop, "") ==>
      Replayed(cur, Recorded(CanonEntries(es)), "", keys) == CanonFields(prop)
  }

  lemma AmbiguousKeysFail(keys: iset<string>)
    requires !Unambiguous(keys) && exists k :: k in keys && k != ""
    ensures !OneDocumentPerConfirmation(keys) && !ReplayIsExact(keys)
  {
    var a, b := AmbiguousPlaces(keys);
    var cur, es := Document(a, 0.0, b, 0.0), [ChangeAt("", a, 0.0, 1.0)];
    var first, second := Document(a, 1.0, b, 0.0), Document(a, 0.0, b, 1.0);
    OnePathTwoDocuments(a, b);
    DocumentKeysIn(a, 0.0, b, 0.0, keys);
    DocumentKeysIn(a, 1.0, b, 0.0, keys);
    DocumentKeysIn(a, 0.0, b, 1.0, keys);
    assert WrittenWith(cur, first, keys) && WrittenWith(cur, second, keys);
    var replayed := Replayed(cur, Recorded(CanonEntries(es)), "", keys);
    assert replayed != CanonFields(first) || replayed != CanonFields(second);
  }

  /**
   * For any set of keys, a confirmation admits one document over one file if and only if the keys are
   * unambiguous, and exactly then the diff round trip holds.
   */
  lemma SafeExactlyWhenUnambiguous(keys: iset<string>)
    requires exists k :: k in keys && k != ""
    ensures OneDocumentPerConfirmation(keys) <==> Unambiguous(keys)
    ensures ReplayIsExact(keys) <==> Unambiguous(keys)
  {
    if Unambiguous(keys) {
      forall cur, prop, es | WrittenWith(cur, prop, keys) && ListsSimple(es, cur, prop, "")
        ensures Replayed(cur, Recorded(CanonEntries(es)), "", keys) == CanonFields(prop)
      {
        ListedDiffRestoresProposal(cur, prop, es, keys);
      }
      assert ReplayIsExact(keys);
      forall cur, prop, other, es, ds |
        && WrittenWith(cur, prop, keys) && WrittenWith(cur, other, keys)
        && ListsSimple(es, cur, prop, "") && ListsSimple(ds, cur, other, "") && CanonEntries(es) == CanonEntries(ds)
        ensures CanonFields(prop) == CanonFields(other)
      {
        ListedDiffRestoresProposal(cur, prop, es, keys);
        ListedDiffRestoresProposal(cur, other, ds, keys);
      }
    } else {
      AmbiguousKeysFail(keys);
    }
  }

  // ----- Exactly for the unambiguous keys the preview can be confirmed -----

  /** No object is reported whole, so each faces an object. */
  lemma DocumentFaces(a: seq<string>, b: seq<string>, x: real, y: real, u: real, v: real)
    requires Incomparable(a, b)
    ensures Faces(Document(a, x, b, y), Document(a, u, b, v))
  {
    if !Faces(Document(a, x, b, y), Document(a, u, b, v)) {
      var e := UnfacedIsReportedWhole(Document(a, x, b, y), Document(a, u, b, v), "");
      DocumentDiff(a, b, x, y, u, v, "", e);
    }
  }

  lemma {:induction false} NestedIsFlat(chain: seq<string>, x: real)
    requires chain != []
    ensures FlatArrays(Nested(chain, Num(x)).fields)
    decreases |chain|
  {
    if |chain| > 1 {
      NestedIsFlat(chain[1..], x);
    }
  }

  lemma {:induction false} DocumentIsFlat(a: seq<string>, x: real, b: seq<string>, y: real)
    requires Incomparable(a, b)
    ensures FlatArrays(Document(a, x, b, y))
    decreases |a|
  {
    TailsIncomparable(a, b);
    if a[0] == b[0] {
      DocumentIsFlat(a[1..], x, b[1..], y);
    } else {
      if |a| > 1 { NestedIsFlat(a[1..], x); }
      if |b| > 1 { NestedIsFlat(b[1..], y); }
    }
  }

  /** Whatever the documents, the previewed hash is the recomputed one exactly when they are alike. */
  ghost predicate PreviewIsConfirmable(keys: iset<string>) {
    forall cur, prop, shown, recomputed ::
      WrittenWith(cur, prop, keys) && IsPreviewDiff(shown, cur, prop, "") && IsSimpleDiff(recomputed, cur, prop, "") ==>
        (CanonEntries(shown) == CanonEntries(recomputed) <==> Faces(cur, prop) && WrittenAlike(cur, prop))
  }

  /** Two changes under one path: the preview drops one of them, the apply keeps both. */
  lemma OnePathTwoChanges(a: seq<string>, b: seq<string>)
    requires Incomparable(a, b) && JoinPath("", a) == JoinPath("", b)
    ensures var cur, prop := Document(a, 0.0, b, 0.0), Document(a, 1.0, b, 2.0);
            var first, second := ChangeAt("", a, 0.0, 1.0), ChangeAt("", b, 0.0, 2.0);
            && Faces(cur, prop) && WrittenAlike(cur, prop)
            && IsPreviewDiff([first], cur, prop, "") && IsSimpleDiff([first, second], cur, prop, "")
  {
    var cur, prop := Document(a, 0.0, b, 0.0), Document(a, 1.0, b, 2.0);
    var first, second := ChangeAt("", a, 0.0, 1.0), ChangeAt("", b, 0.0, 2.0);
    DocumentFaces(a, b, 0.0, 0.0, 1.0, 2.0);
    DocumentIsFlat(a, 0.0, b, 0.0);
    DocumentIsFlat(a, 1.0, b, 2.0);
    FlatArraysAreWrittenAlike(cur, prop);
    forall e
      ensures SimpleHas(cur, prop, "", e) <==> e == first || e == second
      ensures LeafHas(cur, prop, "", e) <==> e == first || e == second
    {
      DocumentDiff(a, b, 0.0, 0.0, 1.0, 2.0, "", e);
      AlikeDiffsReportAlike(cur, prop, "", e);
    }
    if SimpleApart(cur, prop, "") { SimplePathsDistinct(cur, prop, "", first, second); }
    if LeafApart(cur, prop, "") { LeafPathsDistinct(cur, prop, "", first, second); }
    assert first in [first] && EntryId(first) == EntryId(second);
  }

  /** For a set of keys: only alike documents confirm one another's preview, if and only if the keys are unambiguous. */
  lemma ConfirmableExactlyWhenUnambiguous(keys: iset<string>)
    requires exists k :: k in keys && k != ""
    ensures PreviewIsConfirmable(keys) <==> Unambiguous(keys)
  {
    if Unambiguous(keys) {
      forall cur, prop, shown, recomputed |
        WrittenWith(cur, prop, keys) && IsPreviewDiff(shown, cur, prop, "") && IsSimpleDiff(recomputed, cur, prop, "")
        ensures CanonEntries(shown) == CanonEntries(recomputed) <==> Faces(cur, prop) && WrittenAlike(cur, prop)
      {
        UnambiguousIsSimpleApart(cur, prop, [], keys);
        UnambiguousIsLeafApart(cur, prop, [], keys);
        PreviewHashMatchesExactlyWhenAlike(cur, prop, shown, recomputed, "", 0);
      }
    } else {
      var a, b := AmbiguousPlaces(keys);
      OnePathTwoChanges(a, b);
      DocumentKeysIn(a, 0.0, b, 0.0, keys);
      DocumentKeysIn(a, 1.0, b, 2.0, keys);
      var cur, prop := Document(a, 0.0, b, 0.0), Document(a, 1.0, b, 2.0);
      var shown, recomputed := [ChangeAt("", a, 0.0, 1.0)], [ChangeAt("", a, 0.0, 1.0), ChangeAt("", b, 0.0, 2.0)];
      assert WrittenWith(cur, prop, keys) && |CanonEntries(shown)| != |CanonEntries(recomputed)|;
    }
  }
}
