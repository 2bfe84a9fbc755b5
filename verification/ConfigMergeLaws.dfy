/** When merging three layers pairwise gives one result whichever pair is merged first. */
module ConfigMergeLaws {
  import opened ConfigJson
  import opened ConfigDiff
  import opened ConfigReplay
  import opened ConfigMerge
  import opened ConfigLayers

  lemma CanonEqualsKeywise(a: seq<Field>, b: seq<Field>)
    ensures CanonFields(a) == CanonFields(b) <==> forall k :: SameAt(a, b, k)
  {
    if forall k :: SameAt(a, b, k) {
      forall k
        ensures k in CanonFields(a) <==> k in CanonFields(b)
        ensures k in CanonFields(a) && k in CanonFields(b) ==> CanonFields(a)[k] == CanonFields(b)[k]
      {
        assert SameAt(a, b, k);
      }
    } else {
      var k :| !SameAt(a, b, k);
      assert HasKey(a, k) <==> k in CanonFields(a);
    }
  }

  /** Both documents hold the same at `k`, in terms of the values held. */
  lemma SameAtByValue(a: seq<Field>, b: seq<Field>, k: string)
    ensures SameAt(a, b, k) <==>
              if HasKey(a, k) && HasKey(b, k) then Canon(Get(a, k)) == Canon(Get(b, k))
                  else HasKey(a, k) == HasKey(b, k)
  {
    if HasKey(a, k) { CanonFieldsGet(a, k); }
    if HasKey(b, k) { CanonFieldsGet(b, k); }
  }

  lemma {:induction false} MergedIsWellKeyed(base: seq<Field>, over: seq<Field>)
    requires WellKeyed(base) && WellKeyed(over)
    ensures WellKeyed(Merged(base, over))
    decreases SizeOfFields(over), |over|
  {
    if over != [] {
      var n := |over| - 1;
      var last := over[n];
      assert forall i :: 0 <= i < n ==> over[..n][i] == over[i];
      FieldIsSmaller(over, n);
      FrontIsSmaller(over);
      MergedIsWellKeyed(base, over[..n]);
      if last.value.Obj? {
        if HasKey(base, last.key) && Get(base, last.key).Obj? { GetKeepsShape(base, last.key); }
        MergedIsWellKeyed(OldFields(base, last.key), last.value.fields);
      }
      SetFieldKeepsShape(Merged(base, over[..n]), last.key, MergedValue(base, last.key, last.value), iset{});
    }
  }

  lemma {:induction false} SetNewField(fields: seq<Field>, key: string, value: Json)
    requires !HasKey(fields, key)
    ensures SetField(fields, key, value) == fields + [Field(key, value)]
  {
    if fields != [] {
      SetNewField(fields[1..], key, value);
    }
  }

  lemma {:induction false} MergedIntoNothing(over: seq<Field>)
    requires WellKeyed(over)
    ensures Merged([], over) == over
    decreases SizeOfFields(over), |over|
  {
    if over != [] {
      var n := |over| - 1;
      assert forall i :: 0 <= i < n ==> over[..n][i] == over[i];
      FieldIsSmaller(over, n);
      FrontIsSmaller(over);
      MergedIntoNothing(over[..n]);
      if over[n].value.Obj? {
        MergedIntoNothing(over[n].value.fields);
      }
      FrontKeys(over, over[n].key);
      SetNewField(over[..n], over[n].key, over[n].value);
      FrontAndLast(over);
    }
  }

  lemma FrontAndLast(over: seq<Field>)
    requires over != []
    ensures over == over[..|over| - 1] + [Field(over[|over| - 1].key, over[|over| - 1].value)]
  {
  }

  /** Nothing of `a` would show through `c`. */
  ghost predicate Covers(a: seq<Field>, c: seq<Field>)
    decreases SizeOfFields(c), 1
  {
    forall k :: CoversAt(a, c, k)
  }

  ghost predicate CoversAt(a: seq<Field>, c: seq<Field>, k: string)
    decreases SizeOfFields(c), 0
  {
    (HasKey(a, k) ==> HasKey(c, k)) && (HasKey(c, k) && Get(c, k).Obj? ==> Covers(OldFields(a, k), Get(c, k).fields))
  }

  lemma {:induction false} MergeIsInvisibleExactlyWhenCovered(a: seq<Field>, c: seq<Field>)
    requires WellKeyed(c)
    ensures CanonFields(Merged(a, c)) == CanonFields(c) <==> Covers(a, c)
    decreases SizeOfFields(c)
  {
    var m := Merged(a, c);
    CanonEqualsKeywise(m, c);
    forall k
      ensures SameAt(m, c, k) <==> CoversAt(a, c, k)
    {
      SameAtByValue(m, c, k);
      MergedAtKey(a, c, k);
      if HasKey(c, k) && Get(c, k).Obj? {
        GetKeepsShape(c, k);
        MergeIsInvisibleExactlyWhenCovered(OldFields(a, k), Get(c, k).fields);
      }
    }
  }

  /** Wherever the middle layer's plain value stands between two objects, the last one covers the first. */
  ghost predicate Associates(a: seq<Field>, b: seq<Field>, c: seq<Field>)
    decreases SizeOfFields(c), 1
  {
    forall k :: AssociatesAt(a, b, c, k)
  }

  ghost predicate AssociatesAt(a: seq<Field>, b: seq<Field>, c: seq<Field>, k: string)
    decreases SizeOfFields(c), 0
  {
    HasKey(c, k) && Get(c, k).Obj? ==>
      if HasKey(b, k) && !Get(b, k).Obj? then Covers(OldFields(a, k), Get(c, k).fields)
      else Associates(OldFields(a, k), OldFields(b, k), Get(c, k).fields)
  }

  lemma OldFieldsOfMerged(a: seq<Field>, b: seq<Field>, k: string)
    requires WellKeyed(b)
    ensures OldFields(Merged(a, b), k) ==
              if HasKey(b, k) && !Get(b, k).Obj? then [] else Merged(OldFields(a, k), OldFields(b, k))
  {
    MergedAtKey(a, b, k);
  }

  lemma OldFieldsKeepShape(fields: seq<Field>, k: string)
    requires WellKeyed(fields)
    ensures WellKeyed(OldFields(fields, k))
  {
  }

  /** Merging is associative on three layers if and only if no plain value hides the first from the last. */
  lemma {:induction false} MergeAssociatesExactlyWhen(a: seq<Field>, b: seq<Field>, c: seq<Field>)
    requires WellKeyed(b) && WellKeyed(c)
    ensures CanonFields(Merged(Merged(a, b), c)) == CanonFields(Merged(a, Merged(b, c))) <==> Associates(a, b, c)
    decreases SizeOfFields(c), 1
  {
    var left, right := Merged(Merged(a, b), c), Merged(a, Merged(b, c));
    CanonEqualsKeywise(left, right);
    forall k
      ensures SameAt(left, right, k) <==> AssociatesAt(a, b, c, k)
    {
      MergeAssociatesAtKey(a, b, c, k);
    }
  }

  lemma {:induction false} MergeAssociatesAtKey(a: seq<Field>, b: seq<Field>, c: seq<Field>, k: string)
    requires WellKeyed(b) && WellKeyed(c)
    ensures SameAt(Merged(Merged(a, b), c), Merged(a, Merged(b, c)), k) <==> AssociatesAt(a, b, c, k)
    decreases SizeOfFields(c), 0
  {
    MergedIsWellKeyed(b, c);
    SameAtByValue(Merged(Merged(a, b), c), Merged(a, Merged(b, c)), k);
    MergedAtKey(Merged(a, b), c, k);
    MergedAtKey(a, b, k);
    MergedAtKey(a, Merged(b, c), k);
    MergedAtKey(b, c, k);
    if HasKey(c, k) && Get(c, k).Obj? {
      var ka, kb, kc := OldFields(a, k), OldFields(b, k), Get(c, k).fields;
      GetKeepsShape(c, k);
      OldFieldsOfMerged(a, b, k);
      MergedIntoNothing(kc);
      if HasKey(b, k) && !Get(b, k).Obj? {
        MergeIsInvisibleExactlyWhenCovered(ka, kc);
      } else {
        OldFieldsKeepShape(b, k);
        MergeAssociatesExactlyWhen(ka, kb, kc);
      }
    }
  }

  /**
   * A plain value between two objects: merged from the left the first object is forgotten, from the right it
   * returns.
   */
  lemma PlainValueBreaksAssociativity()
    ensures var a := [Field("x", Obj([Field("y", Num(1.0))]))];
            var b := [Field("x", Num(2.0))];
            var c := [Field("x", Obj([Field("z", Num(3.0))]))];
            CanonFields(Merged(Merged(a, b), c)) != CanonFields(Merged(a, Merged(b, c)))
  {
    var a := [Field("x", Obj([Field("y", Num(1.0))]))];
    var b := [Field("x", Num(2.0))];
    var c := [Field("x", Obj([Field("z", Num(3.0))]))];
    assert HasKey(c, "x") && Get(c, "x") == Obj([Field("z", Num(3.0))]);
    assert HasKey(b, "x") && !Get(b, "x").Obj?;
    assert HasKey(a, "x") && OldFields(a, "x") == [Field("y", Num(1.0))];
    assert HasKey(OldFields(a, "x"), "y") && !HasKey([Field("z", Num(3.0))], "y");
    assert !CoversAt(OldFields(a, "x"), Get(c, "x").fields, "y");
    assert !AssociatesAt(a, b, c, "x");
    MergeAssociatesExactlyWhen(a, b, c);
  }
}
