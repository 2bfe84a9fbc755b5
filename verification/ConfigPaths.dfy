/** The dotted paths of diff entries and source names, and which sets of keys make them tell one place from another. */
module ConfigPaths {
  import opened ConfigJson

  function FullPath(prefix: string, key: string): string {
    if prefix == "" then key else prefix + "." + key
  }

  /** `path` is `top` or lies below it. */
  predicate Under(path: string, top: string) {
    path == top || (|path| > |top| && path[..|top|] == top && path[|top|] == '.')
  }

  predicate StrictlyUnder(path: string, top: string) {
    path != top && Under(path, top)
  }

  lemma ChildIsUnder(prefix: string, key: string)
    requires prefix != ""
    ensures StrictlyUnder(FullPath(prefix, key), prefix)
  {
  }

  lemma UnderIsTransitive(a: string, b: string, c: string)
    requires Under(a, b) && StrictlyUnder(b, c)
    ensures StrictlyUnder(a, c)
  {
  }

  /** The text before the first dot. */
  function FirstSegment(path: string): string {
    if path == "" || path[0] == '.' then "" else [path[0]] + FirstSegment(path[1..])
  }

  lemma {:induction false} FirstSegmentIsKey(path: string, key: string)
    requires '.' !in key && Under(path, key)
    ensures FirstSegment(path) == key
  {
    if key != "" {
      assert path[0] == path[..|key|][0] == key[0];
      assert path[1..][..|key| - 1] == path[..|key|][1..] == key[1..];
      FirstSegmentIsKey(path[1..], key[1..]);
    }
  }

  /** Two plain keys under one prefix have no path in common. */
  lemma FamiliesAreDisjoint(path: string, prefix: string, a: string, b: string)
    requires PlainKey(a) && PlainKey(b)
    requires Under(path, FullPath(prefix, a)) && Under(path, FullPath(prefix, b))
    ensures a == b
  {
    SegmentBelow(path, prefix, a);
    SegmentBelow(path, prefix, b);
  }

  lemma SegmentBelow(path: string, prefix: string, key: string)
    requires PlainKey(key) && Under(path, FullPath(prefix, key))
    ensures FirstSegment(path[if prefix == "" then 0 else |prefix| + 1..]) == key
  {
    var full := FullPath(prefix, key);
    var n := if prefix == "" then 0 else |prefix| + 1;
    assert full[n..] == key;
    assert path[n..][..|key|] == path[..|full|][n..] == key;
    FirstSegmentIsKey(path[n..], key);
  }

  // ----- Chains of keys -----

  predicate PlainPath(path: seq<string>) {
    forall i :: 0 <= i < |path| ==> PlainKey(path[i])
  }

  function JoinPath(prefix: string, path: seq<string>): string
    decreases |path|
  {
    if path == [] then prefix else JoinPath(FullPath(prefix, path[0]), path[1..])
  }

  lemma {:induction false} JoinIsUnder(prefix: string, path: seq<string>)
    requires prefix != "" && PlainPath(path)
    ensures Under(JoinPath(prefix, path), prefix)
    ensures path != [] ==> JoinPath(prefix, path) != prefix
    decreases |path|
  {
    if path != [] {
      var full := FullPath(prefix, path[0]);
      JoinIsUnder(full, path[1..]);
      ChildIsUnder(prefix, path[0]);
      UnderIsTransitive(JoinPath(full, path[1..]), full, prefix);
    }
  }

  /** A dotted name tells its path, the segments being plain. */
  lemma {:induction false} JoinIsInjective(prefix: string, a: seq<string>, b: seq<string>)
    requires PlainPath(a) && PlainPath(b) && a != [] && b != []
    requires JoinPath(prefix, a) == JoinPath(prefix, b)
    ensures a == b
    decreases |a|
  {
    var joined := JoinPath(prefix, a);
    var full := FullPath(prefix, a[0]);
    JoinIsUnder(full, a[1..]);
    JoinIsUnder(FullPath(prefix, b[0]), b[1..]);
    FamiliesAreDisjoint(joined, prefix, a[0], b[0]);
    if |a| > 1 && |b| > 1 {
      JoinIsInjective(full, a[1..], b[1..]);
    }
    assert a == [a[0]] + a[1..] && b == [b[0]] + b[1..];
  }

  lemma {:induction false} JoinConcat(prefix: string, a: seq<string>, b: seq<string>)
    ensures JoinPath(prefix, a + b) == JoinPath(JoinPath(prefix, a), b)
    decreases |a|
  {
    if a == [] {
      assert a + b == b;
    } else {
      assert (a + b)[1..] == a[1..] + b;
      JoinConcat(FullPath(prefix, a[0]), a[1..], b);
    }
  }

  // ----- Which sets of keys make paths tell places apart -----

  ghost predicate Over(chain: seq<string>, keys: iset<string>) {
    forall i :: 0 <= i < |chain| ==> chain[i] in keys
  }

  /** A path names one place: joining is injective on chains of these keys. */
  ghost predicate Unambiguous(keys: iset<string>) {
    forall a, b :: a != [] && b != [] && Over(a, keys) && Over(b, keys) && JoinPath("", a) == JoinPath("", b) ==> a == b
  }

  ghost predicate KeysIn(fields: seq<Field>, keys: iset<string>) {
    && (forall i :: 0 <= i < |fields| ==> fields[i].key in keys)
    && (forall i :: 0 <= i < |fields| ==> fields[i].value.Obj? ==> KeysIn(fields[i].value.fields, keys))
  }

  ghost function AllPlain(): iset<string> {
    iset k | PlainKey(k)
  }

  lemma PlainKeysAreUnambiguous()
    ensures Unambiguous(AllPlain())
  {
    forall a, b | a != [] && b != [] && Over(a, AllPlain()) && Over(b, AllPlain()) && JoinPath("", a) == JoinPath("", b)
      ensures a == b
    {
      JoinIsInjective("", a, b);
    }
  }

  lemma {:induction false} PlainKeysAreInAllPlain(fields: seq<Field>)
    ensures PlainKeys(fields) <==> KeysIn(fields, AllPlain())
    decreases SizeOfFields(fields)
  {
    forall i | 0 <= i < |fields| && fields[i].value.Obj?
      ensures PlainKeys(fields[i].value.fields) <==> KeysIn(fields[i].value.fields, AllPlain())
    {
      FieldIsSmaller(fields, i);
      PlainKeysAreInAllPlain(fields[i].value.fields);
    }
  }

  /** A key with a dot shares its path with the nested keys the dot splits it into. */
  lemma DottedKeySharesPath(a: string, b: string)
    requires a != ""
    ensures JoinPath("", [a + "." + b]) == JoinPath("", [a, b]) == a + "." + b
    ensures [a + "." + b] != [a, b]
  {
    assert [a, b][1..] == [b];
    assert JoinPath(a, [b]) == a + "." + b;
  }

  /** An empty key at the top shares the path of what it holds. */
  lemma EmptyKeySharesPath(b: string)
    requires b != ""
    ensures JoinPath("", ["", b]) == JoinPath("", [b]) == b
    ensures ["", b] != [b]
  {
    assert ["", b][1..] == [b];
  }

  /** With every key also the two parts any of its dots splits it into. */
  ghost predicate ClosedUnderSplitting(keys: iset<string>) {
    forall a, b :: a + "." + b in keys ==> a in keys && b in keys
  }

  lemma OddKeyIsAmbiguous(keys: iset<string>, k: string)
    requires ClosedUnderSplitting(keys) && k in keys && !PlainKey(k) && exists b :: b in keys && b != ""
    ensures !Unambiguous(keys)
  {
    if "" in keys {
      var b :| b in keys && b != "";
      EmptyKeySharesPath(b);
      assert Over(["", b], keys) && Over([b], keys);
    } else {
      var i :| 0 <= i < |k| && k[i] == '.';
      var a, b := k[..i], k[i + 1..];
      assert k == a + "." + b;
      DottedKeySharesPath(a, b);
      assert Over([k], keys) && Over([a, b], keys);
    }
  }

  /**
   * If a key never comes without the parts its dots split it into, a set of keys is unambiguous exactly when all
   * are plain.
   */
  lemma UnambiguousExactlyWhenPlain(keys: iset<string>)
    requires ClosedUnderSplitting(keys) && exists k :: k in keys && k != ""
    ensures Unambiguous(keys) <==> keys <= AllPlain()
  {
    if keys <= AllPlain() {
      PlainKeysAreUnambiguous();
    } else {
      var k :| k in keys && !PlainKey(k);
      OddKeyIsAmbiguous(keys, k);
    }
  }

  // ----- Two places with one path -----

  /** Neither place lies at or within the other. */
  predicate Incomparable(a: seq<string>, b: seq<string>) {
    !(a <= b) && !(b <= a)
  }

  /** Where no key is empty, what lies within a place has a longer path. */
  lemma {:induction false} LongerBelow(prefix: string, chain: seq<string>)
    requires "" !in chain
    ensures |JoinPath(prefix, chain)| >= |prefix| + |chain|
    decreases |chain|
  {
    if chain != [] {
      LongerBelow(FullPath(prefix, chain[0]), chain[1..]);
    }
  }

  /** Ambiguous keys name two places apart from each other by one path. */
  lemma AmbiguousPlaces(keys: iset<string>) returns (a: seq<string>, b: seq<string>)
    requires !Unambiguous(keys) && exists k :: k in keys && k != ""
    ensures Over(a, keys) && Over(b, keys) && Incomparable(a, b) && JoinPath("", a) == JoinPath("", b)
  {
    if "" in keys {
      var k :| k in keys && k != "";
      EmptyKeySharesPath(k);
      a, b := ["", k], [k];
    } else {
      a, b :| a != [] && b != [] && Over(a, keys) && Over(b, keys) && JoinPath("", a) == JoinPath("", b) && a != b;
      if a <= b {
        NothingBelowHasItsPath(a, b);
      } else if b <= a {
        NothingBelowHasItsPath(b, a);
      }
    }
  }

  lemma NothingBelowHasItsPath(a: seq<string>, b: seq<string>)
    requires a <= b && a != b && "" !in b
    ensures JoinPath("", a) != JoinPath("", b)
  {
    assert b == a + b[|a|..];
    JoinConcat("", a, b[|a|..]);
    LongerBelow(JoinPath("", a), b[|a|..]);
  }
}
