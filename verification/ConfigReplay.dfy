/** What a diff says: replayed onto the current document it gives the proposal back. */
module ConfigReplay {
  import opened Ordering
  import opened ConfigJson
  import opened ConfigPaths
  import opened ConfigDiff

  /** A diff entry as it is hashed: values in canonical form. */
  datatype CanonEntry = CanonEntry(path: string, kind: Kind, oldValue: Option<Tree>, newValue: Option<Tree>)

  function CanonOption(v: Option<Json>): Option<Tree> {
    match v case None => None case Some(j) => Some(Canon(j))
  }

  function CanonEntryOf(e: Entry): CanonEntry {
    CanonEntry(e.path, e.kind, CanonOption(e.oldValue), CanonOption(e.newValue))
  }

  function CanonEntries(es: seq<Entry>): (r: seq<CanonEntry>)
    ensures |r| == |es| && forall i :: 0 <= i < |es| ==> r[i] == CanonEntryOf(es[i])
  {
    if es == [] then [] else [CanonEntryOf(es[0])] + CanonEntries(es[1..])
  }

  predicate BothObjects(cur: seq<Field>, prop: seq<Field>, k: string) {
    HasKey(cur, k) && HasKey(prop, k) && Get(cur, k).Obj? && Get(prop, k).Obj?
  }

  /** The entry carrying key `k`'s own path, where the documents differ and do not both hold objects. */
  function OwnEntry(cur: seq<Field>, prop: seq<Field>, prefix: string, k: string): Option<Entry> {
    var full := FullPath(prefix, k);
    if !HasKey(cur, k) then
      if HasKey(prop, k) then Some(Entry(full, Added, None, Some(Get(prop, k)))) else None
    else if !HasKey(prop, k) then Some(Entry(full, Removed, Some(Get(cur, k)), None))
    else if BothObjects(cur, prop, k) || Canon(Get(cur, k)) == Canon(Get(prop, k)) then None
    else Some(Entry(full, Changed, Some(Get(cur, k)), Some(Get(prop, k))))
  }

  lemma OwnEntryIsReported(cur: seq<Field>, prop: seq<Field>, prefix: string, k: string)
    ensures OwnEntry(cur, prop, prefix, k).Some? ==>
              && SimpleAt(cur, prop, prefix, k, OwnEntry(cur, prop, prefix, k).value)
              && SimpleHas(cur, prop, prefix, OwnEntry(cur, prop, prefix, k).value)
  {
    if OwnEntry(cur, prop, prefix, k).Some? {
      assert SimpleAt(cur, prop, prefix, k, OwnEntry(cur, prop, prefix, k).value);
    }
  }

  lemma OwnEntryIsOnlyEntry(cur: seq<Field>, prop: seq<Field>, prefix: string, k: string)
    requires !BothObjects(cur, prop, k)
    ensures forall e :: SimpleAt(cur, prop, prefix, k, e) <==> OwnEntry(cur, prop, prefix, k) == Some(e)
  {
  }

  ghost predicate Quiet(cur: seq<Field>, prop: seq<Field>, prefix: string) {
    forall e :: !SimpleHas(cur, prop, prefix, e)
  }

  ghost predicate QuietAt(cur: seq<Field>, prop: seq<Field>, prefix: string, k: string) {
    forall e :: !SimpleAt(cur, prop, prefix, k, e)
  }

  ghost predicate SameAt(cur: seq<Field>, prop: seq<Field>, k: string) {
    if HasKey(cur, k) && HasKey(prop, k) then CanonFields(cur)[k] == CanonFields(prop)[k]
    else HasKey(cur, k) == HasKey(prop, k)
  }

  lemma QuietIsQuietEverywhere(cur: seq<Field>, prop: seq<Field>, prefix: string)
    ensures Quiet(cur, prop, prefix) <==> forall k :: QuietAt(cur, prop, prefix, k)
  {
    if !Quiet(cur, prop, prefix) {
      var e :| SimpleHas(cur, prop, prefix, e);
      var k := SimpleKey(cur, prop, prefix, e);
      assert !QuietAt(cur, prop, prefix, k);
    } else {
      assert forall k, e :: SimpleAt(cur, prop, prefix, k, e) ==> SimpleHas(cur, prop, prefix, e);
    }
  }

  /** The diff is empty exactly when the documents are equal up to key order. */
  lemma {:induction false} DiffIsEmptyExactlyWhenEqual(cur: seq<Field>, prop: seq<Field>, prefix: string)
    ensures Quiet(cur, prop, prefix) <==> CanonFields(cur) == CanonFields(prop)
    decreases SizeOfFields(cur), 1
  {
    QuietIsQuietEverywhere(cur, prop, prefix);
    forall k
      ensures QuietAt(cur, prop, prefix, k) <==> SameAt(cur, prop, k)
    {
      KeyIsQuietExactlyWhenSame(cur, prop, prefix, k);
    }
    if forall k :: SameAt(cur, prop, k) {
      forall k
        ensures k in CanonFields(cur) <==> k in CanonFields(prop)
        ensures k in CanonFields(cur) && k in CanonFields(prop) ==> CanonFields(cur)[k] == CanonFields(prop)[k]
      {
        assert SameAt(cur, prop, k);
      }
    }
  }

  lemma {:induction false} KeyIsQuietExactlyWhenSame(cur: seq<Field>, prop: seq<Field>, prefix: string, k: string)
    ensures QuietAt(cur, prop, prefix, k) <==> SameAt(cur, prop, k)
    decreases SizeOfFields(cur), 0
  {
    if HasKey(cur, k) { CanonFieldsGet(cur, k); }
    if HasKey(prop, k) { CanonFieldsGet(prop, k); }
    if BothObjects(cur, prop, k) {
      var o, n, full := Get(cur, k).fields, Get(prop, k).fields, FullPath(prefix, k);
      DiffIsEmptyExactlyWhenEqual(o, n, full);
      assert Canon(Get(cur, k)) == Node(CanonFields(o)) && Canon(Get(prop, k)) == Node(CanonFields(n));
      assert forall e :: SimpleAt(cur, prop, prefix, k, e) <==> SimpleHas(o, n, full, e);
      assert QuietAt(cur, prop, prefix, k) <==> Quiet(o, n, full);
    } else {
      OwnEntryIsOnlyEntry(cur, prop, prefix, k);
      assert QuietAt(cur, prop, prefix, k) <==> OwnEntry(cur, prop, prefix, k).None?;
    }
  }

  // ----- Replay -----

  predicate InScope(path: string, prefix: string) {
    prefix == "" || StrictlyUnder(path, prefix)
  }

  function Tail(prefix: string, path: string): string
    requires InScope(path, prefix)
  {
    if prefix == "" then path else path[|prefix| + 1..]
  }

  ghost function EntryFor(es: set<CanonEntry>, path: string): Option<CanonEntry> {
    if exists c :: c in es && c.path == path then
      var c :| c in es && c.path == path;
      Some(c)
    else None
  }

  /** What key `k` holds after the entries are replayed onto `cur`, found at `prefix`. */
  ghost function ReplayedAt(
    cur: seq<Field>, es: set<CanonEntry>, prefix: string, k: string, keys: iset<string>): Option<Tree>
    decreases SizeOfFields(cur), 0
  {
    match EntryFor(es, FullPath(prefix, k))
    case Some(c) => c.newValue
    case None =>
      if !HasKey(cur, k) then None
      else if Get(cur, k).Obj? then Some(Node(Replayed(Get(cur, k).fields, es, FullPath(prefix, k), keys)))
      else Some(Canon(Get(cur, k)))
  }

  /** The keys, of those in use, that an entry names directly below `prefix`. */
  ghost function Named(es: set<CanonEntry>, prefix: string, keys: iset<string>): set<string> {
    set c | c in es && InScope(c.path, prefix) && Tail(prefix, c.path) in keys :: Tail(prefix, c.path)
  }

  ghost function Replayed(cur: seq<Field>, es: set<CanonEntry>, prefix: string, keys: iset<string>): map<string, Tree>
    decreases SizeOfFields(cur), 1
  {
    map k | k in CanonFields(cur).Keys + Named(es, prefix, keys) && ReplayedAt(cur, es, prefix, k, keys).Some? ::
      ReplayedAt(cur, es, prefix, k, keys).value
  }

  /** What `es` says of places at and below `base` is the diff there and nothing else. */
  ghost predicate Carries(es: set<CanonEntry>, cur: seq<Field>, prop: seq<Field>, base: seq<string>,
      keys: iset<string>) {
    var prefix := JoinPath("", base);
    && (forall e :: SimpleHas(cur, prop, prefix, e) ==> CanonEntryOf(e) in es)
    && (forall c, rest :: c in es && rest != [] && Over(rest, keys) && c.path == JoinPath(prefix, rest) ==>
          exists e :: SimpleHas(cur, prop, prefix, e) && c == CanonEntryOf(e))
  }

  /** The documents, the keys they are written with, and where in the whole they are found. */
  ghost predicate InPlace(cur: seq<Field>, prop: seq<Field>, base: seq<string>, keys: iset<string>) {
    Unambiguous(keys) && Over(base, keys) && KeysIn(cur, keys) && KeysIn(prop, keys)
  }

  /** A carried entry with the path of a place is the diff's entry of that very place. */
  lemma CarriedAt(
    es: set<CanonEntry>, cur: seq<Field>, prop: seq<Field>, base: seq<string>, keys: iset<string>,
    rest: seq<string>, c: CanonEntry) returns (e: Entry)
    requires InPlace(cur, prop, base, keys) && Carries(es, cur, prop, base, keys)
    requires rest != [] && Over(rest, keys) && c in es && c.path == JoinPath(JoinPath("", base), rest)
    ensures SimpleAt(cur, prop, JoinPath("", base), rest[0], e) && c == CanonEntryOf(e)
    ensures BothObjects(cur, prop, rest[0]) ==> |rest| > 1
  {
    var prefix := JoinPath("", base);
    e :| SimpleHas(cur, prop, prefix, e) && c == CanonEntryOf(e);
    var k := SimpleKey(cur, prop, prefix, e);
    var chain := SimpleChain(cur, prop, prefix, k, e, keys);
    JoinConcat("", base, rest);
    JoinConcat("", base, chain);
    assert base + rest == base + chain;
    assert (base + rest)[|base|..] == rest && (base + chain)[|base|..] == chain;
  }

  lemma CarriesBelow(
    es: set<CanonEntry>, cur: seq<Field>, prop: seq<Field>, base: seq<string>, keys: iset<string>, k: string)
    requires InPlace(cur, prop, base, keys) && Carries(es, cur, prop, base, keys)
    requires BothObjects(cur, prop, k)
    ensures JoinPath("", base + [k]) == FullPath(JoinPath("", base), k)
    ensures InPlace(Get(cur, k).fields, Get(prop, k).fields, base + [k], keys)
    ensures Carries(es, Get(cur, k).fields, Get(prop, k).fields, base + [k], keys)
  {
    var prefix, o, n := JoinPath("", base), Get(cur, k).fields, Get(prop, k).fields;
    var full := FullPath(prefix, k);
    JoinConcat("", base, [k]);
    forall e | SimpleHas(o, n, full, e)
      ensures CanonEntryOf(e) in es
    {
      assert SimpleAt(cur, prop, prefix, k, e);
    }
    forall c, rest | c in es && rest != [] && Over(rest, keys) && c.path == JoinPath(full, rest)
      ensures exists e :: SimpleHas(o, n, full, e) && c == CanonEntryOf(e)
    {
      var e := CarriedAt(es, cur, prop, base, keys, [k] + rest, c);
      assert SimpleHas(o, n, full, e);
    }
  }

  lemma OwnEntryIsCarried(
    es: set<CanonEntry>, cur: seq<Field>, prop: seq<Field>, base: seq<string>, keys: iset<string>, k: string)
    requires Carries(es, cur, prop, base, keys) && k in keys
    ensures var prefix := JoinPath("", base);
            OwnEntry(cur, prop, prefix, k).Some? ==>
                EntryFor(es, FullPath(prefix, k)).Some? && k in Named(es, prefix, keys)
  {
    var prefix := JoinPath("", base);
    OwnEntryIsReported(cur, prop, prefix, k);
    if OwnEntry(cur, prop, prefix, k).Some? {
      var c := CanonEntryOf(OwnEntry(cur, prop, prefix, k).value);
      assert c in es && c.path == FullPath(prefix, k);
      assert InScope(c.path, prefix) && Tail(prefix, c.path) == k;
    }
  }

  lemma {:induction false} ReplayRestoresKey(
    es: set<CanonEntry>, cur: seq<Field>, prop: seq<Field>, base: seq<string>, keys: iset<string>, k: string)
    requires InPlace(cur, prop, base, keys) && Carries(es, cur, prop, base, keys) && k in keys
    ensures ReplayedAt(cur, es, JoinPath("", base), k, keys) == if HasKey(prop, k) then Some(Canon(Get(prop, k)))
        else None
    decreases SizeOfFields(cur), 0
  {
    var prefix := JoinPath("", base);
    var full := FullPath(prefix, k);
    var found := EntryFor(es, full);
    OwnEntryIsCarried(es, cur, prop, base, keys, k);
    if found.Some? {
      var e := CarriedAt(es, cur, prop, base, keys, [k], found.value);
    } else if BothObjects(cur, prop, k) {
      CarriesBelow(es, cur, prop, base, keys, k);
      ReplayRestoresProposal(es, Get(cur, k).fields, Get(prop, k).fields, base + [k], keys);
    }
  }

  /** Replaying the diff of two documents onto the first gives the second. */
  lemma {:induction false} ReplayRestoresProposal(
    es: set<CanonEntry>, cur: seq<Field>, prop: seq<Field>, base: seq<string>, keys: iset<string>)
    requires InPlace(cur, prop, base, keys) && Carries(es, cur, prop, base, keys)
    ensures Replayed(cur, es, JoinPath("", base), keys) == CanonFields(prop)
    decreases SizeOfFields(cur), 1
  {
    var r, target := Replayed(cur, es, JoinPath("", base), keys), CanonFields(prop);
    forall k
      ensures k in r <==> k in target
      ensures k in target && k in r ==> r[k] == target[k]
    {
      if HasKey(prop, k) {
        CanonFieldsGet(prop, k);
      }
      if k in keys {
        OwnEntryIsCarried(es, cur, prop, base, keys, k);
        ReplayRestoresKey(es, cur, prop, base, keys, k);
      } else {
        assert k !in Named(es, JoinPath("", base), keys);
      }
    }
  }

  // ----- From a listed diff -----

  ghost function Recorded(cs: seq<CanonEntry>): set<CanonEntry> {
    set c | c in cs
  }

  lemma ListingCarries(cur: seq<Field>, prop: seq<Field>, es: seq<Entry>, keys: iset<string>)
    requires forall e :: e in es <==> SimpleHas(cur, prop, "", e)
    ensures Carries(Recorded(CanonEntries(es)), cur, prop, [], keys)
  {
    var cs := Recorded(CanonEntries(es));
    forall e | SimpleHas(cur, prop, "", e)
      ensures CanonEntryOf(e) in cs
    {
      var i :| 0 <= i < |es| && es[i] == e;
      assert CanonEntries(es)[i] == CanonEntryOf(e);
    }
    forall c | c in cs
      ensures exists e :: SimpleHas(cur, prop, "", e) && c == CanonEntryOf(e)
    {
      var i :| 0 <= i < |es| && CanonEntries(es)[i] == c;
      assert es[i] in es;
    }
  }

  /** The listed diff of two documents written with unambiguous keys, replayed onto the first, gives the second. */
  lemma ListedDiffRestoresProposal(cur: seq<Field>, prop: seq<Field>, es: seq<Entry>, keys: iset<string>)
    requires Unambiguous(keys) && KeysIn(cur, keys) && KeysIn(prop, keys)
    requires forall e :: e in es <==> SimpleHas(cur, prop, "", e)
    ensures Replayed(cur, Recorded(CanonEntries(es)), "", keys) == CanonFields(prop)
  {
    ListingCarries(cur, prop, es, keys);
    ReplayRestoresProposal(Recorded(CanonEntries(es)), cur, prop, [], keys);
  }
}
