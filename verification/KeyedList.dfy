/** Arrays whose items are addressed by an identity, never by index. */
module KeyedList {
  import opened Ordering

  /** An array item: its identity and everything else it carries. */
  datatype Keyed<+T> = Keyed(id: string, body: T)

  /** `findIndex` by identity: the first match, or -1. */
  function IndexOf<T>(s: seq<Keyed<T>>, id: string): (r: int)
    ensures -1 <= r < |s|
    ensures r >= 0 ==> s[r].id == id && forall j :: 0 <= j < r ==> s[j].id != id
    ensures r < 0 ==> forall j :: 0 <= j < |s| ==> s[j].id != id
  {
    if s == [] then -1
    else if s[0].id == id then 0
    else
      var r := IndexOf(s[1..], id);
      if r < 0 then -1 else r + 1
  }

  predicate Has<T>(s: seq<Keyed<T>>, id: string) {
    IndexOf(s, id) >= 0
  }

  /** The body held under an identity. */
  function Lookup<T>(s: seq<Keyed<T>>, id: string): Option<T> {
    var i := IndexOf(s, id);
    if i < 0 then None else Some(s[i].body)
  }

  /** Replaces the first item of the same identity in place, or appends. */
  function Put<T>(s: seq<Keyed<T>>, item: Keyed<T>): seq<Keyed<T>> {
    var i := IndexOf(s, item.id);
    if i < 0 then s + [item] else s[i := item]
  }

  /** Splices out the first item of an identity. */
  function Drop<T>(s: seq<Keyed<T>>, id: string): seq<Keyed<T>> {
    var i := IndexOf(s, id);
    if i < 0 then s else s[..i] + s[i + 1..]
  }

  ghost predicate UniqueIds<T>(s: seq<Keyed<T>>) {
    forall i, j :: 0 <= i < j < |s| ==> s[i].id != s[j].id
  }

  /** Putting changes the lookup of one identity only. */
  lemma PutLookup<T>(s: seq<Keyed<T>>, item: Keyed<T>, id: string)
    ensures Lookup(Put(s, item), id) == if id == item.id then Some(item.body) else Lookup(s, id)
  {
    var i, r := IndexOf(s, item.id), Put(s, item);
    var k, m := IndexOf(r, id), IndexOf(s, id);
    if id == item.id {
      assert r[if i < 0 then |s| else i].id == id;
    } else if m >= 0 {
      assert r[m].id == id && forall j :: 0 <= j < m ==> r[j].id == s[j].id || r[j].id == item.id;
      assert k == m;
    } else {
      assert forall j :: 0 <= j < |r| ==> r[j].id != id;
    }
  }

  /** Dropping empties the lookup of one identity when identities are unique. */
  lemma DropLookup<T>(s: seq<Keyed<T>>, gone: string, id: string)
    requires UniqueIds(s)
    ensures Lookup(Drop(s, gone), id) == if id == gone then None else Lookup(s, id)
  {
    var i, r := IndexOf(s, gone), Drop(s, gone);
    if i >= 0 {
      assert forall j :: 0 <= j < |r| ==> r[j] == if j < i then s[j] else s[j + 1];
      var k, m := IndexOf(r, id), IndexOf(s, id);
      if id != gone && m >= 0 {
        assert r[if m < i then m else m - 1].id == id;
      } else {
        assert forall j :: 0 <= j < |r| ==> r[j].id != id;
      }
    }
  }

  /** Putting leaves every other item where it is; a new identity comes last. */
  lemma PutKeepsPlaces<T>(s: seq<Keyed<T>>, item: Keyed<T>)
    requires UniqueIds(s)
    ensures var r := Put(s, item);
            && (forall j :: 0 <= j < |s| ==> j < |r| && r[j] == if s[j].id == item.id then item else s[j])
            && (forall j :: |s| <= j < |r| ==> r[j] == item)
            && |r| == if exists j :: 0 <= j < |s| && s[j].id == item.id then |s| else |s| + 1
  {
  }

  /** Dropping closes the gap and leaves the order of the others. */
  lemma DropKeepsPlaces<T>(s: seq<Keyed<T>>, id: string)
    requires UniqueIds(s)
    ensures var r := Drop(s, id);
            forall j :: 0 <= j < |s| ==>
              if s[j].id == id then |r| == |s| - 1 && r == s[..j] + s[j + 1..]
              else if exists i :: 0 <= i < j && s[i].id == id then j - 1 < |r| && r[j - 1] == s[j]
              else j < |r| && r[j] == s[j]
  {
  }

  lemma PutKeepsUnique<T>(s: seq<Keyed<T>>, item: Keyed<T>)
    requires UniqueIds(s)
    ensures UniqueIds(Put(s, item))
  {
  }

  lemma DropKeepsUnique<T>(s: seq<Keyed<T>>, id: string)
    requires UniqueIds(s)
    ensures UniqueIds(Drop(s, id))
  {
  }
}
