/** JSON documents as parsed (objects keep insertion order) and their canonical form (key order forgotten). */
module ConfigJson {

  datatype Json =
    | Null
    | Bool(flag: bool)
    | Num(number: real)
    | Str(text: string)
    | Arr(items: seq<Json>)
    | Obj(fields: seq<Field>)

  datatype Field = Field(key: string, value: Json)

  /** What `canonicalJson` serialises: two values have one canonical text exactly when these are equal. */
  datatype Tree =
    | Leaf(value: Json)
    | Many(items: seq<Tree>)
    | Node(fields: map<string, Tree>)

  function IndexOfKey(fields: seq<Field>, key: string): (i: int)
    ensures -1 <= i < |fields|
    ensures i >= 0 ==> fields[i].key == key
    ensures i < 0 ==> forall j :: 0 <= j < |fields| ==> fields[j].key != key
  {
    if fields == [] then -1
    else if fields[0].key == key then 0
    else
      var i := IndexOfKey(fields[1..], key);
      if i < 0 then -1 else i + 1
  }

  /** `key in object`. */
  predicate HasKey(fields: seq<Field>, key: string) {
    IndexOfKey(fields, key) >= 0
  }

  function Get(fields: seq<Field>, key: string): (v: Json)
    requires HasKey(fields, key)
    ensures Size(v) < SizeOfFields(fields)
  {
    var i := IndexOfKey(fields, key);
    FieldIsSmaller(fields, i);
    fields[i].value
  }

  function Size(j: Json): nat {
    match j
    case Obj(fields) => 1 + SizeOfFields(fields)
    case _ => 0
  }

  function SizeOfFields(fields: seq<Field>): nat {
    if fields == [] then 0 else 1 + Size(fields[0].value) + SizeOfFields(fields[1..])
  }

  lemma {:induction false} FieldIsSmaller(fields: seq<Field>, i: nat)
    requires i < |fields|
    ensures Size(fields[i].value) < SizeOfFields(fields)
  {
    if i > 0 {
      FieldIsSmaller(fields[1..], i - 1);
    }
  }

  /** No object repeats a key: a fact of every JavaScript object. */
  predicate WellKeyed(fields: seq<Field>) {
    && (forall i, j :: 0 <= i < j < |fields| ==> fields[i].key != fields[j].key)
    && (forall i :: 0 <= i < |fields| ==> fields[i].value.Obj? ==> WellKeyed(fields[i].value.fields))
  }

  predicate PlainKey(key: string) {
    key != "" && '.' !in key
  }

  /** Every key, at every depth, is non-empty and has no dot. */
  predicate PlainKeys(fields: seq<Field>) {
    && (forall i :: 0 <= i < |fields| ==> PlainKey(fields[i].key))
    && (forall i :: 0 <= i < |fields| ==> fields[i].value.Obj? ==> PlainKeys(fields[i].value.fields))
  }

  predicate NoObjects(j: Json) {
    match j
    case Obj(_) => false
    case Arr(items) => forall i :: 0 <= i < |items| ==> NoObjects(items[i])
    case _ => true
  }

  /** No array, at any depth, holds an object. */
  predicate FlatArrays(fields: seq<Field>) {
    forall i :: 0 <= i < |fields| ==>
      if fields[i].value.Obj? then FlatArrays(fields[i].value.fields) else NoObjects(fields[i].value)
  }

  function Canon(j: Json): Tree {
    match j
    case Arr(items) => Many(CanonItems(items))
    case Obj(fields) => Node(CanonFields(fields))
    case _ => Leaf(j)
  }

  function CanonItems(items: seq<Json>): (r: seq<Tree>)
    ensures |r| == |items| && forall i :: 0 <= i < |items| ==> r[i] == Canon(items[i])
  {
    if items == [] then [] else [Canon(items[0])] + CanonItems(items[1..])
  }

  /** The first field of a key counts; with unique keys there is no other. */
  function CanonFields(fields: seq<Field>): (m: map<string, Tree>)
    ensures forall k :: k in m <==> HasKey(fields, k)
  {
    if fields == [] then map[] else CanonFields(fields[1..])[fields[0].key := Canon(fields[0].value)]
  }

  lemma {:induction false} CanonFieldsGet(fields: seq<Field>, key: string)
    requires HasKey(fields, key)
    ensures CanonFields(fields)[key] == Canon(Get(fields, key))
  {
    if fields[0].key != key {
      CanonFieldsGet(fields[1..], key);
    }
  }

  lemma GetKeepsShape(fields: seq<Field>, key: string)
    requires HasKey(fields, key) && Get(fields, key).Obj?
    ensures WellKeyed(fields) ==> WellKeyed(Get(fields, key).fields)
    ensures PlainKeys(fields) ==> PlainKeys(Get(fields, key).fields)
    ensures FlatArrays(fields) ==> FlatArrays(Get(fields, key).fields)
  {
  }

  /** On values without objects the text comparison and the canonical comparison agree. */
  lemma {:induction false} CanonIsFaithful(a: Json, b: Json)
    requires NoObjects(a) && NoObjects(b)
    ensures Canon(a) == Canon(b) <==> a == b
  {
    if a.Arr? && b.Arr? && Canon(a) == Canon(b) {
      assert |a.items| == |b.items|;
      forall i | 0 <= i < |a.items|
        ensures a.items[i] == b.items[i]
      {
        CanonIsFaithful(a.items[i], b.items[i]);
      }
    }
  }
}
