/** Text order, stable sorting by a text key, and the uniqueness of an ascending listing. */
module Ordering {

  datatype Option<+T> = None | Some(value: T)

  datatype Result<+T, +E> = Success(value: T) | Failure(error: E)

  /** The largest integer a JavaScript number tells from its successor. */
  const MAX_SAFE_INTEGER: nat := 9007199254740991

  /** The `<` of strings: character by character, a proper prefix first. */
  predicate TextLess(a: string, b: string)
    decreases |a|
  {
    if |a| == 0 then |b| > 0
    else if |b| == 0 then false
    else a[0] < b[0] || (a[0] == b[0] && TextLess(a[1..], b[1..]))
  }

  lemma {:induction false} TextLessIrreflexive(a: string)
    ensures !TextLess(a, a)
    decreases |a|
  {
    if |a| > 0 {
      TextLessIrreflexive(a[1..]);
    }
  }

  lemma {:induction false} TextLessTransitive(a: string, b: string, c: string)
    requires TextLess(a, b) && TextLess(b, c)
    ensures TextLess(a, c)
    decreases |a|
  {
    if |a| > 0 && a[0] == b[0] && b[0] == c[0] {
      TextLessTransitive(a[1..], b[1..], c[1..]);
    }
  }

  lemma {:induction false} TextLessTotal(a: string, b: string)
    ensures a == b || TextLess(a, b) || TextLess(b, a)
    decreases |a|
  {
    if |a| > 0 && |b| > 0 && a[0] == b[0] {
      TextLessTotal(a[1..], b[1..]);
      assert a == [a[0]] + a[1..] && b == [b[0]] + b[1..];
    }
  }

  /** Comparing two concatenations whose first halves have one length compares the halves in turn. */
  lemma {:induction false} TextLessOfPair(a: string, b: string, c: string, d: string)
    requires |a| == |c|
    ensures TextLess(a + b, c + d) <==> TextLess(a, c) || (a == c && TextLess(b, d))
    decreases |a|
  {
    if |a| == 0 {
      assert a + b == b && c + d == d;
    } else {
      assert (a + b)[1..] == a[1..] + b && (c + d)[1..] == c[1..] + d;
      TextLessOfPair(a[1..], b, c[1..], d);
      assert a == [a[0]] + a[1..] && c == [c[0]] + c[1..];
    }
  }

  /** Keys strictly increase from left to right. */
  ghost predicate Ascending<T>(s: seq<T>, key: T -> string) {
    forall i, j :: 0 <= i < j < |s| ==> TextLess(key(s[i]), key(s[j]))
  }

  /** Keys never decrease from left to right. */
  ghost predicate Sorted<T>(s: seq<T>, key: T -> string) {
    forall i, j :: 0 <= i < j < |s| ==> !TextLess(key(s[j]), key(s[i]))
  }

  ghost predicate DistinctKeys<T, K>(s: seq<T>, key: T -> K) {
    forall i, j :: 0 <= i < j < |s| ==> key(s[i]) != key(s[j])
  }

  lemma AscendingIsDistinct<T>(s: seq<T>, key: T -> string)
    requires Ascending(s, key)
    ensures DistinctKeys(s, key)
  {
    forall i, j | 0 <= i < j < |s|
      ensures key(s[i]) != key(s[j])
    {
      TextLessIrreflexive(key(s[i]));
    }
  }

  /** Two ascending listings of the same elements are the same list. */
  lemma {:induction false} AscendingListingIsUnique<T>(a: seq<T>, b: seq<T>, key: T -> string)
    requires Ascending(a, key) && Ascending(b, key)
    requires forall x :: x in a <==> x in b
    ensures a == b
    decreases |a|
  {
    if a == [] {
      NonEmptyHasMember(b);
    } else {
      assert a[0] in b;
      var i :| 0 <= i < |b| && b[i] == a[0];
      assert b[0] in a;
      var j :| 0 <= j < |a| && a[j] == b[0];
      if i > 0 && j > 0 {
        TextLessTransitive(key(a[0]), key(a[j]), key(a[0]));
        TextLessIrreflexive(key(a[0]));
      }
      assert a[0] == b[0];
      TailElements(a, key);
      TailElements(b, key);
      AscendingListingIsUnique(a[1..], b[1..], key);
      assert a == [a[0]] + a[1..] && b == [b[0]] + b[1..];
    }
  }

  lemma NonEmptyHasMember<T>(s: seq<T>)
    ensures s == [] || exists x :: x in s
  {
    if s != [] {
      assert s[0] in s;
    }
  }

  lemma TailElements<T>(a: seq<T>, key: T -> string)
    requires Ascending(a, key) && |a| > 0
    ensures forall x :: x in a[1..] <==> x in a && x != a[0]
    ensures Ascending(a[1..], key)
  {
    forall x | x in a[1..]
      ensures x in a && x != a[0]
    {
      var k :| 0 <= k < |a| - 1 && a[1..][k] == x;
      assert a[k + 1] == x;
      TextLessIrreflexive(key(a[0]));
    }
    forall x | x in a && x != a[0]
      ensures x in a[1..]
    {
      var k :| 0 <= k < |a| && a[k] == x;
      assert a[1..][k - 1] == x;
    }
  }

  /** Places `x` after every element whose key is not greater. */
  function Insert<T>(s: seq<T>, x: T, key: T -> string): seq<T> {
    if s == [] then [x]
    else if TextLess(key(x), key(s[|s| - 1])) then Insert(s[..|s| - 1], x, key) + [s[|s| - 1]]
    else s + [x]
  }

  /** Stable sort, standing for `Array.prototype.sort` with a comparison of text keys. */
  function SortByKey<T>(s: seq<T>, key: T -> string): seq<T> {
    if s == [] then [] else Insert(SortByKey(s[..|s| - 1], key), s[|s| - 1], key)
  }

  lemma {:induction false} InsertAdds<T>(s: seq<T>, x: T, key: T -> string)
    ensures multiset(Insert(s, x, key)) == multiset(s) + multiset{x}
  {
    if s != [] {
      InsertAdds(s[..|s| - 1], x, key);
      assert s == s[..|s| - 1] + [s[|s| - 1]];
    }
  }

  lemma {:induction false} InsertKeepsSorted<T>(s: seq<T>, x: T, key: T -> string)
    requires Sorted(s, key)
    ensures Sorted(Insert(s, x, key), key)
  {
    if s == [] {
    } else {
      var front, last := s[..|s| - 1], s[|s| - 1];
      if TextLess(key(x), key(last)) {
        InsertKeepsSorted(front, x, key);
        var r := Insert(front, x, key);
        InsertAdds(front, x, key);
        forall i | 0 <= i < |r|
          ensures !TextLess(key(last), key(r[i]))
        {
          assert r[i] in multiset(r);
          if r[i] == x {
            LessIsAsymmetric(key(x), key(last));
          } else {
            assert r[i] in front;
          }
        }
      } else {
        forall i | 0 <= i < |s|
          ensures !TextLess(key(x), key(s[i]))
        {
          if TextLess(key(x), key(s[i])) {
            NotLessChain(key(x), key(s[i]), key(last));
          }
        }
      }
    }
  }

  lemma LessIsAsymmetric(a: string, b: string)
    requires TextLess(a, b)
    ensures !TextLess(b, a)
  {
  }

  lemma NotLessChain(a: string, b: string, c: string)
    requires TextLess(a, b) && !TextLess(c, b)
    ensures TextLess(a, c)
  {
  }

  lemma {:induction false} SortByKeySorts<T>(s: seq<T>, key: T -> string)
    ensures Sorted(SortByKey(s, key), key)
    ensures multiset(SortByKey(s, key)) == multiset(s)
  {
    if s != [] {
      var front, last := s[..|s| - 1], s[|s| - 1];
      SortByKeySorts(front, key);
      InsertKeepsSorted(SortByKey(front, key), last, key);
      InsertAdds(SortByKey(front, key), last, key);
      assert s == front + [last];
    }
  }

  /** Sorting elements with distinct keys lists exactly them, strictly ascending. */
  lemma {:induction false} SortDistinct<T>(s: seq<T>, key: T -> string)
    requires DistinctKeys(s, key)
    ensures Ascending(SortByKey(s, key), key)
    ensures forall x :: x in SortByKey(s, key) <==> x in s
  {
    var r := SortByKey(s, key);
    SortByKeySorts(s, key);
    ReorderedStaysDistinct(s, r, key);
    assert forall x :: x in r <==> x in multiset(r);
    assert forall x :: x in s <==> x in multiset(s);
    forall i, j | 0 <= i < j < |r|
      ensures TextLess(key(r[i]), key(r[j]))
    {
      TextLessTotal(key(r[i]), key(r[j]));
    }
  }

  lemma ReorderedStaysDistinct<T, K>(s: seq<T>, r: seq<T>, key: T -> K)
    requires DistinctKeys(s, key) && multiset(r) == multiset(s)
    ensures DistinctKeys(r, key)
  {
    forall i, j | 0 <= i < j < |r|
      ensures key(r[i]) != key(r[j])
    {
      assert r[i] in multiset(s) && r[j] in multiset(s);
      if key(r[i]) == key(r[j]) {
        KeyOccursOnce(s, key, r[i], r[j]);
        RepeatedElement(r, i, j);
        SingleOccurrence(s, key, r[i]);
      }
    }
  }

  lemma KeyOccursOnce<T, K>(s: seq<T>, key: T -> K, x: T, y: T)
    requires DistinctKeys(s, key) && x in s && y in s && key(x) == key(y)
    ensures x == y
  {
  }

  lemma RepeatedElement<T>(r: seq<T>, i: nat, j: nat)
    requires i < j < |r| && r[i] == r[j]
    ensures multiset(r)[r[i]] >= 2
  {
    assert r == r[..i] + [r[i]] + r[i + 1..j] + [r[j]] + r[j + 1..];
  }

  lemma SingleOccurrence<T, K>(s: seq<T>, key: T -> K, x: T)
    requires DistinctKeys(s, key) && x in s
    ensures multiset(s)[x] == 1
  {
    var i :| 0 <= i < |s| && s[i] == x;
    var before, after := s[..i], s[i + 1..];
    forall j | 0 <= j < |s| && j != i
      ensures s[j] != x
    {
      assert key(s[j]) != key(s[i]);
    }
    assert x !in before && x !in after;
    assert multiset(before)[x] == 0 && multiset(after)[x] == 0;
    assert s == before + [x] + after;
    assert multiset(s) == multiset(before) + multiset([x]) + multiset(after);
  }
}
