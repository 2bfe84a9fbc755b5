/** Durable writes one after another, and where a crash between two of them leaves the state. */
module DurableWrites {

  /** The state after all the writes. */
  function Applied<S, W>(s: S, ws: seq<W>, apply: (S, W) -> S): S {
    if ws == [] then s else apply(Applied(s, ws[..|ws| - 1], apply), ws[|ws| - 1])
  }

  lemma OneMore<S, W>(s: S, ws: seq<W>, n: nat, apply: (S, W) -> S)
    requires n < |ws|
    ensures Applied(s, ws[..n + 1], apply) == apply(Applied(s, ws[..n], apply), ws[n])
  {
    assert ws[..n + 1][..n] == ws[..n];
  }

  lemma FirstFew<S, W>(s: S, ws: seq<W>, n: nat, apply: (S, W) -> S)
    requires n <= |ws| && n <= 3
    ensures Applied(s, ws[..n], apply) ==
              if n == 0 then s
              else if n == 1 then apply(s, ws[0])
              else if n == 2 then apply(apply(s, ws[0]), ws[1])
              else apply(apply(apply(s, ws[0]), ws[1]), ws[2])
  {
    assert ws[..0] == [];
    if n > 0 { OneMore(s, ws, 0, apply); }
    if n > 1 { OneMore(s, ws, 1, apply); }
    if n > 2 { OneMore(s, ws, 2, apply); }
  }

  lemma {:induction false} OfConcat<S, W>(s: S, a: seq<W>, b: seq<W>, apply: (S, W) -> S)
    ensures Applied(s, a + b, apply) == Applied(Applied(s, a, apply), b, apply)
  {
    if b == [] {
      assert a + b == a;
    } else {
      assert (a + b)[..|a + b| - 1] == a + b[..|b| - 1];
      OfConcat(s, a, b[..|b| - 1], apply);
    }
  }

  /** A prefix of two parts in a row is a prefix of the first, or the first and a prefix of the second. */
  lemma PrefixOfTwo<S, W>(s: S, a: seq<W>, b: seq<W>, n: nat, apply: (S, W) -> S)
    requires n <= |a + b|
    ensures Applied(s, (a + b)[..n], apply) ==
              if n <= |a| then Applied(s, a[..n], apply) else Applied(Applied(s, a, apply), b[..n - |a|], apply)
  {
    if n <= |a| {
      assert (a + b)[..n] == a[..n];
    } else {
      assert (a + b)[..n] == a + b[..n - |a|];
      OfConcat(s, a, b[..n - |a|], apply);
    }
  }

  lemma PrefixOfThree<S, W>(s: S, a: seq<W>, b: seq<W>, c: seq<W>, n: nat, apply: (S, W) -> S)
    requires n <= |a + b + c|
    ensures var one := Applied(s, a[..|a|], apply);
            var two := Applied(one, b[..|b|], apply);
            Applied(s, (a + b + c)[..n], apply) ==
              if n <= |a| then Applied(s, a[..n], apply)
              else if n <= |a| + |b| then Applied(one, b[..n - |a|], apply)
              else Applied(two, c[..n - |a| - |b|], apply)
  {
    assert a[..|a|] == a && b[..|b|] == b;
    OfConcat(s, a, b, apply);
    PrefixOfTwo(s, a + b, c, n, apply);
    if n <= |a + b| {
      PrefixOfTwo(s, a, b, n, apply);
    }
  }
}
