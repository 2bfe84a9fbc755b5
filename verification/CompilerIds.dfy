/**
 * Content-derived identifiers: a wrapping 32-bit accumulator against the plain encoding of 128 bits in groups of
 * five.
 */
module CompilerIds {

  type Byte = b: int | 0 <= b < 256

  const ALPHABET: string := "0123456789ABCDEFGHJKMNPQRSTVWXYZ"
  const TWO_32: int := 4294967296

  // ----- The encoding as section 6 of RFC 4648 groups it -----

  /** A number's bits, most significant first. */
  function Bits(n: nat, width: nat): (bits: seq<bool>)
    ensures |bits| == width
  {
    if width == 0 then [] else Bits(n / 2, width - 1) + [n % 2 == 1]
  }

  function AllBits(bytes: seq<Byte>): (bits: seq<bool>)
    ensures |bits| == 8 * |bytes|
  {
    if bytes == [] then [] else AllBits(bytes[..|bytes| - 1]) + Bits(bytes[|bytes| - 1], 8)
  }

  /** The number a run of bits spells. */
  function Value(bits: seq<bool>): nat {
    if bits == [] then 0 else 2 * Value(bits[..|bits| - 1]) + (if bits[|bits| - 1] then 1 else 0)
  }

  function Letter(bits: seq<bool>): char
    requires |bits| == 5
  {
    ValueIsSmall(bits);
    ALPHABET[Value(bits)]
  }

  /** The bits in groups of five, the last group filled with zeros, each group one letter. */
  function Encoded(digest: seq<Byte>): (text: string)
    requires |digest| == 16
    ensures |text| == 26
  {
    var padded := AllBits(digest) + [false, false];
    seq(26, i requires 0 <= i < 26 => Letter(padded[5 * i..5 * i + 5]))
  }

  lemma ValueIsSmall(bits: seq<bool>)
    requires |bits| == 5
    ensures Value(bits) < 32
  {
    ValueOfConcat([], bits);
    BelowPower(bits);
  }

  function Pow2(n: nat): (p: nat)
    ensures p > 0
  {
    if n == 0 then 1 else 2 * Pow2(n - 1)
  }

  /** `value >> n`: halved n times, downwards. */
  function ShiftRight(value: int, n: nat): int {
    if n == 0 then value else ShiftRight(value, n - 1) / 2
  }

  lemma {:induction false} BelowPower(bits: seq<bool>)
    ensures Value(bits) < Pow2(|bits|)
  {
    if bits != [] {
      BelowPower(bits[..|bits| - 1]);
    }
  }

  lemma {:induction false} ValueOfConcat(a: seq<bool>, b: seq<bool>)
    ensures Value(a + b) == Value(a) * Pow2(|b|) + Value(b)
  {
    if b == [] {
      assert a + b == a;
    } else {
      var front := b[..|b| - 1];
      assert (a + b)[..|a + b| - 1] == a + front;
      ValueOfConcat(a, front);
      assert Value(a) * Pow2(|b|) == 2 * (Value(a) * Pow2(|front|));
    }
  }

  lemma {:induction false} ValueOfBits(n: nat, width: nat)
    requires n < Pow2(width)
    ensures Value(Bits(n, width)) == n
  {
    if width > 0 {
      ValueOfBits(n / 2, width - 1);
      var bits := Bits(n, width);
      assert bits[..width - 1] == Bits(n / 2, width - 1);
    }
  }

  /** Dropping low bits is shifting right. */
  lemma {:induction false} DroppedBits(bits: seq<bool>, n: nat)
    requires n <= |bits|
    ensures Value(bits[..|bits| - n]) == ShiftRight(Value(bits), n)
  {
    if n == 0 {
      assert bits[..|bits|] == bits;
    } else {
      DroppedBits(bits, n - 1);
      var kept := bits[..|bits| - (n - 1)];
      assert kept[..|kept| - 1] == bits[..|bits| - n];
    }
  }

  /** The low five bits are the remainder by 32. */
  lemma LowFive(bits: seq<bool>)
    requires |bits| >= 5
    ensures Value(bits) % 32 == Value(bits[|bits| - 5..])
  {
    var high, low := bits[..|bits| - 5], bits[|bits| - 5..];
    assert bits == high + low;
    ValueOfConcat(high, low);
    BelowPower(low);
    PowersOfTwo();
    RemainderIs(Value(bits), Value(high), Value(low));
  }

  lemma RemainderIs(v: int, q: int, r: int)
    requires v == q * 32 + r && 0 <= r < 32
    ensures v % 32 == r
  {
  }

  lemma PowersOfTwo()
    ensures Pow2(2) == 4 && Pow2(5) == 32 && Pow2(8) == 256 && Pow2(32) == TWO_32
  {
    assert Pow2(4) == 16 && Pow2(8) == 256;
    assert Pow2(12) == 4096 && Pow2(16) == 65536;
    assert Pow2(20) == 1048576 && Pow2(24) == 16777216;
    assert Pow2(28) == 268435456;
  }

  // ----- 32-bit arithmetic -----

  /** Equal as 32-bit patterns: `q` wraps apart. */
  predicate SameWord(a: int, b: int, q: int) {
    a == b + q * TWO_32
  }

  /** How often a number must be wrapped to become signed 32-bit. */
  function Wraps(n: int): int {
    (n + 2147483648) / TWO_32
  }

  /** The signed 32-bit number a bit pattern stands for. */
  function Wrap(n: int): (r: int)
    ensures -2147483648 <= r < 2147483648 && SameWord(n, r, Wraps(n))
  {
    n - Wraps(n) * TWO_32
  }

  lemma {:induction false} ShiftedWords(a: int, b: int, q: int, n: nat)
    requires n <= 32 && SameWord(a, b, q)
    ensures ShiftRight(a, n) == ShiftRight(b, n) + q * Pow2(32 - n)
  {
    if n == 0 {
      PowersOfTwo();
    } else {
      ShiftedWords(a, b, q, n - 1);
      assert q * Pow2(33 - n) == 2 * (q * Pow2(32 - n));
    }
  }

  /** `(value >> n) & 0x1f` of a number equal to the bits' as a 32-bit pattern is the five bits above the low `n`. */
  lemma FiveBitsAt(bits: seq<bool>, value: int, q: int, n: nat)
    requires n <= 7 && |bits| >= n + 5 && SameWord(Value(bits), value, q)
    ensures ShiftRight(value, n) % 32 == Value(bits[|bits| - n - 5..|bits| - n])
  {
    var kept := bits[..|bits| - n];
    DroppedBits(bits, n);
    LowFive(kept);
    assert kept[|kept| - 5..] == bits[|bits| - n - 5..|bits| - n];
    ShiftedWords(Value(bits), value, q, n);
    MultipleOf32(q, 32 - n);
    SameRemainder(ShiftRight(Value(bits), n), ShiftRight(value, n), q * Pow2(27 - n));
  }

  lemma MultipleOf32(q: int, n: nat)
    requires n >= 5
    ensures q * Pow2(n) == 32 * (q * Pow2(n - 5))
  {
    assert Pow2(n) == 32 * Pow2(n - 5) by {
      assert Pow2(n) == 2 * Pow2(n - 1) && Pow2(n - 1) == 2 * Pow2(n - 2);
      assert Pow2(n - 2) == 2 * Pow2(n - 3) && Pow2(n - 3) == 2 * Pow2(n - 4) && Pow2(n - 4) == 2 * Pow2(n - 5);
    }
  }

  lemma SameRemainder(a: int, b: int, k: int)
    requires a == b + 32 * k
    ensures a % 32 == b % 32
  {
  }

  /** Taking in a byte: shifted by eight and wrapped, which leaves the low eight bits free for it. */
  lemma ByteTaken(bits: seq<bool>, value: int, q: int, byte: Byte)
    requires SameWord(Value(bits), value, q)
    ensures SameWord(Value(bits + Bits(byte, 8)), Wrap(value * 256) + byte, 256 * q + Wraps(value * 256))
    ensures Wrap(value * 256) % 256 == 0
  {
    PowersOfTwo();
    ValueOfBits(byte, 8);
    ValueOfConcat(bits, Bits(byte, 8));
    assert Value(bits) * 256 == value * 256 + (256 * q) * TWO_32;
    assert Wrap(value * 256) == 256 * (value - Wraps(value * 256) * 16777216);
  }

  /** What has been written: one letter for each whole group of the bits taken in. */
  ghost predicate Written(bits: seq<bool>, text: string) {
    5 * |text| <= |bits| && forall i :: 0 <= i < |text| ==> text[i] == Letter(bits[5 * i..5 * i + 5])
  }

  lemma WrittenSurvives(bits: seq<bool>, more: seq<bool>, text: string)
    requires Written(bits, text)
    ensures Written(bits + more, text)
  {
    forall i | 0 <= i < |text|
      ensures text[i] == Letter((bits + more)[5 * i..5 * i + 5])
    {
      assert (bits + more)[5 * i..5 * i + 5] == bits[5 * i..5 * i + 5];
    }
  }

  /** The whole groups that five or more waiting bits make. */
  method WriteGroups(value: int, waiting: nat, text: string, ghost bits: seq<bool>, ghost q: int)
    returns (left: nat, longer: string)
    requires Written(bits, text) && |bits| == 5 * |text| + waiting && waiting <= 12
    requires SameWord(Value(bits), value, q)
    ensures Written(bits, longer) && |bits| == 5 * |longer| + left && left < 5
  {
    left, longer := waiting, text;
    while left >= 5
      invariant Written(bits, longer) && |bits| == 5 * |longer| + left && left <= 12
    {
      left := left - 5;
      FiveBitsAt(bits, value, q, left);
      assert bits[5 * |longer|..5 * |longer| + 5] == bits[|bits| - left - 5..|bits| - left];
      longer := longer + [ALPHABET[ShiftRight(value, left) % 32]];
    }
  }

  /** The accumulator as written, against the grouping of all the bits at once. */
  method DeterministicId(digest: seq<Byte>) returns (id: string)
    requires |digest| == 16
    ensures id == Encoded(digest)
  {
    var value: int, bits: nat := 0, 0;
    id := "";
    ghost var q := 0;
    for k := 0 to 16
      invariant Written(AllBits(digest[..k]), id) && 8 * k == 5 * |id| + bits && bits < 5
      invariant SameWord(Value(AllBits(digest[..k])), value, q)
    {
      ghost var before := AllBits(digest[..k]);
      assert digest[..k + 1][..k] == digest[..k];
      assert AllBits(digest[..k + 1]) == before + Bits(digest[k], 8);
      ByteTaken(before, value, q, digest[k]);
      WrittenSurvives(before, Bits(digest[k], 8), id);
      q := 256 * q + Wraps(value * 256);
      value := Wrap(value * 256) + digest[k];
      bits, id := WriteGroups(value, bits + 8, id, AllBits(digest[..k + 1]), q);
    }
    assert digest[..16] == digest;
    if bits > 0 {
      LastGroup(AllBits(digest), value, q);
      id := id + [ALPHABET[Wrap(value * Pow2(5 - bits)) % 32]];
    }
    WholeText(digest, id);
  }

  /** Twenty-five whole groups and the filled one are the encoding. */
  lemma WholeText(digest: seq<Byte>, text: string)
    requires |digest| == 16 && |text| == 26 && Written(AllBits(digest), text[..25])
    requires text[25] == Letter((AllBits(digest) + [false, false])[125..130])
    ensures text == Encoded(digest)
  {
    var all := AllBits(digest);
    var padded := all + [false, false];
    forall i | 0 <= i < 26
      ensures text[i] == Letter(padded[5 * i..5 * i + 5])
    {
      if i < 25 {
        assert padded[5 * i..5 * i + 5] == all[5 * i..5 * i + 5];
        assert text[i] == text[..25][i];
      }
    }
  }

  /** The three bits left over, with two zeros behind them. */
  lemma LastGroup(all: seq<bool>, value: int, q: int)
    requires |all| == 128 && SameWord(Value(all), value, q)
    ensures Wrap(value * Pow2(2)) % 32 == Value((all + [false, false])[125..130])
  {
    var padded := all + [false, false];
    LowFive(padded);
    ValueOfConcat(all, [false, false]);
    PowersOfTwo();
    assert [false, false][..1] == [false] && Value([false]) == 0 && Value([false, false]) == 0;
    assert padded[|padded| - 5..] == padded[125..130];
    assert Value(padded) == 4 * Value(all);
    SameRemainder(4 * Value(all), Wrap(value * 4), 4 * q * 134217728 + Wraps(value * 4) * 134217728);
  }

  // ----- Nothing is lost -----

  lemma {:induction false} ValueIsInjective(a: seq<bool>, b: seq<bool>)
    requires |a| == |b| && Value(a) == Value(b)
    ensures a == b
  {
    if a != [] {
      ValueIsInjective(a[..|a| - 1], b[..|b| - 1]);
      assert a == a[..|a| - 1] + [a[|a| - 1]] && b == b[..|b| - 1] + [b[|b| - 1]];
    }
  }

  lemma LettersDiffer(i: nat, j: nat)
    requires i < j < 32
    ensures ALPHABET[i] != ALPHABET[j]
  {
    LettersAscend(i, j);
  }

  lemma {:induction false} LettersAscend(i: nat, j: nat)
    requires i < j < 32
    ensures ALPHABET[i] < ALPHABET[j]
  {
    if i + 1 < j {
      LettersAscend(i, j - 1);
    }
  }

  lemma {:induction false} AllBitsIsInjective(a: seq<Byte>, b: seq<Byte>)
    requires |a| == |b| && AllBits(a) == AllBits(b)
    ensures a == b
  {
    if a != [] {
      var n := |a| - 1;
      assert AllBits(a)[..8 * n] == AllBits(a[..n]) && AllBits(b)[..8 * n] == AllBits(b[..n]);
      assert AllBits(a)[8 * n..] == Bits(a[n], 8) && AllBits(b)[8 * n..] == Bits(b[n], 8);
      AllBitsIsInjective(a[..n], b[..n]);
      PowersOfTwo();
      ValueOfBits(a[n], 8);
      ValueOfBits(b[n], 8);
      assert a == a[..n] + [a[n]] && b == b[..n] + [b[n]];
    }
  }

  /** Two digests with one identifier are one digest: the identifier keeps all 128 bits. */
  lemma EncodingIsInjective(a: seq<Byte>, b: seq<Byte>)
    requires |a| == 16 && |b| == 16 && Encoded(a) == Encoded(b)
    ensures a == b
  {
    var x, y := AllBits(a) + [false, false], AllBits(b) + [false, false];
    forall k | 0 <= k < 130
      ensures x[k] == y[k]
    {
      var i := k / 5;
      var g, h := x[5 * i..5 * i + 5], y[5 * i..5 * i + 5];
      assert Encoded(a)[i] == Letter(g) && Encoded(b)[i] == Letter(h);
      SameLetterSameBits(g, h);
      assert x[k] == g[k - 5 * i] && y[k] == h[k - 5 * i];
    }
    assert AllBits(a) == x[..128] && AllBits(b) == y[..128];
    AllBitsIsInjective(a, b);
  }

  lemma SameLetterSameBits(g: seq<bool>, h: seq<bool>)
    requires |g| == 5 && |h| == 5 && Letter(g) == Letter(h)
    ensures g == h
  {
    ValueIsSmall(g);
    ValueIsSmall(h);
    if Value(g) < Value(h) {
      LettersDiffer(Value(g), Value(h));
    } else if Value(h) < Value(g) {
      LettersDiffer(Value(h), Value(g));
    } else {
      ValueIsInjective(g, h);
    }
  }
}
