/** The IPv4 header checksum: ones' complement sum of ten words, as they sit in memory. */
module Checksum {
  import opened Basics
  import opened Packet

  const ONES: nat := 0xFFFF

  /** Carries added back in, once. */
  function Fold(s: nat): (r: nat) {
    s % 0x1_0000 + s / 0x1_0000
  }

  function SumWords(h: seq<U8>, n: nat, e: Endian): (s: nat)
    requires 2 * n <= |h|
  {
    if n == 0 then 0 else SumWords(h, n - 1, e) + Load16(h, 2 * n - 2, e)
  }

  /** The checksum field's value for this header, its own field being zero. */
  function Csum(h: seq<U8>, e: Endian): (c: nat)
    requires |h| == IP_LEN
  {
    ONES - Min(ONES, Fold(Fold(SumWords(h, |h| / 2, e))))
  }

  /** A receiver on a machine of this byte order accepts the header. */
  ghost predicate Verifies(h: seq<U8>, e: Endian) {
    |h| == IP_LEN && Fold(Fold(SumWords(h, |h| / 2, e))) == ONES
  }

  lemma {:induction false} SumBound(h: seq<U8>, n: nat, e: Endian)
    requires 2 * n <= |h|
    ensures SumWords(h, n, e) <= n * ONES
  {
    if n > 0 {
      SumBound(h, n - 1, e);
    }
  }

  lemma FoldKeepsRemainder(s: nat) returns (q: nat)
    ensures s == Fold(s) + ONES * q && (s > 0 ==> Fold(s) > 0)
  {
    q := s / 0x1_0000;
  }

  /** Ten words need at most two folds: a third would change nothing, and no carry is lost. */
  lemma TwoFoldsSuffice(s: nat) returns (q: nat)
    requires s <= 10 * ONES
    ensures Fold(Fold(s)) <= ONES && Fold(Fold(Fold(s))) == Fold(Fold(s))
    ensures s == Fold(Fold(s)) + ONES * q && (s > 0 ==> Fold(Fold(s)) > 0)
  {
    var q1 := FoldKeepsRemainder(s);
    var q2 := FoldKeepsRemainder(Fold(s));
    q := q1 + q2;
  }

  /** A sum of ten words verifies exactly when it is a positive multiple of 0xFFFF. */
  lemma VerifiesIff(h: seq<U8>, e: Endian)
    requires |h| == IP_LEN
    ensures Verifies(h, e) <==> exists k: nat :: k > 0 && SumWords(h, |h| / 2, e) == ONES * k
  {
    SumBound(h, |h| / 2, e);
    var s := SumWords(h, |h| / 2, e);
    var q := TwoFoldsSuffice(s);
    if Verifies(h, e) {
      assert s == ONES * (q + 1);
    }
    if k: nat :| k > 0 && s == ONES * k {
      MultipleBelow(Fold(Fold(s)), k - q);
    }
  }

  lemma MultipleBelow(r: nat, d: int)
    requires 0 < r <= ONES && r == ONES * d
    ensures r == ONES
  {
  }

  // ---- the other byte order

  function SumHigh(h: seq<U8>, n: nat): (s: nat)
    requires 2 * n <= |h|
  {
    if n == 0 then 0 else SumHigh(h, n - 1) + h[2 * n - 2]
  }

  function SumLow(h: seq<U8>, n: nat): (s: nat)
    requires 2 * n <= |h|
  {
    if n == 0 then 0 else SumLow(h, n - 1) + h[2 * n - 1]
  }

  /** Swapping the bytes of every word multiplies the sum by 256, up to multiples of 0xFFFF. */
  lemma {:induction false} SwappedSum(h: seq<U8>, n: nat)
    requires 2 * n <= |h|
    ensures 0x100 * SumWords(h, n, Big) == SumWords(h, n, Little) + ONES * SumHigh(h, n)
    ensures 0x100 * SumWords(h, n, Little) == SumWords(h, n, Big) + ONES * SumLow(h, n)
  {
    if n > 0 {
      SwappedSum(h, n - 1);
    }
  }

  lemma Swapped(h: seq<U8>, e: Endian, other: Endian, k: nat)
    requires |h| == IP_LEN && e != other && k > 0 && SumWords(h, |h| / 2, e) == ONES * k
    ensures Verifies(h, other)
  {
    SwappedSum(h, |h| / 2);
    var extra := if e == Big then SumHigh(h, |h| / 2) else SumLow(h, |h| / 2);
    var d := 0x100 * k - extra;
    assert SumWords(h, |h| / 2, other) == ONES * d;
    assert d > 0;
    VerifiesIff(h, other);
  }

  /** Byte order independence: a header that verifies on one machine verifies on every machine. */
  lemma OrderIndependent(h: seq<U8>, e: Endian, other: Endian)
    requires Verifies(h, e)
    ensures Verifies(h, other)
  {
    VerifiesIff(h, e);
    var k: nat :| k > 0 && SumWords(h, |h| / 2, e) == ONES * k;
    if e != other {
      Swapped(h, e, other, k);
    }
  }

  // ---- filling in the field

  ghost function WithCheck(h: seq<U8>, c: U16, e: Endian): (h': seq<U8>)
    requires |h| == IP_LEN
    ensures |h'| == IP_LEN
  {
    h[..10] + Store16(c, e) + h[12..]
  }

  lemma {:induction false} SumWithCheck(h: seq<U8>, c: U16, e: Endian, n: nat)
    requires |h| == IP_LEN && h[10] == h[11] == 0 && n <= 10
    ensures SumWords(WithCheck(h, c, e), n, e) == SumWords(h, n, e) + (if n > 5 then c else 0)
  {
    if n > 0 {
      SumWithCheck(h, c, e, n - 1);
      var h' := WithCheck(h, c, e);
      if n == 6 {
        assert h'[10..12] == Store16(c, e);
        StoreLoad16(c, e);
      } else {
        assert h'[2 * n - 2] == h[2 * n - 2] && h'[2 * n - 1] == h[2 * n - 1];
      }
    }
  }

  lemma {:induction false} FirstByteCounts(h: seq<U8>, n: nat, e: Endian)
    requires 0 < n && 2 * n <= |h| && h[0] > 0
    ensures SumWords(h, n, e) > 0
  {
    if n > 1 {
      FirstByteCounts(h, n - 1, e);
    }
  }

  /** The header the program emits verifies, in either byte order. */
  lemma ChecksumVerifies(h: seq<U8>, e: Endian, other: Endian)
    requires |h| == IP_LEN && h[10] == h[11] == 0 && h[0] > 0
    ensures Csum(h, e) <= ONES && Verifies(WithCheck(h, Csum(h, e), e), other)
  {
    SumBound(h, |h| / 2, e);
    FirstByteCounts(h, |h| / 2, e);
    var q := TwoFoldsSuffice(SumWords(h, |h| / 2, e));
    var h' := WithCheck(h, Csum(h, e), e);
    SumWithCheck(h, Csum(h, e), e, |h| / 2);
    assert SumWords(h', |h'| / 2, e) == ONES * (q + 1);
    VerifiesIff(h', e);
    OrderIndependent(h', e, other);
  }

  lemma NextWord(h: seq<U8>, i: nat, e: Endian)
    requires 2 * i + 2 <= |h|
    ensures SumWords(h, i + 1, e) == SumWords(h, i, e) + Load16(h, 2 * i, e)
  {
  }

  method AddWords(h: seq<U8>, e: Endian) returns (sum: nat)
    ensures sum == SumWords(h, |h| / 2, e)
  {
    sum := 0;
    var n := |h| / 2;
    for i := 0 to n
      invariant sum == SumWords(h, i, e)
    {
      sum := sum + Load16(h, 2 * i, e);
      NextWord(h, i, e);
    }
  }

  /** ipv4_csum: one pass over the words, two folds, complement. */
  method Ipv4Csum(h: seq<U8>, e: Endian) returns (c: U16)
    requires |h| == IP_LEN
    ensures c == Csum(h, e)
    ensures c == ONES - Fold(Fold(SumWords(h, |h| / 2, e)))
  {
    var sum := AddWords(h, e);
    SumBound(h, |h| / 2, e);
    var q := TwoFoldsSuffice(sum);
    sum := Fold(sum);
    sum := Fold(sum);
    c := ONES - sum;
  }
}
