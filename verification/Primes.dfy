/**
 Why the ring size is prime: the walk offset, offset + skip, offset + 2*skip, ... (mod size)
 covers the whole ring for every skip exactly when the size is prime.
 */
module Primes {
  import opened Basics

  predicate Divides(d: nat, n: nat) {
    d > 0 && n % d == 0
  }

  ghost predicate IsPrime(p: nat) {
    p >= 2 && forall d :: 2 <= d < p ==> !Divides(d, p)
  }

  /** The slot a backend with this offset and skip prefers in j-th place. */
  function Walk(offset: nat, skip: nat, m: nat, j: nat): (slot: nat)
    requires m > 0
  {
    (offset + j * skip) % m
  }

  ghost predicate Reaches(offset: nat, skip: nat, m: nat, slot: nat)
    requires m > 0
  {
    exists j: nat :: j < m && Walk(offset, skip, m, j) == slot
  }

  ghost predicate Covers(offset: nat, skip: nat, m: nat)
    requires m > 0
  {
    forall slot: nat :: slot < m ==> Reaches(offset, skip, m, slot)
  }

  ghost predicate Injective(offset: nat, skip: nat, m: nat)
    requires m > 0
  {
    forall i: nat, j: nat :: i < j < m ==> Walk(offset, skip, m, i) != Walk(offset, skip, m, j)
  }

  // ---- arithmetic of remainders

  lemma MulSign(m: nat, d: int)
    ensures d >= 1 ==> m * d >= m
    ensures d <= -1 ==> m * d <= -(m as int)
  {
    if d >= 1 {
      assert m * d == m * (d - 1) + m;
      assert m * (d - 1) >= 0;
    } else if d <= -1 {
      assert m * d == -(m * (-d - 1)) - m;
      assert m * (-d - 1) >= 0;
    }
  }

  lemma ModShift(x: int, m: nat, k: int)
    requires m > 0
    ensures (x + m * k) % m == x % m
  {
    var y := x + m * k;
    var d := x / m + k - y / m;
    assert m * d == y % m - x % m by {
      assert x == m * (x / m) + x % m;
      assert y == m * (y / m) + y % m;
      assert m * d == m * (x / m) + m * k - m * (y / m);
    }
    MulSign(m, d);
  }

  lemma MultipleMod(m: nat, k: int)
    requires m > 0
    ensures (m * k) % m == 0
  {
    ModShift(0, m, k);
  }

  lemma SameRemainder(x: nat, y: nat, m: nat)
    requires m > 0 && x <= y && x % m == y % m
    ensures (y - x) % m == 0
  {
    var d := y / m - x / m;
    assert y - x == m * d by {
      assert x == m * (x / m) + x % m;
      assert y == m * (y / m) + y % m;
      assert m * d == m * (y / m) - m * (x / m);
    }
    MultipleMod(m, d);
  }

  /** One more step of the walk is one addition of the skip. */
  lemma WalkStep(offset: nat, skip: nat, m: nat, j: nat)
    requires m > 0
    ensures Walk(offset, skip, m, j + 1) == (Walk(offset, skip, m, j) + skip) % m
  {
    var x := offset + j * skip;
    assert offset + (j + 1) * skip == x + skip by {
      assert (j + 1) * skip == j * skip + skip;
    }
    assert x + skip == x % m + skip + m * (x / m);
    ModShift(x % m + skip, m, x / m);
  }

  // ---- Euclid's lemma, and the walk

  /** If p divides a*b it also divides (p mod a)*b: the descent step of Euclid's lemma. */
  lemma Descend(p: nat, a: nat, b: nat)
    requires 0 < a && 0 < p && (a * b) % p == 0
    ensures ((p % a) * b) % p == 0
  {
    var q, r, k := p / a, p % a, (a * b) / p;
    assert r * b == p * (b - q * k) by {
      assert a * b == p * k;
      assert r * b == (p - a * q) * b == p * b - a * q * b;
      assert a * q * b == q * (a * b) == q * (p * k) == p * (q * k);
      assert p * (b - q * k) == p * b - p * (q * k);
    }
    MultipleMod(p, b - q * k);
  }

  /** Euclid's lemma below a prime: a product of two non-zero residues is not zero. */
  lemma {:induction false} NoZeroDivisors(p: nat, a: nat, b: nat)
    requires IsPrime(p) && 0 < a < p && 0 < b < p
    ensures (a * b) % p != 0
    decreases a
  {
    if a > 1 {
      assert !Divides(a, p);
      NoZeroDivisors(p, p % a, b);
      if (a * b) % p == 0 {
        Descend(p, a, b);
        assert false;
      }
    }
  }

  lemma SameSlot(offset: nat, skip: nat, m: nat, i: nat, j: nat)
    requires m > 0 && i <= j && Walk(offset, skip, m, i) == Walk(offset, skip, m, j)
    ensures ((j - i) * skip) % m == 0
  {
    var x, y := offset + i * skip, offset + j * skip;
    assert y - x == (j - i) * skip;
    assert (j - i) * skip >= 0;
    SameRemainder(x, y, m);
  }

  lemma WalkInjective(offset: nat, skip: nat, p: nat)
    requires IsPrime(p) && 0 < skip < p
    ensures Injective(offset, skip, p)
  {
    forall i: nat, j: nat | i < j < p
      ensures Walk(offset, skip, p, i) != Walk(offset, skip, p, j)
    {
      NoZeroDivisors(p, j - i, skip);
      if Walk(offset, skip, p, i) == Walk(offset, skip, p, j) {
        SameSlot(offset, skip, p, i, j);
        assert false;
      }
    }
  }

  lemma InjectiveCovers(offset: nat, skip: nat, m: nat)
    requires m > 0 && Injective(offset, skip, m)
    ensures Covers(offset, skip, m)
  {
    var s := seq(m, (j: nat) => Walk(offset, skip, m, j));
    forall slot: nat | slot < m
      ensures Reaches(offset, skip, m, slot)
    {
      Pigeonhole(s, slot);
      var j :| 0 <= j < m && s[j] == slot;
      assert Walk(offset, skip, m, j) == slot;
    }
  }

  lemma MulMono(a: nat, b: nat, c: nat)
    requires a <= b
    ensures a * c <= b * c
  {
    assert (b - a) * c >= 0;
  }

  lemma Cofactor(n: nat, d: nat)
    requires 2 <= d < n && Divides(d, n)
    ensures n == (n / d) * d && 2 <= n / d < n
  {
    var k := n / d;
    assert n == d * k + n % d;
    assert k <= 1 ==> d * k <= d;
    assert d * k >= 2 * k;
  }

  /** A composite ring has a skip whose walk is back at its start before the ring is full. */
  lemma CompositeRepeats(m: nat, d: nat)
    requires 2 <= d < m && Divides(d, m)
    ensures !Injective(0, d, m)
  {
    var k := m / d;
    assert 0 < k < m && m == k * d by {
      Cofactor(m, d);
    }
    assert Walk(0, d, m, 0) == 0 by {
      assert 0 * d == 0;
    }
    assert Walk(0, d, m, k) == 0 by {
      assert 0 + k * d == m;
    }
  }

  /** The exact condition: every skip walks the whole ring if and only if the size is prime. */
  lemma WalkCoversIffPrime(m: nat)
    requires m >= 2
    ensures IsPrime(m) <==> forall skip: nat :: 0 < skip < m ==> Injective(0, skip, m)
    ensures IsPrime(m) ==> forall offset: nat, skip: nat :: 0 < skip < m ==> Covers(offset, skip, m)
  {
    if IsPrime(m) {
      forall offset: nat, skip: nat | 0 < skip < m
        ensures Injective(offset, skip, m) && Covers(offset, skip, m)
      {
        WalkInjective(offset, skip, m);
        InjectiveCovers(offset, skip, m);
      }
    } else {
      var d :| 2 <= d < m && Divides(d, m);
      CompositeRepeats(m, d);
    }
  }

  // ---- 65537

  /** A proper divisor and its cofactor cannot both exceed the square root. */
  lemma SmallDivisor(n: nat, d: nat, root: nat)
    requires 2 <= d < n && Divides(d, n) && n < root * root
    ensures exists e :: 2 <= e < root && Divides(e, n)
  {
    var k := n / d;
    Cofactor(n, d);
    if d >= root {
      if k >= root {
        MulMono(root, d, k);
        MulMono(root, k, root);
        assert false;
      }
      MultipleMod(k, d);
      assert Divides(k, n);
    }
  }

  lemma NoSmallDivisor(e: nat)
    requires 2 <= e < 257
    ensures !Divides(e, 65537)
  {
  }

  lemma RingSizeIsPrime()
    ensures IsPrime(RING_SIZE)
  {
    forall d | 2 <= d < 65537
      ensures !Divides(d, 65537)
    {
      if Divides(d, 65537) {
        SmallDivisor(65537, d, 257);
        var e :| 2 <= e < 257 && Divides(e, 65537);
        NoSmallDivisor(e);
        assert false;
      }
    }
  }
}
