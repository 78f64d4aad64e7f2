/**
 * Bitwise exclusive-or on the unsigned bit patterns of Java int values.
 * A Java int is represented by its 32-bit pattern read as a natural number
 * below 2^32; Java's `^` on ints is then Xor on these numbers.
 */
module BitwiseXor {

  /** 2^j. */
  function Pow2(j: nat): (p: nat)
    ensures p >= 1
  {
    if j == 0 then 1 else 2 * Pow2(j - 1)
  }

  lemma {:induction false} Pow2Increasing(a: nat, b: nat)
    requires a < b
    ensures Pow2(a) < Pow2(b)
    decreases b
  {
    if a < b - 1 {
      Pow2Increasing(a, b - 1);
    }
  }

  /** The powers of two up to 2^15. */
  lemma Pow2Small()
    ensures Pow2(0) == 1 && Pow2(1) == 2 && Pow2(2) == 4 && Pow2(3) == 8
    ensures Pow2(4) == 0x10 && Pow2(5) == 0x20 && Pow2(6) == 0x40 && Pow2(7) == 0x80
    ensures Pow2(8) == 0x100 && Pow2(9) == 0x200 && Pow2(10) == 0x400 && Pow2(11) == 0x800
    ensures Pow2(12) == 0x1000 && Pow2(13) == 0x2000 && Pow2(14) == 0x4000 && Pow2(15) == 0x8000
  {
    assert Pow2(4) == 0x10;
    assert Pow2(8) == 0x100;
    assert Pow2(12) == 0x1000;
  }

  /** 2^16 and 2^32, the widths of a checksum and of a Java int. */
  lemma Pow2Wide()
    ensures Pow2(16) == 0x1_0000 && Pow2(32) == 0x1_0000_0000
  {
    Pow2Small();
    assert Pow2(20) == 0x10_0000;
    assert Pow2(24) == 0x100_0000;
    assert Pow2(28) == 0x1000_0000;
  }

  /** Bitwise exclusive-or, defined one bit at a time from the least significant end. */
  function Xor(a: nat, b: nat): nat
    decreases a + b
  {
    if a == 0 then b
    else if b == 0 then a
    else 2 * Xor(a / 2, b / 2) + (if a % 2 == b % 2 then 0 else 1)
  }

  /** The lowest bit of Xor(a, b) and the bits above it, each in terms of a and b. */
  lemma {:induction false} XorHalves(a: nat, b: nat)
    ensures Xor(a, b) / 2 == Xor(a / 2, b / 2)
    ensures Xor(a, b) % 2 == (if a % 2 == b % 2 then 0 else 1)
  {
    if a == 0 {
      assert Xor(a / 2, b / 2) == b / 2;
    } else if b == 0 {
      assert Xor(a / 2, b / 2) == a / 2;
    }
  }

  lemma SameHalves(x: nat, y: nat)
    requires x / 2 == y / 2 && x % 2 == y % 2
    ensures x == y
  { }

  lemma XorZero(a: nat)
    ensures Xor(a, 0) == a && Xor(0, a) == a
  { }

  lemma {:induction false} XorComm(a: nat, b: nat)
    ensures Xor(a, b) == Xor(b, a)
    decreases a + b
  {
    if a != 0 && b != 0 {
      XorComm(a / 2, b / 2);
    }
  }

  lemma {:induction false} XorAssoc(a: nat, b: nat, c: nat)
    ensures Xor(a, Xor(b, c)) == Xor(Xor(a, b), c)
    decreases a + b + c
  {
    if a != 0 && b != 0 && c != 0 {
      XorAssoc(a / 2, b / 2, c / 2);
      XorHalves(a, Xor(b, c));
      XorHalves(b, c);
      XorHalves(Xor(a, b), c);
      XorHalves(a, b);
      SameHalves(Xor(a, Xor(b, c)), Xor(Xor(a, b), c));
    }
  }

  lemma {:induction false} XorSelf(a: nat)
    ensures Xor(a, a) == 0
    decreases a
  {
    if a != 0 {
      XorSelf(a / 2);
    }
  }

  /** Xor-ing with b twice gives back a. */
  lemma XorCancel(a: nat, b: nat)
    ensures Xor(Xor(a, b), b) == a
  {
    XorAssoc(a, b, b);
    XorSelf(b);
    XorZero(a);
  }

  /** Xor(a, b) == c exactly when Xor(a, c) == b. */
  lemma XorSolve(a: nat, b: nat, c: nat)
    ensures Xor(a, b) == c <==> Xor(a, c) == b
  {
    XorCancel(b, a);
    XorComm(a, b);
    XorCancel(c, a);
    XorComm(a, c);
  }

  /** Xor never sets a bit above the operands' width. */
  lemma {:induction false} XorBound(a: nat, b: nat, j: nat)
    requires a < Pow2(j) && b < Pow2(j)
    ensures Xor(a, b) < Pow2(j)
    decreases j
  {
    if a != 0 && b != 0 {
      XorBound(a / 2, b / 2, j - 1);
    }
  }

  /** A bit above both low parts passes through Xor unchanged. */
  lemma {:induction false} XorHighBit(r: nat, x: nat, j: nat)
    requires r < Pow2(j) && x < Pow2(j)
    ensures Xor(Pow2(j) + r, x) == Pow2(j) + Xor(r, x)
    decreases j
  {
    if x != 0 {
      assert j > 0;
      var h := Pow2(j - 1);
      assert (Pow2(j) + r) / 2 == h + r / 2 && (Pow2(j) + r) % 2 == r % 2;
      XorHighBit(r / 2, x / 2, j - 1);
      XorHalves(Pow2(j) + r, x);
      XorHalves(r, x);
      SameHalves(Xor(Pow2(j) + r, x), Pow2(j) + Xor(r, x));
    }
  }

  /** Setting a clear bit j is Xor with 2^j. */
  lemma SetBitIsXor(r: nat, j: nat)
    requires r < Pow2(j)
    ensures Xor(r, Pow2(j)) == Pow2(j) + r
  {
    XorHighBit(0, r, j);
    XorZero(r);
    XorComm(r, Pow2(j));
  }

  /** Clearing a set bit j is Xor with 2^j. */
  lemma ClearBitIsXor(r: nat, j: nat)
    requires r < Pow2(j)
    ensures Xor(Pow2(j) + r, Pow2(j)) == r
  {
    SetBitIsXor(r, j);
    XorComm(r, Pow2(j));
    XorCancel(r, Pow2(j));
  }

  /** The low n bits of x: its lowest bit, and the low n - 1 bits of the bits above it. */
  lemma LowHalves(x: nat, n: nat)
    requires n > 0
    ensures (x % Pow2(n)) / 2 == (x / 2) % Pow2(n - 1)
    ensures (x % Pow2(n)) % 2 == x % 2
  {
    var h := Pow2(n - 1);
    var q, m := (x / 2) / h, (x / 2) % h;
    assert x == 2 * h * q + (2 * m + x % 2);
    ModUnique(x, 2 * h, q, 2 * m + x % 2);
  }

  /** x % d is the unique remainder: any other split x == d * q + m with m < d has that remainder. */
  lemma ModUnique(x: nat, d: nat, q: nat, m: nat)
    requires m < d && x == d * q + m
    ensures x % d == m
  {
    var q', m' := x / d, x % d;
    assert x == d * q' + m' && m' < d;
    if q' < q {
      MulSplit(d, q', q - q');
      MulGrows(d, q - q');
    } else if q < q' {
      MulSplit(d, q, q' - q);
      MulGrows(d, q' - q);
    }
  }

  lemma MulSplit(d: nat, a: nat, b: nat)
    ensures d * (a + b) == d * a + d * b
  { }

  lemma {:induction false} MulGrows(d: nat, t: nat)
    requires t >= 1
    ensures d * t >= d
    decreases t
  {
    if t > 1 {
      MulGrows(d, t - 1);
      MulSplit(d, t - 1, 1);
    }
  }

  /** Keeping the low n bits commutes with Xor: truncating each operand or the result gives the same pattern. */
  lemma {:induction false} XorLow(a: nat, b: nat, n: nat)
    ensures Xor(a, b) % Pow2(n) == Xor(a % Pow2(n), b % Pow2(n))
    decreases n
  {
    if n > 0 {
      XorLow(a / 2, b / 2, n - 1);
      LowHalves(a, n);
      LowHalves(b, n);
      LowHalves(Xor(a, b), n);
      XorHalves(a, b);
      XorHalves(a % Pow2(n), b % Pow2(n));
      SameHalves(Xor(a, b) % Pow2(n), Xor(a % Pow2(n), b % Pow2(n)));
    }
  }

  /** The same for the 32 bits of a Java int. */
  lemma XorLowWord(a: nat, b: nat)
    ensures Xor(a, b) % 0x1_0000_0000 == Xor(a % 0x1_0000_0000, b % 0x1_0000_0000)
  {
    Pow2Wide();
    XorLow(a, b, 32);
  }

  /** Xor with n one-bits complements an n-bit value. */
  lemma {:induction false} XorAllOnes(v: nat, n: nat)
    requires v < Pow2(n)
    ensures Xor(Pow2(n) - 1, v) == Pow2(n) - 1 - v
    decreases n
  {
    if n > 0 && v > 0 {
      XorAllOnes(v / 2, n - 1);
      XorHalves(Pow2(n) - 1, v);
      SameHalves(Xor(Pow2(n) - 1, v), Pow2(n) - 1 - v);
    }
  }
}
