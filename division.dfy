/**
 * Long division of bit strings by the crc8 generator x^8 + x^2 + x + 1 over
 * GF(2). A string is a polynomial with its first bit as the highest
 * coefficient; subtraction is exclusive-or, one bit at a time.
 */
module PolynomialDivision {

  /** The generator's nine coefficients, highest first (crc8's `poly`). */
  const Crc8Poly: seq<bool> := [true, false, false, false, false, false, true, true, true]

  /** Pointwise exclusive-or of two strings of the same length. */
  function XorBits(a: seq<bool>, b: seq<bool>): (c: seq<bool>)
    requires |a| == |b|
    ensures |c| == |a|
  {
    seq(|a|, k requires 0 <= k < |a| => a[k] != b[k])
  }

  function Zeros(n: nat): (z: seq<bool>)
    ensures |z| == n
  {
    seq(n, k requires 0 <= k < n => false)
  }

  /** The generator with its leading coefficient at position i of an n-bit string. */
  function Shifted(i: nat, n: nat): (s: seq<bool>)
    ensures |s| == n
  {
    seq(n, k requires 0 <= k < n => i <= k < i + 9 && Crc8Poly[k - i])
  }

  /** One row of the division: when bit i is set, subtract the generator placed at i. */
  function DivisionStep(b: seq<bool>, i: nat): (r: seq<bool>)
    requires i + 9 <= |b|
    ensures |r| == |b|
  {
    if b[i] then XorBits(b, Shifted(i, |b|)) else b
  }

  /** The rows i, i + 1, ..., len - 1 of the division, in order. */
  function LongDivision(b: seq<bool>, i: nat, len: nat): (r: seq<bool>)
    requires i <= len && len + 8 <= |b|
    ensures |r| == |b|
    decreases len - i
  {
    if i == len then b else LongDivision(DivisionStep(b, i), i + 1, len)
  }

  /** The quotient bits those rows produce, row i first. */
  function Quotient(b: seq<bool>, i: nat, len: nat): (q: seq<bool>)
    requires i <= len && len + 8 <= |b|
    ensures |q| == len - i
    decreases len - i
  {
    if i == len then [] else [b[i]] + Quotient(DivisionStep(b, i), i + 1, len)
  }

  /** The product of a quotient whose first bit stands for row i with the generator, as an n-bit string. */
  function Product(q: seq<bool>, i: nat, n: nat): (r: seq<bool>)
    ensures |r| == n
    decreases |q|
  {
    if q == [] then Zeros(n)
    else XorBits(if q[0] then Shifted(i, n) else Zeros(n), Product(q[1..], i + 1, n))
  }

  /** The division only ever subtracts multiples of the generator. */
  lemma {:induction false} DivisionSubtractsMultiple(b: seq<bool>, i: nat, len: nat)
    requires i <= len && len + 8 <= |b|
    ensures XorBits(b, LongDivision(b, i, len)) == Product(Quotient(b, i, len), i, |b|)
    decreases len - i
  {
    if i == len {
      assert XorBits(b, b) == Zeros(|b|);
    } else {
      var b' := DivisionStep(b, i);
      DivisionSubtractsMultiple(b', i + 1, len);
      var q := Quotient(b, i, len);
      assert q[0] == b[i] && q[1..] == Quotient(b', i + 1, len);
      var s := if b[i] then Shifted(i, |b|) else Zeros(|b|);
      var f := LongDivision(b, i, len);
      assert forall k :: 0 <= k < |b| ==> b'[k] == (b[k] != s[k]);
      assert XorBits(b, f) == XorBits(s, XorBits(b', f));
    }
  }

  /** Every row from i to len - 1 ends up clear once the rows before i are. */
  lemma {:induction false} DivisionClearsRows(b: seq<bool>, i: nat, len: nat)
    requires i <= len && len + 8 <= |b|
    requires forall k :: 0 <= k < i ==> !b[k]
    ensures forall k :: 0 <= k < len ==> !LongDivision(b, i, len)[k]
    decreases len - i
  {
    if i < len {
      var b' := DivisionStep(b, i);
      assert forall k :: 0 <= k <= i ==> !b'[k];
      DivisionClearsRows(b', i + 1, len);
    }
  }

  /** No row reaches past position len + 7. */
  lemma {:induction false} DivisionKeepsTail(b: seq<bool>, i: nat, len: nat)
    requires i <= len && len + 8 <= |b|
    ensures LongDivision(b, i, len)[len + 8..] == b[len + 8..]
    decreases len - i
  {
    if i < len {
      var b' := DivisionStep(b, i);
      assert b'[len + 8..] == b[len + 8..];
      DivisionKeepsTail(b', i + 1, len);
    }
  }
}
