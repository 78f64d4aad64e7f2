/**
 * The bit buffer that the DMR CRC routines work on: sdrtrunk's BinaryMessage
 * and its subclass CorrectedBinaryMessage, reduced to what those routines use
 * (nextSetBit, get, getInt, flip, the CRC status and the corrected-bit count).
 * Bits are a sequence of booleans; a position past the end reads as clear,
 * as it does in the BitSet the buffer is built on.
 */
module BinaryMessages {

  import opened BitwiseXor

  /** CRC status recorded on a message; Unknown is the status before any check. */
  datatype CRC = Passed | Corrected | FailedCrc | Unknown

  /** Bit i of the buffer (BitSet.get): clear outside the buffer. */
  predicate Bit(bits: seq<bool>, i: int)
  {
    0 <= i < |bits| && bits[i]
  }

  /** s and t hold the same bits in [from, to). */
  predicate AgreeOn(s: seq<bool>, t: seq<bool>, from: int, to: int)
  {
    forall i :: from <= i < to ==> Bit(s, i) == Bit(t, i)
  }

  /** No bit in [from, to) is set. */
  predicate ClearBetween(bits: seq<bool>, from: int, to: int)
  {
    forall i :: from <= i < to ==> !Bit(bits, i)
  }

  /**
   * BitSet.nextSetBit(from): the first set position at or after from, or -1
   * when every bit from there on is clear.
   */
  function NextSetBit(bits: seq<bool>, from: nat): (r: int)
    ensures r == -1 || (from <= r < |bits| && bits[r] && ClearBetween(bits, from, r))
    ensures r == -1 ==> forall i :: from <= i ==> !Bit(bits, i)
    decreases |bits| - from
  {
    if from >= |bits| then -1
    else if bits[from] then from
    else NextSetBit(bits, from + 1)
  }

  /**
   * The unsigned value of bits [from, to) read most significant bit first:
   * the bit at position p contributes 2^(to - 1 - p).
   */
  function Pack(bits: seq<bool>, from: nat, to: nat): nat
    requires from <= to
    decreases (to as int) - from
  {
    if from == to then 0
    else Place(Bit(bits, from), Pow2(to - 1 - from)) + Pack(bits, from + 1, to)
  }

  /** What one bit contributes to a value: its place value when set, else nothing. */
  function Place(b: bool, w: nat): nat
  {
    if b then w else 0
  }

  /**
   * BinaryMessage.getInt(start, end): the unsigned value of the inclusive
   * range [start, end], most significant bit first, as the pattern of a
   * Java int.
   */
  function GetInt(bits: seq<bool>, start: nat, end: nat): (v: nat)
    requires start <= end < start + 32
    ensures ClearBetween(bits, start, end + 1) ==> v == 0
  {
    PackClear(bits, start, end + 1);
    Pack(bits, start, end + 1)
  }

  /** A field of n bits holds a value below 2^n. */
  lemma {:induction false} PackBound(bits: seq<bool>, from: nat, to: nat)
    requires from <= to
    ensures Pack(bits, from, to) < Pow2(to - from)
    decreases (to as int) - from
  {
    if from < to {
      PackBound(bits, from + 1, to);
    }
  }

  /** A field whose bits are all clear reads as zero. */
  lemma {:induction false} PackClear(bits: seq<bool>, from: nat, to: nat)
    requires from <= to
    ensures ClearBetween(bits, from, to) ==> Pack(bits, from, to) == 0
    decreases (to as int) - from
  {
    if from < to {
      PackClear(bits, from + 1, to);
    }
  }

  /** The value of a field depends only on the bits inside it. */
  lemma {:induction false} PackAgree(s: seq<bool>, t: seq<bool>, from: nat, to: nat)
    requires from <= to
    requires AgreeOn(s, t, from, to)
    ensures Pack(s, from, to) == Pack(t, from, to)
    decreases (to as int) - from
  {
    if from < to {
      PackAgree(s, t, from + 1, to);
    }
  }

  /** getInt depends only on the bits of its inclusive range. */
  lemma GetIntAgree(s: seq<bool>, t: seq<bool>, start: nat, end: nat)
    requires start <= end < start + 32
    requires AgreeOn(s, t, start, end + 1)
    ensures GetInt(s, start, end) == GetInt(t, start, end)
  {
    PackAgree(s, t, start, end + 1);
  }

  /** Flipping bit k of an inclusive getInt range changes the value by Xor with 2^(end - k). */
  lemma GetIntFlip(s: seq<bool>, k: nat, start: nat, end: nat)
    requires start <= k <= end < start + 32 && k < |s|
    ensures GetInt(s[k := !s[k]], start, end) == Xor(GetInt(s, start, end), Pow2(end - k))
  {
    PackFlip(s, k, start, end + 1);
    assert end + 1 - 1 - k == end - k;
  }

  /** Extending a field by one bit on the right doubles its value and adds that bit. */
  lemma {:induction false} PackExtend(bits: seq<bool>, from: nat, to: nat)
    requires from <= to
    ensures Pack(bits, from, to + 1) == 2 * Pack(bits, from, to) + Place(Bit(bits, to), 1)
    decreases (to as int) - from
  {
    if from < to {
      PackExtend(bits, from + 1, to);
      DoublePlace(Bit(bits, from), Pow2(to - 1 - from), Pow2(to - from));
    }
  }

  lemma DoublePlace(b: bool, w: nat, w2: nat)
    requires w2 == 2 * w
    ensures Place(b, w2) == 2 * Place(b, w)
  { }

  /**
   * Flipping bit k of a field changes its value by exclusive-or with the
   * place value of k.
   */
  lemma {:induction false} PackFlip(s: seq<bool>, k: nat, from: nat, to: nat)
    requires from <= k < to && k < |s|
    ensures Pack(s[k := !s[k]], from, to) == Xor(Pack(s, from, to), Pow2(to - 1 - k))
    decreases (to as int) - from
  {
    if from < k {
      PackFlip(s, k, from + 1, to);
      PackFlipAbove(s, k, from, to);
    } else {
      PackFlipAt(s, k, to);
    }
  }

  /** The flipped bit itself. */
  lemma PackFlipAt(s: seq<bool>, k: nat, to: nat)
    requires k < to && k < |s|
    ensures Pack(s[k := !s[k]], k, to) == Xor(Pack(s, k, to), Pow2(to - 1 - k))
  {
    var t := s[k := !s[k]];
    PackBound(s, k + 1, to);
    PackAgree(s, t, k + 1, to);
    ToggleIsXor(s[k], to - 1 - k, Pack(s, k + 1, to), Pack(s, k, to), Pack(t, k, to));
  }

  /** The arithmetic of toggling bit j above a low part r < 2^j. */
  lemma ToggleIsXor(b: bool, j: nat, r: nat, whole: nat, whole': nat)
    requires r < Pow2(j)
    requires whole == Place(b, Pow2(j)) + r && whole' == Place(!b, Pow2(j)) + r
    ensures whole' == Xor(whole, Pow2(j))
  {
    if b {
      ClearBitIsXor(r, j);
    } else {
      SetBitIsXor(r, j);
    }
  }

  /** Flipping bit k leaves every other bit as it was. */
  lemma FlipElsewhere(s: seq<bool>, k: nat, i: int)
    requires k < |s| && i != k
    ensures Bit(s[k := !s[k]], i) == Bit(s, i)
  { }

  /** Flipping a bit outside [from, to) leaves that range as it was. */
  lemma FlipOutside(s: seq<bool>, k: nat, from: int, to: int)
    requires k < |s| && (k < from || to <= k)
    ensures AgreeOn(s, s[k := !s[k]], from, to)
  { }

  /** A bit above the flipped one keeps the difference unchanged. */
  lemma PackFlipAbove(s: seq<bool>, k: nat, from: nat, to: nat)
    requires from < k < to && k < |s|
    requires Pack(s[k := !s[k]], from + 1, to) == Xor(Pack(s, from + 1, to), Pow2(to - 1 - k))
    ensures Pack(s[k := !s[k]], from, to) == Xor(Pack(s, from, to), Pow2(to - 1 - k))
  {
    var t := s[k := !s[k]];
    FlipElsewhere(s, k, from);
    PackBound(s, from + 1, to);
    Pow2Increasing(to - 1 - k, to - 1 - from);
    HighBitKeepsXor(Bit(s, from), to - 1 - from, Pack(s, from + 1, to), Pow2(to - 1 - k),
      Pack(s, from, to), Pack(t, from + 1, to), Pack(t, from, to));
  }

  /**
   * The arithmetic of one step above the flipped bit: a value whose low part
   * r changes by Xor with p (both below 2^j) changes by the same Xor whatever
   * bit j holds.
   */
  lemma HighBitKeepsXor(b: bool, j: nat, r: nat, p: nat, whole: nat, tail': nat, whole': nat)
    requires r < Pow2(j) && p < Pow2(j)
    requires whole == Place(b, Pow2(j)) + r
    requires tail' == Xor(r, p) && whole' == Place(b, Pow2(j)) + tail'
    ensures whole' == Xor(whole, p)
  {
    if b {
      XorHighBit(r, p, j);
    }
  }

  /**
   * The buffer object. One class stands for both BinaryMessage and
   * CorrectedBinaryMessage: the CRC routines use the status of the first and
   * the corrected-bit count of the second.
   */
  class BinaryMessage {
    var bits: seq<bool>
    var crc: CRC
    var correctedBitCount: int

    constructor (bits: seq<bool>)
      ensures this.bits == bits && crc == Unknown && correctedBitCount == 0
    {
      this.bits := bits;
      crc := Unknown;
      correctedBitCount := 0;
    }

    /** Inverts one bit and leaves every other bit as it was. */
    method Flip(i: nat)
      requires i < |bits|
      modifies this`bits
      ensures bits == old(bits)[i := !old(bits)[i]]
    {
      bits := bits[i := !bits[i]];
    }

    /** Records the CRC status. */
    method SetCRC(status: CRC)
      modifies this`crc
      ensures crc == status
    {
      crc := status;
    }

    /** Adds n to the count of corrected bits. */
    method IncrementCorrectedBitCount(n: int)
      modifies this`correctedBitCount
      ensures correctedBitCount == old(correctedBitCount) + n
    {
      correctedBitCount := correctedBitCount + n;
    }
  }
}
