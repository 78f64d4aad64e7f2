/**
 * sdrtrunk's CRCDMR: table-driven checking and single-bit correction of the
 * CRC-CCITT protected 80-bit DMR messages, the detect-only CRC-9 check of
 * confirmed-data blocks, and crc8 by long division.
 *
 * Java ints are their 32-bit patterns read as natural numbers (see
 * BitwiseXor); the CCITT and CRC-9 entries are all positive, so comparing a
 * residual with 0, 0xFFFF, 0x1FF or a table entry means the same on
 * patterns as on Java ints.
 */
module CRCDMR {

  import opened BitwiseXor
  import opened BinaryMessages
  import opened CRCTables
  import opened Syndromes
  import opened PolynomialDivision

  /** What a CCITT-80 check decides for a residual. */
  datatype Outcome = Clean | FlipBit(position: nat) | Uncorrectable

  /** The first position of v in table, or -1 when v is not there. */
  function FirstIndex(v: nat, table: seq<nat>): (x: int)
    ensures -1 <= x < |table|
    ensures x >= 0 ==> table[x] == v && forall k :: 0 <= k < x ==> table[k] != v
    ensures x == -1 ==> forall k :: 0 <= k < |table| ==> table[k] != v
    decreases |table|
  {
    if table == [] then -1
    else if table[0] == v then 0
    else
      var r := FirstIndex(v, table[1..]);
      if r < 0 then -1 else r + 1
  }

  /**
   * The decision rule of both correctCCITT80 overloads: 0 and 0xFFFF pass, a
   * residual found in the table names the bit to flip, anything else fails.
   */
  function Decide(residual: nat, table: seq<nat>): Outcome
  {
    if residual == 0 || residual == 0xFFFF then Clean
    else
      var x := FirstIndex(residual, table);
      if x >= 0 then FlipBit(x) else Uncorrectable
  }

  /**
   * The decision rule stated outright: Clean exactly for 0 and 0xFFFF, the
   * first matching position otherwise, and Uncorrectable exactly when nothing
   * in the table matches.
   */
  lemma DecideRule(residual: nat, table: seq<nat>)
    ensures var o := Decide(residual, table);
      (o == Clean <==> residual == 0 || residual == 0xFFFF) &&
      (o.FlipBit? ==> o.position < |table| && table[o.position] == residual) &&
      (o.FlipBit? ==> forall k :: 0 <= k < o.position ==> table[k] != residual) &&
      (o == Uncorrectable <==>
        residual != 0 && residual != 0xFFFF && forall k :: 0 <= k < |table| ==> table[k] != residual)
  { }

  /** The end of the message region the set-bit loops walk: crcStart, or messageStart when crcStart lies before it. */
  function RegionEnd(messageStart: nat, crcStart: nat): nat
  {
    if crcStart < messageStart then messageStart else crcStart
  }

  /**
   * The residual of a CCITT-80 check: the seed, Xor the entries of the set
   * message bits in [messageStart, crcStart), Xor the 16-bit checksum read at
   * crcStart.
   */
  function Ccitt80Residual(bits: seq<bool>, messageStart: nat, crcStart: nat, seed: nat, table: seq<nat>): nat
    requires crcStart <= messageStart + |table|
  {
    Xor(Xor(seed, Syndrome(bits, messageStart, RegionEnd(messageStart, crcStart), table)),
      GetIntChecksum(bits, crcStart, 16))
  }

  function Ccitt80Outcome(bits: seq<bool>, messageStart: nat, crcStart: nat, seed: nat, table: seq<nat>): Outcome
    requires crcStart <= messageStart + |table|
  {
    Decide(Ccitt80Residual(bits, messageStart, crcStart, seed, table), table)
  }

  /**
   * The outcome in the terms the two overloads compute it: the accumulator,
   * the checksum read, and (for a failing residual) the search result.
   */
  lemma Ccitt80Decision(bits: seq<bool>, messageStart: nat, crcStart: nat, seed: nat, table: seq<nat>,
                        calculated: nat, checksum: nat, x: int)
    requires crcStart <= messageStart + |table|
    requires calculated == Xor(seed, Syndrome(bits, messageStart, RegionEnd(messageStart, crcStart), table))
    requires checksum == GetIntChecksum(bits, crcStart, 16)
    requires Xor(calculated, checksum) != 0 && Xor(calculated, checksum) != 0xFFFF ==>
      x == FirstIndex(Xor(calculated, checksum), table)
    ensures var residual := Xor(calculated, checksum);
      Ccitt80Outcome(bits, messageStart, crcStart, seed, table) ==
        if residual == 0 || residual == 0xFFFF then Clean else if x >= 0 then FlipBit(x) else Uncorrectable
  { }

  /** The bits after the decision is carried out: only FlipBit changes one bit, at messageStart + position. */
  function Repaired(bits: seq<bool>, messageStart: nat, o: Outcome): seq<bool>
    requires o.FlipBit? ==> messageStart + o.position < |bits|
  {
    if o.FlipBit? then bits[messageStart + o.position := !bits[messageStart + o.position]] else bits
  }

  /** The status the BinaryMessage overload records. */
  function Status(o: Outcome): CRC
  {
    match o
    case Clean => Passed
    case FlipBit(_) => Corrected
    case Uncorrectable => FailedCrc
  }

  /** The value the CorrectedBinaryMessage overload returns and adds to the corrected-bit count. */
  function CorrectedCount(o: Outcome): int
  {
    match o
    case Clean => 0
    case FlipBit(_) => 1
    case Uncorrectable => 2
  }

  /** Each entry of a table of Java longs, truncated to the low 32 bits as `calculated ^= checksums[...]` on an int does. */
  function LowWords(checksums: seq<nat>): (w: seq<nat>)
    ensures |w| == |checksums|
    ensures forall k :: 0 <= k < |w| ==> w[k] < 0x1_0000_0000 && w[k] == checksums[k] % 0x1_0000_0000
  {
    seq(|checksums|, k requires 0 <= k < |checksums| => checksums[k] % 0x1_0000_0000)
  }

  /**
   * getIntChecksum: the crcLength-bit checksum at crcStart, most significant
   * bit first.
   */
  function GetIntChecksum(bits: seq<bool>, crcStart: nat, crcLength: nat): (v: nat)
    requires 1 <= crcLength <= 32
    ensures v < Pow2(crcLength)
    ensures ClearBetween(bits, crcStart, crcStart + crcLength) ==> v == 0
  {
    PackBound(bits, crcStart, crcStart + crcLength);
    GetInt(bits, crcStart, crcStart + crcLength - 1)
  }

  /**
   * The checksum bit at position k has weight 2^(last - k), last being the
   * position of the final checksum bit: the first bit read is the most
   * significant.
   */
  lemma ChecksumBitWeight(bits: seq<bool>, crcStart: nat, crcLength: nat, k: nat, last: nat)
    requires 1 <= crcLength <= 32 && crcStart <= k < crcStart + crcLength && k < |bits|
    requires last == crcStart + crcLength - 1
    ensures GetIntChecksum(bits[k := !bits[k]], crcStart, crcLength) ==
      Xor(GetIntChecksum(bits, crcStart, crcLength), Pow2(last - k))
  {
    GetIntFlip(bits, k, crcStart, last);
  }

  /** The checksum read depends only on the checksum bits. */
  lemma ChecksumAgree(s: seq<bool>, t: seq<bool>, crcStart: nat, crcLength: nat)
    requires 1 <= crcLength <= 32 && AgreeOn(s, t, crcStart, crcStart + crcLength)
    ensures GetIntChecksum(s, crcStart, crcLength) == GetIntChecksum(t, crcStart, crcLength)
  {
    GetIntAgree(s, t, crcStart, crcStart + crcLength - 1);
  }

  /**
   * getBitError (int version): linear search for the first table entry equal
   * to the checksum error.
   */
  method GetBitError(checksumError: nat, checksums: seq<nat>) returns (x: int)
    ensures -1 <= x < |checksums|
    ensures x >= 0 ==> checksums[x] == checksumError && forall k :: 0 <= k < x ==> checksums[k] != checksumError
    ensures x == -1 ==> forall k :: 0 <= k < |checksums| ==> checksums[k] != checksumError
    ensures x == FirstIndex(checksumError, checksums)
  {
    x := 0;
    while x < |checksums|
      invariant 0 <= x <= |checksums|
      invariant forall k :: 0 <= k < x ==> checksums[k] != checksumError
    {
      if checksums[x] == checksumError {
        return;
      }
      x := x + 1;
    }
    x := -1;
  }

  /**
   * Where the set-bit loops stop using the table: the end of [start, limit),
   * or the end of the table when that comes first.
   */
  function TableEnd(start: nat, limit: nat, size: nat): nat
  {
    if RegionEnd(start, limit) <= start + size then RegionEnd(start, limit) else start + size
  }

  /**
   * The set-bit loop shared by calculate and both correctCCITT80 overloads:
   * starting from seed, Xor in table[i - start] for every set bit i with
   * start <= i < limit, visiting the set bits with nextSetBit. A set bit
   * past the end of the table would index out of bounds; clear bits there are
   * skipped and never index the table.
   */
  method AccumulateSetBits(message: BinaryMessage, start: nat, limit: nat, table: seq<nat>, seed: nat)
    returns (calculated: nat)
    requires ClearBetween(message.bits, start + |table|, limit)
    ensures calculated == Xor(seed, Syndrome(message.bits, start, TableEnd(start, limit, |table|), table))
  {
    calculated := seed;
    XorZero(seed);
    ghost var done: nat := start;
    var i := NextSetBit(message.bits, start);
    while i >= start && i < limit
      invariant start <= done <= TableEnd(start, limit, |table|)
      invariant i == NextSetBit(message.bits, done)
      invariant calculated == Xor(seed, Syndrome(message.bits, start, done, table))
      decreases |message.bits| - done
    {
      assert Bit(message.bits, i);
      AccumulateStep(message.bits, start, done, i, table, seed, calculated);
      calculated := Xor(calculated, table[i - start]);
      done := i + 1;
      i := NextSetBit(message.bits, i + 1);
    }
    SyndromeSkip(message.bits, start, done, TableEnd(start, limit, |table|), table);
  }

  /** One pass of the set-bit loop: the bits skipped add nothing and the set bit i adds its entry. */
  lemma AccumulateStep(bits: seq<bool>, start: nat, done: nat, i: nat, table: seq<nat>, seed: nat, calculated: nat)
    requires start <= done <= i < start + |table| && i < |bits| && bits[i]
    requires ClearBetween(bits, done, i)
    requires calculated == Xor(seed, Syndrome(bits, start, done, table))
    ensures Xor(calculated, table[i - start]) == Xor(seed, Syndrome(bits, start, i + 1, table))
  {
    SyndromeSkip(bits, start, done, i, table);
    XorAssoc(seed, Syndrome(bits, start, i, table), table[i - start]);
  }

  /**
   * Truncating every entry to a Java int up front gives the same value as
   * Xor-ing the long entries and truncating at the end: the low 32 bits of
   * the Xor of the entries of the set bits.
   */
  lemma {:induction false} SyndromeLowWord(bits: seq<bool>, start: nat, end: nat, checksums: seq<nat>)
    requires start <= end <= start + |checksums|
    ensures Syndrome(bits, start, end, LowWords(checksums)) == Syndrome(bits, start, end, checksums) % 0x1_0000_0000
    decreases end
  {
    if end > start {
      SyndromeLowWord(bits, start, end - 1, checksums);
      if Bit(bits, end - 1) {
        XorLowWord(Syndrome(bits, start, end - 1, checksums), checksums[end - 1 - start]);
      }
    }
  }

  /** Xor with a long, truncated to an int, is Xor with the long's low word when the accumulator is an int. */
  lemma LowWordStep(calculated: nat, e: nat, w: nat)
    requires calculated < 0x1_0000_0000 && w == e % 0x1_0000_0000
    ensures Xor(calculated, e) % 0x1_0000_0000 == Xor(calculated, w)
  {
    XorLowWord(calculated, e);
  }

  /** One pass of calculate's loop: Xor-ing in the long entry and keeping the low 32 bits adds the entry's low word. */
  lemma TruncatedStep(bits: seq<bool>, start: nat, done: nat, i: nat, checksums: seq<nat>, calculated: nat)
    requires start <= done <= i < start + |checksums| && Bit(bits, i) && ClearBetween(bits, done, i)
    requires calculated == Syndrome(bits, start, done, LowWords(checksums)) && calculated < 0x1_0000_0000
    ensures Xor(calculated, checksums[i - start]) % 0x1_0000_0000 == Syndrome(bits, start, i + 1, LowWords(checksums))
  {
    var words := LowWords(checksums);
    SyndromeSkip(bits, start, done, i, words);
    assert Syndrome(bits, start, i + 1, words) == Xor(calculated, words[i - start]);
    LowWordStep(calculated, checksums[i - start], words[i - start]);
  }

  /**
   * calculate: from 0, Xor in the long entry of every set bit in
   * [start, length), the int accumulator keeping the low 32 bits after each
   * step as `int ^= long` does. The result is the low 32 bits of the Xor of
   * those entries. A set bit past the end of the table would index out of
   * bounds, so the bits from there up to length must be clear.
   */
  method Calculate(message: BinaryMessage, start: nat, length: nat, checksums: seq<nat>) returns (calculated: nat)
    requires ClearBetween(message.bits, start + |checksums|, length)
    ensures calculated < 0x1_0000_0000
    ensures calculated == Syndrome(message.bits, start, TableEnd(start, length, |checksums|), checksums) % 0x1_0000_0000
    ensures calculated == Syndrome(message.bits, start, TableEnd(start, length, |checksums|), LowWords(checksums))
  {
    ghost var words := LowWords(checksums);
    ghost var end := TableEnd(start, length, |checksums|);
    Pow2Wide();
    calculated := 0;
    ghost var done: nat := start;
    var i := NextSetBit(message.bits, start);
    while i >= start && i < length
      invariant start <= done <= end
      invariant i == NextSetBit(message.bits, done)
      invariant calculated == Syndrome(message.bits, start, done, words) && calculated < 0x1_0000_0000
      decreases |message.bits| - done
    {
      assert Bit(message.bits, i);
      TruncatedStep(message.bits, start, done, i, checksums, calculated);
      calculated := Xor(calculated, checksums[i - start]) % 0x1_0000_0000;
      done := i + 1;
      i := NextSetBit(message.bits, i + 1);
    }
    SyndromeSkip(message.bits, start, done, end, words);
    SyndromeLowWord(message.bits, start, end, checksums);
  }

  /**
   * The body of correctCCITT80 for a BinaryMessage, over any 96-entry
   * syndrome table: seed 0; records PASSED, CORRECTED after flipping the
   * located bit, or FAILED_CRC; returns the message.
   */
  method CorrectCCITT80With(message: BinaryMessage, messageStart: nat, crcStart: nat, table: seq<nat>) returns (result: BinaryMessage)
    requires |table| == 96 && crcStart <= messageStart + 96 && messageStart + 96 <= |message.bits|
    modifies message`bits, message`crc
    ensures result == message
    ensures var o := Ccitt80Outcome(old(message.bits), messageStart, crcStart, 0, table);
      message.bits == Repaired(old(message.bits), messageStart, o) && message.crc == Status(o)
  {
    ghost var bits := message.bits;
    ghost var o := Ccitt80Outcome(bits, messageStart, crcStart, 0, table);
    var calculated := AccumulateSetBits(message, messageStart, crcStart, table, 0);
    var checksum := GetIntChecksum(message.bits, crcStart, 16);
    var residual := Xor(calculated, checksum);
    if residual == 0 || residual == 0xFFFF {
      Ccitt80Decision(message.bits, messageStart, crcStart, 0, table, calculated, checksum, -1);
      assert o == Clean;
      message.SetCRC(Passed);
      assert message.bits == Repaired(bits, messageStart, o);
    } else {
      var errorLocation := GetBitError(residual, table);
      Ccitt80Decision(message.bits, messageStart, crcStart, 0, table, calculated, checksum, errorLocation);
      if errorLocation >= 0 {
        assert o == FlipBit(errorLocation);
        message.Flip(errorLocation + messageStart);
        message.SetCRC(Corrected);
        assert message.bits == Repaired(bits, messageStart, o);
      } else {
        assert o == Uncorrectable;
        message.SetCRC(FailedCrc);
        assert message.bits == Repaired(bits, messageStart, o);
      }
    }
    result := message;
  }

  /**
   * The body of correctCCITT80 for a CorrectedBinaryMessage, over any
   * 96-entry syndrome table: seeded with mask; returns 0 (passed), 1 (one bit
   * flipped) or 2 (uncorrectable) and adds that number to the corrected-bit
   * count, which a pass leaves alone.
   */
  method CorrectCCITT80MaskedWith(message: BinaryMessage, messageStart: nat, crcStart: nat, mask: nat, table: seq<nat>) returns (r: int)
    requires mask < 0x1_0000_0000
    requires |table| == 96 && crcStart <= messageStart + 96 && messageStart + 96 <= |message.bits|
    modifies message`bits, message`correctedBitCount
    ensures var o := Ccitt80Outcome(old(message.bits), messageStart, crcStart, mask, table);
      message.bits == Repaired(old(message.bits), messageStart, o) && r == CorrectedCount(o)
    ensures message.correctedBitCount == old(message.correctedBitCount) + r
  {
    ghost var bits := message.bits;
    ghost var o := Ccitt80Outcome(bits, messageStart, crcStart, mask, table);
    var calculated := AccumulateSetBits(message, messageStart, crcStart, table, mask);
    var checksum := GetIntChecksum(message.bits, crcStart, 16);
    var residual := Xor(calculated, checksum);
    if residual == 0 || residual == 0xFFFF {
      Ccitt80Decision(message.bits, messageStart, crcStart, mask, table, calculated, checksum, -1);
      assert o == Clean;
      r := 0;
    } else {
      var errorLocation := GetBitError(residual, table);
      Ccitt80Decision(message.bits, messageStart, crcStart, mask, table, calculated, checksum, errorLocation);
      if errorLocation >= 0 {
        assert o == FlipBit(errorLocation);
        message.Flip(errorLocation + messageStart);
        assert message.bits == Repaired(bits, messageStart, o);
        message.IncrementCorrectedBitCount(1);
        r := 1;
      } else {
        /* at least two bit errors: uncorrectable */
        assert o == Uncorrectable;
        message.IncrementCorrectedBitCount(2);
        r := 2;
      }
    }
  }

  /** correctCCITT80(BinaryMessage, int, int): the check against CCITT_80_CHECKSUMS. */
  method CorrectCCITT80(message: BinaryMessage, messageStart: nat, crcStart: nat) returns (result: BinaryMessage)
    requires crcStart <= messageStart + 96 && messageStart + 96 <= |message.bits|
    modifies message`bits, message`crc
    ensures result == message
    ensures var o := Ccitt80Outcome(old(message.bits), messageStart, crcStart, 0, Ccitt80Checksums);
      message.bits == Repaired(old(message.bits), messageStart, o) && message.crc == Status(o)
  {
    result := CorrectCCITT80With(message, messageStart, crcStart, Ccitt80Checksums);
  }

  /** correctCCITT80(CorrectedBinaryMessage, int, int, int): the check against CCITT_80_CHECKSUMS. */
  method CorrectCCITT80Masked(message: BinaryMessage, messageStart: nat, crcStart: nat, mask: nat) returns (r: int)
    requires mask < 0x1_0000_0000
    requires crcStart <= messageStart + 96 && messageStart + 96 <= |message.bits|
    modifies message`bits, message`correctedBitCount
    ensures var o := Ccitt80Outcome(old(message.bits), messageStart, crcStart, mask, Ccitt80Checksums);
      message.bits == Repaired(old(message.bits), messageStart, o) && r == CorrectedCount(o)
    ensures message.correctedBitCount == old(message.correctedBitCount) + r
  {
    r := CorrectCCITT80MaskedWith(message, messageStart, crcStart, mask, Ccitt80Checksums);
  }

  /**
   * The masked check as the decoder evidently intends it: the same loop over
   * Ccitt80ChecksumsIntended, whose checksum entries follow the order the
   * checksum is read in (see IntendedCorrectsEverySingleError).
   */
  method CorrectCCITT80MaskedIntended(message: BinaryMessage, messageStart: nat, crcStart: nat, mask: nat) returns (r: int)
    requires mask < 0x1_0000_0000
    requires crcStart <= messageStart + 96 && messageStart + 96 <= |message.bits|
    modifies message`bits, message`correctedBitCount
    ensures var o := Ccitt80Outcome(old(message.bits), messageStart, crcStart, mask, Ccitt80ChecksumsIntended);
      message.bits == Repaired(old(message.bits), messageStart, o) && r == CorrectedCount(o)
    ensures message.correctedBitCount == old(message.correctedBitCount) + r
  {
    IntendedChecksumEntries(0);
    r := CorrectCCITT80MaskedWith(message, messageStart, crcStart, mask, Ccitt80ChecksumsIntended);
  }

  /** The residual of checkCRC9: the accumulator Xor the 9-bit checksum at messageStart + 7 .. messageStart + 15. */
  function Crc9Residual(bits: seq<bool>, messageStart: nat, table: seq<nat>): nat
    requires |table| == 135
  {
    Xor(Crc9Syndrome(bits, messageStart, messageStart + 144, table), GetInt(bits, messageStart + 7, messageStart + 15))
  }

  /** checkCRC9: PASSED exactly when the residual is 0 or 0x1FF; the message is only read. */
  method CheckCRC9(message: BinaryMessage, messageStart: nat) returns (status: CRC)
    ensures var r := Crc9Residual(message.bits, messageStart, Crc9Checksums);
      status == (if r == 0 || r == 0x1FF then Passed else FailedCrc)
  {
    status := CheckCRC9With(message, messageStart, Crc9Checksums);
  }

  /** The loop of checkCRC9 over a 135-entry table. */
  method CheckCRC9With(message: BinaryMessage, messageStart: nat, table: seq<nat>) returns (status: CRC)
    requires |table| == 135
    ensures var r := Crc9Residual(message.bits, messageStart, table);
      status == (if r == 0 || r == 0x1FF then Passed else FailedCrc)
  {
    var calculated := 0;
    ghost var done: nat := messageStart;
    var i := NextSetBit(message.bits, messageStart);
    while i >= messageStart && i < messageStart + 144
      invariant messageStart <= done <= messageStart + 144
      invariant i == NextSetBit(message.bits, done)
      invariant calculated == Crc9Syndrome(message.bits, messageStart, done, table)
      decreases |message.bits| - done
    {
      Crc9SyndromeSkip(message.bits, messageStart, done, i, table);
      if i < messageStart + 7 {
        calculated := Xor(calculated, table[i - messageStart]);
      } else if i > messageStart + 15 {
        calculated := Xor(calculated, table[i - messageStart - 9]);
      }
      done := i + 1;
      i := NextSetBit(message.bits, i + 1);
    }
    Crc9SyndromeSkip(message.bits, messageStart, done, messageStart + 144, table);
    var checksum := GetInt(message.bits, messageStart + 7, messageStart + 15);
    var residual := Xor(calculated, checksum);
    if residual == 0 || residual == 0x1FF {
      return Passed;
    }
    return FailedCrc;
  }

  /** crc8's working buffer after it copies the first len message bits into 256 cleared cells. */
  function Dividend(bits: seq<bool>, len: nat): (b: seq<bool>)
    ensures |b| == 256
  {
    seq(256, k requires 0 <= k < 256 => k < len && Bit(bits, k))
  }

  /** Copying bit i extends the dividend of the first i bits by one. */
  lemma DividendStep(bits: seq<bool>, i: nat)
    requires i < 256
    ensures Dividend(bits, i + 1) == Dividend(bits, i)[i := Bit(bits, i)]
  { }

  /** The eight bits after row len - 1 once the division is done, read most significant first. */
  function Crc8Remainder(bits: seq<bool>, len: nat): nat
    requires len + 8 <= 256
  {
    Pack(LongDivision(Dividend(bits, len), 0, len), len, len + 8)
  }

  /** The buffer once the first j generator coefficients have been subtracted at row i. */
  function PartlySubtracted(before: seq<bool>, i: nat, j: nat): (r: seq<bool>)
    requires i + 9 <= |before| && j <= 9
    ensures |r| == |before|
  {
    seq(|before|, k requires 0 <= k < |before| => if i <= k < i + j then before[k] != Crc8Poly[k - i] else before[k])
  }

  /** One more coefficient of crc8's inner loop. */
  lemma SubtractCoefficient(before: seq<bool>, i: nat, j: nat)
    requires i + 9 <= |before| && j < 9
    ensures PartlySubtracted(before, i, j + 1) ==
      PartlySubtracted(before, i, j)[i + j := PartlySubtracted(before, i, j)[i + j] != Crc8Poly[j]]
  { }

  /** All nine coefficients subtracted make one division step. */
  lemma RowSubtracted(before: seq<bool>, i: nat)
    requires i + 9 <= |before| && before[i]
    ensures PartlySubtracted(before, i, 9) == DivisionStep(before, i)
  { }

  /** A division with no rows left leaves the buffer as it is. */
  lemma DivisionFinished(b: seq<bool>, len: nat)
    requires len + 8 <= |b|
    ensures LongDivision(b, len, len) == b
  { }

  /** Row i of the division, in the form crc8's outer loop carries it out. */
  lemma DivisionRow(before: seq<bool>, after: seq<bool>, i: nat, len: nat)
    requires i < len && len + 8 <= |before|
    requires after == DivisionStep(before, i)
    ensures LongDivision(before, i, len) == LongDivision(after, i + 1, len)
  { }

  /** The value crc8's read-out loop builds from n bits at from, shifting each in at the low end. */
  function ShiftedIn(bits: seq<bool>, from: nat, n: nat): nat
    decreases n
  {
    if n == 0 then 0 else 2 * ShiftedIn(bits, from, n - 1) + Place(Bit(bits, from + n - 1), 1)
  }

  /** `crc = (crc << 1) + (bit ? 1 : 0)` appends bit from + n. */
  lemma ShiftStep(bits: seq<bool>, from: nat, n: nat)
    ensures ShiftedIn(bits, from, n + 1) == 2 * ShiftedIn(bits, from, n) + (if Bit(bits, from + n) then 1 else 0)
  {
    assert from + (n + 1) - 1 == from + n;
  }

  /** Shifting bits in one at a time reads them most significant first. */
  lemma {:induction false} ShiftedInIsPack(bits: seq<bool>, from: nat, n: nat)
    ensures ShiftedIn(bits, from, n) == Pack(bits, from, from + n)
    decreases n
  {
    if n > 0 {
      ShiftedInIsPack(bits, from, n - 1);
      PackExtend(bits, from, from + n - 1);
    }
  }

  /** crc8's inner loop: Xor the nine generator coefficients into the buffer at row i, which is set. */
  method SubtractGenerator(buf: array<bool>, i: nat)
    requires i + 9 <= buf.Length && buf[i]
    modifies buf
    ensures buf[..] == DivisionStep(old(buf[..]), i)
  {
    ghost var before := buf[..];
    var j := 0;
    while j < 9
      invariant j <= 9
      invariant buf[..] == PartlySubtracted(before, i, j)
    {
      SubtractCoefficient(before, i, j);
      buf[i + j] := buf[i + j] != Crc8Poly[j];
      j := j + 1;
    }
    RowSubtracted(before, i);
  }

  /**
   * crc8: copies bits [0, len) into a 256-cell buffer, divides it by the
   * generator row by row, and reads the eight bits after the message as the
   * result; 0 when the message and checksum do not fit in the buffer.
   */
  method Crc8(bits: BinaryMessage, len: nat) returns (crc: nat)
    ensures len + 8 > 256 ==> crc == 0
    ensures len + 8 <= 256 ==> crc == Crc8Remainder(bits.bits, len)
    ensures crc < 256
  {
    crc := 0;
    var buf := new bool[256](_ => false);
    if len + 8 > 256 {
      return 0;
    }
    CopyPrefix(buf, bits.bits, len);
    DivideRows(buf, len);
    crc := ReadRemainder(buf, len);
    RemainderRead(bits.bits, len, buf[..], crc);
  }

  /** crc8's first loop: buf[i] := bits.get(i) for every i < len, into a cleared buffer. */
  method CopyPrefix(buf: array<bool>, message: seq<bool>, len: nat)
    requires buf.Length == 256 && len <= 256
    requires forall k :: 0 <= k < 256 ==> !buf[k]
    modifies buf
    ensures buf[..] == Dividend(message, len)
  {
    var i := 0;
    assert buf[..] == Dividend(message, 0);
    while i < len
      invariant i <= len
      invariant buf[..] == Dividend(message, i)
    {
      DividendStep(message, i);
      buf[i] := Bit(message, i);
      i := i + 1;
    }
  }

  /** crc8's second loop: the rows 0 to len - 1 of the long division. */
  method DivideRows(buf: array<bool>, len: nat)
    requires len + 8 <= buf.Length
    modifies buf
    ensures buf[..] == LongDivision(old(buf[..]), 0, len)
  {
    ghost var dividend := buf[..];
    var i := 0;
    while i < len
      invariant i <= len
      invariant LongDivision(buf[..], i, len) == LongDivision(dividend, 0, len)
    {
      ghost var before := buf[..];
      if buf[i] {
        SubtractGenerator(buf, i);
      }
      DivisionRow(before, buf[..], i, len);
      i := i + 1;
    }
    DivisionFinished(buf[..], len);
  }

  /** crc8's last loop: shift the eight cells after row len - 1 in at the low end. */
  method ReadRemainder(buf: array<bool>, len: nat) returns (crc: nat)
    requires len + 8 <= buf.Length
    ensures crc == ShiftedIn(buf[..], len, 8)
  {
    crc := 0;
    var i := 0;
    while i < 8
      invariant i <= 8
      invariant crc == ShiftedIn(buf[..], len, i)
    {
      ShiftStep(buf[..], len, i);
      crc := crc * 2 + (if buf[len + i] then 1 else 0);
      i := i + 1;
    }
  }

  /** The eight bits crc8 reads out of the divided buffer are the remainder, below 2^8. */
  lemma RemainderRead(bits: seq<bool>, len: nat, remainder: seq<bool>, crc: nat)
    requires len + 8 <= 256
    requires remainder == LongDivision(Dividend(bits, len), 0, len)
    requires crc == ShiftedIn(remainder, len, 8)
    ensures crc == Crc8Remainder(bits, len) && crc < 256
  {
    ShiftedInIsPack(remainder, len, 8);
    Pow2Small();
    PackBound(remainder, len, len + 8);
  }

  /* ---- What the checks achieve on a 96-bit codeword: 80 message bits at
     messageStart followed by the 16 checksum bits at messageStart + 80. ---- */

  lemma XorRegroup(a: nat, b: nat, e: nat, g: nat)
    ensures Xor(Xor(a, Xor(b, e)), g) == Xor(Xor(Xor(a, b), g), e)
  {
    XorAssoc(a, b, e);
    XorSwap(Xor(a, b), e, g);
  }

  /**
   * What a single-bit error at codeword position p does to the residual: a
   * message bit moves it by its table entry, a checksum bit by the weight
   * 2^(95 - p) the most-significant-first checksum read gives it.
   */
  function ErrorPattern(table: seq<nat>, p: nat): nat
    requires p < 96 <= |table|
  {
    if p < 80 then table[p] else Pow2(95 - p)
  }

  /** A single-bit error at codeword position p changes the residual by Xor with ErrorPattern(table, p). */
  lemma ResidualFlip(s: seq<bool>, messageStart: nat, seed: nat, table: seq<nat>, p: nat)
    requires |table| == 96 && messageStart + 96 <= |s| && p < 96
    ensures Ccitt80Residual(s[messageStart + p := !s[messageStart + p]], messageStart, messageStart + 80, seed, table) ==
      Xor(Ccitt80Residual(s, messageStart, messageStart + 80, seed, table), ErrorPattern(table, p))
  {
    if p < 80 {
      PayloadResidualFlip(s, messageStart, seed, table, p);
    } else {
      ChecksumResidualFlip(s, messageStart, seed, table, p);
    }
  }

  lemma PayloadResidualFlip(s: seq<bool>, messageStart: nat, seed: nat, table: seq<nat>, p: nat)
    requires |table| == 96 && messageStart + 96 <= |s| && p < 80
    ensures Ccitt80Residual(s[messageStart + p := !s[messageStart + p]], messageStart, messageStart + 80, seed, table) ==
      Xor(Ccitt80Residual(s, messageStart, messageStart + 80, seed, table), table[p])
  {
    var t := s[messageStart + p := !s[messageStart + p]];
    var syndrome := Syndrome(s, messageStart, messageStart + 80, table);
    var syndrome' := Syndrome(t, messageStart, messageStart + 80, table);
    var checksum := GetIntChecksum(s, messageStart + 80, 16);
    var checksum' := GetIntChecksum(t, messageStart + 80, 16);
    assert RegionEnd(messageStart, messageStart + 80) == messageStart + 80;
    SyndromeFlip(s, messageStart + p, messageStart, messageStart + 80, table);
    FlipOutside(s, messageStart + p, messageStart + 80, messageStart + 80 + 16);
    ChecksumAgree(s, t, messageStart + 80, 16);
    MessageBitStep(seed, syndrome, syndrome', checksum, checksum', table[p],
      Ccitt80Residual(s, messageStart, messageStart + 80, seed, table),
      Ccitt80Residual(t, messageStart, messageStart + 80, seed, table));
  }

  lemma ChecksumResidualFlip(s: seq<bool>, messageStart: nat, seed: nat, table: seq<nat>, p: nat)
    requires |table| == 96 && messageStart + 96 <= |s| && 80 <= p < 96
    ensures Ccitt80Residual(s[messageStart + p := !s[messageStart + p]], messageStart, messageStart + 80, seed, table) ==
      Xor(Ccitt80Residual(s, messageStart, messageStart + 80, seed, table), Pow2(95 - p))
  {
    var t := s[messageStart + p := !s[messageStart + p]];
    var syndrome := Syndrome(s, messageStart, messageStart + 80, table);
    var syndrome' := Syndrome(t, messageStart, messageStart + 80, table);
    var checksum := GetIntChecksum(s, messageStart + 80, 16);
    var checksum' := GetIntChecksum(t, messageStart + 80, 16);
    assert RegionEnd(messageStart, messageStart + 80) == messageStart + 80;
    SyndromeAgree(s, t, messageStart, messageStart + 80, table);
    CodewordChecksumFlip(s, messageStart, p);
    ChecksumBitStep(seed, syndrome, syndrome', checksum, checksum', Pow2(95 - p),
      Ccitt80Residual(s, messageStart, messageStart + 80, seed, table),
      Ccitt80Residual(t, messageStart, messageStart + 80, seed, table));
  }

  /** Flipping codeword bit p >= 80 moves the 16-bit checksum read by 2^(95 - p). */
  lemma CodewordChecksumFlip(s: seq<bool>, messageStart: nat, p: nat)
    requires messageStart + 96 <= |s| && 80 <= p < 96
    ensures GetIntChecksum(s[messageStart + p := !s[messageStart + p]], messageStart + 80, 16) ==
      Xor(GetIntChecksum(s, messageStart + 80, 16), Pow2(95 - p))
  {
    var k := messageStart + p;
    ChecksumBitWeight(s, messageStart + 80, 16, k, messageStart + 95);
    assert messageStart + 95 - k == 95 - p;
  }

  /** The arithmetic of an error in a message bit: the syndrome moves by e. */
  lemma MessageBitStep(seed: nat, syndrome: nat, syndrome': nat, checksum: nat, checksum': nat, e: nat, r: nat, r': nat)
    requires r == Xor(Xor(seed, syndrome), checksum) && r' == Xor(Xor(seed, syndrome'), checksum')
    requires syndrome' == Xor(syndrome, e) && checksum' == checksum
    ensures r' == Xor(r, e)
  {
    XorRegroup(seed, syndrome, e, checksum);
  }

  /** The arithmetic of an error in a checksum bit: the checksum read moves by e. */
  lemma ChecksumBitStep(seed: nat, syndrome: nat, syndrome': nat, checksum: nat, checksum': nat, e: nat, r: nat, r': nat)
    requires r == Xor(Xor(seed, syndrome), checksum) && r' == Xor(Xor(seed, syndrome'), checksum')
    requires syndrome' == syndrome && checksum' == Xor(checksum, e)
    ensures r' == Xor(r, e)
  {
    XorAssoc(Xor(seed, syndrome), checksum, e);
  }

  /** Xor with a value that is neither 0 nor all keeps a residual of 0 or all away from both. */
  lemma StillFailing(r: nat, e: nat, all: nat)
    requires r == 0 || r == all
    requires e != 0 && e != all
    ensures Xor(r, e) != 0 && Xor(r, e) != all
  {
    XorSolve(r, e, 0);
    XorSolve(r, e, all);
    XorZero(r);
    XorSelf(all);
    XorZero(all);
  }

  /**
   * A single-bit error in a codeword whose residual is 0 leaves the residual
   * ErrorPattern(table, p), which the check then decides on.
   */
  lemma SingleErrorOutcome(s: seq<bool>, messageStart: nat, seed: nat, table: seq<nat>, p: nat, k: nat)
    requires |table| == 96 && messageStart + 96 <= |s| && p < 96 && k == messageStart + p
    requires Ccitt80Residual(s, messageStart, messageStart + 80, seed, table) == 0
    ensures Ccitt80Outcome(s[k := !s[k]], messageStart, messageStart + 80, seed, table) ==
      Decide(ErrorPattern(table, p), table)
  {
    ResidualFlip(s, messageStart, seed, table, p);
    XorZero(ErrorPattern(table, p));
  }

  /** Every entry of the CCITT table is found at its own position. */
  lemma Ccitt80Finds(i: nat)
    requires i < 96
    ensures Decide(Ccitt80Checksums[i], Ccitt80Checksums) == FlipBit(i)
  {
    Ccitt80NeverPasses(i);
    var x := FirstIndex(Ccitt80Checksums[i], Ccitt80Checksums);
    Ccitt80Distinct(x, i);
  }

  /** Every entry of the intended table is found at its own position. */
  lemma IntendedFinds(i: nat)
    requires i < 96
    ensures Decide(Ccitt80ChecksumsIntended[i], Ccitt80ChecksumsIntended) == FlipBit(i)
  {
    IntendedChecksumEntries(0);
    IntendedNeverPasses(i);
    var x := FirstIndex(Ccitt80ChecksumsIntended[i], Ccitt80ChecksumsIntended);
    IntendedDistinct(x, i);
  }

  /** Flipping the same bit twice restores the codeword. */
  lemma FlipTwice(s: seq<bool>, k: nat)
    requires k < |s|
    ensures s[k := !s[k]][k := !s[k := !s[k]][k]] == s
  { }

  /** Every single-bit error in a passing codeword (residual 0 or 0xFFFF) is detected. */
  lemma SingleErrorDetected(s: seq<bool>, messageStart: nat, seed: nat, p: nat)
    requires messageStart + 96 <= |s| && p < 96
    requires Ccitt80Residual(s, messageStart, messageStart + 80, seed, Ccitt80Checksums) in {0, 0xFFFF}
    ensures Ccitt80Outcome(s[messageStart + p := !s[messageStart + p]], messageStart, messageStart + 80, seed, Ccitt80Checksums) != Clean
  {
    Ccitt80ChecksumEntries(0);
    ResidualFlip(s, messageStart, seed, Ccitt80Checksums, p);
    if p < 80 {
      Ccitt80NeverPasses(p);
    } else {
      Ccitt80ChecksumEntries(95 - p);
      Ccitt80NeverPasses(175 - p);
    }
    StillFailing(Ccitt80Residual(s, messageStart, messageStart + 80, seed, Ccitt80Checksums),
      ErrorPattern(Ccitt80Checksums, p), 0xFFFF);
  }

  /**
   * A single error at position p of a codeword with residual 0 is located
   * and undone whenever the table decides its error pattern as FlipBit(p).
   */
  lemma CorrectedWith(s: seq<bool>, messageStart: nat, seed: nat, table: seq<nat>, p: nat)
    requires |table| == 96 && messageStart + 96 <= |s| && p < 96
    requires Ccitt80Residual(s, messageStart, messageStart + 80, seed, table) == 0
    requires Decide(ErrorPattern(table, p), table) == FlipBit(p)
    ensures var t := s[messageStart + p := !s[messageStart + p]];
      var o := Ccitt80Outcome(t, messageStart, messageStart + 80, seed, table);
      o == FlipBit(p) && Repaired(t, messageStart, o) == s
  {
    SingleErrorOutcome(s, messageStart, seed, table, p, messageStart + p);
    FlipTwice(s, messageStart + p);
  }

  /** A single error among the 80 message bits of a codeword with residual 0 is located at its own position. */
  lemma PayloadErrorCorrected(s: seq<bool>, messageStart: nat, seed: nat, p: nat)
    requires messageStart + 96 <= |s| && p < 80
    requires Ccitt80Residual(s, messageStart, messageStart + 80, seed, Ccitt80Checksums) == 0
    ensures Ccitt80Outcome(s[messageStart + p := !s[messageStart + p]], messageStart, messageStart + 80, seed, Ccitt80Checksums) ==
      FlipBit(p)
  {
    Ccitt80ChecksumEntries(0);
    Ccitt80Finds(p);
    CorrectedWith(s, messageStart, seed, Ccitt80Checksums, p);
  }

  /** Flipping back the bit the error hit restores the codeword. */
  lemma RepairUndoes(s: seq<bool>, messageStart: nat, p: nat)
    requires messageStart + p < |s|
    ensures Repaired(s[messageStart + p := !s[messageStart + p]], messageStart, FlipBit(p)) == s
  {
    FlipTwice(s, messageStart + p);
  }

  /**
   * A codeword whose residual is 0xFFFF passes as well, but no single error
   * in it is ever located: 0xFFFF Xor an error pattern is the complement of a
   * table entry, which no entry equals, so every one of the 96 single errors
   * is declared uncorrectable.
   */
  lemma ComplementErrorUncorrectable(s: seq<bool>, messageStart: nat, seed: nat, p: nat)
    requires messageStart + 96 <= |s| && p < 96
    requires Ccitt80Residual(s, messageStart, messageStart + 80, seed, Ccitt80Checksums) == 0xFFFF
    ensures Ccitt80Outcome(s[messageStart + p := !s[messageStart + p]], messageStart, messageStart + 80, seed, Ccitt80Checksums) ==
      Uncorrectable
  {
    Ccitt80ChecksumEntries(0);
    ResidualFlip(s, messageStart, seed, Ccitt80Checksums, p);
    var q := if p < 80 then p else 175 - p;
    if p >= 80 {
      Ccitt80ChecksumEntries(95 - p);
    }
    var e := Ccitt80Checksums[q];
    assert ErrorPattern(Ccitt80Checksums, p) == e;
    Ccitt80NoComplement(q, q);
    Ccitt80NeverPasses(q);
    Pow2Wide();
    XorAllOnes(e, 16);
    forall k | 0 <= k < |Ccitt80Checksums|
      ensures Ccitt80Checksums[k] != Xor(0xFFFF, e)
    {
      Ccitt80NoComplement(q, k);
    }
    StillFailing(0xFFFF, e, 0xFFFF);
  }

  /**
   * An error in checksum bit j is "corrected" at codeword bit 95 - j whenever
   * the table holds 2^(15 - j), the weight of bit j in the checksum read, at
   * position 95 - j and decides it there.
   */
  lemma MiscorrectedWith(s: seq<bool>, messageStart: nat, seed: nat, table: seq<nat>, j: nat)
    requires |table| == 96 && messageStart + 96 <= |s| && j < 16
    requires Ccitt80Residual(s, messageStart, messageStart + 80, seed, table) == 0
    requires table[95 - j] == Pow2(15 - j) && Decide(table[95 - j], table) == FlipBit(95 - j)
    ensures Ccitt80Outcome(s[messageStart + 80 + j := !s[messageStart + 80 + j]], messageStart, messageStart + 80, seed, table) ==
      FlipBit(95 - j)
  {
    assert ErrorPattern(table, 80 + j) == table[95 - j] by {
      assert 95 - (80 + j) == 15 - j;
    }
    SingleErrorOutcome(s, messageStart, seed, table, 80 + j, messageStart + 80 + j);
  }

  /**
   * As written, a single error in checksum bit j of a codeword with residual
   * 0 is "corrected" by flipping codeword bit 95 - j: the checksum is read
   * most significant bit first while the table's checksum entries run from
   * 2^0 up.
   */
  lemma ChecksumErrorMiscorrected(s: seq<bool>, messageStart: nat, seed: nat, j: nat)
    requires messageStart + 96 <= |s| && j < 16
    requires Ccitt80Residual(s, messageStart, messageStart + 80, seed, Ccitt80Checksums) == 0
    ensures Ccitt80Outcome(s[messageStart + 80 + j := !s[messageStart + 80 + j]], messageStart, messageStart + 80, seed, Ccitt80Checksums) ==
      FlipBit(95 - j)
  {
    Ccitt80ChecksumTail(j);
    MiscorrectedWith(s, messageStart, seed, Ccitt80Checksums, j);
  }

  /** Checksum entry 15 - j of the table is 2^(15 - j), the weight of checksum bit j, and is found at position 95 - j. */
  lemma Ccitt80ChecksumTail(j: nat)
    requires j < 16
    ensures |Ccitt80Checksums| == 96 && Ccitt80Checksums[95 - j] == Pow2(15 - j)
    ensures Decide(Ccitt80Checksums[95 - j], Ccitt80Checksums) == FlipBit(95 - j)
  {
    Ccitt80ChecksumEntries(15 - j);
    assert 80 + (15 - j) == 95 - j;
    Ccitt80Finds(95 - j);
  }

  /**
   * The repair that follows such a miscorrection leaves the erroneous
   * checksum bit 80 + j wrong and breaks the good bit 95 - j as well.
   */
  lemma MiscorrectionDamages(s: seq<bool>, messageStart: nat, j: nat)
    requires messageStart + 96 <= |s| && j < 16
    ensures var t := s[messageStart + 80 + j := !s[messageStart + 80 + j]];
      var r := Repaired(t, messageStart, FlipBit(95 - j));
      r[messageStart + 80 + j] != s[messageStart + 80 + j] && r[messageStart + 95 - j] != s[messageStart + 95 - j]
  { }

  /** The smallest instance: 96 clear bits pass, and an error in the first checksum bit makes the check flip bit 95. */
  lemma ChecksumErrorExample()
    ensures Ccitt80Outcome(seq(96, k requires 0 <= k < 96 => k == 80), 0, 80, 0, Ccitt80Checksums) == FlipBit(95)
  {
    Ccitt80ChecksumEntries(15);
    Ccitt80Finds(95);
    ExampleWith(Ccitt80Checksums);
  }

  /** The example for any table that holds 2^15 at position 95 and decides it there. */
  lemma ExampleWith(table: seq<nat>)
    requires |table| == 96 && table[95] == Pow2(15) && Decide(table[95], table) == FlipBit(95)
    ensures Ccitt80Outcome(seq(96, k requires 0 <= k < 96 => k == 80), 0, 80, 0, table) == FlipBit(95)
  {
    var s := seq(96, k requires 0 <= k < 96 => false);
    ClearResidual(s, table);
    SingleErrorOutcome(s, 0, 0, table, 80, 80);
    OneBitSet(s);
  }

  lemma OneBitSet(s: seq<bool>)
    requires s == seq(96, k requires 0 <= k < 96 => false)
    ensures s[80 := !s[80]] == seq(96, k requires 0 <= k < 96 => k == 80)
  { }

  /** A codeword of clear bits has residual 0 from seed 0, whatever the table. */
  lemma ClearResidual(s: seq<bool>, table: seq<nat>)
    requires |table| == 96 && |s| == 96 && forall k :: 0 <= k < 96 ==> !s[k]
    ensures Ccitt80Residual(s, 0, 80, 0, table) == 0
  {
    SyndromeSkip(s, 0, 0, 80, table);
    XorZero(0);
  }

  /**
   * Errors at message bits 5 and 40 of a codeword with residual 0 leave the
   * residual 0xAD35 Xor 0x22D0 = 0x8FE5, which no entry matches: the check
   * gives up instead of flipping a bit.
   */
  lemma DoubleErrorUncorrectable(s: seq<bool>, messageStart: nat, seed: nat)
    requires messageStart + 96 <= |s|
    requires Ccitt80Residual(s, messageStart, messageStart + 80, seed, Ccitt80Checksums) == 0
    ensures var t := s[messageStart + 5 := !s[messageStart + 5]];
      Ccitt80Outcome(t[messageStart + 40 := !t[messageStart + 40]], messageStart, messageStart + 80, seed, Ccitt80Checksums) ==
        Uncorrectable
  {
    DoubleErrorResidual();
    NotAnEntry();
    DecideRule(0x8FE5, Ccitt80Checksums);
    TwoErrorsWith(s, messageStart, seed, Ccitt80Checksums, 5, 40);
  }

  /** Two errors in a codeword with residual 0 leave the Xor of their patterns, which the check then decides on. */
  lemma TwoErrorsWith(s: seq<bool>, messageStart: nat, seed: nat, table: seq<nat>, p: nat, q: nat)
    requires |table| == 96 && messageStart + 96 <= |s| && p < 96 && q < 96
    requires Ccitt80Residual(s, messageStart, messageStart + 80, seed, table) == 0
    ensures var t := s[messageStart + p := !s[messageStart + p]];
      Ccitt80Outcome(t[messageStart + q := !t[messageStart + q]], messageStart, messageStart + 80, seed, table) ==
        Decide(Xor(ErrorPattern(table, p), ErrorPattern(table, q)), table)
  {
    var t := s[messageStart + p := !s[messageStart + p]];
    ResidualFlip(s, messageStart, seed, table, p);
    ResidualFlip(t, messageStart, seed, table, q);
    XorZero(ErrorPattern(table, p));
  }

  /** The residual of the two errors, one bit at a time from the top. */
  lemma DoubleErrorResidual()
    ensures |Ccitt80Checksums| == 96 && Xor(Ccitt80Checksums[5], Ccitt80Checksums[40]) == 0x8FE5
  {
    assert Ccitt80Checksums[5] == 0xAD35 && Ccitt80Checksums[40] == 0x22D0;
    assert Xor(0x1, 0x0) == 0x1;
    assert Xor(0x2, 0x0) == 0x2;
    assert Xor(0x5, 0x1) == 0x4;
    assert Xor(0xA, 0x2) == 0x8;
    assert Xor(0x15, 0x4) == 0x11;
    assert Xor(0x2B, 0x8) == 0x23;
    assert Xor(0x56, 0x11) == 0x47;
    assert Xor(0xAD, 0x22) == 0x8F;
    assert Xor(0x15A, 0x45) == 0x11F;
    assert Xor(0x2B4, 0x8B) == 0x23F;
    assert Xor(0x569, 0x116) == 0x47F;
    assert Xor(0xAD3, 0x22D) == 0x8FE;
    assert Xor(0x15A6, 0x45A) == 0x11FC;
    assert Xor(0x2B4D, 0x8B4) == 0x23F9;
    assert Xor(0x569A, 0x1168) == 0x47F2;
    assert Xor(0xAD35, 0x22D0) == 0x8FE5;
  }

  /** 0x8FE5 is not in the CCITT table. */
  lemma NotAnEntry()
    ensures forall k :: 0 <= k < |Ccitt80Checksums| ==> Ccitt80Checksums[k] != 0x8FE5
  {
    assert Ccitt80Position(0x8FE5) == -1;
    forall k | 0 <= k < |Ccitt80Checksums|
      ensures Ccitt80Checksums[k] != 0x8FE5
    {
      Ccitt80Locates(k);
    }
  }

  /** The intended table gives the same residual: they differ only in the checksum entries, which the syndrome never uses. */
  lemma IntendedResidualAgrees(s: seq<bool>, messageStart: nat, seed: nat)
    ensures Ccitt80Residual(s, messageStart, messageStart + 80, seed, Ccitt80ChecksumsIntended) ==
      Ccitt80Residual(s, messageStart, messageStart + 80, seed, Ccitt80Checksums)
  {
    SyndromeTables(s, messageStart, messageStart + 80, Ccitt80ChecksumsIntended, Ccitt80Checksums);
  }

  /** With the intended table, every single-bit error in the 96-bit codeword is located at its own position (RepairUndoes then restores the codeword). */
  lemma IntendedCorrectsEverySingleError(s: seq<bool>, messageStart: nat, seed: nat, p: nat)
    requires messageStart + 96 <= |s| && p < 96
    requires Ccitt80Residual(s, messageStart, messageStart + 80, seed, Ccitt80ChecksumsIntended) == 0
    ensures Ccitt80Outcome(s[messageStart + p := !s[messageStart + p]], messageStart, messageStart + 80, seed, Ccitt80ChecksumsIntended) ==
      FlipBit(p)
  {
    IntendedPatternFound(p);
    CorrectedWith(s, messageStart, seed, Ccitt80ChecksumsIntended, p);
  }

  /** In the intended table the error pattern of every codeword bit p is entry p, found at p. */
  lemma IntendedPatternFound(p: nat)
    requires p < 96
    ensures |Ccitt80ChecksumsIntended| == 96
    ensures Decide(ErrorPattern(Ccitt80ChecksumsIntended, p), Ccitt80ChecksumsIntended) == FlipBit(p)
  {
    IntendedChecksumEntries(0);
    if p >= 80 {
      IntendedChecksumEntries(p - 80);
      assert ErrorPattern(Ccitt80ChecksumsIntended, p) == Ccitt80ChecksumsIntended[p] by {
        assert 95 - p == 15 - (p - 80);
      }
    }
    IntendedFinds(p);
  }

  /** checkCRC9 detects every single-bit error in a passing 144-bit block, data or checksum. */
  lemma Crc9DetectsEverySingleError(s: seq<bool>, messageStart: nat, p: nat)
    requires messageStart <= p < messageStart + 144 && p < |s|
    requires Crc9Residual(s, messageStart, Crc9Checksums) in {0, 0x1FF}
    ensures Crc9Residual(s[p := !s[p]], messageStart, Crc9Checksums) !in {0, 0x1FF}
  {
    forall i | 0 <= i < |Crc9Checksums|
      ensures 0 < Crc9Checksums[i] < 0x1FF
    {
      Crc9NeverPasses(i);
    }
    Crc9DetectsWith(s, messageStart, p, Crc9Checksums);
  }

  /** No entry of the table is a passing residual. */
  predicate Crc9EntriesFail(table: seq<nat>)
  {
    forall i :: 0 <= i < |table| ==> 0 < table[i] < 0x1FF
  }

  /** Single-bit errors are detected with any 135-entry table none of whose entries is 0 or 0x1FF. */
  lemma Crc9DetectsWith(s: seq<bool>, messageStart: nat, p: nat, table: seq<nat>)
    requires |table| == 135 && Crc9EntriesFail(table)
    requires messageStart <= p < messageStart + 144 && p < |s|
    requires Crc9Residual(s, messageStart, table) in {0, 0x1FF}
    ensures Crc9Residual(s[p := !s[p]], messageStart, table) !in {0, 0x1FF}
  {
    var r := Crc9Residual(s, messageStart, table);
    if Crc9DataBit(messageStart, p) {
      Crc9DataFlip(s, messageStart, p, table);
      Crc9EntryNeverPasses(messageStart, p, table);
      StillFailing(r, Crc9Entry(messageStart, p, table), 0x1FF);
    } else {
      Crc9ChecksumFlip(s, messageStart, p, table);
      var k := messageStart + 15 - p;
      if k > 0 {
        assert Pow2(k) == 2 * Pow2(k - 1);
      }
      StillFailing(r, Pow2(k), 0x1FF);
    }
  }

  /** Every CRC-9 entry lies strictly between the two passing residuals. */
  lemma Crc9EntryNeverPasses(messageStart: nat, p: nat, table: seq<nat>)
    requires |table| == 135 && Crc9EntriesFail(table) && Crc9DataBit(messageStart, p)
    ensures 0 < Crc9Entry(messageStart, p, table) < 0x1FF
  {
    var i := if p < messageStart + 7 then p - messageStart else p - messageStart - 9;
    assert 0 < table[i] < 0x1FF;
  }

  /** An error in a data bit moves the CRC-9 residual by that bit's entry. */
  lemma Crc9DataFlip(s: seq<bool>, messageStart: nat, p: nat, table: seq<nat>)
    requires |table| == 135
    requires Crc9DataBit(messageStart, p) && p < |s|
    ensures Crc9Residual(s[p := !s[p]], messageStart, table) == Xor(Crc9Residual(s, messageStart, table), Crc9Entry(messageStart, p, table))
  {
    var t := s[p := !s[p]];
    Crc9SyndromeFlip(s, p, messageStart, messageStart + 144, table);
    FlipOutside(s, p, messageStart + 7, messageStart + 15 + 1);
    GetIntAgree(s, t, messageStart + 7, messageStart + 15);
    XorSwap(Crc9Syndrome(s, messageStart, messageStart + 144, table), Crc9Entry(messageStart, p, table),
      GetInt(s, messageStart + 7, messageStart + 15));
  }

  /** An error in checksum bit p moves the CRC-9 residual by its weight 2^(messageStart + 15 - p). */
  lemma Crc9ChecksumFlip(s: seq<bool>, messageStart: nat, p: nat, table: seq<nat>)
    requires |table| == 135
    requires messageStart + 7 <= p <= messageStart + 15 && p < |s|
    ensures Crc9Residual(s[p := !s[p]], messageStart, table) == Xor(Crc9Residual(s, messageStart, table), Pow2(messageStart + 15 - p))
  {
    var t := s[p := !s[p]];
    var syndrome := Crc9Syndrome(s, messageStart, messageStart + 144, table);
    var checksum := GetInt(s, messageStart + 7, messageStart + 15);
    Crc9SyndromeFlip(s, p, messageStart, messageStart + 144, table);
    assert Crc9Syndrome(t, messageStart, messageStart + 144, table) == syndrome;
    GetIntFlip(s, p, messageStart + 7, messageStart + 15);
    XorAssoc(syndrome, checksum, Pow2(messageStart + 15 - p));
  }

  /**
   * crc8 computes the remainder of the message times x^8 modulo the
   * generator: the division clears the message rows, leaves nothing past
   * the eight remainder bits, and what it removed is a multiple of the
   * generator. The remainder is below 256.
   */
  lemma Crc8IsRemainder(bits: seq<bool>, len: nat)
    requires len + 8 <= 256
    ensures var b := Dividend(bits, len);
      var f := LongDivision(b, 0, len);
      (forall k :: 0 <= k < len ==> !f[k]) &&
      (forall k :: len + 8 <= k < 256 ==> !f[k]) &&
      XorBits(b, f) == Product(Quotient(b, 0, len), 0, 256) &&
      Crc8Remainder(bits, len) == Pack(f, len, len + 8) < 256
  {
    var b := Dividend(bits, len);
    var f := LongDivision(b, 0, len);
    DivisionClearsRows(b, 0, len);
    DivisionKeepsTail(b, 0, len);
    assert forall k :: len + 8 <= k < 256 ==> f[k] == f[len + 8..][k - len - 8];
    DivisionSubtractsMultiple(b, 0, len);
    PackBound(f, len, len + 8);
    Pow2Small();
  }

  /** crc8 reads only the first len bits of the message. */
  lemma Crc8ReadsOnlyPrefix(s: seq<bool>, t: seq<bool>, len: nat)
    requires len + 8 <= 256
    requires AgreeOn(s, t, 0, len)
    ensures Crc8Remainder(s, len) == Crc8Remainder(t, len)
  {
    assert Dividend(s, len) == Dividend(t, len);
  }
}
