/**
 * The values the CRCDMR loops accumulate, as functions of the message bits:
 * the exclusive-or of one table entry per set bit. Flipping one bit changes
 * such a value by exclusive-or with that bit's entry, which is what lets a
 * residual name the position of a single-bit error.
 */
module Syndromes {

  import opened BitwiseXor
  import opened BinaryMessages

  /** The exclusive-or of table[p - start] over the set bits p in [start, end). */
  function Syndrome(bits: seq<bool>, start: nat, end: nat, table: seq<nat>): nat
    requires start <= end <= start + |table|
    decreases end
  {
    if end == start then 0
    else if Bit(bits, end - 1) then Xor(Syndrome(bits, start, end - 1, table), table[end - 1 - start])
    else Syndrome(bits, start, end - 1, table)
  }

  /** Entries below 2^w give a syndrome below 2^w. */
  lemma {:induction false} SyndromeBound(bits: seq<bool>, start: nat, end: nat, table: seq<nat>, w: nat)
    requires start <= end <= start + |table|
    requires forall k :: 0 <= k < |table| ==> table[k] < Pow2(w)
    ensures Syndrome(bits, start, end, table) < Pow2(w)
    decreases end
  {
    if end > start {
      SyndromeBound(bits, start, end - 1, table, w);
      XorBound(Syndrome(bits, start, end - 1, table), table[end - 1 - start], w);
    }
  }

  /** Clear bits contribute nothing. */
  lemma {:induction false} SyndromeSkip(bits: seq<bool>, start: nat, mid: nat, end: nat, table: seq<nat>)
    requires start <= mid <= end <= start + |table|
    requires ClearBetween(bits, mid, end)
    ensures Syndrome(bits, start, end, table) == Syndrome(bits, start, mid, table)
    decreases end
  {
    if mid < end {
      SyndromeSkip(bits, start, mid, end - 1, table);
    }
  }

  /** The syndrome depends only on the bits inside its range. */
  lemma {:induction false} SyndromeAgree(s: seq<bool>, t: seq<bool>, start: nat, end: nat, table: seq<nat>)
    requires start <= end <= start + |table|
    requires AgreeOn(s, t, start, end)
    ensures Syndrome(s, start, end, table) == Syndrome(t, start, end, table)
    decreases end
  {
    if start < end {
      SyndromeAgree(s, t, start, end - 1, table);
    }
  }

  /** It depends only on the entries for positions inside its range. */
  lemma {:induction false} SyndromeTables(bits: seq<bool>, start: nat, end: nat, table: seq<nat>, other: seq<nat>)
    requires start <= end <= start + |table| && end <= start + |other|
    requires table[..end - start] == other[..end - start]
    ensures Syndrome(bits, start, end, table) == Syndrome(bits, start, end, other)
    decreases end
  {
    if start < end {
      assert table[end - 1 - start] == table[..end - start][end - 1 - start];
      assert other[end - 1 - start] == other[..end - start][end - 1 - start];
      assert table[..end - 1 - start] == table[..end - start][..end - 1 - start];
      assert other[..end - 1 - start] == other[..end - start][..end - 1 - start];
      SyndromeTables(bits, start, end - 1, table, other);
    }
  }

  /** Flipping bit p of [start, end) changes the syndrome by table[p - start]. */
  lemma {:induction false} SyndromeFlip(s: seq<bool>, p: nat, start: nat, end: nat, table: seq<nat>)
    requires start <= p < end <= start + |table| && p < |s|
    ensures Syndrome(s[p := !s[p]], start, end, table) == Xor(Syndrome(s, start, end, table), table[p - start])
    decreases end
  {
    var t := s[p := !s[p]];
    if p == end - 1 {
      SyndromeAgree(s, t, start, p, table);
      XorCancel(Syndrome(s, start, p, table), table[p - start]);
    } else {
      SyndromeFlip(s, p, start, end - 1, table);
      FlipElsewhere(s, p, end - 1);
      if Bit(s, end - 1) {
        XorSwap(Syndrome(s, start, end - 1, table), table[p - start], table[end - 1 - start]);
      }
    }
  }

  /** Two exclusive-ors may be applied in either order. */
  lemma XorSwap(a: nat, b: nat, c: nat)
    ensures Xor(Xor(a, b), c) == Xor(Xor(a, c), b)
  {
    XorAssoc(a, b, c);
    XorComm(b, c);
    XorAssoc(a, c, b);
  }

  /**
   * checkCRC9's accumulator over [messageStart, end): the nine checksum bits
   * messageStart + 7 .. messageStart + 15 are skipped, earlier bits use entry
   * p - messageStart and later bits entry p - messageStart - 9 of the
   * 135-entry table (CRC9_CHECKSUMS).
   */
  function Crc9Syndrome(bits: seq<bool>, messageStart: nat, end: nat, table: seq<nat>): nat
    requires |table| == 135
    requires messageStart <= end <= messageStart + 144
    decreases end
  {
    if end == messageStart then 0
    else
      var p := end - 1;
      var prior := Crc9Syndrome(bits, messageStart, p, table);
      if Bit(bits, p) && p < messageStart + 7 then Xor(prior, table[p - messageStart])
      else if Bit(bits, p) && p > messageStart + 15 then Xor(prior, table[p - messageStart - 9])
      else prior
  }

  /** Whether position p is a data bit of the CRC-9 block, and which entry it uses. */
  predicate Crc9DataBit(messageStart: nat, p: nat)
  {
    messageStart <= p < messageStart + 144 && (p < messageStart + 7 || p > messageStart + 15)
  }

  function Crc9Entry(messageStart: nat, p: nat, table: seq<nat>): nat
    requires |table| == 135
    requires Crc9DataBit(messageStart, p)
  {
    if p < messageStart + 7 then table[p - messageStart] else table[p - messageStart - 9]
  }

  lemma {:induction false} Crc9SyndromeSkip(bits: seq<bool>, messageStart: nat, mid: nat, end: nat, table: seq<nat>)
    requires |table| == 135
    requires messageStart <= mid <= end <= messageStart + 144
    requires ClearBetween(bits, mid, end)
    ensures Crc9Syndrome(bits, messageStart, end, table) == Crc9Syndrome(bits, messageStart, mid, table)
    decreases end
  {
    if mid < end {
      Crc9SyndromeSkip(bits, messageStart, mid, end - 1, table);
    }
  }

  lemma {:induction false} Crc9SyndromeAgree(s: seq<bool>, t: seq<bool>, messageStart: nat, end: nat, table: seq<nat>)
    requires |table| == 135
    requires messageStart <= end <= messageStart + 144
    requires AgreeOn(s, t, messageStart, end)
    ensures Crc9Syndrome(s, messageStart, end, table) == Crc9Syndrome(t, messageStart, end, table)
    decreases end
  {
    if messageStart < end {
      Crc9SyndromeAgree(s, t, messageStart, end - 1, table);
    }
  }

  /** One step of the CRC-9 accumulator, in terms of data bits and their entries. */
  lemma Crc9Step(bits: seq<bool>, messageStart: nat, p: nat, table: seq<nat>)
    requires |table| == 135
    requires messageStart <= p < messageStart + 144
    ensures Crc9Syndrome(bits, messageStart, p + 1, table) ==
      if Bit(bits, p) && Crc9DataBit(messageStart, p) then Xor(Crc9Syndrome(bits, messageStart, p, table), Crc9Entry(messageStart, p, table))
      else Crc9Syndrome(bits, messageStart, p, table)
  { }

  /**
   * Flipping a data bit changes the CRC-9 accumulator by that bit's entry;
   * flipping a checksum bit leaves it alone.
   */
  lemma {:induction false} Crc9SyndromeFlip(s: seq<bool>, p: nat, messageStart: nat, end: nat, table: seq<nat>)
    requires |table| == 135
    requires messageStart <= p < end <= messageStart + 144 && p < |s|
    ensures Crc9Syndrome(s[p := !s[p]], messageStart, end, table) ==
      if Crc9DataBit(messageStart, p) then Xor(Crc9Syndrome(s, messageStart, end, table), Crc9Entry(messageStart, p, table))
      else Crc9Syndrome(s, messageStart, end, table)
    decreases end
  {
    var t := s[p := !s[p]];
    var q := end - 1;
    Crc9Step(s, messageStart, q, table);
    Crc9Step(t, messageStart, q, table);
    var eq := if Crc9DataBit(messageStart, q) then Crc9Entry(messageStart, q, table) else 0;
    if p == q {
      Crc9SyndromeAgree(s, t, messageStart, p, table);
      ToggleStep(Bit(s, q), Crc9DataBit(messageStart, q), Crc9Syndrome(s, messageStart, q, table), eq,
        Crc9Syndrome(s, messageStart, end, table), Crc9Syndrome(t, messageStart, end, table));
    } else {
      Crc9SyndromeFlip(s, p, messageStart, q, table);
      FlipElsewhere(s, p, q);
      var ep := if Crc9DataBit(messageStart, p) then Crc9Entry(messageStart, p, table) else 0;
      KeepStep(Bit(s, q) && Crc9DataBit(messageStart, q), Crc9DataBit(messageStart, p),
        Crc9Syndrome(s, messageStart, q, table), Crc9Syndrome(t, messageStart, q, table), ep, eq,
        Crc9Syndrome(s, messageStart, end, table), Crc9Syndrome(t, messageStart, end, table));
    }
  }

  /** The flipped bit's own step: a counted bit toggles its entry in or out. */
  lemma ToggleStep(b: bool, d: bool, prior: nat, e: nat, before: nat, after: nat)
    requires before == (if b && d then Xor(prior, e) else prior)
    requires after == (if !b && d then Xor(prior, e) else prior)
    ensures after == (if d then Xor(before, e) else before)
  {
    if d {
      XorCancel(prior, e);
    }
  }

  /** A later step applies the same entry to both messages, keeping their difference. */
  lemma KeepStep(c: bool, d: bool, prior: nat, prior': nat, ep: nat, eq: nat, before: nat, after: nat)
    requires prior' == (if d then Xor(prior, ep) else prior)
    requires before == (if c then Xor(prior, eq) else prior)
    requires after == (if c then Xor(prior', eq) else prior')
    ensures after == (if d then Xor(before, ep) else before)
  {
    if c && d {
      XorSwap(prior, ep, eq);
    }
  }
}
