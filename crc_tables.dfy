/**
 * The two syndrome tables of CRCDMR (CRCDMR.java lines 37-50 and 57-73),
 * with the facts about their entries that the error-correction proofs rely on.
 * The entries are Java ints, here their unsigned values.
 */
module CRCTables {

  import opened BitwiseXor

  /**
   * CCITT_80_CHECKSUMS: the CRC-CCITT syndrome of a single error at each
   * position of an 80-bit message followed by its 16 checksum bits.
   */
  const Ccitt80Checksums: seq<nat> :=
    [0xE434, 0x721A, 0x390D, 0x9496, 0x4A4B, 0xAD35, 0xDE8A, 0x6F45] +
    [0xBFB2, 0x5FD9, 0xA7FC, 0x53FE, 0x29FF, 0x9CEF, 0xC667, 0xEB23] +
    [0xFD81, 0xF6D0, 0x7B68, 0x3DB4, 0x1EDA, 0x0F6D, 0x8FA6, 0x47D3] +
    [0xABF9, 0xDDEC, 0x6EF6, 0x377B, 0x93AD, 0xC1C6, 0x60E3, 0xB861] +
    [0xD420, 0x6A10, 0x3508, 0x1A84, 0x0D42, 0x06A1, 0x8B40, 0x45A0] +
    [0x22D0, 0x1168, 0x08B4, 0x045A, 0x022D, 0x8906, 0x4483, 0xAA51] +
    [0xDD38, 0x6E9C, 0x374E, 0x1BA7, 0x85C3, 0xCAF1, 0xED68, 0x76B4] +
    [0x3B5A, 0x1DAD, 0x86C6, 0x4363, 0xA9A1, 0xDCC0, 0x6E60, 0x3730] +
    [0x1B98, 0x0DCC, 0x06E6, 0x0373, 0x89A9, 0xCCC4, 0x6662, 0x3331] +
    [0x9188, 0x48C4, 0x2462, 0x1231, 0x8108, 0x4084, 0x2042, 0x1021] +
    [0x0001, 0x0002, 0x0004, 0x0008, 0x0010, 0x0020, 0x0040, 0x0080] +
    [0x0100, 0x0200, 0x0400, 0x0800, 0x1000, 0x2000, 0x4000, 0x8000]

  /**
   * CRC9_CHECKSUMS: the CRC-9 syndrome of a single error at each of the 135
   * message positions of a confirmed-data block (the 9 checksum bits excluded).
   */
  const Crc9Checksums: seq<nat> :=
    [0x1E7, 0x1F3, 0x1F9, 0x1FC, 0x0D2, 0x045, 0x122, 0x0BD, 0x15E] +
    [0x083, 0x141, 0x1A0, 0x0FC, 0x052, 0x005, 0x102, 0x0AD, 0x156] +
    [0x087, 0x143, 0x1A1, 0x1D0, 0x0C4, 0x04E, 0x00B, 0x105, 0x182] +
    [0x0ED, 0x176, 0x097, 0x14B, 0x1A5, 0x1D2, 0x0C5, 0x162, 0x09D] +
    [0x14E, 0x08B, 0x145, 0x1A2, 0x0FD, 0x17E, 0x093, 0x149, 0x1A4] +
    [0x0FE, 0x053, 0x129, 0x194, 0x0E6, 0x05F, 0x12F, 0x197, 0x1CB] +
    [0x1E5, 0x1F2, 0x0D5, 0x16A, 0x099, 0x14C, 0x08A, 0x069, 0x134] +
    [0x0B6, 0x077, 0x13B, 0x19D, 0x1CE, 0x0CB, 0x165, 0x1B2, 0x0F5] +
    [0x17A, 0x091, 0x148, 0x088, 0x068, 0x018, 0x020, 0x03C, 0x032] +
    [0x035, 0x11A, 0x0A1, 0x150, 0x084, 0x06E, 0x01B, 0x10D, 0x186] +
    [0x0EF, 0x177, 0x1BB, 0x1DD, 0x1EE, 0x0DB, 0x16D, 0x1B6, 0x0F7] +
    [0x17B, 0x1BD, 0x1DE, 0x0C3, 0x161, 0x1B0, 0x0F4, 0x056, 0x007] +
    [0x103, 0x181, 0x1C0, 0x0CC, 0x04A, 0x009, 0x104, 0x0AE, 0x07B] +
    [0x13D, 0x19E, 0x0E3, 0x171, 0x1B8, 0x0F0, 0x054, 0x006, 0x02F] +
    [0x117, 0x18B, 0x1C5, 0x1E2, 0x0DD, 0x16E, 0x09B, 0x14D, 0x1A6]

  /**
   * The table position whose entry is v, or -1: a decision tree over the
   * sorted entries, used only to prove that the entries are pairwise distinct.
   */
  ghost function Ccitt80Position(v: int): int
  {
    if v < 0x47D3 then
      if v < 0x1231 then
        if v < 0x0400 then
          if v < 0x0040 then
            if v < 0x0008 then
              if v < 0x0002 then
                if v == 0x0001 then 80 else -1
              else
                if v < 0x0004 then
                  if v == 0x0002 then 81 else -1
                else
                  if v == 0x0004 then 82 else -1
            else
              if v < 0x0010 then
                if v == 0x0008 then 83 else -1
              else
                if v < 0x0020 then
                  if v == 0x0010 then 84 else -1
                else
                  if v == 0x0020 then 85 else -1
          else
            if v < 0x0200 then
              if v < 0x0080 then
                if v == 0x0040 then 86 else -1
              else
                if v < 0x0100 then
                  if v == 0x0080 then 87 else -1
                else
                  if v == 0x0100 then 88 else -1
            else
              if v < 0x022D then
                if v == 0x0200 then 89 else -1
              else
                if v < 0x0373 then
                  if v == 0x022D then 44 else -1
                else
                  if v == 0x0373 then 67 else -1
        else
          if v < 0x0D42 then
            if v < 0x06E6 then
              if v < 0x045A then
                if v == 0x0400 then 90 else -1
              else
                if v < 0x06A1 then
                  if v == 0x045A then 43 else -1
                else
                  if v == 0x06A1 then 37 else -1
            else
              if v < 0x0800 then
                if v == 0x06E6 then 66 else -1
              else
                if v < 0x08B4 then
                  if v == 0x0800 then 91 else -1
                else
                  if v == 0x08B4 then 42 else -1
          else
            if v < 0x1000 then
              if v < 0x0DCC then
                if v == 0x0D42 then 36 else -1
              else
                if v < 0x0F6D then
                  if v == 0x0DCC then 65 else -1
                else
                  if v == 0x0F6D then 21 else -1
            else
              if v < 0x1021 then
                if v == 0x1000 then 92 else -1
              else
                if v < 0x1168 then
                  if v == 0x1021 then 79 else -1
                else
                  if v == 0x1168 then 41 else -1
      else
        if v < 0x3508 then
          if v < 0x2000 then
            if v < 0x1BA7 then
              if v < 0x1A84 then
                if v == 0x1231 then 75 else -1
              else
                if v < 0x1B98 then
                  if v == 0x1A84 then 35 else -1
                else
                  if v == 0x1B98 then 64 else -1
            else
              if v < 0x1DAD then
                if v == 0x1BA7 then 51 else -1
              else
                if v < 0x1EDA then
                  if v == 0x1DAD then 57 else -1
                else
                  if v == 0x1EDA then 20 else -1
          else
            if v < 0x2462 then
              if v < 0x2042 then
                if v == 0x2000 then 93 else -1
              else
                if v < 0x22D0 then
                  if v == 0x2042 then 78 else -1
                else
                  if v == 0x22D0 then 40 else -1
            else
              if v < 0x29FF then
                if v == 0x2462 then 74 else -1
              else
                if v < 0x3331 then
                  if v == 0x29FF then 12 else -1
                else
                  if v == 0x3331 then 71 else -1
        else
          if v < 0x3DB4 then
            if v < 0x377B then
              if v < 0x3730 then
                if v == 0x3508 then 34 else -1
              else
                if v < 0x374E then
                  if v == 0x3730 then 63 else -1
                else
                  if v == 0x374E then 50 else -1
            else
              if v < 0x390D then
                if v == 0x377B then 27 else -1
              else
                if v < 0x3B5A then
                  if v == 0x390D then 2 else -1
                else
                  if v == 0x3B5A then 56 else -1
          else
            if v < 0x4363 then
              if v < 0x4000 then
                if v == 0x3DB4 then 19 else -1
              else
                if v < 0x4084 then
                  if v == 0x4000 then 94 else -1
                else
                  if v == 0x4084 then 77 else -1
            else
              if v < 0x4483 then
                if v == 0x4363 then 59 else -1
              else
                if v < 0x45A0 then
                  if v == 0x4483 then 46 else -1
                else
                  if v == 0x45A0 then 39 else -1
    else
      if v < 0x93AD then
        if v < 0x721A then
          if v < 0x6662 then
            if v < 0x53FE then
              if v < 0x48C4 then
                if v == 0x47D3 then 23 else -1
              else
                if v < 0x4A4B then
                  if v == 0x48C4 then 73 else -1
                else
                  if v == 0x4A4B then 4 else -1
            else
              if v < 0x5FD9 then
                if v == 0x53FE then 11 else -1
              else
                if v < 0x60E3 then
                  if v == 0x5FD9 then 9 else -1
                else
                  if v == 0x60E3 then 30 else -1
          else
            if v < 0x6E9C then
              if v < 0x6A10 then
                if v == 0x6662 then 70 else -1
              else
                if v < 0x6E60 then
                  if v == 0x6A10 then 33 else -1
                else
                  if v == 0x6E60 then 62 else -1
            else
              if v < 0x6EF6 then
                if v == 0x6E9C then 49 else -1
              else
                if v < 0x6F45 then
                  if v == 0x6EF6 then 26 else -1
                else
                  if v == 0x6F45 then 7 else -1
        else
          if v < 0x86C6 then
            if v < 0x8000 then
              if v < 0x76B4 then
                if v == 0x721A then 1 else -1
              else
                if v < 0x7B68 then
                  if v == 0x76B4 then 55 else -1
                else
                  if v == 0x7B68 then 18 else -1
            else
              if v < 0x8108 then
                if v == 0x8000 then 95 else -1
              else
                if v < 0x85C3 then
                  if v == 0x8108 then 76 else -1
                else
                  if v == 0x85C3 then 52 else -1
          else
            if v < 0x8B40 then
              if v < 0x8906 then
                if v == 0x86C6 then 58 else -1
              else
                if v < 0x89A9 then
                  if v == 0x8906 then 45 else -1
                else
                  if v == 0x89A9 then 68 else -1
            else
              if v < 0x8FA6 then
                if v == 0x8B40 then 38 else -1
              else
                if v < 0x9188 then
                  if v == 0x8FA6 then 22 else -1
                else
                  if v == 0x9188 then 72 else -1
      else
        if v < 0xCAF1 then
          if v < 0xABF9 then
            if v < 0xA7FC then
              if v < 0x9496 then
                if v == 0x93AD then 28 else -1
              else
                if v < 0x9CEF then
                  if v == 0x9496 then 3 else -1
                else
                  if v == 0x9CEF then 13 else -1
            else
              if v < 0xA9A1 then
                if v == 0xA7FC then 10 else -1
              else
                if v < 0xAA51 then
                  if v == 0xA9A1 then 60 else -1
                else
                  if v == 0xAA51 then 47 else -1
          else
            if v < 0xBFB2 then
              if v < 0xAD35 then
                if v == 0xABF9 then 24 else -1
              else
                if v < 0xB861 then
                  if v == 0xAD35 then 5 else -1
                else
                  if v == 0xB861 then 31 else -1
            else
              if v < 0xC1C6 then
                if v == 0xBFB2 then 8 else -1
              else
                if v < 0xC667 then
                  if v == 0xC1C6 then 29 else -1
                else
                  if v == 0xC667 then 14 else -1
        else
          if v < 0xDE8A then
            if v < 0xDCC0 then
              if v < 0xCCC4 then
                if v == 0xCAF1 then 53 else -1
              else
                if v < 0xD420 then
                  if v == 0xCCC4 then 69 else -1
                else
                  if v == 0xD420 then 32 else -1
            else
              if v < 0xDD38 then
                if v == 0xDCC0 then 61 else -1
              else
                if v < 0xDDEC then
                  if v == 0xDD38 then 48 else -1
                else
                  if v == 0xDDEC then 25 else -1
          else
            if v < 0xED68 then
              if v < 0xE434 then
                if v == 0xDE8A then 6 else -1
              else
                if v < 0xEB23 then
                  if v == 0xE434 then 0 else -1
                else
                  if v == 0xEB23 then 15 else -1
            else
              if v < 0xF6D0 then
                if v == 0xED68 then 54 else -1
              else
                if v < 0xFD81 then
                  if v == 0xF6D0 then 17 else -1
                else
                  if v == 0xFD81 then 16 else -1
  }

  lemma Ccitt80PositionsPart0(i: nat)
    requires 0 <= i < 24
    ensures |Ccitt80Checksums| == 96 && Ccitt80Position(Ccitt80Checksums[i]) == i
  {
    match i
    case 0 =>
    case 1 =>
    case 2 =>
    case 3 =>
    case 4 =>
    case 5 =>
    case 6 =>
    case 7 =>
    case 8 =>
    case 9 =>
    case 10 =>
    case 11 =>
    case 12 =>
    case 13 =>
    case 14 =>
    case 15 =>
    case 16 =>
    case 17 =>
    case 18 =>
    case 19 =>
    case 20 =>
    case 21 =>
    case 22 =>
    case 23 =>
  }

  lemma Ccitt80PositionsPart1(i: nat)
    requires 24 <= i < 48
    ensures |Ccitt80Checksums| == 96 && Ccitt80Position(Ccitt80Checksums[i]) == i
  {
    match i
    case 24 =>
    case 25 =>
    case 26 =>
    case 27 =>
    case 28 =>
    case 29 =>
    case 30 =>
    case 31 =>
    case 32 =>
    case 33 =>
    case 34 =>
    case 35 =>
    case 36 =>
    case 37 =>
    case 38 =>
    case 39 =>
    case 40 =>
    case 41 =>
    case 42 =>
    case 43 =>
    case 44 =>
    case 45 =>
    case 46 =>
    case 47 =>
  }

  lemma Ccitt80PositionsPart2(i: nat)
    requires 48 <= i < 72
    ensures |Ccitt80Checksums| == 96 && Ccitt80Position(Ccitt80Checksums[i]) == i
  {
    match i
    case 48 =>
    case 49 =>
    case 50 =>
    case 51 =>
    case 52 =>
    case 53 =>
    case 54 =>
    case 55 =>
    case 56 =>
    case 57 =>
    case 58 =>
    case 59 =>
    case 60 =>
    case 61 =>
    case 62 =>
    case 63 =>
    case 64 =>
    case 65 =>
    case 66 =>
    case 67 =>
    case 68 =>
    case 69 =>
    case 70 =>
    case 71 =>
  }

  lemma Ccitt80PositionsPart3(i: nat)
    requires 72 <= i < 96
    ensures |Ccitt80Checksums| == 96 && Ccitt80Position(Ccitt80Checksums[i]) == i
  {
    match i
    case 72 =>
    case 73 =>
    case 74 =>
    case 75 =>
    case 76 =>
    case 77 =>
    case 78 =>
    case 79 =>
    case 80 =>
    case 81 =>
    case 82 =>
    case 83 =>
    case 84 =>
    case 85 =>
    case 86 =>
    case 87 =>
    case 88 =>
    case 89 =>
    case 90 =>
    case 91 =>
    case 92 =>
    case 93 =>
    case 94 =>
    case 95 =>
  }

  lemma Crc9EntriesPart0(i: nat)
    requires 0 <= i < 27
    ensures |Crc9Checksums| == 135 && 0 < Crc9Checksums[i] < 0x1FF
  {
    match i
    case 0 =>
    case 1 =>
    case 2 =>
    case 3 =>
    case 4 =>
    case 5 =>
    case 6 =>
    case 7 =>
    case 8 =>
    case 9 =>
    case 10 =>
    case 11 =>
    case 12 =>
    case 13 =>
    case 14 =>
    case 15 =>
    case 16 =>
    case 17 =>
    case 18 =>
    case 19 =>
    case 20 =>
    case 21 =>
    case 22 =>
    case 23 =>
    case 24 =>
    case 25 =>
    case 26 =>
  }

  lemma Crc9EntriesPart1(i: nat)
    requires 27 <= i < 54
    ensures |Crc9Checksums| == 135 && 0 < Crc9Checksums[i] < 0x1FF
  {
    match i
    case 27 =>
    case 28 =>
    case 29 =>
    case 30 =>
    case 31 =>
    case 32 =>
    case 33 =>
    case 34 =>
    case 35 =>
    case 36 =>
    case 37 =>
    case 38 =>
    case 39 =>
    case 40 =>
    case 41 =>
    case 42 =>
    case 43 =>
    case 44 =>
    case 45 =>
    case 46 =>
    case 47 =>
    case 48 =>
    case 49 =>
    case 50 =>
    case 51 =>
    case 52 =>
    case 53 =>
  }

  lemma Crc9EntriesPart2(i: nat)
    requires 54 <= i < 81
    ensures |Crc9Checksums| == 135 && 0 < Crc9Checksums[i] < 0x1FF
  {
    match i
    case 54 =>
    case 55 =>
    case 56 =>
    case 57 =>
    case 58 =>
    case 59 =>
    case 60 =>
    case 61 =>
    case 62 =>
    case 63 =>
    case 64 =>
    case 65 =>
    case 66 =>
    case 67 =>
    case 68 =>
    case 69 =>
    case 70 =>
    case 71 =>
    case 72 =>
    case 73 =>
    case 74 =>
    case 75 =>
    case 76 =>
    case 77 =>
    case 78 =>
    case 79 =>
    case 80 =>
  }

  lemma Crc9EntriesPart3(i: nat)
    requires 81 <= i < 108
    ensures |Crc9Checksums| == 135 && 0 < Crc9Checksums[i] < 0x1FF
  {
    match i
    case 81 =>
    case 82 =>
    case 83 =>
    case 84 =>
    case 85 =>
    case 86 =>
    case 87 =>
    case 88 =>
    case 89 =>
    case 90 =>
    case 91 =>
    case 92 =>
    case 93 =>
    case 94 =>
    case 95 =>
    case 96 =>
    case 97 =>
    case 98 =>
    case 99 =>
    case 100 =>
    case 101 =>
    case 102 =>
    case 103 =>
    case 104 =>
    case 105 =>
    case 106 =>
    case 107 =>
  }

  lemma Crc9EntriesPart4(i: nat)
    requires 108 <= i < 135
    ensures |Crc9Checksums| == 135 && 0 < Crc9Checksums[i] < 0x1FF
  {
    match i
    case 108 =>
    case 109 =>
    case 110 =>
    case 111 =>
    case 112 =>
    case 113 =>
    case 114 =>
    case 115 =>
    case 116 =>
    case 117 =>
    case 118 =>
    case 119 =>
    case 120 =>
    case 121 =>
    case 122 =>
    case 123 =>
    case 124 =>
    case 125 =>
    case 126 =>
    case 127 =>
    case 128 =>
    case 129 =>
    case 130 =>
    case 131 =>
    case 132 =>
    case 133 =>
    case 134 =>
  }

  /** Each entry of the CCITT table is found again at its own position. */
  lemma Ccitt80Locates(i: nat)
    requires i < |Ccitt80Checksums|
    ensures Ccitt80Position(Ccitt80Checksums[i]) == i
  {
    if i < 24 {
      Ccitt80PositionsPart0(i);
    } else if i < 48 {
      Ccitt80PositionsPart1(i);
    } else if i < 72 {
      Ccitt80PositionsPart2(i);
    } else {
      Ccitt80PositionsPart3(i);
    }
  }

  /** The CCITT entries are pairwise distinct, so a match locates one bit. */
  lemma Ccitt80Distinct(i: nat, j: nat)
    requires i < |Ccitt80Checksums| && j < |Ccitt80Checksums|
    requires Ccitt80Checksums[i] == Ccitt80Checksums[j]
    ensures i == j
  {
    Ccitt80Locates(i);
    Ccitt80Locates(j);
  }

  /**
   * No CCITT entry is the 16-bit complement of another (or of itself): an
   * entry Xor 0xFFFF is never in the table.
   */
  lemma Ccitt80NoComplement(i: nat, k: nat)
    requires i < |Ccitt80Checksums| && k < |Ccitt80Checksums|
    ensures Ccitt80Checksums[i] < 0x1_0000 && Ccitt80Checksums[k] != 0xFFFF - Ccitt80Checksums[i]
  {
    if i < 24 {
      Ccitt80ComplementsPart0(i);
    } else if i < 48 {
      Ccitt80ComplementsPart1(i);
    } else if i < 72 {
      Ccitt80ComplementsPart2(i);
    } else {
      Ccitt80ComplementsPart3(i);
    }
    Ccitt80Locates(k);
  }

  lemma Ccitt80ComplementsPart0(i: nat)
    requires 0 <= i < 24
    ensures |Ccitt80Checksums| == 96 && Ccitt80Checksums[i] < 0x1_0000
    ensures Ccitt80Position(0xFFFF - Ccitt80Checksums[i]) == -1
  {
    match i
    case 0 =>
    case 1 =>
    case 2 =>
    case 3 =>
    case 4 =>
    case 5 =>
    case 6 =>
    case 7 =>
    case 8 =>
    case 9 =>
    case 10 =>
    case 11 =>
    case 12 =>
    case 13 =>
    case 14 =>
    case 15 =>
    case 16 =>
    case 17 =>
    case 18 =>
    case 19 =>
    case 20 =>
    case 21 =>
    case 22 =>
    case 23 =>
  }

  lemma Ccitt80ComplementsPart1(i: nat)
    requires 24 <= i < 48
    ensures |Ccitt80Checksums| == 96 && Ccitt80Checksums[i] < 0x1_0000
    ensures Ccitt80Position(0xFFFF - Ccitt80Checksums[i]) == -1
  {
    match i
    case 24 =>
    case 25 =>
    case 26 =>
    case 27 =>
    case 28 =>
    case 29 =>
    case 30 =>
    case 31 =>
    case 32 =>
    case 33 =>
    case 34 =>
    case 35 =>
    case 36 =>
    case 37 =>
    case 38 =>
    case 39 =>
    case 40 =>
    case 41 =>
    case 42 =>
    case 43 =>
    case 44 =>
    case 45 =>
    case 46 =>
    case 47 =>
  }

  lemma Ccitt80ComplementsPart2(i: nat)
    requires 48 <= i < 72
    ensures |Ccitt80Checksums| == 96 && Ccitt80Checksums[i] < 0x1_0000
    ensures Ccitt80Position(0xFFFF - Ccitt80Checksums[i]) == -1
  {
    match i
    case 48 =>
    case 49 =>
    case 50 =>
    case 51 =>
    case 52 =>
    case 53 =>
    case 54 =>
    case 55 =>
    case 56 =>
    case 57 =>
    case 58 =>
    case 59 =>
    case 60 =>
    case 61 =>
    case 62 =>
    case 63 =>
    case 64 =>
    case 65 =>
    case 66 =>
    case 67 =>
    case 68 =>
    case 69 =>
    case 70 =>
    case 71 =>
  }

  lemma Ccitt80ComplementsPart3(i: nat)
    requires 72 <= i < 96
    ensures |Ccitt80Checksums| == 96 && Ccitt80Checksums[i] < 0x1_0000
    ensures Ccitt80Position(0xFFFF - Ccitt80Checksums[i]) == -1
  {
    match i
    case 72 =>
    case 73 =>
    case 74 =>
    case 75 =>
    case 76 =>
    case 77 =>
    case 78 =>
    case 79 =>
    case 80 =>
    case 81 =>
    case 82 =>
    case 83 =>
    case 84 =>
    case 85 =>
    case 86 =>
    case 87 =>
    case 88 =>
    case 89 =>
    case 90 =>
    case 91 =>
    case 92 =>
    case 93 =>
    case 94 =>
    case 95 =>
  }

  /**
   * No CCITT entry is 0 or 0xFFFF, the two residuals that pass, so a single
   * error is never taken for a clean message.
   */
  lemma Ccitt80NeverPasses(i: nat)
    requires i < |Ccitt80Checksums|
    ensures Ccitt80Checksums[i] != 0 && Ccitt80Checksums[i] != 0xFFFF
  {
    Ccitt80Locates(i);
    assert Ccitt80Position(0) == -1 && Ccitt80Position(0xFFFF) == -1;
  }

  /** The entries for checksum bit j (positions 80 to 95) are 2^j, lowest first. */
  lemma Ccitt80ChecksumEntries(j: nat)
    requires j < 16
    ensures |Ccitt80Checksums| == 96 && Ccitt80Checksums[80 + j] == Pow2(j)
  {
    Pow2Small();
    match j
    case 0 =>
    case 1 =>
    case 2 =>
    case 3 =>
    case 4 =>
    case 5 =>
    case 6 =>
    case 7 =>
    case 8 =>
    case 9 =>
    case 10 =>
    case 11 =>
    case 12 =>
    case 13 =>
    case 14 =>
    case 15 =>
  }

  /** Every CRC-9 entry lies strictly between 0 and 0x1FF, the two residuals that pass. */
  lemma Crc9NeverPasses(i: nat)
    requires i < |Crc9Checksums|
    ensures 0 < Crc9Checksums[i] < 0x1FF
  {
    if i < 27 {
      Crc9EntriesPart0(i);
    } else if i < 54 {
      Crc9EntriesPart1(i);
    } else if i < 81 {
      Crc9EntriesPart2(i);
    } else if i < 108 {
      Crc9EntriesPart3(i);
    } else {
      Crc9EntriesPart4(i);
    }
  }

  /**
   * The table the decoder evidently intends: the same 80 message entries,
   * followed by the checksum entries in the order the checksum is read,
   * most significant bit first (position 80 + j holds 2^(15 - j)).
   */
  const Ccitt80ChecksumsIntended: seq<nat> :=
    Ccitt80Checksums[..80] + seq(16, j requires 0 <= j < 16 => Pow2(15 - j))

  /** The intended table's checksum entries. */
  lemma IntendedChecksumEntries(j: nat)
    requires j < 16
    ensures |Ccitt80ChecksumsIntended| == 96 && Ccitt80ChecksumsIntended[80 + j] == Pow2(15 - j)
  { }

  /** The position of v in the intended table, or -1: the CCITT table's position, mirrored on the checksum entries. */
  ghost function IntendedPosition(v: int): int
  {
    var r := Ccitt80Position(v);
    if r >= 80 then 175 - r else r
  }

  lemma IntendedLocates(i: nat)
    requires i < |Ccitt80ChecksumsIntended|
    ensures IntendedPosition(Ccitt80ChecksumsIntended[i]) == i
  {
    if i < 80 {
      Ccitt80Locates(i);
    } else {
      IntendedChecksumEntries(i - 80);
      Ccitt80ChecksumEntries(95 - i);
      Ccitt80Locates(175 - i);
    }
  }

  /** The intended entries are pairwise distinct too. */
  lemma IntendedDistinct(i: nat, j: nat)
    requires i < |Ccitt80ChecksumsIntended| && j < |Ccitt80ChecksumsIntended|
    requires Ccitt80ChecksumsIntended[i] == Ccitt80ChecksumsIntended[j]
    ensures i == j
  {
    IntendedLocates(i);
    IntendedLocates(j);
  }

  /** No intended entry is 0 or 0xFFFF. */
  lemma IntendedNeverPasses(i: nat)
    requires i < |Ccitt80ChecksumsIntended|
    ensures Ccitt80ChecksumsIntended[i] != 0 && Ccitt80ChecksumsIntended[i] != 0xFFFF
  {
    if i < 80 {
      Ccitt80NeverPasses(i);
    } else {
      IntendedChecksumEntries(i - 80);
      Ccitt80ChecksumEntries(95 - i);
      Ccitt80NeverPasses(175 - i);
    }
  }
}
