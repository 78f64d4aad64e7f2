# DMR CRC correction, P25 Phase 2 MAC opcodes and the DMR frame envelope

This project is a Dafny model of three cooperating pieces of the sdrtrunk
trunked-radio decoder, with proofs about them.

- **CRCDMR** does table-driven CRC checking for DMR.
  - `correctCCITT80` has two overloads. Each walks the set bits of an 80-bit
    message and Xors in one precomputed syndrome per set bit. It compares the
    result with the 16-bit CRC-CCITT checksum that follows the message. A
    residual of 0 or 0xFFFF passes. A residual found in the table flips that
    one bit. Anything else fails.
  - The `BinaryMessage` overload starts from 0 and records a CRC status.
  - The `CorrectedBinaryMessage` overload starts from a mask. It returns 0, 1
    or 2 and adds that number to the corrected-bit count.
  - `calculate` is the same set-bit loop from 0, over a table of longs.
  - `checkCRC9` is detect-only. It runs over a 144-bit confirmed-data block
    whose 9-bit checksum sits at bits 7 to 15, so later bits use the table
    shifted by 9.
  - `getIntChecksum` reads the checksum and `getBitError` is the linear search
    of the table.
  - `crc8` does bit-by-bit long division by x^8 + x^2 + x + 1 in a 256-cell
    buffer.
- **MacOpcode** is the P25 Phase 2 MAC opcode registry (the opcode partitions
  of TIA-102.BBAD).
  - It is a closed enumeration of (value, label, length) constants.
  - `LOOKUP_MAP` indexes every constant whose value is not -1.
  - `fromValue` is a total lookup. It tries an exact match first, then the
    unknown-opcode constant of one of four 64-value partitions, then
    `UNKNOWN`.
- **DMRMessage** is the 288-bit DMR frame: a 24-bit prefix plus a 264-bit
  frame, with its layout constants. The sync pattern decides whether a Common
  Announcement Channel (CACH) is present. The CACH view is built on first
  request and kept.

Modules and files:

| file | module | contents |
|---|---|---|
| `xor.dfy` | `BitwiseXor` | Xor on the unsigned bit patterns of Java ints (`^`), powers of two |
| `bits.dfy` | `BinaryMessages` | the bit buffer the routines use: `nextSetBit`, `getInt`, `flip`, the CRC status and the corrected-bit count |
| `crc_tables.dfy` | `CRCTables` | `CCITT_80_CHECKSUMS` and `CRC9_CHECKSUMS`, and the facts about their entries |
| `syndromes.dfy` | `Syndromes` | what the set-bit loops accumulate, as functions of the bits |
| `division.dfy` | `PolynomialDivision` | long division over GF(2), the reference for `crc8` |
| `crc_dmr.dfy` | `CRCDMR` | the operations of CRCDMR.java and what the checks achieve on codewords |
| `mac_opcode.dfy` | `MacOpcodes` | the registry and its lookup |
| `dmr_message.dfy` | `DMR` | the frame envelope and its memoised CACH view |

A Java int is modelled by its 32-bit pattern read as a natural number. The
table entries, thresholds and residuals that are compared are all
non-negative, so the comparisons mean the same thing on patterns as on Java
ints.

The CRC operations are methods over the `BinaryMessage` class, with loops and
their invariants. `crc8` keeps its `boolean[256]` buffer as an array. Each
method is specified by the functions it computes, and what the checks achieve
is proved about those functions.

The registry is pure. Each enum constant is a value carrying its ordinal,
value, label and length. `values()` is the sequence of the 67 constants. The
static initializer's loop is the function `Index` over that sequence.
`Assigned` is an independent reference that lists, partition by partition,
which constant each value names.

`DMRMessage` is a class. Its sync pattern and buffer are immutable, and its
CACH field is assigned on first use.

Notes on what the code does:

- **CRC-9 initial fill.** The CRC-9 accumulator starts at 0, although the
  source comment speaks of an initial fill of all ones.
- **CCITT seed.** The `BinaryMessage` overload always starts its accumulator
  from 0. The other overload starts from the caller's mask.
- **Status and count.** The `BinaryMessage` overload only records a status
  and never touches the corrected-bit count. The masked overload only changes
  the count and records no status.
- **Single-bit errors.** Not every single-bit error is corrected.
  - A single error in one of the 16 checksum bits is "corrected" at the wrong
    bit (see Findings).
  - A codeword whose residual is 0xFFFF also passes. No single error in such
    a codeword is ever located: the residual becomes 0xFFFF Xor an entry, and
    no entry equals that, so all 96 single errors come out uncorrectable
    (`CRCDMR.ComplementErrorUncorrectable`).
- **Table checks.** The code performs no start-up check of its tables or of
  the opcode values. Instead, the model proves that the two CCITT tables and
  the opcode values are pairwise distinct, and that no CRC-9 entry is a
  passing residual.

## Model

| member | source | states |
|---|---|---|
| CRCDMR.GetBitError | src/main/java/io/github/dsheirer/edac/CRCDMR.java:257-268 | returns the smallest index whose entry equals the checksum error, or -1 exactly when no entry does; the result lies in [-1, length) |
| CRCDMR.FirstIndex | src/main/java/io/github/dsheirer/edac/CRCDMR.java:257-268 | the reference for the search: a position that holds the value with no earlier one that does, or -1 when no position holds it |
| CRCDMR.Decide | src/main/java/io/github/dsheirer/edac/CRCDMR.java:93-117 | the verdict on a residual; its behaviour is stated by DecideRule: clean exactly for 0 and 0xFFFF, otherwise the first matching table position, uncorrectable exactly when no entry matches |
| CRCDMR.DecideRule | src/main/java/io/github/dsheirer/edac/CRCDMR.java:93-117 | the verdict on a residual: clean exactly for 0 and 0xFFFF; otherwise the first matching table position; uncorrectable exactly when no entry matches |
| BinaryMessages.NextSetBit | src/main/java/io/github/dsheirer/edac/CRCDMR.java:84-86 | the next set position at or after from, every position skipped being clear, or -1 when no set bit follows |
| CRCDMR.AccumulateSetBits | src/main/java/io/github/dsheirer/edac/CRCDMR.java:146-152 | the set-bit loop yields the seed Xor the entries of exactly the set bits in [start, limit), and every table index it uses is in bounds when limit - start is at most the table length |
| CRCDMR.Calculate | src/main/java/io/github/dsheirer/edac/CRCDMR.java:128-139 | the loop keeps the low 32 bits after every `int ^= long` step, and its result is the low 32 bits of the Xor, from 0, of the long entries of the set bits in [start, length); the bits between the end of the table and length must be clear, since a set bit there would index past the table |
| CRCDMR.SyndromeLowWord | src/main/java/io/github/dsheirer/edac/CRCDMR.java:133-135 | Xor-ing the long entries and keeping the low 32 bits at the end gives the same value as Xor-ing the entries truncated to ints, so truncating after every `int ^= long` step loses nothing |
| CRCDMR.GetIntChecksum | src/main/java/io/github/dsheirer/edac/CRCDMR.java:232-236 | the checksum read is below 2^crcLength and is 0 when its bits are clear |
| CRCDMR.ChecksumBitWeight | src/main/java/io/github/dsheirer/edac/CRCDMR.java:232-236 | the checksum is read most significant bit first: flipping its bit k changes the value by Xor with 2^(last - k) |
| CRCDMR.ChecksumAgree | src/main/java/io/github/dsheirer/edac/CRCDMR.java:232-236 | the checksum read depends only on the checksum bits |
| CRCDMR.CorrectCCITT80With | src/main/java/io/github/dsheirer/edac/CRCDMR.java:79-118 | from seed 0: records PASSED and changes nothing for residual 0 or 0xFFFF; flips exactly bit messageStart + p and records CORRECTED when the residual is entry p; records FAILED_CRC and changes no bit otherwise; returns the same message |
| CRCDMR.CorrectCCITT80 | src/main/java/io/github/dsheirer/edac/CRCDMR.java:79-118 | the same, over CCITT_80_CHECKSUMS |
| CRCDMR.CorrectCCITT80MaskedWith | src/main/java/io/github/dsheirer/edac/CRCDMR.java:144-178 | from the mask: returns 0 and changes nothing on a pass; flips exactly bit messageStart + p and returns 1 on a match at p; returns 2 and flips nothing otherwise; the corrected-bit count rises by exactly the value returned |
| CRCDMR.CorrectCCITT80Masked | src/main/java/io/github/dsheirer/edac/CRCDMR.java:144-178 | the same, over CCITT_80_CHECKSUMS |
| CRCDMR.CheckCRC9With | src/main/java/io/github/dsheirer/edac/CRCDMR.java:187-218 | PASSED exactly when the accumulator (bits before messageStart + 7 at index i - messageStart, bits after messageStart + 15 at index i - messageStart - 9, checksum bits skipped) Xor the 9-bit checksum is 0 or 0x1FF, else FAILED_CRC; the message is only read and every index is in bounds |
| CRCDMR.CheckCRC9 | src/main/java/io/github/dsheirer/edac/CRCDMR.java:187-218 | the same, over CRC9_CHECKSUMS |
| CRCDMR.Crc8 | src/main/java/io/github/dsheirer/edac/CRCDMR.java:270-289 | 0 when len + 8 > 256; otherwise the remainder of the first len bits times x^8 divided by the generator, read most significant bit first; always below 256; the message is only read and every buffer index is in bounds |
| CRCDMR.CopyPrefix | src/main/java/io/github/dsheirer/edac/CRCDMR.java:278-280 | the copy loop leaves the first len message bits in the cleared buffer and nothing else |
| CRCDMR.DivideRows | src/main/java/io/github/dsheirer/edac/CRCDMR.java:281-284 | the outer loop carries out rows 0 to len - 1 of the long division of the buffer |
| CRCDMR.ReadRemainder | src/main/java/io/github/dsheirer/edac/CRCDMR.java:285-287 | the read-out loop shifts the eight cells after row len - 1 in at the low end |
| CRCDMR.SubtractGenerator | src/main/java/io/github/dsheirer/edac/CRCDMR.java:282-284 | the inner loop over the nine coefficients carries out exactly one row of the long division |
| CRCDMR.RemainderRead | src/main/java/io/github/dsheirer/edac/CRCDMR.java:285-287 | the eight bits shifted out after the division are the remainder, a value below 256 |
| CRCDMR.ShiftedInIsPack | src/main/java/io/github/dsheirer/edac/CRCDMR.java:285-287 | `crc = (crc << 1) + bit` over n bits reads them most significant bit first |
| CRCDMR.Crc8IsRemainder | src/main/java/io/github/dsheirer/edac/CRCDMR.java:278-289 | the division clears all len message rows, leaves every cell past the remainder as copied, and removes a multiple of the generator, so the result is the remainder modulo x^8 + x^2 + x + 1 |
| CRCDMR.Crc8ReadsOnlyPrefix | src/main/java/io/github/dsheirer/edac/CRCDMR.java:278-280 | two messages that agree on bits [0, len) get the same crc8 |
| PolynomialDivision.DivisionSubtractsMultiple | src/main/java/io/github/dsheirer/edac/CRCDMR.java:281-284 | what the rows remove from the dividend is the quotient times the generator |
| PolynomialDivision.DivisionClearsRows | src/main/java/io/github/dsheirer/edac/CRCDMR.java:281-284 | after rows i to len - 1 every row below len is clear |
| PolynomialDivision.DivisionKeepsTail | src/main/java/io/github/dsheirer/edac/CRCDMR.java:281-284 | no row reaches past position len + 7 |
| Syndromes.SyndromeFlip | src/main/java/io/github/dsheirer/edac/CRCDMR.java:84-89 | a single-bit error at message position p moves the accumulator by exactly entry p - messageStart |
| Syndromes.SyndromeBound | src/main/java/io/github/dsheirer/edac/CRCDMR.java:133-135 | entries below 2^w give an accumulator below 2^w |
| Syndromes.Crc9SyndromeFlip | src/main/java/io/github/dsheirer/edac/CRCDMR.java:192-206 | an error in a CRC-9 data bit moves the accumulator by that bit's entry; an error in a checksum bit leaves it as it was |
| CRCTables.Ccitt80Distinct | src/main/java/io/github/dsheirer/edac/CRCDMR.java:37-50 | the 96 CCITT entries are pairwise distinct, so a match locates one bit |
| CRCTables.Ccitt80Locates | src/main/java/io/github/dsheirer/edac/CRCDMR.java:37-50 | each CCITT entry is found again at its own position |
| CRCTables.Ccitt80NeverPasses | src/main/java/io/github/dsheirer/edac/CRCDMR.java:37-50 | no CCITT entry is 0 or 0xFFFF |
| CRCTables.Ccitt80ChecksumEntries | src/main/java/io/github/dsheirer/edac/CRCDMR.java:47-49 | entry 80 + j is 2^j: the checksum entries run from the least significant bit up |
| CRCTables.Crc9NeverPasses | src/main/java/io/github/dsheirer/edac/CRCDMR.java:57-73 | every one of the 135 CRC-9 entries lies strictly between 0 and 0x1FF |
| CRCDMR.ResidualFlip | src/main/java/io/github/dsheirer/edac/CRCDMR.java:79-93 | a single-bit error at codeword position p moves the residual by entry p for a message bit, and by 2^(95 - p) for a checksum bit |
| CRCDMR.SingleErrorDetected | src/main/java/io/github/dsheirer/edac/CRCDMR.java:93-100 | a single-bit error anywhere in a passing 96-bit codeword is never taken for a clean one |
| CRCDMR.CorrectedWith | src/main/java/io/github/dsheirer/edac/CRCDMR.java:103-111 | with any table that decides an error's pattern as its own position, that single error is located and undone |
| CRCDMR.PayloadErrorCorrected | src/main/java/io/github/dsheirer/edac/CRCDMR.java:103-111 | a single-bit error among the 80 message bits of a codeword with residual 0 is located at its own position |
| CRCDMR.RepairUndoes | src/main/java/io/github/dsheirer/edac/CRCDMR.java:107 | flipping back the bit the error hit restores the codeword |
| CRCDMR.ComplementErrorUncorrectable | src/main/java/io/github/dsheirer/edac/CRCDMR.java:93-117 | in a codeword that passes with residual 0xFFFF, every one of the 96 single-bit errors is declared uncorrectable: none is located |
| CRCDMR.TwoErrorsWith | src/main/java/io/github/dsheirer/edac/CRCDMR.java:79-117 | two errors leave the Xor of their patterns as the residual |
| CRCDMR.DoubleErrorUncorrectable | src/main/java/io/github/dsheirer/edac/CRCDMR.java:164-177 | errors at message bits 5 and 40 leave a residual that no entry matches, so the check declares the message uncorrectable |
| CRCDMR.ChecksumErrorMiscorrected | src/main/java/io/github/dsheirer/edac/CRCDMR.java:103-109 | as written, a single error in checksum bit j is "corrected" at codeword bit 95 - j |
| CRCDMR.MiscorrectedWith | src/main/java/io/github/dsheirer/edac/CRCDMR.java:103-109 | the miscorrection for any table that holds 2^(15 - j) at position 95 - j |
| CRCDMR.Ccitt80ChecksumTail | src/main/java/io/github/dsheirer/edac/CRCDMR.java:47-49 | position 95 - j holds 2^(15 - j), the weight of checksum bit j, and the search finds it there |
| CRCDMR.MiscorrectionDamages | src/main/java/io/github/dsheirer/edac/CRCDMR.java:107 | the repair after such a miscorrection leaves the erroneous bit wrong and breaks a good one |
| CRCDMR.ChecksumErrorExample | src/main/java/io/github/dsheirer/edac/CRCDMR.java:79-118 | 96 clear bits with only bit 80 set make the check flip bit 95 |
| CRCDMR.IntendedCorrectsEverySingleError | src/main/java/io/github/dsheirer/edac/CRCDMR.java:37-50 | with checksum entries in read order, every single-bit error of the 96-bit codeword is located at its own position |
| CRCDMR.IntendedPatternFound | src/main/java/io/github/dsheirer/edac/CRCDMR.java:37-50 | in that table the error pattern of every codeword bit is found at that bit |
| CRCDMR.IntendedResidualAgrees | src/main/java/io/github/dsheirer/edac/CRCDMR.java:37-50 | the intended table gives every message the same residual as the table as written: the two differ only in the checksum entries, which the set-bit loop never reaches |
| CRCDMR.CorrectCCITT80MaskedIntended | src/main/java/io/github/dsheirer/edac/CRCDMR.java:144-178 | the masked check over that table, with the same contract as the masked check |
| CRCDMR.Crc9DetectsEverySingleError | src/main/java/io/github/dsheirer/edac/CRCDMR.java:187-218 | a single-bit error anywhere in a passing 144-bit block, data or checksum, makes checkCRC9 fail |
| CRCDMR.Crc9DataFlip | src/main/java/io/github/dsheirer/edac/CRCDMR.java:196-205 | an error in a data bit moves the CRC-9 residual by that bit's entry |
| CRCDMR.Crc9ChecksumFlip | src/main/java/io/github/dsheirer/edac/CRCDMR.java:208-210 | an error in checksum bit p moves the CRC-9 residual by 2^(messageStart + 15 - p) |
| MacOpcodes.IndexKeys | src/main/java/io/github/dsheirer/module/decode/p25/phase2/message/mac/MacOpcode.java:108-117 | the map's keys are exactly the values other than -1 of the constants walked |
| MacOpcodes.Index | src/main/java/io/github/dsheirer/module/decode/p25/phase2/message/mac/MacOpcode.java:108-117 | the static initializer's loop that builds LOOKUP_MAP; stated by IndexKeys (the keys are exactly the walked values other than -1), IndexSound (each key names a walked constant with that value) and ValuesDistinct (no put overwrites another) |
| MacOpcodes.FromValue | src/main/java/io/github/dsheirer/module/decode/p25/phase2/message/mac/MacOpcode.java:160-186 | fromValue; stated by FromValueSpec (exact match, then the four partition fallbacks, then UNKNOWN), RoundTrip, VendorPartition, OutsideRegistry, NoValueNeverIndexed and ConcreteLookups |
| MacOpcodes.MacOpcode.IsVariableLength | src/main/java/io/github/dsheirer/module/decode/p25/phase2/message/mac/MacOpcode.java:152-155 | isVariableLength, true exactly for length Integer.MIN_VALUE; stated by VariableLengthExactly (exactly TDMA_17 and TDMA_18) and ConcreteLookups |
| MacOpcodes.MacOpcode.ToString | src/main/java/io/github/dsheirer/module/decode/p25/phase2/message/mac/MacOpcode.java:131-134 | toString gives the label the constant is declared with; stated by FallbackDeclarations for the fallback constants |
| MacOpcodes.IndexSound | src/main/java/io/github/dsheirer/module/decode/p25/phase2/message/mac/MacOpcode.java:108-117 | the map sends a key only to a constant walked that has that value |
| MacOpcodes.AssignedSound | src/main/java/io/github/dsheirer/module/decode/p25/phase2/message/mac/MacOpcode.java:33-104 | the reference names, for a value, only a listed constant declared with that value |
| MacOpcodes.AssignedComplete | src/main/java/io/github/dsheirer/module/decode/p25/phase2/message/mac/MacOpcode.java:33-104 | every listed constant with a value other than -1 is the one the reference names for it |
| MacOpcodes.ValuesDistinct | src/main/java/io/github/dsheirer/module/decode/p25/phase2/message/mac/MacOpcode.java:110-115 | two listed constants with the same value other than -1 are the same constant, so no `put` overwrites another |
| MacOpcodes.ExactLookup | src/main/java/io/github/dsheirer/module/decode/p25/phase2/message/mac/MacOpcode.java:162-166 | the exact lookup succeeds precisely on the declared values, each mapped to its constant |
| MacOpcodes.NoValueNeverIndexed | src/main/java/io/github/dsheirer/module/decode/p25/phase2/message/mac/MacOpcode.java:112-115 | -1 is never a key, so exact lookup never returns a constant declared with -1, and fromValue(-1) is UNKNOWN |
| MacOpcodes.FromValueSpec | src/main/java/io/github/dsheirer/module/decode/p25/phase2/message/mac/MacOpcode.java:160-186 | fromValue returns the constant declared with the value; for an undeclared value, the unknown-opcode constant of its partition (0-63, 64-127, 128-191, 192-255); UNKNOWN outside [0, 255]; always a listed constant |
| MacOpcodes.RoundTrip | src/main/java/io/github/dsheirer/module/decode/p25/phase2/message/mac/MacOpcode.java:160-166 | every constant with a value other than -1 is found again from that value |
| MacOpcodes.VendorPartition | src/main/java/io/github/dsheirer/module/decode/p25/phase2/message/mac/MacOpcode.java:176-179 | no opcode is declared in 128-191, so every value there gives VENDOR_PARTITION_2_UNKNOWN_OPCODE |
| MacOpcodes.OutsideRegistry | src/main/java/io/github/dsheirer/module/decode/p25/phase2/message/mac/MacOpcode.java:180-185 | every value outside [0, 255] gives UNKNOWN |
| MacOpcodes.VariableLengthExactly | src/main/java/io/github/dsheirer/module/decode/p25/phase2/message/mac/MacOpcode.java:152-155 | a listed constant is variable-length (length Integer.MIN_VALUE) exactly when it is TDMA_17 or TDMA_18 |
| MacOpcodes.ConcreteLookups | src/main/java/io/github/dsheirer/module/decode/p25/phase2/message/mac/MacOpcode.java:160-171 | fromValue(17) is TDMA_17 and variable-length; fromValue(70) has length 9; fromValue(60) and fromValue(4) are the partition-0 fallback |
| MacOpcodes.FallbackDeclarations | src/main/java/io/github/dsheirer/module/decode/p25/phase2/message/mac/MacOpcode.java:123-147 | the getters give back the constructor's arguments: the fallbacks, the push-to-talk constants and UNKNOWN carry -1, and the extended partition's fallback has length 1 |
| DMR.DMRMessage.constructor | src/module/decode/dmr/message/DMRMessage.java:41-45 | keeps the sync pattern and the message, with no CACH view built yet |
| DMR.DMRMessage.GetCACH | src/module/decode/dmr/message/DMRMessage.java:51-59 | null, with nothing built, when the sync pattern has no CACH; otherwise a new view of the frame's own message on the first call and that same object on every later one; the message is not changed |
| DMR.DMRMessage.HasCACH | src/module/decode/dmr/message/DMRMessage.java:64-67 | hasCACH is the sync pattern's flag and reads nothing else; GetCACH's contract ties the CACH view to it |
| DMR.DMRMessage.GetProtocol | src/module/decode/dmr/message/DMRMessage.java:70-73 | the protocol name; CACHMemoised states that a frame names its protocol "DMR" |
| DMR.DMRMessage.GetSyncPattern | src/module/decode/dmr/message/DMRMessage.java:78-81 | the sync pattern the frame was built with; stated by CACHMemoised |
| DMR.DMRMessage.GetTransmittedMessage | src/module/decode/dmr/message/DMRMessage.java:86-89 | the buffer the frame was built with; stated by CACHMemoised |
| DMR.CACHMemoised | src/module/decode/dmr/message/DMRMessage.java:51-89 | a frame gives back its sync pattern and message and the protocol name "DMR"; two CACH requests return the same object, non-null exactly when the sync pattern has a CACH |

## Left out

- The logger `mLog` is left out, as is all I/O.
- The `long` overloads `getBitError(long, long[])` and `getLongChecksum` are left out. They repeat the int logic that `GetBitError` and `GetIntChecksum` model.
- `CRCUtil.generate` is not part of this model. The two tables are the constants as written, and their properties are proved over those constants.
- The implementations of `BinaryMessage`, `CorrectedBinaryMessage`, `CACH`, `DMRSyncPattern` and the `Message` superclass are not part of this model.
  - The buffer keeps only the operations the routines use.
  - The sync pattern is reduced to its `hasCACH` flag.
  - The CACH view is reduced to the message it is built from.
- `DMRMessage` is abstract in Java. The model is a concrete class with the same fields, because the subclasses are not part of this model.
- Thread safety of the memoised CACH view is left out.
- The layout constants `PAYLOAD_1_START`, `SYNC_START` and `PAYLOAD_2_START` are declared with their values in `DMR`. Nothing in DMRMessage reads them, so no member states anything about them.
- CRCDMR.CorrectCCITT80: requires crcStart - messageStart <= 96 and a buffer of at least messageStart + 96 bits. With crcStart further out, Java throws an index exception only when a set bit lies at or past messageStart + 96, and runs normally when those bits are clear; the model excludes both. When a flip falls beyond the buffer, Java grows the BitSet; the model excludes that too.
- CRCDMR.CorrectCCITT80Masked: carries the same requires. It also treats the mask as a 32-bit pattern.
- CRCDMR.CorrectCCITT80With: takes its table as a parameter and requires 96 entries.
  - This lets the same loop be proved once and run over either the table as written or the intended table.
  - The same holds for CRCDMR.CorrectCCITT80MaskedWith and CRCDMR.CheckCRC9With (135 entries).
- Negative positions and lengths are excluded by the `nat` types of messageStart, crcStart, start, length, from and len. On them Java throws: `nextSetBit` rejects a negative index, and crc8 with a negative len reads `buf[len + i]` below 0.
- CRCDMR.Crc8: len is unbounded. For len within 8 of 2^31, Java's `len + K` wraps around and the copy loop then throws. The model returns 0 for every len + 8 > 256.
- CRCDMR.PayloadErrorCorrected: requires residual 0, the case the tables are generated for. A codeword whose residual is 0xFFFF also passes; for it only detection is proved, by CRCDMR.SingleErrorDetected. The same holds for IntendedCorrectsEverySingleError.
- CRCDMR.PayloadErrorCorrected: also states only the outcome of the check, FlipBit(p). That the flip then restores the codeword is proved separately, for every p, by CRCDMR.RepairUndoes.
- CRCDMR.ChecksumErrorMiscorrected: the same split applies. MiscorrectionDamages states what the repair does.
- CRCDMR.IntendedCorrectsEverySingleError: the same split applies, with RepairUndoes again.
- Java's enum machinery (`values()`, `ordinal()`, `name()`) and the `TreeMap` are modelled as a sequence of records, their ordinals and a `map`.
- MacOpcodes.FallbackDeclarations: checks the getters against the declarations only for the fallback constants. For the other constants the getters are the record's fields, which hold each declaration's arguments as written.

## Findings

| source | as written | input that shows it | evidently intended | confidence | as-written member | corrected member |
|---|---|---|---|---|---|---|
| src/main/java/io/github/dsheirer/edac/CRCDMR.java:47-49 | The checksum entries 80..95 of CCITT_80_CHECKSUMS are 0x1, 0x2, ..., 0x8000, lowest bit first, while getIntChecksum (line 91) reads the checksum most significant bit first. A single error in checksum bit j therefore matches entry 95 - j, and the check flips codeword bit 95 - j instead of bit 80 + j, reporting CORRECTED with two checksum bits now wrong. | 96 clear bits (a valid codeword, residual 0) with only bit 80 set; messageStart 0, crcStart 80: the check flips bit 95 | checksum entry 80 + j equal to 2^(15 - j), in read order, so that every single error of the 96-bit codeword is undone | not executed | CRCDMR.ChecksumErrorMiscorrected | CRCDMR.IntendedCorrectsEverySingleError |

For the as-written row:

- `CRCDMR.ChecksumErrorExample` is the concrete input.
- `CRCDMR.MiscorrectionDamages` states that the resulting repair leaves the codeword wrong in two bits.

The corrected check is `CRCDMR.CorrectCCITT80MaskedIntended`, over
`CRCTables.Ccitt80ChecksumsIntended`. `CRCDMR.IntendedResidualAgrees`
shows that the correction changes no message's residual: it touches only the
checksum entries of the table.
