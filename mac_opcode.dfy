/**
 * The P25 Phase 2 MAC opcode registry (MacOpcode.java): a closed enumeration
 * of opcodes, each declared with its opcode value, its label and the length
 * of its message in octets, an index from value to opcode built once from
 * the declarations, and the total lookup fromValue over that index.
 */
module MacOpcodes {

  /** Integer.MIN_VALUE: the length declared for a variable-length message. */
  const VARIABLE_LENGTH: int := -0x8000_0000

  /** The value declared for the entries that have no opcode of their own. */
  const NO_VALUE: int := -1

  datatype Option<T> = None | Some(value: T)

  /**
   * An enum constant: its position in declaration order (Enum.ordinal), and
   * the value, label and length it is constructed with.
   */
  datatype MacOpcode = MacOpcode(ordinal: nat, value: int, text: string, length: int)
  {
    /** toString: the label. */
    function ToString(): string
    {
      text
    }

    /** isVariableLength. */
    predicate IsVariableLength()
    {
      length == VARIABLE_LENGTH
    }
  }

  /** The enum constants. */
  const PUSH_TO_TALK: MacOpcode := MacOpcode(0, -1, "PUSH-TO-TALK", -1)
  const END_PUSH_TO_TALK: MacOpcode := MacOpcode(1, -1, "END_PUSH-TO-TALK", -1)
  const TDMA_0_NULL_INFORMATION_MESSAGE: MacOpcode := MacOpcode(2, 0, "NULL INFORMATION", -1)
  const TDMA_1_GROUP_VOICE_CHANNEL_USER_ABBREVIATED: MacOpcode := MacOpcode(3, 1, "GROUP VOICE CHANNEL USER ABBREVIATED", 7)
  const TDMA_2_UNIT_TO_UNIT_VOICE_CHANNEL_USER: MacOpcode := MacOpcode(4, 2, "UNIT-TO-UNIT VOICE CHANNEL USER", 8)
  const TDMA_3_TELEPHONE_INTERCONNECT_VOICE_CHANNEL_USER: MacOpcode := MacOpcode(5, 3, "TELEPHONE INTERCONNECT VOICE CHANNEL USER", 7)
  const TDMA_5_GROUP_VOICE_CHANNEL_GRANT_UPDATE_MULTIPLE: MacOpcode := MacOpcode(6, 5, "GROUP VOICE CHANNEL GRANT UPDATE MULTIPLE", 16)
  const TDMA_17_INDIRECT_GROUP_PAGING: MacOpcode := MacOpcode(7, 17, "INDIRECT GROUP PAGING", VARIABLE_LENGTH)
  const TDMA_18_INDIVIDUAL_PAGING_MESSAGE_WITH_PRIORITY: MacOpcode := MacOpcode(8, 18, "INDIVIDUAL PAGING MESSAGE WITH PRIORITY", VARIABLE_LENGTH)
  const TDMA_33_GROUP_VOICE_CHANNEL_USER_EXTENDED: MacOpcode := MacOpcode(9, 33, "GROUP VOICE CHANNEL USER EXTENDED", 14)
  const TDMA_34_UNIT_TO_UNIT_VOICE_CHANNEL_USER_EXTENDED: MacOpcode := MacOpcode(10, 34, "UNIT-TO-UNIT VOICE CHANNEL USER EXTENDED", 15)
  const TDMA_37_GROUP_VOICE_CHANNEL_GRANT_UPDATE_MULTIPLE_EXPLICIT: MacOpcode := MacOpcode(11, 37, "TDMA GROUP VOICE CHANNEL GRANT UPDATE EXPLICIT", 15)
  const TDMA_48_POWER_CONTROL_SIGNAL_QUALITY: MacOpcode := MacOpcode(12, 48, "POWER CONTROL SIGNAL QUALITY", 5)
  const TDMA_49_MAC_RELEASE: MacOpcode := MacOpcode(13, 49, "MAC RELEASE", 7)
  const TDMA_PARTITION_0_UNKNOWN_OPCODE: MacOpcode := MacOpcode(14, -1, "UNKNOWN TDMA OPCODE", -1)
  const PHASE1_64_GROUP_VOICE_CHANNEL_GRANT_ABBREVIATED: MacOpcode := MacOpcode(15, 64, "GROUP VOICE CHANNEL GRANT ABBREVIATED", 9)
  const PHASE1_65_GROUP_VOICE_SERVICE_REQUEST: MacOpcode := MacOpcode(16, 65, "GROUP VOICE SERVICE REQUEST", 7)
  const PHASE1_66_GROUP_VOICE_CHANNEL_GRANT_UPDATE: MacOpcode := MacOpcode(17, 66, "GROUP VOICE CHANNEL GRANT UPDATE", 9)
  const PHASE1_68_UNIT_TO_UNIT_VOICE_CHANNEL_GRANT_ABBREVIATED: MacOpcode := MacOpcode(18, 68, "UNIT-TO-UNIT VOICE CHANNEL GRANT ABBREVIATED", 9)
  const PHASE1_69_UNIT_TO_UNIT_ANSWER_REQUEST_ABBREVIATED: MacOpcode := MacOpcode(19, 69, "UNIT-TO-UNIT ANSWER REQUEST ABBREVIATED", 8)
  const PHASE1_70_UNIT_TO_UNIT_VOICE_CHANNEL_GRANT_UPDATE_ABBREVIATED: MacOpcode := MacOpcode(20, 70, "UNIT-TO-UNIT VOICE CHANNEL GRANT UPDATE ABBREVIATED", 9)
  const PHASE1_74_TELEPHONE_INTERCONNECT_ANSWER_REQUEST: MacOpcode := MacOpcode(21, 74, "TELEPHONE INTERCONNECT_ANSWER REQUEST", 9)
  const PHASE1_76_RADIO_UNIT_MONITOR_COMMAND_ABBREVIATED: MacOpcode := MacOpcode(22, 76, "RADIO UNIT MONITOR COMMAND ABBREVIATED", 10)
  const PHASE1_84_SNDCP_DATA_CHANNEL_GRANT: MacOpcode := MacOpcode(23, 84, "SNDCP DATA CHANNEL GRANT", 9)
  const PHASE1_85_SNDCP_DATA_PAGE_REQUEST: MacOpcode := MacOpcode(24, 85, "SNDCP DATA PAGE REQUEST", 7)
  const PHASE1_88_STATUS_UPDATE_ABBREVIATED: MacOpcode := MacOpcode(25, 88, "STATUS UPDATE ABBREVIATED", 10)
  const PHASE1_90_STATUS_QUERY_ABBREVIATED: MacOpcode := MacOpcode(26, 90, "STATUS QUERY ABBREVIATED", 7)
  const PHASE1_92_MESSAGE_UPDATE_ABBREVIATED: MacOpcode := MacOpcode(27, 92, "MESSAGE UPDATE ABBREVIATED", 10)
  const OBSOLETE_PHASE1_93_RADIO_UNIT_MONITOR_COMMAND: MacOpcode := MacOpcode(28, 93, "RADIO UNIT MONITOR COMMAND", 8)
  const PHASE1_94_RADIO_UNIT_MONITOR_COMMAND_ENHANCED: MacOpcode := MacOpcode(29, 94, "RADIO UNIT MONITOR ENHANCED COMMAND ABBREVIATED", 14)
  const PHASE1_95_CALL_ALERT_ABBREVIATED: MacOpcode := MacOpcode(30, 95, "CALL ALERT ABBREVIATED", 7)
  const PHASE1_96_ACK_RESPONSE: MacOpcode := MacOpcode(31, 96, "ACK RESPONSE", 9)
  const PHASE1_97_QUEUED_RESPONSE: MacOpcode := MacOpcode(32, 97, "QUEUED RESPONSE", 9)
  const PHASE1_100_EXTENDED_FUNCTION_COMMAND_ABBREVIATED: MacOpcode := MacOpcode(33, 100, "EXTENDED FUNCTION COMMAND ABBREVIATED", 9)
  const PHASE1_103_DENY_RESPONSE: MacOpcode := MacOpcode(34, 103, "DENY RESPONSE", 9)
  const PHASE1_106_GROUP_AFFILIATION_QUERY_ABBREVIATED: MacOpcode := MacOpcode(35, 106, "GROUP AFFILIATION QUERY ABBREVIATED", 7)
  const PHASE1_109_UNIT_REGISTRATION_COMMAND_ABBREVIATED: MacOpcode := MacOpcode(36, 109, "UNIT REGISTRATION COMMAND ABBREVIATED", 7)
  const PHASE1_115_IDENTIFIER_UPDATE_TDMA: MacOpcode := MacOpcode(37, 115, "IDENTIFIER UPDATE TDMA", 9)
  const PHASE1_116_IDENTIFIER_UPDATE_V_UHF: MacOpcode := MacOpcode(38, 116, "IDENTIFIER UPDATE V/UHF", 9)
  const PHASE1_117_TIME_AND_DATE_ANNOUNCEMENT: MacOpcode := MacOpcode(39, 117, "TIME AND DATE ANNOUNCEMENT", 9)
  const PHASE1_120_SYSTEM_SERVICE_BROADCAST: MacOpcode := MacOpcode(40, 120, "SYSTEM SERVICE BROADCAST", 9)
  const PHASE1_121_SECONDARY_CONTROL_CHANNEL_BROADCAST_ABBREVIATED: MacOpcode := MacOpcode(41, 121, "SECONDARY CONTROL CHANNEL BROADCAST", 9)
  const PHASE1_122_RFSS_STATUS_BROADCAST_ABBREVIATED: MacOpcode := MacOpcode(42, 122, "RFSS STATUS BROADCAST ABBREVIATED", 9)
  const PHASE1_123_NETWORK_STATUS_BROADCAST_ABBREVIATED: MacOpcode := MacOpcode(43, 123, "NETWORK STATUS BROADCAST ABBREVIATED", 11)
  const PHASE1_124_ADJACENT_STATUS_BROADCAST_ABBREVIATED: MacOpcode := MacOpcode(44, 124, "ADJACENT STATUS BROADCAST ABBREVIATED", 9)
  const PHASE1_125_IDENTIFIER_UPDATE: MacOpcode := MacOpcode(45, 125, "IDENTIFIER UPDATE", 9)
  const PHASE1_PARTITION_1_UNKNOWN_OPCODE: MacOpcode := MacOpcode(46, -1, "UNKNOWN PHASE 1 OPCODE", -1)
  const VENDOR_PARTITION_2_UNKNOWN_OPCODE: MacOpcode := MacOpcode(47, -1, "UNKNOWN VENDOR OPCODE", -1)
  const PHASE1_192_GROUP_VOICE_CHANNEL_GRANT_EXTENDED: MacOpcode := MacOpcode(48, 192, "GROUP VOICE CHANNEL GRANT EXTENDED", 11)
  const PHASE1_195_GROUP_VOICE_CHANNEL_GRANT_UPDATE_EXPLICIT: MacOpcode := MacOpcode(49, 195, "GROUP VOICE CHANNEL GRANT UPDATE EXPLICIT", 8)
  const PHASE1_196_UNIT_TO_UNIT_VOICE_CHANNEL_GRANT_EXTENDED: MacOpcode := MacOpcode(50, 196, "UNIT-TO-UNIT VOICE CHANNEL GRANT ABBREVIATED", 15)
  const PHASE1_197_UNIT_TO_UNIT_ANSWER_REQUEST_EXTENDED: MacOpcode := MacOpcode(51, 197, "UNIT-TO-UNIT ANSWER REQUEST EXTENDED", 12)
  const PHASE1_198_UNIT_TO_UNIT_VOICE_CHANNEL_GRANT_UPDATE_EXTENDED: MacOpcode := MacOpcode(52, 198, "UNIT-TO-UNIT VOICE CHANNEL GRANT EXTENDED", 15)
  const PHASE1_204_RADIO_UNIT_MONITOR_COMMAND_EXTENDED: MacOpcode := MacOpcode(53, 204, "RADIO UNIT MONITOR COMMAND EXTENDED", 14)
  const PHASE1_214_SNDCP_DATA_CHANNEL_ANNOUNCEMENT_EXPLICIT: MacOpcode := MacOpcode(54, 214, "SNDCP DATA CHANNEL ANNOUNCEMENT EXPLICIT", 9)
  const PHASE1_216_STATUS_UPDATE_EXTENDED: MacOpcode := MacOpcode(55, 216, "STATUS UPDATE EXTENDED", 14)
  const PHASE1_218_STATUS_QUERY_EXTENDED: MacOpcode := MacOpcode(56, 218, "STATUS QUERY EXTENDED", 11)
  const PHASE1_220_MESSAGE_UPDATE_EXTENDED: MacOpcode := MacOpcode(57, 220, "MESSAGE UPDATE EXTENDED", 14)
  const PHASE1_223_CALL_ALERT_EXTENDED: MacOpcode := MacOpcode(58, 223, "CALL ALERT EXTENDED", 11)
  const PHASE1_228_EXTENDED_FUNCTION_COMMAND_EXTENDED: MacOpcode := MacOpcode(59, 228, "EXTENDED FUNCTION COMMAND EXTENDED", 14)
  const PHASE1_233_SECONDARY_CONTROL_CHANNEL_BROADCAST_EXPLICIT: MacOpcode := MacOpcode(60, 233, "SECONDARY CONTROL CHANNEL BROADCAST EXPLICIT", 8)
  const PHASE1_234_GROUP_AFFILIATION_QUERY_EXTENDED: MacOpcode := MacOpcode(61, 234, "GROUP AFFILIATION QUERY EXTENDED", 11)
  const PHASE1_250_RFSS_STATUS_BROADCAST_EXTENDED: MacOpcode := MacOpcode(62, 250, "RFSS STATUS BROADCAST EXTENDED", 11)
  const PHASE1_251_NETWORK_STATUS_BROADCAST_EXTENDED: MacOpcode := MacOpcode(63, 251, "NETWORK STATUS BROADCAST EXTENDED", 13)
  const PHASE1_252_ADJACENT_STATUS_BROADCAST_EXTENDED: MacOpcode := MacOpcode(64, 252, "ADJACENT STATUS BROADCAST EXTENDED", 11)
  const PHASE1_EXTENDED_PARTITION_3_UNKNOWN_OPCODE: MacOpcode := MacOpcode(65, -1, "UNKNOWN EXTENDED PHASE 1 OPCODE", 1)
  const UNKNOWN: MacOpcode := MacOpcode(66, -1, "UNKNOWN", -1)

  /** getValue as a function value, the key the index is built on. */
  function ValueOf(op: MacOpcode): int
  {
    op.value
  }

  /** MacOpcode.values(): the 67 constants in declaration order. */
  const Values: seq<MacOpcode> := Group0 + Group1 + Group2 + Group3 + Group4 + Group5 + Group6 + Group7 + Group8

  /** values() in consecutive blocks of 8 constants, Group<k> starting at ordinal 8 * k. */
  const Group0: seq<MacOpcode> := [PUSH_TO_TALK, END_PUSH_TO_TALK, TDMA_0_NULL_INFORMATION_MESSAGE, TDMA_1_GROUP_VOICE_CHANNEL_USER_ABBREVIATED, TDMA_2_UNIT_TO_UNIT_VOICE_CHANNEL_USER, TDMA_3_TELEPHONE_INTERCONNECT_VOICE_CHANNEL_USER, TDMA_5_GROUP_VOICE_CHANNEL_GRANT_UPDATE_MULTIPLE, TDMA_17_INDIRECT_GROUP_PAGING]
  const Group1: seq<MacOpcode> := [TDMA_18_INDIVIDUAL_PAGING_MESSAGE_WITH_PRIORITY, TDMA_33_GROUP_VOICE_CHANNEL_USER_EXTENDED, TDMA_34_UNIT_TO_UNIT_VOICE_CHANNEL_USER_EXTENDED, TDMA_37_GROUP_VOICE_CHANNEL_GRANT_UPDATE_MULTIPLE_EXPLICIT, TDMA_48_POWER_CONTROL_SIGNAL_QUALITY, TDMA_49_MAC_RELEASE, TDMA_PARTITION_0_UNKNOWN_OPCODE, PHASE1_64_GROUP_VOICE_CHANNEL_GRANT_ABBREVIATED]
  const Group2: seq<MacOpcode> := [PHASE1_65_GROUP_VOICE_SERVICE_REQUEST, PHASE1_66_GROUP_VOICE_CHANNEL_GRANT_UPDATE, PHASE1_68_UNIT_TO_UNIT_VOICE_CHANNEL_GRANT_ABBREVIATED, PHASE1_69_UNIT_TO_UNIT_ANSWER_REQUEST_ABBREVIATED, PHASE1_70_UNIT_TO_UNIT_VOICE_CHANNEL_GRANT_UPDATE_ABBREVIATED, PHASE1_74_TELEPHONE_INTERCONNECT_ANSWER_REQUEST, PHASE1_76_RADIO_UNIT_MONITOR_COMMAND_ABBREVIATED, PHASE1_84_SNDCP_DATA_CHANNEL_GRANT]
  const Group3: seq<MacOpcode> := [PHASE1_85_SNDCP_DATA_PAGE_REQUEST, PHASE1_88_STATUS_UPDATE_ABBREVIATED, PHASE1_90_STATUS_QUERY_ABBREVIATED, PHASE1_92_MESSAGE_UPDATE_ABBREVIATED, OBSOLETE_PHASE1_93_RADIO_UNIT_MONITOR_COMMAND, PHASE1_94_RADIO_UNIT_MONITOR_COMMAND_ENHANCED, PHASE1_95_CALL_ALERT_ABBREVIATED, PHASE1_96_ACK_RESPONSE]
  const Group4: seq<MacOpcode> := [PHASE1_97_QUEUED_RESPONSE, PHASE1_100_EXTENDED_FUNCTION_COMMAND_ABBREVIATED, PHASE1_103_DENY_RESPONSE, PHASE1_106_GROUP_AFFILIATION_QUERY_ABBREVIATED, PHASE1_109_UNIT_REGISTRATION_COMMAND_ABBREVIATED, PHASE1_115_IDENTIFIER_UPDATE_TDMA, PHASE1_116_IDENTIFIER_UPDATE_V_UHF, PHASE1_117_TIME_AND_DATE_ANNOUNCEMENT]
  const Group5: seq<MacOpcode> := [PHASE1_120_SYSTEM_SERVICE_BROADCAST, PHASE1_121_SECONDARY_CONTROL_CHANNEL_BROADCAST_ABBREVIATED, PHASE1_122_RFSS_STATUS_BROADCAST_ABBREVIATED, PHASE1_123_NETWORK_STATUS_BROADCAST_ABBREVIATED, PHASE1_124_ADJACENT_STATUS_BROADCAST_ABBREVIATED, PHASE1_125_IDENTIFIER_UPDATE, PHASE1_PARTITION_1_UNKNOWN_OPCODE, VENDOR_PARTITION_2_UNKNOWN_OPCODE]
  const Group6: seq<MacOpcode> := [PHASE1_192_GROUP_VOICE_CHANNEL_GRANT_EXTENDED, PHASE1_195_GROUP_VOICE_CHANNEL_GRANT_UPDATE_EXPLICIT, PHASE1_196_UNIT_TO_UNIT_VOICE_CHANNEL_GRANT_EXTENDED, PHASE1_197_UNIT_TO_UNIT_ANSWER_REQUEST_EXTENDED, PHASE1_198_UNIT_TO_UNIT_VOICE_CHANNEL_GRANT_UPDATE_EXTENDED, PHASE1_204_RADIO_UNIT_MONITOR_COMMAND_EXTENDED, PHASE1_214_SNDCP_DATA_CHANNEL_ANNOUNCEMENT_EXPLICIT, PHASE1_216_STATUS_UPDATE_EXTENDED]
  const Group7: seq<MacOpcode> := [PHASE1_218_STATUS_QUERY_EXTENDED, PHASE1_220_MESSAGE_UPDATE_EXTENDED, PHASE1_223_CALL_ALERT_EXTENDED, PHASE1_228_EXTENDED_FUNCTION_COMMAND_EXTENDED, PHASE1_233_SECONDARY_CONTROL_CHANNEL_BROADCAST_EXPLICIT, PHASE1_234_GROUP_AFFILIATION_QUERY_EXTENDED, PHASE1_250_RFSS_STATUS_BROADCAST_EXTENDED, PHASE1_251_NETWORK_STATUS_BROADCAST_EXTENDED]
  const Group8: seq<MacOpcode> := [PHASE1_252_ADJACENT_STATUS_BROADCAST_EXTENDED, PHASE1_EXTENDED_PARTITION_3_UNKNOWN_OPCODE, UNKNOWN]

  /**
   * The static initializer's loop over ops: every element whose key is not
   * -1 is put under its key, later puts replacing earlier ones.
   */
  function Index<T>(ops: seq<T>, key: T -> int): map<int, T>
    decreases |ops|
  {
    if |ops| == 0 then map[]
    else if key(ops[|ops| - 1]) != NO_VALUE then Index(ops[..|ops| - 1], key)[key(ops[|ops| - 1]) := ops[|ops| - 1]]
    else Index(ops[..|ops| - 1], key)
  }

  /** LOOKUP_MAP. */
  const LookupMap: map<int, MacOpcode> := Index(Values, ValueOf)

  /**
   * fromValue: the constant indexed under value; otherwise the unknown-opcode
   * constant of the 64-value partition holding value; otherwise UNKNOWN.
   */
  function FromValue(value: int): MacOpcode
  {
    if value in LookupMap then LookupMap[value]
    else if 0 <= value <= 63 then TDMA_PARTITION_0_UNKNOWN_OPCODE
    else if 64 <= value <= 127 then PHASE1_PARTITION_1_UNKNOWN_OPCODE
    else if 128 <= value <= 191 then VENDOR_PARTITION_2_UNKNOWN_OPCODE
    else if 192 <= value <= 255 then PHASE1_EXTENDED_PARTITION_3_UNKNOWN_OPCODE
    else UNKNOWN
  }

  /**
   * Reference definition: the constant declared with each value, partition
   * by partition. Partition 2 (vendor opcodes, 128 to 191) declares none.
   */
  function Assigned(value: int): Option<MacOpcode>
  {
    if 0 <= value <= 63 then AssignedTdma(value)
    else if 64 <= value <= 127 then AssignedPhase1(value)
    else if 192 <= value <= 255 then AssignedPhase1Extended(value)
    else None
  }

  /** Partition 0: the TDMA opcodes. */
  function AssignedTdma(value: int): Option<MacOpcode>
  {
    match value
    case 0 => Some(TDMA_0_NULL_INFORMATION_MESSAGE)
    case 1 => Some(TDMA_1_GROUP_VOICE_CHANNEL_USER_ABBREVIATED)
    case 2 => Some(TDMA_2_UNIT_TO_UNIT_VOICE_CHANNEL_USER)
    case 3 => Some(TDMA_3_TELEPHONE_INTERCONNECT_VOICE_CHANNEL_USER)
    case 5 => Some(TDMA_5_GROUP_VOICE_CHANNEL_GRANT_UPDATE_MULTIPLE)
    case 17 => Some(TDMA_17_INDIRECT_GROUP_PAGING)
    case 18 => Some(TDMA_18_INDIVIDUAL_PAGING_MESSAGE_WITH_PRIORITY)
    case 33 => Some(TDMA_33_GROUP_VOICE_CHANNEL_USER_EXTENDED)
    case 34 => Some(TDMA_34_UNIT_TO_UNIT_VOICE_CHANNEL_USER_EXTENDED)
    case 37 => Some(TDMA_37_GROUP_VOICE_CHANNEL_GRANT_UPDATE_MULTIPLE_EXPLICIT)
    case 48 => Some(TDMA_48_POWER_CONTROL_SIGNAL_QUALITY)
    case 49 => Some(TDMA_49_MAC_RELEASE)
    case _ => None
  }

  /** Partition 1: the Phase 1 opcodes in abbreviated form. */
  function AssignedPhase1(value: int): Option<MacOpcode>
  {
    match value
    case 64 => Some(PHASE1_64_GROUP_VOICE_CHANNEL_GRANT_ABBREVIATED)
    case 65 => Some(PHASE1_65_GROUP_VOICE_SERVICE_REQUEST)
    case 66 => Some(PHASE1_66_GROUP_VOICE_CHANNEL_GRANT_UPDATE)
    case 68 => Some(PHASE1_68_UNIT_TO_UNIT_VOICE_CHANNEL_GRANT_ABBREVIATED)
    case 69 => Some(PHASE1_69_UNIT_TO_UNIT_ANSWER_REQUEST_ABBREVIATED)
    case 70 => Some(PHASE1_70_UNIT_TO_UNIT_VOICE_CHANNEL_GRANT_UPDATE_ABBREVIATED)
    case 74 => Some(PHASE1_74_TELEPHONE_INTERCONNECT_ANSWER_REQUEST)
    case 76 => Some(PHASE1_76_RADIO_UNIT_MONITOR_COMMAND_ABBREVIATED)
    case 84 => Some(PHASE1_84_SNDCP_DATA_CHANNEL_GRANT)
    case 85 => Some(PHASE1_85_SNDCP_DATA_PAGE_REQUEST)
    case 88 => Some(PHASE1_88_STATUS_UPDATE_ABBREVIATED)
    case 90 => Some(PHASE1_90_STATUS_QUERY_ABBREVIATED)
    case 92 => Some(PHASE1_92_MESSAGE_UPDATE_ABBREVIATED)
    case 93 => Some(OBSOLETE_PHASE1_93_RADIO_UNIT_MONITOR_COMMAND)
    case 94 => Some(PHASE1_94_RADIO_UNIT_MONITOR_COMMAND_ENHANCED)
    case 95 => Some(PHASE1_95_CALL_ALERT_ABBREVIATED)
    case 96 => Some(PHASE1_96_ACK_RESPONSE)
    case 97 => Some(PHASE1_97_QUEUED_RESPONSE)
    case 100 => Some(PHASE1_100_EXTENDED_FUNCTION_COMMAND_ABBREVIATED)
    case 103 => Some(PHASE1_103_DENY_RESPONSE)
    case 106 => Some(PHASE1_106_GROUP_AFFILIATION_QUERY_ABBREVIATED)
    case 109 => Some(PHASE1_109_UNIT_REGISTRATION_COMMAND_ABBREVIATED)
    case 115 => Some(PHASE1_115_IDENTIFIER_UPDATE_TDMA)
    case 116 => Some(PHASE1_116_IDENTIFIER_UPDATE_V_UHF)
    case 117 => Some(PHASE1_117_TIME_AND_DATE_ANNOUNCEMENT)
    case 120 => Some(PHASE1_120_SYSTEM_SERVICE_BROADCAST)
    case 121 => Some(PHASE1_121_SECONDARY_CONTROL_CHANNEL_BROADCAST_ABBREVIATED)
    case 122 => Some(PHASE1_122_RFSS_STATUS_BROADCAST_ABBREVIATED)
    case 123 => Some(PHASE1_123_NETWORK_STATUS_BROADCAST_ABBREVIATED)
    case 124 => Some(PHASE1_124_ADJACENT_STATUS_BROADCAST_ABBREVIATED)
    case 125 => Some(PHASE1_125_IDENTIFIER_UPDATE)
    case _ => None
  }

  /** Partition 3: the Phase 1 opcodes in extended form. */
  function AssignedPhase1Extended(value: int): Option<MacOpcode>
  {
    match value
    case 192 => Some(PHASE1_192_GROUP_VOICE_CHANNEL_GRANT_EXTENDED)
    case 195 => Some(PHASE1_195_GROUP_VOICE_CHANNEL_GRANT_UPDATE_EXPLICIT)
    case 196 => Some(PHASE1_196_UNIT_TO_UNIT_VOICE_CHANNEL_GRANT_EXTENDED)
    case 197 => Some(PHASE1_197_UNIT_TO_UNIT_ANSWER_REQUEST_EXTENDED)
    case 198 => Some(PHASE1_198_UNIT_TO_UNIT_VOICE_CHANNEL_GRANT_UPDATE_EXTENDED)
    case 204 => Some(PHASE1_204_RADIO_UNIT_MONITOR_COMMAND_EXTENDED)
    case 214 => Some(PHASE1_214_SNDCP_DATA_CHANNEL_ANNOUNCEMENT_EXPLICIT)
    case 216 => Some(PHASE1_216_STATUS_UPDATE_EXTENDED)
    case 218 => Some(PHASE1_218_STATUS_QUERY_EXTENDED)
    case 220 => Some(PHASE1_220_MESSAGE_UPDATE_EXTENDED)
    case 223 => Some(PHASE1_223_CALL_ALERT_EXTENDED)
    case 228 => Some(PHASE1_228_EXTENDED_FUNCTION_COMMAND_EXTENDED)
    case 233 => Some(PHASE1_233_SECONDARY_CONTROL_CHANNEL_BROADCAST_EXPLICIT)
    case 234 => Some(PHASE1_234_GROUP_AFFILIATION_QUERY_EXTENDED)
    case 250 => Some(PHASE1_250_RFSS_STATUS_BROADCAST_EXTENDED)
    case 251 => Some(PHASE1_251_NETWORK_STATUS_BROADCAST_EXTENDED)
    case 252 => Some(PHASE1_252_ADJACENT_STATUS_BROADCAST_EXTENDED)
    case _ => None
  }

  /** The keys of the index are exactly the keys other than -1 of the elements walked. */
  lemma {:induction false} IndexKeys<T>(ops: seq<T>, key: T -> int, k: int)
    ensures k in Index(ops, key) <==> k != NO_VALUE && exists i :: 0 <= i < |ops| && key(ops[i]) == k
    decreases |ops|
  {
    if |ops| > 0 {
      var init := ops[..|ops| - 1];
      IndexKeys(init, key, k);
      if k in Index(init, key) {
        var i :| 0 <= i < |init| && key(init[i]) == k;
        assert ops[i] == init[i];
      }
      if k != NO_VALUE && exists i :: 0 <= i < |ops| && key(ops[i]) == k {
        var i :| 0 <= i < |ops| && key(ops[i]) == k;
        if i < |init| {
          assert init[i] == ops[i];
        }
      }
    }
  }

  /** The index maps a key only to an element walked that has that key. */
  lemma {:induction false} IndexSound<T>(ops: seq<T>, key: T -> int, k: int)
    requires k in Index(ops, key)
    ensures key(Index(ops, key)[k]) == k && Index(ops, key)[k] in ops
    decreases |ops|
  {
    var init := ops[..|ops| - 1];
    var last := ops[|ops| - 1];
    if key(last) != NO_VALUE && k == key(last) {
      assert Index(ops, key)[k] == last;
    } else {
      IndexSound(init, key, k);
      assert Index(init, key)[k] in init;
    }
  }

  /** The reference assigns a value only to a listed constant declared with it. */
  lemma AssignedSound(value: int)
    ensures Assigned(value).Some? ==> Assigned(value).value.value == value && Assigned(value).value in Values
  {
    if value < 18 {
      SoundIn0(value);
    } else if value < 65 {
      SoundIn1(value);
    } else if value < 85 {
      SoundIn2(value);
    } else if value < 97 {
      SoundIn3(value);
    } else if value < 120 {
      SoundIn4(value);
    } else if value < 192 {
      SoundIn5(value);
    } else if value < 218 {
      SoundIn6(value);
    } else if value < 252 {
      SoundIn7(value);
    } else {
      SoundIn8(value);
    }
  }

  /** AssignedSound for the values from the lowest one declared in a block up to the next block's. */
  lemma SoundIn0(value: int)
    requires value < 18
    ensures Assigned(value).Some? ==> Assigned(value).value.value == value && Assigned(value).value in Group0
  { }

  lemma SoundIn1(value: int)
    requires 18 <= value && value < 65
    ensures Assigned(value).Some? ==> Assigned(value).value.value == value && Assigned(value).value in Group1
  { }

  lemma SoundIn2(value: int)
    requires 65 <= value && value < 85
    ensures Assigned(value).Some? ==> Assigned(value).value.value == value && Assigned(value).value in Group2
  { }

  lemma SoundIn3(value: int)
    requires 85 <= value && value < 97
    ensures Assigned(value).Some? ==> Assigned(value).value.value == value && Assigned(value).value in Group3
  { }

  lemma SoundIn4(value: int)
    requires 97 <= value && value < 120
    ensures Assigned(value).Some? ==> Assigned(value).value.value == value && Assigned(value).value in Group4
  { }

  lemma SoundIn5(value: int)
    requires 120 <= value && value < 192
    ensures Assigned(value).Some? ==> Assigned(value).value.value == value && Assigned(value).value in Group5
  { }

  lemma SoundIn6(value: int)
    requires 192 <= value && value < 218
    ensures Assigned(value).Some? ==> Assigned(value).value.value == value && Assigned(value).value in Group6
  { }

  lemma SoundIn7(value: int)
    requires 218 <= value && value < 252
    ensures Assigned(value).Some? ==> Assigned(value).value.value == value && Assigned(value).value in Group7
  { }

  lemma SoundIn8(value: int)
    requires 252 <= value
    ensures Assigned(value).Some? ==> Assigned(value).value.value == value && Assigned(value).value in Group8
  { }

  /**
   * Every constant with a value of its own is the one the reference assigns
   * to that value, and only the two paging messages are variable-length.
   */
  lemma AssignedComplete(op: MacOpcode)
    requires op in Values
    ensures op.value != NO_VALUE ==> Assigned(op.value) == Some(op)
    ensures op.IsVariableLength() <==>
      op == TDMA_17_INDIRECT_GROUP_PAGING || op == TDMA_18_INDIVIDUAL_PAGING_MESSAGE_WITH_PRIORITY
  {
    if op in Group0 {
      CompleteIn0(op);
    } else if op in Group1 {
      CompleteIn1(op);
    } else if op in Group2 {
      CompleteIn2(op);
    } else if op in Group3 {
      CompleteIn3(op);
    } else if op in Group4 {
      CompleteIn4(op);
    } else if op in Group5 {
      CompleteIn5(op);
    } else if op in Group6 {
      CompleteIn6(op);
    } else if op in Group7 {
      CompleteIn7(op);
    } else {
      CompleteIn8(op);
    }
  }

  /** AssignedComplete for the constants of one block. */
  lemma CompleteIn0(op: MacOpcode)
    requires op in Group0
    ensures op.value != NO_VALUE ==> Assigned(op.value) == Some(op)
    ensures op.IsVariableLength() <==>
      op == TDMA_17_INDIRECT_GROUP_PAGING || op == TDMA_18_INDIVIDUAL_PAGING_MESSAGE_WITH_PRIORITY
  { }

  lemma CompleteIn1(op: MacOpcode)
    requires op in Group1
    ensures op.value != NO_VALUE ==> Assigned(op.value) == Some(op)
    ensures op.IsVariableLength() <==>
      op == TDMA_17_INDIRECT_GROUP_PAGING || op == TDMA_18_INDIVIDUAL_PAGING_MESSAGE_WITH_PRIORITY
  { }

  lemma CompleteIn2(op: MacOpcode)
    requires op in Group2
    ensures op.value != NO_VALUE ==> Assigned(op.value) == Some(op)
    ensures op.IsVariableLength() <==>
      op == TDMA_17_INDIRECT_GROUP_PAGING || op == TDMA_18_INDIVIDUAL_PAGING_MESSAGE_WITH_PRIORITY
  { }

  lemma CompleteIn3(op: MacOpcode)
    requires op in Group3
    ensures op.value != NO_VALUE ==> Assigned(op.value) == Some(op)
    ensures op.IsVariableLength() <==>
      op == TDMA_17_INDIRECT_GROUP_PAGING || op == TDMA_18_INDIVIDUAL_PAGING_MESSAGE_WITH_PRIORITY
  { }

  lemma CompleteIn4(op: MacOpcode)
    requires op in Group4
    ensures op.value != NO_VALUE ==> Assigned(op.value) == Some(op)
    ensures op.IsVariableLength() <==>
      op == TDMA_17_INDIRECT_GROUP_PAGING || op == TDMA_18_INDIVIDUAL_PAGING_MESSAGE_WITH_PRIORITY
  { }

  lemma CompleteIn5(op: MacOpcode)
    requires op in Group5
    ensures op.value != NO_VALUE ==> Assigned(op.value) == Some(op)
    ensures op.IsVariableLength() <==>
      op == TDMA_17_INDIRECT_GROUP_PAGING || op == TDMA_18_INDIVIDUAL_PAGING_MESSAGE_WITH_PRIORITY
  { }

  lemma CompleteIn6(op: MacOpcode)
    requires op in Group6
    ensures op.value != NO_VALUE ==> Assigned(op.value) == Some(op)
    ensures op.IsVariableLength() <==>
      op == TDMA_17_INDIRECT_GROUP_PAGING || op == TDMA_18_INDIVIDUAL_PAGING_MESSAGE_WITH_PRIORITY
  { }

  lemma CompleteIn7(op: MacOpcode)
    requires op in Group7
    ensures op.value != NO_VALUE ==> Assigned(op.value) == Some(op)
    ensures op.IsVariableLength() <==>
      op == TDMA_17_INDIRECT_GROUP_PAGING || op == TDMA_18_INDIVIDUAL_PAGING_MESSAGE_WITH_PRIORITY
  { }

  lemma CompleteIn8(op: MacOpcode)
    requires op in Group8
    ensures op.value != NO_VALUE ==> Assigned(op.value) == Some(op)
    ensures op.IsVariableLength() <==>
      op == TDMA_17_INDIRECT_GROUP_PAGING || op == TDMA_18_INDIVIDUAL_PAGING_MESSAGE_WITH_PRIORITY
  { }

  /** The declared values other than -1 are pairwise distinct. */
  lemma ValuesDistinct(a: MacOpcode, b: MacOpcode)
    requires a in Values && b in Values
    requires a.value == b.value != NO_VALUE
    ensures a == b
  {
    AssignedComplete(a);
    AssignedComplete(b);
  }

  /** Exact lookup succeeds precisely on the assigned values, each mapped to its constant. */
  lemma ExactLookup(value: int)
    ensures value in LookupMap <==> Assigned(value).Some?
    ensures value in LookupMap ==> LookupMap[value] == Assigned(value).value
  {
    IndexKeys(Values, ValueOf, value);
    if value in LookupMap {
      IndexSound(Values, ValueOf, value);
      AssignedComplete(LookupMap[value]);
    }
    if Assigned(value).Some? {
      var op := Assigned(value).value;
      AssignedSound(value);
      var i :| 0 <= i < |Values| && Values[i] == op;
      assert ValueOf(Values[i]) == value;
    }
  }

  /** -1 is never indexed, so exact lookup never returns a constant declared with -1. */
  lemma NoValueNeverIndexed(value: int)
    ensures NO_VALUE !in LookupMap && FromValue(NO_VALUE) == UNKNOWN
    ensures value in LookupMap ==> LookupMap[value].value == value != NO_VALUE
  {
    IndexKeys(Values, ValueOf, NO_VALUE);
    if value in LookupMap {
      IndexSound(Values, ValueOf, value);
      IndexKeys(Values, ValueOf, value);
    }
  }

  /**
   * fromValue against the reference: the constant assigned to value, and for
   * an unassigned value the unknown-opcode constant of its partition, or
   * UNKNOWN outside [0, 255]. A listed constant is always returned.
   */
  lemma FromValueSpec(value: int)
    ensures Assigned(value).Some? ==> FromValue(value) == Assigned(value).value
    ensures Assigned(value).None? && 0 <= value <= 63 ==> FromValue(value) == TDMA_PARTITION_0_UNKNOWN_OPCODE
    ensures Assigned(value).None? && 64 <= value <= 127 ==> FromValue(value) == PHASE1_PARTITION_1_UNKNOWN_OPCODE
    ensures Assigned(value).None? && 128 <= value <= 191 ==> FromValue(value) == VENDOR_PARTITION_2_UNKNOWN_OPCODE
    ensures Assigned(value).None? && 192 <= value <= 255 ==> FromValue(value) == PHASE1_EXTENDED_PARTITION_3_UNKNOWN_OPCODE
    ensures Assigned(value).None? && (value < 0 || value > 255) ==> FromValue(value) == UNKNOWN
    ensures FromValue(value) in Values
  {
    ExactLookup(value);
    AssignedSound(value);
  }

  /** Round trip: every constant with a value of its own is found again from that value. */
  lemma RoundTrip(op: MacOpcode)
    requires op in Values && op.value != NO_VALUE
    ensures FromValue(op.value) == op
  {
    AssignedComplete(op);
    ExactLookup(op.value);
  }

  /** No opcode lies in the vendor partition, so each of its values falls back to the vendor constant. */
  lemma VendorPartition(value: int)
    requires 128 <= value <= 191
    ensures FromValue(value) == VENDOR_PARTITION_2_UNKNOWN_OPCODE
  {
    ExactLookup(value);
  }

  /** Every value outside [0, 255] gives UNKNOWN. */
  lemma OutsideRegistry(value: int)
    requires value < 0 || value > 255
    ensures FromValue(value) == UNKNOWN
  {
    ExactLookup(value);
  }

  /** Exactly the two paging messages are variable-length. */
  lemma VariableLengthExactly(op: MacOpcode)
    requires op in Values
    ensures op.IsVariableLength() <==>
      op == TDMA_17_INDIRECT_GROUP_PAGING || op == TDMA_18_INDIVIDUAL_PAGING_MESSAGE_WITH_PRIORITY
  {
    AssignedComplete(op);
  }

  /** Lookups of a variable-length opcode, of an opcode of length 9, and of an assigned and an unassigned value in partition 0. */
  lemma ConcreteLookups()
    ensures FromValue(17) == TDMA_17_INDIRECT_GROUP_PAGING && FromValue(17).IsVariableLength()
    ensures FromValue(70) == PHASE1_70_UNIT_TO_UNIT_VOICE_CHANNEL_GRANT_UPDATE_ABBREVIATED && FromValue(70).length == 9
    ensures FromValue(60) == TDMA_PARTITION_0_UNKNOWN_OPCODE && FromValue(4) == TDMA_PARTITION_0_UNKNOWN_OPCODE
  {
    ExactLookup(17);
    ExactLookup(70);
    ExactLookup(60);
    ExactLookup(4);
  }

  /**
   * getValue, getLength and toString give back what each constant is
   * constructed with; the constants that stand for no opcode of their own
   * carry -1, and the extended partition's fallback is declared with length
   * 1 where the others have -1.
   */
  lemma FallbackDeclarations()
    ensures PUSH_TO_TALK.value == NO_VALUE && END_PUSH_TO_TALK.value == NO_VALUE
    ensures TDMA_PARTITION_0_UNKNOWN_OPCODE.value == NO_VALUE && TDMA_PARTITION_0_UNKNOWN_OPCODE.length == -1
    ensures PHASE1_PARTITION_1_UNKNOWN_OPCODE.value == NO_VALUE && PHASE1_PARTITION_1_UNKNOWN_OPCODE.length == -1
    ensures VENDOR_PARTITION_2_UNKNOWN_OPCODE.value == NO_VALUE && VENDOR_PARTITION_2_UNKNOWN_OPCODE.length == -1
    ensures PHASE1_EXTENDED_PARTITION_3_UNKNOWN_OPCODE.value == NO_VALUE && PHASE1_EXTENDED_PARTITION_3_UNKNOWN_OPCODE.length == 1
    ensures UNKNOWN.value == NO_VALUE && UNKNOWN.length == -1 && UNKNOWN.ToString() == "UNKNOWN"
  { }
}
