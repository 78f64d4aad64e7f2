/**
 * The DMR frame envelope (DMRMessage.java): a 288-bit buffer made of a
 * 24-bit prefix and a 264-bit frame, together with the sync pattern that
 * was detected for it. Outbound base-station frames carry a Common
 * Announcement Channel (CACH) in the prefix; inbound mobile frames leave it
 * unused. The CACH view is built from the buffer on first request and kept.
 */
module DMR {

  import opened BinaryMessages

  /** Where the first payload half starts: just after the 24-bit prefix. */
  const PAYLOAD_1_START: int := 24
  /** Where the 48-bit sync field starts. */
  const SYNC_START: int := 132
  /** Where the second payload half starts, just after the sync field. */
  const PAYLOAD_2_START: int := 180

  /** The sync pattern, reduced to whether frames that carry it have a CACH prefix. */
  datatype DMRSyncPattern = DMRSyncPattern(hasCACH: bool)

  /** The CACH view of a frame: built from, and kept with, the frame's buffer. */
  class CACH {
    const message: BinaryMessage

    constructor (message: BinaryMessage)
      ensures this.message == message
    {
      this.message := message;
    }
  }

  class DMRMessage {
    const syncPattern: DMRSyncPattern
    const message: BinaryMessage
    var cache: CACH?

    /** A CACH view is only ever held by a frame whose sync pattern has one, and it views this frame's buffer. */
    ghost predicate Valid()
      reads this, cache
    {
      cache != null ==> syncPattern.hasCACH && cache.message == message
    }

    /** A new frame keeps its sync pattern and buffer and has not built its CACH view. */
    constructor (syncPattern: DMRSyncPattern, message: BinaryMessage)
      ensures this.syncPattern == syncPattern && this.message == message
      ensures cache == null && Valid()
    {
      this.syncPattern := syncPattern;
      this.message := message;
      cache := null;
    }

    /** Whether the frame carries a CACH: what its sync pattern says. */
    predicate HasCACH()
    {
      syncPattern.hasCACH
    }

    function GetProtocol(): string
    {
      "DMR"
    }

    function GetSyncPattern(): DMRSyncPattern
    {
      syncPattern
    }

    function GetTransmittedMessage(): BinaryMessage
    {
      message
    }

    /**
     * getCACH: null for a frame without a CACH; otherwise the view built on
     * the first call from the frame's buffer, and the same object on every
     * later call. Neither the buffer nor its contents change.
     */
    method GetCACH() returns (c: CACH?)
      requires Valid()
      modifies this`cache
      ensures Valid() && c == cache
      ensures !HasCACH() ==> c == null
      ensures HasCACH() && old(cache) == null ==> c != null && fresh(c) && c.message == message
      ensures old(cache) != null ==> c == old(cache)
      ensures unchanged(message)
    {
      if HasCACH() && cache == null {
        cache := new CACH(message);
      }
      c := cache;
    }
  }

  /**
   * A frame built from a sync pattern and a buffer gives both back and names
   * its protocol "DMR", and its CACH view is built at most once: two
   * requests return the same object, or null both times when the sync
   * pattern has no CACH.
   */
  method CACHMemoised(syncPattern: DMRSyncPattern, message: BinaryMessage) returns (frame: DMRMessage, first: CACH?, second: CACH?)
    ensures frame.GetSyncPattern() == syncPattern && frame.GetTransmittedMessage() == message
    ensures frame.GetProtocol() == "DMR"
    ensures second == first && first == frame.cache
    ensures syncPattern.hasCACH <==> first != null
    ensures first != null ==> fresh(first) && first.message == message
  {
    frame := new DMRMessage(syncPattern, message);
    first := frame.GetCACH();
    second := frame.GetCACH();
  }
}
