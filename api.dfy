/** Constants of the reactive jammer's public interface. */
module JammerApi {

  /** Lowest and highest supported channel: the 2.4 GHz O-QPSK channels 11 to
      26 of IEEE 802.15.4-2006, section 6.1.2. */
  const MinChannel: bv8 := 11
  const MaxChannel: bv8 := 26

  /** Largest frame the jammer handles: one length byte, a PSDU of at most
      aMaxPHYPacketSize = 127 bytes (IEEE 802.15.4-2006, section 6.4.1) and
      one link-quality byte. */
  const MaxPsduSize: nat := 127
  const MaxFrameSize: nat := 1 + MaxPsduSize + 1

  /** The channels `reactive_jammer_set_channel` accepts. */
  predicate ValidChannel(channel: bv8) {
    MinChannel <= channel <= MaxChannel
  }
}
