/** The parts of the AT86RF230 transceiver that the reactive jammer touches,
    reduced to what its control logic observes: the value of the TRX_STATUS
    subregister, the commands written to TRX_CMD, the other register writes,
    the interrupt-status bits and the frame buffer. The SPI transport, the pins
    and the settle delays are not represented. */
module Transceiver {

  /** Values the TRX_STATUS subregister can read back. `Other` stands for
      every status the jammer never compares against. */
  datatype TrxStatus = POn | BusyRx | BusyTx | RxOn | TrxOff | PllOn | Sleep | Other

  /** Commands the jammer writes to the TRX_CMD subregister. */
  datatype TrxCommand = ForceTrxOff | RxOnCmd | PllOnCmd

  /** One hardware access that changes the transceiver, in the order issued. */
  datatype Access =
    | TrxCmd(cmd: TrxCommand)
    | ChannelWrite(channel: bv8)
    | ClkmShaSel(sel: bv8)
    | ClkmCtrl(ctrl: bv8)
    | TxAutoCrcOn(on: bv8)
    | IrqMask(mask: bv8)
    | SlpTrPulse
    | FrameWrite(data: seq<bv8>)

  /** Interrupt-status bits of the AT86RF230 that the jammer reacts to. */
  const RxStartMask: bv8 := 0x04
  const TrxEndMask: bv8 := 0x08

  /** The frame buffer as a frame-buffer read access returns it: one length
      byte (PHR) followed by room for a 127-byte PSDU. */
  const FrameBufferSize: nat := 128

  type FrameBuffer = b: seq<bv8> | |b| == FrameBufferSize
    witness seq(FrameBufferSize, _ => 0)

  /** True when every bit of `mask` is set in the interrupt event `event`,
      the test `MASK == (event & MASK)` of the interrupt handlers. */
  predicate HasBits(event: bv8, mask: bv8) {
    event & mask == mask
  }
}
