/** The reactive jammer as values: a snapshot of its global variables, of the
    driver's callback slot and of the transceiver, and one transition function
    per function of the C implementation. Every value the hardware reads back
    is an explicit argument, so a failed verification is an ordinary branch.
    The class in module ReactiveJammer is proved to follow these functions. */
module JammerSpec {
  import opened Transceiver
  import opened JammerApi

  /** The values of `rj_state`. `BusyJamming` is declared by the source but
      never assigned. */
  datatype RjState = NotInitialized | Idle | BusyListening | BusyJamming | BusyTransmitting

  /** The driver's single callback slot: empty, the listen handler or the
      transmission-complete handler. */
  datatype Callback = None | Listen | Transmit

  /** Interrupts the jammer enables: RX_START and TRX_END. */
  const SupportedInterruptMask: bv8 := 0x0C

  /** Number of frame bytes the listen handler copies out. */
  const FrameReadLength: bv8 := 4

  /** The jamming payload and the number of its bytes that are sent. */
  const JammerFrameLength: bv8 := 127
  const JammerFrame: seq<bv8> := [
    186, 38, 120, 91, 206, 116, 184, 22, 42, 239, 243, 204, 139, 78,
    83, 10, 226, 215, 183, 60, 86, 76, 181, 102, 219, 30, 87, 238,
    230, 244, 67, 26, 6, 223, 205, 159, 134, 62, 138, 121, 58, 4, 9,
    124, 31, 187, 18, 160, 119, 155, 64, 252, 0, 173, 49, 111, 154,
    166, 158, 21, 13, 108, 68, 112, 53, 240, 100, 214, 126, 72, 61,
    80, 98, 47, 198, 48, 231, 96, 248, 220, 92, 95, 8, 195, 185, 19,
    168, 190, 233, 122, 129, 101, 188, 210, 46, 85, 229, 144, 247,
    167, 123, 194, 193, 234, 74, 174, 147, 242, 255, 179, 197, 103,
    57, 152, 73, 5, 44, 63, 56, 141, 211, 202, 45, 224, 178, 0, 0]

  /** The register writes `init_rf` issues once TRX_OFF is verified: clock
      output off, automatic CRC on, interrupt mask. */
  const ConfigWrites: seq<Access> :=
    [ClkmShaSel(0), ClkmCtrl(0), TxAutoCrcOn(1), IrqMask(SupportedInterruptMask)]

  /** The transceiver as the jammer sees it. `driverUp` is set by `rf230_init`
      and cleared by `rf230_deinit`; `isrEnabled` by RF230_ENABLE_TRX_ISR;
      `log` records every access that changes the transceiver. */
  datatype Radio = Radio(
    driverUp: bool,
    isrEnabled: bool,
    status: TrxStatus,
    channel: bv8,
    frameBuffer: FrameBuffer,
    log: seq<Access>)

  /** `rj_state`, `rj_unknown_isr`, `rj_rssi`, the callback slot, the radio. */
  datatype Snapshot = Snapshot(
    state: RjState,
    unknownIsr: bv8,
    rssi: bv8,
    callback: Callback,
    radio: Radio)

  /** The new snapshot and the boolean an operation returns. */
  datatype Done = Done(after: Snapshot, ok: bool)

  /** The new snapshot and the bytes the listen handler copied out of the
      frame buffer (empty when it copied none). */
  datatype Heard = Heard(after: Snapshot, header: seq<bv8>)

  /** What the hardware and the environment supply while an interrupt is
      handled: the PHY_RSSI register, the status after the first
      FORCE_TRX_OFF, the status after PLL_ON, the undefined flag
      `rj_should_continue_jamming`, and the two statuses read while listening
      is re-enabled. */
  datatype IsrInputs = IsrInputs(
    phyRssi: bv8,
    forceOff: TrxStatus,
    pllOn: TrxStatus,
    continueJamming: bool,
    relistenOff: TrxStatus,
    relistenRx: TrxStatus)

  /** The snapshot at reset: static variables are zero, the slot is empty and
      the transceiver is in whatever condition it powered up in. */
  function PowerOn(status: TrxStatus, channel: bv8, frameBuffer: FrameBuffer): (s: Snapshot)
    ensures s.state == NotInitialized && s.callback == None
    ensures s.unknownIsr == 0 && s.rssi == 0 && s.radio.log == []
  {
    Snapshot(NotInitialized, 0, 0, None, Radio(false, false, status, channel, frameBuffer, []))
  }

  /** Write `cmd` to TRX_CMD; after the settle delay TRX_STATUS reads `outcome`. */
  function Command(r: Radio, cmd: TrxCommand, outcome: TrxStatus): Radio {
    r.(status := outcome, log := r.log + [TrxCmd(cmd)])
  }

  /** `init_rf`: bring the driver up, force TRX_OFF, and configure the
      transceiver only if TRX_OFF reads back. */
  function InitRf(s: Snapshot, off: TrxStatus): (r: Done)
    ensures r.ok <==> off == TrxOff
    ensures r.after.radio.driverUp && r.after.radio.status == off
    ensures r.after.radio.isrEnabled == (r.ok || s.radio.isrEnabled)
    ensures r.after.radio.log ==
      s.radio.log + [TrxCmd(ForceTrxOff)] + (if r.ok then ConfigWrites else [])
    ensures r.after.radio.channel == s.radio.channel
    ensures r.after.radio.frameBuffer == s.radio.frameBuffer
    ensures r.after.(radio := s.radio) == s
  {
    var radio := Command(s.radio.(driverUp := true), ForceTrxOff, off);
    if radio.status != TrxOff then
      Done(s.(radio := radio), false)
    else
      Done(s.(radio := radio.(isrEnabled := true, log := radio.log + ConfigWrites)), true)
  }

  /** `reactive_jammer_init`: reset the diagnostics, then become Idle exactly
      when `init_rf` succeeds; otherwise tear the driver down again. The prior
      state is not checked. */
  function Init(s: Snapshot, off: TrxStatus): (r: Done)
    ensures r.ok <==> off == TrxOff
    ensures r.after.unknownIsr == 0 && r.after.rssi == 0
    ensures r.after.state == (if r.ok then Idle else s.state)
    ensures r.after.radio.driverUp == r.ok
    ensures r.after.callback == s.callback
    ensures r.after.radio.log ==
      s.radio.log + [TrxCmd(ForceTrxOff)] + (if r.ok then ConfigWrites else [])
  {
    var rf := InitRf(s.(unknownIsr := 0, rssi := 0), off);
    if rf.ok then
      Done(rf.after.(state := Idle), true)
    else
      Done(rf.after.(radio := rf.after.radio.(driverUp := false)), false)
  }

  /** `reactive_jammer_deinit`: from any initialised state, shut the driver
      down and return to NotInitialized; otherwise do nothing. */
  function Deinit(s: Snapshot): (r: Snapshot)
    ensures r.state == NotInitialized
    ensures s.state == NotInitialized ==> r == s
    ensures s.state != NotInitialized ==> !r.radio.driverUp
    ensures r.callback == s.callback && r.radio.log == s.radio.log
    ensures r.unknownIsr == s.unknownIsr && r.rssi == s.rssi
  {
    if s.state != NotInitialized then
      s.(state := NotInitialized, radio := s.radio.(driverUp := false))
    else
      s
  }

  /** `reactive_jammer_set_channel`: only from Idle and only for a channel in
      [11, 26]; force TRX_OFF, and write the channel only if TRX_OFF reads
      back; succeed only if the channel register reads back `channel`. */
  function SetChannel(s: Snapshot, channel: bv8, off: TrxStatus, echo: bv8): (r: Done)
    ensures r.after.state == s.state && r.after.callback == s.callback
    ensures !(s.state == Idle && ValidChannel(channel)) ==> r == Done(s, false)
    ensures r.ok <==> s.state == Idle && ValidChannel(channel) && off == TrxOff && echo == channel
    ensures r.ok ==> r.after.radio.channel == channel
    ensures s.state == Idle && ValidChannel(channel) ==>
      r.after.radio.log == s.radio.log + [TrxCmd(ForceTrxOff)]
        + (if off == TrxOff then [ChannelWrite(channel)] else [])
  {
    if s.state != Idle then
      Done(s, false)
    else if channel < MinChannel || channel > MaxChannel then
      Done(s, false)
    else
      var radio := Command(s.radio, ForceTrxOff, off);
      if radio.status != TrxOff then
        Done(s.(radio := radio), false)
      else
        var written := radio.(channel := echo, log := radio.log + [ChannelWrite(channel)]);
        Done(s.(radio := written), written.channel == channel)
  }

  /** `jamming_listen_enable`: only from Idle; force TRX_OFF, then RX_ON, and
      register the listen handler and become BusyListening only if both
      read-backs match. */
  function ListenEnable(s: Snapshot, off: TrxStatus, rx: TrxStatus): (r: Done)
    ensures s.state != Idle ==> r == Done(s, false)
    ensures r.ok <==> s.state == Idle && off == TrxOff && rx == RxOn
    ensures r.after.state == (if r.ok then BusyListening else s.state)
    ensures r.after.callback == (if r.ok then Listen else s.callback)
    ensures r.after.unknownIsr == s.unknownIsr && r.after.rssi == s.rssi
    ensures s.state == Idle ==>
      r.after.radio.log == s.radio.log + [TrxCmd(ForceTrxOff)]
        + (if off == TrxOff then [TrxCmd(RxOnCmd)] else [])
  {
    if s.state != Idle then
      Done(s, false)
    else
      var radio := Command(s.radio, ForceTrxOff, off);
      if radio.status != TrxOff then
        Done(s.(radio := radio), false)
      else
        var listening := Command(radio, RxOnCmd, rx);
        if listening.status != RxOn then
          Done(s.(radio := listening), false)
        else
          Done(s.(radio := listening, callback := Listen, state := BusyListening), true)
  }

  /** `jamming_listen_disable`: only from BusyListening; empty the callback
      slot first, force TRX_OFF, and become Idle only if TRX_OFF reads back. */
  function ListenDisable(s: Snapshot, off: TrxStatus): (r: Done)
    ensures s.state != BusyListening ==> r == Done(s, false)
    ensures s.state == BusyListening ==>
      r.after.callback == None && r.after.radio.status == off
        && r.after.radio.log == s.radio.log + [TrxCmd(ForceTrxOff)]
    ensures r.ok <==> s.state == BusyListening && off == TrxOff
    ensures r.after.state == (if r.ok then Idle else s.state)
    ensures r.after.unknownIsr == s.unknownIsr && r.after.rssi == s.rssi
  {
    if s.state != BusyListening then
      Done(s, false)
    else
      var radio := Command(s.radio, ForceTrxOff, off);
      var closed := s.(callback := None, radio := radio);
      if radio.status != TrxOff then
        Done(closed, false)
      else
        Done(closed.(state := Idle), true)
  }

  /** `send_jamming_frame`: only from Idle with TRX_STATUS reading TRX_OFF;
      command PLL_ON and, only if PLL_ON reads back, register the
      transmission handler, start the transmission with the SLP_TR pulse,
      write the 127-byte payload and become BusyTransmitting. */
  function SendJammingFrame(s: Snapshot, pll: TrxStatus): (r: Done)
    ensures !(s.state == Idle && s.radio.status == TrxOff) ==> r == Done(s, false)
    ensures r.ok <==> s.state == Idle && s.radio.status == TrxOff && pll == PllOn
    ensures r.after.state == (if r.ok then BusyTransmitting else s.state)
    ensures r.after.callback == (if r.ok then Transmit else s.callback)
    ensures r.after.unknownIsr == s.unknownIsr && r.after.rssi == s.rssi
    ensures s.state == Idle && s.radio.status == TrxOff ==>
      r.after.radio.log == s.radio.log + [TrxCmd(PllOnCmd)]
        + (if r.ok then [SlpTrPulse, FrameWrite(JammerFrame)] else [])
    ensures r.ok ==>
      && r.after.radio.frameBuffer == [JammerFrameLength] + JammerFrame
      && r.after.radio.status == BusyTx
  {
    if s.state != Idle then
      Done(s, false)
    else if s.radio.status != TrxOff then
      Done(s, false)
    else
      var radio := Command(s.radio, PllOnCmd, pll);
      if radio.status != PllOn then
        Done(s.(radio := radio), false)
      else
        var payload := JammerFrame[..JammerFrameLength];
        assert payload == JammerFrame;
        var sending := radio.(
          status := BusyTx,
          frameBuffer := [JammerFrameLength] + payload,
          log := radio.log + [SlpTrPulse, FrameWrite(payload)]);
        Done(s.(callback := Transmit, radio := sending, state := BusyTransmitting), true)
  }

  /** `read_frame_to_buf`: the first byte of a frame-buffer read (the frame
      length) is read and ignored; the next `len` bytes are the result. The
      reported length is not compared with `len`. */
  function FrameRead(frameBuffer: FrameBuffer, len: bv8): (bytes: seq<bv8>)
    requires len as int < |frameBuffer|
    ensures |bytes| == len as int
    ensures forall i :: 0 <= i < |bytes| ==> bytes[i] == frameBuffer[i + 1]
  {
    frameBuffer[1..len as int + 1]
  }

  /** `reactive_jammer_on`: from Idle, try to enable listening and report
      success whether or not that worked; from any other state refuse. */
  function On(s: Snapshot, off: TrxStatus, rx: TrxStatus): (r: Done)
    ensures s.state != Idle ==> r == Done(s, false)
    ensures s.state == Idle ==> r.ok
    ensures s.state == Idle ==> (r.after.state == BusyListening <==> off == TrxOff && rx == RxOn)
    ensures s.state == Idle && r.after.state != BusyListening ==>
      r.after.state == s.state && r.after.callback == s.callback
  {
    if s.state != Idle then
      Done(s, false)
    else
      Done(ListenEnable(s, off, rx).after, true)
  }

  /** True when an `On` call moved the jammer from Idle into listening with
      the listen handler armed: what the interface documents as "started". */
  predicate Started(before: Snapshot, after: Snapshot) {
    before.state == Idle && after.state == BusyListening && after.callback == Listen
  }

  /** `reactive_jammer_on` as its interface documents it: report success
      exactly when listening was enabled. */
  function OnChecked(s: Snapshot, off: TrxStatus, rx: TrxStatus): (r: Done)
    ensures r.ok <==> Started(s, r.after)
    ensures r.after == On(s, off, rx).after
  {
    if s.state != Idle then
      Done(s, false)
    else
      ListenEnable(s, off, rx)
  }

  /** `reactive_jammer_off`: disable listening; nothing happens unless the
      jammer is BusyListening. */
  function Off(s: Snapshot, off: TrxStatus): (r: Snapshot)
    ensures s.state != BusyListening ==> r == s
    ensures s.state == BusyListening ==>
      r.callback == None && r.state == (if off == TrxOff then Idle else BusyListening)
  {
    ListenDisable(s, off).after
  }

  /** `jamming_listen_callback`: on RX_START sample the RSSI, copy four frame
      bytes, disable listening and send the jamming frame; on any other event
      only count it as unknown. */
  function ListenCallback(s: Snapshot, event: bv8, inputs: IsrInputs): (r: Heard)
    ensures !HasBits(event, RxStartMask) ==>
      r == Heard(s.(unknownIsr := s.unknownIsr + 1), [])
    ensures HasBits(event, RxStartMask) ==>
      && r.after.unknownIsr == s.unknownIsr
      && r.after.rssi == inputs.phyRssi & 0x1F
      && |r.header| == FrameReadLength as int
      && r.header == s.radio.frameBuffer[1..5]
    ensures HasBits(event, RxStartMask) && s.state == BusyListening ==>
      && (r.after.state == BusyTransmitting <==> inputs.forceOff == TrxOff && inputs.pllOn == PllOn)
      && (r.after.state == BusyListening <==> inputs.forceOff != TrxOff)
    ensures HasBits(event, RxStartMask) && s.state == Idle ==>
      (r.after.state == BusyTransmitting <==> s.radio.status == TrxOff && inputs.pllOn == PllOn)
    ensures s.state !in {Idle, BusyListening} ==> r.after.state == s.state
  {
    if HasBits(event, RxStartMask) then
      var sampled := s.(rssi := inputs.phyRssi & 0x1F);
      var header := FrameRead(sampled.radio.frameBuffer, FrameReadLength);
      var closed := ListenDisable(sampled, inputs.forceOff);
      var sent := SendJammingFrame(closed.after, inputs.pllOn);
      Heard(sent.after, header)
    else
      Heard(s.(unknownIsr := s.unknownIsr + 1), [])
  }

  /** True when re-enabling listening after a transmission would succeed. */
  predicate Relistens(inputs: IsrInputs) {
    inputs.continueJamming && inputs.relistenOff == TrxOff && inputs.relistenRx == RxOn
  }

  /** `jamming_transmission_callback`: on TRX_END empty the slot, force
      TRX_OFF without checking, become Idle, and re-enable listening if the
      continue flag is set; any other event changes nothing. */
  function TransmissionCallback(s: Snapshot, event: bv8, inputs: IsrInputs): (r: Snapshot)
    ensures !HasBits(event, TrxEndMask) ==> r == s
    ensures r.unknownIsr == s.unknownIsr && r.rssi == s.rssi
    ensures HasBits(event, TrxEndMask) ==>
      && r.state == (if Relistens(inputs) then BusyListening else Idle)
      && r.callback == (if Relistens(inputs) then Listen else None)
    ensures HasBits(event, TrxEndMask) && !inputs.continueJamming ==>
      r.radio.status == inputs.forceOff && r.radio.log == s.radio.log + [TrxCmd(ForceTrxOff)]
  {
    if HasBits(event, TrxEndMask) then
      var idle := s.(callback := None, radio := Command(s.radio, ForceTrxOff, inputs.forceOff), state := Idle);
      if inputs.continueJamming then
        ListenEnable(idle, inputs.relistenOff, inputs.relistenRx).after
      else
        idle
    else
      s
  }

  /** The driver's interrupt routine: call whichever handler is in the slot. */
  function Dispatch(s: Snapshot, event: bv8, inputs: IsrInputs): (r: Heard)
    ensures s.callback == None ==> r == Heard(s, [])
    ensures !HasBits(event, RxStartMask) && !HasBits(event, TrxEndMask) ==>
      && r.after.state == s.state && r.after.callback == s.callback
      && r.after.unknownIsr == (if s.callback == Listen then s.unknownIsr + 1 else s.unknownIsr)
    ensures s.callback == Transmit && HasBits(event, TrxEndMask) ==>
      r.after.state in {Idle, BusyListening}
    ensures s.callback == Listen && s.state == BusyListening && HasBits(event, RxStartMask) ==>
      r.after.state != BusyListening || inputs.forceOff != TrxOff
  {
    match s.callback
    case None => Heard(s, [])
    case Listen => ListenCallback(s, event, inputs)
    case Transmit => Heard(TransmissionCallback(s, event, inputs), [])
  }
}
