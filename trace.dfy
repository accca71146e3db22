/** Sequences of public-API calls, interrupts and frame receptions, and what
    holds after any of them: the jammer never reaches BusyJamming, the
    transmission handler is armed whenever it transmits, and every channel,
    interrupt mask and frame it ever writes to the transceiver is one the
    source allows. */
module JammerTrace {
  import opened Transceiver
  import opened JammerApi
  import opened JammerSpec

  /** One thing that can happen to the jammer. `Receive` is the transceiver
      storing an incoming frame in its frame buffer. */
  datatype Call =
    | InitCall(off: TrxStatus)
    | DeinitCall
    | SetChannelCall(channel: bv8, off: TrxStatus, echo: bv8)
    | OnCall(off: TrxStatus, rx: TrxStatus)
    | OffCall(off: TrxStatus)
    | Interrupt(event: bv8, inputs: IsrInputs)
    | Receive(frame: FrameBuffer)

  function Step(s: Snapshot, c: Call): Snapshot {
    match c
    case InitCall(off) => Init(s, off).after
    case DeinitCall => Deinit(s)
    case SetChannelCall(channel, off, echo) => SetChannel(s, channel, off, echo).after
    case OnCall(off, rx) => OnChecked(s, off, rx).after
    case OffCall(off) => Off(s, off)
    case Interrupt(event, inputs) => Dispatch(s, event, inputs).after
    case Receive(frame) => s.(radio := s.radio.(frameBuffer := frame))
  }

  function Run(s: Snapshot, calls: seq<Call>): Snapshot
    decreases |calls|
  {
    if calls == [] then s else Run(Step(s, calls[0]), calls[1..])
  }

  /** The accesses the source can issue: channels in [11, 26], the supported
      interrupt mask, and the jamming payload as the only frame. */
  predicate Sanctioned(a: Access) {
    match a
    case ChannelWrite(channel) => ValidChannel(channel)
    case IrqMask(mask) => mask == SupportedInterruptMask
    case FrameWrite(data) => data == JammerFrame
    case _ => true
  }

  predicate AllSanctioned(log: seq<Access>) {
    forall i :: 0 <= i < |log| ==> Sanctioned(log[i])
  }

  /** What every reachable snapshot satisfies. */
  predicate Consistent(s: Snapshot) {
    && s.state != BusyJamming
    && (s.state == BusyTransmitting ==> s.callback == Transmit)
    && (s.state == BusyListening ==> s.callback != Transmit)
    && AllSanctioned(s.radio.log)
  }

  lemma {:induction false} AppendSanctioned(log: seq<Access>, more: seq<Access>)
    requires AllSanctioned(log) && AllSanctioned(more)
    ensures AllSanctioned(log + more)
  {
    forall i | 0 <= i < |log + more|
      ensures Sanctioned((log + more)[i])
    {
      if i >= |log| {
        assert (log + more)[i] == more[i - |log|];
      }
    }
  }

  lemma ListenEnableConsistent(s: Snapshot, off: TrxStatus, rx: TrxStatus)
    requires Consistent(s)
    ensures Consistent(ListenEnable(s, off, rx).after)
  {
    if s.state == Idle {
      AppendSanctioned(s.radio.log,
        [TrxCmd(ForceTrxOff)] + (if off == TrxOff then [TrxCmd(RxOnCmd)] else []));
    }
  }

  lemma ListenDisableConsistent(s: Snapshot, off: TrxStatus)
    requires Consistent(s)
    ensures Consistent(ListenDisable(s, off).after)
  {
    if s.state == BusyListening {
      AppendSanctioned(s.radio.log, [TrxCmd(ForceTrxOff)]);
    }
  }

  lemma SendJammingFrameConsistent(s: Snapshot, pll: TrxStatus)
    requires Consistent(s)
    ensures Consistent(SendJammingFrame(s, pll).after)
  {
    if s.state == Idle && s.radio.status == TrxOff {
      var r := SendJammingFrame(s, pll);
      AppendSanctioned(s.radio.log, [TrxCmd(PllOnCmd)]
        + (if r.ok then [SlpTrPulse, FrameWrite(JammerFrame)] else []));
    }
  }

  lemma ListenCallbackConsistent(s: Snapshot, event: bv8, inputs: IsrInputs)
    requires Consistent(s)
    ensures Consistent(ListenCallback(s, event, inputs).after)
  {
    if HasBits(event, RxStartMask) {
      var sampled := s.(rssi := inputs.phyRssi & 0x1F);
      var closed := ListenDisable(sampled, inputs.forceOff).after;
      ListenDisableConsistent(sampled, inputs.forceOff);
      SendJammingFrameConsistent(closed, inputs.pllOn);
      assert ListenCallback(s, event, inputs).after == SendJammingFrame(closed, inputs.pllOn).after;
    }
  }

  lemma TransmissionCallbackConsistent(s: Snapshot, event: bv8, inputs: IsrInputs)
    requires Consistent(s)
    ensures Consistent(TransmissionCallback(s, event, inputs))
  {
    if HasBits(event, TrxEndMask) {
      var idle := s.(callback := None, radio := Command(s.radio, ForceTrxOff, inputs.forceOff), state := Idle);
      AppendSanctioned(s.radio.log, [TrxCmd(ForceTrxOff)]);
      if inputs.continueJamming {
        ListenEnableConsistent(idle, inputs.relistenOff, inputs.relistenRx);
      }
    }
  }

  /** Every single call keeps the snapshot consistent. */
  lemma StepConsistent(s: Snapshot, c: Call)
    requires Consistent(s)
    ensures Consistent(Step(s, c))
  {
    match c
    case InitCall(off) =>
      AppendSanctioned(s.radio.log, [TrxCmd(ForceTrxOff)] + (if off == TrxOff then ConfigWrites else []));
    case DeinitCall =>
    case SetChannelCall(channel, off, echo) =>
      if s.state == Idle && ValidChannel(channel) {
        AppendSanctioned(s.radio.log,
          [TrxCmd(ForceTrxOff)] + (if off == TrxOff then [ChannelWrite(channel)] else []));
      }
    case OnCall(off, rx) =>
      ListenEnableConsistent(s, off, rx);
    case OffCall(off) =>
      if s.state == BusyListening {
        AppendSanctioned(s.radio.log, [TrxCmd(ForceTrxOff)]);
      }
    case Interrupt(event, inputs) =>
      match s.callback {
        case None =>
        case Listen => ListenCallbackConsistent(s, event, inputs);
        case Transmit => TransmissionCallbackConsistent(s, event, inputs);
      }
    case Receive(frame) =>
  }

  /** Any sequence of calls keeps the snapshot consistent. */
  lemma {:induction false} RunConsistent(s: Snapshot, calls: seq<Call>)
    requires Consistent(s)
    ensures Consistent(Run(s, calls))
    decreases |calls|
  {
    if calls != [] {
      StepConsistent(s, calls[0]);
      RunConsistent(Step(s, calls[0]), calls[1..]);
    }
  }

  /** From power-on, whatever happens: the jammer is never BusyJamming, is
      never BusyTransmitting without the transmission handler armed, and has
      only ever written channels in [11, 26], the interrupt mask 0x0C and the
      jamming payload to the transceiver. */
  lemma Reachable(status: TrxStatus, channel: bv8, frameBuffer: FrameBuffer, calls: seq<Call>)
    ensures var s := Run(PowerOn(status, channel, frameBuffer), calls);
      && s.state != BusyJamming
      && (s.state == BusyTransmitting ==> s.callback == Transmit)
      && (s.state == BusyListening ==> s.callback != Transmit)
      && forall i :: 0 <= i < |s.radio.log| ==> Sanctioned(s.radio.log[i])
  {
    RunConsistent(PowerOn(status, channel, frameBuffer), calls);
  }

  /** The calls of the public interface other than initialisation. */
  predicate IsApiCall(c: Call) {
    c.DeinitCall? || c.SetChannelCall? || c.OnCall? || c.OffCall?
  }

  /** The boolean a call returns (false for the calls that return nothing). */
  function Reply(s: Snapshot, c: Call): bool {
    match c
    case InitCall(off) => Init(s, off).ok
    case SetChannelCall(channel, off, echo) => SetChannel(s, channel, off, echo).ok
    case OnCall(off, rx) => On(s, off, rx).ok
    case _ => false
  }

  /** While the jammer is not initialised, no call of the public interface
      other than initialisation succeeds or changes anything. */
  lemma {:induction false} UninitializedRefusesApi(s: Snapshot, calls: seq<Call>)
    requires s.state == NotInitialized
    requires forall i :: 0 <= i < |calls| ==> IsApiCall(calls[i])
    ensures Run(s, calls) == s
    ensures forall i :: 0 <= i < |calls| ==> !Reply(s, calls[i])
    decreases |calls|
  {
    if calls != [] {
      assert Step(s, calls[0]) == s;
      UninitializedRefusesApi(s, calls[1..]);
      forall i | 0 <= i < |calls|
        ensures !Reply(s, calls[i])
      {
        if i > 0 {
          assert calls[i] == calls[1..][i - 1];
        }
      }
    }
  }

  /** Power on, initialise, tune to channel 15, start jamming and receive a
      frame; its RX_START interrupt copies four bytes of it and starts the
      127-byte payload, and the TRX_END interrupt that follows returns the
      jammer to Idle with the slot empty. */
  lemma JamOneFrame(status: TrxStatus, channel: bv8, buffer: FrameBuffer,
                    frame: FrameBuffer, inputs: IsrInputs)
    requires inputs.forceOff == TrxOff && inputs.pllOn == PllOn && !inputs.continueJamming
    ensures var armed := Run(PowerOn(status, channel, buffer),
        [InitCall(TrxOff), SetChannelCall(15, TrxOff, 15), OnCall(TrxOff, RxOn), Receive(frame)]);
      var heard := Dispatch(armed, RxStartMask, inputs);
      var done := Dispatch(heard.after, TrxEndMask, inputs).after;
      && armed.state == BusyListening && armed.callback == Listen && armed.radio.channel == 15
      && heard.header == frame[1..5]
      && heard.after.state == BusyTransmitting && heard.after.callback == Transmit
      && heard.after.radio.log[|heard.after.radio.log| - 1] == FrameWrite(JammerFrame)
      && done.state == Idle && done.callback == None
  {
    var s0 := PowerOn(status, channel, buffer);
    var calls := [InitCall(TrxOff), SetChannelCall(15, TrxOff, 15), OnCall(TrxOff, RxOn), Receive(frame)];
    var s1 := Step(s0, calls[0]);
    var s2 := Step(s1, calls[1]);
    var s3 := Step(s2, calls[2]);
    var s4 := Step(s3, calls[3]);
    assert s1.state == Idle;
    assert s2.state == Idle && s2.radio.channel == 15;
    assert s3.state == BusyListening && s3.callback == Listen;
    var rest := calls[1..];
    assert rest[0] == calls[1] && rest[1..][0] == calls[2] && rest[1..][1..][0] == calls[3];
    assert rest[1..][1..][1..] == [];
    assert Run(s0, calls) == Run(s1, rest);
    assert Run(s1, rest) == Run(s2, rest[1..]);
    assert Run(s2, rest[1..]) == Run(s3, rest[1..][1..]);
    assert Run(s3, rest[1..][1..]) == s4;
  }

  /** An RX_START whose FORCE_TRX_OFF does not read back leaves the jammer
      BusyListening with the callback slot empty: later interrupts do
      nothing, and only `reactive_jammer_off` with a good read-back returns it
      to Idle. */
  lemma FailedDisableStrandsListening(s: Snapshot, inputs: IsrInputs, event: bv8, later: IsrInputs)
    requires s.state == BusyListening && s.callback == Listen && inputs.forceOff != TrxOff
    ensures var stranded := Dispatch(s, RxStartMask, inputs).after;
      && stranded.state == BusyListening && stranded.callback == None
      && Dispatch(stranded, event, later).after == stranded
      && Off(stranded, TrxOff).state == Idle
  {
    var sampled := s.(rssi := inputs.phyRssi & 0x1F);
    assert Dispatch(s, RxStartMask, inputs).after
      == SendJammingFrame(ListenDisable(sampled, inputs.forceOff).after, inputs.pllOn).after;
  }

  /** Idle does not imply that the transceiver is off: a channel change whose
      FORCE_TRX_OFF does not read back leaves the jammer Idle with the
      transceiver in whatever state it reported. */
  lemma IdleWithoutTrxOff(status: TrxStatus, channel: bv8, buffer: FrameBuffer)
    ensures var s := Run(PowerOn(status, channel, buffer), [InitCall(TrxOff), SetChannelCall(15, PllOn, 15)]);
      s.state == Idle && s.radio.status == PllOn
  {
    var calls := [InitCall(TrxOff), SetChannelCall(15, PllOn, 15)];
    var s1 := Step(PowerOn(status, channel, buffer), calls[0]);
    assert calls[1..][0] == calls[1] && calls[1..][1..] == [];
    assert Run(s1, calls[1..]) == Step(s1, calls[1]);
  }

  /** `rf230_deinit` and `rf230_init` leave the callback slot alone, and the
      driver dispatches whatever the slot holds: deinitialising while
      listening and initialising again leaves the jammer Idle with the listen
      handler still armed, so the next RX_START jams without any
      `reactive_jammer_on`. */
  lemma ReinitKeepsListenHandler(s: Snapshot, inputs: IsrInputs)
    requires s.state == BusyListening && s.callback == Listen
    requires inputs.forceOff == TrxOff && inputs.pllOn == PllOn
    ensures var again := Init(Deinit(s), TrxOff).after;
      && again.state == Idle && again.callback == Listen
      && Dispatch(again, RxStartMask, inputs).after.state == BusyTransmitting
  {
  }
}
