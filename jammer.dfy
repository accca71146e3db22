/** The reactive jammer as the firmware runs it: the file-level variables of
    the jammer, the driver's callback slot and the transceiver registers are
    the fields of one object, and each method follows its C function statement
    by statement. Each method is proved to produce exactly the snapshot that
    the corresponding function of JammerSpec gives, so every property proved
    there holds of this code. */
module ReactiveJammer {
  import opened Transceiver
  import opened JammerApi
  import opened JammerSpec

  class Jammer {
    // rj_state, rj_unknown_isr and rj_rssi.
    var state: RjState
    var unknownIsr: bv8
    var rssi: bv8
    // The RF230 driver's callback slot.
    var callback: Callback
    // The transceiver: driver up, interrupt line enabled, TRX_STATUS, the
    // channel register, the frame buffer, and the accesses issued so far.
    var driverUp: bool
    var isrEnabled: bool
    var trxStatus: TrxStatus
    var channelReg: bv8
    var frameBuffer: FrameBuffer
    var log: seq<Access>

    /** The object as a snapshot. */
    function Model(): Snapshot
      reads this
    {
      Snapshot(state, unknownIsr, rssi, callback,
        Radio(driverUp, isrEnabled, trxStatus, channelReg, frameBuffer, log))
    }

    /** Reset: the static variables start as the C file declares them. */
    constructor (status: TrxStatus, channel: bv8, buffer: FrameBuffer)
      ensures Model() == PowerOn(status, channel, buffer)
    {
      state := NotInitialized;
      unknownIsr, rssi := 0, 0;
      callback := None;
      driverUp, isrEnabled := false, false;
      trxStatus, channelReg, frameBuffer := status, channel, buffer;
      log := [];
    }

    // ---- Transceiver register interface ----

    /** Write `cmd` to TRX_CMD and wait; the transceiver lands in `outcome`. */
    method WriteTrxCmd(cmd: TrxCommand, outcome: TrxStatus)
      modifies this
      ensures Model() == old(Model()).(radio := Command(old(Model()).radio, cmd, outcome))
    {
      log := log + [TrxCmd(cmd)];
      trxStatus := outcome;
    }

    /** Read the TRX_STATUS subregister. */
    method ReadTrxStatus() returns (status: TrxStatus)
      ensures status == trxStatus
    {
      status := trxStatus;
    }

    /** Write a configuration register. */
    method WriteRegister(access: Access)
      modifies this
      ensures Model() == old(Model()).(radio := old(Model()).radio.(log := old(log) + [access]))
    {
      log := log + [access];
    }

    /** Write the channel subregister; it then holds `echo`. */
    method WriteChannel(channel: bv8, echo: bv8)
      modifies this
      ensures Model() == old(Model()).(radio := old(Model()).radio.(
        channel := echo, log := old(log) + [ChannelWrite(channel)]))
    {
      log := log + [ChannelWrite(channel)];
      channelReg := echo;
    }

    /** Read the channel subregister. */
    method ReadChannel() returns (channel: bv8)
      ensures channel == channelReg
    {
      channel := channelReg;
    }

    // ---- reactive_jammer.c ----

    /** `init_rf`. */
    method InitRf(off: TrxStatus) returns (ok: bool)
      modifies this
      ensures Model() == JammerSpec.InitRf(old(Model()), off).after
      ensures ok == JammerSpec.InitRf(old(Model()), off).ok
    {
      driverUp := true;
      WriteTrxCmd(ForceTrxOff, off);
      ok := false;
      var status := ReadTrxStatus();
      if status == TrxOff {
        WriteRegister(ClkmShaSel(0));
        WriteRegister(ClkmCtrl(0));
        WriteRegister(TxAutoCrcOn(1));
        WriteRegister(IrqMask(SupportedInterruptMask));
        isrEnabled := true;
        ok := true;
      }
    }

    /** `reactive_jammer_init`. */
    method Init(off: TrxStatus) returns (ok: bool)
      modifies this
      ensures Model() == JammerSpec.Init(old(Model()), off).after
      ensures ok == JammerSpec.Init(old(Model()), off).ok
    {
      unknownIsr := 0;
      rssi := 0;
      ok := InitRf(off);
      if ok {
        state := Idle;
      } else {
        driverUp := false;
      }
    }

    /** `reactive_jammer_deinit`. */
    method Deinit()
      modifies this
      ensures Model() == JammerSpec.Deinit(old(Model()))
    {
      if state != NotInitialized {
        driverUp := false;
        state := NotInitialized;
      }
    }

    /** `reactive_jammer_set_channel`. */
    method SetChannel(channel: bv8, off: TrxStatus, echo: bv8) returns (ok: bool)
      modifies this
      ensures Model() == JammerSpec.SetChannel(old(Model()), channel, off, echo).after
      ensures ok == JammerSpec.SetChannel(old(Model()), channel, off, echo).ok
    {
      if state != Idle { return false; }
      if channel < MinChannel || channel > MaxChannel { return false; }
      WriteTrxCmd(ForceTrxOff, off);
      ok := false;
      var status := ReadTrxStatus();
      if status == TrxOff {
        WriteChannel(channel, echo);
        var readBack := ReadChannel();
        if channel == readBack {
          ok := true;
        }
      }
    }

    /** `reactive_jammer_on`. */
    method On(off: TrxStatus, rx: TrxStatus) returns (ok: bool)
      modifies this
      ensures Model() == JammerSpec.On(old(Model()), off, rx).after
      ensures ok == JammerSpec.On(old(Model()), off, rx).ok
    {
      if state != Idle { return false; }
      var listening := ListenEnable(off, rx);
      ok := true;
    }

    /** `reactive_jammer_off`. */
    method Off(off: TrxStatus)
      modifies this
      ensures Model() == JammerSpec.Off(old(Model()), off)
    {
      var closed := ListenDisable(off);
    }

    /** `read_frame_to_buf`: skip the length byte, then copy `len` bytes of
        the frame buffer into `dst` one at a time. */
    method ReadFrameToBuf(dst: array<bv8>, len: bv8)
      requires len as int < |frameBuffer| && len as int <= dst.Length
      modifies dst
      ensures dst[..len] == FrameRead(frameBuffer, len)
      ensures dst[len..] == old(dst[len..])
    {
      var frameLength := frameBuffer[0];
      var n := len as int;
      var i := 0;
      while i < n
        invariant 0 <= i <= n
        invariant forall k :: 0 <= k < i ==> dst[k] == frameBuffer[k + 1]
        invariant forall k :: n <= k < dst.Length ==> dst[k] == old(dst[k])
      {
        dst[i] := frameBuffer[i + 1];
        i := i + 1;
      }
      assert dst[..n] == FrameRead(frameBuffer, len);
    }

    /** `send_jamming_frame`. */
    method SendJammingFrame(pll: TrxStatus) returns (ok: bool)
      modifies this
      ensures Model() == JammerSpec.SendJammingFrame(old(Model()), pll).after
      ensures ok == JammerSpec.SendJammingFrame(old(Model()), pll).ok
    {
      if state != Idle { return false; }
      var status := ReadTrxStatus();
      if status != TrxOff { return false; }
      WriteTrxCmd(PllOnCmd, pll);
      ok := false;
      status := ReadTrxStatus();
      if status == PllOn {
        callback := Transmit;
        log := log + [SlpTrPulse];
        trxStatus := BusyTx;
        var payload := JammerFrame[..JammerFrameLength];
        frameBuffer := [JammerFrameLength] + payload;
        log := log + [FrameWrite(payload)];
        state := BusyTransmitting;
        ok := true;
      }
    }

    /** `jamming_listen_enable`. */
    method ListenEnable(off: TrxStatus, rx: TrxStatus) returns (ok: bool)
      modifies this
      ensures Model() == JammerSpec.ListenEnable(old(Model()), off, rx).after
      ensures ok == JammerSpec.ListenEnable(old(Model()), off, rx).ok
    {
      if state != Idle { return false; }
      WriteTrxCmd(ForceTrxOff, off);
      ok := false;
      var status := ReadTrxStatus();
      if status == TrxOff {
        WriteTrxCmd(RxOnCmd, rx);
        status := ReadTrxStatus();
        if status == RxOn {
          callback := Listen;
          state := BusyListening;
          ok := true;
        }
      }
    }

    /** `jamming_listen_disable`. */
    method ListenDisable(off: TrxStatus) returns (ok: bool)
      modifies this
      ensures Model() == JammerSpec.ListenDisable(old(Model()), off).after
      ensures ok == JammerSpec.ListenDisable(old(Model()), off).ok
    {
      if state != BusyListening { return false; }
      callback := None;
      WriteTrxCmd(ForceTrxOff, off);
      ok := false;
      var status := ReadTrxStatus();
      if status == TrxOff {
        state := Idle;
        ok := true;
      }
    }

    /** `jamming_listen_callback`; `header` is the local buffer it fills. */
    method ListenCallback(event: bv8, inputs: IsrInputs) returns (header: seq<bv8>)
      modifies this
      ensures Model() == JammerSpec.ListenCallback(old(Model()), event, inputs).after
      ensures header == JammerSpec.ListenCallback(old(Model()), event, inputs).header
    {
      if HasBits(event, RxStartMask) {
        rssi := inputs.phyRssi & 0x1F;
        var buf := new bv8[FrameReadLength as int];
        ReadFrameToBuf(buf, FrameReadLength);
        header := buf[..];
        var closed := ListenDisable(inputs.forceOff);
        var sent := SendJammingFrame(inputs.pllOn);
      } else {
        unknownIsr := unknownIsr + 1;
        header := [];
      }
    }

    /** `jamming_transmission_callback`. */
    method TransmissionCallback(event: bv8, inputs: IsrInputs)
      modifies this
      ensures Model() == JammerSpec.TransmissionCallback(old(Model()), event, inputs)
    {
      if HasBits(event, TrxEndMask) {
        callback := None;
        WriteTrxCmd(ForceTrxOff, inputs.forceOff);
        state := Idle;
        if inputs.continueJamming {
          var listening := ListenEnable(inputs.relistenOff, inputs.relistenRx);
        }
      }
    }

    /** The driver's interrupt routine: run the handler in the slot. */
    method Dispatch(event: bv8, inputs: IsrInputs) returns (header: seq<bv8>)
      modifies this
      ensures Model() == JammerSpec.Dispatch(old(Model()), event, inputs).after
      ensures header == JammerSpec.Dispatch(old(Model()), event, inputs).header
    {
      match callback
      case None =>
        header := [];
      case Listen =>
        header := ListenCallback(event, inputs);
      case Transmit =>
        TransmissionCallback(event, inputs);
        header := [];
    }
  }
}
