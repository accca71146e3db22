# Reactive jammer control logic (RZUSBSTICK firmware), modelled in Dafny

The reactive jammer of the KillerBee RZUSBSTICK firmware listens on one IEEE
802.15.4 channel. When the AT86RF230 transceiver signals the start of a frame
(RX_START), it aborts reception and transmits a fixed 127-byte jamming
payload. The frame being sent is then corrupted. The firmware is one
sequential state machine over a few globals: `rj_state`, `rj_unknown_isr`,
`rj_rssi`, the RF230 driver's single callback slot, and the transceiver's
TRX_STATUS and channel registers. Each operation checks a state precondition,
writes a command, reads it back, and advances `rj_state` only if the
read-back matches.

The project has six files:

- `transceiver.dfy` (module `Transceiver`): TRX_STATUS values, TRX_CMD
  commands, the register accesses the jammer issues, the RX_START/TRX_END
  interrupt bits (0x04 and 0x08, whose union is the supported mask 0x0C) and
  the 128-byte frame buffer (a length byte and a 127-byte PSDU).
- `api.dfy` (module `JammerApi`): the constants of `reactive_jammer.h`. These
  are channels 11 to 26, the 2.4 GHz O-QPSK channels of section 6.1.2 of IEEE
  802.15.4-2006. `RJ_MAX_FRAME_SIZE` is 1 + 127 + 1, where 127 is
  aMaxPHYPacketSize from section 6.4.1 of the same standard.
- `spec.dfy` (module `JammerSpec`): a snapshot of all that state, and one
  transition function per C function. Each value the hardware reads back is
  an explicit argument (the "outcome" of a command). A failed verification is
  therefore an ordinary branch.
- `jammer.dfy` (module `ReactiveJammer`): class `Jammer`. It holds the
  globals, the callback slot and the transceiver registers as fields. Each
  method follows its C function statement by statement. Each method is proved
  to leave exactly the snapshot that the matching `JammerSpec` function gives.
  `ReadFrameToBuf` copies into an array with a loop, as the C code does.
- `trace.dfy` (module `JammerTrace`): arbitrary sequences of API calls,
  interrupts and frame receptions. It holds the invariant kept along any such
  sequence, and scenarios.
- `contracts.dfy` (module `JammerContracts`): the return contracts documented
  in `reactive_jammer.h`, checked against the model.

Modelling choices:

- **Hardware read-backs.** The TRX_STATUS read after each command is a
  parameter. The read at the start of `send_jamming_frame`, which follows no
  command, reads the current status. The channel register after a write holds
  the read-back value `echo`.
- **Starting a transmission.** The SLP_TR pulse after a verified PLL_ON is
  taken to start the transmission: the status becomes BUSY_TX.
- **The continue flag.** `rj_should_continue_jamming` is used at
  reactive_jammer.c:378 but never defined. It is a field of the interrupt
  inputs (`IsrInputs.continueJamming`), so it can take either value at each
  TRX_END.
- **The transmission-callback prototype.** The prototype
  `transmission_callback` (reactive_jammer.c:68) names no defined function.
  The model uses the defined `jamming_transmission_callback`, which is what
  reactive_jammer.c:276 registers.
- **`rj_unknown_isr`.** It is `uint8_t`, so it is a `bv8` and its increment
  wraps at 256.
- **The RSSI sample.** It is the PHY_RSSI register masked with 0x1F, as the
  quick subregister read at reactive_jammer.c:346 does.
- **Behaviour of the code that the model keeps:**
  - Unknown interrupts are counted only by the listen handler, for any event
    without the RX_START bit. The transmission handler ignores such events,
    and an empty slot does nothing.
  - `reactive_jammer_init` does not check that the jammer was uninitialised.
  - An RX_START can leave the jammer BusyListening with an empty slot. This
    happens when the FORCE_TRX_OFF read-back fails
    (`JammerTrace.FailedDisableStrandsListening`).
  - Idle does not imply that the transceiver is off
    (`JammerTrace.IdleWithoutTrxOff`). The transmission handler also sets Idle
    without checking the status.

## Model

| member | source | states |
|---|---|---|
| `JammerSpec.PowerOn` | firmware/src/kb-rzusbstick/application/rzusbstick/reactive_jammer.c:48-51 | the jammer starts NotInitialized, with both counters zero, the slot empty and nothing written to the transceiver |
| `ReactiveJammer.Jammer.constructor` | firmware/src/kb-rzusbstick/application/rzusbstick/reactive_jammer.c:48-51 | the object starts in the power-on snapshot |
| `JammerSpec.InitRf` | firmware/src/kb-rzusbstick/application/rzusbstick/reactive_jammer.c:83-120 | succeeds iff TRX_STATUS reads TRX_OFF after FORCE_TRX_OFF; only then are the clock, auto-CRC and IRQ-mask 0x0C writes issued and the interrupt line enabled; the jammer's own variables are untouched |
| `ReactiveJammer.Jammer.InitRf` | firmware/src/kb-rzusbstick/application/rzusbstick/reactive_jammer.c:83-120 | the C code step by step leaves exactly the `JammerSpec.InitRf` snapshot and result |
| `JammerSpec.Init` | firmware/src/kb-rzusbstick/application/rzusbstick/reactive_jammer.c:123-136 | zeroes `rj_unknown_isr` and `rj_rssi`; returns true iff the TRX_OFF read-back succeeds; then the state is Idle, otherwise the state is unchanged and the driver is down |
| `ReactiveJammer.Jammer.Init` | firmware/src/kb-rzusbstick/application/rzusbstick/reactive_jammer.c:123-136 | follows `JammerSpec.Init` exactly |
| `JammerSpec.Deinit` | firmware/src/kb-rzusbstick/application/rzusbstick/reactive_jammer.c:139-151 | ends NotInitialized; a no-op when already NotInitialized; otherwise the driver is down; no register write, slot and counters unchanged |
| `ReactiveJammer.Jammer.Deinit` | firmware/src/kb-rzusbstick/application/rzusbstick/reactive_jammer.c:139-151 | follows `JammerSpec.Deinit` exactly |
| `JammerContracts.DeinitIdempotent` | firmware/src/kb-rzusbstick/application/rzusbstick/reactive_jammer.c:139-151 | deinitialising twice is the same as deinitialising once |
| `JammerSpec.SetChannel` | firmware/src/kb-rzusbstick/application/rzusbstick/reactive_jammer.c:154-178 | outside Idle or outside [11, 26]: false with nothing changed and nothing written; true iff TRX_OFF and then the channel read back; the channel is written only after TRX_OFF is verified; never changes the state or the slot |
| `ReactiveJammer.Jammer.SetChannel` | firmware/src/kb-rzusbstick/application/rzusbstick/reactive_jammer.c:154-178 | follows `JammerSpec.SetChannel` exactly |
| `JammerContracts.SetChannelMeetsHeader` | firmware/src/kb-rzusbstick/include/application/rzusbstick/reactive_jammer.h:56-65 | returns true exactly when the channel was written and reads back the requested channel |
| `JammerSpec.On` | firmware/src/kb-rzusbstick/application/rzusbstick/reactive_jammer.c:209-216 | outside Idle: false with nothing changed; from Idle: always true, and listening starts iff both read-backs match, otherwise state and slot are unchanged |
| `ReactiveJammer.Jammer.On` | firmware/src/kb-rzusbstick/application/rzusbstick/reactive_jammer.c:209-216 | follows `JammerSpec.On` exactly, as written |
| `JammerContracts.OnReportsStartWithoutListening` | firmware/src/kb-rzusbstick/application/rzusbstick/reactive_jammer.c:209-216 | from Idle with a failing read-back, `reactive_jammer_on` returns true although the jammer stays Idle and was not started |
| `JammerSpec.OnChecked` | firmware/src/kb-rzusbstick/include/application/rzusbstick/reactive_jammer.h:67-74 | the documented contract: true iff the jammer went from Idle to listening with the listen handler armed; same effect on the state as the code |
| `JammerSpec.Off` | firmware/src/kb-rzusbstick/application/rzusbstick/reactive_jammer.c:222-225 | changes nothing unless BusyListening; from there empties the slot and becomes Idle iff TRX_OFF reads back |
| `ReactiveJammer.Jammer.Off` | firmware/src/kb-rzusbstick/application/rzusbstick/reactive_jammer.c:222-225 | follows `JammerSpec.Off` exactly |
| `JammerSpec.FrameRead` | firmware/src/kb-rzusbstick/application/rzusbstick/reactive_jammer.c:227-257 | the length byte is skipped; the result is the next `len` bytes of the frame buffer, whatever the reported length |
| `ReactiveJammer.Jammer.ReadFrameToBuf` | firmware/src/kb-rzusbstick/application/rzusbstick/reactive_jammer.c:227-257 | the copy loop fills the first `len` cells of the destination with those bytes and leaves the rest unchanged |
| `JammerSpec.SendJammingFrame` | firmware/src/kb-rzusbstick/application/rzusbstick/reactive_jammer.c:259-289 | unless Idle with TRX_STATUS = TRX_OFF: false, nothing written; else PLL_ON is commanded and the call succeeds iff PLL_ON reads back; success arms the transmission handler, writes the 127-byte payload and makes the state BusyTransmitting; failure leaves the state and the slot unchanged |
| `ReactiveJammer.Jammer.SendJammingFrame` | firmware/src/kb-rzusbstick/application/rzusbstick/reactive_jammer.c:259-289 | follows `JammerSpec.SendJammingFrame` exactly |
| `JammerSpec.ListenEnable` | firmware/src/kb-rzusbstick/application/rzusbstick/reactive_jammer.c:291-316 | acts only from Idle; BusyListening with the listen handler armed iff TRX_OFF then RX_ON read back; otherwise false with the state and the slot unchanged |
| `ReactiveJammer.Jammer.ListenEnable` | firmware/src/kb-rzusbstick/application/rzusbstick/reactive_jammer.c:291-316 | follows `JammerSpec.ListenEnable` exactly |
| `JammerSpec.ListenDisable` | firmware/src/kb-rzusbstick/application/rzusbstick/reactive_jammer.c:318-335 | acts only from BusyListening; the slot is emptied before the check; Idle iff TRX_OFF reads back, otherwise still BusyListening with the slot empty |
| `ReactiveJammer.Jammer.ListenDisable` | firmware/src/kb-rzusbstick/application/rzusbstick/reactive_jammer.c:318-335 | follows `JammerSpec.ListenDisable` exactly |
| `JammerSpec.ListenCallback` | firmware/src/kb-rzusbstick/application/rzusbstick/reactive_jammer.c:342-367 | without RX_START: only `rj_unknown_isr` grows by one (mod 256); with RX_START: RSSI is sampled, exactly four bytes after the length byte are copied, and from BusyListening it ends BusyTransmitting iff both the disable and the send succeed, and stays BusyListening iff the disable fails |
| `ReactiveJammer.Jammer.ListenCallback` | firmware/src/kb-rzusbstick/application/rzusbstick/reactive_jammer.c:342-367 | follows `JammerSpec.ListenCallback` exactly, returning the bytes it copied |
| `JammerSpec.TransmissionCallback` | firmware/src/kb-rzusbstick/application/rzusbstick/reactive_jammer.c:369-382 | without TRX_END: nothing changes (the unknown counter included); with TRX_END: FORCE_TRX_OFF unverified, then Idle with the slot empty, or BusyListening with the listen handler if the continue flag is set and both re-listen read-backs succeed |
| `ReactiveJammer.Jammer.TransmissionCallback` | firmware/src/kb-rzusbstick/application/rzusbstick/reactive_jammer.c:369-382 | follows `JammerSpec.TransmissionCallback` exactly |
| `JammerSpec.Dispatch` | firmware/src/kb-rzusbstick/application/rzusbstick/reactive_jammer.c:342-382 | the single slot decides which handler runs; an empty slot changes nothing; an event with neither bit changes neither state nor slot and is counted only by the listen handler; TRX_END with the transmission handler ends Idle or BusyListening |
| `ReactiveJammer.Jammer.Dispatch` | firmware/src/kb-rzusbstick/application/rzusbstick/reactive_jammer.c:342-382 | follows `JammerSpec.Dispatch` exactly |
| `JammerTrace.AppendSanctioned` | firmware/src/kb-rzusbstick/application/rzusbstick/reactive_jammer.c:101-112 | appending permitted accesses to a log of permitted accesses keeps it permitted |
| `JammerTrace.ListenEnableConsistent` | firmware/src/kb-rzusbstick/application/rzusbstick/reactive_jammer.c:291-316 | enabling listening keeps the invariant `Consistent` |
| `JammerTrace.ListenDisableConsistent` | firmware/src/kb-rzusbstick/application/rzusbstick/reactive_jammer.c:318-335 | disabling listening keeps `Consistent` |
| `JammerTrace.SendJammingFrameConsistent` | firmware/src/kb-rzusbstick/application/rzusbstick/reactive_jammer.c:259-289 | sending keeps `Consistent`; the only frame written is the payload |
| `JammerTrace.ListenCallbackConsistent` | firmware/src/kb-rzusbstick/application/rzusbstick/reactive_jammer.c:342-367 | the listen handler keeps `Consistent` |
| `JammerTrace.TransmissionCallbackConsistent` | firmware/src/kb-rzusbstick/application/rzusbstick/reactive_jammer.c:369-382 | the transmission handler keeps `Consistent` |
| `JammerTrace.StepConsistent` | firmware/src/kb-rzusbstick/application/rzusbstick/reactive_jammer.c:123-382 | every API call, interrupt or frame reception keeps `Consistent` |
| `JammerTrace.RunConsistent` | firmware/src/kb-rzusbstick/application/rzusbstick/reactive_jammer.c:123-382 | any sequence of them keeps `Consistent` |
| `JammerTrace.Reachable` | firmware/src/kb-rzusbstick/application/rzusbstick/reactive_jammer.c:34-48 | from power-on, whatever happens: never BusyJamming (declared, never assigned); BusyTransmitting only with the transmission handler armed; BusyListening never with it; only channels in [11, 26], the IRQ mask 0x0C and the 127-byte payload are ever written |
| `JammerTrace.UninitializedRefusesApi` | firmware/src/kb-rzusbstick/application/rzusbstick/reactive_jammer.c:154-225 | while NotInitialized, any sequence of set-channel, on, off and deinit calls changes nothing and every call returns false |
| `JammerContracts.InitFailureEndsApi` | firmware/src/kb-rzusbstick/include/application/rzusbstick/reactive_jammer.h:36-45 | after a failed init from NotInitialized the jammer stays NotInitialized with the driver down, and no other API call changes anything or succeeds |
| `JammerContracts.DeinitEndsApi` | firmware/src/kb-rzusbstick/include/application/rzusbstick/reactive_jammer.h:47-54 | after deinit no other API call changes anything or succeeds |
| `JammerContracts.JammerFrameFits` | firmware/src/kb-rzusbstick/include/application/rzusbstick/reactive_jammer.h:31 | the payload is 127 bytes, fills the frame buffer after the length byte, and plus length and LQI bytes equals RJ_MAX_FRAME_SIZE = 129 |
| `JammerTrace.JamOneFrame` | firmware/src/kb-rzusbstick/application/rzusbstick/reactive_jammer.c:342-382 | init, channel 15, on, a received frame: RX_START copies bytes 1..4 of it and ends BusyTransmitting with the payload as the last write; TRX_END then returns to Idle with the slot empty |
| `JammerTrace.FailedDisableStrandsListening` | firmware/src/kb-rzusbstick/application/rzusbstick/reactive_jammer.c:318-367 | an RX_START whose FORCE_TRX_OFF fails leaves BusyListening with an empty slot; later interrupts do nothing; `reactive_jammer_off` with a good read-back recovers |
| `JammerTrace.ReinitKeepsListenHandler` | firmware/src/kb-rzusbstick/application/rzusbstick/reactive_jammer.c:123-151 | deinit while listening followed by a successful init leaves Idle with the listen handler still armed, and the next RX_START ends BusyTransmitting |
| `JammerTrace.IdleWithoutTrxOff` | firmware/src/kb-rzusbstick/application/rzusbstick/reactive_jammer.c:154-178 | a failed channel change leaves Idle with the transceiver not in TRX_OFF |

## Findings

| source | as written | input that shows it | evidently intended | confidence | as-written member | corrected member |
|---|---|---|---|---|---|---|
| firmware/src/kb-rzusbstick/application/rzusbstick/reactive_jammer.c:209-216 | `reactive_jammer_on` ignores the result of `jamming_listen_enable` and returns true whenever the state was Idle | state Idle, TRX_STATUS reads anything but TRX_OFF after FORCE_TRX_OFF (or anything but RX_ON after RX_ON): returns true, state stays Idle, no handler registered | return false when listening could not be enabled, as reactive_jammer.h:67-74 documents ("Jammer could not be started") | medium (not executed) | `JammerContracts.OnReportsStartWithoutListening` | `JammerSpec.OnChecked` |

The class method `ReactiveJammer.Jammer.On` models the code as written.
`JammerTrace.Step` takes the effect of an "on" call from `OnChecked`, whose
effect on the snapshot is proved equal to the code's. `JammerTrace.Reply`
takes the returned value from `On`, as the code returns it.

## Left out

- The `reactive_jammer()` loop (reactive_jammer.c:180-206) is never called.
  It depends on the undefined `wait_for_rx_start` and on `malloc`. Its
  listen, capture, disable and send cycle is the body of `ListenCallback`.
- `wait_for_state_idle` (reactive_jammer.c:384-388) is a busy-wait that ends
  only when interrupt context changes the state. Preemption is not modelled.
  Interrupts are sequential calls of `Dispatch` between API calls.
- SPI transfers, the SS, SLP_TR, RST and TST pins, and the settle delays are
  abstracted. Each register access is one step, and the frame-buffer burst
  read is a read of the stored frame.
- LEDs are left out. The internals of `rf230_init`, `rf230_deinit` and the
  driver's interrupt routine are not part of this model. Init and deinit
  change only the `driverUp` flag: the model assumes they leave the callback
  slot and the channel register alone. An interrupt with an empty slot does
  nothing.
- The transceiver's reset pulse in `init_rf` is not modelled as resetting
  its registers.
- The `malloc` without `free` in the listen handler
  (reactive_jammer.c:351) is not modelled. The four-byte buffer is a fresh
  array, returned as `header`.
- `ReactiveJammer.Jammer.ReadFrameToBuf`: requires `len` to be at most 127
  and no larger than the destination. The source checks neither, and reading
  past the frame buffer is hardware behaviour the model does not define.
- `JammerTrace.UninitializedRefusesApi` covers API calls only, not
  interrupts. The model assumes `rf230_deinit` leaves the slot alone, so a
  TRX_END arriving after deinit from BusyTransmitting would still run the
  transmission handler. For the same reason, deinitialising while listening
  and initialising again leaves the listen handler armed, and the next
  RX_START jams without a call of `reactive_jammer_on`
  (`JammerTrace.ReinitKeepsListenHandler`).
- `JammerSpec.FrameRead`: assumes that the first byte clocked in after the
  frame-read command is the frame length (PHR) and that the `len` bytes
  after it are the PSDU. The C file does not settle this: it depends on the
  transceiver's SPI frame-read protocol, which is not part of this model.
- `BusyJamming` (reactive_jammer.c:37) is declared but never assigned. It is
  in the datatype, and `JammerTrace.Reachable` proves it is never reached.
