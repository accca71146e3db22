/** The return contracts documented for the public interface, checked
    against the model of the implementation. */
module JammerContracts {
  import opened Transceiver
  import opened JammerApi
  import opened JammerSpec
  import opened JammerTrace

  /** The payload is one maximum-size PSDU: it fills the frame buffer after
      the length byte and leaves room for the link-quality byte within the
      largest frame the interface handles. */
  lemma JammerFrameFits()
    ensures |JammerFrame| == JammerFrameLength as int == MaxPsduSize
    ensures 1 + |JammerFrame| == FrameBufferSize
    ensures 1 + |JammerFrame| + 1 == MaxFrameSize
  {
  }

  /** "Channel was changed successfully": the channel subregister was written
      with `channel` and now reads it back. */
  predicate ChannelChanged(before: Snapshot, after: Snapshot, channel: bv8) {
    && after.radio.log == before.radio.log + [TrxCmd(ForceTrxOff), ChannelWrite(channel)]
    && after.radio.channel == channel
  }

  /** `reactive_jammer_set_channel` returns true exactly when it changed the
      channel. */
  lemma SetChannelMeetsHeader(s: Snapshot, channel: bv8, off: TrxStatus, echo: bv8)
    ensures SetChannel(s, channel, off, echo).ok
      <==> ChannelChanged(s, SetChannel(s, channel, off, echo).after, channel)
  {
  }

  /** After a failed `reactive_jammer_init` from power-on the jammer stays
      uninitialised with the driver down, and no call of the interface
      changes that or succeeds. */
  lemma InitFailureEndsApi(s: Snapshot, off: TrxStatus, calls: seq<Call>)
    requires s.state == NotInitialized && off != TrxOff
    requires forall i :: 0 <= i < |calls| ==> IsApiCall(calls[i])
    ensures !Init(s, off).ok
    ensures Init(s, off).after.state == NotInitialized && !Init(s, off).after.radio.driverUp
    ensures Run(Init(s, off).after, calls) == Init(s, off).after
    ensures forall i :: 0 <= i < |calls| ==> !Reply(Init(s, off).after, calls[i])
  {
    UninitializedRefusesApi(Init(s, off).after, calls);
  }

  /** After `reactive_jammer_deinit` no call of the interface other than
      initialisation succeeds or changes anything. */
  lemma DeinitEndsApi(s: Snapshot, calls: seq<Call>)
    requires forall i :: 0 <= i < |calls| ==> IsApiCall(calls[i])
    ensures Run(Deinit(s), calls) == Deinit(s)
    ensures forall i :: 0 <= i < |calls| ==> !Reply(Deinit(s), calls[i])
  {
    UninitializedRefusesApi(Deinit(s), calls);
  }

  /** Deinitialising twice is deinitialising once. */
  lemma DeinitIdempotent(s: Snapshot)
    ensures Deinit(Deinit(s)) == Deinit(s)
  {
  }

  /** `reactive_jammer_on` as written reports success from Idle even when
      a read-back fails and the jammer was not started. */
  lemma OnReportsStartWithoutListening(s: Snapshot, off: TrxStatus, rx: TrxStatus)
    requires s.state == Idle && !(off == TrxOff && rx == RxOn)
    ensures On(s, off, rx).ok
    ensures !Started(s, On(s, off, rx).after)
    ensures On(s, off, rx).after.state == Idle
  {
  }
}
