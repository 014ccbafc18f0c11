/**
  The receiver variant without GPS support (`USRP_receive.h` with
  `USRP_receive.cpp`): its constructor configures, validates and only then
  allocates the slot buffers; chunks are a fixed 10000 samples on channel 1.
  The capture loop and save routine are those of `Capture.CaptureState`.
*/
module UsrpReceive {
  import opened RadioConfig
  import opened Capture

  const FixedSampsPerBuff: nat := 10000
  const FixedRxChannel: nat := 1

  /** The constructor either yields a receiver's capture state or throws `checkConfig`'s code. */
  datatype Construction = Constructed(capture: CaptureState) | ConstructorThrew(code: int)

  /**
    The constructor: `configure`, then `checkConfig`, then `allocMem`, so
    slot buffers exist only when validation did not throw.
  */
  method Construct(radio: RadioSession, req: RadioRequest, rb: Readback) returns (r: Construction)
    requires req.rate >= 0
    modifies radio
    ensures radio.calls == old(radio.calls) + ConfigureSequence(req, FixedRxChannel)
    ensures r.ConstructorThrew? <==> CheckConfig(req, rb).Thrown?
    ensures r.ConstructorThrew? ==> r.code == CheckConfig(req, rb).code
    ensures r.Constructed? ==>
      && fresh(r.capture)
      && r.capture.Valid() && r.capture.Allocated()
      && r.capture.rxrate == req.rate && r.capture.sampsPerBuff == FixedSampsPerBuff
      && r.capture.buffidx == 0 && r.capture.buffidx2save == -1 && r.capture.timetag == [0, 0]
      && r.capture.receivingFlag && !r.capture.stopFlag
      && r.capture.files == [] && r.capture.filledSlots == []
  {
    Configure(radio, req, FixedRxChannel);
    var check := CheckConfig(req, rb);
    if check.Thrown? {
      return ConstructorThrew(check.code);
    }
    var capture := new CaptureState();
    capture.sampsPerBuff := FixedSampsPerBuff;
    capture.AllocMem(req.rate);
    r := Constructed(capture);
  }

  /** With the fixed chunk size, every chunk stays inside its slot exactly when 10000 divides the rate. */
  lemma FixedChunksFitIff(rate: nat)
    ensures (forall k: nat :: Offset(k, FixedSampsPerBuff) < rate ==> Offset(k, FixedSampsPerBuff) + FixedSampsPerBuff <= rate)
      <==> rate % FixedSampsPerBuff == 0
  {
    ChunksFitIff(rate, FixedSampsPerBuff);
  }
}
