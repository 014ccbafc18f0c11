/**
  Configuration and validation of the radio front end (`configure` and
  `checkConfig` of both receiver variants).

  The driver itself is not modelled: the setter calls `configure` issues are
  recorded in the log of a `RadioSession`, and the values the driver reports
  back afterwards are an input record (`Readback`). Doubles are modelled as
  exact reals.
*/
module RadioConfig {

  /** What the caller asks for: frequency, gain and LO offset are doubles, the rate an int. */
  datatype RadioRequest = RadioRequest(freq: real, rate: int, gain: real, loOffset: real)

  /** What the driver reports back for the channel after configuration. */
  datatype Readback = Readback(gain: real, freq: real, rate: real)

  /** A tune request: target frequency with a local-oscillator offset hint. */
  datatype TuneRequest = TuneRequest(target: real, loOffset: real)

  /** One setter call issued to the driver, with the channel it addresses. */
  datatype HwCall =
    | SetRxRate(rate: real, ch: nat)
    | SetRxFreq(tune: TuneRequest, ch: nat)
    | SetRxGain(gain: real, ch: nat)

  /** `checkConfig` either returns true or throws a plain integer code. */
  datatype CheckOutcome = Accepted | Thrown(code: int)

  const GainMismatch: int := 1
  const FreqMismatch: int := 2
  const RateMismatch: int := 3

  /** The radio driver, seen only through the setter calls made on it. */
  class RadioSession {
    var calls: seq<HwCall>

    constructor ()
      ensures calls == []
    {
      calls := [];
    }

    method Issue(c: HwCall)
      modifies this
      ensures calls == old(calls) + [c]
    {
      calls := calls + [c];
    }
  }

  /** The setter calls `configure` makes, in the order it makes them. */
  function ConfigureSequence(req: RadioRequest, ch: nat): (calls: seq<HwCall>)
    ensures |calls| == 3
    ensures calls[0].SetRxRate? && calls[1].SetRxFreq? && calls[2].SetRxGain?
    ensures forall i :: 0 <= i < |calls| ==> calls[i].ch == ch
    ensures calls[0].rate == req.rate as real
    ensures calls[1].tune == TuneRequest(req.freq, req.loOffset)
    ensures calls[2].gain == req.gain
  {
    [SetRxRate(req.rate as real, ch),
     SetRxFreq(TuneRequest(req.freq, req.loOffset), ch),
     SetRxGain(req.gain, ch)]
  }

  /** `configure`: rate first, then the frequency with its LO offset, then the gain. */
  method Configure(radio: RadioSession, req: RadioRequest, ch: nat)
    modifies radio
    ensures radio.calls == old(radio.calls) + ConfigureSequence(req, ch)
  {
    radio.Issue(SetRxRate(req.rate as real, ch));
    radio.Issue(SetRxFreq(TuneRequest(req.freq, req.loOffset), ch));
    radio.Issue(SetRxGain(req.gain, ch));
  }

  /**
    The chunk size `configure` derives from the read-back rate: a tenth of
    it, truncated towards zero by the cast to an unsigned size.
  */
  function SampsPerBuffFor(readRate: real): (s: nat)
    requires readRate >= 0.0
    ensures s as real <= readRate / 10.0 < s as real + 1.0
  {
    (readRate / 10.0).Floor
  }

  /** C's `round`: the nearest integer, halfway cases away from zero. */
  function Round(x: real): (r: int)
    ensures x >= 0.0 ==> x - 0.5 < r as real <= x + 0.5
    ensures x < 0.0 ==> x - 0.5 <= r as real < x + 0.5
  {
    if x >= 0.0 then (x + 0.5).Floor else -((0.5 - x).Floor)
  }

  /** An independent statement of "`round(x)` equals the value `v`". */
  ghost predicate RoundsTo(x: real, v: real)
  {
    && v == v.Floor as real
    && (x >= 0.0 ==> x - 0.5 < v <= x + 0.5)
    && (x < 0.0 ==> x - 0.5 <= v < x + 0.5)
  }

  lemma RoundExact(x: real, v: real)
    ensures Round(x) as real == v <==> RoundsTo(x, v)
  {
    if RoundsTo(x, v) {
      var n := v.Floor;
      assert n as real == v;
      var r := Round(x);
      assert -1.0 < r as real - n as real < 1.0;
      assert r == n;
    }
  }

  /**
    `checkConfig`: exact gain, then rounded frequency, then rounded rate;
    the first mismatch throws 1, 2 or 3, and only a full match returns true.
  */
  function CheckConfig(req: RadioRequest, rb: Readback): (r: CheckOutcome)
    ensures r.Accepted? <==>
      rb.gain == req.gain && Round(rb.freq) as real == req.freq && Round(rb.rate) == req.rate
    ensures r == Thrown(GainMismatch) <==> rb.gain != req.gain
    ensures r == Thrown(FreqMismatch) <==> rb.gain == req.gain && Round(rb.freq) as real != req.freq
    ensures r == Thrown(RateMismatch) <==>
      rb.gain == req.gain && Round(rb.freq) as real == req.freq && Round(rb.rate) != req.rate
    ensures r.Thrown? ==> r.code in {GainMismatch, FreqMismatch, RateMismatch}
  {
    if rb.gain != req.gain then Thrown(GainMismatch)
    else if Round(rb.freq) as real != req.freq then Thrown(FreqMismatch)
    else if Round(rb.rate) != req.rate then Thrown(RateMismatch)
    else Accepted
  }

  /**
    Validation accepts exactly when the gain is echoed exactly and the
    frequency and rate are echoed within the half-unit window that `round`
    maps onto the requested integers.
  */
  lemma CheckConfigAcceptsIff(req: RadioRequest, rb: Readback)
    ensures CheckConfig(req, rb).Accepted? <==>
      rb.gain == req.gain && RoundsTo(rb.freq, req.freq) && RoundsTo(rb.rate, req.rate as real)
  {
    RoundExact(rb.freq, req.freq);
    RoundExact(rb.rate, req.rate as real);
  }

  /** A requested frequency with a fractional part can never pass validation. */
  lemma FractionalFreqAlwaysRejected(req: RadioRequest, rb: Readback)
    requires req.freq != req.freq.Floor as real
    ensures CheckConfig(req, rb).Thrown?
    ensures rb.gain == req.gain ==> CheckConfig(req, rb) == Thrown(FreqMismatch)
  {
    RoundExact(rb.freq, req.freq);
  }

  /** Hardware that echoes a rate half a sample above the request is caught. */
  lemma RateRoundedUpIsRejected(req: RadioRequest, rb: Readback)
    requires rb.gain == req.gain && Round(rb.freq) as real == req.freq
    requires req.rate >= 0 && rb.rate == req.rate as real + 0.5
    ensures CheckConfig(req, rb) == Thrown(RateMismatch)
  {
    assert Round(rb.rate) == req.rate + 1;
  }
}
