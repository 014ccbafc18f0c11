/**
  The lifecycle of the GPS-capable receiver (`ReceiverClass.h` with
  `ReceiverClass.cpp`): state flags, initialisation with the GPS flag
  decision, `USRPconfigure`, buffer allocation, cancellation and the entry
  to GPS discipline. The capture state it owns is `Capture.CaptureState`.
*/
module GpsReceiver {
  import opened RadioConfig
  import opened Capture
  import GpsSync

  /** The board model that has no GPS-disciplined oscillator. */
  const NoGpsdoBoard: string := "B205mini"

  class Receiver {
    var initializedFlag: bool
    var configuredFlag: bool
    /** -1: GPS sync unavailable, 0: optional, 1: to be configured. */
    var gpsFlag: int
    var radio: RadioSession?
    var rxfreq: real
    var rxrate: int
    var rxgain: real
    var loOffset: real
    const rxCh: nat
    const capture: CaptureState

    ghost predicate Valid()
      reads this, capture
    {
      && capture.Valid()
      && -1 <= gpsFlag <= 1
      && (initializedFlag <==> radio != null)
    }

    /** The request the stored configuration parameters make. */
    function Request(): RadioRequest
      reads this
    {
      RadioRequest(rxfreq, rxrate, rxgain, loOffset)
    }

    /** The default constructor: nothing initialised or configured, GPS optional, capture not yet stopped. */
    constructor ()
      ensures Valid()
      ensures !initializedFlag && !configuredFlag && gpsFlag == 0 && radio == null
      ensures rxCh == 0 && fresh(capture)
      ensures capture.receivingFlag && !capture.stopFlag
      ensures capture.buffidx == 0 && capture.buffidx2save == -1 && capture.timetag == [0, 0]
      ensures !capture.Allocated()
    {
      initializedFlag, configuredFlag := false, false;
      gpsFlag := 0;
      radio := null;
      rxfreq, rxrate, rxgain, loOffset := 0.0, 0, 0.0, 0.0;
      rxCh := 0;
      capture := new CaptureState();
    }

    /**
      `initializeUSRP`: open the radio and mark the receiver initialised; a
      "B205mini" board disables GPS sync, any other board leaves the flag.
    */
    method InitializeUsrp(mboardName: string)
      requires Valid()
      modifies this`initializedFlag, this`gpsFlag, this`radio
      ensures Valid()
      ensures initializedFlag && radio != null && fresh(radio) && radio.calls == []
      ensures gpsFlag == if mboardName == NoGpsdoBoard then GpsSync.NoGpsdo else old(gpsFlag)
    {
      radio := new RadioSession();
      initializedFlag := true;
      if mboardName == NoGpsdoBoard {
        gpsFlag := GpsSync.NoGpsdo;
      }
    }

    /**
      `configure`: the three setter calls in order; the chunk size is a tenth
      of the rate the driver reports after the rate is set (`readRate`).
    */
    method Configure(readRate: real)
      requires Valid() && radio != null && readRate >= 0.0
      modifies radio, capture`sampsPerBuff
      ensures Valid()
      ensures radio.calls == old(radio.calls) + ConfigureSequence(Request(), rxCh)
      ensures capture.sampsPerBuff == SampsPerBuffFor(readRate)
    {
      RadioConfig.Configure(radio, Request(), rxCh);
      capture.sampsPerBuff := SampsPerBuffFor(readRate);
    }

    /**
      `USRPconfigure`: store the parameters, run `configure` with them, and
      only then mark the receiver configured.
    */
    method UsrpConfigure(freq: real, rate: int, gain: real, lo: real, readRate: real)
      requires Valid() && radio != null && readRate >= 0.0
      modifies this`rxfreq, this`rxrate, this`rxgain, this`loOffset, this`configuredFlag
      modifies radio, capture`sampsPerBuff
      ensures Valid() && configuredFlag
      ensures Request() == RadioRequest(freq, rate, gain, lo)
      ensures radio.calls == old(radio.calls) + ConfigureSequence(RadioRequest(freq, rate, gain, lo), rxCh)
      ensures capture.sampsPerBuff == SampsPerBuffFor(readRate)
    {
      rxfreq, rxrate, rxgain, loOffset := freq, rate, gain, lo;
      Configure(readRate);
      configuredFlag := true;
    }

    /** `allocMem`: two slot buffers of `rxrate` samples each. */
    method AllocMem()
      requires Valid() && rxrate >= 0
      modifies capture`rxbuffs, capture`rxrate
      ensures Valid() && capture.Allocated() && capture.rxrate == rxrate
    {
      capture.AllocMem(rxrate);
    }

    /** `cancel`: raise the stop flag and nothing else. */
    method Cancel()
      requires Valid()
      modifies capture`stopFlag
      ensures Valid() && capture.stopFlag
    {
      capture.Cancel();
    }

    /** `sync_to_gps` on this receiver's GPS flag. */
    method SyncToGps(boards: seq<GpsSync.BoardReadings>) returns (report: GpsSync.SyncReport)
      requires forall m :: 0 <= m < |boards| ==> GpsSync.WellFormed(boards[m])
      ensures report == GpsSync.ExpectedReport(gpsFlag, boards)
      ensures report.SkippedNoGpsdo? <==> gpsFlag == GpsSync.NoGpsdo
    {
      report := GpsSync.SyncToGps(gpsFlag, boards);
    }
  }

  /**
    The chunk size a tenth of the rate need not divide the rate, and then the
    last chunk of a slot runs past its end: a rate of 25 gives chunks of 2.
  */
  lemma TenthOfRateCanOverrun()
    ensures SampsPerBuffFor(25.0) == 2
    ensures Offset(12, 2) < 25 && Offset(12, 2) + 2 > 25
  {
    assert (25.0 / 10.0).Floor == 2;
  }

  /** For a rate that is a multiple of ten, the chunk size divides it and every chunk fits. */
  lemma TenthOfRateFits(n: nat)
    requires n >= 10 && n % 10 == 0
    ensures SampsPerBuffFor(n as real) == n / 10
    ensures n % SampsPerBuffFor(n as real) == 0
  {
    var q := n / 10;
    assert n == 10 * q;
    assert (n as real) / 10.0 == q as real by {
      assert n as real == 10.0 * q as real;
    }
    TenTimesModZero(q);
  }

  /** Ten chunks of `q` leave no remainder: `q` divides `10 * q`. */
  lemma TenTimesModZero(q: nat)
    requires q > 0
    ensures (10 * q) % q == 0
  {
    var n := 10 * q;
    var d, r := n / q, n % q;
    assert n == d * q + r && 0 <= r < q;
    assert (10 - d) * q == r;
  }
}
