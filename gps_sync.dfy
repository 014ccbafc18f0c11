/**
  The decision logic of `sync_to_gps`: skip boards without a GPS-disciplined
  oscillator, poll each board's reference-lock sensor a bounded number of
  times, count the GPS-locked boards, program each board's time for the next
  pulse edge and compare, and, on a fully locked multi-board system, check
  that all boards report the same last-pulse time.

  Sensor readings and driver times are inputs (`BoardReadings`), times are
  whole seconds, and the sleeps and console output are not modelled.
*/
module GpsSync {

  /** The reference-lock sensor is polled at most this many times. */
  const MaxRefLockPolls: nat := 30

  /** The value of the GPS flag for a board without a GPS-disciplined oscillator. */
  const NoGpsdo: int := -1

  /**
    What one board's driver answers, in the order the procedure asks:
    whether a "ref_locked" sensor exists and its successive readings, the
    "gps_locked" sensor, "gps_time" before the time is set and again after
    the wait, the last-pulse time after the wait, the last-pulse time read by
    the cross-board check, and whether a driver call for this board throws.
  */
  datatype BoardReadings = BoardReadings(
    hasRefLockedSensor: bool,
    refLocked: seq<bool>,
    gpsLocked: bool,
    gpsTimeBeforeSet: int,
    gpsTimeAfterWait: int,
    timeLastPps: int,
    timeLastPpsAfterEdge: int,
    throwsDuringSync: bool)

  /** A board with the sensor supplies a reading for every poll. */
  predicate WellFormed(b: BoardReadings)
  {
    b.hasRefLockedSensor ==> |b.refLocked| >= MaxRefLockPolls
  }

  datatype RefLockStatus = RefLocked | RefFailed | RefSensorAbsent

  /** What the procedure reports for one board. */
  datatype BoardReport = BoardReport(
    refLock: RefLockStatus,
    gpsLocked: bool,
    timeSetAtNextPps: int,
    timeSynchronized: bool)

  datatype Alignment = NotChecked | Checked(aligned: bool)

  /**
    The outcome: skipped for a board without GPSDO, or the per-board reports
    up to the first driver exception, the GPS-locked count, the cross-board
    check, and whether an exception was caught and an advisory reported.
  */
  datatype SyncReport =
    | SkippedNoGpsdo
    | Synced(boards: seq<BoardReport>, numGpsLocked: nat, alignment: Alignment, hardwareAdvisory: bool)

  /** Some reading among the polls the procedure is allowed says locked. */
  ghost predicate RefLockedWithin(readings: seq<bool>)
    requires |readings| >= MaxRefLockPolls
  {
    exists i :: 0 <= i < MaxRefLockPolls && readings[i]
  }

  /** The report a board that does not throw should get. */
  ghost function ExpectedBoard(b: BoardReadings): BoardReport
    requires WellFormed(b)
  {
    BoardReport(
      if !b.hasRefLockedSensor then RefSensorAbsent
      else if RefLockedWithin(b.refLocked) then RefLocked
      else RefFailed,
      b.gpsLocked,
      b.gpsTimeBeforeSet + 1,
      b.gpsTimeAfterWait == b.timeLastPps)
  }

  ghost function ExpectedBoards(boards: seq<BoardReadings>): (r: seq<BoardReport>)
    requires forall m :: 0 <= m < |boards| ==> WellFormed(boards[m])
    ensures |r| == |boards|
    ensures forall m :: 0 <= m < |boards| ==> r[m] == ExpectedBoard(boards[m])
  {
    if boards == [] then []
    else ExpectedBoards(boards[..|boards| - 1]) + [ExpectedBoard(boards[|boards| - 1])]
  }

  /** The index of the first board whose driver throws, or the number of boards. */
  function FirstFault(boards: seq<BoardReadings>): (k: nat)
    ensures k <= |boards|
    ensures forall m :: 0 <= m < k ==> !boards[m].throwsDuringSync
    ensures k < |boards| ==> boards[k].throwsDuringSync
  {
    if boards == [] then 0
    else if boards[0].throwsDuringSync then 0
    else 1 + FirstFault(boards[1..])
  }

  /** The number of boards whose "gps_locked" sensor reads true. */
  function CountGpsLocked(boards: seq<BoardReadings>): (n: nat)
    ensures n <= |boards|
  {
    if boards == [] then 0
    else CountGpsLocked(boards[..|boards| - 1]) + (if boards[|boards| - 1].gpsLocked then 1 else 0)
  }

  /** The count reaches the number of boards exactly when every board is GPS-locked. */
  lemma {:induction false} CountGpsLockedAll(boards: seq<BoardReadings>)
    ensures CountGpsLocked(boards) == |boards| <==> forall m :: 0 <= m < |boards| ==> boards[m].gpsLocked
  {
    if boards != [] {
      var init := boards[..|boards| - 1];
      CountGpsLockedAll(init);
      if CountGpsLocked(boards) == |boards| {
        assert CountGpsLocked(init) == |init| && boards[|boards| - 1].gpsLocked;
        forall m | 0 <= m < |boards| ensures boards[m].gpsLocked {
          if m < |init| {
            assert boards[m] == init[m];
          }
        }
      }
      if forall m :: 0 <= m < |boards| ==> boards[m].gpsLocked {
        forall m | 0 <= m < |init| ensures init[m].gpsLocked {
          assert init[m] == boards[m];
        }
      }
    }
  }

  function PpsTimesAfterEdge(boards: seq<BoardReadings>): (times: seq<int>)
    ensures |times| == |boards|
    ensures forall m :: 0 <= m < |boards| ==> times[m] == boards[m].timeLastPpsAfterEdge
  {
    seq(|boards|, m requires 0 <= m < |boards| => boards[m].timeLastPpsAfterEdge)
  }

  /** Every board's last-pulse time equals board 0's. */
  ghost predicate AllAligned(times: seq<int>)
    requires |times| > 0
  {
    forall m :: 0 <= m < |times| ==> times[m] == times[0]
  }

  /** The report `sync_to_gps` should produce for a GPS flag and the boards' readings. */
  ghost function ExpectedReport(gpsFlag: int, boards: seq<BoardReadings>): SyncReport
    requires forall m :: 0 <= m < |boards| ==> WellFormed(boards[m])
  {
    if gpsFlag == NoGpsdo then SkippedNoGpsdo
    else
      var k := FirstFault(boards);
      var n := CountGpsLocked(boards[..k]);
      var check := k == |boards| && n == |boards| && |boards| > 1;
      Synced(
        ExpectedBoards(boards[..k]),
        n,
        if check then Checked(AllAligned(PpsTimesAfterEdge(boards))) else NotChecked,
        k < |boards|)
  }

  /**
    The reference-lock poll: read the sensor until it says locked, at most
    `MaxRefLockPolls` times. Reports locked exactly when one of those
    readings was true, and how many readings were taken.
  */
  method PollRefLock(readings: seq<bool>) returns (locked: bool, polls: nat)
    requires |readings| >= MaxRefLockPolls
    ensures locked <==> RefLockedWithin(readings)
    ensures 0 < polls <= MaxRefLockPolls
    ensures forall i :: 0 <= i < polls - 1 ==> !readings[i]
    ensures locked ==> readings[polls - 1]
    ensures !locked ==> polls == MaxRefLockPolls
  {
    locked := false;
    var i := 0;
    while i < MaxRefLockPolls && !locked
      invariant 0 <= i <= MaxRefLockPolls
      invariant locked ==> 0 < i && readings[i - 1]
      invariant forall j :: 0 <= j < i - 1 ==> !readings[j]
      invariant !locked ==> forall j :: 0 <= j < i ==> !readings[j]
    {
      locked := readings[i];
      i := i + 1;
    }
    polls := i;
  }

  /** The cross-board comparison: every board's time against board 0's. */
  method TimesAligned(times: seq<int>) returns (allMatched: bool)
    requires |times| > 0
    ensures allMatched <==> AllAligned(times)
  {
    allMatched := true;
    var t0 := times[0];
    for m := 1 to |times|
      invariant allMatched <==> forall j :: 0 <= j < m ==> times[j] == t0
    {
      if times[m] != t0 {
        allMatched := false;
      }
    }
  }

  /**
    `sync_to_gps`. Returns at once when the board has no GPSDO. Otherwise
    processes the boards in order; a board whose reference lock fails is
    reported and the procedure goes on, while a driver exception ends the
    procedure with an advisory. The cross-board check runs only when every
    board is GPS-locked and there is more than one board.
  */
  method SyncToGps(gpsFlag: int, boards: seq<BoardReadings>) returns (report: SyncReport)
    requires forall m :: 0 <= m < |boards| ==> WellFormed(boards[m])
    ensures report == ExpectedReport(gpsFlag, boards)
  {
    if gpsFlag == NoGpsdo {
      return SkippedNoGpsdo;
    }
    var numMboards := |boards|;
    var numGpsLocked := 0;
    var reports: seq<BoardReport> := [];
    var mboard := 0;
    // a driver exception while processing a board leaves the loop for the catch block
    while mboard < numMboards && !boards[mboard].throwsDuringSync
      invariant 0 <= mboard <= numMboards
      invariant forall m :: 0 <= m < mboard ==> !boards[m].throwsDuringSync
      invariant reports == ExpectedBoards(boards[..mboard])
      invariant numGpsLocked == CountGpsLocked(boards[..mboard])
    {
      var b := boards[mboard];
      var refLock: RefLockStatus;
      if b.hasRefLockedSensor {
        var locked, _ := PollRefLock(b.refLocked);
        refLock := if locked then RefLocked else RefFailed;
      } else {
        refLock := RefSensorAbsent;
      }
      if b.gpsLocked {
        numGpsLocked := numGpsLocked + 1;
      }
      var timeSet := b.gpsTimeBeforeSet + 1;
      var synchronized := b.gpsTimeAfterWait == b.timeLastPps;
      var boardReport := BoardReport(refLock, b.gpsLocked, timeSet, synchronized);
      assert boardReport == ExpectedBoard(b);
      reports := reports + [boardReport];
      assert boards[..mboard + 1][..mboard] == boards[..mboard] && boards[..mboard + 1][mboard] == b;
      mboard := mboard + 1;
    }
    assert mboard == FirstFault(boards) by {
      FirstFaultAt(boards, mboard);
    }
    var advisory := mboard < numMboards;
    var alignment := NotChecked;
    if !advisory && numGpsLocked == numMboards && numMboards > 1 {
      var allMatched := TimesAligned(PpsTimesAfterEdge(boards));
      alignment := Checked(allMatched);
    }
    assert boards[..|boards|] == boards;
    report := Synced(reports, numGpsLocked, alignment, advisory);
  }

  lemma {:induction false} FirstFaultAt(boards: seq<BoardReadings>, k: nat)
    requires k <= |boards|
    requires forall m :: 0 <= m < k ==> !boards[m].throwsDuringSync
    requires k < |boards| ==> boards[k].throwsDuringSync
    ensures FirstFault(boards) == k
  {
    if k > 0 {
      FirstFaultAt(boards[1..], k - 1);
    }
  }

  /**
    The cross-board check runs only after every board was processed and
    found GPS-locked, on a system of more than one board.
  */
  lemma AlignmentOnlyWhenAllLocked(gpsFlag: int, boards: seq<BoardReadings>)
    requires forall m :: 0 <= m < |boards| ==> WellFormed(boards[m])
    requires ExpectedReport(gpsFlag, boards).Synced?
    ensures ExpectedReport(gpsFlag, boards).alignment.Checked? <==>
      && |boards| > 1
      && !ExpectedReport(gpsFlag, boards).hardwareAdvisory
      && forall m :: 0 <= m < |boards| ==> boards[m].gpsLocked
  {
    var k := FirstFault(boards);
    if k == |boards| {
      assert boards[..k] == boards;
      CountGpsLockedAll(boards);
    }
  }

  /**
    Without driver exceptions every board is reported, whatever its lock
    sensors read, and no advisory is raised.
  */
  lemma EveryBoardReportedWithoutFault(gpsFlag: int, boards: seq<BoardReadings>)
    requires forall m :: 0 <= m < |boards| ==> WellFormed(boards[m])
    requires gpsFlag != NoGpsdo
    requires forall m :: 0 <= m < |boards| ==> !boards[m].throwsDuringSync
    ensures ExpectedReport(gpsFlag, boards).Synced?
    ensures |ExpectedReport(gpsFlag, boards).boards| == |boards|
    ensures !ExpectedReport(gpsFlag, boards).hardwareAdvisory
  {
    FirstFaultAt(boards, |boards|);
  }

  /**
    A board whose reference lock fails after all 30 polls is reported as
    FAILED and the procedure goes on: the boards after it are processed up
    to the first driver exception exactly as they would be otherwise, and
    with no exception after it every board is reported without advisory.
  */
  lemma LockFailureDoesNotAbort(gpsFlag: int, boards: seq<BoardReadings>, i: nat)
    requires forall m :: 0 <= m < |boards| ==> WellFormed(boards[m])
    requires gpsFlag != NoGpsdo
    requires i < |boards| && WellFormed(boards[i])
    requires boards[i].hasRefLockedSensor && !RefLockedWithin(boards[i].refLocked)
    requires forall m :: 0 <= m <= i ==> !boards[m].throwsDuringSync
    ensures ExpectedReport(gpsFlag, boards).Synced?
    ensures i < |ExpectedReport(gpsFlag, boards).boards|
    ensures ExpectedReport(gpsFlag, boards).boards[i].refLock == RefFailed
    ensures |ExpectedReport(gpsFlag, boards).boards| == FirstFault(boards)
    ensures forall m :: i < m < FirstFault(boards) ==> ExpectedReport(gpsFlag, boards).boards[m] == ExpectedBoard(boards[m])
    ensures (forall m :: i < m < |boards| ==> !boards[m].throwsDuringSync) ==>
      |ExpectedReport(gpsFlag, boards).boards| == |boards| && !ExpectedReport(gpsFlag, boards).hardwareAdvisory
  {
    if forall m :: i < m < |boards| ==> !boards[m].throwsDuringSync {
      FirstFaultAt(boards, |boards|);
    }
  }

  /**
    Two locked boards whose last-pulse times disagree after the edge:
    the procedure returns normally and reports the misalignment.
  */
  lemma TwoBoardMisalignmentReported(gpsFlag: int, b0: BoardReadings, b1: BoardReadings)
    requires WellFormed(b0) && WellFormed(b1) && gpsFlag != NoGpsdo
    requires !b0.throwsDuringSync && !b1.throwsDuringSync
    requires b0.gpsLocked && b1.gpsLocked
    requires b0.timeLastPpsAfterEdge != b1.timeLastPpsAfterEdge
    ensures ExpectedReport(gpsFlag, [b0, b1]) ==
      Synced([ExpectedBoard(b0), ExpectedBoard(b1)], 2, Checked(false), false)
  {
    var bs := [b0, b1];
    FirstFaultAt(bs, 2);
    assert bs[..2] == bs;
    assert bs[..1] == [b0] && [b0][..0] == [];
    assert CountGpsLocked(bs) == 2;
    assert ExpectedBoards(bs) == [ExpectedBoard(b0), ExpectedBoard(b1)];
    assert !AllAligned(PpsTimesAfterEdge(bs)) by {
      assert PpsTimesAfterEdge(bs)[1] != PpsTimesAfterEdge(bs)[0];
    }
  }
}
