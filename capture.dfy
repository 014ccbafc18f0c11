/**
  The double-buffered capture pipeline shared by both receiver variants: the
  fill-and-flip body of the producer loop in `start`, one pass of the
  consumer loop in `savefile`, and the handoff state they share.

  The two threads are modelled as step methods that a caller interleaves in
  any order; every step keeps `Valid()`. The driver's `recv` is an oracle:
  for each chunk it supplies the status code and the samples it wrote.
*/
module Capture {
  import opened Decimal

  newtype int16 = x: int | -0x8000 <= x < 0x8000

  /** One complex sample with 16-bit parts (`Ipp16sc`, the "sc16" wire format). */
  datatype Sc16 = Sc16(re: int16, im: int16)

  const BytesPerSample: nat := 4

  /** The error code `recv` leaves in the metadata. */
  datatype ErrorCode = NoError | Timeout | Overflow | OtherError

  /** What one `recv` call did: its status and the samples it wrote (at most one chunk's worth). */
  datatype Chunk = Chunk(status: ErrorCode, samples: seq<Sc16>)

  /** A file the save routine created: its name and the samples written into it. */
  datatype SavedFile = SavedFile(name: string, samples: seq<Sc16>)
  {
    function Bytes(): nat { BytesPerSample * |samples| }
  }

  datatype StreamCommand = StartContinuous(streamNow: bool) | StopContinuous

  /** What one pass of the save routine did. */
  datatype SaveOutcome = StopSeen | StillWaiting | Saved(slot: int)

  /**
    One step of a sequential interleaving of the two threads: an iteration
    of the producer loop with its `recv` oracle, a pass of the save loop, or
    a call of `cancel`.
  */
  datatype Step = Produce(chunks: seq<Chunk>) | Save | Stop

  /** The number of producer iterations a schedule runs: those before its first `Stop`. */
  function FillsBeforeStop(schedule: seq<Step>): (n: nat)
    ensures n <= |schedule|
  {
    if schedule == [] || schedule[0].Stop? then 0
    else (if schedule[0].Produce? then 1 else 0) + FillsBeforeStop(schedule[1..])
  }

  /** The number of save passes a schedule runs while not stopped: those before its first `Stop`. */
  function SavesBeforeStop(schedule: seq<Step>): (n: nat)
    ensures n <= |schedule|
  {
    if schedule == [] || schedule[0].Stop? then 0
    else (if schedule[0].Save? then 1 else 0) + SavesBeforeStop(schedule[1..])
  }

  /** The offset of chunk `k` in a slot: chunks are `s` samples apart. */
  function Offset(k: nat, s: nat): nat
  {
    k * s
  }

  lemma OffsetStep(k: nat, s: nat)
    ensures Offset(k + 1, s) == Offset(k, s) + s
  {
  }

  lemma {:induction false} OffsetMonotone(j: nat, k: nat, s: nat)
    requires j <= k
    ensures Offset(j, s) + (k - j) * s == Offset(k, s)
    ensures Offset(j, s) <= Offset(k, s)
  {
    assert k * s == j * s + (k - j) * s;
  }

  /**
    With `s` dividing the slot length `n`, an offset below `n` belongs to one
    of the `n / s` chunks and the whole chunk lies inside the slot.
  */
  lemma OffsetBelowRate(k: nat, s: nat, n: nat)
    requires s > 0 && n % s == 0 && Offset(k, s) < n
    ensures k < n / s && Offset(k, s) + s <= n
  {
    var q := n / s;
    assert n == q * s;
    if k >= q {
      OffsetMonotone(q, k, s);
      assert false;
    }
    OffsetMonotone(k + 1, q, s);
  }

  /** With `s` dividing `n`, the loop leaves its slot exactly after `n / s` chunks. */
  lemma OffsetReachesRate(k: nat, s: nat, n: nat)
    requires s > 0 && n % s == 0 && k <= n / s && Offset(k, s) >= n
    ensures k == n / s
  {
    var q := n / s;
    assert n == q * s;
    if k < q {
      OffsetMonotone(k + 1, q, s);
      assert false;
    }
  }

  /**
    Every chunk the loop can visit (offset below `n`) fits in the `n`-sample
    slot exactly when `s` divides `n`.
  */
  lemma ChunksFitIff(n: nat, s: nat)
    requires s > 0
    ensures (forall k: nat :: Offset(k, s) < n ==> Offset(k, s) + s <= n) <==> n % s == 0
  {
    if n % s == 0 {
      forall k: nat | Offset(k, s) < n ensures Offset(k, s) + s <= n {
        OffsetBelowRate(k, s, n);
      }
    } else {
      var q := n / s;
      assert n == q * s + n % s;
      assert Offset(q, s) < n && Offset(q, s) + s > n;
    }
  }

  /** A position inside chunk `j` lies before the start of any later chunk `k`. */
  lemma InsideEarlierChunk(j: nat, k: nat, s: nat, o: nat)
    requires j < k && o < s
    ensures Offset(j, s) + o < Offset(k, s)
  {
    OffsetMonotone(j + 1, k, s);
    OffsetStep(j, s);
  }

  /** `data` written into `buf` starting at `off`. */
  function WriteAt(buf: seq<Sc16>, off: nat, data: seq<Sc16>): (r: seq<Sc16>)
    requires off + |data| <= |buf|
    ensures |r| == |buf|
  {
    buf[..off] + data + buf[off + |data|..]
  }

  /** Inside the written range a sample comes from `data`; outside it, from `buf`. */
  lemma WriteAtIndex(buf: seq<Sc16>, off: nat, data: seq<Sc16>, q: nat)
    requires off + |data| <= |buf| && q < |buf|
    ensures WriteAt(buf, off, data)[q] == if off <= q < off + |data| then data[q - off] else buf[q]
  {
  }

  /** Every chunk of the oracle is at most `s` samples and lies inside an `n`-sample slot. */
  ghost predicate ChunksFit(n: nat, s: nat, chunks: seq<Chunk>)
  {
    forall j :: 0 <= j < |chunks| ==> |chunks[j].samples| <= s && Offset(j, s) + s <= n
  }

  /** The slot after the first `k` chunks have been received into it. */
  function Filled(buf: seq<Sc16>, s: nat, k: nat, chunks: seq<Chunk>): (r: seq<Sc16>)
    requires k <= |chunks| && ChunksFit(|buf|, s, chunks)
    ensures |r| == |buf|
  {
    if k == 0 then buf
    else WriteAt(Filled(buf, s, k - 1, chunks), Offset(k - 1, s), chunks[k - 1].samples)
  }

  /** Receiving chunk `k - 1` changes exactly the samples it delivered. */
  lemma FilledStep(buf: seq<Sc16>, s: nat, k: nat, chunks: seq<Chunk>, q: nat)
    requires 0 < k <= |chunks| && ChunksFit(|buf|, s, chunks) && q < |buf|
    ensures Filled(buf, s, k, chunks)[q] ==
      var off := Offset(k - 1, s);
      var data := chunks[k - 1].samples;
      if off <= q < off + |data| then data[q - off] else Filled(buf, s, k - 1, chunks)[q]
  {
    WriteAtIndex(Filled(buf, s, k - 1, chunks), Offset(k - 1, s), chunks[k - 1].samples, q);
  }

  /** Samples from the end of chunk `k` onwards are left as they were: an aborted fill writes nothing further. */
  lemma {:induction false} FilledLeavesRest(buf: seq<Sc16>, s: nat, k: nat, chunks: seq<Chunk>, q: nat)
    requires k <= |chunks| && ChunksFit(|buf|, s, chunks)
    requires Offset(k, s) <= q < |buf|
    ensures Filled(buf, s, k, chunks)[q] == buf[q]
  {
    if k > 0 {
      OffsetStep(k - 1, s);
      FilledLeavesRest(buf, s, k - 1, chunks, q);
      FilledStep(buf, s, k, chunks, q);
    }
  }

  /** Chunk `j` of a fill that went past it holds the samples `recv` delivered for it. */
  lemma {:induction false} FilledHoldsChunk(buf: seq<Sc16>, s: nat, k: nat, chunks: seq<Chunk>, j: nat, o: nat)
    requires k <= |chunks| && ChunksFit(|buf|, s, chunks)
    requires j < k && o < |chunks[j].samples|
    ensures Offset(j, s) + o < |buf|
    ensures Filled(buf, s, k, chunks)[Offset(j, s) + o] == chunks[j].samples[o]
  {
    var q := Offset(j, s) + o;
    if j < k - 1 {
      FilledHoldsChunk(buf, s, k - 1, chunks, j, o);
      InsideEarlierChunk(j, k - 1, s, o);
    } else {
      assert Offset(k - 1, s) == Offset(j, s);
    }
    FilledStep(buf, s, k, chunks, q);
  }

  /**
    When `recv` delivers fewer than `s` samples, the rest of that chunk keeps
    its previous contents: the offset advances by `s` regardless.
  */
  lemma {:induction false} FilledShortChunk(buf: seq<Sc16>, s: nat, k: nat, chunks: seq<Chunk>, j: nat, o: nat)
    requires k <= |chunks| && ChunksFit(|buf|, s, chunks)
    requires j < k && |chunks[j].samples| <= o < s
    ensures Offset(j, s) + o < |buf|
    ensures Filled(buf, s, k, chunks)[Offset(j, s) + o] == buf[Offset(j, s) + o]
  {
    var q := Offset(j, s) + o;
    if j < k - 1 {
      FilledShortChunk(buf, s, k - 1, chunks, j, o);
      InsideEarlierChunk(j, k - 1, s, o);
    } else {
      assert k - 1 == j;
      assert Offset(k - 1, s) == Offset(j, s);
      FilledLeavesRest(buf, s, j, chunks, q);
    }
    FilledStep(buf, s, k, chunks, q);
  }

  /** How many chunks the fill loop takes: up to and including the first one with an error. */
  function ChunksVisited(chunks: seq<Chunk>): (v: nat)
    ensures v <= |chunks|
    ensures forall j :: 0 <= j < v - 1 ==> chunks[j].status == NoError
    ensures v < |chunks| ==> 0 < v && chunks[v - 1].status != NoError
  {
    if chunks == [] then 0
    else if chunks[0].status != NoError then 1
    else 1 + ChunksVisited(chunks[1..])
  }

  lemma {:induction false} ChunksVisitedAt(chunks: seq<Chunk>, v: nat)
    requires 0 < v <= |chunks|
    requires forall j :: 0 <= j < v - 1 ==> chunks[j].status == NoError
    requires chunks[v - 1].status != NoError
    ensures ChunksVisited(chunks) == v
  {
    if v > 1 {
      ChunksVisitedAt(chunks[1..], v - 1);
    }
  }

  lemma {:induction false} ChunksVisitedAll(chunks: seq<Chunk>)
    requires forall j :: 0 <= j < |chunks| ==> chunks[j].status == NoError
    ensures ChunksVisited(chunks) == |chunks|
  {
    if chunks != [] {
      ChunksVisitedAll(chunks[1..]);
    }
  }

  /**
    The inner loop of the producer: receive chunk after chunk into `slot`
    at offsets 0, s, 2s, ... below its length, advancing by `s` whatever
    `recv` delivered, and stop after the first chunk whose status is not
    `NoError` (timeout, overflow or any other error). Returns how many
    chunks were received.
  */
  method FillSlot(slot: array<Sc16>, s: nat, chunks: seq<Chunk>) returns (visited: nat)
    requires s > 0 && slot.Length % s == 0
    requires |chunks| == slot.Length / s
    requires forall j :: 0 <= j < |chunks| ==> |chunks[j].samples| <= s
    modifies slot
    ensures ChunksFit(slot.Length, s, chunks)
    ensures visited == ChunksVisited(chunks)
    ensures slot[..] == Filled(old(slot[..]), s, visited, chunks)
  {
    var n := slot.Length;
    forall j | 0 <= j < |chunks| ensures Offset(j, s) + s <= n {
      OffsetMonotone(j + 1, |chunks|, s);
      OffsetStep(j, s);
    }
    assert ChunksFit(n, s, chunks);
    ghost var before := slot[..];
    var rIdx, k := 0, 0;
    while rIdx < n
      invariant 0 <= k <= |chunks| && rIdx == Offset(k, s)
      invariant slot[..] == Filled(before, s, k, chunks)
      invariant forall j :: 0 <= j < k ==> chunks[j].status == NoError
    {
      OffsetBelowRate(k, s, n);
      var chunk := chunks[k];
      // recv writes the samples it got at &slot[rIdx]
      WriteChunk(slot, rIdx, chunk.samples);
      k := k + 1;
      if chunk.status == Timeout {
        break;
      }
      if chunk.status == Overflow {
        break;
      }
      if chunk.status != NoError {
        break;
      }
      OffsetStep(k - 1, s);
      rIdx := rIdx + s;
    }
    if 0 < k && chunks[k - 1].status != NoError {
      ChunksVisitedAt(chunks, k);
    } else {
      OffsetReachesRate(k, s, n);
      ChunksVisitedAll(chunks);
    }
    visited := k;
  }

  /** What `recv` does to the buffer: the samples it received land at `off`. */
  method WriteChunk(slot: array<Sc16>, off: nat, data: seq<Sc16>)
    requires off + |data| <= slot.Length
    modifies slot
    ensures slot[..] == WriteAt(old(slot[..]), off, data)
  {
    forall i | 0 <= i < |data| {
      slot[off + i] := data[i];
    }
    forall q | 0 <= q < slot.Length ensures slot[q] == WriteAt(old(slot[..]), off, data)[q] {
      WriteAtIndex(old(slot[..]), off, data, q);
    }
    assert slot[..] == WriteAt(old(slot[..]), off, data);
  }

  /** Appending the next slot index to an alternating history 0, 1, 0, ... keeps it alternating. */
  lemma AlternationGrows(slots: seq<int>)
    requires forall i :: 0 <= i < |slots| ==> slots[i] == i % 2
    ensures forall i :: 0 <= i < |slots| + 1 ==> (slots + [|slots| % 2])[i] == i % 2
    ensures (|slots| % 2 + 1) % 2 == (|slots| + 1) % 2
  {
  }

  /**
    The capture state of one receiver: the two slot buffers (`rxbuffs`), the
    handoff indices, the capture tags and the thread-control flags, plus the
    stream commands issued and, as ghost history, the files written and the
    slots filled.
  */
  class CaptureState {
    var rxrate: nat
    var sampsPerBuff: nat
    var rxbuffs: seq<array<Sc16>>
    var buffidx: int
    var buffidx2save: int
    var timetag: seq<nat>
    var filename: string
    var receivingFlag: bool
    var stopFlag: bool
    var streamCmds: seq<StreamCommand>
    ghost var files: seq<SavedFile>
    ghost var filledSlots: seq<int>

    /**
      The handoff invariant: the active slot is 0 or 1 and alternates with
      every fill, a pending save always names the active slot, the tags stay
      at zero so every file is "0.bin", and no more files are written than
      fills were handed off.
    */
    ghost predicate Valid()
      reads this
    {
      && (buffidx == 0 || buffidx == 1)
      && (buffidx2save == -1 || buffidx2save == buffidx)
      && timetag == [0, 0]
      && (forall i :: 0 <= i < |filledSlots| ==> filledSlots[i] == i % 2)
      && buffidx == |filledSlots| % 2
      && |files| + (if buffidx2save >= 0 then 1 else 0) <= |filledSlots|
      && (forall f :: f in files ==> f.name == "0.bin")
    }

    /** `allocMem` has run: two distinct slots of `rxrate` samples each. */
    ghost predicate Allocated()
      reads this
    {
      && |rxbuffs| == 2
      && rxbuffs[0] != rxbuffs[1]
      && rxbuffs[0].Length == rxrate
      && rxbuffs[1].Length == rxrate
    }

    /** The initial handoff state and flags, before any buffer is allocated. */
    constructor ()
      ensures Valid() && !Allocated()
      ensures buffidx == 0 && buffidx2save == -1 && timetag == [0, 0]
      ensures receivingFlag && !stopFlag
      ensures rxbuffs == [] && rxrate == 0 && sampsPerBuff == 0
      ensures streamCmds == [] && files == [] && filledSlots == []
    {
      rxrate, sampsPerBuff := 0, 0;
      rxbuffs := [];
      buffidx, buffidx2save := 0, -1;
      timetag := [0, 0];
      filename := "";
      receivingFlag, stopFlag := true, false;
      streamCmds := [];
      files, filledSlots := [], [];
    }

    /** `allocMem`: two fresh slot buffers of `rate` samples each. */
    method AllocMem(rate: nat)
      requires Valid()
      modifies this`rxbuffs, this`rxrate
      ensures Valid() && Allocated()
      ensures rxrate == rate && fresh(rxbuffs[0]) && fresh(rxbuffs[1])
    {
      var slot0 := new Sc16[rate];
      var slot1 := new Sc16[rate];
      rxbuffs := [slot0, slot1];
      rxrate := rate;
    }

    /** `cancel`: only raises the stop flag, so calling it again changes nothing. */
    method Cancel()
      requires Valid()
      modifies this`stopFlag
      ensures Valid() && stopFlag
    {
      stopFlag := true;
    }

    /** The start of `start`: a continuous stream beginning now. */
    method BeginStreaming()
      requires Valid()
      modifies this`streamCmds
      ensures Valid()
      ensures streamCmds == old(streamCmds) + [StartContinuous(true)]
    {
      streamCmds := streamCmds + [StartContinuous(true)];
    }

    /**
      The end of `start`, reached only once the producer loop has seen the
      stop flag: stop the stream and clear the receiving flag.
    */
    method EndStreaming()
      requires Valid() && stopFlag
      modifies this`streamCmds, this`receivingFlag
      ensures Valid() && !receivingFlag
      ensures streamCmds == old(streamCmds) + [StopContinuous]
    {
      streamCmds := streamCmds + [StopContinuous];
      receivingFlag := false;
    }

    /**
      One iteration of the producer loop in `start`: receive chunk after
      chunk into the active slot at offsets 0, s, 2s, ... below `rxrate`,
      stop at the first chunk whose status is not `NoError`, then flip the
      active slot and mark the NEW active slot for saving, whether or not
      the fill completed. Returns how many chunks were received.
    */
    method ProducerIteration(chunks: seq<Chunk>) returns (visited: nat)
      requires Valid() && Allocated() && !stopFlag
      requires sampsPerBuff > 0 && rxrate % sampsPerBuff == 0
      requires |chunks| == rxrate / sampsPerBuff
      requires forall j :: 0 <= j < |chunks| ==> |chunks[j].samples| <= sampsPerBuff
      modifies this`buffidx, this`buffidx2save, this`filledSlots, rxbuffs[0], rxbuffs[1]
      ensures Valid() && Allocated()
      ensures visited == ChunksVisited(chunks)
      ensures ChunksFit(rxrate, sampsPerBuff, chunks)
      ensures rxbuffs[old(buffidx)][..] == Filled(old(rxbuffs[buffidx][..]), sampsPerBuff, visited, chunks)
      ensures rxbuffs[1 - old(buffidx)][..] == old(rxbuffs[1 - buffidx][..])
      ensures old(buffidx2save) >= 0 ==>
        rxbuffs[old(buffidx2save)][..] == Filled(old(rxbuffs[buffidx2save][..]), sampsPerBuff, visited, chunks)
      ensures buffidx == 1 - old(buffidx)
      ensures buffidx2save == buffidx
      ensures filledSlots == old(filledSlots) + [old(buffidx)]
    {
      var filling := rxbuffs[buffidx];
      assert filling != rxbuffs[1 - buffidx];
      visited := FillSlot(filling, sampsPerBuff, chunks);
      AlternationGrows(filledSlots);
      filledSlots := filledSlots + [buffidx];
      buffidx := (buffidx + 1) % 2;
      buffidx2save := buffidx;
    }

    /**
      One step of the interleaving: a producer iteration (none once the
      producer has seen the stop flag), a pass of the save loop, or `cancel`.
    */
    method Perform(step: Step)
      requires Valid() && Allocated()
      requires sampsPerBuff > 0 && rxrate % sampsPerBuff == 0
      requires step.Produce? ==>
        && |step.chunks| == rxrate / sampsPerBuff
        && forall j :: 0 <= j < |step.chunks| ==> |step.chunks[j].samples| <= sampsPerBuff
      modifies this`buffidx, this`buffidx2save, this`filledSlots, this`stopFlag, this`filename, this`files
      modifies rxbuffs[0], rxbuffs[1]
      ensures Valid() && Allocated()
      ensures stopFlag == (old(stopFlag) || step.Stop?)
      ensures |filledSlots| == |old(filledSlots)| + (if step.Produce? && !old(stopFlag) then 1 else 0)
      ensures !step.Save? ==> files == old(files)
      ensures old(stopFlag) ==> files == old(files)
      ensures step.Save? ==> old(files) <= files && |files| <= |old(files)| + 1
      ensures forall j :: |old(files)| <= j < |files| ==> files[j].samples == [] || |files[j].samples| == rxrate
    {
      match step {
        case Produce(chunks) =>
          if !stopFlag {
            var _ := ProducerIteration(chunks);
          }
        case Save =>
          var _ := ConsumerStep();
        case Stop =>
          Cancel();
      }
    }

    /**
      `start` with its save thread, run as one sequential interleaving:
      start the stream, perform the schedule's steps in order (the producer
      loop runs no further iteration once it has seen the stop flag), and,
      once stopped, stop the stream and clear the receiving flag.
    */
    method Run(schedule: seq<Step>)
      requires Valid() && Allocated()
      requires sampsPerBuff > 0 && rxrate % sampsPerBuff == 0
      requires forall i :: 0 <= i < |schedule| && schedule[i].Produce? ==>
        && |schedule[i].chunks| == rxrate / sampsPerBuff
        && forall j :: 0 <= j < |schedule[i].chunks| ==> |schedule[i].chunks[j].samples| <= sampsPerBuff
      modifies this`buffidx, this`buffidx2save, this`filledSlots, this`stopFlag, this`filename, this`files
      modifies this`streamCmds, this`receivingFlag, rxbuffs[0], rxbuffs[1]
      ensures Valid() && Allocated()
      ensures |filledSlots| == |old(filledSlots)| + (if old(stopFlag) then 0 else FillsBeforeStop(schedule))
      ensures old(files) <= files && |files| <= |old(files)| + (if old(stopFlag) then 0 else SavesBeforeStop(schedule))
      ensures old(stopFlag) ==> files == old(files)
      ensures forall j :: |old(files)| <= j < |files| ==> files[j].samples == [] || |files[j].samples| == rxrate
      ensures stopFlag <==> old(stopFlag) || exists i :: 0 <= i < |schedule| && schedule[i].Stop?
      ensures streamCmds == old(streamCmds) + [StartContinuous(true)] + (if stopFlag then [StopContinuous] else [])
      ensures receivingFlag == (old(receivingFlag) && !stopFlag)
    {
      BeginStreaming();
      for i := 0 to |schedule|
        invariant Valid() && Allocated()
        invariant rxbuffs == old(rxbuffs) && rxrate == old(rxrate) && sampsPerBuff == old(sampsPerBuff)
        invariant stopFlag <==> old(stopFlag) || exists j :: 0 <= j < i && schedule[j].Stop?
        invariant old(stopFlag) ==> |filledSlots| == |old(filledSlots)| && files == old(files)
        invariant !stopFlag ==> |filledSlots| == |old(filledSlots)| + FillsBeforeStop(schedule) - FillsBeforeStop(schedule[i..])
        invariant stopFlag && !old(stopFlag) ==> |filledSlots| == |old(filledSlots)| + FillsBeforeStop(schedule)
        invariant old(files) <= files
        invariant !stopFlag ==> |files| <= |old(files)| + SavesBeforeStop(schedule) - SavesBeforeStop(schedule[i..])
        invariant stopFlag && !old(stopFlag) ==> |files| <= |old(files)| + SavesBeforeStop(schedule)
        invariant forall j :: |old(files)| <= j < |files| ==> files[j].samples == [] || |files[j].samples| == rxrate
        invariant streamCmds == old(streamCmds) + [StartContinuous(true)]
        invariant receivingFlag == old(receivingFlag)
      {
        assert schedule[i..][0] == schedule[i] && schedule[i..][1..] == schedule[i + 1..];
        Perform(schedule[i]);
      }
      if stopFlag {
        EndStreaming();
      }
    }

    /**
      One pass of the loop in `savefile`, after its wait: on the stop flag
      it exits without writing; with no slot pending it keeps waiting;
      otherwise it creates the file named after the pending slot's tag,
      writes `rxrate` samples into it only when the slot is 0 (slot 1 gives
      an empty file) and clears the pending mark.
    */
    method ConsumerStep() returns (outcome: SaveOutcome)
      requires Valid() && Allocated()
      modifies this`buffidx2save, this`filename, this`files
      ensures Valid() && Allocated()
      ensures old(stopFlag) ==> outcome == StopSeen
      ensures !old(stopFlag) && old(buffidx2save) < 0 ==> outcome == StillWaiting
      ensures outcome.Saved? <==> !old(stopFlag) && old(buffidx2save) >= 0
      ensures !outcome.Saved? ==>
        buffidx2save == old(buffidx2save) && filename == old(filename) && files == old(files)
      ensures outcome.Saved? ==>
        && outcome.slot == old(buffidx2save)
        && filename == FileName(timetag[outcome.slot])
        && filename == "0.bin"
        && files == old(files) + [SavedFile(filename, if outcome.slot == 0 then rxbuffs[0][..] else [])]
        && files[|files| - 1].Bytes() == (if outcome.slot == 0 then BytesPerSample * rxrate else 0)
        && buffidx2save == -1
    {
      if stopFlag {
        return StopSeen;
      }
      if buffidx2save < 0 {
        return StillWaiting;
      }
      var slot := buffidx2save;
      filename := FileName(timetag[slot]);
      var written := if slot == 0 then rxbuffs[slot][..] else [];
      files := files + [SavedFile(filename, written)];
      buffidx2save := -1;
      outcome := Saved(slot);
    }
  }

  /** Two clean chunks of 2 samples each fill a 4-sample slot completely. */
  lemma TwoChunkFill(blank: seq<Sc16>, x: Sc16)
    requires |blank| == 4
    ensures ChunksFit(4, 2, [Chunk(NoError, [x, x]), Chunk(NoError, [x, x])])
    ensures ChunksVisited([Chunk(NoError, [x, x]), Chunk(NoError, [x, x])]) == 2
    ensures Filled(blank, 2, 2, [Chunk(NoError, [x, x]), Chunk(NoError, [x, x])]) == [x, x, x, x]
  {
    var chunks := [Chunk(NoError, [x, x]), Chunk(NoError, [x, x])];
    ChunksVisitedAll(chunks);
    assert ChunksFit(4, 2, chunks) by {
      assert Offset(0, 2) == 0 && Offset(1, 2) == 2;
    }
    assert Filled(blank, 2, 0, chunks) == blank;
    var half := Filled(blank, 2, 1, chunks);
    assert half == WriteAt(blank, Offset(0, 2), chunks[0].samples);
    assert half == blank[..0] + [x, x] + blank[2..];
    assert half[..2] == [x, x];
    var full := Filled(blank, 2, 2, chunks);
    assert full == WriteAt(half, Offset(1, 2), chunks[1].samples);
    assert full == half[..2] + [x, x] + half[4..];
  }

  /**
    A 4-sample capture in chunks of 2 after one clean fill with samples
    (1, 1) and its save: the save named slot 1, the new active slot, and
    wrote an empty "0.bin", while slot 0 holds the fill.
  */
  method FirstHandoff() returns (c: CaptureState, saved: SaveOutcome)
    ensures fresh(c) && c.Valid() && c.Allocated() && !c.stopFlag
    ensures fresh(c.rxbuffs[0]) && fresh(c.rxbuffs[1])
    ensures c.rxrate == 4 && c.sampsPerBuff == 2
    ensures c.rxbuffs[0][..] == [Sc16(1, 1), Sc16(1, 1), Sc16(1, 1), Sc16(1, 1)]
    ensures c.buffidx == 1 && c.buffidx2save == -1
    ensures saved == Saved(1) && c.files == [SavedFile("0.bin", [])]
  {
    c := new CaptureState();
    c.sampsPerBuff := 2;
    c.AllocMem(4);
    var x := Sc16(1, 1);
    var fill := [Chunk(NoError, [x, x]), Chunk(NoError, [x, x])];
    ghost var blank := c.rxbuffs[0][..];
    TwoChunkFill(blank, x);
    var visited := c.ProducerIteration(fill);
    saved := c.ConsumerStep();
  }

  /**
    Two clean fills, each followed by a save. The first save names slot 1
    and writes an empty file. The second save names slot 0, which still
    holds the FIRST fill and is the slot the producer refills next: the
    samples it writes are those of the first fill, not the second. Both
    files are "0.bin".
  */
  method HandoffScenario() returns (first: SaveOutcome, second: SaveOutcome, written: seq<Sc16>, ghost files: seq<SavedFile>)
    ensures first == Saved(1) && second == Saved(0)
    ensures written == [Sc16(1, 1), Sc16(1, 1), Sc16(1, 1), Sc16(1, 1)]
    ensures files == [SavedFile("0.bin", []), SavedFile("0.bin", written)]
  {
    var c;
    c, first := FirstHandoff();
    var x, y := Sc16(1, 1), Sc16(2, 2);
    var visited := c.ProducerIteration([Chunk(NoError, [y, y]), Chunk(NoError, [y, y])]);
    assert c.buffidx == 0 && c.buffidx2save == 0;
    second := c.ConsumerStep();
    written := c.rxbuffs[0][..];
    files := c.files;
  }
}
