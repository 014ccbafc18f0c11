# Double-buffered SDR capture: a Dafny model

This project models the core of a software-defined-radio capture program.
The program configures a radio front end and checks that the hardware
honoured the settings. It then streams complex 16-bit samples into two
one-second slot buffers: a producer thread fills the slots and a save thread
writes them to files named after a capture tag. A separate procedure
disciplines the boards' clocks to GPS. The source has two near-identical
receiver classes, `ReceiverClass` (with GPS support) and the `USRP_receive`
variant (fixed chunk size, no GPS). Both share one capture model here. That
model assumes the two slot buffers exist, which only the `USRP_receive`
constructor arranges (see "## Left out").

Modules:

- `RadioConfig` (radio_config.dfy) covers `configure` and `checkConfig`.
  - The driver is a `RadioSession` whose log records the setter calls.
  - The driver's read-back values are a `Readback` record.
  - C's `round` is modelled on reals, halfway cases away from zero.
- `Decimal` (decimal.dfy) covers `std::to_string` on the capture tag and the resulting file name, with its inverse.
- `Capture` (capture.dfy) covers the double buffer and the handoff token as the class `CaptureState`.
  - `ProducerIteration` is one pass of the producer loop in `start`. The fill itself is the in-place method `FillSlot`.
  - `ConsumerStep` is one pass of `savefile`.
  - `Cancel`, `AllocMem`, `BeginStreaming` and `EndStreaming` cover the remaining state changes.
  - `Run` performs any sequential interleaving of producer, save and cancel steps.
  - The driver's `recv` is an oracle: for each chunk it gives a status and the samples it wrote.
  - `Valid()` is kept by every step. It says:
    - the active slot is 0 or 1;
    - the filled slots alternate 0, 1, 0, …;
    - a pending save always names the active slot;
    - the tags stay `{0, 0}`, so every file is "0.bin";
    - no more files are written than fills were handed off.
  - `FirstHandoff` and `HandoffScenario` walk through two clean fills and two saves on a 4-sample slot.
- `GpsSync` (gps_sync.dfy) covers the decision logic of `sync_to_gps`. The sensor readings are inputs, and times are whole seconds.
  - The method `SyncToGps` is proved equal to the specification function `ExpectedReport`.
  - The lemmas state the properties of `ExpectedReport`.
- `GpsReceiver` (receiver_class.dfy) covers the lifecycle of `ReceiverClass`: flags, `initializeUSRP`'s GPS decision, `USRPconfigure`, the body of `allocMem` (which nothing in this class calls) and `cancel`.
- `UsrpReceive` (usrp_receive.dfy) covers the constructor of the `USRP_receive` variant: configure, then validate, then allocate.

The model follows the code as written, including these consequences of it:

- The slot just filled is the old `buffidx`, but ReceiverClass.cpp:100-101 (and USRP_receive.cpp:82-83) first advance `buffidx` and then mark the NEW active slot for saving, which is the one the producer refills next.
- An aborted fill is handed off like a complete one.
- Only slot 0's samples reach a file. Saving slot 1 creates an empty file.
- `timetag` is never updated, so every file is named "0.bin" and each save overwrites the last.
- Two handoffs without a save in between lose the first one: the pending index is simply overwritten.

## Model

| member | source | states |
|---|---|---|
| RadioConfig.ConfigureSequence | uhd_srccodes/USRP_receive.cpp:3-16 | `configure` makes exactly three setter calls on one channel: the requested rate, then a tune request carrying the frequency and the LO offset, then the gain |
| RadioConfig.Configure | uhd_srccodes/USRP_receive.cpp:3-16 | the driver's call log grows by the rate call, then the tune request carrying the LO offset, then the gain call |
| RadioConfig.SampsPerBuffFor | uhd_srccodes/ReceiverClass.cpp:17 | the chunk size is the largest whole number not above a tenth of the read-back rate |
| RadioConfig.Round | uhd_srccodes/ReceiverClass.cpp:34 | `round` gives the integer within half a unit of its argument, ties going away from zero |
| RadioConfig.RoundExact | uhd_srccodes/ReceiverClass.cpp:34-43 | `round(x)` equals v exactly when v is an integer in x's half-unit rounding window |
| RadioConfig.CheckConfig | uhd_srccodes/ReceiverClass.cpp:27-46 | accepts only when gain, rounded frequency and rounded rate all match; otherwise throws 1, 2 or 3 for the first mismatch in that order |
| RadioConfig.CheckConfigAcceptsIff | uhd_srccodes/USRP_receive.cpp:18-37 | validation passes exactly when the gain is echoed exactly and the frequency and rate are echoed within the half-unit window around the requested integers |
| RadioConfig.FractionalFreqAlwaysRejected | uhd_srccodes/ReceiverClass.cpp:34-38 | a requested frequency with a fractional part never passes; with a matching gain it throws 2 |
| RadioConfig.RateRoundedUpIsRejected | uhd_srccodes/ReceiverClass.cpp:40-43 | hardware echoing the rate half a sample high is caught by the rate check (throws 3) |
| Decimal.ToDecimal | uhd_srccodes/ReceiverClass.cpp:124 | `to_string` gives a non-empty digit string without a leading zero |
| Decimal.ParseToDecimal | uhd_srccodes/ReceiverClass.cpp:124 | reading the decimal rendering back gives the tag (round trip) |
| Decimal.FileName | uhd_srccodes/ReceiverClass.cpp:124 | a file name is the tag's digits followed by ".bin" |
| Decimal.FileNameInjective | uhd_srccodes/ReceiverClass.cpp:124 | distinct tags would give distinct file names |
| Capture.ChunksFitIff | uhd_srccodes/ReceiverClass.cpp:81-84 | every chunk the loop visits (offset below `rxrate`) fits inside the slot exactly when the chunk size divides `rxrate` |
| Capture.OffsetBelowRate | uhd_srccodes/USRP_receive.cpp:63-66 | with a dividing chunk size, a visited offset is one of the `rxrate / s` chunk offsets and its chunk fits |
| Capture.OffsetReachesRate | uhd_srccodes/USRP_receive.cpp:63 | with a dividing chunk size, the loop condition fails exactly after `rxrate / s` chunks |
| Capture.WriteChunk | uhd_srccodes/ReceiverClass.cpp:83-84 | `recv` writes its samples at the chunk offset and leaves the rest of the slot unchanged |
| Capture.Filled | uhd_srccodes/ReceiverClass.cpp:81-84 | filling a slot chunk by chunk keeps its length |
| Capture.FilledHoldsChunk | uhd_srccodes/ReceiverClass.cpp:81-84 | after a fill that passed chunk j, the slot holds the samples received for chunk j at offset j·s |
| Capture.FilledShortChunk | uhd_srccodes/USRP_receive.cpp:63-66 | when `recv` returns fewer than s samples, the rest of that chunk keeps its old contents, because the offset advances by s whatever the count |
| Capture.FilledLeavesRest | uhd_srccodes/ReceiverClass.cpp:86-97 | an aborted fill leaves every sample after the aborting chunk unwritten |
| Capture.ChunksVisited | uhd_srccodes/USRP_receive.cpp:68-79 | the fill takes chunks up to and including the first one whose status is timeout, overflow or any other error |
| Capture.ChunksVisitedAt | uhd_srccodes/ReceiverClass.cpp:86-97 | a first error at chunk v ends the fill after exactly v chunks |
| Capture.ChunksVisitedAll | uhd_srccodes/ReceiverClass.cpp:81-98 | an error-free stream is received into every chunk of the slot |
| Capture.FilledStep | uhd_srccodes/ReceiverClass.cpp:83-84 | receiving one chunk changes exactly the samples it delivered, at its offset; every other sample keeps its value |
| Capture.FillSlot | uhd_srccodes/ReceiverClass.cpp:81-98 | the inner loop updates the slot in place to the specified fill and takes exactly the chunks up to the first error |
| Capture.CaptureState.constructor | uhd_srccodes/USRP_receive.h:43-99 | the handoff starts at active slot 0, nothing pending, tags {0, 0}, receiving and not stopped |
| Capture.CaptureState.AllocMem | uhd_srccodes/USRP_receive.h:109-114 | two distinct fresh slot buffers of `rxrate` samples each |
| Capture.CaptureState.Cancel | uhd_srccodes/USRP_receive.h:145 | only the stop flag changes, to true, so a repeated cancel has no further effect |
| Capture.CaptureState.BeginStreaming | uhd_srccodes/USRP_receive.cpp:50-56 | a start-continuous command with stream-now is issued |
| Capture.CaptureState.EndStreaming | uhd_srccodes/USRP_receive.cpp:87-92 | reached only once the stop flag is set; issues the stop command and clears the receiving flag |
| Capture.CaptureState.ProducerIteration | uhd_srccodes/USRP_receive.cpp:60-85 | the active slot gets the specified fill and the other slot is untouched; a slot that was pending for saving is the one overwritten by this fill; the active slot toggles; the NEW active slot is marked for saving, whether or not the fill completed; `Valid()` (alternation, single pending slot) is kept |
| Capture.FirstHandoff | uhd_srccodes/ReceiverClass.cpp:100-132 | after one clean fill and one save, the save named slot 1 and wrote an empty "0.bin", slot 0 still holds the fill, and nothing is pending |
| Capture.CaptureState.ConsumerStep | uhd_srccodes/ReceiverClass.cpp:114-134 | on the stop flag it exits without writing; with nothing pending it keeps waiting; otherwise it writes "0.bin" from the pending slot's tag, with `rxrate` samples (4 bytes each) for slot 0 and none for slot 1, and clears the pending mark |
| Capture.CaptureState.Perform | uhd_srccodes/USRP_receive.cpp:60-85 | one step of the interleaving: a producer iteration adds one fill unless the stop flag was already set, a save pass appends at most one file, either empty or a whole slot, and no other step touches the files; once the stop flag is set no step writes a file; only `cancel` raises the stop flag |
| Capture.HandoffScenario | uhd_srccodes/ReceiverClass.cpp:100-132 | two clean fills, each followed by a save: the first save names slot 1, the second names slot 0, and the files written are exactly an empty "0.bin" and a "0.bin" holding the FIRST fill's samples, not the second's |
| Capture.CaptureState.Run | uhd_srccodes/USRP_receive.cpp:39-94 | any interleaving, including a `start` after `cancel` (zero producer iterations, no file written), keeps `Valid()`; the fill count equals the producer steps before the first cancel (none if already cancelled), the files written extend the earlier ones, at most one per save step before the first cancel, each either empty or a whole slot; the stream is started, and it is stopped with the receiving flag cleared exactly when cancelled now or before |
| GpsSync.PollRefLock | uhd_srccodes/ReceiverClass.cpp:157-176 | at most 30 readings, stopping at the first true; locked exactly when one of the first 30 readings was true |
| GpsSync.FirstFault | uhd_srccodes/ReceiverClass.cpp:146-224 | processing reaches exactly the boards before the first board whose driver call throws |
| GpsSync.FirstFaultAt | uhd_srccodes/ReceiverClass.cpp:146-224 | any index with no throwing board before it and a throwing board at it (or the end of the list) is the point where processing stops |
| GpsSync.CountGpsLocked | uhd_srccodes/ReceiverClass.cpp:184-188 | the GPS-locked count never exceeds the number of boards |
| GpsSync.CountGpsLockedAll | uhd_srccodes/ReceiverClass.cpp:226 | the count equals the number of boards exactly when every board is GPS-locked |
| GpsSync.TimesAligned | uhd_srccodes/ReceiverClass.cpp:237-250 | reports matched exactly when every board's last-pulse time equals board 0's |
| GpsSync.SyncToGps | uhd_srccodes/ReceiverClass.cpp:136-272 | the report is exactly `ExpectedReport`: skipped for the no-GPSDO flag; otherwise, per board up to the first exception, LOCKED/FAILED/sensor-absent, GPS lock, time set to GPS time + 1 and synchronisation success; then the locked count, the cross-board check, and the advisory flag |
| GpsSync.AlignmentOnlyWhenAllLocked | uhd_srccodes/ReceiverClass.cpp:226-258 | the cross-board check runs exactly when there are several boards, none threw, and all are GPS-locked |
| GpsSync.EveryBoardReportedWithoutFault | uhd_srccodes/ReceiverClass.cpp:146-224 | without driver exceptions every board is reported, whatever its sensors read, and no advisory is raised |
| GpsSync.LockFailureDoesNotAbort | uhd_srccodes/ReceiverClass.cpp:170-181 | a board whose reference lock fails after 30 polls is reported FAILED and the procedure continues: every later board is processed up to the first exception, and with none every board is reported without advisory |
| GpsSync.TwoBoardMisalignmentReported | uhd_srccodes/ReceiverClass.cpp:238-257 | two locked boards with different last-pulse times give a normal report carrying a misalignment |
| GpsReceiver.Receiver.constructor | uhd_srccodes/ReceiverClass.h:40-108 | the receiver starts uninitialised and unconfigured with GPS flag 0; its capture state starts at slot 0, nothing pending, tags {0, 0}, receiving, not stopped |
| GpsReceiver.Receiver.InitializeUsrp | uhd_srccodes/ReceiverClass.cpp:3-13 | marks the receiver initialised; the GPS flag becomes -1 exactly for a "B205mini" board and is otherwise unchanged |
| GpsReceiver.Receiver.Configure | uhd_srccodes/ReceiverClass.cpp:14-25 | the three setter calls on channel 0 in order, with the chunk size derived from the read-back rate |
| GpsReceiver.Receiver.UsrpConfigure | uhd_srccodes/ReceiverClass.h:144-152 | stores frequency, rate, gain and LO offset, runs `configure` with them, then sets the configured flag |
| GpsReceiver.Receiver.AllocMem | uhd_srccodes/ReceiverClass.h:120-125 | two slot buffers of `rxrate` samples each |
| GpsReceiver.Receiver.Cancel | uhd_srccodes/ReceiverClass.h:163 | only the stop flag is raised |
| GpsReceiver.Receiver.SyncToGps | uhd_srccodes/ReceiverClass.cpp:136-142 | GPS discipline on this receiver's flag; skipped exactly when the flag is -1 |
| GpsReceiver.TenthOfRateCanOverrun | uhd_srccodes/ReceiverClass.cpp:17 | a tenth of the rate need not divide it: at rate 25 the chunk size is 2 and the chunk at offset 24 ends past the slot |
| GpsReceiver.TenthOfRateFits | uhd_srccodes/ReceiverClass.cpp:17 | for a rate that is a multiple of ten, the chunk size is rate/10 and divides the rate |
| UsrpReceive.Construct | uhd_srccodes/USRP_receive.h:123-134 | configure on channel 1, then validate; on a mismatch it throws `checkConfig`'s code and allocates nothing; otherwise it yields a valid, allocated capture state with chunk size 10000 in its initial handoff state |
| UsrpReceive.FixedChunksFitIff | uhd_srccodes/USRP_receive.h:39-40 | with the fixed 10000-sample chunks, slot writes stay in bounds exactly when 10000 divides the rate |

## Left out

- Driver calls (`multi_usrp` construction, getters, stream setup, clock and time source selection, sensor reads, `set_time_next_pps`): their results are inputs (`Readback`, `Chunk`, `BoardReadings`). Only two effects are logged: the rate, frequency and gain setters (`RadioSession.calls`) and the stream commands (`CaptureState.streamCmds`). The argument passed to `set_time_next_pps` appears as the report field `BoardReport.timeSetAtNextPps`, not in a log. Clock and time source selection and stream setup (`get_rx_stream`) are dropped and recorded nowhere.
- Threads, the mutex and the condition variable: the producer and the save thread are step methods that run in sequence. The wait in `savefile` is the `StillWaiting` outcome. Joining a thread, including the join of the wrong thread at the end of `ReceiverClass::start`, is not modelled.
- `Run`: the source loop runs until cancelled. `Run` performs a finite schedule and returns even when no cancel occurred.
- File bytes: a saved file is recorded as its name and the samples written. The byte count is 4 bytes per sample.
- Sleeps, the one-second poll spacing and the busy-wait for the next pulse edge: these are wall-clock timing.
- Floating point: doubles are exact reals, so `0.1 * rate` is `rate / 10`. Times from `get_real_secs` are whole seconds.
- GpsSync.SyncToGps: a driver exception is modelled only as a per-board fault that stops processing at that board. An exception during the cross-board check is not modelled. The console text, including "Failed to lock … Exiting." on a failed lock, is not modelled: the procedure continues.
- Capture.CaptureState.ProducerIteration: requires a chunk size above zero that divides `rxrate`. A zero chunk size makes the source loop forever, and a non-dividing one makes `recv` write past the slot; `ChunksFitIff` and `TenthOfRateCanOverrun` characterise that case instead of executing it.
- GpsSync.PollRefLock: requires at least 30 readings. The sensor oracle must answer every poll the loop may make; this constrains the model's inputs, not the source's callers.
- GpsSync.SyncToGps: requires every board with a "ref_locked" sensor to supply 30 readings, for the same reason.
- UsrpReceive.Construct: requires a non-negative rate, because slot lengths are natural numbers.
- GpsReceiver.Receiver.Configure: requires a non-negative read-back rate, because the source casts it to an unsigned size.
- The FFT and FIR resources (`FFTfn`, `freeFFTfn`, filter pointers), `rx_32fc`, `freeMem` and `ampVec`: they are unused on the capture path.
- Console output and exception message text.
- `Main.cpp`: it only constructs one `USRP_receive` receiver with a rate of 1000000. That rate is a multiple of 10000, so `FixedChunksFitIff` covers it.
- `checkConfig` is never called by `ReceiverClass` anywhere in the repository. The model provides it as the same function for both variants.
- GpsReceiver.Receiver.AllocMem: `allocMem` is private in `ReceiverClass` and nothing calls it; the constructor at ReceiverClass.h:134-136 is empty. In the repository as it stands, this variant never makes `Allocated()` true, so `start` writes through unallocated slot pointers and the destructor frees them. The capture model covers this variant only as if its slots had been allocated. The receiver keeps `rxrate` in two places, its own field and the capture state's. `AllocMem` copies the first into the second, so the slot length is the rate at the time of `AllocMem`; a later `UsrpConfigure` updates only the receiver's field. In the source, the loop bound in `start` (ReceiverClass.cpp:81) and the slot sizes in `allocMem` (ReceiverClass.h:122-123) read the same field.
