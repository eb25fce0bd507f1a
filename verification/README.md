# Verification of the Route 56 driver and its loop-mode programs

A Dafny model of the parts of the Sealevel Route 56 serial driver that share state with the
adapter or with interrupt context, and of the poll protocol of its loop-mode sample programs.
`dafny verify dfyconfig.toml` checks the whole project.

What is modelled, in the driver's own terms:

- the receive DMA ring: frame extraction in HDLC and raw mode, freeing, overrun recovery,
  restart, and every run of these interleaved with the receiving device;
- the transmit DMA ring, the raw-mode holding buffers and the asynchronous transmit buffer;
- the bottom half: interrupt handler, work item and loop-mode send-done flag, at the
  granularity of spinlock sections and unlocked accesses;
- the loop-mode primary and secondary stations, any number of them, on a loop that loses frames;
- the division of shared memory and the baud-rate time constants.

## How it is organised

| module | contents |
|---|---|
| `Cyclic` | index arithmetic of circular lists |
| `RxRing` | receive ring and driver functions on the ring read from `current_rx_buffer` |
| `RxRuns`, `RxInvariant`, `RxEffects` | device steps, whole runs, the ring invariant and its theorems, and what each single step does |
| `RxDriver` | the receive functions with their index loops over the entry array, proved equal to `RxRing` |
| `RawReceive`, `RawRuns` | raw-mode extraction, and every raw-mode run with frames of any length still arriving |
| `TxRing`, `TxLinks`, `RoundTrip` | loading a frame, what a device following the links sends, and send/receive being inverse |
| `TxStream`, `TxEffects`, `TxCount`, `TxDriver` | raw-mode streaming through ring and holding buffers, the driver's count of entries in use, and the code refining both |
| `AsyncQueue` | the circular transmit buffer as a byte queue |
| `BottomHalf`, `WorkEffects` | the concurrent system built on `RxRuns`, and what its work item delivers |
| `LoopLists`, `LoopClients`, `LoopStations`, `LoopDriver`, `LoopProtocol`, `LoopEffects`, `LoopReach` | linked lists, stations as values, the code over lists, the network, what each frame does, and runs that complete transactions |
| `Layout`, `Clock` | memory layout and link cycles; time constants |

Code that updates state is modelled twice: as methods with the source's loops and indices,
and as functions those methods are proved to compute. Statements about every run are lemmas
about the functions.

Premises, all visible in the model:

- Frame extraction is one step with respect to the device, though it runs without the spinlock.
- A raw-mode write is one step with respect to interrupts: the test of `tx_active`, the save or the
  load, and the locked load or start that follows. In the driver only the last part is locked.
- The transmitting device sends loaded entries only, in ring order, one end-of-buffer interrupt each;
  it reports the end of transmission when nothing is left in the ring, in any order with the
  end-of-buffer interrupts still outstanding, and may go on sending after the timer has fired. An
  underrun makes that report reset the channel.
- The 32-bit store of 4096 over `count` and `status` writes count 4096 and status 0 (little endian).
- A device entry is marked used (count 0) when claimed; a frame claims another entry only when
  more data arrives for a full one; reaching a used entry stops the device and raises
  end-of-list; reset commands clear the DMA channel's requests, pause and start commands do not.
- A paused channel the driver does not restart may carry on or not; both are covered.

## Where the code departs from its comments or documentation

The model follows the code.

- After a successful extraction with overflow set, the "now empty" test looks at the entry just
  freed, so the receiver always restarts and waiting frames are dropped (driver/route56.c:6714-6733).
- Overrun recovery resets the whole ring when every count is 0, complete frames included
  (driver/route56.c:5431-5440).
- The raw-mode modulus gives 0 for totals that are exact multiples of 4096 above 4096
  (driver/route56.c:6856-6864), and a frame beyond the count register hands over its last buffer
  in full, whatever lies behind its bytes: `RawStream` states exactly when a frame comes out whole.
- On a receive ring of one entry the "next" entry is the same one, so raw mode hands over a buffer
  that has just begun to be filled (driver/route56.c:6783-6790): `OneEntryFails`, `RawExact`.
- Resetting the transmit channel, which every start and every underrun does
  (driver/route56.c:1180, 5658), swallows end-of-buffer interrupts still outstanding, and a pending
  transmit-status vector is served before a DMA vector (driver/route56.c:1655-1660). Then
  `tx_dma_buffers_used` stays too high for good: `CountExact` and `CountWithin` state exactly when
  it is right, `DoneBeforeEob` gives the failing run, `StarvedForever` what it leads to.
- A priority character is sent only while data is queued (driver/route56.c:5770), although the guard
  at driver/route56.c:5762 lets a load with a priority character alone through:
  `PriorityWaitsForData`.
- When the transmitter goes idle by underrun or timeout with entries or writes left over, the next
  write overtakes them, or stale bytes of `xmit_buf` are sent (driver/route56.c:2112-2132):
  `IdleWriteExact` states exactly when it keeps every byte.
- An empty raw-mode write passes the free-entry check on a full ring and zeroes the count of an
  entry still to be sent (driver/route56.c:3995-4004, 6948-6950): `LoadNextExact` states exactly
  when loading keeps every byte, `EmptyWriteLosesBytes` shows the loss.
- The secondary clears a node's link before reading it, so removing the queue's head drops the
  rest of the queue while its counter falls by one (examples/sample-loopmode/secondary.c:574-576).
- The comment at driver/route56.c:3597-3603 describes an unused first page; the code puts the
  entry list at offset 0.

## Model

| member | source | states |
|---|---|---|
| `RxDriver.Receiver.constructor` | driver/route56.c:3654-3655 | the ring as allocated: every entry free, current entry 0, receiver off |
| `RxDriver.Receiver.ResetRxDmaBuffers` | driver/route56.c:6489-6501 | the loop frees every entry and returns to entry 0 whatever the rotation was |
| `RxDriver.Receiver.StopReceiver` | driver/route56.c:5515-5539 | flags cleared and DMA channel reset, ring untouched |
| `RxDriver.Receiver.StartReceiver` | driver/route56.c:5548-5602 | ring reset, flags cleared, device sent to entry 0, receiver enabled |
| `RxDriver.Receiver.FreeRxFrameBuffers` | driver/route56.c:6517-6550 | exactly the cyclic range from start to end is freed, nothing else changes, current moves past it, wrap-around included |
| `RxDriver.Receiver.FindFrameEnd` | driver/route56.c:6578-6609 | the wrapped scan ends where a scan of the rotated ring ends: on the first status, the first unused entry, or after a full turn |
| `RxDriver.Receiver.ReadFrame` | driver/route56.c:6612-6711 | status, CRC and size rules of the frame ending at the found entry |
| `RxDriver.Receiver.CopyFrame` | driver/route56.c:6669-6691 | the wrapped copy loop concatenates the entries' buffers |
| `RxDriver.Receiver.TakeFrame` | driver/route56.c:6610-6715 | reads the frame and frees exactly its entries |
| `RxDriver.Receiver.TakeFound` | driver/route56.c:6610-6733 | a complete frame is taken and, overflow set, the receiver restarted |
| `RxDriver.Receiver.NoFrame` | driver/route56.c:6580-6609 | without a frame: restart after a full turn, or on overflow at an unused entry |
| `RxDriver.Receiver.RestartIfEmptied` | driver/route56.c:6721-6733 | the restart test on the entry the scan stopped at |
| `RxDriver.Receiver.GetRxFrame` | driver/route56.c:6560-6737 | the whole function computes `RxRing.GetFrame` on the rotated ring, for every ring content |
| `RxRing.GetFrame` | driver/route56.c:6578-6733 | a call with receiver enabled and overflow set ends with overflow cleared, every entry free and the device at entry 0, however the scan ends; at most one delivery, never above max_frame_size |
| `RxRing.Delivery` | driver/route56.c:6613-6711 | a delivery never exceeds max_frame_size bytes, status byte included |
| `RxInvariant.EarnedExact` | driver/route56.c:6614-6703 | which status bits, CRC settings and sizes let a frame be delivered, and which bytes, with a last byte that is 1 exactly on a CRC error in extended mode |
| `RxInvariant.FrameHandedOver` | driver/route56.c:6614-6711 | an extraction with a complete frame in front hands over exactly what its status bits and size allow |
| `RxDriver.Receiver.GetRawRxFrame` | driver/route56.c:6759-6909 | computes `RawReceive.GetRaw`: at most one buffer is handed over and freed |
| `RawReceive.GetRaw` | driver/route56.c:6787-6890 | one raw-mode extraction hands over between 1 and 4096 bytes or nothing |
| `RxDriver.Receiver.TakeBuffer` | driver/route56.c:6798-6890 | the buffer's bytes up to the computed size, and exactly its entry freed |
| `RawRuns.RawStepKeeps` | driver/route56.c:6783-6908 | every device step, interrupt, extraction, recovery, enable and disable in raw mode keeps ring and account, frames of any length arriving while their buffers are handed over |
| `RawRuns.RawExtractKeeps` | driver/route56.c:6787-6890 | one extraction keeps the account, and succeeds if and only if a complete buffer is in front |
| `RawRuns.RawStream` | driver/route56.c:6783-6890 | in every run on two entries or more the bytes handed over are, frame by frame, what the frames taken give, then whole buffers of the frame in front; a taken frame came out whole if and only if its length and status say so; without discards every frame is accounted for |
| `RawRuns.GaveWhole` | driver/route56.c:6856-6864 | a frame taken comes out whole if and only if it is empty, or error-free and either below 65535 bytes and not filling a last buffer of several, or beyond and filling it |
| `RawRuns.OneEntryFails` | driver/route56.c:6783-6790 | on a ring of one entry one byte arrives and 4096 are handed over |
| `RawRuns.RawExact` | driver/route56.c:6783-6790 | every run accounts for every byte if and only if the ring has two entries or more |
| `RawRuns.ExtractTakesOne` | driver/route56.c:6787-6890 | without an overflow each extraction takes exactly one complete buffer while there is one |
| `RawRuns.RawDrains` | driver/route56.c:1054-1063 | as many extractions as there are complete buffers leave nothing but the buffer being filled |
| `RawRuns.RawOverflow` | driver/route56.c:6893-6905 | with an overflow noted, taking a buffer or finding the first entry unused ends with the receiver started afresh |
| `RawRuns.RawFlagsKept` | driver/route56.c:6893-6905 | without an overflow an extraction leaves every flag alone |
| `RawRuns.RawReceiverSteps` | driver/route56.c:1545-1567 | interrupts, recovery, enabling and disabling do to the receiver in raw mode what they do in HDLC mode |
| `RxDriver.Receiver.ScanUsedEntries` | driver/route56.c:5395-5441 | the flag-driven loop stops at the first unused entry or after a full turn, its flags saying where the run that no status ends starts |
| `RxDriver.Receiver.FindUnfinishedRun` | driver/route56.c:5395-5441 | the scan finds the first unused entry and the start of the run before it that no status ends |
| `RxDriver.Receiver.FreeRange` | driver/route56.c:5443-5464 | the do loop frees exactly the cyclic range |
| `RxDriver.Receiver.ProcessRxOverrun` | driver/route56.c:5376-5506 | computes `RxRing.RecoverOverrun`, and terminates |
| `RxInvariant.RecoveryEffect` | driver/route56.c:5443-5482 | with an unused entry left, complete frames keep entries and data, exactly the unfinished run is freed and the device is sent to its first entry |
| `RxInvariant.RecoveryResets` | driver/route56.c:5428-5440 | with every entry in use the whole ring is freed |
| `RxInvariant.ScanFinds` | driver/route56.c:6578-6711 | with a complete frame in front the scan stops on its last entry and the delivery is the frame's own bytes |
| `RxInvariant.ScanFails` | driver/route56.c:6580-6609 | without one it stops at the first free entry, or makes a full turn exactly when an unfinished run fills the ring |
| `RxInvariant.StepKeeps` | driver/route56.c:1545-1567 | every device step, interrupt, extraction, recovery, restart, enable and disable keeps the ring invariant |
| `RxInvariant.RunKeeps` | driver/route56.c:6560-6737 | in every run the ring from current_rx_buffer is complete frames, then at most one unfinished run, then free entries, and exactly the earned deliveries were made |
| `RxInvariant.DeliveredInOrder` | driver/route56.c:6614-6711 | in every run deliveries are an in-order subsequence of completed frames, none twice, each with a status that permits delivery, exact bytes and the right status byte |
| `RxInvariant.NoneSkippedBetweenResets` | driver/route56.c:6714-6733 | between whole-ring resets every frame that left the ring and earns a delivery was delivered, in order |
| `RxEffects.DmaIrqEffect` | driver/route56.c:1545-1566 | the receive DMA interrupt is acknowledged and an end of list noted as overflow; the ring stays |
| `RxEffects.UnderrunEffect` | driver/route56.c:1516-1530 | a count underrun halts the device and asks for a restart |
| `RxEffects.EnableEffect` | driver/route56.c:5548-5602 | enabling a receiver that is off leaves it enabled, faults cleared, ring free, device at entry 0 |
| `RxEffects.DisableEffect` | driver/route56.c:5515-5539 | disabling halts the device, clears the flags and leaves the ring |
| `RxEffects.RestartUnderrunEffect` | driver/route56.c:1056-1062 | the answer to an underrun starts the receiver afresh |
| `RxEffects.OverrunEffect` | driver/route56.c:5443-5482 | a FIFO overrun with an entry unused keeps the complete frames, gives up the unfinished one and sends the device to its first entry |
| `RxEffects.OverrunResets` | driver/route56.c:5428-5440 | with every entry in use the whole ring is given up |
| `RxEffects.FullRingOverflows` | driver/route56.c:1531-1566 | a frame that begins with every entry used stops the device, and the interrupt that follows notes an overflow |
| `RxEffects.FullRingOverflowsInFrame` | driver/route56.c:1531-1566 | so does a frame that needs another entry when all are used |
| `RxEffects.RestartsWhen` | driver/route56.c:6595-6609 | an extraction resets the ring if and only if an enabled receiver has overflowed or one unfinished frame has every entry |
| `RxEffects.ExtractTakes` | driver/route56.c:6610-6733 | with a frame in front its delivery is made; unless the receiver restarts every other frame and flag stays |
| `RxEffects.ExtractFails` | driver/route56.c:6580-6609 | without one nothing is delivered, and nothing changes unless the receiver restarts |
| `TxRing.Transmitter.LoadTxDmaBuffer` | driver/route56.c:6923-6990 | the loading loop splits the frame over consecutive entries with wrap-around, counts, frame size and transmit status word set, other entries untouched |
| `TxRing.SentAsLoaded` | driver/route56.c:5661-5680 | reading the ring in index order from the start entry for the programmed frame size gives exactly the loaded frame |
| `TxRing.FrameHeader` | driver/route56.c:6935-6950 | a frame's first entry carries its size and the top four mode bits, bit 13 set in loop mode |
| `TxLinks.LinkWalkIsWalk` | driver/route56.c:3740-3753 | following the addresses in the link fields reads the transmit ring in index order |
| `TxLinks.SentByLinks` | driver/route56.c:5661-5680 | following the links from the start entry for the programmed frame size sends exactly the loaded frame, from any start index |
| `TxRing.Needed` | driver/route56.c:3997-3999 | the fewest entries that hold the frame |
| `RoundTrip.FrameArrives` | driver/route56.c:6517-6550 | a frame that fits an empty ring, standing at any index, is stored and waits there |
| `RoundTrip.FrameRoundTrip` | driver/route56.c:6647-6713 | load, send by following the links with CRC appended, receive and extract give back the same bytes, plus CRC and status byte in extended mode |
| `TxDriver.Sender.constructor` | driver/route56.c:6449-6465 | both rings empty, all counters 0 |
| `TxDriver.Sender.SaveTxBufferRequest` | driver/route56.c:4032-4049 | appends to the holding FIFO, or refuses when it is full |
| `TxDriver.Sender.LoadNextTxHoldingBuffer` | driver/route56.c:3986-4017 | the oldest held write is loaded if and only if it fits the free entries |
| `TxDriver.Sender.StartTransmitter` | driver/route56.c:5612-5708 | with `xmit_cnt` set the channel is reset, the frame size of the start entry cleared and the device sent to it; else nothing happens |
| `TxDriver.Sender.WriteBusy` | driver/route56.c:2082-2099 | queued if a holding buffer is free, then the oldest held write is tried |
| `TxDriver.Sender.WriteIdle` | driver/route56.c:2112-2159 | loaded and started, or refused while `xmit_cnt` bytes at `xmit_buf` are sent instead |
| `TxDriver.Sender.Write` | driver/route56.c:2072-2159 | raw-mode write, accepted whole or not at all |
| `TxDriver.Sender.IsrTransmitDma` | driver/route56.c:1605-1617 | frees one entry and loads the next held write |
| `TxDriver.Sender.IsrTransmitStatus` | driver/route56.c:1173-1195 | the transmitter goes idle, an underrun resets the channel |
| `TxDriver.Sender.TxTimeout` | driver/route56.c:7639-7641 | the transmitter is taken for idle, whatever is left |
| `TxStream.Save` | driver/route56.c:4032-4049 | the circular holding buffers are a FIFO: a saved write goes last |
| `TxStream.LoadNext` | driver/route56.c:3986-4017 | the circular holding buffers are a FIFO: the oldest write leaves first |
| `TxStream.RunConserves` | driver/route56.c:2072-2159 | in every run without a faulty step (an empty write loaded onto a full ring, or a write to an idle transmitter that has something left over), interrupts in any order, underruns and timeouts included, accepted bytes are sent bytes, then ring bytes, then held bytes, in order |
| `TxStream.StreamConserves` | driver/route56.c:2072-2159 | from the initial state no step is faulty while the transmitter does not go idle with writes waiting and no empty write is loaded onto a full ring |
| `TxStream.BusyStepExact` | driver/route56.c:3995-4004 | an interrupt, a timeout or a write to a busy transmitter keeps every byte if and only if it does not load an empty write onto a full ring |
| `TxStream.IdleWriteExact` | driver/route56.c:2112-2159 | a write to an idle transmitter keeps every byte, whatever is written, if and only if nothing is unsent, no byte waits and `xmit_cnt` is clear |
| `TxEffects.WriteAccepted` | driver/route56.c:2083-2091 | a write is accepted if and only if a busy transmitter has a holding buffer free or an idle one no count left over |
| `TxEffects.BusyWriteQueues` | driver/route56.c:2082-2099 | an accepted write waits behind all earlier ones, of which the oldest leaves if it fits; a refused one changes nothing |
| `TxEffects.IdleWriteStarts` | driver/route56.c:2126-2159 | a non-empty write to an idle transmitter is in the ring and on its way |
| `TxEffects.IdleEmptyWrite` | driver/route56.c:6948-6950 | an empty write to an idle transmitter only clears the count and the frame size of the entry at current |
| `TxEffects.StaleWriteStarts` | driver/route56.c:2113-2121 | with a count left over that many bytes at xmit_buf are on their way instead |
| `TxEffects.OldestLoaded` | driver/route56.c:3988-4011 | the oldest held write leaves if and only if its entries fit beside those counted in use |
| `TxEffects.LoadedBehind` | driver/route56.c:4001-4004 | it then stands in the ring behind everything loaded before |
| `TxEffects.EobEffect` | driver/route56.c:1605-1617 | one acknowledgement is taken off the count, then the oldest held write is tried |
| `TxEffects.DoneEffect` | driver/route56.c:1173-1195 | the end of transmission makes the transmitter idle; only an underrun forgets acknowledgements |
| `TxEffects.TimeoutEffect` | driver/route56.c:7639-7641 | the timer makes the transmitter idle and changes nothing else |
| `TxCount.RunTallies` | driver/route56.c:6470-6477 | in every run whatsoever `tx_dma_buffers_used` is the entries unsent, unacknowledged, and swallowed by a channel reset |
| `TxCount.CountExact` | driver/route56.c:1605-1607 | after any run the count is the entries unsent and unacknowledged if and only if no channel reset found any |
| `TxCount.CountWithin` | driver/route56.c:6984 | throughout any run the count stays within the ring if and only if every start finds room by it |
| `TxCount.ExactWithin` | driver/route56.c:6984 | while no channel reset finds entries outstanding the count never exceeds tx_buffer_count |
| `TxCount.DoneBeforeEob` | driver/route56.c:1655-1660 | one entry, end of transmission served before end of buffer, next write: count 2 on a ring of 1, no byte lost |
| `TxCount.StarvedForever` | driver/route56.c:3995-4001 | once the swallowed entries leave no room for the oldest held write, no run ever loads it and every held write keeps its place |
| `TxStream.LoadNextExact` | driver/route56.c:3995-4004 | loading a held write keeps every byte if and only if it is not an empty write on a full ring |
| `TxStream.EmptyWriteLosesBytes` | driver/route56.c:6950-6952 | a write that fills the ring followed by an empty write loses bytes |
| `AsyncQueue.AsyncTransmitter.constructor` | driver/route56.c:1822 | empty queue, head and tail at 0 |
| `AsyncQueue.AsyncTransmitter.PutChar` | driver/route56.c:1979-1991 | appends one byte unless 4095 are queued |
| `AsyncQueue.AsyncTransmitter.CopyIn` | driver/route56.c:2143-2146 | a contiguous copy at the head appends to the queue |
| `AsyncQueue.AsyncTransmitter.Write` | driver/route56.c:2134-2151 | accepts exactly the smaller of the count and the write room, across the wrap |
| `AsyncQueue.AsyncTransmitter.SendXchar` | driver/route56.c:2286 | the character becomes the pending one, overwriting what was pending |
| `AsyncQueue.AsyncTransmitter.TakeByte` | driver/route56.c:5777-5780 | takes the oldest byte |
| `AsyncQueue.AsyncTransmitter.LoadTxFifo` | driver/route56.c:5757-5814 | the FIFO loop emits queue bytes in order, one or two at a time, with a pending priority character first |
| `AsyncQueue.LoadKeeps` | driver/route56.c:5770-5812 | loading the FIFO loses and reorders no data byte |
| `AsyncQueue.Run` | driver/route56.c:1981-1988 | over any run between flushes accepted data is emitted data followed by the queue |
| `AsyncQueue.EmittedIsPrefix` | driver/route56.c:5770-5812 | emitted data without priority characters is a prefix of accepted data, at most 4095 bytes behind; emitted priority characters, with the pending one, are exactly those asked for and not overwritten |
| `AsyncQueue.AcceptEffect` | driver/route56.c:1981-1988 | as much is accepted as there is room for below 4095, and nothing else changes |
| `AsyncQueue.AskEffect` | driver/route56.c:2286 | a request makes the character the pending one and touches no data |
| `AsyncQueue.PriorityFirst` | driver/route56.c:5801-5804 | a pending priority character goes out before any data once the FIFO has a place and data is queued |
| `AsyncQueue.PriorityWaitsForData` | driver/route56.c:5770 | with no data queued it is not sent |
| `AsyncQueue.OneReading` | driver/route56.c:5774-5810 | a reading of free places sends two bytes if there are two of both, else one |
| `AsyncQueue.LoadDrains` | driver/route56.c:5770-5812 | the loop stops early only for a full FIFO or an empty queue |
| `BottomHalf.SystemStepKeeps` | driver/route56.c:968-995 | every step of interrupt handler (transmit wake-ups without completion included), work item, device, timer and callers keeps the system invariant |
| `BottomHalf.Run` | driver/route56.c:1000-1043 | the invariant holds in every state of every interleaving |
| `BottomHalf.SystemSafety` | driver/route56.c:1674-1680 | pending work implies a request; a request is exactly one instance queued or before its final call; a complete frame is always about to be noticed; a send-done request meets an idle transmitter only while a check is to come |
| `BottomHalf.ExtractionProgress` | driver/route56.c:1054-1063 | an extraction succeeds exactly when a complete frame waits, and leaves fewer |
| `BottomHalf.ReceiveTurnKeeps` | driver/route56.c:1045-1064 | the receive loop keeps the invariant at each of its points: the unlocked read of rx_rcc_underrun, the locked restart, the extraction |
| `BottomHalf.NextDecreases` | driver/route56.c:1015-1038 | each step of the live instance lowers a bound on the steps it still needs |
| `BottomHalf.WorkDrains` | driver/route56.c:1000-1087 | without further interrupts the work item ends, with nothing pending, no complete frame left in an enabled ring and no send-done request left with an idle transmitter |
| `WorkEffects.WorkDelivers` | driver/route56.c:1045-1064 | with receive work to do and no fault noted it then has delivered every waiting frame that earns it, in order, and has reset the ring only if one unfinished frame had every entry |
| `WorkEffects.UnderrunRestarts` | driver/route56.c:1056-1062 | an underrun read as set leads to a restart and no delivery |
| `WorkEffects.ClearExtracts` | driver/route56.c:1056-1063 | one read as clear leads to one extraction, repeated exactly if a frame was there |
| `WorkEffects.DmaIrqAsks` | driver/route56.c:1560 | the receive DMA interrupt sets BH_RECEIVE and the work item is asked for |
| `WorkEffects.UnderrunIrqAsks` | driver/route56.c:1525-1527 | so does the count underrun |
| `WorkEffects.OverrunIrqRecovers` | driver/route56.c:1142-1145 | a FIFO overrun is dealt with at once, without the work item |
| `WorkEffects.OtherIrqEffect` | driver/route56.c:1193-1213 | end of transmission makes the transmitter idle, wake-ups do not; both set BH_TRANSMIT, a pin change BH_STATUS |
| `WorkEffects.WorkInOrder` | driver/route56.c:975-992 | receive before transmit before status, one bit at a time; the call that finds none clears both flags |
| `WorkEffects.SendDoneCheck` | driver/route56.c:1083-1086 | the transmit work carries out a send-done request if and only if the transmitter is idle |
| `WorkEffects.SendDoneRequests` | driver/route56.c:7661-7672 | a send-done is kept for a busy transmitter and done at once for an idle one; a timeout or abort cancels it |
| `WorkEffects.SendDoneStays` | driver/route56.c:7661-7696 | no other step touches the request |
| `WorkEffects.TimerEffect` | driver/route56.c:7639-7653 | a start makes the transmitter busy; the timer leaves a check to be made |
| `WorkEffects.TimerCheckEffect` | driver/route56.c:1083-1086 | the timer's own check carries out a send-done request if and only if the transmitter is still idle |
| `WorkEffects.DispatchEffect` | driver/route56.c:1000-1013 | a queued work item becomes a live instance |
| `WorkEffects.QueuedWhen` | driver/route56.c:1674-1680 | an interrupt queues the work item if and only if there is work and no instance is queued or live |
| `LoopLists.TailList.Add` | examples/sample-loopmode/secondary.c:595-611 | appending through the cached tail appends to the sequence |
| `LoopLists.TailList.RemoveHead` | examples/sample-loopmode/primary.c:644-659 | the list becomes its tail, the cached tail stays right |
| `LoopLists.TailList.CutHead` | examples/sample-loopmode/secondary.c:567-583 | the head is returned, the list becomes empty, the counter falls by one |
| `LoopLists.TailList.Unlink` | examples/sample-loopmode/secondary.c:662-673 | head, middle or last removal keeps the links and repairs the cached tail |
| `LoopLists.TailList.RemoveFirst` | examples/sample-loopmode/secondary.c:648-685 | removes the first match and nothing else, or reports that there is none |
| `LoopDriver.SecondaryStation.constructor` | examples/sample-loopmode/common.h:107-128 | empty lists, zero counters |
| `LoopDriver.SecondaryStation.CheckForNewTransactions` | examples/sample-loopmode/secondary.c:485-529 | the next number is queued last, unless the limit is reached |
| `LoopDriver.SecondaryStation.MoveQueuedTransactionToPendingList` | examples/sample-loopmode/secondary.c:619-628 | the head moves to the end of the pending list, the rest of the queue is dropped |
| `LoopDriver.SecondaryStation.SendHead` | examples/sample-loopmode/secondary.c:400-444 | a successful send: the head becomes pending, final if no other followed it, the rest is dropped |
| `LoopDriver.SecondaryStation.DoPollResponse` | examples/sample-loopmode/secondary.c:384-446 | the loop sends at most one request, final only if it was alone |
| `LoopDriver.SecondaryStation.ReconcileTransaction` | examples/sample-loopmode/secondary.c:638-685 | completes the first pending transaction with the response's number and creation time |
| `LoopStations.NumbersSplit` | examples/sample-loopmode/secondary.c:485-529 | each number from 1 to the last belongs to one transaction, kept in exactly one of queue, pending, completed and dropped |
| `LoopStations.PendingUnique` | examples/sample-loopmode/secondary.c:638-685 | pending numbers are distinct, completed numbers are distinct, nothing pending is already completed |
| `LoopDriver.PrimaryStation.constructor` | examples/sample-loopmode/common.h:107-134 | no clients, empty queue |
| `LoopClients.ClientList.Find` | examples/sample-loopmode/primary.c:387-413 | the search along the links ends at the first client with the address and its predecessor |
| `LoopClients.ClientList.Append` | examples/sample-loopmode/primary.c:366-375 | walking to the last node and linking there appends |
| `LoopClients.ClientList.Unlink` | examples/sample-loopmode/primary.c:396-404 | head, middle or last removal keeps the links |
| `LoopDriver.PrimaryStation.GetClientInfo` | examples/sample-loopmode/primary.c:423-433 | the first client with the address, if any |
| `LoopDriver.PrimaryStation.AllocateClient` | examples/sample-loopmode/primary.c:335-378 | a known client is reset in place, an unknown one joins the end |
| `LoopDriver.PrimaryStation.DeallocateClient` | examples/sample-loopmode/primary.c:387-414 | the client is removed, an unknown one ignored |
| `LoopDriver.PrimaryStation.QueueTransaction` | examples/sample-loopmode/primary.c:575-633 | a request joins the end of the queue |
| `LoopDriver.PrimaryStation.ReceiveInfo` | examples/sample-loopmode/primary.c:299-320 | only requests of known clients are queued |
| `LoopDriver.PrimaryStation.TakeClientNumber` | examples/sample-loopmode/primary.c:712-716 | the send number used is the client's, which then advances modulo 8 |
| `LoopDriver.PrimaryStation.AnswerHead` | examples/sample-loopmode/primary.c:691-730 | one turn of the response loop: discarded, failed or answered |
| `LoopDriver.PrimaryStation.SendTransactionResponses` | examples/sample-loopmode/primary.c:674-730 | answers in queue order until a send fails, with the queue length as measure |
| `LoopStations.AllocateKeeps` | examples/sample-loopmode/primary.c:335-378 | after a SIM the client is known and numbering restarts |
| `LoopStations.DeallocateKeeps` | examples/sample-loopmode/primary.c:387-414 | after removal the address is unknown |
| `LoopStations.SendResponsesKeeps` | examples/sample-loopmode/primary.c:691-730 | what is sent and what stays queued comes from the queue, nothing twice |
| `LoopProtocol.StepKeeps` | examples/sample-loopmode/secondary.c:253-333 | every loss, arrival, send and new transaction keeps: what is under way is there once and pending at its station |
| `LoopProtocol.RunKeeps` | examples/sample-loopmode/primary.c:277-326 | the protocol invariant holds in every run of any number of stations |
| `LoopProtocol.ResponseMatchesOne` | examples/sample-loopmode/secondary.c:648-660 | a response under way matches exactly one pending entry |
| `LoopProtocol.LoopSafety` | examples/sample-loopmode/secondary.c:310-324 | in every run a response reaching an initialised secondary completes its transaction, and none is completed twice |
| `LoopProtocol.NumbersSplitInRuns` | examples/sample-loopmode/secondary.c:541-628 | in every run the numbers split exactly and the counters are the pending length and queued plus dropped |
| `LoopProtocol.SendNumbersInRuns` | examples/sample-loopmode/primary.c:697-716 | in every run no address is listed twice and each send number is the count of earlier attempts since the last SIM, modulo 8 |
| `LoopProtocol.UnknownUntilSim` | examples/sample-loopmode/primary.c:277-317 | an unknown address stays unknown until its next SIM |
| `LoopEffects.RequestEffect` | examples/sample-loopmode/primary.c:299-320 | a request that arrives joins the end of the queue if its client is listed, and is ignored if not |
| `LoopEffects.EchoEffect` | examples/sample-loopmode/primary.c:309-315 | a response that has come back round is ignored |
| `LoopEffects.SimEffect` | examples/sample-loopmode/primary.c:279-287 | a SIM is answered and its sender listed with number 0, unless there is no memory for a new client |
| `LoopEffects.DiscEffect` | examples/sample-loopmode/primary.c:289-293 | a DISC takes its sender off the list |
| `LoopEffects.AllocatedNumbers` | examples/sample-loopmode/primary.c:335-378 | a SIM sets one client's number to 0 and touches no other client |
| `LoopEffects.DeallocatedNumbers` | examples/sample-loopmode/primary.c:387-414 | a removal touches no other client |
| `LoopEffects.AdvancedNumbers` | examples/sample-loopmode/primary.c:712-716 | an attempt moves one client's number on modulo 8 and touches no other |
| `LoopEffects.SendExact` | examples/sample-loopmode/primary.c:674-730 | answers go to listed stations only, in order, up to the first failed send; what is left starts with the one that failed |
| `LoopEffects.TurnEffect` | examples/sample-loopmode/primary.c:674-730 | the answers are on the loop, then a poll for every station |
| `LoopEffects.AllAnswered` | examples/sample-loopmode/primary.c:691-730 | when every send succeeds each queued request of a listed station is answered |
| `LoopEffects.DisconnectEffect` | examples/sample-loopmode/primary.c:489-497 | a disconnect order goes out to every station |
| `LoopEffects.PollAnswer` | examples/sample-loopmode/secondary.c:400-444 | a poll sends the oldest queued transaction only, final if and only if it was alone; it becomes pending, the others are gone |
| `LoopEffects.PollAnswerNone` | examples/sample-loopmode/secondary.c:386-396 | with nothing queued the station says it is ready; a failed send changes nothing |
| `LoopEffects.SimReplyEffect` | examples/sample-loopmode/secondary.c:279-296 | the answer to a SIM initialises the station |
| `LoopEffects.DisconnectOrderEffect` | examples/sample-loopmode/secondary.c:255-263 | a disconnect order ends that with a DISC |
| `LoopEffects.CreateEffect` | examples/sample-loopmode/secondary.c:485-529 | a new transaction gets the next number and joins the end, unless the station is not initialised or at its limit |
| `LoopEffects.ResponseEffect` | examples/sample-loopmode/secondary.c:310-324 | a response completes its transaction at an initialised station and is ignored at any other |
| `LoopReach.Joins` | examples/sample-loopmode/secondary.c:253-333 | from any state of the invariant a station can join without a loss |
| `LoopReach.QueuedCompletes` | examples/sample-loopmode/primary.c:691-730 | from any state of the invariant the oldest queued transaction of an initialised and listed station can be completed without a loss |
| `LoopReach.LoopCompletes` | examples/sample-loopmode/secondary.c:310-324 | from the initial loop every station can join, create a transaction and have it completed |
| `Layout.BuildRing` | driver/route56.c:3726-3753 | the loop of one ring: addresses one entry apart, links to the next, the last back to the first |
| `Layout.BuildBufferLists` | driver/route56.c:3719-3753 | every entry's address, no two alike, and every link is the address of the next entry of its own ring |
| `Layout.TwoCycles` | driver/route56.c:3719-3753 | the ring order forms two disjoint cycles, each reaching exactly its ring's entries within one turn |
| `Layout.LinkCycles` | driver/route56.c:3719-3753 | so do the addresses in the link fields of the lists as built |
| `Layout.AllocFrameMemory` | driver/route56.c:3794-3819 | consecutive pages, each handed out once |
| `Layout.AllocateDmaBuffers` | driver/route56.c:3575-3616 | entry list and data pages are pairwise disjoint and fit the 256K |
| `Clock.TimeConstantNearest` | driver/route56.c:5340-5345 | time constant plus one is the nearest integer to the quotient, halves up, whenever that fits 16 bits |
| `Clock.DpllNearest` | driver/route56.c:5034-5042 | the same for the DPLL clock, both crystals and all three divisors |
| `Clock.LoopbackDiffers` | driver/route56.c:5280-5284 | the loopback constant differs exactly when twice the remainder reaches the rate |
| `Clock.LoopbackFloor` | driver/route56.c:5280-5284 | the loopback constant plus one is the quotient rounded down whenever that fits |

## Left out

- Register programming, self-tests, tty and network layers, open and close, /proc: chip and kernel interfaces, present only as device commands.
- Statistics counters (icount) of the driver: they are written and never decide anything.
- Interleavings inside one frame extraction and inside one raw-mode write: both are single steps here.
- RxInvariant.RunKeeps: HDLC mode; a frame the count register cannot count does not end there, the count underrun stops the receiver first. Raw mode, with frames of any length, is RawRuns.
- TxStream.StreamConserves: no flow-control stop, writes of at most 65535 bytes that fit the ring, and characters put one by one (r56_put_char, r56_flush_chars) only in async mode.
- TxDriver.Sender.Write: what lies at xmit_buf is a parameter, since in raw mode nothing but r56_put_char writes it.
- BottomHalf.SystemSafety: the receive loop with HDLC extraction, and runs without a transmitter stop; a stop discards the completion without scheduling work.
- Receiver re-enable after sending on no-echo interfaces: the flag is written and never read, so there is nothing to prove.
- tx_dma_buffers_used in HDLC mode, which only grows because end-of-buffer interrupts are armed in raw mode only.
- LoopProtocol.LoopSafety: stations have distinct addresses other than the broadcast address (which disables the address filter), and transaction numbers do not wrap at 32 bits; allocation failure appears as a SIM without effect.
- Layout.AllocateDmaBuffers: the PCI layout with at least one receive buffer left and 62 entries fitting one page; ISA buffers come from the kernel allocator.
- Asynchronous reception, signal handling, profiles, logging and the shutdown wait loop of the loop-mode programs.
