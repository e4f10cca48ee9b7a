# Verified model of the HD capture driver

The driver runs a USB video encoder: an HDMI receiver chip measures the incoming signal, a codec
encodes it, and a worker thread carries the encoded transport stream from the codec to user
space. This project models the parts of it that are algorithms and proves what they promise.

**The stream** (`Stream`, `StreamRuns`, `Buffers`, `Capture`, `CaptureRuns`, `DwordFixup`,
`StreamSteps`, `StreamStepsProof`, `StreamStepsRuns`, `StreamGuard`). A fixed pool of buffers moves between a
free list, a used list and the worker's hand. The worker fills a buffer, turns every four bytes
round in place and publishes it; when nothing is free it steals the oldest used buffer. The
reader bites pieces of any size out of the head buffer. The project has three levels.

* `Stream` and `StreamRuns` give the meaning of one `usb_read` and one `fops_read` on values, and
  prove what holds after every sequence of them: which bytes are delivered, which are lost, and
  that the byte counts add up.
* `Buffers`, `Capture` and `CaptureRuns` are the driver's own form: buffer objects with arrays,
  lists that are relinked, loops, errors and their ways out, from probe to disconnect. Every
  method is proved to do what the level above says, so `PlayAll` carries the results over.
* `StreamSteps` and its companions let the worker and one reader interleave, one step for every
  section under `dmaqueue_lock` and for every access outside it, and prove that every interleaving
  in which no steal or flush takes the buffer the reader still relies on behaves as one byte FIFO.
  `StreamGuard` proves that this exception is exact: otherwise some continuation has a buffer in
  two places or bytes that do not add up.

**The session** (`ReaderCount`, `Session`). Any number of file handles take part in a capture by
two atomic operations and a write of the capture state; the worker thread runs sessions. Proved:
the count is exact in every interleaving, the commands sent to the firmware form complete
sessions, when the capture state can come out of step with the readers, and exactly which starts
and stops are lost.

**The whole** (`Whole`) puts handles, worker and buffers together: the flush at the start of a
capture never meets a reader, a settled capture stays until its last reader leaves, and exactly
when the flush at the end takes a buffer a reader still relies on.

**The receiver** (`BankCache`, `Mst3367`, `Detection`). The driver skips bank selections it
believes redundant; proved transparent for every sequence of accesses, and used for the whole
initialisation. On top of it the detection state machine and its table of standards.

**Encodings and arithmetic** (`Encoder`, `Wire`, `Firmware`, `I2c`, `Histogram`). The command
words of the encoder, the USB packets, the chunked firmware load, the joining of I2C messages,
the histogram and its time arithmetic.

`Bytes` holds bytes, words and sequence lemmas. `dfyconfig.toml` makes
`dafny verify dfyconfig.toml` check everything.

Statements of the form "exactly when" mark places where the code does not do what its comments
or its callers expect in all cases; the condition is then proved in both directions.

## Model

| member | source | states |
|---|---|---|
| DwordFixup.SwappedInvolution | hdcapm-compressor.c:436-446 | the fix-up undoes itself on every whole number of groups |
| DwordFixup.SwappedAppend | hdcapm-compressor.c:436-446 | the fix-up of two payloads of whole groups laid end to end is the two fix-ups laid end to end |
| DwordFixup.SwappedGroup | hdcapm-compressor.c:436-446 | where each of the four bytes of any group ends up |
| DwordFixup.TurnGroup | hdcapm-compressor.c:437-445 | four bytes are exchanged crosswise through temporaries, and no other byte changes |
| DwordFixup.SwapInPlace | hdcapm-compressor.c:436-446 | the in-place loop turns round the groups of the first n bytes and leaves every byte from n on alone |
| DwordFixup.SwapTurnsLittleIntoBig | hdcapm-compressor.c:432-446 | the fix-up takes the little-endian form of any word sequence to its big-endian form, the order of a transport stream |
| Stream.CopyLoopTakesPrefix | hdcapm-video.c:512-555 | whatever the copy loop meets, the queue before it is the bytes handed out followed by the queue after it, and never more than asked for |
| Stream.CopyLoopRemovesFront | hdcapm-video.c:530-554 | buffers leave only from the front and each one that leaves is recycled; the others stay as they were, in order, except that the new head may be partly read |
| Stream.CopyLoopStaysWellRead | hdcapm-video.c:530-554 | only the head of the used list is ever partly read, and never past its end |
| Stream.SaneIff | hdcapm-compressor.c:405-423 | what is assumed of a transfer: of four bytes for each announced word, in 32 bits, it delivers all when it succeeds and never more |
| Stream.UsbReadRefuses | hdcapm-compressor.c:368-412 | from the status words alone: an unreadable status fails and changes nothing, a status that is not ready counts that and nothing else, and a ready one hits BUG exactly without the 0x83 mark or above 256000 bytes |
| Stream.UsbReadOutcome | hdcapm-compressor.c:405-461 | with a good status and a buffer, free or stolen, a poll is received if and only if the transfer succeeds, with every list and counter stated; with no buffer it fails and counts an overrun |
| Stream.CopyLoopTakesAll | hdcapm-video.c:512-555 | a read, blocking or not, takes the smaller of what is asked for and what lies before a failing copy |
| Stream.FaultIff | hdcapm-video.c:521-528 | a read ends with a failing copy exactly when more is asked for than lies before it |
| Stream.NothingThereIff | hdcapm-video.c:547-560 | a read finds nothing exactly when the list is empty, or a non-blocking one passes over empty buffers only |
| Stream.NoFault | hdcapm-video.c:512-558 | without a failing copy a non-blocking read ends with the list empty or with nothing left to copy |
| Stream.ReadContract | hdcapm-video.c:477-563 | a non-negative result is the length of the prefix removed from the queue, a negative one removes nothing, no buffer is lost, and a non-blocking read without fault fails only with nothing delivered and nothing left |
| Stream.ReadDelivers | hdcapm-video.c:484-555 | a read that does not seek and does not wait in vain, blocking or not, delivers the front of the queue up to the count and the failing copy; others deliver nothing; the counters stay |
| Stream.ReadResultIff | hdcapm-video.c:484-562 | from the call and the used list alone: ESPIPE exactly for an offset, EINVAL exactly for blocking on nothing, EFAULT exactly when a copy fails before any byte is delivered, EAGAIN exactly for non-blocking with no bytes anywhere, else the length delivered |
| StreamRuns.TakeKeeps | hdcapm-buffer.c:133-156 | taking a buffer only moves a payload from the used list to those that left it, counts an overrun when it cuts one short, and its unread bytes are those dropped |
| StreamRuns.UsbKeeps | hdcapm-compressor.c:350-477 | every outcome of a poll keeps the account of received, delivered, dropped and queued bytes |
| StreamRuns.ReadKeeps | hdcapm-video.c:477-563 | every read keeps that account, after any earlier history |
| StreamRuns.SessionIntegrity | hdcapm-compressor.c:350-477 | after any sequence of polls and reads, with overruns and failures: the received payloads are those that left the list followed by those on it, the delivered bytes are the taken prefixes of these in order, and no more payloads were cut short than buffers stolen |
| StreamRuns.SessionConservation | hdcapm-compressor.c:449-456 | after any sequence, bytes received are bytes delivered plus bytes dropped by steals plus bytes unread on the used list |
| StreamRuns.SessionWithoutOverrun | hdcapm-video.c:512-555 | in a session without overruns the received bytes are the delivered bytes followed by the queued bytes, nothing lost or reordered |
| StreamRuns.CountersAre | hdcapm-buffer.c:142-150 | after any sequence the overrun counter is the number of steals, and the not-ready counter that of polls which were not ready |
| StreamRuns.StealsIffAllUsed | hdcapm-buffer.c:133-156 | with at least one buffer a call never comes back empty-handed in any reachable state, and it steals exactly when every buffer is waiting to be read |
| Bytes.UnlinkRemovesOne | hdcapm-buffer.c:175-180 | relinking takes exactly one occurrence of the buffer off its list, and leaves a list without it alone |
| Bytes.UnlinkAt | hdcapm-buffer.c:175-180 | it leaves from wherever it is, the others keeping their order |
| Buffers.Pool.Apart | hdcapm-buffer.c:58-196 | with the pool partitioned, no buffer is in two places and none is twice on the used list |
| Buffers.Pool.NextUsed | hdcapm-buffer.c:109-123 | the head of the used list goes to the hand with its contents, or nothing changes |
| Buffers.Pool.TakeFree | hdcapm-buffer.c:133-141 | the first lock section: the head of the free list goes to the hand, or nothing changes |
| Buffers.Pool.NextFree | hdcapm-buffer.c:133-156 | the first free buffer, else the oldest used one with an overrun counted; null exactly when both lists are empty; the partition is kept |
| Buffers.Pool.AddToFree | hdcapm-buffer.c:158-168 | the buffer in hand becomes the last of the free list; the partition is kept |
| Buffers.Pool.AddToUsed | hdcapm-buffer.c:158-173 | the buffer in hand becomes the last of the used list with its contents unread; the partition is kept |
| Buffers.Pool.MoveToFree | hdcapm-buffer.c:175-188 | a buffer leaves whichever list it is on, from wherever it is, and joins the end of the free list; the partition is kept |
| Buffers.Pool.MoveAll | hdcapm-buffer.c:58-69 | the used list is appended to the free list in order, whatever it holds |
| Buffers.Pool.FreeAll | hdcapm-buffer.c:74-87 | the buffers freed are those of the list in order, and of the pool each exactly once |
| Buffers.Pool.UsedQueueStats | hdcapm-buffer.c:201-218 | the bytes reported are the length of the byte queue, the items the length of the list |
| Capture.DmaRead | hdcapm-compressor.c:418-429 | what a transfer delivers stands at the front of the buffer, the rest is as it was |
| Capture.FixUp | hdcapm-compressor.c:432-446 | the payload in hand is turned round in place, and the used list does not notice |
| Capture.SetSizes | hdcapm-compressor.c:454-455 | sizes and read position of the buffer in hand are set, and the used list does not notice |
| Capture.HandOver | hdcapm-compressor.c:449-456 | the buffer joins the end of the queue unread, the counters rise by its size, the hand is empty |
| Capture.Publish | hdcapm-compressor.c:430-461 | the fixed-up payload joins the end of the queue unread, the counters rise by it, the hand is empty |
| Capture.Receive | hdcapm-compressor.c:418-461 | with a buffer in hand: on success as above, on failure back to the free list, as the value model says |
| Capture.Acquire | hdcapm-compressor.c:405-461 | with the codec ready: state and result of the value model, the pool partitioned and the hand empty on every path |
| Capture.UsbRead | hdcapm-compressor.c:350-477 | state and result of the value model for every status and transfer outcome, the pool partitioned and the hand empty on every path |
| Capture.CopyToUser | hdcapm-video.c:518-528 | the bytes at the read position follow those already in the user's buffer |
| Capture.CopyBite | hdcapm-video.c:512-528 | the user gets the next bytes of the head payload, and the pool is untouched |
| Capture.Advance | hdcapm-video.c:530-533 | only the read position of the head buffer moves |
| Capture.Recycle | hdcapm-video.c:538-545 | the head buffer leaves the used list for the end of the free list |
| Capture.Bite | hdcapm-video.c:512-545 | the bytes handed out are the next of the head payload; the buffer is recycled exactly when they exhaust it |
| Capture.CopyLoopAfter | hdcapm-video.c:512-555 | after any number of turns that emptied buffers, what remains of the read is a read of the rest with the rest of the count |
| Capture.BiteEnds | hdcapm-video.c:512-534 | with less wanted than the head still has, the read ends inside the head, which keeps the rest |
| Capture.BiteEmpties | hdcapm-video.c:512-553 | with at least that much wanted the head is emptied, and if it was the last a blocking read ends by a signal |
| Capture.LoopFaults | hdcapm-video.c:521-528 | a failing copy ends the read with what the buffers before delivered |
| Capture.LoopIsOver | hdcapm-video.c:507-558 | the read ends with the list empty or the count used up, exactly the emptied buffers recycled |
| Capture.BiteMeans | hdcapm-video.c:512-545 | a turn either empties the head buffer and leaves a read of the rest, or it is the last |
| Capture.Turn | hdcapm-video.c:512-545 | a turn of the loop on the arrays does just that |
| Capture.TryTurn | hdcapm-video.c:512-554 | a turn with its ways out, each with the bytes and buffers the value model gives |
| Capture.CopyOut | hdcapm-video.c:507-558 | the loop on the arrays hands out the bytes, leaves the queue and recycles the number of buffers of the value model, and terminates because count plus used buffers falls |
| Capture.ReadSome | hdcapm-video.c:507-562 | and its result is that of the value model |
| Capture.FopsRead | hdcapm-video.c:477-563 | a read call: state, result and user bytes of the value model, including the seek and wait errors |
| Capture.AddNew | hdcapm-core.c:624-635 | one more buffer with an array of its own |
| Capture.Probe | hdcapm-core.c:624-635 | all buffers are free after probe; if an allocation fails, those made so far are freed, each once |
| Capture.Disconnect | hdcapm-core.c:734-736 | every buffer of the pool is freed exactly once |
| CaptureRuns.BeginSession | hdcapm-compressor.c:778-782 | counters cleared and every buffer free, whatever state the last session left |
| CaptureRuns.PlayAll | hdcapm-compressor.c:764-831 | a session of any calls on the arrays delivers exactly the bytes of the session on values, so its byte counts add up and without overrun nothing is lost |
| StreamStepsProof.PartOf | hdcapm-buffer.c:58-196 | a buffer that is on one list or in the hand is nowhere else |
| StreamStepsProof.HandIsPrivate | hdcapm-compressor.c:414-456 | whatever the worker does to the buffer in its hand, neither the used list nor the reader's view nor the byte queue changes |
| StreamStepsProof.SwapGroupKeeps | hdcapm-compressor.c:436-446 | the invariant holds between any two groups of the fix-up, with the reader running |
| StreamStepsProof.PublishKeeps | hdcapm-compressor.c:448-461 | publishing appends exactly the fixed-up payload to the byte queue |
| StreamStepsProof.MoveMoves | hdcapm-buffer.c:175-188 | the buffer the reader recycles is the head of the used list and not on the free list |
| StreamStepsProof.AdvanceKeeps | hdcapm-video.c:530-533 | moving the read position takes exactly the copied bytes off the front of the byte queue |
| StreamStepsProof.StepKeeps | hdcapm-video.c:510-555 | every step of worker or reader, except a steal or flush while the reader still relies on its buffer, keeps the invariant and is one operation of a byte FIFO, or none |
| StreamStepsRuns.RunRefinesFifo | hdcapm-video.c:510-555 | every such interleaving is a run of the byte FIFO, with the invariant in every state and the byte counts adding up |
| StreamStepsRuns.FromFresh | hdcapm-compressor.c:414-456 | from a fresh pool: buffers stay partitioned, received bytes are delivered, dropped or queued, and without a drop they are delivered followed by queued, in order |
| StreamStepsRuns.HeldBufferIsStable | hdcapm-video.c:510-547 | while the reader relies on a buffer no such step of the worker moves it from the head of the list or changes anything in it |
| StreamStepsRuns.ReadDeliversAtMost | hdcapm-video.c:512-555 | from the start of a read of n bytes until it returns, with any steps of the worker in between, the bytes delivered and the count still wanted make up n, so at most n are delivered, and after n the reader copies no more |
| StreamStepsRuns.BiteIsAll | hdcapm-video.c:514-533 | each copy is all that is wanted or all that the buffer has left |
| StreamStepsRuns.ReadCompletes | hdcapm-video.c:507-562 | a reader left alone returns, from any point of its call, and has then got all it wanted or all there is |
| StreamGuard.InvStaysGood | hdcapm-video.c:510-555 | from a state with the invariant, no continuation within the guard ever has a buffer in two places or bytes unaccounted for |
| StreamGuard.ClashIsFatal | hdcapm-video.c:518-545 | once the worker holds the buffer the reader relies on, the reader's own next steps put it in two places or deliver bytes counted as dropped |
| StreamGuard.StealIsSafeIff | hdcapm-buffer.c:142-146 | after a steal every continuation that stays within the guard afterwards keeps each buffer in one place and every byte accounted for, exactly when the reader has no buffer or nothing left to copy out of it |
| StreamGuard.TakesItInTheEnd | hdcapm-buffer.c:133-168 | a buffer on the free list is taken by the worker sooner or later, whatever its place, through transfers that fail |
| StreamGuard.FlushIsSafeIff | hdcapm-buffer.c:58-69 | after a flush every continuation within the guard does so exactly in the same case, because the worker can take the buffer from the free list while the reader still relies on it |
| StreamGuard.StealBreaksARun | hdcapm-buffer.c:142-188 | a run from a fresh pool reaches a steal after which a continuation loses a buffer or miscounts bytes |
| StreamGuard.FlushBreaksARun | hdcapm-buffer.c:58-69 | and one reaches a flush that does |
| StreamGuard.AllUsedWhenNoneFree | hdcapm-buffer.c:133-141 | when the worker finds nothing free, all buffers are on the used list |
| StreamGuard.NullIffAllRecycled | hdcapm-buffer.c:133-156 | whatever happens before the second lock section, it finds nothing, and the call returns NULL, exactly when the reader has recycled every buffer of the pool in between |
| StreamGuard.NullWithBuffersInThePool | hdcapm-buffer.c:142-156 | a run from a fresh pool in which that happens after four bytes were delivered |
| Whole.StepKeeps | hdcapm-core.c:403-436 | handles, worker and buffers together: every step of any of them keeps all three invariants, a handle being read stays counted, and between captures no buffer is on the used list |
| Whole.RunKeeps | hdcapm-core.c:403-436 | so does every run in which no steal, and no flush at the end of a capture, takes a buffer the reader relies on |
| Whole.StartFlushFindsNothing | hdcapm-compressor.c:782-782 | in every such run from the start, the flush at the start of a capture finds the used list empty, so it meets no reader, with nothing asked of it |
| Whole.SettledCaptureStays | hdcapm-compressor.c:800-808 | a running capture with readers and no owed write stays in its loop until the last reader leaves, whatever handles open, poll, read and are released |
| Whole.EndFlushIsSafeIff | hdcapm-compressor.c:828-830 | at the flush at the end of a capture, with a new start written after STOPPED: every continuation of the whole driver keeps each buffer in one place and every byte accounted for, exactly when the reader relies on no buffer then |
| Whole.TakesItInTheEnd | hdcapm-compressor.c:350-429 | through polls whose transfers fail, the worker of the next capture gets hold of any free buffer |
| Whole.ReachesPoll | hdcapm-core.c:420-430 | a worker that has seen a start, or is going to, gets to its next poll without the handles doing anything |
| Whole.EndFlushMeetsReader | hdcapm-compressor.c:800-830 | a run from the start in which a handle starts to read during the teardown, finds a buffer still there, and is met by that flush |
| ReaderCount.StepKeeps | hdcapm-video.c:463-498 | every atomic step keeps the count equal to the handles between their increment and their decrement |
| ReaderCount.CountedVersusFlagged | hdcapm-video.c:463-498 | over any set of handles, those counted are those flagged, less those flagged and not yet counted, plus those unflagged and still counted |
| ReaderCount.CountIsExact | hdcapm-video.c:463-589 | for any number of handles and any interleaving of read, poll and release: the count is never negative, equals the flagged handles corrected by those mid-step, and its moves off and back to zero alternate, a rise first |
| ReaderCount.ReleaseIsFinal | hdcapm-video.c:455-475 | once its release has begun a handle takes part in no capture any more, in any continuation |
| ReaderCount.StaysInOrderIff | hdcapm-core.c:386-398 | a step takes the state writes out of the order of those moves exactly when it writes a start while an older stop is unwritten |
| ReaderCount.WritesFollowEdgesIff | hdcapm-video.c:463-498 | in every run, for any number of handles: the writes follow the moves throughout exactly when no step does that; and then, whenever no write is owed, the last one was a start if and only if there are readers |
| ReaderCount.StartIsLost | hdcapm-video.c:463-498 | a start written past an older stop can always be undone by it: a reader is counted, no write is owed, and the last one was a stop |
| ReaderCount.StartCanBeLost | hdcapm-video.c:463-498 | a run of two handles from the start in which that happens |
| Session.StepTrace | hdcapm-compressor.c:764-831 | every step of worker or handle keeps the device trace in the shape of whole sessions and part of one |
| Session.StepRegister | hdcapm-compressor.c:791-814 | bits 1 and 2 of the output register are low from enabling to disabling the outputs and high afterwards |
| Session.TraceIsSessions | hdcapm-compressor.c:764-831 | the same over every run, from any state where it holds |
| Session.TraceFromStart | hdcapm-core.c:403-436 | in every run of the thread polls happen only inside a session, each session sends the start commands at most once and then the stop commands exactly once, and the output bits are low in the capture loop and, after the first session, high whenever none has its outputs enabled |
| Session.OnlyReadPolls | hdcapm-compressor.c:800-805 | the polls in the trace grow by one in the step that polls and in no other |
| Session.QuietRun | hdcapm-compressor.c:800-828 | a worker that is not live polls at most once more as long as no handle writes a start, whatever stops are written and even if the thread is told to end |
| Session.LiveRun | hdcapm-compressor.c:800-808 | a live worker can poll any number of times if no handle writes |
| Session.QuietIff | hdcapm-compressor.c:800-828 | without a start at most one poll can still come exactly when the worker is not live |
| Session.WhatAWriteAchieves | hdcapm-compressor.c:800-828 | a stop leaves the worker live exactly when written during start-up; a start leaves it live exactly during start-up or after the worker has announced STOPPED |
| Session.WriteInLoopEndsSession | hdcapm-compressor.c:800-808 | once the state is written in the capture loop this session's polls stay bounded, whatever is written afterwards |
| Session.StopInLoop | hdcapm-compressor.c:800-808 | a stop in the capture loop allows this session at most one more poll in every continuation, later starts included |
| Session.StopEndsPollingIff | hdcapm-compressor.c:800-828 | a stop with no later start allows at most one more poll in every continuation, exactly unless it is written during start-up |
| Session.StopCanBeLost | hdcapm-compressor.c:784-800 | a run from the start to a stop written during start-up, after which any number of polls follows with no more writes |
| Session.NoSignalGivesUp | hdcapm-compressor.c:772-776 | without a signal nothing is sent, the state is STOPPED, and in every continuation without a start the codec is not polled |
| Session.FailedRegisterRetriesIff | hdcapm-compressor.c:784-789 | a failing register routine leaves what the handles last wrote: a start is tried again and any number of polls can follow, otherwise none follows without a start |
| Session.WorkerWritesIff | hdcapm-compressor.c:772-828 | the worker overwrites the state only without a signal, when it announces the capture, and when that is over |
| Session.RegisterRoutineDisables | hdcapm-compressor.c:600-614 | a register routine that reaches the output register leaves both outputs disabled, however it ends |
| Session.NoFrameNoCommands | hdcapm-compressor.c:254-259 | with a frame of zero size the capture goes on without the encoder having been started |
| BankCache.StepAgrees | mst3367-drv.c:195-261 | one access leaves the same registers and reads the same with the cache as without, register 0x00 up to its bank bits |
| BankCache.CacheIsTransparent | mst3367-drv.c:195-261 | so does every sequence of reads, writes, sets and clears over the four banks whose writes to register 0x00 keep its bank bits, with the chip changing registers in between |
| BankCache.TransparentFromAnyStart | mst3367-drv.c:195-261 | and so does every such sequence from a driver whose cache may be wrong, if its first access selects its own bank or finds it selected |
| BankCache.SelFollows | mst3367-drv.c:195-208 | the remembered bank and register 0x00 after a sequence depend on nothing but their values before and the accesses |
| BankCache.EqualAfterIff | mst3367-drv.c:195-208 | anywhere in a run the whole chip, register 0x00 included, is the same after an access with and without the cache exactly when no selection was skipped that would have left another value there |
| BankCache.EqualReadIff | mst3367-drv.c:210-229 | anywhere in a run the two read the same exactly when it is another register or no such selection was skipped |
| BankCache.ReadThenWrite | mst3367-drv.c:249-261 | a read and a write back are one read-modify-write, although each of them may select the bank |
| BankCache.SetMeans | mst3367-drv.c:249-254 | setting touches the bits of the mask and no others |
| BankCache.ClearMeans | mst3367-drv.c:256-261 | so does clearing |
| BankCache.ShadowsStay | mst3367-drv.c:231-247 | without changes by the chip, the shadow of every register written tells its contents, after any sequence |
| BankCache.FailedSwitchIsCoherentIff | mst3367-drv.c:195-208 | when the selecting transfer can fail, the cache stays true exactly if it succeeded, was not needed, or the chip happened to have that bank |
| Mst3367.Receiver.SwitchBank | mst3367-drv.c:195-208 | the bank write is issued only when the remembered bank differs, and is remembered |
| Mst3367.Receiver.Read | mst3367-drv.c:210-229 | value and state of a cached read |
| Mst3367.Receiver.Write | mst3367-drv.c:231-247 | register and shadow of a cached write |
| Mst3367.Receiver.SetBits | mst3367-drv.c:249-254 | one read-modify-write that sets the mask |
| Mst3367.Receiver.ClearBits | mst3367-drv.c:256-261 | one read-modify-write that clears the mask |
| Mst3367.Receiver.TmdsHotPlug | mst3367-drv.c:271-283 | one read-modify-write of bit 1 of register 0xb7, low for link on |
| Mst3367.HotPlugMeans | mst3367-drv.c:271-283 | bit 1 of register 0xb7 of bank 0 is low afterwards exactly for a link, and no other bit changes |
| Mst3367.Receiver.CscLoop | mst3367-drv.c:1034-1035 | the loop writes the whole colour table to consecutive registers |
| Mst3367.Receiver.HdmiInit | mst3367-drv.c:285-308 | the calls of the HDMI part do what their list of accesses does |
| Mst3367.Receiver.InitSetup | mst3367-drv.c:912-1043 | the calls of the initialisation leave driver and chip as their list of accesses does |
| Mst3367.InitFine | mst3367-drv.c:912-1043 | every access of the initialisation names one of the four banks and keeps the bank bits of register 0x00 |
| Mst3367.InitIsTransparent | mst3367-drv.c:912-1043 | run at probe or again later, on any driver and chip unless bank 0 is remembered while another is selected, the whole initialisation leaves every register but 0x00 as without the cache |
| Mst3367.InitKeepsShadows | mst3367-drv.c:231-247 | and the shadows tell their contents if they did before |
| Mst3367.EarlyWriteArrivesIff | mst3367-drv.c:928-933 | register 0x41 of bank 0 holds what the initialisation writes exactly unless bank 0 was remembered while another was selected, or it held that value before |
| Mst3367.EarlyWriteCanMiss | mst3367-drv.c:195-208 | a selection of bank 0 that fails leads there from a correct cache, and the next initialisation then misses the register |
| Mst3367.HdmiEndsInBankZero | mst3367-drv.c:285-308 | whatever came before, the HDMI part ends with bank 0 remembered and register 0x00 zero |
| Mst3367.InitClearsSelection | mst3367-drv.c:912-1043 | with and without the cache the initialisation leaves register 0x00 at zero, from any state |
| Mst3367.WindowHolds | mst3367-drv.c:285-308 | from any driver, while registers 0xce and 0xcf are accessed bit 7 of register 0x00 stays set, which holds only because the cache skips the selections; afterwards it is clear |
| Detection.FindVideoStandard | mst3367-drv.c:134-158 | the loop returns the first row that accepts the measurement, or none |
| Detection.TableUnambiguous | mst3367-drv.c:113-132 | no two rows of the table accept a common measurement |
| Detection.FirstMatchFinds | mst3367-drv.c:134-158 | a row returned is in the table and accepts; none is returned only if none accepts |
| Detection.OrderDoesNotMatter | mst3367-drv.c:134-158 | in an unambiguous table any order of the rows gives the same result |
| Detection.LookupIsExact | mst3367-drv.c:113-158 | a row is returned if and only if it is in the driver's table and accepts, under any order of the table |
| Detection.RejectsIff | mst3367-drv.c:134-158 | a row is passed over exactly when a value is beyond one of its bounds, which belong to the range, or the interlacing differs |
| Detection.SignalPresentIff | mst3367-drv.c:384-385 | a signal is present exactly when one of bits 2 to 5 of register 0x55 is set |
| Detection.TotalsAre | mst3367-drv.c:388-405 | totals, active width and interlacing are what the register pairs show in their low bits, whatever the bits above |
| Detection.CountersAre | mst3367-drv.c:392-399 | so are the two counters behind the periods |
| Detection.PeriodsAre | mst3367-drv.c:396-408 | the periods are the frequencies of the counters, kept for a counter of zero, and the delay follows from the vertical one |
| Detection.LocksIff | mst3367-drv.c:422-428 | a detect call locks exactly when there is a signal and a row of the table accepts the measurement |
| Detection.HdmiReceiver.ModeDetect | mst3367-drv.c:374-480 | state, notifications, lock and result of a detect call, for all register contents |
| Detection.HdmiReceiver.GetDvTimings | mst3367-drv.c:703-716 | between detect calls the query returns the standard exactly when a signal is detected, and never dereferences null |
| Detection.DetectKeeps | mst3367-drv.c:374-480 | a detected signal has a standard of the table that accepts the stored measurement, and both flags agree |
| Detection.DetectionFollowsLock | mst3367-drv.c:374-480 | after any sequence of detect calls the flags are the last lock result, and the notifications are exactly the lock changes, alternating, present first |
| Detection.StandardIsLastLookup | mst3367-drv.c:420-428 | the stored standard is that of the last call with a signal, or none if it found none |
| Detection.NullStandardHalfWayIff | mst3367-drv.c:420-480 | inside a detect call a query from another thread meets a null standard exactly when a signal was known and no row of the table accepts the new measurement |
| Detection.NullStandardHappens | mst3367-drv.c:703-716 | register contents for two detect calls from the probe state in which it does |
| Encoder.EncoderParameters.SetControl | hdcapm-video.c:28-125 | the parameters after a control, and which controls and values are refused, without effect |
| Encoder.ActionsFit | hdcapm-video.c:28-125 | any run of controls and formats in range keeps every parameter within its field |
| Encoder.KnownIff | hdcapm-video.c:28-125 | a control is accepted exactly when it is known and its value means something to the hardware |
| Encoder.ParametersAreLastSet | hdcapm-video.c:28-125 | after any run of controls and formats every parameter is what was last set, or its registered default; the mode is VBR unless CBR, or a GOP of one picture, was set since |
| Encoder.OnePictureGopInVbrIff | hdcapm-video.c:51-70 | after any run of controls and formats from the registered defaults, the GOP is one picture in VBR mode if and only if VBR was set after the last setting of the GOP, which was to one picture, and CBR not after that |
| Encoder.FloorTwice | hdcapm-compressor.c:249-265 | dividing hundredths and then by a hundred is the floor of the single division, for all operands |
| Encoder.FpsIsFloor | hdcapm-compressor.c:249-265 | the frame rate is the floor of pixel clock by frame size when the hundredths fit 32 bits and nothing overflows before |
| Encoder.OutputFallsBackIff | hdcapm-compressor.c:266-274 | the output height falls back on the input on its own exactly when both sizes or neither are set, or it makes no difference |
| Encoder.PackingIsLosslessIff | hdcapm-compressor.c:275-300 | every value decodes back from the packed words exactly when every value fits its field |
| Encoder.FixedBitsAreKept | hdcapm-compressor.c:275-300 | the rate is the same in both words that carry it, and the constant words and the constant bits around the fields are as given |
| Encoder.FillStartCommand | hdcapm-compressor.c:243-300 | for all parameters and timings the array holds the command, or is untouched exactly when the frame size is zero; for those that fit, every field read out of the array is the parameter or input value it stands for |
| Encoder.CommandSays | hdcapm-compressor.c:237-300 | field by field: menus, GOP, both bitrates in kbit, input size and rate, output size by the scaler rule, and the output rate, halved for progressive 1080p above 30 |
| Encoder.CommandSaysWhatWasSet | hdcapm-video.c:638-672 | after the registered defaults and any run of controls and formats in range, each field of the start command is the parameter set, and the input rate is the floor of pixel clock by frame size, for inputs of 16-bit size below 128 frames |
| Wire.ParseEncode | hdcapm-core.c:85-282 | a parser written from the packet layout, which checks every byte, recovers every request, register counts modulo 256 |
| Wire.CountIsKeptIff | hdcapm-core.c:321-340 | a register count survives exactly when it is below 256 |
| Wire.EncodeInjective | hdcapm-core.c:85-340 | no two requests have the same packet |
| Wire.DecodeWords | hdcapm-core.c:356-362 | the words decoded are those whose little-endian bytes were received |
| Firmware.Memory.DmaWrite | hdcapm-core.c:159-205 | a transfer changes exactly the words that arrive, all of them or, cut short, the first ones |
| Firmware.Memory.Upload | hdcapm-compressor.c:664-679 | for any image and however each transfer ends: exactly the words that arrive are written, each to its place, everything else is unchanged, and the loop ends |
| Firmware.RegionsFit | hdcapm-compressor.c:631-723 | the wipes are one stretch that starts where the audio image ends, and wipes, images and single words never overlap |
| Firmware.WipeAll | hdcapm-compressor.c:631-647 | the wipes clear one stretch, as far as the first that is cut short, and fail exactly if one is |
| Firmware.LoadAudio | hdcapm-compressor.c:664-685 | audio image and the three words after it do not disturb each other, whichever of them arrive |
| Firmware.LoadMemory | hdcapm-compressor.c:631-723 | for every missing file, wrong length and transfer cut short: the result, and for every address whether it holds video, audio, zero, a mark or its old word |
| Firmware.ImagesStandIff | hdcapm-compressor.c:664-723 | after a load the driver takes for complete, an image stands in memory whole exactly when every word that did not arrive was there already |
| Firmware.LoadedWhole | hdcapm-compressor.c:631-723 | after a load in which no transfer of an image is cut short both images stand in memory whole, the stretch between them is zero, the three single words are 1, 0 and 0 where they arrived, and the rest is unchanged |
| I2c.PackBytes | hdcapm-i2c.c:142-147 | the loop puts the first byte lowest, for any length |
| I2c.PackKeepsFour | hdcapm-i2c.c:142-147 | the register holds the first four bytes, zero-padded, for a write of any length |
| I2c.ControlDecodes | hdcapm-i2c.c:109-154 | start bit, address and lengths decode back from the control word, for 7-bit addresses and up to four bytes |
| I2c.Wait | hdcapm-i2c.c:116-125 | at most 33 reads of the busy bit, and what the caller is told |
| I2c.StuckIsReportedIff | hdcapm-i2c.c:119-125 | the stuck report is right exactly unless the bit cleared on the 32nd read or not within 33 reads |
| I2c.Master.WriteRead | hdcapm-i2c.c:89-132 | register and control word of a joined read; the reader's byte is the low byte of the answer, or untouched if the wait reports stuck |
| I2c.Master.Xfer | hdcapm-i2c.c:158-191 | the registers written are those of the transactions the messages stand for, in order; what each message gets back; the result is the number of messages, whatever the waits report |
| I2c.TransfersAreWrites | hdcapm-i2c.c:158-191 | the transactions are the writes of the list, each exactly once and in order, joined exactly if a read from the same address follows directly; nothing for a read |
| I2c.AnsweredIff | hdcapm-i2c.c:116-131 | a message gets a byte, the lowest of the answer, exactly when it is a read directly after a write to the same address and the busy bit did not clear on the 32nd read |
| I2c.WireSaysMessage | hdcapm-i2c.c:104-154 | address, length and bytes of a write of up to four bytes can be read off the two registers, and a joined one names its first byte |
| Histogram.BucketWithin | kl-histogram.c:81-93 | the bucket of a value is among the first i exactly when the value is within bound i |
| Histogram.UncountedIff | kl-histogram.c:229-242 | a value has no bucket exactly above 60000 |
| Histogram.SearchSkips | kl-histogram.c:229-242 | starting the search at the end of the direct range finds the bucket of a full search |
| Histogram.SearchSmall | kl-histogram.c:224-228 | direct indexing is the bucket of a full search |
| Histogram.Counters.UpdateWithValue | kl-histogram.c:220-243 | the counters remain the tallies of all samples so far |
| Histogram.PrefixSumsAreExact | kl-histogram.c:81-93 | after any samples the first i + 1 counters together count exactly the samples not above bound i; so only samples above 60000 are uncounted |
| Histogram.Subtract | kl-histogram.c:27-49 | the difference in microseconds is exact for all inputs, y keeps its value, and which pair and flag result |
| Histogram.SubtractIsNormalIff | kl-histogram.c:27-49 | the microsecond part is in range and the flag is the sign, except in the exactly described cases of a part of 1000000; never for normalised inputs |
| Histogram.Cumulate | kl-histogram.c:404-439 | begin and complete calls store the sum of the truncated intervals |
| Histogram.CumulatedWithin | kl-histogram.c:404-439 | after k pairs the stored milliseconds are at most the true total and less than k below it |

## Left out

Premises and bounds:

- Capture.UsbRead: a transfer is no larger than a buffer, which holds of any buffer size from 256000 bytes on; below that the code would write past the buffer. A successful transfer delivers the full length it was asked for; a short one would leave old bytes in the buffer, which the code does not notice. The kernel's BUG() is a result that changes nothing. The acknowledging register writes and the statistics of time are not modelled.
- Capture.FopsRead: the value model takes calls as atomic, so a wait on an empty list can only end by a signal; waiting with the worker running is in the interleaved model. Byte counts stay below 2^31.
- StreamStepsRuns.RunRefinesFifo: one reader; steals and flushes while the reader relies on its buffer are excluded, because after them some continuation breaks the claim (StreamGuard.StealIsSafeIff, StreamGuard.FlushIsSafeIff). The failing copy is in the call model only.
- StreamStepsProof.StepKeeps: steps on one buffer are atomic, so a copy to user space is one step.
- ReaderCount.CountIsExact: a handle is released once, after all calls on it have returned, as the VFS guarantees.
- Whole.RunKeeps: one handle at a time is inside the copy loop; the guard excludes steals and end flushes that take a buffer the reader relies on, and EndFlushIsSafeIff is stated for a start written after STOPPED, which lets the next capture begin.
- Session.TraceIsSessions: the trace is of command numbers, outputs and polls; register writes of start-up other than to the output register are not in it, and register reads and writes of the output register succeed. The idle check before a command is not a guard, because it treats failure as success, so every command is sent.
- BankCache.CacheIsTransparent: transfers succeed, except in FailedSwitchIsCoherentIff. Four banks, selected by the two low bits of register 0x00, are assumed of the chip. Register 0x00 itself agrees up to its other bits, with EqualAfterIff and EqualReadIff for these.
- Mst3367.Receiver.InitSetup: the calls are grouped into methods of a few calls each; sleeps are left out.
- Detection.HdmiReceiver.ModeDetect: formal timings are names; reads inside the detect call are parameters.
- Encoder.FpsIsFloor: also assumes that a hundred times the pixel clock fits 64 bits and the frame size 32 bits.
- Encoder.CommandSaysWhatWasSet: input sizes below 65536 and an input rate below 128, which the fields need (PackingIsLosslessIff).
- Wire.EncodeInjective: register counts below 256 (CountIsKeptIff says why).
- Firmware.LoadMemory: bytes after the last whole word of an image are not sent.
- I2c.Master.Xfer: a write joined with a read has at least one byte; for an empty one the code reads past the message. Failing register accesses are ignored by the code and not modelled.
- Histogram.CumulatedWithin: clock readings are normalised and do not run backwards.
- Histogram.Counters.UpdateWithValue: counters do not wrap at 64 bits, nor do the statistics of the stream.

Not modelled at all:

- V4L2 and USB registration, ioctls, formats beyond the size fields, control and event plumbing: field copies.
- Error unwinding at probe other than for buffers.
- The bit-banged second I2C bus and the bus scan: their protocol is not part of this repository.
- The meaning of vendor register values and firmware commands, beyond order and addresses.
- Power-up variants that are switched off at compile time, timer evaluation, RRD output and printing of histograms.
- Jiffies and their wrap-around in the interval histograms of the kernel build.
