# stmdsp conversion firmware: model and proofs

stmdsp turns a NUCLEO board into a signal processor. The ADC fills a circular buffer by DMA and
interrupts at its middle and its end; the interrupt posts a message to a two-slot mailbox; a monitor
thread hands each message to a runner thread; the runner applies the loaded algorithm to the half of
the input buffer that was just filled and copies the result to the matching half of the output
buffer, which the DAC plays in a circle on the same clock. A host sends commands that resize the
buffers, load algorithms, start, stop and measure conversions, fetch results and feed a signal
generator.

This project models that firmware and proves what it guarantees. `dafny verify dfyconfig.toml`
checks it.

## Layout

| file | contents |
|---|---|
| `Basics.dfy`, `HalfBuffers.dfy` | shared types; what a double-buffered output has played |
| `Errors.dfy` | the error stack: class, and conservation over every history of calls, and of accesses with interrupts between them |
| `Mailbox.dfy` | the ChibiOS mailbox ring as a bounded queue |
| `SampleBuffers.dfy` | the sample buffer: the unrolled block copy against an element-wise definition; the slot for the noted half |
| `Pipeline.dfy` | the conversion pipeline as a step system: state, steps, runs |
| `PipelineFlow.dfy` | conservation, order, agreement of halves, measurement and notification counts |
| `PipelineSlack.dfy` | how far the runner may fall behind before an event is lost |
| `PipelineCopy.dfy` | block steps run to their end are one call of `modify` or `midmodify` |
| `PipelineMeasure.dfy` | what a run would be without measurements, and what the stopwatch shows |
| `PipelineStream.dfy` | the output signal as a function of the input signal |
| `PipelineRecovery.dfy` | what is played from any moment at which nothing is under way, whatever went wrong before, an overrun included |
| `PipelineExact.dfy` | exactly which half sizes give the exact signal; the split point of a session |
| `PipelinePass.dfy` | one pass of the runner's loop as a run, and what it makes of its block |
| `PipelineCommands.dfy` | what each command makes of the runs that follow it, and what the host is told of a refusal |
| `ConversionManager.dfy` | the imperative firmware; any sequence of its calls is a run of the step system |
| `ElfLoader.dfy` | the ELF loader against a declarative memory image and against the standard |
| `ElfLayout.dfy` | packed headers as a linker writes them, and the memory that a linked file leaves |
| `Transfer.dfy` | chunked transfer of a half buffer to the host and its decoding |
| `SignalGenerator.dfy` | generator double buffering: class, grants, and the signal played |
| `SampleClock.dfy` | the shared clock's reference count, its rates and the drivers' checks |

## How the pipeline is modelled

- A step is one atomic action: a trigger of the sample clock (one DAC sample out, one ADC sample in,
  and the driver's interrupt when a half is complete), a mailbox fetch, a rendezvous, the runner
  reading its message and entry point, the start or the stop of the stopwatch, the algorithm running,
  the read that tests the returned pointer, a fault, the head of a copy, one sixteen-sample pass of a
  copy, or a host command. A run is any sequence of steps. Interrupts are atomic with respect to
  threads; a blocked actor's step changes nothing.
- The algorithm is an arbitrary function of its entry address, of the memory it was loaded into (where
  its static variables live) and of its block. It leaves block and memory changed, and returns either
  its block or a pointer that leads to at least as many samples as will be copied; a block returned in
  place is copied from the live input buffer. A null or unreadable pointer is the fault step. An
  algorithm that will fault or be aborted may change its block and its memory first.
- An abort restarts the runner only when the runner was the thread interrupted, so the tick step says
  whether it was.
- Messages carry the number of their ADC event, and the state a log; no step reads either. That the
  signals recorded do not influence a session is proved (`RunPrefixed`).
- The stopwatch is the field `last` of ChibiOS's time measurement object, in which the start leaves the
  time of the start and the stop the time elapsed. The model keeps the events instead of the times.
- Input and output DMA advance on the same trigger from the start of a session.
- Starting with an empty buffer fails the kernel's check of the conversion depth (checks are enabled
  in `source/cfg/chconf.h`), and starting a generator that is running, or one whose buffer has an odd
  size other than one, fails the driver's. All of these stop the device.
- Loaded code is entered through `m_entry`; the null pointer is 0, so a file whose entry address is 0
  loads without an algorithm to run.
- The class in `ConversionManager.dfy` has no record of where the runner is: its calls are not
  interrupted. Interrupts inside a pass are the business of the step system, of which every sequence of
  calls is a run (`Drive`).

## What the code does that its comments do not say

- A half size that is not a multiple of sixteen lets `modify` spill into the half being played.
  `ExactIffSixteen` shows that the output signal is right in every timely session exactly for
  multiples of sixteen.
- A measured event that finds the mailbox full is lost silently, where an ordinary one would
  abort. `MeasuringIff` shows that measuring changes nothing in the device, at any moment of a run, if and
  only if that never happens in it.
- After a measured block faults, what the host reads as the execution time is the time of the start, until
  the next measured block ends (`StopwatchShows`).
- `sigGenWantsMore` tests and clears a flag that an interrupt sets. A refill targets the half that is not
  being played exactly when an even number of events falls between the test and the clearing, and no event
  is lost exactly when none does (`GrantTarget`); `MissedEvent` is a run in which one does.
- The calls of the error stack, to which `abort` adds in an interrupt, are not protected either. Every
  accepted error is reported or retained, and once, exactly when no interrupt adds one inside a call, but
  for an `add` that has stored its index (`InterruptedConservation`). Otherwise the abort is never reported
  (`AbortLost`), or reported twice in place of an earlier error (`AbortTwice`). A note of a half may be
  cleared unread in the same way (`NotesConserved`).
- With a prompt monitor, while the runner works on one block and nothing else waits, three more events may
  come; the fourth is lost (`OneBlockSlack`, `SlackIff`).
- A half of more than 256 samples may reach the host in pieces of different moments (`WholeIffOnePiece`).
- `stopGenerator` has no guard. Stopping a generator that is not running unbalances the clock count,
  and the next generator runs without a clock (`BalancedIffPaired`, `StraySilences`).
- The loader clears memory only for segments without file contents. `StandardIff` gives the exact
  condition under which it produces the image of the TIS ELF Specification version 1.2.
- A reply for an empty half reads like "nothing new" although an acknowledgement is then awaited
  (`EmptyReplyAmbiguous`).

## Model

| member | source | states |
|---|---|---|
| Pipeline.Next | source/conversion.cpp:118-217 | from any state within bounds every step of interrupt, thread or command leaves all DMA positions, algorithm blocks and both sides of every copy, rounding included, inside the 8192-sample buffers, and both sizes equal, even and at most 8192 |
| Pipeline.Run | source/conversion.cpp:118-217 | the same bounds after every run, in whatever order the actors interleave |
| Pipeline.TickStep | source/periph/adc.cpp:235-244 | a sample trigger with the circular transfers and the interrupt it may cause keeps every access inside the buffers |
| Pipeline.HostStep | source/communication.cpp:95-182 | every accepted or rejected command keeps the buffers and any copy in progress inside physical memory, including a resize while the runner still works on a message of an ended session |
| PipelineFlow.RunKeepsFlow | source/conversion.cpp:118-126 | over every run, ADC events equal messages accepted, held and queued plus three per overrun plus measured events that met a full mailbox; accepted, held and queued messages are strictly increasing in event number; at most two are queued; each message names the half the driver filled |
| PipelineFlow.StepKeepsFlow | source/conversion.cpp:180-217 | one step keeps that accounting, order and agreement |
| PipelineFlow.CallbackKeepsFlow | source/conversion.cpp:180-217 | the ADC interrupt keeps it in each of its branches: overrun, ordinary post, measured post and full mailbox |
| PipelineFlow.OverrunKeepsFlow | source/conversion.cpp:186-190 | an overrun loses exactly the two queued messages and the event that found them, and leaves the rest in order |
| PipelineFlow.PostKeepsFlow | source/conversion.cpp:191-214 | a post for the new event extends the order, and a measured event that finds the mailbox full is the only other loss |
| PipelineFlow.InterruptEffect | source/conversion.cpp:84-217 | after any ADC event the ordinary handler is installed; with room in the mailbox exactly one message is posted, for the half filled, which is also the half noted for the host, and marked exactly when a measurement was armed; a full mailbox is emptied by the ordinary handler, with unload, report and the runner waiting again exactly if it was the one interrupted, and left alone by the measuring one, as is the runner |
| PipelineFlow.HalfAgreement | source/periph/adc.cpp:235-244 | in every reachable state the pointer passed at an ADC event is the input buffer's start or its current middle, these differ, and which one it is follows the parity of the event within the session |
| PipelineFlow.RunKeepsSession | source/conversion.cpp:61-77 | over every run sizes stay frozen while converting, halves alternate from the first half in each session, measured messages stay within what was asked, halves of either buffer handed to the host within what was noted, and only real errors are stacked |
| PipelineFlow.ReachableInvariants | source/main.cpp:34-57 | all these invariants hold in every state reachable from boot, whatever memory held |
| PipelineFlow.LosslessAlternates | source/conversion.cpp:118-126 | without overrun or dropped measurement every event has its message at its own position, and the messages of the session name first and second half strictly in turn |
| PipelineFlow.HostViewSafe | source/samplebuffer.cpp:81-109 | in every reachable state a noted half of either buffer, even noted under another size, plus the half length now announced lies in the buffer; for each of the two buffers halves handed out never exceed halves noted; measured messages never exceed accepted requests; an error is pending exactly when the next pop reports one |
| PipelineStream.StreamTheorem | source/conversion.cpp:136-202 | in every timely session with half size a positive multiple of sixteen the played signal is one buffer of mid-scale followed by the captured signal run block by block through the algorithm as a machine with memory, each block once and in order, with the entry point found for each block |
| PipelineStream.StepStreams | source/conversion.cpp:136-202 | each step of a timely session extends a plan of contents per half-buffer period and of the algorithm's memory that captured, played and buffered samples follow |
| PipelineStream.BlockTick | source/conversion.cpp:180-202 | the tick that completes a block finds the half about to be played already holding what is planned, and leaves one message for the block |
| PipelineStream.CopyProcesses | source/samplebuffer.cpp:29-48 | every pass of the copy brings sixteen more planned samples into the half not being played, and the last pass completes it |
| PipelineStream.StartOpensSession | source/conversion.cpp:61-66 | starting from idle with a nonempty buffer and nothing in flight gives a session whose output is all mid-scale and whose transfers start together |
| PipelineStream.TimelyIsLossless | source/conversion.cpp:184-191 | a runner that finishes each block before the next is complete never causes an overrun or a dropped message |
| PipelineSlack.SlackIff | source/conversion.cpp:118-191 | in any run in which the monitor fetches before the next event what it has room for, no event is lost if and only if at every moment the messages waiting at first and the events since are at most three more than the messages accepted since |
| PipelineSlack.OneBlockSlack | source/conversion.cpp:118-191 | while one block is processed no event is lost if and only if the messages waiting at first and the events that come meanwhile are at most three |
| PipelineStream.ProcessedSnoc | source/conversion.cpp:154-175 | processing one more block is one call of the algorithm, with the entry point found for it and the memory that the blocks before it left |
| PipelineRecovery.RecoveryTheorem | source/conversion.cpp:84-202 | from any state reached while converting, after whatever overruns, drops, faults, aborts and restarts, as soon as nothing is queued, held or processed: while the session goes on in time the device plays the rest of the current output half, then the other half as it is, and then exactly the processed blocks from the one being captured on |
| PipelineRecovery.RunPrefixed | source/conversion.cpp:118-217 | a run and its timeliness do not depend on the history recorded so far |
| PipelineRecovery.OverrunRecovers | source/conversion.cpp:84-191 | an overrun that interrupts the runner, in any reachable state and whatever the algorithm is doing, ends the algorithm; once a message the monitor held has had its pass nothing is under way, and while the session goes on in time from there the device plays exactly what RecoveryTheorem says |
| PipelineExact.ExactIffSixteen | source/samplebuffer.cpp:21-49 | every timely session of half size h plays the exact signal if and only if h is a multiple of sixteen |
| PipelineExact.SpillHeard | source/samplebuffer.cpp:21-49 | for every other half size there is a timely session that plays a wrong sample |
| PipelineExact.SplitPoint | source/communication.cpp:137-203 | within a session, whatever overruns, faults, unloads and rejected loads occur, there is an index before which every block met the algorithm loaded at the start and from which every block passes through |
| PipelineCopy.CopyToEnd | source/conversion.cpp:169-175 | the copy steps run without interruption give the same state as one call of modify or midmodify |
| PipelineCopy.BlocksToEnd | source/samplebuffer.cpp:29-48 | from any block boundary the remaining passes write the remaining source in one piece |
| PipelineMeasure.MeasuringIff | source/conversion.cpp:154-217 | take any run of interrupts, threads and commands and take away its accepted measurement requests, its stopwatch steps and the waits for them: after every prefix of the run the device holds the same buffers, mailbox, memory, entry point, errors and transfer positions in both, if and only if no measured event of it met a full mailbox; and then events, deliveries and signals are the same as well |
| PipelineMeasure.StepStripped | source/conversion.cpp:144-217 | step by step, a marked message is treated as its plain form and a measuring step leaves no trace but the stopwatch, except where a measured event meets a full mailbox |
| PipelineMeasure.MeasuredSpares | source/conversion.cpp:184-216 | where they differ: the ordinary handler empties the mailbox, unloads and reports, the measuring one changes none of these |
| PipelineMeasure.StopwatchShows | source/handlers.cpp:64-76 | in every reachable state the stopwatch was started for measured messages only, once each and in order; it shows an elapsed time if and only if the block it was started for last ran to its end, and then the time is that block's; otherwise it shows that block's start; and it runs for the block at hand while the algorithm is at work on a measured one, so none that ends goes untimed |
| PipelineMeasure.StepKeepsWatch | ChibiOS_20.3.2/os/rt/src/chtm.c:60-142 | each step keeps the agreement of the stopwatch with the messages it was started and stopped for, so a stop always finds the start of its own block |
| PipelinePass.PassIsRun | source/conversion.cpp:136-178 | one pass of the runner's loop, with or without a message, an algorithm, a mark or a fault, is what its steps make of the state when nothing comes in between |
| PipelinePass.PassProcesses | source/conversion.cpp:144-175 | after a pass the half of the output that the message names holds the block that it names as the algorithm makes of it and is noted, the other half is as it was (for the first half: if the half size is a positive multiple of sixteen), the memory is as the algorithm leaves it, and a measured block leaves its own time |
| PipelinePass.PassFaults | source/handlers.cpp:103-115 | a pass whose algorithm faults leaves the output as it was and block and memory as the algorithm had changed them by then, unloads and reports, lets the runner wait again, and leaves a measured block's stopwatch at its start |
| PipelinePass.BadPointer | source/conversion.cpp:154-177 | an algorithm that returns a pointer that cannot be read has run to its end and been timed; then it is unloaded and reported, the runner waits again and the output is as it was |
| PipelineCommands.SessionTheorem | source/communication.cpp:95-174 | from an idle device with nothing in flight: after a size that is a positive multiple of sixteen, a load and a start, while the session goes on in time and nothing is unloaded, the played signal is one buffer of mid-scale and then the captured signal, in blocks of the size set, run through the algorithm at the entry point loaded, beginning with the memory loaded |
| PipelineCommands.RequestAnswered | source/communication.cpp:162-166 | after an accepted request and any steps without a stop or an event, the next event, if it finds room, posts a message marked for measuring and installs the ordinary handler again |
| PipelineCommands.RequestMeasured | source/conversion.cpp:68-71 | and if nothing else is under way and an algorithm is loaded, the fetch and the pass of that message leave the time of its block on the stopwatch |
| PipelineCommands.UnloadPasses | source/communication.cpp:200-203 | in every run from an unload on, without a load or a start, every message that the runner takes finds no algorithm, so its block passes through |
| PipelineCommands.StopSilences | source/communication.cpp:176-182 | in every run from a stop to the next start there is no event, nothing is captured and nothing is put out |
| PipelineCommands.RunKeepsParked | source/periph/adc.cpp:127-135 | over every run an idle device has no ADC buffer and no handler, the measuring one included |
| PipelineCommands.RefusalReported | source/communication.cpp:95-182 | which command is refused in which state and with which error: it changes nothing, the next status names that error and leaves the device as it was; with eight errors retained the reason is lost |
| PipelineCommands.AcceptedReportsNothing | source/communication.cpp:137-150 | a command that is not refused adds no error, but a load that fails is reported and leaves no algorithm |
| PipelineCommands.StatusDrains | source/communication.cpp:152-160 | after any number of status reads that many of the newest errors are gone and the next one reports the newest left, or none, and nothing else has changed |
| PipelineCommands.WrittenIsProcessed | source/communication.cpp:90-93 | after a whole buffer is written the pass of a message brings the half of that data that it names, as the algorithm makes of it, into the same half of the output |
| PipelineCommands.ResultsOnce | source/samplebuffer.cpp:105-109 | in every run from a read of results on, without the beginning of another copy, no half of the output is handed out again |
| PipelineCommands.InputOnce | source/samplebuffer.cpp:105-109 | likewise for the input until the next event |
| PipelineCommands.BootPasses | source/main.cpp:34-57 | a device that has booted is idle, reports no error, has noted no half, and passes blocks through until something is loaded |
| Conversion.ConversionManager.Drive | source/conversion.cpp:118-217 | any sequence of clock triggers, passes of the two threads, loads and commands on the real mailbox ring, arrays, error stack and loader is a run of the step system, in which every file sent is refused or leaves the memory and the entry point that its headers call for, and keeps the accounting of events, their order, the agreement of halves and the session invariants |
| Conversion.ConversionManager.ThreadRunner | source/conversion.cpp:138-177 | one pass of the runner's loop brings the block that the message names, as the algorithm makes of it, into the half of the output array that it names, and leaves the other half as it was; with a fault it does what the fault handler does |
| Conversion.ConversionManager.RunAlgorithm | source/conversion.cpp:154-166 | both branches, with and without the stopwatch around the call, decide on the same source and leave block and memory as the algorithm does |
| Conversion.ConversionManager.FaultAlgorithm | source/handlers.cpp:103-115 | a call that ends in a fault leaves what the algorithm did until then, and is unloaded, reported and given up |
| Conversion.ConversionManager.AdcReadHandler | source/conversion.cpp:180-202 | the handler on the real mailbox ring, buffers, error stack and loader has exactly the effect of its pipeline step |
| Conversion.ConversionManager.AdcReadHandlerMeasure | source/conversion.cpp:204-217 | likewise for the measuring handler |
| Conversion.ConversionManager.ConversionCallback | source/periph/adc.cpp:235-244 | the callback picks the half by the state the driver shows it and calls the installed handler |
| Conversion.ConversionManager.AdcIsrFull | ChibiOS_20.3.2/os/hal/include/hal_adc.h:316-324 | the full-buffer interrupt shows the callback ADC_COMPLETE and takes it back |
| Conversion.ConversionManager.OnTick | ChibiOS_20.3.2/os/hal/include/hal_adc.h:294-324 | a trigger of the sample clock, its two transfers and its half or full interrupt is exactly the pipeline's tick, and leaves the driver active |
| Conversion.ConversionManager.Abort | source/conversion.cpp:84-116 | an abort unloads, reports, and lets the runner wait again wherever it was |
| Conversion.ConversionManager.ThreadMonitor | source/conversion.cpp:118-126 | the monitor takes the oldest message from the ring and holds it |
| Conversion.ConversionManager.SetBufferSize | source/communication.cpp:95-108 | guards in order, then both sizes set to twice the count |
| Conversion.ConversionManager.LoadAlgorithm | source/communication.cpp:137-150 | guards in order, and a file that is refused is not read; otherwise the loader runs on the bytes received and those an earlier file left behind them, memory is its image, and the entry point the pipeline runs is the header's (ElfLayout.HeaderPacked) exactly when the file has the signature and some loadable segment has file contents, else null with an error |
| Conversion.ConversionManager.StartConversion | source/communication.cpp:168-174 | start from idle only, with cleared output and transfers at their beginning |
| Conversion.ConversionManager.StopConversion | source/communication.cpp:176-182 | stop from running only |
| Conversion.ConversionManager.MeasureConversion | source/communication.cpp:162-166 | arms the measuring handler while running and is refused otherwise |
| Conversion.ConversionManager.UnloadAlgorithm | source/communication.cpp:200-203 | the entry point is null afterwards, whatever it was |
| Conversion.ConversionManager.ReadStatus | source/communication.cpp:152-160 | reports the status and the newest error and removes that error |
| Mailboxes.Mailbox.PostI | ChibiOS_20.3.2/os/oslib/src/chmboxes.c:243-269 | the ring refines a bounded queue: appended at the end, or left alone when full or in reset state |
| Mailboxes.Mailbox.Fetch | ChibiOS_20.3.2/os/oslib/src/chmboxes.c:444-469 | the ring hands out the oldest message and keeps the others in order |
| Mailboxes.Mailbox.ResetI | ChibiOS_20.3.2/os/oslib/src/chmboxes.c:133-144 | all queued messages are lost |
| SampleBuffers.SampleBuffer.Modify | source/samplebuffer.cpp:21-49 | the blocked copy equals the element-wise definition: the rounded length of source samples, at least sixteen, at the start, the half noted, and nothing else changed |
| SampleBuffers.SampleBuffer.MidModify | source/samplebuffer.cpp:51-79 | likewise from the middle, limited to half the size |
| SampleBuffers.SampleBuffer.CopyBlocks | source/samplebuffer.cpp:26-48 | the do-while loop over unrolled passes moves exactly the rounded length, sixteen for a length of zero |
| SampleBuffers.SampleBuffer.CopyEightWords | source/samplebuffer.cpp:30-45 | eight loads and eight stores of words move sixteen samples in order |
| SampleBuffers.SampleBuffer.Clear | source/samplebuffer.cpp:17-19 | the logical buffer becomes mid-scale and the rest of physical memory stays |
| SampleBuffers.SampleBuffer.TakeModified | source/samplebuffer.cpp:105-109 | the noted half is handed out once |
| SampleBuffers.RoundUp16 | source/samplebuffer.cpp:23 | the least multiple of sixteen that is not smaller |
| SampleBuffers.HalfWritesFit | source/samplebuffer.cpp:21-79 | for every size a half-size source fits at either half including its rounding, fills that half, and written to the second half leaves the first alone |
| SampleBuffers.FirstHalfIsolatedIff | source/samplebuffer.cpp:21-49 | modify leaves the second half alone for all contents exactly when the half size is a positive multiple of sixteen |
| SampleBuffers.NotesConserved | source/samplebuffer.cpp:81-109 | wherever notes fall among the loads and stores of modified(), the host is handed halves that were noted, in the order of the notes and no note twice; every other note is replaced by a newer one, still there, on its way or cleared unread; none is cleared unread if and only if none is made between a load and its store |
| SampleBuffers.UninterruptedTake | source/samplebuffer.cpp:105-109 | a call of modified() that no note comes into hands out what is noted, once, and leaves nothing noted |
| ElfLoader.ElfManager.LoadFromInternalBuffer | source/elfload.cpp:46-83 | without the signature nothing is loaded; with it memory is the image of the program header table, the result says whether some loadable segment has file contents, and the entry point is the header's or null accordingly |
| ElfLoader.ElfManager.LoadTable | source/elfload.cpp:57-76 | the stride-walking loop leaves every address with the value given by the last loadable segment covering it and every other address unchanged |
| ElfLoader.ImageUnique | source/elfload.cpp:57-76 | that description determines memory completely |
| ElfLoader.LoadedIsImage | source/elfload.cpp:60-76 | applying the entries one after the other produces the described image |
| ElfLoader.OrderIndependent | source/elfload.cpp:57-82 | two files whose loadable entries, in whatever order and wherever in the file, put the same contents at the same disjoint addresses give the same memory and the same result |
| ElfLoader.StandardIff | source/elfload.cpp:61-73 | for disjoint well-formed segments the loader gives the standard's image over every prior memory exactly when each loadable segment has no file contents or consists of them |
| ElfLayout.HeaderPacked | source/elf.h:38-53 | a header packed field by field in declaration order, little-endian, is read with the entry point and the place, stride and length of the program header table that the linker wrote |
| ElfLayout.SegmentPacked | source/elf.h:88-97 | a packed program header is read with its own type, offset, address and sizes |
| ElfLayout.LinkedTable | source/elfload.cpp:57-76 | in a linked file, whatever the stride, the loader reads the whole program header table as written |
| ElfLayout.LinkedSignature | source/elfload.cpp:24-54 | a file is taken for ELF exactly when it begins with the bytes 7F 45 4C 46 |
| ElfLayout.CodeAlike | source/elfload.cpp:60-73 | there is code to enter exactly when some program header of type 1 has file contents |
| ElfLayout.LinkedByte | source/elfload.cpp:57-76 | an address that some entries of the linker's table write holds the byte of the last of them: zero if it has no file contents, else the byte of the file at the same distance into its contents |
| ElfLayout.LinkedElsewhere | source/elfload.cpp:57-76 | every other address holds what it held |
| Transfer.ReadHalf | source/communication.cpp:236-258 | a noted half is sent once, from where it was noted with the half length of now, as a count and chunks each read from the buffer as it is when its turn comes and each acknowledged once; what is noted afterwards is what was noted meanwhile; otherwise two zero bytes |
| Transfer.HandedOnce | source/samplebuffer.cpp:105-109 | if no half is noted while one is sent, none is noted afterwards |
| Transfer.SendChunks | source/communication.cpp:244-254 | the loop sends all pieces in order while the buffer goes on changing, and consumes one acknowledgement per chunk |
| Transfer.ReplyRoundTrip | source/communication.cpp:238-254 | the host decodes exactly the samples sent; every write is at most 512 bytes; there are as many acknowledgements as chunks, one for an empty half and else the bytes over 512 rounded up |
| Transfer.HostDecodes | source/communication.cpp:244-254 | the host decodes as many samples as announced, each as it was in the buffer when its piece of 256 was sent; so the half as it was when it was handed out, if it is one piece or does not change meanwhile |
| Transfer.WholeIffOnePiece | source/communication.cpp:244-254 | whatever happens to the buffer meanwhile the half arrives as it was at first, if and only if it has at most 256 samples |
| Transfer.EmptyReplyAmbiguous | source/communication.cpp:238-257 | a reply reads like the one for no noted half exactly when the half is empty |
| SignalGenerator.GeneratorTheorem | source/communication.cpp:110-135 | from any start of the generator, the first or a later one, when each refill is granted and complete before the next event, the signal played is the buffer as the host had set it followed by the host's samples in order |
| SignalGenerator.UpdatePlays | source/communication.cpp:110-135 | what the host sends to an idle generator is what the next start plays first, followed in a timely run by the samples it sends from then on |
| SignalGenerator.StopSilences | source/periph/dac.cpp:78-84 | in every run from a stop to the next start nothing is put out, no half is over and no refill is granted |
| SignalGenerator.StartChecked | ChibiOS_20.3.2/os/hal/src/hal_dac.c:194-206 | a start stops the device exactly when the generator is active or its buffer has an odd size, and nothing that follows changes anything then |
| SignalGenerator.RunKeepsGrants | source/periph/dac.cpp:25-86 | over every run of events, starts, stops and updates, with events anywhere between the load and the store of a request, each event is granted at most once and in order, and a finished half is the one most recently played |
| SignalGenerator.GrantTarget | source/periph/dac.cpp:62-71 | after every such run a grant targets the half not being played if and only if an even number of events fell between the load and the store of its request, is for the latest event, so that none is cleared unseen, if and only if none did, and is never for an event of an earlier period of playing |
| SignalGenerator.MissedEvent | source/periph/dac.cpp:62-71 | a run of four steps in which the half being played is granted and a finished half never is |
| SignalGenerator.Generator.OnTick | ChibiOS_20.3.2/os/hal/include/hal_dac.h:287-313 | a transfer with the driver's half or full interrupt code and the callback is exactly the generator's tick |
| SignalGenerator.Generator.LoadDone | source/periph/dac.cpp:64-66 | the finished half is read; an interrupt may follow |
| SignalGenerator.Generator.ClearDone | source/periph/dac.cpp:66-70 | the flag is cleared and the half that was read granted, whatever has happened since |
| SignalGenerator.Generator.OnRequest | source/communication.cpp:120-131 | an update command while playing, with no interrupt inside the request, is granted once per event, for the latest event and not for the half being played, and answered accordingly |
| SignalGenerator.Generator.OnUpdate | source/communication.cpp:112-119 | an update command while idle leaves the buffer holding exactly the samples sent, unless it announces too many |
| SignalGenerator.Generator.OnStart | source/periph/dac.cpp:52-60 | the flag is reset, and the generator plays from the beginning of its buffer; one that is already active or has an odd size stops the device |
| SignalGenerator.Generator.OnStop | source/periph/dac.cpp:78-84 | the generator stops playing and leaves the flag as it is |
| SampleClock.BalancedIffPaired | source/sclock.cpp:52-67 | in every run of commands the count is two per conversion and one per generator, the timer runs exactly while some stream does and at the divisor in force when the first started, if and only if no generator is stopped that is not running |
| SampleClock.StraySilences | source/communication.cpp:289-292 | after one stray stop the next generator runs without a clock |
| SampleClock.RatesExact | source/sclock.cpp:18-45 | on both boards every divisor times its rate is the frequency of the timer |
| SampleClock.RateTakesEffect | source/sclock.cpp:52-67 | a rate set while nothing runs is what the next stream runs at, and one set meanwhile is nothing to the streams that run |
| SampleClock.StopUndoesStart | source/communication.cpp:168-182 | a stop of a conversion or of a generator puts count, timer and streams back to what they were before its start |
| SampleClock.StartsChecked | ChibiOS_20.3.2/os/hal/src/hal_adc.c:174-186 | which starts stop the device, by buffer size and state, and that these leave the clock alone |
| SampleClock.SClock.Start | source/sclock.cpp:52-56 | the count goes up modulo 2^32 and the timer starts, at the current divisor, from zero only |
| SampleClock.SClock.Stop | source/sclock.cpp:58-62 | the count goes down modulo 2^32 and the timer stops on reaching zero |
| SampleClock.SClock.SetRate | source/sclock.cpp:64-67 | the divisor of the rate is put in force and does not touch a running timer |
| SampleClock.SClock.GetRate | source/sclock.cpp:69-77 | the loop finds exactly the rate whose divisor is in force, or none |
| Errors.ErrorManager.Add | source/error.cpp:16-20 | a new error goes on top, or is dropped when eight are retained |
| Errors.ErrorManager.Pop | source/error.cpp:34-37 | the newest error comes off, or none is reported; only written slots are read |
| Errors.ErrorManager.HasError | source/error.cpp:29-32 | true exactly when an error is retained |
| Errors.Conservation | source/error.cpp:16-37 | over every history of whole calls of add and pop the errors accepted are those reported and those retained, at most eight |
| Errors.InterruptedConservation | source/error.cpp:16-37 | wherever the interrupt adds errors among the load and the store of the index and the access to the slot of a command's add or pop, the errors accepted and those duplicated are those reported, retained, on their way and lost; and every accepted error is reported, retained or on its way, once, if and only if none was added between a load and its store, nor between the store and the read of a pop |
| Errors.AbortLost | source/conversion.cpp:87 | an abort reported between load and store of the index of a pop is lost |
| Errors.AbortTwice | source/conversion.cpp:87 | an abort reported between the store of the index and the read of the slot is reported in place of the error due, which is lost, and stays to be reported again |
| Errors.UninterruptedCall | source/error.cpp:16-37 | the accesses of a call that nothing breaks into, and an interrupt between calls, do what the whole call does |
| Errors.PopsUndoAdds | source/error.cpp:16-37 | errors added with room to spare are reported newest first and leave the stack as it was |
| Errors.PendingIffReported | source/error.cpp:29-37 | as long as no caller adds the empty error, an error is pending exactly when the next pop reports one |

## Left out

- Inline assembly, stack frames, memory protection set-up and the instruction an abort overwrites: machine level; the abort's effects are kept.
- Hard faults: the fault step is the memory protection fault; what the hard-fault handler's call of the other handler returns to is machine level.
- PLL, ADC and CORDIC register programming, and the auxiliary analog inputs.
- USB, the command dispatcher and short reads of command parameters (`BadParamSize`): parameters arrive complete, and rates are in the table.
- The raw reads of the sample buffers, which change nothing.
- Interrupt latency and lag between the first ADC and the first DAC trigger: both transfers of a trigger and its interrupt are one step, and so is a start.
- A host command is one step of the pipeline; interrupts inside one are modelled apart, for the error stack, for the noted half and for the generator's flag.
- The algorithm's reads of its block while DMA fills it: the algorithm runs in one step, on the block as it is then.
- An abort in the middle of one sixteen-sample pass: aborts fall between passes.
- Pointers an algorithm returns into the input buffer other than its block, or into the output buffer, and word accesses to halves at odd offsets.
- Malformed ELF files, files that load over the file buffer, and wrap-around of 32-bit addresses: required not to occur.
- Generator buffers of fewer than two samples, which the driver lets start: what DMA does with them is hardware. A run with such a start is not covered.
- The number of cycles a measurement yields and the overhead subtracted from it, status lights and boot.
- Conversion.ConversionManager.Drive: calls are not interrupted; runs in which a trigger falls inside a pass are covered by the step system only.
- Transfer.ReadHalf: the host's acknowledgements are required to arrive, because without them the device waits for ever.
