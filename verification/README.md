# Wi-Fi oscilloscope: serial link, frame handshake, shared ring and converters

A Dafny model of the moving parts of a Wi-Fi oscilloscope. An FPGA samples a signal and sends each
capture, byte by byte, to a Linux driver over a toggle handshake; the driver collects the frames in a
ring shared with a user program, which forwards them. A serial line carries register writes to the
board and status reports back, and a multiplexed DAC is refreshed from the registers.

How the model is built:

- Each hardware module is a class whose `Clock` (or `OnRdy`, `OnReady`) method updates its registers in
  place. The method is proved equal to a step function on the register values as they were before the
  edge; whole systems are compositions of those step functions, and the theorems are about every run.
- The driver's `receive_data` is a method with the source's two nested loops over a 4000-byte array,
  proved against the same operation-by-operation machine that the handshake theorems use.
- The interrupt handler, the tasklet's sections, the netlink callback and the consumer's loop are methods
  of one class over the shared memory, one for each step. The interleaving theorems quantify over every sequence of steps.
- Log fields (bytes accepted, frames completed, unbounded positions) are read by no step. Where a result compares
  with a log, the log is proved equal to a function of the run's inputs (`Offered`, `Arrivals`, `Sampled`, `Latched`),
  and the result is stated over that.

Main results:

- **Serial link.** For all rates with `46 R <= 3 T` and `9 T <= 152 R` (`R` clocks per receive tick, `T`
  per transmitted bit), all phases of the two tick trains and all writes, the bytes announced are the bytes
  offered to an idle transmitter, in order, each once; 10 bit times and 25 ticks after the last write none is missing. The board's
  `R = 14`, `T = 218` satisfy the bounds although sixteen receive ticks take 224 clocks.
- **Registers.** Any list of writes sent as packets leaves the register file as the writes applied in order;
  each register holds what the last write naming it carried.
- **Reports.** Every report frame is taken once, in order, from one snapshot, for every tick schedule; a
  listener who joins the line at any byte decodes exactly the snapshots from the next whole frame on. An enabled
  reporter never falls silent: on the board `n` reports have been decoded at the far end after `19647 (n + 1)`
  clocks, each of them what the report wires showed in a clock of its own.
- **Shared ring.** In every reachable state, under every interleaving of the steps (the interrupt handler
  being one step), the frames handed to the senders are the first frames that arrived, unchanged, whole and in
  order; the slot being filled is none the consumer may still read; and a masked interrupt is never stranded:
  while a session is open every sufficiently long run of steps, in whatever order, schedules the tasklet.
- **Ring progress.** An answer to a signal of the full branch moves the front to 63 past where it stood when
  the tasklet looked. That this leaves room is *not* true of every run: `AnswerCanFreeNothing` is a run on one
  processor in which the ring stays full, `AnswerLeavesRoom` says exactly when that happens, and
  `FullSignalEmptiesTheRing` shows that on one processor, when no signal slips between the start message
  and its effect, the answer empties the ring. `SecondSignalEscapes` shows that this condition is needed.
- **Handshake.** Given five sender clocks in any 199 polls, a frame of 1 to 3999 bytes arrives whole with
  header 54, `n + 2` acknowledges and `n + 2` read-clock rises, and both sides come to rest; the call returns on
  every schedule that gives the driver time. A length outside that range never brings the sender back to rest
  on the acknowledges of one call (`RestsExactlyInRange`).
- **Acquisition.** Capture control, sample clock, sender and driver together, from power-on and over any number
  of frames, under the conditions of the two results beside this one: every call of the driver brings one
  capture, in order and whole (`EveryCaptureArrives`), and all calls together the stream of bytes the sender
  latched (`StreamArrives`); and such runs exist (`FirstCaptureArrives`).
- **DAC.** The multiplexer takes channels 0 to 7 in turn, and from the second selection on the word just
  completed is four zeros and a value that stood at that channel's input since the selection before, for every
  alignment of the serial clock; no channel is selected while a word is shifted out; on the divided clock a selection comes at least every 645 core clocks.
- **Captures.** With a sample-clock step of at most 499 no capture is sent twice, whatever the trigger, the
  memory and the driver do; if the memory refills no sooner than the pause ends, captures and frames go one
  for one. A capture starts exactly when its trigger has been low and then high, or is ignored, and has the
  memory written from then until its length is saved. The bound is exact (`BoundIsExact`): at every constant step from 500 on, a run from power-on sends its
  first capture twice.

Where comments and code disagree, the model follows the code:

- `Sequeue_Full` (`LINUX/test_gpio_interrupt/src/Sequeue.h`, line 60) is true from `len_max - 1` on, so the ring holds 63 of its 64 slots; the modular length
  could not tell 64 from none.
- The receiver is described as sampling 16 times per bit; sixteen of its ticks are six clocks longer than a bit.
- `5'd40` in the serialiser keeps five bits and is 8.
- The tasklet's signal names the slot it has just filled, not the one after it, so the newest frame waits
  for the next signal; a full-branch signal names the end of the ring.

## Model

| member | source | states |
|---|---|---|
| BaudGen.BoardRateIsRecoverable | FPGA/SPI_TEST_2/UART.sv:80-104 | 25 MHz gives 14 clocks per receive tick and 218 per bit, and these lie within the drift bounds |
| BaudGen.TicksArePeriodic | FPGA/SPI_TEST_2/UART.sv:89-104 | from any phase a period holds exactly one tick |
| BaudGen.Generator.constructor | FPGA/SPI_TEST_2/UART.sv:86-90 | both counters start at zero, with both ticks up |
| BaudGen.Generator.Clock | FPGA/SPI_TEST_2/UART.sv:92-104 | both counters wrap after 14 and 218 clocks and stay within their widths |
| UartTxd.Transmitter.constructor | FPGA/SPI_TEST_2/UART.sv:115-126 | idle, line high |
| UartTxd.Transmitter.Clock | FPGA/SPI_TEST_2/UART.sv:128-164 | one clock edge; in every state the line shows the idle level, the start bit, the bit before the current position, or bit 7 |
| UartRxd.Receiver.constructor | FPGA/SPI_TEST_2/UART.sv:180-192 | waiting for a start bit, nothing announced |
| UartRxd.Receiver.Clock | FPGA/SPI_TEST_2/UART.sv:193-243 | one clock edge of the oversampling receiver, ticks only |
| UartRxd.ReadyHolds | FPGA/SPI_TEST_2/UART.sv:201-202 | with the clear input low an announced byte stays announced, whatever the line does |
| SerialLink.DriftAt | FPGA/SPI_TEST_2/UART.sv:197-221 | at the tick that samples bit k the accumulated drift is still inside bit slot k + 1, with two ticks to spare |
| SerialLink.SampleFallsInSlot | FPGA/SPI_TEST_2/UART.sv:215-218 | whatever start offset of one clock to two ticks, bit k is sampled while the line shows bit k |
| SerialLink.CountsOneTick | FPGA/SPI_TEST_2/UART.sv:193-243 | inside a frame a tick advances the receiver by exactly one and keeps the collected bits right |
| SerialLink.LeavesWithByte | FPGA/SPI_TEST_2/UART.sv:229-233 | leaving the stop state raises ready once, with exactly the byte sent |
| SerialLink.StepKeepsInv | FPGA/SPI_TEST_2/UART.sv:128-243 | every clock keeps the link in one of five situations, with the start offset between 1 clock and 2 ticks, back-to-back frames included |
| SerialLink.StreamRecovered | FPGA/SPI_TEST_2/UART.sv:77-245 | for every rate within the bounds, phase and write pattern, announced bytes are a prefix of those offered to an idle transmitter, at most two behind |
| SerialLink.AcceptedAreOffered | FPGA/SPI_TEST_2/UART.sv:130-134 | the transmitter takes exactly the bytes written while it is not busy, as they are |
| SerialLink.ReadyLastsOneTick | FPGA/SPI_TEST_2/UART.sv:201-232 | with the clear input high the ready line falls at the first tick after it rose, and the byte holds |
| SerialDrain.WorkShrinks | FPGA/SPI_TEST_2/UART.sv:128-243 | without writes every clock brings the link strictly closer to rest |
| SerialDrain.EverythingArrives | FPGA/SPI_TEST_2/UART.sv:77-245 | ten bit times and 25 ticks after the last write every accepted byte has been announced, in order and once |
| RegisterFile.NumbersOf | FPGA/SPI_TEST_2/main.sv:117-127 | the address tests are for 255, 254 and 0, and the sub-address counts modulo 8 and modulo 2 |
| RegisterFile.UntouchedKeeps | FPGA/SPI_TEST_2/main.sv:115-130 | a register that no write names keeps its value |
| RegisterFile.LastWriteWins | FPGA/SPI_TEST_2/main.sv:115-130 | a register holds the bits the last write naming it carried: 12 for a DAC channel, 16 for a frequency, 1 for the enable |
| RegisterFile.Registers.constructor | FPGA/SPI_TEST_2/main.sv:66-83 | eight DAC registers, two frequency registers, capture disabled |
| RegisterFile.Registers.OnReady | FPGA/SPI_TEST_2/main.sv:115-130 | the arrays and the flag change as the addressed write says and nowhere else |
| Uart2Reg.Encode | FPGA/SPI_TEST_2/UART.sv:257-268 | every write has a five-byte packet in the decoder's format |
| Uart2Reg.FourPlainBytes | FPGA/SPI_TEST_2/UART.sv:264-267 | four bytes without the terminator nibble flush everything older out of the shift register |
| Uart2Reg.FieldsOf | FPGA/SPI_TEST_2/UART.sv:257-259 | the field wires then show the address, sub-address and data the packet carries |
| Uart2Reg.PacketStores | FPGA/SPI_TEST_2/UART.sv:248-269 | whatever bytes came before, a packet stores its write exactly once, on its terminator, and nothing earlier |
| Uart2Reg.TerminatorRepeats | FPGA/SPI_TEST_2/UART.sv:261-263 | a second terminator in a row stores nothing |
| Uart2Reg.StreamStores | FPGA/SPI_TEST_2/UART.sv:248-269 | a stream of packets leaves the register file as the writes in order |
| Uart2Reg.PacketDecoder.constructor | FPGA/SPI_TEST_2/UART.sv:251-256 | ready is low, the shift register holds anything |
| Uart2Reg.PacketDecoder.OnRdy | FPGA/SPI_TEST_2/UART.sv:260-268 | one announced byte shifts in or ends a packet; reports whether ready rose |
| RemoteWrites.BoardFollowsLink | FPGA/SPI_TEST_2/UART.sv:44-70 | the decoder behind the receiver has been fed exactly the announced bytes |
| RemoteWrites.WritesArrive | FPGA/SPI_TEST_2/main.sv:93-130 | any list of writes sent over the line, from any phases and with any gaps, leaves the registers as the writes in order |
| RemoteWrites.WritesArriveOnTheBoard | FPGA/SPI_TEST_2/main.sv:93-130 | at the board's rates, 2531 clocks after the last byte was accepted |
| ReportFrame.FrameLayout | FPGA/SPI_TEST_2/UART.sv:340-350 | which bit of which byte carries each of the 56 bits, and which bytes are odd |
| ReportFrame.FrameRoundTrip | FPGA/SPI_TEST_2/UART.sv:339-350 | the eight-byte frame decodes to its address and all 48 register bits |
| Reg2Uart.RegisterReporter.constructor | FPGA/SPI_TEST_2/UART.sv:283-288 | idle, counter 7, nothing offered |
| Reg2Uart.RegisterReporter.Save | FPGA/SPI_TEST_2/UART.sv:339-350 | the eight bytes in memory are the frame of the report |
| Reg2Uart.RegisterReporter.Clock | FPGA/SPI_TEST_2/UART.sv:297-366 | one clock edge of the reporter; the counter never leaves the frame while a byte is offered |
| Reporting.StepKeepsInv | FPGA/SPI_TEST_2/UART.sv:297-366 | reporter and transmitter stay in one of four situations, in each of which the bytes taken so far are known exactly |
| Reporting.FramesAreTaken | FPGA/SPI_TEST_2/UART.sv:128-164 | for every tick schedule the transmitter takes the eight bytes of every snapshot once and in order, though the report wires change |
| Reporting.SnapshotsArePicked | FPGA/SPI_TEST_2/UART.sv:339-350 | every snapshot is what the report wires showed in a clock of its own, in order |
| Reporting.BusyWhileSending | FPGA/SPI_TEST_2/UART.sv:334-353 | the busy output is up while a frame is sent and down when the next one is saved |
| Reporting.DisabledStaysQuiet | FPGA/SPI_TEST_2/UART.sv:304-308 | without its enable an idle reporter takes and offers nothing |
| ReportProgress.StepAdvances | FPGA/SPI_TEST_2/UART.sv:301-366 | every clock of an enabled reporter takes a snapshot, has a byte accepted, or comes nearer to one of the two |
| ReportProgress.FramesKeepComing | FPGA/SPI_TEST_2/UART.sv:297-366 | with a transmit tick in any T clocks, n snapshots are taken and 8 n bytes accepted in 9 n (10 T + 3) clocks |
| FrameSplitter.Resynchronises | FPGA/SPI_TEST_2/UART.sv:340-350 | a concatenation of frames entered at any byte splits at odd bytes into exactly the frames from the first whole one on |
| FrameSplitter.PrefixSplits | FPGA/SPI_TEST_2/UART.sv:340-350 | the same for a stream that stops in the middle of a frame |
| Telemetry.ReportsArrive | FPGA/SPI_TEST_2/UART.sv:31-62 | reports go through reporter, transmitter, line and receiver; a listener who joins at any byte decodes the snapshots in order, each once |
| Telemetry.ReportsKeepArriving | FPGA/SPI_TEST_2/UART.sv:31-62 | with the reporter enabled, n reports have been decoded at the far end after 9 (n + 1) (10 T + 3) clocks, from any phases, each as the wires showed it |
| Telemetry.ReportsKeepArrivingOnTheBoard | FPGA/SPI_TEST_2/main.sv:93-113 | on the board, after 19647 (n + 1) clocks |
| RingInvariant.GapDecodes | LINUX/package/dso_mthread/src/dso_test_user.c:59-59 | the modular difference of two positions is the true gap exactly when the gap is below 64 |
| RingInvariant.TakeDecodes | LINUX/package/dso_mthread/src/dso_test_user.c:58-60 | the length the consumer computes from a signal is the number of counted frames it has not handed over below that signal |
| RingInvariant.HandBelowCounted | LINUX/package/dso_mthread/src/dso_test_user.c:60-63 | the consumer's inner loop only touches frames the ring has counted |
| RingInvariant.WindowFills | LINUX/test_gpio_interrupt/src/gpio_interrupt.c:328-334 | filling the slot at the rear leaves every unread frame as it was |
| RingInvariant.StepKeepsInv | LINUX/test_gpio_interrupt/src/gpio_interrupt.c:86-131 | every step of interrupt, tasklet, callback and consumer keeps the ring's invariant |
| RingTheorems.CompletedAreArrivals | LINUX/test_gpio_interrupt/src/gpio_interrupt.c:333-338 | what the driver completes is what the events bring while the tasklet has found room |
| RingTheorems.FramesInOrder | LINUX/test_gpio_interrupt/src/gpio_interrupt.c:322-352 | under every interleaving the slots handed over are the first frames that arrived, whole, unchanged, in order, none lost or repeated |
| RingTheorems.WriterAvoidsReader | LINUX/test_gpio_interrupt/src/gpio_interrupt.c:327-339 | while a slot is filled outside the lock, it differs from every slot the consumer may still read |
| RingTheorems.RingArithmetic | LINUX/test_gpio_interrupt/src/gpio_interrupt.c:115-120 | front and rear below 64, length below 64, rear is front plus length modulo 64, and the release never takes more than the length |
| RingTheorems.LengthDecodes | LINUX/package/dso_mthread/src/dso_test_user.c:58-65 | in every reachable state the modular length of the signal taken is the true number of unread frames below it |
| RingTheorems.HandClearsFirstByte | LINUX/package/dso_mthread/src/dso_test_user.c:38-48 | handing over clears the first byte of the slot when a socket is attached, and changes nothing else in the ring |
| RingTheorems.SessionOpens | LINUX/package/dso_mthread/src/dso_test_user.c:54-56 | the session opens with 0xffff, which the callback takes as the start message |
| RingTheorems.EndDetaches | LINUX/test_gpio_interrupt/src/gpio_interrupt.c:109-112 | 0xfffe ends the session without touching the ring, and signals then go to nobody |
| RingTheorems.FullSignalFreesTheRing | LINUX/test_gpio_interrupt/src/gpio_interrupt.c:113-130 | answering a full-branch signal moves the front exactly 63 past where the tasklet found it and reopens the ring |
| RingTheorems.FullAt63IsExact | LINUX/test_gpio_interrupt/src/gpio_interrupt.c:330-330 | full at 63 is the largest choice for which the consumer's modular length is exact |
| RingTheorems.FullRingWaits | LINUX/test_gpio_interrupt/src/gpio_interrupt.c:299-308 | while the ring is marked full the tasklet is neither pending nor at work on a frame, and an interrupt is latched |
| RingTheorems.WakeUpsConserved | LINUX/test_gpio_interrupt/src/gpio_interrupt.c:295-352 | exactly one of open interrupt, pending tasklet, running tasklet and latch; the latch implies full and a message in flight; full with no tasklet running implies that a signal is out |
| RingTheorems.EveryEventServes | LINUX/test_gpio_interrupt/src/gpio_interrupt.c:96-130 | with the latch set and a session open, whatever step comes next works off a backlog or schedules the tasklet |
| RingTheorems.LatchIsServed | LINUX/test_gpio_interrupt/src/gpio_interrupt.c:102-128 | from any such reachable state every run of as many enabled steps as the backlog counts, in any order, schedules the tasklet, and until then some step is enabled |
| RingTheorems.LatchCanBeServed | LINUX/test_gpio_interrupt/src/gpio_interrupt.c:102-128 | 68 steps of consumer and callback can be enough |
| RingStall.AnswerLeavesRoom | LINUX/test_gpio_interrupt/src/gpio_interrupt.c:115-120 | an answer leaves the ring full exactly when it was full and the answer names the front it already has |
| RingStall.AnswerCanFreeNothing | LINUX/test_gpio_interrupt/src/gpio_interrupt.c:96-112 | on one processor, a run in which the answer to a full-branch signal leaves the ring full |
| RingSolo.FullSignalEmptiesTheRing | LINUX/test_gpio_interrupt/src/gpio_interrupt.c:322-352 | on one processor, after a clean start, at most one signal is unanswered; the ring stays marked full, without another frame, until a full-branch signal is answered, and the answer empties it |
| RingSolo.SecondSignalEscapes | LINUX/test_gpio_interrupt/src/gpio_interrupt.c:94-108 | on one processor, without the clean start, two signals can be unanswered at once |
| RingSystem.System.constructor | LINUX/test_gpio_interrupt/src/gpio_interrupt.c:405-420 | module load: empty ring, interrupt open, nobody listening |
| RingSystem.System.IrqHandler | LINUX/test_gpio_interrupt/src/gpio_interrupt.c:295-315 | masks the interrupt and schedules the tasklet, or latches when full |
| RingSystem.System.TaskletBegin | LINUX/test_gpio_interrupt/src/gpio_interrupt.c:322-326 | the scheduled tasklet starts |
| RingSystem.System.TaskletCheck | LINUX/test_gpio_interrupt/src/gpio_interrupt.c:327-331 | the position and fullness are read together; the slot is the receiver's from here on |
| RingSystem.System.TaskletReceive | LINUX/test_gpio_interrupt/src/gpio_interrupt.c:333-334 | the frame lands in the slot chosen before |
| RingSystem.System.TaskletAdvance | LINUX/test_gpio_interrupt/src/gpio_interrupt.c:335-342 | rear and length advance, or the full flag is set |
| RingSystem.System.TaskletSignal | LINUX/test_gpio_interrupt/src/gpio_interrupt.c:343-348 | a signal goes out unless one is out already |
| RingSystem.System.TaskletReopen | LINUX/test_gpio_interrupt/src/gpio_interrupt.c:350-350 | the tasklet's last statement opens the interrupt |
| RingSystem.System.RecvEnter | LINUX/test_gpio_interrupt/src/gpio_interrupt.c:86-116 | the sender is noted and the front's advance computed before the lock |
| RingSystem.System.RecvStart | LINUX/test_gpio_interrupt/src/gpio_interrupt.c:96-101 | the start message clears both flags |
| RingSystem.System.RecvCode | LINUX/test_gpio_interrupt/src/gpio_interrupt.c:117-123 | a position releases the frames before it |
| RingSystem.System.RecvLatch | LINUX/test_gpio_interrupt/src/gpio_interrupt.c:124-129 | a latched interrupt schedules the tasklet |
| RingSystem.System.Attach | LINUX/package/dso_mthread/src/dso_test_user.c:54-56 | the consumer notes the front and sends the start message |
| RingSystem.System.Take | LINUX/package/dso_mthread/src/dso_test_user.c:58-59 | the signal is taken and its modular length computed |
| RingSystem.System.Hand | LINUX/package/dso_mthread/src/dso_test_user.c:60-63 | one frame is handed over, its first byte cleared when a socket is attached |
| RingSystem.System.Reply | LINUX/package/dso_mthread/src/dso_test_user.c:65-65 | the reached position is sent back |
| RingSystem.System.ServeSignal | LINUX/package/dso_mthread/src/dso_test_user.c:57-66 | one turn of the consumer's endless loop, with its inner loop run to the end |
| RingSystem.RoundDeliversUpToSignal | LINUX/package/dso_mthread/src/dso_test_user.c:52-67 | such a turn hands over exactly the frames below its signal and answers with the same position |
| FrameSender.FrameMachine.constructor | FPGA/SPI_TEST_2/FPGA2AR9331.sv:26-30 | idle, pins floating |
| FrameSender.FrameMachine.Clock | FPGA/SPI_TEST_2/FPGA2AR9331.sv:36-185 | one clock edge of the sending machine |
| FrameSender.PinsFloatBetweenFrames | FPGA/SPI_TEST_2/FPGA2AR9331.sv:137-178 | from its first clock on the sender drives the data pins exactly while a frame goes out, starts it with 54, and takes the acknowledge level of the moment |
| Handshake.DataMovesWithClock | FPGA/SPI_TEST_2/FPGA2AR9331.sv:141-178 | in every fair run the data pins change without the clock line only before it has risen, with the driver still waiting, or after every byte has been latched and acknowledged |
| FrameReceiver.WiringDecodes | LINUX/test_gpio_interrupt/src/gpio_interrupt.h:46-48 | the GPIO word decodes to the byte and clock level that were wired, for any level of the unused pins 1 to 10 |
| FrameReceiver.OperationShrinksBudget | LINUX/test_gpio_interrupt/src/gpio_interrupt.c:268-285 | every operation of the call uses up its budget of operations and of reads |
| FrameReceiver.FinishCountsToggles | LINUX/test_gpio_interrupt/src/gpio_interrupt.c:260-288 | a call toggles the acknowledge line length + 2 times, or 4001 times when cut off at 4000 bytes |
| FrameReceiver.WaitForClock | LINUX/test_gpio_interrupt/src/gpio_interrupt.c:269-273 | the inner loop ends with the clock line moved or after 200 reads |
| FrameReceiver.ReceiveData | LINUX/test_gpio_interrupt/src/gpio_interrupt.c:260-288 | for every input trace the call ends within 4000 * 200 + 1 reads, writes only below 4000, and agrees with the operation-by-operation machine |
| Handshake.RunKeepsInv | FPGA/SPI_TEST_2/FPGA2AR9331.sv:45-185 | the joint invariant of sender and driver over every fair schedule |
| Handshake.TwoClocksLaunch | FPGA/SPI_TEST_2/FPGA2AR9331.sv:141-154 | two sender clocks announce a frame, whatever the driver does meanwhile |
| Handshake.CallReturns | LINUX/test_gpio_interrupt/src/gpio_interrupt.c:260-288 | from the start of a frame of any length, on every schedule with two sender clocks and then more than 3 + 201 * 4000 operations of the driver, the call returns |
| Handshake.SamplesAreSampled | FPGA/SPI_TEST_2/FPGA2AR9331.sv:169-174 | the bytes latched are the data input in exactly the clocks spent in SEND_ING_2 |
| Handshake.FrameArrives | FPGA/SPI_TEST_2/FPGA2AR9331.sv:45-185 | on such a schedule, if fair, a frame of 1 to 3999 bytes has arrived whole, with header 54, n + 2 acknowledges and n + 2 rises of the read clock; so it has whenever the call has returned |
| Handshake.FrameIsCutOff | LINUX/test_gpio_interrupt/src/gpio_interrupt.c:281-284 | on such a schedule any other length has been cut off at 4000 bytes with the sender short of an acknowledge |
| Handshake.Lockstep | FPGA/SPI_TEST_2/FPGA2AR9331.sv:80-105 | bytes shown, header counted, minus acknowledges is 0 or 1 until the call is over |
| Handshake.OneRisePerSample | FPGA/SPI_TEST_2/FPGA2AR9331.sv:141-174 | when a byte is about to be latched the read clock has risen three times more than bytes were latched before, so once between consecutive samples |
| Handshake.DriverReturns | LINUX/test_gpio_interrupt/src/gpio_interrupt.c:260-288 | on every schedule, fair or not, an announced frame's call ends after a bounded number of its own operations, the wait for the interrupt included |
| Handshake.SenderRests | FPGA/SPI_TEST_2/FPGA2AR9331.sv:110-121 | 2002 clocks after the last toggle the sender is idle with its clock line low |
| Handshake.RestsExactlyInRange | FPGA/SPI_TEST_2/FPGA2AR9331.sv:93-121 | on the acknowledges of one call the sender comes to rest exactly for lengths 1 to 3999 |
| Handshake.RestIsReady | FPGA/SPI_TEST_2/FPGA2AR9331.sv:53-62 | a sender at rest starts the next frame from the state the frame theorems begin with |
| Handshake.ReadyAgain | FPGA/SPI_TEST_2/FPGA2AR9331.sv:53-62 | after a frame in range, the pause and one enabled clock, sender and driver are where the next frame starts from |
| SpiOut.Serialiser.constructor | FPGA/SPI_TEST_2/DAC_POLLING.sv:128-131 | idle with a full bit counter, the pins at any level |
| SpiOut.Serialiser.Clock | FPGA/SPI_TEST_2/DAC_POLLING.sv:135-233 | one clock edge of the serialiser, outputs following the phase being entered |
| SpiOut.EdgeKeepsInv | FPGA/SPI_TEST_2/DAC_POLLING.sv:142-233 | during a transfer the slave holds exactly the bits already sent, highest first |
| SpiOut.WordIsTransferred | FPGA/SPI_TEST_2/DAC_POLLING.sv:142-233 | the slave receives the sixteen bits latched at the last idle edge, highest first, whatever the data input does meanwhile |
| SpiOut.LineRestsBetweenWords | FPGA/SPI_TEST_2/DAC_POLLING.sv:171-232 | between two words the frame and clock lines rest high for twelve edges, and fall at the twelfth exactly when the enable is up |
| SpiOut.IdleLinesHigh | FPGA/SPI_TEST_2/DAC_POLLING.sv:199-204 | an idle serialiser holds both lines high from its first edge on |
| DacPolling.Poller.constructor | FPGA/SPI_TEST_2/DAC_POLLING.sv:14-26 | idle, channel counter 0, serialiser disabled |
| DacPolling.Poller.Clock | FPGA/SPI_TEST_2/DAC_POLLING.sv:40-112 | one core clock of the round-robin controller |
| DacPolling.SelectionIsRight | FPGA/SPI_TEST_2/DAC_POLLING.sv:98-106 | when a channel is selected the slave's last word is the value sampled for that channel |
| DacPolling.ChannelsMatchWords | FPGA/SPI_TEST_2/DAC_POLLING.sv:22-112 | for every alignment of the serial clock, channels in turn, and from the second selection on four zeros and that channel's sample |
| DacRuns.NoChannelDuringTransfer | FPGA/SPI_TEST_2/DAC_POLLING.sv:90-106 | the position is 7 whenever the frame line is low, and the channel just selected from a selection to the next idle clock |
| DacRuns.DisabledStaysIdle | FPGA/SPI_TEST_2/DAC_POLLING.sv:55-60 | without its enable the controller shows position 7 and starts no conversion |
| DacRuns.WordsAreInputs | FPGA/SPI_TEST_2/DAC_POLLING.sv:103-106 | the word held when channel j is selected is four zeros and a value that stood at input j since the selection before |
| DacTiming.EdgeAdvances | FPGA/SPI_TEST_2/DAC_POLLING.sv:40-233 | every edge of the serial clock brings the next selection one edge nearer, and no other clock takes it away |
| DacTiming.ChannelsAreRefreshed | FPGA/SPI_TEST_2/DAC_POLLING.sv:22-112 | with the 14:1 divider in any phase, selection j has been made within 645 (j + 1) core clocks, is channel j modulo 8, and shows that channel's sample |
| DacTiming.NextSelectionComes | FPGA/SPI_TEST_2/DAC_POLLING.sv:22-112 | at any time the next selection is at most 645 core clocks away |
| Divs.UntilRiseCountsDown | FPGA/SPI_TEST_2/Divs.v:20-32 | the distance to the next rising edge falls by one each clock and is a whole period after a rise |
| Divs.OneEdgePerPeriod | FPGA/SPI_TEST_2/Divs.v:20-32 | at a constant step the output rises exactly once per 2 (step + 1) clocks, from any phase |
| Divs.SerialClockPeriod | FPGA/SPI_TEST_2/Divs.v:4-16 | the DAC's serial clock has a period of 14 core clocks |
| Divs.ClockDivider.constructor | FPGA/SPI_TEST_2/Divs.v:20-23 | counter at zero, output at any level |
| Divs.ClockDivider.Clock | FPGA/SPI_TEST_2/Divs.v:24-31 | one input clock; reports whether the output rose |
| AdcCapture.CaptureControl.constructor | FPGA/SPI_TEST_2/ADC.sv:116-136 | idle, writing enabled, nothing to send |
| AdcCapture.CaptureControl.Clock | FPGA/SPI_TEST_2/ADC.sv:143-208 | one sample-clock edge of the capture machine |
| AdcCapture.WritesWhileSaving | FPGA/SPI_TEST_2/ADC.sv:184-208 | the memory is written from the edge after Saving is entered through the one that saves the length, and never while the capture shows |
| AdcCapture.StartsOnRise | FPGA/SPI_TEST_2/ADC.sv:153-164 | a waiting capture starts if and only if the trigger has been low and later high, or is ignored |
| AdcCapture.NoCaptureWithoutRise | FPGA/SPI_TEST_2/ADC.sv:153-164 | with the trigger heeded nothing is captured after the last capture until the trigger has been low and then high |
| AdcCapture.SavesWhenFull | FPGA/SPI_TEST_2/ADC.sv:166-173 | a started capture fills the memory until it holds more than 2998 samples, and then saves the count |
| AdcCapture.ShowsUntilCleared | FPGA/SPI_TEST_2/ADC.sv:175-179 | a capture stays shown with its length exactly until the sender's pause clears it |
| AdcCapture.CaptureFollowsEdges | FPGA/SPI_TEST_2/ADC.sv:147-149 | in a whole run the capture moves at the rising edges of the divided clock only |
| AdcCapture.StepKeepsInv | FPGA/SPI_TEST_2/ADC.sv:175-206 | every clock keeps the bound that lets a served capture's flag fall before the sender looks again |
| AdcCapture.NoCaptureIsSentTwice | FPGA/SPI_TEST_2/ADC.sv:144-208 | with steps up to 499 every frame begins for a later capture, and the length holds still while the flag is up |
| AdcCapture.OneFramePerCapture | FPGA/SPI_TEST_2/FPGA2AR9331.sv:116-121 | when the memory does not refill during the pause, captures and frames go one for one and the sender takes the captured lengths in order |
| AdcCapture.FrameStaysFlagged | FPGA/SPI_TEST_2/FPGA2AR9331.sv:53-115 | from its first clock to its last acknowledge a frame has the newest capture flagged |
| AdcBound.Fills | FPGA/SPI_TEST_2/ADC.sv:166-202 | with a memory that counts what it is told to write, the first capture fills it sample by sample |
| AdcBound.FrameCloses | FPGA/SPI_TEST_2/ADC.sv:144-208 | at every constant step a run from power-on, with a memory that counts, fills it, shows the first capture and sends its 3000 bytes |
| AdcBound.SlowerClockSendsTwice | FPGA/SPI_TEST_2/FPGA2AR9331.sv:116-121 | at every constant step from 500 on, from every power-on, a run begins two frames for its first capture |
| AdcBound.BoundIsExact | FPGA/SPI_TEST_2/Divs.v:20-32 | at a constant step no run sends a capture twice if and only if two of its periods fit into the pause, 4 (step + 1) <= 2000 |
| Acquisition.RunKeepsInv | FPGA/SPI_TEST_2/main.sv:142-170 | capture, sender and driver keep their joint invariant over any number of frames |
| Acquisition.EveryCaptureArrives | FPGA/SPI_TEST_2/main.sv:142-170 | from power-on, on fair schedules with a sample clock in bounds, a memory that does not refill in the pause and captures of 1 to 3999 bytes, every finished call has brought one capture, in order and whole, as long as its saved length, under the header; at most one capture is outstanding |
| Acquisition.StreamArrives | FPGA/SPI_TEST_2/main.sv:142-170 | under the same conditions the bytes of all calls, one after the other, are the sender's data input in the clocks that latched it |
| FirstCapture.FirstCaptureArrives | FPGA/SPI_TEST_2/main.sv:142-170 | from every power-on, at every step in bounds, an allowed and fair schedule exists on which the first capture arrives whole |

## Left out

- The asynchronous resets of the state machines, and the sender's reset while capture is disabled: every run has the resets released and the interface enabled.
- The unreachable default arms and unused state codes of the state machines.
- Sockets, the socket list, TCP and UDP threads, netlink set-up, `mmap` and device registration: netlink is two in-order channels that lose nothing, and `sendUdp_t` is the hand-over of a slot.
- The session's end code is handled by the callback's step, but the runs hold one session whose consumer, like the source's endless loop, never sends it.
- The inside of the Altera memories and clock loops: the capture's fill count and the sampled bytes are inputs.
- Metastability and skew: a divided clock's edge coincides with the core clock that raises it, and the serial line is sampled without delay.
- `GET_FREQ`, `GET_FREQ_EQUAL` and the trigger modules of `ADC.sv`: the count latched on the falling edge depends on an order of processes the code does not fix; trigger levels are inputs.
- The blocking assignment to `delay_counter` is modelled as a register like its neighbours; another order of processes could end the pause one clock earlier.
- GPIO 18, which `Gpio2Data` also reads into bit 7, is taken to be low, and pins read while floating give any byte.
- The rest of the GPIO word, the interrupt's status register and the driver's log output.
- The host's side of the serial line: no sender of packets and no reader of reports is in the repository, so both formats are defined from the code at the board's end.
- The release loops in `test_close` and `gpio_interrupt_exit`, whose list is never filled.
- The older generations of the FPGA project and the backup files.
- SerialLink.StreamRecovered: the drift bounds are proved sufficient for every stream, not necessary.
- DacPolling.ChannelsMatchWords: holds for any pattern of serial clock edges, even none; that selections come is proved for the divided clock, in `DacTiming`.
- Handshake.RestsExactlyInRange: the driver leaves the acknowledge line alone after the call; a later call that meets the rest of a cut-off frame is not followed.
- Acquisition.EveryCaptureArrives: says what finished calls brought; that every call finishes is proved one frame at a time, in `Handshake`. A driver that is back for its next interrupt within one sender clock of a call's end would see the old clock level and is excluded.
- The interrupt handler is one step: its look at `full` and its write of `irq` are not split, as they could be by the callback on a second processor; the board has one.
- Divs.ClockDivider.Clock: `Div` compares its counter for equality with a constant and `Div_c` with a step that may change; from a counter that starts at zero they agree for a constant step, so one class stands for both, without the 24 and 16 bit wrap-around that neither reaches.
