# Verified models of the SoC's UART, bus, FIFOs, co-simulation engines and link training

This project models the stateful parts of the SoC design and of its co-simulation models in Dafny, and proves what
they keep over whole runs. RTL blocks are classes whose `Clock` method is one rising edge; C, C++ and behavioural
Verilog code is methods with loops. Each class is tied to a transition function on a datatype (its `View()` before and
after an edge), and the theorems are about runs of those functions: every input trace, every stall pattern, every
interleaving, from every state that meets the stated invariant.

`dafny verify dfyconfig.toml` checks everything.

| file | what it models |
|---|---|
| `Bits.dfy` | bytes, words, wrap-around counters, the step of a conservation law |
| `Fifo.dfy` | the RAM FIFO and the shift-register FIFO as one bounded queue |
| `Uart.dfy` | tick generator, receiver and transmitter FSMs, and the serial link between two boards |
| `RxTiming.dfy`, `RxBounds.dfy` | what the receiver makes of a line with any bit period |
| `CommandEngine.dfy`, `ProgramLoad.dfy`, `Commands.dfy`, `ImemBank.dfy`, `Recovery.dfy` | the 41-state command FSM and its commands |
| `Protocol.dfy` | the command protocol told from bytes, which that FSM implements |
| `UartTop.dfy`, `Overflow.dfy` | the UART as a whole; what becomes of received bytes |
| `WireToMemory.dfy`, `Answers.dfy` | a program from the wire into instruction memory, and the replies back onto the wire |
| `TxBucket.dfy`, `ReadStream.dfy` | when the TX FIFO takes all that is offered, and when not |
| `TwoBoards.dfy`, `TwoClocks.dfy` | two whole UARTs wired together; transmitter and receiver with clocks of their own |
| `Bus.dfy`, `BusSession.dfy`, `BusFromReset.dfy` | the two-master arbiter over the RAM; the command FSM as one of the masters; runs from reset |
| `Ltssm.dfy`, `LinkCounts.dfy` | PCI Express link training (sections 4.2.6.2 and 4.2.6.3 of the Base Specification, Rev 2.1) as two nodes and two channels |
| `VProc.dfy`, `ByteBursts.dfy`, `MemModel.dfy` | burst engine, byte bursts, burst read pipeline |
| `Cache.dfy`, `Irq.dfy`, `Getopt.dfy` | instruction cache tags, interrupt loop, option scanner |

## What the proofs show about the code

Most properties hold as the design intends them. These hold only under a condition, which the proofs make exact:

- The receiver copes with every frame, at every tick phase, exactly for bit periods from 664.3 to 6562/9 = 729.11...
  clocks (8.30375 us to 9.1138... us at 80 MHz): `RxBounds.ReceivedIff`. Below, a frame can end before the FSM has left
  STOP; above, a last data bit of 0 can be taken for a start bit.
- If the UART drops its bus request while granted at an address that no peripheral answers, the CPU is not served for
  as long as the UART's request stays down there. After a session that found the bus free, the CPU is served exactly if
  it has requested in every clock of the session or the bus address last sent is mapped
  (`BusFromReset.ServedAfterSessionIff`); `BusFromReset.StarvedFromReset` gives runs from reset in which it is not.
- The UART's bus write does not wait for ready: its enables are up for one clock. A write commanded by 0x0E is lost
  exactly if the CPU has requested in every clock since the session opened, the UART not having had the bus from
  before (`BusSession.BusWriteLostIff`; in the first session after reset it has not, `BusSession.FirstSessionLosesIff`);
  `BusFromReset.WriteLostFromReset` gives runs that fail.
- The TX FIFO drops a reply byte, with no sign of it, exactly if more than fifteen frames are still to be sent when it is
  offered (`TxBucket.AllTakenIff`). Unless the CPU writes, no command but a bus read can bring that about, and that cannot if the
  replies before it have left (`Answers.NoReplyDropped`). At 115200 baud a read takes 34720 clocks to
  send and 35200 to answer, so a stream of them loses bytes (`ReadStream.StreamLoses`; exactly when,
  `TxBucket.ReadsTakenIff`).
- The RX overflow flag is up exactly if a byte has found the FIFO full since the flag was last cleared
  (`RxPath.OverflowIff`). That is not always a lost byte: `RxPath.TruthfulIff` says when it is, and
  `OverflowFromReset.FlagWithoutLoss` gives runs from reset in which it is not.
- A single-word write to instruction memory sets the low 16 address bits only. It writes where the command says exactly
  if the last word that a program load has written is one of the first 0x4000 of its program
  (`ImemBank.WritesWhereSaid`); `ImemBank.WritesElsewhere` gives inputs that fail.
- A byte burst that falls into one word uses only the first byte enables, so it overwrites bytes behind its end unless
  it ends with the word (`ByteBursts.ExactIff`), provided that `VBurstWriteBE`, whose body is not part of the repository,
  hands both enables on unchanged. For zero bytes at an unaligned address `calcWordLen` returns 1, not 0
  (`ByteBursts.CalcWordLen`).
- An option cluster whose first letter is `-` ends the scan, and an attached argument must not be empty; all other
  renderings of an option list are read back with their operands, and only those (`OptionRendering.ScanUndoesRender`).
- A cached region whose upper limit is the last address of the address space is empty, because the limit wraps to 0
  (`Rv32Cache.RegionIff`).

## Model

The first rows, down to `OptionRendering.ScanUndoesRender`, are the main results; the others are the operations
they are about and the steps that carry them.

| member | source | states |
|---|---|---|
| BoundedQueue.Conservation | 2.rtl/ip.infra/sync_fifo_ram.sv:66-114 | over any run, what was held plus what was accepted is what was removed plus what is held, in order; the depth is respected |
| FifoEquivalence.SideBySide | 2.rtl/ip.infra/sync_fifo_srl.sv:47-107 | both FIFOs agree clock for clock on counts, flags, head and, after the first read, registered output |
| SerialLink.Lossless | 2.rtl/ip.infra/uart.sv:222-523 | over any run and any tick phase, pending and accepted bytes are exactly the delivered and still pending ones, in order |
| SerialLink.LosslessFromReset | 2.rtl/ip.infra/uart.sv:222-523 | from idle, what was delivered is a prefix of what was accepted, at most a FIFO full short of it |
| SerialLink.Drains | 2.rtl/ip.infra/uart.sv:400-523 | once writing stops, every pending byte is delivered within an explicit number of clocks |
| SerialLinkDevices.Transfer | 2.rtl/ip.infra/uart.sv:222-523 | two boards out of reset at any skew: the received bytes are a prefix of the accepted ones, less at most 16 |
| TwoBoards.AcrossTheLine | 2.rtl/ip.infra/uart.sv:141-555 | two whole UARTs: whatever one accepts for sending arrives at the other, in order, but for what is on its way |
| TwoBoards.FromCpuToCpu | 2.rtl/ip.infra/uart.sv:141-555 | with no 0x12 among the bytes: what the CPU of one board writes arrives at the RX FIFO of the other, in order, but for what is on its way; what the other CPU reads is, in order, what found room there, but for what is still in the FIFO |
| TwoClocks.LosslessTwoClocks | 2.rtl/ip.infra/uart.sv:182-523 | two boards with clocks of their own, 4.9 % or 4.5 % apart at most: whenever no frame is on the line, the receiver has heard exactly what the sender's FIFO has accepted, in order, but for what is still in it |
| TwoClocks.WaveLegibleIff | 2.rtl/ip.infra/uart.sv:182-230 | every frame of the transmitter, at every phase, has each bit and STOP where the receiver looks for them, if and only if one clock of the receiver takes 6240/6562 to 5520/5281 clocks of the sender |
| RxBounds.ReceivedIff | 2.rtl/ip.infra/uart.sv:182-349 | every frame with every phase is received as its byte, the FSM listening again at its end, if and only if the bit period is 664.3 to 6562/9 clocks |
| RxBounds.SamplesTaken | 2.rtl/ip.infra/uart.sv:254-349 | for every bit period: the FSM shifts in exactly eight clocks given by the tick phase, bit by bit, and takes the value that the frame has at the sampling instant; it pushes in a ninth |
| RxTiming.StreamHeard | 2.rtl/ip.infra/uart.sv:254-349 | any stream of legible frames (all those with a bit period of 664.3 to 6562/9 clocks are, and those of the transmitter itself), back to back or not, is received byte for byte, with no false start in between |
| RxTiming.Tolerance | 2.rtl/ip.infra/uart.sv:182-230 | the sampling scheme keeps the eight data samples and the end of STOP in their bit cells for every tick phase if and only if the bit period is 664.1 to 729 clocks |
| CommandEngine.SessionAlways | 2.rtl/ip.infra/uart.sv:582-1185 | in every state reachable from reset: bus request, memory and bus write enables, CPU reset and reply offer are up exactly in their states; the timeout is at most 2^21 |
| Protocol.Follows | 2.rtl/ip.infra/uart.sv:582-1185 | on every input the 41-state FSM does what the byte-level protocol says: exactly its writes to instruction memory and onto the bus and its reply bytes, in order, sums modulo 256 and 0x07 on a timeout among them; it requests the bus exactly while a session is open, at the address last sent |
| Protocol.FollowsFromReset | 2.rtl/ip.infra/uart.sv:582-1185 | so does every run from reset |
| Protocol.TimesOut | 2.rtl/ip.infra/uart.sv:671-1154 | after any run from reset that leaves a command waiting, for a byte after any others or for the answer to a bus read: if nothing comes within 2^21 ticks, exactly one byte, 0x07, is replied, nothing is written, and the session is over |
| Recovery.Recovers | 2.rtl/ip.infra/uart.sv:671-1154 | from any state of the invariant, with no byte arriving, the FSM is back in WAIT_SOP or WAIT_CMD with the CPU out of reset within the remaining ticks and clocks |
| ProgramLoad.ProgramIsLoaded | 2.rtl/ip.infra/uart.sv:646-783 | 0x12, 0x05, length and data: exactly the data is written, word k at 4k, no bus write; replies are one ACK a word (65536 for length 0) and the sum of length and data; the address register ends at the last word |
| WireToMemory.ProgramOverTheWire | 2.rtl/ip.infra/uart.sv:141-1185 | a program sent as frames of any periods in tolerance, pauses up to 2.09 s, whatever CPU and bus do, is written to instruction memory word for word and answered |
| Answers.NoReplyDropped | 2.rtl/ip.infra/uart.sv:532-555 | over any run without CPU writes, whatever the line does, the TX FIFO accepts every reply to every command, if a bus read is only begun when the replies before it have left |
| TxBucket.AllTakenIff | 2.rtl/ip.infra/uart.sv:400-555 | over any run, replies and CPU writes alike: every byte offered to the TX FIFO is taken if and only if a leaky bucket of sixteen frames holds them, which is told from the clocks in which they are offered |
| TxBucket.ReadTakenIff | 2.rtl/ip.infra/uart.sv:1006-1043 | the five bytes of a bus read are all taken if and only if at most eleven frames and four clocks are still to be sent when the first is offered |
| TxBucket.ReadsTakenIff | 2.rtl/ip.infra/uart.sv:1006-1043 | any number of bus reads, told from their spacing alone: no reply byte is lost if and only if each finds that much room, the level falling by a clock a clock |
| ReadStream.StreamLoses | 2.rtl/ip.infra/uart.sv:532-555 | runs from reset that lose a reply byte: 0x12 and any 280 bus reads or more, frame after frame at 115200 baud, each answered at once by the bus |
| Answers.ProgramIsAnswered | 2.rtl/ip.infra/uart.sv:646-783 | a program sent over the line is answered on the line: one ACK a word, then the checksum, in order, but for what is on its way |
| Commands.BusWriteCommand | 2.rtl/ip.infra/uart.sv:785-930 | 0x0E, address, data, enables: one bus write of exactly that, or none if the enables are zero; the reply is the sum of the nine bytes |
| Commands.BusReadAsks | 2.rtl/ip.infra/uart.sv:932-1004 | 0x0F, address: until ready or timeout the bus is asked to read at that address |
| Commands.BusReadCommand | 2.rtl/ip.infra/uart.sv:992-1043 | the word that comes with ready is sent back by bytes, then the sum of address and data |
| Commands.ImemWriteCommand | 2.rtl/ip.infra/uart.sv:1045-1146 | 0x1A, address, data: one write with the CPU running, of that data, at that address within the 64K bank that the address register is in |
| ImemBank.WritesWhereSaid | 2.rtl/ip.infra/uart.sv:746-764 | after any run from reset that command writes where it says if and only if the last word that a program load has written, if any, is one of the first 0x4000 of its program |
| ImemBank.AfterLoad | 2.rtl/ip.infra/uart.sv:746-764 | right after a complete program load: if and only if the program has at most 0x4000 words |
| ImemBank.WritesElsewhere | 2.rtl/ip.infra/uart.sv:1045-1073 | inputs that fail: after any program of 0x4001 words, a write to address 0 goes to 0x10000 |
| RxPath.OverflowIff | 2.rtl/ip.infra/uart.sv:241-278 | over any run the overflow flag is up if and only if a byte has found the RX FIFO full since the CPU read that last cleared it |
| RxPath.TruthfulIff | 2.rtl/ip.infra/uart.sv:269-278 | the flag tells truly whether a byte was dropped since it was last cleared, if and only if no byte has found the FIFO full since, or one has outside a command session |
| OverflowFromReset.FlagWithoutLoss | 2.rtl/ip.infra/uart.sv:269-366 | a run from reset: any fifteen bytes left unread, a 0x12 and one more byte raise the flag with nothing dropped |
| RxPath.NoSilentLoss | 2.rtl/ip.infra/uart.sv:353-375 | with the overflow flag down, no byte was dropped since it was last cleared |
| RxPath.Partitioned | 2.rtl/ip.infra/uart.sv:353-375 | over any run, in order: the RX FIFO is offered exactly the bytes that arrive with no session open (the opening 0x12 included), sessions being told by the protocol from bytes, ticks and the bus's ready; the command FSM has to do with those that arrive in one and with each opening 0x12 |
| RxPath.Balanced | 2.rtl/ip.infra/uart.sv:353-375 | every byte offered to the RX FIFO is dropped, read by the CPU, or still there, and only one of these |
| RxPath.ReadInOrder | 2.rtl/ip.infra/uart.sv:353-375 | over any run the CPU reads, in order, exactly the offered bytes that found room, less those still there; the others are those dropped |
| Fabric.SequentiallyConsistent | 2.rtl/ip.infra/soc_ram.sv:35-77 | over any run in which the CPU holds its requests, its reads and all completed writes are those of one plain memory, and nothing else changes it |
| Fabric.ReadsLastWrites | 2.rtl/ip.infra/soc_ram.sv:28-75 | in every clock of any run, each word of memory consists, byte by byte, of what was last stored at its address modulo the size, by either master; a CPU read that is ready returns the word at its own address; a write is ready in the clock that stores it |
| Fabric.BoundedWait | 2.rtl/ip.infra/soc_fabric.sv:60-118 | with the UART's request down and its address mapped, a CPU access is ready within four clocks from any state |
| BusSession.SessionWrites | 2.rtl/ip.infra/soc_fabric.sv:98-118 | during a session the writes of the command FSM that take place are exactly those tried from the first clock on in which the CPU has no request (all, if the UART has the bus already) |
| BusSession.BusWriteLostIff | 2.rtl/ip.infra/uart.sv:905-925 | a 0x0E command's write is lost if and only if the CPU has requested in every clock since the session opened, the UART not having the bus from before; otherwise it takes place once, as commanded |
| BusSession.FirstSessionLosesIff | 2.rtl/ip.infra/uart.sv:905-925 | in the first session after reset the CPU's requests alone decide |
| BusSession.UartReadsWord | 2.rtl/ip.infra/soc_fabric.sv:45-85 | the answer that a bus read of the UART takes is the word of data memory at its address (the size of the memory dividing 2^22 words), or what the control registers return, and comes while the UART has the bus |
| BusFromReset.WriteLostFromReset | 2.rtl/ip.infra/uart.sv:905-925 | a run from reset, for any write: with a CPU that requests all the time, 0x12 and the 0x0E command; the write is tried, and none takes place |
| BusFromReset.ServedAfterSessionIff | 2.rtl/ip.infra/soc_fabric.sv:60-118 | after a session that found the bus free, with no new one: the CPU is served if and only if it has requested in every clock of the session or the bus address last sent is mapped |
| BusFromReset.ServedFromResetIff | 2.rtl/ip.infra/soc_fabric.sv:60-118 | the same for the first session after reset |
| BusFromReset.StarvedFromReset | 2.rtl/ip.infra/soc_fabric.sv:98-118 | runs from reset after which the CPU is never served: while it is idle, 0x12, a 0x0E command to any address that is not mapped, 0x14 |
| LinkTraining.LockStep | 5.sim/models/pcievhost/ltssm/ltssm.c:152-365 | in every reachable state a node from Polling.Config on has a partner in at least the phase before, and one past Config.Start has one with its link number |
| LinkTraining.DifferentNumbersNeverTrain | 5.sim/models/pcievhost/ltssm/ltssm.c:265-299 | nodes with different link numbers never get past Config.Start |
| LinkCounts.LeavesIff | 5.sim/models/pcievhost/ltssm/ltssm.c:110-363 | over any run of a node, told from what it has received and sent since it entered its phase: the exact iteration in which it leaves each phase (for Polling.Config 8 TS2 since the last one with wrong numbers and 16 sent since the first, and so on), and that it stays before |
| LinkCounts.LinkLeavesIff | 5.sim/models/pcievhost/ltssm/ltssm.c:110-363 | the same for each of two nodes on a link, over every interleaving and delay |
| LinkInit.Control.InitLink | 5.sim/models/pcievhost/ltssm/ltssm.c:739-748 | `InitLink` ends after 3 calls of `LinkState` plus 4 for each detour taken, at most 11; forced detours are taken |
| BurstEngine.WholeBurst | 5.sim/models/cosim/f_VProc.v:180-293 | a burst of n words makes exactly n transfers at stepping addresses, with first, full and last enables and first and last flags on their words, and VSched is not called before its end |
| BurstEngine.PlainAccess | 5.sim/models/cosim/f_VProc.v:150-300 | a plain access under any stalls: exactly one transfer, at its address, with its enables and its own data or the word read, both burst flags down; VAccess is not called for it, and VSched is in the clock of the acknowledge |
| BurstEngine.WaitCommand | 5.sim/models/cosim/f_VProc.v:270-300 | a command that only waits: VSched is called again after exactly the number of clocks asked for, with nothing on the bus until then |
| ByteBursts.ExactIff | 5.sim/models/cosim/f_VProc.v:216-220 | a byte burst enables exactly its bytes if and only if it touches two words or more or ends with its word |
| ByteBursts.BytesWritten | 5.sim/models/cosim/include/VProcClass.h:70-81 | under any stalls, exactly the given bytes change, to the given values, across the top of the address space too |
| ByteBursts.BytesRead | 5.sim/models/cosim/include/VProcClass.h:83-90 | under any stalls, the bytes extracted are those in memory, across the top of the address space too |
| ByteBursts.RoundTrip | 5.sim/models/cosim/include/VProcClass.h:70-90 | reading back a byte burst returns what was written |
| BurstRead.FetchedInOrder | 5.sim/models/cosim/f_mem_model.v:240-284 | over any run every accepted burst is fetched word by word, once and in order, and bursts never mix |
| BurstRead.OutputInOrder | 5.sim/models/cosim/f_mem_model.v:202-217 | over any run the valid words are exactly the words fetched for bursts, in order; the surplus fetch is not among them |
| BurstRead.OneBurst | 5.sim/models/cosim/f_mem_model.v:202-284 | an n-word burst gives exactly n valid words, those fetched from its n addresses |
| BurstRead.AcceptedAgain | 5.sim/models/cosim/f_mem_model.v:240-284 | after an accepted burst no command is accepted for exactly as many clocks as it has words, and the next one in the clock after, the write port being idle |
| Rv32Cache.Simulate | 5.sim/models/rv32/usercode/rv32_cache.cpp:118-184 | over any run, a read hits exactly if it is cacheable and, since the last invalidation, a read of the same line has missed with fewer than `ways` misses after it in the same set, all told from byte addresses; a set of which at most `ways` lines were read has missed once for each; if all reads lie within the size of a way, exactly the first of each line misses |
| Rv32Cache.RegionIff | 5.sim/models/rv32/usercode/rv32_cache.cpp:86-99 | the cached region ends where it was asked to if and only if that is not the top of the address space; it is empty exactly in that case and when the limit is not above the base |
| Interrupts.Controller.ProcessIrq | 5.sim/models/cosim/include/VProcIrqClass.h:161-199 | after one pass a line is active exactly if it was and is still requested or edge triggered, or if it starts now: enabled, requested, not active before, with no lower line asking for service or staying active; at most one line starts, and its routine is called exactly if it has one |
| Interrupts.StartsIff | 5.sim/models/cosim/include/VProcIrqClass.h:161-199 | some line qualifies to be started if and only if a pending line is above every active one, and then only one does |
| Getopt.Parser.All | 5.sim/models/rv32/usercode/vuserutils.cpp:106 | the caller's loop ends for every argv, with the results of the whole scan |
| OptionRendering.ScanUndoesRender | 5.sim/models/rv32/usercode/getopt.c:63-94 | scanning any rendered option list returns it and leaves exactly its operands, if and only if no cluster begins with `-` and no attached argument is empty |
| FifoRamModel.FifoRam.Clock | 2.rtl/ip.infra/sync_fifo_ram.sv:66-154 | one edge of the circular-buffer FIFO is one step of the bounded queue, simultaneous access at full and empty included |
| FifoRamModel.FifoRam.Control | 2.rtl/ip.infra/sync_fifo_ram.sv:77-114 | pointers, count and registered `empty` after an edge; the write pointer stays `dcount` cells ahead of the read pointer |
| FifoRamModel.FifoRam.Storage | 2.rtl/ip.infra/sync_fifo_ram.sv:139-154 | the memory and the registered output after an edge, both seen with the pointers from before it |
| FifoRamModel.FifoRam.Outputs | 2.rtl/ip.infra/sync_fifo_ram.sv:66-77 | `full`, `empty`, `dcount` and the look-ahead output are those of the queue |
| FifoRamModel.WindowStep | 2.rtl/ip.infra/sync_fifo_ram.sv:66-114 | the occupied window of the circular store changes as the queue does, wrap-around included |
| FifoSrlModel.FifoSrl.Clock | 2.rtl/ip.infra/sync_fifo_srl.sv:47-107 | one edge of the shift-register FIFO is one step of the same queue |
| FifoSrlModel.ShiftStep | 2.rtl/ip.infra/sync_fifo_srl.sv:47-107 | shifting at address 0 and reading at the counter is pushing and popping |
| FifoSrlModel.FifoSrl.Outputs | 2.rtl/ip.infra/sync_fifo_srl.sv:47-70 | the outputs derived from the `{empty, rd_addr}` counter are those of the queue |
| FifoEquivalence.RamTrace | 2.rtl/ip.infra/sync_fifo_ram.sv:66-154 | from reset, on every trace, the outputs of every clock are those of the queue |
| FifoEquivalence.SrlTrace | 2.rtl/ip.infra/sync_fifo_srl.sv:47-107 | the same for the shift-register FIFO |
| UartSerial.TickPeriod | 2.rtl/ip.infra/uart.sv:141-164 | a tick comes exactly every NUM_1US_CLKS + 1 clocks, whether or not the counter wraps |
| UartSerial.TickGen.Clock | 2.rtl/ip.infra/uart.sv:141-164 | one edge of the tick generator |
| UartSerial.Receiver.Clock | 2.rtl/ip.infra/uart.sv:166-349 | one edge of synchroniser and receive FSM, and the RX FIFO write enable |
| UartSerial.Transmitter.Clock | 2.rtl/ip.infra/uart.sv:377-523 | one edge of the transmit FSM, and the TX FIFO read enable |
| SerialLink.TxFollowsTicks | 2.rtl/ip.infra/uart.sv:400-523 | a frame takes 88 ticks from the request, with one FIFO read at its end |
| SerialLink.TxFollowsWave | 2.rtl/ip.infra/uart.sv:400-523 | the line is a fixed function of byte and ticks since the request |
| SerialLink.RxFollowsTicks | 2.rtl/ip.infra/uart.sv:254-349 | the receiver samples bit k at a fixed tick after detection, pushes once, and is idle after 83 ticks |
| SerialLink.SampleInCell | 2.rtl/ip.infra/uart.sv:182-230 | two ticks around each sampling tick the line carries that bit |
| SerialLink.LinkStep | 2.rtl/ip.infra/uart.sv:141-523 | one clock of both boards keeps the link invariant, and pending plus accepted bytes are delivered plus pending ones |
| SerialLinkDevices.Wiring.Clock | 2.rtl/ip.infra/uart.sv:532-555 | the wired modules make one step of the link |
| RxTiming.FrameHeard | 2.rtl/ip.infra/uart.sv:254-349 | one frame with a bit period of 664.3 to 6562/9 clocks gives exactly its byte, and the FSM listens again at its end |
| CommandEngine.Engine.Clock | 2.rtl/ip.infra/uart.sv:582-1176 | one edge of the registers, the next-state process taken state by state; it equals the transition function, which is written register by register |
| CommandEngine.Engine.Take | 2.rtl/ip.infra/uart.sv:671-1134 | the states that take a payload byte |
| CommandEngine.Engine.Command | 2.rtl/ip.infra/uart.sv:639-669 | the states between commands |
| CommandEngine.SessionStep | 2.rtl/ip.infra/uart.sv:638-1176 | one clock keeps the session invariant |
| CommandEngine.TimeoutKeepsReset | 2.rtl/ip.infra/uart.sv:671-763 | on entry to TIMEOUT the CPU is in reset exactly if a program load has timed out |
| CommandEngine.RepliesOnce | 2.rtl/ip.infra/uart.sv:765-1176 | a state that offers a reply byte lasts one clock |
| ProgramLoad.OneWord | 2.rtl/ip.infra/uart.sv:701-777 | four bytes make one little-endian word, written once with the CPU in reset, and one ACK |
| ProgramLoad.LoadWords | 2.rtl/ip.infra/uart.sv:701-777 | the last n words of a program |
| Commands.ByteStored | 2.rtl/ip.infra/uart.sv:785-1134 | each payload byte of the three other commands goes to its register lane and into the checksum |
| Recovery.QuietStep | 2.rtl/ip.infra/uart.sv:671-1154 | a quiet clock away from home uses up a tick, or a clock when no wait is left |
| Recovery.Bounds | 2.rtl/ip.infra/uart.sv:992-1004 | those are at most 2^21 + 1 ticks and 7 clocks |
| UartTop.Uart.Clock | 2.rtl/ip.infra/uart.sv:141-1186 | one edge of the whole module: tick, both FSMs, both FIFOs, overflow flag, command FSM |
| UartTop.Uart.ClockRxFifo | 2.rtl/ip.infra/uart.sv:353-375 | the RX FIFO is offered bytes only outside a session; hardware set of the overflow flag wins over clear on read |
| UartTop.Uart.ClockTx | 2.rtl/ip.infra/uart.sv:532-555 | the command FSM takes the TX FIFO over during a session |
| RxPath.SessionEdges | 2.rtl/ip.infra/uart.sv:639-669 | a session opens exactly with a 0x12 and closes exactly with a 0x14 between commands or a timeout |
| RxPath.DroppedAreOutside | 2.rtl/ip.infra/uart.sv:353-366 | the bytes dropped are exactly those that find the FIFO full outside a session |
| RxPath.OthersIgnored | 2.rtl/ip.infra/uart.sv:639-644 | every other arriving byte leaves the command FSM as it is |
| WireToMemory.Contains | 2.rtl/ip.infra/uart.sv:560-566 | the whole module's writes and replies are those of its command FSM fed by its receiver |
| Answers.PromptStep | 2.rtl/ip.infra/uart.sv:400-523 | the invariant behind it: what is left to send will be gone before the next reply is due |
| Ram.SocRam.Clock | 2.rtl/ip.infra/soc_ram.sv:31-77 | one edge of the RAM: enabled bytes written, old contents read, ready for reads one clock later |
| Fabric.Arbiter.Clock | 2.rtl/ip.infra/soc_fabric.sv:98-118 | one edge of `uart_busy` |
| Fabric.Interconnect.Clock | 2.rtl/ip.infra/soc_fabric.sv:41-118 | one clock of arbiter, muxes and RAM, with the ready and data that the masters see |
| Fabric.BusStep | 2.rtl/ip.infra/soc_fabric.sv:45-118 | ready data in the RAM belongs to the CPU's own held request unless the UART has the bus; what completes is what a plain memory does |
| Fabric.UartKeepsBus | 2.rtl/ip.infra/soc_fabric.sv:98-118 | a granted UART keeps the bus while its request is up |
| Fabric.ServedIff | 2.rtl/ip.infra/soc_fabric.sv:60-118 | for any arbiter and RAM state: the CPU is served if and only if the bus is free or the UART's address is mapped |
| Fabric.Starves | 2.rtl/ip.infra/soc_fabric.sv:98-118 | with the UART's address unmapped and the bus granted to it, the CPU is never ready |
| Fabric.UartWriteNeedsTheBus | 2.rtl/ip.infra/soc_fabric.sv:45-65 | the UART's write reaches the peripheral at its address if the CPU does not have the bus in that clock; otherwise memory, arbiter and control registers see what they would without it |
| BusSession.LetsGo | 2.rtl/ip.infra/soc_fabric.sv:103-115 | after a session the UART lets go of the bus, its address being mapped, once the CPU has asked for two clocks |
| LinkNode.Trainer.CountReceptions | 5.sim/models/pcievhost/ltssm/ltssm.c:184-187 | reception counters per type and the last training set |
| LinkNode.Trainer.Iteration | 5.sim/models/pcievhost/ltssm/ltssm.c:119-365 | one iteration of the loop of the current phase: send, count, exit test, start of the next loop |
| LinkTraining.ReceiveMany | 5.sim/models/pcievhost/ltssm/ltssm.c:184-196 | what a node's counters say about its partner stays true over any batch of receptions |
| LinkTraining.EvaluateKeeps | 5.sim/models/pcievhost/ltssm/ltssm.c:182-359 | an exit test lets a node on only with evidence that its partner has reached the phase before |
| LinkTraining.LinkStep | 5.sim/models/pcievhost/ltssm/ltssm.c:152-365 | one iteration of either node keeps the protocol invariant over both nodes and both channels |
| LinkTraining.Reachable | 5.sim/models/pcievhost/ltssm/ltssm.c:152-365 | so does any interleaving with any delay and batching |
| LinkInit.Control.Configuration | 5.sim/models/pcievhost/ltssm/ltssm.c:249-263 | each test detour is taken exactly if it is forced, or enabled and drawn, and was not taken before in the life of the node; Disabled goes first |
| BurstEngine.Engine.Clock | 5.sim/models/cosim/f_VProc.v:158-301 | one edge of the scheduler process and its VAccess calls |
| BurstEngine.Engine.Schedule | 5.sim/models/cosim/f_VProc.v:197-253 | the end of a command and the start of the next |
| BurstEngine.Engine.Advance | 5.sim/models/cosim/f_VProc.v:255-277 | the step to the next word of a burst |
| BurstEngine.BurstBegins | 5.sim/models/cosim/f_VProc.v:224-249 | the clock in which VSched returns a burst puts its first word on the bus |
| BurstEngine.BurstPlays | 5.sim/models/cosim/f_VProc.v:180-299 | under any stalls, the transfers and VAccess calls so far are those of the next words, once each and in order |
| ByteBursts.CalcWordLen | 5.sim/models/cosim/include/VProcClass.h:101-106 | in 32-bit arithmetic: both offsets, and the number of aligned words touched (for no bytes, 1 at an unaligned address, else 0) |
| ByteBursts.ByteBuffer.BurstWriteBytes | 5.sim/models/cosim/include/VProcClass.h:70-81 | the bytes placed at their lanes in the buffer, and the burst that is asked for |
| ByteBursts.ByteBuffer.ReadOut | 5.sim/models/cosim/include/VProcClass.h:83-90 | the bytes extracted from the words read |
| ByteBursts.StoredAt | 5.sim/models/cosim/f_VProc.v:195-277 | what the transfers of a write burst leave at every byte address |
| BurstRead.ReadPort.Clock | 5.sim/models/cosim/f_mem_model.v:205-284 | one clock, both edges, of the read port |
| BurstRead.PortStep | 5.sim/models/cosim/f_mem_model.v:205-284 | one clock fetches the next address asked for and moves words on unchanged |
| BurstRead.Drains | 5.sim/models/cosim/f_mem_model.v:254-261 | with no further command everything is out after the remaining count and two clocks |
| CacheSpec.HoldsLastMisses | 5.sim/models/rv32/usercode/rv32_cache.cpp:158-181 | a set holds exactly the last `ways` lines that missed, none twice |
| CacheSpec.MissesOncePerLine | 5.sim/models/rv32/usercode/rv32_cache.cpp:158-181 | a set touched by at most `ways` lines misses once per line |
| Rv32Cache.Cache.constructor | 5.sim/models/rv32/usercode/rv32_cache.cpp:42-109 | region boundaries are multiples of the size of a way, the nearest not above what was asked for; all sets empty; nothing is cached if the limit is the top of the address space |
| Rv32Cache.Cache.Invalidate | 5.sim/models/rv32/usercode/rv32_cache.cpp:118-127 | all sets empty |
| Rv32Cache.Cache.Access | 5.sim/models/rv32/usercode/rv32_cache.cpp:137-184 | an uncached address misses and changes nothing; a cached one hits exactly if its line is held, and its set, and no other, takes one step of a FIFO |
| Rv32Cache.WholeLines | 5.sim/models/rv32/usercode/rv32_cache.cpp:86-99 | the cached region is made of whole lines, so all bytes of a line are treated alike |
| Rv32Cache.NeverTwice | 5.sim/models/rv32/usercode/rv32_cache.cpp:158-181 | no reachable set holds a line twice, or more lines than it has ways |
| Rv32Cache.MissesCounted | 5.sim/models/rv32/usercode/rv32_cache.cpp:158-181 | the misses of a set since the last invalidation are those of the miss log |
| Interrupts.Controller.EnableIsr | 5.sim/models/cosim/include/VProcIrqClass.h:140 | enables a line that has a service routine, and no other |
| Interrupts.Controller.DisableIsr | 5.sim/models/cosim/include/VProcIrqClass.h:141 | disables a line that has a service routine, and no other |
| Interrupts.Controller.ClearEdgeTriggered | 5.sim/models/cosim/include/VProcIrqClass.h:156 | clears the active bit of an edge triggered line, and of no other |
| Getopt.Parser.Next | 5.sim/models/rv32/usercode/getopt.c:63-94 | one call: the new scanning position and the option, argument or error returned |
| Getopt.Parser.Letter | 5.sim/models/rv32/usercode/getopt.c:71-93 | the part of a call that takes one letter and its argument |
| Getopt.StepsAreFinite | 5.sim/models/rv32/usercode/getopt.c:63-94 | every call that does not return EOF leaves less to scan |
| OptionRendering.FlagsScanned | 5.sim/models/rv32/usercode/getopt.c:76-80 | plain letters come back one by one, whatever follows them in the word or behind it |
| OptionRendering.ArgScanned | 5.sim/models/rv32/usercode/getopt.c:81-92 | an argument is the rest of the word, else the next word, else an error |

## Assumptions on code that is not part of the model

- The shift-register primitive of the FIFO shifts in at address 0 when enabled and is read at an address.
- VSched and VAccess are inputs of the burst engine: the command returned, and a function from index to word. VBurstWrite
  and VBurstWriteBE are taken to hand the engine the arguments that they are given.
- In link training a reception counter counts since its last reset, GetTS returns the last training set of either kind,
  event type 0 counts logical idle, and link numbers fit in a byte (so that none is the PAD symbol). Channels are FIFOs.
- Training is of one lane: `LinkState` (ltssm.c:683-695) passes `Configuration` a fresh local `active_lanes` of 0, not the
  value that `Polling` found, so the code configures one lane whatever was found; nothing is proved about that.
- The CPU keeps a bus request up, unchanged, until it sees ready.
- Interrupt service routines make no further calls into the class.
| Protocol.FollowsStep | 2.rtl/ip.infra/uart.sv:582-1185 | one clock of the FSM is one clock of the protocol, for every state and input |
| TxBucket.DrainStep | 2.rtl/ip.infra/uart.sv:400-555 | one clock of FIFO and transmitter is one clock of the bucket, exactly |
| TxBucket.TakenBound | 2.rtl/ip.infra/uart.sv:400-555 | in any time the TX FIFO takes no more bytes than fit into it and leave, one a frame |
| RxTiming.LegibleHeard | 2.rtl/ip.infra/uart.sv:254-349 | any legible frame gives exactly its byte at every tick phase, and the FSM listens again at its end |
| TwoClocks.Outputs | 2.rtl/ip.infra/uart.sv:400-523 | from quiet line to quiet line the transmitter puts out exactly one frame for each byte that leaves the FIFO, in order |
| BusFromReset.BusyAfter | 2.rtl/ip.infra/soc_fabric.sv:98-118 | after a session the UART has the bus exactly if it had it before or there was a clock without a CPU request |
| Protocol.RunsOut | 2.rtl/ip.infra/uart.sv:671-1154 | the same of the protocol: whatever is waited for |
| Fabric.MemoryMap | 2.rtl/ip.infra/soc_fabric.sv:56-57 | bits 31 to 28 and 31 to 29 of the byte address select data memory and control registers |
| Fabric.WhatIsReady | 2.rtl/ip.infra/soc_fabric.sv:56-85 | a CPU access that is ready was to one of the two, the UART not having the bus; a control register access returns what the registers give and leaves data memory as it is |
| LinkCounts.OneStep | 5.sim/models/pcievhost/ltssm/ltssm.c:110-363 | one iteration: the counters stay those of the log, and the phase changes exactly if the log says so |
| Rv32Cache.HitIff | 5.sim/models/rv32/usercode/rv32_cache.cpp:131-184 | a hit told from byte addresses and earlier misses |
| Rv32Cache.FirstReadMisses | 5.sim/models/rv32/usercode/rv32_cache.cpp:131-184 | a run within the size of a way: only the first read of a line misses |
| Interrupts.StartsSpelledOut | 5.sim/models/cosim/include/VProcIrqClass.h:161-199 | which line starts, in terms of the four vectors |
| Getopt.UnknownLetter | 5.sim/models/rv32/usercode/getopt.c:72-77 | a letter that the option string does not have, or a colon, is an error and takes nothing else |
| Getopt.KnownLetter | 5.sim/models/rv32/usercode/getopt.c:78-98 | a letter of the option string: whether it takes an argument, and where that comes from |
| Getopt.NewWord | 5.sim/models/rv32/usercode/getopt.c:63-71 | which words end the options, and which of them are taken |

## Left out

- BusSession.UartReadsWord: memories whose size does not divide 2^22 words.
- SerialLink.Lossless: transmitter and receiver run from one clock rate; unequal rates are the subject of TwoClocks.
- TwoClocks.LosslessTwoClocks: a clock that drifts within a run; the moments in the middle of a frame.
- Answers.NoReplyDropped: CPU writes to the TX FIFO outside sessions, and bus reads that do not await the replies before them; both are covered by TxBucket.AllTakenIff.
- TxBucket.AllTakenIff: clock and bit rate of the 80 MHz configuration only.
- ByteBursts.BytesWritten: an address increment other than 4, and a burst longer than the address space.
- BurstEngine.WholeBurst: delta-cycle updates, the interrupt calls, and commands that both read and write. The 12-bit length field is not modelled: the result is for every length, also those of 4096 words and more that cannot be asked for.
- Rv32Cache.Cache.constructor: the parameter combinations for which the program exits are a precondition.
- Rv32Cache.Simulate: starts from region boundaries that are already aligned, which the constructor establishes.
- BurstRead.OneBurst: `rx_stall`, the read queue in front of the port, the slave port and the write burst port, whose idleness is an input.
- LinkTraining.LockStep: the compliance delay, the Disabled and Loopback detours inside a two-node run, more than one lane, Recovery and the low-power states; that training completes at all; the control field of training sets, which the code reads one element beyond its array.
- Interrupts.Controller.ProcessIrq: service routines that re-enter the loop. Bit vectors are modelled by their sets of one bits.
- Getopt.Parser.Next: printing of error messages, and calls after EOF has been returned.
- Ram.SocRam.Clock: the RAM is any non-empty number of words, selected by the address modulo that number.
- Metastability, clock-domain crossing and reset synchronisation; the CPU, the control registers, the older UART copies, the DPI and GDB layers, terminal and file I/O. These add easy or finite claims, or lie outside a clocked model.
