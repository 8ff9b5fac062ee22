# A verified model of the solar water-heater firmware

The firmware runs on two STM32F1 boards. SWH is the base station. It measures
the water heater and boiler with two DS18B20 thermometers, shows the readings on an
SSD1306 OLED (and has an HD44780 character LCD driver). It keeps a
configuration record in a serial EEPROM and switches two circulation pumps. STC is
the collector node, which sends its temperature to the base station over an
nRF24L01+ radio link. Both boards run the same cooperative task table: slots
that fire on a flag set by an interrupt or when a period has passed on the
wrapping microsecond counter.

This project models the logic of that firmware in Dafny and proves what it does:

- **Scheduling** (`ticks.dfy`, `tasks.dfy`, `app.dfy`): the wrap-safe `TIMEOUT`
  comparison, task registration and the scheduling pass, the duty table the
  base station registers, the display cycle and the two-pump hysteresis.
- **Radio** (`nrf24.dfy`, `radio_lib.dfy`, `radio_rx.dfy`, `radio_tx.dfy`): the
  register-level driver as a trace of SPI frames and CE edges, the base
  station's non-blocking receive step, and the collector's bounded
  transmit-and-poll loop with its result classification.
- **Display** (`ssd1306.dfy`, `ssd1306_i2c.dfy`, `hd44780.dfy`): the 1024-byte
  frame buffer (pixels, glyphs, strings, filled circles) and its page-wise
  flush; I2C command/data framing; the HD44780 nibble protocol, checked against
  a model of the controller that latches on EN's falling edge.
- **Buses and devices** (`hw_i2c.dfy`, `sw_i2c.dfy`, `onewire.dfy`,
  `ds1307_i2c.dfy`, `at24c32.dfy`, `eeprom.dfy`, `ds2432.dfy`, `ds1820.dfy`):
  - the bit-banged I2C master, with START/STOP, MSB-first bytes and acknowledges
    as in sections 3.1.4 to 3.1.6 of NXP UM10204;
  - the 1-Wire master, with LSB-first bytes and the standard-speed slots of
    Maxim application note 126;
  - the DS1307 and AT24C32 transaction framers;
  - the XOR-checked EEPROM record, with its round trip;
  - the DS2432 page and row chunking;
  - the three-character temperature text.
- **Debug console** (`usart.dfy`): the power-of-two transmit ring and the
  interrupt steps that drain it and capture received bytes.

Hardware is replaced by scripts. A clock, a status register, a line level or a
bus answer is a function from the number of reads so far to the value read. Each
operation states its effect as an event trace or a new state. The lemmas then
relate that trace to an independent reading of it: what a slave decodes from the
slots, what the radio makes of the frames, or what the controller latches.
`common.dfy` holds the machine integer types and the 32-bit wrap-around
arithmetic.

`SWH/EEPROM/eeprom.c` and `SWH/EEPROM/at24c04.c` define the same functions.
The model follows `eeprom.c` and takes the address as a 32-bit value, as
`at24c04.c` does; the two files do not differ in logic.

## Model

| member | source | states |
|---|---|---|
| `Ticks.Elapsed` | STC/defines.h:34-35 | the unsigned difference `micros - start` is the number of ticks that, added to `start` modulo 2^32, give `now`, whether or not the counter wrapped |
| `Ticks.Timeout` | SWH/defines.h:39-40 | TIMEOUT fires exactly when the wrapped difference reaches `duration`; a zero duration always fires, and at the start reading nothing else does |
| `Ticks.TimeoutAfterTicks` | SWH/defines.h:40 | wrap safety: `k` ticks after any `start`, the timeout fires exactly when `k >= duration`, across the 2^32 wrap |
| `Ticks.TimeoutShiftInvariant` | STC/defines.h:35 | the comparison depends on the two readings only through their difference: shifting both by the same amount changes nothing |
| `Ticks.Min` | SWH/defines.h:48 | MIN is the smaller of its arguments and one of them |
| `Tasks.Raise` | STC/task/task.h:64-69 | the flag cells an interrupt sets become 1, every other cell keeps its value |
| `Tasks.Service` | STC/task/task.h:89-106 | servicing one slot writes no slot other than i, never changes a slot's configuration, and runs at most that slot's callable |
| `Tasks.ServiceEffect` | STC/task/task.h:89-106 | a suspended slot is skipped; a slot that does not fire costs only the reading that decided it; a fired slot runs its callable once, accumulates the time between the readings around the run in RunTimeCnt, and then clears its flag (a signal slot) or stamps TimeCnt with the reading after the run (a timed slot) |
| `Tasks.PassUpTo` | STC/task/task.h:88-108 | a scheduling pass over the first n slots keeps every slot's configuration, leaves the later slots alone, and runs at most n callables |
| `Tasks.ServiceableTransfer` | STC/task/task.h:91 | whether a signal slot's trigger can be dereferenced depends only on fields scheduling never writes |
| `Tasks.PassRunsInOrder` | STC/task/task.h:88-108 | one pass runs callables in registration order, each slot at most once: what it runs is a subsequence of the registered callables |
| `Tasks.PassStepRan` | STC/task/task.h:88-108 | the n-th iteration of a pass runs slot n-1's callable or nothing |
| `Tasks.PassSkipsSuspended` | STC/task/task.h:89 | a slot suspended when the pass starts comes out of the pass unchanged |
| `Tasks.NextIndex` | STC/task/task.h:56-60 | SwitchContents' index steps to the next registered slot and wraps to 0 after the last |
| `Tasks.RoundRobinVisitsAll` | STC/task/task.h:51-60 | k steps of the round robin from index i land on (i + k) modulo the number of tasks, so `count` steps visit every slot once and return |
| `Tasks.AddStatus` | SWH/task/task.c:28-63 | a registration succeeds exactly when a slot is free and the callable is not NULL; a full table is reported before a NULL callable |
| `Tasks.AddKeepsOthers` | SWH/task/task.c:28-63 | a registration either fails and changes nothing, or fills exactly the first free slot with the callable and keeps every other slot |
| `Tasks.TaskTable.constructor` | SWH/task/task.c:20-21 | the static table starts zeroed: every slot empty, no tasks, no flags raised |
| `Tasks.TaskTable.Micros` | SWH/systemTicks.h:14 | a read of `micros` returns the next scripted reading |
| `Tasks.TaskTable.RunTask` | STC/task/task.h:66 | running a callable records it and raises the flag cells scripted for that run |
| `Tasks.TaskTable.InitTasks` | SWH/task/task.c:23-26 | every slot is cleared and the count is 0 |
| `Tasks.TaskTable.AddTaskSignal` | SWH/task/task.c:28-43 | the status code and the new table are exactly AddStatus and the signal registration |
| `Tasks.TaskTable.AddTaskTime` | SWH/task/task.c:45-63 | the status code and the new table are AddStatus and the timed registration stamped with the current reading, which is taken only on success |
| `Tasks.TaskTable.FindTaskPID` | SWH/task/task.c:65-73 | the answer is the lowest registered slot running the callable, and (uint16_t)-1 exactly when no registered slot runs it |
| `Tasks.TaskTable.SetTaskEnabled` | SWH/task/task.c:74-76 | only the slot's suspend bit changes, to !aEnable |
| `Tasks.TaskTable.SetTaskEnabled_Func` | SWH/task/task.c:78-82 | the first slot running the callable is enabled or suspended and nothing else changes |
| `Tasks.TaskTable.TaskManager` | SWH/task/task.c:84-90 | every registered slot moves RunTimeCnt into Percent and restarts RunTimeCnt at 0; unregistered slots are untouched |
| `Tasks.TaskTable.ServiceSlot` | STC/task/task.h:89-106 | the new table, flags, readings and run history are Service of the old ones |
| `Tasks.TaskTable.TasksSchedulerPass` | STC/task/task.h:83-110 | one pass of the scheduler's endless loop leaves exactly the state PassUpTo describes |
| `Tasks.TaskTable.SwitchContents` | STC/task/task.h:51-81 | the index advances as NextIndex and that one slot is serviced as Service |
| `App.DisplayStep` | SWH/main.c:32-41 | UpdateDisplay shows the time while the counter is below 3 and the temperatures otherwise, and the counter goes up by one and wraps to 0 at 6 |
| `App.DisplayCycle` | SWH/main.c:30-41 | from the zeroed counter, call n shows the time for n mod 6 in 0..2 and the temperatures for 3..5 |
| `App.Display.UpdateDisplay` | SWH/main.c:32-41 | the screen shown and the new counter are DisplayStep of the old counter |
| `App.DutyTable` | SWH/main.c:43-57 | the seven duties, each stamped with its own reading of the counter |
| `App.DutyTableShape` | SWH/main.c:46-56 | only PrintTasks and TaskManager start suspended, the console duty is the only signal slot, and no callable is registered twice |
| `App.DutyTableServiceable` | SWH/main.c:46 | the one signal slot points at an existing flag cell, so every scheduling pass over the table is defined |
| `App.DutiesRegistered` | SWH/main.c:43-57 | from a cleared table all seven registrations succeed, fill slots 0..6 with the duty table and leave the rest empty |
| `App.DefineTasks` | SWH/main.c:43-57 | after DefineTasks the table holds exactly the seven duties in order, stamped with six consecutive counter readings, and nothing else; the run history and SwitchContents' index are kept |
| `App.PumpNext` | SWH/mainController.c:23-32 | an idle pump starts when the source is at least 3 above the water heater, a running one stops when it is at most 1 above, and otherwise keeps its state |
| `App.PumpBandHolds` | SWH/mainController.c:24-31 | inside the hysteresis band the pump keeps its state |
| `App.PumpController.WaterPumpController` | SWH/mainController.c:23-43 | both pumps are decided independently by PumpNext, the boiler pump from the boiler temperature and the collector pump from the collector's |
| `App.Display.constructor` | SWH/main.c:30 | the display counter is a zero-initialised global |
| `App.FirstDuties` | SWH/main.c:46-51 | the first four registrations keep the table's size |
| `App.RegisterFirstDuties` | SWH/main.c:46-51 | into a cleared table, the console signal and the three timed duties all succeed, leaving four tasks and three counter readings taken |
| `App.RegisterLastDuties` | SWH/main.c:52-56 | after the first four, the last three timed duties all succeed, leaving seven tasks and three more counter readings taken |
| `App.PumpController.constructor` | SWH/mainController.c:20-21 | both pumps start off |
| `DebugUsart.PowerOfTwoTest` | SWH/Usart/debugUsart.h:18-22 | the header's compile-time test `(SIZE & (SIZE-1)) != 0` rejects exactly the sizes that are not powers of two |
| `DebugUsart.BufferSizesAccepted` | SWH/Usart/debugUsart.h:13-28 | TBUF_SIZE = 256 = 2^8 and RBUF_SIZE = 8 = 2^3 pass both compile-time checks |
| `DebugUsart.MaskIsMod` | STC/Usart/debugUsart.c:72 | masking with 2^k - 1 keeps the low k bits, i.e. it is the remainder modulo 2^k |
| `DebugUsart.Pos` | STC/Usart/debugUsart.c:72 | `in & (TBUF_SIZE - 1)` is the free-running index modulo the buffer size |
| `DebugUsart.Count` | SWH/Usart/debugUsart.h:9-11 | the number waiting is zero exactly when next_in equals next_out, and next_out advanced by it is next_in on the 32-bit indices |
| `DebugUsart.CountModSize` | SWH/Usart/debugUsart.h:11 | the header's reading `(next_in - next_out) % size` agrees with the 32-bit count modulo the size, across index wrap |
| `DebugUsart.Pending` | SWH/Usart/debugUsart.h:9-11 | the characters waiting, oldest first, as many as Count says |
| `DebugUsart.Enqueue` | STC/Usart/debugUsart.c:70-78 | with room left, SendChar appends the character to the waiting characters and the count grows by one |
| `DebugUsart.EnqueueWhenFull` | STC/Usart/debugUsart.c:70-78 | there is no full check: with 256 characters waiting, SendChar overwrites the oldest unsent one, which is the next to leave |
| `DebugUsart.Dequeue` | STC/Usart/usart.c:247-250 | a TX step with characters waiting sends the oldest one, and the rest stay waiting in order |
| `DebugUsart.DataRegisterLowByte` | STC/Usart/usart.c:218-219 | keeping the 9 data bits and storing them in a char keeps the low byte of the data register |
| `DebugUsart.DebugPort.InitDebugUsart` | STC/Usart/debugUsart.c:52-64 | both buffers and their indices are zeroed, Empty is set, nothing waits and no message is pending |
| `DebugUsart.DebugPort.SendChar` | STC/Usart/debugUsart.c:70-78 | the character is stored at `in & 255`, `in` advances with 32-bit wrap, Empty is cleared and the TX interrupt enabled; with room it is appended to the queue, when full it replaces the next to leave |
| `DebugUsart.DebugPort.Send_N_Chars` | STC/Usart/debugUsart.c:80-86 | the characters are appended to the queue in order |
| `DebugUsart.DebugPort.TxStep` | STC/Usart/usart.c:245-256 | with characters waiting the oldest goes to the data register, its cell is zeroed and `out` advances; otherwise the TX interrupt is disabled and Empty set |
| `DebugUsart.DebugPort.RxStep` | STC/Usart/usart.c:217-220 | LastChar becomes the low byte of the data register and the message flag is raised |
| `DebugUsart.DebugPort.IrqHandler` | STC/Usart/usart.c:215-257 | a receive event updates LastChar and the flag; a receive event updates LastChar and the flag and nothing else; a transmit event sends the oldest waiting character, zeroes its cell and advances `out`, so that the characters still waiting are the old ones minus the first (FIFO order across calls), or, with none waiting, disables the TXE interrupt and sets Empty; without a transmit event the transmit state is kept; the receive ring, its indices and the transmit `in` are never touched |
| `DebugUsart.DebugPort.IsUsartTxBufferEmpty` | STC/Usart/debugUsart.c:116-118 | returns the Empty flag |
| `DebugUsart.DebugPort.CheckConsoleRx` | STC/Usart/debugUsart.c:104-114 | '?' lists the commands and every other key is reported as a wrong key |
| `Nrf24Driver.DecodeRegisterCommands` | SWH/nRF24/nrf24.c:274-295 | the register commands the driver builds, `W_REGISTER \| (REGISTER_MASK & addr)` and `R_REGISTER \| (REGISTER_MASK & addr)`, are read by the radio as a write or read of register `addr` modulo 32 carrying exactly the data or dummy bytes that follow |
| `Nrf24Driver.DecodeOtherCommands` | SWH/nRF24/nrf24.c:119-189 | the payload, flush, payload-width and NOP frames the driver sends are read by the radio as the command the driver means |
| `Nrf24Driver.LastMessage` | SWH/nRF24/nrf24.c:213-231 | the three outcomes partition the STATUS bytes: OK exactly when TX_DS is set, LOST exactly when MAX_RT alone of the two is set, still sending exactly when neither is |
| `Nrf24Driver.Sending` | SWH/nRF24/nrf24.c:191-203 | "still sending" holds exactly when LastMessageStatus would report neither delivery nor loss |
| `Nrf24Driver.PrecedenceDiffers` | SWH/nRF24/nrf24.c:219-225 | with both TX_DS and MAX_RT set the base station's driver reports delivery while the collector's transmit routine reports MAXRT |
| `Nrf24Driver.Retransmissions` | SWH/nRF24/nrf24.c:147-152 | the retransmission count never exceeds 15, the ARC maximum |
| `Nrf24Driver.RetransmissionsIsArcCnt` | SWH/nRF24/nrf24.c:150 | masking OBSERVE_TX with 0x0F yields the ARC_CNT field whatever PLOS_CNT holds |
| `Nrf24Driver.DataReadyFrom` | SWH/nRF24/nrf24.c:96-107 | data is ready exactly when RX_DR is set or the RX FIFO is not empty |
| `Nrf24Driver.Driver.constructor` | SWH/nRF24/nrf24.c:7 | the driver starts with no bus activity and a payload size of 0 |
| `Nrf24Driver.Driver.SpiTransfer` | SWH/nRF24/nrf24.c:260 | one transfer clocks the given byte out and returns the radio's next answer |
| `Nrf24Driver.Driver.ReceiveBuffer` | SWH/nRF24/nrf24.c:256-262 | `len` dummy bytes 0xFF are clocked out and the radio's `len` answers land in order in the front of the buffer; the rest of the buffer is untouched |
| `Nrf24Driver.Driver.TransmitBuffer` | SWH/nRF24/nrf24.c:265-271 | exactly the first `len` bytes of the buffer go out, in order |
| `Nrf24Driver.Driver.ConfigRegister` | SWH/nRF24/nrf24.c:274-279 | one chip-select frame holding the register write command and the value |
| `Nrf24Driver.Driver.ReadRegister` | SWH/nRF24/nrf24.c:282-287 | one frame with the read command and `len` dummies; the buffer's front receives the answers to the dummies, not the status byte answered to the command |
| `Nrf24Driver.Driver.WriteRegister` | SWH/nRF24/nrf24.c:290-295 | one frame with the write command followed by the first `len` bytes of the data |
| `Nrf24Driver.Driver.Check` | SWH/nRF24/nrf24.c:57-73 | the test address is written to TX_ADDR and read back, and the result is 1 exactly when all five read-back bytes equal the test bytes, 0 otherwise |
| `Nrf24Driver.Driver.GetStatus` | SWH/nRF24/nrf24.c:205-211 | a single-NOP frame whose answer is the value returned |
| `Nrf24Driver.Driver.IsSending` | SWH/nRF24/nrf24.c:191-203 | the result is `Sending` of the STATUS byte the NOP frame returns |
| `Nrf24Driver.Driver.LastMessageStatus` | SWH/nRF24/nrf24.c:213-231 | the result is `LastMessage` of the STATUS byte the NOP frame returns |
| `Nrf24Driver.Driver.RxFifoEmpty` | SWH/nRF24/nrf24.c:110-116 | FIFO_STATUS is read in one frame and the result is its RX_EMPTY bit |
| `Nrf24Driver.Driver.DataReady` | SWH/nRF24/nrf24.c:96-107 | with RX_DR set the routine answers true after the status frame alone; otherwise it also reads FIFO_STATUS and answers `DataReadyFrom` of the two bytes |
| `Nrf24Driver.Driver.RetransmissionCount` | SWH/nRF24/nrf24.c:147-152 | OBSERVE_TX is read in one frame and the result is its ARC_CNT field |
| `Nrf24Driver.Driver.PowerUpRx` | SWH/nRF24/nrf24.c:233-243 | the RX FIFO is flushed, all three IRQ flags cleared, then with CE low CONFIG gets PWR_UP and PRIM_RX, and CE goes high |
| `Nrf24Driver.Driver.PowerUpTx` | SWH/nRF24/nrf24.c:245-248 | the IRQ flags are cleared, then CONFIG gets PWR_UP with PRIM_RX clear |
| `Nrf24Driver.Driver.PowerDown` | SWH/nRF24/nrf24.c:250-253 | CE low, then CONFIG without PWR_UP |
| `Nrf24Driver.Driver.Send` | SWH/nRF24/nrf24.c:156-189 | standby, power up for transmit, flush the TX FIFO, write exactly PayloadSize payload bytes in one frame, then CE high to start the transmission |
| `Nrf24Driver.Driver.GetData` | SWH/nRF24/nrf24.c:129-144 | PayloadSize answers land in order in the receive buffer (the rest untouched), then RX_DR alone is written to STATUS to clear it |
| `Nrf24Driver.Driver.TxPayloadLength` | SWH/nRF24/nrf24.c:83-85 | the length is the payload size stored by the last configuration |
| `Nrf24Driver.Driver.Config` | SWH/nRF24/nrf24.c:10-51 | the payload size is stored, the thirteen configuration registers are written in the source's order with its values (only pipe 1 carries the payload, 1 Mbps at 0 dBm, CRC on, auto-acknowledge and addresses on pipes 0 and 1, 15 retransmissions 1000 us apart, no dynamic payloads), and the radio ends listening |
| `SwhRadio.SignedView` | SWH/defines.h:9-12 | the temperature read through the signed union is congruent modulo 2^16 to the two bytes read low byte first |
| `SwhRadio.UnsignedView` | SWH/defines.h:14-17 | the unsigned union's value has the first byte as low byte and the second as high byte |
| `SwhRadio.TwoBytes` | SWH/defines.h:9-12 | the two bytes of an int16_t spell it in two's complement, low byte first |
| `SwhRadio.SignedViewRoundTrip` | SWH/nRF24/nrf24_mid_level.c:165-166 | a temperature whose two bytes are stored in m_tCollector is read back unchanged by the pump controller, and no other byte pair reads as that temperature |
| `SwhRadio.ViewsAgree` | SWH/nRF24/nrf24_mid_level.c:29 | storing through the unsigned union and reading through the signed declaration agree exactly when the high byte is below 0x80 |
| `SwhRadio.InitializeRXCalls` | SWH/nRF24/nrf24_mid_level.c:31-72 | the enabled receiver set-up makes eleven library calls and ends by raising CE |
| `SwhRadio.Receiver.RxFifoStatus` | SWH/nRF24/nrf24_mid_level.c:156 | each FIFO status read returns the next scripted emptiness |
| `SwhRadio.Receiver.ReadPayloadInto` | SWH/nRF24/nrf24_mid_level.c:163 | the next payload is copied to the front of the 32-byte buffer and its length returned |
| `SwhRadio.Receiver.Receive` | SWH/nRF24/nrf24_mid_level.c:152-176 | with the RX FIFO empty only the status is read and the stored temperature is kept; otherwise one payload is read, its first two bytes become m_tCollector's bytes, and the IRQ flags are cleared |
| `SwhRadio.Receiver.InitializeRX` | SWH/nRF24/nrf24_mid_level.c:31-72 | the receiver set-up calls are made in the source's order |
| `SwhRadio.Receiver.Initialize` | SWH/nRF24/nrf24_mid_level.c:117-144 | start-up halts exactly when the driver's self-test reads back different bytes; then no library initialisation follows, otherwise the library is initialised and the receiver set up |
| `StcRadio.FirstFlag` | STC/nRF24/nrf24_mid_level.c:56-61 | the offset found is the first status read showing TX_DS or MAX_RT, and none is found exactly when no read in the window shows one |
| `StcRadio.Classify` | STC/nRF24/nrf24_mid_level.c:77-90 | MAXRT exactly when MAX_RT is set, SUCCESS exactly when TX_DS is set without MAX_RT, ERROR exactly when neither flag is set |
| `StcRadio.AsWrittenOutcome` | STC/nRF24/nrf24_mid_level.c:56-90 | what the poll loop leaves (the number of polls, the last status, the budget counter) determines the send: TIMEOUT when the counter is 0, otherwise the classification of the last status |
| `StcRadio.IntendedOutcome` | STC/nRF24/nrf24_mid_level.c:56-90 | the same for the corrected loop: TIMEOUT exactly when the last status shows no flag |
| `StcRadio.PollBound` | STC/nRF24/nrf24_mid_level.c:40-61 | the status is read at least once and at most WAIT_TIMEOUT + 1 times, and polling stops at the first read showing a flag |
| `StcRadio.CeSequence` | STC/nRF24/nrf24_mid_level.c:43-64 | CE goes low before the payload is written and high right after it; the status reads follow, then CE low, and nothing later touches CE |
| `StcRadio.TimeoutIff` | STC/nRF24/nrf24_mid_level.c:56-69 | as written, TIMEOUT is returned exactly when the first flag shows on the last permitted poll, and that path leaves the IRQ flags uncleared |
| `StcRadio.ErrorIff` | STC/nRF24/nrf24_mid_level.c:56-90 | as written, ERROR is returned exactly when no poll shows a flag, and the send then ends CE low, clear IRQ flags, flush TX |
| `StcRadio.ClearOnceOffTimeout` | STC/nRF24/nrf24_mid_level.c:63-90 | off the timeout path the IRQ flags are cleared exactly once, and the TX FIFO is flushed exactly on the ERROR path |
| `StcRadio.MaxRtPrecedence` | STC/nRF24/nrf24_mid_level.c:77-85 | a final status with MAX_RT set is reported as MAXRT even when TX_DS is set too |
| `StcRadio.IntendedTimeoutIff` | STC/nRF24/nrf24_mid_level.c:56-69 | with the corrected exit test, TIMEOUT is returned exactly when no poll shows a flag, ERROR never, and MAXRT exactly when the first flagged status has MAX_RT; on every outcome the IRQ flags are cleared exactly once and the TX FIFO is not flushed |
| `StcRadio.IntendedCallsClearOnce` | STC/nRF24/nrf24_mid_level.c:63-90 | a corrected send's calls hold exactly one IRQ clear and no flush for any outcome other than ERROR |
| `StcRadio.WrittenVersusIntended` | STC/nRF24/nrf24_mid_level.c:56-69 | a transceiver that never raises a flag gives ERROR as written and TIMEOUT as intended; one whose TX_DS first shows on the last poll gives TIMEOUT as written and SUCCESS as intended |
| `StcRadio.Wrapped` | STC/nRF24/nrf24_mid_level.c:169-170 | the counter after `d` increments with the reset above 0xFF is the start value plus `d` modulo 256 |
| `StcRadio.CounterPayload` | STC/nRF24/nrf24_mid_level.c:167-171 | the payload is five bytes long |
| `StcRadio.CounterContinues` | STC/nRF24/nrf24_mid_level.c:160-171 | the payload starts at the counter, each byte is one more than the previous (255 wraps to 0), and the next payload continues where this one stopped |
| `StcRadio.InitializeTXCalls` | STC/nRF24/nrf24_mid_level.c:93-133 | the transmitter set-up makes ten library calls |
| `StcRadio.Transmitter.ReadStatus` | STC/nRF24/nrf24_mid_level.c:57 | each status read returns the next scripted STATUS byte |
| `StcRadio.Transmitter.PollAsWritten` | STC/nRF24/nrf24_mid_level.c:56-61 | the loop as written stops at the first flagged status with the counter at budget minus the polls before it, or after budget + 1 quiet polls with the counter wrapped to 0xFFFFFFFF |
| `StcRadio.Transmitter.TransmitPacket` | STC/nRF24/nrf24_mid_level.c:39-91 | the result, the library calls and the number of status reads are those of `TransmitRun` for the source's budget, whose properties the lemmas above state |
| `StcRadio.Transmitter.TransmitPacketWith` | STC/nRF24/nrf24_mid_level.c:39-91 | the same for any starting budget |
| `StcRadio.Transmitter.Conclude` | STC/nRF24/nrf24_mid_level.c:63-90 | after polling: CE low, then TIMEOUT when the counter is 0, otherwise clear the IRQ flags and classify, flushing the TX FIFO on ERROR |
| `StcRadio.Transmitter.PollIntended` | STC/nRF24/nrf24_mid_level.c:56-61 | the corrected loop stops at the first flagged status or after budget + 1 quiet polls |
| `StcRadio.Transmitter.TransmitPacketIntended` | STC/nRF24/nrf24_mid_level.c:39-91 | the corrected send's result, calls and reads are those of `TransmitRunIntended` |
| `StcRadio.Transmitter.ConcludeIntended` | STC/nRF24/nrf24_mid_level.c:63-90 | the corrected conclusion drops CE and clears the IRQ flags on every outcome, then reports TIMEOUT exactly when the last status shows no flag, otherwise its classification |
| `StcRadio.Transmitter.InitializeTX` | STC/nRF24/nrf24_mid_level.c:93-133 | the transmitter set-up calls are made in the source's order |
| `StcRadio.Transmitter.Initialize` | STC/nRF24/nrf24_mid_level.c:135-158 | start-up halts exactly when the library self-test fails, before the library initialisation and the transmitter set-up |
| `StcRadio.Transmitter.Transmit` | STC/nRF24/nrf24_mid_level.c:162-197 | the payload is `CounterPayload` of the counter, the counter advances by five modulo 256, and the packet is sent through the corrected poll loop of `TransmitPacketIntended` |
| `SwhRadio.Receiver.constructor` | SWH/nRF24/nrf24_mid_level.c:29 | m_tCollector is a zero-initialised global and nothing has been asked of the radio yet |
| `Ssd1306.Index` | SWH/Lcd/ssd1306.c:153 | every on-screen pixel maps to a byte inside the 1024-byte buffer |
| `Ssd1306.MaskTable` | SWH/Lcd/ssd1306.c:153-155 | `1 << (y % 8)` is the single-bit mask of bit y%8 for each of the eight rows of a page |
| `Ssd1306.SetBitOwn` | SWH/Lcd/ssd1306.c:152-156 | OR-ing the mask sets the pixel's bit and AND-ing its complement clears it |
| `Ssd1306.SetBitOther` | SWH/Lcd/ssd1306.c:152-156 | both operations keep the other seven pixels of the byte |
| `Ssd1306.PlotBytes` | SWH/Lcd/ssd1306.c:140-157 | an off-screen plot leaves the buffer unchanged; an on-screen plot changes only bit y%8 of byte x + (y/8)*128 |
| `Ssd1306.PlotPixel` | SWH/Lcd/ssd1306.c:140-157 | plotting a point gives that pixel the value drawn and keeps every other pixel |
| `Ssd1306.Filled` | SWH/Lcd/ssd1306.c:116-123 | every byte is 0x00 for Black and 0xFF for any other colour |
| `Ssd1306.FilledPixels` | SWH/Lcd/ssd1306.c:116-123 | after a fill every pixel is on exactly when the colour is White; the inversion flag plays no part |
| `Ssd1306.GlyphBase` | SWH/Lcd/ssd1306.c:175 | the glyph rows of a character start (ch - 32) * FontHeight entries into the table, so the space glyph starts at 0 |
| `Ssd1306.Bitmap` | SWH/Lcd/ssd1306.c:174-175 | a glyph has FontHeight rows |
| `Ssd1306.GlyphStep` | SWH/Lcd/ssd1306.c:174-185 | drawing one more glyph row is that row drawn over the rows already drawn |
| `Ssd1306.GlyphRowPixel` | SWH/Lcd/ssd1306.c:176-184 | after the first j columns of a glyph row, a pixel in those columns of that row shows the ink its font bit selects and every other pixel is kept |
| `Ssd1306.GlyphPixelUpTo` | SWH/Lcd/ssd1306.c:174-185 | after the first i rows, each pixel of those rows inside the cell shows its font bit's ink and every other pixel is kept |
| `Ssd1306.GlyphPixel` | SWH/Lcd/ssd1306.c:163-192 | a written glyph occupies exactly its cell: pixel (x+j, y+i) shows the colour when bit 15-j of row i is set and the opposite colour otherwise, and every pixel outside the cell is kept |
| `Ssd1306.TextStops` | SWH/Lcd/ssd1306.c:195-209 | writing a string never moves the cursor left, and a string cut short stops at one of its own characters whose cell does not fit |
| `Ssd1306.TextStep` | SWH/Lcd/ssd1306.c:197-205 | each character is either drawn, with the cursor moved right by the glyph width and the rest of the string following, or ends the write unchanged when its cell does not fit |
| `Ssd1306.U8` | SWH/Lcd/ssd1306.c:248 | the uint8_t coordinate passed to ssd1306_DrawPixel is the int coordinate modulo 256 |
| `Ssd1306.CircleRowPixel` | SWH/Lcd/ssd1306.c:246-250 | after one row of the circle loop a pixel is painted exactly when some point of that row inside the circle lands on it, and is kept otherwise |
| `Ssd1306.CircleRowsPixel` | SWH/Lcd/ssd1306.c:245-251 | the same for the rows drawn so far |
| `Ssd1306.FillCirclePixels` | SWH/Lcd/ssd1306.c:244-252 | ssd1306_FillCircle paints exactly the pixels some point with x*x + y*y <= r*r lands on after the uint8_t conversion; every other pixel is kept |
| `Ssd1306.PageFrame` | SWH/Lcd/ssd1306.c:129-132 | one page of the flush is 147 bus events: three command transactions and a 128-byte data transaction |
| `Ssd1306.Pages` | SWH/Lcd/ssd1306.c:128-133 | n pages make 147 * n events |
| `Ssd1306.PageLayout` | SWH/Lcd/ssd1306.c:126-134 | page i of the flush sits at events [147i, 147i+147): page address 0xB0 + i, column 0 as 0x00 and 0x10, then buffer bytes [128i, 128i+128) |
| `Ssd1306.Display.constructor` | SWH/Lcd/ssd1306.c:22-26 | the static buffer and screen object start zeroed: cursor at (0, 0), not inverted, not initialised |
| `Ssd1306.Display.Fill` | SWH/Lcd/ssd1306.c:116-123 | the buffer becomes `Filled(color)` |
| `Ssd1306.Display.DrawPixel` | SWH/Lcd/ssd1306.c:140-157 | the buffer becomes `Plot` of the old buffer with the colour flipped when the screen is inverted |
| `Ssd1306.Display.SetCursor` | SWH/Lcd/ssd1306.c:212-215 | the cursor becomes (x, y) |
| `Ssd1306.Display.WriteChar` | SWH/Lcd/ssd1306.c:163-192 | a character whose cell reaches column 128 or row 64 is refused with 0 and changes nothing; otherwise its glyph is drawn at the cursor, the cursor moves right by the glyph width and the character is returned |
| `Ssd1306.Display.DrawGlyph` | SWH/Lcd/ssd1306.c:174-185 | the outer loop draws the FontHeight glyph rows top to bottom |
| `Ssd1306.Display.DrawGlyphRow` | SWH/Lcd/ssd1306.c:176-184 | the inner loop draws the row's FontWidth columns left to right |
| `Ssd1306.Display.WriteString` | SWH/Lcd/ssd1306.c:195-209 | the buffer, the cursor and the result are those of `Text`: NUL when the whole string was written, else the first character refused |
| `Ssd1306.Display.WriteNext` | SWH/Lcd/ssd1306.c:198-204 | one loop pass: a refused character ends the text, a written one continues it from the next index |
| `Ssd1306.Display.FillCircle` | SWH/Lcd/ssd1306.c:244-252 | the buffer becomes the circle rows -r..r drawn in White, which `FillCirclePixels` characterises |
| `Ssd1306.Display.FillCircleRow` | SWH/Lcd/ssd1306.c:246-250 | the inner loop draws row y's points -r..r left to right |
| `Ssd1306.Display.UpdateScreen` | SWH/Lcd/ssd1306.c:126-134 | the bus carries `Pages` of the buffer for all eight pages, in order |
| `Ssd1306.Display.SendPage` | SWH/Lcd/ssd1306.c:129-132 | one loop pass appends `PageFrame` of page i |
| `Ssd1306I2c.CommandTransaction` | SWH/Lcd/ssd1306_i2c.c:50-57 | a command transaction is five events long |
| `Ssd1306I2c.DataTransaction` | SWH/Lcd/ssd1306_i2c.c:60-70 | a data transaction is four events longer than its data |
| `Ssd1306I2c.ReceiveFramed` | SWH/Lcd/ssd1306_i2c.c:50-70 | the controller, at 7-bit address 0x3C, reads a command transaction as that one command and a data transaction as exactly its data bytes |
| `Ssd1306I2c.WriteCommand` | SWH/Lcd/ssd1306_i2c.c:50-57 | the bus carries `CommandTransaction(b)` |
| `Ssd1306I2c.WriteData` | SWH/Lcd/ssd1306_i2c.c:60-70 | the bus carries `DataTransaction` of the `size` bytes of the buffer from the start index, in order |
| `Hd44780.DataValue` | SWH/Lcd/hd44780.c:25-28 | the value on D7..D4 is a nibble |
| `Hd44780.Received` | SWH/Lcd/hd44780.c:78-87 | the controller in 4-bit mode makes one byte of every two latched nibbles |
| `Hd44780.NibblesOf` | SWH/Lcd/hd44780.c:85-86 | writing n bytes latches 2n nibbles |
| `Hd44780.NibbleJoin` | SWH/Lcd/hd44780.c:85-86 | `byte >> 4` and `byte & 0x0F`, joined high nibble first, give the byte back |
| `Hd44780.NibblesRoundTrip` | SWH/Lcd/hd44780.c:78-87 | splitting bytes into nibbles as lcdWrite does and pairing them as the controller does gives every byte back, in order, in the register lcdWrite selected |
| `Hd44780.PairReceived` | SWH/Lcd/hd44780.c:85-86 | one byte's high and low nibble are received as that byte |
| `Hd44780.NibbleTrace` | SWH/Lcd/hd44780.c:52-71 | lcdNibble is four data-pin writes and the eight-event strobe |
| `Hd44780.CString` | SWH/Lcd/hd44780.c:175-177 | the bytes written are a NUL-free prefix of the string, ending right before its first NUL |
| `Hd44780.CStringAt` | SWH/Lcd/hd44780.c:175-177 | the loop stops at the first NUL and nowhere else |
| `Hd44780.PositionAddress` | SWH/Lcd/hd44780.c:136-152 | for rows 1..4 and columns 1..20 the position command is a Set DDRAM Address instruction for that cell of a 20x4 module, and distinct cells get distinct commands |
| `Hd44780.InitInstructions` | SWH/Lcd/hd44780.c:104-121 | initLCD's single nibbles are read in 8-bit mode as three 8-bit function sets and a switch to 4 bits, and its commands as two lines of 5x8 dots, display on without cursor or blink, clear, left-to-right entry without shift, clear |
| `Hd44780.RunStrobe` | SWH/Lcd/hd44780.c:41-46 | one strobe with EN low latches D7..D4 and RS once and leaves the output register as it was |
| `Hd44780.RunNibble` | SWH/Lcd/hd44780.c:52-71 | lcdNibble latches exactly the low four bits of its argument, with the current RS, and keeps RS and EN |
| `Hd44780.RunWrite` | SWH/Lcd/hd44780.c:78-87 | lcdWrite latches the byte's two nibbles with RS low for a command and high for data, and leaves EN low |
| `Hd44780.RunWrites` | SWH/Lcd/hd44780.c:175-177 | consecutive lcdWrite calls latch the nibbles of every byte in order |
| `Hd44780.CommandThenString` | SWH/Lcd/hd44780.c:174-177 | a command followed by a string's characters is received as that command and then each character as data |
| `Hd44780.PrintReceived` | SWH/Lcd/hd44780.c:156-178 | lcdPrint is received as one Set DDRAM Address for the cell, then every character before the NUL as data |
| `Hd44780.CustomCharReceived` | SWH/Lcd/hd44780.c:199-204 | CreateCustomChar is received as Set CGRAM Address 0, then the pattern bytes before the first zero as data |
| `Hd44780.CharReceived` | SWH/Lcd/hd44780.c:134-154 | lcdChar is received as the position command and then the one character as data |
| `Hd44780.CommandThenByte` | SWH/Lcd/hd44780.c:152-153 | a command write then a data write are received as those two transfers |
| `Hd44780.RunPortReset` | SWH/Lcd/hd44780.c:95-101 | resetting every LCD pin latches nothing and leaves RS and EN low |
| `Hd44780.RunMode` | SWH/Lcd/hd44780.c:104-111 | the four single nibbles are latched as the function-set nibbles with RS low |
| `Hd44780.RunDisplaySetup` | SWH/Lcd/hd44780.c:113-118 | function set, display control and clear are latched as their nibbles |
| `Hd44780.RunEntrySetup` | SWH/Lcd/hd44780.c:119-123 | entry mode and clear are latched as their nibbles; raising RS at the end latches nothing |
| `Hd44780.RunBeforeCommands` | SWH/Lcd/hd44780.c:95-111 | the resets and single nibbles latch the function sets and leave RS and EN low |
| `Hd44780.InitReceived` | SWH/Lcd/hd44780.c:89-124 | the whole pin trace of initLCD latches exactly the initialisation nibbles that `InitInstructions` decodes |
| `Hd44780.Lcd.constructor` | SWH/Lcd/hd44780.c:20 | the port starts with no writes issued |
| `Hd44780.Lcd.SetPins` | SWH/Lcd/hd44780.c:42 | a GPIO_SetBits or GPIO_ResetBits on the LCD port is one pin event |
| `Hd44780.Lcd.Wait` | SWH/Lcd/hd44780.c:43 | a busy-wait is one delay event |
| `Hd44780.Lcd.StrobeEN` | SWH/Lcd/hd44780.c:41-46 | EN high, 100 us, EN low, 100 us |
| `Hd44780.Lcd.WriteNibble` | SWH/Lcd/hd44780.c:52-71 | D7, D6, D5, D4 set from bits 3..0 in that order, then a strobe |
| `Hd44780.Lcd.Write` | SWH/Lcd/hd44780.c:78-87 | EN low, RS low for a command or high for data, then the high and the low nibble |
| `Hd44780.Lcd.Clear` | SWH/Lcd/hd44780.c:129-132 | the clear command, then 2 ms |
| `Hd44780.Lcd.WriteUntilNul` | SWH/Lcd/hd44780.c:175-177 | every byte before the first NUL is written as data, in order |
| `Hd44780.Lcd.Char` | SWH/Lcd/hd44780.c:134-154 | the position command for the row and column, then the character |
| `Hd44780.Lcd.Print` | SWH/Lcd/hd44780.c:156-178 | the position command, then the string up to its NUL |
| `Hd44780.Lcd.CreateCustomChar` | SWH/Lcd/hd44780.c:199-204 | command 0x40, then the pattern bytes up to the first zero |
| `Hd44780.Lcd.ResetPort` | SWH/Lcd/hd44780.c:95-101 | the pin resets around the port set-up and the 40 ms wait |
| `Hd44780.Lcd.EnterFourBitMode` | SWH/Lcd/hd44780.c:104-111 | the four single nibbles with their 5 ms waits |
| `Hd44780.Lcd.SetUpDisplay` | SWH/Lcd/hd44780.c:113-118 | function set 0x28, display control 0x0C, and the first clear, with the source's waits |
| `Hd44780.Lcd.SetUpEntry` | SWH/Lcd/hd44780.c:119-123 | entry mode 0x06, the second clear, and RS left high |
| `Hd44780.Lcd.Init` | SWH/Lcd/hd44780.c:89-124 | the whole initLCD pin trace, which `InitReceived` and `InitInstructions` read as the intended set-up |
| `HwI2c.AddressByte` | SWH/i2c/i2c.c:57-59 | the address byte keeps the caller's bits 7..1, with bit 0 set exactly for a read |
| `HwI2c.AddressRoundTrip` | SWH/i2c/i2c.c:57-59 | a 7-bit address shifted into place is read back by the slave unchanged, with the direction the caller asked for |
| `HwI2c.Transaction` | SWH/RTC/ds1307_i2c.c:57-62 | a transaction starts with START and the address byte for the given direction and ends with STOP |
| `HwI2c.Acked` | SWH/RTC/ds1307_i2c.c:185 | every byte of an acknowledged run is received with ACK |
| `HwI2c.Receives` | SWH/RTC/ds1307_i2c.c:181-187 | a multi-byte read acknowledges every byte but the last, which gets a NACK |
| `HwI2c.Bus.constructor` | SWH/i2c/i2c.c:21-126 | a fresh bus has seen nothing and received nothing |
| `HwI2c.Bus.StartCondition` | SWH/i2c/i2c.c:21-34 | i2c_start puts one START on the bus |
| `HwI2c.Bus.StopCondition` | SWH/i2c/i2c.c:43-46 | i2c_stop puts one STOP on the bus |
| `HwI2c.Bus.AddressDirection` | SWH/i2c/i2c.c:57-70 | i2c_address_direction puts the address byte for the direction on the bus |
| `HwI2c.Bus.Transmit` | SWH/i2c/i2c.c:80-88 | i2c_transmit puts the byte on the bus |
| `HwI2c.Bus.ReceiveByte` | SWH/i2c/i2c.c:97-126 | i2c_receive_ack and i2c_receive_nack return the slave's next byte and answer it with ACK or NACK |
| `Ds1307I2c.WireAddress` | SWH/RTC/ds1307_i2c.c:59 | `address << 1` keeps the low seven bits of the address on the wire, and bit 0 carries the direction |
| `Ds1307I2c.WriteNoReg` | SWH/RTC/ds1307_i2c.c:57-62 | one write transaction holding the one data byte |
| `Ds1307I2c.WriteWithReg` | SWH/RTC/ds1307_i2c.c:74-80 | one write transaction holding the register number and then the data byte |
| `Ds1307I2c.TransmitAll` | SWH/RTC/ds1307_i2c.c:98-100 | the loop transmits the first `len` bytes of the array, in order |
| `Ds1307I2c.WriteMultiNoReg` | SWH/RTC/ds1307_i2c.c:93-102 | one write transaction holding the first `len` bytes, in order |
| `Ds1307I2c.WriteMultiWithReg` | SWH/RTC/ds1307_i2c.c:116-127 | one write transaction holding the register number, then the first `len` bytes |
| `Ds1307I2c.SelectRegister` | SWH/RTC/ds1307_i2c.c:156-159 | the write transaction that selects a register before a read: the register number alone, then STOP |
| `Ds1307I2c.ReadNoReg` | SWH/RTC/ds1307_i2c.c:138-143 | one read transaction; the result is the slave's next byte, answered with a NACK |
| `Ds1307I2c.ReadWithReg` | SWH/RTC/ds1307_i2c.c:155-164 | the register is selected in its own transaction, then one byte is read in a second |
| `Ds1307I2c.ReceiveAll` | SWH/RTC/ds1307_i2c.c:181-187 | the first `len` array cells receive the slave's next `len` bytes, all acknowledged but the last; the other cells keep their values |
| `Ds1307I2c.ReadMultiNoReg` | SWH/RTC/ds1307_i2c.c:176-189 | one read transaction carrying `len` received bytes (none for len 0), stored in order |
| `Ds1307I2c.ReadMultiWithReg` | SWH/RTC/ds1307_i2c.c:202-220 | the register is selected in its own transaction, then `len` bytes are read in a second |
| `SwI2c.ShiftInSample` | SWH/i2c/sw_i2c.c:153-154 | byte_in's step leaves the previous bits shifted up one place with the sampled level in bit 0 |
| `SwI2c.AckValue` | SWH/i2c/sw_i2c.c:134-136 | the acknowledge byte_out returns is 1 when SDA was high and 0 when it was low |
| `SwI2c.Bits` | SWH/i2c/sw_i2c.c:124-132 | a byte goes out as eight bits |
| `SwI2c.TopBit` | SWH/i2c/sw_i2c.c:125-131 | bit 7 of the data after i left shifts is the i-th bit of the byte, most significant first |
| `SwI2c.MsbRoundTrip` | SWH/i2c/sw_i2c.c:117-159 | eight bits sent most significant first and assembled by byte_in's shifting give the byte back |
| `SwI2c.RunStart` | SWH/i2c/sw_i2c.c:36-48 | bstart shows a START (SDA falling while SCL is high) and leaves both lines low; from an idle bus that is all a slave sees |
| `SwI2c.RunStop` | SWH/i2c/sw_i2c.c:56-64 | bstop shows one clock with SDA low, then a STOP (SDA rising while SCL is high), and leaves the bus idle |
| `SwI2c.RunBitOut` | SWH/i2c/sw_i2c.c:73-85 | bit_out shows exactly one clocked bit, the one it was given, and leaves SCL low |
| `SwI2c.RunBitIn` | SWH/i2c/sw_i2c.c:94-108 | bit_in releases SDA before the clock, so a slave sees no bit of the master's, only the sample; SCL is left low |
| `SwI2c.RunBitOuts` | SWH/i2c/sw_i2c.c:124-132 | a run of bit_out calls shows exactly those bits, in order |
| `SwI2c.RunBitIns` | SWH/i2c/sw_i2c.c:151-155 | a run of bit_in calls shows exactly those samples, in order |
| `SwI2c.Levels` | SWH/i2c/sw_i2c.c:102 | the i-th level sampled is whether SDA reads high at that sample |
| `SwI2c.LevelsNext` | SWH/i2c/sw_i2c.c:151-155 | each further sample adds its level as the next bit of the byte and one bit_in to the trace |
| `SwI2c.RunBytes` | SWH/i2c/sw_i2c.c:117-159 | byte_out shows the byte's eight bits most significant first and then samples the acknowledge; byte_in samples eight bits and clocks out its acknowledge, low for ACKBIT and high otherwise |
| `SwI2c.Bus.constructor` | SWH/i2c/sw_i2c.c:16-28 | a fresh bus has no pin history and no samples |
| `SwI2c.Bus.DelayUs` | SWH/i2c/sw_i2c.c:38 | _DelayUS is one delay event |
| `SwI2c.Bus.Put` | SWH/i2c/sw_i2c.c:37 | a pin operation is one event |
| `SwI2c.Bus.ReadSda` | SWH/i2c/sw_i2c.c:102 | reading SDA returns the next scripted level |
| `SwI2c.Bus.BStart` | SWH/i2c/sw_i2c.c:36-48 | SDA high, SCL high, SDA low, SCL low, 2 us after each |
| `SwI2c.Bus.BStop` | SWH/i2c/sw_i2c.c:56-64 | SCL low, SDA low, SCL high, SDA high, with the source's delays |
| `SwI2c.Bus.BitOut` | SWH/i2c/sw_i2c.c:73-85 | SDA low for 0 and high for any other value, then one clock pulse |
| `SwI2c.Bus.BitIn` | SWH/i2c/sw_i2c.c:94-108 | bit 0 of the byte is replaced by the level of SDA and bits 7..1 are kept |
| `SwI2c.Bus.BitsOut` | SWH/i2c/sw_i2c.c:124-132 | the loop sends the byte's bits most significant first and ends holding its lowest bit |
| `SwI2c.Bus.ByteOut` | SWH/i2c/sw_i2c.c:117-137 | the eight bits, then the acknowledge sample; the result is 1 for a high SDA (NACK) and 0 for a low one |
| `SwI2c.Bus.BitsIn` | SWH/i2c/sw_i2c.c:151-155 | the loop assembles the next eight SDA levels most significant first |
| `SwI2c.Bus.ByteIn` | SWH/i2c/sw_i2c.c:146-159 | the result is the next eight levels, most significant first, followed by the given acknowledge clocked out |
| `Eeprom.ControlBits` | SWH/EEPROM/eeprom.c:62 | the control byte keeps the device bits of the caller's byte (mask 0xF1) and carries address bits 8 to 10 in bits 1 to 3, the 256-byte block |
| `Eeprom.LowByteIsMod` | SWH/EEPROM/eeprom.c:69 | the address sent as one byte is the address modulo 256 |
| `Eeprom.Polls` | SWH/EEPROM/eeprom.c:30-45 | acknowledge polling never takes more attempts than its retry count |
| `Eeprom.PollsMeaning` | SWH/EEPROM/eeprom.c:30-45 | polling succeeds exactly when its last attempt is acknowledged, fails only after all 64 attempts, and every attempt before the last went unanswered |
| `Eeprom.PollsExhausted` | SWH/EEPROM/eeprom.c:32-38 | when no attempt is answered, polling sends the control byte 64 times and ends with a START and no byte after it |
| `Eeprom.PollsAnswered` | SWH/EEPROM/eeprom.c:35-43 | when attempt k is the first acknowledged, polling stops after k + 1 attempts, each a START, a 100 µs pause and the control byte |
| `Eeprom.WriteOutcome` | SWH/EEPROM/eeprom.c:56-79 | a byte write succeeds exactly when control byte, address byte and data byte are all acknowledged; a NAK ends it after that byte, without STOP or polling |
| `Eeprom.WriteInTwoParts` | SWH/EEPROM/eeprom.c:64-77 | a byte write is the three addressed bytes, then, on success, STOP and acknowledge polling with the device's own control byte |
| `Eeprom.ReadOutcome` | SWH/EEPROM/eeprom.c:90-113 | a byte read succeeds exactly when control byte, address byte and read control byte are acknowledged; then the value is the eight bits on SDA, most significant first; on failure the destination keeps its value |
| `Eeprom.ReadInTwoParts` | SWH/EEPROM/eeprom.c:97-111 | a byte read is the addressing with a repeated START and the control byte with its read bit set, then one byte read with a NAK and a STOP |
| `Eeprom.ReadsFrom` | SWH/EEPROM/eeprom.c:132-138 | the payload loop yields one value per byte read |
| `Eeprom.CheckCloses` | SWH/EEPROM/eeprom.c:164-184 | the CRC byte EEPROMPut computes makes the XOR of header, payload and CRC byte zero |
| `Eeprom.Image` | SWH/EEPROM/eeprom.c:162-184 | the record written is fourteen bytes: header 0x5A, the twelve payload bytes in order and a CRC byte that makes their XOR zero |
| `Eeprom.CorruptionDetected` | SWH/EEPROM/eeprom.c:144-147 | any change of a single byte of a record whose XOR is zero makes EEPROMGet's check fail |
| `Eeprom.PutOutcome` | SWH/EEPROM/eeprom.c:159-187 | EEPROMPut reports success exactly when the header write is acknowledged; failures of later writes are not reported |
| `Eeprom.CheckAddressFollows` | SWH/EEPROM/eeprom.c:174-184 | the CRC byte goes to address 13, right after the payload at addresses 1 to 12 |
| `Eeprom.PutWritesImage` | SWH/EEPROM/eeprom.c:159-187 | EEPROMPut writes byte k of the record at address k; after a refused header write it writes nothing more |
| `Eeprom.GetOutcome` | SWH/EEPROM/eeprom.c:115-157 | EEPROMGet always leaves a fourteen-byte record |
| `Eeprom.GetRest` | SWH/EEPROM/eeprom.c:128-156 | after the header read, the record starts with the header read |
| `Eeprom.GetRefused` | SWH/EEPROM/eeprom.c:121-126 | a refused header read makes EEPROMGet fail at once and leaves the record as it was |
| `Eeprom.HoldsRead` | SWH/EEPROM/eeprom.c:90-113 | a memory holding a record acknowledges read number i and puts byte i of the record on SDA |
| `Eeprom.ReadsByte` | SWH/EEPROM/eeprom.c:90-113 | a byte read answered with three acknowledges and the bits of b succeeds with value b in eleven samples |
| `Eeprom.HeaderRead` | SWH/EEPROM/eeprom.c:121 | from a memory holding a record, the header read succeeds with the record's first byte |
| `Eeprom.ReadsFaithful` | SWH/EEPROM/eeprom.c:132-138 | from a memory holding a record, the first k reads of the payload loop return the record's first k bytes |
| `Eeprom.HoldsReadOutcome` | SWH/EEPROM/eeprom.c:133 | from a memory holding a record, read number i returns byte i of the record |
| `Eeprom.GetFaithful` | SWH/EEPROM/eeprom.c:115-157 | from a memory holding a record, EEPROMGet reads the record unchanged and succeeds exactly when its header is 0x5A and its XOR is zero |
| `Eeprom.RestFaithful` | SWH/EEPROM/eeprom.c:128-156 | after the header, the payload and CRC byte are read unchanged and the verdict is header 0x5A and XOR zero |
| `Eeprom.RoundTrip` | SWH/EEPROM/eeprom.c:115-187 | a memory holding what EEPROMPut wrote makes EEPROMGet succeed with the same payload |
| `Eeprom.Store.constructor` | SWH/EEPROM/eeprom.c:21 | the record starts all zero |
| `Eeprom.Store.AckPoll` | SWH/EEPROM/eeprom.c:30-45 | acknowledge polling does what Polls describes and ends with a STOP |
| `Eeprom.Store.LowDensByteWrite` | SWH/EEPROM/eeprom.c:56-79 | the result, bus history and samples used are those of WriteOutcome |
| `Eeprom.Store.WriteBytes` | SWH/EEPROM/eeprom.c:64-78 | the three byte outputs and their NAK exits are those of WriteAddressing |
| `Eeprom.Store.LowDensByteRead` | SWH/EEPROM/eeprom.c:90-113 | the result, value read, bus history and samples used are those of ReadOutcome |
| `Eeprom.Store.ReadAddress` | SWH/EEPROM/eeprom.c:97-108 | the addressing of a read and its NAK exits are those of ReadAddressing |
| `Eeprom.Store.PutPayload` | SWH/EEPROM/eeprom.c:174-182 | the payload loop writes byte k at address k + 1, folds every byte into the CRC byte and leaves the address at 13 |
| `Eeprom.Store.EEPROMPut` | SWH/EEPROM/eeprom.c:159-187 | sets the header to 0x5A and the CRC byte to the payload's XOR with 0x5A (0x5A alone if the header write failed), with result and bus history those of PutOutcome |
| `Eeprom.Store.GetPayload` | SWH/EEPROM/eeprom.c:130-138 | the payload loop fills the payload with the values read and folds each into the running XOR |
| `Eeprom.Store.EEPROMGet` | SWH/EEPROM/eeprom.c:115-157 | the record, result and bus history afterwards are those of GetOutcome |
| `Eeprom.Store.FetchRest` | SWH/EEPROM/eeprom.c:128-156 | everything after the header read is what GetRest describes |
| `At24c32.WordAddress` | SWH/EEPROM/at24c32.c:17-19 | the memory address is sent as two bytes, high byte first, that join back to the address |
| `At24c32.DeviceOnWire` | SWH/EEPROM/at24c32.h:23 | the device is addressed as 0xAE for a write and 0xAF for a read, its 7-bit address 0x57 with the direction bit |
| `At24c32.WriteByte` | SWH/EEPROM/at24c32.c:16-34 | a write is an address transaction with the two address bytes, then a second transaction with the data byte; the result is always success |
| `At24c32.ReadByte` | SWH/EEPROM/at24c32.c:36-54 | a read is an address transaction, then a read transaction of one byte answered with a NACK; the value is what the device sent and the result is always success |
| `At24c32.WriteIsTwoTransactions` | SWH/EEPROM/at24c32.c:21-31 | the write's address transaction ends with STOP after exactly the two address bytes, and the data byte is alone in the second transaction |
| `OneWire.SlaveReadsSlots` | SWH/OneWire/oneWire.c:47-61 | every write slot is read by a slave as the bit that was written: the 6 µs pulse of a 1 is under the 15 µs sampling point and the 60 µs pulse of a 0 is over it |
| `OneWire.LsbBits` | SWH/OneWire/oneWire.c:95-100 | the bits OW_writeByte takes from its argument are eight, least significant first |
| `OneWire.FromLsb` | SWH/OneWire/oneWire.c:113-120 | the value OW_readByte assembles from eight levels is below 256 |
| `OneWire.LsbRoundTrip` | SWH/OneWire/oneWire.c:95-100 | the bits taken by repeated `& 0x01` and `>>= 1`, read back least significant first, are the argument modulo 2^n, negative arguments included |
| `OneWire.FromLsbBits` | SWH/OneWire/oneWire.c:113-120 | the byte OW_readByte assembles has the first level read as bit 0 and the eighth as bit 7 |
| `OneWire.ByteRoundTrip` | SWH/OneWire/oneWire.c:91-101 | a byte written with OW_writeByte is read by a slave as its eight bits, least significant first, and they make up `data & 0xFF` |
| `OneWire.LowByte` | SWH/OneWire/oneWire.c:91-101 | the byte on the line is the argument for a value in 0..255, and agrees with the argument modulo 256 otherwise |
| `OneWire.Line.constructor` | SWH/OneWire/oneWire.c:26-37 | a fresh line has no history and has taken no sample |
| `OneWire.Line.Levels` | SWH/OneWire/oneWire.c:77 | entry i of the levels is the line's level at sample from + i |
| `OneWire.Line.SampleLevel` | SWH/OneWire/oneWire.c:34 | reading the pin returns the scripted level and takes one sample |
| `OneWire.Line.Reset` | SWH/OneWire/oneWire.c:26-37 | a 480 µs low pulse, a 70 µs wait and one sample; the result is 1 when no slave pulled the line low and 0 when a presence pulse was seen |
| `OneWire.Line.WriteBit` | SWH/OneWire/oneWire.c:47-61 | any nonzero bit gives a 6 µs low pulse and 64 µs of slot; zero gives a 60 µs low pulse and 10 µs of recovery |
| `OneWire.Line.ReadBit` | SWH/OneWire/oneWire.c:70-81 | a 6 µs pulse, a sample 9 µs after release and 55 µs of recovery; the result is 1 exactly when the line read high |
| `OneWire.Line.WriteByte` | SWH/OneWire/oneWire.c:91-101 | eight write slots for the bits of the argument, least significant first |
| `OneWire.Line.ReadByte` | SWH/OneWire/oneWire.c:110-122 | eight read slots; the result is in 0..255 with the first level read as bit 0 |
| `OneWire.Line.ShiftInBit` | SWH/OneWire/oneWire.c:115-119 | one pass of the read loop halves the byte so far and sets bit 7 exactly when the line read high |
| `Ds1820.Int16` | SWH/DS1820/ds1820.c:154 | storing `temperature * -1` back in an `int16_t` keeps values in range and wraps modulo 2^16 otherwise (-32768 stays -32768) |
| `Ds1820.Uint16` | SWH/DS1820/ds1820.c:157-163 | the `(uint16_t)` cast keeps values in range and wraps modulo 2^16 otherwise |
| `Ds1820.TemperatureText` | SWH/DS1820/ds1820.c:150-164 | three characters; below 1000 the first is '-' exactly for a negative reading and '+' exactly for 0..99; the other two are always digits |
| `Ds1820.TextRoundTrip` | SWH/DS1820/ds1820.c:150-164 | every reading from -99 to 999 is shown exactly, so distinct readings in that range show distinct texts |
| `Ds1820.LowDigits` | SWH/DS1820/ds1820.c:162-163 | the second and third characters spell the last two digits of the magnitude |
| `Ds1820.TextDropsHundreds` | SWH/DS1820/ds1820.c:152-163 | a reading of -100 or below loses its hundreds: it is shown as minus its magnitude modulo 100 |
| `Ds1820.MinusOneTwentyThree` | SWH/DS1820/ds1820.c:152-163 | -123 is shown as "-23" |
| `Ds1820.TextAboveRange` | SWH/DS1820/ds1820.c:156-157 | from 1000 on the first character is no longer a digit, except where the `char` wrap brings it back to a digit (25600..26599) or to '+' or '-' |
| `Ds1820.GetTemperatureString` | SWH/DS1820/ds1820.c:150-164 | writes TemperatureText of the reading into characters 0 to 2 and leaves the rest of the buffer as it was |
| `Ds1820.Thermometers.constructor` | SWH/DS1820/ds1820.c:23 | the table of readings has two entries and no conversion has been made |
| `Ds1820.Thermometers.MeasureTemperature` | SWH/DS1820/ds1820.c:140-142 | one conversion of the given sensor, stored in that sensor's entry; the other entry is unchanged |
| `Ds1820.Thermometers.MeasureTemperatures` | SWH/DS1820/ds1820.c:144-147 | the water heater is converted first and the boiler second, each reading stored in its own entry |
| `Ds2432.PageAddress` | SWH/DS2432/ds2432.c:33 | TA1 of a page below 8 is its first byte address, 32 times the page |
| `Ds2432.Send` | SWH/DS2432/ds2432.c:31-34 | a byte written shows in the log as the low byte of the argument |
| `Ds2432.Receive` | SWH/DS2432/ds2432.c:40 | a byte read shows in the log as the byte returned |
| `Ds2432.PageChunk` | SWH/DS2432/ds2432.c:39 | a page read takes at most 32 bytes and never more than asked for |
| `Ds2432.ReadPage` | SWH/DS2432/ds2432.c:22-45 | with no presence pulse, false with the buffer untouched; otherwise true after SKIP ROM, Read Memory, TA1 and TA2 = 0 and 100 µs, with the first min(size, 32) bytes of the buffer holding the bytes read, in order, and the rest untouched |
| `Ds2432.ReceiveBytes` | SWH/DS2432/ds2432.c:39-42 | the next n bytes read land in the buffer's first n places, in order; the rest is untouched |
| `Ds2432.DataPages` | SWH/DS2432/ds2432.c:139-146 | between one and four pages are visited |
| `Ds2432.LastChunk` | SWH/DS2432/ds2432.c:149-153 | the last page's chunk is at most 32 bytes and at most the size, and is not empty for a nonzero size |
| `Ds2432.PagesByDivision` | SWH/DS2432/ds2432.c:139-146 | above 32 bytes the page count is ceil(size / 32), capped at four, computed with `/` and `%` as written |
| `Ds2432.LastByRemainder` | SWH/DS2432/ds2432.c:149-153 | above 32 bytes the last page's chunk is size % 32, or 32 when that is zero |
| `Ds2432.DataChunk` | SWH/DS2432/ds2432.c:149-153 | no page's chunk is more than 32 bytes |
| `Ds2432.DataRead` | SWH/DS2432/ds2432.c:147-159 | every page before the last read covers 32 bytes, so page i lands at offset 32·i |
| `Ds2432.Memcpy` | SWH/DS2432/ds2432.c:158 | n bytes of the source land at the destination offset and the rest of the destination is unchanged |
| `Ds2432.ReadDataPage` | SWH/DS2432/ds2432.c:148-158 | one page read into a buffer of its own and, when the device answered, copied right after the pages before it; without presence nothing changes |
| `Ds2432.DataReadWithin` | SWH/DS2432/ds2432.c:147-159 | the pages read before any page fit within the bytes of all pages |
| `Ds2432.ReadDataCovers` | SWH/DS2432/ds2432.c:133-162 | up to 128 bytes, the pages read cover exactly the bytes asked for |
| `Ds2432.ReadDataCapped` | SWH/DS2432/ds2432.c:144-153 | beyond 128 bytes four pages are read and the last is cut to size % 32 when that is nonzero, so fewer bytes are read than asked for (129 gives 97) |
| `Ds2432.ReadPages` | SWH/DS2432/ds2432.c:147-160 | pages are read in order until the first without presence; the log holds each page's read and the buffer holds their bytes, beyond them untouched |
| `Ds2432.ReadData` | SWH/DS2432/ds2432.c:133-162 | up to a page, one read of page 0; beyond, the pages in order at offset 32·page; false exactly when a page got no presence pulse, pages after it not read |
| `Ds2432.NextRowWraps` | SWH/DS2432/ds2432.c:115 | the row address advances by 8 modulo 256 |
| `Ds2432.RowAddressInPage` | SWH/DS2432/ds2432.c:53-115 | within one of the four pages, row r is written at 32·page + 8·r |
| `Ds2432.SendRow` | SWH/DS2432/ds2432.c:67-69 | the eight bytes of a row are written in order |
| `Ds2432.ReceiveN` | SWH/DS2432/ds2432.c:88-93 | n bytes are read |
| `Ds2432.WriteScratchpad` | SWH/DS2432/ds2432.c:57-74 | with presence: SKIP ROM, 0x0F, the row address, 0, the row's eight bytes, two bytes read and 200 µs; without presence nothing more |
| `Ds2432.ReadScratchpad` | SWH/DS2432/ds2432.c:77-93 | with presence: SKIP ROM, 0xAA, three bytes read, 10 µs and ten bytes read; without presence nothing more |
| `Ds2432.CopyScratchpad` | SWH/DS2432/ds2432.c:96-108 | with presence: SKIP ROM, 0x55, the row address, 0, 0x07, 15 ms and one byte read; without presence nothing more |
| `Ds2432.WriteRow` | SWH/DS2432/ds2432.c:55-116 | one row is the three stages in order; it succeeds exactly when all three resets found a presence pulse, and otherwise stops at the first that did not |
| `Ds2432.WritePageRow` | SWH/DS2432/ds2432.c:55-116 | one more row appended to the page's log, or the page's log ending with the reset nobody answered |
| `Ds2432.WritePage` | SWH/DS2432/ds2432.c:47-119 | rows 0 to numOfRows - 1, row r carrying bytes 8r to 8r + 7 at addresses 8 apart; true exactly when every row was done, otherwise the log ends with the first unanswered reset |
| `Ds2432.RowsIn` | SWH/DS2432/ds2432.c:166 | a chunk of n bytes gives the whole rows of eight it holds and no more |
| `Ds2432.RowsByDivision` | SWH/DS2432/ds2432.c:166 | the row count is the source's `n / 8` |
| `Ds2432.PageOpsPrefix` | SWH/DS2432/ds2432.c:67-69 | a page's log depends only on the bytes of the rows written |
| `Ds2432.WriteChunk` | SWH/DS2432/ds2432.c:179-186 | page k is given the bytes from offset 32k on, DataChunk of them, and whole rows fit in it |
| `Ds2432.PageAbortPrefix` | SWH/DS2432/ds2432.c:57-99 | a failed page's log depends only on the bytes of the rows it reached |
| `Ds2432.WriteDataPage` | SWH/DS2432/ds2432.c:179-189 | one page's chunk copied to a buffer of its own and written as writeSize / 8 whole rows |
| `Ds2432.PageDone` | SWH/DS2432/ds2432.c:178-190 | a completed page's log follows those of the pages before it |
| `Ds2432.PageAborted` | SWH/DS2432/ds2432.c:187-189 | a page that fails makes the whole write fail, pages after it not written |
| `Ds2432.WritePages` | SWH/DS2432/ds2432.c:178-191 | pages in order, each with its chunk, stopping at the first that fails |
| `Ds2432.FirstPageDone` | SWH/DS2432/ds2432.c:165-166 | up to one page, a successful write of page 0 with size / 8 rows is the whole write |
| `Ds2432.FirstPageAborted` | SWH/DS2432/ds2432.c:165-166 | up to one page, a failure of page 0 is the failure of the whole write |
| `Ds2432.WriteData` | SWH/DS2432/ds2432.c:164-193 | up to a page, size / 8 rows of page 0; beyond, page by page with the chunk at offset 32k, at most four; true exactly when every page was written |
| `Ds2432.RowCountLogged` | SWH/DS2432/ds2432.c:178-190 | the rows written by the completed pages add up to the rows their chunks hold |
| `Ds2432.FullPages` | SWH/DS2432/ds2432.c:180-184 | every page before the last holds four rows |
| `Ds2432.RowsAfterPages` | SWH/DS2432/ds2432.c:166-187 | 32 bytes more are four rows more |
| `Ds2432.WriteDataCovers` | SWH/DS2432/ds2432.c:164-193 | up to 128 bytes, the rows written are size / 8: the size % 8 trailing bytes are never written |
| `Ds2432.WriteDataCapped` | SWH/DS2432/ds2432.c:175-177 | past 128 bytes four pages are written, at most 128 bytes, and the rest is dropped |
| `Ds2432.RowOpsLayout` | SWH/DS2432/ds2432.c:62-104 | a completed row is 41 operations, with the row address in the Write and Copy Scratchpad commands, the row's bytes right after the first, and 0x07 after the second |

## Left out

- Peripheral initialisation through the vendor library (`init_USART*`, SPI, GPIO and I2C set-up, `DS1820_Init`, `DS2432_Init`, `ssd1306_Init`, `init_sw_i2c`, `main`, `Init`): register writes with no logic of their own.
- The flag-polling loops of `SWH/i2c/i2c.c` and the SPI transfer routines: each is modelled as the bus event it waits for, with the answer taken from a script; a bus that never raises its flag is not modelled.
- The nRF24L01+ support library behind the mid-level files: each call is recorded by name and arguments, and the status and FIFO bytes it returns come from a script.
- `NRF24SetRxAddress`, `NRF24SetTxAddress` and `NRF24RxPayloadLength` in `SWH/nRF24/nrf24.c`: they are register writes and reads built from `NRF24WriteRegister` and `NRF24ReadRegister`, whose framing is modelled, and are not modelled on their own.
- Text output: `debug.printf`, `PrintTasks`, `DEBUG_SetTaskManagerEnabled`, `PrintAvailableCommands`, `UART_SendBufHex`, `nRF24_DumpConfig`, `Debug_PrintTemperatures`, `PrintTemperatures`, `ssd1306_PrintDateAndTime` and `hd44780_PrintTemperatures` only format text for the console or the screens.
- Floating point: the `TIME()` macro (the periods are the constants 500000, 1000000 and 1000 microseconds), the division in `OW_ReadTemperature`, and `ssd1306_DrawCircle`, which uses `sqrt`.
- `OW_ReadTemperature` and `OW_ReadPower` in both `ds1820.c` files, and the rest of `STC/DS1820/ds1820.c`: a sensor's reading is a parameter of the model (`Ds1820.Thermometers.reading`); the bytes of the command script are covered by the 1-Wire model.
- Interrupts and concurrency: the microsecond counter is a script of readings; the USART interrupt and the flag-raising interrupts run as sequential steps between operations.
- The callables the scheduler runs are opaque identifiers: their effect on the flags is scripted, and their effect on the task table is not modelled.
- The DS2432 authentication data: the scratchpad and status bytes `DS2432_WritePage` reads into `Oid` and `rstatus` are never used, and the model keeps them only as ghost values.
- The EEPROM itself: the SDA script stands for the memory's answers. `Eeprom.RoundTrip` starts from a memory that answers with the record `EEPROMPut` wrote; that the chip stores what it was sent is not modelled.
- `Eeprom.Store.EEPROMGet`: the results of the payload and check-byte reads are ignored, as in the source; a failed read leaves that byte as it was.
- `DebugUsart.DebugPort.Send_N_Chars`: requires room for all its characters. `SendChar` states the overwrite on a full ring, but the loop is not followed past that point.
- `Ssd1306.Display.FillCircle`: requires a radius other than -32768 and 32767. With 32767 the source's `int16_t` loop counter never passes the radius.
- `Ssd1306.Display.WriteChar`: requires the character's glyph to lie inside the font table whenever it fits on the screen; the source reads whatever memory follows the table.
- `Ssd1306.Display.WriteString`: requires a NUL-terminated string whose glyphs lie inside the font table.
- `Hd44780.Position`: requires a row from 1 to 4. For other rows the source sends an uninitialised byte.
- `Hd44780.Lcd.Print`, `Hd44780.Lcd.CreateCustomChar` and `Hd44780.Lcd.WriteUntilNul`: require a NUL-terminated string.
- `Tasks.TaskTable.SetTaskEnabled_Func`: requires the callable to be registered. Otherwise the source indexes slot 0xFFFF.
- `Tasks.TaskTable.TasksSchedulerPass`: requires every signal slot's flag pointer to name an existing flag cell.
- `SwhRadio.Receiver.Receive`: with a payload shorter than two bytes, the bytes the source copies from the rest of its buffer are not stated.
- `Nrf24Driver.Driver.Check`: the five test bytes are a parameter, because `nRF24_TEST_ADDR` is defined in `nrf24.h`, which is not part of this model.
- `StcRadio.Transmitter.Transmit`: sends through the corrected loop `TransmitPacketIntended` (see Findings). The loop as the firmware has it is `TransmitPacket`.

## Findings

| source | as written | input that shows it | evidently intended | confidence | as-written member | corrected member |
|---|---|---|---|---|---|---|
| STC/nRF24/nrf24_mid_level.c:56-69 | `while (wait--)` leaves `wait` at 0xFFFFFFFF when the budget runs out, so an exhausted budget is reported as ERROR. TIMEOUT (`wait == 0`) comes only when a flag first shows on the last poll, and that path skips clearing the IRQ flags. | a status that always reads 0x00 gives ERROR; a status that shows TX_DS (0x20) only on the last poll gives TIMEOUT although the packet went out | TIMEOUT exactly when no poll shows TX_DS or MAX_RT, every flagged status classified as SUCCESS or MAXRT, and the IRQ flags cleared on every outcome, TIMEOUT included. The corrected loop keeps the source's number of polls, WAIT_TIMEOUT + 1 (the do/while body runs once before the first test), so that only the outcome test changes | not executed | `StcRadio.WrittenVersusIntended` | `StcRadio.IntendedTimeoutIff` |

`SwhRadio.ViewsAgree` also records a type mismatch. `m_tCollector` is defined
unsigned in `SWH/nRF24/nrf24_mid_level.c:29` but declared signed in its header,
and the pump controller reads it signed. The two readings agree exactly when the
high byte is below 0x80, that is, for non-negative temperatures. The model
gives the controller the signed reading, as the build does.
