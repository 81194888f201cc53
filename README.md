# XMEGA TWI slave driver and RTC time-of-day counter, modelled in Dafny

This project models two pieces of sequential logic from a set of Atmel AVR
XMEGA application-note demos.

**The TWI (I2C-compatible) slave driver** (`twi_slave_driver.c`) and the echo
callback of its example (`twi_example.c`). One call of `TWI_process` handles
one bus interrupt. It takes a snapshot of the slave STATUS bits, clears
ACKACT, and picks exactly one case, first match wins: bus error, collision,
address match, stop, data (receive or transmit by DIR), or anything else.
Each case updates the transaction record `TWI_Slave_t` in place: status,
result, the byte counters, the two buffers, the data-register global
`twic_data_reg`, and the PIEN/ACKACT control bits. In the bus terms of the
I2C-bus specification (NXP UM10204), a NACK from the master-receiver ends a
slave-transmit transfer (section 3.1.6) and a STOP ends a transaction
(section 3.1.4).

**The RTC overflow interrupt** of the real-time-counter demo (`task4.c`). It
advances ticks, then seconds, minutes, hours and days, each with wrap-around.

## Structure

- `uint8.dfy`, module `Uint8`: the C type `uint8_t` and truncation to it.
- `twi_types.dfy`, module `TwiTypes`: status and result enumerations, the
  STATUS snapshot, the CTRLA bits, the buffer sizes, and two classes. `TwiSlave` is the record,
  with `twic_data_reg` beside it. `TwiModule` is the peripheral's slave
  registers. `Driver` is a value holding every field of both;
  `TwiSlave.View()` reads the objects as one.
- `twi_example.dfy`, module `TwiExample`: the callback `TWIC_SlaveProcessData`,
  as a function on `Driver` and as a method on the record.
- `twi_slave_driver.dfy`, module `TwiSlaveDriver`: each C function twice. A
  function on `Driver` states what one call does. A method over the record
  does it in place and is proved to move `View()` exactly as that function
  says. The C functions take a `TWI_Slave_t *`, and so the methods take the
  record object. Lemmas state each case of one interrupt.
- `twi_transactions.dfy`, module `TwiTransactions`: runs of interrupts. These
  cover writes of any length (store, echo and saturation), reads up to and
  past the send buffer, and the two example transactions.
- `rtc_clock.dfy`, module `RtcClock`: the carry cascade as a function `Tick`
  and as the method `RealTimeCounter.Overflow` over the five counters. The
  abstraction `Elapsed` reads the counters as a tick count, and it is proved
  to advance by exactly one per interrupt, modulo 256 days. `FromElapsed` is
  its inverse on in-range counters.

## Modelling decisions

- The status snapshot is a record of booleans (BUSERR, COLL, APIF, AP, DIF,
  DIR, RXACK), and CTRLA is a record of its bit groups. The bit masks are in
  a header that is not part of this model.
- `TWIS_RECEIVE_BUFFER_SIZE` and `TWIS_SEND_BUFFER_SIZE` are in the same
  header. They are the constants `RX_SIZE` and `TX_SIZE` (both 8). The
  buffer arrays get their lengths as constructor parameters.
- The data handler and the transmit handler read `twic_status_reg` again
  (`twi_slave_driver.c:201`, `:248`). Nothing writes that global during one
  call, so the model passes the same snapshot down.
- The data callback `Process_Data` is a C function pointer. The model binds
  it to the one callback of the core, `TWIC_SlaveProcessData`.
- The byte a master writes reaches `twic_data_reg` outside the driver. In
  runs of interrupts, `TwiTransactions.WriteByte` puts each byte there
  before raising the data interrupt, and `TwiTransactions.ReceiveBytes` runs
  it over a sequence of bytes.
- Counters are `nat`. The record invariant `Valid()` keeps them at most the
  buffer sizes, so the `uint8_t` fields never wrap. `ADDR = address << 1` and
  `RTC_days++` are truncated to eight bits explicitly.
- The transmit path increments `bytesSent` before it indexes `sendData`
  (`twi_slave_driver.c:255-257`). With `TX_SIZE - 1` bytes counted, an ACK
  reads `sendData[TX_SIZE]`, one cell past a buffer of `TX_SIZE` bytes. The
  model keeps this indexing. It requires the send array to have more than
  `TX_SIZE` cells (`Layout`, `TwiSlave.Storage`), and
  `TransmitReadsIndexTxSize` shows that the read happens. The same indexing
  makes the first data interrupt of a read load `sendData[1]`. The address
  match has already preloaded `sendData[0]` (see `ReadTwoThenNack`).
- The stop interrupt is re-enabled only on the slave-receive path:
  `TWI_SlaveReadHandler` (DIR clear) sets PIEN (`twi_slave_driver.c:217-218`),
  and `TWI_SlaveWriteHandler` (`twi_slave_driver.c:245-265`, DIR set, the
  slave transmits) never touches it.
- On a read, RXACK is honoured only once `bytesSent > 0`. On the first data
  interrupt a NACK is handled like an ACK (`TransmitPath`).

## Model

The step functions `TwiSlaveDriver.Classify`, `ModuleControl`, `Finished`,
`AddressMatchStep`, `StopStep` and `DataStep` have no rows of their own. Each
is covered by the row of the method proved to move `View()` as it says
(`Process`, `InitializeModule`, `TransactionFinished`, `AddressMatchHandler`,
`StopHandler`, `DataHandler`) and by the lemmas about `Step`
(`DispatchOrder`, `AddressMatchStarts`, `StopFinishes`, `StepProperties`).

| member | source | states |
|---|---|---|
| `TwiTypes.TwiSlave.constructor` | avr1320-400kHz-twi-slave/code/twi_example.c:70 | the global record starts zeroed: READY, UNKNOWN, both counters 0, abort false, no peripheral, zero buffers of the given lengths |
| `TwiExample.EchoData` | avr1320-400kHz-twi-slave/code/twi_example.c:77-85 | the callback copies `receivedData[bytesReceived]` to `sendData[bytesReceived]` and keeps every other send cell; the data register afterwards holds `sendData[0]`, which is the received byte when `bytesReceived == 0`; counters, receive buffer, status and result are unchanged |
| `TwiExample.ProcessData` | avr1320-400kHz-twi-slave/code/twi_example.c:77-85 | the in-place callback writes only the send buffer and the data register, and moves the record exactly as `EchoData` |
| `TwiSlaveDriver.SlaveAddress` | avr1320-400kHz-twi-slave/code/twi_slave_driver.c:107 | the ADDR value has bit 0 clear and the 7-bit address in bits 7..1 (the shift truncated to eight bits) |
| `TwiSlaveDriver.ExampleAddress` | avr1320-400kHz-twi-slave/code/twi_example.c:64 | the example's 7-bit address 0x51 is written to ADDR as 0xA2 |
| `TwiSlaveDriver.InitializeDriver` | avr1320-400kHz-twi-slave/code/twi_slave_driver.c:68-78 | driver init binds the peripheral and sets both counters to 0, READY, UNKNOWN and abort false, touching no other field |
| `TwiSlaveDriver.InitializeModule` | avr1320-400kHz-twi-slave/code/twi_slave_driver.c:99-108 | CTRLA becomes the level with DIEN, APIEN and ENABLE, so the stop interrupt starts disabled; ADDR becomes the shifted address |
| `TwiSlaveDriver.ReceiveStep` | avr1320-400kHz-twi-slave/code/twi_slave_driver.c:214-236 | the receive path advances `bytesReceived` by one exactly when there was room, keeps status, result and `bytesSent`, and leaves ACKACT set once the buffer is full |
| `TwiSlaveDriver.TransmitStep` | avr1320-400kHz-twi-slave/code/twi_slave_driver.c:245-265 | the transmit path never touches the receive side or the buffers, advances `bytesSent` by at most one and never past TX_SIZE, and leaves BUSY only with OK or BUFFER_OVERFLOW |
| `TwiSlaveDriver.Step` | avr1320-400kHz-twi-slave/code/twi_slave_driver.c:116-154 | one interrupt keeps the buffers' sizes and keeps both counters within their buffers |
| `TwiSlaveDriver.StepProperties` | avr1320-400kHz-twi-slave/code/twi_slave_driver.c:116-278 | for every snapshot: ACKACT is left set exactly by a receive that found the buffer full; only an address match enters BUSY (with UNKNOWN); every way out of BUSY stamps a result other than UNKNOWN; each counter is reset, kept or advanced by one; only the receive path writes the buffers |
| `TwiSlaveDriver.DispatchOrder` | avr1320-400kHz-twi-slave/code/twi_slave_driver.c:122-153 | the priority order: BUSERR beats everything, then COLL, then APIF with AP (address match), APIF alone (stop), DIF (data), else the unexpected case |
| `TwiSlaveDriver.AbortResetsCounters` | avr1320-400kHz-twi-slave/code/twi_slave_driver.c:124-137 | a bus error or collision, whatever the prior state, zeroes both counters, sets BUS_ERROR or TRANSMIT_COLLISION and READY, and leaves the buffers, data register and CTRLA alone |
| `TwiSlaveDriver.AddressMatchStarts` | avr1320-400kHz-twi-slave/code/twi_slave_driver.c:162-176 | an address match sets BUSY and UNKNOWN, clears PIEN, zeroes both counters and loads `sendData[0]` |
| `TwiSlaveDriver.StopFinishes` | avr1320-400kHz-twi-slave/code/twi_slave_driver.c:182-191 | a stop clears PIEN, writes APIF back, sets OK and READY and keeps both counters |
| `TwiSlaveDriver.ReceivePath` | avr1320-400kHz-twi-slave/code/twi_slave_driver.c:214-236 | a receive enables PIEN; with room it stores the data register at `bytesReceived`, echoes it, and advances the counter by one; at capacity it stores nothing; ACKACT ends set exactly when the counter is at capacity; status and result stay |
| `TwiSlaveDriver.TransmitPath` | avr1320-400kHz-twi-slave/code/twi_slave_driver.c:245-265 | a NACK after at least one byte reloads `sendData[0]` and finishes with OK; otherwise with room `bytesSent` advances and the byte at the new count is loaded; otherwise BUFFER_OVERFLOW and READY |
| `TwiSlaveDriver.TransmitReadsIndexTxSize` | avr1320-400kHz-twi-slave/code/twi_slave_driver.c:255-257 | with `TX_SIZE - 1` bytes sent, an ACK loads `sendData[TX_SIZE]` |
| `TwiSlaveDriver.UnrecognisedFails` | avr1320-400kHz-twi-slave/code/twi_slave_driver.c:150-153 | a snapshot without BUSERR, COLL, APIF or DIF gives FAIL and READY whatever the state, and changes nothing but ACKACT |
| `TwiSlaveDriver.TransactionFinished` | avr1320-400kHz-twi-slave/code/twi_slave_driver.c:274-278 | finishing writes only `result` and `status` (READY) |
| `TwiSlaveDriver.AddressMatchHandler` | avr1320-400kHz-twi-slave/code/twi_slave_driver.c:162-176 | the in-place address-match handler moves the record as `AddressMatchStep` |
| `TwiSlaveDriver.StopHandler` | avr1320-400kHz-twi-slave/code/twi_slave_driver.c:182-191 | the in-place stop handler moves the record as `StopStep` |
| `TwiSlaveDriver.ReadHandler` | avr1320-400kHz-twi-slave/code/twi_slave_driver.c:214-236 | the in-place receive handler, with the callback run between store and increment, moves the record as `ReceiveStep` |
| `TwiSlaveDriver.WriteHandler` | avr1320-400kHz-twi-slave/code/twi_slave_driver.c:245-265 | the in-place transmit handler moves the record as `TransmitStep` |
| `TwiSlaveDriver.DataHandler` | avr1320-400kHz-twi-slave/code/twi_slave_driver.c:199-206 | DIR set selects the transmit handler, DIR clear the receive handler |
| `TwiSlaveDriver.Process` | avr1320-400kHz-twi-slave/code/twi_slave_driver.c:116-154 | one interrupt on the record keeps `Valid()` (counters within buffers) and moves the record exactly as `Step` |
| `TwiTransactions.WriteByteIsStep` | avr1320-400kHz-twi-slave/code/twi_slave_driver.c:116-236 | a byte written by the master, stated directly (PIEN set; with room the byte is stored and echoed at `bytesReceived`, the data register reloaded from `sendData[0]` and the counter advanced; ACKACT set exactly when the buffer is then full) is what one interrupt with that byte in the data register and a DIF, DIR-clear snapshot does |
| `TwiTransactions.ReceiveOne` | avr1320-400kHz-twi-slave/code/twi_slave_driver.c:214-236 | one written byte keeps status, result and `bytesSent`, sets PIEN, sets ACKACT exactly when the count reaches `RX_SIZE`; with room it is stored and echoed at `bytesReceived`, which advances by one; with a full buffer both buffers and the counter stay |
| `TwiTransactions.ReceiveBytesCount` | avr1320-400kHz-twi-slave/code/twi_slave_driver.c:214-236 | a write of n bytes advances `bytesReceived` to min(start + n, RX_SIZE), keeps status, result and `bytesSent`, and leaves PIEN set and ACKACT set exactly at capacity |
| `TwiTransactions.ReceiveBytesStores` | avr1320-400kHz-twi-slave/code/twi_slave_driver.c:220-230 | the written bytes land in `receivedData` from the start count up to capacity; bytes beyond are dropped and no other cell changes |
| `TwiTransactions.ReceiveBytesEchoes` | avr1320-400kHz-twi-slave/code/twi_example.c:77-85 | the echo callback puts each stored byte at the same index of `sendData`; no other send cell changes |
| `TwiTransactions.EchoFromEmpty` | avr1320-400kHz-twi-slave/code/twi_example.c:77-85 | from a zero receive count, a write of n <= RX_SIZE bytes counts n and leaves exactly those bytes at the front of both buffers, with status, result and `bytesSent` unchanged |
| `TwiTransactions.EchoAfterAddressMatch` | avr1320-400kHz-twi-slave/code/twi_example.c:88-93 | after an address match and n <= RX_SIZE written bytes, both buffers begin with exactly those bytes, n are counted, and the transaction is still BUSY |
| `TwiTransactions.ReceiveOverrunDropped` | avr1320-400kHz-twi-slave/code/twi_slave_driver.c:228-235 | a write past capacity stops the counter at RX_SIZE, arms the NACK, and writes no cell from RX_SIZE on |
| `TwiTransactions.ReadAcksEffect` | avr1320-400kHz-twi-slave/code/twi_slave_driver.c:254-259 | n acknowledged reads within the buffer advance `bytesSent` by n, load the byte at the new count, and keep status and result |
| `TwiTransactions.ReadsAfterAddressMatch` | avr1320-400kHz-twi-slave/code/twi_slave_driver.c:162-259 | after an address match, every n <= TX_SIZE acknowledged reads count n, stay BUSY with result UNKNOWN, and the last loads `sendData[n]` |
| `TwiTransactions.SendPastCapacity` | avr1320-400kHz-twi-slave/code/twi_slave_driver.c:255-263 | after an address match, TX_SIZE acknowledged reads leave the transaction BUSY with TX_SIZE sent; one more gives BUFFER_OVERFLOW and READY |
| `TwiTransactions.WriteThreeThenStop` | avr1320-400kHz-twi-slave/code/twi_slave_driver.c:116-236 | address match, a write of 0x10, 0x20, 0x30 and a stop store and echo the three bytes, count 3, and end with OK and READY |
| `TwiTransactions.ReadTwoThenNack` | avr1320-400kHz-twi-slave/code/twi_slave_driver.c:162-265 | with a send buffer beginning 0xAA, 0xBB: the address match loads 0xAA, the first ACK loads 0xBB with one byte counted, the NACK ends with OK, READY and 0xAA reloaded |
| `RtcClock.Tick` | avr1518-clocks/AVR1518/Task4-RealTimeCounter/task4.c:31-73 | in-range counters stay in range (ticks 0..9, seconds and minutes 0..59, hours 0..23); below tick 9 only ticks changes, by one; at tick 9 ticks wraps to 0 |
| `RtcClock.CarryOnlyOnWrap` | avr1518-clocks/AVR1518/Task4-RealTimeCounter/task4.c:38-63 | seconds, minutes, hours and days each change only when every lower unit is at its limit and wraps to zero |
| `RtcClock.FullRollover` | avr1518-clocks/AVR1518/Task4-RealTimeCounter/task4.c:58-67 | 23:59:59 at tick 9 becomes 00:00:00 at tick 0 with days + 1 modulo 256, so day 255 returns to all zeros |
| `RtcClock.ElapsedBelowPeriod` | avr1518-clocks/AVR1518/Task4-RealTimeCounter/task4.c:19-28 | in-range counters read as fewer than 256·24·60·60·10 ticks |
| `RtcClock.TickAddsOneInside` | avr1518-clocks/AVR1518/Task4-RealTimeCounter/task4.c:31-73 | on in-range counters other than day 255 at 23:59:59 tick 9, one interrupt adds exactly one to the tick reading, with no wrap |
| `RtcClock.TickAddsOne` | avr1518-clocks/AVR1518/Task4-RealTimeCounter/task4.c:31-73 | each interrupt increases `ticks + 10*(seconds + 60*(minutes + 60*(hours + 24*days)))` by exactly one, modulo 256·24·60·60·10 |
| `RtcClock.FromElapsed` | avr1518-clocks/AVR1518/Task4-RealTimeCounter/task4.c:19-22 | every tick count below the period reads back as in-range counters |
| `RtcClock.FromElapsedReadsBack` | avr1518-clocks/AVR1518/Task4-RealTimeCounter/task4.c:19-22 | reading the counters made from a tick count gives that count back |
| `RtcClock.ElapsedReadsBack` | avr1518-clocks/AVR1518/Task4-RealTimeCounter/task4.c:19-22 | in-range counters are determined by their reading, so the tick count is a faithful abstraction |
| `RtcClock.RealTimeCounter.constructor` | avr1518-clocks/AVR1518/Task4-RealTimeCounter/task4.c:24-28 | the statically zeroed counters are in range and read as tick 0 |
| `RtcClock.RealTimeCounter.Overflow` | avr1518-clocks/AVR1518/Task4-RealTimeCounter/task4.c:31-73 | the interrupt moves the counters as `Tick`, keeps them in range and adds one to the reading modulo the period |

## Left out

- The clock-system setup in `TWI_SlaveInitializeDriver`: enabling the 32 MHz
  oscillator, the busy-wait for it, selecting it and disabling the others.
  These are hardware register sequences with a spin loop.
- The `Process_Data` parameter of `TWI_SlaveInitializeDriver`. The model
  binds the driver to the example's callback; a separate callback is not
  modelled.
- Every `main()`, port, LED and switch configuration, PMIC and sleep setup,
  `sei()`, the SMEN write in the example's `main`, and the LED display switch
  of the RTC demo. This is register I/O glue.
- The ISR trampoline `ISR(PORTC_INT0_vect)` with its flag handling, and the
  debug write `PORTF.OUT` in the callback. These are I/O.
- The STATUS write-back in the stop handler also writes back the other
  flags it read. The model records only that APIF was written back.
- A count of callback runs. It is not part of the state, so "once per stored
  byte" shows only in `ReceiveStep` calling `EchoData` once on the store path.
- The unused globals `twic_ctrla_reg`, `twic_ctrlb_reg`, `twi_data` and the
  unused `NUM_BYTES`.
- The low-power, 32-bit RTC, ADC, USART, PLL, DFLL and clock-switching
  demos. These are power-mode and peripheral register setup, or calls into
  drivers that are not part of this model.
- Real bus timing, clock stretching, smart-mode acknowledgement in hardware,
  and interrupt priority or reentrancy. The model treats each interrupt as
  one atomic step.
