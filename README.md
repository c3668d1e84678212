# TwoWire: a Dafny model of an AVR TWI (I2C) driver

This project models the core of the TwoWire library, a C++ driver for the
two-wire serial interface (TWI, Atmel's I2C) of AVR microcontrollers, and
proves properties of that model. The library has three layers:

- **Peripheral configuration** (`TwoWireCore`): enabling and disabling the
  interface, the own slave address and address mask, the bit rate and
  prescaler, general-call recognition, the interrupt enable, and the bus
  error flag. It works on the TWCR, TWSR, TWDR, TWAR, TWAMR and TWBR
  registers.
- **Master**: two classes.
  - `MasterConfiguration` is the engine. Each primitive (start, stop-start,
    SLA+W or SLA+R addressing, sending or receiving one byte or a buffer)
    writes TWCR/TWDR and busy-waits on TWINT against a `micros()` deadline.
    It then maps the TWSR status code to a `Status`.
  - `MasterConfig` is the policy layer. Each composite operation (send,
    receive, read a register) runs a fixed sequence of primitives. On a
    failure, the configured bus-lost behaviour decides whether the whole
    composite starts again.
- **Slave**: TWSR decoders and ACK/NACK helpers, and two interrupt-driven
  buffers. `SlaveReceiver` collects bytes a master writes. `SlaveTransmitter`
  supplies bytes a master reads.

## How the model is built

- **The peripheral** is the class `TwoWireCore.Twi`.
  - Its six registers are `bv8` fields.
  - The bus is a *script* of events. Each event gives the number of polls for
    which TWINT still reads 0, then the status code and the data byte.
  - `micros()` is a *clock* of readings.
  - Every TWCR/TWDR write goes to a ghost *log*, which gives the bytes handed
    to the bus.
- **Hardware steps.** `ghost State()` gives the peripheral as a value of type
  `Hw`. Every hardware step is specified by a function on `Hw`:
  - `ControlWritten` and `DataWritten` for register writes;
  - `Polled` for one poll of TWINT;
  - `Ticked` for one `micros()` reading;
  - `Delivered` for the bus answering.
- **Methods against reference functions.** Every driver method is an
  imperative method. It is proved equal to a reference function on values,
  for example `Outcome(s, hw.State()) == SendByteSpec(old(hw.State()), t, timeout, b)`.
  The source's promises are then proved about those functions as lemmas.
- **Slave buffers.** `SlaveReceiver` and `SlaveTransmitter` keep the caller's
  buffer as an `array`. Their interrupt routines are methods proved equal to
  `Routine` on the value types `Rx` and `Tx`. Lemmas over sequences of
  interrupts (`Transfer`) state what a whole bus transaction does.
- **Composites as step lists.** Every composite of `MasterConfig` is written
  as its list of `Step`s. One `AttemptSpec` and one `CompositeSpec`, which
  adds the retries, define them all.
  - The retry recursion terminates because every retry follows a BusLost.
  - A BusLost consumes part of the script or the clock (`Supply`).
- **Integer widths are explicit.**
  - The deadline test `micros() - t > timeout` is taken modulo 2^32.
  - The bit-rate formula is computed in 32-bit unsigned arithmetic and then
    truncated to 8 bits.
  - Registers are bit-vectors.

## Model

| member | source | states |
|---|---|---|
| TwiCodes.Set | src/TwoWireCore.cpp:75-78 | `reg \|= m`: every bit of m is set and every other bit is kept |
| TwiCodes.Clear | src/TwoWireCore.cpp:80-83 | `reg &= ~m`: every bit of m is cleared and every other bit is kept |
| TwoWireCore.TwcrW | src/TwoWireCore.hpp:5-6 | TWCR_W(d): the bits of d are set; TWEA, TWWC, TWEN and TWIE keep their current values or are set by d; TWINT, TWSTA and TWSTO (and bit 1) are exactly those of d |
| TwoWireCore.TwcrWIdempotent | src/TwoWireCore.hpp:5-6 | writing TWCR_W(d) a second time leaves TWCR as the first write left it |
| TwoWireCore.TwStatus | src/TwoWireMasterConfiguration.cpp:55 | TW_STATUS masks out the prescaler bits: the three low bits of the code are 0 |
| TwoWireCore.Bits | src/TwoWireCore.hpp:10-16 | a BitRatePrescaler's bits lie within TWPS1:TWPS0 |
| TwoWireCore.BitRate | src/TwoWireCore.cpp:45-48 | the TWBR value for a frequency is always an 8-bit value |
| TwoWireCore.PrescalerFactor | src/TwoWireCore.hpp:10-16 | the factor 4^TWPS that the prescaler bits select is one of 1, 4, 16, 64, and 1 exactly for x1 |
| TwoWireCore.BitRateForNoWrap | src/TwoWireCore.cpp:45-48 | when F_CPU/f is at least 16 and the result fits in 8 bits, the 32-bit computation of TWBR is exactly (F_CPU/f - 16)/2 |
| TwoWireCore.BitRateNoWrap | src/TwoWireCore.cpp:45-48 | the same on unbounded integers |
| TwoWireCore.SclFrequencyRoundTrip | src/TwoWireCore.cpp:45-58 | the SCL frequency of the bit rate chosen for f is at least f (the bit rate rounds down) |
| TwoWireCore.BaseFrequencyRoundTrip | src/TwoWireCore.cpp:45-58 | getBaseFrequency after setBaseFrequency(f) returns at least f whenever TWBR does not wrap |
| TwoWireCore.BitRateWrapsAboveMaximum | src/TwoWireCore.cpp:45-48 | at 16 MHz, asking for 2 MHz makes F_CPU/f - 16 negative; in 32 bits it wraps, and TWBR ends up at 252 |
| TwoWireCore.SclFrequencyAntitone | src/TwoWireCore.cpp:55-63 | a larger prescaler factor never gives a higher SCL frequency |
| TwoWireCore.PrescaledFrequencyAtX1 | src/TwoWireCore.cpp:55-63 | with prescaler x1, the prescaled SCL frequency equals getBaseFrequency |
| TwoWireCore.PrescaledFrequencyAtMostBase | src/TwoWireCore.cpp:55-63 | the prescaled SCL frequency never exceeds getBaseFrequency |
| TwoWireCore.FrequencyAtX1IgnoresBitRate | src/TwoWireCore.cpp:60-63 | as written, getFrequency with TWPS = 0 returns F_CPU/16 whatever TWBR is |
| TwoWireCore.FrequencyCounterexample | src/TwoWireCore.cpp:60-63 | at 16 MHz with TWBR = 72 and TWPS = 0, getFrequency as written returns 1 MHz; the prescaled formula gives 100 kHz |
| TwoWireCore.Twi.PollTwint | src/TwoWireMasterConfiguration.cpp:39-45 | one read of TWINT: on the script's head event with no poll left, TWSR and TWDR take its status and data and TWINT is set; otherwise one poll of the head is used up |
| TwoWireCore.Twi.Micros | src/TwoWireMasterConfiguration.hpp:61 | one micros() reading: the clock's next value, or the last one once the clock is exhausted; nothing else changes |
| TwoWireCore.Twi.Init | src/TwoWireCore.cpp:5-13 | init(address, frequency): own address set to the low 7 bits, general-call bit kept, TWBR from the frequency, TWSR unchanged (prescaler x1 ORs in no bits), TWCR = TWEA \| TWEN, and one TWCR write logged |
| TwoWireCore.Twi.Enable | src/TwoWireCore.cpp:15-18 | TWCR := TWEA \| TWEN |
| TwoWireCore.Twi.Disable | src/TwoWireCore.cpp:20-23 | TWEA, TWEN and TWIE cleared, every other TWCR bit kept |
| TwoWireCore.Twi.SetAddress | src/TwoWireCore.cpp:25-28 | getAddress() afterwards returns the low 7 bits of the address and TWGCE is kept; only TWAR changes |
| TwoWireCore.Twi.SetAddressWithGeneralCall | src/TwoWireCore.cpp:30-33 | the same, with TWGCE set exactly when general-call recognition is requested |
| TwoWireCore.Twi.GetAddress | src/TwoWireCore.cpp:35-38 | a 7-bit address, which shifted back left and joined with TWGCE rebuilds TWAR |
| TwoWireCore.Twi.SetAddressMask | src/TwoWireCore.cpp:40-43 | TWAMR holds the low 7 bits of the mask shifted left, with bit 0 clear; only TWAMR changes |
| TwoWireCore.Twi.SetBaseFrequency | src/TwoWireCore.cpp:45-48 | TWBR := ((F_CPU / f) - 16) / 2 in 32-bit unsigned arithmetic truncated to 8 bits; when no wrap occurs, getBaseFrequency afterwards is at least f |
| TwoWireCore.Twi.SetFrequencyPrescaler | src/TwoWireCore.cpp:50-53 | TWSR \|= the prescaler bits: TWPS gains them, no TWSR bit is cleared, the status bits are untouched |
| TwoWireCore.Twi.GetBaseFrequency | src/TwoWireCore.cpp:55-58 | F_CPU / (16 + 2 TWBR) |
| TwoWireCore.Twi.GetFrequency | src/TwoWireCore.cpp:60-63 | the formula as written, with the raw TWPS bits as a factor (see Findings) |
| TwoWireCore.Twi.AllowSlaveCommunication | src/TwoWireCore.cpp:65-68 | TWEA set, every other TWCR bit kept |
| TwoWireCore.Twi.DisallowSlaveCommunication | src/TwoWireCore.cpp:70-73 | TWEA cleared, every other TWCR bit kept |
| TwoWireCore.Twi.AllowGeneralCall | src/TwoWireCore.cpp:75-78 | TWGCE set, the own address unchanged |
| TwoWireCore.Twi.DisallowGeneralCall | src/TwoWireCore.cpp:80-83 | TWGCE cleared, the own address unchanged |
| TwoWireCore.GeneralCallTogglesIdempotent | src/TwoWireCore.cpp:75-83 | allowing or disallowing the general call twice leaves TWAR as doing it once |
| TwoWireCore.Twi.EnableInterrupt | src/TwoWireCore.cpp:85-88 | TWIE set, every other TWCR bit kept |
| TwoWireCore.Twi.DisableInterrupt | src/TwoWireCore.cpp:90-93 | TWIE cleared, every other TWCR bit kept |
| TwoWireCore.Twi.IsErrored | src/TwoWireCore.cpp:95-98 | true exactly when the status code is TW_BUS_ERROR |
| TwoWireCore.Twi.ClearError | src/TwoWireCore.cpp:100-103 | TWINT and TWSTO set, every other TWCR bit kept |
| TwoWireCore.Twi.ClearErrorIfSet | src/TwoWireCore.cpp:105-108 | clears the error when the status is TW_BUS_ERROR and changes nothing otherwise |
| TwoWireSlave.GetStatus | src/TwoWireSlave.cpp:46-89 | the detailed slave status is Unknown exactly for the codes outside the 16 slave codes |
| TwoWireSlave.GetBasicStatus | src/TwoWireSlave.cpp:7-44 | the basic status is the coarsening of the detailed status, and Unknown exactly outside the slave codes |
| TwoWireSlave.GetStatusInjective | src/TwoWireSlave.cpp:46-89 | two slave codes with the same detailed status are the same code |
| TwoWireSlave.ArbitrationLostAddressing | src/TwoWireSlave.cpp:7-44 | after a lost arbitration, being addressed still reads as addressed as receiver or transmitter |
| TwoWireSlave.AcceptedNext | src/TwoWireSlave.cpp:91-94 | acceptNextData: TWINT and TWEA set, other TWCR bits kept |
| TwoWireSlave.DeclinedNext | src/TwoWireSlave.cpp:96-100 | declineNextData: TWINT set and TWEA cleared |
| TwoWireSlave.DeclinedNextKeepsOtherBits | src/TwoWireSlave.cpp:96-100 | declineNextData changes no TWCR bit besides TWINT and TWEA |
| TwoWireSlave.AcceptNextData | src/TwoWireSlave.cpp:91-94 | the peripheral afterwards is AcceptedNext of the one before |
| TwoWireSlave.DeclineNextData | src/TwoWireSlave.cpp:96-100 | the peripheral afterwards is DeclinedNext of the one before |
| TwoWireSlave.GetData | src/TwoWireSlave.cpp:102-105 | the byte in TWDR |
| TwoWireSlave.SendData | src/TwoWireSlave.cpp:107-111 | the byte goes to TWDR, then the next byte is acknowledged |
| TwoWireSlave.SendLastData | src/TwoWireSlave.cpp:113-118 | the byte goes to TWDR, then the next one is declined |
| TwoWireSlaveReceiver.Routine | src/TwoWireSlaveReceiver.cpp:48-83 | one interrupt keeps the size and buffer length and never lets the count pass the size; every code other than the addressed and data codes leaves the receiver unchanged |
| TwoWireSlaveReceiver.FedData | src/TwoWireSlaveReceiver.cpp:67-80 | a run of acknowledged data bytes keeps the buffer length and the size |
| TwoWireSlaveReceiver.StoresOne | src/TwoWireSlaveReceiver.cpp:67-80 | one acknowledged byte with room goes to buf[count], the count rises by one, and TWEA is set exactly when room is left |
| TwoWireSlaveReceiver.FedDataStoresInOrder | src/TwoWireSlaveReceiver.cpp:67-80 | bytes that fit are stored in order from buf[count] on, no other slot changes, and after the last of them TWEA is set exactly when room is left |
| TwoWireSlaveReceiver.TransferFillsFromFront | src/TwoWireSlaveReceiver.cpp:48-83 | a write transfer into a receiver with room starts over at buf[0], stores the bytes there, leaves the rest alone, and makes data available exactly when it filled the buffer |
| TwoWireSlaveReceiver.FullReceiverDeclines | src/TwoWireSlaveReceiver.cpp:52-66 | a full receiver that is addressed again declines with TWEA cleared and keeps its buffer and count |
| TwoWireSlaveReceiver.SlaveReceiver.constructor | src/TwoWireSlaveReceiver.cpp:9-12 | buffer and size as given, count 0; the buffer must hold size bytes |
| TwoWireSlaveReceiver.SlaveReceiver.ForByte | src/TwoWireSlaveReceiver.cpp:14-17 | buffer as given, size 1, count 0; the buffer must hold one byte |
| TwoWireSlaveReceiver.SlaveReceiver.WithoutBuffer | src/TwoWireSlaveReceiver.cpp:19-22 | no buffer, size 0, count 0 |
| TwoWireSlaveReceiver.SlaveReceiver.ReceiveNextData | src/TwoWireSlaveReceiver.cpp:24-27 | the same buffer and size, count 0 |
| TwoWireSlaveReceiver.SlaveReceiver.ReceiveNextDataInto | src/TwoWireSlaveReceiver.cpp:29-34 | the new buffer and size, count 0; the buffer must hold size bytes |
| TwoWireSlaveReceiver.SlaveReceiver.ReceiveNextByteInto | src/TwoWireSlaveReceiver.cpp:36-41 | the new buffer, size 1, count 0; the buffer must hold one byte |
| TwoWireSlaveReceiver.SlaveReceiver.IsDataAvailable | src/TwoWireSlaveReceiver.cpp:43-46 | true exactly when count equals size |
| TwoWireSlaveReceiver.SlaveReceiver.InterruptVectorRoutine | src/TwoWireSlaveReceiver.cpp:48-83 | the object, its buffer and the peripheral afterwards are Routine of their values before, and count <= size is kept |
| TwoWireSlaveReceiver.SlaveReceiver.OnAddressed | src/TwoWireSlaveReceiver.cpp:52-66 | the addressed branch: count reset and ACK armed with room, NACK armed without |
| TwoWireSlaveReceiver.SlaveReceiver.OnData | src/TwoWireSlaveReceiver.cpp:67-80 | the data branch: TWDR stored at data[count], count raised, ACK or NACK armed for the next byte |
| TwoWireSlaveTransmitter.ByteAt | src/TwoWireSlaveTransmitter.cpp:48 | data[count], for an index within the buffer |
| TwoWireSlaveTransmitter.Routine | src/TwoWireSlaveTransmitter.cpp:34-60 | one interrupt keeps the buffer and size and never lets the count pass the size; TW_ST_DATA_NACK, TW_ST_LAST_DATA and every other code leave the transmitter unchanged |
| TwoWireSlaveTransmitter.AckedOnceIsInterrupt | src/TwoWireSlaveTransmitter.cpp:45-57 | the routine takes TW_ST_DATA_ACK to the data case |
| TwoWireSlaveTransmitter.EmitsOne | src/TwoWireSlaveTransmitter.cpp:45-57 | one acknowledgement with bytes left sends data[count] and only it, and the count rises by one |
| TwoWireSlaveTransmitter.AckedSendsInOrder | src/TwoWireSlaveTransmitter.cpp:45-57 | k acknowledgements with k bytes left send data[count..count+k] in order |
| TwoWireSlaveTransmitter.AddressedSendsFirst | src/TwoWireSlaveTransmitter.cpp:38-57 | addressed with bytes left: the count starts over and data[0] is sent |
| TwoWireSlaveTransmitter.TransferSendsBuffer | src/TwoWireSlaveTransmitter.cpp:34-60 | a read transfer from a transmitter with bytes left sends the whole buffer once, in order, and leaves the data reported transmitted |
| TwoWireSlaveTransmitter.SentTransmitterDeclines | src/TwoWireSlaveTransmitter.cpp:45-57 | once everything was sent, being addressed or acknowledged sends nothing, clears TWEA and keeps the count |
| TwoWireSlaveTransmitter.SlaveTransmitter.constructor | src/TwoWireSlaveTransmitter.cpp:7-10 | buffer and size as given, count 0; the buffer must hold size bytes |
| TwoWireSlaveTransmitter.SlaveTransmitter.WithoutBuffer | src/TwoWireSlaveTransmitter.cpp:12-15 | no buffer, size 0, count 0 |
| TwoWireSlaveTransmitter.SlaveTransmitter.TransmitDataAgain | src/TwoWireSlaveTransmitter.cpp:17-20 | the same buffer and size, count 0 |
| TwoWireSlaveTransmitter.SlaveTransmitter.TransmitData | src/TwoWireSlaveTransmitter.cpp:22-27 | the new buffer and size, count 0; the buffer must hold size bytes |
| TwoWireSlaveTransmitter.SlaveTransmitter.IsDataTransmitted | src/TwoWireSlaveTransmitter.cpp:29-32 | true exactly when count equals size |
| TwoWireSlaveTransmitter.SlaveTransmitter.InterruptVectorRoutine | src/TwoWireSlaveTransmitter.cpp:34-60 | the object and the peripheral afterwards are Routine of their values before; the buffer is not written |
| TwoWireSlaveTransmitter.SlaveTransmitter.OnAddressed | src/TwoWireSlaveTransmitter.cpp:38-44 | the addressed case: count restarted with bytes left, then the data case |
| TwoWireSlaveTransmitter.SlaveTransmitter.OnDataAck | src/TwoWireSlaveTransmitter.cpp:45-57 | the data case: the next byte is sent with TWEA set, or TWEA is cleared when none is left |
| TwoWireMasterConfiguration.AddressResultAgreesWithSlaveDecoder | src/TwoWireMasterConfiguration.cpp:87-116 | the master's AddressedAsSlave is exactly the slave decoder's lost-arbitration addressing, and its Error exactly the slave decoder's Error |
| TwoWireMasterConfiguration.Stopped | src/TwoWireMasterConfiguration.cpp:34-37 | signalStop takes nothing from the bus script or the clock |
| TwoWireMasterConfiguration.NeverLate | src/TwoWireMasterConfiguration.cpp:24-27 | with the timeout disabled (2^32 - 1), no reading is ever past the deadline |
| TwoWireMasterConfiguration.AwaitFinish | src/TwoWireMasterConfiguration.cpp:44 | the final micros() decides lateness (the wrapping difference exceeds the timeout); only the clock changes |
| TwoWireMasterConfiguration.Await | src/TwoWireMasterConfiguration.cpp:39-45 | _awaitTWINT reports late exactly when the last reading is past the deadline; on time it has consumed a bus event or has found the bus silent |
| TwoWireMasterConfiguration.AwaitKeepsLog | src/TwoWireMasterConfiguration.cpp:39-45 | waiting writes no register: the log, TWAR, TWBR and every TWCR bit but TWINT are kept |
| TwoWireMasterConfiguration.AwaitWithoutTimeout | src/TwoWireMasterConfiguration.cpp:39-45 | without a timeout the wait never times out and takes exactly the next bus event into TWSR and TWDR |
| TwoWireMasterConfiguration.StartSpec | src/TwoWireMasterConfiguration.cpp:47-85 | a start or stop-start ends in Success, Error, Unknown or Timeout, never BusLost; its status table is StartFromScript, its timeout path StartTimesOut |
| TwoWireMasterConfiguration.SignalStartSpec | src/TwoWireMasterConfiguration.cpp:47-65 | _signalStart consumes the bus; SignalStartWrites gives its one TWCR write, StartFromScript its status for each code |
| TwoWireMasterConfiguration.SignalStopStartSpec | src/TwoWireMasterConfiguration.cpp:67-85 | _signalStopStart consumes the bus; SignalStopStartWrites gives its one TWCR write, StartFromScript its status for each code |
| TwoWireMasterConfiguration.AddressSpec | src/TwoWireMasterConfiguration.cpp:87-116 | addressing never reports DataNACK, and a BusLost consumed part of the bus script or clock; AddressSends gives the byte sent, AddressTimesOut the timeout path |
| TwoWireMasterConfiguration.AddressSlaveWSpec | src/TwoWireMasterConfiguration.cpp:87-116 | _addressSlaveW consumes the bus; AddressSlaveWSends gives the SLA+W byte, AddressSlaveWFromScript the status table and the stop after a NACK |
| TwoWireMasterConfiguration.AddressSlaveRSpec | src/TwoWireMasterConfiguration.cpp:158-187 | _addressSlaveR consumes the bus; AddressSlaveRSends gives the SLA+R byte, AddressSlaveRFromScript the status table and the stop after a NACK |
| TwoWireMasterConfiguration.SendByteSpec | src/TwoWireMasterConfiguration.cpp:118-143 | sending a byte never reports AddressNACK or AddressedAsSlave; SendByteSends gives the byte sent, SendByteFromScript the status table and the stop after a NACK, SendByteTimesOut the timeout path |
| TwoWireMasterConfiguration.SendBytesSpec | src/TwoWireMasterConfiguration.cpp:145-156 | the corrected buffer send never reports AddressNACK or AddressedAsSlave; SendBytesStopsAtFailure gives the stop at the first failing byte, SendBytesSendsInOrder the bytes on the bus |
| TwoWireMasterConfiguration.SendBytesStopsAtFailure | src/TwoWireMasterConfiguration.cpp:147-153 | when the bytes before b were all sent and b fails, the buffer send returns b's status and peripheral, and no later byte is attempted |
| TwoWireMasterConfiguration.TransmittedSends | src/TwoWireMasterConfiguration.cpp:120-123 | handing a byte to the bus sends exactly that byte |
| TwoWireMasterConfiguration.SendAnswerSendsNothing | src/TwoWireMasterConfiguration.cpp:127-142 | reading the answer, including the stop after a NACK, sends no data |
| TwoWireMasterConfiguration.SendByteSends | src/TwoWireMasterConfiguration.cpp:118-143 | _sendData(t, b) sends exactly b, whatever the bus answers |
| TwoWireMasterConfiguration.SendBytesSendsInOrder | src/TwoWireMasterConfiguration.cpp:145-156 | the corrected loop sends a prefix of the data in order, at least one byte for non-empty data, and on Success exactly the data |
| TwoWireMasterConfiguration.SendBytesAsWrittenSendsDeadlineByte | src/TwoWireMasterConfiguration.cpp:149 | as written, every byte the loop sends is the low byte of t, not the data |
| TwoWireMasterConfiguration.SendBytesAsWrittenLosesData | src/TwoWireMasterConfiguration.cpp:149 | as written, sending [0xAB] with t = 0x100 puts 0x00 on the bus |
| TwoWireMasterConfiguration.ReceiveLastSpec | src/TwoWireMasterConfiguration.cpp:190-213 | receiving a last byte keeps the buffer length and never reports a NACK or AddressedAsSlave; ReceiveLastTimesOut gives the timeout path |
| TwoWireMasterConfiguration.ReceiveAckedSpec | src/TwoWireMasterConfiguration.cpp:221-238 | one pass of the receive loop keeps the buffer length and never reports a NACK or AddressedAsSlave; ReceiveAckedTimesOut gives the timeout path |
| TwoWireMasterConfiguration.ReceiveAckedBytesSpec | src/TwoWireMasterConfiguration.cpp:218-241 | the receive loop keeps the buffer length and never reports a NACK or AddressedAsSlave |
| TwoWireMasterConfiguration.ReceiveBytesSpec | src/TwoWireMasterConfiguration.cpp:216-243 | receiving a buffer keeps its length and consumes the bus; ReceiveBytesFromScript gives the success path, ReceiveBytesFailsInLoop and ReceiveBytesFailsAtLast a failure at any byte, ReceiveBytesTimesOut a timeout at the first wait |
| TwoWireMasterConfiguration.AwaitNeverLate | src/TwoWireMasterConfiguration.cpp:39-45 | with the timeout disabled, _awaitTWINT never times out |
| TwoWireMasterConfiguration.StartWithoutTimeout | src/TwoWireMasterConfiguration.cpp:47-85 | with the timeout disabled, a start never reports Timeout |
| TwoWireMasterConfiguration.AddressWithoutTimeout | src/TwoWireMasterConfiguration.cpp:87-187 | with the timeout disabled, addressing never reports Timeout |
| TwoWireMasterConfiguration.SendByteWithoutTimeout | src/TwoWireMasterConfiguration.cpp:118-143 | with the timeout disabled, sending a byte never reports Timeout |
| TwoWireMasterConfiguration.ReceiveLastWithoutTimeout | src/TwoWireMasterConfiguration.cpp:190-213 | with the timeout disabled, receiving the last byte never reports Timeout |
| TwoWireMasterConfiguration.ReceiveAckedWithoutTimeout | src/TwoWireMasterConfiguration.cpp:221-238 | with the timeout disabled, one pass of the loop never reports Timeout |
| TwoWireMasterConfiguration.StartFromScript | src/TwoWireMasterConfiguration.cpp:47-85 | with the timeout disabled, against a bus whose next answer has code c: TWCR_W(d) is the only write, the answer is consumed, and the status is Success exactly for TW_START or TW_REP_START, Error exactly for TW_BUS_ERROR, Unknown exactly for any other code |
| TwoWireMasterConfiguration.SignalStartWrites | src/TwoWireMasterConfiguration.cpp:49-50 | _signalStart writes TWCR once, with TWINT and TWSTA set and TWSTO clear, whatever the bus answers |
| TwoWireMasterConfiguration.SignalStopStartWrites | src/TwoWireMasterConfiguration.cpp:69-70 | _signalStopStart writes TWCR once, with TWINT, TWSTO and TWSTA set, whatever the bus answers |
| TwoWireMasterConfiguration.AddressSends | src/TwoWireMasterConfiguration.cpp:87-116 | addressing writes exactly the address byte to TWDR, whatever the bus answers; the stop after a NACK sends no data |
| TwoWireMasterConfiguration.AddressSlaveWSends | src/TwoWireMasterConfiguration.cpp:90 | _addressSlaveW puts (address << 1) \| TW_WRITE on the bus |
| TwoWireMasterConfiguration.AddressSlaveRSends | src/TwoWireMasterConfiguration.cpp:161 | _addressSlaveR puts (address << 1) \| TW_READ on the bus |
| TwoWireMasterConfiguration.AddressSlaveWFromScript | src/TwoWireMasterConfiguration.cpp:87-116 | with the timeout disabled: TWDR := SLA+W and TWCR_W(TWINT) are written and the answer is consumed; TW_MT_SLA_ACK gives Success; TW_MT_SLA_NACK gives AddressNACK followed by a stop; TW_MT_ARB_LOST gives BusLost with no further write; 0x68, 0x78, 0xB0 give AddressedAsSlave; TW_BUS_ERROR gives Error; any other code Unknown; only AddressNACK adds a write |
| TwoWireMasterConfiguration.AddressSlaveRFromScript | src/TwoWireMasterConfiguration.cpp:158-187 | the same for SLA+R with TW_MR_SLA_ACK, TW_MR_SLA_NACK and TW_MR_ARB_LOST |
| TwoWireMasterConfiguration.SendByteFromScript | src/TwoWireMasterConfiguration.cpp:118-143 | with the timeout disabled: TWDR := b and TWCR_W(TWINT) are written and the answer is consumed; TW_MT_DATA_ACK gives Success; TW_MT_DATA_NACK gives DataNACK followed by a stop; TW_MT_ARB_LOST gives BusLost with no further write; TW_BUS_ERROR gives Error; any other code Unknown |
| TwoWireMasterConfiguration.AwaitTimesOut | src/TwoWireMasterConfiguration.cpp:39-45 | when TWINT still reads 0 and every remaining micros() reading is past the deadline, the wait reports late after one poll; the bus's answer stays pending, and TWSR, TWDR and the log are unchanged |
| TwoWireMasterConfiguration.StartTimesOut | src/TwoWireMasterConfiguration.cpp:52-53 | a start whose wait is overdue returns Timeout without consulting TW_STATUS; TWCR_W(d) is its only write |
| TwoWireMasterConfiguration.AddressTimesOut | src/TwoWireMasterConfiguration.cpp:94-95 | addressing whose wait is overdue returns Timeout without consulting TW_STATUS and writes no stop |
| TwoWireMasterConfiguration.SendByteTimesOut | src/TwoWireMasterConfiguration.cpp:125-126 | sending a byte whose wait is overdue returns Timeout without consulting TW_STATUS and writes no stop |
| TwoWireMasterConfiguration.ReceiveLastTimesOut | src/TwoWireMasterConfiguration.cpp:192-198 | receiving a last byte whose wait is overdue returns Timeout and writes nothing into the buffer |
| TwoWireMasterConfiguration.ReceiveAckedTimesOut | src/TwoWireMasterConfiguration.cpp:221-224 | a pass of the receive loop whose wait is overdue returns Timeout and writes nothing into the buffer |
| TwoWireMasterConfiguration.ReceiveBytesTimesOut | src/TwoWireMasterConfiguration.cpp:216-243 | receiving a buffer whose first wait is overdue returns Timeout and leaves the buffer as it was |
| TwoWireMasterConfiguration.ReceiveAckedFromScript | src/TwoWireMasterConfiguration.cpp:221-238 | a byte answered TW_MR_DATA_ACK succeeds and is stored at buf[at], consuming one bus event |
| TwoWireMasterConfiguration.ReceiveLastFromScript | src/TwoWireMasterConfiguration.cpp:190-213 | a last byte answered TW_MR_DATA_NACK succeeds and is stored at buf[at], consuming one bus event |
| TwoWireMasterConfiguration.ReceiveAckedBytesFills | src/TwoWireMasterConfiguration.cpp:218-241 | a loop whose bytes are all acknowledged succeeds, stores them one after another, and consumes one event per byte |
| TwoWireMasterConfiguration.ReceiveAckedBytesFromScript | src/TwoWireMasterConfiguration.cpp:218-241 | the same with the buffer afterwards spelt out: the acknowledged bytes at buf[at..], the rest unchanged |
| TwoWireMasterConfiguration.ReceiveBytesFromScript | src/TwoWireMasterConfiguration.cpp:216-243 | against a slave that acknowledges size - 1 bytes and then delivers a last one, the buffer receive succeeds and stores all size bytes in order from buf[at] |
| TwoWireMasterConfiguration.LastAfterAcked | src/TwoWireMasterConfiguration.cpp:242 | the last byte, received after the loop, lands right after the acknowledged ones |
| TwoWireMasterConfiguration.AckedFailure | src/TwoWireMasterConfiguration.cpp:226-237 | a loop byte answered with another code than TW_MR_DATA_ACK stores nothing, and its code decides the failure: BusLost, Error or Unknown |
| TwoWireMasterConfiguration.LastFailure | src/TwoWireMasterConfiguration.cpp:199-212 | a last byte answered with another code than TW_MR_DATA_NACK stores nothing, and its code decides the failure |
| TwoWireMasterConfiguration.ReceiveBytesFailsAtLast | src/TwoWireMasterConfiguration.cpp:216-243 | when the slave acknowledges the loop's bytes but answers the last with a wrong code, that code's failure is returned and only the acknowledged bytes were stored |
| TwoWireMasterConfiguration.AckedLoopIsByteLoop | src/TwoWireMasterConfiguration.cpp:218-241 | the loop over all but the last byte is the generic byte loop run with the acknowledged-byte step: each pass receives one byte and the first failure ends the loop |
| TwoWireMasterConfiguration.AckedRefused | src/TwoWireMasterConfiguration.cpp:226-237 | an acknowledged byte the bus answers with another code than TW_MR_DATA_ACK is not stored, and its code decides the failure |
| TwoWireMasterConfiguration.ByteLoopStopsAtRefusal | src/TwoWireMasterConfiguration.cpp:218-241 | for any step that stores acknowledged bytes and fails on a refused one, the loop stops at the first refused byte with its failure, and only the bytes before it were written |
| TwoWireMasterConfiguration.ReceiveBytesFailsInLoop | src/TwoWireMasterConfiguration.cpp:216-243 | when the slave acknowledges k bytes and refuses byte k of the loop (k < size - 1), that code's failure is returned, only the k bytes before it are stored in order from buf[at], and the rest of the buffer is unchanged |
| TwoWireMasterConfiguration.ReceiveLastLeavesTweaCleared | src/TwoWireMasterConfiguration.cpp:189-196 | _receiveData(t, data) leaves TWEA cleared whatever the bus answers; it is not restored |
| TwoWireMasterConfiguration.MasterConfiguration.constructor | src/TwoWireMasterConfiguration.cpp:9-12 | the given timeout |
| TwoWireMasterConfiguration.MasterConfiguration.WithoutTimeout | src/TwoWireMasterConfiguration.cpp:14-17 | the timeout (uint32_t)(-1), that is disabled |
| TwoWireMasterConfiguration.MasterConfiguration.SetTimeout | src/TwoWireMasterConfiguration.cpp:19-22 | the timeout is the given one |
| TwoWireMasterConfiguration.MasterConfiguration.SetDefaultTimeout | src/TwoWireMasterConfiguration.hpp:85 | setTimeout() with its default: 25000 microseconds |
| TwoWireMasterConfiguration.MasterConfiguration.DisableTimeout | src/TwoWireMasterConfiguration.cpp:24-27 | the timeout is (uint32_t)(-1) |
| TwoWireMasterConfiguration.MasterConfiguration.AcceptBusLost | src/TwoWireMasterConfiguration.cpp:29-32 | TWCR := TWCR_W(TWINT) |
| TwoWireMasterConfiguration.MasterConfiguration.SignalStop | src/TwoWireMasterConfiguration.cpp:34-37 | TWCR := TWCR_W(TWINT \| TWSTO) |
| TwoWireMasterConfiguration.MasterConfiguration.AwaitTwint | src/TwoWireMasterConfiguration.cpp:39-45 | the busy-wait loop: its lateness and the peripheral afterwards are those of Await |
| TwoWireMasterConfiguration.MasterConfiguration.SignalStartAt | src/TwoWireMasterConfiguration.cpp:47-65 | status and peripheral are those of SignalStartSpec: its write and status table in SignalStartWrites, StartFromScript and StartTimesOut |
| TwoWireMasterConfiguration.MasterConfiguration.SignalStopStartAt | src/TwoWireMasterConfiguration.cpp:67-85 | status and peripheral are those of SignalStopStartSpec: its write and status table in SignalStopStartWrites, StartFromScript and StartTimesOut |
| TwoWireMasterConfiguration.MasterConfiguration.AddressSlaveW | src/TwoWireMasterConfiguration.cpp:87-116 | status and peripheral are those of AddressSlaveWSpec: the SLA+W byte, the status table and the NACK stop in AddressSlaveWSends, AddressSlaveWFromScript and AddressTimesOut |
| TwoWireMasterConfiguration.MasterConfiguration.AddressSlaveR | src/TwoWireMasterConfiguration.cpp:158-187 | status and peripheral are those of AddressSlaveRSpec: the SLA+R byte, the status table and the NACK stop in AddressSlaveRSends, AddressSlaveRFromScript and AddressTimesOut |
| TwoWireMasterConfiguration.MasterConfiguration.SendByteAt | src/TwoWireMasterConfiguration.cpp:118-143 | status and peripheral are those of SendByteSpec: the byte, the status table and the NACK stop in SendByteSends, SendByteFromScript and SendByteTimesOut |
| TwoWireMasterConfiguration.MasterConfiguration.SendBytesAt | src/TwoWireMasterConfiguration.cpp:145-156 | the loop (with the argument order corrected): status and peripheral are those of SendBytesSpec |
| TwoWireMasterConfiguration.MasterConfiguration.ReceiveByteAt | src/TwoWireMasterConfiguration.cpp:190-213 | status, peripheral and buffer are those of ReceiveLastSpec: the timeout path in ReceiveLastTimesOut |
| TwoWireMasterConfiguration.MasterConfiguration.ReceiveAckedAt | src/TwoWireMasterConfiguration.cpp:221-240 | one pass of the loop body: status, peripheral and buffer are those of ReceiveAckedSpec: the timeout path in ReceiveAckedTimesOut |
| TwoWireMasterConfiguration.MasterConfiguration.ReceiveAckedBytesAt | src/TwoWireMasterConfiguration.cpp:218-241 | the while loop: status, peripheral and buffer are those of ReceiveAckedBytesSpec |
| TwoWireMasterConfiguration.MasterConfiguration.ReceiveBytesAt | src/TwoWireMasterConfiguration.cpp:216-243 | status, peripheral and buffer are those of ReceiveBytesSpec: the timeout at the first wait in ReceiveBytesTimesOut |
| TwoWireMasterConfiguration.MasterConfiguration.SignalStart | src/TwoWireMasterConfiguration.cpp:245-248 | micros() read once, then _signalStart with that deadline base |
| TwoWireMasterConfiguration.MasterConfiguration.SignalStopStart | src/TwoWireMasterConfiguration.cpp:250-253 | micros() read once, then _signalStopStart |
| TwoWireMasterConfiguration.MasterConfiguration.AddressForWriting | src/TwoWireMasterConfiguration.cpp:255-258 | micros() read once, then _addressSlaveW |
| TwoWireMasterConfiguration.MasterConfiguration.AddressForReading | src/TwoWireMasterConfiguration.cpp:260-263 | micros() read once, then _addressSlaveR |
| TwoWireMasterConfiguration.MasterConfiguration.SendData | src/TwoWireMasterConfiguration.cpp:265-268 | micros() read once, then _sendData(t, data) |
| TwoWireMasterConfiguration.MasterConfiguration.SendBuffer | src/TwoWireMasterConfiguration.cpp:270-273 | micros() read once, then the corrected buffer send |
| TwoWireMasterConfiguration.MasterConfiguration.ReceiveData | src/TwoWireMasterConfiguration.cpp:275-278 | micros() read once, then _receiveData(t, data) |
| TwoWireMasterConfiguration.MasterConfiguration.ReceiveBuffer | src/TwoWireMasterConfiguration.cpp:280-283 | micros() read once, then _receiveData(t, data, size) |
| TwoWireMasterConfig.StepSpec | src/TwoWireMasterConfig.cpp:64-194 | one primitive keeps the buffer length and consumes the bus |
| TwoWireMasterConfig.AttemptSpec | src/TwoWireMasterConfig.cpp:3-9 | one attempt keeps the buffer length, and a BusLost in it consumed a bus event or a clock reading |
| TwoWireMasterConfig.HandleBadStatusSpec | src/TwoWireMasterConfig.cpp:35-62 | a retry is asked for exactly on BusLost with a behaviour other than Abort; the deadline base changes only for RetryExtendingTimeout; the handler never adds to what is left of the bus script and clock |
| TwoWireMasterConfig.HandleBusLostSpec | src/TwoWireMasterConfig.hpp:31-46 | _handleBusLost re-invokes the operation exactly when the behaviour is not Abort |
| TwoWireMasterConfig.HandleUnsuccessfulStatusSpec | src/TwoWireMasterConfig.hpp:48-65 | _handleUnsuccessfulStatus retries exactly on BusLost when the behaviour is not Abort |
| TwoWireMasterConfig.CompositeSpec | src/TwoWireMasterConfig.cpp:64-194 | a composite with its retries keeps the buffer length; SuccessStopsIffAsked gives the success path, BusLostOnlyWhenAborting, AbortRunsOnce, the Retry lemmas and OtherFailuresAreFinal the failure paths |
| TwoWireMasterConfig.SuccessStopsIffAsked | src/TwoWireMasterConfig.cpp:76-80 | a successful attempt ends the composite with Success and the attempt's buffer; signalStop is written exactly when stop is true, and otherwise the peripheral is left as the attempt left it |
| TwoWireMasterConfig.AttemptAppend | src/TwoWireMasterConfig.cpp:3-9 | an attempt over two step lists runs the first and, only if it succeeded, the second |
| TwoWireMasterConfig.FailureEndsAttempt | src/TwoWireMasterConfig.cpp:3-9 | the first failing step ends the attempt with its result; no later step runs |
| TwoWireMasterConfig.AttemptSucceedsIffBothHalves | src/TwoWireMasterConfig.cpp:3-9 | an attempt succeeds exactly when each half succeeds in turn |
| TwoWireMasterConfig.HandleBusLostAgrees | src/TwoWireMasterConfig.hpp:31-46 | _handleBusLost decides a BusLost exactly as _handleBadStatus does |
| TwoWireMasterConfig.HandlersDifferOnlyOnAddressNack | src/TwoWireMasterConfig.hpp:48-65 | the two handlers agree on every status but AddressNACK, after which only _handleUnsuccessfulStatus writes a stop |
| TwoWireMasterConfig.BusLostOnlyWhenAborting | src/TwoWireMasterConfig.cpp:35-62 | a composite returns BusLost only under the Abort behaviour |
| TwoWireMasterConfig.AbortRunsOnce | src/TwoWireMasterConfig.cpp:35-62 | under Abort a composite runs one attempt and returns its status and buffer; on a BusLost it sets TWINT |
| TwoWireMasterConfig.RetryWithinKeepsDeadline | src/TwoWireMasterConfig.cpp:39-46 | RetryWithinTimeout restarts the composite after a BusLost with the same deadline base |
| TwoWireMasterConfig.RetryExtendingReadsClock | src/TwoWireMasterConfig.cpp:39-46 | RetryExtendingTimeout restarts the composite with a fresh micros() reading as deadline base |
| TwoWireMasterConfig.OtherFailuresAreFinal | src/TwoWireMasterConfig.cpp:35-62 | failures other than BusLost are returned at once: after DataNACK a stop, after Error the error cleared, otherwise no write |
| TwoWireMasterConfig.AddressNackSendsNoData | src/TwoWireMasterConfig.cpp:64-81 | when the slave does not acknowledge its address, _send returns AddressNACK and the data byte is never written |
| TwoWireMasterConfig.MasterConfig.constructor | src/TwoWireMasterConfig.cpp:15-18 | the given timeout and bus-lost behaviour |
| TwoWireMasterConfig.MasterConfig.WithTimeout | src/TwoWireMasterConfig.cpp:20-23 | the given timeout, behaviour Abort |
| TwoWireMasterConfig.MasterConfig.WithoutTimeout | src/TwoWireMasterConfig.cpp:25-28 | timeout disabled, behaviour Abort |
| TwoWireMasterConfig.MasterConfig.SetBusLostBehaviour | src/TwoWireMasterConfig.cpp:30-33 | the behaviour is the given one |
| TwoWireMasterConfig.MasterConfig.HandleBadStatus | src/TwoWireMasterConfig.cpp:35-62 | decision, deadline base and peripheral are those of HandleBadStatusSpec |
| TwoWireMasterConfig.MasterConfig.HandleBusLost | src/TwoWireMasterConfig.hpp:31-46 | decision, deadline base and peripheral are those of HandleBusLostSpec |
| TwoWireMasterConfig.MasterConfig.HandleUnsuccessfulStatus | src/TwoWireMasterConfig.hpp:48-65 | decision, deadline base and peripheral are those of HandleUnsuccessfulStatusSpec |
| TwoWireMasterConfig.MasterConfig.RunStep | src/TwoWireMasterConfig.cpp:64-194 | one primitive: its results are those of StepSpec |
| TwoWireMasterConfig.MasterConfig.Attempt | src/TwoWireMasterConfig.cpp:3-9 | the steps in order up to the first failure: the results are those of AttemptSpec |
| TwoWireMasterConfig.MasterConfig.Run | src/TwoWireMasterConfig.cpp:3-9 | attempt, stop on success if asked, handler and retry on failure: the results are those of CompositeSpec |
| TwoWireMasterConfig.MasterConfig.SendAt | src/TwoWireMasterConfig.cpp:64-81 | _send(t, address, data, stop): start, SLA+W, one byte |
| TwoWireMasterConfig.MasterConfig.SendBufferAt | src/TwoWireMasterConfig.cpp:83-100 | _send(t, address, data, size, stop): start, SLA+W, the buffer, sent with the argument order of src/TwoWireMasterConfiguration.cpp:149 corrected (see Findings) |
| TwoWireMasterConfig.MasterConfig.ReceiveAt | src/TwoWireMasterConfig.cpp:102-119 | _receive(t, address, data, stop): start, SLA+R, one byte |
| TwoWireMasterConfig.MasterConfig.ReceiveBufferAt | src/TwoWireMasterConfig.cpp:121-138 | _receive(t, address, data, size, stop): start, SLA+R, size bytes |
| TwoWireMasterConfig.MasterConfig.ReceiveRegisterAt | src/TwoWireMasterConfig.cpp:140-166 | _receiveRegister: start, SLA+W, the register, start or stop-start, SLA+R, one byte |
| TwoWireMasterConfig.MasterConfig.ReceiveRegisterBufferAt | src/TwoWireMasterConfig.cpp:168-194 | the same ending in size bytes |
| TwoWireMasterConfig.MasterConfig.Send | src/TwoWireMasterConfig.cpp:196-199 | micros() read once, then _send |
| TwoWireMasterConfig.MasterConfig.SendAndStop | src/TwoWireMasterConfig.cpp:201-204 | send with stop = true |
| TwoWireMasterConfig.MasterConfig.SendBuffer | src/TwoWireMasterConfig.cpp:206-209 | micros() read once, then the buffer _send, with the argument order of src/TwoWireMasterConfiguration.cpp:149 corrected |
| TwoWireMasterConfig.MasterConfig.SendBufferAndStop | src/TwoWireMasterConfig.cpp:211-214 | buffer send with stop = true, with the argument order of src/TwoWireMasterConfiguration.cpp:149 corrected |
| TwoWireMasterConfig.MasterConfig.Receive | src/TwoWireMasterConfig.cpp:216-219 | micros() read once, then _receive |
| TwoWireMasterConfig.MasterConfig.ReceiveAndStop | src/TwoWireMasterConfig.cpp:221-224 | receive with stop = true |
| TwoWireMasterConfig.MasterConfig.ReceiveBuffer | src/TwoWireMasterConfig.cpp:226-229 | micros() read once, then the buffer _receive |
| TwoWireMasterConfig.MasterConfig.ReceiveBufferAndStop | src/TwoWireMasterConfig.cpp:231-234 | buffer receive with stop = true |
| TwoWireMasterConfig.MasterConfig.ReceiveRegister | src/TwoWireMasterConfig.cpp:236-239 | micros() read once, then _receiveRegister |
| TwoWireMasterConfig.MasterConfig.ReceiveRegisterAndStop | src/TwoWireMasterConfig.cpp:241-244 | register read with stop = true |
| TwoWireMasterConfig.MasterConfig.ReceiveRegisterBuffer | src/TwoWireMasterConfig.cpp:246-249 | micros() read once, then the buffer _receiveRegister |
| TwoWireMasterConfig.MasterConfig.ReceiveRegisterBufferAndStop | src/TwoWireMasterConfig.cpp:251-254 | buffer register read with stop = true |

## Left out

- Registers, the bus and the clock are explicit state and parameters. The bus is a script of answers, and `micros()` is a sequence of readings. Nothing models electrical timing or the TWI state machine beyond the status codes it reports.
- Concurrency: an interrupt routine is modelled as one atomic call. Preemption of main-line code by the TWI interrupt is not modelled.
- activatePullup and deactivatePullup (src/TwoWireCore.hpp:141-147) are declared but have no definition in the source, so there is nothing to model.
- The `TimeoutFunction` member-function arguments of `_executeTimedInstruction`, `_handleBusLost` and `_handleUnsuccessfulStatus` are not modelled. Each public operation is modelled as one `Micros` reading followed by the matching `...At` method. The two templates are modelled as their decision alone (`Handled.retry`); the caller runs the re-invocation. `_handleUnsuccessfulStatus` has no callers in the source, and `_handleBusLost` is called only from it (src/TwoWireMasterConfig.hpp:54).
- nullptr buffers are modelled as empty arrays. The receive methods require a buffer that holds the bytes written (`at < data.Length`), as the C++ code writes into it unchecked.
- TwoWireSlaveReceiver.SlaveReceiver and TwoWireSlaveTransmitter.SlaveTransmitter: their constructors and buffer rebinders (ReceiveNextDataInto, ReceiveNextByteInto, TransmitData) require a buffer of at least `size` bytes, and Valid() keeps `size <= data.Length`. The C++ code takes a pointer and a size it cannot check; with a shorter buffer its interrupt routines read or write past the end.
- TwoWireMasterConfiguration.MasterConfiguration.ReceiveBytesAt: requires `at < data.Length` even for size 0, because the source then still receives one byte into data[0].
- TwoWireSlaveReceiver.SlaveReceiver.InterruptVectorRoutine: requires count < size when a data code arrives. With count == size the source writes past the buffer. That cannot follow the routine's own NACK arming, which makes the hardware report TW_SR_DATA_NACK instead.
- TwoWireSlaveTransmitter.Transfer: defined only for size > 0, since a transfer of an empty buffer has no bytes to acknowledge.
- TwoWireMasterConfig.CompositeSpec: termination rests on the bus script and clock being finite (`Supply`). The model proves no bound on the number of retries against a bus that keeps reporting arbitration loss.
- `RETURN_EXECUTE_TIMED_FUNCTION` (used at src/TwoWireMasterConfig.cpp:198-248) is defined in none of the source files, and `_handleBadStatus` (src/TwoWireMasterConfig.cpp:35) is not declared in src/TwoWireMasterConfig.hpp. The model reads the macro as `return _executeTimedInstruction(f, args...)`: one `micros()` reading passed as `t` to the matching `_send`, `_receive` or `_receiveRegister`. It reads `_handleBadStatus` as the member function its definition gives, with `t` passed by reference, which CHECK_RETURN_STATUS calls.
- Ordinary `int` arithmetic in getBaseFrequency and getFrequency is modelled on unbounded integers. On AVR `int` is 16 bits, and `16+2*TWBR*(TWSR&3)` is evaluated in it; with an 8-bit TWBR and a 2-bit prescaler field its largest value is 16 + 2·255·3 = 1546, which fits, so no wrap-around is lost.
- TwoWireCore.BitRate, TwoWireCore.BitRateFor, TwoWireCore.Twi.Init and TwoWireCore.Twi.SetBaseFrequency: require `frequency != 0`. The source divides `F_CPU / frequency` unchecked (src/TwoWireCore.cpp:47), which for 0 is undefined behaviour in C++; the model does not say what the peripheral is left with then.
- TwoWireCore.Polled and TwoWireMasterConfiguration.Await: once the bus script is exhausted, a poll reads TWINT = 1 and delivers TW_NO_INFO at once, so _awaitTWINT then ends at its first poll and the primitive reports Unknown. The source keeps polling a silent bus until the deadline and returns Timeout, or spins forever when the timeout is disabled. A bus that stops answering is expressible only as an event with a long `wait`; the endless spin under a disabled timeout is not modelled.

## Findings

| source | as written | input that shows it | evidently intended | confidence | as-written member | corrected member |
|---|---|---|---|---|---|---|
| src/TwoWireMasterConfiguration.cpp:149 | `_sendData(*data, t)` passes the data byte as the deadline base and `t` as the byte, so the buffer send puts the low byte of `t` on the bus for every element | t = 0x100, data = [0xAB]: 0x00 is transmitted, not 0xAB | `_sendData(t, *data)`: the bytes of the buffer are sent in order | high, not executed | TwoWireMasterConfiguration.SendBytesAsWrittenSendsDeadlineByte, TwoWireMasterConfiguration.SendBytesAsWrittenLosesData | TwoWireMasterConfiguration.SendBytesSendsInOrder |
| src/TwoWireCore.cpp:62 | getFrequency multiplies by the raw TWPS bits (0..3) instead of the prescaler factor 4^TWPS, so with x1 (TWPS = 0) it returns F_CPU/16 whatever TWBR is | F_CPU = 16 MHz, TWBR = 72, TWPS = 0: returns 1 MHz; the SCL frequency is 100 kHz | F_CPU / (16 + 2 TWBR 4^TWPS) | high, not executed | TwoWireCore.FrequencyCounterexample, TwoWireCore.FrequencyAtX1IgnoresBitRate | TwoWireCore.PrescaledFrequencyAtX1, TwoWireCore.PrescaledFrequencyAtMostBase |
