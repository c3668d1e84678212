/**
 * The master transaction engine (src/TwoWireMasterConfiguration.cpp): timed
 * bus primitives that write TWCR/TWDR, busy-wait on TWINT against a
 * wrap-around microsecond deadline, and map the status code to `Status`.
 *
 * Each primitive has a reference definition on `Hw` values (the functions
 * ending in `Spec`); the methods of `MasterConfiguration` do the same work
 * step by step on the peripheral object and are proved equal to them.
 */
module TwoWireMasterConfiguration {
  import opened TwiCodes
  import opened TwoWireCore
  import TwoWireSlave

  /** MasterConfiguration::Status: one outcome per primitive. */
  datatype Status = Success | AddressNACK | DataNACK | BusLost | AddressedAsSlave | Timeout | Error | Unknown

  const DEFAULT_TIMEOUT: uint32 := 25000
  /** (uint32_t)(-1): the timeout that disables timing out. */
  const NO_TIMEOUT: uint32 := 0xFFFF_FFFF

  // The TWCR_W arguments of the primitives.
  const START_REQUEST: bv8 := TWINT | TWSTA
  const STOP_REQUEST: bv8 := TWINT | TWSTO
  const STOP_START_REQUEST: bv8 := TWINT | TWSTO | TWSTA

  /** The result of a primitive: its status and the peripheral afterwards. */
  datatype Outcome = Outcome(status: Status, hw: Hw)

  /** The result of a receiving primitive: also the buffer's contents afterwards. */
  datatype Received = Received(status: Status, hw: Hw, buf: seq<bv8>)

  /** A primitive's effect on what the bus and the clock still supply: none grows, and a BusLost consumed some. */
  predicate Consumes(h: Hw, h': Hw, s: Status) {
    Supply(h') <= Supply(h) && (s == BusLost ==> Supply(h') < Supply(h))
  }

  // ---------------------------------------------------------------------
  // Status tables
  // ---------------------------------------------------------------------

  /** The codes that mean this device lost arbitration and was then addressed as a slave. */
  const ADDRESSED_AS_SLAVE_CODES: set<bv8> := {TW_SR_ARB_LOST_SLA_ACK, TW_SR_ARB_LOST_GCALL_ACK, TW_ST_ARB_LOST_SLA_ACK}

  /** The status of a start or stop-start. */
  function StartResult(code: bv8): Status {
    if code == TW_START || code == TW_REP_START then Success
    else if code == TW_BUS_ERROR then Error
    else Unknown
  }

  /** The status of SLA+W (ack, nack = TW_MT_SLA_ACK, TW_MT_SLA_NACK) or SLA+R (TW_MR_SLA_ACK, TW_MR_SLA_NACK). */
  function AddressResult(code: bv8, ack: bv8, nack: bv8): Status {
    if code == ack then Success
    else if code == nack then AddressNACK
    else if code == TW_MT_ARB_LOST then BusLost
    else if code in ADDRESSED_AS_SLAVE_CODES then AddressedAsSlave
    else if code == TW_BUS_ERROR then Error
    else Unknown
  }

  /** The status of a transmitted data byte. */
  function SendResult(code: bv8): Status {
    if code == TW_MT_DATA_ACK then Success
    else if code == TW_MT_DATA_NACK then DataNACK
    else if code == TW_MT_ARB_LOST then BusLost
    else if code == TW_BUS_ERROR then Error
    else Unknown
  }

  /** The status of a received byte whose expected code is not the one the bus reported. */
  function ReceiveFailure(code: bv8): Status {
    if code == TW_MR_ARB_LOST then BusLost
    else if code == TW_BUS_ERROR then Error
    else Unknown
  }

  /**
   * The master tables agree with the slave decoder: a primitive reports
   * AddressedAsSlave exactly for the codes the slave side reads as being
   * addressed after a lost arbitration, and Error exactly for its Error.
   */
  lemma AddressResultAgreesWithSlaveDecoder(code: bv8, ack: bv8, nack: bv8)
    requires (ack, nack) in {(TW_MT_SLA_ACK, TW_MT_SLA_NACK), (TW_MR_SLA_ACK, TW_MR_SLA_NACK)}
    ensures AddressResult(code, ack, nack) == AddressedAsSlave <==>
      TwoWireSlave.GetStatus(code) in {TwoWireSlave.BusLostDirectlyAddressedAsReceiver,
                                       TwoWireSlave.BusLostGeneralCallAdressedAsReceiver,
                                       TwoWireSlave.BusLostDirectlyAddressedAsTransmitter}
    ensures AddressResult(code, ack, nack) == Error <==> TwoWireSlave.GetBasicStatus(code) == TwoWireSlave.BasicStatus.Error
    ensures AddressResult(code, ack, nack) == AddressedAsSlave ==>
      TwoWireSlave.GetBasicStatus(code) in {TwoWireSlave.BasicStatus.AddressedAsReceiver, TwoWireSlave.BasicStatus.AddressedAsTransmitter}
  {
  }

  // ---------------------------------------------------------------------
  // Reference definitions on Hw values
  // ---------------------------------------------------------------------

  /** signalStop: TWCR := TWCR_W(STOP_REQUEST). */
  function Stopped(h: Hw): (r: Hw)
    ensures Supply(r) == Supply(h)
  {
    ControlWritten(h, TwcrW(h.twcr, STOP_REQUEST))
  }

  /** acceptBusLost: TWCR := TWCR_W(TWINT). */
  function BusLostAccepted(h: Hw): Hw {
    ControlWritten(h, TwcrW(h.twcr, TWINT))
  }

  /** The deadline test of _awaitTWINT: `micros() - t`, wrapping modulo 2^32, exceeds the timeout. */
  predicate Late(now: uint32, t: uint32, timeout: uint32) {
    (now as int - t as int) % 0x1_0000_0000 > timeout as int
  }

  /** No reading is late against the largest timeout. */
  lemma NeverLate(now: uint32, t: uint32)
    ensures !Late(now, t, NO_TIMEOUT)
  {
  }

  /** The result of _awaitTWINT: whether it timed out, and the peripheral afterwards. */
  datatype Waited = Waited(late: bool, hw: Hw)

  /** The last micros() of _awaitTWINT: it decides whether the wait timed out. */
  function AwaitFinish(h: Hw, t: uint32, timeout: uint32): (r: Waited)
    ensures r.late == Late(r.hw.now, t, timeout)
    ensures r.hw == h.(clock := r.hw.clock, now := r.hw.now) && Supply(r.hw) <= Supply(h)
    ensures !r.late && Late(h.now, t, timeout) ==> Supply(r.hw) < Supply(h)
  {
    var Reading(n, h') := Ticked(h);
    Waited(Late(n, t, timeout), h')
  }

  /**
   * _awaitTWINT: poll TWINT until it reads 1 or micros() - t exceeds the
   * timeout, then read the clock again and report whether that last reading
   * is past the timeout.
   */
  function Await(h: Hw, t: uint32, timeout: uint32): (r: Waited)
    decreases PendingWait(h)
    ensures r.late == Late(r.hw.now, t, timeout)
    ensures Supply(r.hw) <= Supply(h)
    ensures !r.late ==> Supply(r.hw) < Supply(h) || TwStatus(r.hw.twsr) == TW_NO_INFO
  {
    var Poll(flag, h1) := Polled(h);
    if flag then
      AwaitFinish(h1, t, timeout)
    else
      var Reading(n, h2) := Ticked(h1);
      if !Late(n, t, timeout) then Await(h2, t, timeout) else AwaitFinish(h2, t, timeout)
  }

  /** _awaitTWINT writes no register: the log of writes is as it was. */
  lemma {:induction false} AwaitKeepsLog(h: Hw, t: uint32, timeout: uint32)
    decreases PendingWait(h)
    ensures Await(h, t, timeout).hw.log == h.log
    ensures Await(h, t, timeout).hw.twar == h.twar && Await(h, t, timeout).hw.twbr == h.twbr
    ensures Await(h, t, timeout).hw.twcr & !TWINT == h.twcr & !TWINT
  {
    var Poll(flag, h1) := Polled(h);
    if !flag {
      var Reading(n, h2) := Ticked(h1);
      if !Late(n, t, timeout) {
        AwaitKeepsLog(h2, t, timeout);
      }
    }
  }

  /**
   * With the timeout disabled the wait always ends with TWINT set: the
   * pending response is delivered (its code in TWSR, its byte in TWDR) and
   * consumed, or, once the script is exhausted, TW_NO_INFO is reported.
   */
  lemma {:induction false} AwaitWithoutTimeout(h: Hw, t: uint32)
    decreases PendingWait(h)
    ensures var r := Await(h, t, NO_TIMEOUT);
      && !r.late
      && (h.script != [] ==> r.hw.script == h.script[1..] && r.hw.twdr == h.script[0].data
                             && TwStatus(r.hw.twsr) == TwStatus(h.script[0].status))
      && (h.script == [] ==> r.hw.script == [] && TwStatus(r.hw.twsr) == TW_NO_INFO)
  {
    var r := Await(h, t, NO_TIMEOUT);
    NeverLate(r.hw.now, t);
    var Poll(flag, h1) := Polled(h);
    if !flag {
      var Reading(n, h2) := Ticked(h1);
      NeverLate(n, t);
      AwaitWithoutTimeout(h2, t);
    }
  }

  /** _signalStart and _signalStopStart: write TWCR_W(d), wait, read the start status. */
  function StartSpec(h: Hw, t: uint32, timeout: uint32, d: bv8): (o: Outcome)
    ensures Consumes(h, o.hw, o.status) && o.status in {Success, Error, Unknown, Timeout}
  {
    StartAnswer(Await(ControlWritten(h, TwcrW(h.twcr, d)), t, timeout))
  }

  function StartAnswer(w: Waited): Outcome {
    if w.late then Outcome(Timeout, w.hw) else Outcome(StartResult(TwStatus(w.hw.twsr)), w.hw)
  }

  function SignalStartSpec(h: Hw, t: uint32, timeout: uint32): (o: Outcome)
    ensures Consumes(h, o.hw, o.status)
  {
    StartSpec(h, t, timeout, START_REQUEST)
  }

  function SignalStopStartSpec(h: Hw, t: uint32, timeout: uint32): (o: Outcome)
    ensures Consumes(h, o.hw, o.status)
  {
    StartSpec(h, t, timeout, STOP_START_REQUEST)
  }

  /** _addressSlaveW / _addressSlaveR: TWDR := sla, TWCR := TWCR_W(TWINT), wait, read; a NACK is followed by a stop. */
  function AddressSpec(h: Hw, t: uint32, timeout: uint32, sla: bv8, ack: bv8, nack: bv8): (o: Outcome)
    ensures Consumes(h, o.hw, o.status) && o.status != DataNACK
  {
    AddressAnswer(Await(Transmitted(h, sla), t, timeout), ack, nack)
  }

  function AddressAnswer(w: Waited, ack: bv8, nack: bv8): Outcome {
    if w.late then Outcome(Timeout, w.hw)
    else
      var s := AddressResult(TwStatus(w.hw.twsr), ack, nack);
      Outcome(s, if s == AddressNACK then Stopped(w.hw) else w.hw)
  }

  /** TWDR := b, then TWCR := TWCR_W(TWINT): the byte is handed to the bus. */
  function Transmitted(h: Hw, b: bv8): Hw {
    var h1 := DataWritten(h, b);
    ControlWritten(h1, TwcrW(h1.twcr, TWINT))
  }

  /** The address byte of SLA+W or SLA+R: the 7-bit address shifted left, the R/W bit below it. */
  function AddressByte(address: bv8, rw: bv8): bv8 {
    (address << 1) | rw
  }

  function AddressSlaveWSpec(h: Hw, t: uint32, timeout: uint32, address: bv8): (o: Outcome)
    ensures Consumes(h, o.hw, o.status)
  {
    AddressSpec(h, t, timeout, AddressByte(address, TW_WRITE), TW_MT_SLA_ACK, TW_MT_SLA_NACK)
  }

  function AddressSlaveRSpec(h: Hw, t: uint32, timeout: uint32, address: bv8): (o: Outcome)
    ensures Consumes(h, o.hw, o.status)
  {
    AddressSpec(h, t, timeout, AddressByte(address, TW_READ), TW_MR_SLA_ACK, TW_MR_SLA_NACK)
  }

  /** _sendData(t, data): TWDR := b, TWCR := TWCR_W(TWINT), wait, read; a NACK is followed by a stop. */
  function SendByteSpec(h: Hw, t: uint32, timeout: uint32, b: bv8): (o: Outcome)
    ensures Consumes(h, o.hw, o.status) && o.status != AddressNACK && o.status != AddressedAsSlave
  {
    SendAnswer(Await(Transmitted(h, b), t, timeout))
  }

  function SendAnswer(w: Waited): Outcome {
    if w.late then Outcome(Timeout, w.hw)
    else
      var s := SendResult(TwStatus(w.hw.twsr));
      Outcome(s, if s == DataNACK then Stopped(w.hw) else w.hw)
  }

  /** _sendData(t, data, size), read as sending `data[i]` with deadline base `t`: stops at the first byte that fails. */
  function SendBytesSpec(h: Hw, t: uint32, timeout: uint32, data: seq<bv8>): (o: Outcome)
    decreases |data|
    ensures Consumes(h, o.hw, o.status) && o.status != AddressNACK && o.status != AddressedAsSlave
  {
    if data == [] then Outcome(Success, h)
    else
      var o1 := SendByteSpec(h, t, timeout, data[0]);
      if o1.status != Success then o1 else SendBytesSpec(o1.hw, t, timeout, data[1..])
  }

  /**
   * _sendData(t, data, size) as the source writes it: `_sendData(*data, t)`
   * passes the byte as the deadline base and the low byte of `t` as the data.
   */
  function SendBytesAsWrittenSpec(h: Hw, t: uint32, timeout: uint32, data: seq<bv8>): (o: Outcome)
    decreases |data|
  {
    if data == [] then Outcome(Success, h)
    else
      var o1 := SendByteSpec(h, data[0] as uint32, timeout, (t % 0x100) as bv8);
      if o1.status != Success then o1 else SendBytesAsWrittenSpec(o1.hw, t, timeout, data[1..])
  }

  /** Handing a byte to the bus writes it to TWDR. */
  lemma TransmittedSends(h: Hw, b: bv8)
    ensures Sent(Transmitted(h, b).log) == Sent(h.log) + [b]
  {
    var h1 := DataWritten(h, b);
    SentAppend(h.log, Data(b));
    SentAppend(h1.log, Control(TwcrW(h1.twcr, TWINT)));
  }

  /** Reading the answer to a sent byte, and the stop after a NACK, write nothing to TWDR. */
  lemma SendAnswerSendsNothing(w: Waited)
    ensures Sent(SendAnswer(w).hw.log) == Sent(w.hw.log)
  {
    SentAppend(w.hw.log, Control(TwcrW(w.hw.twcr, STOP_REQUEST)));
  }

  /** Sending one byte writes exactly that byte to TWDR, whatever the bus answers. */
  lemma SendByteSends(h: Hw, t: uint32, timeout: uint32, b: bv8)
    ensures Sent(SendByteSpec(h, t, timeout, b).hw.log) == Sent(h.log) + [b]
  {
    var h2 := Transmitted(h, b);
    TransmittedSends(h, b);
    AwaitKeepsLog(h2, t, timeout);
    SendAnswerSendsNothing(Await(h2, t, timeout));
  }

  /**
   * Sending a buffer writes its bytes to TWDR in order: all of them when it
   * succeeds, otherwise the ones up to and including the byte that failed.
   */
  lemma {:induction false} SendBytesSendsInOrder(h: Hw, t: uint32, timeout: uint32, data: seq<bv8>)
    decreases |data|
    ensures var before := Sent(h.log);
            var after := Sent(SendBytesSpec(h, t, timeout, data).hw.log);
            && before <= after && after[|before|..] <= data
            && (data != [] ==> |after| > |before|)
            && (SendBytesSpec(h, t, timeout, data).status == Success ==> after == before + data)
  {
    if data != [] {
      var o1 := SendByteSpec(h, t, timeout, data[0]);
      var o := SendBytesSpec(h, t, timeout, data);
      SendByteSends(h, t, timeout, data[0]);
      if o1.status == Success {
        assert o == SendBytesSpec(o1.hw, t, timeout, data[1..]);
        SendBytesSendsInOrder(o1.hw, t, timeout, data[1..]);
        PrefixStep(Sent(h.log), Sent(o1.hw.log), Sent(o.hw.log), data);
      } else {
        assert o == o1;
        PrefixStep(Sent(h.log), Sent(o1.hw.log), Sent(o1.hw.log), data);
      }
    }
  }

  /**
   * The first byte that fails ends the buffer send: when the bytes of `pre`
   * were all sent and `b` then fails, its status and peripheral are the
   * result, and no byte of `post` is attempted, whatever it holds.
   */
  lemma {:induction false} SendBytesStopsAtFailure(h: Hw, t: uint32, timeout: uint32, pre: seq<bv8>, b: bv8, post: seq<bv8>)
    requires SendBytesSpec(h, t, timeout, pre).status == Success
    requires SendByteSpec(SendBytesSpec(h, t, timeout, pre).hw, t, timeout, b).status != Success
    decreases |pre|
    ensures SendBytesSpec(h, t, timeout, pre + [b] + post) == SendByteSpec(SendBytesSpec(h, t, timeout, pre).hw, t, timeout, b)
  {
    var data := pre + [b] + post;
    if pre == [] {
      assert data[0] == b;
    } else {
      var o1 := SendByteSpec(h, t, timeout, pre[0]);
      assert data[0] == pre[0];
      assert data[1..] == pre[1..] + [b] + post;
      SendBytesStopsAtFailure(o1.hw, t, timeout, pre[1..], b, post);
    }
  }

  /**
   * `mid` is `before` and the first byte of `data`, and `after` extends `mid`
   * by a prefix of the rest: then `after` extends `before` by a prefix of
   * `data`, all of it when `after` extends `mid` by all the rest.
   */
  lemma PrefixStep(before: seq<bv8>, mid: seq<bv8>, after: seq<bv8>, data: seq<bv8>)
    requires data != [] && mid == before + [data[0]]
    requires mid <= after && after[|mid|..] <= data[1..]
    ensures before <= after && after[|before|..] <= data && |after| > |before|
    ensures after == mid + data[1..] ==> after == before + data
  {
    assert after[|before|..] == [data[0]] + after[|mid|..];
    assert data == [data[0]] + data[1..];
  }

  /**
   * The buffer as the source sends it: every byte written to TWDR is the low
   * byte of the deadline base `t`, never a byte of the buffer.
   */
  lemma {:induction false} SendBytesAsWrittenSendsDeadlineByte(h: Hw, t: uint32, timeout: uint32, data: seq<bv8>)
    decreases |data|
    ensures var before := Sent(h.log);
            var after := Sent(SendBytesAsWrittenSpec(h, t, timeout, data).hw.log);
            && before <= after
            && (forall i :: |before| <= i < |after| ==> after[i] == (t % 0x100) as bv8)
            && (data != [] ==> |after| > |before|)
  {
    if data != [] {
      var b := (t % 0x100) as bv8;
      var o1 := SendByteSpec(h, data[0] as uint32, timeout, b);
      var o := SendBytesAsWrittenSpec(h, t, timeout, data);
      SendByteSends(h, data[0] as uint32, timeout, b);
      if o1.status == Success {
        assert o == SendBytesAsWrittenSpec(o1.hw, t, timeout, data[1..]);
        SendBytesAsWrittenSendsDeadlineByte(o1.hw, t, timeout, data[1..]);
        Uniform(Sent(h.log), Sent(o1.hw.log), Sent(o.hw.log), b);
      } else {
        assert o == o1;
        Uniform(Sent(h.log), Sent(o1.hw.log), Sent(o1.hw.log), b);
      }
    }
  }

  /** `mid` is `before` and `b`, and `after` extends `mid` by copies of `b`: then `after` extends `before` by copies of `b`. */
  lemma Uniform(before: seq<bv8>, mid: seq<bv8>, after: seq<bv8>, b: bv8)
    requires mid == before + [b] && mid <= after
    requires forall i :: |mid| <= i < |after| ==> after[i] == b
    ensures before <= after && |after| > |before|
    ensures forall i :: |before| <= i < |after| ==> after[i] == b
  {
    assert after[|before|] == mid[|before|];
  }

  /**
   * The discrepancy on one input: sending the buffer [0xAB] with deadline
   * base 0x100 writes 0x00 to TWDR, so the byte 0xAB never reaches the bus.
   */
  lemma SendBytesAsWrittenLosesData(h: Hw, timeout: uint32)
    ensures var after := Sent(SendBytesAsWrittenSpec(h, 0x100, timeout, [0xAB]).hw.log);
            |after| > |Sent(h.log)| && after[|Sent(h.log)|] == 0x00 && after != Sent(h.log) + [0xAB]
  {
    var after := Sent(SendBytesAsWrittenSpec(h, 0x100, timeout, [0xAB]).hw.log);
    SendBytesAsWrittenSendsDeadlineByte(h, 0x100, timeout, [0xAB]);
    assert after[|Sent(h.log)|] == 0x00;
  }

  /**
   * _receiveData(t, data): clear TWEA so the byte is NACKed, TWCR := TWCR_W(TWINT),
   * wait; on TW_MR_DATA_NACK the byte in TWDR is stored at `buf[at]`.
   */
  function ReceiveLastSpec(h: Hw, t: uint32, timeout: uint32, buf: seq<bv8>, at: nat): (r: Received)
    ensures Consumes(h, r.hw, r.status) && |r.buf| == |buf|
    ensures r.status in {Success, BusLost, Error, Unknown, Timeout}
  {
    LastAnswer(Await(NackArmed(h), t, timeout), buf, at)
  }

  function LastAnswer(w: Waited, buf: seq<bv8>, at: nat): Received
  {
    if w.late then Received(Timeout, w.hw, buf)
    else if TwStatus(w.hw.twsr) == TW_MR_DATA_NACK then Received(Success, w.hw, Put(buf, at, w.hw.twdr))
    else Received(ReceiveFailure(TwStatus(w.hw.twsr)), w.hw, buf)
  }

  /**
   * One byte of the loop of _receiveData(t, data, size): TWCR := TWCR_W(TWINT | TWEA)
   * so the byte is acknowledged, wait; on TW_MR_DATA_ACK it is stored at `buf[at]`.
   */
  function ReceiveAckedSpec(h: Hw, t: uint32, timeout: uint32, buf: seq<bv8>, at: nat): (r: Received)
    ensures Consumes(h, r.hw, r.status) && |r.buf| == |buf|
    ensures r.status in {Success, BusLost, Error, Unknown, Timeout}
  {
    AckedAnswer(Await(AckArmed(h), t, timeout), buf, at)
  }

  function AckedAnswer(w: Waited, buf: seq<bv8>, at: nat): Received
  {
    if w.late then Received(Timeout, w.hw, buf)
    else if TwStatus(w.hw.twsr) == TW_MR_DATA_ACK then Received(Success, w.hw, Put(buf, at, w.hw.twdr))
    else Received(ReceiveFailure(TwStatus(w.hw.twsr)), w.hw, buf)
  }

  /**
   * The loop of _receiveData(t, data, size): while more than one byte is left,
   * one acknowledged byte into `buf[at]`, stopping at the first that fails.
   */
  function ReceiveAckedBytesSpec(h: Hw, t: uint32, timeout: uint32, buf: seq<bv8>, at: nat, size: nat): (r: Received)
    decreases size
    ensures Consumes(h, r.hw, r.status) && |r.buf| == |buf|
    ensures r.status in {Success, BusLost, Error, Unknown, Timeout}
  {
    if size <= 1 then Received(Success, h, buf)
    else
      var r1 := ReceiveAckedSpec(h, t, timeout, buf, at);
      if r1.status != Success then r1 else ReceiveAckedBytesSpec(r1.hw, t, timeout, r1.buf, at + 1, size - 1)
  }

  /** The number of times the loop of _receiveData(t, data, size) runs: size - 1, and none for size 0. */
  function Acked(size: nat): nat {
    if size == 0 then 0 else size - 1
  }

  /**
   * _receiveData(t, data, size): the loop over all but the last byte, then
   * _receiveData(t, data) for the last. A size of 0 skips the loop and still
   * receives one byte.
   */
  function ReceiveBytesSpec(h: Hw, t: uint32, timeout: uint32, buf: seq<bv8>, at: nat, size: nat): (r: Received)
    ensures Consumes(h, r.hw, r.status) && |r.buf| == |buf|
    ensures r.status in {Success, BusLost, Error, Unknown, Timeout}
  {
    var r1 := ReceiveAckedBytesSpec(h, t, timeout, buf, at, size);
    if r1.status != Success then r1 else ReceiveLastSpec(r1.hw, t, timeout, r1.buf, at + Acked(size))
  }

  /** The bus answers the next |bytes| operations with `code`, delivering `bytes` in order. */
  predicate Answers(script: seq<Event>, bytes: seq<bv8>, code: bv8) {
    |bytes| <= |script| && forall i :: 0 <= i < |bytes| ==> script[i].status == code && script[i].data == bytes[i]
  }

  /** With the timeout disabled, _awaitTWINT never times out. */
  lemma AwaitNeverLate(h: Hw, t: uint32)
    ensures !Await(h, t, NO_TIMEOUT).late
  {
    NeverLate(Await(h, t, NO_TIMEOUT).hw.now, t);
  }

  /** With the timeout disabled, neither start primitive reports Timeout. */
  lemma StartWithoutTimeout(h: Hw, t: uint32, d: bv8)
    ensures StartSpec(h, t, NO_TIMEOUT, d).status != Timeout
  {
    AwaitNeverLate(ControlWritten(h, TwcrW(h.twcr, d)), t);
  }

  /** With the timeout disabled, neither addressing primitive reports Timeout. */
  lemma AddressWithoutTimeout(h: Hw, t: uint32, sla: bv8, ack: bv8, nack: bv8)
    ensures AddressSpec(h, t, NO_TIMEOUT, sla, ack, nack).status != Timeout
  {
    AwaitNeverLate(Transmitted(h, sla), t);
  }

  /** With the timeout disabled, sending a byte does not report Timeout. */
  lemma SendByteWithoutTimeout(h: Hw, t: uint32, b: bv8)
    ensures SendByteSpec(h, t, NO_TIMEOUT, b).status != Timeout
  {
    AwaitNeverLate(Transmitted(h, b), t);
  }

  /** With the timeout disabled, receiving the last byte does not report Timeout. */
  lemma ReceiveLastWithoutTimeout(h: Hw, t: uint32, buf: seq<bv8>, at: nat)
    ensures ReceiveLastSpec(h, t, NO_TIMEOUT, buf, at).status != Timeout
  {
    AwaitNeverLate(NackArmed(h), t);
  }

  /** With the timeout disabled, receiving an acknowledged byte does not report Timeout. */
  lemma ReceiveAckedWithoutTimeout(h: Hw, t: uint32, buf: seq<bv8>, at: nat)
    ensures ReceiveAckedSpec(h, t, NO_TIMEOUT, buf, at).status != Timeout
  {
    AwaitNeverLate(AckArmed(h), t);
  }

  // ---------------------------------------------------------------------
  // The status tables, driven by what the bus answers
  // ---------------------------------------------------------------------

  /** `after` is `before` followed by one TWCR write that requests a stop and no start (signalStop). */
  predicate StopAppended(before: seq<Access>, after: seq<Access>) {
    && |after| == |before| + 1 && after[..|before|] == before
    && after[|before|].Control? && Has(after[|before|].value, STOP_REQUEST) && !Has(after[|before|].value, TWSTA)
  }

  /**
   * _signalStart or _signalStopStart with the timeout disabled, against a bus
   * whose next answer carries `code`: TWCR_W(d) is the only write, the answer
   * is consumed, START and REP_START give Success, BUS_ERROR gives Error and
   * every other code Unknown.
   */
  lemma StartFromScript(h: Hw, t: uint32, d: bv8)
    requires h.script != []
    ensures var o := StartSpec(h, t, NO_TIMEOUT, d);
            var code := TwStatus(h.script[0].status);
            && o.hw.log == h.log + [Control(TwcrW(h.twcr, d))] && o.hw.script == h.script[1..]
            && (o.status == Success <==> code == TW_START || code == TW_REP_START)
            && (o.status == Error <==> code == TW_BUS_ERROR)
            && (o.status == Unknown <==> code !in {TW_START, TW_REP_START, TW_BUS_ERROR})
  {
    var h1 := ControlWritten(h, TwcrW(h.twcr, d));
    AwaitWithoutTimeout(h1, t);
    AwaitKeepsLog(h1, t, NO_TIMEOUT);
  }

  /** _signalStart writes TWCR once, with TWINT and TWSTA set and TWSTO clear, whatever the bus answers. */
  lemma SignalStartWrites(h: Hw, t: uint32, timeout: uint32)
    ensures var log := SignalStartSpec(h, t, timeout).hw.log;
            && |log| == |h.log| + 1 && log[..|h.log|] == h.log && log[|h.log|].Control?
            && Has(log[|h.log|].value, TWINT | TWSTA) && !Has(log[|h.log|].value, TWSTO)
  {
    AwaitKeepsLog(ControlWritten(h, TwcrW(h.twcr, START_REQUEST)), t, timeout);
  }

  /** _signalStopStart writes TWCR once, with TWINT, TWSTO and TWSTA set, whatever the bus answers. */
  lemma SignalStopStartWrites(h: Hw, t: uint32, timeout: uint32)
    ensures var log := SignalStopStartSpec(h, t, timeout).hw.log;
            && |log| == |h.log| + 1 && log[..|h.log|] == h.log && log[|h.log|].Control?
            && Has(log[|h.log|].value, TWINT | TWSTO | TWSTA)
  {
    AwaitKeepsLog(ControlWritten(h, TwcrW(h.twcr, STOP_START_REQUEST)), t, timeout);
  }

  /** Addressing writes exactly the address byte to TWDR, whatever the bus answers; the stop after a NACK sends nothing. */
  lemma AddressSends(h: Hw, t: uint32, timeout: uint32, sla: bv8, ack: bv8, nack: bv8)
    ensures Sent(AddressSpec(h, t, timeout, sla, ack, nack).hw.log) == Sent(h.log) + [sla]
  {
    var h2 := Transmitted(h, sla);
    TransmittedSends(h, sla);
    AwaitKeepsLog(h2, t, timeout);
    var w := Await(h2, t, timeout);
    SentAppend(w.hw.log, Control(TwcrW(w.hw.twcr, STOP_REQUEST)));
  }

  /** _addressSlaveW puts SLA+W on the bus: the address shifted left over a 0 bit. */
  lemma AddressSlaveWSends(h: Hw, t: uint32, timeout: uint32, address: bv8)
    ensures Sent(AddressSlaveWSpec(h, t, timeout, address).hw.log) == Sent(h.log) + [address << 1]
  {
    AddressSends(h, t, timeout, AddressByte(address, TW_WRITE), TW_MT_SLA_ACK, TW_MT_SLA_NACK);
  }

  /** _addressSlaveR puts SLA+R on the bus: the address shifted left over a 1 bit. */
  lemma AddressSlaveRSends(h: Hw, t: uint32, timeout: uint32, address: bv8)
    ensures Sent(AddressSlaveRSpec(h, t, timeout, address).hw.log) == Sent(h.log) + [(address << 1) | 1]
  {
    AddressSends(h, t, timeout, AddressByte(address, TW_READ), TW_MR_SLA_ACK, TW_MR_SLA_NACK);
  }

  /**
   * _addressSlaveW with the timeout disabled, against a bus whose next answer
   * carries `code`: TWDR := SLA+W and TWCR := TWCR_W(TWINT) are written, the
   * answer is consumed, and the code decides the status. Only TW_MT_SLA_NACK
   * is followed by a stop; an arbitration loss writes nothing more.
   */
  lemma AddressSlaveWFromScript(h: Hw, t: uint32, address: bv8)
    requires h.script != []
    ensures var o := AddressSlaveWSpec(h, t, NO_TIMEOUT, address);
            var code := TwStatus(h.script[0].status);
            var sent := h.log + [Data(address << 1), Control(TwcrW(h.twcr, TWINT))];
            && o.hw.script == h.script[1..]
            && (code == TW_MT_SLA_ACK ==> o.status == Success)
            && (code == TW_MT_SLA_NACK ==> o.status == AddressNACK)
            && (code == TW_MT_ARB_LOST ==> o.status == BusLost)
            && (code in {TW_SR_ARB_LOST_SLA_ACK, TW_SR_ARB_LOST_GCALL_ACK, TW_ST_ARB_LOST_SLA_ACK} ==> o.status == AddressedAsSlave)
            && (code == TW_BUS_ERROR ==> o.status == Error)
            && (code !in {TW_MT_SLA_ACK, TW_MT_SLA_NACK, TW_MT_ARB_LOST, TW_BUS_ERROR} + ADDRESSED_AS_SLAVE_CODES ==> o.status == Unknown)
            && (o.status == AddressNACK ==> StopAppended(sent, o.hw.log))
            && (o.status != AddressNACK ==> o.hw.log == sent)
  {
    var h2 := Transmitted(h, AddressByte(address, TW_WRITE));
    AwaitWithoutTimeout(h2, t);
    AwaitKeepsLog(h2, t, NO_TIMEOUT);
  }

  /** The same for _addressSlaveR: SLA+R, and the TW_MR_SLA_ACK / TW_MR_SLA_NACK / TW_MR_ARB_LOST codes. */
  lemma AddressSlaveRFromScript(h: Hw, t: uint32, address: bv8)
    requires h.script != []
    ensures var o := AddressSlaveRSpec(h, t, NO_TIMEOUT, address);
            var code := TwStatus(h.script[0].status);
            var sent := h.log + [Data((address << 1) | 1), Control(TwcrW(h.twcr, TWINT))];
            && o.hw.script == h.script[1..]
            && (code == TW_MR_SLA_ACK ==> o.status == Success)
            && (code == TW_MR_SLA_NACK ==> o.status == AddressNACK)
            && (code == TW_MR_ARB_LOST ==> o.status == BusLost)
            && (code in {TW_SR_ARB_LOST_SLA_ACK, TW_SR_ARB_LOST_GCALL_ACK, TW_ST_ARB_LOST_SLA_ACK} ==> o.status == AddressedAsSlave)
            && (code == TW_BUS_ERROR ==> o.status == Error)
            && (code !in {TW_MR_SLA_ACK, TW_MR_SLA_NACK, TW_MR_ARB_LOST, TW_BUS_ERROR} + ADDRESSED_AS_SLAVE_CODES ==> o.status == Unknown)
            && (o.status == AddressNACK ==> StopAppended(sent, o.hw.log))
            && (o.status != AddressNACK ==> o.hw.log == sent)
  {
    var h2 := Transmitted(h, AddressByte(address, TW_READ));
    AwaitWithoutTimeout(h2, t);
    AwaitKeepsLog(h2, t, NO_TIMEOUT);
  }

  /**
   * _sendData(t, b) with the timeout disabled, against a bus whose next
   * answer carries `code`: TWDR := b and TWCR := TWCR_W(TWINT) are written,
   * the answer is consumed, and the code decides the status. Only
   * TW_MT_DATA_NACK is followed by a stop; an arbitration loss writes nothing more.
   */
  lemma SendByteFromScript(h: Hw, t: uint32, b: bv8)
    requires h.script != []
    ensures var o := SendByteSpec(h, t, NO_TIMEOUT, b);
            var code := TwStatus(h.script[0].status);
            var sent := h.log + [Data(b), Control(TwcrW(h.twcr, TWINT))];
            && o.hw.script == h.script[1..]
            && (code == TW_MT_DATA_ACK ==> o.status == Success)
            && (code == TW_MT_DATA_NACK ==> o.status == DataNACK)
            && (code == TW_MT_ARB_LOST ==> o.status == BusLost)
            && (code == TW_BUS_ERROR ==> o.status == Error)
            && (code !in {TW_MT_DATA_ACK, TW_MT_DATA_NACK, TW_MT_ARB_LOST, TW_BUS_ERROR} ==> o.status == Unknown)
            && (o.status == DataNACK ==> StopAppended(sent, o.hw.log))
            && (o.status != DataNACK ==> o.hw.log == sent)
  {
    var h2 := Transmitted(h, b);
    AwaitWithoutTimeout(h2, t);
    AwaitKeepsLog(h2, t, NO_TIMEOUT);
  }

  /**
   * The bus has not answered yet (TWINT still reads 0 at the next poll) and
   * every reading the clock has left is past the deadline.
   */
  predicate Overdue(h: Hw, t: uint32, timeout: uint32) {
    PendingWait(h) > 0 && h.clock != [] && forall i :: 0 <= i < |h.clock| ==> Late(h.clock[i], t, timeout)
  }

  /**
   * An overdue wait times out after one poll: the bus's answer stays pending,
   * and TWSR, TWDR and the log are as they were.
   */
  lemma AwaitTimesOut(h: Hw, t: uint32, timeout: uint32)
    requires Overdue(h, t, timeout)
    ensures var w := Await(h, t, timeout);
            && w.late && w.hw.log == h.log && w.hw.twsr == h.twsr && w.hw.twdr == h.twdr
            && |w.hw.script| == |h.script| && w.hw.script[1..] == h.script[1..]
  {
    var Poll(flag, h1) := Polled(h);
    var Reading(n, h2) := Ticked(h1);
    assert n == h.clock[0];
    if h2.clock != [] {
      assert h2.clock[0] == h.clock[1];
    }
  }

  /** A start whose wait is overdue reports Timeout without consulting TW_STATUS; TWCR_W(d) is the only write. */
  lemma StartTimesOut(h: Hw, t: uint32, timeout: uint32, d: bv8)
    requires Overdue(h, t, timeout)
    ensures var o := StartSpec(h, t, timeout, d);
            o.status == Timeout && o.hw.log == h.log + [Control(TwcrW(h.twcr, d))] && o.hw.twsr == h.twsr
  {
    AwaitTimesOut(ControlWritten(h, TwcrW(h.twcr, d)), t, timeout);
  }

  /** Addressing whose wait is overdue reports Timeout without consulting TW_STATUS and writes no stop. */
  lemma AddressTimesOut(h: Hw, t: uint32, timeout: uint32, sla: bv8, ack: bv8, nack: bv8)
    requires Overdue(h, t, timeout)
    ensures var o := AddressSpec(h, t, timeout, sla, ack, nack);
            o.status == Timeout && o.hw.log == h.log + [Data(sla), Control(TwcrW(h.twcr, TWINT))] && o.hw.twsr == h.twsr
  {
    AwaitTimesOut(Transmitted(h, sla), t, timeout);
  }

  /** Sending a byte whose wait is overdue reports Timeout without consulting TW_STATUS and writes no stop. */
  lemma SendByteTimesOut(h: Hw, t: uint32, timeout: uint32, b: bv8)
    requires Overdue(h, t, timeout)
    ensures var o := SendByteSpec(h, t, timeout, b);
            o.status == Timeout && o.hw.log == h.log + [Data(b), Control(TwcrW(h.twcr, TWINT))] && o.hw.twsr == h.twsr
  {
    AwaitTimesOut(Transmitted(h, b), t, timeout);
  }

  /** Receiving a last byte whose wait is overdue reports Timeout and writes nothing into the buffer. */
  lemma ReceiveLastTimesOut(h: Hw, t: uint32, timeout: uint32, buf: seq<bv8>, at: nat)
    requires Overdue(NackArmed(h), t, timeout)
    ensures var r := ReceiveLastSpec(h, t, timeout, buf, at);
            r.status == Timeout && r.buf == buf
  {
    AwaitTimesOut(NackArmed(h), t, timeout);
  }

  /** One pass of the receive loop whose wait is overdue reports Timeout and writes nothing into the buffer. */
  lemma ReceiveAckedTimesOut(h: Hw, t: uint32, timeout: uint32, buf: seq<bv8>, at: nat)
    requires Overdue(AckArmed(h), t, timeout)
    ensures var r := ReceiveAckedSpec(h, t, timeout, buf, at);
            r.status == Timeout && r.buf == buf
  {
    AwaitTimesOut(AckArmed(h), t, timeout);
  }

  /**
   * Receiving a buffer whose first wait is overdue, in the loop for more
   * than one byte and at the last byte otherwise, reports Timeout and leaves
   * the buffer as it was.
   */
  lemma ReceiveBytesTimesOut(h: Hw, t: uint32, timeout: uint32, buf: seq<bv8>, at: nat, size: nat)
    requires Overdue(h, t, timeout)
    ensures var r := ReceiveBytesSpec(h, t, timeout, buf, at, size);
            r.status == Timeout && r.buf == buf
  {
    if size <= 1 {
      assert Overdue(NackArmed(h), t, timeout);
      ReceiveLastTimesOut(h, t, timeout, buf, at + Acked(size));
    } else {
      assert Overdue(AckArmed(h), t, timeout);
      ReceiveAckedTimesOut(h, t, timeout, buf, at);
    }
  }

  /** Writing `acked` from `at` on, then `last` after them, writes `acked + [last]` from `at` on. */
  lemma LastSplice(buf: seq<bv8>, at: nat, acked: seq<bv8>, last: bv8)
    requires at + |acked| < |buf|
    ensures var n := |acked|;
            (buf[..at] + acked + buf[at + n..])[at + n := last] == buf[..at] + acked + [last] + buf[at + n + 1..]
  {
    var n := |acked|;
    var b1 := buf[..at] + acked + buf[at + n..];
    var b2 := buf[..at] + acked + [last] + buf[at + n + 1..];
    assert |b1| == |b2|;
    forall i | 0 <= i < |b2|
      ensures b1[at + n := last][i] == b2[i]
    {
      if i < at {
      } else if i < at + n {
        assert b2[i] == acked[i - at];
      } else if i == at + n {
      } else {
      }
    }
  }

  /** An acknowledged byte the bus delivers as TW_MR_DATA_ACK is stored at buf[at]. */
  lemma ReceiveAckedFromScript(h: Hw, t: uint32, buf: seq<bv8>, at: nat)
    requires h.script != [] && h.script[0].status == TW_MR_DATA_ACK
    ensures var r := ReceiveAckedSpec(h, t, NO_TIMEOUT, buf, at);
            r.status == Success && r.buf == Put(buf, at, h.script[0].data) && r.hw.script == h.script[1..]
  {
    AwaitWithoutTimeout(AckArmed(h), t);
  }

  /** A last byte the bus delivers as TW_MR_DATA_NACK is stored at buf[at]. */
  lemma ReceiveLastFromScript(h: Hw, t: uint32, buf: seq<bv8>, at: nat)
    requires h.script != [] && h.script[0].status == TW_MR_DATA_NACK
    ensures var r := ReceiveLastSpec(h, t, NO_TIMEOUT, buf, at);
            r.status == Success && r.buf == Put(buf, at, h.script[0].data) && r.hw.script == h.script[1..]
  {
    AwaitWithoutTimeout(NackArmed(h), t);
  }

  /**
   * One step of the loop against a bus that acknowledges `bytes`: the first
   * byte is stored at buf[at], and the loop goes on from `r1`.
   */
  lemma ReceiveAckedBytesStep(h: Hw, t: uint32, buf: seq<bv8>, at: nat, bytes: seq<bv8>, size: nat) returns (r1: Received)
    requires bytes != [] && Answers(h.script, bytes, TW_MR_DATA_ACK) && |bytes| < size
    ensures Answers(r1.hw.script, bytes[1..], TW_MR_DATA_ACK)
    ensures r1.hw.script == h.script[1..] && r1.buf == Put(buf, at, bytes[0])
    ensures var r := ReceiveAckedBytesSpec(h, t, NO_TIMEOUT, buf, at, size);
            var r' := ReceiveAckedBytesSpec(r1.hw, t, NO_TIMEOUT, r1.buf, at + 1, size - 1);
            r.status == r'.status && r.buf == r'.buf && r.hw.script == r'.hw.script
  {
    ReceiveAckedFromScript(h, t, buf, at);
    r1 := ReceiveAckedSpec(h, t, NO_TIMEOUT, buf, at);
    ScriptTail(h.script, bytes, TW_MR_DATA_ACK);
  }

  /** `bytes` written one at a time from buf[at] on. */
  function Filled(buf: seq<bv8>, at: nat, bytes: seq<bv8>): (r: seq<bv8>)
    decreases |bytes|
  {
    if bytes == [] then buf else Filled(Put(buf, at, bytes[0]), at + 1, bytes[1..])
  }

  /** Writing the bytes one at a time puts `bytes` in place from buf[at] on and changes nothing else. */
  lemma {:induction false} FilledSplices(buf: seq<bv8>, at: nat, bytes: seq<bv8>)
    requires at + |bytes| <= |buf|
    decreases |bytes|
    ensures Filled(buf, at, bytes) == buf[..at] + bytes + buf[at + |bytes|..]
  {
    if bytes != [] {
      FilledSplices(Put(buf, at, bytes[0]), at + 1, bytes[1..]);
      assert Put(buf, at, bytes[0]) == buf[at := bytes[0]];
      Splice(buf, at, bytes);
    }
  }

  /** Dropping one event and then n - 1 more drops n. */
  lemma DropStep(script: seq<Event>, n: nat)
    requires 0 < n <= |script|
    ensures script[1..][n - 1..] == script[n..]
  {
  }

  /** The loop over all but the last byte succeeds, consumes one event per byte and writes the bytes one at a time. */
  lemma {:induction false} ReceiveAckedBytesFills(h: Hw, t: uint32, buf: seq<bv8>, at: nat, bytes: seq<bv8>, size: nat)
    requires Answers(h.script, bytes, TW_MR_DATA_ACK) && size == |bytes| + 1
    decreases |bytes|
    ensures var r := ReceiveAckedBytesSpec(h, t, NO_TIMEOUT, buf, at, size);
            && r.status == Success && r.hw.script == h.script[|bytes|..] && r.buf == Filled(buf, at, bytes)
  {
    if bytes != [] {
      var r1 := ReceiveAckedBytesStep(h, t, buf, at, bytes, size);
      ReceiveAckedBytesFills(r1.hw, t, r1.buf, at + 1, bytes[1..], size - 1);
      DropStep(h.script, |bytes|);
    }
  }

  /** The loop over all but the last byte stores the acknowledged bytes in order from buf[at] on. */
  lemma ReceiveAckedBytesFromScript(h: Hw, t: uint32, buf: seq<bv8>, at: nat, bytes: seq<bv8>)
    requires Answers(h.script, bytes, TW_MR_DATA_ACK) && at + |bytes| <= |buf|
    ensures var r := ReceiveAckedBytesSpec(h, t, NO_TIMEOUT, buf, at, |bytes| + 1);
            && r.status == Success && r.hw.script == h.script[|bytes|..]
            && r.buf == buf[..at] + bytes + buf[at + |bytes|..]
  {
    ReceiveAckedBytesFills(h, t, buf, at, bytes, |bytes| + 1);
    FilledSplices(buf, at, bytes);
  }

  /** What is left of an answering script after its first answer answers the rest. */
  lemma ScriptTail(script: seq<Event>, bytes: seq<bv8>, code: bv8)
    requires bytes != [] && Answers(script, bytes, code)
    ensures Answers(script[1..], bytes[1..], code)
  {
  }

  /**
   * _receiveData(t, data, size) against a bus that acknowledges `size - 1`
   * bytes and then delivers the last one: it succeeds, and the `size` bytes
   * are stored in order from buf[at] on, nothing else in the buffer changing.
   */
  lemma ReceiveBytesFromScript(h: Hw, t: uint32, buf: seq<bv8>, at: nat, acked: seq<bv8>, last: bv8)
    requires at + |acked| < |buf| && |acked| < |h.script|
    requires Answers(h.script, acked, TW_MR_DATA_ACK)
    requires h.script[|acked|].status == TW_MR_DATA_NACK && h.script[|acked|].data == last
    ensures var r := ReceiveBytesSpec(h, t, NO_TIMEOUT, buf, at, |acked| + 1);
            && r.status == Success && r.hw.script == h.script[|acked| + 1..]
            && r.buf == buf[..at] + acked + [last] + buf[at + |acked| + 1..]
  {
    ReceiveAckedBytesFromScript(h, t, buf, at, acked);
    LastAfterAcked(h, t, buf, at, acked, last, ReceiveAckedBytesSpec(h, t, NO_TIMEOUT, buf, at, |acked| + 1));
  }

  /** The last byte after the acknowledged ones, from what the loop left behind. */
  lemma LastAfterAcked(h: Hw, t: uint32, buf: seq<bv8>, at: nat, acked: seq<bv8>, last: bv8, r1: Received)
    requires at + |acked| < |buf| && |acked| < |h.script|
    requires h.script[|acked|].status == TW_MR_DATA_NACK && h.script[|acked|].data == last
    requires r1.status == Success && r1.hw.script == h.script[|acked|..] && r1.buf == buf[..at] + acked + buf[at + |acked|..]
    ensures var r := ReceiveLastSpec(r1.hw, t, NO_TIMEOUT, r1.buf, at + |acked|);
            && r.status == Success && r.hw.script == h.script[|acked| + 1..]
            && r.buf == buf[..at] + acked + [last] + buf[at + |acked| + 1..]
  {
    assert r1.hw.script[0] == h.script[|acked|];
    ReceiveLastFromScript(r1.hw, t, r1.buf, at + |acked|);
    LastSplice(buf, at, acked, last);
  }

  /** A byte the bus answers with another code than the expected one is not stored, and its code decides the failure. */
  lemma AckedFailure(h: Hw, t: uint32, buf: seq<bv8>, at: nat, size: nat)
    requires h.script != [] && TwStatus(h.script[0].status) != TW_MR_DATA_ACK && size > 1
    ensures var r := ReceiveAckedBytesSpec(h, t, NO_TIMEOUT, buf, at, size);
            r.status == ReceiveFailure(TwStatus(h.script[0].status)) && r.buf == buf
  {
    AwaitWithoutTimeout(AckArmed(h), t);
  }

  /** The same for the last byte, which the bus should answer with TW_MR_DATA_NACK. */
  lemma LastFailure(h: Hw, t: uint32, buf: seq<bv8>, at: nat)
    requires h.script != [] && TwStatus(h.script[0].status) != TW_MR_DATA_NACK
    ensures var r := ReceiveLastSpec(h, t, NO_TIMEOUT, buf, at);
            r.status == ReceiveFailure(TwStatus(h.script[0].status)) && r.buf == buf
  {
    AwaitWithoutTimeout(NackArmed(h), t);
  }

  /**
   * _receiveData(t, data, size) against a bus that acknowledges the first
   * size - 1 bytes and answers the last with a code other than
   * TW_MR_DATA_NACK: that code's failure is returned and the last byte is
   * not stored.
   */
  lemma ReceiveBytesFailsAtLast(h: Hw, t: uint32, buf: seq<bv8>, at: nat, acked: seq<bv8>)
    requires at + |acked| < |buf| && |acked| < |h.script|
    requires Answers(h.script, acked, TW_MR_DATA_ACK) && TwStatus(h.script[|acked|].status) != TW_MR_DATA_NACK
    ensures var r := ReceiveBytesSpec(h, t, NO_TIMEOUT, buf, at, |acked| + 1);
            && r.status == ReceiveFailure(TwStatus(h.script[|acked|].status))
            && r.buf == buf[..at] + acked + buf[at + |acked|..]
  {
    ReceiveAckedBytesFills(h, t, buf, at, acked, |acked| + 1);
    FilledSplices(buf, at, acked);
    var r1 := ReceiveAckedBytesSpec(h, t, NO_TIMEOUT, buf, at, |acked| + 1);
    assert r1.hw.script[0] == h.script[|acked|];
    LastFailure(r1.hw, t, r1.buf, at + |acked|);
  }

  /**
   * The loop of _receiveData(t, data, size) over any one-byte step: the
   * shape of ReceiveAckedBytesSpec with the hardware left abstract, so that
   * what the loop does with a failure can be proved once from what a step
   * does, without unfolding the busy-wait.
   */
  function ByteLoop(step: (Hw, seq<bv8>, nat) -> Received, h: Hw, buf: seq<bv8>, at: nat, size: nat): Received
    decreases size
  {
    if size <= 1 then Received(Success, h, buf)
    else
      var r1 := step(h, buf, at);
      if r1.status != Success then r1 else ByteLoop(step, r1.hw, r1.buf, at + 1, size - 1)
  }

  /** One acknowledged byte, as a step of ByteLoop. */
  function AckedStep(t: uint32, timeout: uint32): (Hw, seq<bv8>, nat) -> Received {
    (h: Hw, b: seq<bv8>, a: nat) => ReceiveAckedSpec(h, t, timeout, b, a)
  }

  /** The loop of _receiveData(t, data, size) is ByteLoop over acknowledged bytes. */
  lemma {:induction false} AckedLoopIsByteLoop(h: Hw, t: uint32, timeout: uint32, buf: seq<bv8>, at: nat, size: nat)
    decreases size
    ensures ReceiveAckedBytesSpec(h, t, timeout, buf, at, size) == ByteLoop(AckedStep(t, timeout), h, buf, at, size)
  {
    if size > 1 {
      var r1 := ReceiveAckedSpec(h, t, timeout, buf, at);
      assert AckedStep(t, timeout)(h, buf, at) == r1;
      if r1.status == Success {
        AckedLoopIsByteLoop(r1.hw, t, timeout, r1.buf, at + 1, size - 1);
      }
    }
  }

  /** The bus answers an acknowledged byte with another code than TW_MR_DATA_ACK, and `fail` is that code's failure. */
  predicate RefusesAck(e: Event, fail: Status) {
    TwStatus(e.status) != TW_MR_DATA_ACK && fail == ReceiveFailure(TwStatus(e.status))
  }

  /** An acknowledged byte the bus refuses is not stored, and its code decides the failure. */
  lemma AckedRefused(h: Hw, t: uint32, buf: seq<bv8>, at: nat, fail: Status)
    requires h.script != [] && RefusesAck(h.script[0], fail)
    ensures ReceiveAckedSpec(h, t, NO_TIMEOUT, buf, at).status == fail
    ensures ReceiveAckedSpec(h, t, NO_TIMEOUT, buf, at).buf == buf
  {
    AwaitWithoutTimeout(AckArmed(h), t);
  }

  /**
   * ByteLoop over a step that stores a byte the bus acknowledges and fails
   * on one it refuses: when the bus acknowledges `bytes` and then refuses
   * the next byte, the loop stops there with `fail`, only `bytes` written.
   */
  lemma {:induction false} ByteLoopStopsAtRefusal(step: (Hw, seq<bv8>, nat) -> Received, h: Hw, buf: seq<bv8>, at: nat,
                                                  bytes: seq<bv8>, size: nat, fail: Status)
    requires forall h': Hw, b: seq<bv8>, a: nat {:trigger step(h', b, a)} ::
               h'.script != [] && h'.script[0].status == TW_MR_DATA_ACK ==>
               && step(h', b, a).status == Success && step(h', b, a).hw.script == h'.script[1..]
               && step(h', b, a).buf == Put(b, a, h'.script[0].data)
    requires forall h': Hw, b: seq<bv8>, a: nat {:trigger step(h', b, a)} ::
               h'.script != [] && RefusesAck(h'.script[0], fail) ==>
               step(h', b, a).status == fail && step(h', b, a).buf == b
    requires Answers(h.script, bytes, TW_MR_DATA_ACK) && |bytes| + 1 < size
    requires |bytes| < |h.script| && RefusesAck(h.script[|bytes|], fail)
    decreases |bytes|
    ensures ByteLoop(step, h, buf, at, size).status == fail
    ensures ByteLoop(step, h, buf, at, size).buf == Filled(buf, at, bytes)
  {
    if bytes != [] {
      var r1 := step(h, buf, at);
      assert h.script[0].status == TW_MR_DATA_ACK;
      ScriptTail(h.script, bytes, TW_MR_DATA_ACK);
      assert r1.hw.script[|bytes| - 1] == h.script[|bytes|];
      ByteLoopStopsAtRefusal(step, r1.hw, r1.buf, at + 1, bytes[1..], size - 1, fail);
    }
  }

  /**
   * _receiveData(t, data, size) against a bus that acknowledges `bytes` and
   * answers the next byte of the loop (one before the last) with another
   * code: that code's failure is returned, only `bytes` are stored from
   * buf[at] on, and the rest of the buffer is unchanged.
   */
  lemma ReceiveBytesFailsInLoop(h: Hw, t: uint32, buf: seq<bv8>, at: nat, bytes: seq<bv8>, size: nat)
    requires at + |bytes| <= |buf| && |bytes| + 1 < size && |bytes| < |h.script|
    requires Answers(h.script, bytes, TW_MR_DATA_ACK) && TwStatus(h.script[|bytes|].status) != TW_MR_DATA_ACK
    ensures var r := ReceiveBytesSpec(h, t, NO_TIMEOUT, buf, at, size);
            && r.status == ReceiveFailure(TwStatus(h.script[|bytes|].status))
            && r.buf == buf[..at] + bytes + buf[at + |bytes|..]
  {
    var fail := ReceiveFailure(TwStatus(h.script[|bytes|].status));
    var step := AckedStep(t, NO_TIMEOUT);
    forall h': Hw, b: seq<bv8>, a: nat | h'.script != [] && h'.script[0].status == TW_MR_DATA_ACK
      ensures && step(h', b, a).status == Success && step(h', b, a).hw.script == h'.script[1..]
              && step(h', b, a).buf == Put(b, a, h'.script[0].data)
    {
      ReceiveAckedFromScript(h', t, b, a);
    }
    forall h': Hw, b: seq<bv8>, a: nat | h'.script != [] && RefusesAck(h'.script[0], fail)
      ensures step(h', b, a).status == fail && step(h', b, a).buf == b
    {
      AckedRefused(h', t, b, a, fail);
    }
    ByteLoopStopsAtRefusal(step, h, buf, at, bytes, size, fail);
    AckedLoopIsByteLoop(h, t, NO_TIMEOUT, buf, at, size);
    FilledSplices(buf, at, bytes);
  }

  /** _receiveData(t, data) leaves TWEA cleared, whatever the bus answers: it is not restored afterwards. */
  lemma ReceiveLastLeavesTweaCleared(h: Hw, t: uint32, timeout: uint32, buf: seq<bv8>, at: nat)
    ensures ReceiveLastSpec(h, t, timeout, buf, at).hw.twcr & TWEA == 0
  {
    var h1 := NackArmed(h);
    AwaitKeepsLog(h1, t, timeout);
    var c := Await(h1, t, timeout).hw.twcr;
    assert c & !TWINT & TWEA == h1.twcr & !TWINT & TWEA;
  }

  // ---------------------------------------------------------------------
  // The engine object
  // ---------------------------------------------------------------------

  class MasterConfiguration {
    const hw: Twi
    var timeout: uint32

    /** MasterConfiguration(timeout). */
    constructor (hw: Twi, timeout: uint32)
      ensures this.hw == hw && this.timeout == timeout
    {
      this.hw := hw;
      this.timeout := timeout;
    }

    /** MasterConfiguration(): timeout disabled. */
    constructor WithoutTimeout(hw: Twi)
      ensures this.hw == hw && timeout == NO_TIMEOUT
    {
      this.hw := hw;
      this.timeout := NO_TIMEOUT;
    }

    method SetTimeout(timeout: uint32)
      modifies this
      ensures this.timeout == timeout
    {
      this.timeout := timeout;
    }

    /** setTimeout() with its default argument. */
    method SetDefaultTimeout()
      modifies this
      ensures timeout == DEFAULT_TIMEOUT
    {
      SetTimeout(DEFAULT_TIMEOUT);
    }

    method DisableTimeout()
      modifies this
      ensures timeout == NO_TIMEOUT
    {
      timeout := NO_TIMEOUT;
    }

    method AcceptBusLost()
      modifies hw
      ensures hw.State() == BusLostAccepted(old(hw.State()))
    {
      hw.WriteControl(TwcrW(hw.twcr, TWINT));
    }

    method SignalStop()
      modifies hw
      ensures hw.State() == Stopped(old(hw.State()))
    {
      hw.WriteControl(TwcrW(hw.twcr, STOP_REQUEST));
    }

    /** _awaitTWINT(t). */
    method AwaitTwint(t: uint32) returns (late: bool)
      modifies hw
      ensures Waited(late, hw.State()) == Await(old(hw.State()), t, timeout)
    {
      ghost var target := Await(hw.State(), t, timeout);
      while true
        invariant Await(hw.State(), t, timeout) == target
        decreases PendingWait(hw.State())
      {
        var flag := hw.PollTwint();
        if flag {
          assert AwaitFinish(hw.State(), t, timeout) == target;
          break;
        }
        var n := hw.Micros();
        if Late(n, t, timeout) {
          assert AwaitFinish(hw.State(), t, timeout) == target;
          break;
        }
      }
      var n := hw.Micros();
      late := Late(n, t, timeout);
    }

    /** _signalStart(t). */
    method SignalStartAt(t: uint32) returns (s: Status)
      modifies hw
      ensures Outcome(s, hw.State()) == SignalStartSpec(old(hw.State()), t, timeout)
    {
      hw.WriteControl(TwcrW(hw.twcr, START_REQUEST));
      var late := AwaitTwint(t);
      if late {
        return Timeout;
      }
      s := StartResult(TwStatus(hw.twsr));
    }

    /** _signalStopStart(t). */
    method SignalStopStartAt(t: uint32) returns (s: Status)
      modifies hw
      ensures Outcome(s, hw.State()) == SignalStopStartSpec(old(hw.State()), t, timeout)
    {
      hw.WriteControl(TwcrW(hw.twcr, STOP_START_REQUEST));
      var late := AwaitTwint(t);
      if late {
        return Timeout;
      }
      s := StartResult(TwStatus(hw.twsr));
    }

    /** _addressSlaveW(t, address). */
    method AddressSlaveW(t: uint32, address: bv8) returns (s: Status)
      modifies hw
      ensures Outcome(s, hw.State()) == AddressSlaveWSpec(old(hw.State()), t, timeout, address)
    {
      hw.WriteData(AddressByte(address, TW_WRITE));
      hw.WriteControl(TwcrW(hw.twcr, TWINT));
      var late := AwaitTwint(t);
      if late {
        return Timeout;
      }
      s := AddressResult(TwStatus(hw.twsr), TW_MT_SLA_ACK, TW_MT_SLA_NACK);
      if s == AddressNACK {
        SignalStop();
      }
    }

    /** _addressSlaveR(t, address). */
    method AddressSlaveR(t: uint32, address: bv8) returns (s: Status)
      modifies hw
      ensures Outcome(s, hw.State()) == AddressSlaveRSpec(old(hw.State()), t, timeout, address)
    {
      hw.WriteData(AddressByte(address, TW_READ));
      hw.WriteControl(TwcrW(hw.twcr, TWINT));
      var late := AwaitTwint(t);
      if late {
        return Timeout;
      }
      s := AddressResult(TwStatus(hw.twsr), TW_MR_SLA_ACK, TW_MR_SLA_NACK);
      if s == AddressNACK {
        SignalStop();
      }
    }

    /** _sendData(t, data) for one byte. */
    method SendByteAt(t: uint32, b: bv8) returns (s: Status)
      modifies hw
      ensures Outcome(s, hw.State()) == SendByteSpec(old(hw.State()), t, timeout, b)
    {
      hw.WriteData(b);
      hw.WriteControl(TwcrW(hw.twcr, TWINT));
      assert hw.State() == Transmitted(old(hw.State()), b);
      var late := AwaitTwint(t);
      if late {
        return Timeout;
      }
      s := SendResult(TwStatus(hw.twsr));
      if s == DataNACK {
        SignalStop();
      }
    }

    /** _sendData(t, data, size), with each byte sent as `_sendData(t, data[i])`. */
    method SendBytesAt(t: uint32, data: seq<bv8>) returns (s: Status)
      modifies hw
      ensures Outcome(s, hw.State()) == SendBytesSpec(old(hw.State()), t, timeout, data)
    {
      var i := 0;
      while i < |data|
        invariant 0 <= i <= |data|
        invariant SendBytesSpec(hw.State(), t, timeout, data[i..]) == SendBytesSpec(old(hw.State()), t, timeout, data)
      {
        s := SendByteAt(t, data[i]);
        if s != Success {
          return;
        }
        i := i + 1;
      }
      s := Success;
    }

    /** _receiveData(t, data) into `data[at]`. TWEA is left cleared. */
    method ReceiveByteAt(t: uint32, data: array<bv8>, at: nat) returns (s: Status)
      requires at < data.Length
      modifies hw, data
      ensures Received(s, hw.State(), data[..]) == ReceiveLastSpec(old(hw.State()), t, timeout, old(data[..]), at)
    {
      hw.WriteControl(Clear(hw.twcr, TWEA));
      hw.WriteControl(TwcrW(hw.twcr, TWINT));
      assert hw.State() == NackArmed(old(hw.State()));
      var late := AwaitTwint(t);
      if late {
        return Timeout;
      }
      var code := TwStatus(hw.twsr);
      if code == TW_MR_DATA_NACK {
        data[at] := hw.twdr;
        assert data[..] == old(data[..])[at := hw.twdr];
        return Success;
      }
      s := ReceiveFailure(code);
    }

    /** The body of the loop of _receiveData(t, data, size), for `data[at]`. */
    method ReceiveAckedAt(t: uint32, data: array<bv8>, at: nat) returns (s: Status)
      requires at < data.Length
      modifies hw, data
      ensures Received(s, hw.State(), data[..]) == ReceiveAckedSpec(old(hw.State()), t, timeout, old(data[..]), at)
    {
      hw.WriteControl(TwcrW(hw.twcr, ACK_REQUEST));
      var late := AwaitTwint(t);
      if late {
        return Timeout;
      }
      var code := TwStatus(hw.twsr);
      if code != TW_MR_DATA_ACK {
        return ReceiveFailure(code);
      }
      data[at] := hw.twdr;
      assert data[..] == old(data[..])[at := hw.twdr];
      s := Success;
    }

    /** The loop of _receiveData(t, data, size), from `data[at]`. */
    method ReceiveAckedBytesAt(t: uint32, data: array<bv8>, at: nat, size: nat) returns (s: Status)
      requires at < data.Length && at + size <= data.Length
      modifies hw, data
      ensures Received(s, hw.State(), data[..]) == ReceiveAckedBytesSpec(old(hw.State()), t, timeout, old(data[..]), at, size)
    {
      var p: nat, n: nat := at, size;
      while n > 1
        invariant at <= p < data.Length && p + n == at + size <= data.Length
        invariant ReceiveAckedBytesSpec(hw.State(), t, timeout, data[..], p, n)
               == ReceiveAckedBytesSpec(old(hw.State()), t, timeout, old(data[..]), at, size)
      {
        s := ReceiveAckedAt(t, data, p);
        if s != Success {
          return;
        }
        p, n := p + 1, n - 1;
      }
      s := Success;
    }

    /** _receiveData(t, data, size) into `data[at..at + size]`. */
    method ReceiveBytesAt(t: uint32, data: array<bv8>, at: nat, size: nat) returns (s: Status)
      requires at < data.Length && at + size <= data.Length
      modifies hw, data
      ensures Received(s, hw.State(), data[..]) == ReceiveBytesSpec(old(hw.State()), t, timeout, old(data[..]), at, size)
    {
      s := ReceiveAckedBytesAt(t, data, at, size);
      if s != Success {
        return;
      }
      s := ReceiveByteAt(t, data, at + Acked(size));
    }

    // ---- the public primitives: read the clock once, pass it as the deadline base ----

    method SignalStart() returns (s: Status)
      modifies hw
      ensures var Reading(t, h) := Ticked(old(hw.State())); Outcome(s, hw.State()) == SignalStartSpec(h, t, timeout)
    {
      var t := hw.Micros();
      s := SignalStartAt(t);
    }

    method SignalStopStart() returns (s: Status)
      modifies hw
      ensures var Reading(t, h) := Ticked(old(hw.State())); Outcome(s, hw.State()) == SignalStopStartSpec(h, t, timeout)
    {
      var t := hw.Micros();
      s := SignalStopStartAt(t);
    }

    method AddressForWriting(address: bv8) returns (s: Status)
      modifies hw
      ensures var Reading(t, h) := Ticked(old(hw.State())); Outcome(s, hw.State()) == AddressSlaveWSpec(h, t, timeout, address)
    {
      var t := hw.Micros();
      s := AddressSlaveW(t, address);
    }

    method AddressForReading(address: bv8) returns (s: Status)
      modifies hw
      ensures var Reading(t, h) := Ticked(old(hw.State())); Outcome(s, hw.State()) == AddressSlaveRSpec(h, t, timeout, address)
    {
      var t := hw.Micros();
      s := AddressSlaveR(t, address);
    }

    method SendData(b: bv8) returns (s: Status)
      modifies hw
      ensures var Reading(t, h) := Ticked(old(hw.State())); Outcome(s, hw.State()) == SendByteSpec(h, t, timeout, b)
    {
      var t := hw.Micros();
      s := SendByteAt(t, b);
    }

    method SendBuffer(data: seq<bv8>) returns (s: Status)
      modifies hw
      ensures var Reading(t, h) := Ticked(old(hw.State())); Outcome(s, hw.State()) == SendBytesSpec(h, t, timeout, data)
    {
      var t := hw.Micros();
      s := SendBytesAt(t, data);
    }

    method ReceiveData(data: array<bv8>, at: nat) returns (s: Status)
      requires at < data.Length
      modifies hw, data
      ensures var Reading(t, h) := Ticked(old(hw.State()));
              Received(s, hw.State(), data[..]) == ReceiveLastSpec(h, t, timeout, old(data[..]), at)
    {
      var t := hw.Micros();
      s := ReceiveByteAt(t, data, at);
    }

    method ReceiveBuffer(data: array<bv8>, at: nat, size: nat) returns (s: Status)
      requires at < data.Length && at + size <= data.Length
      modifies hw, data
      ensures var Reading(t, h) := Ticked(old(hw.State()));
              Received(s, hw.State(), data[..]) == ReceiveBytesSpec(h, t, timeout, old(data[..]), at, size)
    {
      var t := hw.Micros();
      s := ReceiveBytesAt(t, data, at, size);
    }
  }
}
