/**
 * The slave transmitter (src/TwoWireSlaveTransmitter.cpp): a buffer to send,
 * its size and the number of bytes sent so far, advanced by the TWI
 * interrupt while a master reads from this device.
 *
 * `Routine` is the reference definition of one interrupt on a value `Tx`;
 * the method of `SlaveTransmitter` does the same work on the object and the
 * peripheral in place.
 */
module TwoWireSlaveTransmitter {
  import opened TwiCodes
  import opened TwoWireCore
  import opened TwoWireSlave

  /** The transmitter's fields and the peripheral as values. */
  datatype Tx = Tx(data: seq<bv8>, size: nat, count: nat, hw: Hw)

  /** The codes for this device addressed as a transmitter, with or without a lost arbitration. */
  const ADDRESSED_CODES: set<bv8> := {TW_ST_SLA_ACK, TW_ST_ARB_LOST_SLA_ACK}

  /** data[i] as the C++ code reads it; callers only reach it with i < size <= |data|. */
  function ByteAt(data: seq<bv8>, i: nat): (b: bv8)
    ensures i < |data| ==> b == data[i]
  {
    if i < |data| then data[i] else 0
  }

  /**
   * The TW_ST_DATA_ACK case: with bytes left, the next one goes to TWDR and
   * is sent with TWEA set; with none left, TWEA is cleared and nothing is
   * written to TWDR.
   */
  function Emitted(t: Tx): Tx {
    if t.count < t.size then t.(count := t.count + 1, hw := AcceptedNext(DataWritten(t.hw, ByteAt(t.data, t.count))))
    else t.(hw := DeclinedNext(t.hw))
  }

  /** The addressed case before it falls through: with bytes left the count starts over. */
  function Restarted(t: Tx): Tx {
    if t.count < t.size then t.(count := 0) else t
  }

  /**
   * interruptVectorRoutine on a value. Addressed with bytes left: start over
   * at count 0, then fall through into the data case; addressed with none
   * left: the data case alone. TW_ST_DATA_NACK, TW_ST_LAST_DATA and every
   * other code: nothing.
   */
  function Routine(t: Tx): (t': Tx)
    ensures t'.data == t.data && t'.size == t.size
    ensures t.count <= t.size ==> t'.count <= t'.size
    ensures TwStatus(t.hw.twsr) !in ADDRESSED_CODES + {TW_ST_DATA_ACK} ==> t' == t
  {
    var code := TwStatus(t.hw.twsr);
    if code in ADDRESSED_CODES then Emitted(Restarted(t))
    else if code == TW_ST_DATA_ACK then Emitted(t)
    else t
  }

  /** The bus reports `code` and the interrupt runs; TWDR still holds the byte last sent. */
  function Interrupted(t: Tx, code: bv8): Tx {
    Routine(t.(hw := Delivered(t.hw, code, t.hw.twdr)))
  }

  /** The master acknowledges the byte last sent: the data case of the routine runs. */
  function AckedOnce(t: Tx): Tx {
    Emitted(t.(hw := Delivered(t.hw, TW_ST_DATA_ACK, t.hw.twdr)))
  }

  /** The routine takes TW_ST_DATA_ACK to the data case and nowhere else. */
  lemma AckedOnceIsInterrupt(t: Tx)
    ensures Interrupted(t, TW_ST_DATA_ACK) == AckedOnce(t)
  {
    assert TwStatus(Delivered(t.hw, TW_ST_DATA_ACK, t.hw.twdr).twsr) == TW_ST_DATA_ACK;
  }

  /** The master acknowledges `k` bytes in a row. */
  function Acked(t: Tx, k: nat): Tx
    decreases k
  {
    if k == 0 then t else Acked(AckedOnce(t), k - 1)
  }

  /** One acknowledged byte with bytes left: data[count] is written to TWDR and nothing else is. */
  lemma EmitsOne(t: Tx)
    requires t.count < t.size <= |t.data|
    ensures var t' := AckedOnce(t);
            && t'.data == t.data && t'.size == t.size && t'.count == t.count + 1
            && Sent(t'.hw.log) == Sent(t.hw.log) + [t.data[t.count]]
  {
    var h := Delivered(t.hw, TW_ST_DATA_ACK, t.hw.twdr);
    assert TwStatus(h.twsr) == TW_ST_DATA_ACK;
    var h1 := DataWritten(h, t.data[t.count]);
    var h2 := AcceptedNext(h1);
    SentAppend(h.log, Data(t.data[t.count]));
    SentAppend(h1.log, Control(h2.twcr));
  }

  lemma SliceStep(d: seq<bv8>, at: nat, k: nat)
    requires 0 < k && at + k <= |d|
    ensures d[at..at + k] == [d[at]] + d[at + 1..at + 1 + (k - 1)]
  {
  }

  lemma SeqAssoc(a: seq<bv8>, b: seq<bv8>, c: seq<bv8>)
    ensures a + b + c == a + (b + c)
  {
  }

  /** k acknowledgements with k bytes left send data[count..count + k], in order. */
  lemma {:induction false} AckedSendsInOrder(t: Tx, k: nat)
    requires t.count + k <= t.size <= |t.data|
    decreases k
    ensures var t' := Acked(t, k);
            && t'.data == t.data && t'.size == t.size && t'.count == t.count + k
            && Sent(t'.hw.log) == Sent(t.hw.log) + t.data[t.count..t.count + k]
  {
    if k > 0 {
      var t1 := AckedOnce(t);
      EmitsOne(t);
      AckedSendsInOrder(t1, k - 1);
      SliceStep(t.data, t.count, k);
    }
  }

  /** One read transfer: addressed, then every byte but the first acknowledged. */
  function Transfer(t: Tx): Tx
    requires t.size > 0
  {
    Acked(Interrupted(t, TW_ST_SLA_ACK), t.size - 1)
  }

  /**
   * A transfer from a transmitter with bytes left starts over at the front
   * of the buffer and sends the whole buffer once, in order; afterwards the
   * data is reported transmitted.
   */
  lemma TransferSendsBuffer(t: Tx)
    requires t.count < t.size <= |t.data|
    ensures var t' := Transfer(t);
            && Sent(t'.hw.log) == Sent(t.hw.log) + t.data[..t.size] && t'.count == t'.size
  {
    var t1 := Interrupted(t, TW_ST_SLA_ACK);
    AddressedSendsFirst(t);
    AckedSendsInOrder(t1, t.size - 1);
    SliceStep(t.data, 0, t.size);
    SeqAssoc(Sent(t.hw.log), [t.data[0]], t.data[1..t.size]);
  }

  /** Addressed with bytes left: the count starts over and data[0] is sent. */
  lemma AddressedSendsFirst(t: Tx)
    requires t.count < t.size <= |t.data|
    ensures var t' := Interrupted(t, TW_ST_SLA_ACK);
            && t'.data == t.data && t'.size == t.size && t'.count == 1
            && Sent(t'.hw.log) == Sent(t.hw.log) + [t.data[0]]
  {
    var h := Delivered(t.hw, TW_ST_SLA_ACK, t.hw.twdr);
    assert TwStatus(h.twsr) == TW_ST_SLA_ACK;
    var h1 := DataWritten(h, t.data[0]);
    SentAppend(h.log, Data(t.data[0]));
    SentAppend(h1.log, Control(AcceptedNext(h1).twcr));
  }

  /**
   * Once everything was sent, neither a new address nor a further
   * acknowledgement sends anything until transmitDataAgain or transmitData:
   * TWEA is cleared and the count stays.
   */
  lemma SentTransmitterDeclines(t: Tx, code: bv8)
    requires t.count == t.size && code in ADDRESSED_CODES + {TW_ST_DATA_ACK}
    ensures var t' := Interrupted(t, code);
            && t'.count == t.count && Sent(t'.hw.log) == Sent(t.hw.log) && !Has(t'.hw.twcr, TWEA)
  {
    var h := Delivered(t.hw, code, t.hw.twdr);
    assert TwStatus(h.twsr) == code;
    var h1 := ControlWritten(h, Clear(h.twcr, TWEA));
    SentAppend(h.log, Control(h1.twcr));
    SentAppend(h1.log, Control(DeclinedNext(h).twcr));
  }

  /** The transmitter object, with the peripheral it services. */
  class SlaveTransmitter {
    const hw: Twi
    var data: array<bv8>
    var size: nat
    var count: nat

    ghost function Value(): Tx
      reads this, data, hw
    {
      Tx(data[..], size, count, hw.State())
    }

    /** Never more bytes sent than the buffer size, and the buffer holds `size` bytes. */
    ghost predicate Valid()
      reads this
    {
      count <= size <= data.Length
    }

    /** SlaveTransmitter(data, size). */
    constructor (hw: Twi, data: array<bv8>, size: nat)
      requires size <= data.Length
      ensures Valid() && this.hw == hw && this.data == data && this.size == size && count == 0
    {
      this.hw := hw;
      this.data := data;
      this.size := size;
      count := 0;
    }

    /** SlaveTransmitter(): no buffer yet (nullptr is an empty array here). */
    constructor WithoutBuffer(hw: Twi)
      ensures Valid() && this.hw == hw && data.Length == 0 && size == 0 && count == 0
    {
      this.hw := hw;
      data := new bv8[0];
      size := 0;
      count := 0;
    }

    /** transmitDataAgain: the same buffer is sent again from the start. */
    method TransmitDataAgain()
      requires Valid()
      modifies this
      ensures Valid() && data == old(data) && size == old(size) && count == 0
    {
      count := 0;
    }

    /** transmitData: a new buffer, sent from the start. */
    method TransmitData(data: array<bv8>, size: nat)
      requires size <= data.Length
      modifies this
      ensures Valid() && this.data == data && this.size == size && count == 0
    {
      this.data := data;
      this.size := size;
      count := 0;
    }

    /** isDataTransmitted: the whole buffer was sent. */
    function IsDataTransmitted(): (b: bool)
      reads this
      ensures b <==> count == size
    {
      size == count
    }

    /** interruptVectorRoutine; the buffer must hold `size` bytes. */
    method InterruptVectorRoutine()
      requires Valid()
      modifies this, hw
      ensures Valid() && data == old(data) && data[..] == old(data[..])
      ensures Value() == Routine(old(Value()))
    {
      var code := TwStatus(hw.twsr);
      if code in ADDRESSED_CODES {
        OnAddressed();
      } else if code == TW_ST_DATA_ACK {
        OnDataAck();
      }
    }

    /** The addressed cases of the routine, falling through into the data case. */
    method OnAddressed()
      requires Valid()
      modifies this, hw
      ensures Valid() && data == old(data) && size == old(size)
      ensures Value() == Emitted(Restarted(old(Value())))
    {
      if count < size {
        count := 0;
      }
      OnDataAck();
    }

    /** The TW_ST_DATA_ACK case of the routine. */
    method OnDataAck()
      requires Valid()
      modifies this, hw
      ensures Valid() && data == old(data) && size == old(size)
      ensures Value() == Emitted(old(Value()))
    {
      if count < size {
        hw.WriteData(data[count]);
        hw.WriteControl(Set(hw.twcr, TWINT | TWEA));
        count := count + 1;
      } else {
        hw.WriteControl(Clear(hw.twcr, TWEA));
        hw.WriteControl(Set(hw.twcr, TWINT));
      }
    }
  }
}
