/**
 * The slave receiver (src/TwoWireSlaveReceiver.cpp): a buffer, its size and
 * the number of bytes received so far, advanced by the TWI interrupt.
 *
 * `Routine` is the reference definition of one interrupt on a value `Rx`;
 * the method of `SlaveReceiver` does the same work on the object and the
 * peripheral in place.
 */
module TwoWireSlaveReceiver {
  import opened TwiCodes
  import opened TwoWireCore

  /** The receiver's fields and the peripheral as values. */
  datatype Rx = Rx(buf: seq<bv8>, size: nat, count: nat, hw: Hw)

  /** The codes for this device addressed as a receiver: directly or by general call, with or without a lost arbitration. */
  const ADDRESSED_CODES: set<bv8> := {TW_SR_SLA_ACK, TW_SR_ARB_LOST_SLA_ACK, TW_SR_GCALL_ACK, TW_SR_ARB_LOST_GCALL_ACK}

  /** The codes for a data byte received and acknowledged. */
  const DATA_CODES: set<bv8> := {TW_SR_DATA_ACK, TW_SR_GCALL_DATA_ACK}

  /** The bytes still wanted decide whether the next one is acknowledged. */
  function Armed(h: Hw, count: nat, size: nat): Hw {
    if count < size then AckArmed(h) else NackArmed(h)
  }

  /** Addressed with room left: acknowledge and start over at count 0; addressed when full: decline and keep the count. */
  function Addressed(r: Rx): Rx {
    if r.count < r.size then r.(count := 0, hw := AckArmed(r.hw)) else r.(hw := NackArmed(r.hw))
  }

  /** A data byte: TWDR goes to buf[count], the count goes up, and the next byte is acknowledged only if there is room for it. */
  function Stored(r: Rx): Rx {
    r.(buf := Put(r.buf, r.count, r.hw.twdr), count := r.count + 1, hw := Armed(r.hw, r.count + 1, r.size))
  }

  /** interruptVectorRoutine on a value: every other status code leaves everything as it was. */
  function Routine(r: Rx): (r': Rx)
    ensures r'.size == r.size && |r'.buf| == |r.buf|
    ensures r.count <= r.size && (TwStatus(r.hw.twsr) in DATA_CODES ==> r.count < r.size) ==> r'.count <= r'.size
    ensures TwStatus(r.hw.twsr) !in ADDRESSED_CODES + DATA_CODES ==> r' == r
  {
    var code := TwStatus(r.hw.twsr);
    if code in ADDRESSED_CODES then Addressed(r)
    else if code in DATA_CODES then Stored(r)
    else r
  }

  /** The bus delivers `code` with `b` in TWDR, and the interrupt runs. */
  function Interrupted(r: Rx, code: bv8, b: bv8): Rx {
    Routine(r.(hw := Delivered(r.hw, code, b)))
  }

  /** A master writes `bytes`, each acknowledged as TW_SR_DATA_ACK. */
  function FedData(r: Rx, bytes: seq<bv8>): (r': Rx)
    decreases |bytes|
    ensures |r'.buf| == |r.buf| && r'.size == r.size
  {
    if bytes == [] then r else FedData(Interrupted(r, TW_SR_DATA_ACK, bytes[0]), bytes[1..])
  }

  /**
   * Data bytes that fit are stored in order from buf[count] on, and no other
   * slot changes; after the last of them TWEA is set exactly while there is
   * room for another byte.
   */
  /** One acknowledged data byte with room for it: stored at buf[count], and TWEA set iff there is room for another. */
  lemma StoresOne(r: Rx, b: bv8)
    requires r.count < r.size <= |r.buf|
    ensures var r' := Interrupted(r, TW_SR_DATA_ACK, b);
            && r'.size == r.size && r'.count == r.count + 1 && r'.buf == r.buf[r.count := b]
            && (Has(r'.hw.twcr, TWEA) <==> r'.count < r'.size)
  {
    var h := Delivered(r.hw, TW_SR_DATA_ACK, b);
    assert TwStatus(h.twsr) == TW_SR_DATA_ACK;
    assert h.twdr == b;
  }

  lemma {:induction false} FedDataStoresInOrder(r: Rx, bytes: seq<bv8>)
    requires r.count + |bytes| <= r.size <= |r.buf|
    decreases |bytes|
    ensures var r' := FedData(r, bytes);
            && r'.count == r.count + |bytes|
            && r'.buf == r.buf[..r.count] + bytes + r.buf[r.count + |bytes|..]
            && (bytes != [] ==> (Has(r'.hw.twcr, TWEA) <==> r'.count < r'.size))
  {
    if bytes != [] {
      var r1 := Interrupted(r, TW_SR_DATA_ACK, bytes[0]);
      StoresOne(r, bytes[0]);
      FedDataStoresInOrder(r1, bytes[1..]);
      Splice(r.buf, r.count, bytes);
    }
  }

  /** One write transfer: addressed directly, then `bytes` acknowledged. */
  function Transfer(r: Rx, bytes: seq<bv8>): Rx {
    FedData(Interrupted(r, TW_SR_SLA_ACK, 0), bytes)
  }

  /**
   * A transfer into a receiver with room left starts over at the front of
   * the buffer: the bytes land at buf[0..], and the data is available
   * exactly when the transfer filled the buffer.
   */
  lemma TransferFillsFromFront(r: Rx, bytes: seq<bv8>)
    requires r.count < r.size <= |r.buf| && |bytes| <= r.size
    ensures var r' := Transfer(r, bytes);
            && r'.buf[..|bytes|] == bytes && r'.buf[|bytes|..] == r.buf[|bytes|..]
            && (r'.count == r'.size <==> |bytes| == r.size)
  {
    var h := Delivered(r.hw, TW_SR_SLA_ACK, 0);
    assert TwStatus(h.twsr) == TW_SR_SLA_ACK;
    var r0 := Interrupted(r, TW_SR_SLA_ACK, 0);
    assert r0 == r.(count := 0, hw := AckArmed(h));
    FedDataStoresInOrder(r0, bytes);
  }

  /**
   * Once the buffer is full, being addressed again declines the transfer and
   * keeps what was received until receiveNextData is called.
   */
  lemma FullReceiverDeclines(r: Rx, code: bv8)
    requires r.count == r.size && code in ADDRESSED_CODES
    ensures var r' := Interrupted(r, code, 0);
            && r'.buf == r.buf && r'.count == r.count && !Has(r'.hw.twcr, TWEA)
  {
    assert TwStatus(Delivered(r.hw, code, 0).twsr) == code;
  }

  /** The receiver object, with the peripheral it services. */
  class SlaveReceiver {
    const hw: Twi
    var data: array<bv8>
    var size: nat
    var count: nat

    ghost function Value(): Rx
      reads this, data, hw
    {
      Rx(data[..], size, count, hw.State())
    }

    /** Never more bytes received than the buffer size, and the buffer holds `size` bytes. */
    ghost predicate Valid()
      reads this
    {
      count <= size <= data.Length
    }

    /** SlaveReceiver(data, size). */
    constructor (hw: Twi, data: array<bv8>, size: nat)
      requires size <= data.Length
      ensures Valid() && this.hw == hw && this.data == data && this.size == size && count == 0
    {
      this.hw := hw;
      this.data := data;
      this.size := size;
      count := 0;
    }

    /** SlaveReceiver(data): one byte. */
    constructor ForByte(hw: Twi, data: array<bv8>)
      requires 1 <= data.Length
      ensures Valid() && this.hw == hw && this.data == data && size == 1 && count == 0
    {
      this.hw := hw;
      this.data := data;
      size := 1;
      count := 0;
    }

    /** SlaveReceiver(): no buffer yet (nullptr is an empty array here). */
    constructor WithoutBuffer(hw: Twi)
      ensures Valid() && this.hw == hw && data.Length == 0 && size == 0 && count == 0
    {
      this.hw := hw;
      data := new bv8[0];
      size := 0;
      count := 0;
    }

    /** receiveNextData(): the same buffer is filled again from the start. */
    method ReceiveNextData()
      requires Valid()
      modifies this
      ensures Valid() && data == old(data) && size == old(size) && count == 0
    {
      count := 0;
    }

    /** receiveNextData(data, size): a new buffer, filled from the start. */
    method ReceiveNextDataInto(data: array<bv8>, size: nat)
      requires size <= data.Length
      modifies this
      ensures Valid() && this.data == data && this.size == size && count == 0
    {
      this.data := data;
      this.size := size;
      count := 0;
    }

    /** receiveNextData(data): a new one-byte buffer. */
    method ReceiveNextByteInto(data: array<bv8>)
      requires 1 <= data.Length
      modifies this
      ensures Valid() && this.data == data && size == 1 && count == 0
    {
      this.data := data;
      size := 1;
      count := 0;
    }

    /** isDataAvailable: the buffer is full. */
    function IsDataAvailable(): (b: bool)
      reads this
      ensures b <==> count == size
    {
      size == count
    }

    /**
     * interruptVectorRoutine. The buffer must hold `size` bytes, and a data
     * byte only arrives while there is room (the byte before the last one
     * room was NACKed, so the bus reports TW_SR_DATA_NACK instead).
     */
    method InterruptVectorRoutine()
      requires Valid()
      requires TwStatus(hw.twsr) in DATA_CODES ==> count < size
      modifies this, data, hw
      ensures Valid() && data == old(data)
      ensures Value() == Routine(old(Value()))
    {
      var code := TwStatus(hw.twsr);
      if code in ADDRESSED_CODES {
        OnAddressed();
      } else if code in DATA_CODES {
        OnData();
      }
    }

    /** The addressed cases of the routine. */
    method OnAddressed()
      requires Valid()
      modifies this, hw
      ensures Valid() && data == old(data) && size == old(size)
      ensures Value() == Addressed(old(Value()))
    {
      if count < size {
        hw.WriteControl(TwcrW(hw.twcr, ACK_REQUEST));
        count := 0;
      } else {
        hw.WriteControl(Clear(hw.twcr, TWEA));
        hw.WriteControl(TwcrW(hw.twcr, TWINT));
      }
    }

    /** The data cases of the routine. */
    method OnData()
      requires Valid() && count < size
      modifies this, data, hw
      ensures Valid() && data == old(data) && size == old(size)
      ensures Value() == Stored(old(Value()))
    {
      data[count] := hw.twdr;
      count := count + 1;
      if count < size {
        hw.WriteControl(TwcrW(hw.twcr, ACK_REQUEST));
      } else {
        hw.WriteControl(Clear(hw.twcr, TWEA));
        hw.WriteControl(TwcrW(hw.twcr, TWINT));
      }
    }
  }
}
