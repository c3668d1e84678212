/**
 * Slave-side status decoding and the acknowledge helpers (src/TwoWireSlave.cpp).
 * The decoders are total functions of the TW_STATUS code; the detailed one
 * refines the basic one, and `Coarse` is the projection between them.
 */
module TwoWireSlave {
  import opened TwiCodes
  import opened TwoWireCore

  /** Slave::BasicStatus. */
  datatype BasicStatus =
    | NoStatus | Error | SignalReceived
    | AddressedAsReceiver | AcceptedDataReceived | DeclinedDataReceived
    | AddressedAsTransmitter | NextDataAccepted | NextDataDeclined | MoreDataRequest
    | Unknown

  /** Slave::Status: why the device was addressed (directly, by general call, after losing arbitration). */
  datatype Status =
    | NoStatus | Error | SignalReceived
    | DirectlyAddressedAsReceiver | BusLostDirectlyAddressedAsReceiver
    | GeneralCallAddressedAsReceiver | BusLostGeneralCallAdressedAsReceiver
    | DirectAcceptedDataReceived | DirectDeclinedDataReceived
    | GeneralCallAcceptedDataReceived | GeneralCallDeclinedDataReceived
    | DirectlyAddressedAsTransmitter | BusLostDirectlyAddressedAsTransmitter
    | NextDataAccepted | NextDataDeclined | MoreDataRequest
    | Unknown

  /** The 16 status codes the slave decoders recognise. */
  const SLAVE_CODES: set<bv8> := {
    TW_NO_INFO, TW_BUS_ERROR, TW_SR_STOP,
    TW_SR_SLA_ACK, TW_SR_ARB_LOST_SLA_ACK, TW_SR_GCALL_ACK, TW_SR_ARB_LOST_GCALL_ACK,
    TW_SR_DATA_ACK, TW_SR_GCALL_DATA_ACK, TW_SR_DATA_NACK, TW_SR_GCALL_DATA_NACK,
    TW_ST_SLA_ACK, TW_ST_ARB_LOST_SLA_ACK, TW_ST_DATA_ACK, TW_ST_DATA_NACK, TW_ST_LAST_DATA
  }

  /** The class of a detailed status: what the basic decoder reports for the same code. */
  function Coarse(s: Status): BasicStatus {
    match s
    case NoStatus => BasicStatus.NoStatus
    case Error => BasicStatus.Error
    case SignalReceived => BasicStatus.SignalReceived
    case DirectlyAddressedAsReceiver | BusLostDirectlyAddressedAsReceiver
      | GeneralCallAddressedAsReceiver | BusLostGeneralCallAdressedAsReceiver => BasicStatus.AddressedAsReceiver
    case DirectAcceptedDataReceived | GeneralCallAcceptedDataReceived => BasicStatus.AcceptedDataReceived
    case DirectDeclinedDataReceived | GeneralCallDeclinedDataReceived => BasicStatus.DeclinedDataReceived
    case DirectlyAddressedAsTransmitter | BusLostDirectlyAddressedAsTransmitter => BasicStatus.AddressedAsTransmitter
    case NextDataAccepted => BasicStatus.NextDataAccepted
    case NextDataDeclined => BasicStatus.NextDataDeclined
    case MoreDataRequest => BasicStatus.MoreDataRequest
    case Unknown => BasicStatus.Unknown
  }

  /** getStatus: every listed code has its own value; every other code is Unknown. */
  function GetStatus(code: bv8): (s: Status)
    ensures s == Status.Unknown <==> code !in SLAVE_CODES
  {
    if code == TW_NO_INFO then Status.NoStatus
    else if code == TW_BUS_ERROR then Status.Error
    else if code == TW_SR_STOP then Status.SignalReceived
    else if code == TW_SR_SLA_ACK then DirectlyAddressedAsReceiver
    else if code == TW_SR_ARB_LOST_SLA_ACK then BusLostDirectlyAddressedAsReceiver
    else if code == TW_SR_GCALL_ACK then GeneralCallAddressedAsReceiver
    else if code == TW_SR_ARB_LOST_GCALL_ACK then BusLostGeneralCallAdressedAsReceiver
    else if code == TW_SR_DATA_ACK then DirectAcceptedDataReceived
    else if code == TW_SR_GCALL_DATA_ACK then GeneralCallAcceptedDataReceived
    else if code == TW_SR_DATA_NACK then DirectDeclinedDataReceived
    else if code == TW_SR_GCALL_DATA_NACK then GeneralCallDeclinedDataReceived
    else if code == TW_ST_SLA_ACK then DirectlyAddressedAsTransmitter
    else if code == TW_ST_ARB_LOST_SLA_ACK then BusLostDirectlyAddressedAsTransmitter
    else if code == TW_ST_DATA_ACK then Status.NextDataAccepted
    else if code == TW_ST_DATA_NACK then Status.NextDataDeclined
    else if code == TW_ST_LAST_DATA then Status.MoreDataRequest
    else Status.Unknown
  }

  /** getBasicStatus: never disagrees with the class of the detailed status. */
  function GetBasicStatus(code: bv8): (s: BasicStatus)
    ensures s == Coarse(GetStatus(code))
    ensures s == BasicStatus.Unknown <==> code !in SLAVE_CODES
  {
    if code == TW_NO_INFO then BasicStatus.NoStatus
    else if code == TW_BUS_ERROR then BasicStatus.Error
    else if code == TW_SR_STOP then BasicStatus.SignalReceived
    else if code == TW_SR_SLA_ACK || code == TW_SR_ARB_LOST_SLA_ACK
         || code == TW_SR_GCALL_ACK || code == TW_SR_ARB_LOST_GCALL_ACK then BasicStatus.AddressedAsReceiver
    else if code == TW_SR_DATA_ACK || code == TW_SR_GCALL_DATA_ACK then BasicStatus.AcceptedDataReceived
    else if code == TW_SR_DATA_NACK || code == TW_SR_GCALL_DATA_NACK then BasicStatus.DeclinedDataReceived
    else if code == TW_ST_SLA_ACK || code == TW_ST_ARB_LOST_SLA_ACK then BasicStatus.AddressedAsTransmitter
    else if code == TW_ST_DATA_ACK then BasicStatus.NextDataAccepted
    else if code == TW_ST_DATA_NACK then BasicStatus.NextDataDeclined
    else if code == TW_ST_LAST_DATA then BasicStatus.MoreDataRequest
    else BasicStatus.Unknown
  }

  /** The detailed decoder tells all 16 listed codes apart. */
  lemma GetStatusInjective(c1: bv8, c2: bv8)
    requires c1 in SLAVE_CODES && c2 in SLAVE_CODES
    requires GetStatus(c1) == GetStatus(c2)
    ensures c1 == c2
  {
  }

  /** The codes for being addressed after losing arbitration as master. */
  lemma ArbitrationLostAddressing()
    ensures GetBasicStatus(TW_SR_ARB_LOST_SLA_ACK) == BasicStatus.AddressedAsReceiver
    ensures GetBasicStatus(TW_SR_ARB_LOST_GCALL_ACK) == BasicStatus.AddressedAsReceiver
    ensures GetBasicStatus(TW_ST_ARB_LOST_SLA_ACK) == BasicStatus.AddressedAsTransmitter
  {
  }

  // ---------------------------------------------------------------------
  // Acknowledge helpers: read-modify-write on TWCR, data through TWDR
  // ---------------------------------------------------------------------

  /** TWCR |= TWINT | TWEA: the transfer goes on and the next byte is acknowledged. */
  function AcceptedNext(h: Hw): (r: Hw)
    ensures Has(r.twcr, TWINT | TWEA) && r.twcr & !(TWINT | TWEA) == h.twcr & !(TWINT | TWEA)
  {
    ControlWritten(h, Set(h.twcr, TWINT | TWEA))
  }

  /** TWCR &= ~TWEA, then TWCR |= TWINT: the transfer goes on and the next byte is not acknowledged. */
  function DeclinedNext(h: Hw): (r: Hw)
    ensures Has(r.twcr, TWINT) && r.twcr & TWEA == 0
  {
    var h1 := ControlWritten(h, Clear(h.twcr, TWEA));
    ControlWritten(h1, Set(h1.twcr, TWINT))
  }

  /** declineNextData changes no TWCR bit but TWEA and TWINT. */
  lemma DeclinedNextKeepsOtherBits(h: Hw)
    ensures DeclinedNext(h).twcr & !(TWINT | TWEA) == h.twcr & !(TWINT | TWEA)
  {
    var c := Clear(h.twcr, TWEA);
    assert c & !TWEA == h.twcr & !TWEA;
    assert Set(c, TWINT) & !TWINT == c & !TWINT;
  }

  /** acceptNextData. */
  method AcceptNextData(hw: Twi)
    modifies hw
    ensures hw.State() == AcceptedNext(old(hw.State()))
  {
    hw.WriteControl(Set(hw.twcr, TWINT | TWEA));
  }

  /** declineNextData. */
  method DeclineNextData(hw: Twi)
    modifies hw
    ensures hw.State() == DeclinedNext(old(hw.State()))
  {
    hw.WriteControl(Clear(hw.twcr, TWEA));
    hw.WriteControl(Set(hw.twcr, TWINT));
  }

  /** getData: the byte in TWDR; reading it changes nothing. */
  function GetData(hw: Twi): (b: bv8)
    reads hw
    ensures b == hw.State().twdr
  {
    hw.twdr
  }

  /** sendData: TWDR := b, then TWINT and TWEA set (more data to follow). */
  method SendData(hw: Twi, b: bv8)
    modifies hw
    ensures hw.twdr == b
    ensures hw.State() == AcceptedNext(DataWritten(old(hw.State()), b))
  {
    hw.WriteData(b);
    AcceptNextData(hw);
  }

  /** sendLastData: TWDR := b, TWEA cleared, then TWINT set (this byte is the last). */
  method SendLastData(hw: Twi, b: bv8)
    modifies hw
    ensures hw.twdr == b
    ensures hw.State() == DeclinedNext(DataWritten(old(hw.State()), b))
  {
    hw.WriteData(b);
    DeclineNextData(hw);
  }
}
