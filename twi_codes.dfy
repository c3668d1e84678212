/**
 * Register bits and status codes of the AVR two-wire interface (TWI), with
 * the names and values avr-libc gives them in <compat/twi.h> and <avr/io.h>.
 */
module TwiCodes {

  // ---- TWCR bits ----
  const TWINT: bv8 := 0x80  // bit 7: interrupt flag, written 1 to start the next bus operation
  const TWEA: bv8 := 0x40   // bit 6: enable acknowledge
  const TWSTA: bv8 := 0x20  // bit 5: start condition
  const TWSTO: bv8 := 0x10  // bit 4: stop condition
  const TWWC: bv8 := 0x08   // bit 3: write collision
  const TWEN: bv8 := 0x04   // bit 2: interface enable
  const TWIE: bv8 := 0x01   // bit 0: interrupt enable

  // ---- TWAR and TWSR bits ----
  const TWGCE: bv8 := 0x01                  // TWAR bit 0: general call recognition
  const TWPS_MASK: bv8 := 0x03              // TWSR bits 1-0: bit-rate prescaler
  const TW_STATUS_MASK: bv8 := 0xF8         // TWSR bits 7-3: status code

  // ---- R/W bit appended to a 7-bit address ----
  const TW_WRITE: bv8 := 0
  const TW_READ: bv8 := 1

  // ---- master codes ----
  const TW_START: bv8 := 0x08
  const TW_REP_START: bv8 := 0x10
  const TW_MT_SLA_ACK: bv8 := 0x18
  const TW_MT_SLA_NACK: bv8 := 0x20
  const TW_MT_DATA_ACK: bv8 := 0x28
  const TW_MT_DATA_NACK: bv8 := 0x30
  const TW_MT_ARB_LOST: bv8 := 0x38
  const TW_MR_ARB_LOST: bv8 := 0x38
  const TW_MR_SLA_ACK: bv8 := 0x40
  const TW_MR_SLA_NACK: bv8 := 0x48
  const TW_MR_DATA_ACK: bv8 := 0x50
  const TW_MR_DATA_NACK: bv8 := 0x58

  // ---- slave transmitter codes ----
  const TW_ST_SLA_ACK: bv8 := 0xA8
  const TW_ST_ARB_LOST_SLA_ACK: bv8 := 0xB0
  const TW_ST_DATA_ACK: bv8 := 0xB8
  const TW_ST_DATA_NACK: bv8 := 0xC0
  const TW_ST_LAST_DATA: bv8 := 0xC8

  // ---- slave receiver codes ----
  const TW_SR_SLA_ACK: bv8 := 0x60
  const TW_SR_ARB_LOST_SLA_ACK: bv8 := 0x68
  const TW_SR_GCALL_ACK: bv8 := 0x70
  const TW_SR_ARB_LOST_GCALL_ACK: bv8 := 0x78
  const TW_SR_DATA_ACK: bv8 := 0x80
  const TW_SR_DATA_NACK: bv8 := 0x88
  const TW_SR_GCALL_DATA_ACK: bv8 := 0x90
  const TW_SR_GCALL_DATA_NACK: bv8 := 0x98
  const TW_SR_STOP: bv8 := 0xA0

  // ---- miscellaneous ----
  const TW_NO_INFO: bv8 := 0xF8
  const TW_BUS_ERROR: bv8 := 0x00

  /** True when bit mask `m` is set in `v`. */
  predicate Has(v: bv8, m: bv8) {
    v & m == m
  }

  /** `v` with the bits of `m` set (`v | m`). */
  function Set(v: bv8, m: bv8): (r: bv8)
    ensures Has(r, m) && r & !m == v & !m
  {
    v | m
  }

  /** `v` with the bits of `m` cleared (`v & ~m`). */
  function Clear(v: bv8, m: bv8): (r: bv8)
    ensures r & m == 0 && r & !m == v & !m
  {
    v & !m
  }

  /** Setting bits that lie inside `field` changes only `field`, and clears nothing. */
  lemma SetWithin(v: bv8, m: bv8, field: bv8)
    requires m & !field == 0
    ensures Set(v, m) & field == (v | m) & field
    ensures Set(v, m) & !field == v & !field
    ensures v & Set(v, m) == v
  {
  }
}
