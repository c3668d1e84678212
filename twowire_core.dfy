/**
 * The TWI peripheral: its registers, the hardware around it (the responses
 * the bus gives and the microsecond clock), and the register helpers of the
 * driver's core (src/TwoWireCore.hpp, src/TwoWireCore.cpp).
 *
 * The hardware side is a finite script. Each bus operation that software
 * starts is answered by the next `Event` of the script: TWINT keeps reading 0
 * for `wait` more polls, then reads 1 with `status` in TWSR and `data` in
 * TWDR. Once the script is exhausted the peripheral answers every poll at
 * once with TW_NO_INFO. The clock is the sequence of readings `micros()`
 * returns; once it is exhausted it keeps returning its last reading.
 */
module TwoWireCore {
  import opened TwiCodes

  // ---------------------------------------------------------------------
  // TWCR_W: a control write that keeps the configuration bits
  // ---------------------------------------------------------------------

  /** The bits of TWCR that TWCR_W carries over from the current value (TWCR_UNUSED). */
  const TWCR_KEPT: bv8 := TWEA | TWWC | TWEN | TWIE

  /**
   * The value TWCR_W(d) writes when TWCR currently holds `twcr`: every bit of
   * `d`, plus the current TWEA, TWWC, TWEN and TWIE. TWINT, TWSTA, TWSTO and
   * the reserved bit 1 come from `d` alone, so a stale start or stop request
   * is never carried over.
   */
  function TwcrW(twcr: bv8, d: bv8): (r: bv8)
    ensures r & d == d
    ensures r & TWCR_KEPT == (twcr | d) & TWCR_KEPT
    ensures r & !TWCR_KEPT == d & !TWCR_KEPT
    ensures r & (TWINT | TWSTA | TWSTO | 0x02) == d & (TWINT | TWSTA | TWSTO | 0x02)
  {
    d | (twcr & TWCR_KEPT)
  }

  /** Writing TWCR := TWCR_W(d) twice leaves the register as writing it once. */
  lemma TwcrWIdempotent(twcr: bv8, d: bv8)
    ensures TwcrW(TwcrW(twcr, d), d) == TwcrW(twcr, d)
  {
  }

  // ---------------------------------------------------------------------
  // The peripheral and its environment as a value
  // ---------------------------------------------------------------------

  /** A C uint32_t: microsecond readings and timeouts. */
  newtype uint32 = x: int | 0 <= x < 0x1_0000_0000

  /** One response of the bus to an operation software started. */
  datatype Event = Event(wait: nat, status: bv8, data: bv8)

  /** A software write to TWCR or TWDR, in program order. */
  datatype Access = Control(value: bv8) | Data(value: bv8)

  /** Registers, the pending responses, the clock and the writes made so far. */
  datatype Hw = Hw(twcr: bv8, twdr: bv8, twsr: bv8, twar: bv8, twamr: bv8, twbr: bv8,
                   script: seq<Event>, clock: seq<uint32>, now: uint32, log: seq<Access>)

  /** TW_STATUS: the status code bits of TWSR. */
  function TwStatus(twsr: bv8): (code: bv8)
    ensures code & !TW_STATUS_MASK == 0
  {
    twsr & TW_STATUS_MASK
  }

  /** TWSR with its status bits replaced by those of `status`. */
  function WithStatus(twsr: bv8, status: bv8): bv8 {
    (status & TW_STATUS_MASK) | (twsr & !TW_STATUS_MASK)
  }

  /** What is left for the bus and the clock to supply; it never grows. */
  function Supply(h: Hw): nat {
    |h.script| + |h.clock|
  }

  /** The number of polls for which TWINT still reads 0. */
  function PendingWait(h: Hw): nat {
    if h.script == [] then 0 else h.script[0].wait
  }

  /** TWCR := v. */
  function ControlWritten(h: Hw, v: bv8): (r: Hw)
    ensures r.twcr == v && r.log == h.log + [Control(v)]
    ensures r == h.(twcr := v, log := r.log)
  {
    h.(twcr := v, log := h.log + [Control(v)])
  }

  /** TWDR := v. */
  function DataWritten(h: Hw, v: bv8): (r: Hw)
    ensures r.twdr == v && r.log == h.log + [Data(v)]
    ensures r == h.(twdr := v, log := r.log)
  {
    h.(twdr := v, log := h.log + [Data(v)])
  }

  /** The bytes written to TWDR, in order: every one of them is a TWDR write of the log. */
  function Sent(log: seq<Access>): (s: seq<bv8>)
    ensures |s| <= |log|
    ensures forall i :: 0 <= i < |s| ==> Data(s[i]) in log
  {
    if log == [] then []
    else
      var last := log[|log| - 1];
      Sent(log[..|log| - 1]) + (if last.Data? then [last.value] else [])
  }

  /** A write to TWCR adds nothing to what was sent; a write to TWDR adds its byte. */
  lemma SentAppend(log: seq<Access>, a: Access)
    ensures Sent(log + [a]) == Sent(log) + (if a.Data? then [a.value] else [])
  {
    assert (log + [a])[..|log|] == log;
  }

  /**
   * The peripheral completes an operation: the status code goes to TWSR
   * (the prescaler and reserved bits stay), the byte to TWDR, and TWINT is set.
   */
  function Delivered(h: Hw, status: bv8, data: bv8): (r: Hw)
    ensures TwStatus(r.twsr) == status & TW_STATUS_MASK
    ensures r.twsr & !TW_STATUS_MASK == h.twsr & !TW_STATUS_MASK
    ensures r.twdr == data && Has(r.twcr, TWINT) && r.twcr & !TWINT == h.twcr & !TWINT
    ensures r.script == h.script && r.clock == h.clock && r.now == h.now && r.log == h.log
    ensures r.twar == h.twar && r.twamr == h.twamr && r.twbr == h.twbr
  {
    h.(twsr := WithStatus(h.twsr, status), twdr := data, twcr := Set(h.twcr, TWINT))
  }

  /**
   * One poll of TWINT by the busy-wait. It reads 1 when the pending event is
   * due (the event is then delivered and consumed) or when there is none
   * (TW_NO_INFO is delivered); otherwise the pending event comes one poll closer.
   */
  /** The result of one poll of TWINT. */
  datatype Poll = Poll(flag: bool, hw: Hw)

  function Polled(h: Hw): (r: Poll)
    ensures r.hw.log == h.log && r.hw.clock == h.clock && r.hw.now == h.now
    ensures r.hw.twar == h.twar && r.hw.twamr == h.twamr && r.hw.twbr == h.twbr
    ensures r.flag && h.script != [] ==> r.hw == Delivered(h, h.script[0].status, h.script[0].data).(script := h.script[1..])
    ensures r.flag && h.script == [] ==> r.hw == Delivered(h, TW_NO_INFO, h.twdr)
    ensures !r.flag ==> |r.hw.script| == |h.script| && PendingWait(r.hw) < PendingWait(h)
    ensures !r.flag ==> r.hw == h.(script := r.hw.script)
    ensures !r.flag ==> r.hw.script[1..] == h.script[1..]
    ensures !r.flag ==> r.hw.script[0] == h.script[0].(wait := h.script[0].wait - 1)
  {
    if h.script == [] then
      Poll(true, Delivered(h, TW_NO_INFO, h.twdr))
    else if h.script[0].wait == 0 then
      Poll(true, Delivered(h, h.script[0].status, h.script[0].data).(script := h.script[1..]))
    else
      Poll(false, h.(script := [h.script[0].(wait := h.script[0].wait - 1)] + h.script[1..]))
  }

  /** The result of one call of micros(). */
  datatype Reading = Reading(value: uint32, hw: Hw)

  /** One call of micros(): the next reading, or the last one once the readings run out. */
  function Ticked(h: Hw): (r: Reading)
    ensures r.value == r.hw.now
    ensures r.hw == h.(clock := r.hw.clock, now := r.hw.now)
    ensures h.clock != [] ==> r.value == h.clock[0] && r.hw.clock == h.clock[1..]
    ensures h.clock == [] ==> r.hw == h
  {
    if h.clock == [] then Reading(h.now, h) else Reading(h.clock[0], h.(clock := h.clock[1..], now := h.clock[0]))
  }

  /** clearError on a value: TWCR |= TWINT | TWSTO. */
  function ErrorCleared(h: Hw): (r: Hw)
    ensures Has(r.twcr, TWINT) && Has(r.twcr, TWSTO) && Supply(r) == Supply(h)
  {
    ControlWritten(h, Set(h.twcr, TWINT | TWSTO))
  }

  /** TWCR_W argument that clocks in the next byte and acknowledges it. */
  const ACK_REQUEST: bv8 := TWINT | TWEA

  /** TWCR := TWCR_W(TWINT | TWEA): the next byte is clocked in and acknowledged. */
  function AckArmed(h: Hw): (r: Hw)
    ensures Has(r.twcr, TWINT | TWEA) && r.twcr & (TWSTA | TWSTO) == 0
    ensures r.script == h.script && r.twdr == h.twdr && r.twsr == h.twsr
  {
    ControlWritten(h, TwcrW(h.twcr, ACK_REQUEST))
  }

  /** TWCR &= ~TWEA, then TWCR := TWCR_W(TWINT): the next byte is clocked in and not acknowledged. */
  function NackArmed(h: Hw): (r: Hw)
    ensures Has(r.twcr, TWINT) && r.twcr & (TWEA | TWSTA | TWSTO) == 0
    ensures r.script == h.script && r.twdr == h.twdr && r.twsr == h.twsr
  {
    var h1 := ControlWritten(h, Clear(h.twcr, TWEA));
    ControlWritten(h1, TwcrW(h1.twcr, TWINT))
  }

  /**
   * `buf[at] = b`, written into the caller's buffer. Callers only pass
   * positions inside the buffer; elsewhere the buffer is left as it is.
   */
  function Put(buf: seq<bv8>, at: nat, b: bv8): (r: seq<bv8>)
    ensures |r| == |buf|
    ensures forall i :: 0 <= i < |buf| ==> r[i] == if i == at then b else buf[i]
  {
    if at < |buf| then buf[at := b] else buf
  }

  /** Writing bytes[0] at `at` and then the rest after it writes all of `bytes` from `at` on. */
  lemma Splice(buf: seq<bv8>, at: nat, bytes: seq<bv8>)
    requires at + |bytes| <= |buf| && bytes != []
    ensures var b1 := buf[at := bytes[0]];
            b1[..at + 1] + bytes[1..] + b1[at + |bytes|..] == buf[..at] + bytes + buf[at + |bytes|..]
  {
    var b1 := buf[at := bytes[0]];
    assert b1[..at + 1] == buf[..at] + [bytes[0]];
    assert b1[at + |bytes|..] == buf[at + |bytes|..];
    assert bytes == [bytes[0]] + bytes[1..];
  }

  // ---------------------------------------------------------------------
  // Frequencies
  // ---------------------------------------------------------------------

  /** BitRatePrescaler: the value the enum gives each prescaler setting. */
  datatype BitRatePrescaler = X1 | X4 | X16 | X64 {
    function Bits(): (b: bv8)
      ensures b & !TWPS_MASK == 0
    {
      match this
      case X1 => 0
      case X4 => 1
      case X16 => 2
      case X64 => 3
    }
  }

  /** The TWBR value setBaseFrequency computes: 32-bit unsigned arithmetic, truncated to 8 bits. */
  function BitRateFor(fCpu: bv32, frequency: bv32): (twbr: bv8)
    requires frequency != 0
  {
    BitRate(fCpu as int, frequency as int) as bv8
  }

  function BitRate(fCpu: nat, frequency: nat): (twbr: nat)
    requires frequency != 0
    ensures twbr < 0x100
  {
    (((fCpu / frequency - 16) % 0x1_0000_0000) / 2) % 0x100
  }

  /** F_CPU / (16 + 2 TWBR k): the SCL frequency for bit rate TWBR and prescaler factor k. */
  function SclFrequency(fCpu: nat, twbr: nat, k: nat): nat {
    fCpu / (16 + 2 * twbr * k)
  }

  /** getBaseFrequency: F_CPU / (16 + 2 TWBR). */
  function BaseFrequency(fCpu: bv32, twbr: bv8): nat {
    SclFrequency(fCpu as int, twbr as int, 1)
  }

  /** getFrequency as the source writes it: the raw TWPS bits multiply 2 TWBR. */
  function Frequency(fCpu: bv32, twbr: bv8, twsr: bv8): nat {
    SclFrequency(fCpu as int, twbr as int, (twsr & TWPS_MASK) as int)
  }

  /** 4 to the power of the TWPS bits: the prescaler factor the bits select. */
  function PrescalerFactor(twsr: bv8): (k: nat)
    ensures k >= 1 && k in {1, 4, 16, 64}
    ensures k == 1 <==> twsr & TWPS_MASK == 0
  {
    var ps := twsr & TWPS_MASK;
    if ps == 0 then 1 else if ps == 1 then 4 else if ps == 2 then 16 else 64
  }

  /** The SCL frequency the prescaler setting selects: F_CPU / (16 + 2 TWBR 4^TWPS). */
  function PrescaledFrequency(fCpu: bv32, twbr: bv8, twsr: bv8): nat {
    SclFrequency(fCpu as int, twbr as int, PrescalerFactor(twsr))
  }

  lemma MulLeft(x: nat, y: nat, z: nat)
    requires x <= y
    ensures z * x <= z * y
  {
  }

  /** Any q with q * d <= n is at most n / d. */
  lemma DivLowerBound(n: nat, d: nat, q: nat)
    requires 0 < d && q * d <= n
    ensures q <= n / d
  {
    var r := n / d;
    assert r * d + n % d == n;
    if q > r {
      assert d * (r + 1) == r * d + d;
      MulLeft(r + 1, q, d);
      assert false;
    }
  }

  /** A larger divisor never gives a larger quotient. */
  lemma DivIsAntitone(n: nat, a: nat, b: nat)
    requires 0 < a <= b
    ensures n / b <= n / a
  {
    var qb := n / b;
    assert qb * b + n % b == n;
    MulLeft(a, b, qb);
    DivLowerBound(n, a, qb);
  }

  /** With the x1 prescaler the prescaled frequency is the base frequency. */
  lemma PrescaledFrequencyAtX1(fCpu: bv32, twbr: bv8, twsr: bv8)
    requires twsr & TWPS_MASK == 0
    ensures PrescaledFrequency(fCpu, twbr, twsr) == BaseFrequency(fCpu, twbr)
  {
    assert PrescalerFactor(twsr) == 1;
  }

  /** A prescaler factor of at least 1 gives at most the unprescaled frequency. */
  lemma SclFrequencyAntitone(n: nat, b: nat, k: nat)
    requires k >= 1
    ensures SclFrequency(n, b, k) <= SclFrequency(n, b, 1)
  {
    MulLeft(1, k, 2 * b);
    DivIsAntitone(n, 16 + 2 * b * 1, 16 + 2 * b * k);
  }

  /** The prescaler can only lower the frequency below the base frequency. */
  lemma PrescaledFrequencyAtMostBase(fCpu: bv32, twbr: bv8, twsr: bv8)
    ensures PrescaledFrequency(fCpu, twbr, twsr) <= BaseFrequency(fCpu, twbr)
  {
    SclFrequencyAntitone(fCpu as int, twbr as int, PrescalerFactor(twsr));
  }

  /** As written, getFrequency with the x1 prescaler (TWPS = 0) ignores TWBR: it is F_CPU / 16. */
  lemma FrequencyAtX1IgnoresBitRate(fCpu: bv32, twbr: bv8, twsr: bv8)
    requires twsr & TWPS_MASK == 0
    ensures Frequency(fCpu, twbr, twsr) == fCpu as int / 16
  {
    assert (twsr & TWPS_MASK) as int == 0;
  }

  /**
   * A counterexample: at 16 MHz with TWBR = 72 and the x1 prescaler, the
   * source's getFrequency reports 1 MHz where the bus runs at 100 kHz.
   */
  lemma FrequencyCounterexample()
    ensures Frequency(16_000_000, 72, 0xF8) == 1_000_000
    ensures PrescaledFrequency(16_000_000, 72, 0xF8) == 100_000
  {
    FrequencyAtX1IgnoresBitRate(16_000_000, 72, 0xF8);
    PrescaledFrequencyAtX1(16_000_000, 72, 0xF8);
    assert SclFrequency(16_000_000, 72, 1) == 16_000_000 / 160;
  }

  /** The nat-level core of the round trip below. */
  lemma SclFrequencyRoundTrip(n: nat, f: nat)
    requires f != 0 && 16 <= n / f
    ensures SclFrequency(n, (n / f - 16) / 2, 1) >= f
  {
    var q := n / f;
    assert q * f + n % f == n;
    var d := 16 + 2 * ((q - 16) / 2) * 1;
    assert 0 < d <= q;
    MulLeft(d, q, f);
    assert f * d <= n;
    DivLowerBound(n, d, f);
  }

  /** Without wrap-around or truncation, TWBR is (F_CPU / f - 16) / 2. */
  lemma BitRateForNoWrap(fCpu: bv32, f: bv32)
    requires f != 0
    requires 16 <= fCpu as int / f as int
    requires (fCpu as int / f as int - 16) / 2 < 0x100
    ensures BitRateFor(fCpu, f) as int == (fCpu as int / f as int - 16) / 2
  {
    BitRateNoWrap(fCpu as int, f as int);
    Bv8RoundTrip(BitRate(fCpu as int, f as int));
  }

  lemma BitRateNoWrap(n: nat, f: nat)
    requires 0 < f && n < 0x1_0000_0000 && 16 <= n / f
    requires (n / f - 16) / 2 < 0x100
    ensures BitRate(n, f) == (n / f - 16) / 2
  {
    QuotientAtMost(n, f);
    var d := n / f - 16;
    assert d % 0x1_0000_0000 == d;
    assert (d / 2) % 0x100 == d / 2;
  }

  /** A quotient by a positive divisor is at most the dividend. */
  lemma QuotientAtMost(n: nat, f: nat)
    requires 0 < f
    ensures n / f <= n
  {
    var q := n / f;
    assert q * f + n % f == n;
    MulLeft(1, f, q);
  }

  lemma Bv8RoundTrip(x: nat)
    requires x < 0x100
    ensures (x as bv8) as int == x
  {
    assert x % 0x100 == x;
  }

  /**
   * Setting the base frequency and reading it back never gives less than was
   * asked for, when F_CPU / f is at least 16 and the divisor fits in TWBR.
   */
  lemma BaseFrequencyRoundTrip(fCpu: bv32, f: bv32)
    requires f != 0
    requires 16 <= fCpu as int / f as int
    requires (fCpu as int / f as int - 16) / 2 < 0x100
    ensures BaseFrequency(fCpu, BitRateFor(fCpu, f)) >= f as int
  {
    var n: nat, fi: nat := fCpu as int, f as int;
    BitRateForNoWrap(fCpu, f);
    var twbr := BitRateFor(fCpu, f);
    assert BaseFrequency(fCpu, twbr) == SclFrequency(n, (n / fi - 16) / 2, 1);
    SclFrequencyRoundTrip(n, fi);
  }

  /**
   * A requested frequency above F_CPU / 16 makes the unsigned subtraction
   * wrap: with a 16 MHz clock, asking for 2 MHz writes TWBR = 252.
   */
  lemma BitRateWrapsAboveMaximum()
    ensures BitRateFor(16_000_000, 2_000_000) == 252
  {
    assert BitRate(16_000_000, 2_000_000) == 252;
  }

  // ---------------------------------------------------------------------
  // The peripheral as an object whose registers the driver updates in place
  // ---------------------------------------------------------------------

  class Twi {
    var twcr: bv8
    var twdr: bv8
    var twsr: bv8
    var twar: bv8
    var twamr: bv8
    var twbr: bv8
    var script: seq<Event>
    var clock: seq<uint32>
    var now: uint32
    ghost var log: seq<Access>
    /** F_CPU, the CPU clock in Hz (a build constant of the source). */
    const fCpu: bv32

    ghost function State(): Hw
      reads this
    {
      Hw(twcr, twdr, twsr, twar, twamr, twbr, script, clock, now, log)
    }

    constructor (fCpu: bv32, initial: Hw)
      ensures State() == initial && this.fCpu == fCpu
    {
      this.fCpu := fCpu;
      twcr, twdr, twsr, twar, twamr, twbr := initial.twcr, initial.twdr, initial.twsr, initial.twar, initial.twamr, initial.twbr;
      script, clock, now := initial.script, initial.clock, initial.now;
      log := initial.log;
    }

    // ---- the hardware interface ----

    /** TWCR := v. */
    method WriteControl(v: bv8)
      modifies this
      ensures State() == ControlWritten(old(State()), v)
    {
      twcr := v;
      log := log + [Control(v)];
    }

    /** TWDR := v. */
    method WriteData(v: bv8)
      modifies this
      ensures State() == DataWritten(old(State()), v)
    {
      twdr := v;
      log := log + [Data(v)];
    }

    /** The hardware completes an event: TWSR, TWDR and TWINT change. */
    method Deliver(status: bv8, data: bv8)
      modifies this
      ensures State() == Delivered(old(State()), status, data)
    {
      twsr := WithStatus(twsr, status);
      twdr := data;
      twcr := Set(twcr, TWINT);
    }

    /** Reads TWINT once (the flag the bus sets when an operation completes). */
    method PollTwint() returns (flag: bool)
      modifies this
      ensures Poll(flag, State()) == Polled(old(State()))
    {
      if script == [] {
        Deliver(TW_NO_INFO, twdr);
        flag := true;
      } else if script[0].wait == 0 {
        var e := script[0];
        Deliver(e.status, e.data);
        script := script[1..];
        flag := true;
      } else {
        script := [script[0].(wait := script[0].wait - 1)] + script[1..];
        flag := false;
      }
    }

    /** micros(). */
    method Micros() returns (t: uint32)
      modifies this
      ensures Reading(t, State()) == Ticked(old(State()))
    {
      if clock != [] {
        now := clock[0];
        clock := clock[1..];
      }
      t := now;
    }

    // ---- TwoWireCore.cpp ----

    /** init: address, base frequency, prescaler x1, then enable. */
    method Init(address: bv8, frequency: bv32)
      requires frequency != 0
      modifies this
      ensures GetAddress() == address & 0x7F
      ensures twbr == BitRateFor(fCpu, frequency)
      ensures twsr == old(twsr)
      ensures twcr == TWEA | TWEN
      ensures twar & TWGCE == old(twar) & TWGCE
      ensures State() == old(State()).(twcr := twcr, twar := twar, twbr := twbr, log := old(log) + [Control(TWEA | TWEN)])
    {
      SetAddress(address);
      SetBaseFrequency(frequency);
      SetFrequencyPrescaler(X1);
      Enable();
    }

    /** enable: TWCR becomes exactly TWEA | TWEN. */
    method Enable()
      modifies this
      ensures twcr == TWEA | TWEN
      ensures State() == ControlWritten(old(State()), TWEA | TWEN)
    {
      WriteControl(TWEA | TWEN);
    }

    /** disable: TWEA, TWEN and TWIE cleared, every other TWCR bit as it was. */
    method Disable()
      modifies this
      ensures twcr & (TWEA | TWEN | TWIE) == 0
      ensures twcr & !(TWEA | TWEN | TWIE) == old(twcr) & !(TWEA | TWEN | TWIE)
      ensures State() == ControlWritten(old(State()), twcr)
    {
      WriteControl(twcr & !(TWEA | TWEN | TWIE));
    }

    /** setAddress(address): the 7-bit address into TWAR bits 7-1, TWGCE kept. */
    method SetAddress(address: bv8)
      modifies this
      ensures GetAddress() == address & 0x7F
      ensures twar & TWGCE == old(twar) & TWGCE
      ensures State() == old(State()).(twar := twar)
    {
      twar := (address << 1) | (twar & TWGCE);
    }

    /** setAddress(address, allowGeneralCallAddress): the address, and TWGCE set exactly when asked. */
    method SetAddressWithGeneralCall(address: bv8, allowGeneralCallAddress: bool)
      modifies this
      ensures GetAddress() == address & 0x7F
      ensures Has(twar, TWGCE) == allowGeneralCallAddress
      ensures State() == old(State()).(twar := twar)
    {
      twar := (address << 1) | ((if allowGeneralCallAddress then 1 else 0) & TWGCE);
    }

    /** getAddress: TWAR >> 1. */
    function GetAddress(): (a: bv8)
      reads this
      ensures a < 0x80
      ensures (a << 1) | (twar & TWGCE) == twar
    {
      twar >> 1
    }

    /** setAddressMask: the mask into TWAMR bits 7-1, bit 0 clear. */
    method SetAddressMask(mask: bv8)
      modifies this
      ensures twamr >> 1 == mask & 0x7F && twamr & 1 == 0
      ensures State() == old(State()).(twamr := twamr)
    {
      twamr := mask << 1;
    }

    /** setBaseFrequency: TWBR := ((F_CPU / f) - 16) / 2, in 32-bit unsigned arithmetic. */
    method SetBaseFrequency(frequency: bv32)
      requires frequency != 0
      modifies this
      ensures twbr == BitRateFor(fCpu, frequency)
      ensures 16 <= fCpu as int / frequency as int && (fCpu as int / frequency as int - 16) / 2 < 0x100
              ==> GetBaseFrequency() >= frequency as int
      ensures State() == old(State()).(twbr := twbr)
    {
      twbr := BitRateFor(fCpu, frequency);
      if 16 <= fCpu as int / frequency as int && (fCpu as int / frequency as int - 16) / 2 < 0x100 {
        BaseFrequencyRoundTrip(fCpu, frequency);
      }
    }

    /** setFrequencyPrescaler: ORs the prescaler bits into TWSR bits 1-0; nothing is cleared. */
    method SetFrequencyPrescaler(prescaler: BitRatePrescaler)
      modifies this
      ensures twsr & TWPS_MASK == (old(twsr) | prescaler.Bits()) & TWPS_MASK
      ensures twsr & !TWPS_MASK == old(twsr) & !TWPS_MASK
      ensures old(twsr) & twsr == old(twsr)
      ensures State() == old(State()).(twsr := twsr)
    {
      var bits := prescaler.Bits() & TWPS_MASK;
      SetWithin(twsr, bits, TWPS_MASK);
      twsr := Set(twsr, bits);
    }

    /** getBaseFrequency. */
    function GetBaseFrequency(): (f: nat)
      reads this
      ensures f == BaseFrequency(fCpu, twbr)
    {
      BaseFrequency(fCpu, twbr)
    }

    /** getFrequency, as written. */
    function GetFrequency(): (f: nat)
      reads this
      ensures f == Frequency(fCpu, twbr, twsr)
    {
      Frequency(fCpu, twbr, twsr)
    }

    /** allowSlaveCommunication: sets TWEA only. */
    method AllowSlaveCommunication()
      modifies this
      ensures Has(twcr, TWEA) && twcr & !TWEA == old(twcr) & !TWEA
      ensures State() == ControlWritten(old(State()), twcr)
    {
      WriteControl(twcr | TWEA);
    }

    /** disallowSlaveCommunication: clears TWEA only. */
    method DisallowSlaveCommunication()
      modifies this
      ensures twcr & TWEA == 0 && twcr & !TWEA == old(twcr) & !TWEA
      ensures State() == ControlWritten(old(State()), twcr)
    {
      WriteControl(twcr & !TWEA);
    }

    /** allowGeneralCall: sets TWGCE only; the address stays. */
    method AllowGeneralCall()
      modifies this
      ensures Has(twar, TWGCE) && twar & !TWGCE == old(twar) & !TWGCE
      ensures GetAddress() == old(GetAddress())
      ensures State() == old(State()).(twar := twar)
    {
      twar := Set(twar, TWGCE);
    }

    /** disallowGeneralCall: clears TWGCE only; the address stays. */
    method DisallowGeneralCall()
      modifies this
      ensures twar & TWGCE == 0 && twar & !TWGCE == old(twar) & !TWGCE
      ensures GetAddress() == old(GetAddress())
      ensures State() == old(State()).(twar := twar)
    {
      twar := Clear(twar, TWGCE);
    }

    /** enableInterrupt: sets TWIE only. */
    method EnableInterrupt()
      modifies this
      ensures Has(twcr, TWIE) && twcr & !TWIE == old(twcr) & !TWIE
      ensures State() == ControlWritten(old(State()), twcr)
    {
      WriteControl(twcr | TWIE);
    }

    /** disableInterrupt: clears TWIE only. */
    method DisableInterrupt()
      modifies this
      ensures twcr & TWIE == 0 && twcr & !TWIE == old(twcr) & !TWIE
      ensures State() == ControlWritten(old(State()), twcr)
    {
      WriteControl(twcr & !TWIE);
    }

    /** isErrored: TW_STATUS is TW_BUS_ERROR. */
    function IsErrored(): (e: bool)
      reads this
      ensures e <==> twsr & TW_STATUS_MASK == TW_BUS_ERROR
    {
      TwStatus(twsr) == TW_BUS_ERROR
    }

    /** clearError: sets TWINT and TWSTO, every other bit as it was. */
    method ClearError()
      modifies this
      ensures Has(twcr, TWINT | TWSTO) && twcr & !(TWINT | TWSTO) == old(twcr) & !(TWINT | TWSTO)
      ensures State() == ErrorCleared(old(State()))
    {
      WriteControl(Set(twcr, TWINT | TWSTO));
    }

    /** clearErrorIfSet: clears the error exactly when TW_STATUS is TW_BUS_ERROR. */
    method ClearErrorIfSet()
      modifies this
      ensures old(IsErrored()) ==> State() == ErrorCleared(old(State()))
      ensures !old(IsErrored()) ==> State() == old(State())
    {
      if IsErrored() {
        ClearError();
      }
    }
  }

  /** allowGeneralCall and disallowGeneralCall are idempotent: a second call leaves TWAR as the first left it. */
  lemma GeneralCallTogglesIdempotent(twar: bv8)
    ensures Set(Set(twar, TWGCE), TWGCE) == Set(twar, TWGCE)
    ensures Clear(Clear(twar, TWGCE), TWGCE) == Clear(twar, TWGCE)
  {
  }
}
