/**
 * The composite master operations and the bus-lost policy
 * (src/TwoWireMasterConfig.hpp, src/TwoWireMasterConfig.cpp).
 *
 * Every composite (`_send`, `_receive`, `_receiveRegister` and their buffer
 * overloads) runs a fixed sequence of engine primitives and, after each one,
 * applies CHECK_RETURN_STATUS: a failing step ends the attempt, and
 * `_handleBadStatus` decides whether the whole composite starts again. The
 * sequences differ only in their steps, so the model writes each composite
 * as its list of `Step`s and defines one attempt, and the retry around it,
 * once.
 */
module TwoWireMasterConfig {
  import opened TwiCodes
  import opened TwoWireCore
  import opened TwoWireMasterConfiguration

  /** MasterConfig::BusLostBehaviour. */
  datatype BusLostBehaviour = Abort | RetryWithinTimeout | RetryExtendingTimeout

  /** One engine primitive of a composite. Receiving steps fill the caller's buffer from index 0. */
  datatype Step =
    | Start                    // _signalStart(t)
    | StopStart                // _signalStopStart(t)
    | AddressW(address: bv8)   // _addressSlaveW(t, address)
    | AddressR(address: bv8)   // _addressSlaveR(t, address)
    | SendByte(b: bv8)         // _sendData(t, data)
    | SendBytes(bytes: seq<bv8>)  // _sendData(t, data, size)
    | ReceiveByte              // _receiveData(t, data)
    | ReceiveBytes(size: nat)  // _receiveData(t, data, size)

  /** A buffer of `length` bytes is large enough for the step: every receive writes data[0], and at most `size` bytes. */
  predicate Fits(step: Step, length: nat) {
    match step
    case ReceiveByte => 1 <= length
    case ReceiveBytes(size) => 1 <= length && size <= length
    case _ => true
  }

  /** One primitive on a value: its status, the peripheral and the buffer afterwards. */
  function StepSpec(h: Hw, t: uint32, timeout: uint32, step: Step, buf: seq<bv8>): (r: Received)
    ensures Consumes(h, r.hw, r.status) && |r.buf| == |buf|
  {
    match step
    case Start => var o := SignalStartSpec(h, t, timeout); Received(o.status, o.hw, buf)
    case StopStart => var o := SignalStopStartSpec(h, t, timeout); Received(o.status, o.hw, buf)
    case AddressW(a) => var o := AddressSlaveWSpec(h, t, timeout, a); Received(o.status, o.hw, buf)
    case AddressR(a) => var o := AddressSlaveRSpec(h, t, timeout, a); Received(o.status, o.hw, buf)
    case SendByte(b) => var o := SendByteSpec(h, t, timeout, b); Received(o.status, o.hw, buf)
    case SendBytes(bytes) => var o := SendBytesSpec(h, t, timeout, bytes); Received(o.status, o.hw, buf)
    case ReceiveByte => ReceiveLastSpec(h, t, timeout, buf, 0)
    case ReceiveBytes(size) => ReceiveBytesSpec(h, t, timeout, buf, 0, size)
  }

  /** One attempt of a composite: the steps in order, up to and including the first that does not succeed. */
  function AttemptSpec(h: Hw, t: uint32, timeout: uint32, steps: seq<Step>, buf: seq<bv8>): (r: Received)
    decreases |steps|
    ensures Consumes(h, r.hw, r.status) && |r.buf| == |buf|
  {
    if steps == [] then Received(Success, h, buf)
    else
      var r1 := StepSpec(h, t, timeout, steps[0], buf);
      if r1.status != Success then r1 else AttemptSpec(r1.hw, t, timeout, steps[1..], r1.buf)
  }

  /** What a failure handler decided: whether to run the composite again, the deadline base for that, the peripheral. */
  datatype Handled = Handled(retry: bool, t: uint32, hw: Hw)

  /**
   * _handleBadStatus(s, t). A BusLost is retried unless the behaviour is
   * Abort, which sets TWINT instead; RetryExtendingTimeout first reads the
   * clock into `t`. After a DataNACK a stop is written, after an Error the
   * error is cleared; every other status is returned with no write.
   */
  function HandleBadStatusSpec(h: Hw, behaviour: BusLostBehaviour, s: Status, t: uint32): (r: Handled)
    ensures r.retry <==> s == BusLost && behaviour != Abort
    ensures Supply(r.hw) <= Supply(h)
    ensures r.t != t ==> s == BusLost && behaviour == RetryExtendingTimeout
  {
    if s == BusLost then
      match behaviour
      case RetryExtendingTimeout => var Reading(n, h1) := Ticked(h); Handled(true, n, h1)
      case RetryWithinTimeout => Handled(true, t, h)
      case Abort => Handled(false, t, ControlWritten(h, Set(h.twcr, TWINT)))
    else if s == DataNACK then Handled(false, t, Stopped(h))
    else if s == Error then Handled(false, t, ErrorCleared(h))
    else Handled(false, t, h)
  }

  /** _handleBusLost(f, t, args): the template's decision for a BusLost, with `f` re-invoked by the caller on a retry. */
  function HandleBusLostSpec(h: Hw, behaviour: BusLostBehaviour, t: uint32): (r: Handled)
    ensures r.retry <==> behaviour != Abort
  {
    match behaviour
    case RetryExtendingTimeout => var Reading(n, h1) := Ticked(h); Handled(true, n, h1)
    case RetryWithinTimeout => Handled(true, t, h)
    case Abort => Handled(false, t, ControlWritten(h, Set(h.twcr, TWINT)))
  }

  /** _handleUnsuccessfulStatus(s, f, t, args): like _handleBadStatus, except that it also stops after an AddressNACK. */
  function HandleUnsuccessfulStatusSpec(h: Hw, behaviour: BusLostBehaviour, s: Status, t: uint32): (r: Handled)
    ensures r.retry <==> s == BusLost && behaviour != Abort
  {
    if s == BusLost then HandleBusLostSpec(h, behaviour, t)
    else if s == AddressNACK || s == DataNACK then Handled(false, t, Stopped(h))
    else if s == Error then Handled(false, t, ErrorCleared(h))
    else Handled(false, t, h)
  }

  /**
   * A composite with its CHECK_RETURN_STATUS retries: an attempt; on
   * success an optional stop; on a failure the handler, and on a retry the
   * whole composite again. Every retry follows a BusLost, which consumed
   * part of the script or the clock, so the recursion ends.
   */
  function CompositeSpec(h: Hw, t: uint32, behaviour: BusLostBehaviour, timeout: uint32,
                         steps: seq<Step>, buf: seq<bv8>, stop: bool): (r: Received)
    decreases Supply(h)
    ensures |r.buf| == |buf|
  {
    var a := AttemptSpec(h, t, timeout, steps, buf);
    if a.status == Success then Received(Success, if stop then Stopped(a.hw) else a.hw, a.buf)
    else
      var d := HandleBadStatusSpec(a.hw, behaviour, a.status, t);
      if d.retry then CompositeSpec(d.hw, d.t, behaviour, timeout, steps, a.buf, stop)
      else Received(a.status, d.hw, a.buf)
  }

  // ---- the step lists of the composites ----

  /** _send(t, address, data, stop). */
  function SendSteps(address: bv8, b: bv8): seq<Step> {
    [Start, AddressW(address), SendByte(b)]
  }

  /** _send(t, address, data, size, stop). */
  function SendBufferSteps(address: bv8, bytes: seq<bv8>): seq<Step> {
    [Start, AddressW(address), SendBytes(bytes)]
  }

  /** _receive(t, address, data, stop). */
  function ReceiveSteps(address: bv8): seq<Step> {
    [Start, AddressR(address), ReceiveByte]
  }

  /** _receive(t, address, data, size, stop). */
  function ReceiveBufferSteps(address: bv8, size: nat): seq<Step> {
    [Start, AddressR(address), ReceiveBytes(size)]
  }

  /**
   * _receiveRegister: start, SLA+W, the register number, a repeated start
   * (or a stop and a start when `repeatStart` is false), SLA+R, then `last`.
   */
  function RegisterSteps(address: bv8, register: bv8, repeatStart: bool, last: Step): seq<Step> {
    [Start, AddressW(address), SendByte(register), if repeatStart then Start else StopStart, AddressR(address), last]
  }

  // ---------------------------------------------------------------------
  // Properties of attempts, handlers and retries
  // ---------------------------------------------------------------------

  /** An attempt over `pre + post` is the attempt over `pre`, then, if that succeeded, the attempt over `post`. */
  lemma {:induction false} AttemptAppend(h: Hw, t: uint32, timeout: uint32, pre: seq<Step>, post: seq<Step>, buf: seq<bv8>)
    decreases |pre|
    ensures AttemptSpec(h, t, timeout, pre + post, buf)
         == var r := AttemptSpec(h, t, timeout, pre, buf);
            if r.status != Success then r else AttemptSpec(r.hw, t, timeout, post, r.buf)
  {
    if pre != [] {
      assert (pre + post)[0] == pre[0];
      assert (pre + post)[1..] == pre[1..] + post;
      var r1 := StepSpec(h, t, timeout, pre[0], buf);
      if r1.status == Success {
        AttemptAppend(r1.hw, t, timeout, pre[1..], post, r1.buf);
      }
    } else {
      assert pre + post == post;
    }
  }

  /**
   * Steps run strictly in order and the first failure ends the attempt: when
   * `pre` succeeds and `step` then fails, no step of `post` runs, whatever it is.
   */
  lemma FailureEndsAttempt(h: Hw, t: uint32, timeout: uint32, pre: seq<Step>, step: Step, post: seq<Step>, buf: seq<bv8>)
    requires AttemptSpec(h, t, timeout, pre, buf).status == Success
    requires var r := AttemptSpec(h, t, timeout, pre, buf); StepSpec(r.hw, t, timeout, step, r.buf).status != Success
    ensures var r := AttemptSpec(h, t, timeout, pre, buf);
            AttemptSpec(h, t, timeout, pre + [step] + post, buf) == StepSpec(r.hw, t, timeout, step, r.buf)
  {
    var r := AttemptSpec(h, t, timeout, pre, buf);
    assert pre + [step] + post == pre + ([step] + post);
    AttemptAppend(h, t, timeout, pre, [step] + post, buf);
    assert ([step] + post)[0] == step && ([step] + post)[1..] == post;
  }

  /** An attempt succeeds exactly when both halves of it do. */
  lemma AttemptSucceedsIffBothHalves(h: Hw, t: uint32, timeout: uint32, pre: seq<Step>, post: seq<Step>, buf: seq<bv8>)
    ensures var r := AttemptSpec(h, t, timeout, pre, buf);
            AttemptSpec(h, t, timeout, pre + post, buf).status == Success
            <==> r.status == Success && AttemptSpec(r.hw, t, timeout, post, r.buf).status == Success
  {
    AttemptAppend(h, t, timeout, pre, post, buf);
  }

  /**
   * A successful attempt ends the composite with Success and the attempt's
   * buffer; signalStop is written afterwards exactly when `stop` is asked
   * for, and no handler runs.
   */
  lemma SuccessStopsIffAsked(h: Hw, t: uint32, behaviour: BusLostBehaviour, timeout: uint32,
                             steps: seq<Step>, buf: seq<bv8>, stop: bool)
    requires AttemptSpec(h, t, timeout, steps, buf).status == Success
    ensures var a := AttemptSpec(h, t, timeout, steps, buf);
            var r := CompositeSpec(h, t, behaviour, timeout, steps, buf, stop);
            && r.status == Success && r.buf == a.buf
            && (stop ==> r.hw == Stopped(a.hw) && r.hw.log == a.hw.log + [Control(TwcrW(a.hw.twcr, STOP_REQUEST))])
            && (!stop ==> r.hw == a.hw)
  {
  }

  /** The template _handleBusLost decides a BusLost as _handleBadStatus does. */
  lemma HandleBusLostAgrees(h: Hw, behaviour: BusLostBehaviour, t: uint32)
    ensures HandleBusLostSpec(h, behaviour, t) == HandleBadStatusSpec(h, behaviour, BusLost, t)
  {
  }

  /**
   * The template _handleUnsuccessfulStatus and _handleBadStatus differ only
   * after an AddressNACK, where the template writes a stop and _handleBadStatus
   * writes nothing (the addressing primitive has already stopped).
   */
  lemma HandlersDifferOnlyOnAddressNack(h: Hw, behaviour: BusLostBehaviour, s: Status, t: uint32)
    ensures s != AddressNACK ==> HandleUnsuccessfulStatusSpec(h, behaviour, s, t) == HandleBadStatusSpec(h, behaviour, s, t)
    ensures s == AddressNACK ==> HandleBadStatusSpec(h, behaviour, s, t) == Handled(false, t, h)
    ensures s == AddressNACK ==> HandleUnsuccessfulStatusSpec(h, behaviour, s, t) == Handled(false, t, Stopped(h))
  {
  }

  /** Only Abort lets a BusLost out of a composite: with a retrying behaviour the composite starts again instead. */
  lemma {:induction false} BusLostOnlyWhenAborting(h: Hw, t: uint32, behaviour: BusLostBehaviour, timeout: uint32,
                                                   steps: seq<Step>, buf: seq<bv8>, stop: bool)
    decreases Supply(h)
    ensures CompositeSpec(h, t, behaviour, timeout, steps, buf, stop).status == BusLost ==> behaviour == Abort
  {
    var a := AttemptSpec(h, t, timeout, steps, buf);
    if a.status != Success {
      var d := HandleBadStatusSpec(a.hw, behaviour, a.status, t);
      if d.retry {
        BusLostOnlyWhenAborting(d.hw, d.t, behaviour, timeout, steps, a.buf, stop);
      }
    }
  }

  /**
   * With Abort a composite runs once: its status is that of its one attempt;
   * a BusLost is returned after TWCR |= TWINT, with no stop and no retry.
   */
  lemma AbortRunsOnce(h: Hw, t: uint32, timeout: uint32, steps: seq<Step>, buf: seq<bv8>, stop: bool)
    ensures var a := AttemptSpec(h, t, timeout, steps, buf);
            var r := CompositeSpec(h, t, Abort, timeout, steps, buf, stop);
            && r.status == a.status && r.buf == a.buf
            && (a.status == BusLost ==> r.hw == ControlWritten(a.hw, Set(a.hw.twcr, TWINT)))
  {
  }

  /** RetryWithinTimeout restarts the composite from its first step with the same deadline base. */
  lemma RetryWithinKeepsDeadline(h: Hw, t: uint32, timeout: uint32, steps: seq<Step>, buf: seq<bv8>, stop: bool)
    requires AttemptSpec(h, t, timeout, steps, buf).status == BusLost
    ensures var a := AttemptSpec(h, t, timeout, steps, buf);
            CompositeSpec(h, t, RetryWithinTimeout, timeout, steps, buf, stop)
            == CompositeSpec(a.hw, t, RetryWithinTimeout, timeout, steps, a.buf, stop)
  {
  }

  /** RetryExtendingTimeout reads the clock once more and restarts the composite with that reading as its deadline base. */
  lemma RetryExtendingReadsClock(h: Hw, t: uint32, timeout: uint32, steps: seq<Step>, buf: seq<bv8>, stop: bool)
    requires AttemptSpec(h, t, timeout, steps, buf).status == BusLost
    ensures var a := AttemptSpec(h, t, timeout, steps, buf);
            var Reading(n, h') := Ticked(a.hw);
            CompositeSpec(h, t, RetryExtendingTimeout, timeout, steps, buf, stop)
            == CompositeSpec(h', n, RetryExtendingTimeout, timeout, steps, a.buf, stop)
  {
  }

  /**
   * A failure other than BusLost is never retried, whatever the behaviour: the
   * composite returns it, after a stop for a DataNACK and clearError for an Error.
   */
  lemma OtherFailuresAreFinal(h: Hw, t: uint32, behaviour: BusLostBehaviour, timeout: uint32,
                              steps: seq<Step>, buf: seq<bv8>, stop: bool)
    requires AttemptSpec(h, t, timeout, steps, buf).status !in {Success, BusLost}
    ensures var a := AttemptSpec(h, t, timeout, steps, buf);
            var r := CompositeSpec(h, t, behaviour, timeout, steps, buf, stop);
            && r.status == a.status && r.buf == a.buf
            && r.hw == (if a.status == DataNACK then Stopped(a.hw) else if a.status == Error then ErrorCleared(a.hw) else a.hw)
  {
  }

  /**
   * An AddressNACK at SLA+W ends `_send` there: the data byte is never
   * written, the only stop is the one the addressing primitive wrote, and no
   * behaviour retries it.
   */
  lemma AddressNackSendsNoData(h: Hw, t: uint32, behaviour: BusLostBehaviour, timeout: uint32, address: bv8, b: bv8, stop: bool)
    requires SignalStartSpec(h, t, timeout).status == Success
    requires AddressSlaveWSpec(SignalStartSpec(h, t, timeout).hw, t, timeout, address).status == AddressNACK
    ensures var started := SignalStartSpec(h, t, timeout).hw;
            CompositeSpec(h, t, behaviour, timeout, SendSteps(address, b), [], stop)
            == Received(AddressNACK, AddressSlaveWSpec(started, t, timeout, address).hw, [])
  {
    var steps := SendSteps(address, b);
    var r1 := StepSpec(h, t, timeout, Start, []);
    var r2 := StepSpec(r1.hw, t, timeout, AddressW(address), r1.buf);
    assert steps[0] == Start && steps[1..][0] == AddressW(address);
    assert AttemptSpec(r1.hw, t, timeout, steps[1..], r1.buf) == r2;
    assert AttemptSpec(h, t, timeout, steps, []) == r2;
  }

  // ---------------------------------------------------------------------
  // The policy object
  // ---------------------------------------------------------------------

  /** MasterConfig: the engine, which it extends, and the bus-lost behaviour. */
  class MasterConfig {
    const configuration: MasterConfiguration
    var busLostBehaviour: BusLostBehaviour

    /** MasterConfig(timeout, behaviour). */
    constructor (hw: Twi, timeout: uint32, behaviour: BusLostBehaviour)
      ensures configuration.hw == hw && configuration.timeout == timeout && busLostBehaviour == behaviour
      ensures fresh(configuration)
    {
      configuration := new MasterConfiguration(hw, timeout);
      busLostBehaviour := behaviour;
    }

    /** MasterConfig(timeout): Abort. */
    constructor WithTimeout(hw: Twi, timeout: uint32)
      ensures configuration.hw == hw && configuration.timeout == timeout && busLostBehaviour == Abort
      ensures fresh(configuration)
    {
      configuration := new MasterConfiguration(hw, timeout);
      busLostBehaviour := Abort;
    }

    /** MasterConfig(): no timeout, Abort. */
    constructor WithoutTimeout(hw: Twi)
      ensures configuration.hw == hw && configuration.timeout == NO_TIMEOUT && busLostBehaviour == Abort
      ensures fresh(configuration)
    {
      configuration := new MasterConfiguration.WithoutTimeout(hw);
      busLostBehaviour := Abort;
    }

    method SetBusLostBehaviour(behaviour: BusLostBehaviour)
      modifies this
      ensures busLostBehaviour == behaviour
    {
      busLostBehaviour := behaviour;
    }

    /** _handleBadStatus(s, t): returns whether to retry, and `t` as the reference parameter leaves it. */
    method HandleBadStatus(s: Status, t: uint32) returns (retry: bool, t': uint32)
      modifies configuration.hw
      ensures Handled(retry, t', configuration.hw.State())
           == HandleBadStatusSpec(old(configuration.hw.State()), busLostBehaviour, s, t)
    {
      var hw := configuration.hw;
      retry, t' := false, t;
      if s == BusLost {
        match busLostBehaviour
        case RetryExtendingTimeout =>
          t' := hw.Micros();
          retry := true;
        case RetryWithinTimeout =>
          retry := true;
        case Abort =>
          hw.WriteControl(Set(hw.twcr, TWINT));
      } else if s == DataNACK {
        configuration.SignalStop();
      } else if s == Error {
        hw.ClearError();
      }
    }

    /** _handleBusLost: whether to re-invoke the operation, and with which `t`. */
    method HandleBusLost(t: uint32) returns (retry: bool, t': uint32)
      modifies configuration.hw
      ensures Handled(retry, t', configuration.hw.State())
           == HandleBusLostSpec(old(configuration.hw.State()), busLostBehaviour, t)
    {
      var hw := configuration.hw;
      match busLostBehaviour
      case RetryExtendingTimeout =>
        t' := hw.Micros();
        retry := true;
      case RetryWithinTimeout =>
        retry, t' := true, t;
      case Abort =>
        hw.WriteControl(Set(hw.twcr, TWINT));
        retry, t' := false, t;
    }

    /** _handleUnsuccessfulStatus: whether to re-invoke the operation, and with which `t`. */
    method HandleUnsuccessfulStatus(s: Status, t: uint32) returns (retry: bool, t': uint32)
      modifies configuration.hw
      ensures Handled(retry, t', configuration.hw.State())
           == HandleUnsuccessfulStatusSpec(old(configuration.hw.State()), busLostBehaviour, s, t)
    {
      retry, t' := false, t;
      if s == BusLost {
        retry, t' := HandleBusLost(t);
      } else if s == AddressNACK || s == DataNACK {
        configuration.SignalStop();
      } else if s == Error {
        configuration.hw.ClearError();
      }
    }

    /** One primitive of a composite, with deadline base `t`. */
    method RunStep(t: uint32, step: Step, data: array<bv8>) returns (s: Status)
      requires Fits(step, data.Length)
      modifies configuration.hw, data
      ensures Received(s, configuration.hw.State(), data[..])
           == StepSpec(old(configuration.hw.State()), t, configuration.timeout, step, old(data[..]))
    {
      match step
      case Start => s := configuration.SignalStartAt(t);
      case StopStart => s := configuration.SignalStopStartAt(t);
      case AddressW(a) => s := configuration.AddressSlaveW(t, a);
      case AddressR(a) => s := configuration.AddressSlaveR(t, a);
      case SendByte(b) => s := configuration.SendByteAt(t, b);
      case SendBytes(bytes) => s := configuration.SendBytesAt(t, bytes);
      case ReceiveByte => s := configuration.ReceiveByteAt(t, data, 0);
      case ReceiveBytes(size) => s := configuration.ReceiveBytesAt(t, data, 0, size);
    }

    /** The steps of a composite, each followed by CHECK_RETURN_STATUS's test for success. */
    method Attempt(t: uint32, steps: seq<Step>, data: array<bv8>) returns (s: Status)
      requires forall i :: 0 <= i < |steps| ==> Fits(steps[i], data.Length)
      modifies configuration.hw, data
      ensures Received(s, configuration.hw.State(), data[..])
           == AttemptSpec(old(configuration.hw.State()), t, configuration.timeout, steps, old(data[..]))
    {
      var i := 0;
      while i < |steps|
        invariant 0 <= i <= |steps|
        invariant AttemptSpec(configuration.hw.State(), t, configuration.timeout, steps[i..], data[..])
               == AttemptSpec(old(configuration.hw.State()), t, configuration.timeout, steps, old(data[..]))
      {
        s := RunStep(t, steps[i], data);
        if s != Success {
          return;
        }
        i := i + 1;
      }
      s := Success;
    }

    /** A composite: attempts, with `_handleBadStatus` and the restart of CHECK_RETURN_STATUS, then the optional stop. */
    method Run(t: uint32, steps: seq<Step>, data: array<bv8>, stop: bool) returns (s: Status)
      requires forall i :: 0 <= i < |steps| ==> Fits(steps[i], data.Length)
      modifies configuration.hw, data
      decreases Supply(configuration.hw.State())
      ensures Received(s, configuration.hw.State(), data[..])
           == CompositeSpec(old(configuration.hw.State()), t, busLostBehaviour, configuration.timeout, steps, old(data[..]), stop)
    {
      s := Attempt(t, steps, data);
      if s == Success {
        if stop {
          configuration.SignalStop();
        }
        return;
      }
      var retry, t' := HandleBadStatus(s, t);
      if retry {
        s := Run(t', steps, data, stop);
      }
    }

    // ---- the composites, each with deadline base `t` ----

    /** _send(t, address, data, stop). */
    method SendAt(t: uint32, address: bv8, b: bv8, stop: bool) returns (s: Status)
      modifies configuration.hw
      ensures Received(s, configuration.hw.State(), [])
           == CompositeSpec(old(configuration.hw.State()), t, busLostBehaviour, configuration.timeout, SendSteps(address, b), [], stop)
    {
      var none := new bv8[0];
      s := Run(t, SendSteps(address, b), none, stop);
    }

    /** _send(t, address, data, size, stop), with `bytes` the `size` bytes at `data`. */
    method SendBufferAt(t: uint32, address: bv8, bytes: seq<bv8>, stop: bool) returns (s: Status)
      modifies configuration.hw
      ensures Received(s, configuration.hw.State(), [])
           == CompositeSpec(old(configuration.hw.State()), t, busLostBehaviour, configuration.timeout, SendBufferSteps(address, bytes), [], stop)
    {
      var none := new bv8[0];
      s := Run(t, SendBufferSteps(address, bytes), none, stop);
    }

    /** _receive(t, address, data, stop). */
    method ReceiveAt(t: uint32, address: bv8, data: array<bv8>, stop: bool) returns (s: Status)
      requires 1 <= data.Length
      modifies configuration.hw, data
      ensures Received(s, configuration.hw.State(), data[..])
           == CompositeSpec(old(configuration.hw.State()), t, busLostBehaviour, configuration.timeout, ReceiveSteps(address), old(data[..]), stop)
    {
      s := Run(t, ReceiveSteps(address), data, stop);
    }

    /** _receive(t, address, data, size, stop). */
    method ReceiveBufferAt(t: uint32, address: bv8, data: array<bv8>, size: nat, stop: bool) returns (s: Status)
      requires 1 <= data.Length && size <= data.Length
      modifies configuration.hw, data
      ensures Received(s, configuration.hw.State(), data[..])
           == CompositeSpec(old(configuration.hw.State()), t, busLostBehaviour, configuration.timeout, ReceiveBufferSteps(address, size), old(data[..]), stop)
    {
      s := Run(t, ReceiveBufferSteps(address, size), data, stop);
    }

    /** _receiveRegister(t, address, registerAddress, data, repeatStart, stop). */
    method ReceiveRegisterAt(t: uint32, address: bv8, register: bv8, data: array<bv8>, repeatStart: bool, stop: bool) returns (s: Status)
      requires 1 <= data.Length
      modifies configuration.hw, data
      ensures Received(s, configuration.hw.State(), data[..])
           == CompositeSpec(old(configuration.hw.State()), t, busLostBehaviour, configuration.timeout,
                            RegisterSteps(address, register, repeatStart, ReceiveByte), old(data[..]), stop)
    {
      s := Run(t, RegisterSteps(address, register, repeatStart, ReceiveByte), data, stop);
    }

    /** _receiveRegister(t, address, registerAddress, data, size, repeatStart, stop). */
    method ReceiveRegisterBufferAt(t: uint32, address: bv8, register: bv8, data: array<bv8>, size: nat, repeatStart: bool, stop: bool)
      returns (s: Status)
      requires 1 <= data.Length && size <= data.Length
      modifies configuration.hw, data
      ensures Received(s, configuration.hw.State(), data[..])
           == CompositeSpec(old(configuration.hw.State()), t, busLostBehaviour, configuration.timeout,
                            RegisterSteps(address, register, repeatStart, ReceiveBytes(size)), old(data[..]), stop)
    {
      s := Run(t, RegisterSteps(address, register, repeatStart, ReceiveBytes(size)), data, stop);
    }

    // ---- the public operations: read the clock once and pass it as `t` ----

    method Send(address: bv8, b: bv8, stop: bool) returns (s: Status)
      modifies configuration.hw
      ensures var Reading(t, h) := Ticked(old(configuration.hw.State()));
              Received(s, configuration.hw.State(), [])
              == CompositeSpec(h, t, busLostBehaviour, configuration.timeout, SendSteps(address, b), [], stop)
    {
      var t := configuration.hw.Micros();
      s := SendAt(t, address, b, stop);
    }

    /** send(address, data): stop defaults to true. */
    method SendAndStop(address: bv8, b: bv8) returns (s: Status)
      modifies configuration.hw
      ensures var Reading(t, h) := Ticked(old(configuration.hw.State()));
              Received(s, configuration.hw.State(), [])
              == CompositeSpec(h, t, busLostBehaviour, configuration.timeout, SendSteps(address, b), [], true)
    {
      s := Send(address, b, true);
    }

    method SendBuffer(address: bv8, bytes: seq<bv8>, stop: bool) returns (s: Status)
      modifies configuration.hw
      ensures var Reading(t, h) := Ticked(old(configuration.hw.State()));
              Received(s, configuration.hw.State(), [])
              == CompositeSpec(h, t, busLostBehaviour, configuration.timeout, SendBufferSteps(address, bytes), [], stop)
    {
      var t := configuration.hw.Micros();
      s := SendBufferAt(t, address, bytes, stop);
    }

    /** send(address, data, size): stop defaults to true. */
    method SendBufferAndStop(address: bv8, bytes: seq<bv8>) returns (s: Status)
      modifies configuration.hw
      ensures var Reading(t, h) := Ticked(old(configuration.hw.State()));
              Received(s, configuration.hw.State(), [])
              == CompositeSpec(h, t, busLostBehaviour, configuration.timeout, SendBufferSteps(address, bytes), [], true)
    {
      s := SendBuffer(address, bytes, true);
    }

    method Receive(address: bv8, data: array<bv8>, stop: bool) returns (s: Status)
      requires 1 <= data.Length
      modifies configuration.hw, data
      ensures var Reading(t, h) := Ticked(old(configuration.hw.State()));
              Received(s, configuration.hw.State(), data[..])
              == CompositeSpec(h, t, busLostBehaviour, configuration.timeout, ReceiveSteps(address), old(data[..]), stop)
    {
      var t := configuration.hw.Micros();
      s := ReceiveAt(t, address, data, stop);
    }

    /** receive(address, data): stop defaults to true. */
    method ReceiveAndStop(address: bv8, data: array<bv8>) returns (s: Status)
      requires 1 <= data.Length
      modifies configuration.hw, data
      ensures var Reading(t, h) := Ticked(old(configuration.hw.State()));
              Received(s, configuration.hw.State(), data[..])
              == CompositeSpec(h, t, busLostBehaviour, configuration.timeout, ReceiveSteps(address), old(data[..]), true)
    {
      s := Receive(address, data, true);
    }

    method ReceiveBuffer(address: bv8, data: array<bv8>, size: nat, stop: bool) returns (s: Status)
      requires 1 <= data.Length && size <= data.Length
      modifies configuration.hw, data
      ensures var Reading(t, h) := Ticked(old(configuration.hw.State()));
              Received(s, configuration.hw.State(), data[..])
              == CompositeSpec(h, t, busLostBehaviour, configuration.timeout, ReceiveBufferSteps(address, size), old(data[..]), stop)
    {
      var t := configuration.hw.Micros();
      s := ReceiveBufferAt(t, address, data, size, stop);
    }

    /** receive(address, data, size): stop defaults to true. */
    method ReceiveBufferAndStop(address: bv8, data: array<bv8>, size: nat) returns (s: Status)
      requires 1 <= data.Length && size <= data.Length
      modifies configuration.hw, data
      ensures var Reading(t, h) := Ticked(old(configuration.hw.State()));
              Received(s, configuration.hw.State(), data[..])
              == CompositeSpec(h, t, busLostBehaviour, configuration.timeout, ReceiveBufferSteps(address, size), old(data[..]), true)
    {
      s := ReceiveBuffer(address, data, size, true);
    }

    method ReceiveRegister(address: bv8, register: bv8, data: array<bv8>, repeatStart: bool, stop: bool) returns (s: Status)
      requires 1 <= data.Length
      modifies configuration.hw, data
      ensures var Reading(t, h) := Ticked(old(configuration.hw.State()));
              Received(s, configuration.hw.State(), data[..])
              == CompositeSpec(h, t, busLostBehaviour, configuration.timeout,
                               RegisterSteps(address, register, repeatStart, ReceiveByte), old(data[..]), stop)
    {
      var t := configuration.hw.Micros();
      s := ReceiveRegisterAt(t, address, register, data, repeatStart, stop);
    }

    /** receiveRegister(address, registerAddress, data, repeatStart): stop defaults to true. */
    method ReceiveRegisterAndStop(address: bv8, register: bv8, data: array<bv8>, repeatStart: bool) returns (s: Status)
      requires 1 <= data.Length
      modifies configuration.hw, data
      ensures var Reading(t, h) := Ticked(old(configuration.hw.State()));
              Received(s, configuration.hw.State(), data[..])
              == CompositeSpec(h, t, busLostBehaviour, configuration.timeout,
                               RegisterSteps(address, register, repeatStart, ReceiveByte), old(data[..]), true)
    {
      s := ReceiveRegister(address, register, data, repeatStart, true);
    }

    method ReceiveRegisterBuffer(address: bv8, register: bv8, data: array<bv8>, size: nat, repeatStart: bool, stop: bool)
      returns (s: Status)
      requires 1 <= data.Length && size <= data.Length
      modifies configuration.hw, data
      ensures var Reading(t, h) := Ticked(old(configuration.hw.State()));
              Received(s, configuration.hw.State(), data[..])
              == CompositeSpec(h, t, busLostBehaviour, configuration.timeout,
                               RegisterSteps(address, register, repeatStart, ReceiveBytes(size)), old(data[..]), stop)
    {
      var t := configuration.hw.Micros();
      s := ReceiveRegisterBufferAt(t, address, register, data, size, repeatStart, stop);
    }

    /** receiveRegister(address, registerAddress, data, size, repeatStart): stop defaults to true. */
    method ReceiveRegisterBufferAndStop(address: bv8, register: bv8, data: array<bv8>, size: nat, repeatStart: bool)
      returns (s: Status)
      requires 1 <= data.Length && size <= data.Length
      modifies configuration.hw, data
      ensures var Reading(t, h) := Ticked(old(configuration.hw.State()));
              Received(s, configuration.hw.State(), data[..])
              == CompositeSpec(h, t, busLostBehaviour, configuration.timeout,
                               RegisterSteps(address, register, repeatStart, ReceiveBytes(size)), old(data[..]), true)
    {
      s := ReceiveRegisterBuffer(address, register, data, size, repeatStart, true);
    }
  }
}
