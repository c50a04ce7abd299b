/**
 * The transmission driver `irda_send` (irda/irda.c:90-153): enable and reset
 * the chip (results ignored), open and configure the serial device, write the
 * wakeup byte and the payload, close the device if it was opened, and always
 * finish by switching the chip off.
 */
module Transmit {
  import opened Trace
  import opened LineConfig
  import opened PowerControl

  /** `char wakeup = -69`: the byte 0xBB. */
  const Wakeup: Byte := 0xBB

  /** What the system reports for the device calls of one `irda_send`.
      `current` is what `tcgetattr` fills in when it succeeds. The result
      of `tcflush` is never checked by `irda_send` and so is not an outcome. */
  datatype DeviceOutcome = DeviceOutcome(
    openOk: bool,
    getAttrOk: bool,
    current: Termios,
    setAttrOk: bool,
    wakeupWritten: int,
    payloadWritten: int)

  /** Outcomes of all system calls of one `irda_send`, in call order. */
  datatype SendEnv = SendEnv(
    enableOn: ControlOutcome,
    reset: ControlOutcome,
    device: DeviceOutcome,
    disable: ControlOutcome)

  /** The device steps whose failure `irda_send` checks, in program order. */
  datatype Step = OpenDevice | GetAttributes | SetAttributes | WriteWakeup | WritePayload {
    function Order(): nat {
      match this
      case OpenDevice => 0
      case GetAttributes => 1
      case SetAttributes => 2
      case WriteWakeup => 3
      case WritePayload => 4
    }

    /** Position of the step's call among the planned device calls. */
    function CallIndex(): nat {
      match this
      case OpenDevice => 0
      case GetAttributes => 2
      case SetAttributes => 3
      case WriteWakeup => 4
      case WritePayload => 5
    }

    /** The error code of a failure of this step. */
    function Error(): int {
      if WriteWakeup? || WritePayload? then -ECOMM else -EINVAL
    }
  }

  /** Whether step `s` succeeds, for a payload of `len` bytes. */
  predicate Succeeded(d: DeviceOutcome, len: int, s: Step) {
    match s
    case OpenDevice => d.openOk
    case GetAttributes => d.getAttrOk
    case SetAttributes => d.setAttrOk
    case WriteWakeup => d.wakeupWritten == 1
    case WritePayload => d.payloadWritten == len
  }

  /** The first step that fails, if any. */
  function FirstFailure(d: DeviceOutcome, len: int): (r: Option<Step>)
    ensures r.None? <==> forall s: Step :: Succeeded(d, len, s)
    ensures r.Some? ==> !Succeeded(d, len, r.value)
    ensures r.Some? ==> forall s: Step :: s.Order() < r.value.Order() ==> Succeeded(d, len, s)
  {
    if !d.openOk then assert !Succeeded(d, len, OpenDevice); Some(OpenDevice)
    else if !d.getAttrOk then assert !Succeeded(d, len, GetAttributes); Some(GetAttributes)
    else if !d.setAttrOk then assert !Succeeded(d, len, SetAttributes); Some(SetAttributes)
    else if d.wakeupWritten != 1 then assert !Succeeded(d, len, WriteWakeup); Some(WriteWakeup)
    else if d.payloadWritten != len then assert !Succeeded(d, len, WritePayload); Some(WritePayload)
    else None
  }

  /** The value `irda_send` returns when `f` is its first failing step. */
  function Status(f: Option<Step>): (r: int)
    ensures r == 0 <==> f.None?
    ensures r == 0 || r == -EINVAL || r == -ECOMM
    ensures r == -ECOMM <==> f == Some(WriteWakeup) || f == Some(WritePayload)
  {
    match f
    case None => 0
    case Some(s) => s.Error()
  }

  /** The device calls of a transmission in which every step succeeds. */
  function Planned(buf: seq<Byte>, current: Termios): seq<Action> {
    [Open(DevicePath, WriteOnlyNoCtty), Flush(DevicePath, BothQueues), GetAttr(DevicePath),
     SetAttr(DevicePath, Now, Configure(current)),
     Write(DevicePath, [Wakeup]), Write(DevicePath, buf)]
  }

  /** How many planned device calls are issued: all six, or those up to and
      including the call of the first step that fails. */
  function Reached(d: DeviceOutcome, len: int): (k: nat)
    ensures 1 <= k <= 6
    ensures k == 6 <==> FirstFailure(d, len).None? || FirstFailure(d, len) == Some(WritePayload)
  {
    match FirstFailure(d, len)
    case None => 6
    case Some(s) => s.CallIndex() + 1
  }

  /** The device calls actually issued: the planned calls up to and including
      the first one that fails, then `close` if the device was opened. */
  function DeviceSession(buf: seq<Byte>, d: DeviceOutcome): (r: seq<Action>)
    ensures forall i :: 0 <= i < |r| ==> r[i].path == DevicePath
    ensures 1 <= |r| <= 7 && r[0] == Open(DevicePath, WriteOnlyNoCtty)
  {
    Planned(buf, d.current)[..Reached(d, |buf|)] + (if d.openOk then [Close(DevicePath)] else [])
  }

  /** Every system call of one `irda_send`, in order. */
  function SendTrace(buf: seq<Byte>, env: SendEnv): seq<Action> {
    ControlTrace(Encode(PowerOn), env.enableOn)
    + ControlTrace(Encode(ResetChip), env.reset)
    + DeviceSession(buf, env.device)
    + ControlTrace(Encode(PowerOff), env.disable)
  }

  /** `irda_send(buf, |buf|)`. The result depends only on the device outcomes,
      not on those of the leading enable and reset. */
  method Send(buf: seq<Byte>, env: SendEnv) returns (ret: int, trace: seq<Action>)
    ensures ret == Status(FirstFailure(env.device, |buf|))
    ensures trace == SendTrace(buf, env)
  {
    ret := 0;
    var d := env.device;

    // Best effort: both results are dropped.
    var enableRet, enableTrace := Enable(1, env.enableOn);
    var resetRet, resetTrace := Reset(env.reset);
    trace := enableTrace + resetTrace;
    ghost var prefix := trace;

    trace := trace + [Open(DevicePath, WriteOnlyNoCtty)];
    if !d.openOk {
      ret := -EINVAL;
    } else {
      trace := trace + [Flush(DevicePath, BothQueues), GetAttr(DevicePath)];
      if !d.getAttrOk {
        ret := -EINVAL;
      } else {
        var settings := Configure(d.current);
        trace := trace + [SetAttr(DevicePath, Now, settings)];
        if !d.setAttrOk {
          ret := -EINVAL;
        } else {
          trace := trace + [Write(DevicePath, [Wakeup])];
          if d.wakeupWritten != 1 {
            ret := -ECOMM;
          } else {
            trace := trace + [Write(DevicePath, buf)];
            if d.payloadWritten != |buf| {
              ret := -ECOMM;
            }
          }
        }
      }
      trace := trace + [Close(DevicePath)];
    }
    assert trace == prefix + Planned(buf, d.current)[..Reached(d, |buf|)]
      + (if d.openOk then [Close(DevicePath)] else []);

    var disableRet, disableTrace := Enable(0, env.disable);
    trace := trace + disableTrace;
  }

  /** Projected on file `p`, the trace of `irda_send` is the projections of its
      four parts, in order. */
  lemma {:induction false} CallsOfSendTrace(buf: seq<Byte>, env: SendEnv, p: Path)
    ensures Calls(SendTrace(buf, env), p) ==
      Calls(ControlTrace(Encode(PowerOn), env.enableOn), p)
      + Calls(ControlTrace(Encode(ResetChip), env.reset), p)
      + Calls(DeviceSession(buf, env.device), p)
      + Calls(ControlTrace(Encode(PowerOff), env.disable), p)
  {
    var e := ControlTrace(Encode(PowerOn), env.enableOn);
    var r := ControlTrace(Encode(ResetChip), env.reset);
    var s := DeviceSession(buf, env.device);
    var o := ControlTrace(Encode(PowerOff), env.disable);
    CallsConcat(e + r + s, o, p);
    CallsConcat(e + r, s, p);
    CallsConcat(e, r, p);
  }

  /** Projected on the device, the trace of `irda_send` is its device session. */
  lemma {:induction false} DeviceCallsAreSession(buf: seq<Byte>, env: SendEnv)
    ensures Calls(SendTrace(buf, env), DevicePath) == DeviceSession(buf, env.device)
  {
    CallsOfSendTrace(buf, env, DevicePath);
    NoCallsOn(ControlTrace(Encode(PowerOn), env.enableOn), DevicePath);
    NoCallsOn(ControlTrace(Encode(ResetChip), env.reset), DevicePath);
    NoCallsOn(ControlTrace(Encode(PowerOff), env.disable), DevicePath);
    CallsAllOn(DeviceSession(buf, env.device), DevicePath);
  }

  /** On full success the device sees, in order: open, flush, getattr, setattr
      with the configured line settings, the wakeup byte, the payload, close. */
  lemma {:induction false} SuccessDeviceCalls(buf: seq<Byte>, env: SendEnv)
    requires FirstFailure(env.device, |buf|).None?
    ensures Calls(SendTrace(buf, env), DevicePath) ==
      [Open(DevicePath, WriteOnlyNoCtty), Flush(DevicePath, BothQueues), GetAttr(DevicePath),
       SetAttr(DevicePath, Now, Configure(env.device.current)),
       Write(DevicePath, [Wakeup]), Write(DevicePath, buf), Close(DevicePath)]
  {
    DeviceCallsAreSession(buf, env);
    var plan := Planned(buf, env.device.current);
    assert plan[..6] == plan;
  }

  /** After the first failing step no later device step runs: the device sees
      the planned calls up to and including the failing one, then `close` if
      the device was opened. */
  lemma {:induction false} FailureDeviceCalls(buf: seq<Byte>, env: SendEnv, s: Step)
    requires FirstFailure(env.device, |buf|) == Some(s)
    ensures Calls(SendTrace(buf, env), DevicePath) ==
      Planned(buf, env.device.current)[..s.CallIndex() + 1]
      + (if env.device.openOk then [Close(DevicePath)] else [])
    ensures env.device.openOk <==> s != OpenDevice
  {
    DeviceCallsAreSession(buf, env);
  }

  /** Projected on the reset node, `irda_send` issues enable-on, reset and
      enable-off, in that order, whatever happens on the device. */
  lemma {:induction false} ControlCallsOfSend(buf: seq<Byte>, env: SendEnv)
    ensures Calls(SendTrace(buf, env), ControlPath) ==
      ControlTrace(Encode(PowerOn), env.enableOn)
      + ControlTrace(Encode(ResetChip), env.reset)
      + ControlTrace(Encode(PowerOff), env.disable)
  {
    var e := ControlTrace(Encode(PowerOn), env.enableOn);
    var r := ControlTrace(Encode(ResetChip), env.reset);
    var s := DeviceSession(buf, env.device);
    var o := ControlTrace(Encode(PowerOff), env.disable);
    CallsOfSendTrace(buf, env, ControlPath);
    CallsAllOn(e, ControlPath);
    CallsAllOn(r, ControlPath);
    CallsAllOn(o, ControlPath);
    NoCallsOn(s, ControlPath);

  }

  /** The device is opened exactly once, and closed exactly once if that open
      succeeded and never otherwise. */
  lemma {:induction false} DeviceOpenedAndClosedOnce(buf: seq<Byte>, env: SendEnv)
    ensures Count(SendTrace(buf, env), Open(DevicePath, WriteOnlyNoCtty)) == 1
    ensures Count(SendTrace(buf, env), Close(DevicePath)) == if env.device.openOk then 1 else 0
  {
    var t := SendTrace(buf, env);
    DeviceCallsAreSession(buf, env);
    CountOnPath(t, DevicePath, Open(DevicePath, WriteOnlyNoCtty));
    CountOnPath(t, DevicePath, Close(DevicePath));
    SessionOpensAndClosesOnce(buf, env.device);
  }

  lemma {:induction false} SessionOpensAndClosesOnce(buf: seq<Byte>, d: DeviceOutcome)
    ensures Count(DeviceSession(buf, d), Open(DevicePath, WriteOnlyNoCtty)) == 1
    ensures Count(DeviceSession(buf, d), Close(DevicePath)) == if d.openOk then 1 else 0
  {
    var plan := Planned(buf, d.current);
    var planned := plan[..Reached(d, |buf|)];
    var rest := planned[1..];
    var closing: seq<Action> := if d.openOk then [Close(DevicePath)] else [];
    assert DeviceSession(buf, d) == planned + closing;
    assert planned == [Open(DevicePath, WriteOnlyNoCtty)] + rest;
    forall i | 0 <= i < |rest|
      ensures rest[i] != Open(DevicePath, WriteOnlyNoCtty) && rest[i] != Close(DevicePath)
    {
      assert rest[i] == plan[i + 1];
    }
    assert Open(DevicePath, WriteOnlyNoCtty) !in rest && Close(DevicePath) !in rest;
    assert Close(DevicePath) != Open(DevicePath, WriteOnlyNoCtty);
    CountConcat(planned, closing, Open(DevicePath, WriteOnlyNoCtty));
    CountConcat(planned, closing, Close(DevicePath));
    CountConcat([Open(DevicePath, WriteOnlyNoCtty)], rest, Open(DevicePath, WriteOnlyNoCtty));
    CountConcat([Open(DevicePath, WriteOnlyNoCtty)], rest, Close(DevicePath));
  }

  /** The last calls of `irda_send` are exactly one `irda_enable(0)`, and no
      earlier call writes the off byte. */
  lemma {:induction false} DisableRunsLast(buf: seq<Byte>, env: SendEnv)
    ensures var t := SendTrace(buf, env);
      var off := ControlTrace(Encode(PowerOff), env.disable);
      |off| <= |t| && t[|t| - |off|..] == off
      && Count(t[..|t| - |off|], Write(ControlPath, [Encode(PowerOff)])) == 0
      && Count(t, Write(ControlPath, [Encode(PowerOff)])) == if env.disable.openOk then 1 else 0
  {
    var t := SendTrace(buf, env);
    var w := Write(ControlPath, [Encode(PowerOff)]);
    var e := ControlTrace(Encode(PowerOn), env.enableOn);
    var r := ControlTrace(Encode(ResetChip), env.reset);
    var s := DeviceSession(buf, env.device);
    var o := ControlTrace(Encode(PowerOff), env.disable);
    var before := e + r + s;
    assert t == before + o;
    assert t[..|t| - |o|] == before;
    assert t[|t| - |o|..] == o;
    assert w !in e && w !in r;
    assert w !in s;
    assert w !in before;
    CountConcat(before, o, w);
    if env.disable.openOk {
      assert o == [o[0]] + [w] + [o[2]];
      CountConcat([o[0]] + [w], [o[2]], w);
      CountConcat([o[0]], [w], w);
    }
  }
}
