/**
 * The power/reset controller: `irda_enable` and `irda_reset`
 * (irda/irda.c:34-88). Each opens the CIR reset node write-only, writes one
 * command byte, and closes the node again if it opened.
 */
module PowerControl {
  import opened Trace

  datatype Option<T> = None | Some(value: T)

  /** Error numbers of Linux, returned negated. */
  const EINVAL: int := 22
  const ECOMM: int := 70

  /** The ASCII digits '0', '1' and '2'. */
  const Digit0: Byte := 0x30
  const Digit1: Byte := 0x31
  const Digit2: Byte := 0x32

  /** The commands the reset node understands. */
  datatype Command = PowerOff | ResetChip | PowerOn

  /** The byte for each command: '0' is off, '1' is reset, '2' is on. */
  function Encode(c: Command): (b: Byte)
    ensures Digit0 <= b <= Digit2
  {
    match c
    case PowerOff => Digit0
    case ResetChip => Digit1
    case PowerOn => Digit2
  }

  /** How the node reads a byte; anything outside '0'..'2' is no command. The
      command bytes form a closed enumeration: a byte decodes to a command
      exactly when it is that command's encoding. */
  function Decode(b: Byte): (r: Option<Command>)
    ensures r.Some? <==> Digit0 <= b <= Digit2
    ensures forall c: Command :: r == Some(c) <==> b == Encode(c)
  {
    if b == Digit0 then Some(PowerOff)
    else if b == Digit1 then Some(ResetChip)
    else if b == Digit2 then Some(PowerOn)
    else None
  }

  /** The byte `irda_enable(on)` writes: on for any non-zero `on`, off for 0. */
  function EnableByte(on: int): (b: Byte)
    ensures Decode(b) == Some(if on != 0 then PowerOn else PowerOff)
  {
    if on != 0 then Encode(PowerOn) else Encode(PowerOff)
  }

  /** What the system reports for one call of the controller: whether `open`
      returned a descriptor, and what `write` returned. */
  datatype ControlOutcome = ControlOutcome(openOk: bool, written: int)

  /** The system calls one controller call issues for `cmd`. */
  function ControlTrace(cmd: Byte, c: ControlOutcome): (r: seq<Action>)
    ensures |r| >= 1 && r[0] == Open(ControlPath, WriteOnly)
    ensures forall i :: 0 <= i < |r| ==> r[i].path == ControlPath
  {
    if c.openOk then [Open(ControlPath, WriteOnly), Write(ControlPath, [cmd]), Close(ControlPath)]
    else [Open(ControlPath, WriteOnly)]
  }

  /** One controller call opens the node once; it writes `cmd` (and nothing
      else) once and closes the node once if the open succeeded, and neither
      writes nor closes if it failed. The close comes last. */
  lemma {:induction false} ControlTraceShape(cmd: Byte, c: ControlOutcome)
    ensures var r := ControlTrace(cmd, c);
      && Count(r, Open(ControlPath, WriteOnly)) == 1
      && Count(r, Write(ControlPath, [cmd])) == (if c.openOk then 1 else 0)
      && Count(r, Close(ControlPath)) == (if c.openOk then 1 else 0)
      && (forall i :: 0 <= i < |r| && r[i].Write? ==> r[i].data == [cmd])
      && (c.openOk ==> r[|r| - 1] == Close(ControlPath))
  {
  }

  /** `irda_enable`: -EINVAL if the node does not open, -ECOMM if the write
      did not take exactly one byte, otherwise 0. */
  method Enable(on: int, c: ControlOutcome) returns (ret: int, trace: seq<Action>)
    ensures trace == ControlTrace(EnableByte(on), c)
    ensures !c.openOk ==> ret == -EINVAL
    ensures c.openOk && c.written != 1 ==> ret == -ECOMM
    ensures c.openOk && c.written == 1 ==> ret == 0
  {
    ret := 0;
    var enable := EnableByte(on);
    trace := [Open(ControlPath, WriteOnly)];
    if !c.openOk {
      ret := -EINVAL;
      return;
    }
    trace := trace + [Write(ControlPath, [enable])];
    if c.written != 1 {
      ret := -ECOMM;
    }
    trace := trace + [Close(ControlPath)];
  }

  /** `irda_reset`: as `Enable` with the reset byte, except that on success
      the C `ret` is never assigned; `None` stands for that indeterminate value. */
  method Reset(c: ControlOutcome) returns (ret: Option<int>, trace: seq<Action>)
    ensures trace == ControlTrace(Encode(ResetChip), c)
    ensures !c.openOk ==> ret == Some(-EINVAL)
    ensures c.openOk && c.written != 1 ==> ret == Some(-ECOMM)
    ensures c.openOk && c.written == 1 ==> ret == None
  {
    ret := None;
    var reset := Encode(ResetChip);
    trace := [Open(ControlPath, WriteOnly)];
    if !c.openOk {
      ret := Some(-EINVAL);
      return;
    }
    trace := trace + [Write(ControlPath, [reset])];
    if c.written != 1 {
      ret := Some(-ECOMM);
    }
    trace := trace + [Close(ControlPath)];
  }
}
