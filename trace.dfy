/**
 * The observable behaviour of the HAL: the sequence of system calls it issues.
 * Every `open`, `write`, `close`, `tcflush`, `tcgetattr` and `tcsetattr` becomes
 * one `Action`, tagged with the file it is issued on.
 */
module Trace {
  import LineConfig

  /** An 8-bit byte, as `char` is on ARM. */
  newtype Byte = b: int | 0 <= b < 256

  /** The two files the HAL opens: the sysfs reset/enable node of the CIR chip
      (`CIR_RESET`) and the serial device the waveform goes to (`CIR_DEVICE`). */
  datatype Path = ControlPath | DevicePath

  /** The access flags passed to `open`: `O_WRONLY`, or `O_WRONLY | O_NOCTTY`
      (write-only without becoming the controlling terminal). */
  datatype OpenMode = WriteOnly | WriteOnlyNoCtty

  /** The queue selector of `tcflush`: `TCIFLUSH`, `TCOFLUSH` or `TCIOFLUSH`. */
  datatype Queues = InputQueue | OutputQueue | BothQueues

  /** When `tcsetattr` applies new settings: `TCSANOW`, `TCSADRAIN` or `TCSAFLUSH`. */
  datatype When = Now | AfterDrain | AfterFlush

  /** One system call with its arguments. `Write` records the bytes handed to
      `write`, not how many of them the kernel accepted; `Open` records the
      attempt, successful or not. */
  datatype Action =
    | Open(path: Path, mode: OpenMode)
    | Write(path: Path, data: seq<Byte>)
    | Close(path: Path)
    | Flush(path: Path, queues: Queues)
    | GetAttr(path: Path)
    | SetAttr(path: Path, when: When, settings: LineConfig.Termios)

  /** How often `a` occurs in `t`. */
  function Count(t: seq<Action>, a: Action): (n: nat)
    ensures n <= |t|
    ensures n == 0 <==> a !in t
  {
    if t == [] then 0 else (if t[0] == a then 1 else 0) + Count(t[1..], a)
  }

  /** The calls of `t` issued on file `p`, in order. */
  function Calls(t: seq<Action>, p: Path): (r: seq<Action>)
    ensures |r| <= |t|
    ensures forall i :: 0 <= i < |r| ==> r[i].path == p
  {
    if t == [] then []
    else if t[0].path == p then [t[0]] + Calls(t[1..], p)
    else Calls(t[1..], p)
  }

  lemma {:induction false} CountConcat(s: seq<Action>, t: seq<Action>, a: Action)
    ensures Count(s + t, a) == Count(s, a) + Count(t, a)
  {
    if s == [] {
      assert s + t == t;
    } else {
      assert (s + t)[1..] == s[1..] + t;
      CountConcat(s[1..], t, a);
    }
  }

  lemma {:induction false} CallsConcat(s: seq<Action>, t: seq<Action>, p: Path)
    ensures Calls(s + t, p) == Calls(s, p) + Calls(t, p)
  {
    if s == [] {
      assert s + t == t;
    } else {
      assert (s + t)[1..] == s[1..] + t;
      CallsConcat(s[1..], t, p);
    }
  }

  /** A trace all of whose calls are on `p` is its own projection on `p`. */
  lemma {:induction false} CallsAllOn(t: seq<Action>, p: Path)
    requires forall i :: 0 <= i < |t| ==> t[i].path == p
    ensures Calls(t, p) == t
  {
    if t != [] {
      CallsAllOn(t[1..], p);
    }
  }

  /** Counting a call on file `p` in a trace is counting it in the projection on `p`. */
  lemma {:induction false} CountOnPath(t: seq<Action>, p: Path, a: Action)
    requires a.path == p
    ensures Count(t, a) == Count(Calls(t, p), a)
  {
    if t != [] {
      CountOnPath(t[1..], p, a);
    }
  }

  /** A trace none of whose calls are on `p` has nothing on `p`. */
  lemma {:induction false} NoCallsOn(t: seq<Action>, p: Path)
    requires forall i :: 0 <= i < |t| ==> t[i].path != p
    ensures Calls(t, p) == []
  {
    if t != [] {
      NoCallsOn(t[1..], p);
    }
  }
}
