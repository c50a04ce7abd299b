# Consumer-IR HAL transmit path, modelled in Dafny

This project models the logic of the HTC One (m7) consumer-IR hardware module,
`irda/irda.c`: the host calls `send_ircode(buffer, length)` with a pre-encoded
waveform whose tokens are separated by commas; the module turns the commas into
spaces in the caller's buffer, switches the CIR chip on and resets it through
its sysfs reset node, opens the serial device, flushes it, reconfigures its
line settings, writes a wakeup byte and then the payload, closes the device and
finally switches the chip off again.

Every system call the module issues (`open`, `write`, `close`, `tcflush`,
`tcgetattr`, `tcsetattr`) is an `Action` in a trace, tagged with the file it
goes to (the reset node or the serial device) and carrying its constant
arguments: the `open` flags, the `tcflush` queue selector and the `tcsetattr`
timing. What the operating system
answers — whether an `open` returned a descriptor, what a `write` returned,
whether `tcgetattr`/`tcsetattr` failed and which settings `tcgetattr` read — is
a parameter of the method that models the call sequence (`ControlOutcome`,
`DeviceOutcome`, `SendEnv`). Each method returns the actions it issued.

Files:

- `line.dfy` (module `LineConfig`): the `termios` record and the settings
  applied before transmission, including the `c_cflag` mask.
- `trace.dfy` (module `Trace`): bytes, actions, counting and projecting a trace
  on one file.
- `control.dfy` (module `PowerControl`): the command bytes, `irda_enable` and
  `irda_reset`.
- `transmit.dfy` (module `Transmit`): `irda_send`, its first-failure result and
  a declarative reference trace, with the lemmas about that trace.
- `entry.dfy` (module `EntryPoint`): `irda_send_ircode` and its in-place
  comma-to-space loop.

The `c_cflag` update is modelled as the code writes it: one AND with
`0xFFFFE600 | 0x18F2`, i.e. with `0xFFFFFEF2`. It clears the bits `0x10D` of
the old value and never sets a bit: `0x18F2` is ORed into the mask, not into
the value, so no bit is forced on. Read as `c_cflag` bits of the ARM kernel,
the complement of `0xFFFFE600` is `0x19FF`, that is
`CBAUD|CSIZE|CSTOPB|CREAD|PARENB|CLOCAL`, and `0x18F2` is
`B115200|CS8|CSTOPB|CREAD|CLOCAL`; the expression looks meant as
`(c_cflag & 0xFFFFE600) | 0x18F2`, which would select 115200 baud, 8 data bits.
As written, an old speed of `B9600` (`0xD`) becomes `B0`. The model keeps the
code as written.

## Model

| member | source | states |
|---|---|---|
| `LineConfig.MaskCflag` | irda/irda.c:120 | the new `c_cflag` is the old one with exactly the bits 0x10D cleared and all other bits kept; no bit is ever set |
| `LineConfig.Configure` | irda/irda.c:118-122 | the applied settings: input flags `IGNPAR`, no output or local flags, line discipline 0, the masked control flags, control characters as read |
| `PowerControl.Encode` | irda/irda.c:40-41 | every command is sent as one of the ASCII digits '0', '1', '2' |
| `PowerControl.Decode` | irda/irda.c:40-41 | the command bytes form a closed enumeration: '0' off, '1' reset, '2' on; a byte reads as a command exactly when it is that command's byte |
| `PowerControl.EnableByte` | irda/irda.c:41 | `irda_enable(on)` sends the on command for any non-zero `on` and the off command for 0 |
| `PowerControl.ControlTrace` | irda/irda.c:43-58 | a controller call starts by opening the reset node with `O_WRONLY` and issues calls on that node only |
| `PowerControl.ControlTraceShape` | irda/irda.c:43-60 | the node is opened once; if that fails there is no write and no close; otherwise exactly one write of the command byte and exactly one close, the close last |
| `PowerControl.Enable` | irda/irda.c:34-61 | `irda_enable` issues the controller calls for its byte and returns -EINVAL on a failed open, -ECOMM when the write did not take exactly one byte, 0 otherwise |
| `PowerControl.Reset` | irda/irda.c:63-88 | `irda_reset` issues the controller calls for '1' and returns -EINVAL or -ECOMM on failure; on success its result is the never-assigned local, not 0 |
| `Transmit.FirstFailure` | irda/irda.c:102-146 | the failing step reported is the first in program order: it failed and every earlier step succeeded; none is reported iff every step succeeded |
| `Transmit.Status` | irda/irda.c:102-146 | `irda_send` returns 0 iff no step failed, -ECOMM iff a write was short, -EINVAL otherwise |
| `Transmit.Reached` | irda/irda.c:102-146 | at least the device open and at most all six planned device calls are issued; all six exactly when the payload write is reached |
| `Transmit.DeviceSession` | irda/irda.c:102-149 | the device calls of one transmission are all on the serial device and begin with its open |
| `Transmit.Send` | irda/irda.c:90-153 | `irda_send` returns the code of its first failing device step, independent of the enable and reset outcomes, and issues exactly the reference trace: enable, reset, device session, disable |
| `Transmit.CallsOfSendTrace` | irda/irda.c:99-151 | the projection of the transmit trace on either file is the concatenation of the projections of its four phases |
| `Transmit.DeviceCallsAreSession` | irda/irda.c:102-149 | on the serial device `irda_send` issues exactly its device session; enable, reset and disable never touch it |
| `Transmit.SuccessDeviceCalls` | irda/irda.c:102-149 | on full success the device sees, in order: open with `O_WRONLY` and `O_NOCTTY`, flush of both queues (`TCIOFLUSH`), getattr, setattr `TCSANOW` with the configured settings, the wakeup byte 0xBB, the payload, close |
| `Transmit.FailureDeviceCalls` | irda/irda.c:102-149 | after the first failing step no later device step runs: the device sees the planned calls up to the failing one, then close iff the open succeeded |
| `Transmit.ControlCallsOfSend` | irda/irda.c:99-151 | on the reset node `irda_send` always issues enable-on, then reset, then enable-off, whatever the device does |
| `Transmit.DeviceOpenedAndClosedOnce` | irda/irda.c:102-149 | the device is opened (`O_WRONLY` and `O_NOCTTY`) exactly once and closed exactly once if the open succeeded, never otherwise |
| `Transmit.SessionOpensAndClosesOnce` | irda/irda.c:102-149 | the device session alone holds one open and one close iff the open succeeded |
| `Transmit.DisableRunsLast` | irda/irda.c:148-152 | the trace ends with one `irda_enable(0)`, and no earlier call writes the off byte; the off byte is written once iff the node opened |
| `EntryPoint.Separator` | irda/irda.c:166-168 | a comma becomes a space, a byte that is not a comma is kept, and the result is never a comma |
| `EntryPoint.CommasToSpaces` | irda/irda.c:165-169 | the rewritten prefix has the length of the original |
| `EntryPoint.CommasToSpacesAt` | irda/irda.c:165-169 | each rewritten byte is the replacement of the original byte at that index |
| `EntryPoint.Preprocessed` | irda/irda.c:165-169 | the buffer keeps its length and every byte at index `length` or beyond |
| `EntryPoint.PreprocessedAt` | irda/irda.c:165-169 | below `length` a comma becomes a space and every other byte is unchanged |
| `EntryPoint.NoCommaLeft` | irda/irda.c:165-169 | no comma remains in the first `length` bytes |
| `EntryPoint.PreprocessIdempotent` | irda/irda.c:165-169 | applying the replacement twice gives the same buffer as applying it once |
| `EntryPoint.SendIrCode` | irda/irda.c:155-172 | the loop rewrites the caller's buffer in place to its preprocessed form and the calls issued are those of `irda_send` on the rewritten bytes |

## Left out

- The system calls themselves and the devices behind them: each outcome is a parameter, so the model says what the module does for every possible answer, not which answers the kernel gives.
- The result of `tcflush` (irda/irda.c:110) is never checked; the flush appears in the trace only.
- Logging and the null-terminated scratch copy made only for it (irda/irda.c:158-162).
- `open_irda` and the module descriptor (irda/irda.c:174-202): ABI registration around an unchecked `malloc`; note that `memset(dev, 0, sizeof(dev))` zeroes only a pointer's worth of bytes. This is C memory layout, not transmit logic.
- PowerControl.Reset: on success the C function returns an uninitialised local; the model returns `None` for it instead of a number, and `irda_send` discards it anyway.
- Transmit.Send: a `write` that fails returns -1, which becomes the largest `size_t`; the model compares the returned count as an unbounded integer, which agrees because that value never equals a length that fits in an `int`.
- EntryPoint.SendIrCode: requires `0 <= length <= buffer.Length`; a negative length makes the C variable-length scratch array undefined, and a longer length reads past the caller's buffer.
- Concurrent `send_ircode` calls (the code has no locking) and the effect on the IR hardware.
- A stub variant of this module that only logs is not part of this model.
