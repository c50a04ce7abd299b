/**
 * The line configuration that the transmit path applies to the CIR serial
 * device between `tcgetattr` and `tcsetattr` (irda/irda.c:118-122).
 */
module LineConfig {

  /** The Linux `struct termios` as the ARM kernel lays it out: four 32-bit
      flag words, the line discipline and the control characters. */
  datatype Termios = Termios(
    iflag: bv32,
    oflag: bv32,
    cflag: bv32,
    lflag: bv32,
    line: bv8,
    cc: seq<bv8>)

  /** `IGNPAR` from <termios.h>: ignore framing and parity errors (octal 04). */
  const IGNPAR: bv32 := 0x4

  /** The `c_cflag` mask, written as the source writes it: two literals ORed
      together, which is 0xFFFFFEF2. */
  const CflagMask: bv32 := 0xFFFF_E600 | 0x18F2

  /** The `c_cflag` bits that the mask removes. */
  const DroppedBits: bv32 := 0x10D

  /** The new `c_cflag` computed from the old one, exactly as written: a single
      AND with `0xFFFFE600 | 0x18F2`. It is the old value with precisely the
      bits 0x10D cleared and every other bit kept, so it never sets a bit. */
  function MaskCflag(old_cflag: bv32): (r: bv32)
    ensures r == old_cflag & !DroppedBits
    ensures r & !old_cflag == 0
  {
    old_cflag & CflagMask
  }

  /** The settings handed to `tcsetattr`: raw input that ignores parity errors,
      no output processing, no local modes, line discipline 0, the masked
      control flags, and the control characters left as `tcgetattr` read them. */
  function Configure(current: Termios): (r: Termios)
    ensures r.iflag == IGNPAR && r.oflag == 0 && r.lflag == 0 && r.line == 0
    ensures r.cflag == current.cflag & !DroppedBits
    ensures r.cc == current.cc
  {
    current.(iflag := IGNPAR, oflag := 0, cflag := MaskCflag(current.cflag), lflag := 0, line := 0)
  }
}
