/**
 * The transmit entry point `irda_send_ircode` (irda/irda.c:155-172): rewrite
 * every comma of the caller's buffer into a space, in place, then hand the
 * buffer to `irda_send` and drop its result.
 */
module EntryPoint {
  import opened Trace
  import opened Transmit

  /** ',' and ' ' in ASCII. */
  const Comma: Byte := 0x2C
  const Space: Byte := 0x20

  /** The byte that replaces `b`: a space for a comma, otherwise `b` itself. */
  function Separator(b: Byte): (r: Byte)
    ensures b == Comma ==> r == Space
    ensures b != Comma ==> r == b
    ensures r != Comma
  {
    if b == Comma then Space else b
  }

  /** `s` with every comma turned into a space. */
  function CommasToSpaces(s: seq<Byte>): (r: seq<Byte>)
    ensures |r| == |s|
  {
    if s == [] then [] else [Separator(s[0])] + CommasToSpaces(s[1..])
  }

  lemma {:induction false} CommasToSpacesAt(s: seq<Byte>, i: nat)
    requires i < |s|
    ensures CommasToSpaces(s)[i] == Separator(s[i])
  {
    if i > 0 {
      CommasToSpacesAt(s[1..], i - 1);
    }
  }

  /** The buffer after preprocessing its first `length` bytes; the length of
      the buffer and every byte from `length` on stay as they were. */
  function Preprocessed(s: seq<Byte>, length: nat): (r: seq<Byte>)
    requires length <= |s|
    ensures |r| == |s|
    ensures r[length..] == s[length..]
  {
    CommasToSpaces(s[..length]) + s[length..]
  }

  /** Below `length`, a comma has become a space and every other byte is
      unchanged. */
  lemma {:induction false} PreprocessedAt(s: seq<Byte>, length: nat)
    requires length <= |s|
    ensures forall i :: 0 <= i < length ==>
      Preprocessed(s, length)[i] == if s[i] == Comma then Space else s[i]
  {
    forall i | 0 <= i < length
      ensures Preprocessed(s, length)[i] == if s[i] == Comma then Space else s[i]
    {
      CommasToSpacesAt(s[..length], i);
    }
  }

  /** No comma is left in the first `length` bytes. */
  lemma {:induction false} NoCommaLeft(s: seq<Byte>, length: nat)
    requires length <= |s|
    ensures forall i :: 0 <= i < length ==> Preprocessed(s, length)[i] != Comma
  {
    PreprocessedAt(s, length);
  }

  /** Preprocessing twice is preprocessing once. */
  lemma {:induction false} PreprocessIdempotent(s: seq<Byte>, length: nat)
    requires length <= |s|
    ensures Preprocessed(Preprocessed(s, length), length) == Preprocessed(s, length)
  {
    var once := Preprocessed(s, length);
    PreprocessedAt(s, length);
    PreprocessedAt(once, length);
    var twice := Preprocessed(once, length);
    assert twice[..length] == once[..length];
    assert twice == twice[..length] + twice[length..];
    assert once == once[..length] + once[length..];
  }

  /** `irda_send_ircode(buffer, length)`: the first `length` bytes of `buffer`
      lose their commas, the rest is untouched, and the system calls issued are
      those of `irda_send` on the rewritten bytes. Nothing is returned. */
  method SendIrCode(buffer: array<Byte>, length: int, env: SendEnv) returns (trace: seq<Action>)
    requires 0 <= length <= buffer.Length
    modifies buffer
    ensures buffer[..] == Preprocessed(old(buffer[..]), length)
    ensures trace == SendTrace(buffer[..length], env)
  {
    var i := 0;
    while i < length
      invariant 0 <= i <= length
      invariant forall k :: 0 <= k < i ==> buffer[k] == Separator(old(buffer[k]))
      invariant forall k :: i <= k < buffer.Length ==> buffer[k] == old(buffer[k])
    {
      if buffer[i] == Comma {
        buffer[i] := Space;
      }
      i := i + 1;
    }
    PreprocessedAt(old(buffer[..]), length);
    var ret;
    ret, trace := Send(buffer[..length], env);
  }
}
