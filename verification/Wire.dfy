/**
 Bytes, little-endian integers and the results of decoders.

 The decoders of the program read from the front of a shrinking byte slice; here the
 unread rest is a sequence, and reading is an index test followed by a slice.
 */
module Wire {
  type byte = x: int | 0 <= x < 0x100
  type u16 = x: int | 0 <= x < 0x1_0000
  type u32 = x: int | 0 <= x < 0x1_0000_0000
  type bytes = seq<byte>

  datatype Option<+T> = None | Some(value: T)

  /** The kinds of errors decoders and the callers above them return. */
  datatype Error = Truncated | InvalidPacket | Unsupported | SessionFailed | Cip(status: byte)

  datatype Result<+T> = Ok(value: T) | Err(error: Error) {
    predicate IsFailure() {
      Err?
    }
    function PropagateFailure<U>(): Result<U>
      requires Err?
    {
      Err(error)
    }
    function Extract(): T
      requires Ok?
    {
      value
    }
  }

  /** put_u16_le of the low 16 bits of v: also the truncating cast `as u16`. */
  function Put16(v: nat): (b: bytes)
    ensures |b| == 2
  {
    [v % 0x100, v / 0x100 % 0x100]
  }

  function Put32(v: nat): (b: bytes)
    ensures |b| == 4
  {
    Put16(v % 0x1_0000) + Put16(v / 0x1_0000)
  }

  function Get16(b: bytes): u16
    requires |b| >= 2
  {
    b[0] as int + 0x100 * b[1] as int
  }

  function Get32(b: bytes): u32
    requires |b| >= 4
  {
    Get16(b) as int + 0x1_0000 * Get16(b[2..]) as int
  }

  lemma Remainder(v: nat, a: nat, m: nat)
    requires v == 0x1_0000 * a + m && m < 0x1_0000
    ensures v % 0x1_0000 == m
  {
  }

  lemma LowAndHigh(v: nat)
    ensures v % 0x100 + 0x100 * (v / 0x100 % 0x100) == v % 0x1_0000
  {
    var q := v / 0x100;
    var a := q / 0x100;
    assert v == 0x1_0000 * a + (v % 0x100 + 0x100 * (q % 0x100));
    Remainder(v, a, v % 0x100 + 0x100 * (q % 0x100));
  }

  /** Reading back a 16-bit field gives the value modulo 2^16, whatever follows it. */
  lemma GetPut16(v: nat, rest: bytes)
    ensures Get16(Put16(v) + rest) == v % 0x1_0000
    ensures (Put16(v) + rest)[2..] == rest
  {
    LowAndHigh(v);
  }

  lemma GetPut32(v: u32, rest: bytes)
    ensures Get32(Put32(v) + rest) == v
    ensures (Put32(v) + rest)[4..] == rest
  {
    var lo, hi := Put16(v % 0x1_0000), Put16(v / 0x1_0000);
    assert Put32(v) + rest == lo + (hi + rest);
    GetPut16(v % 0x1_0000, hi + rest);
    GetPut16(v / 0x1_0000, rest);
    assert (Put32(v) + rest)[2..] == hi + rest;
  }

  /** Reading on after reading i bytes. */
  lemma DropTwice(b: bytes, i: nat, j: nat)
    requires i + j <= |b|
    ensures b[i..][j..] == b[i + j..]
  {
  }

  /** Reading the next field of a buffer, in the place where it was put. */
  lemma Read16At(b: bytes, i: nat, v: u16, tail: bytes)
    requires i <= |b| && b[i..] == Put16(v) + tail
    ensures |b| >= i + 2 && Get16(b[i..]) == v && b[i + 2..] == tail
  {
    GetPut16(v, tail);
    DropTwice(b, i, 2);
  }

  lemma Read32At(b: bytes, i: nat, v: u32, tail: bytes)
    requires i <= |b| && b[i..] == Put32(v) + tail
    ensures |b| >= i + 4 && Get32(b[i..]) == v && b[i + 4..] == tail
  {
    GetPut32(v, tail);
    DropTwice(b, i, 4);
  }

  lemma Associate7(a: bytes, b: bytes, c: bytes, d: bytes, e: bytes, f: bytes, g: bytes)
    ensures a + b + c + d + e + f + g == a + (b + (c + (d + (e + (f + g)))))
  {
    assert a + b + c + d + e + f + g == a + b + c + d + (e + (f + g));
    assert a + b + c + d + (e + (f + g)) == a + b + (c + (d + (e + (f + g))));
  }
}
