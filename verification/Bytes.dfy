/** Byte strings, and the result types shared by the modules. */
module Bytes {

  type byte = x: int | 0 <= x < 256

  type Bytes = seq<byte>

  datatype Option<+T> = None | Some(value: T)

  /** A value, or the exception that was raised instead. */
  datatype Result<+T, +E> = Ok(value: T) | Err(error: E)

  function Zeros(n: nat): (z: Bytes)
    ensures |z| == n && forall k | 0 <= k < n :: z[k] == 0
  {
    seq(n, _ => 0)
  }

  // ---------------------------------------------------------------------
  // 4-byte big-endian unsigned integers
  // ---------------------------------------------------------------------

  const U32_LIMIT := 0x1_0000_0000

  function Pack(x: nat): (b: Bytes)
    requires x < U32_LIMIT
    ensures |b| == 4
  {
    [x / 0x100_0000, x / 0x1_0000 % 256, x / 256 % 256, x % 256]
  }

  function Unpack(b: Bytes): nat
    requires |b| == 4
  {
    b[0] as int * 0x100_0000 + b[1] as int * 0x1_0000 + b[2] as int * 256 + b[3] as int
  }

  lemma UnpackPack(x: nat)
    requires x < U32_LIMIT
    ensures Unpack(Pack(x)) == x
  {
    var q := x / 256;
    var r := q / 256;
    assert x / 0x1_0000 == r && x / 0x100_0000 == r / 256;
  }

  lemma PackUnpack(b: Bytes)
    requires |b| == 4
    ensures Unpack(b) < U32_LIMIT && Pack(Unpack(b)) == b
  {
    var x := Unpack(b);
    var r := b[0] as int * 256 + b[1] as int;
    var q := r * 256 + b[2] as int;
    assert x == q * 256 + b[3] as int;
    assert x / 256 == q && q / 256 == r && r / 256 == b[0];
    assert x / 0x1_0000 == r && x / 0x100_0000 == b[0];
  }
}
