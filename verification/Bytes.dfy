/** Bytes and the big-endian integers of isc/buffer.h. */
module Bytes {

  type byte = b: int | 0 <= b < 256

  type u16 = x: int | 0 <= x < 0x10000

  type u32 = x: int | 0 <= x < 0x1_0000_0000

  datatype Option<+T> = None | Some(value: T)

  function PutU16(x: u16): (b: seq<byte>)
    ensures |b| == 2
  {
    [x / 0x100, x % 0x100]
  }

  function PutU32(x: u32): (b: seq<byte>)
    ensures |b| == 4
  {
    PutU16(x / 0x10000) + PutU16(x % 0x10000)
  }

  function GetU16(m: seq<byte>, at: nat): u16
    requires at + 2 <= |m|
  {
    m[at] as int * 0x100 + m[at + 1] as int
  }

  function GetU32(m: seq<byte>, at: nat): u32
    requires at + 4 <= |m|
  {
    GetU16(m, at) * 0x10000 + GetU16(m, at + 2)
  }

  /** The message holds b from offset `at` on. */
  ghost predicate Holds(m: seq<byte>, at: nat, b: seq<byte>) {
    at + |b| <= |m| && forall i :: 0 <= i < |b| ==> m[at + i] == b[i]
  }

  lemma HoldsSplit(m: seq<byte>, at: nat, a: seq<byte>, b: seq<byte>)
    requires Holds(m, at, a + b)
    ensures Holds(m, at, a) && Holds(m, at + |a|, b)
  {
    forall i | 0 <= i < |a| ensures m[at + i] == a[i] {
      assert (a + b)[i] == a[i];
    }
    forall i | 0 <= i < |b| ensures m[at + |a| + i] == b[i] {
      assert (a + b)[|a| + i] == b[i];
    }
  }

  lemma U16RoundTrip(m: seq<byte>, at: nat, x: u16)
    requires Holds(m, at, PutU16(x))
    ensures GetU16(m, at) == x
  {
    assert m[at] == PutU16(x)[0] && m[at + 1] == PutU16(x)[1];
  }

  lemma U32RoundTrip(m: seq<byte>, at: nat, x: u32)
    requires Holds(m, at, PutU32(x))
    ensures GetU32(m, at) == x
  {
    HoldsSplit(m, at, PutU16(x / 0x10000), PutU16(x % 0x10000));
    U16RoundTrip(m, at, x / 0x10000);
    U16RoundTrip(m, at + 2, x % 0x10000);
  }
}
