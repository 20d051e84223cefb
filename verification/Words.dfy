/** Bytes, 32-bit words and the little-endian layout both ends of the shared buffer use. */
module Words {

  type byte = x: int | 0 <= x < 0x100
  type u32 = x: int | 0 <= x < 0x1_0000_0000

  const U32_MAX: u32 := 0xFFFF_FFFF

  /** What is left of an integer stored in a `uint32_t`. */
  function Wrap32(x: int): u32 {
    x % 0x1_0000_0000
  }

  function Le32(x: u32): (b: seq<byte>)
    ensures |b| == 4
  {
    [x % 0x100, x / 0x100 % 0x100, x / 0x1_0000 % 0x100, x / 0x100_0000]
  }

  function FromLe32(b: seq<byte>): u32
    requires |b| == 4
  {
    b[0] as int + 0x100 * b[1] as int + 0x1_0000 * b[2] as int + 0x100_0000 * b[3] as int
  }

  lemma Le32RoundTrip(x: u32)
    ensures FromLe32(Le32(x)) == x
  {
    var h1 := x / 0x100;
    assert x == 0x100 * h1 + x % 0x100;
    var h2 := h1 / 0x100;
    assert h1 == 0x100 * h2 + h1 % 0x100;
    assert h2 == x / 0x1_0000;
    assert h2 == 0x100 * (h2 / 0x100) + h2 % 0x100;
    assert h2 / 0x100 == x / 0x100_0000;
  }

  /** `s'` is `s` with `data` written over it at `off`. */
  ghost predicate Spliced(s: seq<byte>, s': seq<byte>, off: nat, data: seq<byte>) {
    && |s'| == |s| && off + |data| <= |s|
    && forall k :: 0 <= k < |s| ==> s'[k] == if off <= k < off + |data| then data[k - off] else s[k]
  }
}
