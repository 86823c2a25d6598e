/** Packing four 8-bit channels into one 32-bit ARGB word, high byte first. */
module Argb {
  import opened Ints

  /** `x << 8` on a `u32`: the bits shifted past bit 31 are lost. */
  function Shl8(x: u32): (r: u32)
    ensures x < 0x100_0000 ==> r == x * 0x100
  {
    (x * 0x100) % U32Limit
  }

  /** `to_argb8(a, r, g, b)`: start from `a`, then three times shift left by
      eight bits and add the next channel. Each addition is checked not to
      overflow `u32` (the source would panic in a debug build). */
  function ToArgb8(a: u8, r: u8, g: u8, b: u8): (w: u32)
    ensures w == a * 0x100_0000 + r * 0x1_0000 + g * 0x100 + b
  {
    var w0: u32 := a;
    var w1: u32 := Shl8(w0) + r;
    var w2: u32 := Shl8(w1) + g;
    var w3: u32 := Shl8(w2) + b;
    w3
  }

  /** Byte `k` of a word, counting from the least significant (k = 0 is blue,
      k = 3 is alpha). */
  function ByteOf(w: u32, k: nat): (v: u8)
    requires k < 4
    ensures k == 3 ==> v == w / 0x100_0000
  {
    if k == 0 then w % 0x100
    else if k == 1 then (w / 0x100) % 0x100
    else if k == 2 then (w / 0x1_0000) % 0x100
    else (w / 0x100_0000) % 0x100
  }

  /** Every channel can be read back from the packed word: the packing is
      injective and puts a, r, g, b in bytes 3, 2, 1, 0. */
  lemma ToArgb8Bytes(a: u8, r: u8, g: u8, b: u8)
    ensures ByteOf(ToArgb8(a, r, g, b), 3) == a
    ensures ByteOf(ToArgb8(a, r, g, b), 2) == r
    ensures ByteOf(ToArgb8(a, r, g, b), 1) == g
    ensures ByteOf(ToArgb8(a, r, g, b), 0) == b
  {
    var w := ToArgb8(a, r, g, b);
    var mid := a * 0x100 + r;
    var hi := mid * 0x100 + g;
    assert w == hi * 0x100 + b;
    assert w / 0x100 == hi && w % 0x100 == b;
    assert hi / 0x100 == mid && hi % 0x100 == g;
    assert mid / 0x100 == a && mid % 0x100 == r;
    assert w / 0x1_0000 == mid;
    assert w / 0x100_0000 == a;
  }

  /** Any word is the packing of its four bytes. */
  lemma BytesToArgb8(w: u32)
    ensures ToArgb8(ByteOf(w, 3), ByteOf(w, 2), ByteOf(w, 1), ByteOf(w, 0)) == w
  {
    var q1 := w / 0x100;
    var q2 := q1 / 0x100;
    var q3 := q2 / 0x100;
    assert w == q1 * 0x100 + w % 0x100;
    assert q1 == q2 * 0x100 + q1 % 0x100;
    assert q2 == q3 * 0x100 + q2 % 0x100;
    assert w / 0x1_0000 == q2;
    assert w / 0x100_0000 == q3;
    assert q3 < 0x100;
  }
}
