/** The 8-bit-per-channel `Color` of the rusterizer crate and its operators.
    Channel arithmetic is on `u8`; an operation whose result would leave
    0..255 panics in a debug build, so its callers must rule that out. */
module Colors {
  import opened Ints
  import Argb

  datatype Color = Color(a: u8, r: u8, g: u8, b: u8) {

    /** Packs the colour into one word, alpha in the high byte. */
    function ToArgb8(): (w: u32)
      ensures Argb.ByteOf(w, 3) == a && Argb.ByteOf(w, 2) == r
      ensures Argb.ByteOf(w, 1) == g && Argb.ByteOf(w, 0) == b
    {
      Argb.ToArgb8Bytes(a, r, g, b);
      Argb.ToArgb8(a, r, g, b)
    }

    /** Splits a word into its four bytes, each extracted by a shift and a
        truncating cast to `u8`. */
    static function FromArgb8(w: u32): (c: Color)
      ensures c.a == Argb.ByteOf(w, 3) && c.r == Argb.ByteOf(w, 2)
      ensures c.g == Argb.ByteOf(w, 1) && c.b == Argb.ByteOf(w, 0)
    {
      Color(
        (w / 0x100_0000) % U8Limit,
        (w / 0x1_0000) % U8Limit,
        (w / 0x100) % U8Limit,
        w % U8Limit)
    }

    /** Channel-wise addition; no channel may overflow. Because none does,
        adding colours is adding their packed words: no carry crosses from
        one channel into the next. */
    function Add(other: Color): (c: Color)
      requires a + other.a < U8Limit && r + other.r < U8Limit
      requires g + other.g < U8Limit && b + other.b < U8Limit
      ensures c.ToArgb8() == ToArgb8() + other.ToArgb8()
    {
      Color(a + other.a, r + other.r, g + other.g, b + other.b)
    }

    /** `+=`: replaces the colour by the channel-wise sum. */
    function AddAssign(other: Color): (c: Color)
      requires a + other.a < U8Limit && r + other.r < U8Limit
      requires g + other.g < U8Limit && b + other.b < U8Limit
      ensures c == Add(other)
    {
      Color(a + other.a, r + other.r, g + other.g, b + other.b)
    }

    /** The `-` operator as written: it adds the channels. */
    function Sub(other: Color): (c: Color)
      requires a + other.a < U8Limit && r + other.r < U8Limit
      requires g + other.g < U8Limit && b + other.b < U8Limit
      ensures c == Add(other)
    {
      Color(a + other.a, r + other.r, g + other.g, b + other.b)
    }

    /** Channel-wise subtraction, which the `-` operator evidently means;
        it undoes `Add`. */
    function SubIntended(other: Color): (c: Color)
      requires other.a <= a && other.r <= r && other.g <= g && other.b <= b
      ensures c.a + other.a == a && c.r + other.r == r
      ensures c.g + other.g == g && c.b + other.b == b
      ensures c.Add(other) == this
    {
      Color(a - other.a, r - other.r, g - other.g, b - other.b)
    }

    /** Channel-wise multiplication. */
    function Mul(other: Color): (c: Color)
      requires a * other.a < U8Limit && r * other.r < U8Limit
      requires g * other.g < U8Limit && b * other.b < U8Limit
      ensures other.a > 0 && other.r > 0 && other.g > 0 && other.b > 0 ==> c.Div(other) == this
    {
      var c := Color(a * other.a, r * other.r, g * other.g, b * other.b);
      if other.a > 0 && other.r > 0 && other.g > 0 && other.b > 0 then
        DivMulCancel(a, other.a);
        DivMulCancel(r, other.r);
        DivMulCancel(g, other.g);
        DivMulCancel(b, other.b);
        c
      else
        c
    }

    /** Channel-wise integer division; a zero divisor channel panics. */
    function Div(other: Color): (c: Color)
      requires other.a > 0 && other.r > 0 && other.g > 0 && other.b > 0
      ensures c.a * other.a <= a < (c.a + 1) * other.a
      ensures c.r * other.r <= r < (c.r + 1) * other.r
      ensures c.g * other.g <= g < (c.g + 1) * other.g
      ensures c.b * other.b <= b < (c.b + 1) * other.b
    {
      Color(ChannelDiv(a, other.a), ChannelDiv(r, other.r), ChannelDiv(g, other.g), ChannelDiv(b, other.b))
    }
  }

  /** Integer division of one channel by another: the quotient is the
      largest multiple of the divisor not above the dividend. */
  function ChannelDiv(n: u8, m: u8): (q: u8)
    requires m > 0
    ensures q * m <= n < (q + 1) * m
  {
    DivisionFacts(n, m);
    MulAtLeast(m, n / m);
    n / m
  }

  /** Euclidean division facts for a positive divisor. */
  lemma DivisionFacts(n: nat, m: nat)
    requires m > 0
    ensures (n / m) * m <= n < (n / m + 1) * m
  {
    var q, r := n / m, n % m;
    assert n == q * m + r && 0 <= r < m;
    assert (q + 1) * m == q * m + m;
  }

  lemma DivMulCancel(x: nat, y: nat)
    requires y > 0
    ensures (x * y) / y == x
  {
    var q := (x * y) / y;
    var m := (x * y) % y;
    assert x * y == q * y + m;
    assert 0 <= m < y;
    if x > q {
      var k := x - q;
      assert k * y == m;
      MulAtLeast(k, y);
    }
  }

  lemma MulAtLeast(k: nat, y: nat)
    requires k >= 1
    ensures k * y >= y
  {
    assert k * y == (k - 1) * y + y;
  }

  /** Unpacking a packed colour gives the colour back. */
  lemma FromToArgb8(c: Color)
    ensures Color.FromArgb8(c.ToArgb8()) == c
  {
  }

  /** Packing an unpacked word gives the word back, for every word. */
  lemma ToFromArgb8(w: u32)
    ensures Color.FromArgb8(w).ToArgb8() == w
  {
    Argb.BytesToArgb8(w);
  }

  /** The `-` operator as written does not undo `+`: a colour minus itself
      is not black (compare `SubIntended`, whose contract says it does). */
  lemma SubDoesNotUndoAdd(c: Color)
    requires c == Color(0, 0, 0, 1)
    ensures c.Sub(c) != Color(0, 0, 0, 0)
  {
  }
}
