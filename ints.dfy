/** Fixed-width integers of the source and the casts between them and `f32`
    (modelled as `real`). */
module Ints {

  const U8Limit: int := 0x100
  const U16Limit: int := 0x1_0000
  const U32Limit: int := 0x1_0000_0000

  type u8 = x: int | 0 <= x < U8Limit
  type u16 = x: int | 0 <= x < U16Limit
  type u32 = x: int | 0 <= x < U32Limit

  /** `r as usize` for a float: truncation toward zero, saturating at 0
      (the upper saturation at usize::MAX is not modelled). */
  function TruncUsize(r: real): (n: nat)
    ensures r <= 0.0 ==> n == 0
    ensures 0.0 < r ==> n as real <= r < n as real + 1.0
  {
    if r <= 0.0 then 0 else r.Floor
  }

  /** `r.ceil() as usize`: rounding up, saturating at 0. */
  function CeilUsize(r: real): (n: nat)
    ensures r <= 0.0 ==> n == 0
    ensures 0.0 < r ==> r <= n as real < r + 1.0
  {
    if r <= 0.0 then 0 else if r.Floor as real == r then r.Floor else r.Floor + 1
  }

  /** `n as u16` for an unsigned integer: keeps the low 16 bits. */
  function UsizeToU16(n: nat): (r: u16)
    ensures n < U16Limit ==> r == n
  {
    n % U16Limit
  }

  /** `r as u16` for a float: truncation, saturating at 0 and at 65535. */
  function F32ToU16(r: real): (v: u16)
    ensures r <= 0.0 ==> v == 0
    ensures 0.0 < r < U16Limit as real ==> v == TruncUsize(r)
  {
    if r <= 0.0 then 0
    else if r >= (U16Limit - 1) as real then U16Limit - 1
    else r.Floor
  }

  /** A row-major index `a * h + b` with `b < h` gives back its row and column. */
  lemma DivModOfIndex(a: nat, b: nat, h: nat)
    requires b < h
    ensures (a * h + b) / h == a && (a * h + b) % h == b
  {
    var n := a * h + b;
    var q, r := n / h, n % h;
    assert (q - a) * h == b - r;
    if q > a {
      MulAtLeastFactor(q - a, h);
      assert false;
    } else if q < a {
      MulAtLeastFactor(a - q, h);
      assert false;
    }
  }

  lemma MulAtLeastFactor(k: int, h: nat)
    requires k >= 1
    ensures k * h >= h
  {
  }

  /** Truncating a whole number shifted by less than one gives the number back;
      this is how a pixel centre `x + 0.5` maps back to column `x`. */
  lemma TruncPixelCentre(x: nat)
    ensures TruncUsize(x as real + 0.5) == x
  {
  }
}
