/** The types the window and the renderer library share: the frame size,
    the draw record a renderer emits, the pixel index maps and the shared
    `State`. */
module Shared {
  import opened Ints
  import opened LinAlg

  /** `WIDTH` and `HEIGHT` of the shared frame. */
  const Width: nat := 600
  const Height: nat := 600

  /** One call of `State::draw(x, y, color)`; the calls a renderer makes are
      modelled as a log of these records. */
  datatype Draw = Draw(x: u16, y: u16, color: u32)

  /** `coords_to_index`: both coordinates truncated to `usize`, the first
      one scaled by the frame width. While the second is a column of the
      frame, the index gives both truncated coordinates back. */
  function CoordsToIndex(coord: Vec2): (n: nat)
    ensures TruncUsize(coord.y) < Width ==>
              n / Width == TruncUsize(coord.x) && n % Width == TruncUsize(coord.y)
  {
    var a, b := TruncUsize(coord.x), TruncUsize(coord.y);
    if b < Width then
      DivModOfIndex(a, b, Width);
      a * Width + b
    else
      a * Width + b
  }

  /** `index_to_coords`: the first coordinate is the index divided by the
      width as a real number (so it carries a fraction), the second is the
      remainder. The first lies between the row number and the next one. */
  function IndexToCoords(p: nat): (c: Vec2)
    ensures (p / Width) as real <= c.x < (p / Width) as real + 1.0
    ensures c.y == (p % Width) as real
  {
    var q, r := p / Width, p % Width;
    assert p as real == q as real * 600.0 + r as real;
    Vec2(p as real / Width as real, r as real)
  }

  /** The first coordinate `index_to_coords` produces is the row number plus
      a fraction below 1, not the row number itself. */
  lemma IndexToCoordsFraction(p: nat)
    ensures IndexToCoords(p).x == (p / Width) as real + (p % Width) as real / Width as real
  {
    var q, r := p / Width, p % Width;
    assert p == q * Width + r;
    assert p as real == q as real * 600.0 + r as real;
  }

  /** Every index survives the trip through `index_to_coords` and back: the
      truncation in `coords_to_index` removes the fraction again. */
  lemma IndexCoordsRoundTrip(p: nat)
    ensures CoordsToIndex(IndexToCoords(p)) == p
  {
    var q, r := p / Width, p % Width;
    IndexToCoordsFraction(p);
    var n := TruncUsize(IndexToCoords(p).x);
    if p < Width {
      assert q == 0;
    } else {
      assert n as real <= IndexToCoords(p).x < n as real + 1.0;
      assert n == q;
    }
    assert TruncUsize((p % Width) as real) == r;
  }

  /** The centre of pixel (x, y) has index x * WIDTH + y. */
  lemma PixelCentreIndex(x: nat, y: nat)
    ensures CoordsToIndex(Vec2(x as real + 0.5, y as real + 0.5)) == x * Width + y
  {
    TruncPixelCentre(x);
    TruncPixelCentre(y);
  }

  /** The part of the shared `State` the model needs: the fields the window
      sets up and `set_clear_color` updates. */
  class State {
    var version: u32
    var timePassed: real
    var shouldClear: bool
    var clearColor: u32

    /** `set_clear_color`: stores the colour; nothing else changes. */
    method SetClearColor(color: u32)
      modifies this
      ensures clearColor == color
      ensures version == old(version) && timePassed == old(timePassed) && shouldClear == old(shouldClear)
    {
      clearColor := color;
    }
  }
}
