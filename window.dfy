/** The window's frame buffer `BUFFER` (WIDTH * HEIGHT words): the draw
    callback `test_draw` the renderer's draw calls end in, and the loop
    that clears the frame. */
module Window {
  import opened Ints
  import opened Shared

  /** The frame after `test_draw(x, y, color)`: the word at x * WIDTH + y is
      replaced when that index is inside the frame; otherwise nothing
      changes. */
  function DrawOnto(frame: seq<u32>, d: Draw): (r: seq<u32>)
    requires |frame| == Width * Height
    ensures |r| == |frame|
    ensures var i := d.x * Width + d.y;
            forall j :: 0 <= j < |frame| ==> r[j] == if j == i then d.color else frame[j]
  {
    var i := d.x * Width + d.y;
    if i < Width * Height then frame[i := d.color] else frame
  }

  /** The frame after a log of draw calls, replayed in order. */
  function Replay(frame: seq<u32>, draws: seq<Draw>): (r: seq<u32>)
    requires |frame| == Width * Height
    ensures |r| == |frame|
    decreases |draws|
  {
    if |draws| == 0 then frame else Replay(DrawOnto(frame, draws[0]), draws[1..])
  }

  /** Draw call d targets word j of the frame. */
  predicate Targets(d: Draw, j: nat) {
    d.x * Width + d.y == j
  }

  /** Replaying a log leaves every word that no draw call targets as it was. */
  lemma {:induction false} ReplayUntouched(frame: seq<u32>, draws: seq<Draw>, j: nat)
    requires |frame| == Width * Height && j < |frame|
    requires forall k :: 0 <= k < |draws| ==> !Targets(draws[k], j)
    ensures Replay(frame, draws)[j] == frame[j]
    decreases |draws|
  {
    if |draws| > 0 {
      var next := DrawOnto(frame, draws[0]);
      assert !Targets(draws[0], j);
      forall m | 0 <= m < |draws[1..]|
        ensures !Targets(draws[1..][m], j)
      {
        assert draws[1..][m] == draws[m + 1];
      }
      ReplayUntouched(next, draws[1..], j);
    }
  }

  /** The word the k-th draw call targets holds that call's colour after the
      replay when no later call targets it: the last write wins. */
  lemma {:induction false} ReplayLastWins(frame: seq<u32>, draws: seq<Draw>, j: nat, k: nat)
    requires |frame| == Width * Height && j < |frame|
    requires k < |draws| && Targets(draws[k], j)
    requires forall m :: k < m < |draws| ==> !Targets(draws[m], j)
    ensures Replay(frame, draws)[j] == draws[k].color
    decreases |draws|
  {
    var next := DrawOnto(frame, draws[0]);
    forall m | k <= m < |draws[1..]|
      ensures !Targets(draws[1..][m], j)
    {
      assert draws[1..][m] == draws[m + 1];
    }
    if k == 0 {
      assert next[j] == draws[0].color;
      ReplayUntouched(next, draws[1..], j);
    } else {
      assert draws[1..][k - 1] == draws[k];
      ReplayLastWins(next, draws[1..], j, k - 1);
    }
  }

  /** `test_draw`: a bounds-checked write of one word into the frame. */
  method TestDraw(buffer: array<u32>, x: u16, y: u16, color: u32)
    requires buffer.Length == Width * Height
    modifies buffer
    ensures buffer[..] == DrawOnto(old(buffer[..]), Draw(x, y, color))
  {
    var index := x * Width + y;
    if index < Width * Height {
      buffer[x * Width + y] := color;
    }
  }

  /** The clear step of the frame loop: when `should_clear` is set every
      word becomes the clear colour, one index after the other; otherwise
      the frame is left alone. */
  method ClearFrame(state: State, buffer: array<u32>)
    modifies buffer
    ensures state.shouldClear ==> forall i :: 0 <= i < buffer.Length ==> buffer[i] == state.clearColor
    ensures !state.shouldClear ==> buffer[..] == old(buffer[..])
  {
    if state.shouldClear {
      for i := 0 to buffer.Length
        invariant forall k :: 0 <= k < i ==> buffer[k] == state.clearColor
      {
        buffer[i] := state.clearColor;
      }
    }
  }
}
