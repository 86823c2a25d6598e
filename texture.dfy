/** `Texture`: the decoded image as packed ARGB words and the lookup of a
    texel by texture coordinate, with magenta for a coordinate outside the
    data. */
module Textures {
  import opened Ints
  import opened LinAlg
  import Argb

  datatype Texture = Texture(width: nat, height: nat, data: seq<u32>, depth: nat)

  /** What the image decoder hands back: eight-bit samples (three per pixel
      for an RGB image), float samples, or an error. */
  datatype Image<T> = Image(width: nat, height: nat, depth: nat, data: seq<T>)
  datatype LoadResult = ImageU8(image: Image<u8>) | ImageF32(floats: Image<real>) | Error(message: string)

  datatype Result<T> = Ok(value: T) | Err(error: string)

  /** The conversion inside `load`: every full group of three samples becomes
      one opaque ARGB word; a trailing partial group is dropped. */
  function Decode(bytes: seq<u8>): (words: seq<u32>)
    ensures |words| == |bytes| / 3
    ensures forall i :: 0 <= i < |words| ==>
              Argb.ByteOf(words[i], 3) == 255 && Argb.ByteOf(words[i], 2) == bytes[3 * i]
              && Argb.ByteOf(words[i], 1) == bytes[3 * i + 1] && Argb.ByteOf(words[i], 0) == bytes[3 * i + 2]
  {
    seq(|bytes| / 3, i requires 0 <= i < |bytes| / 3 =>
      OpaqueWord(bytes[3 * i], bytes[3 * i + 1], bytes[3 * i + 2]))
  }

  /** The opaque word of one RGB triple, with its bytes read back. */
  function OpaqueWord(r: u8, g: u8, b: u8): (w: u32)
    ensures w == Argb.ToArgb8(255, r, g, b)
    ensures Argb.ByteOf(w, 3) == 255 && Argb.ByteOf(w, 2) == r
            && Argb.ByteOf(w, 1) == g && Argb.ByteOf(w, 0) == b
  {
    Argb.ToArgb8Bytes(255, r, g, b);
    Argb.ToArgb8(255, r, g, b)
  }

  /** The red, green and blue bytes of a run of words, in order. */
  function RgbBytes(words: seq<u32>): seq<u8> {
    if |words| == 0 then []
    else [Argb.ByteOf(words[0], 2), Argb.ByteOf(words[0], 1), Argb.ByteOf(words[0], 0)] + RgbBytes(words[1..])
  }

  /** The decoded words give back the samples they were made of, with any
      trailing partial group dropped. */
  lemma {:induction false} DecodeRoundTrip(bytes: seq<u8>)
    ensures RgbBytes(Decode(bytes)) == bytes[..|bytes| / 3 * 3]
    decreases |bytes|
  {
    if |bytes| >= 3 {
      var rest := bytes[3..];
      DecodeRoundTrip(rest);
      DecodeFirst(bytes);
      assert RgbBytes(Decode(bytes)) == [bytes[0], bytes[1], bytes[2]] + RgbBytes(Decode(rest));
      assert |bytes| / 3 * 3 == 3 + |rest| / 3 * 3;
      assert bytes[..|bytes| / 3 * 3] == bytes[..3] + rest[..|rest| / 3 * 3];
    }
  }

  /** Decoding takes the first triple off the front. */
  lemma DecodeFirst(bytes: seq<u8>)
    requires |bytes| >= 3
    ensures Decode(bytes) == [OpaqueWord(bytes[0], bytes[1], bytes[2])] + Decode(bytes[3..])
  {
    var d, e := Decode(bytes), Decode(bytes[3..]);
    forall k | 0 <= k < |e|
      ensures d[k + 1] == e[k]
    {
      assert 3 * (k + 1) == 3 * k + 3;
    }
  }

  /** `load`, given what the decoder returned: an eight-bit image becomes a
      texture of the same size whose data is the decoded words; anything
      else is the error "Unsupported texture type". */
  function Load(decoded: LoadResult): (r: Result<Texture>)
    ensures r.Err? <==> !decoded.ImageU8?
    ensures r.Err? ==> r.error == "Unsupported texture type"
    ensures r.Ok? ==> r.value.width == decoded.image.width && r.value.height == decoded.image.height
                      && r.value.depth == decoded.image.depth
                      && r.value.data == Decode(decoded.image.data)
                      && |r.value.data| == |decoded.image.data| / 3
  {
    if decoded.ImageU8? then
      var image := decoded.image;
      Ok(Texture(image.width, image.height, Decode(image.data), image.depth))
    else
      Err("Unsupported texture type")
  }

  /** `coords_to_index`: both coordinates truncated, the first scaled by the
      height. While the second fits below the height, the index is a
      row-major index that gives both truncated coordinates back. */
  function CoordsToIndex(coord: Vec2, height: nat): (n: nat)
    ensures TruncUsize(coord.y) < height ==>
              n / height == TruncUsize(coord.x) && n % height == TruncUsize(coord.y)
  {
    var a, b := TruncUsize(coord.x), TruncUsize(coord.y);
    if b < height then
      DivModOfIndex(a, b, height);
      a * height + b
    else
      a * height + b
  }

  /** The colour returned for a coordinate outside the data: opaque magenta. */
  const Missing: u32 := Argb.ToArgb8(255, 255, 0, 255)

  /** `argb_at_uv`: the texture coordinate scaled by the texture size picks
      a word of the data; an index past the end gives `Missing`. The result
      is a texel or `Missing`, and nothing is indexed out of range. */
  function ArgbAtUv(t: Texture, u: real, v: real): (w: u32)
    ensures var id := CoordsToIndex(Vec2(u * t.width as real, v * t.height as real), t.height);
            (id < |t.data| ==> w == t.data[id]) && (id >= |t.data| ==> w == Missing)
  {
    var uv := Vec2(u * t.width as real, v * t.height as real);
    var id := CoordsToIndex(uv, t.height);
    if id < |t.data| then t.data[id] else Missing
  }

  /** Any coordinate below one in both directions lands inside a texture
      whose data holds width * height words, so the sentinel is never
      returned for it. */
  lemma InsideCoordinateHitsTexel(t: Texture, u: real, v: real)
    requires t.width > 0 && t.height > 0 && |t.data| == t.width * t.height
    requires u < 1.0 && v < 1.0
    ensures CoordsToIndex(Vec2(u * t.width as real, v * t.height as real), t.height) < |t.data|
  {
    var a := TruncUsize(u * t.width as real);
    var b := TruncUsize(v * t.height as real);
    BelowOne(u, t.width);
    BelowOne(v, t.height);
    assert a <= t.width - 1 && b <= t.height - 1;
    assert a * t.height <= (t.width - 1) * t.height by {
      MulMono(a, t.width - 1, t.height);
    }
    assert (t.width - 1) * t.height == t.width * t.height - t.height;
  }

  /** Truncating u * n for u below one gives at most n - 1. */
  lemma BelowOne(u: real, n: nat)
    requires n > 0 && u < 1.0
    ensures TruncUsize(u * n as real) < n
  {
    if u <= 0.0 {
      assert u * n as real <= 0.0;
    } else {
      assert u * n as real < n as real;
    }
  }

  lemma MulMono(a: nat, b: nat, c: nat)
    requires a <= b
    ensures a * c <= b * c
  {
  }

  /** Every colour sampled from a loaded texture is opaque. */
  lemma LoadedTexelsOpaque(decoded: LoadResult, u: real, v: real)
    requires Load(decoded).Ok?
    ensures Argb.ByteOf(ArgbAtUv(Load(decoded).value, u, v), 3) == 255
  {
    var t := Load(decoded).value;
    DecodeRoundTrip(decoded.image.data);
    Argb.ToArgb8Bytes(255, 255, 0, 255);
  }
}
