# rusterizer core, modelled in Dafny

rusterizer is a small software rasterizer written in Rust. A window
program owns a 600 x 600 frame of packed ARGB words and hands a shared
`State` to a hot-reloaded renderer library. The renderer transforms mesh
triangles to clip space. It culls and clips them against the near plane,
scans each triangle's clamped screen bounding box with a barycentric
inside test and a depth buffer, and reports every pixel it colours through
`State::draw(x, y, color)`. An older stand-alone program (`src/`) draws
into its own 640 x 640 buffer. It has a Bresenham line plotter and a first
`draw_triangle` that samples a texture.

This project models that core:

- **Clipping and culling.** `clip_cull_triangle`, with the frustum and
  backface tests, the classification of vertices behind the near plane,
  and the one- and two-vertex clips.
- **The rasterizer loops.** `draw_triangle_clipped`, written as methods
  over an in-place depth buffer. They are proved equal to a functional
  fold, and facts are proved about that fold.
- **Integer pixel plumbing.** ARGB packing, the index maps, `test_draw`,
  the frame clear loop, and texture decoding and lookup.
- **Bresenham.** The line plotter, in both its draw-log form (renderer
  library) and its buffer form (stand-alone program).
- **Vertex, Triangle, Mesh, Color and BoundingBox2D.**
- **The old `draw_triangle`** of `src/geometry.rs`.

Numbers follow the source's types.

- `f32` is modelled as `real`, and `u8`, `u16` and `u32` as bounded
  integers (module `Ints`).
- A cast `as usize` truncates toward zero and saturates at 0 (`TruncUsize`).
- `usize as u16` wraps modulo 2^16 (`UsizeToU16`).
- `f32 as u16` truncates and saturates (`F32ToU16`).
- A `<< 8` on `u32` wraps modulo 2^32 (`Argb.Shl8`).

A Rust panic (an index out of range, an integer overflow in a debug build)
or a division by zero becomes a precondition. The window's `draw_fn`
callback is modelled as a log of `Draw` records, and `Window.Replay`
applies such a log to a frame.

Several functions exist in identical copies and are each modelled once:

- `to_argb8` is in `rusterizer/src/utils.rs`, `window/shared/src/lib.rs`,
  `src/utils.rs` and `src/main.rs`.
- `edge_function_cw`, `index_to_coords` and the `plotline` functions are in
  both `src/utils.rs` and `src/main.rs`.
- `Vertex` and its operators are in `rusterizer/src/geometry.rs` and
  `window/shared/src/mesh.rs`.

One module per source unit: `Ints`, `LinAlg` (the glam vectors used),
`Argb`, `Colors`, `Vertices`, `Triangles`, `Utils`, `Bounds`, `Clip`,
`Rasterizer`, `RasterFacts`, `Bresenham`, `PlotDraw`, `PlotBuffer`,
`Shared`, `Window`, `Textures`, `Meshes`, `Standalone` and `OldRaster`.

## Model

| member | source | states |
|---|---|---|
| Argb.Shl8 | rusterizer/src/utils.rs:73 | shifting a word whose top byte is free left by 8 multiplies it by 256 (no bit is lost) |
| Argb.ToArgb8 | rusterizer/src/utils.rs:71-77 | the packed word is a * 2^24 + r * 2^16 + g * 2^8 + b |
| Argb.ToArgb8Bytes | rusterizer/src/utils.rs:71-77 | each of the four input bytes can be read back from its own byte of the packed word |
| Argb.BytesToArgb8 | rusterizer/src/utils.rs:71-77 | packing the four bytes of any word gives back that word, so packing is a bijection |
| Ints.TruncUsize | window/shared/src/lib.rs:45 | `as usize` is 0 for non-positive input and otherwise the largest whole number not above the input |
| Ints.UsizeToU16 | rusterizer/src/geometry.rs:480 | `as u16` keeps every value below 2^16 unchanged |
| Ints.F32ToU16 | rusterizer/src/utils.rs:18 | a float cast to `u16` is 0 when non-positive and its truncation when inside the range |
| Colors.Color.ToArgb8 | rusterizer/src/color.rs:12-18 | alpha, red, green and blue land in bytes 3, 2, 1 and 0 of the word |
| Colors.Color.FromArgb8 | rusterizer/src/color.rs:19-26 | each channel is the matching byte of the word |
| Colors.FromToArgb8 | rusterizer/src/color.rs:12-26 | unpacking a packed colour gives the colour back |
| Colors.ToFromArgb8 | rusterizer/src/color.rs:12-26 | packing an unpacked word gives the word back |
| Colors.Color.AddAssign | rusterizer/src/color.rs:41-50 | `+=` leaves the same colour as `+` |
| Colors.Color.Add | rusterizer/src/color.rs:29-39 | when no channel overflows, the packed word of the sum is the sum of the two packed words: no carry crosses from one channel into the next |
| Colors.Color.Sub | rusterizer/src/color.rs:52-63 | the `-` operator as written equals `+` |
| Colors.SubDoesNotUndoAdd | rusterizer/src/color.rs:52-63 | a colour minus itself under the written `-` is not the zero colour |
| Colors.Color.SubIntended | rusterizer/src/color.rs:52-63 | channel-wise difference, and adding the subtrahend back restores the colour |
| Colors.Color.Mul | rusterizer/src/color.rs:65-75 | without overflow, dividing the product by a divisor that has no zero channel gives the colour back |
| Colors.Color.Div | rusterizer/src/color.rs:89-99 | each channel is the integer quotient: q * d <= n < (q + 1) * d |
| Colors.ChannelDiv | rusterizer/src/color.rs:93-96 | the quotient of one channel satisfies q * d <= n < (q + 1) * d |
| Vertices.MulAssign | rusterizer/src/geometry.rs:37-43 | `*=` leaves the same vertex as `*` |
| Vertices.Vertex.Mul | rusterizer/src/geometry.rs:22-35 | scaling by one leaves the vertex unchanged; scaling by zero clears position, colour and uv |
| Vertices.Vertex.Add | rusterizer/src/geometry.rs:45-58 | subtracting the addend from the sum gives the original vertex back |
| Vertices.Vertex.Sub | rusterizer/src/geometry.rs:60-73 | adding the subtrahend's position, colour and uv back to the difference restores each attribute |
| Vertices.SubThenAdd | rusterizer/src/geometry.rs:45-73 | vertex addition undoes vertex subtraction |
| Triangles.New | rusterizer/src/geometry.rs:92-94 | the second argument becomes v2 and the third v1, as the parameter list declares |
| Triangles.FromVertices | rusterizer/src/geometry.rs:95-101 | the triangle holds the three vertices in order |
| Triangles.Reorder | rusterizer/src/geometry.rs:107-116 | every order yields a permutation of the same three vertices |
| Triangles.ReorderEffect | rusterizer/src/geometry.rs:107-116 | ACB returns the triangle unchanged, BAC and CBA rotate it, and BCA and CAB exchange two vertices |
| Triangles.ReorderSignedArea | rusterizer/src/geometry.rs:107-116 | ABC, ACB, BAC and CBA keep the signed area; BCA and CAB negate it |
| Triangles.Transform | rusterizer/src/geometry.rs:102-106 | every position is replaced by its image under the matrix; colours and uvs are kept |
| Triangles.TransformCommutesWithReorder | rusterizer/src/geometry.rs:102-116 | transforming then re-ordering equals re-ordering then transforming |
| Utils.EdgeFunctionCw | rusterizer/src/utils.rs:67-69 | the edge function vanishes when the point is either end of the edge |
| Utils.Barycentric | rusterizer/src/utils.rs:79-96 | a result exists exactly when all three sub-areas are strictly positive; it is the sub-areas divided by the area |
| Utils.SubAreasSum | rusterizer/src/utils.rs:79-96 | the three sub-areas of any point add up to the triangle's area |
| Utils.BarycentricWeights | rusterizer/src/utils.rs:79-96 | with the triangle's own area, the weights are positive and sum to one |
| Utils.BarycentricBlend | rusterizer/src/utils.rs:79-96 | the weights reproduce the point as a blend of the three corners |
| Utils.Lerp | rusterizer/src/utils.rs:98-106 | `lerp` gives `min` at t = 0 and `max` at t = 1 |
| Utils.LerpOntoPlane | rusterizer/src/geometry.rs:235-239 | interpolating by -z0 / (z1 - z0) lands on z = 0, at a fraction in [0, 1] when the ends straddle the plane |
| Utils.MapToRange | rusterizer/src/utils.rs:108-117 | `map_to_range` sends a1 to b1 and a2 to b2 |
| Utils.MapToRangeInverse | rusterizer/src/utils.rs:108-117 | mapping back from [b1, b2] to [a1, a2] returns the original value |
| Bounds.TriangleBounds | rusterizer/src/geometry.rs:561-572 | the box contains all three points and each bound is attained by one of them |
| Bounds.ClampBox | rusterizer/src/geometry.rs:574-587 | each bound is raised to the lower limit or lowered to the upper limit, and is otherwise kept |
| Bounds.ClampShrinksAndSettles | rusterizer/src/geometry.rs:574-587 | clamping only shrinks the box, keeps it within the limits, and is idempotent |
| Bounds.BlendInBounds | rusterizer/src/geometry.rs:561-572 | every convex blend of the three points lies in their bounding box |
| Bounds.BoundingBox2D.constructor | rusterizer/src/geometry.rs:557-559 | the new box has the given corners |
| Bounds.BoundingBox2D.FromTriangle | rusterizer/src/geometry.rs:561-572 | the new box is the bounding box of the three points |
| Bounds.BoundingBox2D.Clamp | rusterizer/src/geometry.rs:574-587 | the corners, updated field by field, become the clamped box |
| Clip.CullTriangleViewFrustum | rusterizer/src/geometry.rs:125-172 | culled exactly when all three vertices are outside one plane, or all have negative z |
| Clip.FrustumCullIsSound | rusterizer/src/geometry.rs:125-172 | when a triangle is culled, no convex blend of its corners is visible |
| Clip.BlendOutside | rusterizer/src/geometry.rs:125-172 | a convex blend of three positions outside one plane is outside it |
| Clip.FrustumIgnoresRotation | rusterizer/src/geometry.rs:125-172 | a rotated triangle is culled by the frustum test exactly when the original is |
| Clip.CullTriangleBackface | rusterizer/src/geometry.rs:174-179 | culled exactly when the signed xy area is not negative |
| Clip.BackfaceIgnoresRotation | rusterizer/src/geometry.rs:174-179 | a rotated triangle has the same facing |
| Clip.ClipEvaluationOf | rusterizer/src/geometry.rs:188-232 | the classification names exactly the vertices with z <= 0, with indices in increasing order |
| Clip.EvaluateClipVertices | rusterizer/src/geometry.rs:188-232 | the counting loop returns the classification |
| Clip.ClipTriangleOneNegative | rusterizer/src/geometry.rs:234-250 | two triangles sharing the new v0; the new vertices lie on z = 0 and v1, v2 are kept |
| Clip.ClipTriangleTwoNegatives | rusterizer/src/geometry.rs:252-264 | v2 is kept and the two new vertices lie on z = 0 |
| Clip.ClipCullTriangle | rusterizer/src/geometry.rs:266-313 | culled exactly when either test culls; one behind gives two triangles, two behind give one, otherwise the input is returned |
| Clip.OneNegativeDispatch | rusterizer/src/geometry.rs:278-290 | with one vertex behind, the clip is applied to a rotation that puts that vertex first |
| Clip.ClipCullTriangleInFront | rusterizer/src/geometry.rs:278-295 | for one vertex behind and for TwoNegative(0, 1), every output vertex has z >= 0 |
| Clip.TwoNegativeKeepsBehindVertex | rusterizer/src/geometry.rs:297-304 | for TwoNegative(0, 2) and (1, 2) the output keeps a vertex with z <= 0 as v2 |
| Clip.TwoNegativeCounterexample | rusterizer/src/geometry.rs:297-304 | a concrete triangle whose clipped output has a vertex behind the near plane |
| Clip.ClipCullTriangleIntended | rusterizer/src/geometry.rs:266-313 | as the source, but every output of a triangle not entirely behind lies in front of the near plane |
| Clip.IntendedAgreesElsewhere | rusterizer/src/geometry.rs:266-313 | the corrected clip differs from the written one only for TwoNegative(0, 2) and (1, 2) |
| Clip.AllNegativeReturnedUnclipped | rusterizer/src/geometry.rs:306-312 | a triangle classified all-behind that survives culling is returned as it is, and it touches z = 0 |
| Rasterizer.ScreenPoint | rusterizer/src/geometry.rs:442-453 | the corners of the device square map to the corners of the viewport, y flipped |
| Rasterizer.PerspectiveDivide | rusterizer/src/geometry.rs:426-439 | for a non-zero w, 1/w times w is one with the sign of w, and the divided vertex has w = 1 and the divided position |
| Rasterizer.SceneOf | rusterizer/src/geometry.rs:426-453 | each 1/w times its w is one and has the sign of w; every divided vertex has w = 1; the screen points are the viewport images of the divided positions |
| Rasterizer.Coverage | rusterizer/src/geometry.rs:462-470 | a covered pixel centre gets positive weights that sum to one |
| Rasterizer.CoverageBlend | rusterizer/src/geometry.rs:462-470 | the weights of a covered pixel blend the three screen points into the pixel centre |
| Rasterizer.DrawAt | rusterizer/src/geometry.rs:472-480 | the depth of a covered pixel is positive; the draw call lands on (x, y) when both fit in `u16` and carries the shader's colour for the weights and the correction 1/depth |
| Rasterizer.Depth | rusterizer/src/geometry.rs:472-473 | with positive weights and positive 1/w the depth is positive |
| Rasterizer.CoveredDepthPositive | rusterizer/src/geometry.rs:469-474 | the depth at a covered pixel is positive, so the correction 1/depth is defined |
| Rasterizer.PixelStep | rusterizer/src/geometry.rs:461-482 | one inner-loop step keeps the length of the depth buffer |
| Rasterizer.ScanRow | rusterizer/src/geometry.rs:460-483 | the inner loop keeps the length of the depth buffer |
| Rasterizer.ScanRows | rusterizer/src/geometry.rs:459-484 | the outer loop keeps the length of the depth buffer |
| Rasterizer.Rasterize | rusterizer/src/geometry.rs:419-485 | drawing a triangle keeps the length of the depth buffer |
| Rasterizer.DrawPixel | rusterizer/src/geometry.rs:461-482 | the in-place step leaves the depth buffer and draw log of `PixelStep` |
| Rasterizer.DrawRow | rusterizer/src/geometry.rs:460-483 | the in-place inner loop leaves the depth buffer and draw log of `ScanRow` |
| Rasterizer.DrawRows | rusterizer/src/geometry.rs:459-484 | the in-place outer loop leaves the depth buffer and draw log of `ScanRows` |
| Rasterizer.DrawTriangleClipped | rusterizer/src/geometry.rs:419-485 | the whole routine leaves the depth buffer and draw log of `Rasterize` |
| RasterFacts.IndexOfPixel | window/shared/src/lib.rs:44-46 | pixel (x, y) with y < WIDTH has index x * WIDTH + y, and no other pixel has it |
| RasterFacts.PixelStepEffect | rusterizer/src/geometry.rs:461-482 | one step lowers the depth of its own pixel to the minimum, and draws exactly when the pixel is hit |
| RasterFacts.PixelStepDraws | rusterizer/src/geometry.rs:461-482 | one step appends a draw call exactly when the pixel is covered and passes the depth test |
| RasterFacts.ScanRowLowers | rusterizer/src/geometry.rs:460-483 | each pixel of the row gets the smaller of its stored depth and the triangle's depth; others are unchanged |
| RasterFacts.ScanRowDraws | rusterizer/src/geometry.rs:460-483 | the row appends exactly the draw calls of its hit pixels, in column order |
| RasterFacts.ScanRowsLowers | rusterizer/src/geometry.rs:459-484 | after the loop nest each pixel of the rectangle holds the minimum depth; the rest is unchanged |
| RasterFacts.ScanRowsDraws | rusterizer/src/geometry.rs:459-484 | the loop nest appends the draw calls of the hit pixels, row by row |
| RasterFacts.ScanRowsEffect | rusterizer/src/geometry.rs:459-484 | both of the above for the whole loop nest |
| RasterFacts.RasterizeEffect | rusterizer/src/geometry.rs:419-485 | a drawn triangle lowers the depth buffer over its truncated, clamped box and logs its hit pixels |
| RasterFacts.MissedPixelKeepsDepth | rusterizer/src/geometry.rs:459-460 | a concrete triangle covers pixel (10, 10), yet the truncated loop bounds skip it and its depth is unchanged |
| RasterFacts.RasterizeIntended | rusterizer/src/geometry.rs:419-485 | the corrected rasterizer keeps the length of the depth buffer |
| RasterFacts.ScanRectIntendedCovers | rusterizer/src/geometry.rs:456-460 | with upper bounds rounded up, every covered pixel inside the viewport is visited |
| RasterFacts.RasterizeIntendedLowers | rusterizer/src/geometry.rs:459-484 | the corrected loop nest lowers the depth buffer over the rounded-up box |
| RasterFacts.RasterizeIntendedComplete | rusterizer/src/geometry.rs:459-484 | every covered pixel ends with the minimum of its old depth and the triangle's depth |
| Bresenham.Path | rusterizer/src/utils.rs:17-25 | the loop plots one point per major coordinate from the start up to, not including, the end |
| Bresenham.PathStep | rusterizer/src/utils.rs:17-25 | the first plot is at the current position, and the rest is the path from the next position |
| Bresenham.LowLine | rusterizer/src/utils.rs:7-15 | the set-up of `plotline_low`: truncated x bounds, dy made non-negative with the sign moved into yi |
| Bresenham.HighLine | rusterizer/src/utils.rs:29-37 | the set-up of `plotline_high`: truncated y bounds, dx made non-negative with the sign moved into xi |
| Bresenham.PlotlineDispatch | rusterizer/src/utils.rs:51-65 | the low helper exactly for flat lines; endpoints swapped so the helper runs up its major axis |
| Bresenham.PathSteps | rusterizer/src/utils.rs:17-25 | plots advance one major step at a time, and the minor coordinate stays or moves by the increment |
| Bresenham.PathNearLine | rusterizer/src/utils.rs:17-25 | with the loop's error term kept in range, every plot is within half a step of the ideal line |
| Bresenham.Next | rusterizer/src/utils.rs:19-24 | the minor coordinate moves one step in the line's direction exactly when d is not negative; d grows by 2 * dMinor per step less 2 * dMajor per minor step |
| Bresenham.NextKeepsBounds | rusterizer/src/utils.rs:19-24 | one update of the decision variable keeps it in its range and keeps its relation to the offset |
| Bresenham.PlotlineNearLine | rusterizer/src/utils.rs:51-65 | `plotline` plots one point per major step, each within half a step of the line |
| PlotDraw.DrawOf | rusterizer/src/utils.rs:18-40 | the colour is passed through; a major coordinate below 2^16 and a minor coordinate in [0, 2^16) arrive on the helper's axes unchanged, the minor one truncated |
| PlotDraw.Render | rusterizer/src/utils.rs:17-18 | one draw call per plot |
| PlotDraw.PlotlineLow | rusterizer/src/utils.rs:6-26 | the loop issues exactly the draw calls of the Bresenham plots along x |
| PlotDraw.PlotlineHigh | rusterizer/src/utils.rs:28-48 | the loop issues exactly the draw calls of the Bresenham plots along y |
| PlotDraw.Plotline | rusterizer/src/utils.rs:51-65 | the draw calls of the dispatched helper's plots |
| PlotDraw.RenderAt | rusterizer/src/utils.rs:18 | the k-th draw call is the k-th plot, cast to `u16` |
| PlotDraw.LowDrawsStep | rusterizer/src/utils.rs:17-24 | x runs from the start one by one in the colour given, and y stays or moves by yi |
| PlotDraw.HighDrawsStep | rusterizer/src/utils.rs:39-46 | y runs from the start one by one in the colour given, and x stays or moves by xi |
| PlotBuffer.IndexOf | src/utils.rs:19-41 | the index of a plot, decoded by `index_to_coords`, gives back (x, truncated y) for the low helper when y < WIDTH, and (truncated x, y) for the high helper when y < WIDTH |
| PlotBuffer.Paint | src/utils.rs:18-19 | writing the plots keeps the buffer length |
| PlotBuffer.PaintEffect | src/utils.rs:18-19 | a written word holds the colour exactly when some plot indexes it; all other words are unchanged |
| PlotBuffer.PaintStep | src/utils.rs:18-19 | painting the first plot and then the rest equals painting all plots |
| PlotBuffer.PlotlineLow | src/utils.rs:7-27 | the loop leaves the buffer painted with the Bresenham plots along x |
| PlotBuffer.PlotlineHigh | src/utils.rs:29-49 | the loop leaves the buffer painted with the Bresenham plots along y |
| PlotBuffer.Plotline | src/utils.rs:52-66 | the buffer painted with the dispatched helper's plots |
| Shared.IndexToCoords | window/shared/src/lib.rs:40-42 | the first coordinate lies between the row p / WIDTH and the next row; the second is the column p % WIDTH |
| Shared.IndexToCoordsFraction | window/shared/src/lib.rs:40-42 | the first coordinate is exactly the row plus column / WIDTH, not the row itself |
| Shared.CoordsToIndex | window/shared/src/lib.rs:44-46 | when the truncated second coordinate is below WIDTH, dividing the index by WIDTH and taking the remainder give back both truncated coordinates |
| Shared.IndexCoordsRoundTrip | window/shared/src/lib.rs:40-46 | `coords_to_index(index_to_coords(p)) == p` for every index |
| Shared.PixelCentreIndex | window/shared/src/lib.rs:44-46 | the centre of pixel (x, y) has index x * WIDTH + y |
| Shared.State.SetClearColor | window/shared/src/lib.rs:35-37 | stores the colour and changes no other field |
| Window.DrawOnto | window/src/main.rs:12-19 | the word at x * WIDTH + y becomes the colour when in the frame; every other word is kept |
| Window.Replay | window/shared/src/lib.rs:32-34 | replaying draw calls keeps the frame size |
| Window.ReplayUntouched | window/shared/src/lib.rs:32-34 | a word that no draw call targets keeps its value |
| Window.ReplayLastWins | window/shared/src/lib.rs:32-34 | a targeted word holds the colour of the last draw call that targets it |
| Window.TestDraw | window/src/main.rs:12-19 | the buffer becomes the frame with that one draw applied |
| Window.ClearFrame | window/src/main.rs:59-65 | when clearing is requested every word becomes the clear colour, otherwise the buffer is unchanged |
| Textures.Decode | window/shared/src/texture.rs:19-28 | one word per whole RGB triple; word i is opaque and holds samples 3i, 3i + 1 and 3i + 2 as its red, green and blue bytes |
| Textures.DecodeRoundTrip | window/shared/src/texture.rs:19-28 | reading the red, green and blue bytes of the decoded words back gives the samples, with any trailing partial triple dropped |
| Textures.Load | window/shared/src/texture.rs:15-38 | an error exactly for non-`u8` images, with its message; otherwise the size fields are copied and the data is the decoded words, one per triple |
| Textures.CoordsToIndex | window/shared/src/texture.rs:40-42 | when the truncated second coordinate is below the height, dividing the index by the height and taking the remainder give back both truncated coordinates |
| Textures.ArgbAtUv | window/shared/src/texture.rs:40-52 | the texel at the truncated index when in range, opaque magenta otherwise |
| Textures.InsideCoordinateHitsTexel | window/shared/src/texture.rs:40-52 | for a full texture and u, v below one, the lookup index is in range |
| Textures.LoadedTexelsOpaque | window/shared/src/texture.rs:19-52 | every lookup in a loaded texture returns an opaque colour |
| Meshes.Lookup | window/shared/src/mesh.rs:90-96 | the three vertices named by the index triple, in order |
| Meshes.Mesh.constructor | window/shared/src/mesh.rs:74-80 | an empty mesh with the identity transform |
| Meshes.Mesh.GetTriangleVertices | window/shared/src/mesh.rs:90-96 | the three vertices the triangle's indices name |
| Meshes.Mesh.AddVertices | window/shared/src/mesh.rs:98-101 | both lists are appended, the argument vectors are emptied, and the transform is kept |
| Meshes.AppendKeepsLookups | window/shared/src/mesh.rs:98-101 | appending keeps every old triangle's vertices; the mesh stays well formed exactly when the new indices are in the grown pool |
| Meshes.AppendDoesNotRebase | window/shared/src/mesh.rs:98-101 | appended triangle indices are not rebased, so they name old vertices; rebased indices would name the appended ones |
| Standalone.DebugColorWord | src/main.rs:11-16 | the debug colour packs to 0xFFFF00FF |
| Standalone.IndexToCoords | src/utils.rs:72-74 | the pair (p / height, p % height) recomposes to p, with the second part below height |
| Standalone.BarycentricInclusive | src/utils.rs:84-101 | a result exists exactly when all sub-areas are non-negative; it is the sub-areas over the area |
| Standalone.InclusiveWidensStrict | src/utils.rs:84-101 | the inclusive test agrees with the strict one wherever the strict one succeeds, and also accepts a corner |
| OldRaster.DepthAsWritten | src/geometry.rs:35 | the written depth exceeds the weighted average of the three depths by b.z + z2 - b.z * z2 |
| OldRaster.DepthIntended | src/geometry.rs:35 | the interpolated depth of convex weights lies between the smallest and largest vertex depth |
| OldRaster.DepthAsWrittenLeavesRange | src/geometry.rs:35 | with equal weights and all depths 0 the written formula gives 1/3, outside the range [0, 0] |
| OldRaster.InclusiveWeights | src/geometry.rs:27-33 | inclusive weights are non-negative and sum to one |
| OldRaster.DrawTriangle | src/geometry.rs:13-44 | every buffer word ends as the per-pixel rule gives it: texel when covered and passing the depth test, else unchanged |
| OldRaster.PixelAfter | src/geometry.rs:26-41 | a word changes only if its point is covered with convex weights and passes the depth test; a covered point that passes the test holds the texel sampled at its blended uv |

## Left out

- `window/src/reload.rs`, `rusterizer/src/camera.rs`, `rusterizer/src/lib.rs` and the `main` functions are left out. They cover library hot-reload, the camera, the app's setup and update, window creation and event polling. `transform.rs` is not part of this model: a matrix is an abstract map on `Vec4`, and `Meshes.Transform` holds the matrix entries without interpreting them.
- The shaders `draw_texture` and `draw_vertex_color` (rusterizer/src/geometry.rs:361-417) are a function parameter `Shader` of the rasterizer. `draw_triangle` and `draw_mesh`, the drivers that transform, clip and call `draw_triangle_clipped`, are not modelled as methods. Their parts (`Transform`, `ClipCullTriangle`, `DrawTriangleClipped`) are.
- The texture sampler of `src/geometry.rs` is a parameter. The `Texture` type it uses is not defined in `src/`. That file passes a `(usize, usize)` tuple where a point is expected; it is modelled as the point with those coordinates.
- `Color` times or divided by an `f32` (rusterizer/src/color.rs:77-87, 101-111) is left out, because its float-to-`u8` rounding is not modelled.
- Floating-point rounding, NaN and infinity are not modelled; `f32` is an exact real. Saturation of `as usize` above `usize::MAX` is not modelled.
- Image decoding by `stb_image` is not modelled. `Textures.Load` takes the decoder's result as its input. `Texture::argb_at_uv` truncates its lookup coordinates, as the code does, where rounding to the nearest texel would be the other natural reading.
- `State` keeps only the fields the core reads or writes (`version`, `time_passed`, `should_clear`, `clear_color`). The mesh, texture and camera lists and the draw callback are left out. The callback is modelled as a log of `Draw` records.
- Rasterizer.DrawTriangleClipped, Rasterizer.Rasterize, Rasterizer.DrawRows, Rasterizer.DrawRow, Rasterizer.DrawPixel, Rasterizer.ScanRows, Rasterizer.ScanRow, Rasterizer.PixelStep, Rasterizer.DrawAt, Rasterizer.CoveredDepthPositive, RasterFacts.PixelStepEffect, RasterFacts.PixelStepDraws, RasterFacts.ScanRowLowers, RasterFacts.ScanRowDraws, RasterFacts.ScanRowsLowers, RasterFacts.ScanRowsDraws, RasterFacts.ScanRowsEffect, RasterFacts.RasterizeEffect, RasterFacts.MissedPixelKeepsDepth, RasterFacts.RasterizeIntended, RasterFacts.RasterizeIntendedLowers, RasterFacts.RasterizeIntendedComplete: require the scene to be `Rasterizable`, that is every w positive and the screen area non-zero. The source divides by both without a check. Positive w is a sufficient condition, chosen so that the depth at every covered pixel is positive and 1 / depth is defined there. The source also runs with a negative w: `Clip.AllNegativeReturnedUnclipped` and the TwoNegative outputs under "## Findings" can reach it. That case is not modelled.
- RasterFacts.RasterizeEffect: additionally requires the viewport height to be at most WIDTH. Above that, two pixels (x, y) and (x + 1, y - WIDTH) share an index and the per-pixel statement does not hold.
- PlotBuffer.PlotlineLow, PlotBuffer.PlotlineHigh and PlotBuffer.Plotline: require every plotted index to be inside the buffer. The source panics otherwise.
- Colors.Color.Add, Colors.Color.Sub and Colors.Color.Mul: require that no channel overflows. A debug build panics otherwise, and a release build wraps, which is not modelled.
- Colors.Color.Div: requires every divisor channel to be non-zero; the source panics otherwise.
- PlotDraw.LowDrawsStep and PlotDraw.HighDrawsStep: state the major coordinate of each draw call only when it fits in a `u16`. Above that, the `as u16` cast wraps.
- Clip.ClipTriangleOneNegative and Clip.ClipTriangleTwoNegatives: require the z values they divide by to differ.

## Findings

| source | as written | input that shows it | evidently intended | confidence | as-written member | corrected member |
|---|---|---|---|---|---|---|
| rusterizer/src/geometry.rs:297-304 | for TwoNegative(0, 2) and (1, 2) the triangle is re-ordered with ACB and BCA. Because `Triangle::new` swaps its last two parameters, this leaves a behind vertex in v2, the position `clip_triangle_two_negatives` keeps | v0 = (0, 0, -0.5, 1), v1 = (1, 0, 0.5, 1), v2 = (0, 1, -0.25, 1): the output keeps v2 with z = -0.25 | put the one vertex in front into v2, so that both clipped vertices lie on z = 0 | high (not executed) | Clip.TwoNegativeCounterexample | Clip.ClipCullTriangleIntended |
| rusterizer/src/color.rs:52-63 | `Sub` adds the channels | Color(0, 0, 0, 1) - Color(0, 0, 0, 1) = Color(0, 0, 0, 2) | channel-wise subtraction | high (not executed) | Colors.SubDoesNotUndoAdd | Colors.Color.SubIntended |
| rusterizer/src/geometry.rs:459-460 | loop bounds truncate the upper corners of the box, so a covered pixel whose column or row starts before the box's fractional upper edge is skipped | screen points (0, 0), (0, 21), (10.8, 10.5) on a 600 x 600 viewport: the centre of pixel (10, 10) is inside, but x runs only up to 9 | round the upper bounds up | medium (not executed) | RasterFacts.MissedPixelKeepsDepth | RasterFacts.RasterizeIntendedComplete |
| src/geometry.rs:35 | depth = b.x * z0 + b.y * z1 + b.z + z2 adds the third weight instead of multiplying it | weights (1/3, 1/3, 1/3), all depths 0: depth 1/3 | b.z * z2 | high (not executed) | OldRaster.DepthAsWrittenLeavesRange | OldRaster.DepthIntended |
