# dimensional-graphics in Dafny

A model of the core of `dimensional-graphics`, a software 3D renderer written in Python on top of pygame. The model covers:

- the barycentric helpers `cart_to_bary`, `bary_to_cart` and `safe_tri`;
- the triangle rasteriser `draw_triangle`. It sets up a bounding box and the perspective preprocessing of depths and texture coordinates. Its pixel loop runs over a local grid with the depth test, wraps texture coordinates and samples texels. Finally it composites onto the screen;
- the vertex reshaping done by `Model.__init__`;
- the frame loop of `Camera.render`: a depth buffer shared by the whole frame, and a near-plane cull that decides which faces reach the rasteriser;
- the Wavefront OBJ subset loader: `get_points`, `get_uvs`, `get_normals`, `get_edges`, and the face-assembly loop of `get_faces`. That loop carries a normal binding from one slot to the next.

Layout, one module per file:

- `wrappers.dfy`: `Option` and `Result`.
- `pylist.dfy`: Python's slicing, indexing, `int()` and `% 1` on reals, and `min`/`max` of three.
- `barycentric.dfy`: Cramer's-rule conversion, its round trip, and `safe_tri`.
- `raster.dfy`: `draw_triangle`.
  - Imperative parts: the in-place rewrite of `zs` and `uvs`, the pixel loop over `array2` buffers, and the blit.
  - Specification functions: `MakeSetup` and `PixelAt`, with the properties proved about them.
  - `Grid` reads an `array2` as a value, and `Painted` says what one triangle does to the screen and the buffer.
- `compose.dfy`: what a pixel and its depth cell hold after a sequence of triangles, as a fold over the fragments each triangle offers there, with the fold's meaning proved: the cell keeps the nearest depth, the pixel the first texel drawn at it, in any drawing order.
- `renderer.dfy`: the `Model` class, the per-vertex data the camera collects, the cull, and the frame loop.
- `loader.dfy`: the table readers as loops proved against recursive specification functions, slot splitting, and face assembly with its `vn` binding.
- `pipeline.dfy`: what the loader's vertex layout becomes once a `Model` reshapes it and the camera reads it back (see Findings).

Modelling choices:

- Python floats are `real`.
- `float("inf")` in the depth buffer is `Depth.Inf`.
- `int()` truncates toward zero, as `PyList.Trunc` does.
- `% 1` is Python's floor-based remainder, `PyList.Frac`.
- Pygame surfaces are `array2`: the screen and texture hold `Color`s, the local grid holds `Option<Color>`, and the depth buffer holds `Depth`.
- The camera's vertex transform and projection are a per-object function `view` from a vertex's first three numbers to its screen position and depth, before truncation. `Renderer.Seen` applies it to the three vertices of a face, and the walk over the vertices takes those transformed positions.
- The effect of drawing one triangle on the screen and the depth buffer is the predicate `Raster.Painted`, stated cell by cell on the grids' contents before and after.
- The effect of a whole frame is `Compose.Accumulated`: every pixel and buffer cell is the fold, in drawing order, of what each drawn triangle (a `Compose.Stroke`) offers there.
- The loader takes lines already split on whitespace. It takes `float()` and `int()` as functions that answer `None` where Python raises `ValueError`.
- Python exceptions in the loader become `Result` errors:
  - `ValueError` becomes `NotANumber`;
  - a failed unpack becomes `WrongArity`;
  - `IndexError` becomes `OutOfRange`;
  - the unbound `vn` becomes `NoNormal`.

In several places the loader departs from the usual Wavefront OBJ conventions. The model follows the code:

- In OBJ a face slot `v` carries a vertex only and no normal. The code appends the normal of the last slot with three fields anywhere earlier in the file, and fails if there is none (`Loader.BareSlotVertex`).
- OBJ indices are 1-based and negative ones count back from the end of what was read so far. The code indexes Python lists with `int(text) - 1`: index 0 and indices down to `1 - n` count back from the end of the whole table, and only indices past either end fail (`Loader.Lookup`).
- OBJ normals have three components. `get_normals` keeps two (`Loader.NormalTruncated`).

## Model

| member | source | states |
|---|---|---|
| Barycentric.CartToBary | dimensional_graphics/__init__.py:31-49 | the result is missing exactly when the determinant `y2y3*x0x2 + x3x2*(y0-y2)` is zero; otherwise the three weights sum to exactly 1 |
| Barycentric.RoundTrip | dimensional_graphics/__init__.py:16-49 | for a non-degenerate triangle, `bary_to_cart(cart_to_bary(p, T), T) == p` for every point |
| Barycentric.Unique | dimensional_graphics/__init__.py:16-49 | the converse direction: weights that sum to one and recombine into a point are exactly the weights `cart_to_bary` returns for that point |
| Barycentric.VertexWeights | dimensional_graphics/__init__.py:31-49 | each vertex of a non-degenerate triangle gets weight 1 on itself and 0 on the others |
| Barycentric.InsideBounded | dimensional_graphics/__init__.py:16-28 | a point with non-negative weights summing to one lies within the triangle's bounding box |
| Barycentric.BaryToCart | dimensional_graphics/__init__.py:16-28 | the unit weights (1,0,0), (0,1,0) and (0,0,1) give back the first, second and third vertex |
| Barycentric.SafeTri | dimensional_graphics/__init__.py:12-13 | `safe_tri` holds exactly when no two positions of the list hold equal elements |
| Barycentric.RepeatedVertexDegenerate | dimensional_graphics/__init__.py:12-13 | a triangle failing `safe_tri` is degenerate: `cart_to_bary` rejects every point against it |
| PyList.Trunc | dimensional_graphics/__init__.py:92-93 | `int()` on a float truncates toward zero: the result is within one unit of the argument and on the zero side of it |
| PyList.Frac | dimensional_graphics/__init__.py:89-90 | `% 1` lands in [0, 1) and differs from the argument by a whole number |
| PyList.Slice | dimensional_graphics/__init__.py:117 | Python slicing: in-range non-negative bounds give the plain subsequence, negative bounds count from the end, and an upper bound at or past the end, as in `vertex[-3:]`, runs to the end |
| PyList.At | dimensional_graphics/loader.py:70-74 | Python indexing `s[k]` succeeds exactly for `-n <= k < n`, non-negative `k` from the front and negative `k` from the end; anything else is `IndexError` |
| Raster.MakeSetup | dimensional_graphics/__init__.py:59-69 | the box `(tx, ty, tw, th)` encloses all three vertices with non-negative extent, `rz` is one of the depths, and positive depths give positive reciprocals |
| Raster.Prepare | dimensional_graphics/__init__.py:59-69 | the setup is `MakeSetup` of the original arrays; afterwards `zs` holds the three reciprocal depths and `uvs` each coordinate divided by `depth / rz`, with `rz` the original minimum |
| Raster.Interpolate | dimensional_graphics/__init__.py:85 | the interpolated depth of a covered pixel is defined and positive |
| Raster.Coverage | dimensional_graphics/__init__.py:72-84 | a position is drawn only if it is inside the loop's range `0 <= x < tw-1`, `0 <= y < th-1`, lands on the screen, resolves against the triangle and has all weights non-negative, which then sum to 1 |
| Raster.CoverageComplete | dimensional_graphics/__init__.py:72-84 | the converse of `Coverage`: a position in the loop's range and on the screen whose weights resolve with none negative is drawn, with exactly those weights |
| Raster.PixelAt | dimensional_graphics/__init__.py:72-95 | a produced fragment lies in the loop's range and on the screen, so every buffer index is in range, and its texel lies inside the texture |
| Raster.TexelInRange | dimensional_graphics/__init__.py:91-94 | a wrapped coordinate samples inside `[0, size-1]`, and never the last column or row once the texture is two or more texels wide |
| Raster.TexelPeriodic | dimensional_graphics/__init__.py:89-94 | coordinates a whole number apart sample the same texel |
| Raster.TexelAt | dimensional_graphics/__init__.py:88-95 | the sampled texel index is inside the texture for any texture of width and height at least 1 |
| Raster.DepthAfter | dimensional_graphics/__init__.py:86-87 | a depth cell never increases, and it changes only when the fragment exists and the stored value is strictly greater, in which case it holds exactly `z` |
| Raster.DepthIsMinimum | dimensional_graphics/__init__.py:86-87 | offering a fragment leaves the smaller of the cell and the fragment depth |
| Raster.DepthOrderIndependent | dimensional_graphics/__init__.py:86-87 | two fragments offered in either order leave the same depth |
| Raster.HarmonicBetween | dimensional_graphics/__init__.py:65-67 | with positive depths and weights that are non-negative and sum to 1, `1/(b0/z0 + b1/z1 + b2/z2)` is defined and lies between `min(zs)` and `max(zs)` |
| Raster.PixelDepthWithin | dimensional_graphics/__init__.py:85 | the depth a pixel computes from the reciprocal depths lies between the nearest and the farthest vertex depth |
| Raster.FragmentDepthBetween | dimensional_graphics/__init__.py:64-82 | every depth the rasteriser computes for a triangle with positive depths lies in `[min(zs), max(zs)]` |
| Raster.PerspectiveCorrect | dimensional_graphics/__init__.py:64-89 | the coordinate before wrapping equals textbook hyperbolic interpolation `sum(b_i u_i / z_i) / sum(b_i / z_i)`: the `/ (z/rz)` up front and `* (z/rz)` at the pixel cancel `rz` |
| Raster.SetupPerspective | dimensional_graphics/__init__.py:85-90 | for a setup built from positive depths, the pixel's `1 / sum(b_i / z_i)` is defined and the unwrapped coordinate `bary_to_cart(bary, uvs) * (z / rz)` is the hyperbolic interpolation of the original coordinates |
| Raster.HyperbolicAtVertex | dimensional_graphics/__init__.py:88-90 | the reference interpolation gives each vertex its own coordinate |
| Raster.Rasterise | dimensional_graphics/__init__.py:72-96 | every buffer cell ends as the depth test's outcome for the fragment at that pixel, and every local cell holds the sampled texel exactly where the test passed, else nothing |
| Raster.Blit | dimensional_graphics/__init__.py:99 | every set local cell that lands on the screen replaces that pixel; all other pixels keep their colour |
| Raster.RasteriseColumn | dimensional_graphics/__init__.py:71-96 | one column `x` of the pixel loop: only that column's buffer cells and local cells change, each to the depth test's outcome and the sampled texel where the test passed |
| Raster.PaintCells | dimensional_graphics/__init__.py:70-99 | from a fresh transparent local grid: every buffer cell is `DepthAfter` of the fragment at its pixel, a pixel shows the old texture's texel exactly when its depth test passed, and every other pixel keeps its old colour |
| Raster.Paint | dimensional_graphics/__init__.py:70-99 | the same, stated on the grids' contents: screen and buffer end `Painted` from what they held, sampling what the texture held |
| Raster.DrawTriangle | dimensional_graphics/__init__.py:52-99 | `zs` and `uvs` are rewritten as `Prepare` states, and screen and buffer end `Painted` for `MakeSetup` of the original lists, from their old contents and the old texture |
| Compose.FoldSnoc | dimensional_graphics/__init__.py:86-97 | drawing one more triangle is one more depth test: the cell becomes `DepthAfter` of its fragment, and the pixel its texel exactly when the test passed |
| Compose.FoldConcat | dimensional_graphics/__init__.py:86-97 | drawing `a` then `b` is drawing `b` over the pixel and cell that `a` left |
| Compose.DepthFoldIsMinimum | dimensional_graphics/__init__.py:86-87 | the buffer keeps the minimum: the cell ends at or below its start and below every fragment offered, and is its start or one of those fragments' depths |
| Compose.FromInfinity | dimensional_graphics/__init__.py:164-167 | over a cell starting at infinity, as in every fresh frame, the cell stays infinite exactly when no triangle offers a fragment, and otherwise holds the depth of a nearest fragment |
| Compose.DepthFoldPermutation | dimensional_graphics/__init__.py:86-87 | the depth a frame leaves in a cell is the same for any drawing order of the triangles |
| Compose.ColorFoldNearest | dimensional_graphics/__init__.py:86-97 | the pixel keeps its colour when no fragment came nearer than the start, and otherwise shows the texel of the first fragment drawn at the final depth |
| Compose.ColorFoldPermutation | dimensional_graphics/__init__.py:86-97 | with pairwise distinct fragment depths, the colour a frame leaves at a pixel is the same for any drawing order |
| Compose.TieKeepsFirst | dimensional_graphics/__init__.py:86-97 | of two fragments at equal depth, both nearer than the cell, the strict `>` test shows whichever was drawn first |
| Compose.AccumulatedEmpty | dimensional_graphics/__init__.py:164-172 | before any triangle, every pixel and cell is the fold of no layers: its starting contents |
| Compose.StrokeStep | dimensional_graphics/__init__.py:172-208 | when screen and buffer hold the fold of the strokes drawn so far and one more triangle paints them, they hold the fold of the strokes with that one appended |
| Renderer.ReshapeVertex | dimensional_graphics/__init__.py:117 | a vertex of five or more numbers becomes eight, with the first three multiplied by `scale` |
| Renderer.ReshapeKeepsTail | dimensional_graphics/__init__.py:117 | the reshaped vertex is the scaled position followed by the original's last five numbers unchanged |
| Renderer.ReshapeIdentity | dimensional_graphics/__init__.py:117 | an eight-number vertex at scale 1 is left exactly as it was |
| Renderer.RenderedUv | dimensional_graphics/__init__.py:117 | `point[-5:-3]` of a reshaped vertex is the original's pair five and four from the end |
| Renderer.Reshape | dimensional_graphics/__init__.py:113-119 | the face count and the vertex count of each face are kept |
| Renderer.ReshapeFaces | dimensional_graphics/__init__.py:113-119 | every reshaped vertex has eight numbers and keeps the texture coordinate where the camera reads it |
| Renderer.Model.constructor | dimensional_graphics/__init__.py:110-128 | the raw faces are kept, the faces are `Reshape(faces, scale)`, position and rotation are zero, the colour is (54, 104, 143) and the texture is a fresh 1x1 grey texel |
| Renderer.VertexUv | dimensional_graphics/__init__.py:181 | the camera's texture coordinate for a vertex is its pair of numbers five and four from the end |
| Renderer.ShouldDraw | dimensional_graphics/__init__.py:207 | `min(zs) > 0` holds exactly when all three integer depths are positive |
| Renderer.FaceSetup | dimensional_graphics/__init__.py:196-208 | the setup `draw_triangle` computes for a culled-in face is ready to rasterise and has the screen's and the texture's sizes |
| Renderer.CullExact | dimensional_graphics/__init__.py:196-207 | a face passes `min(zs) > 0` on truncated depths exactly when every vertex's view depth is at least 1 |
| Renderer.Drawn | dimensional_graphics/__init__.py:173-208 | the drawn faces of an object are indices into its faces |
| Renderer.DrawnExact | dimensional_graphics/__init__.py:173-208 | a face index is drawn exactly when the face passes the cull |
| Renderer.DrawnAscending | dimensional_graphics/__init__.py:173-208 | the drawn indices are strictly increasing: faces are drawn in file order, each at most once |
| Renderer.CollectFace | dimensional_graphics/__init__.py:174-201 | the walk over a face's vertices builds, vertex by vertex, the truncated depths, the truncated screen positions and the pairs `point[-5:-3]` |
| Renderer.DrawCollected | dimensional_graphics/__init__.py:208 | handing the collected lists to `draw_triangle` leaves screen and buffer `Painted` with the setup computed from those lists |
| Renderer.RenderFace | dimensional_graphics/__init__.py:174-208 | a culled face leaves screen and buffer untouched; a drawn one leaves them `Painted` with the setup of the face's triangle, integer depths and texture coordinates |
| Renderer.Strokes | dimensional_graphics/__init__.py:173-208 | the strokes of an object, one per face passing the cull in face order, all ready to rasterise on the object's texels |
| Renderer.StrokesSnoc | dimensional_graphics/__init__.py:173-208 | one more face extends `Drawn` by its index and the strokes by its stroke exactly when it passes the cull |
| Renderer.StrokesOfDrawn | dimensional_graphics/__init__.py:173-208 | there is one stroke per drawn face, and the `i`-th is the setup of the `i`-th drawn face, which passes the cull, on the object's texels |
| Renderer.RenderStep | dimensional_graphics/__init__.py:174-208 | one face of the loop: screen and buffer go on holding the fold of the strokes drawn so far, the face's stroke joining exactly when it passes the cull |
| Renderer.RenderObject | dimensional_graphics/__init__.py:173-208 | exactly the faces that pass the cull are drawn, and screen and buffer end holding the fold of the strokes so far followed by `Strokes` of this object, each face in order, over what they held at the frame's start |
| Renderer.RenderNext | dimensional_graphics/__init__.py:172-208 | one object of the loop: its drawn faces are `Drawn`, and the frame's strokes grow by this object's |
| Renderer.RenderObjects | dimensional_graphics/__init__.py:172-208 | the faces drawn for every object are exactly `Drawn`, and screen and buffer end holding the fold of `SceneStrokes`, every object's strokes object by object, over their starting contents |
| Renderer.SceneStrokes | dimensional_graphics/__init__.py:172-208 | the frame's strokes, object by object, all ready to rasterise |
| Renderer.ObjectTexels | dimensional_graphics/__init__.py:172-208 | one grid per object, each its texture's contents |
| Renderer.InfGrid | dimensional_graphics/__init__.py:164-167 | a buffer the screen's size with every cell infinite |
| Renderer.Render | dimensional_graphics/__init__.py:158-208 | with one fresh depth buffer of infinities the screen's size, the faces drawn for every object are exactly `Drawn`, and every pixel and buffer cell ends as the fold of the frame's strokes over the old screen and infinity: by the `Compose` lemmas, the nearest fragment's depth and the first texel drawn at it, whatever the drawing order |
| Loader.Records | dimensional_graphics/loader.py:3-10 | only lines whose first token is exactly the tag, never more than the file has |
| Loader.RecordsAppend | dimensional_graphics/loader.py:3-10 | filtering two stretches of a file one after the other gives the records of each in file order |
| Loader.RecordsOne | dimensional_graphics/loader.py:4-10 | an empty line contributes nothing and is not an error; a tagged line contributes itself |
| Loader.Fields | dimensional_graphics/loader.py:7-48 | a table keeps every token after the tag, or at most `width` of them |
| Loader.Numbers | dimensional_graphics/loader.py:7 | a successful conversion has one number per token, and a failed one is always `NotANumber` |
| Loader.NumbersExact | dimensional_graphics/loader.py:7 | conversion succeeds exactly when every token converts, and then holds each token's value in order |
| Loader.RowsExact | dimensional_graphics/loader.py:1-12 | a table has one row per record, each the record's converted fields, and fails exactly when some record fails to convert |
| Loader.ReadRows | dimensional_graphics/loader.py:1-12 | the reading loop returns exactly `Rows(Records(lines, tag), ...)` |
| Loader.GetPoints | dimensional_graphics/loader.py:1-12 | one row per `v` line in file order, built from all later tokens |
| Loader.GetUvs | dimensional_graphics/loader.py:30-40 | one row per `vt` line, each with at most two numbers |
| Loader.GetNormals | dimensional_graphics/loader.py:42-52 | one row per `vn` line, each with at most two numbers |
| Loader.NormalTruncated | dimensional_graphics/loader.py:47-48 | a three-component normal line is read as its first two numbers |
| Loader.SplitJoin | dimensional_graphics/loader.py:22 | splitting a slot on `/` loses nothing: joining the pieces gives the text back, and no piece contains `/` |
| Loader.SplitCount | dimensional_graphics/loader.py:22 | a slot splits into one more piece than it has separators |
| Loader.GetEdges | dimensional_graphics/loader.py:15-28 | one entry per `f` line in file order, each with one split slot per token after the tag |
| Loader.Lookup | dimensional_graphics/loader.py:70-74 | a non-numeric index fails; `1..n` gives row `n-1`; `1-n..0` count back from the last row, 0 giving the last; an index past the end or of `-n` or below fails with `OutOfRange` |
| Loader.ResolveSlot | dimensional_graphics/loader.py:67-76 | a slot of two or four or more fields fails to unpack; a three-field slot binds its normal; a bare slot that resolves keeps the bound normal, sits below position 3 and needs a normal already bound |
| Loader.TripleSlot | dimensional_graphics/loader.py:68-76 | a slot `a/b/c` with indices in range yields `points[a-1] + uvs[b-1] + vns[c-1]` and binds `vns[c-1]` |
| Loader.BareSlot | dimensional_graphics/loader.py:73-76 | a bare slot at position `k` yields `points[idx-1] + default_uv[k] + vn`; it fails at position 3 or more, and fails before any normal is bound |
| Loader.IndexPastEnd | dimensional_graphics/loader.py:70-74 | a point index past the end of the table fails instead of producing a vertex |
| Loader.AssembleFace | dimensional_graphics/loader.py:66-76 | an assembled face has one vertex per slot |
| Loader.AssembleFaces | dimensional_graphics/loader.py:65-77 | one face per face line and one vertex per slot |
| Loader.LoadShape | dimensional_graphics/loader.py:65-77 | a successful load yields exactly one face per `f` line and one vertex per token after the tag, in file order |
| Loader.LoadWith | dimensional_graphics/loader.py:58-77 | a successful load read all three tables and has one face per face line, one vertex per slot |
| Loader.TripleVertex | dimensional_graphics/loader.py:68-76 | wherever it sits in the file, a slot `a/b/c` in range loads as `points[a-1] + uvs[b-1] + vns[c-1]` |
| Loader.BoundNormalAppend | dimensional_graphics/loader.py:72 | the normal binding is sequential: after `a + b` it is what `b` binds starting from what `a` bound |
| Loader.FaceBound | dimensional_graphics/loader.py:67-76 | after a face, the bound normal is that of its last three-field slot, or the incoming one if it has none |
| Loader.FaceVertex | dimensional_graphics/loader.py:67-76 | each vertex of a face is its slot resolved with the normal bound by the slots before it |
| Loader.FacesBound | dimensional_graphics/loader.py:65-77 | after all faces the bound normal is that of the last three-field slot of the whole file |
| Loader.FaceAt | dimensional_graphics/loader.py:65-77 | each face is its slots assembled from the normal bound by every earlier face |
| Loader.BareSlotVertex | dimensional_graphics/loader.py:72-76 | a bare slot's vertex carries the normal of the last three-field slot anywhere before it in the file, across faces; loading succeeds only if one exists and the slot sits below position 3 |
| Loader.FacePrefixErr | dimensional_graphics/loader.py:67-76 | the first failing slot of a face fails the whole face with its own error |
| Loader.FacesPrefixErr | dimensional_graphics/loader.py:65-77 | the first failing face fails the whole load with its own error |
| Loader.AssembleOne | dimensional_graphics/loader.py:66-77 | the slot loop builds exactly `AssembleFace` of the face's slots |
| Loader.AssembleAll | dimensional_graphics/loader.py:63-77 | the face loop succeeds exactly when `AssembleFaces` does, with the same faces or the same error |
| Loader.GetFaces | dimensional_graphics/loader.py:54-83 | the whole of `get_faces` returns exactly `Load`: tables in order points, texture coordinates, normals, then the assembled faces |
| Pipeline.MisreadUv | dimensional_graphics/__init__.py:181 | with two-number normals a loaded vertex has seven numbers, and the camera reads (point z, u) as its texture coordinate |
| Pipeline.MisreadExample | dimensional_graphics/__init__.py:181 | the vertex `[1,2,3] + [0.5,0.25] + [0,0]` reaches the camera with texture coordinate (3, 0.5), not (0.5, 0.25) |
| Pipeline.LoadedUvMisread | dimensional_graphics/loader.py:48-76 | for a loaded file, a slot `a/b/c` whose `v` line has exactly three numbers, whose `vt` line has two and whose `vn` line has two or more reaches the camera with texture coordinate (z of point `a`, u of `b`) |
| Pipeline.FullNormalUv | dimensional_graphics/__init__.py:181 | with three-number normals the camera reads back exactly the loaded texture coordinate |
| Pipeline.LoadedUvFull | dimensional_graphics/loader.py:48-76 | loading whole normals, a slot `a/b/c` whose `v` line has exactly three numbers, whose `vt` line has two and whose `vn` line has three reaches the camera with the texture coordinate of its `vt` line |

## Left out

- The camera's vertex transform (`rotate`, the object and camera rotations, `normalize_ip`, `asin`, `atan2`, `degrees`, `tan`) and `Camera.project` are floating-point trigonometry and pygame calls. Each object's transform is a parameter `view`. The model does not say how screen position and depth are computed, only what the camera does with them.
- `Camera.project` divides by `point[2] + xf` and `point[2] + yf`, so a vertex whose transformed depth equals `-xf` or `-yf` raises `ZeroDivisionError`. That happens before the cull and aborts the whole frame. The total `view` parameter does not model this exception.
- Pygame surfaces are arrays. `convert_alpha`, `fill` and alpha blending in `blit` are not modelled: a drawn texel replaces the screen pixel.
- `Model.copy` shares its `__dict__` with the original; it is aliasing only and is not part of this model. The `Model`'s texture is a 1x1 array of the grey it is filled with.
- File opening and reading in `get_faces`, `str.split()` on whitespace, and the text-to-number conversions inside `float()` and `int()` are parameters. Lines arrive as token lists, and the conversions arrive as functions.
- Renderer.Render: requires every face to have three vertices of at least five numbers. The source does not reject a face of four or more vertices: the cull takes `min` over all their depths, and `draw_triangle` then draws the triangle of the first three vertices only, with its bounding box and `rz` taken over all of them. Such faces are not modelled, nor are faces of fewer than three vertices or of vertices shorter than five numbers. On those Python raises on an empty face (`min([])`), and on a drawn face whose vertices are short (`uvs[i][1]` in `draw_triangle`) or whose pixel loop reaches `cart_to_bary` with fewer than three vertices; a one-vertex face, or a culled one, draws nothing.
- Renderer.Render: requires every object's texture to be a different surface from the screen. Drawing a model onto its own texture is not modelled.
- Renderer.RenderFace: has the same three-vertex, five-number requirement as Render.
- Renderer.RenderObject: the transform is applied to a face's three vertices before the walk over them, not inside it. The transform reads nothing the walk changes, so the collected values are the same.
- Raster.DrawTriangle: requires all three depths positive. The camera only calls it after its cull, which guarantees that. A zero depth would make Python raise `ZeroDivisionError`, and a negative one could divide by zero at the pixel.
- Raster.DrawTriangle: requires the texture to be at least 1x1, and the depth buffer to be the screen's size, as the camera allocates it.
- Loader.Lookup: an index of `-n` or below raises `IndexError` in Python, as one past the end does; the model gives `OutOfRange` for both.
- Floating point: Python floats are modelled as exact reals. A barycentric weight that is exactly 0 on a triangle's edge can round to a tiny negative value, and then Python skips a pixel the model draws. Python's float `% 1` can return 1.0 for a tiny negative operand, where `PyList.Frac` stays below 1; the sampled texel then lands on the last column or row.

## Findings

| source | as written | input that shows it | evidently intended | confidence | as-written member | corrected member |
|---|---|---|---|---|---|---|
| dimensional_graphics/loader.py:48 | `get_normals` keeps `split_line[1:3]`, two numbers of each normal. A loaded vertex then has 3 + 2 + 2 = 7 numbers. `Model.__init__` and the camera read the texture coordinate as `vertex[-5:-3]`, which on seven numbers is (z, u). | a file with `v 1 2 3`, `vt 0.5 0.25`, `vn 0 0 1` and `f 1/1/1 1/1/1 1/1/1`: the camera's texture coordinate for each vertex is (3, 0.5) instead of (0.5, 0.25) | keep all three normal components (`split_line[1:4]`), so a vertex has eight numbers and `vertex[-5:-3]` is (u, v) | high (proved; not executed) | Pipeline.LoadedUvMisread | Pipeline.LoadedUvFull |
