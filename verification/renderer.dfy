/** The renderer's model object and the per-frame loop of the camera: vertex
    reshaping on construction, the near-plane cull, and the hand-off of each
    triangle to the rasteriser through a depth buffer shared by the whole frame. */
module Renderer {
  import opened PyList
  import opened Barycentric
  import opened Raster
  import opened Compose

  datatype Vec3 = Vec3(x: real, y: real, z: real)

  /** One model vertex as `Model` keeps it: the first three numbers scaled, then the
      two numbers five and four from the end, then the last three. */
  function ReshapeVertex(v: seq<real>, scale: real): (r: seq<real>)
    ensures |v| >= 5 ==> |r| == 8
    ensures forall k :: 0 <= k < |r| && k < 3 && k < |v| ==> r[k] == v[k] * scale
  {
    var front := Slice(v, 0, 3);
    assert front == v[..if |v| < 3 then |v| else 3];
    var head := Scaled(front, scale);
    assert forall k :: 0 <= k < |head| ==> head[k] == v[k] * scale;
    var uv, tail := Slice(v, -5, -3), Slice(v, -3, |v|);
    assert |v| >= 5 ==> |uv| == 2 && |tail| == 3;
    var r := head + uv + tail;
    assert forall k :: 0 <= k < |head| ==> r[k] == head[k];
    r
  }

  function Scaled(s: seq<real>, scale: real): (r: seq<real>)
    ensures |r| == |s| && forall k :: 0 <= k < |s| ==> r[k] == s[k] * scale
  {
    seq(|s|, k requires 0 <= k < |s| => s[k] * scale)
  }

  /** A vertex of at least five numbers keeps everything after its position: the
      reshaped vertex ends with the original's last five numbers. */
  lemma ReshapeKeepsTail(v: seq<real>, scale: real)
    requires |v| >= 5
    ensures ReshapeVertex(v, scale)[3..] == v[|v| - 5..]
    ensures ReshapeVertex(v, scale)[..3] == Scaled(v[..3], scale)
  {
    var n := |v|;
    assert Slice(v, 0, 3) == v[..3];
    assert Slice(v, -5, -3) == v[n - 5..n - 3];
    assert Slice(v, -3, n) == v[n - 3..];
    assert v[n - 5..] == v[n - 5..n - 3] + v[n - 3..];
  }

  /** An eight-number vertex (position, texture coordinate, normal) at scale 1 is
      left exactly as it was. */
  lemma ReshapeIdentity(v: seq<real>)
    requires |v| == 8
    ensures ReshapeVertex(v, 1.0) == v
  {
    ReshapeKeepsTail(v, 1.0);
    var r := ReshapeVertex(v, 1.0);
    assert r[..3] == v[..3];
    assert r == r[..3] + r[3..];
    assert v == v[..3] + v[3..];
  }

  /** The texture coordinate the camera reads from a reshaped vertex, `point[-5:-3]`,
      is the pair five and four from the end of the original vertex. */
  lemma RenderedUv(v: seq<real>, scale: real)
    requires |v| >= 5
    ensures Slice(ReshapeVertex(v, scale), -5, -3) == v[|v| - 5..|v| - 3]
  {
    ReshapeKeepsTail(v, scale);
    var r := ReshapeVertex(v, scale);
    assert Slice(r, -5, -3) == r[3..5];
  }

  /** `Model.__init__`'s reshaping of every vertex of every face. */
  function Reshape(faces: seq<seq<seq<real>>>, scale: real): (r: seq<seq<seq<real>>>)
    ensures |r| == |faces|
    ensures forall f :: 0 <= f < |r| ==> |r[f]| == |faces[f]|
  {
    seq(|faces|, f requires 0 <= f < |faces| =>
      seq(|faces[f]|, k requires 0 <= k < |faces[f]| => ReshapeVertex(faces[f][k], scale)))
  }

  /** Reshaping keeps a face's texture coordinates where the camera looks for them
      and leaves vertices of at least five numbers with eight. */
  lemma ReshapeFaces(faces: seq<seq<seq<real>>>, scale: real, f: int, k: int)
    requires 0 <= f < |faces| && 0 <= k < |faces[f]| && |faces[f][k]| >= 5
    ensures var v := faces[f][k];
      |Reshape(faces, scale)[f][k]| == 8 &&
      Slice(Reshape(faces, scale)[f][k], -5, -3) == v[|v| - 5..|v| - 3]
  {
    RenderedUv(faces[f][k], scale);
  }

  /** A renderable object: its faces as loaded and as reshaped, its placement, its
      flat colour and its texture. */
  class Model {
    const rawFaces: seq<seq<seq<real>>>
    const faces: seq<seq<seq<real>>>
    var position: Vec3
    var rotation: Vec3
    var color: (int, int, int)
    var texture: array2<Color>

    /** A model at the origin, unrotated, with the default colour and a one-texel
        grey texture. */
    constructor(faces: seq<seq<seq<real>>>, scale: real)
      ensures rawFaces == faces && this.faces == Reshape(faces, scale)
      ensures position == Vec3(0.0, 0.0, 0.0) && rotation == Vec3(0.0, 0.0, 0.0)
      ensures color == (54, 104, 143)
      ensures fresh(texture) && texture.Length0 == 1 && texture.Length1 == 1
      ensures texture[0, 0] == Color(150, 150, 150, 255)
    {
      rawFaces := faces;
      this.faces := Reshape(faces, scale);
      position := Vec3(0.0, 0.0, 0.0);
      rotation := Vec3(0.0, 0.0, 0.0);
      color := (54, 104, 143);
      texture := new Color[1, 1]((_, _) => Color(150, 150, 150, 255));
    }
  }

  /** Where the camera's transform puts a vertex: its screen position (before `int`)
      and its depth in camera space (before `int`). */
  datatype ViewPoint = ViewPoint(x: real, y: real, z: real)

  /** A face the camera can hand to the rasteriser: three vertices of at least five
      numbers each. */
  predicate Triangular(face: seq<seq<real>>) {
    |face| == 3 && forall k :: 0 <= k < 3 ==> |face[k]| >= 5
  }

  /** Every face of an object is one the camera can draw. */
  predicate AllTriangular(faces: seq<seq<seq<real>>>) {
    forall f :: 0 <= f < |faces| ==> Triangular(faces[f])
  }

  /** The camera's transform applied to the position `point[:3]` of each vertex. */
  function Seen(face: seq<seq<real>>, view: seq<real> -> ViewPoint): (vs: seq<ViewPoint>)
    requires |face| == 3
    ensures |vs| == 3
  {
    seq(3, k requires 0 <= k < 3 => view(Slice(face[k], 0, 3)))
  }

  /** The integer depth the camera records for a vertex, `int(true_point[2])`. */
  function VertexDepth(p: ViewPoint): int {
    Trunc(p.z)
  }

  /** The integer screen position the camera records for a vertex. */
  function VertexPoint(p: ViewPoint): IPoint {
    IPoint(Trunc(p.x), Trunc(p.y))
  }

  /** The texture coordinate the camera records for a vertex, `point[-5:-3]`: the
      numbers five and four from the end. */
  function VertexUv(v: seq<real>): (uv: Vec2)
    requires |v| >= 5
    ensures uv == Vec2(v[|v| - 5], v[|v| - 4])
  {
    var pair := Slice(v, -5, -3);
    Vec2(pair[0], pair[1])
  }

  /** The camera's list `zs` for a face. */
  function FaceDepths(seen: seq<ViewPoint>): (zs: seq<int>)
    requires |seen| == 3
    ensures |zs| == 3
  {
    seq(3, k requires 0 <= k < 3 => VertexDepth(seen[k]))
  }

  /** The camera's list `true_face` for a face. */
  function FaceTriangle(seen: seq<ViewPoint>): (tri: seq<IPoint>)
    requires |seen| == 3
    ensures |tri| == 3
  {
    seq(3, k requires 0 <= k < 3 => VertexPoint(seen[k]))
  }

  /** The camera's list `uvs` for a face. */
  function FaceUvs(face: seq<seq<real>>): (uvs: seq<Vec2>)
    requires Triangular(face)
    ensures |uvs| == 3
  {
    seq(3, k requires 0 <= k < 3 => VertexUv(face[k]))
  }

  /** The camera's cull: a face is drawn when the smallest of its integer depths is
      positive, that is when every one of them is. */
  predicate ShouldDraw(zs: seq<int>): (b: bool)
    requires |zs| == 3
    ensures b <==> forall k :: 0 <= k < 3 ==> zs[k] > 0
  {
    IMin3(zs[0], zs[1], zs[2]) > 0
  }

  /** Whether the camera hands a face of an object with the given transform to the
      rasteriser. */
  predicate Passes(face: seq<seq<real>>, view: seq<real> -> ViewPoint)
    requires Triangular(face)
  {
    ShouldDraw(FaceDepths(Seen(face, view)))
  }

  /** Because each depth is truncated first, the cull keeps exactly the faces whose
      vertices all lie at depth one or more: a vertex in front of the camera but
      closer than one unit is culled too. */
  lemma CullExact(face: seq<seq<real>>, view: seq<real> -> ViewPoint)
    requires Triangular(face)
    ensures Passes(face, view) <==> forall k :: 0 <= k < 3 ==> view(Slice(face[k], 0, 3)).z >= 1.0
  {
    var zs := FaceDepths(Seen(face, view));
    forall k | 0 <= k < 3
      ensures zs[k] > 0 <==> view(Slice(face[k], 0, 3)).z >= 1.0
    {
      var z := view(Slice(face[k], 0, 3)).z;
      assert zs[k] == Trunc(z);
      if z >= 1.0 {
        assert Trunc(z) >= 1;
      }
    }
  }

  /** The faces of one object that pass the cull, by index, in drawing order. */
  function Drawn(faces: seq<seq<seq<real>>>, view: seq<real> -> ViewPoint): (r: seq<nat>)
    requires AllTriangular(faces)
    ensures forall i :: 0 <= i < |r| ==> r[i] < |faces|
  {
    if |faces| == 0 then []
    else
      var n := |faces| - 1;
      Drawn(faces[..n], view) + (if Passes(faces[n], view) then [n] else [])
  }

  /** `Drawn` lists exactly the faces that pass the cull. */
  lemma {:induction false} DrawnExact(faces: seq<seq<seq<real>>>, view: seq<real> -> ViewPoint)
    requires AllTriangular(faces)
    ensures forall f :: f in Drawn(faces, view) <==> 0 <= f < |faces| && Passes(faces[f], view)
  {
    if |faces| > 0 {
      var n := |faces| - 1;
      var d := Drawn(faces[..n], view);
      DrawnExact(faces[..n], view);
      assert forall f :: 0 <= f < n ==> faces[..n][f] == faces[f];
      assert Drawn(faces, view) == d + (if Passes(faces[n], view) then [n] else []);
    }
  }

  /** `Drawn` lists the faces in the order the camera draws them, each once. */
  lemma {:induction false} DrawnAscending(faces: seq<seq<seq<real>>>, view: seq<real> -> ViewPoint)
    requires AllTriangular(faces)
    ensures forall i, j :: 0 <= i < j < |Drawn(faces, view)| ==>
      Drawn(faces, view)[i] < Drawn(faces, view)[j]
  {
    if |faces| > 0 {
      var n := |faces| - 1;
      DrawnAscending(faces[..n], view);
    }
  }

  /** The rasteriser's setup for a face that passed the cull, from its vertices and
      their transformed positions, on a screen and a texture of the given sizes. */
  function FaceSetup(face: seq<seq<real>>, seen: seq<ViewPoint>,
                     scrW: int, scrH: int, texW: int, texH: int): (s: Setup)
    requires Triangular(face) && |seen| == 3 && ShouldDraw(FaceDepths(seen))
    requires texW >= 1 && texH >= 1
    ensures Ready(s) && s.scrW == scrW && s.scrH == scrH && s.texW == texW && s.texH == texH
  {
    var zs := FaceDepths(seen);
    MakeSetup(FaceTriangle(seen), [zs[0] as real, zs[1] as real, zs[2] as real],
              FaceUvs(face), scrW, scrH, texW, texH)
  }

  /** The strokes of one object: the faces that pass the cull, in drawing order, each
      with its setup and the texels of the object's texture, `texW` by `texH`. */
  function Strokes(faces: seq<seq<seq<real>>>, view: seq<real> -> ViewPoint, texels: seq<seq<Color>>,
                   texW: int, texH: int, scrW: int, scrH: int): (ds: seq<Stroke>)
    requires AllTriangular(faces) && texW >= 1 && texH >= 1 && Sized(texels, texW, texH)
    ensures AllSampled(ds)
  {
    if |faces| == 0 then []
    else
      var n := |faces| - 1;
      Strokes(faces[..n], view, texels, texW, texH, scrW, scrH) +
        (if Passes(faces[n], view)
         then [Stroke(FaceSetup(faces[n], Seen(faces[n], view), scrW, scrH, texW, texH), texels)]
         else [])
  }

  /** One more face of the loop: its stroke joins the list, and its index joins
      `Drawn`, exactly when it passes the cull. */
  lemma StrokesSnoc(faces: seq<seq<seq<real>>>, f: nat, view: seq<real> -> ViewPoint, seen: seq<ViewPoint>,
                    texels: seq<seq<Color>>, texW: int, texH: int, scrW: int, scrH: int)
    requires AllTriangular(faces) && texW >= 1 && texH >= 1 && Sized(texels, texW, texH) && f < |faces|
    requires seen == Seen(faces[f], view)
    ensures AllTriangular(faces[..f]) && AllTriangular(faces[..f + 1])
    ensures Passes(faces[f], view) == ShouldDraw(FaceDepths(seen))
    ensures Drawn(faces[..f + 1], view) ==
      Drawn(faces[..f], view) + (if ShouldDraw(FaceDepths(seen)) then [f] else [])
    ensures Strokes(faces[..f + 1], view, texels, texW, texH, scrW, scrH) ==
      Strokes(faces[..f], view, texels, texW, texH, scrW, scrH) +
        (if ShouldDraw(FaceDepths(seen)) then [Stroke(FaceSetup(faces[f], seen, scrW, scrH, texW, texH), texels)]
         else [])
  {
    assert faces[..f + 1][..f] == faces[..f];
  }

  /** There is one stroke per face in `Drawn`, and the `i`-th is that face's setup on
      the object's texels. */
  lemma {:induction false} StrokesOfDrawn(faces: seq<seq<seq<real>>>, view: seq<real> -> ViewPoint,
                                          texels: seq<seq<Color>>, texW: int, texH: int, scrW: int, scrH: int)
    requires AllTriangular(faces) && texW >= 1 && texH >= 1 && Sized(texels, texW, texH)
    ensures var ds, dr := Strokes(faces, view, texels, texW, texH, scrW, scrH), Drawn(faces, view);
      |ds| == |dr| &&
      forall i :: 0 <= i < |ds| ==>
        Passes(faces[dr[i]], view) &&
        ds[i] == Stroke(FaceSetup(faces[dr[i]], Seen(faces[dr[i]], view), scrW, scrH, texW, texH), texels)
  {
    if |faces| > 0 {
      var n := |faces| - 1;
      StrokesOfDrawn(faces[..n], view, texels, texW, texH, scrW, scrH);
      assert forall f :: 0 <= f < n ==> faces[..n][f] == faces[f];
    }
  }

  /** One face of the camera's loop, its vertices already transformed: collect its
      depths, texture coordinates and screen triangle, and draw it if it passes the
      cull. */
  method RenderFace(face: seq<seq<real>>, seen: seq<ViewPoint>, texture: array2<Color>,
                    screen: array2<Color>, buffer: array2<Depth>)
    requires Triangular(face) && |seen| == 3
    requires buffer.Length0 == screen.Length0 && buffer.Length1 == screen.Length1
    requires texture.Length0 >= 1 && texture.Length1 >= 1
    modifies screen, buffer
    ensures !ShouldDraw(FaceDepths(seen)) ==> unchanged(screen) && unchanged(buffer)
    ensures ShouldDraw(FaceDepths(seen)) ==>
      Painted(FaceSetup(face, seen, screen.Length0, screen.Length1, texture.Length0, texture.Length1),
              old(Grid(texture)), old(Grid(screen)), old(Grid(buffer)), Grid(screen), Grid(buffer))
  {
    var tri, zs, uvs := CollectFace(face, seen);
    if IMin3(zs[0], zs[1], zs[2]) > 0 {
      DrawCollected(tri, zs, uvs, texture, screen, buffer,
                    FaceSetup(face, seen, screen.Length0, screen.Length1, texture.Length0, texture.Length1));
    }
  }

  /** The call `draw_triangle(screen, true_face, zs, uvs, buffer, obj.texture)` on
      the lists the camera collected; the rasteriser rewrites the two lists in place.
      `s` names the setup the rasteriser computes from them. */
  method DrawCollected(tri: seq<IPoint>, zs: seq<int>, uvs: seq<Vec2>, texture: array2<Color>,
                       screen: array2<Color>, buffer: array2<Depth>, ghost s: Setup)
    requires |tri| == 3 && |zs| == 3 && |uvs| == 3 && zs[0] > 0 && zs[1] > 0 && zs[2] > 0
    requires buffer.Length0 == screen.Length0 && buffer.Length1 == screen.Length1
    requires texture.Length0 >= 1 && texture.Length1 >= 1
    requires s == MakeSetup(tri, [zs[0] as real, zs[1] as real, zs[2] as real], uvs,
                            screen.Length0, screen.Length1, texture.Length0, texture.Length1)
    modifies screen, buffer
    ensures Painted(s, old(Grid(texture)), old(Grid(screen)), old(Grid(buffer)), Grid(screen), Grid(buffer))
  {
    ghost var texels, screen0, buffer0 := Grid(texture), Grid(screen), Grid(buffer);
    var zArr := new real[3][zs[0] as real, zs[1] as real, zs[2] as real];
    var uvArr := new Vec2[3][uvs[0], uvs[1], uvs[2]];
    assert zArr[..] == [zs[0] as real, zs[1] as real, zs[2] as real] && uvArr[..] == uvs;
    assert Grid(texture) == texels && Grid(screen) == screen0 && Grid(buffer) == buffer0;
    DrawTriangle(screen, tri, zArr, uvArr, buffer, texture);
  }

  /** One pass of the camera's face loop, the face's vertices already transformed:
      when the screen and the buffer hold the fold of the strokes drawn so far over
      their starting contents, they still do after this face, whose stroke joins the
      list exactly when it passes the cull. */
  method RenderStep(face: seq<seq<real>>, seen: seq<ViewPoint>, texture: array2<Color>,
                    screen: array2<Color>, buffer: array2<Depth>,
                    ghost ds: seq<Stroke>, ghost screen0: seq<seq<Color>>, ghost buffer0: seq<seq<Depth>>)
    returns (ghost ds': seq<Stroke>)
    requires Triangular(face) && |seen| == 3
    requires buffer.Length0 == screen.Length0 && buffer.Length1 == screen.Length1
    requires texture.Length0 >= 1 && texture.Length1 >= 1
    requires Sized(screen0, screen.Length0, screen.Length1) && Sized(buffer0, screen.Length0, screen.Length1)
    requires AllSampled(ds)
    requires Accumulated(ds, screen.Length0, screen.Length1, screen0, buffer0, Grid(screen), Grid(buffer))
    modifies screen, buffer
    ensures ds' == ds + if ShouldDraw(FaceDepths(seen))
      then [Stroke(FaceSetup(face, seen, screen.Length0, screen.Length1, texture.Length0, texture.Length1),
                   old(Grid(texture)))]
      else []
    ensures AllSampled(ds')
    ensures Accumulated(ds', screen.Length0, screen.Length1, screen0, buffer0, Grid(screen), Grid(buffer))
  {
    ghost var texels, screen1, buffer1 := Grid(texture), Grid(screen), Grid(buffer);
    RenderFace(face, seen, texture, screen, buffer);
    if ShouldDraw(FaceDepths(seen)) {
      ghost var st := Stroke(FaceSetup(face, seen, screen.Length0, screen.Length1,
                                       texture.Length0, texture.Length1), texels);
      StrokeStep(ds, st, screen.Length0, screen.Length1, screen0, buffer0, screen1, buffer1,
                 Grid(screen), Grid(buffer));
      ds' := ds + [st];
    } else {
      ds' := ds;
      assert Grid(screen) == screen1 && Grid(buffer) == buffer1;
    }
  }

  /** The camera's walk over the vertices of one face, appending to its three lists:
      the texture coordinates `point[-5:-3]`, the integer depths and the integer
      screen positions. */
  method CollectFace(face: seq<seq<real>>, seen: seq<ViewPoint>)
    returns (tri: seq<IPoint>, zs: seq<int>, uvs: seq<Vec2>)
    requires Triangular(face) && |seen| == 3
    ensures tri == FaceTriangle(seen) && zs == FaceDepths(seen) && uvs == FaceUvs(face)
  {
    tri, zs, uvs := [], [], [];
    var k := 0;
    while k < 3
      invariant 0 <= k <= 3 && |tri| == k && |zs| == k && |uvs| == k
      invariant forall j :: 0 <= j < k ==>
        zs[j] == VertexDepth(seen[j]) && tri[j] == VertexPoint(seen[j]) && uvs[j] == VertexUv(face[j])
    {
      var point := face[k];
      var pair := Slice(point, -5, -3);
      uvs := uvs + [Vec2(pair[0], pair[1])];
      zs := zs + [Trunc(seen[k].z)];
      tri := tri + [IPoint(Trunc(seen[k].x), Trunc(seen[k].y))];
      k := k + 1;
    }
  }

  /** A texture's texels: at least one column and one row, every column as high. */
  predicate Image(g: seq<seq<Color>>) {
    |g| >= 1 && |g[0]| >= 1 && Sized(g, |g|, |g[0]|)
  }

  /** The strokes of the whole frame: every object's, object by object, each on the
      texels `texels[o]` of its object's texture. */
  function SceneStrokes(objects: seq<Model>, views: seq<seq<real> -> ViewPoint>,
                        texels: seq<seq<seq<Color>>>, scrW: int, scrH: int): (ds: seq<Stroke>)
    requires |views| == |objects| && |texels| == |objects|
    requires forall o :: 0 <= o < |objects| ==> AllTriangular(objects[o].faces) && Image(texels[o])
    ensures AllSampled(ds)
  {
    if |objects| == 0 then []
    else
      var n := |objects| - 1;
      assert AllTriangular(objects[n].faces) && Image(texels[n]);
      assert forall o :: 0 <= o < n ==> objects[..n][o] == objects[o] && texels[..n][o] == texels[o];
      SceneStrokes(objects[..n], views[..n], texels[..n], scrW, scrH) +
        Strokes(objects[n].faces, views[n], texels[n], |texels[n]|, |texels[n][0]|, scrW, scrH)
  }

  /** The texels of the objects' textures, in order. */
  function ObjectTexels(objects: seq<Model>): (ts: seq<seq<seq<Color>>>)
    reads objects, set o | o in objects :: o.texture
    ensures |ts| == |objects| && forall o :: 0 <= o < |objects| ==> ts[o] == Grid(objects[o].texture)
  {
    if |objects| == 0 then []
    else ObjectTexels(objects[..|objects| - 1]) + [Grid(objects[|objects| - 1].texture)]
  }

  /** A depth buffer of infinities, as a value. */
  function InfGrid(w: nat, h: nat): (g: seq<seq<Depth>>)
    ensures Sized(g, w, h) && forall X, Y :: 0 <= X < w && 0 <= Y < h ==> g[X][Y] == Inf
  {
    seq(w, _ => seq(h, _ => Inf))
  }

  /** `Camera.render`: a fresh depth buffer of infinities the size of the screen,
      then every face of every object in order, culled or drawn. `drawn[o]` records
      which faces of object `o` were handed to the rasteriser: exactly those that
      pass the cull. The screen and the buffer end as drawing the frame's strokes in
      order over the old screen and a buffer of infinities leaves them. */
  method Render(objects: seq<Model>, views: seq<seq<real> -> ViewPoint>, screen: array2<Color>)
    returns (ghost drawn: seq<seq<nat>>, ghost buffer: array2<Depth>)
    requires |views| == |objects|
    requires forall o :: 0 <= o < |objects| ==> AllTriangular(objects[o].faces)
    requires forall o :: 0 <= o < |objects| ==>
      objects[o].texture.Length0 >= 1 && objects[o].texture.Length1 >= 1
    requires forall o :: 0 <= o < |objects| ==> objects[o].texture != screen
    modifies screen
    ensures |drawn| == |objects|
    ensures forall o :: 0 <= o < |objects| ==> drawn[o] == Drawn(objects[o].faces, views[o])
    ensures fresh(buffer) && buffer.Length0 == screen.Length0 && buffer.Length1 == screen.Length1
    ensures forall o :: 0 <= o < |objects| ==> Image(old(ObjectTexels(objects))[o])
    ensures Accumulated(SceneStrokes(objects, views, old(ObjectTexels(objects)), screen.Length0, screen.Length1),
                        screen.Length0, screen.Length1, old(Grid(screen)), InfGrid(screen.Length0, screen.Length1),
                        Grid(screen), Grid(buffer))
  {
    var buf := new Depth[screen.Length0, screen.Length1]((_, _) => Inf);
    ghost var texels := old(ObjectTexels(objects));
    ghost var screen0, buffer0 := old(Grid(screen)), InfGrid(screen.Length0, screen.Length1);
    assert Grid(buf) == buffer0 by {
      forall X | 0 <= X < screen.Length0
        ensures Grid(buf)[X] == buffer0[X]
      {
      }
    }
    drawn := RenderObjects(objects, views, screen, buf, texels, screen0, buffer0);
    buffer := buf;
  }

  /** The camera's loop over the objects, sharing one depth buffer, each object's
      texture holding the texels `texels[o]`. Starting from a screen and a buffer
      that hold `screen0` and `buffer0`, they end holding the fold of the frame's
      strokes. */
  method RenderObjects(objects: seq<Model>, views: seq<seq<real> -> ViewPoint>,
                       screen: array2<Color>, buffer: array2<Depth>, ghost texels: seq<seq<seq<Color>>>,
                       ghost screen0: seq<seq<Color>>, ghost buffer0: seq<seq<Depth>>)
    returns (ghost drawn: seq<seq<nat>>)
    requires |views| == |objects| && |texels| == |objects|
    requires forall i :: 0 <= i < |objects| ==> AllTriangular(objects[i].faces) && Image(texels[i])
    requires forall i :: 0 <= i < |objects| ==>
      objects[i].texture != screen && Grid(objects[i].texture) == texels[i]
    requires buffer.Length0 == screen.Length0 && buffer.Length1 == screen.Length1
    requires screen0 == Grid(screen) && buffer0 == Grid(buffer)
    modifies screen, buffer
    ensures |drawn| == |objects|
    ensures forall o :: 0 <= o < |objects| ==> drawn[o] == Drawn(objects[o].faces, views[o])
    ensures Accumulated(SceneStrokes(objects, views, texels, screen.Length0, screen.Length1),
                        screen.Length0, screen.Length1, screen0, buffer0, Grid(screen), Grid(buffer))
  {
    ghost var ds: seq<Stroke> := [];
    AccumulatedEmpty(screen.Length0, screen.Length1, screen0, buffer0);
    drawn := [];
    var o := 0;
    while o < |objects|
      invariant 0 <= o <= |objects| && |drawn| == o
      invariant forall i :: 0 <= i < o ==> drawn[i] == Drawn(objects[i].faces, views[i])
      invariant ds == SceneStrokes(objects[..o], views[..o], texels[..o], screen.Length0, screen.Length1)
      invariant Accumulated(ds, screen.Length0, screen.Length1, screen0, buffer0, Grid(screen), Grid(buffer))
    {
      assert Grid(objects[o].texture) == texels[o];
      drawn, ds := RenderNext(objects, views, o, screen, buffer, texels, drawn, ds, screen0, buffer0);
      o := o + 1;
    }
    assert objects[..o] == objects && views[..o] == views && texels[..o] == texels;
  }

  /** The pass of the camera's object loop for object `o`, whose texture holds the
      texels `texels[o]`: the frame's strokes grow by this object's. */
  method RenderNext(objects: seq<Model>, views: seq<seq<real> -> ViewPoint>, o: nat,
                    screen: array2<Color>, buffer: array2<Depth>, ghost texels: seq<seq<seq<Color>>>,
                    ghost drawn: seq<seq<nat>>, ghost ds: seq<Stroke>,
                    ghost screen0: seq<seq<Color>>, ghost buffer0: seq<seq<Depth>>)
    returns (ghost drawn': seq<seq<nat>>, ghost ds': seq<Stroke>)
    requires o < |objects| && |views| == |objects| && |texels| == |objects|
    requires forall i :: 0 <= i < |objects| ==> AllTriangular(objects[i].faces) && Image(texels[i])
    requires objects[o].texture != screen && Grid(objects[o].texture) == texels[o]
    requires buffer.Length0 == screen.Length0 && buffer.Length1 == screen.Length1
    requires Sized(screen0, screen.Length0, screen.Length1) && Sized(buffer0, screen.Length0, screen.Length1)
    requires |drawn| == o && forall i :: 0 <= i < o ==> drawn[i] == Drawn(objects[i].faces, views[i])
    requires ds == SceneStrokes(objects[..o], views[..o], texels[..o], screen.Length0, screen.Length1)
    requires Accumulated(ds, screen.Length0, screen.Length1, screen0, buffer0, Grid(screen), Grid(buffer))
    modifies screen, buffer
    ensures |drawn'| == o + 1 && forall i :: 0 <= i <= o ==> drawn'[i] == Drawn(objects[i].faces, views[i])
    ensures ds' == SceneStrokes(objects[..o + 1], views[..o + 1], texels[..o + 1], screen.Length0, screen.Length1)
    ensures Accumulated(ds', screen.Length0, screen.Length1, screen0, buffer0, Grid(screen), Grid(buffer))
  {
    assert objects[..o + 1][..o] == objects[..o] && views[..o + 1][..o] == views[..o];
    assert texels[..o + 1][..o] == texels[..o];
    ghost var mine;
    mine, ds' := RenderObject(objects[o].faces, views[o], objects[o].texture, screen, buffer, ds, screen0, buffer0);
    drawn' := drawn + [mine];
    forall i | 0 <= i <= o
      ensures drawn'[i] == Drawn(objects[i].faces, views[i])
    {
      if i < o {
        assert drawn'[i] == drawn[i];
      } else {
        assert drawn'[i] == mine;
      }
    }
  }

  /** The camera's loop over the faces of one object, sharing the frame's depth
      buffer; each face's vertices go through the object's transform before the
      walk over them. When the screen and the buffer hold the fold of the strokes
      `ds` over their starting contents, they end holding the fold of `ds` followed
      by this object's strokes. */
  method RenderObject(faces: seq<seq<seq<real>>>, view: seq<real> -> ViewPoint, texture: array2<Color>,
                      screen: array2<Color>, buffer: array2<Depth>,
                      ghost ds: seq<Stroke>, ghost screen0: seq<seq<Color>>, ghost buffer0: seq<seq<Depth>>)
    returns (ghost mine: seq<nat>, ghost ds': seq<Stroke>)
    requires AllTriangular(faces)
    requires buffer.Length0 == screen.Length0 && buffer.Length1 == screen.Length1
    requires texture.Length0 >= 1 && texture.Length1 >= 1 && texture != screen
    requires Sized(screen0, screen.Length0, screen.Length1) && Sized(buffer0, screen.Length0, screen.Length1)
    requires AllSampled(ds)
    requires Accumulated(ds, screen.Length0, screen.Length1, screen0, buffer0, Grid(screen), Grid(buffer))
    modifies screen, buffer
    ensures mine == Drawn(faces, view)
    ensures ds' == ds + Strokes(faces, view, Grid(texture), texture.Length0, texture.Length1,
                                screen.Length0, screen.Length1)
    ensures AllSampled(ds')
    ensures Accumulated(ds', screen.Length0, screen.Length1, screen0, buffer0, Grid(screen), Grid(buffer))
  {
    ghost var texels := Grid(texture);
    mine := [];
    ds' := ds;
    var f: nat := 0;
    while f < |faces|
      invariant f <= |faces|
      invariant mine == Drawn(faces[..f], view)
      invariant Grid(texture) == texels
      invariant ds' == ds + Strokes(faces[..f], view, texels, texture.Length0, texture.Length1,
                                    screen.Length0, screen.Length1)
      invariant AllSampled(ds')
      invariant Accumulated(ds', screen.Length0, screen.Length1, screen0, buffer0, Grid(screen), Grid(buffer))
    {
      var seen := Seen(faces[f], view);
      StrokesSnoc(faces, f, view, seen, texels, texture.Length0, texture.Length1, screen.Length0, screen.Length1);
      ds' := RenderStep(faces[f], seen, texture, screen, buffer, ds', screen0, buffer0);
      if ShouldDraw(FaceDepths(seen)) {
        mine := mine + [f];
      }
      f := f + 1;
    }
    assert faces[..f] == faces;
  }
}
