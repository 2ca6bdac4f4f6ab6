/** From a loaded file to what the camera draws: the vertex layout `get_faces`
    produces, reshaped by `Model`, and the texture coordinate the camera then reads
    back from each vertex. */
module Pipeline {
  import opened Wrappers
  import opened Barycentric
  import opened Loader
  import opened Renderer

  /** With two-number normals a loaded vertex has seven numbers, and the camera's
      `point[-5:-3]` on the reshaped vertex picks the point's third coordinate and
      the first texture coordinate instead of the texture coordinate pair. */
  lemma MisreadUv(point: seq<real>, uv: seq<real>, normal: seq<real>, scale: real)
    requires |point| == 3 && |uv| == 2 && |normal| == 2
    ensures VertexUv(ReshapeVertex(point + uv + normal, scale)) == Vec2(point[2], uv[0])
  {
    var v := point + uv + normal;
    ReshapeKeepsTail(v, scale);
    assert v[2] == point[2] && v[3] == uv[0];
  }

  /** A concrete vertex whose texture coordinate (0.5, 0.25) reaches the camera as
      (3, 0.5). */
  lemma MisreadExample()
    ensures VertexUv(ReshapeVertex([1.0, 2.0, 3.0] + [0.5, 0.25] + [0.0, 0.0], 1.0)) == Vec2(3.0, 0.5)
    ensures VertexUv(ReshapeVertex([1.0, 2.0, 3.0] + [0.5, 0.25] + [0.0, 0.0], 1.0)) != Vec2(0.5, 0.25)
  {
    MisreadUv([1.0, 2.0, 3.0], [0.5, 0.25], [0.0, 0.0], 1.0);
  }

  /** With whole three-number normals a loaded vertex has eight numbers, and the
      camera reads back exactly the texture coordinate it was loaded with. */
  lemma FullNormalUv(point: seq<real>, uv: seq<real>, normal: seq<real>, scale: real)
    requires |point| == 3 && |uv| == 2 && |normal| == 3
    ensures VertexUv(ReshapeVertex(point + uv + normal, scale)) == Vec2(uv[0], uv[1])
  {
    var v := point + uv + normal;
    ReshapeKeepsTail(v, scale);
    assert v[3] == uv[0] && v[4] == uv[1];
  }

  /** As loaded: a slot `a/b/c` of a file whose point has three numbers, whose
      texture coordinate has two and whose normal line has at least two, reaches the
      camera with texture coordinate (z of the point, u) once the faces are given to
      a `Model`. */
  lemma LoadedUvMisread(lines: seq<Line>, toReal: string -> Option<real>, toInt: string -> Option<int>,
                        scale: real, f: int, k: int, a: int, b: int, c: int)
    requires Load(lines, toReal, toInt).Ok?
    requires 0 <= f < |Edges(lines)| && 0 <= k < |Edges(lines)[f]|
    requires var slot := Edges(lines)[f][k]; var t := ReadTables(lines, toReal, NormalWidth).value;
      |slot| == 3 &&
      toInt(slot[0]) == Some(a) && 1 <= a <= |t.points| && |t.points[a - 1]| == 3 &&
      toInt(slot[1]) == Some(b) && 1 <= b <= |t.uvs| && |t.uvs[b - 1]| == 2 &&
      toInt(slot[2]) == Some(c) && 1 <= c <= |t.vns| && |t.vns[c - 1]| == 2
    ensures var t := ReadTables(lines, toReal, NormalWidth).value;
      var faces := Load(lines, toReal, toInt).value;
      0 <= f < |faces| && 0 <= k < |faces[f]| && |faces[f][k]| == 7 &&
      VertexUv(Reshape(faces, scale)[f][k]) == Vec2(t.points[a - 1][2], t.uvs[b - 1][0])
  {
    var t := ReadTables(lines, toReal, NormalWidth).value;
    var faces := Load(lines, toReal, toInt).value;
    assert Reshape(faces, scale)[f][k] == ReshapeVertex(faces[f][k], scale);
    TripleVertex(lines, toReal, toInt, NormalWidth, f, k, a, b, c);
    MisreadUv(t.points[a - 1], t.uvs[b - 1], t.vns[c - 1], scale);
  }

  /** Corrected: loading whole normals, the same slot reaches the camera with the
      texture coordinate of its `vt` line. */
  lemma LoadedUvFull(lines: seq<Line>, toReal: string -> Option<real>, toInt: string -> Option<int>,
                     scale: real, f: int, k: int, a: int, b: int, c: int)
    requires LoadFull(lines, toReal, toInt).Ok?
    requires 0 <= f < |Edges(lines)| && 0 <= k < |Edges(lines)[f]|
    requires var slot := Edges(lines)[f][k]; var t := ReadTables(lines, toReal, 3).value;
      |slot| == 3 &&
      toInt(slot[0]) == Some(a) && 1 <= a <= |t.points| && |t.points[a - 1]| == 3 &&
      toInt(slot[1]) == Some(b) && 1 <= b <= |t.uvs| && |t.uvs[b - 1]| == 2 &&
      toInt(slot[2]) == Some(c) && 1 <= c <= |t.vns| && |t.vns[c - 1]| == 3
    ensures var t := ReadTables(lines, toReal, 3).value;
      var faces := LoadFull(lines, toReal, toInt).value;
      0 <= f < |faces| && 0 <= k < |faces[f]| && |faces[f][k]| == 8 &&
      VertexUv(Reshape(faces, scale)[f][k]) == Vec2(t.uvs[b - 1][0], t.uvs[b - 1][1])
  {
    var t := ReadTables(lines, toReal, 3).value;
    var faces := LoadFull(lines, toReal, toInt).value;
    assert Reshape(faces, scale)[f][k] == ReshapeVertex(faces[f][k], scale);
    TripleVertex(lines, toReal, toInt, 3, f, k, a, b, c);
    FullNormalUv(t.points[a - 1], t.uvs[b - 1], t.vns[c - 1], scale);
  }

}
