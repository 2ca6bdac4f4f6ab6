/** The triangle rasteriser: bounding box, perspective preprocessing of depths and
    texture coordinates, the per-pixel containment and depth test, texel sampling into
    a local grid, and the final composite onto the screen. */
module Raster {
  import opened Wrappers
  import opened PyList
  import opened Barycentric

  /** A depth-buffer cell: `float("inf")` or a finite depth. */
  datatype Depth = Inf | Fin(value: real)

  /** `buffer[x][y] > z`, with infinity above every finite depth. */
  predicate Exceeds(d: Depth, z: real) {
    d.Inf? || d.value > z
  }

  /** The order on depth cells: `d1 <= d2`. */
  predicate AtMost(d1: Depth, d2: Depth) {
    d2.Inf? || (d1.Fin? && d1.value <= d2.value)
  }

  datatype Color = Color(r: int, g: int, b: int, a: int)

  /** An integer screen position. */
  datatype IPoint = IPoint(x: int, y: int)

  /** What a covered pixel contributes: its interpolated depth and the texel it samples. */
  datatype Frag = Frag(z: real, tu: int, tv: int)

  /** Everything the rasteriser fixes before its pixel loop. */
  datatype Setup = Setup(
    tx: int, ty: int,            // bounding box origin (the minimum coordinates)
    tw: int, th: int,            // bounding box extent (maximum minus minimum)
    local: Tri,                  // the triangle translated so that the box starts at (0, 0)
    iz0: real, iz1: real, iz2: real,  // reciprocal vertex depths
    suv: Tri,                    // texture coordinates divided by depth / rz
    rz: real,                    // the nearest vertex depth
    scrW: int, scrH: int,        // screen size
    texW: int, texH: int)        // texture size

  predicate Ready(s: Setup) {
    s.iz0 > 0.0 && s.iz1 > 0.0 && s.iz2 > 0.0 && s.rz > 0.0 && s.texW >= 1 && s.texH >= 1
  }

  /** A vertex's texture coordinate divided by its depth relative to the nearest one. */
  function ScaleUv(uv: Vec2, z: real, rz: real): Vec2
    requires z != 0.0 && rz != 0.0
  {
    var q := z / rz;
    Vec2(uv.x / q, uv.y / q)
  }

  function Offset(p: IPoint, dx: int, dy: int): Vec2 {
    Vec2((p.x - dx) as real, (p.y - dy) as real)
  }

  /** The state the rasteriser has reached when its pixel loop starts, for a
      triangle, its vertex depths and texture coordinates, a screen and a texture size. */
  function MakeSetup(tri: seq<IPoint>, zs: seq<real>, uvs: seq<Vec2>,
                     scrW: int, scrH: int, texW: int, texH: int): (s: Setup)
    requires |tri| == 3 && |zs| == 3 && |uvs| == 3
    requires zs[0] > 0.0 && zs[1] > 0.0 && zs[2] > 0.0
    requires texW >= 1 && texH >= 1
    ensures Ready(s) && s.tw >= 0 && s.th >= 0
    ensures s.scrW == scrW && s.scrH == scrH && s.texW == texW && s.texH == texH
    ensures forall i :: 0 <= i < 3 ==>
      s.tx <= tri[i].x <= s.tx + s.tw && s.ty <= tri[i].y <= s.ty + s.th
    ensures s.rz == zs[0] || s.rz == zs[1] || s.rz == zs[2]
  {
    var tx := IMin3(tri[0].x, tri[1].x, tri[2].x);
    var ty := IMin3(tri[0].y, tri[1].y, tri[2].y);
    var rz := Min3(zs[0], zs[1], zs[2]);
    Setup(tx, ty,
          IMax3(tri[0].x, tri[1].x, tri[2].x) - tx, IMax3(tri[0].y, tri[1].y, tri[2].y) - ty,
          Tri(Offset(tri[0], tx, ty), Offset(tri[1], tx, ty), Offset(tri[2], tx, ty)),
          1.0 / zs[0], 1.0 / zs[1], 1.0 / zs[2],
          Tri(ScaleUv(uvs[0], zs[0], rz), ScaleUv(uvs[1], zs[1], rz), ScaleUv(uvs[2], zs[2], rz)),
          rz, scrW, scrH, texW, texH)
  }

  lemma WeightedPositive(w: Bary, a: real, b: real, c: real)
    requires Inside(w) && w.w0 + w.w1 + w.w2 == 1.0
    requires a > 0.0 && b > 0.0 && c > 0.0
    ensures w.w0 * a + w.w1 * b + w.w2 * c > 0.0
  {
    var m := Min3(a, b, c);
    WeightedAbove(w.w0, w.w1, w.w2, a, b, c, m);
    assert (w.w0 + w.w1 + w.w2) * m == m;
  }

  /** `b0 * a + b1 * b + b2 * c`. */
  function Weighted(w: Bary, a: real, b: real, c: real): real {
    w.w0 * a + w.w1 * b + w.w2 * c
  }

  /** The interpolated depth `1 / (b0 * zs[0] + b1 * zs[1] + b2 * zs[2])` of a
      covered pixel, the `zs` already holding reciprocal depths. */
  function Interpolate(s: Setup, w: Bary): (z: real)
    requires Ready(s) && Inside(w) && w.w0 + w.w1 + w.w2 == 1.0
    ensures z > 0.0
  {
    WeightedPositive(w, s.iz0, s.iz1, s.iz2);
    1.0 / Weighted(w, s.iz0, s.iz1, s.iz2)
  }

  /** The texture coordinate at a pixel before wrapping: the weighted depth-scaled
      coordinates, multiplied back by `z / rz`. */
  function UnwrappedUv(s: Setup, w: Bary, z: real): Vec2
    requires s.rz != 0.0
  {
    var uv := BaryToCart(w, s.suv);
    Vec2(uv.x * (z / s.rz), uv.y * (z / s.rz))
  }

  /** `int(u * (size - 1))`: the texel column (or row) sampled for a wrapped coordinate. */
  function Texel(u: real, size: int): int {
    Trunc(u * (size - 1) as real)
  }

  /** A wrapped coordinate always samples inside the texture, and for a texture at
      least two texels wide never its last column, since `int` truncates. */
  lemma TexelInRange(u: real, size: int)
    requires 0.0 <= u < 1.0 && size >= 1
    ensures 0 <= Texel(u, size) < size
    ensures size >= 2 ==> Texel(u, size) < size - 1
  {
    var n := (size - 1) as real;
    ScaleMono(u, 0.0, n);
    if size >= 2 {
      assert u * n < n by {
        assert n - u * n == (1.0 - u) * n;
        assert (1.0 - u) * n > 0.0;
      }
    } else {
      assert u * n == 0.0;
    }
  }

  /** Wrapping makes sampling periodic: coordinates a whole number apart sample the
      same texel (1.25 samples like 0.25). */
  lemma TexelPeriodic(u: real, k: int, size: int)
    ensures Texel(Frac(u + k as real), size) == Texel(Frac(u), size)
  {
    FracPeriodic(u, k);
  }

  /** The texel a covered pixel samples. */
  function TexelAt(s: Setup, w: Bary, z: real): (t: (int, int))
    requires Ready(s)
    ensures 0 <= t.0 < s.texW && 0 <= t.1 < s.texH
  {
    var uv := UnwrappedUv(s, w, z);
    TexelInRange(Frac(uv.x), s.texW);
    TexelInRange(Frac(uv.y), s.texH);
    (Texel(Frac(uv.x), s.texW), Texel(Frac(uv.y), s.texH))
  }

  /** Whether the pixel loop draws local position (x, y), and with which weights:
      `None` when the position is outside the loop's range, off the screen, not
      resolvable or outside the triangle. */
  function Coverage(s: Setup, x: int, y: int): (r: Option<Bary>)
    ensures r.Some? ==> 0 <= x < s.tw - 1 && 0 <= y < s.th - 1
    ensures r.Some? ==> 0 <= x + s.tx < s.scrW && 0 <= y + s.ty < s.scrH
    ensures r.Some? ==> Inside(r.value) && r.value.w0 + r.value.w1 + r.value.w2 == 1.0
  {
    if !(0 <= x < s.tw - 1 && 0 <= y < s.th - 1) then None
    else if x + s.tx < 0 || y + s.ty < 0 || x + s.tx > s.scrW - 1 || y + s.ty > s.scrH - 1 then None
    else
      match CartToBary(Vec2(x as real, y as real), s.local)
      case None => None
      case Some(w) => if w.w0 < 0.0 || w.w1 < 0.0 || w.w2 < 0.0 then None else Some(w)
  }

  /** The converse: every position in the loop's range and on the screen that
      resolves against the triangle with no negative weight is drawn, with those
      weights. */
  lemma CoverageComplete(s: Setup, x: int, y: int, w: Bary)
    requires 0 <= x < s.tw - 1 && 0 <= y < s.th - 1
    requires 0 <= x + s.tx < s.scrW && 0 <= y + s.ty < s.scrH
    requires CartToBary(Vec2(x as real, y as real), s.local) == Some(w)
    requires w.w0 >= 0.0 && w.w1 >= 0.0 && w.w2 >= 0.0
    ensures Coverage(s, x, y) == Some(w)
  {
  }

  /** What the pixel loop computes at local position (x, y): nothing for a position it
      does not draw, otherwise the depth and the texel of the fragment. */
  function PixelAt(s: Setup, x: int, y: int): (r: Option<Frag>)
    requires Ready(s)
    ensures r.Some? ==> 0 <= x < s.tw - 1 && 0 <= y < s.th - 1
    ensures r.Some? ==> 0 <= x + s.tx < s.scrW && 0 <= y + s.ty < s.scrH
    ensures r.Some? ==> 0 <= r.value.tu < s.texW && 0 <= r.value.tv < s.texH
  {
    match Coverage(s, x, y)
    case None => None
    case Some(w) =>
      var z := Interpolate(s, w);
      var t := TexelAt(s, w, z);
      Some(Frag(z, t.0, t.1))
  }

  /** The depth test `buffer[x][y] > z` passes for a fragment. */
  predicate Wins(d: Depth, f: Option<Frag>) {
    f.Some? && Exceeds(d, f.value.z)
  }

  /** A cell after a fragment is offered to it: it takes the fragment's depth exactly
      when the depth test passes, so a cell never increases. */
  function DepthAfter(d: Depth, f: Option<Frag>): (r: Depth)
    ensures AtMost(r, d)
    ensures r != d ==> Wins(d, f) && r == Fin(f.value.z)
  {
    if Wins(d, f) then Fin(f.value.z) else d
  }

  /** The smaller of two depth cells. */
  function MinDepth(d: Depth, e: Depth): Depth {
    if AtMost(d, e) then d else e
  }

  /** The depth test keeps the minimum: offering a fragment leaves the smaller of the
      cell and the fragment's depth. */
  lemma DepthIsMinimum(d: Depth, f: Frag)
    ensures DepthAfter(d, Some(f)) == MinDepth(d, Fin(f.z))
  {
  }

  /** Depth is independent of draw order: offering two fragments to a cell in either
      order leaves the same depth. */
  lemma DepthOrderIndependent(d: Depth, f: Option<Frag>, g: Option<Frag>)
    ensures DepthAfter(DepthAfter(d, f), g) == DepthAfter(DepthAfter(d, g), f)
  {
  }

  lemma RecipAntitone(a: real, b: real)
    requires 0.0 < a <= b
    ensures 1.0 / b <= 1.0 / a
  {
    assert (1.0 / b) * b == 1.0 && (1.0 / a) * a == 1.0;
    ScaleMono(1.0 / b, a, b);
    ScaleMono(1.0 / a, a, b);
    assert (1.0 / b) * a <= 1.0;
    assert 1.0 / b == ((1.0 / b) * a) * (1.0 / a);
    ScaleMono(1.0 / a, (1.0 / b) * a, 1.0);
  }

  /** Weights that are non-negative and sum to one keep a weighted sum between the
      bounds of its terms. */
  lemma ConvexBounds(w: Bary, r0: real, r1: real, r2: real, lo: real, hi: real)
    requires Inside(w) && w.w0 + w.w1 + w.w2 == 1.0
    requires lo <= r0 <= hi && lo <= r1 <= hi && lo <= r2 <= hi
    ensures lo <= Weighted(w, r0, r1, r2) <= hi
  {
    var w0, w1, w2 := w.w0, w.w1, w.w2;
    WeightedAbove(w0, w1, w2, r0, r1, r2, lo);
    WeightedAbove(w0, w1, w2, -r0, -r1, -r2, -hi);
    assert w0 * -r0 + w1 * -r1 + w2 * -r2 == -(w0 * r0 + w1 * r1 + w2 * r2);
    assert (w0 + w1 + w2) * lo == lo;
    assert (w0 + w1 + w2) * -hi == -hi;
  }

  lemma RecipBetween(S: real, m: real, M: real)
    requires 0.0 < m && 0.0 < M && 1.0 / M <= S <= 1.0 / m
    ensures S > 0.0 && m <= 1.0 / S <= M
  {
    RecipAntitone(1.0 / M, S);
    RecipAntitone(S, 1.0 / m);
    assert 1.0 / (1.0 / M) == M;
    assert 1.0 / (1.0 / m) == m;
  }

  lemma RecipInside(z: real, m: real, M: real)
    requires 0.0 < m <= z <= M
    ensures 1.0 / M <= 1.0 / z <= 1.0 / m
  {
    RecipAntitone(m, z);
    RecipAntitone(z, M);
  }

  /** Hyperbolic interpolation stays between the nearest and the farthest vertex
      depth: with positive depths and weights that are non-negative and sum to one,
      `1 / (b0 / z0 + b1 / z1 + b2 / z2)` lies in `[min(zs), max(zs)]`. */
  lemma HarmonicBetween(w: Bary, z0: real, z1: real, z2: real)
    requires Inside(w) && w.w0 + w.w1 + w.w2 == 1.0
    requires z0 > 0.0 && z1 > 0.0 && z2 > 0.0
    ensures var S := Weighted(w, 1.0 / z0, 1.0 / z1, 1.0 / z2);
      S > 0.0 && Min3(z0, z1, z2) <= 1.0 / S <= Max3(z0, z1, z2)
  {
    var m, M := Min3(z0, z1, z2), Max3(z0, z1, z2);
    RecipInside(z0, m, M);
    RecipInside(z1, m, M);
    RecipInside(z2, m, M);
    ConvexBounds(w, 1.0 / z0, 1.0 / z1, 1.0 / z2, 1.0 / M, 1.0 / m);
    RecipBetween(Weighted(w, 1.0 / z0, 1.0 / z1, 1.0 / z2), m, M);
  }

  lemma PixelDepthWithin(s: Setup, x: int, y: int, z0: real, z1: real, z2: real)
    requires Ready(s) && z0 > 0.0 && z1 > 0.0 && z2 > 0.0
    requires s.iz0 == 1.0 / z0 && s.iz1 == 1.0 / z1 && s.iz2 == 1.0 / z2
    ensures PixelAt(s, x, y).Some? ==> Min3(z0, z1, z2) <= PixelAt(s, x, y).value.z <= Max3(z0, z1, z2)
  {
    var c := Coverage(s, x, y);
    if c.Some? {
      var w := c.value;
      HarmonicBetween(w, z0, z1, z2);
      assert PixelAt(s, x, y).value.z == Interpolate(s, w) == 1.0 / Weighted(w, 1.0 / z0, 1.0 / z1, 1.0 / z2);
    }
  }

  /** Every depth the rasteriser computes for a triangle lies between the nearest and
      the farthest of its vertex depths. */
  lemma FragmentDepthBetween(tri: seq<IPoint>, zs: seq<real>, uvs: seq<Vec2>,
                             scrW: int, scrH: int, texW: int, texH: int, x: int, y: int)
    requires |tri| == 3 && |zs| == 3 && |uvs| == 3
    requires zs[0] > 0.0 && zs[1] > 0.0 && zs[2] > 0.0
    requires texW >= 1 && texH >= 1
    ensures var f := PixelAt(MakeSetup(tri, zs, uvs, scrW, scrH, texW, texH), x, y);
      f.Some? ==> Min3(zs[0], zs[1], zs[2]) <= f.value.z <= Max3(zs[0], zs[1], zs[2])
  {
    var s := MakeSetup(tri, zs, uvs, scrW, scrH, texW, texH);
    PixelDepthWithin(s, x, y, zs[0], zs[1], zs[2]);
  }

  /** Perspective-correct interpolation in its textbook form: each coordinate
      weighted by `b_i / z_i`, normalised by the sum of those weights. */
  function HyperbolicUv(w: Bary, z0: real, z1: real, z2: real, u0: Vec2, u1: Vec2, u2: Vec2): Vec2
    requires z0 != 0.0 && z1 != 0.0 && z2 != 0.0
    requires w.w0 / z0 + w.w1 / z1 + w.w2 / z2 != 0.0
  {
    Vec2(Hyperbolic(w, z0, z1, z2, u0.x, u1.x, u2.x), Hyperbolic(w, z0, z1, z2, u0.y, u1.y, u2.y))
  }

  /** One coordinate of `HyperbolicUv`. */
  function Hyperbolic(w: Bary, z0: real, z1: real, z2: real, u0: real, u1: real, u2: real): real
    requires z0 != 0.0 && z1 != 0.0 && z2 != 0.0
    requires w.w0 / z0 + w.w1 / z1 + w.w2 / z2 != 0.0
  {
    (w.w0 * u0 / z0 + w.w1 * u1 / z1 + w.w2 * u2 / z2) / (w.w0 / z0 + w.w1 / z1 + w.w2 / z2)
  }

  lemma ScaledTerm(w: real, u: real, z: real, rz: real)
    requires z != 0.0 && rz != 0.0
    ensures w * (u / (z / rz)) == rz * (w * u / z)
  {
    assert u / (z / rz) == rz * (u / z);
  }

  lemma ScaledSum(w0: real, w1: real, w2: real, u0: real, u1: real, u2: real,
                  z0: real, z1: real, z2: real, rz: real)
    requires z0 != 0.0 && z1 != 0.0 && z2 != 0.0 && rz != 0.0
    ensures w0 * (u0 / (z0 / rz)) + w1 * (u1 / (z1 / rz)) + w2 * (u2 / (z2 / rz))
         == rz * (w0 * u0 / z0 + w1 * u1 / z1 + w2 * u2 / z2)
  {
    ScaledTerm(w0, u0, z0, rz);
    ScaledTerm(w1, u1, z1, rz);
    ScaledTerm(w2, u2, z2, rz);
  }

  lemma UnscaleSum(rz: real, A: real, S: real)
    requires rz != 0.0 && S != 0.0
    ensures rz * A * ((1.0 / S) / rz) == A / S
  {
  }

  lemma RecipWeights(w0: real, w1: real, w2: real, z0: real, z1: real, z2: real)
    requires z0 != 0.0 && z1 != 0.0 && z2 != 0.0
    ensures w0 * (1.0 / z0) + w1 * (1.0 / z1) + w2 * (1.0 / z2) == w0 / z0 + w1 / z1 + w2 / z2
  {
  }

  lemma PerspectiveAlgebra(w0: real, w1: real, w2: real, z0: real, z1: real, z2: real,
                            u0: real, u1: real, u2: real, rz: real)
    requires z0 != 0.0 && z1 != 0.0 && z2 != 0.0 && rz != 0.0
    requires w0 * (1.0 / z0) + w1 * (1.0 / z1) + w2 * (1.0 / z2) != 0.0
    ensures w0 / z0 + w1 / z1 + w2 / z2 != 0.0
    ensures (w0 * (u0 / (z0 / rz)) + w1 * (u1 / (z1 / rz)) + w2 * (u2 / (z2 / rz)))
              * ((1.0 / (w0 * (1.0 / z0) + w1 * (1.0 / z1) + w2 * (1.0 / z2))) / rz)
         == (w0 * u0 / z0 + w1 * u1 / z1 + w2 * u2 / z2) / (w0 / z0 + w1 / z1 + w2 / z2)
  {
    RecipWeights(w0, w1, w2, z0, z1, z2);
    ScaledSum(w0, w1, w2, u0, u1, u2, z0, z1, z2, rz);
    var X := w0 * (u0 / (z0 / rz)) + w1 * (u1 / (z1 / rz)) + w2 * (u2 / (z2 / rz));
    var T := w0 * (1.0 / z0) + w1 * (1.0 / z1) + w2 * (1.0 / z2);
    var A := w0 * u0 / z0 + w1 * u1 / z1 + w2 * u2 / z2;
    var S := w0 / z0 + w1 / z1 + w2 / z2;
    assert X == rz * A && T == S;
    UnscaleSum(rz, A, S);
    assert X * ((1.0 / T) / rz) == rz * A * ((1.0 / S) / rz);
  }

  /** The rasteriser's texture coordinate before wrapping is exactly the
      perspective-correct one: dividing by `depth / rz` up front and multiplying by
      `z / rz` at the pixel cancels `rz` out. */
  lemma PerspectiveCorrect(tri: seq<IPoint>, zs: seq<real>, uvs: seq<Vec2>,
                           scrW: int, scrH: int, texW: int, texH: int, w: Bary)
    requires |tri| == 3 && |zs| == 3 && |uvs| == 3
    requires zs[0] > 0.0 && zs[1] > 0.0 && zs[2] > 0.0
    requires texW >= 1 && texH >= 1
    requires Inside(w) && w.w0 + w.w1 + w.w2 == 1.0
    ensures var s := MakeSetup(tri, zs, uvs, scrW, scrH, texW, texH);
      w.w0 / zs[0] + w.w1 / zs[1] + w.w2 / zs[2] != 0.0 &&
      UnwrappedUv(s, w, Interpolate(s, w)) == HyperbolicUv(w, zs[0], zs[1], zs[2], uvs[0], uvs[1], uvs[2])
  {
    var s := MakeSetup(tri, zs, uvs, scrW, scrH, texW, texH);
    SetupPerspective(s, w, zs[0], zs[1], zs[2], uvs[0], uvs[1], uvs[2]);
  }

  lemma SetupPerspective(s: Setup, w: Bary, z0: real, z1: real, z2: real, u0: Vec2, u1: Vec2, u2: Vec2)
    requires Ready(s) && Inside(w) && w.w0 + w.w1 + w.w2 == 1.0
    requires z0 > 0.0 && z1 > 0.0 && z2 > 0.0
    requires s.iz0 == 1.0 / z0 && s.iz1 == 1.0 / z1 && s.iz2 == 1.0 / z2
    requires s.suv == Tri(ScaleUv(u0, z0, s.rz), ScaleUv(u1, z1, s.rz), ScaleUv(u2, z2, s.rz))
    ensures w.w0 / z0 + w.w1 / z1 + w.w2 / z2 != 0.0
    ensures UnwrappedUv(s, w, Interpolate(s, w)) == HyperbolicUv(w, z0, z1, z2, u0, u1, u2)
  {
    WeightedPositive(w, s.iz0, s.iz1, s.iz2);
    assert Interpolate(s, w) == 1.0 / Weighted(w, 1.0 / z0, 1.0 / z1, 1.0 / z2);
    ScaledUvCancels(w, z0, z1, z2, u0, u1, u2, s.rz);
  }

  lemma ScaledUvCancels(w: Bary, z0: real, z1: real, z2: real, u0: Vec2, u1: Vec2, u2: Vec2, rz: real)
    requires z0 != 0.0 && z1 != 0.0 && z2 != 0.0 && rz != 0.0
    requires Weighted(w, 1.0 / z0, 1.0 / z1, 1.0 / z2) != 0.0
    ensures w.w0 / z0 + w.w1 / z1 + w.w2 / z2 != 0.0
    ensures var q := BaryToCart(w, Tri(ScaleUv(u0, z0, rz), ScaleUv(u1, z1, rz), ScaleUv(u2, z2, rz)));
      var k := (1.0 / Weighted(w, 1.0 / z0, 1.0 / z1, 1.0 / z2)) / rz;
      Vec2(q.x * k, q.y * k) == HyperbolicUv(w, z0, z1, z2, u0, u1, u2)
  {
    var q := BaryToCart(w, Tri(ScaleUv(u0, z0, rz), ScaleUv(u1, z1, rz), ScaleUv(u2, z2, rz)));
    var k := (1.0 / Weighted(w, 1.0 / z0, 1.0 / z1, 1.0 / z2)) / rz;
    var a, b, c := ScaleUv(u0, z0, rz), ScaleUv(u1, z1, rz), ScaleUv(u2, z2, rz);
    assert q == Vec2(Weighted(w, a.x, b.x, c.x), Weighted(w, a.y, b.y, c.y));
    assert a.x == u0.x / (z0 / rz) && b.x == u1.x / (z1 / rz) && c.x == u2.x / (z2 / rz);
    assert a.y == u0.y / (z0 / rz) && b.y == u1.y / (z1 / rz) && c.y == u2.y / (z2 / rz);
    ScaledComponent(w, z0, z1, z2, u0.x, u1.x, u2.x, rz);
    ScaledComponent(w, z0, z1, z2, u0.y, u1.y, u2.y, rz);
    var X := Weighted(w, u0.x / (z0 / rz), u1.x / (z1 / rz), u2.x / (z2 / rz));
    var Y := Weighted(w, u0.y / (z0 / rz), u1.y / (z1 / rz), u2.y / (z2 / rz));
    assert q.x == X && q.y == Y;
  }

  lemma ScaledComponent(w: Bary, z0: real, z1: real, z2: real, u0: real, u1: real, u2: real, rz: real)
    requires z0 != 0.0 && z1 != 0.0 && z2 != 0.0 && rz != 0.0
    requires Weighted(w, 1.0 / z0, 1.0 / z1, 1.0 / z2) != 0.0
    ensures w.w0 / z0 + w.w1 / z1 + w.w2 / z2 != 0.0
    ensures Weighted(w, u0 / (z0 / rz), u1 / (z1 / rz), u2 / (z2 / rz))
              * ((1.0 / Weighted(w, 1.0 / z0, 1.0 / z1, 1.0 / z2)) / rz)
         == Hyperbolic(w, z0, z1, z2, u0, u1, u2)
  {
    PerspectiveAlgebra(w.w0, w.w1, w.w2, z0, z1, z2, u0, u1, u2, rz);
  }

  lemma SelectFirst(u: real, z: real, a: real, b: real, c: real, d: real)
    requires z != 0.0 && b != 0.0 && d != 0.0
    ensures (1.0 * u / z + 0.0 * a / b + 0.0 * c / d) / (1.0 / z + 0.0 / b + 0.0 / d) == u
  {
    assert 1.0 * u / z + 0.0 * a / b + 0.0 * c / d == u / z;
    assert 1.0 / z + 0.0 / b + 0.0 / d == 1.0 / z;
    assert (u / z) / (1.0 / z) == u;
  }

  lemma SelectSecond(u: real, z: real, a: real, b: real, c: real, d: real)
    requires z != 0.0 && b != 0.0 && d != 0.0
    ensures (0.0 * a / b + 1.0 * u / z + 0.0 * c / d) / (0.0 / b + 1.0 / z + 0.0 / d) == u
  {
    assert 0.0 * a / b + 1.0 * u / z + 0.0 * c / d == u / z;
    assert 0.0 / b + 1.0 / z + 0.0 / d == 1.0 / z;
    assert (u / z) / (1.0 / z) == u;
  }

  lemma SelectThird(u: real, z: real, a: real, b: real, c: real, d: real)
    requires z != 0.0 && b != 0.0 && d != 0.0
    ensures (0.0 * a / b + 0.0 * c / d + 1.0 * u / z) / (0.0 / b + 0.0 / d + 1.0 / z) == u
  {
    assert 0.0 * a / b + 0.0 * c / d + 1.0 * u / z == u / z;
    assert 0.0 / b + 0.0 / d + 1.0 / z == 1.0 / z;
    assert (u / z) / (1.0 / z) == u;
  }

  /** At a vertex the perspective-correct coordinate is that vertex's own. */
  lemma HyperbolicAtVertex(z0: real, z1: real, z2: real, u0: Vec2, u1: Vec2, u2: Vec2)
    requires z0 != 0.0 && z1 != 0.0 && z2 != 0.0
    ensures HyperbolicUv(Bary(1.0, 0.0, 0.0), z0, z1, z2, u0, u1, u2) == u0
    ensures HyperbolicUv(Bary(0.0, 1.0, 0.0), z0, z1, z2, u0, u1, u2) == u1
    ensures HyperbolicUv(Bary(0.0, 0.0, 1.0), z0, z1, z2, u0, u1, u2) == u2
  {
    SelectFirst(u0.x, z0, u1.x, z1, u2.x, z2);
    SelectFirst(u0.y, z0, u1.y, z1, u2.y, z2);
    SelectSecond(u1.x, z1, u0.x, z0, u2.x, z2);
    SelectSecond(u1.y, z1, u0.y, z0, u2.y, z2);
    SelectThird(u2.x, z2, u0.x, z0, u1.x, z1);
    SelectThird(u2.y, z2, u0.y, z0, u1.y, z1);
  }

  /** Local position (lx, ly) comes before (x, y) in the pixel loop's column-major order. */
  predicate Before(lx: int, ly: int, x: int, y: int) {
    lx < x || (lx == x && ly < y)
  }

  /** The pixel loop of the rasteriser: every position of the local grid except its
      last column and row, in column-major order, offering each covered position's
      fragment to the depth buffer and, where the depth test passes, storing the
      sampled texel in the local grid. */
  method Rasterise(s: Setup, buffer: array2<Depth>, tsurf: array2<Option<Color>>, texture: array2<Color>)
    requires Ready(s)
    requires buffer.Length0 == s.scrW && buffer.Length1 == s.scrH
    requires tsurf.Length0 == s.tw && tsurf.Length1 == s.th
    requires texture.Length0 == s.texW && texture.Length1 == s.texH
    requires forall lx, ly :: 0 <= lx < tsurf.Length0 && 0 <= ly < tsurf.Length1 ==> tsurf[lx, ly].None?
    modifies buffer, tsurf
    ensures forall X, Y :: 0 <= X < buffer.Length0 && 0 <= Y < buffer.Length1 ==>
      buffer[X, Y] == DepthAfter(old(buffer[X, Y]), PixelAt(s, X - s.tx, Y - s.ty))
    ensures forall lx, ly :: 0 <= lx < tsurf.Length0 && 0 <= ly < tsurf.Length1 ==>
      tsurf[lx, ly] == (var f := PixelAt(s, lx, ly);
                        if f.Some? && Exceeds(old(buffer[lx + s.tx, ly + s.ty]), f.value.z)
                        then Some(texture[f.value.tu, f.value.tv]) else None)
  {
    var x := 0;
    while x < tsurf.Length0 - 1
      invariant 0 <= x <= if tsurf.Length0 >= 1 then tsurf.Length0 - 1 else 0
      invariant forall X, Y :: 0 <= X < buffer.Length0 && 0 <= Y < buffer.Length1 ==>
        buffer[X, Y] == if X - s.tx < x then DepthAfter(old(buffer[X, Y]), PixelAt(s, X - s.tx, Y - s.ty))
                        else old(buffer[X, Y])
      invariant forall lx, ly :: 0 <= lx < tsurf.Length0 && 0 <= ly < tsurf.Length1 ==>
        tsurf[lx, ly] == (var f := PixelAt(s, lx, ly);
                          if lx < x && f.Some? && Exceeds(old(buffer[lx + s.tx, ly + s.ty]), f.value.z)
                          then Some(texture[f.value.tu, f.value.tv]) else None)
    {
      RasteriseColumn(s, x, buffer, tsurf, texture);
      x := x + 1;
    }
  }

  /** One column `x` of the pixel loop: every row but the last, in order. Only the
      buffer cells of that column and the local cells of that column change. */
  method RasteriseColumn(s: Setup, x: int, buffer: array2<Depth>, tsurf: array2<Option<Color>>,
                         texture: array2<Color>)
    requires Ready(s)
    requires buffer.Length0 == s.scrW && buffer.Length1 == s.scrH
    requires tsurf.Length0 == s.tw && tsurf.Length1 == s.th
    requires texture.Length0 == s.texW && texture.Length1 == s.texH
    requires 0 <= x < tsurf.Length0 - 1
    requires forall ly :: 0 <= ly < tsurf.Length1 ==> tsurf[x, ly].None?
    modifies buffer, tsurf
    ensures forall X, Y :: 0 <= X < buffer.Length0 && 0 <= Y < buffer.Length1 ==>
      buffer[X, Y] == if X - s.tx == x then DepthAfter(old(buffer[X, Y]), PixelAt(s, x, Y - s.ty))
                      else old(buffer[X, Y])
    ensures forall lx, ly :: 0 <= lx < tsurf.Length0 && 0 <= ly < tsurf.Length1 ==>
      tsurf[lx, ly] == if lx != x then old(tsurf[lx, ly])
                       else (var f := PixelAt(s, x, ly);
                             if f.Some? && Exceeds(old(buffer[x + s.tx, ly + s.ty]), f.value.z)
                             then Some(texture[f.value.tu, f.value.tv]) else None)
  {
    var y := 0;
    while y < tsurf.Length1 - 1
      invariant 0 <= y <= if tsurf.Length1 >= 1 then tsurf.Length1 - 1 else 0
      invariant forall X, Y :: 0 <= X < buffer.Length0 && 0 <= Y < buffer.Length1 ==>
        buffer[X, Y] == if X - s.tx == x && Y - s.ty < y
                        then DepthAfter(old(buffer[X, Y]), PixelAt(s, x, Y - s.ty))
                        else old(buffer[X, Y])
      invariant forall lx, ly :: 0 <= lx < tsurf.Length0 && 0 <= ly < tsurf.Length1 ==>
        tsurf[lx, ly] == if lx != x || ly >= y then old(tsurf[lx, ly])
                         else (var f := PixelAt(s, x, ly);
                               if f.Some? && Exceeds(old(buffer[x + s.tx, ly + s.ty]), f.value.z)
                               then Some(texture[f.value.tu, f.value.tv]) else None)
    {
      var c := Coverage(s, x, y);
      if c.Some? {
        var z := Interpolate(s, c.value);
        if Exceeds(buffer[x + s.tx, y + s.ty], z) {
          buffer[x + s.tx, y + s.ty] := Fin(z);
          var t := TexelAt(s, c.value, z);
          tsurf[x, y] := Some(texture[t.0, t.1]);
        }
      }
      y := y + 1;
    }
  }

  /** `screen.blit(tsurf, (tx, ty))`: every drawn cell of the local grid replaces the
      screen pixel it lands on; cells left empty, and cells that fall off the screen,
      change nothing. */
  method Blit(screen: array2<Color>, tsurf: array2<Option<Color>>, tx: int, ty: int)
    modifies screen
    ensures forall X, Y :: 0 <= X < screen.Length0 && 0 <= Y < screen.Length1 ==>
      screen[X, Y] == if 0 <= X - tx < tsurf.Length0 && 0 <= Y - ty < tsurf.Length1 && tsurf[X - tx, Y - ty].Some?
                      then tsurf[X - tx, Y - ty].value else old(screen[X, Y])
  {
    var x := 0;
    while x < tsurf.Length0
      invariant 0 <= x <= tsurf.Length0
      invariant forall X, Y :: 0 <= X < screen.Length0 && 0 <= Y < screen.Length1 ==>
        screen[X, Y] == if 0 <= X - tx < x && 0 <= Y - ty < tsurf.Length1 && tsurf[X - tx, Y - ty].Some?
                        then tsurf[X - tx, Y - ty].value else old(screen[X, Y])
    {
      var y := 0;
      while y < tsurf.Length1
        invariant 0 <= y <= tsurf.Length1
        invariant forall X, Y :: 0 <= X < screen.Length0 && 0 <= Y < screen.Length1 ==>
          screen[X, Y] == if 0 <= X - tx < tsurf.Length0 && 0 <= Y - ty < tsurf.Length1
                             && Before(X - tx, Y - ty, x, y) && tsurf[X - tx, Y - ty].Some?
                          then tsurf[X - tx, Y - ty].value else old(screen[X, Y])
      {
        if 0 <= x + tx < screen.Length0 && 0 <= y + ty < screen.Length1 && tsurf[x, y].Some? {
          screen[x + tx, y + ty] := tsurf[x, y].value;
        }
        y := y + 1;
      }
      x := x + 1;
    }
  }

  /** The contents of a grid, column by column, as a value. */
  function Grid<T>(a: array2<T>): (g: seq<seq<T>>)
    reads a
    ensures Sized(g, a.Length0, a.Length1)
    ensures forall X, Y :: 0 <= X < a.Length0 && 0 <= Y < a.Length1 ==> g[X][Y] == a[X, Y]
  {
    seq(a.Length0, X requires 0 <= X < a.Length0 reads a =>
      seq(a.Length1, Y requires 0 <= Y < a.Length1 reads a => a[X, Y]))
  }

  /** A grid value `w` columns wide and `h` rows high. */
  predicate Sized<T>(g: seq<seq<T>>, w: int, h: int) {
    |g| == w && forall X :: 0 <= X < w ==> |g[X]| == h
  }

  /** What drawing the triangle of setup `s`, sampling `texels`, does to a screen and a
      depth buffer: from the pixels `screen0` and cells `buffer0` to `screen1` and
      `buffer1`, every cell holds the depth test's outcome for the fragment at that
      pixel, every pixel whose test passed shows the sampled texel, and every other
      pixel is unchanged. */
  predicate Painted(s: Setup, texels: seq<seq<Color>>, screen0: seq<seq<Color>>, buffer0: seq<seq<Depth>>,
                    screen1: seq<seq<Color>>, buffer1: seq<seq<Depth>>)
    requires Ready(s) && Sized(texels, s.texW, s.texH)
    requires Sized(screen0, s.scrW, s.scrH) && Sized(buffer0, s.scrW, s.scrH)
    requires Sized(screen1, s.scrW, s.scrH) && Sized(buffer1, s.scrW, s.scrH)
  {
    forall X, Y :: 0 <= X < s.scrW && 0 <= Y < s.scrH ==>
      var f := PixelAt(s, X - s.tx, Y - s.ty);
      buffer1[X][Y] == DepthAfter(buffer0[X][Y], f) &&
      screen1[X][Y] == if Wins(buffer0[X][Y], f) then texels[f.value.tu][f.value.tv] else screen0[X][Y]
  }

  /** `draw_triangle`: rasterises one triangle with screen-space vertices `tri`, vertex
      depths `zs` and texture coordinates `uvs` onto the screen through the depth
      buffer. As in the source it also leaves the reciprocal depths in `zs` and the
      depth-scaled coordinates in `uvs`. Screen and buffer end `Painted` by the
      triangle's setup from what they held, sampling what the texture held. */
  method DrawTriangle(screen: array2<Color>, tri: seq<IPoint>, zs: array<real>, uvs: array<Vec2>,
                      buffer: array2<Depth>, texture: array2<Color>)
    requires |tri| == 3 && zs.Length == 3 && uvs.Length == 3
    requires zs[0] > 0.0 && zs[1] > 0.0 && zs[2] > 0.0
    requires buffer.Length0 == screen.Length0 && buffer.Length1 == screen.Length1
    requires texture.Length0 >= 1 && texture.Length1 >= 1
    modifies screen, zs, uvs, buffer
    ensures var rz := Min3(old(zs[0]), old(zs[1]), old(zs[2]));
      zs[..] == [1.0 / old(zs[0]), 1.0 / old(zs[1]), 1.0 / old(zs[2])] &&
      uvs[..] == [ScaleUv(old(uvs[0]), old(zs[0]), rz), ScaleUv(old(uvs[1]), old(zs[1]), rz),
                  ScaleUv(old(uvs[2]), old(zs[2]), rz)]
    ensures Painted(MakeSetup(tri, old(zs[..]), old(uvs[..]), screen.Length0, screen.Length1,
                              texture.Length0, texture.Length1),
                    old(Grid(texture)), old(Grid(screen)), old(Grid(buffer)), Grid(screen), Grid(buffer))
  {
    ghost var texels, screen0, buffer0 := Grid(texture), Grid(screen), Grid(buffer);
    var s := Prepare(tri, zs, uvs, screen.Length0, screen.Length1, texture.Length0, texture.Length1);
    assert Grid(texture) == texels && Grid(screen) == screen0 && Grid(buffer) == buffer0;
    Paint(s, screen, buffer, texture);
  }

  /** The pixel loop and the composite, on a fresh transparent local grid the size
      of the bounding box, stated on the grids' contents. */
  method Paint(s: Setup, screen: array2<Color>, buffer: array2<Depth>, texture: array2<Color>)
    requires Ready(s) && s.tw >= 0 && s.th >= 0
    requires buffer.Length0 == s.scrW && buffer.Length1 == s.scrH
    requires screen.Length0 == s.scrW && screen.Length1 == s.scrH
    requires texture.Length0 == s.texW && texture.Length1 == s.texH
    modifies screen, buffer
    ensures Painted(s, old(Grid(texture)), old(Grid(screen)), old(Grid(buffer)), Grid(screen), Grid(buffer))
  {
    ghost var texels, screen0, buffer0 := Grid(texture), Grid(screen), Grid(buffer);
    PaintCells(s, screen, buffer, texture);
    ghost var screen1, buffer1 := Grid(screen), Grid(buffer);
    forall X, Y | 0 <= X < s.scrW && 0 <= Y < s.scrH
      ensures var f := PixelAt(s, X - s.tx, Y - s.ty);
        buffer1[X][Y] == DepthAfter(buffer0[X][Y], f) &&
        screen1[X][Y] == if Wins(buffer0[X][Y], f) then texels[f.value.tu][f.value.tv] else screen0[X][Y]
    {
      var f := PixelAt(s, X - s.tx, Y - s.ty);
      assert screen1[X][Y] == screen[X, Y] && screen0[X][Y] == old(screen[X, Y]);
      assert buffer1[X][Y] == buffer[X, Y] && buffer0[X][Y] == old(buffer[X, Y]);
      if f.Some? {
        assert texels[f.value.tu][f.value.tv] == old(texture[f.value.tu, f.value.tv]);
      }
    }
  }

  /** The same, cell by cell on the arrays: every buffer cell holds the depth test's
      outcome for the fragment at its pixel, and every pixel whose test passed shows
      the texel sampled from the texture as it was before drawing. */
  method PaintCells(s: Setup, screen: array2<Color>, buffer: array2<Depth>, texture: array2<Color>)
    requires Ready(s) && s.tw >= 0 && s.th >= 0
    requires buffer.Length0 == s.scrW && buffer.Length1 == s.scrH
    requires screen.Length0 == s.scrW && screen.Length1 == s.scrH
    requires texture.Length0 == s.texW && texture.Length1 == s.texH
    modifies screen, buffer
    ensures forall X, Y :: 0 <= X < buffer.Length0 && 0 <= Y < buffer.Length1 ==>
      buffer[X, Y] == DepthAfter(old(buffer[X, Y]), PixelAt(s, X - s.tx, Y - s.ty))
    ensures forall X, Y :: 0 <= X < screen.Length0 && 0 <= Y < screen.Length1 ==>
      screen[X, Y] == (var f := PixelAt(s, X - s.tx, Y - s.ty);
                       if Wins(old(buffer[X, Y]), f) then old(texture[f.value.tu, f.value.tv])
                       else old(screen[X, Y]))
  {
    var tsurf := new Option<Color>[s.tw, s.th]((_, _) => None);
    Rasterise(s, buffer, tsurf, texture);
    Blit(screen, tsurf, s.tx, s.ty);
    forall X, Y | 0 <= X < screen.Length0 && 0 <= Y < screen.Length1
      ensures screen[X, Y] == (var f := PixelAt(s, X - s.tx, Y - s.ty);
                               if Wins(old(buffer[X, Y]), f) then old(texture[f.value.tu, f.value.tv])
                               else old(screen[X, Y]))
    {
      var lx, ly := X - s.tx, Y - s.ty;
      var f := PixelAt(s, lx, ly);
      if 0 <= lx < s.tw && 0 <= ly < s.th {
        assert lx + s.tx == X && ly + s.ty == Y;
      } else {
        assert f.None?;
      }
    }
  }

  /** The part of `draw_triangle` before the pixel loop: the bounding box, the
      translated triangle, and the in-place replacement of each depth by its reciprocal
      and of each texture coordinate by its depth-scaled form. */
  method Prepare(tri: seq<IPoint>, zs: array<real>, uvs: array<Vec2>,
                 scrW: int, scrH: int, texW: int, texH: int) returns (s: Setup)
    requires |tri| == 3 && zs.Length == 3 && uvs.Length == 3
    requires zs[0] > 0.0 && zs[1] > 0.0 && zs[2] > 0.0
    requires texW >= 1 && texH >= 1
    modifies zs, uvs
    ensures s == MakeSetup(tri, old(zs[..]), old(uvs[..]), scrW, scrH, texW, texH)
    ensures var rz := Min3(old(zs[0]), old(zs[1]), old(zs[2]));
      zs[..] == [1.0 / old(zs[0]), 1.0 / old(zs[1]), 1.0 / old(zs[2])] &&
      uvs[..] == [ScaleUv(old(uvs[0]), old(zs[0]), rz), ScaleUv(old(uvs[1]), old(zs[1]), rz),
                  ScaleUv(old(uvs[2]), old(zs[2]), rz)]
  {
    var tx, ty := IMin3(tri[0].x, tri[1].x, tri[2].x), IMin3(tri[0].y, tri[1].y, tri[2].y);
    var tw, th := IMax3(tri[0].x, tri[1].x, tri[2].x) - tx, IMax3(tri[0].y, tri[1].y, tri[2].y) - ty;
    var local := Tri(Offset(tri[0], tx, ty), Offset(tri[1], tx, ty), Offset(tri[2], tx, ty));
    var rz := Min3(zs[0], zs[1], zs[2]);
    var i := 0;
    while i < 3
      invariant 0 <= i <= 3
      invariant forall k :: 0 <= k < i ==>
        zs[k] == 1.0 / old(zs[k]) && uvs[k] == ScaleUv(old(uvs[k]), old(zs[k]), rz)
      invariant forall k :: i <= k < 3 ==> zs[k] == old(zs[k]) && uvs[k] == old(uvs[k])
    {
      var z := zs[i];
      zs[i] := 1.0 / z;
      z := z / rz;
      uvs[i] := Vec2(uvs[i].x / z, uvs[i].y / z);
      i := i + 1;
    }
    s := Setup(tx, ty, tw, th, local, zs[0], zs[1], zs[2], Tri(uvs[0], uvs[1], uvs[2]), rz,
               scrW, scrH, texW, texH);
  }
}
