/** Conversion between Cartesian points and barycentric weights for a 2D triangle,
    and the distinct-vertices test for a triangle. */
module Barycentric {
  import opened Wrappers

  datatype Vec2 = Vec2(x: real, y: real)

  /** A 2D triangle, or three 2D attributes (texture coordinates) indexed like one. */
  datatype Tri = Tri(a: Vec2, b: Vec2, c: Vec2)

  /** Weights of the first, second and third vertex. */
  datatype Bary = Bary(w0: real, w1: real, w2: real)

  /** The determinant of the 2x2 system solved by Cramer's rule; twice the signed area. */
  function Denominator(t: Tri): real {
    (t.b.y - t.c.y) * (t.a.x - t.c.x) + (t.c.x - t.b.x) * (t.a.y - t.c.y)
  }

  /** All weights non-negative: the point lies in the triangle or on its edge. */
  predicate Inside(w: Bary) {
    w.w0 >= 0.0 && w.w1 >= 0.0 && w.w2 >= 0.0
  }

  /** `cart_to_bary`: `None` stands for the `False` the source returns when the
      determinant is zero. */
  function CartToBary(p: Vec2, t: Tri): (r: Option<Bary>)
    ensures r.None? <==> Denominator(t) == 0.0
    ensures r.Some? ==> r.value.w0 + r.value.w1 + r.value.w2 == 1.0
  {
    var y2y3 := t.b.y - t.c.y;
    var x3x2 := t.c.x - t.b.x;
    var xx2 := p.x - t.c.x;
    var yy2 := p.y - t.c.y;
    var x0x2 := t.a.x - t.c.x;
    var denominator := y2y3 * x0x2 + x3x2 * (t.a.y - t.c.y);
    if denominator == 0.0 then None
    else
      var w0 := (y2y3 * xx2 + x3x2 * yy2) / denominator;
      var w1 := ((t.c.y - t.a.y) * xx2 + x0x2 * yy2) / denominator;
      Some(Bary(w0, w1, 1.0 - w0 - w1))
  }

  /** `bary_to_cart`: the weighted sum of the three vertices, per coordinate. The
      unit weights give the vertices themselves. */
  function BaryToCart(w: Bary, t: Tri): (r: Vec2)
    ensures w == Bary(1.0, 0.0, 0.0) ==> r == t.a
    ensures w == Bary(0.0, 1.0, 0.0) ==> r == t.b
    ensures w == Bary(0.0, 0.0, 1.0) ==> r == t.c
  {
    Vec2(w.w0 * t.a.x + w.w1 * t.b.x + w.w2 * t.c.x,
         w.w0 * t.a.y + w.w1 * t.b.y + w.w2 * t.c.y)
  }

  /** The two numerators of Cramer's rule, multiplied out. */
  lemma CramerNumerators(p: Vec2, t: Tri, w0: real, w1: real)
    requires Denominator(t) != 0.0
    requires w0 * Denominator(t) == (t.b.y - t.c.y) * (p.x - t.c.x) + (t.c.x - t.b.x) * (p.y - t.c.y)
    requires w1 * Denominator(t) == (t.c.y - t.a.y) * (p.x - t.c.x) + (t.a.x - t.c.x) * (p.y - t.c.y)
    ensures w0 * (t.a.x - t.c.x) + w1 * (t.b.x - t.c.x) == p.x - t.c.x
    ensures w0 * (t.a.y - t.c.y) + w1 * (t.b.y - t.c.y) == p.y - t.c.y
  {
    var d := Denominator(t);
    var X, Y := p.x - t.c.x, p.y - t.c.y;
    var ux, uy, vx, vy := t.a.x - t.c.x, t.a.y - t.c.y, t.b.x - t.c.x, t.b.y - t.c.y;
    assert d == vy * ux - vx * uy;
    assert (w0 * ux + w1 * vx) * d == (vy * X - vx * Y) * ux + (-uy * X + ux * Y) * vx;
    assert (vy * X - vx * Y) * ux + (-uy * X + ux * Y) * vx == X * d;
    assert (w0 * uy + w1 * vy) * d == (vy * X - vx * Y) * uy + (-uy * X + ux * Y) * vy;
    assert (vy * X - vx * Y) * uy + (-uy * X + ux * Y) * vy == Y * d;
    CancelNonZero(w0 * ux + w1 * vx, X, d);
    CancelNonZero(w0 * uy + w1 * vy, Y, d);
  }

  lemma CancelNonZero(u: real, v: real, d: real)
    requires d != 0.0 && u * d == v * d
    ensures u == v
  {
    assert (u - v) * d == 0.0;
  }

  /** Round trip: for a non-degenerate triangle the weights `cart_to_bary`
      computes recombine exactly into the point they came from. */
  lemma RoundTrip(p: Vec2, t: Tri)
    requires Denominator(t) != 0.0
    ensures CartToBary(p, t).Some?
    ensures BaryToCart(CartToBary(p, t).value, t) == p
  {
    var w := CartToBary(p, t).value;
    var d := Denominator(t);
    assert w.w0 * d == (t.b.y - t.c.y) * (p.x - t.c.x) + (t.c.x - t.b.x) * (p.y - t.c.y);
    assert w.w1 * d == (t.c.y - t.a.y) * (p.x - t.c.x) + (t.a.x - t.c.x) * (p.y - t.c.y);
    CramerNumerators(p, t, w.w0, w.w1);
    var q := BaryToCart(w, t);
    assert q.x == t.c.x + w.w0 * (t.a.x - t.c.x) + w.w1 * (t.b.x - t.c.x);
    assert q.y == t.c.y + w.w0 * (t.a.y - t.c.y) + w.w1 * (t.b.y - t.c.y);
  }

  /** Uniqueness, the other direction of the round trip: weights that sum to one
      and recombine into `p` are exactly the weights `cart_to_bary` returns for `p`. */
  lemma Unique(w: Bary, t: Tri)
    requires Denominator(t) != 0.0
    requires w.w0 + w.w1 + w.w2 == 1.0
    ensures CartToBary(BaryToCart(w, t), t) == Some(w)
  {
    var p := BaryToCart(w, t);
    var d := Denominator(t);
    var ux, uy, vx, vy := t.a.x - t.c.x, t.a.y - t.c.y, t.b.x - t.c.x, t.b.y - t.c.y;
    var X, Y := p.x - t.c.x, p.y - t.c.y;
    assert X == w.w0 * ux + w.w1 * vx;
    assert Y == w.w0 * uy + w.w1 * vy;
    assert vy * X - vx * Y == w.w0 * d;
    assert -uy * X + ux * Y == w.w1 * d;
    var r := CartToBary(p, t).value;
    assert r.w0 == (vy * X - vx * Y) / d;
    assert r.w1 == (-uy * X + ux * Y) / d;
    DivCancel(w.w0, d);
    DivCancel(w.w1, d);
    assert r.w0 == w.w0 && r.w1 == w.w1;
    assert r == w;
  }

  lemma DivCancel(a: real, d: real)
    requires d != 0.0
    ensures (a * d) / d == a
  {
  }

  /** The weights of a vertex of a non-degenerate triangle single out that vertex. */
  lemma VertexWeights(t: Tri)
    requires Denominator(t) != 0.0
    ensures CartToBary(t.a, t) == Some(Bary(1.0, 0.0, 0.0))
    ensures CartToBary(t.b, t) == Some(Bary(0.0, 1.0, 0.0))
    ensures CartToBary(t.c, t) == Some(Bary(0.0, 0.0, 1.0))
  {
    Unique(Bary(1.0, 0.0, 0.0), t);
    Unique(Bary(0.0, 1.0, 0.0), t);
    Unique(Bary(0.0, 0.0, 1.0), t);
  }

  /** A point whose weights are all non-negative lies within the triangle's
      bounding box. */
  lemma InsideBounded(w: Bary, t: Tri)
    requires Inside(w) && w.w0 + w.w1 + w.w2 == 1.0
    ensures var p := BaryToCart(w, t);
      (p.x >= t.a.x || p.x >= t.b.x || p.x >= t.c.x) && (p.x <= t.a.x || p.x <= t.b.x || p.x <= t.c.x) &&
      (p.y >= t.a.y || p.y >= t.b.y || p.y >= t.c.y) && (p.y <= t.a.y || p.y <= t.b.y || p.y <= t.c.y)
  {
    var p := BaryToCart(w, t);
    assert p.x == w.w0 * t.a.x + w.w1 * t.b.x + w.w2 * t.c.x;
    assert p.y == w.w0 * t.a.y + w.w1 * t.b.y + w.w2 * t.c.y;
    ConvexBetween(w, t.a.x, t.b.x, t.c.x);
    ConvexBetween(w, t.a.y, t.b.y, t.c.y);
  }

  lemma ConvexBetween(w: Bary, a: real, b: real, c: real)
    requires Inside(w) && w.w0 + w.w1 + w.w2 == 1.0
    ensures var s := w.w0 * a + w.w1 * b + w.w2 * c;
      (s >= a || s >= b || s >= c) && (s <= a || s <= b || s <= c)
  {
    var lo := if a <= b && a <= c then a else if b <= c then b else c;
    var hi := if a >= b && a >= c then a else if b >= c then b else c;
    WeightedAbove(w.w0, w.w1, w.w2, a, b, c, lo);
    WeightedAbove(w.w0, w.w1, w.w2, -a, -b, -c, -hi);
    assert w.w0 * -a + w.w1 * -b + w.w2 * -c == -(w.w0 * a + w.w1 * b + w.w2 * c);
  }

  lemma WeightedAbove(w0: real, w1: real, w2: real, a: real, b: real, c: real, lo: real)
    requires w0 >= 0.0 && w1 >= 0.0 && w2 >= 0.0
    requires lo <= a && lo <= b && lo <= c
    ensures (w0 + w1 + w2) * lo <= w0 * a + w1 * b + w2 * c
  {
    ScaleMono(w0, lo, a); ScaleMono(w1, lo, b); ScaleMono(w2, lo, c);
    assert w0 * lo + w1 * lo + w2 * lo <= w0 * a + w1 * b + w2 * c;
    assert w0 * lo + w1 * lo + w2 * lo == (w0 + w1 + w2) * lo;
  }

  lemma ScaleMono(k: real, x: real, y: real)
    requires k >= 0.0 && x <= y
    ensures k * x <= k * y
  {
    assert k * y - k * x == k * (y - x);
  }

  /** The set of a list's elements, as Python's `set(lst)`. */
  function Elems<T>(s: seq<T>): set<T> {
    set x | x in s
  }

  /** `safe_tri`: the list has as many distinct elements as positions, which holds
      exactly when no two positions hold equal elements. */
  predicate SafeTri<T(==)>(lst: seq<T>): (b: bool)
    ensures b <==> Distinct(lst)
  {
    ElemsCard(lst);
    |lst| == |Elems(lst)|
  }

  predicate Distinct<T(==)>(s: seq<T>) {
    forall i, j :: 0 <= i < j < |s| ==> s[i] != s[j]
  }

  lemma {:induction false} ElemsCard<T>(s: seq<T>)
    ensures |Elems(s)| <= |s|
    ensures |Elems(s)| == |s| <==> Distinct(s)
  {
    if s != [] {
      ElemsCard(s[1..]);
      assert Elems(s) == {s[0]} + Elems(s[1..]);
      if s[0] in s[1..] {
        assert Elems(s) == Elems(s[1..]);
        var j :| 0 <= j < |s[1..]| && s[1..][j] == s[0];
        assert s[0] == s[j + 1];
      } else {
        assert s[0] !in Elems(s[1..]);
        if Distinct(s[1..]) {
          forall i, j | 0 <= i < j < |s| ensures s[i] != s[j] {
            if i > 0 { assert s[i] == s[1..][i - 1] && s[j] == s[1..][j - 1]; }
            else { assert s[j] in s[1..]; }
          }
        }
        if Distinct(s) {
          forall i, j | 0 <= i < j < |s[1..]| ensures s[1..][i] != s[1..][j] {
            assert s[1..][i] == s[i + 1] && s[1..][j] == s[j + 1];
          }
        }
      }
    }
  }

  /** A triangle with a repeated vertex is degenerate: `cart_to_bary` rejects every
      point against it. */
  lemma RepeatedVertexDegenerate(t: Tri, p: Vec2)
    requires !SafeTri([t.a, t.b, t.c])
    ensures CartToBary(p, t).None?
  {
    var s := [t.a, t.b, t.c];
    var i, j :| 0 <= i < j < 3 && s[i] == s[j];
    if i == 0 && j == 1 {
      assert t.a == t.b;
    } else if i == 0 {
      assert t.a == t.c;
    } else {
      assert t.b == t.c;
    }
  }
}
