/** What a screen pixel and its depth-buffer cell hold once a sequence of triangles
    has been drawn over them through one shared buffer: each triangle offers at most
    one fragment to the pixel, in drawing order. */
module Compose {
  import opened Wrappers
  import opened Raster

  /** One triangle's contribution at a pixel: the fragment the rasteriser computes
      there, if any, and the texel that fragment samples. */
  datatype Layer = Layer(frag: Option<Frag>, texel: Color)

  /** The depth cell after the layers were offered to it in order, starting from `d`. */
  function DepthFold(d: Depth, ls: seq<Layer>): Depth {
    if |ls| == 0 then d else DepthAfter(DepthFold(d, ls[..|ls| - 1]), ls[|ls| - 1].frag)
  }

  /** The pixel after the layers were drawn over it in order, starting from colour `c`
      and depth `d`: the texel of the last layer whose depth test passed, else `c`. */
  function ColorFold(c: Color, d: Depth, ls: seq<Layer>): Color {
    if |ls| == 0 then c
    else
      var n := |ls| - 1;
      if Wins(DepthFold(d, ls[..n]), ls[n].frag) then ls[n].texel else ColorFold(c, d, ls[..n])
  }

  /** Drawing one more layer is one more depth test. */
  lemma FoldSnoc(c: Color, d: Depth, ls: seq<Layer>, l: Layer)
    ensures DepthFold(d, ls + [l]) == DepthAfter(DepthFold(d, ls), l.frag)
    ensures ColorFold(c, d, ls + [l]) ==
      if Wins(DepthFold(d, ls), l.frag) then l.texel else ColorFold(c, d, ls)
  {
    assert (ls + [l])[..|ls|] == ls;
  }

  /** Drawing `a` and then `b` is drawing `b` over the pixel and cell `a` left. */
  lemma {:induction false} FoldConcat(c: Color, d: Depth, a: seq<Layer>, b: seq<Layer>)
    ensures DepthFold(d, a + b) == DepthFold(DepthFold(d, a), b)
    ensures ColorFold(c, d, a + b) == ColorFold(ColorFold(c, d, a), DepthFold(d, a), b)
  {
    if |b| == 0 {
      assert a + b == a;
    } else {
      var n := |b| - 1;
      FoldConcat(c, d, a, b[..n]);
      assert a + b == (a + b[..n]) + [b[n]];
      assert b == b[..n] + [b[n]];
      FoldSnoc(c, d, a + b[..n], b[n]);
      FoldSnoc(ColorFold(c, d, a), DepthFold(d, a), b[..n], b[n]);
    }
  }

  /** The depth of a layer's fragment, as a depth cell (`Inf` when it has none). */
  function LayerDepth(l: Layer): Depth {
    if l.frag.Some? then Fin(l.frag.value.z) else Inf
  }

  /** The buffer keeps the minimum: the cell ends at or below its start and every
      fragment offered to it, and it is its start or one of those fragments' depths. */
  lemma {:induction false} DepthFoldIsMinimum(d: Depth, ls: seq<Layer>)
    ensures AtMost(DepthFold(d, ls), d)
    ensures forall i :: 0 <= i < |ls| ==> AtMost(DepthFold(d, ls), LayerDepth(ls[i]))
    ensures DepthFold(d, ls) == d ||
      exists i :: 0 <= i < |ls| && ls[i].frag.Some? && DepthFold(d, ls) == LayerDepth(ls[i])
  {
    if |ls| > 0 {
      var n := |ls| - 1;
      DepthFoldIsMinimum(d, ls[..n]);
      var D := DepthFold(d, ls[..n]);
      assert forall i :: 0 <= i < n ==> ls[..n][i] == ls[i];
      if D != d {
        var i :| 0 <= i < n && ls[..n][i].frag.Some? && D == LayerDepth(ls[..n][i]);
        assert ls[i] == ls[..n][i];
      }
    }
  }

  /** Over a cell that starts at infinity, as every cell of a fresh frame does, the
      cell stays at infinity exactly when no layer offers a fragment, and otherwise
      ends at the depth of a nearest fragment. */
  lemma FromInfinity(ls: seq<Layer>)
    ensures DepthFold(Inf, ls) == Inf <==> forall i :: 0 <= i < |ls| ==> ls[i].frag.None?
    ensures DepthFold(Inf, ls) != Inf ==>
      exists i :: 0 <= i < |ls| && ls[i].frag.Some? && DepthFold(Inf, ls) == LayerDepth(ls[i]) &&
        forall j :: 0 <= j < |ls| ==> AtMost(LayerDepth(ls[i]), LayerDepth(ls[j]))
  {
    DepthFoldIsMinimum(Inf, ls);
    if i :| 0 <= i < |ls| && ls[i].frag.Some? {
      assert AtMost(DepthFold(Inf, ls), LayerDepth(ls[i]));
    }
  }

  /** Two cells that are each at or below the other are equal. */
  lemma AtMostAntisymmetric(a: Depth, b: Depth)
    requires AtMost(a, b) && AtMost(b, a)
    ensures a == b
  {
  }

  /** The depth a frame leaves in a cell does not depend on the order the triangles
      were drawn in: any reordering of the layers gives the same cell. */
  lemma DepthFoldPermutation(d: Depth, ls: seq<Layer>, ms: seq<Layer>)
    requires multiset(ls) == multiset(ms)
    ensures DepthFold(d, ls) == DepthFold(d, ms)
  {
    var r, q := DepthFold(d, ls), DepthFold(d, ms);
    DepthFoldIsMinimum(d, ls);
    DepthFoldIsMinimum(d, ms);
    assert AtMost(q, r) by {
      if r != d {
        var i :| 0 <= i < |ls| && ls[i].frag.Some? && r == LayerDepth(ls[i]);
        assert ls[i] in multiset(ms);
        var j :| 0 <= j < |ms| && ms[j] == ls[i];
      }
    }
    assert AtMost(r, q) by {
      if q != d {
        var j :| 0 <= j < |ms| && ms[j].frag.Some? && q == LayerDepth(ms[j]);
        assert ms[j] in multiset(ls);
        var i :| 0 <= i < |ls| && ls[i] == ms[j];
      }
    }
    AtMostAntisymmetric(r, q);
  }

  /** Layer `i` is the first one whose fragment lies at the final depth of the cell. */
  predicate FirstNearest(d: Depth, ls: seq<Layer>, i: int)
    requires 0 <= i < |ls|
  {
    ls[i].frag.Some? && DepthFold(d, ls) == LayerDepth(ls[i]) &&
    forall j :: 0 <= j < i ==> LayerDepth(ls[j]) != LayerDepth(ls[i])
  }

  /** The pixel shows the texel of the nearest fragment, the first one drawn among
      fragments at that depth because the test is strict; if no fragment came nearer
      than the starting depth, the pixel keeps its colour. */
  lemma {:induction false} ColorFoldNearest(c: Color, d: Depth, ls: seq<Layer>)
    ensures DepthFold(d, ls) == d ==> ColorFold(c, d, ls) == c
    ensures DepthFold(d, ls) != d ==>
      exists i :: 0 <= i < |ls| && FirstNearest(d, ls, i) && ColorFold(c, d, ls) == ls[i].texel
  {
    if |ls| > 0 {
      var n := |ls| - 1;
      var init := ls[..n];
      assert ls == init + [ls[n]];
      FoldSnoc(c, d, init, ls[n]);
      ColorFoldNearest(c, d, init);
      DepthFoldIsMinimum(d, init);
      var D := DepthFold(d, init);
      assert forall j :: 0 <= j < n ==> init[j] == ls[j];
      if Wins(D, ls[n].frag) {
        assert AtMost(D, d);
        assert FirstNearest(d, ls, n) by {
          forall j | 0 <= j < n
            ensures LayerDepth(ls[j]) != LayerDepth(ls[n])
          {
            assert AtMost(D, LayerDepth(init[j]));
          }
        }
      } else if D != d {
        var i :| 0 <= i < n && FirstNearest(d, init, i) && ColorFold(c, d, init) == init[i].texel;
        assert FirstNearest(d, ls, i);
      }
    }
  }

  /** Fragments at pairwise different depths. */
  predicate DistinctDepths(ls: seq<Layer>) {
    forall i, j :: 0 <= i < j < |ls| && ls[i].frag.Some? && ls[j].frag.Some? ==>
      ls[i].frag.value.z != ls[j].frag.value.z
  }

  /** When no two fragments at a pixel share a depth, the colour a frame leaves there
      does not depend on drawing order either. */
  lemma ColorFoldPermutation(c: Color, d: Depth, ls: seq<Layer>, ms: seq<Layer>)
    requires multiset(ls) == multiset(ms) && DistinctDepths(ls)
    ensures ColorFold(c, d, ls) == ColorFold(c, d, ms)
  {
    DepthFoldPermutation(d, ls, ms);
    ColorFoldNearest(c, d, ls);
    ColorFoldNearest(c, d, ms);
    if DepthFold(d, ls) != d {
      var i :| 0 <= i < |ls| && FirstNearest(d, ls, i) && ColorFold(c, d, ls) == ls[i].texel;
      var j :| 0 <= j < |ms| && FirstNearest(d, ms, j) && ColorFold(c, d, ms) == ms[j].texel;
      assert ms[j] in multiset(ls);
      var k :| 0 <= k < |ls| && ls[k] == ms[j];
      assert LayerDepth(ls[k]) == LayerDepth(ls[i]);
      assert k == i;
    }
  }

  /** Two fragments at the same depth, both nearer than the cell: the one drawn first
      is the one shown. */
  lemma TieKeepsFirst(c: Color, d: Depth, f: Frag, g: Frag, tf: Color, tg: Color)
    requires f.z == g.z && Exceeds(d, f.z)
    ensures ColorFold(c, d, [Layer(Some(f), tf), Layer(Some(g), tg)]) == tf
    ensures ColorFold(c, d, [Layer(Some(g), tg), Layer(Some(f), tf)]) == tg
  {
    FoldSnoc(c, d, [Layer(Some(f), tf)], Layer(Some(g), tg));
    FoldSnoc(c, d, [Layer(Some(g), tg)], Layer(Some(f), tf));
    FoldSnoc(c, d, [], Layer(Some(f), tf));
    FoldSnoc(c, d, [], Layer(Some(g), tg));
  }

  /** One triangle handed to the rasteriser: its setup and the texels of the texture
      it samples. */
  datatype Stroke = Stroke(setup: Setup, texels: seq<seq<Color>>)

  /** The stroke's setup samples a texture of its texels' size. */
  predicate Sampled(st: Stroke) {
    Ready(st.setup) && Sized(st.texels, st.setup.texW, st.setup.texH)
  }

  predicate AllSampled(ds: seq<Stroke>) {
    forall i :: 0 <= i < |ds| ==> Sampled(ds[i])
  }

  /** The layer a stroke offers to screen pixel (X, Y). */
  function LayerAt(st: Stroke, X: int, Y: int): Layer
    requires Sampled(st)
  {
    var f := PixelAt(st.setup, X - st.setup.tx, Y - st.setup.ty);
    Layer(f, if f.Some? then st.texels[f.value.tu][f.value.tv] else Color(0, 0, 0, 0))
  }

  /** The layers a sequence of strokes offers to screen pixel (X, Y), in drawing order. */
  function Layers(ds: seq<Stroke>, X: int, Y: int): (ls: seq<Layer>)
    requires AllSampled(ds)
    ensures |ls| == |ds|
  {
    if |ds| == 0 then [] else Layers(ds[..|ds| - 1], X, Y) + [LayerAt(ds[|ds| - 1], X, Y)]
  }

  /** The pixels `screen` and the cells `buffer` of a `w` by `h` screen hold what
      drawing the strokes `ds` in order over the pixels `screen0` and the cells
      `buffer0` leaves: every pixel and every cell is the fold of its layers. */
  predicate Accumulated(ds: seq<Stroke>, w: int, h: int, screen0: seq<seq<Color>>, buffer0: seq<seq<Depth>>,
                        screen: seq<seq<Color>>, buffer: seq<seq<Depth>>)
    requires AllSampled(ds)
    requires Sized(screen0, w, h) && Sized(buffer0, w, h) && Sized(screen, w, h) && Sized(buffer, w, h)
  {
    forall X, Y :: 0 <= X < w && 0 <= Y < h ==>
      buffer[X][Y] == DepthFold(buffer0[X][Y], Layers(ds, X, Y)) &&
      screen[X][Y] == ColorFold(screen0[X][Y], buffer0[X][Y], Layers(ds, X, Y))
  }

  /** Before any stroke, screen and buffer hold their starting contents. */
  lemma AccumulatedEmpty(w: int, h: int, screen0: seq<seq<Color>>, buffer0: seq<seq<Depth>>)
    requires Sized(screen0, w, h) && Sized(buffer0, w, h)
    ensures Accumulated([], w, h, screen0, buffer0, screen0, buffer0)
  {
    forall X, Y | 0 <= X < w && 0 <= Y < h
      ensures Layers([], X, Y) == []
    {
    }
  }

  /** Drawing one more stroke extends the fold: when screen and buffer hold the fold of
      `ds` and the stroke paints them, they hold the fold of `ds + [st]`. */
  lemma StrokeStep(ds: seq<Stroke>, st: Stroke, w: int, h: int,
                   screen0: seq<seq<Color>>, buffer0: seq<seq<Depth>>,
                   screen1: seq<seq<Color>>, buffer1: seq<seq<Depth>>,
                   screen2: seq<seq<Color>>, buffer2: seq<seq<Depth>>)
    requires AllSampled(ds) && Sampled(st) && st.setup.scrW == w && st.setup.scrH == h
    requires Sized(screen0, w, h) && Sized(buffer0, w, h)
    requires Sized(screen1, w, h) && Sized(buffer1, w, h) && Sized(screen2, w, h) && Sized(buffer2, w, h)
    requires Accumulated(ds, w, h, screen0, buffer0, screen1, buffer1)
    requires Painted(st.setup, st.texels, screen1, buffer1, screen2, buffer2)
    ensures AllSampled(ds + [st]) && Accumulated(ds + [st], w, h, screen0, buffer0, screen2, buffer2)
  {
    var ds' := ds + [st];
    forall X, Y | 0 <= X < w && 0 <= Y < h
      ensures buffer2[X][Y] == DepthFold(buffer0[X][Y], Layers(ds', X, Y))
      ensures screen2[X][Y] == ColorFold(screen0[X][Y], buffer0[X][Y], Layers(ds', X, Y))
    {
      var l := LayerAt(st, X, Y);
      assert Layers(ds', X, Y) == Layers(ds, X, Y) + [l] by {
        assert ds'[..|ds|] == ds;
      }
      FoldSnoc(screen0[X][Y], buffer0[X][Y], Layers(ds, X, Y), l);
    }
  }
}
