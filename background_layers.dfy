/** The parallax background (src/components/BackgroundLayers.tsx): three layers, each shifted
    by its scroll offset clamped to a symmetric bound and scaled up slightly in proportion to
    the size of that shift. */
module BackgroundLayers {
  import opened Numeric

  /** The transform of one layer: its vertical shift in pixels and its scale factor. */
  datatype Layer = Layer(offset: real, scale: real)

  datatype Layers = Layers(slow: Layer, medium: Layer, fast: Layer)

  /** `1 + Math.abs(offset) / divisor`. */
  function Scale(offset: real, divisor: real): (s: real)
    requires 0.0 < divisor
    ensures 1.0 <= s
    ensures s == 1.0 <==> offset == 0.0
  {
    1.0 + Abs(offset) / divisor
  }

  /** One layer: clamp the parallax offset to `[-bound, bound]`, then scale by its size. */
  function LayerFor(parallax: real, bound: real, divisor: real): (l: Layer)
    requires 0.0 <= bound && 0.0 < divisor
    ensures -bound <= l.offset <= bound
    ensures -bound <= parallax <= bound ==> l.offset == parallax
    ensures parallax < -bound ==> l.offset == -bound
    ensures bound < parallax ==> l.offset == bound
    ensures 1.0 <= l.scale <= 1.0 + bound / divisor
  {
    var offset := Clamp(parallax, -bound, bound);
    ScaleAtMost(offset, bound, divisor);
    Layer(offset, Scale(offset, divisor))
  }

  lemma ScaleAtMost(offset: real, bound: real, divisor: real)
    requires -bound <= offset <= bound && 0.0 < divisor
    ensures Scale(offset, divisor) <= 1.0 + bound / divisor
  {
    DivMonotone(Abs(offset), bound, divisor);
  }

  /** Dividing by a positive number keeps order. */
  lemma DivMonotone(a: real, b: real, d: real)
    requires a <= b && 0.0 < d
    ensures a / d <= b / d
  {
    assert b / d - a / d == (b - a) / d;
  }

  /** The three layers, fed by scroll-driven offsets at speeds 0.1, 0.25 and 0.35: the slow
      layer moves at most 80 px, the medium 120 px and the fast 160 px, and their scales stay
      within [1, 1.04], [1, 1.048] and [1, 1 + 160/3000]. */
  function Background(parallaxSlow: real, parallaxMedium: real, parallaxFast: real): (b: Layers)
    ensures Abs(b.slow.offset) <= 80.0 && 1.0 <= b.slow.scale <= 1.04
    ensures Abs(b.medium.offset) <= 120.0 && 1.0 <= b.medium.scale <= 1.048
    ensures Abs(b.fast.offset) <= 160.0 && 1.0 <= b.fast.scale <= 1.0 + 160.0 / 3000.0
  {
    Layers(LayerFor(parallaxSlow, 80.0, 2000.0),
           LayerFor(parallaxMedium, 120.0, 2500.0),
           LayerFor(parallaxFast, 160.0, 3000.0))
  }

  /** Scrolling the other way mirrors every shift and keeps every scale: the scale depends
      only on the size of the shift. */
  lemma BackgroundSymmetric(slow: real, medium: real, fast: real)
    ensures var b := Background(slow, medium, fast);
            var m := Background(-slow, -medium, -fast);
            && m.slow == Layer(-b.slow.offset, b.slow.scale)
            && m.medium == Layer(-b.medium.offset, b.medium.scale)
            && m.fast == Layer(-b.fast.offset, b.fast.scale)
  {
    ClampNegate(slow, 80.0);
    ClampNegate(medium, 120.0);
    ClampNegate(fast, 160.0);
  }

  /** A larger shift never gives a smaller scale. */
  lemma ScaleMonotone(a: real, b: real, divisor: real)
    requires 0.0 < divisor && Abs(a) <= Abs(b)
    ensures Scale(a, divisor) <= Scale(b, divisor)
  {
    DivMonotone(Abs(a), Abs(b), divisor);
  }

  /** Clamping an already clamped offset changes nothing, so a layer fed its own shift is
      the same layer. */
  lemma LayerStable(parallax: real, bound: real, divisor: real)
    requires 0.0 <= bound && 0.0 < divisor
    ensures LayerFor(LayerFor(parallax, bound, divisor).offset, bound, divisor) ==
            LayerFor(parallax, bound, divisor)
  {
    ClampIdempotent(parallax, -bound, bound);
  }
}
