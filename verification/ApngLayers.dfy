/** What the compositor's arithmetic and its reference model mean: blending is the rounded Porter-Duff over
    operator, and disposal makes a frame's pixels matter to later frames exactly as its kind says. */
module ApngLayers {
  import opened Prelude
  import opened ApngContainer
  import opened ApngCompose

  // ----- blending -----

  /** c is a nearest integer to n / d. */
  predicate Nearest(c: int, n: int, d: int)
  {
    -d <= 2 * (c * d - n) <= d
  }

  /** A blended channel is the mean of source and canvas weighted by their coverage. */
  predicate Mean(c: byte, s: byte, sa: byte, d: byte, da: byte)
  {
    Nearest(c, s * sa * 255 + d * da * (255 - sa), sa * 255 + da * (255 - sa))
  }

  /** The resulting alpha is nearest to source plus what the source leaves of the canvas, a transparent source
      leaves the canvas as it is, and every channel is nearest to the mean weighted by coverage. */
  lemma OverIsNearest(s: Pixel, d: Pixel)
    ensures Nearest(Over(s, d).a, s.a * 255 + d.a * (255 - s.a), 255)
    ensures s.a == 0 ==> Over(s, d) == d
    ensures s.a > 0 ==> Mean(Over(s, d).r, s.r, s.a, d.r, d.a) && Mean(Over(s, d).g, s.g, s.a, d.g, d.a) && Mean(Over(s, d).b, s.b, s.a, d.b, d.a)
  {
    hide OverChannel, Mean;
    AlphaIsNearest(s.a, d.a);
    if s.a == 255 {
      Opaque(s.r, d.r, d.a);
      Opaque(s.g, d.g, d.a);
      Opaque(s.b, d.b, d.a);
    } else if s.a > 0 {
      ChannelIsMean(s.r, s.a, d.r, d.a);
      ChannelIsMean(s.g, s.a, d.g, d.a);
      ChannelIsMean(s.b, s.a, d.b, d.a);
    }
  }

  lemma AlphaIsNearest(sa: byte, da: byte)
    ensures Nearest(OverAlpha(sa, da), sa * 255 + da * (255 - sa), 255)
    ensures sa == 0 ==> Nearest(da, sa * 255 + da * (255 - sa), 255)
    ensures sa == 255 ==> Nearest(sa, sa * 255 + da * (255 - sa), 255)
  {
    var n: int := sa * 255 + da * (255 - sa);
    DivBounds(n + 127, 255);
  }

  lemma Opaque(s: byte, d: byte, da: byte)
    ensures Mean(s, s, 255, d, da)
  {
  }

  lemma ChannelIsMean(s: byte, sa: byte, d: byte, da: byte)
    requires 0 < sa
    ensures Mean(OverChannel(s, sa, d, da), s, sa, d, da)
  {
    hide OverChannel;
    OverChannelIsNearest(s, sa, d, da);
  }

  // ----- disposal -----

  /** A frame disposed by PREVIOUS leaves no trace: whatever is drawn after it shows as if it never was drawn. */
  lemma {:induction false} PreviousLeavesNoTrace(a: seq<Layer>, l: Layer, b: seq<Layer>, x: nat, y: nat)
    requires l.frame.dispose == 2
    ensures Before(a + [l] + b, x, y) == Before(a + b, x, y)
    ensures b != [] ==> Shown(a + [l] + b, x, y) == Shown(a + b, x, y)
    decreases |b|
  {
    if b == [] {
      assert a + [l] + b == a + [l] && (a + [l])[..|a|] == a && a + b == a;
    } else {
      PreviousLeavesNoTrace(a, l, b[..|b| - 1], x, y);
      LastOf(a + [l], b);
      LastOf(a, b);
    }
  }

  lemma LastOf(a: seq<Layer>, b: seq<Layer>)
    requires b != []
    ensures (a + b)[..|a + b| - 1] == a + b[..|b| - 1] && (a + b)[|a + b| - 1] == b[|b| - 1]
  {
  }

  /** A frame disposed by BACKGROUND forgets all before it: in its rectangle, whatever is drawn after it shows as
      if drawn on an empty canvas. */
  lemma {:induction false} BackgroundForgets(a: seq<Layer>, l: Layer, b: seq<Layer>, x: nat, y: nat)
    requires l.frame.dispose == 1 && Inside(l.frame, x, y)
    ensures Before(a + [l] + b, x, y) == Before(b, x, y)
    ensures b != [] ==> Shown(a + [l] + b, x, y) == Shown(b, x, y)
    decreases |b|
  {
    if b == [] {
      assert a + [l] + b == a + [l] && (a + [l])[..|a|] == a;
    } else {
      BackgroundForgets(a, l, b[..|b| - 1], x, y);
      LastOf(a + [l], b);
    }
  }

  /** Outside its rectangle a frame changes nothing: what the frames before it left shows through it, and for all
      that is drawn later it might not have been there. */
  lemma {:induction false} OutsideIsUntouched(a: seq<Layer>, l: Layer, b: seq<Layer>, x: nat, y: nat)
    requires !Inside(l.frame, x, y)
    ensures Before(a + [l] + b, x, y) == Before(a + b, x, y)
    ensures b != [] ==> Shown(a + [l] + b, x, y) == Shown(a + b, x, y)
    ensures Shown(a + [l], x, y) == Before(a, x, y)
    decreases |b|
  {
    assert (a + [l])[..|a|] == a;
    if b == [] {
      assert a + [l] + b == a + [l] && a + b == a;
    } else {
      OutsideIsUntouched(a, l, b[..|b| - 1], x, y);
      LastOf(a + [l], b);
      LastOf(a, b);
    }
  }

  /** A frame that is kept, drawn with SOURCE, hides all before it in its rectangle: what is drawn after it shows
      as if drawn on its own pixel. */
  lemma {:induction false} SourceHides(a: seq<Layer>, l: Layer, b: seq<Layer>, x: nat, y: nat)
    requires l.frame.dispose != 1 && l.frame.dispose != 2 && l.frame.blend == 0 && Inside(l.frame, x, y)
    ensures Shown(a + [l] + b, x, y) == Shown([l] + b, x, y) && Before(a + [l] + b, x, y) == Before([l] + b, x, y)
    ensures Shown(a + [l], x, y) == LayerPixel(l, x, y)
    decreases |b|
  {
    assert (a + [l])[..|a|] == a && [l][..0] == [];
    if b == [] {
      assert a + [l] + b == a + [l] && [l] + b == [l];
    } else {
      SourceHides(a, l, b[..|b| - 1], x, y);
      LastOf(a + [l], b);
      LastOf([l], b);
    }
  }

  /** A frame that is kept, drawn with OVER, is blended on what the frames before it left. */
  lemma OverBlends(a: seq<Layer>, l: Layer, x: nat, y: nat)
    requires l.frame.blend != 0 && Inside(l.frame, x, y)
    ensures Shown(a + [l], x, y) == Over(LayerPixel(l, x, y), Before(a, x, y))
    ensures l.frame.dispose == 0 ==> Before(a + [l], x, y) == Shown(a + [l], x, y)
  {
    assert (a + [l])[..|a|] == a;
  }
}
