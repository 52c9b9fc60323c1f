/** Where the glyphs of one shaped run land on the page.

    The shaping engine (HarfBuzz) returns one glyph position per output glyph:
    how far the pen moves after the glyph (the advances) and how far the glyph
    itself is shifted from the pen (the offsets). The font scale is the point
    size, so these integers are already in points. This module states, as pure
    functions, what drawStringHB does with them, and proves the closed forms. */
module Placement {

  datatype Option<T> = None | Some(value: T)

  /** One entry of the shaping engine's glyph_positions. */
  datatype GlyphPosition = GlyphPosition(xAdvance: int, yAdvance: int, xOffset: int, yOffset: int)

  /** One operation on a ReportLab text object, or the canvas drawing it. */
  datatype TextOp =
    | BeginText(x: real, y: real, direction: Option<string>)
    | SetRenderMode(mode: int)
    | SetOrigin(x: real, y: real)
    | TextOut(ch: char)
    | DrawText

  /** Sum of the horizontal advances of gs. */
  function SumX(gs: seq<GlyphPosition>): (s: int)
  {
    if gs == [] then 0 else gs[0].xAdvance + SumX(gs[1..])
  }

  /** Sum of the vertical advances of gs. */
  function SumY(gs: seq<GlyphPosition>): (s: int)
  {
    if gs == [] then 0 else gs[0].yAdvance + SumY(gs[1..])
  }

  /** Moves a vertical coordinate by d in the shaping engine's y-up space:
      upwards on a bottom-up canvas, downwards on a top-down one. */
  function Lift(v: real, d: int, bottomUp: bool): (w: real)
  {
    if bottomUp then v + d as real else v - d as real
  }

  /** Closed form of the x coordinate of glyph i: the origin, plus the
      advances of the glyphs before it, plus its own offset. */
  function GlyphX(x: real, gs: seq<GlyphPosition>, i: nat): (gx: real)
    requires i < |gs|
  {
    x + SumX(gs[..i]) as real + gs[i].xOffset as real
  }

  /** Closed form of the y coordinate of glyph i, in the canvas's orientation. */
  function GlyphY(y: real, gs: seq<GlyphPosition>, i: nat, bottomUp: bool): (gy: real)
    requires i < |gs|
  {
    if bottomUp then y + SumY(gs[..i]) as real + gs[i].yOffset as real
    else y - SumY(gs[..i]) as real - gs[i].yOffset as real
  }

  /** The operations a run of glyphs adds to a text object when the pen starts
      at (penX, penY): for each glyph, move the text origin to the pen shifted
      by the glyph's offset and write the character with the glyph's index,
      then move the pen by the glyph's advance. */
  function PenWalk(penX: real, penY: real, text: string, gs: seq<GlyphPosition>, bottomUp: bool): (ops: seq<TextOp>)
    requires |gs| <= |text|
    ensures |ops| == 2 * |gs|
    decreases |gs|
  {
    if gs == [] then []
    else
      var g := gs[0];
      [SetOrigin(penX + g.xOffset as real, Lift(penY, g.yOffset, bottomUp)), TextOut(text[0])]
        + PenWalk(penX + g.xAdvance as real, Lift(penY, g.yAdvance, bottomUp), text[1..], gs[1..], bottomUp)
  }

  /** A walked run holds nothing but origin moves and character outputs
      (PenWalkAt says which is where). */
  lemma {:induction false} PenWalkKinds(penX: real, penY: real, text: string, gs: seq<GlyphPosition>, bottomUp: bool)
    requires |gs| <= |text|
    ensures forall op :: op in PenWalk(penX, penY, text, gs, bottomUp) ==> op.SetOrigin? || op.TextOut?
    decreases |gs|
  {
    if gs != [] {
      var g := gs[0];
      PenWalkKinds(penX + g.xAdvance as real, Lift(penY, g.yAdvance, bottomUp), text[1..], gs[1..], bottomUp);
    }
  }

  lemma {:induction false} SumAppend(gs: seq<GlyphPosition>, g: GlyphPosition)
    ensures SumX(gs + [g]) == SumX(gs) + g.xAdvance
    ensures SumY(gs + [g]) == SumY(gs) + g.yAdvance
  {
    if gs != [] {
      assert (gs + [g])[1..] == gs[1..] + [g];
      SumAppend(gs[1..], g);
    }
  }

  /** Walking one more glyph appends exactly that glyph's pair, placed by the
      advances accumulated so far: the recurrence the placement loop follows. */
  lemma {:induction false} PenWalkAppend(penX: real, penY: real, text: string, gs: seq<GlyphPosition>,
                                         g: GlyphPosition, bottomUp: bool)
    requires |gs| < |text|
    ensures PenWalk(penX, penY, text, gs + [g], bottomUp)
         == PenWalk(penX, penY, text, gs, bottomUp)
            + [SetOrigin(penX + SumX(gs) as real + g.xOffset as real,
                         Lift(Lift(penY, SumY(gs), bottomUp), g.yOffset, bottomUp)),
               TextOut(text[|gs|])]
    decreases |gs|
  {
    if gs == [] {
      assert [g][1..] == [];
    } else {
      var h := gs[0];
      assert (gs + [g])[0] == h;
      assert (gs + [g])[1..] == gs[1..] + [g];
      PenWalkAppend(penX + h.xAdvance as real, Lift(penY, h.yAdvance, bottomUp), text[1..], gs[1..], g, bottomUp);
    }
  }

  /** One step of the placement loop over a prefix of the run: the
      accumulators grow by glyph i's advances and the walk gains glyph i's
      pair, placed from the accumulators. */
  lemma PenWalkStep(x: real, y: real, text: string, gs: seq<GlyphPosition>, bottomUp: bool, i: nat)
    requires i < |gs| && i < |text|
    ensures SumX(gs[..i + 1]) == SumX(gs[..i]) + gs[i].xAdvance
    ensures SumY(gs[..i + 1]) == SumY(gs[..i]) + gs[i].yAdvance
    ensures PenWalk(x, y, text, gs[..i + 1], bottomUp)
         == PenWalk(x, y, text, gs[..i], bottomUp)
            + [SetOrigin(x + SumX(gs[..i]) as real + gs[i].xOffset as real,
                         Lift(Lift(y, SumY(gs[..i]), bottomUp), gs[i].yOffset, bottomUp)),
               TextOut(text[i])]
  {
    assert gs[..i + 1] == gs[..i] + [gs[i]];
    SumAppend(gs[..i], gs[i]);
    PenWalkAppend(x, y, text, gs[..i], gs[i], bottomUp);
  }

  /** The pair emitted for glyph i: the origin is the closed-form prefix-sum
      position, and the character is text[i]. */
  lemma {:induction false} PenWalkAt(x: real, y: real, text: string, gs: seq<GlyphPosition>, bottomUp: bool, i: nat)
    requires |gs| <= |text| && i < |gs|
    ensures PenWalk(x, y, text, gs, bottomUp)[2 * i] == SetOrigin(GlyphX(x, gs, i), GlyphY(y, gs, i, bottomUp))
    ensures PenWalk(x, y, text, gs, bottomUp)[2 * i + 1] == TextOut(text[i])
    decreases i
  {
    var g := gs[0];
    if i == 0 {
      assert gs[..0] == [];
    } else {
      var x' := x + g.xAdvance as real;
      var y' := Lift(y, g.yAdvance, bottomUp);
      PenWalkAt(x', y', text[1..], gs[1..], bottomUp, i - 1);
      assert gs[..i][0] == g && gs[..i][1..] == gs[1..][..i - 1];
      assert SumX(gs[..i]) == g.xAdvance + SumX(gs[1..][..i - 1]);
      assert SumY(gs[..i]) == g.yAdvance + SumY(gs[1..][..i - 1]);
      assert PenWalk(x, y, text, gs, bottomUp)[2 * i] == PenWalk(x', y', text[1..], gs[1..], bottomUp)[2 * (i - 1)];
    }
  }

  /** The same run placed on a top-down canvas is the bottom-up placement
      mirrored about the origin's y; x coordinates do not depend on orientation. */
  lemma OrientationMirror(x: real, y: real, text: string, gs: seq<GlyphPosition>, i: nat)
    requires |gs| <= |text| && i < |gs|
    ensures PenWalk(x, y, text, gs, false)[2 * i].SetOrigin? && PenWalk(x, y, text, gs, true)[2 * i].SetOrigin?
            && PenWalk(x, y, text, gs, false)[2 * i].x == PenWalk(x, y, text, gs, true)[2 * i].x
            && PenWalk(x, y, text, gs, false)[2 * i].y == 2.0 * y - PenWalk(x, y, text, gs, true)[2 * i].y
  {
    PenWalkAt(x, y, text, gs, false, i);
    PenWalkAt(x, y, text, gs, true, i);
  }

  /** A glyph's offsets do not move the glyphs before it: two runs that
      differ only in the offsets of glyph j emit the same operations before
      glyph j's origin move. */
  lemma {:induction false} OffsetLocalityBefore(x: real, y: real, text: string, gs: seq<GlyphPosition>,
                                                hs: seq<GlyphPosition>, j: nat, bottomUp: bool)
    requires |gs| == |hs| <= |text| && j < |gs|
    requires gs[j].xAdvance == hs[j].xAdvance && gs[j].yAdvance == hs[j].yAdvance
    requires forall k :: 0 <= k < |gs| && k != j ==> gs[k] == hs[k]
    ensures PenWalk(x, y, text, gs, bottomUp)[..2 * j] == PenWalk(x, y, text, hs, bottomUp)[..2 * j]
    decreases j
  {
    if j > 0 {
      var g := gs[0];
      assert g == hs[0];
      var x', y' := x + g.xAdvance as real, Lift(y, g.yAdvance, bottomUp);
      OffsetLocalityBefore(x', y', text[1..], gs[1..], hs[1..], j - 1, bottomUp);
      var pair := [SetOrigin(x + g.xOffset as real, Lift(y, g.yOffset, bottomUp)), TextOut(text[0])];
      assert PenWalk(x, y, text, gs, bottomUp)[..2 * j]
          == pair + PenWalk(x', y', text[1..], gs[1..], bottomUp)[..2 * (j - 1)];
      assert PenWalk(x, y, text, hs, bottomUp)[..2 * j]
          == pair + PenWalk(x', y', text[1..], hs[1..], bottomUp)[..2 * (j - 1)];
    }
  }

  /** Nor the glyphs after it: later glyphs depend only on the accumulated
      advances, so the two runs also agree from glyph j's character on. */
  lemma {:induction false} OffsetLocalityAfter(x: real, y: real, text: string, gs: seq<GlyphPosition>,
                                               hs: seq<GlyphPosition>, j: nat, bottomUp: bool)
    requires |gs| == |hs| <= |text| && j < |gs|
    requires gs[j].xAdvance == hs[j].xAdvance && gs[j].yAdvance == hs[j].yAdvance
    requires forall k :: 0 <= k < |gs| && k != j ==> gs[k] == hs[k]
    ensures PenWalk(x, y, text, gs, bottomUp)[2 * j + 1..] == PenWalk(x, y, text, hs, bottomUp)[2 * j + 1..]
    decreases j
  {
    var g := gs[0];
    var x', y' := x + g.xAdvance as real, Lift(y, g.yAdvance, bottomUp);
    if j == 0 {
      assert gs[1..] == hs[1..];
      assert PenWalk(x, y, text, gs, bottomUp)[1..] == [TextOut(text[0])] + PenWalk(x', y', text[1..], gs[1..], bottomUp);
      assert PenWalk(x, y, text, hs, bottomUp)[1..] == [TextOut(text[0])] + PenWalk(x', y', text[1..], hs[1..], bottomUp);
    } else {
      assert g == hs[0];
      OffsetLocalityAfter(x', y', text[1..], gs[1..], hs[1..], j - 1, bottomUp);
      assert PenWalk(x, y, text, gs, bottomUp)[2 * j + 1..]
          == PenWalk(x', y', text[1..], gs[1..], bottomUp)[2 * (j - 1) + 1..];
      assert PenWalk(x, y, text, hs, bottomUp)[2 * j + 1..]
          == PenWalk(x', y', text[1..], hs[1..], bottomUp)[2 * (j - 1) + 1..];
    }
  }

  /** With non-negative horizontal advances the pen never moves left: the
      accumulated x advance grows with the prefix. */
  lemma {:induction false} AdvanceMonotone(gs: seq<GlyphPosition>, i: nat, j: nat)
    requires i <= j <= |gs|
    requires forall k :: 0 <= k < |gs| ==> gs[k].xAdvance >= 0
    ensures SumX(gs[..i]) <= SumX(gs[..j])
  {
    if i < j {
      AdvanceMonotone(gs, i, j - 1);
      assert gs[..j] == gs[..j - 1] + [gs[j - 1]];
      SumAppend(gs[..j - 1], gs[j - 1]);
    }
  }
}
