/** drawStringHB: draws a string on a ReportLab canvas at the positions the
    shaping engine computed, instead of at ReportLab's nominal glyph widths.

    The shaping itself (HarfBuzz) and the font lookup are outside the model:
    the shaped glyph positions are a parameter, and whether the canvas's
    current font is a TrueType font is a field of the canvas. */
module RlKerning {
  import opened Placement

  /** Why drawStringHB gives up. NotTrueTypeFont is RLKerningError("Not a TTF
      font"); TextIndexError is the IndexError of text[i] when the shaping
      engine returned more glyphs than the text has characters. */
  datatype DrawError = NotTrueTypeFont | TextIndexError(index: nat)

  /** A drawStringHB outcome: a value, or the error it raised. */
  datatype Result<T> = Success(value: T) | Failure(error: DrawError)

  /** The render-mode change made before the glyphs when a mode is given. */
  function ModeSet(mode: Option<int>): (ops: seq<TextOp>)
  {
    if mode.Some? then [SetRenderMode(mode.value)] else []
  }

  /** The render-mode reset to 0 made after the glyphs when a mode is given. */
  function ModeReset(mode: Option<int>): (ops: seq<TextOp>)
  {
    if mode.Some? then [SetRenderMode(0)] else []
  }

  /** Everything one drawStringHB call hands to the canvas, or the error it
      raises. Nothing reaches the canvas on an error: the font check comes
      before the text object exists, and an IndexError leaves the text object
      undrawn. */
  function DrawStringTrace(fontIsTrueType: bool, bottomUp: bool, x: real, y: real, text: string,
                           glyphs: seq<GlyphPosition>, mode: Option<int>, direction: Option<string>)
    : (r: Result<seq<TextOp>>)
    ensures !fontIsTrueType ==> r == Failure(NotTrueTypeFont)
    ensures fontIsTrueType && |glyphs| > |text| ==> r == Failure(TextIndexError(|text|))
    ensures r.Success? <==> fontIsTrueType && |glyphs| <= |text|
    ensures r.Success? ==>
              |r.value| == 2 * |glyphs| + 2 + 2 * |ModeSet(mode)|
              && r.value[0] == BeginText(x, y, direction) && r.value[|r.value| - 1] == DrawText
  {
    if !fontIsTrueType then Failure(NotTrueTypeFont)
    else if |glyphs| > |text| then Failure(TextIndexError(|text|))
    else Success([BeginText(x, y, direction)] + ModeSet(mode) + PenWalk(x, y, text, glyphs, bottomUp)
                 + ModeReset(mode) + [DrawText])
  }

  /** Glyph i of a drawn run: its origin sits at the origin plus the advances
      of the glyphs before it plus its own offsets (with the vertical terms
      negated on a top-down canvas), and the character written there is
      text[i]. The pairs start right after BeginText and the optional
      render-mode change. */
  lemma TraceGlyph(fontIsTrueType: bool, bottomUp: bool, x: real, y: real, text: string,
                   glyphs: seq<GlyphPosition>, mode: Option<int>, direction: Option<string>, i: nat)
    requires DrawStringTrace(fontIsTrueType, bottomUp, x, y, text, glyphs, mode, direction).Success?
    requires i < |glyphs|
    ensures var tr := DrawStringTrace(fontIsTrueType, bottomUp, x, y, text, glyphs, mode, direction).value;
            var first := 1 + |ModeSet(mode)|;
            tr[first + 2 * i] == SetOrigin(GlyphX(x, glyphs, i), GlyphY(y, glyphs, i, bottomUp))
            && tr[first + 2 * i + 1] == TextOut(text[i])
  {
    var walk := PenWalk(x, y, text, glyphs, bottomUp);
    var tr := DrawStringTrace(fontIsTrueType, bottomUp, x, y, text, glyphs, mode, direction).value;
    var first := 1 + |ModeSet(mode)|;
    assert tr == ([BeginText(x, y, direction)] + ModeSet(mode)) + walk + (ModeReset(mode) + [DrawText]);
    assert tr[first + 2 * i] == walk[2 * i] && tr[first + 2 * i + 1] == walk[2 * i + 1];
    PenWalkAt(x, y, text, glyphs, bottomUp, i);
  }

  /** When a mode is given it is set right after BeginText and reset to 0
      right before DrawText, and no other render-mode change occurs; when
      none is given, no render-mode operation appears at all. BeginText and
      DrawText open and close the trace and occur nowhere else. */
  lemma RenderModeBracket(fontIsTrueType: bool, bottomUp: bool, x: real, y: real, text: string,
                          glyphs: seq<GlyphPosition>, mode: Option<int>, direction: Option<string>)
    requires DrawStringTrace(fontIsTrueType, bottomUp, x, y, text, glyphs, mode, direction).Success?
    ensures var tr := DrawStringTrace(fontIsTrueType, bottomUp, x, y, text, glyphs, mode, direction).value;
            (mode.Some? ==> tr[1] == SetRenderMode(mode.value) && tr[|tr| - 2] == SetRenderMode(0))
            && (forall k :: 0 <= k < |tr| && tr[k].SetRenderMode? ==> mode.Some? && (k == 1 || k == |tr| - 2))
            && (forall k :: 0 <= k < |tr| && tr[k].BeginText? ==> k == 0)
            && (forall k :: 0 <= k < |tr| && tr[k].DrawText? ==> k == |tr| - 1)
  {
    var walk := PenWalk(x, y, text, glyphs, bottomUp);
    var tr := DrawStringTrace(fontIsTrueType, bottomUp, x, y, text, glyphs, mode, direction).value;
    var first := 1 + |ModeSet(mode)|;
    assert tr == ([BeginText(x, y, direction)] + ModeSet(mode)) + walk + (ModeReset(mode) + [DrawText]);
    PenWalkKinds(x, y, text, glyphs, bottomUp);
    forall k | first <= k < first + |walk|
      ensures tr[k].SetOrigin? || tr[k].TextOut?
    {
      assert tr[k] == walk[k - first] && walk[k - first] in walk;
    }
  }

  /** An empty run of glyphs draws nothing but the frame around it. */
  lemma EmptyRunTrace(x: real, y: real, text: string, bottomUp: bool, mode: Option<int>, direction: Option<string>)
    ensures DrawStringTrace(true, bottomUp, x, y, text, [], mode, direction)
         == Success([BeginText(x, y, direction)] + ModeSet(mode) + ModeReset(mode) + [DrawText])
  {
    assert PenWalk(x, y, text, [], bottomUp) == [];
    assert [BeginText(x, y, direction)] + ModeSet(mode) + [] == [BeginText(x, y, direction)] + ModeSet(mode);
  }

  /** A ReportLab text object: the operations it has accumulated so far. */
  class TextObject {
    var ops: seq<TextOp>

    /** Canvas.beginText(x, y, direction) creates a text object whose
        origin is (x, y). */
    constructor (x: real, y: real, direction: Option<string>)
      ensures ops == [BeginText(x, y, direction)]
    {
      ops := [BeginText(x, y, direction)];
    }

    method SetTextRenderMode(mode: int)
      modifies this
      ensures ops == old(ops) + [SetRenderMode(mode)]
    {
      ops := ops + [SetRenderMode(mode)];
    }

    method SetTextOrigin(x: real, y: real)
      modifies this
      ensures ops == old(ops) + [SetOrigin(x, y)]
    {
      ops := ops + [SetOrigin(x, y)];
    }

    method WriteText(ch: char)
      modifies this
      ensures ops == old(ops) + [TextOut(ch)]
    {
      ops := ops + [TextOut(ch)];
    }
  }

  /** The part of a ReportLab canvas that drawStringHB uses. */
  class Canvas {
    /** Whether the current font resolves to a TrueType font. */
    var fontIsTrueType: bool
    /** ReportLab's bottomup flag: true when y grows upwards. */
    var bottomup: bool
    /** The text operations drawn on the page so far. */
    var page: seq<TextOp>

    /** Creating a text object does not touch the page. */
    method BeginTextObject(x: real, y: real, direction: Option<string>) returns (t: TextObject)
      ensures fresh(t) && t.ops == [BeginText(x, y, direction)]
    {
      t := new TextObject(x, y, direction);
    }

    /** Drawing a text object puts its operations on the page. */
    method DrawTextObject(t: TextObject)
      modifies this`page
      ensures page == old(page) + t.ops + [DrawText]
    {
      page := page + t.ops + [DrawText];
    }
  }

  /** The placement loop: writes one origin move and one character per
      glyph position into t, keeping the running advances in two
      accumulators. It stops with false at the first glyph that has no
      character (Python's IndexError on text[i]), after that glyph's origin
      move; t's later operations are then irrelevant, as t is never drawn. */
  method PlaceGlyphs(t: TextObject, bottomUp: bool, x: real, y: real, text: string, glyphs: seq<GlyphPosition>)
    returns (ok: bool)
    modifies t
    ensures ok <==> |glyphs| <= |text|
    ensures ok ==> t.ops == old(t.ops) + PenWalk(x, y, text, glyphs, bottomUp)
  {
    assert PenWalk(x, y, text, glyphs[..0], bottomUp) == [];
    var xAdvance: int := 0;
    var yAdvance: int := 0;
    for i := 0 to |glyphs|
      invariant i <= |text|
      invariant xAdvance == SumX(glyphs[..i]) && yAdvance == SumY(glyphs[..i])
      invariant t.ops == old(t.ops) + PenWalk(x, y, text, glyphs[..i], bottomUp)
    {
      var pos := glyphs[i];
      var xChar := x + xAdvance as real + pos.xOffset as real;
      var yChar;
      if bottomUp {
        yChar := y + yAdvance as real + pos.yOffset as real;
      } else {
        yChar := y - yAdvance as real - pos.yOffset as real;
      }
      t.SetTextOrigin(xChar, yChar);
      if i >= |text| {
        return false;
      }
      t.WriteText(text[i]);
      xAdvance := xAdvance + pos.xAdvance;
      yAdvance := yAdvance + pos.yAdvance;
      PenWalkStep(x, y, text, glyphs, bottomUp, i);
    }
    assert glyphs[..|glyphs|] == glyphs;
    ok := true;
  }

  /** Draws text at (x, y) with the positions the shaping engine produced for
      it at the canvas's font size: glyphs plays the role of the shaped
      buffer's glyph_positions. On success the page gains exactly the
      specified trace; on an error the page is unchanged. */
  method DrawStringHB(canvas: Canvas, x: real, y: real, text: string, glyphs: seq<GlyphPosition>,
                      mode: Option<int>, direction: Option<string>)
    returns (outcome: Result<()>)
    modifies canvas`page
    ensures match DrawStringTrace(canvas.fontIsTrueType, canvas.bottomup, x, y, text, glyphs, mode, direction)
            case Success(tr) => outcome == Success(()) && canvas.page == old(canvas.page) + tr
            case Failure(e) => outcome == Failure(e) && canvas.page == old(canvas.page)
  {
    if !canvas.fontIsTrueType {
      return Failure(NotTrueTypeFont);
    }

    var t := canvas.BeginTextObject(x, y, direction);
    if mode.Some? {
      t.SetTextRenderMode(mode.value);
    }
    ghost var head := t.ops;
    assert head == [BeginText(x, y, direction)] + ModeSet(mode);

    var placed := PlaceGlyphs(t, canvas.bottomup, x, y, text, glyphs);
    if !placed {
      return Failure(TextIndexError(|text|));
    }

    if mode.Some? {
      t.SetTextRenderMode(0);
    }
    canvas.DrawTextObject(t);
    outcome := Success(());
    assert canvas.page == old(canvas.page)
      + (head + PenWalk(x, y, text, glyphs, canvas.bottomup) + ModeReset(mode) + [DrawText]);
  }
}
