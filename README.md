# rl_kerning: shaped text placement on a ReportLab canvas

`drawStringHB` draws a string on a ReportLab canvas at the glyph positions
that the HarfBuzz shaping engine computes for the canvas's current TrueType
font and size, so that kerning and other positioning adjustments show up in
the PDF. HarfBuzz returns, per output glyph, two advances (how far the pen
moves afterwards) and two offsets (how far this glyph is shifted from the
pen). The font scale is set to the font size, so these integers are in
points.

This project models what `drawStringHB` does with those positions:

- `placement.dfy` (module `Placement`): the glyph positions, the text-object
  operations, and a pure specification of the placement. `PenWalk` walks the
  glyphs with a moving pen. It is proved equal, glyph by glyph, to the closed
  form "origin + advances of the earlier glyphs + own offset" (`GlyphX`,
  `GlyphY`). On a top-down canvas the vertical terms are subtracted.
- `rl_kerning.dfy` (module `RlKerning`): the whole call as a trace of
  canvas operations (`DrawStringTrace`), lemmas about that trace, the text
  object and canvas as classes that accumulate operations, and the
  imperative call. `PlaceGlyphs` is the loop of lines 39-52 with its two
  accumulators. It is a separate method here, while the code has it inline
  in `drawStringHB`. `DrawStringHB` does the font check, the render-mode
  changes and the drawing around it. It is proved to put exactly the
  specified trace on the page.

The canvas's side effects are modelled as a list of operations: `BeginText`,
`SetRenderMode`, `SetOrigin`, `TextOut` and `DrawText`. A text object
collects its operations. Drawing it appends them to the page, followed by
`DrawText`.

As in the code, glyph `i` is paired with the character `text[i]`, by glyph
index and not by cluster. When the shaping engine returns more glyphs than
the text has characters, `text[i]` raises `IndexError` inside the loop. The
text object is then never drawn, so the page is unchanged. The model returns
`TextIndexError` in that case rather than forbidding the input.

The code has a single integer scale: the font scale is the point size
(`rl_kerning/rl_kerning.py:28`). There is no extra fixed-point factor and no
division of the returned values, so the model has none either. The code also
has no separate width measurement and no cluster-index pairing. Neither is
modelled.

## Model

| member | source | states |
|---|---|---|
| `Placement.PenWalk` | rl_kerning/rl_kerning.py:41-52 | the glyph run emits exactly two operations per glyph position |
| `Placement.PenWalkKinds` | rl_kerning/rl_kerning.py:49-50 | the glyph run holds only origin moves and character outputs (no render-mode change, no begin or draw) |
| `Placement.SumAppend` | rl_kerning/rl_kerning.py:51-52 | adding one glyph to the accumulated advances adds that glyph's `x_advance` and `y_advance` |
| `Placement.PenWalkAppend` | rl_kerning/rl_kerning.py:41-52 | placing one more glyph appends its origin, at the pen moved by the advances so far plus its offsets, and then `TextOut(text[n])`; the earlier operations are unchanged |
| `Placement.PenWalkStep` | rl_kerning/rl_kerning.py:41-52 | one loop iteration on the prefix of the first i glyphs: the accumulators gain glyph i's advances, and the run gains glyph i's origin (accumulators plus offsets) and `text[i]` |
| `Placement.PenWalkAt` | rl_kerning/rl_kerning.py:39-52 | glyph i is placed at x + (sum of `x_advance` over glyphs 0..i-1) + its `x_offset`, and at y + prefix sum of `y_advance` + `y_offset` (bottom-up) or y - prefix sum - `y_offset` (top-down); the character written there is `text[i]` |
| `Placement.OrientationMirror` | rl_kerning/rl_kerning.py:43-47 | the top-down placement equals the bottom-up one mirrored about y (y' = 2y - y_up), with identical x coordinates |
| `Placement.OffsetLocalityBefore` | rl_kerning/rl_kerning.py:42-52 | changing only glyph j's offsets leaves every operation before glyph j's origin move unchanged |
| `Placement.OffsetLocalityAfter` | rl_kerning/rl_kerning.py:42-52 | changing only glyph j's offsets leaves glyph j's character and every later operation unchanged: later glyphs depend only on the accumulated advances |
| `Placement.AdvanceMonotone` | rl_kerning/rl_kerning.py:51 | with non-negative horizontal advances, the accumulated x advance never decreases along the run |
| `RlKerning.DrawStringTrace` | rl_kerning/rl_kerning.py:18-56 | a non-TrueType font fails with the "Not a TTF font" error; more glyphs than characters fails with an index error at index len(text); otherwise the call succeeds with 2 per glyph + 2 + 2 per mode operations, opening with `BeginText(x, y, direction)` and closing with `DrawText` |
| `RlKerning.TraceGlyph` | rl_kerning/rl_kerning.py:39-52 | in a drawn trace, the i-th `SetOrigin` carries the prefix-sum position of glyph i and the `TextOut` after it carries `text[i]`; the pairs start right after `BeginText` and the optional mode set |
| `RlKerning.RenderModeBracket` | rl_kerning/rl_kerning.py:35-56 | with a mode, the render mode is set to it right after `BeginText` (before any glyph) and reset to 0 right before `DrawText` (after the last glyph); no other render-mode operation occurs, none at all without a mode; `BeginText` and `DrawText` occur only first and last |
| `RlKerning.EmptyRunTrace` | rl_kerning/rl_kerning.py:35-56 | with no glyph positions the trace is just `BeginText`, the optional mode set and reset, and `DrawText` |
| `RlKerning.TextObject.constructor` | rl_kerning/rl_kerning.py:35 | a new text object holds only `BeginText(x, y, direction)` |
| `RlKerning.TextObject.SetTextRenderMode` | rl_kerning/rl_kerning.py:36-37 | appends one render-mode change |
| `RlKerning.TextObject.SetTextOrigin` | rl_kerning/rl_kerning.py:49 | appends one origin move |
| `RlKerning.TextObject.WriteText` | rl_kerning/rl_kerning.py:50 | appends one character output |
| `RlKerning.Canvas.BeginTextObject` | rl_kerning/rl_kerning.py:35 | returns a fresh text object starting at (x, y) and leaves the page alone |
| `RlKerning.Canvas.DrawTextObject` | rl_kerning/rl_kerning.py:56 | appends the text object's operations and `DrawText` to the page |
| `RlKerning.PlaceGlyphs` | rl_kerning/rl_kerning.py:39-52 | the loop succeeds exactly when there are no more glyph positions than characters, and then appends exactly the glyph run of `PenWalk` from the origin to the text object; the loop invariant keeps the accumulators equal to the prefix sums of the advances |
| `RlKerning.DrawStringHB` | rl_kerning/rl_kerning.py:13-56 | on success the page gains exactly `DrawStringTrace`'s trace; on either error the page is unchanged and the error is returned |

## Left out

- HarfBuzz shaping (`hb.Face`, `hb.Font`, `hb.ot_font_set_funcs`, `hb.Buffer`, `guess_segment_properties`, `hb.shape`): a foreign library; its `glyph_positions` output is the `glyphs` parameter.
- Font lookup (`pdfmetrics.getFont`, `isinstance(font, TTFont)`, `font.face._ttf_data`, `_fontsize`): foreign calls; the TrueType check is the canvas field `fontIsTrueType`.
- The real text-object and canvas drawing (PDF operators, the meaning of `direction` and of render modes): modelled only as operations in a list; `direction` is passed through unchanged.
- Decoding `bytes` text to UTF-8 (rl_kerning/rl_kerning.py:15-16): a Python 2/3 compatibility shim; the text is a string of Unicode characters.
- The `__main__` demo and `setup.py`: file I/O, font registration and packaging.
- Floating-point rounding of coordinates: the origin and the positions are exact `real`s.
