# BitmapFont.Renderer in Dafny

This project models the logic of `BitmapFont.Renderer` from `scripts/bitmapfont_renderer.cs`. That class renders text with a bitmap font in Unity. The model covers two parts:

- **Glyph lookup (`SearchMetric`).** A UTF-16 code unit is split into its high byte (`first`) and low byte (`second`). The lookup then runs in two stages over the font's flat metric table, which is sorted by `(first, second)`:
  - The first stage probes `indecies[first] + second` in the 256-entry coarse index. It clamps the probe to the last entry. If the entry there has another high byte, it binary-searches by high byte.
  - The second stage binary-searches by low byte inside that entry's run `[offset - prevNum, offset + nextNum]`.

  The .NET `Array.BinarySearch` is modelled with its argument checks, its midpoint rule and its complement-of-insertion-point miss value. The lookup returns a metric, null, or the .NET exception a malformed table would raise.
- **Text layout (`SetText`).** The text is walked one code unit at a time. A pen `(x, y)`, a word anchor `lastAscii` and an ink extent `left`/`right` are carried along. Each character `i` owns a slot: vertices `4i..4i+3` and colours `4i..4i+3`, plus triangle indices `6i..6i+5`.
  - Line feed, space, tab and the ideographic space U+3000 only move the pen.
  - A character missing from the font is skipped.
  - A glyph that would cross the right edge of a bounded box wraps the line. If a word of ASCII letters is open and the character is a letter, the loop restarts at the first letter of that word. Otherwise the glyph is drawn on the new line.
  - An alignment pass then shifts every vertex by one offset.

### How the model is built

- The records `Header`, `Metric` and `Data` are datatypes. Each field has the integer range of its C# type.
- The loop is specified by a step function `TextLayout.Step` on a `State` value. `TextLayoutRun.Run` applies it with explicit fuel, because the loop need not terminate: `LayoutRunProperties.UnfittableLetterDiverges` shows a text it never finishes.
- The imperative code is a `class Renderer`:
  - fields for the construction parameters and the two reference metrics;
  - `empty` and `mesh` as the state that `SetText` updates;
  - `SetText`, which allocates the three buffers as arrays and fills them in a `while` loop whose invariant ties the arrays to `Run`;
  - the alignment pass, as a second loop over the vertex array.

  Every method is proved against the function that specifies it.
- Pen positions and extents are `real`s in font design units. They are scaled by `size / fontSize` when a vertex is written, as `SetText` does.

### Points worth knowing

- `"\u004d"`, the string the constructor uses for the "non-ASCII" reference glyph (line 109), is just `M`. Both reference metrics are therefore the same lookup, and the ideographic space advances by the advance of `M`. `Renderer.constructor` states this.
- In the wrap branch, the test `index != -1` (line 281) is implied by the letter test that follows it. A letter always opens or keeps an anchor before the wrap check. `StepWrapsWord` states where a wrapped letter resumes in both cases.
- The alignment offset mixes units. `mWidth` is in world units, while the margins and the ink extent `right - left` are in design units. The loop itself uses the margins in design units: the pen starts at `mLeftMargin` (line 218) and the wrap test compares against `width - mRightMargin` with `width = mWidth / scale` (lines 217 and 275). The offset at lines 345 and 348 combines `mWidth` with these design-unit terms, and the whole offset is then multiplied by `scale`. The model reproduces this as written.
- Space and tab advance by `asciiAdvance + letterSpacing`, with the letter spacing unscaled. Glyphs and the ideographic space add their own advance to a letter-spacing term of `fontSize * letterSpacing`. The model keeps this difference.

## Model

| member | source | states |
|---|---|---|
| FontData.Utf16LeBytes | scripts/bitmapfont_renderer.cs:151-153 | The two little-endian bytes of a code unit: `b[1]` is the high byte and `b[0]` the low byte, and `b[1]*256 + b[0]` is the code unit. |
| GlyphSearch.BinarySearch | scripts/bitmapfont_renderer.cs:169-170 | A non-negative result is an index inside the range whose key equals the target. A negative result `r` is the complement of an insertion point `~r` inside the range. On a range sorted by the comparer's key, every key before `~r` is below the target, every key from `~r` on is above it, and so no entry has the target key. |
| GlyphSearch.ArrayBinarySearch | scripts/bitmapfont_renderer.cs:181-182 | `Array.BinarySearch(array, index, length, value, comparer)`. It throws exactly when `index < 0`, `length < 0` or `length > array.Length - index`. A hit lies in `[index, index + length)` with the target key. On a sorted range a miss proves absence. |
| GlyphSearch.LocateFirst | scripts/bitmapfont_renderer.cs:154-175 | First stage. Any answer is -1 (null) or an index into the table whose high byte is `first`. A negative probe answers -1. |
| GlyphSearch.SearchFirst | scripts/bitmapfont_renderer.cs:165-175 | The search by high byte of the first stage. Any answer is -1 (null) or an index into the table whose high byte is `first`; a miss, or a hit with another high byte, is -1. |
| GlyphSearch.SearchGroup | scripts/bitmapfont_renderer.cs:177-190 | Second stage. A metric it returns is from the table and has low byte `second`. |
| GlyphSearch.SearchMetric | scripts/bitmapfont_renderer.cs:148-191 | A returned metric is an entry of the table with the queried low byte. A negative probe `indecies[first] + second < 0` returns null. |
| GlyphSearchProperties.NegativeProbeIgnoresMetrics | scripts/bitmapfont_renderer.cs:154-160 | A negative probe returns null before the metric table or the header is read: any metrics and any header give the same null. |
| GlyphSearchProperties.LocateNeverThrows | scripts/bitmapfont_renderer.cs:154-175 | On a well-formed table the first stage raises no exception. The probe is clamped into the table, and the first search runs over a valid range from `max(index, 0)` to the probe. |
| GlyphSearchProperties.OvershootingIndexThrows | scripts/bitmapfont_renderer.cs:161-170 | The bound on index entries is needed. An entry greater than `metricCount` puts the clamped probe below it, and the first binary search throws ArgumentOutOfRange because its length is negative. |
| GlyphSearchProperties.GroupNeverThrows | scripts/bitmapfont_renderer.cs:177-183 | On a well-formed table the second search runs inside the table. |
| GlyphSearchProperties.SearchNeverThrows | scripts/bitmapfont_renderer.cs:148-191 | Index safety: on a well-formed table the lookup never raises an exception. |
| GlyphSearchProperties.WellFormedLookupsTotal | scripts/bitmapfont_renderer.cs:148-191 | On a well-formed table no code unit at all makes the lookup throw. |
| GlyphSearchProperties.GroupKeepsFirst | scripts/bitmapfont_renderer.cs:177-183 | When each entry's `prevNum`/`nextNum` span only entries with its own high byte, the second stage returns an entry with the same high byte as its start. |
| GlyphSearchProperties.SearchSound | scripts/bitmapfont_renderer.cs:165-190 | Soundness: with consistent runs, a metric found for `c` has both high byte `c / 256` and low byte `c % 256`. |
| GlyphSearchProperties.SortedByFirst | scripts/bitmapfont_renderer.cs:132-138 | A table strictly sorted by `(first, second)` is sorted by the `compFirst` key over every range. |
| GlyphSearchProperties.RunSortedBySecond | scripts/bitmapfont_renderer.cs:140-146 | In a strictly sorted table, a range of entries with one high byte is sorted by the `compSecond` key. |
| GlyphSearchProperties.GroupHits | scripts/bitmapfont_renderer.cs:177-190 | Take a run sorted by low byte that holds entry p. The second stage returns an entry of that run with p's low byte. |
| GlyphSearchProperties.GroupFinds | scripts/bitmapfont_renderer.cs:177-190 | On a strictly sorted table with exact runs, the second stage finds entry `p`. It may start from any entry with `p`'s high byte. |
| GlyphSearchProperties.RangeSearchHits | scripts/bitmapfont_renderer.cs:169-171 | A search by high byte over a sorted range that holds an entry with that byte returns a hit. |
| GlyphSearchProperties.LocateByProbe | scripts/bitmapfont_renderer.cs:154-175 | When the clamped probe lands on an entry with the high byte, the first stage answers the probe without searching. |
| GlyphSearchProperties.LocateBySearch | scripts/bitmapfont_renderer.cs:165-175 | When the clamped probe lands on another high byte and the search by high byte hits, the first stage answers that hit. |
| GlyphSearchProperties.LocateReachesCore | scripts/bitmapfont_renderer.cs:154-175 | When the index entry is at most `p` and `p` is at most the probe, the first stage reaches an entry with `p`'s high byte. |
| GlyphSearchProperties.LocateReaches | scripts/bitmapfont_renderer.cs:154-175 | The same, on an `Indexed` table. Such a table is well formed and strictly sorted, its runs are exactly the high-byte groups, and its index brackets every entry: `indecies[first] <= p <= indecies[first] + second` for each entry `p`. |
| GlyphSearchProperties.SearchComplete | scripts/bitmapfont_renderer.cs:148-191 | Completeness: on an `Indexed` table every entry is found by its own character. |
| GlyphSearchProperties.SearchExact | scripts/bitmapfont_renderer.cs:148-191 | On an `Indexed` table the lookup is exact, in both directions. It returns a metric iff the table has an entry for `c`, and that metric is the entry. Otherwise it returns null, never an exception. |
| TextLayout.BoxWidth | scripts/bitmapfont_renderer.cs:216-217 | The box width in design units is zero exactly when `mWidth` is zero. So the `width != 0` test that enables auto-wrap is a test on `mWidth`. |
| TextLayout.Init | scripts/bitmapfont_renderer.cs:210-226 | The state before the loop. It has buffers of lengths 4n, 6n and 4n, index 0 and no open word. |
| TextLayout.Step | scripts/bitmapfont_renderer.cs:228-338 | One iteration, on a well-formed font whose lookups never throw. It keeps the buffer lengths. The word anchor, when open, stays before the next index, even after a rewind. |
| TextLayout.Place | scripts/bitmapfont_renderer.cs:272-338 | The glyph phase of an iteration (auto-wrap, rewind or draw) keeps the same invariant. |
| TextLayout.PlaceDraws | scripts/bitmapfont_renderer.cs:274-300 | A glyph that is not rewound is drawn at the pen. If it overflows, it is drawn at the left margin one line lower. |
| TextLayoutRun.Run | scripts/bitmapfont_renderer.cs:228-339 | A run that finishes within the fuel stops with the index at the end of the text and the buffer shape intact. |
| TextLayoutRun.Aligned | scripts/bitmapfont_renderer.cs:341-354 | LEFT leaves the vertices as they are. Otherwise every vertex, used slot or not, has the same offset added to its x and keeps its y and z. |
| TextLayoutRun.LayoutMesh | scripts/bitmapfont_renderer.cs:211-214 | A finished layout hands the mesh 4n vertices, 6n triangle indices and 4n colours. |
| LayoutStepProperties.StepLineFeed | scripts/bitmapfont_renderer.cs:231-236 | A line feed resets x to `leftMargin`, lowers y by `fontSize * lineSpacing` and clears the anchor. It writes no slot and leaves the extent alone. |
| LayoutStepProperties.StepBlank | scripts/bitmapfont_renderer.cs:237-252 | Space, tab and U+3000 add their stated advances to x and keep y. They clear the anchor and write no slot. |
| LayoutStepProperties.StepMissingGlyph | scripts/bitmapfont_renderer.cs:254-270 | A character the font lacks leaves x, y and every buffer unchanged. Only the anchor changes: a letter opens it at `i` or keeps an open one, and any other character closes it. |
| LayoutStepProperties.StepAnchor | scripts/bitmapfont_renderer.cs:254-264 | A letter opens the anchor at `i` when none is open and keeps an open one. Any other drawn character closes it. |
| LayoutStepProperties.DrawVertexSlot | scripts/bitmapfont_renderer.cs:318-322 | Drawing writes the glyph's scaled quad into vertices `4i..4i+3` and leaves every other slot's vertices unchanged. |
| LayoutStepProperties.DrawTriangleSlot | scripts/bitmapfont_renderer.cs:329-335 | Drawing writes `4i + [0,1,2,2,1,3]` into triangle slot i and leaves every other triangle slot unchanged. |
| LayoutStepProperties.DrawColorSlot | scripts/bitmapfont_renderer.cs:337-338 | Drawing colours vertices `4i..4i+3` with `colors[i]` and leaves every other slot's colours unchanged. |
| LayoutStepProperties.DrawFillsSlot | scripts/bitmapfont_renderer.cs:318-338 | Drawing fills exactly slot i, with its quad, its two triangles and its colour. Every other slot is unchanged. |
| LayoutStepProperties.DrawWritesOnlyItsSlot | scripts/bitmapfont_renderer.cs:318-338 | Drawing character i leaves the vertices, triangles and colours of every other slot unchanged. |
| LayoutStepProperties.StepDrawsGlyph | scripts/bitmapfont_renderer.cs:290-300 | A glyph that fits is drawn into slot i at the pen. x grows by exactly `advance` and y is kept. `left` becomes the min with `x0` and `right` the max with `x1`. Every other slot is unchanged. |
| LayoutStepProperties.StepWrapsWord | scripts/bitmapfont_renderer.cs:274-287 | A letter that overflows sets x to `leftMargin`, lowers y by one line and clears the anchor. The loop resumes at the anchor, which is never after the letter. Nothing is drawn. When the anchor marks the word (`AnchorOk`), it is the start of the whole trailing run of A–Z/a–z letters: every character from there to the letter is a letter, and the one before it is not. |
| LayoutStepProperties.StepWrapsGlyph | scripts/bitmapfont_renderer.cs:274-338 | Any other glyph that overflows is drawn at the left margin one line lower and the loop moves on. Its slot gets the quad at that pen, its two triangles and four copies of its colour. `left` becomes the min with `x0` and `right` the max with `x1`, measured from the left margin. Every other slot is unchanged. |
| LayoutStepProperties.InitAnchorOk | scripts/bitmapfont_renderer.cs:224-228 | The loop starts at index 0 with no word open, so the anchor marks the (empty) word. |
| LayoutStepProperties.AnchorAdvances | scripts/bitmapfont_renderer.cs:254-264 | Moving past one character while a letter opens or keeps the anchor, and any other character closes it, keeps the anchor on the word. |
| LayoutStepProperties.AnchorRewinds | scripts/bitmapfont_renderer.cs:276-287 | Rewinding to the word start with no word open keeps the anchor on the word. |
| LayoutStepProperties.StepKeepsAnchorOk | scripts/bitmapfont_renderer.cs:228-338 | Every iteration keeps the anchor on the word: from the word start up to the next index every character is an ASCII letter, and the character before the word start is not. |
| LayoutStepProperties.StepKeepsYOrLowers | scripts/bitmapfont_renderer.cs:228-288 | With `fontSize * lineSpacing >= 0`, no iteration raises the pen. |
| LayoutRunProperties.InitSlotsOk | scripts/bitmapfont_renderer.cs:211-214 | Freshly allocated buffers hold zeros in every slot, so the initial state satisfies the slot invariant. |
| LayoutRunProperties.DrawKeepsShape | scripts/bitmapfont_renderer.cs:318-338 | Drawing a drawable character into its slot keeps every slot either correctly drawn or untouched. |
| LayoutRunProperties.DrawKeepsFilled | scripts/bitmapfont_renderer.cs:329-338 | Drawing fills the current slot with its two triangles and colour, and every slot that was already filled stays filled. |
| LayoutRunProperties.DrawExtendsPrefix | scripts/bitmapfont_renderer.cs:318-338 | After drawing, every drawing character before the new next index has its slot filled. |
| LayoutRunProperties.DrawKeepsSlotsOk | scripts/bitmapfont_renderer.cs:318-338 | Drawing a character into its slot keeps two facts. Every slot is either correctly drawn or untouched. Every drawing character before the next index has its slot drawn. |
| LayoutRunProperties.PlaceKeepsSlotsOk | scripts/bitmapfont_renderer.cs:274-338 | The same holds for the glyph phase. A rewind only moves the next index back. |
| LayoutRunProperties.StepKeepsSlotsOk | scripts/bitmapfont_renderer.cs:228-338 | The same holds for any iteration. |
| LayoutRunProperties.RunKeepsSlotsOk | scripts/bitmapfont_renderer.cs:228-339 | The same holds for a whole run. |
| LayoutRunProperties.LayoutSlots | scripts/bitmapfont_renderer.cs:318-338 | In a finished layout, slot k of a character that draws holds `4k + [0,1,2,2,1,3]` coloured `colors[k]`. The slot of any other character holds zero triangles and colours. (Its vertices are shifted by the alignment pass like all others.) |
| LayoutRunProperties.LayoutTrianglesInRange | scripts/bitmapfont_renderer.cs:329-335 | Every triangle index of a finished layout is below 4n, so it names a vertex of the mesh. |
| LayoutRunProperties.RunNeverRaisesPen | scripts/bitmapfont_renderer.cs:228-339 | With `fontSize * lineSpacing >= 0`, y never increases over a run. |
| LayoutRunProperties.UnboundedRunFinishes | scripts/bitmapfont_renderer.cs:275 | With `mWidth == 0` there is no auto-wrap, and the loop finishes in `|text|` iterations. |
| LayoutRunProperties.UnfittableLetterDiverges | scripts/bitmapfont_renderer.cs:275-286 | Take a letter that opens a word and overflows even at the left margin. The loop rewinds to it forever and no fuel suffices. |
| LayoutRunProperties.UnfittableLetterNeverLaidOut | scripts/bitmapfont_renderer.cs:275-286 | In particular, a one-letter text whose glyph does not fit never gets a layout. |
| BitmapFontRenderer.LayoutCharacter | scripts/bitmapfont_renderer.cs:229-338 | One iteration on the arrays. The new locals and array contents are the state `Step` gives for the old ones. |
| BitmapFontRenderer.PlaceGlyph | scripts/bitmapfont_renderer.cs:272-338 | The glyph phase on the arrays. The result is the state `Place` gives. |
| BitmapFontRenderer.DrawGlyph | scripts/bitmapfont_renderer.cs:290-338 | Drawing on the arrays. The result is the state `Draw` gives. |
| BitmapFontRenderer.EmitGlyph | scripts/bitmapfont_renderer.cs:302-338 | Slot i gets the scaled quad, its two triangles and four copies of the colour. Nothing else in the arrays changes. |
| BitmapFontRenderer.EmitTriangles | scripts/bitmapfont_renderer.cs:329-335 | Triangle slot i gets `4i + [0,1,2,2,1,3]`. No other index changes. |
| BitmapFontRenderer.FillColor | scripts/bitmapfont_renderer.cs:337-338 | The colours of vertices `4i..4i+3` become the character's colour. No other colour changes. |
| BitmapFontRenderer.LayOutText | scripts/bitmapfont_renderer.cs:215-339 | The character loop, given `fuel` iterations, finishes exactly when `Run` does. It then ends in `Run`'s final state. |
| BitmapFontRenderer.ShiftVertices | scripts/bitmapfont_renderer.cs:352-353 | Every vertex's x grows by the offset. y and z are kept. |
| BitmapFontRenderer.AlignVertices | scripts/bitmapfont_renderer.cs:341-354 | The vertex array becomes `Aligned` of its old contents. |
| BitmapFontRenderer.Renderer.Environment | scripts/bitmapfont_renderer.cs:215-223 | With both reference metrics present and non-zero divisors, the environment of a layout is well formed: lookups on its font never throw, and the scale and the box width are defined. |
| BitmapFontRenderer.Renderer.constructor | scripts/bitmapfont_renderer.cs:108-122 | Stores the parameters and looks up both reference metrics. Each field holds the metric the lookup found, or null (`AsField`). The two are the same metric because `"\u004d"` is `M`. The renderer starts empty. For a well-formed font it accepts any size, width, height, alignment, spacing and margin parameters, a zero `size` included. |
| BitmapFontRenderer.Renderer.SetText | scripts/bitmapfont_renderer.cs:201-364 | Empty text marks the renderer empty and clears the mesh. Non-empty text marks it non-empty. A missing reference metric raises NullReferenceException and leaves the mesh as it was. Otherwise the mesh becomes the aligned layout of `LayoutMesh`, or stays as before if the fuel runs out. |
| BitmapFontRenderer.Renderer.SetTextUniform | scripts/bitmapfont_renderer.cs:193-199 | The same outcome and mesh as `SetText` given `|text|` copies of the colour. |

## Left out

- Resource loading (`ResourceCache`, texture path building, lines 103-107) and the finalizer (lines 125-130) are external reference counting. The font data is a constructor parameter.
- Unity's `Mesh`, `Material`, `MaterialPropertyBlock`, `RecalculateNormals`, `RecalculateBounds`, `Optimize` and `Render`/`Graphics.DrawMesh` (lines 356-371) are host rendering. The mesh is modelled as its vertex, triangle and colour buffers.
- The UV buffer and its half-texel formulas (lines 212, 220-221, 307-316, 324-327) are omitted. They are float arithmetic with no bookkeeping of their own.
- IEEE float behaviour (rounding, infinities, NaN) is not modelled: lengths are exact reals. So a zero `size` or `fontSize` is excluded where the division happens, in `SetText` (lines 216-217). There the scale or the box width would be a float division by zero.
- Culture-sensitive `string.CompareTo` is not modelled. The tests against `"\n"`, `" "`, `"\t"`, `"\u3000"`, `"A"`-`"Z"` and `"a"`-`"z"` are read as ordinal code-unit comparisons, which is what the code comments intend.
- `Encoding.Unicode.GetBytes` is replaced by arithmetic on one UTF-16 code unit. For a lone surrogate, which `Substring(i, 1)` yields for half of a pair, .NET may encode U+FFFD instead; the model keeps the code unit's own two bytes. Surrogate pairs are not handled by the code either, since `Substring(i, 1)` takes one code unit.
- BitmapFontRenderer.Renderer.constructor: requires a well-formed font. The lookups at lines 108-109 on a malformed table, which could raise, are not modelled. The default parameter values are not modelled either.
- BitmapFontRenderer.Renderer.SetText: requires non-zero `size` and `fontSize` for a non-empty text, because the float division is not modelled. It also requires at least as many colours as characters. The NullReferenceException or IndexOutOfRangeException for a null or short colour array (line 338) is not modelled. A null text is the empty sequence.
- BitmapFontRenderer.Renderer.SetTextUniform: the NullReferenceException on a null text (line 195) is not modelled, because text is a sequence.
- The completeness results `LocateReaches`, `SearchComplete` and `SearchExact` assume the font data's index brackets every entry (`IndexCovers`). `SearchMetric` does not check this. When it fails the lookup can miss a present glyph: take `indecies[F]` one below the start of F's run, when that run's first low byte is 0. The probe for `(F, 0)` then lands in the previous group, the search over that single entry misses, and the result is null.
- TextLayout.Step: covers only well-formed fonts (`EnvOk`). On a malformed table the lookup at line 266 could throw out of `SetText`, which is not modelled. `SearchNeverThrows` shows a well-formed font never reaches that case.
- TextLayoutRun.Run: the loop is given explicit fuel. A layout that runs out of fuel is reported as still looping. The model does not decide termination for every text, but `UnboundedRunFinishes` and `UnfittableLetterDiverges` cover the two extremes.
