/**
 * BitmapFont.Renderer: the construction parameters, the two reference glyphs looked up at
 * construction, and the empty flag and mesh buffers that SetText rebuilds on every call.
 */
module BitmapFontRenderer {
  import opened Wrappers
  import opened FontData
  import opened GlyphSearch
  import opened GlyphSearchProperties
  import opened TextLayout
  import opened TextLayoutRun

  /** How a call of SetText ends: normally, with the NullReferenceException raised when
      the font has no reference glyph, or still looping when the fuel ran out. */
  datatype SetTextOutcome = Completed | NullReference | OutOfFuel

  /** The glyph whose advance is the width of a space, tab and (as written) ideographic
      space: 'M'. */
  const AsciiReference: CodeUnit := 0x4D
  /** BitmapFont.Renderer spells the second reference glyph "\u004d", which is 'M' again. */
  const NonAsciiReference: CodeUnit := 0x004D

  /** A lookup result as a field holds it: the metric, or null. */
  function AsField(r: SearchResult): Option<Metric> {
    if r.Found? then Some(r.metric) else None
  }

  /**
   * One iteration of the character loop of SetText: the pen moves for a line feed or a
   * blank, a missing glyph is skipped, an overflowing glyph wraps the line and, for a
   * letter, rewinds to the start of its word; otherwise the glyph is emitted into slot i.
   * The state after it is the one Step describes.
   */
  method LayoutCharacter(e: Env, text: seq<CodeUnit>, colors: seq<Color>,
                         vertices: array<Vertex>, triangles: array<int>, vertexColors: array<Color>,
                         i: int, x: real, y: real, lastAscii: int, left: real, right: real)
    returns (i': int, x': real, y': real, lastAscii': int, left': real, right': real)
    requires EnvOk(e) && i < |text| && |colors| >= |text|
    requires Inv(|text|, State(i, x, y, lastAscii, left, right, vertices[..], triangles[..], vertexColors[..]))
    modifies vertices, triangles, vertexColors
    ensures State(i', x', y', lastAscii', left', right', vertices[..], triangles[..], vertexColors[..])
            == Step(e, text, colors, State(i, x, y, lastAscii, left, right,
                                           old(vertices[..]), old(triangles[..]), old(vertexColors[..])))
  {
    ghost var before := State(i, x, y, lastAscii, left, right, vertices[..], triangles[..], vertexColors[..]);
    var fontSize := e.font.header.fontSize as real;
    var c := text[i];
    i', x', y', lastAscii', left', right' := i, x, y, lastAscii, left, right;
    if c == LineFeed {
      x' := e.p.leftMargin;
      y' := y - fontSize * e.p.lineSpacing;
      lastAscii' := -1;
      i' := i + 1;
      return;
    } else if c == Space {
      x' := x + e.asciiAdvance + e.p.letterSpacing;
      lastAscii' := -1;
      i' := i + 1;
      return;
    } else if c == Tab {
      x' := x + (e.asciiAdvance + e.p.letterSpacing) * e.p.tabSpacing;
      lastAscii' := -1;
      i' := i + 1;
      return;
    } else if c == IdeographicSpace {
      x' := x + e.nonAsciiAdvance + fontSize * e.p.letterSpacing;
      lastAscii' := -1;
      i' := i + 1;
      return;
    }

    if IsAsciiLetter(c) {
      if lastAscii' == -1 {
        lastAscii' := i;
      }
    } else {
      lastAscii' := -1;
    }

    var found := SearchMetric(e.font, c);
    if !found.Found? {
      i' := i + 1;
      return;
    }
    var metric := found.metric;
    assert Step(e, text, colors, before)
        == Place(e, text, colors, before.(lastAscii := lastAscii'), metric);
    i', x', y', lastAscii', left', right' :=
      PlaceGlyph(e, text, colors, vertices, triangles, vertexColors, i, x, y, lastAscii', left, right, metric);
  }

  /** The rest of an iteration for a glyph found in the font: auto-wrap when it would
      cross the box, a rewind to the word start for a letter, otherwise the glyph drawn. */
  method PlaceGlyph(e: Env, text: seq<CodeUnit>, colors: seq<Color>,
                    vertices: array<Vertex>, triangles: array<int>, vertexColors: array<Color>,
                    i: int, x: real, y: real, lastAscii: int, left: real, right: real, metric: Metric)
    returns (i': int, x': real, y': real, lastAscii': int, left': real, right': real)
    requires EnvOk(e) && i < |text| && |colors| >= |text| && -1 <= lastAscii <= i
    requires Inv(|text|, State(i, x, y, -1, left, right, vertices[..], triangles[..], vertexColors[..]))
    modifies vertices, triangles, vertexColors
    ensures State(i', x', y', lastAscii', left', right', vertices[..], triangles[..], vertexColors[..])
            == Place(e, text, colors, State(i, x, y, lastAscii, left, right,
                                            old(vertices[..]), old(triangles[..]), old(vertexColors[..])), metric)
  {
    ghost var before := State(i, x, y, lastAscii, left, right, vertices[..], triangles[..], vertexColors[..]);
    var width := BoxWidth(e);
    i', x', y', lastAscii', left', right' := i, x, y, lastAscii, left, right;
    var px := x + Advance(e, metric);
    if width != 0.0 && px >= width - e.p.rightMargin {
      var index := lastAscii;
      lastAscii' := -1;
      x' := e.p.leftMargin;
      y' := y - LineHeight(e);
      if index != -1 && IsAsciiLetter(text[i]) {
        i' := index;
        return;
      }
    }
    PlaceDraws(e, text, colors, before, metric);
    i', x', left', right' := DrawGlyph(e, colors, vertices, triangles, vertexColors, i, x', y', lastAscii', left, right, metric);
  }

  /** Drawing a glyph at the pen (lines 290-338): the drawn extent grows to cover it, its
      quad goes into slot i and the pen moves on by its advance. */
  method DrawGlyph(e: Env, colors: seq<Color>, vertices: array<Vertex>, triangles: array<int>, vertexColors: array<Color>,
                   i: int, x: real, y: real, lastAscii: int, left: real, right: real, metric: Metric)
    returns (i': int, x': real, left': real, right': real)
    requires EnvOk(e) && 0 <= i < |colors|
    requires 4 * i + 4 <= vertices.Length && 6 * i + 6 <= triangles.Length && 4 * i + 4 <= vertexColors.Length
    modifies vertices, triangles, vertexColors
    ensures State(i', x', y, lastAscii, left', right', vertices[..], triangles[..], vertexColors[..])
            == Draw(e, colors, State(i, x, y, lastAscii, left, right,
                                     old(vertices[..]), old(triangles[..]), old(vertexColors[..])), metric)
  {
    var advance := metric.advance as real + (e.font.header.fontSize as real) * e.p.letterSpacing;
    assert advance == Advance(e, metric);
    var x0 := x + metric.bearingX as real;
    var x1 := x0 + metric.width as real;
    left', right' := left, right;
    if left' > x0 {
      left' := x0;
    }
    if right' < x1 {
      right' := x1;
    }
    EmitGlyph(e, vertices, triangles, vertexColors, i, x, y, metric, colors[i]);
    x' := x + advance;
    i' := i + 1;
  }

  /** Slot i of the buffers receives the scaled quad of the glyph at pen (x, y), its two
      triangles, and four copies of its colour; nothing else changes. */
  method EmitGlyph(e: Env, vertices: array<Vertex>, triangles: array<int>, vertexColors: array<Color>,
                   i: int, x: real, y: real, metric: Metric, color: Color)
    requires EnvOk(e) && 0 <= i
    requires 4 * i + 4 <= vertices.Length && 6 * i + 6 <= triangles.Length && 4 * i + 4 <= vertexColors.Length
    modifies vertices, triangles, vertexColors
    ensures var q := Quad(e, x, y, metric);
            vertices[..] == SetQuad(old(vertices[..]), i, q[0], q[1], q[2], q[3])
    ensures triangles[..] == SetTriangles(old(triangles[..]), i)
    ensures vertexColors[..] == SetQuad(old(vertexColors[..]), i, color, color, color, color)
  {
    var q := Quad(e, x, y, metric);
    var vertexOffset := i * 4;
    vertices[vertexOffset + 0] := q[0];
    vertices[vertexOffset + 1] := q[1];
    vertices[vertexOffset + 2] := q[2];
    vertices[vertexOffset + 3] := q[3];
    EmitTriangles(triangles, i);
    FillColor(vertexColors, i, color);
  }

  /** The two triangles of slot i over its own four vertices (lines 329-335). */
  method EmitTriangles(triangles: array<int>, i: int)
    requires 0 <= i && 6 * i + 6 <= triangles.Length
    modifies triangles
    ensures triangles[..] == SetTriangles(old(triangles[..]), i)
  {
    var vertexOffset := i * 4;
    var triangleOffset := i * 6;
    ghost var t := triangles[..];
    triangles[triangleOffset + 0] := 0 + vertexOffset;
    t := t[triangleOffset := vertexOffset];
    assert triangles[..] == t;
    triangles[triangleOffset + 1] := 1 + vertexOffset;
    t := t[triangleOffset + 1 := vertexOffset + 1];
    assert triangles[..] == t;
    triangles[triangleOffset + 2] := 2 + vertexOffset;
    t := t[triangleOffset + 2 := vertexOffset + 2];
    assert triangles[..] == t;
    triangles[triangleOffset + 3] := 2 + vertexOffset;
    t := t[triangleOffset + 3 := vertexOffset + 2];
    assert triangles[..] == t;
    triangles[triangleOffset + 4] := 1 + vertexOffset;
    t := t[triangleOffset + 4 := vertexOffset + 1];
    assert triangles[..] == t;
    triangles[triangleOffset + 5] := 3 + vertexOffset;
    t := t[triangleOffset + 5 := vertexOffset + 3];
    assert triangles[..] == t;
  }

  /** The four vertices of slot i take the character's colour (lines 337-338). */
  method FillColor(vertexColors: array<Color>, i: int, color: Color)
    requires 0 <= i && 4 * i + 4 <= vertexColors.Length
    modifies vertexColors
    ensures vertexColors[..] == SetQuad(old(vertexColors[..]), i, color, color, color, color)
  {
    var vertexOffset := i * 4;
    for n := 0 to 4
      modifies vertexColors
      invariant forall j :: 0 <= j < vertexColors.Length ==>
                  vertexColors[j] == if vertexOffset <= j < vertexOffset + n then color else old(vertexColors[j])
    {
      vertexColors[vertexOffset + n] := color;
    }
  }

  /** The character loop of SetText (lines 215-339) over freshly allocated buffers, given
      `fuel` iterations: it finishes exactly when the layout does, with the layout's state. */
  method LayOutText(e: Env, text: seq<CodeUnit>, colors: seq<Color>, fuel: nat,
                    vertices: array<Vertex>, triangles: array<int>, vertexColors: array<Color>)
    returns (i: int, x: real, y: real, lastAscii: int, left: real, right: real, finished: bool)
    requires EnvOk(e) && |colors| >= |text|
    requires vertices[..] == Init(e, |text|).vertices && triangles[..] == Init(e, |text|).triangles
    requires vertexColors[..] == Init(e, |text|).vertexColors
    modifies vertices, triangles, vertexColors
    ensures finished <==> Run(e, text, colors, Init(e, |text|), fuel).Some?
    ensures finished ==>
              Run(e, text, colors, Init(e, |text|), fuel)
              == Some(State(i, x, y, lastAscii, left, right, vertices[..], triangles[..], vertexColors[..]))
  {
    var chars := |text|;
    var fontSize := e.font.header.fontSize as real;
    var scale := e.p.size / fontSize;
    var width := e.p.width / scale;
    x := e.p.leftMargin;
    y := -(e.font.header.fontAscent as real);
    lastAscii := -1;
    left := width;
    right := 0.0;

    i := 0;
    ghost var init := Init(e, chars);
    ghost var cur := State(i, x, y, lastAscii, left, right, vertices[..], triangles[..], vertexColors[..]);
    assert cur == init;
    ghost var goal := Run(e, text, colors, init, fuel);
    var steps := fuel;
    while i < chars && steps > 0
      modifies vertices, triangles, vertexColors
      invariant cur == State(i, x, y, lastAscii, left, right, vertices[..], triangles[..], vertexColors[..])
      invariant Inv(chars, cur)
      invariant goal == Run(e, text, colors, cur, steps)
      decreases steps
    {
      RunUnfolds(e, text, colors, cur, steps);
      steps := steps - 1;
      i, x, y, lastAscii, left, right :=
        LayoutCharacter(e, text, colors, vertices, triangles, vertexColors, i, x, y, lastAscii, left, right);
      cur := State(i, x, y, lastAscii, left, right, vertices[..], triangles[..], vertexColors[..]);
    }
    RunEnds(e, text, colors, cur, steps);
    finished := i >= chars;
  }

  /** The alignment pass (lines 341-354): unless the text is left aligned, every vertex
      moves right by the offset that centres or right-aligns the drawn extent. */
  method AlignVertices(e: Env, vertices: array<Vertex>, left: real, right: real)
    requires EnvOk(e)
    modifies vertices
    ensures vertices[..] == Aligned(e, old(vertices[..]), left, right)
  {
    if e.p.align != Left {
      var tw := right - left;
      var offset;
      if e.p.align == Center {
        offset := (e.p.width - e.p.leftMargin - e.p.rightMargin - tw) / 2.0;
      } else {
        offset := e.p.width - e.p.rightMargin - tw;
      }
      offset := offset * Scale(e);
      assert offset == AlignOffset(e, left, right);
      ShiftVertices(vertices, offset);
      ghost var shifted := Aligned(e, old(vertices[..]), left, right);
      assert forall j :: 0 <= j < vertices.Length ==> vertices[j] == shifted[j];
    }
  }

  /** Move every vertex of the buffer right by offset (lines 352-353). */
  method ShiftVertices(vertices: array<Vertex>, offset: real)
    modifies vertices
    ensures forall j :: 0 <= j < vertices.Length ==>
              vertices[j] == Vertex(old(vertices[j]).x + offset, old(vertices[j]).y, old(vertices[j]).z)
  {
    for k := 0 to vertices.Length
      modifies vertices
      invariant forall j :: 0 <= j < k ==> vertices[j] == old(vertices[j]).(x := old(vertices[j]).x + offset)
      invariant forall j :: k <= j < vertices.Length ==> vertices[j] == old(vertices[j])
    {
      vertices[k] := vertices[k].(x := vertices[k].x + offset);
    }
  }

  class Renderer {
    const name: string
    const font: Data
    const params: Params
    const asciiMetric: Option<Metric>
    const nonasciiMetric: Option<Metric>
    var empty: bool
    var mesh: Mesh

    /** The font is well formed (a malformed one fails to load) and the two reference
        metrics are what their lookups gave. */
    predicate Valid() {
      WellFormed(font) &&
      asciiMetric == AsField(SearchMetric(font, AsciiReference)) &&
      nonasciiMetric == AsField(SearchMetric(font, NonAsciiReference))
    }

    /** The divisors of the scale size / fontSize and of the box width width / scale are
        non-zero. */
    predicate ScaleDefined() {
      font.header.fontSize != 0 && params.size != 0.0
    }

    /** What a layout reads from this renderer. */
    function Environment(): (e: Env)
      requires Valid() && ScaleDefined() && asciiMetric.Some? && nonasciiMetric.Some?
      ensures EnvOk(e)
    {
      WellFormedLookupsTotal(font);
      Env(font, params, asciiMetric.value.advance as real, nonasciiMetric.value.advance as real)
    }

    constructor (fontName: string, fontData: Data, size: real, width: real, height: real, align: Align,
                 lineSpacing: real, letterSpacing: real, tabSpacing: real, leftMargin: real, rightMargin: real)
      requires WellFormed(fontData)
      ensures Valid()
      ensures name == fontName && font == fontData
      ensures params == Params(size, width, height, align, lineSpacing, letterSpacing, tabSpacing, leftMargin, rightMargin)
      ensures asciiMetric == AsField(SearchMetric(fontData, AsciiReference))
      ensures nonasciiMetric == asciiMetric
      ensures empty && mesh == EmptyMesh
    {
      name := fontName;
      font := fontData;
      asciiMetric := AsField(SearchMetric(fontData, AsciiReference));
      nonasciiMetric := AsField(SearchMetric(fontData, NonAsciiReference));
      params := Params(size, width, height, align, lineSpacing, letterSpacing, tabSpacing, leftMargin, rightMargin);
      empty := true;
      mesh := EmptyMesh;
    }

    /**
     * SetText(text, colors). An empty text clears the mesh and marks the renderer empty.
     * Otherwise the renderer is marked non-empty, and the mesh becomes the aligned layout
     * of the text. The loop may run forever; it is given `fuel` iterations, and a call
     * that runs out of them leaves the mesh as it was.
     */
    method SetText(text: seq<CodeUnit>, colors: seq<Color>, fuel: nat) returns (outcome: SetTextOutcome)
      requires Valid() && |colors| >= |text| && (|text| > 0 ==> ScaleDefined())
      modifies this
      ensures |text| == 0 ==> outcome == Completed && empty && mesh == EmptyMesh
      ensures |text| > 0 ==> !empty
      ensures |text| > 0 && (asciiMetric.None? || nonasciiMetric.None?) ==>
                outcome == NullReference && mesh == old(mesh)
      ensures |text| > 0 && asciiMetric.Some? && nonasciiMetric.Some? ==>
                var r := LayoutMesh(Environment(), text, colors, fuel);
                outcome == (if r.Some? then Completed else OutOfFuel) &&
                mesh == (if r.Some? then r.value else old(mesh))
    {
      if |text| == 0 {
        empty := true;
        mesh := EmptyMesh;
        return Completed;
      }
      empty := false;
      var chars := |text|;
      var vertices := new Vertex[chars * 4](_ => Origin);
      var triangles := new int[chars * 6](_ => 0);
      var vertexColors := new Color[chars * 4](_ => Clear);
      if asciiMetric.None? || nonasciiMetric.None? {
        return NullReference;
      }
      var e := Environment();
      assert vertices[..] == Init(e, chars).vertices && triangles[..] == Init(e, chars).triangles;
      assert vertexColors[..] == Init(e, chars).vertexColors;
      var i, x, y, lastAscii, left, right, finished :=
        LayOutText(e, text, colors, fuel, vertices, triangles, vertexColors);
      if !finished {
        // the fuel ran out before the text did: SetText is still looping
        return OutOfFuel;
      }
      AlignVertices(e, vertices, left, right);

      mesh := Mesh(vertices[..], triangles[..], vertexColors[..]);
      return Completed;
    }

    /** SetText(text, color): the same layout with one colour for every character. */
    method SetTextUniform(text: seq<CodeUnit>, color: Color, fuel: nat) returns (outcome: SetTextOutcome)
      requires Valid() && (|text| > 0 ==> ScaleDefined())
      modifies this
      ensures |text| == 0 ==> outcome == Completed && empty && mesh == EmptyMesh
      ensures |text| > 0 ==> !empty
      ensures |text| > 0 && (asciiMetric.None? || nonasciiMetric.None?) ==>
                outcome == NullReference && mesh == old(mesh)
      ensures |text| > 0 && asciiMetric.Some? && nonasciiMetric.Some? ==>
                var r := LayoutMesh(Environment(), text, seq(|text|, _ => color), fuel);
                outcome == (if r.Some? then Completed else OutOfFuel) &&
                mesh == (if r.Some? then r.value else old(mesh))
    {
      var colors := new Color[|text|](_ => Clear);
      for i := 0 to |text|
        modifies colors
        invariant forall j :: 0 <= j < i ==> colors[j] == color
      {
        colors[i] := color;
      }
      assert colors[..] == seq(|text|, _ => color);
      outcome := SetText(text, colors[..], fuel);
    }
  }
}
