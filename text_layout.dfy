/**
 * Text layout (the loop of Renderer.SetText) as a step function on the layout state: the
 * pen, the word-wrap anchor, the ink extent and the pre-sized vertex, triangle and colour
 * buffers. Lengths are in font design units until a vertex is emitted, scaled by
 * size / fontSize.
 */
module TextLayout {
  import opened FontData
  import opened GlyphSearch

  datatype Align = Left | Right | Center

  datatype Vertex = Vertex(x: real, y: real, z: real)

  datatype Color = Color(r: real, g: real, b: real, a: real)

  /** The zero values a freshly allocated Vector3 and Color hold. */
  const Origin := Vertex(0.0, 0.0, 0.0)
  const Clear := Color(0.0, 0.0, 0.0, 0.0)

  /** The layout parameters a Renderer is constructed with. */
  datatype Params = Params(
    size: real,
    width: real,
    height: real,
    align: Align,
    lineSpacing: real,
    letterSpacing: real,
    tabSpacing: real,
    leftMargin: real,
    rightMargin: real)

  /** Everything one layout reads: the font, the parameters and the advances of the two
      reference glyphs. */
  datatype Env = Env(font: Data, p: Params, asciiAdvance: real, nonAsciiAdvance: real)

  /** Looking a glyph up in the font never throws; SearchNeverThrows shows this of every
      well-formed font. */
  predicate LookupsTotal(font: Data) {
    forall c: CodeUnit :: !SearchMetric(font, c).Threw?
  }

  /** Glyph lookups never throw, and the scale and the box width are quotients, so both
      divisors must be non-zero. */
  predicate EnvOk(e: Env) {
    LookupsTotal(e.font) && e.font.header.fontSize != 0 && e.p.size != 0.0
  }

  function FontSize(e: Env): real {
    e.font.header.fontSize as real
  }

  function Scale(e: Env): real
    requires EnvOk(e)
  {
    e.p.size / FontSize(e)
  }

  /** The box width in design units; zero means unbounded (no auto-wrap). */
  function BoxWidth(e: Env): (w: real)
    requires EnvOk(e)
    ensures w == 0.0 <==> e.p.width == 0.0
  {
    e.p.width / Scale(e)
  }

  function LineHeight(e: Env): real {
    FontSize(e) * e.p.lineSpacing
  }

  const LineFeed: CodeUnit := 0x0A
  const Tab: CodeUnit := 0x09
  const Space: CodeUnit := 0x20
  const IdeographicSpace: CodeUnit := 0x3000

  /** Characters that move the pen and never draw. */
  predicate MovesPenOnly(c: CodeUnit) {
    c == LineFeed || c == Space || c == Tab || c == IdeographicSpace
  }

  /** A-Z or a-z: the characters that open or continue a word for word-wrap. */
  predicate IsAsciiLetter(c: CodeUnit) {
    'A' as int <= c <= 'Z' as int || 'a' as int <= c <= 'z' as int
  }

  /** A character that gets a quad: not a spacing character, and present in the font. */
  predicate Draws(font: Data, c: CodeUnit) {
    !MovesPenOnly(c) && SearchMetric(font, c).Found?
  }

  /** The loop state: the index i of the next character, the pen (x, y), the start of the
      open ASCII word (-1 when none), the ink extent and the three buffers. */
  datatype State = State(
    i: int,
    x: real,
    y: real,
    lastAscii: int,
    left: real,
    right: real,
    vertices: seq<Vertex>,
    triangles: seq<int>,
    vertexColors: seq<Color>)

  /** Four vertices, four colours and six triangle indices per character; the anchor, when
      open, lies before the next character. */
  predicate Inv(n: nat, s: State) {
    0 <= s.i <= n && -1 <= s.lastAscii < s.i &&
    |s.vertices| == 4 * n && |s.triangles| == 6 * n && |s.vertexColors| == 4 * n
  }

  /** The state before the first character: pen at the left margin on the first baseline. */
  function Init(e: Env, n: nat): (s: State)
    requires EnvOk(e)
    ensures Inv(n, s) && s.i == 0 && s.lastAscii == -1
  {
    State(0, e.p.leftMargin, -(e.font.header.fontAscent as real), -1, BoxWidth(e), 0.0,
          seq(4 * n, _ => Origin), seq(6 * n, _ => 0), seq(4 * n, _ => Clear))
  }

  /** Pen advance of a glyph: its own advance plus the letter spacing scaled to the font. */
  function Advance(e: Env, m: Metric): real {
    m.advance as real + FontSize(e) * e.p.letterSpacing
  }

  /** The glyph would cross the right edge of a bounded box. */
  predicate Overflows(e: Env, x: real, m: Metric)
    requires EnvOk(e)
  {
    BoxWidth(e) != 0.0 && x + Advance(e, m) >= BoxWidth(e) - e.p.rightMargin
  }

  /** One iteration of the loop on character text[s.i]. */
  function Step(e: Env, text: seq<CodeUnit>, colors: seq<Color>, s: State): (r: State)
    requires EnvOk(e) && Inv(|text|, s) && s.i < |text| && |colors| >= |text|
    ensures Inv(|text|, r)
  {
    var c := text[s.i];
    if c == LineFeed then
      s.(i := s.i + 1, x := e.p.leftMargin, y := s.y - LineHeight(e), lastAscii := -1)
    else if c == Space then
      s.(i := s.i + 1, x := s.x + e.asciiAdvance + e.p.letterSpacing, lastAscii := -1)
    else if c == Tab then
      s.(i := s.i + 1, x := s.x + (e.asciiAdvance + e.p.letterSpacing) * e.p.tabSpacing, lastAscii := -1)
    else if c == IdeographicSpace then
      s.(i := s.i + 1, x := s.x + e.nonAsciiAdvance + FontSize(e) * e.p.letterSpacing, lastAscii := -1)
    else
      var anchor := if IsAsciiLetter(c) then (if s.lastAscii == -1 then s.i else s.lastAscii) else -1;
      var s' := s.(lastAscii := anchor);
      match SearchMetric(e.font, c)
      case Found(m) => Place(e, text, colors, s', m)
      // null, since lookups never throw (LookupsTotal)
      case _ => s'.(i := s.i + 1)
  }

  /** The glyph part of an iteration: auto-wrap, and then either a rewind to the anchor or
      the quad drawn at the pen. */
  function Place(e: Env, text: seq<CodeUnit>, colors: seq<Color>, s: State, m: Metric): (r: State)
    requires EnvOk(e) && Inv(|text|, s.(lastAscii := -1)) && s.i < |text| && |colors| >= |text|
    requires -1 <= s.lastAscii <= s.i
    ensures Inv(|text|, r)
  {
    if Overflows(e, s.x, m) then
      var index := s.lastAscii;
      var wrapped := s.(x := e.p.leftMargin, y := s.y - LineHeight(e), lastAscii := -1);
      if index != -1 && IsAsciiLetter(text[s.i]) then wrapped.(i := index)
      else Draw(e, colors, wrapped, m)
    else Draw(e, colors, s, m)
  }

  /** A glyph that is not rewound is drawn: at the pen, or at the start of the next line
      when it overflows the box. */
  lemma PlaceDraws(e: Env, text: seq<CodeUnit>, colors: seq<Color>, s: State, m: Metric)
    requires EnvOk(e) && Inv(|text|, s.(lastAscii := -1)) && s.i < |text| && |colors| >= |text|
    requires -1 <= s.lastAscii <= s.i
    requires !(Overflows(e, s.x, m) && s.lastAscii != -1 && IsAsciiLetter(text[s.i]))
    ensures Place(e, text, colors, s, m)
            == Draw(e, colors, if Overflows(e, s.x, m) then s.(x := e.p.leftMargin, y := s.y - LineHeight(e), lastAscii := -1)
                               else s, m)
  {
  }

  /** v with the four entries of slot k replaced by a, b, c and d. */
  function SetQuad<T>(v: seq<T>, k: int, a: T, b: T, c: T, d: T): seq<T>
    requires 0 <= k && 4 * k + 4 <= |v|
  {
    v[4 * k := a][4 * k + 1 := b][4 * k + 2 := c][4 * k + 3 := d]
  }

  /** t with the six entries of slot k replaced by the two triangles of that slot. */
  function SetTriangles(t: seq<int>, k: int): seq<int>
    requires 0 <= k && 6 * k + 6 <= |t|
  {
    t[6 * k := 4 * k][6 * k + 1 := 4 * k + 1][6 * k + 2 := 4 * k + 2]
     [6 * k + 3 := 4 * k + 2][6 * k + 4 := 4 * k + 1][6 * k + 5 := 4 * k + 3]
  }

  /** The triangle indices of slot k: two triangles over its four vertices. */
  function QuadTriangles(k: int): seq<int> {
    [4 * k, 4 * k + 1, 4 * k + 2, 4 * k + 2, 4 * k + 1, 4 * k + 3]
  }

  /** The quad of metric m with its pen at (x, y): top-right, bottom-right, top-left,
      bottom-left, scaled to world units. */
  function Quad(e: Env, x: real, y: real, m: Metric): seq<Vertex>
    requires EnvOk(e)
  {
    var sc := Scale(e);
    var x0 := x + m.bearingX as real;
    var x1 := x0 + m.width as real;
    var y0 := y + m.bearingY as real;
    var y1 := y0 - m.height as real;
    [Vertex(x1 * sc, y0 * sc, 0.0), Vertex(x1 * sc, y1 * sc, 0.0),
     Vertex(x0 * sc, y0 * sc, 0.0), Vertex(x0 * sc, y1 * sc, 0.0)]
  }

  /** Emit the quad of m at the pen into slot s.i and advance the pen. */
  function Draw(e: Env, colors: seq<Color>, s: State, m: Metric): (r: State)
    requires EnvOk(e) && 0 <= s.i < |colors|
    requires 4 * s.i + 4 <= |s.vertices| && 6 * s.i + 6 <= |s.triangles| && 4 * s.i + 4 <= |s.vertexColors|
  {
    var x0 := s.x + m.bearingX as real;
    var x1 := x0 + m.width as real;
    var q := Quad(e, s.x, s.y, m);
    var col := colors[s.i];
    s.(i := s.i + 1,
       x := s.x + Advance(e, m),
       left := if s.left > x0 then x0 else s.left,
       right := if s.right < x1 then x1 else s.right,
       vertices := SetQuad(s.vertices, s.i, q[0], q[1], q[2], q[3]),
       triangles := SetTriangles(s.triangles, s.i),
       vertexColors := SetQuad(s.vertexColors, s.i, col, col, col, col))
  }
}

/** The whole layout: the loop run to the end of the text, the alignment pass and the
    resulting mesh buffers. */
module TextLayoutRun {
  import opened Wrappers
  import opened FontData
  import opened GlyphSearch
  import opened TextLayout

  /**
   * The loop from state s with at most `fuel` iterations. The loop need not terminate
   * (a word that cannot fit on an empty line is rewound to forever), so a run that uses
   * up its fuel is None.
   */
  function Run(e: Env, text: seq<CodeUnit>, colors: seq<Color>, s: State, fuel: nat): (r: Option<State>)
    requires EnvOk(e) && Inv(|text|, s) && |colors| >= |text|
    ensures r.Some? ==> Inv(|text|, r.value) && r.value.i == |text|
    decreases fuel
  {
    if s.i >= |text| then Some(s)
    else if fuel == 0 then None
    else Run(e, text, colors, Step(e, text, colors, s), fuel - 1)
  }

  /** One more iteration of a run that has text and fuel left. */
  lemma RunUnfolds(e: Env, text: seq<CodeUnit>, colors: seq<Color>, s: State, fuel: nat)
    requires EnvOk(e) && Inv(|text|, s) && |colors| >= |text| && s.i < |text| && fuel > 0
    ensures Run(e, text, colors, s, fuel) == Run(e, text, colors, Step(e, text, colors, s), fuel - 1)
  {
  }

  /** A run with no text or no fuel left ends at once: finished exactly when no text is left. */
  lemma RunEnds(e: Env, text: seq<CodeUnit>, colors: seq<Color>, s: State, fuel: nat)
    requires EnvOk(e) && Inv(|text|, s) && |colors| >= |text| && !(s.i < |text| && fuel > 0)
    ensures Run(e, text, colors, s, fuel) == if s.i >= |text| then Some(s) else None
  {
  }

  /** The horizontal shift of the alignment pass, in world units. */
  function AlignOffset(e: Env, left: real, right: real): real
    requires EnvOk(e)
  {
    var tw := right - left;
    match e.p.align
    case Left => 0.0
    case Center => (e.p.width - e.p.leftMargin - e.p.rightMargin - tw) / 2.0 * Scale(e)
    case Right => (e.p.width - e.p.rightMargin - tw) * Scale(e)
  }

  /** The alignment pass: left alignment leaves the vertices alone; otherwise every
      vertex, used slot or not, moves right by the same offset and keeps its y and z. */
  function Aligned(e: Env, vertices: seq<Vertex>, left: real, right: real): (vs: seq<Vertex>)
    requires EnvOk(e)
    ensures |vs| == |vertices|
    ensures e.p.align == Left ==> vs == vertices
    ensures forall j :: 0 <= j < |vs| ==>
              vs[j] == Vertex(vertices[j].x + AlignOffset(e, left, right), vertices[j].y, vertices[j].z)
  {
    if e.p.align == Left then vertices
    else seq(|vertices|, j requires 0 <= j < |vertices| => vertices[j].(x := vertices[j].x + AlignOffset(e, left, right)))
  }

  /** The buffers handed to the mesh. */
  datatype Mesh = Mesh(vertices: seq<Vertex>, triangles: seq<int>, colors: seq<Color>)

  const EmptyMesh := Mesh([], [], [])

  /** Layout of a whole text from the initial state; None when the loop does not finish
      within `fuel` iterations. */
  function LayoutMesh(e: Env, text: seq<CodeUnit>, colors: seq<Color>, fuel: nat): (r: Option<Mesh>)
    requires EnvOk(e) && |colors| >= |text|
    ensures r.Some? ==>
              |r.value.vertices| == 4 * |text| && |r.value.triangles| == 6 * |text| && |r.value.colors| == 4 * |text|
  {
    match Run(e, text, colors, Init(e, |text|), fuel)
    case None => None
    case Some(s) => Some(Mesh(Aligned(e, s.vertices, s.left, s.right), s.triangles, s.vertexColors))
  }
}
