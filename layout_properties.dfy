/** What one iteration of the layout loop does, character class by character class. */
module LayoutStepProperties {
  import opened FontData
  import opened GlyphSearch
  import opened TextLayout

  /** The buffers and the ink extent are as before: no slot was written. */
  predicate WritesNoSlot(s: State, r: State) {
    r.vertices == s.vertices && r.triangles == s.triangles && r.vertexColors == s.vertexColors &&
    r.left == s.left && r.right == s.right
  }

  /** Where the open word starts: the anchor, or the next index when no word is open. */
  function WordStart(s: State): int {
    if s.lastAscii == -1 then s.i else s.lastAscii
  }

  /** The anchor marks the trailing run of ASCII letters before the next index: every
      character from the word start up to s.i is a letter, and the one before the word
      start, if any, is not. */
  predicate AnchorOk(text: seq<CodeUnit>, s: State)
    requires Inv(|text|, s)
  {
    (forall k :: WordStart(s) <= k < s.i ==> IsAsciiLetter(text[k])) &&
    (WordStart(s) == 0 || !IsAsciiLetter(text[WordStart(s) - 1]))
  }

  /** A line feed returns the pen to the left margin one line lower and closes the word. */
  lemma StepLineFeed(e: Env, text: seq<CodeUnit>, colors: seq<Color>, s: State)
    requires EnvOk(e) && Inv(|text|, s) && s.i < |text| && |colors| >= |text|
    requires text[s.i] == LineFeed
    ensures var r := Step(e, text, colors, s);
            r.i == s.i + 1 && r.x == e.p.leftMargin && r.y == s.y - LineHeight(e) &&
            r.lastAscii == -1 && WritesNoSlot(s, r)
  {
  }

  /** The pen advance of the three blank characters. */
  function BlankAdvance(e: Env, c: CodeUnit): real {
    if c == Space then e.asciiAdvance + e.p.letterSpacing
    else if c == Tab then (e.asciiAdvance + e.p.letterSpacing) * e.p.tabSpacing
    else e.nonAsciiAdvance + FontSize(e) * e.p.letterSpacing
  }

  /** Space, tab and the ideographic space move the pen right on the same line, close the
      word, and draw nothing. */
  lemma StepBlank(e: Env, text: seq<CodeUnit>, colors: seq<Color>, s: State)
    requires EnvOk(e) && Inv(|text|, s) && s.i < |text| && |colors| >= |text|
    requires text[s.i] in {Space, Tab, IdeographicSpace}
    ensures var r := Step(e, text, colors, s);
            r.i == s.i + 1 && r.x == s.x + BlankAdvance(e, text[s.i]) && r.y == s.y &&
            r.lastAscii == -1 && WritesNoSlot(s, r)
  {
  }

  /** A character the font lacks is skipped: the pen does not move and nothing is drawn;
      only the word anchor is updated. */
  lemma StepMissingGlyph(e: Env, text: seq<CodeUnit>, colors: seq<Color>, s: State)
    requires EnvOk(e) && Inv(|text|, s) && s.i < |text| && |colors| >= |text|
    requires !MovesPenOnly(text[s.i]) && !SearchMetric(e.font, text[s.i]).Found?
    ensures var r := Step(e, text, colors, s);
            r.i == s.i + 1 && r.x == s.x && r.y == s.y && WritesNoSlot(s, r) &&
            (r.lastAscii == -1 <==> !IsAsciiLetter(text[s.i])) &&
            r.lastAscii == (if !IsAsciiLetter(text[s.i]) then -1 else if s.lastAscii == -1 then s.i else s.lastAscii)
  {
  }

  /** The word anchor: a letter opens a word when none is open and keeps an open one;
      any other drawable character closes it. */
  lemma StepAnchor(e: Env, text: seq<CodeUnit>, colors: seq<Color>, s: State, m: Metric)
    requires EnvOk(e) && Inv(|text|, s) && s.i < |text| && |colors| >= |text|
    requires !MovesPenOnly(text[s.i]) && SearchMetric(e.font, text[s.i]) == Found(m)
    requires !Overflows(e, s.x, m)
    ensures var r := Step(e, text, colors, s);
            r.lastAscii == (if !IsAsciiLetter(text[s.i]) then -1 else if s.lastAscii == -1 then s.i else s.lastAscii)
  {
  }

  /** The four vertices of slot k. */
  function VertexSlot(s: State, k: int): seq<Vertex>
    requires 0 <= k && 4 * k + 4 <= |s.vertices|
  {
    s.vertices[4 * k..4 * k + 4]
  }

  function TriangleSlot(s: State, k: int): seq<int>
    requires 0 <= k && 6 * k + 6 <= |s.triangles|
  {
    s.triangles[6 * k..6 * k + 6]
  }

  function ColorSlot(s: State, k: int): seq<Color>
    requires 0 <= k && 4 * k + 4 <= |s.vertexColors|
  {
    s.vertexColors[4 * k..4 * k + 4]
  }

  lemma QuadUpdate<T>(v: seq<T>, i: int, a: T, b: T, c: T, d: T, k: int)
    requires 0 <= i && 0 <= k && 4 * i + 4 <= |v| && 4 * k + 4 <= |v|
    ensures SetQuad(v, i, a, b, c, d)[4 * k..4 * k + 4] == if k == i then [a, b, c, d] else v[4 * k..4 * k + 4]
  {
    var w := SetQuad(v, i, a, b, c, d);
    if k == i {
      assert w[4 * k..4 * k + 4] == [a, b, c, d];
    } else {
      assert k < i || i < k;
      var ws, vs := w[4 * k..4 * k + 4], v[4 * k..4 * k + 4];
      forall j | 0 <= j < 4 ensures ws[j] == vs[j] { }
    }
  }

  lemma TrianglesUpdate(t: seq<int>, i: int, k: int)
    requires 0 <= i && 0 <= k && 6 * i + 6 <= |t| && 6 * k + 6 <= |t|
    ensures SetTriangles(t, i)[6 * k..6 * k + 6] == if k == i then QuadTriangles(i) else t[6 * k..6 * k + 6]
  {
    var w := SetTriangles(t, i);
    if k == i {
      assert w[6 * k..6 * k + 6] == QuadTriangles(i);
    } else {
      assert k < i || i < k;
      var ws, ts := w[6 * k..6 * k + 6], t[6 * k..6 * k + 6];
      forall j | 0 <= j < 6 ensures ws[j] == ts[j] { }
    }
  }

  lemma DrawVertexSlot(e: Env, colors: seq<Color>, s: State, m: Metric, k: int)
    requires EnvOk(e) && 0 <= s.i < |colors|
    requires 4 * s.i + 4 <= |s.vertices| && 6 * s.i + 6 <= |s.triangles| && 4 * s.i + 4 <= |s.vertexColors|
    requires 0 <= k && 4 * k + 4 <= |s.vertices|
    ensures var r := Draw(e, colors, s, m);
            |r.vertices| == |s.vertices| &&
            VertexSlot(r, k) == (if k == s.i then Quad(e, s.x, s.y, m) else VertexSlot(s, k))
  {
    var q := Quad(e, s.x, s.y, m);
    QuadUpdate(s.vertices, s.i, q[0], q[1], q[2], q[3], k);
  }

  lemma DrawTriangleSlot(e: Env, colors: seq<Color>, s: State, m: Metric, k: int)
    requires EnvOk(e) && 0 <= s.i < |colors|
    requires 4 * s.i + 4 <= |s.vertices| && 6 * s.i + 6 <= |s.triangles| && 4 * s.i + 4 <= |s.vertexColors|
    requires 0 <= k && 6 * k + 6 <= |s.triangles|
    ensures var r := Draw(e, colors, s, m);
            |r.triangles| == |s.triangles| &&
            TriangleSlot(r, k) == (if k == s.i then QuadTriangles(k) else TriangleSlot(s, k))
  {
    TrianglesUpdate(s.triangles, s.i, k);
  }

  lemma DrawColorSlot(e: Env, colors: seq<Color>, s: State, m: Metric, k: int)
    requires EnvOk(e) && 0 <= s.i < |colors|
    requires 4 * s.i + 4 <= |s.vertices| && 6 * s.i + 6 <= |s.triangles| && 4 * s.i + 4 <= |s.vertexColors|
    requires 0 <= k && 4 * k + 4 <= |s.vertexColors|
    ensures var r := Draw(e, colors, s, m);
            |r.vertexColors| == |s.vertexColors| &&
            ColorSlot(r, k) == (if k == s.i then [colors[k], colors[k], colors[k], colors[k]] else ColorSlot(s, k))
  {
    var i := s.i;
    QuadUpdate(s.vertexColors, i, colors[i], colors[i], colors[i], colors[i], k);
  }

  /** Drawing fills exactly slot s.i: its quad, its two triangles over its own four
      vertices and four copies of the character's colour; every other slot is unchanged. */
  lemma DrawFillsSlot(e: Env, colors: seq<Color>, s: State, m: Metric, k: int)
    requires EnvOk(e) && 0 <= s.i < |colors|
    requires 4 * s.i + 4 <= |s.vertices| && 6 * s.i + 6 <= |s.triangles| && 4 * s.i + 4 <= |s.vertexColors|
    requires 0 <= k && 4 * k + 4 <= |s.vertices| && 6 * k + 6 <= |s.triangles| && 4 * k + 4 <= |s.vertexColors|
    ensures var r := Draw(e, colors, s, m);
            |r.vertices| == |s.vertices| && |r.triangles| == |s.triangles| && |r.vertexColors| == |s.vertexColors| &&
            VertexSlot(r, k) == (if k == s.i then Quad(e, s.x, s.y, m) else VertexSlot(s, k)) &&
            TriangleSlot(r, k) == (if k == s.i then QuadTriangles(k) else TriangleSlot(s, k)) &&
            ColorSlot(r, k) == (if k == s.i then [colors[k], colors[k], colors[k], colors[k]] else ColorSlot(s, k))
  {
    DrawVertexSlot(e, colors, s, m, k);
    DrawTriangleSlot(e, colors, s, m, k);
    DrawColorSlot(e, colors, s, m, k);
  }

  /** Slot i may have been rewritten; every other slot of an n-character text is as before. */
  predicate OnlySlotWritten(n: nat, s: State, r: State, i: int)
    requires |s.vertices| == |r.vertices| == 4 * n && |s.triangles| == |r.triangles| == 6 * n
    requires |s.vertexColors| == |r.vertexColors| == 4 * n
  {
    forall k :: 0 <= k < n && k != i ==>
      VertexSlot(r, k) == VertexSlot(s, k) && TriangleSlot(r, k) == TriangleSlot(s, k) &&
      ColorSlot(r, k) == ColorSlot(s, k)
  }

  /** Drawing from a state w that shares the buffers of s writes no slot of s but w.i. */
  lemma DrawWritesOnlyItsSlot(e: Env, colors: seq<Color>, n: nat, s: State, w: State, m: Metric)
    requires EnvOk(e) && 0 <= w.i < n <= |colors|
    requires w.vertices == s.vertices && w.triangles == s.triangles && w.vertexColors == s.vertexColors
    requires |s.vertices| == 4 * n && |s.triangles| == 6 * n && |s.vertexColors| == 4 * n
    ensures var r := Draw(e, colors, w, m);
            |r.vertices| == 4 * n && |r.triangles| == 6 * n && |r.vertexColors| == 4 * n &&
            OnlySlotWritten(n, s, r, w.i)
  {
    var r := Draw(e, colors, w, m);
    forall k | 0 <= k < n && k != w.i
      ensures VertexSlot(r, k) == VertexSlot(s, k) && TriangleSlot(r, k) == TriangleSlot(s, k) &&
              ColorSlot(r, k) == ColorSlot(s, k)
    {
      DrawFillsSlot(e, colors, w, m, k);
    }
    DrawFillsSlot(e, colors, w, m, w.i);
  }

  /** A glyph that fits is drawn at the pen into slot s.i, and the pen moves right by
      exactly its advance; the ink extent grows to cover the glyph box. */
  lemma StepDrawsGlyph(e: Env, text: seq<CodeUnit>, colors: seq<Color>, s: State, m: Metric)
    requires EnvOk(e) && Inv(|text|, s) && s.i < |text| && |colors| >= |text|
    requires !MovesPenOnly(text[s.i]) && SearchMetric(e.font, text[s.i]) == Found(m)
    requires !Overflows(e, s.x, m)
    ensures var r := Step(e, text, colors, s);
            r.i == s.i + 1 && r.x == s.x + Advance(e, m) && r.y == s.y &&
            VertexSlot(r, s.i) == Quad(e, s.x, s.y, m) &&
            TriangleSlot(r, s.i) == QuadTriangles(s.i) &&
            ColorSlot(r, s.i) == [colors[s.i], colors[s.i], colors[s.i], colors[s.i]] &&
            r.left == (if s.left > s.x + m.bearingX as real then s.x + m.bearingX as real else s.left) &&
            r.right == (if s.right < s.x + m.bearingX as real + m.width as real
                        then s.x + m.bearingX as real + m.width as real else s.right) &&
            OnlySlotWritten(|text|, s, r, s.i)
  {
    var anchor := if IsAsciiLetter(text[s.i]) then (if s.lastAscii == -1 then s.i else s.lastAscii) else -1;
    var w := s.(lastAscii := anchor);
    assert Step(e, text, colors, s) == Draw(e, colors, w, m);
    DrawFillsSlot(e, colors, w, m, s.i);
    DrawWritesOnlyItsSlot(e, colors, |text|, s, w, m);
  }

  /** Auto-wrap on a letter: the pen goes to the start of the next line and the loop
      resumes at the anchor, which may be this very letter; nothing is drawn. When the
      anchor marks the word (AnchorOk), the whole trailing run of letters, this one
      included, moves to the new line. */
  lemma StepWrapsWord(e: Env, text: seq<CodeUnit>, colors: seq<Color>, s: State, m: Metric)
    requires EnvOk(e) && Inv(|text|, s) && s.i < |text| && |colors| >= |text|
    requires SearchMetric(e.font, text[s.i]) == Found(m) && IsAsciiLetter(text[s.i])
    requires Overflows(e, s.x, m)
    ensures var r := Step(e, text, colors, s);
            r.i == (if s.lastAscii == -1 then s.i else s.lastAscii) && r.i <= s.i &&
            r.x == e.p.leftMargin && r.y == s.y - LineHeight(e) && r.lastAscii == -1 &&
            WritesNoSlot(s, r)
    ensures var r := Step(e, text, colors, s);
            AnchorOk(text, s) ==>
              (forall k :: r.i <= k <= s.i ==> IsAsciiLetter(text[k])) &&
              (r.i == 0 || !IsAsciiLetter(text[r.i - 1]))
  {
  }

  /** Auto-wrap on any other glyph: the glyph is drawn at the start of the next line,
      without looking back. */
  lemma StepWrapsGlyph(e: Env, text: seq<CodeUnit>, colors: seq<Color>, s: State, m: Metric)
    requires EnvOk(e) && Inv(|text|, s) && s.i < |text| && |colors| >= |text|
    requires !MovesPenOnly(text[s.i]) && SearchMetric(e.font, text[s.i]) == Found(m)
    requires !IsAsciiLetter(text[s.i]) && Overflows(e, s.x, m)
    ensures var r := Step(e, text, colors, s);
            var x0 := e.p.leftMargin + m.bearingX as real;
            var x1 := x0 + m.width as real;
            r.i == s.i + 1 && r.x == e.p.leftMargin + Advance(e, m) && r.y == s.y - LineHeight(e) &&
            r.lastAscii == -1 && VertexSlot(r, s.i) == Quad(e, e.p.leftMargin, s.y - LineHeight(e), m) &&
            TriangleSlot(r, s.i) == QuadTriangles(s.i) &&
            ColorSlot(r, s.i) == [colors[s.i], colors[s.i], colors[s.i], colors[s.i]] &&
            r.left == (if s.left > x0 then x0 else s.left) &&
            r.right == (if s.right < x1 then x1 else s.right) &&
            OnlySlotWritten(|text|, s, r, s.i)
  {
    var s' := s.(lastAscii := -1);
    var w := s'.(x := e.p.leftMargin, y := s.y - LineHeight(e), lastAscii := -1);
    assert Step(e, text, colors, s) == Draw(e, colors, w, m) by {
      assert Step(e, text, colors, s) == Place(e, text, colors, s', m);
      PlaceDraws(e, text, colors, s', m);
    }
    DrawFillsSlot(e, colors, w, m, s.i);
    DrawWritesOnlyItsSlot(e, colors, |text|, s, w, m);
  }

  /** The loop starts with no word open at index 0. */
  lemma InitAnchorOk(e: Env, text: seq<CodeUnit>)
    requires EnvOk(e)
    ensures AnchorOk(text, Init(e, |text|))
  {
  }

  /** Moving past one character keeps the anchor on the word when the anchor follows the
      letter rule. */
  lemma AnchorAdvances(text: seq<CodeUnit>, s: State, r: State)
    requires Inv(|text|, s) && Inv(|text|, r) && s.i < |text| && AnchorOk(text, s) && r.i == s.i + 1
    requires r.lastAscii == (if !IsAsciiLetter(text[s.i]) then -1 else if s.lastAscii == -1 then s.i else s.lastAscii)
    ensures AnchorOk(text, r)
  {
  }

  /** Rewinding to the word start with no word open keeps the anchor on the word. */
  lemma AnchorRewinds(text: seq<CodeUnit>, s: State, r: State)
    requires Inv(|text|, s) && Inv(|text|, r) && AnchorOk(text, s)
    requires r.i == WordStart(s) && r.lastAscii == -1
    ensures AnchorOk(text, r)
  {
  }

  /** Every iteration keeps the anchor on the trailing run of letters. */
  lemma StepKeepsAnchorOk(e: Env, text: seq<CodeUnit>, colors: seq<Color>, s: State)
    requires EnvOk(e) && Inv(|text|, s) && s.i < |text| && |colors| >= |text|
    requires AnchorOk(text, s)
    ensures AnchorOk(text, Step(e, text, colors, s))
  {
    var c := text[s.i];
    var r := Step(e, text, colors, s);
    if MovesPenOnly(c) {
      if c == LineFeed { StepLineFeed(e, text, colors, s); } else { StepBlank(e, text, colors, s); }
      AnchorAdvances(text, s, r);
    } else {
      match SearchMetric(e.font, c)
      case Found(m) =>
        if Overflows(e, s.x, m) && IsAsciiLetter(c) {
          StepWrapsWord(e, text, colors, s, m);
          AnchorRewinds(text, s, r);
        } else if Overflows(e, s.x, m) {
          StepWrapsGlyph(e, text, colors, s, m);
          AnchorAdvances(text, s, r);
        } else {
          StepAnchor(e, text, colors, s, m);
          StepDrawsGlyph(e, text, colors, s, m);
          AnchorAdvances(text, s, r);
        }
      case _ =>
        StepMissingGlyph(e, text, colors, s);
        AnchorAdvances(text, s, r);
    }
  }

  /** The pen never moves up when the line spacing is not negative. */
  lemma StepKeepsYOrLowers(e: Env, text: seq<CodeUnit>, colors: seq<Color>, s: State)
    requires EnvOk(e) && Inv(|text|, s) && s.i < |text| && |colors| >= |text|
    requires LineHeight(e) >= 0.0
    ensures Step(e, text, colors, s).y <= s.y
  {
  }
}

/** What a whole run of the layout loop guarantees about the buffers and the pen. */
module LayoutRunProperties {
  import opened Wrappers
  import opened FontData
  import opened GlyphSearch
  import opened TextLayout
  import opened TextLayoutRun
  import opened LayoutStepProperties

  /** Slot k holds two triangles over its own vertices and colour k on all four vertices. */
  predicate SlotFilled(colors: seq<Color>, s: State, k: int)
    requires 0 <= k < |colors| && 6 * k + 6 <= |s.triangles| && 4 * k + 4 <= |s.vertexColors|
  {
    TriangleSlot(s, k) == QuadTriangles(k) &&
    ColorSlot(s, k) == [colors[k], colors[k], colors[k], colors[k]]
  }

  /** Slot k holds the quad of character k, a drawable character. */
  predicate SlotDrawn(e: Env, text: seq<CodeUnit>, colors: seq<Color>, s: State, k: int)
    requires Inv(|text|, s) && |colors| >= |text| && 0 <= k < |text|
  {
    Draws(e.font, text[k]) && SlotFilled(colors, s, k)
  }

  /** Slot k still holds the zero values it was allocated with. */
  predicate SlotUntouched(n: nat, s: State, k: int)
    requires Inv(n, s) && 0 <= k < n
  {
    VertexSlot(s, k) == [Origin, Origin, Origin, Origin] &&
    TriangleSlot(s, k) == [0, 0, 0, 0, 0, 0] &&
    ColorSlot(s, k) == [Clear, Clear, Clear, Clear]
  }

  /** Every slot is either drawn for its own character or untouched. */
  predicate SlotsShaped(e: Env, text: seq<CodeUnit>, colors: seq<Color>, s: State)
    requires Inv(|text|, s) && |colors| >= |text|
  {
    forall k :: 0 <= k < |text| ==> SlotDrawn(e, text, colors, s, k) || SlotUntouched(|text|, s, k)
  }

  /** Every character before the next index that draws has its slot drawn. */
  predicate PrefixDrawn(e: Env, text: seq<CodeUnit>, colors: seq<Color>, s: State)
    requires Inv(|text|, s) && |colors| >= |text|
  {
    forall k :: 0 <= k < s.i && Draws(e.font, text[k]) ==> SlotFilled(colors, s, k)
  }

  predicate SlotsOk(e: Env, text: seq<CodeUnit>, colors: seq<Color>, s: State)
    requires Inv(|text|, s) && |colors| >= |text|
  {
    SlotsShaped(e, text, colors, s) && PrefixDrawn(e, text, colors, s)
  }

  /** Before the loop every slot holds zeros, so the slot invariant holds. */
  lemma InitSlotsOk(e: Env, text: seq<CodeUnit>, colors: seq<Color>)
    requires EnvOk(e) && |colors| >= |text|
    ensures forall k :: 0 <= k < |text| ==> SlotUntouched(|text|, Init(e, |text|), k)
    ensures SlotsOk(e, text, colors, Init(e, |text|))
  {
    var s := Init(e, |text|);
    forall k | 0 <= k < |text| ensures SlotUntouched(|text|, s, k) {
      assert VertexSlot(s, k) == [Origin, Origin, Origin, Origin];
      assert TriangleSlot(s, k) == [0, 0, 0, 0, 0, 0];
      assert ColorSlot(s, k) == [Clear, Clear, Clear, Clear];
    }
  }

  /** Drawing a drawable character into its own slot keeps every slot well formed. */
  lemma DrawKeepsShape(e: Env, text: seq<CodeUnit>, colors: seq<Color>, s: State, m: Metric)
    requires EnvOk(e) && Inv(|text|, s.(lastAscii := -1)) && s.i < |text| && |colors| >= |text|
    requires Draws(e.font, text[s.i]) && SlotsShaped(e, text, colors, s.(lastAscii := -1))
    ensures Inv(|text|, Draw(e, colors, s, m).(lastAscii := -1))
    ensures SlotsShaped(e, text, colors, Draw(e, colors, s, m).(lastAscii := -1))
  {
    var r := Draw(e, colors, s, m);
    var s0, r0 := s.(lastAscii := -1), r.(lastAscii := -1);
    forall k | 0 <= k < |text|
      ensures SlotDrawn(e, text, colors, r0, k) || SlotUntouched(|text|, r0, k)
    {
      DrawFillsSlot(e, colors, s, m, k);
      assert VertexSlot(r0, k) == VertexSlot(r, k) && VertexSlot(s0, k) == VertexSlot(s, k);
      assert TriangleSlot(r0, k) == TriangleSlot(r, k) && TriangleSlot(s0, k) == TriangleSlot(s, k);
      assert ColorSlot(r0, k) == ColorSlot(r, k) && ColorSlot(s0, k) == ColorSlot(s, k);
      if k != s.i {
        assert SlotDrawn(e, text, colors, s0, k) || SlotUntouched(|text|, s0, k);
      }
    }
  }

  /** Drawing fills slot s.i and keeps every other filled slot filled. */
  lemma DrawKeepsFilled(e: Env, colors: seq<Color>, s: State, m: Metric, k: int)
    requires EnvOk(e) && 0 <= s.i < |colors| && 0 <= k < |colors|
    requires 4 * s.i + 4 <= |s.vertices| && 6 * s.i + 6 <= |s.triangles| && 4 * s.i + 4 <= |s.vertexColors|
    requires 6 * k + 6 <= |s.triangles| && 4 * k + 4 <= |s.vertexColors|
    requires k == s.i || SlotFilled(colors, s, k)
    ensures SlotFilled(colors, Draw(e, colors, s, m).(lastAscii := -1), k)
  {
    var r := Draw(e, colors, s, m);
    DrawTriangleSlot(e, colors, s, m, k);
    DrawColorSlot(e, colors, s, m, k);
    assert TriangleSlot(r.(lastAscii := -1), k) == TriangleSlot(r, k);
    assert ColorSlot(r.(lastAscii := -1), k) == ColorSlot(r, k);
  }

  /** Drawing a drawable character extends the drawn prefix by its own slot. */
  lemma DrawExtendsPrefix(e: Env, text: seq<CodeUnit>, colors: seq<Color>, s: State, m: Metric)
    requires EnvOk(e) && Inv(|text|, s.(lastAscii := -1)) && s.i < |text| && |colors| >= |text|
    requires PrefixDrawn(e, text, colors, s.(lastAscii := -1))
    ensures Inv(|text|, Draw(e, colors, s, m).(lastAscii := -1))
    ensures PrefixDrawn(e, text, colors, Draw(e, colors, s, m).(lastAscii := -1))
  {
    var s0, r0 := s.(lastAscii := -1), Draw(e, colors, s, m).(lastAscii := -1);
    forall k | 0 <= k < r0.i && Draws(e.font, text[k])
      ensures SlotFilled(colors, r0, k)
    {
      if k != s.i {
        assert SlotFilled(colors, s0, k);
        assert TriangleSlot(s0, k) == TriangleSlot(s, k) && ColorSlot(s0, k) == ColorSlot(s, k);
      }
      DrawKeepsFilled(e, colors, s, m, k);
    }
  }

  /** Drawing a drawable character keeps both halves of SlotsOk. */
  lemma DrawKeepsSlotsOk(e: Env, text: seq<CodeUnit>, colors: seq<Color>, s: State, m: Metric)
    requires EnvOk(e) && Inv(|text|, s.(lastAscii := -1)) && s.i < |text| && |colors| >= |text|
    requires Draws(e.font, text[s.i]) && SlotsOk(e, text, colors, s.(lastAscii := -1))
    ensures Inv(|text|, Draw(e, colors, s, m).(lastAscii := -1))
    ensures SlotsOk(e, text, colors, Draw(e, colors, s, m).(lastAscii := -1))
  {
    DrawKeepsShape(e, text, colors, s, m);
    DrawExtendsPrefix(e, text, colors, s, m);
  }

  /** Slots depend on the buffers alone; moving the next index back, or past a character
      that does not draw, keeps them well formed. */
  lemma SameBuffersSameSlots(e: Env, text: seq<CodeUnit>, colors: seq<Color>, s: State, r: State)
    requires Inv(|text|, s) && Inv(|text|, r) && |colors| >= |text|
    requires r.vertices == s.vertices && r.triangles == s.triangles && r.vertexColors == s.vertexColors
    requires r.i <= s.i || (r.i == s.i + 1 && s.i < |text| && !Draws(e.font, text[s.i]))
    requires SlotsOk(e, text, colors, s)
    ensures SlotsOk(e, text, colors, r)
  {
    forall k | 0 <= k < |text|
      ensures SlotDrawn(e, text, colors, r, k) || SlotUntouched(|text|, r, k)
    {
      assert SlotDrawn(e, text, colors, s, k) || SlotUntouched(|text|, s, k);
      assert VertexSlot(r, k) == VertexSlot(s, k);
      assert TriangleSlot(r, k) == TriangleSlot(s, k);
      assert ColorSlot(r, k) == ColorSlot(s, k);
    }
    forall k | 0 <= k < r.i && Draws(e.font, text[k])
      ensures SlotDrawn(e, text, colors, r, k)
    {
      assert SlotDrawn(e, text, colors, s, k);
      assert TriangleSlot(r, k) == TriangleSlot(s, k);
      assert ColorSlot(r, k) == ColorSlot(s, k);
    }
  }

  /** A glyph found in the font either rewinds, keeping the buffers, or is drawn into its
      own slot. */
  lemma PlaceKeepsSlotsOk(e: Env, text: seq<CodeUnit>, colors: seq<Color>, s: State, m: Metric)
    requires EnvOk(e) && Inv(|text|, s.(lastAscii := -1)) && s.i < |text| && |colors| >= |text|
    requires -1 <= s.lastAscii <= s.i
    requires Draws(e.font, text[s.i]) && SlotsOk(e, text, colors, s.(lastAscii := -1))
    ensures SlotsOk(e, text, colors, Place(e, text, colors, s, m))
  {
    var r := Place(e, text, colors, s, m);
    if Overflows(e, s.x, m) {
      var w := s.(x := e.p.leftMargin, y := s.y - LineHeight(e), lastAscii := -1);
      SameBuffersSameSlots(e, text, colors, s.(lastAscii := -1), w);
      if s.lastAscii != -1 && IsAsciiLetter(text[s.i]) {
        SameBuffersSameSlots(e, text, colors, w, r);
      } else {
        DrawKeepsSlotsOk(e, text, colors, w, m);
        SameBuffersSameSlots(e, text, colors, Draw(e, colors, w, m).(lastAscii := -1), r);
      }
    } else {
      DrawKeepsSlotsOk(e, text, colors, s, m);
      SameBuffersSameSlots(e, text, colors, Draw(e, colors, s, m).(lastAscii := -1), r);
    }
  }

  lemma StepKeepsSlotsOk(e: Env, text: seq<CodeUnit>, colors: seq<Color>, s: State)
    requires EnvOk(e) && Inv(|text|, s) && s.i < |text| && |colors| >= |text|
    requires SlotsOk(e, text, colors, s)
    ensures SlotsOk(e, text, colors, Step(e, text, colors, s))
  {
    var r := Step(e, text, colors, s);
    var c := text[s.i];
    if !MovesPenOnly(c) && SearchMetric(e.font, c).Found? {
      var m := SearchMetric(e.font, c).metric;
      var anchor := if IsAsciiLetter(c) then (if s.lastAscii == -1 then s.i else s.lastAscii) else -1;
      var s' := s.(lastAscii := anchor);
      assert r == Place(e, text, colors, s', m);
      SameBuffersSameSlots(e, text, colors, s, s'.(lastAscii := -1));
      PlaceKeepsSlotsOk(e, text, colors, s', m);
    } else {
      assert r.vertices == s.vertices && r.triangles == s.triangles && r.vertexColors == s.vertexColors;
      SameBuffersSameSlots(e, text, colors, s, r);
    }
  }

  lemma {:induction false} RunKeepsSlotsOk(e: Env, text: seq<CodeUnit>, colors: seq<Color>, s: State, fuel: nat)
    requires EnvOk(e) && Inv(|text|, s) && |colors| >= |text|
    requires SlotsOk(e, text, colors, s)
    ensures Run(e, text, colors, s, fuel).Some? ==> SlotsOk(e, text, colors, Run(e, text, colors, s, fuel).value)
    decreases fuel
  {
    if s.i < |text| && fuel > 0 {
      StepKeepsSlotsOk(e, text, colors, s);
      RunKeepsSlotsOk(e, text, colors, Step(e, text, colors, s), fuel - 1);
    }
  }

  /**
   * The buffers of a finished layout: a character that draws has two triangles over its
   * own vertices 4k..4k+3, coloured colors[k]; any other character's slot is left at zero.
   */
  lemma LayoutSlots(e: Env, text: seq<CodeUnit>, colors: seq<Color>, fuel: nat, k: int)
    requires EnvOk(e) && |colors| >= |text| && 0 <= k < |text|
    requires LayoutMesh(e, text, colors, fuel).Some?
    ensures var mesh := LayoutMesh(e, text, colors, fuel).value;
            Draws(e.font, text[k]) ==>
              mesh.triangles[6 * k..6 * k + 6] == QuadTriangles(k) &&
              mesh.colors[4 * k..4 * k + 4] == [colors[k], colors[k], colors[k], colors[k]]
    ensures var mesh := LayoutMesh(e, text, colors, fuel).value;
            !Draws(e.font, text[k]) ==>
              mesh.triangles[6 * k..6 * k + 6] == [0, 0, 0, 0, 0, 0] &&
              mesh.colors[4 * k..4 * k + 4] == [Clear, Clear, Clear, Clear]
  {
    InitSlotsOk(e, text, colors);
    RunKeepsSlotsOk(e, text, colors, Init(e, |text|), fuel);
    var s := Run(e, text, colors, Init(e, |text|), fuel).value;
    assert s.i == |text|;
    if Draws(e.font, text[k]) {
      assert SlotDrawn(e, text, colors, s, k);
    } else {
      assert SlotUntouched(|text|, s, k);
    }
  }

  /** Every triangle index of a finished layout is a vertex of the mesh. */
  lemma LayoutTrianglesInRange(e: Env, text: seq<CodeUnit>, colors: seq<Color>, fuel: nat, j: int)
    requires EnvOk(e) && |colors| >= |text| && 0 <= j < 6 * |text|
    requires LayoutMesh(e, text, colors, fuel).Some?
    ensures 0 <= LayoutMesh(e, text, colors, fuel).value.triangles[j] < 4 * |text|
  {
    var mesh := LayoutMesh(e, text, colors, fuel).value;
    var k := j / 6;
    LayoutSlots(e, text, colors, fuel, k);
    assert mesh.triangles[j] == mesh.triangles[6 * k..6 * k + 6][j - 6 * k];
  }

  /** The pen never moves up over a run when the line spacing is not negative. */
  lemma {:induction false} RunNeverRaisesPen(e: Env, text: seq<CodeUnit>, colors: seq<Color>, s: State, fuel: nat)
    requires EnvOk(e) && Inv(|text|, s) && |colors| >= |text| && LineHeight(e) >= 0.0
    ensures Run(e, text, colors, s, fuel).Some? ==> Run(e, text, colors, s, fuel).value.y <= s.y
    decreases fuel
  {
    if s.i < |text| && fuel > 0 {
      StepKeepsYOrLowers(e, text, colors, s);
      RunNeverRaisesPen(e, text, colors, Step(e, text, colors, s), fuel - 1);
    }
  }

  /** Without a box width there is no auto-wrap, every iteration moves to the next
      character, and the loop finishes in |text| iterations. */
  lemma {:induction false} UnboundedRunFinishes(e: Env, text: seq<CodeUnit>, colors: seq<Color>, s: State, fuel: nat)
    requires EnvOk(e) && Inv(|text|, s) && |colors| >= |text| && e.p.width == 0.0
    requires fuel >= |text| - s.i
    ensures Run(e, text, colors, s, fuel).Some?
    decreases |text| - s.i
  {
    if s.i < |text| {
      var r := Step(e, text, colors, s);
      assert r.i == s.i + 1;
      UnboundedRunFinishes(e, text, colors, r, fuel - 1);
    }
  }

  /** A letter that opens a word and cannot fit even at the left margin is rewound to
      forever: the loop never finishes, whatever the fuel. */
  lemma {:induction false} UnfittableLetterDiverges(e: Env, text: seq<CodeUnit>, colors: seq<Color>, s: State, m: Metric, fuel: nat)
    requires EnvOk(e) && Inv(|text|, s) && s.i < |text| && |colors| >= |text|
    requires IsAsciiLetter(text[s.i]) && SearchMetric(e.font, text[s.i]) == Found(m)
    requires s.lastAscii == -1 && Overflows(e, s.x, m) && Overflows(e, e.p.leftMargin, m)
    ensures Run(e, text, colors, s, fuel) == None
    decreases fuel
  {
    if fuel > 0 {
      var r := Step(e, text, colors, s);
      assert r == s.(x := e.p.leftMargin, y := s.y - LineHeight(e), lastAscii := -1);
      UnfittableLetterDiverges(e, text, colors, r, m, fuel - 1);
    }
  }

  /** In particular a text made of one such letter never finishes its layout. */
  lemma UnfittableLetterNeverLaidOut(e: Env, c: CodeUnit, colors: seq<Color>, m: Metric, fuel: nat)
    requires EnvOk(e) && |colors| >= 1
    requires IsAsciiLetter(c) && SearchMetric(e.font, c) == Found(m) && Overflows(e, e.p.leftMargin, m)
    ensures LayoutMesh(e, [c], colors, fuel) == None
  {
    UnfittableLetterDiverges(e, [c], colors, Init(e, 1), m, fuel);
  }
}
