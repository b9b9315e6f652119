/**
 * FontRenderer of fontrenderer.h and fontrenderer.cpp: builds textured quads for a monospace
 * bitmap font laid out 16 glyphs per atlas row. glm::vec2 components are modelled as reals.
 */
module Font {
  import opened CString

  datatype Vec2 = Vec2(x: real, y: real)

  /** Vertex: screen position and atlas coordinate. */
  datatype Vertex = Vertex(pos: Vec2, texCoord: Vec2)

  /** uint16_t, the element type of FontMesh::ind. */
  newtype U16 = n: int | 0 <= n < 0x1_0000

  /** The implicit conversion of a size_t index to uint16_t on push_back. */
  function ToU16(n: nat): U16
  {
    (n % 0x1_0000) as U16
  }

  const FontWidthGlyphs := 16
  const GlyphWidthPixels := 8
  const GlyphHeightPixels := 9
  const GlyphWidthTexcoords: real := 1.0 / 16.0

  /** isPrintableAscii (fontrenderer.h:10-12), on the signed value of a C char. */
  predicate IsPrintableAscii(c: CChar)
  {
    CharCode(c) >= 32 && CharCode(c) <= 126
  }

  /** The printable characters are exactly space through tilde. */
  lemma PrintableRange(c: CChar)
    ensures IsPrintableAscii(c) <==> ' ' <= c <= '~'
  {
  }

  /** C integer division and remainder, which truncate toward zero. */
  function CDiv(a: int, b: int): int
    requires b > 0
  {
    if a >= 0 then a / b else -((-a) / b)
  }

  function CMod(a: int, b: int): int
    requires b > 0
  {
    a - b * CDiv(a, b)
  }

  /** The atlas column and row of a glyph code: `glyph % 16` and `glyph / 16`. */
  function AtlasCell(glyph: int): (int, int)
  {
    (CMod(glyph, FontWidthGlyphs), CDiv(glyph, FontWidthGlyphs))
  }

  /** texCoordForGlyph (fontrenderer.h:90-95): the top-left atlas coordinate of a glyph's cell. */
  function TexCoordForGlyph(glyph: CChar): Vec2
  {
    var (col, row) := AtlasCell(CharCode(glyph));
    Vec2(col as real * GlyphWidthTexcoords, row as real * GlyphWidthTexcoords)
  }

  /**
   * For a non-negative code the cell is a proper column/row decomposition and the mapping is a
   * round trip; for a negative code (bytes 128..255 on a signed-char platform) C's truncating
   * operators give a column in (-16, 0] and a row of at most 0.
   */
  lemma AtlasCellRoundTrip(glyph: int)
    ensures glyph >= 0 ==> 0 <= AtlasCell(glyph).0 < 16 && AtlasCell(glyph).1 >= 0
    ensures glyph < 0 ==> -16 < AtlasCell(glyph).0 <= 0 && AtlasCell(glyph).1 <= 0
    ensures AtlasCell(glyph).0 + 16 * AtlasCell(glyph).1 == glyph
  {
  }

  /** Every column/row pair of the atlas arises from exactly the code col + 16 * row. */
  lemma AtlasCellInverse(col: int, row: int)
    requires 0 <= col < 16 && row >= 0
    ensures AtlasCell(col + 16 * row) == (col, row)
  {
    assert (col + 16 * row) / 16 == row;
  }

  /**
   * A printable glyph's coordinate is the top-left corner of cell (code % 16, code / 16), each
   * cell a sixteenth of the atlas wide; printable codes lie in rows 2 to 7.
   */
  lemma PrintableTexCoord(glyph: CChar)
    requires IsPrintableAscii(glyph)
    ensures TexCoordForGlyph(glyph) == Vec2((glyph as int % 16) as real / 16.0, (glyph as int / 16) as real / 16.0)
    ensures 0.0 <= TexCoordForGlyph(glyph).x <= 15.0 / 16.0
    ensures 2.0 / 16.0 <= TexCoordForGlyph(glyph).y <= 7.0 / 16.0
  {
    var code := glyph as int;
    assert CharCode(glyph) == code;
    assert AtlasCell(code) == (code % 16, code / 16);
    assert 2 <= code / 16 <= 7;
  }

  /** FONT_BG_INDEX and FONT_BG2_INDEX: background colours stored in the font atlas. */
  const FontBgIndex := 129
  const FontBg2Index := 141

  /** FONT_BG_UV and FONT_BG2_UV (fontrenderer.h:45-53). */
  const FontBgUV := Vec2((FontBgIndex % FontWidthGlyphs) as real * GlyphWidthTexcoords + 0.5 * GlyphWidthTexcoords,
                         (FontBgIndex / FontWidthGlyphs) as real * GlyphWidthTexcoords + 0.5 * GlyphWidthTexcoords)
  const FontBg2UV := Vec2((FontBg2Index % FontWidthGlyphs) as real * GlyphWidthTexcoords + 0.5 * GlyphWidthTexcoords,
                          (FontBg2Index / FontWidthGlyphs) as real * GlyphWidthTexcoords + 0.5 * GlyphWidthTexcoords)

  /** The background colours are sampled at the centres of atlas cells (1, 8) and (13, 8). */
  lemma BackgroundCells()
    ensures AtlasCell(FontBgIndex) == (1, 8) && AtlasCell(FontBg2Index) == (13, 8)
    ensures FontBgUV == Vec2(1.5 / 16.0, 8.5 / 16.0)
    ensures FontBg2UV == Vec2(13.5 / 16.0, 8.5 / 16.0)
  {
  }

  /** FontMesh: the growing vertex and index buffers. */
  class FontMesh {
    var vert: seq<Vertex>
    var ind: seq<U16>

    constructor ()
      ensures vert == [] && ind == []
    {
      vert := [];
      ind := [];
    }
  }

  /** The six indices pushed for one quad whose first vertex is number b: triangles b, b+1, b+2 and b+2, b+3, b, each cast to uint16. */
  function QuadIndices(b: nat): seq<U16>
  {
    [ToU16(b), ToU16(b + 1), ToU16(b + 2), ToU16(b + 2), ToU16(b + 3), ToU16(b)]
  }

  /**
   * The four vertices pushed for one glyph at pen position `pen` (fontrenderer.cpp:17-26):
   * corners pen, (end.x, pen.y), end, (pen.x, end.y), texcoords spanning the glyph's atlas cell.
   */
  function GlyphQuad(pen: Vec2, c: CChar, glyphWidth: real, glyphHeight: real): seq<Vertex>
  {
    var tc := TexCoordForGlyph(c);
    var endpoint := Vec2(pen.x + glyphWidth, pen.y + glyphHeight);
    [ Vertex(pen, tc),
      Vertex(Vec2(endpoint.x, pen.y), Vec2(tc.x + GlyphWidthTexcoords, tc.y)),
      Vertex(endpoint, Vec2(tc.x + GlyphWidthTexcoords, tc.y + GlyphWidthTexcoords)),
      Vertex(Vec2(pen.x, endpoint.y), Vec2(tc.x, tc.y + GlyphWidthTexcoords)) ]
  }

  /** The state of addMeshForLabel's loop: the pen position `curOrigin` and the mesh buffers. */
  datatype Layout = Layout(pen: Vec2, vert: seq<Vertex>, ind: seq<U16>)

  /**
   * One iteration of addMeshForLabel's loop (fontrenderer.cpp:12-34): a newline moves the pen
   * back to `originX` and one glyph height down; any other character pushes its quad, with
   * indices taken from the current vertex count, and advances the pen one glyph width.
   */
  function LayoutStep(l: Layout, c: CChar, originX: real, glyphWidth: real, glyphHeight: real): Layout
  {
    if c == '\n' then Layout(Vec2(originX, l.pen.y + glyphHeight), l.vert, l.ind)
    else Layout(Vec2(l.pen.x + glyphWidth, l.pen.y),
                l.vert + GlyphQuad(l.pen, c, glyphWidth, glyphHeight),
                l.ind + QuadIndices(|l.vert|))
  }

  /** The loop state after laying out all of `s` from `start`. */
  function LayoutOf(s: seq<CChar>, start: Layout, originX: real, glyphWidth: real, glyphHeight: real): Layout
    decreases |s|
  {
    if s == [] then start
    else LayoutStep(LayoutOf(s[..|s| - 1], start, originX, glyphWidth, glyphHeight), s[|s| - 1], originX, glyphWidth, glyphHeight)
  }

  /** Laying out one more character is one more loop step. */
  lemma LayoutOfSnoc(s: seq<CChar>, c: CChar, start: Layout, originX: real, glyphWidth: real, glyphHeight: real)
    ensures LayoutOf(s + [c], start, originX, glyphWidth, glyphHeight)
            == LayoutStep(LayoutOf(s, start, originX, glyphWidth, glyphHeight), c, originX, glyphWidth, glyphHeight)
  {
    assert (s + [c])[..|s + [c]| - 1] == s;
  }

  /** The number of characters of `s` that produce a quad. */
  function GlyphCount(s: seq<CChar>): nat
    decreases |s|
  {
    if s == [] then 0
    else GlyphCount(s[..|s| - 1]) + (if s[|s| - 1] == '\n' then 0 else 1)
  }

  /** The number of newlines in `s`. */
  function Newlines(s: seq<CChar>): nat
    decreases |s|
  {
    if s == [] then 0
    else Newlines(s[..|s| - 1]) + (if s[|s| - 1] == '\n' then 1 else 0)
  }

  /** The number of characters after the last newline of `s`. */
  function Column(s: seq<CChar>): nat
    decreases |s|
  {
    if s == [] then 0
    else if s[|s| - 1] == '\n' then 0
    else Column(s[..|s| - 1]) + 1
  }

  /** A quad that fits without uint16 wrap-around has indices exactly b, b+1, b+2, b+2, b+3, b, all in [b, b + 4). */
  lemma QuadIndicesPattern(b: nat)
    requires b + 4 <= 0x1_0000
    ensures QuadIndices(b) == [b as U16, (b + 1) as U16, (b + 2) as U16, (b + 2) as U16, (b + 3) as U16, b as U16]
    ensures forall k :: 0 <= k < 6 ==> b <= QuadIndices(b)[k] as int < b + 4
  {
  }

  /**
   * Laying out text only appends: the earlier vertices and indices are kept, four vertices and
   * six indices are added per character other than a newline, and nothing for a newline.
   */
  lemma {:induction false} LayoutAppendOnly(s: seq<CChar>, start: Layout, originX: real, glyphWidth: real, glyphHeight: real)
    ensures var l := LayoutOf(s, start, originX, glyphWidth, glyphHeight);
            && start.vert <= l.vert && start.ind <= l.ind
            && |l.vert| == |start.vert| + 4 * GlyphCount(s)
            && |l.ind| == |start.ind| + 6 * GlyphCount(s)
    decreases |s|
  {
    if s != [] {
      LayoutAppendOnly(s[..|s| - 1], start, originX, glyphWidth, glyphHeight);
    }
  }

  /**
   * When the final vertex count fits in uint16, every appended index names one of the vertices
   * appended by the same layout.
   */
  lemma {:induction false} LayoutIndicesInRange(s: seq<CChar>, start: Layout, originX: real, glyphWidth: real, glyphHeight: real)
    requires |start.vert| + 4 * GlyphCount(s) <= 0x1_0000
    ensures var l := LayoutOf(s, start, originX, glyphWidth, glyphHeight);
            forall k :: |start.ind| <= k < |l.ind| ==> |start.vert| <= l.ind[k] as int < |l.vert|
    decreases |s|
  {
    if s != [] {
      var prefix := s[..|s| - 1];
      var p := LayoutOf(prefix, start, originX, glyphWidth, glyphHeight);
      LayoutIndicesInRange(prefix, start, originX, glyphWidth, glyphHeight);
      LayoutAppendOnly(prefix, start, originX, glyphWidth, glyphHeight);
      LayoutAppendOnly(s, start, originX, glyphWidth, glyphHeight);
      if s[|s| - 1] != '\n' {
        QuadIndicesPattern(|p.vert|);
      }
    }
  }

  /** `n` advances of `w`: the repeated addition the loop performs, equal to n * w. */
  function Advances(n: nat, w: real): (r: real)
    ensures r == n as real * w
  {
    if n == 0 then 0.0 else Advances(n - 1, w) + w
  }

  /**
   * Closed form of the pen: starting at `start.pen == origin`, x is origin.x plus one glyph width
   * per character since the last newline, y is origin.y plus one glyph height per newline.
   */
  lemma {:induction false} LayoutPen(s: seq<CChar>, start: Layout, glyphWidth: real, glyphHeight: real)
    ensures LayoutOf(s, start, start.pen.x, glyphWidth, glyphHeight).pen
            == Vec2(start.pen.x + Advances(Column(s), glyphWidth), start.pen.y + Advances(Newlines(s), glyphHeight))
    decreases |s|
  {
    if s != [] {
      LayoutPen(s[..|s| - 1], start, glyphWidth, glyphHeight);
    }
  }

  /** Laying out `a` and then `b` from where `a` left off is laying out `a + b`. */
  lemma {:induction false} LayoutConcat(a: seq<CChar>, b: seq<CChar>, start: Layout, originX: real, glyphWidth: real, glyphHeight: real)
    ensures LayoutOf(a + b, start, originX, glyphWidth, glyphHeight)
            == LayoutOf(b, LayoutOf(a, start, originX, glyphWidth, glyphHeight), originX, glyphWidth, glyphHeight)
    decreases |b|
  {
    if b == [] {
      assert a + b == a;
    } else {
      assert (a + b)[..|a + b| - 1] == a + b[..|b| - 1];
      LayoutConcat(a, b[..|b| - 1], start, originX, glyphWidth, glyphHeight);
    }
  }

  class FontRenderer {
    var screenWidth: int
    var screenHeight: int
    var curAspect: real
    var glyphHeightScreen: real
    var glyphWidthScreen: real

    constructor ()
    {
    }

    /** FontRenderer::updateResolution (fontrenderer.h:65-71): one glyph's size in screen units from the pixel constants. */
    method UpdateResolution(x: int, y: int)
      requires x != 0 && y != 0
      modifies this
      ensures screenWidth == x && screenHeight == y
      ensures curAspect == y as real / x as real
      ensures glyphHeightScreen == (GlyphHeightPixels as real / y as real) * GlyphHeightPixels as real
      ensures glyphWidthScreen == ((GlyphWidthPixels as real / x as real) * GlyphWidthPixels as real) * curAspect
    {
      screenWidth := x;
      screenHeight := y;
      curAspect := screenHeight as real / screenWidth as real;
      glyphHeightScreen := (GlyphHeightPixels as real / screenHeight as real) * GlyphHeightPixels as real;
      glyphWidthScreen := ((GlyphWidthPixels as real / screenWidth as real) * GlyphWidthPixels as real) * curAspect;
    }

    /**
     * FontRenderer::addMeshForLabel (fontrenderer.cpp:7-36): lays out the C string `text` (the
     * `label` parameter) from `origin`, extending the mesh as LayoutOf describes.
     */
    method AddMeshForLabel(result: FontMesh, text: seq<CChar>, origin: Vec2)
      modifies result
      ensures var l := LayoutOf(CStr(text), Layout(origin, old(result.vert), old(result.ind)), origin.x, glyphWidthScreen, glyphHeightScreen);
              result.vert == l.vert && result.ind == l.ind
    {
      var numChars := StrLen(text);
      ghost var start := Layout(origin, result.vert, result.ind);
      var curOrigin := origin;
      for i := 0 to numChars
        invariant Layout(curOrigin, result.vert, result.ind) == LayoutOf(text[..i], start, origin.x, glyphWidthScreen, glyphHeightScreen)
      {
        LayoutOfSnoc(text[..i], text[i], start, origin.x, glyphWidthScreen, glyphHeightScreen);
        assert text[..i + 1] == text[..i] + [text[i]];
        if text[i] == '\n' {
          curOrigin := Vec2(origin.x, curOrigin.y + glyphHeightScreen);
          continue;
        }
        PushGlyph(result, curOrigin, text[i]);
        curOrigin := Vec2(curOrigin.x + glyphWidthScreen, curOrigin.y);
      }
      assert text[..numChars] == CStr(text);
    }

    /** The body of addMeshForLabel's loop for a character other than '\n' (fontrenderer.cpp:17-31). */
    method PushGlyph(result: FontMesh, curOrigin: Vec2, c: CChar)
      modifies result
      ensures result.vert == old(result.vert) + GlyphQuad(curOrigin, c, glyphWidthScreen, glyphHeightScreen)
      ensures result.ind == old(result.ind) + QuadIndices(|old(result.vert)|)
    {
      var curEndpoint := Vec2(curOrigin.x + glyphWidthScreen, curOrigin.y + glyphHeightScreen);
      var curIndex := |result.vert|;
      var curCharTexCoord := TexCoordForGlyph(c);
      result.vert := result.vert + [Vertex(curOrigin, curCharTexCoord)];
      result.vert := result.vert + [Vertex(Vec2(curEndpoint.x, curOrigin.y), Vec2(curCharTexCoord.x + GlyphWidthTexcoords, curCharTexCoord.y))];
      result.vert := result.vert + [Vertex(curEndpoint, Vec2(curCharTexCoord.x + GlyphWidthTexcoords, curCharTexCoord.y + GlyphWidthTexcoords))];
      result.vert := result.vert + [Vertex(Vec2(curOrigin.x, curEndpoint.y), Vec2(curCharTexCoord.x, curCharTexCoord.y + GlyphWidthTexcoords))];
      result.ind := result.ind + [ToU16(curIndex), ToU16(curIndex + 1), ToU16(curIndex + 2)];
      result.ind := result.ind + [ToU16(curIndex + 2), ToU16(curIndex + 3), ToU16(curIndex)];
    }

    /** FontRenderer::addMeshForBG (fontrenderer.cpp:41-55): one solid quad whose four corners all carry `uv`. */
    method AddMeshForBG(result: FontMesh, uv: Vec2, minExtent: Vec2, maxExtent: Vec2)
      modifies result
      ensures result.vert == old(result.vert)
                + [Vertex(minExtent, uv), Vertex(Vec2(maxExtent.x, minExtent.y), uv),
                   Vertex(maxExtent, uv), Vertex(Vec2(minExtent.x, maxExtent.y), uv)]
      ensures result.ind == old(result.ind) + QuadIndices(|old(result.vert)|)
    {
      var curIndex := |result.vert|;
      result.vert := result.vert + [Vertex(minExtent, uv), Vertex(Vec2(maxExtent.x, minExtent.y), uv),
                                    Vertex(maxExtent, uv), Vertex(Vec2(minExtent.x, maxExtent.y), uv)];
      result.ind := result.ind + [ToU16(curIndex), ToU16(curIndex + 1), ToU16(curIndex + 2),
                                  ToU16(curIndex + 2), ToU16(curIndex + 3), ToU16(curIndex)];
    }
  }
}
