/** The drawing state of the scripted runtime of src/game.cpp: handle
    selection (`set_sprite`, `set_font`, `set_shader`), the draw calls that
    feed the quad batch, and text measurement and layout. */
module Runtime {
  import opened Tge
  import opened QuadBatch
  import opened Registries
  import opened Definitions
  import opened Numbers
  import opened Text

  /** The handle the script passes for "none". */
  const NoHandle: U32 := 0xffffffff

  /** The part of `Game` that drawing touches. `texture0` is the texture
      bound to slot 0 and `draws` the batches handed to the driver so far. */
  datatype Game = Game(
    assets: Assets,
    batch: Batch,
    draws: seq<Batch>,
    currentSprite: U32,
    currentFont: U32,
    currentShader: int,
    isText: bool,
    defaultSprite: U32,
    defaultFont: U32,
    defaultShader: U32,
    texture0: Texture)

  /** Every loaded font has its 128 glyphs. */
  predicate FontsValid(g: Game) {
    forall k :: 0 <= k < |g.assets.fonts| ==> ValidFont(g.assets.fonts[k])
  }

  /** `flush_batch` on the game's batch. */
  function FlushGame(g: Game): (r: Game)
    ensures |r.batch.indices| == 0
    ensures (r.batch, r.draws) == Flush(g.batch, g.draws)
    ensures r.(batch := g.batch, draws := g.draws) == g
  {
    var (b, d) := Flush(g.batch, g.draws);
    g.(batch := b, draws := d)
  }

  /** The sprite a sprite handle selects: itself when it names a loaded
      sheet, the default sheet otherwise. */
  function SelectSprite(g: Game, sprite: U32): U32 {
    if sprite < |g.assets.sprites| then sprite else g.defaultSprite
  }

  function SelectFont(g: Game, font: U32): U32 {
    if font < |g.assets.fonts| then font else g.defaultFont
  }

  /** `set_sprite`: flush, leave text mode and bind the selected sheet. */
  function SetSprite(g: Game, sprite: U32): (r: Game)
    requires sprite < |g.assets.sprites| || 0 <= g.defaultSprite < |g.assets.sprites|
    ensures |r.batch.indices| == 0 && (r.batch, r.draws) == Flush(g.batch, g.draws)
    ensures !r.isText && 0 <= r.currentSprite < |g.assets.sprites|
    ensures sprite < |g.assets.sprites| ==> r.currentSprite == sprite
    ensures sprite >= |g.assets.sprites| ==> r.currentSprite == g.defaultSprite
    ensures r.texture0 == g.assets.sprites[r.currentSprite].texture
    ensures r.(batch := g.batch, draws := g.draws, isText := g.isText, currentSprite := g.currentSprite,
               texture0 := g.texture0) == g
  {
    var f := FlushGame(g);
    var s := SelectSprite(g, sprite);
    f.(isText := false, currentSprite := s, texture0 := g.assets.sprites[s].texture)
  }

  /** `set_font`: flush, enter text mode and bind the selected font. */
  function SetFont(g: Game, font: U32): (r: Game)
    requires font < |g.assets.fonts| || 0 <= g.defaultFont < |g.assets.fonts|
    ensures |r.batch.indices| == 0 && (r.batch, r.draws) == Flush(g.batch, g.draws)
    ensures r.isText && 0 <= r.currentFont < |g.assets.fonts|
    ensures font < |g.assets.fonts| ==> r.currentFont == font
    ensures font >= |g.assets.fonts| ==> r.currentFont == g.defaultFont
    ensures r.texture0 == g.assets.fonts[r.currentFont].texture
    ensures r.(batch := g.batch, draws := g.draws, isText := g.isText, currentFont := g.currentFont,
               texture0 := g.texture0) == g
  {
    var f := FlushGame(g);
    var s := SelectFont(g, font);
    f.(isText := true, currentFont := s, texture0 := g.assets.fonts[s].texture)
  }

  /** The texture of whichever sprite or font is current. */
  predicate CurrentValid(g: Game) {
    if g.isText then 0 <= g.currentFont < |g.assets.fonts|
    else 0 <= g.currentSprite < |g.assets.sprites|
  }

  function CurrentTexture(g: Game): Texture
    requires CurrentValid(g)
  {
    if g.isText then g.assets.fonts[g.currentFont].texture else g.assets.sprites[g.currentSprite].texture
  }

  /** `set_shader`: flush, use the program of the handle (the default one
      for 0xffffffff) and rebind the current texture. A handle that is
      neither in range nor 0xffffffff is not checked by the source. */
  function SetShader(g: Game, shader: U32): (r: Game)
    requires shader == NoHandle || shader < |g.assets.shaders|
    requires shader == NoHandle ==> 0 <= g.defaultShader < |g.assets.shaders|
    requires CurrentValid(g)
    ensures |r.batch.indices| == 0 && (r.batch, r.draws) == Flush(g.batch, g.draws)
    ensures shader != NoHandle ==> r.currentShader == g.assets.shaders[shader]
    ensures shader == NoHandle ==> r.currentShader == g.assets.shaders[g.defaultShader]
    ensures r.texture0 == CurrentTexture(g)
    ensures r.(batch := g.batch, draws := g.draws, currentShader := g.currentShader,
               texture0 := g.texture0) == g
  {
    var f := FlushGame(g);
    var program := if shader != NoHandle then g.assets.shaders[shader] else g.assets.shaders[g.defaultShader];
    f.(currentShader := program, texture0 := CurrentTexture(g))
  }

  /** Selecting a sprite twice is the same as selecting it once. */
  lemma {:induction false} SetSpriteTwice(g: Game, sprite: U32)
    requires 0 <= g.defaultSprite < |g.assets.sprites|
    ensures SetSprite(SetSprite(g, sprite), sprite) == SetSprite(g, sprite)
  {
  }

  /** The part of `begin_frame` that is not driver state: leave text mode,
      then select the default shader and the default sprite. */
  function BeginFrame(g: Game): (r: Game)
    requires g.defaultSprite < |g.assets.sprites| && g.defaultShader < |g.assets.shaders|
    requires g.currentSprite < |g.assets.sprites|
    ensures |r.batch.indices| == 0 && !r.isText
    ensures r.currentSprite == g.defaultSprite && r.currentShader == g.assets.shaders[g.defaultShader]
    ensures r.assets == g.assets
  {
    SetSprite(SetShader(g.(isText := false), g.defaultShader), g.defaultSprite)
  }

  /** `end_frame`: whatever is still queued is drawn. */
  function EndFrame(g: Game): (r: Game)
    ensures |r.batch.indices| == 0 && (r.batch, r.draws) == Flush(g.batch, g.draws)
  {
    FlushGame(g)
  }

  /** `draw_sprite`: the whole texture of the current sheet, texels (0, 0)
      to (width, height), placed by `layout`; only the batch changes. */
  function DrawSprite(g: Game, layout: Layout, color: U32): (r: Game)
    requires 0 <= g.currentSprite < |g.assets.sprites|
    ensures r.(batch := g.batch) == g
    ensures var t := g.assets.sprites[g.currentSprite].texture;
      Queued(g.batch, r.batch, layout(Vec2(t.width, t.height)), 0, 0, U16(t.width), U16(t.height), color)
    ensures WellFormed(g.batch) ==> WellFormed(r.batch)
  {
    var t := g.assets.sprites[g.currentSprite].texture;
    DrawQueued(g.batch, layout, Vec2(0, 0), Vec2(t.width, t.height), color);
    assert WellFormed(g.batch) ==> WellFormed(DrawSpritePart(g.batch, layout, Vec2(0, 0), Vec2(t.width, t.height), color)) by {
      if WellFormed(g.batch) { DrawKeepsWellFormed(g.batch, layout, Vec2(0, 0), Vec2(t.width, t.height), color); }
    }
    g.(batch := DrawSpritePart(g.batch, layout, Vec2(0, 0), Vec2(t.width, t.height), color))
  }

  /** `draw_sprite_sheet`: the named sprite's rectangle of the current
      sheet, placed by `layout`; an unknown name draws nothing, and only the
      batch changes. */
  function DrawSpriteSheet(g: Game, name: string, layout: Layout, color: U32): (r: Game)
    requires 0 <= g.currentSprite < |g.assets.sprites|
    ensures name !in g.assets.sprites[g.currentSprite].sprites ==> r == g
    ensures r.(batch := g.batch) == g
    ensures name in g.assets.sprites[g.currentSprite].sprites ==>
      var sp := g.assets.sprites[g.currentSprite].sprites[name];
      Queued(g.batch, r.batch, layout(sp.size), U16(sp.pos.x), U16(sp.pos.y),
             U16(sp.pos.x + sp.size.x), U16(sp.pos.y + sp.size.y), color)
    ensures WellFormed(g.batch) ==> WellFormed(r.batch)
  {
    var sheet := g.assets.sprites[g.currentSprite].sprites;
    if name in sheet then
      DrawQueued(g.batch, layout, sheet[name].pos, sheet[name].size, color);
      assert WellFormed(g.batch) ==> WellFormed(DrawSpritePart(g.batch, layout, sheet[name].pos, sheet[name].size, color)) by {
        if WellFormed(g.batch) { DrawKeepsWellFormed(g.batch, layout, sheet[name].pos, sheet[name].size, color); }
      }
      g.(batch := DrawSpritePart(g.batch, layout, sheet[name].pos, sheet[name].size, color))
    else g
  }

  // ---------------------------------------------------------------------
  // Text

  /** A byte above 127 is negative as a signed `char` and is skipped. */
  predicate Skipped(c: char) {
    c as int > 127
  }

  /** The cursor `measure_text` reaches after `s`: x restarts at 0 on each
      line break and y counts line heights. */
  function MeasureCursor(font: SpriteFont, s: string): (r: Vec2)
    requires ValidFont(font)
    decreases |s|
  {
    if s == [] then Vec2(0, 0)
    else
      var p := MeasureCursor(font, s[..|s| - 1]);
      var c := s[|s| - 1];
      if Skipped(c) then p
      else if c == '\t' then Vec2(p.x + font.chars[' ' as int].xadvance * 4, p.y)
      else if c == '\n' then Vec2(0, p.y + font.lineHeight)
      else Vec2(p.x + font.chars[c as int].xadvance, p.y)
  }

  /** The cursor's y is one line height per line break passed. */
  lemma {:induction false} MeasureCursorY(font: SpriteFont, s: string)
    requires ValidFont(font)
    ensures MeasureCursor(font, s).y == CountChar(s, '\n') * font.lineHeight
    decreases |s|
  {
    if s != [] {
      var init := s[..|s| - 1];
      MeasureCursorY(font, init);
      MeasureCursorStepY(font, s);
      LinesTimes(CountChar(init, '\n'), font.lineHeight);
    }
  }

  /** One character moves the cursor down by one line height exactly when
      it is a line break. */
  lemma {:induction false} MeasureCursorStepY(font: SpriteFont, s: string)
    requires ValidFont(font) && s != []
    ensures MeasureCursor(font, s).y
      == MeasureCursor(font, s[..|s| - 1]).y + (if s[|s| - 1] == '\n' then font.lineHeight else 0)
  {
  }

  lemma {:induction false} LinesTimes(n: int, h: int)
    ensures (n + 1) * h == n * h + h
  {
  }

  /** `measure_text`: the widest x the cursor reaches (never below 0) and
      the height of all lines. */
  method MeasureText(g: Game, font: U32, text: string) returns (size: Vec2)
    requires font < |g.assets.fonts| && ValidFont(g.assets.fonts[font])
    ensures var f := g.assets.fonts[font];
      && size.y == (CountChar(text, '\n') + 1) * f.lineHeight
      && (forall k :: 0 <= k <= |text| ==> size.x >= MeasureCursor(f, text[..k]).x)
      && (exists k :: 0 <= k <= |text| && size.x == MeasureCursor(f, text[..k]).x)
  {
    var f := g.assets.fonts[font];
    var cursor := Vec2(0, 0);
    var maxX := 0;
    ghost var at := 0;
    var i := 0;
    while i < |text|
      invariant 0 <= i <= |text| && 0 <= at <= i
      invariant cursor == MeasureCursor(f, text[..i])
      invariant maxX == MeasureCursor(f, text[..at]).x
      invariant forall k :: 0 <= k <= i ==> maxX >= MeasureCursor(f, text[..k]).x
    {
      var c := text[i];
      assert text[..i + 1][..i] == text[..i];
      if Skipped(c) {
        i := i + 1;
        continue;
      } else if c == '\t' {
        cursor := cursor.(x := cursor.x + f.chars[' ' as int].xadvance * 4);
      } else if c == '\n' {
        cursor := Vec2(0, cursor.y + f.lineHeight);
      } else {
        cursor := cursor.(x := cursor.x + f.chars[c as int].xadvance);
      }
      if cursor.x > maxX {
        at := i + 1;
      }
      maxX := Max(maxX, cursor.x);
      i := i + 1;
    }
    assert text[..|text|] == text;
    MeasureCursorY(f, text);
    size := Vec2(maxX, cursor.y + f.lineHeight);
  }

  /** The characters `draw_text` draws a quad for: ASCII that is not white
      space. */
  predicate IsGlyph(c: char) {
    !Skipped(c) && c != ' ' && c != '\t' && c != '\n' && !IsCSpace(c)
  }

  /** The pen position `draw_text` reaches after `s`, starting at `pos`:
      space and tab advance by the space's advance (four of them for a tab),
      a line break returns to `pos.x` one line further down, a glyph
      advances by its own advance and any other character changes nothing. */
  function DrawCursor(font: SpriteFont, pos: Vec2, s: string): (r: Vec2)
    requires ValidFont(font)
    decreases |s|
  {
    if s == [] then pos
    else CursorStep(font, pos, DrawCursor(font, pos, s[..|s| - 1]), s[|s| - 1])
  }

  /** How one character moves the pen of `draw_text`. */
  function CursorStep(font: SpriteFont, pos: Vec2, p: Vec2, c: char): Vec2
    requires ValidFont(font)
  {
    if Skipped(c) then p
    else if c == ' ' then Vec2(p.x + font.chars[' ' as int].xadvance, p.y)
    else if c == '\t' then Vec2(p.x + font.chars[' ' as int].xadvance * 4, p.y)
    else if c == '\n' then Vec2(pos.x, p.y + font.lineHeight)
    else if IsGlyph(c) then Vec2(p.x + font.chars[c as int].xadvance, p.y)
    else p
  }

  /** The glyphs of `s` in order, each with the pen position in front of it. */
  function Glyphs(font: SpriteFont, pos: Vec2, s: string): (r: seq<(Vec2, FontChar)>)
    requires ValidFont(font)
    ensures |r| <= |s|
    decreases |s|
  {
    if s == [] then []
    else
      var c := s[|s| - 1];
      Glyphs(font, pos, s[..|s| - 1])
        + (if IsGlyph(c) then [(DrawCursor(font, pos, s[..|s| - 1]), font.chars[c as int])] else [])
  }

  function GlyphCount(s: string): (n: nat)
    ensures n <= |s|
  {
    if s == [] then 0 else GlyphCount(s[..|s| - 1]) + (if IsGlyph(s[|s| - 1]) then 1 else 0)
  }

  /** The quad of one glyph: its texture rectangle, with the glyph's offset
      and the line height as origin so that the pen sits on the baseline. */
  function GlyphQuad(b: Batch, lineHeight: int, g: (Vec2, FontChar), color: U32): Batch {
    var ch := g.1;
    var size := Vec2(ch.pos2.x - ch.pos1.x, ch.pos2.y - ch.pos1.y);
    var origin := Vec2(-ch.off1.x, -ch.off1.y - lineHeight);
    DrawSpritePart(b, Upright(g.0, origin, Vec2(1, 1)), ch.pos1, size, color)
  }

  function DrawGlyphs(b: Batch, lineHeight: int, gs: seq<(Vec2, FontChar)>, color: U32): Batch
    decreases |gs|
  {
    if gs == [] then b else GlyphQuad(DrawGlyphs(b, lineHeight, gs[..|gs| - 1], color), lineHeight, gs[|gs| - 1], color)
  }

  lemma {:induction false} DrawGlyphsSnoc(b: Batch, lineHeight: int, gs: seq<(Vec2, FontChar)>, x: (Vec2, FontChar), color: U32)
    ensures DrawGlyphs(b, lineHeight, gs + [x], color) == GlyphQuad(DrawGlyphs(b, lineHeight, gs, color), lineHeight, x, color)
  {
    assert (gs + [x])[..|gs|] == gs;
  }

  /** One glyph per glyph character. */
  lemma {:induction false} GlyphsCount(font: SpriteFont, pos: Vec2, s: string)
    requires ValidFont(font)
    ensures |Glyphs(font, pos, s)| == GlyphCount(s)
    decreases |s|
  {
    if s != [] {
      GlyphsCount(font, pos, s[..|s| - 1]);
    }
  }

  /** Each glyph adds one quad: four vertices and six indices. */
  lemma {:induction false} DrawGlyphsSize(b: Batch, lineHeight: int, gs: seq<(Vec2, FontChar)>, color: U32)
    ensures |DrawGlyphs(b, lineHeight, gs, color).vertices| == |b.vertices| + 4 * |gs|
    ensures |DrawGlyphs(b, lineHeight, gs, color).indices| == |b.indices| + 6 * |gs|
    ensures WellFormed(b) ==> WellFormed(DrawGlyphs(b, lineHeight, gs, color))
    decreases |gs|
  {
    if gs != [] {
      var last := gs[|gs| - 1];
      DrawGlyphsSize(b, lineHeight, gs[..|gs| - 1], color);
      var before := DrawGlyphs(b, lineHeight, gs[..|gs| - 1], color);
      assert DrawGlyphs(b, lineHeight, gs, color) == GlyphQuad(before, lineHeight, last, color);
      GlyphQuadSize(before, lineHeight, last, color);
    }
  }

  lemma {:induction false} GlyphQuadSize(b: Batch, lineHeight: int, g: (Vec2, FontChar), color: U32)
    ensures |GlyphQuad(b, lineHeight, g, color).vertices| == |b.vertices| + 4
    ensures |GlyphQuad(b, lineHeight, g, color).indices| == |b.indices| + 6
    ensures WellFormed(b) ==> WellFormed(GlyphQuad(b, lineHeight, g, color))
  {
    var ch := g.1;
    var layout := Upright(g.0, Vec2(-ch.off1.x, -ch.off1.y - lineHeight), Vec2(1, 1));
    var size := Vec2(ch.pos2.x - ch.pos1.x, ch.pos2.y - ch.pos1.y);
    assert GlyphQuad(b, lineHeight, g, color) == DrawSpritePart(b, layout, ch.pos1, size, color);
    if WellFormed(b) {
      DrawKeepsWellFormed(b, layout, ch.pos1, size, color);
    }
  }

  /** One step of `draw_text`'s loop. */
  lemma {:induction false} DrawTextStep(font: SpriteFont, pos: Vec2, text: string, i: nat, b: Batch, color: U32)
    requires ValidFont(font) && i < |text|
    ensures var s := text[..i + 1];
      && s[..i] == text[..i] && s[i] == text[i]
      && DrawCursor(font, pos, s) == CursorStep(font, pos, DrawCursor(font, pos, text[..i]), text[i])
      && Glyphs(font, pos, s) == Glyphs(font, pos, text[..i])
           + (if IsGlyph(text[i]) then [(DrawCursor(font, pos, text[..i]), font.chars[text[i] as int])] else [])
      && DrawGlyphs(b, font.lineHeight, Glyphs(font, pos, s), color)
           == if IsGlyph(text[i])
              then GlyphQuad(DrawGlyphs(b, font.lineHeight, Glyphs(font, pos, text[..i]), color), font.lineHeight,
                             (DrawCursor(font, pos, text[..i]), font.chars[text[i] as int]), color)
              else DrawGlyphs(b, font.lineHeight, Glyphs(font, pos, text[..i]), color)
  {
    var s := text[..i + 1];
    assert s[..i] == text[..i];
    if IsGlyph(text[i]) {
      DrawGlyphsSnoc(b, font.lineHeight, Glyphs(font, pos, text[..i]),
        (DrawCursor(font, pos, text[..i]), font.chars[text[i] as int]), color);
    } else {
      assert Glyphs(font, pos, text[..i]) + [] == Glyphs(font, pos, text[..i]);
    }
  }

  /** `draw_text` with the current font: one quad per glyph, each placed at
      the pen position the characters before it lead to. */
  method DrawText(g: Game, text: string, pos: Vec2, color: U32) returns (r: Game)
    requires g.currentFont < |g.assets.fonts| && ValidFont(g.assets.fonts[g.currentFont])
    ensures var f := g.assets.fonts[g.currentFont];
      r == g.(batch := DrawGlyphs(g.batch, f.lineHeight, Glyphs(f, pos, text), color))
  {
    var f := g.assets.fonts[g.currentFont];
    var cursor := pos;
    var b := g.batch;
    var i := 0;
    while i < |text|
      invariant 0 <= i <= |text|
      invariant cursor == DrawCursor(f, pos, text[..i])
      invariant b == DrawGlyphs(g.batch, f.lineHeight, Glyphs(f, pos, text[..i]), color)
    {
      var c := text[i];
      DrawTextStep(f, pos, text, i, g.batch, color);
      if Skipped(c) {
      } else if c == ' ' {
        cursor := cursor.(x := cursor.x + f.chars[' ' as int].xadvance);
      } else if c == '\t' {
        cursor := cursor.(x := cursor.x + f.chars[' ' as int].xadvance * 4);
      } else if c == '\n' {
        cursor := Vec2(pos.x, cursor.y + f.lineHeight);
      } else if !IsCSpace(c) {
        var ch := f.chars[c as int];
        b := GlyphQuad(b, f.lineHeight, (cursor, ch), color);
        cursor := cursor.(x := cursor.x + ch.xadvance);
      }
      i := i + 1;
    }
    assert text[..|text|] == text;
    r := g.(batch := b);
  }

  /** `draw_text` adds four vertices per glyph character and keeps the batch
      well formed. */
  lemma {:induction false} DrawTextSize(g: Game, text: string, pos: Vec2, color: U32)
    requires g.currentFont < |g.assets.fonts| && ValidFont(g.assets.fonts[g.currentFont])
    ensures var f := g.assets.fonts[g.currentFont];
      var b := DrawGlyphs(g.batch, f.lineHeight, Glyphs(f, pos, text), color);
      && |b.vertices| == |g.batch.vertices| + 4 * GlyphCount(text)
      && (WellFormed(g.batch) ==> WellFormed(b))
  {
    var f := g.assets.fonts[g.currentFont];
    GlyphsCount(f, pos, text);
    DrawGlyphsSize(g.batch, f.lineHeight, Glyphs(f, pos, text), color);
  }
}
