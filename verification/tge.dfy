/** The records of src/tge.h that the scripted runtime keeps in its
    registries and its draw batch. Coordinates are whole numbers here. */
module Tge {
  /** The values of a `uint32_t`. */
  type U32 = x: int | 0 <= x < 0x1_0000_0000

  /** Conversion to `uint32_t`, which keeps the value modulo 2^32; the
      script's -1 becomes 0xffffffff. */
  function ToU32(n: int): (r: U32)
    ensures 0 <= n < 0x1_0000_0000 ==> r == n
    ensures n < 0 && n >= -0x1_0000_0000 ==> r == n + 0x1_0000_0000
  {
    n % 0x1_0000_0000
  }

  /** A 2D position or size. */
  datatype Vec2 = Vec2(x: int, y: int)

  /** One batched vertex: corner position, 16-bit texel coordinates and a
      packed 32-bit colour. */
  datatype Vertex = Vertex(pos: Vec2, u: int, v: int, color: int)

  /** Where a glyph sits in the font texture and how it is placed. */
  datatype FontChar = FontChar(pos1: Vec2, pos2: Vec2, off1: Vec2, off2: Vec2, xadvance: int)

  /** A named rectangle of a sprite sheet. */
  datatype Sprite = Sprite(pos: Vec2, size: Vec2)

  /** A texture handed out by the graphics driver together with its size. */
  datatype Texture = Texture(id: int, width: int, height: int)

  /** The number of glyph slots of a sprite font. */
  const GlyphCount := 128

  /** A font: one entry per ASCII code and the tallest glyph's height. */
  datatype SpriteFont = SpriteFont(texture: Texture, chars: seq<FontChar>, lineHeight: int)

  datatype SpriteSheet = SpriteSheet(texture: Texture, sprites: map<string, Sprite>)

  /** The value-initialised glyph every slot starts as. */
  const ZeroChar := FontChar(Vec2(0, 0), Vec2(0, 0), Vec2(0, 0), Vec2(0, 0), 0)

  predicate ValidFont(f: SpriteFont) {
    |f.chars| == GlyphCount && f.lineHeight >= 0
  }
}
