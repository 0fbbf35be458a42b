/** The append-only sprite, font and shader registries of src/game.cpp and
    the manifest rows that fill a sprite sheet or a font. */
module Registries {
  import opened Wrappers
  import opened Tge
  import opened Numbers
  import opened Text
  import opened Csv
  import opened Definitions

  /** The first `n` cells of a line, read by `n` calls of `next_cell`; once
      the line is used up every further cell is empty. */
  function Cells(line: string, n: nat): (r: seq<string>)
    ensures |r| == n
    ensures forall k :: 0 <= k < n ==> ',' !in r[k]
    decreases n
  {
    if n == 0 then []
    else
      var (cell, rest) := NextCell(line);
      [cell] + Cells(rest, n - 1)
  }

  /** Cells written joined by commas are read back one by one. */
  lemma {:induction false} CellsOfJoin(parts: seq<string>)
    requires |parts| >= 1 && forall k :: 0 <= k < |parts| ==> ',' !in parts[k]
    ensures Cells(Join(',', parts), |parts|) == parts
    decreases |parts|
  {
    var line := Join(',', parts);
    if |parts| == 1 {
      assert NextCell(line) == (parts[0], []);
    } else {
      var rest := Join(',', parts[1..]);
      assert line == parts[0] + [','] + rest;
      var (cell, tail) := NextCell(line);
      FirstComma(cell, tail, parts[0], rest);
      CellsOfJoin(parts[1..]);
    }
  }

  /** Two ways of cutting a line at a comma agree when both cut at its first comma. */
  lemma {:induction false} FirstComma(a: string, b: string, c: string, d: string)
    requires a + [','] + b == c + [','] + d && ',' !in a && ',' !in c
    ensures a == c && b == d
  {
    var s := a + [','] + b;
    assert s[|a|] == ',' && s[|c|] == ',';
    assert forall k :: 0 <= k < |a| ==> s[k] == a[k];
    assert forall k :: 0 <= k < |c| ==> s[k] == c[k];
    assert |a| == |c|;
    assert a == s[..|a|] && c == s[..|c|];
    assert b == s[|a| + 1..] && d == s[|c| + 1..];
  }

  /** One row of a `.spritesheet` manifest: name, x, y, width, height. */
  function SpriteRow(line: string): (string, Sprite) {
    var c := Cells(line, 5);
    (c[0], Sprite(Vec2(StofSafe(c[1]), StofSafe(c[2])), Vec2(StofSafe(c[3]), StofSafe(c[4]))))
  }

  /** The (name, sprite) entries of a list of manifest rows, in order. */
  function SpriteEntries(rows: seq<string>): (r: seq<(string, Sprite)>)
    ensures |r| == |rows| && forall k :: 0 <= k < |rows| ==> r[k] == SpriteRow(rows[k])
  {
    seq(|rows|, k requires 0 <= k < |rows| => SpriteRow(rows[k]))
  }

  /** Entries stored into `m` in order, so a later entry with the same name
      replaces an earlier one. */
  function Store(m: map<string, Sprite>, entries: seq<(string, Sprite)>): map<string, Sprite>
    decreases |entries|
  {
    if entries == [] then m
    else Store(m[entries[0].0 := entries[0].1], entries[1..])
  }

  /** The sprites `load_sprite` reads from a manifest; an unreadable one
      leaves the sheet empty. */
  function SheetSprites(manifest: Option<string>): map<string, Sprite> {
    match manifest
    case None => map[]
    case Some(d) => Store(map[], SpriteEntries(Fed(Lines(d), true)))
  }

  /** Entries are applied in order: the last one is stored last. */
  lemma {:induction false} StoreSnoc(m: map<string, Sprite>, entries: seq<(string, Sprite)>, e: (string, Sprite))
    ensures Store(m, entries + [e]) == Store(m, entries)[e.0 := e.1]
    decreases |entries|
  {
    if entries == [] {
      assert ([] + [e])[1..] == [];
    } else {
      assert (entries + [e])[0] == entries[0];
      assert (entries + [e])[1..] == entries[1..] + [e];
      StoreSnoc(m[entries[0].0 := entries[0].1], entries[1..], e);
    }
  }

  /** The names of a list of entries. */
  function Names(entries: seq<(string, Sprite)>): (r: set<string>)
    ensures forall k :: 0 <= k < |entries| ==> entries[k].0 in r
    decreases |entries|
  {
    if entries == [] then {} else {entries[0].0} + Names(entries[1..])
  }

  /** A sheet holds exactly the names of its rows. */
  lemma {:induction false} StoreKeys(m: map<string, Sprite>, entries: seq<(string, Sprite)>)
    ensures Store(m, entries).Keys == m.Keys + Names(entries)
    decreases |entries|
  {
    if entries != [] {
      StoreKeys(m[entries[0].0 := entries[0].1], entries[1..]);
    }
  }

  /** An entry whose name no later entry repeats determines that sprite. */
  lemma {:induction false} StoreLastWins(m: map<string, Sprite>, entries: seq<(string, Sprite)>, k: nat)
    requires k < |entries|
    requires forall j :: k < j < |entries| ==> entries[j].0 != entries[k].0
    ensures entries[k].0 in Store(m, entries) && Store(m, entries)[entries[k].0] == entries[k].1
    decreases |entries|
  {
    var last := entries[|entries| - 1];
    var init := entries[..|entries| - 1];
    assert entries == init + [last];
    StoreSnoc(m, init, last);
    if k < |entries| - 1 {
      StoreLastWins(m, init, k);
    }
  }

  /** The glyph code of a `.spritefont` row. */
  function GlyphCode(line: string): int {
    StofSafe(Cells(line, 1)[0])
  }

  /** The glyph a `.spritefont` row describes, from its fields 1 to 9. */
  function FontRowChar(line: string): FontChar {
    var c := Cells(line, 10);
    FontChar(Vec2(StofSafe(c[1]), StofSafe(c[2])), Vec2(StofSafe(c[3]), StofSafe(c[4])),
             Vec2(StofSafe(c[5]), StofSafe(c[6])), Vec2(StofSafe(c[7]), StofSafe(c[8])),
             StofSafe(c[9]))
  }

  /** A `.spritefont` row read: its glyph code and its glyph. */
  datatype FontRow = FontRow(code: int, glyph: FontChar)

  function ReadFontRow(line: string): FontRow {
    FontRow(GlyphCode(line), FontRowChar(line))
  }

  /** The rows read, one per line, in order. */
  function ReadFontRows(lines: seq<string>): (r: seq<FontRow>)
    ensures |r| == |lines|
  {
    if lines == [] then [] else ReadFontRows(lines[..|lines| - 1]) + [ReadFontRow(lines[|lines| - 1])]
  }

  lemma {:induction false} ReadFontRowsAt(lines: seq<string>, k: nat)
    requires k < |lines|
    ensures ReadFontRows(lines)[k] == ReadFontRow(lines[k])
  {
    var init := lines[..|lines| - 1];
    if k < |init| {
      ReadFontRowsAt(init, k);
    }
  }

  predicate CodesInRange(rows: seq<FontRow>) {
    forall k :: 0 <= k < |rows| ==> 0 <= rows[k].code < GlyphCount
  }

  /** The rows of a font manifest: every line after the header. */
  function ManifestRows(manifest: string): seq<FontRow> {
    ReadFontRows(Fed(Lines(manifest), true))
  }

  /** Indexing the 128-entry glyph array with a code outside 0..127 is
      undefined, so every row of a font manifest must name a glyph in range. */
  predicate GlyphsInRange(manifest: Option<string>) {
    manifest.Some? ==> CodesInRange(ManifestRows(manifest.value))
  }

  /** One `.spritefont` row: it replaces its glyph and raises the line
      height to the glyph's height if that is larger. */
  function ApplyFontRow(chars: seq<FontChar>, lineHeight: int, row: FontRow): (r: (seq<FontChar>, int))
    requires |chars| == GlyphCount && 0 <= row.code < GlyphCount
    ensures |r.0| == GlyphCount && r.0[row.code] == row.glyph
    ensures forall k :: 0 <= k < GlyphCount && k != row.code ==> r.0[k] == chars[k]
    ensures r.1 >= lineHeight && r.1 >= row.glyph.pos2.y - row.glyph.pos1.y
    ensures r.1 == lineHeight || r.1 == row.glyph.pos2.y - row.glyph.pos1.y
  {
    var ch := row.glyph;
    (chars[row.code := ch], Max(lineHeight, ch.pos2.y - ch.pos1.y))
  }

  function ApplyFontRows(chars: seq<FontChar>, lineHeight: int, rows: seq<FontRow>): (r: (seq<FontChar>, int))
    requires |chars| == GlyphCount && CodesInRange(rows)
    ensures |r.0| == GlyphCount && r.1 >= lineHeight
    decreases |rows|
  {
    if rows == [] then (chars, lineHeight)
    else
      var (c1, h1) := ApplyFontRows(chars, lineHeight, rows[..|rows| - 1]);
      ApplyFontRow(c1, h1, rows[|rows| - 1])
  }

  /** Rows numbered 0, 1, 2, ... in order fill the glyphs of the same
      numbers, each from its own row, and leave the rest alone. */
  lemma {:induction false} ApplyFontRowsNumbered(chars: seq<FontChar>, lineHeight: int, rows: seq<FontRow>)
    requires |chars| == GlyphCount && |rows| <= GlyphCount
    requires forall k :: 0 <= k < |rows| ==> rows[k].code == k
    ensures var r := ApplyFontRows(chars, lineHeight, rows).0;
      && (forall j :: 0 <= j < |rows| ==> r[j] == rows[j].glyph)
      && (forall j :: |rows| <= j < GlyphCount ==> r[j] == chars[j])
    decreases |rows|
  {
    if rows != [] {
      ApplyFontRowsNumbered(chars, lineHeight, rows[..|rows| - 1]);
    }
  }

  /** The line height is at least the height of every glyph read. */
  lemma {:induction false} ApplyFontRowsHeight(chars: seq<FontChar>, lineHeight: int, rows: seq<FontRow>)
    requires |chars| == GlyphCount && CodesInRange(rows)
    ensures var h := ApplyFontRows(chars, lineHeight, rows).1;
      forall k :: 0 <= k < |rows| ==> h >= rows[k].glyph.pos2.y - rows[k].glyph.pos1.y
    decreases |rows|
  {
    if rows != [] {
      ApplyFontRowsHeight(chars, lineHeight, rows[..|rows| - 1]);
    }
  }

  /** The glyphs of a new font, before its manifest is read. */
  function BlankGlyphs(): (r: seq<FontChar>)
    ensures |r| == GlyphCount && forall k :: 0 <= k < GlyphCount ==> r[k] == ZeroChar
  {
    seq(GlyphCount, _ => ZeroChar)
  }

  /** The glyphs and line height `load_font` reads from a manifest. */
  function FontGlyphs(manifest: Option<string>): (r: (seq<FontChar>, int))
    requires GlyphsInRange(manifest)
    ensures |r.0| == GlyphCount && r.1 >= 0
  {
    match manifest
    case None => (BlankGlyphs(), 0)
    case Some(d) => ApplyFontRows(BlankGlyphs(), 0, ManifestRows(d))
  }

  /** The three registries. Handles are positions in them. */
  datatype Assets = Assets(sprites: seq<SpriteSheet>, fonts: seq<SpriteFont>, shaders: seq<int>)

  /** `load_sprite`: appends one sheet, whatever the name and whether or not
      its manifest exists, and returns its handle, the previous length. The
      texture comes from the graphics driver and is a parameter. */
  function LoadSprite(a: Assets, manifest: Option<string>, texture: Texture): (r: (Assets, nat))
    ensures r.1 == |a.sprites| && |r.0.sprites| == |a.sprites| + 1
    ensures r.0.sprites[..|a.sprites|] == a.sprites
    ensures r.0.sprites[r.1] == SpriteSheet(texture, SheetSprites(manifest))
    ensures r.0.fonts == a.fonts && r.0.shaders == a.shaders
  {
    (a.(sprites := a.sprites + [SpriteSheet(texture, SheetSprites(manifest))]), |a.sprites|)
  }

  /** `load_font`: appends one font and returns its handle. */
  function LoadFont(a: Assets, manifest: Option<string>, texture: Texture): (r: (Assets, nat))
    requires GlyphsInRange(manifest)
    ensures r.1 == |a.fonts| && |r.0.fonts| == |a.fonts| + 1
    ensures r.0.fonts[..|a.fonts|] == a.fonts
    ensures ValidFont(r.0.fonts[r.1]) && r.0.fonts[r.1].texture == texture
    ensures r.0.sprites == a.sprites && r.0.shaders == a.shaders
  {
    var (chars, lh) := FontGlyphs(manifest);
    (a.(fonts := a.fonts + [SpriteFont(texture, chars, lh)]), |a.fonts|)
  }

  /** `load_shader`: appends the program the driver built and returns its handle. */
  function LoadShader(a: Assets, program: int): (r: (Assets, nat))
    ensures r.1 == |a.shaders| && r.0.shaders == a.shaders + [program]
    ensures r.0.sprites == a.sprites && r.0.fonts == a.fonts
  {
    (a.(shaders := a.shaders + [program]), |a.shaders|)
  }

  /** Loading never disturbs an existing handle: two loads in a row hand out
      consecutive handles and the first one still names what it loaded. */
  lemma {:induction false} LoadSpriteTwice(a: Assets, m1: Option<string>, t1: Texture, m2: Option<string>, t2: Texture)
    ensures var (a1, h1) := LoadSprite(a, m1, t1);
      var (a2, h2) := LoadSprite(a1, m2, t2);
      h2 == h1 + 1 && a2.sprites[h1] == a1.sprites[h1]
  {
    var (a1, h1) := LoadSprite(a, m1, t1);
    var (a2, h2) := LoadSprite(a1, m2, t2);
    assert a2.sprites[..|a1.sprites|][h1] == a2.sprites[h1];
  }
}
