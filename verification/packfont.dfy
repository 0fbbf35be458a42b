/** The `packfont` tool of packfont/main.cpp: it reads its settings from
    the command line, finds the smallest square atlas from 64 to 2048
    pixels that the first 128 characters of a font pack into, writes the
    atlas as white pixels whose alpha is the glyph coverage, and writes a
    `.spritefont` manifest with one row per character. The font file, the
    packer and the image writer are outside calls; their results are
    parameters. */
module PackFont {
  import opened Wrappers
  import opened Text
  import opened Numbers
  import opened Definitions
  import opened Tge
  import opened Csv
  import opened Registries

  /** The command-line settings. */
  datatype CommandLine = CommandLine(fname: string, fontSize: int, output: string, fontIndex: int,
                                     oversampling: int, padding: int)

  /** The settings from `argv`, the program name first; `None` is the usage
      error, exit code 1. The size is read by `atof`, of which the model
      keeps the integer part, and is at least 12. */
  function ParseArgs(argv: seq<string>): (r: Option<CommandLine>)
    ensures r.None? <==> |argv| < 4
    ensures r.Some? ==>
      && r.value.fname == argv[1] && r.value.output == argv[3]
      && r.value.fontSize >= 12
      && (Atoi(argv[2]) >= 12 ==> r.value.fontSize == Atoi(argv[2]))
      && (|argv| < 5 ==> r.value.fontIndex == 0)
      && (|argv| >= 5 ==> r.value.fontIndex == Atoi(argv[4]))
      && (|argv| < 6 ==> r.value.oversampling == 1)
      && (|argv| >= 6 ==> r.value.oversampling == Atoi(argv[5]))
      && r.value.padding == 1
  {
    if |argv| < 4 then None
    else
      Some(CommandLine(argv[1], Max(Atoi(argv[2]), 12), argv[3],
                    if |argv| >= 5 then Atoi(argv[4]) else 0,
                    if |argv| >= 6 then Atoi(argv[5]) else 1,
                    1))
  }

  /** The font bytes: the `.ttf` file if it opens, else the `.ttc` file if
      it opens, else nothing. A `.ttf` that opens but is empty is used all
      the same. */
  function FontData(ttf: Option<seq<bv8>>, ttc: Option<seq<bv8>>): (r: seq<bv8>)
    ensures ttf.Some? ==> r == ttf.value
    ensures ttf.None? ==> r == ttc.GetOr([])
  {
    ttf.GetOr(ttc.GetOr([]))
  }

  /** One glyph's rectangle in the atlas and its placement, as the packer
      reports it (`stbtt_packedchar`). */
  datatype PackedChar = PackedChar(x0: int, y0: int, x1: int, y1: int, xoff: int, yoff: int,
                                   xoff2: int, yoff2: int, xadvance: int)

  /** What packing into one atlas size gives: `PackBegin` fails,
      `PackFontRange` fails, or the coverage bitmap and the glyphs. */
  datatype Attempt = BeginFailed | RangeFailed | Packed(pixels: seq<bv8>, chars: seq<PackedChar>)

  const NumChars := 128
  const MinAtlas := 64
  const MaxAtlas := 2048

  /** The atlas sizes tried from `size` on: doubling while at most 2048. */
  function Sizes(size: nat): (r: seq<nat>)
    requires size >= 1
    ensures forall k :: 0 <= k < |r| ==> size <= r[k] <= MaxAtlas
    ensures forall j, k :: 0 <= j < k < |r| ==> r[j] < r[k]
    decreases if size <= MaxAtlas then MaxAtlas + 1 - size else 0
  {
    if size > MaxAtlas then [] else [size] + Sizes(size * 2)
  }

  lemma {:induction false} AtlasSizes()
    ensures Sizes(MinAtlas) == [64, 128, 256, 512, 1024, 2048]
  {
    assert Sizes(4096) == [];
    assert Sizes(2048) == [2048];
    assert Sizes(1024) == [1024, 2048];
    assert Sizes(512) == [512, 1024, 2048];
    assert Sizes(256) == [256, 512, 1024, 2048];
    assert Sizes(128) == [128, 256, 512, 1024, 2048];
  }

  /** The atlas loop from `size` on: stop at the first size whose
      `PackBegin` fails (exit 3) or whose pack succeeds; a failed range
      pack moves on to twice the size. The size the loop stopped at and
      its attempt; `RangeFailed` when every size failed. */
  function Search(pack: nat -> Attempt, size: nat): (r: (nat, Attempt))
    requires size >= 1
    ensures r.1.RangeFailed? <==> forall s :: s in Sizes(size) ==> pack(s).RangeFailed?
    ensures !r.1.RangeFailed? ==>
      && r.0 in Sizes(size) && r.1 == pack(r.0)
      && forall s :: s in Sizes(size) && s < r.0 ==> pack(s).RangeFailed?
    decreases if size <= MaxAtlas then MaxAtlas + 1 - size else 0
  {
    if size > MaxAtlas then (size, RangeFailed)
    else
      var rest := Sizes(size * 2);
      assert Sizes(size) == [size] + rest;
      match pack(size)
      case RangeFailed => Search(pack, size * 2)
      case other => (size, other)
  }

  /** A coverage value as a pixel: white, with the coverage as alpha. */
  function Pixel(p: bv8): (r: bv32)
    ensures r >> 24 == p as bv32 && r & 0xff_ffff == 0xff_ffff
  {
    ((p as bv32) << 24) | 0xff_ffff
  }

  /** The alpha of a pixel. */
  function Alpha(px: bv32): bv8 {
    (px >> 24) as bv8
  }

  /** A pixel keeps its coverage, and a white pixel is the pixel of its
      alpha. */
  lemma {:induction false} PixelAlpha(p: bv8, px: bv32)
    ensures Alpha(Pixel(p)) == p
    ensures px & 0xff_ffff == 0xff_ffff ==> Pixel(Alpha(px)) == px
    ensures Pixel(p) as int == p as int * 0x100_0000 + 0xff_ffff
  {
  }

  function Pixels32(pixels: seq<bv8>): (r: seq<bv32>)
    ensures |r| == |pixels| && forall k :: 0 <= k < |r| ==> r[k] == Pixel(pixels[k])
  {
    seq(|pixels|, k requires 0 <= k < |pixels| => Pixel(pixels[k]))
  }

  /** The header line, "CHAR,x0,y0,x1,y1,xoff,yoff,xoff2,yoff2,xadvance",
      as its comma-separated column names. */
  const HeaderNames: seq<string> := ["CHAR", "x0", "y0", "x1", "y1", "xoff", "yoff", "xoff2", "yoff2", "xadvance"]

  const Header: string := Join(',', HeaderNames)

  lemma {:induction false} HeaderShape()
    ensures Header != [] && '\n' !in Header
  {
    forall k | 0 <= k < |HeaderNames| ensures '\n' !in HeaderNames[k] {
    }
    JoinFree(',', HeaderNames, '\n');
  }

  /** The ten fields of row `i`: the code, then the glyph's nine numbers. */
  function Fields(i: int, c: PackedChar): (r: seq<string>)
    ensures |r| == 10
  {
    [ShowInt(i), ShowInt(c.x0), ShowInt(c.y0), ShowInt(c.x1), ShowInt(c.y1),
     ShowInt(c.xoff), ShowInt(c.yoff), ShowInt(c.xoff2), ShowInt(c.yoff2), ShowInt(c.xadvance)]
  }

  /** No field is empty or holds a comma or a line break. */
  lemma {:induction false} FieldsFree(i: int, c: PackedChar)
    ensures var f := Fields(i, c);
      forall k :: 0 <= k < 10 ==> ',' !in f[k] && '\n' !in f[k] && f[k] != []
  {
    var f := Fields(i, c);
    forall k | 0 <= k < 10
      ensures ',' !in f[k] && '\n' !in f[k] && f[k] != []
    {
      NoSeparators(f[k]);
    }
  }

  lemma {:induction false} NoSeparators(s: string)
    requires forall k :: 0 <= k < |s| ==> s[k] == '-' || IsDigit(s[k])
    ensures ',' !in s && '\n' !in s
  {
  }

  function RowLine(i: int, c: PackedChar): string {
    Join(',', Fields(i, c))
  }

  lemma {:induction false} RowLineShape(i: int, c: PackedChar)
    ensures RowLine(i, c) != [] && '\n' !in RowLine(i, c)
  {
    FieldsFree(i, c);
    JoinFree(',', Fields(i, c), '\n');
  }

  /** The rows, one per glyph, numbered from 0. */
  function RowLines(chars: seq<PackedChar>): (r: seq<string>)
    ensures |r| == |chars| && forall i :: 0 <= i < |r| ==> r[i] == RowLine(i, chars[i])
  {
    seq(|chars|, i requires 0 <= i < |chars| => RowLine(i, chars[i]))
  }

  /** The `.spritefont` text: the header line and one line per glyph, each
      ended by a line break. */
  function SpritefontText(chars: seq<PackedChar>): string {
    Terminated([Header] + RowLines(chars))
  }

  /** The glyph `load_font` makes of a packed character. */
  function AsFontChar(c: PackedChar): FontChar {
    FontChar(Vec2(c.x0, c.y0), Vec2(c.x1, c.y1), Vec2(c.xoff, c.yoff), Vec2(c.xoff2, c.yoff2), c.xadvance)
  }

  /** A written row reads back as its code and its glyph. */
  lemma {:induction false} RowReadBack(i: int, c: PackedChar)
    ensures GlyphCode(RowLine(i, c)) == i
    ensures FontRowChar(RowLine(i, c)) == AsFontChar(c)
  {
    var line := RowLine(i, c);
    var f := Fields(i, c);
    FieldsFree(i, c);
    CellsOfJoin(f);
    assert Cells(line, 10) == f;
    assert Cells(line, 1)[0] == Cells(line, 10)[0];
    FromChars_ShowInt(i);
    FromChars_ShowInt(c.x0);
    FromChars_ShowInt(c.y0);
    FromChars_ShowInt(c.x1);
    FromChars_ShowInt(c.y1);
    FromChars_ShowInt(c.xoff);
    FromChars_ShowInt(c.yoff);
    FromChars_ShowInt(c.xoff2);
    FromChars_ShowInt(c.yoff2);
    FromChars_ShowInt(c.xadvance);
  }

  /** Every line of the text is non-empty and free of line breaks. */
  lemma {:induction false} TextLinesShape(chars: seq<PackedChar>)
    ensures var ls := [Header] + RowLines(chars);
      forall k :: 0 <= k < |ls| ==> ls[k] != [] && '\n' !in ls[k]
  {
    var ls := [Header] + RowLines(chars);
    forall k | 0 <= k < |ls|
      ensures ls[k] != [] && '\n' !in ls[k]
    {
      if k > 0 {
        RowLineShape(k - 1, chars[k - 1]);
      } else {
        HeaderShape();
      }
    }
  }

  /** Read back line by line, the text is the header and the rows. */
  lemma {:induction false} SpritefontLines(chars: seq<PackedChar>)
    ensures Lines(SpritefontText(chars)) == [Header] + RowLines(chars)
    ensures Fed(Lines(SpritefontText(chars)), true) == RowLines(chars)
  {
    var ls := [Header] + RowLines(chars);
    TextLinesShape(chars);
    LinesOfTerminated(ls);
    assert ls[1..] == RowLines(chars);
  }

  /** The rows `load_font` should read: row `k` fills glyph `k`. */
  function Expected(chars: seq<PackedChar>): (r: seq<FontRow>)
    ensures |r| == |chars| && forall k :: 0 <= k < |r| ==> r[k] == FontRow(k, AsFontChar(chars[k]))
  {
    seq(|chars|, k requires 0 <= k < |chars| => FontRow(k, AsFontChar(chars[k])))
  }

  /** The rows read back from the text are the expected ones. */
  lemma {:induction false} SpritefontRows(chars: seq<PackedChar>)
    ensures ManifestRows(SpritefontText(chars)) == Expected(chars)
  {
    var rows := ManifestRows(SpritefontText(chars));
    SpritefontLines(chars);
    var lines := RowLines(chars);
    forall k | 0 <= k < |rows|
      ensures rows[k] == Expected(chars)[k]
    {
      ReadFontRowsAt(lines, k);
      RowReadBack(k, chars[k]);
    }
  }

  /** Rows numbered 0 to 127 in order name glyphs in range and load into
      the font whose glyph `i` is row `i`'s. */
  lemma {:induction false} FontOfNumberedRows(rows: seq<FontRow>)
    requires |rows| == NumChars
    requires forall k :: 0 <= k < |rows| ==> rows[k].code == k
    ensures CodesInRange(rows)
    ensures forall i :: 0 <= i < NumChars ==> ApplyFontRows(BlankGlyphs(), 0, rows).0[i] == rows[i].glyph
  {
    ApplyFontRowsNumbered(BlankGlyphs(), 0, rows);
  }

  /** What `packfont` writes, `load_font` reads back: glyph `i` of the font
      is the packer's character `i`. */
  lemma {:induction false} SpritefontRoundTrip(chars: seq<PackedChar>)
    requires |chars| == NumChars
    ensures GlyphsInRange(Some(SpritefontText(chars)))
    ensures forall i :: 0 <= i < NumChars ==> FontGlyphs(Some(SpritefontText(chars))).0[i] == AsFontChar(chars[i])
  {
    var text := SpritefontText(chars);
    var rows := Expected(chars);
    assert ManifestRows(text) == rows by { SpritefontRows(chars); }
    FontOfNumberedRows(rows);
    forall i | 0 <= i < NumChars
      ensures FontGlyphs(Some(text)).0[i] == AsFontChar(chars[i])
    {
      assert rows[i].glyph == AsFontChar(chars[i]);
    }
  }

  /** The written atlas: its side and its pixels. */
  datatype Image = Image(size: nat, pixels: seq<bv32>)

  /** The exit code and the two files written. */
  datatype Outcome = Outcome(code: int, png: Option<Image>, spritefont: Option<string>)

  /** Every successful pack reports all 128 characters. */
  ghost predicate PackReportsAll(pack: nat -> Attempt) {
    forall size :: pack(size).Packed? ==> |pack(size).chars| == NumChars
  }

  /** `main`. `pack` is what the packer gives for each atlas size with the
      settings and font at hand, and `pngWritten` whether `stbi_write_png`
      succeeds. */
  function Run(argv: seq<string>, ttf: Option<seq<bv8>>, ttc: Option<seq<bv8>>, pack: nat -> Attempt,
               pngWritten: bool): (r: Outcome)
    ensures r.code == 0 <==> (r.png.Some? && r.spritefont.Some?)
    ensures r.code == 1 <==> |argv| < 4
    ensures r.code == 2 <==> |argv| >= 4 && FontData(ttf, ttc) == []
    ensures r.code == 6 <==>
      (|argv| >= 4 && FontData(ttf, ttc) != [] && forall k :: 0 <= k < 6 ==> pack(Sizes(MinAtlas)[k]).RangeFailed?)
    ensures r.code in {0, 1, 2, 3, 5, 6}
    ensures r.code == 0 ==>
      && r.png.value.size in Sizes(MinAtlas)
      && var a := pack(r.png.value.size);
      && a.Packed? && r.png.value.pixels == Pixels32(a.pixels) && r.spritefont.value == SpritefontText(a.chars)
  {
    AtlasSizes();
    match ParseArgs(argv)
    case None => Outcome(1, None, None)
    case Some(settings) =>
      if FontData(ttf, ttc) == [] then Outcome(2, None, None)
      else
        var (size, attempt) := Search(pack, MinAtlas);
        match attempt
        case BeginFailed => Outcome(3, None, None)
        case RangeFailed => Outcome(6, None, None)
        case Packed(pixels, chars) =>
          if !pngWritten then Outcome(5, None, None)
          else Outcome(0, Some(Image(size, Pixels32(pixels))), Some(SpritefontText(chars)))
  }

  /** A successful run writes a manifest `load_font` reads back glyph for
      glyph. */
  lemma {:induction false} RunRoundTrip(argv: seq<string>, ttf: Option<seq<bv8>>, ttc: Option<seq<bv8>>, pack: nat -> Attempt,
                     pngWritten: bool)
    requires PackReportsAll(pack)
    ensures var r := Run(argv, ttf, ttc, pack, pngWritten);
      r.code == 0 ==>
        var chars := pack(r.png.value.size).chars;
        && GlyphsInRange(r.spritefont)
        && forall i :: 0 <= i < NumChars ==> FontGlyphs(r.spritefont).0[i] == AsFontChar(chars[i])
  {
    var r := Run(argv, ttf, ttc, pack, pngWritten);
    if r.code == 0 {
      SpritefontRoundTrip(pack(r.png.value.size).chars);
    }
  }

  /** An empty `.ttf` that opens hides a `.ttc` with data: exit code 2. */
  lemma {:induction false} EmptyTtfHidesTtc(argv: seq<string>, ttc: seq<bv8>, pack: nat -> Attempt, pngWritten: bool)
    requires |argv| >= 4 && ttc != []
    ensures Run(argv, Some([]), Some(ttc), pack, pngWritten).code == 2
  {
  }
}
