/** The texture and font caches of src/graphics/texture.h and the parser of
    the `key=value` glyph lines a font's `.txt` file holds. Objects the
    manager allocates are numbered in allocation order, so a cached `Texture*`
    is a handle into the list of allocated objects. */
module Textures {
  import opened Wrappers
  import opened Text
  import opened Numbers

  /** A texture object: the driver's name and the size it reported. */
  datatype Texture = Texture(name: int, width: int, height: int)

  /** One glyph: its code as a (signed) `char` and its rectangle in the
      font texture, by whole units. */
  datatype SpriteChar = SpriteChar(ch: int, left: int, top: int, width: int, height: int)

  /** The number of glyph slots of a `SpriteFont`. */
  const CharSlots := 256

  /** `new SpriteFont()` value-initialises every glyph to zeros. */
  const BlankChar := SpriteChar(0, 0, 0, 0, 0)

  /** A font: the handle of the texture it owns and its 256 glyphs. */
  datatype SpriteFont = SpriteFont(texture: nat, chars: seq<SpriteChar>)

  /** The keys of a glyph line with their `=`, in the order they are looked for. */
  const GlyphKeys: seq<string> := ["ch=", "code=", "l=", "t=", "w=", "h="]

  predicate KeysNonEmpty(keys: seq<string>) {
    forall i :: 0 <= i < |keys| ==> |keys[i]| > 0
  }

  /** `char` is signed: a code of 128 or more is stored as a negative value. */
  function SignedChar(code: int): (r: int)
    requires 0 <= code < CharSlots
    ensures -128 <= r < 128 && (r - code) % 256 == 0
  {
    if code < 128 then code else code - 256
  }

  /** The values the scan captures from key `j` on, where `rest` is the
      line from the scan position on: it looks for key `j` and stops when
      the key is not found. Searching the rest of the line is searching the
      line from the scan position. */
  function ScanFrom(keys: seq<string>, rest: string, j: nat): (r: seq<string>)
    requires j <= |keys| && KeysNonEmpty(keys)
    ensures |r| <= |keys| - j
    decreases |keys| - j, 1
  {
    if j == |keys| then []
    else
      match FindSubFrom(rest, keys[j], 0)
      case None => []
      case Some(start) => ScanValue(keys, rest[start + |keys[j]|..], j)
  }

  /** The value of key `j`, where `rest` is what follows the key: it runs
      to the next space, except for the last key, whose value runs to the
      end of the line. The scan stops when there is no space after the
      value, and goes on after the space otherwise. */
  function ScanValue(keys: seq<string>, rest: string, j: nat): (r: seq<string>)
    requires j < |keys| && KeysNonEmpty(keys)
    ensures |r| <= |keys| - j
    decreases |keys| - j, 0
  {
    if j == |keys| - 1 then [rest]
    else
      match Find(rest, ' ')
      case None => []
      case Some(end) => [rest[..end]] + ScanFrom(keys, rest[end + 1..], j + 1)
  }

  /** The six `values` of one line: what the scan captured, and "" for
      every key it did not reach. */
  function Values(line: string): (r: seq<string>)
    ensures |r| == |GlyphKeys|
  {
    var got := ScanFrom(GlyphKeys, line, 0);
    got + seq(|GlyphKeys| - |got|, _ => "")
  }

  /** What one line of the file holds: the slot its `code` names (`atoi`
      of the captured text, so 0 when none was captured) and its six values. */
  datatype GlyphRow = GlyphRow(code: int, values: seq<string>)

  function ReadRow(line: string): (r: GlyphRow)
    ensures |r.values| == |GlyphKeys|
  {
    var v := Values(line);
    GlyphRow(Atoi(v[1]), v)
  }

  /** The rows of a file, one per line. */
  function ReadRows(lines: seq<string>): (r: seq<GlyphRow>)
    ensures |r| == |lines|
  {
    if lines == [] then [] else ReadRows(lines[..|lines| - 1]) + [ReadRow(lines[|lines| - 1])]
  }

  lemma {:induction false} ReadRowsAt(lines: seq<string>, i: nat)
    requires i < |lines|
    ensures ReadRows(lines)[i] == ReadRow(lines[i])
  {
    if i < |lines| - 1 {
      ReadRowsAt(lines[..|lines| - 1], i);
    }
  }

  /** A row must name a slot of the 256-entry array. */
  predicate RowFits(row: GlyphRow) {
    0 <= row.code < CharSlots && |row.values| == |GlyphKeys|
  }

  predicate RowsFit(rows: seq<GlyphRow>) {
    forall i :: 0 <= i < |rows| ==> RowFits(rows[i])
  }

  /** Every line of a file reads as a row naming a slot of the array. */
  predicate LinesFit(lines: seq<string>) {
    forall k :: 0 <= k < |lines| ==> 0 <= ReadRow(lines[k]).code < CharSlots
  }

  lemma {:induction false} LinesFitRows(lines: seq<string>)
    requires LinesFit(lines)
    ensures RowsFit(ReadRows(lines))
  {
    forall i | 0 <= i < |lines|
      ensures RowFits(ReadRows(lines)[i])
    {
      ReadRowsAt(lines, i);
    }
  }

  predicate AllCSpace(s: string) {
    forall k :: 0 <= k < |s| ==> IsCSpace(s[k])
  }

  /** Stream extraction into a float field: text with nothing but white
      space leaves the field as it was; any other text stores its number,
      or 0 when it does not start with one. */
  function StreamRead(old_: int, text: string): (r: int)
    ensures AllCSpace(text) ==> r == old_
    ensures !AllCSpace(text) ==> r == Atoi(text)
  {
    if AllCSpace(text) then old_ else Atoi(text)
  }

  /** The glyph one line stores into slot `code`, over the glyph that was there. */
  function LineChar(prev: SpriteChar, code: int, values: seq<string>): SpriteChar
    requires 0 <= code < CharSlots && |values| == |GlyphKeys|
  {
    SpriteChar(SignedChar(code), StreamRead(prev.left, values[2]), StreamRead(prev.top, values[3]),
               StreamRead(prev.width, values[4]), StreamRead(prev.height, values[5]))
  }

  /** One line of `loadFontChars`: it rewrites the slot its code names and no other. */
  function ApplyRow(chars: seq<SpriteChar>, row: GlyphRow): (r: seq<SpriteChar>)
    requires |chars| == CharSlots && RowFits(row)
    ensures |r| == CharSlots
    ensures r[row.code].ch == SignedChar(row.code)
    ensures r[row.code] == LineChar(chars[row.code], row.code, row.values)
  {
    chars[row.code := LineChar(chars[row.code], row.code, row.values)]
  }

  /** A line leaves every slot but the one its code names as it was. */
  lemma {:induction false} ApplyRowOthers(chars: seq<SpriteChar>, row: GlyphRow, k: nat)
    requires |chars| == CharSlots && RowFits(row) && k < CharSlots && k != row.code
    ensures ApplyRow(chars, row)[k] == chars[k]
  {
  }

  /** The glyphs after the first `n` rows. */
  function ApplyRows(chars: seq<SpriteChar>, rows: seq<GlyphRow>, n: nat): (r: seq<SpriteChar>)
    requires |chars| == CharSlots && n <= |rows| && RowsFit(rows)
    ensures |r| == CharSlots
  {
    if n == 0 then chars else ApplyRow(ApplyRows(chars, rows, n - 1), rows[n - 1])
  }

  /** `loadFontChars` over the lines of the file (src/graphics/texture.h:124-170). */
  method LoadFontChars(lines: seq<string>, chars: seq<SpriteChar>) returns (r: seq<SpriteChar>)
    requires |chars| == CharSlots && LinesFit(lines)
    ensures (LinesFitRows(lines); r == ApplyRows(chars, ReadRows(lines), |lines|))
  {
    LinesFitRows(lines);
    r := ApplyAll(chars, ReadRows(lines));
  }

  /** The loop of `loadFontChars`, one read line after the other. */
  method ApplyAll(chars: seq<SpriteChar>, rows: seq<GlyphRow>) returns (r: seq<SpriteChar>)
    requires |chars| == CharSlots && RowsFit(rows)
    ensures r == ApplyRows(chars, rows, |rows|)
  {
    r := chars;
    var i := 0;
    while i < |rows|
      invariant 0 <= i <= |rows| && r == ApplyRows(chars, rows, i)
    {
      r := ApplyRow(r, rows[i]);
      i := i + 1;
    }
  }

  /** A slot no row names keeps the glyph it had. */
  lemma {:induction false} ApplyRowsUntouched(chars: seq<SpriteChar>, rows: seq<GlyphRow>, n: nat, k: nat)
    requires |chars| == CharSlots && n <= |rows| && RowsFit(rows) && k < CharSlots
    requires forall i :: 0 <= i < n ==> rows[i].code != k
    ensures ApplyRows(chars, rows, n)[k] == chars[k]
  {
    if n > 0 {
      ApplyRowsUntouched(chars, rows, n - 1, k);
      ApplyRowOthers(ApplyRows(chars, rows, n - 1), rows[n - 1], k);
    }
  }

  /** A slot holds what the last row naming it wrote there. */
  lemma {:induction false} ApplyRowsLastWins(chars: seq<SpriteChar>, rows: seq<GlyphRow>, n: nat, i: nat)
    requires |chars| == CharSlots && i < n <= |rows| && RowsFit(rows)
    requires forall m :: i < m < n ==> rows[m].code != rows[i].code
    ensures ApplyRows(chars, rows, n)[rows[i].code]
         == LineChar(ApplyRows(chars, rows, i)[rows[i].code], rows[i].code, rows[i].values)
  {
    if n > i + 1 {
      ApplyRowsLastWins(chars, rows, n - 1, i);
      ApplyRowOthers(ApplyRows(chars, rows, n - 1), rows[n - 1], rows[i].code);
    }
  }

  /** A rest that starts with key `j` scans as the value right after the key. */
  lemma {:induction false} ScanKeyStep(keys: seq<string>, j: nat, t: string)
    requires KeysNonEmpty(keys) && j < |keys|
    ensures ScanFrom(keys, keys[j] + t, j) == ScanValue(keys, t, j)
  {
    var s := keys[j] + t;
    assert s[0..|keys[j]|] == keys[j];
    assert FindSubFrom(s, keys[j], 0) == Some(0);
    assert s[|keys[j]|..] == t;
  }

  /** A value (not the last) without a space, followed by a space, is
      captured whole, and the scan goes on after the space. */
  lemma {:induction false} ScanValueStep(keys: seq<string>, j: nat, v: string, t: string)
    requires KeysNonEmpty(keys) && j < |keys| - 1 && ' ' !in v
    ensures ScanValue(keys, v + " " + t, j) == [v] + ScanFrom(keys, t, j + 1)
  {
    var s := v + " " + t;
    forall k | 0 <= k < |v| ensures s[k] != ' ' {
      assert s[k] == v[k];
    }
    FindAt(s, ' ', |v|);
    assert s[..|v|] == v && s[|v| + 1..] == t;
  }

  /** What follows key `j` in a line written as the values from `j` on,
      each but the last followed by a space and the next key. */
  function Tail(keys: seq<string>, values: seq<string>, j: nat): string
    requires |values| == |keys| && j < |keys|
    decreases |keys| - j
  {
    if j == |keys| - 1 then values[j]
    else values[j] + " " + (keys[j + 1] + Tail(keys, values, j + 1))
  }

  /** Scanning a line written from key `j` on gives back the values from
      `j` on, as long as none but the last holds a space. */
  lemma {:induction false} ScanWritten(keys: seq<string>, values: seq<string>, j: nat)
    requires KeysNonEmpty(keys) && |values| == |keys| && j < |keys|
    requires forall k :: 0 <= k < |keys| - 1 ==> ' ' !in values[k]
    ensures ScanFrom(keys, keys[j] + Tail(keys, values, j), j) == values[j..]
    decreases |keys| - j
  {
    var t := Tail(keys, values, j);
    ScanKeyStep(keys, j, t);
    if j == |keys| - 1 {
      assert values[j..] == [values[j]];
    } else {
      var next := keys[j + 1] + Tail(keys, values, j + 1);
      assert t == values[j] + " " + next;
      ScanValueStep(keys, j, values[j], next);
      ScanWritten(keys, values, j + 1);
      assert values[j..] == [values[j]] + values[j + 1..];
    }
  }

  /** A glyph line as the font tool writes it:
      `ch=.. code=.. l=.. t=.. w=.. h=..`. */
  function GlyphLine(values: seq<string>): string
    requires |values| == |GlyphKeys|
  {
    GlyphKeys[0] + Tail(GlyphKeys, values, 0)
  }

  /** Reading back a written glyph line recovers its six values, as long as
      none but the last holds a space. */
  lemma {:induction false} ValuesOfGlyphLine(values: seq<string>)
    requires |values| == |GlyphKeys|
    requires forall k :: 0 <= k < |GlyphKeys| - 1 ==> ' ' !in values[k]
    ensures Values(GlyphLine(values)) == values
  {
    ScanWritten(GlyphKeys, values, 0);
    assert values[0..] == values;
  }

  /** A key that occurs nowhere in a string occurs nowhere in its suffixes. */
  lemma {:induction false} AbsentFromSuffix(s: string, key: string, d: nat)
    requires d <= |s| && forall k: nat :: !OccursAt(s, key, k)
    ensures forall k: nat :: !OccursAt(s[d..], key, k)
  {
    forall k: nat | OccursAt(s[d..], key, k) ensures false {
      assert s[d + k..d + k + |key|] == s[d..][k..k + |key|];
      assert OccursAt(s, key, d + k);
    }
  }

  /** The scan stops at a key that does not occur: nothing from that key
      on is captured. */
  lemma {:induction false} ScanStops(keys: seq<string>, rest: string, i: nat, j: nat)
    requires KeysNonEmpty(keys) && i <= j < |keys|
    requires forall k: nat :: !OccursAt(rest, keys[j], k)
    ensures |ScanFrom(keys, rest, i)| <= j - i
    decreases j - i
  {
    if i == j {
      FindSubFromSpec(rest, keys[i], 0);
      assert FindSubFrom(rest, keys[i], 0).None?;
    } else {
      match FindSubFrom(rest, keys[i], 0)
      case None =>
      case Some(start) =>
        var after := rest[start + |keys[i]|..];
        AbsentFromSuffix(rest, keys[j], start + |keys[i]|);
        match Find(after, ' ')
        case None =>
        case Some(end) =>
          AbsentFromSuffix(after, keys[j], end + 1);
          ScanStops(keys, after[end + 1..], i + 1, j);
    }
  }

  /** A line without `code=` is read as code 0, so it overwrites slot 0. */
  lemma {:induction false} NoCodeWritesSlotZero(line: string)
    requires forall k: nat :: !OccursAt(line, GlyphKeys[1], k)
    ensures Values(line)[1] == "" && ReadRow(line).code == 0
  {
    ScanStops(GlyphKeys, line, 0, 1);
  }

  /** The manager's caches. `textures` and `fonts` map a name to the handle
      of the object loaded for it; `heap` and `fontHeap` hold every texture
      and font allocated so far, a font's own texture included. */
  datatype Manager = Manager(textures: map<string, nat>, fonts: map<string, nat>,
                             heap: seq<Texture>, fontHeap: seq<SpriteFont>)

  /** Every cached handle names an allocated object. */
  predicate CacheValid(m: Manager) {
    && (forall n :: n in m.textures ==> m.textures[n] < |m.heap|)
    && (forall n :: n in m.fonts ==> m.fonts[n] < |m.fontHeap|)
    && (forall i :: 0 <= i < |m.fontHeap| ==> m.fontHeap[i].texture < |m.heap| && |m.fontHeap[i].chars| == CharSlots)
  }

  /** `getTexture`: a name seen before returns its cached texture and
      changes nothing; a new name allocates the texture the driver loaded
      (`loaded`) and caches it (src/graphics/texture.h:80-98). */
  function GetTexture(m: Manager, fname: string, loaded: Texture): (r: (Manager, nat))
    requires CacheValid(m)
    ensures CacheValid(r.0)
    ensures fname in m.textures ==> r == (m, m.textures[fname])
    ensures fname !in m.textures ==>
      && r.1 == |m.heap| && r.0.heap == m.heap + [loaded]
      && r.0.textures == m.textures[fname := r.1]
      && r.0.fonts == m.fonts && r.0.fontHeap == m.fontHeap
    ensures r.0.textures[fname] == r.1 && r.0.heap[r.1] == (if fname in m.textures then m.heap[m.textures[fname]] else loaded)
  {
    if fname in m.textures then (m, m.textures[fname])
    else
      var h := |m.heap|;
      (m.(textures := m.textures[fname := h], heap := m.heap + [loaded]), h)
  }

  /** The caching half of `getFont`: a name seen before returns its cached
      font and changes nothing; a new name allocates the font's texture and
      the font holding `chars`, and caches the font. */
  function CacheFont(m: Manager, fname: string, loaded: Texture, chars: seq<SpriteChar>): (r: (Manager, nat))
    requires CacheValid(m) && |chars| == CharSlots
    ensures CacheValid(r.0)
    ensures fname in m.fonts ==> r == (m, m.fonts[fname])
    ensures fname !in m.fonts ==>
      && r.1 == |m.fontHeap| && r.0.fonts == m.fonts[fname := r.1]
      && r.0.heap == m.heap + [loaded] && r.0.textures == m.textures
      && r.0.fontHeap == m.fontHeap + [SpriteFont(|m.heap|, chars)]
    ensures r.0.fonts[fname] == r.1
  {
    if fname in m.fonts then (m, m.fonts[fname])
    else
      var h := |m.fontHeap|;
      (m.(fonts := m.fonts[fname := h], heap := m.heap + [loaded],
          fontHeap := m.fontHeap + [SpriteFont(|m.heap|, chars)]), h)
  }

  /** The 256 value-initialised glyphs of a new font. */
  const BlankChars: seq<SpriteChar> := seq(CharSlots, _ => BlankChar)

  /** `getFont`: a name seen before returns its cached font; a new name
      gets a texture and the glyphs its lines describe, read into a blank
      font (src/graphics/texture.h:171-192). */
  method GetFont(m: Manager, fname: string, loaded: Texture, lines: seq<string>) returns (r: Manager, font: nat)
    requires CacheValid(m) && LinesFit(lines)
    ensures (LinesFitRows(lines); (r, font) == CacheFont(m, fname, loaded, ApplyRows(BlankChars, ReadRows(lines), |lines|)))
  {
    if fname in m.fonts {
      return m, m.fonts[fname];
    }
    var chars := LoadFontChars(lines, BlankChars);
    r, font := CacheFont(m, fname, loaded, chars).0, |m.fontHeap|;
  }

  /** Asking twice for the same font hands back the same font, and the
      second request reads nothing. */
  lemma {:induction false} CacheFontTwice(m: Manager, fname: string, t1: Texture, c1: seq<SpriteChar>, t2: Texture, c2: seq<SpriteChar>)
    requires CacheValid(m) && |c1| == CharSlots && |c2| == CharSlots
    ensures var (m1, f1) := CacheFont(m, fname, t1, c1);
      var (m2, f2) := CacheFont(m1, fname, t2, c2);
      f2 == f1 && m2 == m1
      && m2.fontHeap[f2] == (if fname in m.fonts then m.fontHeap[m.fonts[fname]] else SpriteFont(|m.heap|, c1))
  {
  }

  /** Asking twice for the same texture hands back the same handle, and the
      second request neither loads nor changes anything: whatever the driver
      would load the second time is ignored. */
  lemma {:induction false} GetTextureTwice(m: Manager, fname: string, t1: Texture, t2: Texture)
    requires CacheValid(m)
    ensures var (m1, h1) := GetTexture(m, fname, t1);
      var (m2, h2) := GetTexture(m1, fname, t2);
      h2 == h1 && m2 == m1
      && m2.heap[h2] == (if fname in m.textures then m.heap[m.textures[fname]] else t1)
  {
  }

  /** Loading a texture never changes what an earlier handle names. */
  lemma {:induction false} GetTextureKeepsHandles(m: Manager, fname: string, loaded: Texture, h: nat)
    requires CacheValid(m) && h < |m.heap|
    ensures GetTexture(m, fname, loaded).0.heap[h] == m.heap[h]
  {
  }
}
