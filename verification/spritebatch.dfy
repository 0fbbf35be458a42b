/** The quad batcher `Sprite` of src/graphics/sprite.h: fixed arrays for
    1024 quads that `addSprite` fills slot by slot without any capacity
    check, `begin`/`end` around each batch, and `drawText`, which lays out
    a string in a `SpriteFont`. The GPU upload `end` performs is recorded
    as a `Draw`; shaders are numbered handles. */
module SpriteBatch {
  import opened Wrappers
  import opened Vectors
  import opened Textures

  /** The fixed capacity of the arrays, in quads. */
  const MaxQuads := 1024

  /** One `end`: the texture and shader of the batch and its first `quads`
      quads, as uploaded. */
  datatype Draw = Draw(texture: int, shader: nat, quads: nat, vertices: seq<V2>, texcoords: seq<V2>,
                       colours: seq<V4>, indices: seq<int>)

  /** The batcher. `current` is `None` until the first `begin`. */
  datatype Batch = Batch(defaultShader: nat, fontShader: nat,
                         vertices: seq<V2>, colours: seq<V4>, texcoords: seq<V2>, indices: seq<int>,
                         numQuads: nat, texture: int, current: Option<nat>, draws: seq<Draw>)

  /** The arrays hold `MaxQuads` quads, of which the first `numQuads` are filled. */
  predicate Sized(b: Batch) {
    && b.numQuads <= MaxQuads
    && |b.vertices| == 4 * MaxQuads && |b.colours| == 4 * MaxQuads
    && |b.texcoords| == 4 * MaxQuads && |b.indices| == 6 * MaxQuads
  }

  /** The constructor: the two shaders the shader manager hands out, empty
      arrays (zeros here; the source leaves them uninitialised) and no
      current shader. */
  function Create(defaultShader: nat, fontShader: nat): (r: Batch)
    ensures Sized(r) && r.numQuads == 0 && r.current.None? && r.draws == []
    ensures r.defaultShader == defaultShader && r.fontShader == fontShader
  {
    Batch(defaultShader, fontShader,
          seq(4 * MaxQuads, _ => V2(0.0, 0.0)), seq(4 * MaxQuads, _ => V4(0.0, 0.0, 0.0, 0.0)),
          seq(4 * MaxQuads, _ => V2(0.0, 0.0)), seq(6 * MaxQuads, _ => 0), 0, 0, None, [])
  }

  /** `begin`: an empty batch with the texture and the given shader, or the
      default shader when none is given. */
  function Begin(b: Batch, tex: int, shader: Option<nat>): (r: Batch)
    ensures r.numQuads == 0 && r.texture == tex && r.current.Some?
    ensures shader.Some? ==> r.current == shader
    ensures shader.None? ==> r.current == Some(b.defaultShader)
    ensures r == b.(numQuads := 0, texture := tex, current := r.current)
  {
    b.(numQuads := 0, texture := tex, current := Some(shader.GetOr(b.defaultShader)))
  }

  /** The four corners of a quad at `pos` of size `size`. */
  function Corners(pos: V2, size: V2): seq<V2> {
    [pos, V2(pos.x + size.x, pos.y), V2(pos.x, pos.y + size.y), Plus(pos, size)]
  }

  /** The four texcoords of a quad spanning `tmin` to `tmax`. */
  function TexCorners(tmin: V2, tmax: V2): seq<V2> {
    [tmin, V2(tmax.x, tmin.y), V2(tmin.x, tmax.y), tmax]
  }

  /** The six indices of quad `q`: two triangles over its four vertices. */
  function QuadIndices(q: nat): seq<int> {
    [4 * q, 4 * q + 1, 4 * q + 2, 4 * q + 1, 4 * q + 3, 4 * q + 2]
  }

  /** The `w` entries of slot `q` of an array with `w` entries per quad. */
  function Slot<T>(a: seq<T>, q: nat, w: nat): seq<T>
    requires w * q + w <= |a|
  {
    a[w * q..w * q + w]
  }

  /** `addSprite`: fills slot `numQuads` and counts it. Nothing checks the
      capacity, so a free slot is the caller's obligation. */
  function AddSprite(b: Batch, pos: V2, size: V2, col: V4, tmin: V2, tmax: V2): (r: Batch)
    requires Sized(b) && b.numQuads < MaxQuads
    ensures Sized(r) && r.numQuads == b.numQuads + 1
    ensures var q := b.numQuads;
      && Slot(r.vertices, q, 4) == [pos, V2(pos.x + size.x, pos.y), V2(pos.x, pos.y + size.y), V2(pos.x + size.x, pos.y + size.y)]
      && Slot(r.texcoords, q, 4) == [V2(tmin.x, tmin.y), V2(tmax.x, tmin.y), V2(tmin.x, tmax.y), V2(tmax.x, tmax.y)]
      && Slot(r.colours, q, 4) == [col, col, col, col]
      && Slot(r.indices, q, 6) == [4 * q, 4 * q + 1, 4 * q + 2, 4 * q + 1, 4 * q + 3, 4 * q + 2]
    ensures r == b.(vertices := r.vertices, texcoords := r.texcoords, colours := r.colours,
                    indices := r.indices, numQuads := r.numQuads)
    ensures Filled(r, b.numQuads) == Filled(b, b.numQuads)
  {
    var q := b.numQuads;
    var r := b.(vertices := Put(b.vertices, 4 * q, Corners(pos, size)),
                texcoords := Put(b.texcoords, 4 * q, TexCorners(tmin, tmax)),
                colours := Put(b.colours, 4 * q, [col, col, col, col]),
                indices := Put(b.indices, 6 * q, QuadIndices(q)),
                numQuads := q + 1);
    assert Slot(r.vertices, q, 4) == Corners(pos, size);
    assert Slot(r.texcoords, q, 4) == TexCorners(tmin, tmax);
    assert Slot(r.colours, q, 4) == [col, col, col, col];
    assert Slot(r.indices, q, 6) == QuadIndices(q);
    assert r.vertices[..4 * q] == b.vertices[..4 * q];
    assert r.texcoords[..4 * q] == b.texcoords[..4 * q];
    assert r.colours[..4 * q] == b.colours[..4 * q];
    assert r.indices[..6 * q] == b.indices[..6 * q];
    r
  }

  /** `addSprite` changes no entry outside slot `numQuads`. */
  lemma {:induction false} AddSpriteFrame(b: Batch, pos: V2, size: V2, col: V4, tmin: V2, tmax: V2)
    requires Sized(b) && b.numQuads < MaxQuads
    ensures var r := AddSprite(b, pos, size, col, tmin, tmax);
      forall k :: 0 <= k < 4 * MaxQuads && !(4 * b.numQuads <= k < 4 * b.numQuads + 4) ==>
        r.vertices[k] == b.vertices[k] && r.texcoords[k] == b.texcoords[k] && r.colours[k] == b.colours[k]
    ensures var r := AddSprite(b, pos, size, col, tmin, tmax);
      forall k :: 0 <= k < 6 * MaxQuads && !(6 * b.numQuads <= k < 6 * b.numQuads + 6) ==>
        r.indices[k] == b.indices[k]
  {
  }

  /** The filled part of the index array refers only to filled vertices. */
  predicate IndicesFilled(b: Batch) {
    Sized(b) && forall k :: 0 <= k < 6 * b.numQuads ==> 0 <= b.indices[k] < 4 * b.numQuads
  }

  /** `addSprite` keeps every filled index pointing at a filled vertex. */
  lemma {:induction false} AddSpriteKeepsIndicesFilled(b: Batch, pos: V2, size: V2, col: V4, tmin: V2, tmax: V2)
    requires IndicesFilled(b) && b.numQuads < MaxQuads
    ensures IndicesFilled(AddSprite(b, pos, size, col, tmin, tmax))
  {
    var r := AddSprite(b, pos, size, col, tmin, tmax);
    var q := b.numQuads;
    forall k | 0 <= k < 6 * r.numQuads
      ensures 0 <= r.indices[k] < 4 * r.numQuads
    {
      if k >= 6 * q {
        assert r.indices[k] == Slot(r.indices, q, 6)[k - 6 * q];
      }
    }
  }

  /** `end`: draws the filled part of the arrays with the current texture
      and shader. */
  function End(b: Batch): (r: Batch)
    requires Sized(b) && b.current.Some?
    ensures r == b.(draws := b.draws + [Draw(b.texture, b.current.value, b.numQuads,
                                            b.vertices[..4 * b.numQuads], b.texcoords[..4 * b.numQuads],
                                            b.colours[..4 * b.numQuads], b.indices[..6 * b.numQuads])])
  {
    var n := b.numQuads;
    b.(draws := b.draws + [Draw(b.texture, b.current.value, n, b.vertices[..4 * n], b.texcoords[..4 * n],
                                b.colours[..4 * n], b.indices[..6 * n])])
  }

  /** One quad of text: where it goes, its size, and its texture rectangle. */
  datatype Quad = Quad(pos: V2, size: V2, tmin: V2, tmax: V2)

  /** The characters `drawText` draws a glyph for: codes 32 to 126, less the
      space, which only moves the cursor. A `char` above 127 is negative,
      so it is below 32 and skipped. */
  predicate IsGlyph(c: char) {
    33 <= c as int <= 126
  }

  function GlyphCount(text: string): (n: nat)
    ensures n <= |text|
  {
    if text == [] then 0 else (if IsGlyph(text[0]) then 1 else 0) + GlyphCount(text[1..])
  }

  /** The glyph `a`, whose width spaces the text and whose height spaces the lines. */
  const Spacer := 'a' as int

  /** The quad of glyph `ch` at `at`: its size scaled, and its rectangle as
      fractions of the texture, flipped vertically. */
  function GlyphQuad(ch: SpriteChar, tex: Texture, at: V2, scale: V2): Quad
    requires tex.width != 0 && tex.height != 0
  {
    var w := tex.width as real;
    var h := tex.height as real;
    Quad(at, Times(V2(ch.width as real, ch.height as real), scale),
         V2(ch.left as real / w, 1.0 - (ch.top + ch.height) as real / h),
         V2((ch.left + ch.width) as real / w, 1.0 - ch.top as real / h))
  }

  /** A font `drawText` can read: 256 glyphs and a texture of non-zero size. */
  predicate Readable(chars: seq<SpriteChar>, tex: Texture) {
    |chars| == CharSlots && tex.width != 0 && tex.height != 0
  }

  /** One character of `drawText` with the cursor at `cursor`: the next
      cursor and the quad, if any. Quads are placed at `origin + cursor *
      scale`, and a line break returns the cursor's x to `home`. */
  function TextStep(chars: seq<SpriteChar>, tex: Texture, origin: V2, home: real, scale: V2, cursor: V2, c: char)
    : (r: (V2, Option<Quad>))
    requires Readable(chars, tex)
    ensures r.1.Some? <==> IsGlyph(c)
    ensures c == ' ' ==> r.0 == V2(cursor.x + chars[Spacer].width as real, cursor.y)
    ensures c == '\t' ==> r.0 == V2(cursor.x + 4.0 * chars[Spacer].width as real, cursor.y)
    ensures c == '\n' ==> r.0 == V2(home, cursor.y - chars[Spacer].height as real)
    ensures !IsGlyph(c) && c != ' ' && c != '\t' && c != '\n' ==> r.0 == cursor
    ensures IsGlyph(c) ==>
      && r.0 == V2(cursor.x + chars[c as int].width as real, cursor.y)
      && r.1.value.pos == Plus(origin, Times(cursor, scale))
      && r.1.value.size == V2(chars[c as int].width as real * scale.x, chars[c as int].height as real * scale.y)
  {
    var a := chars[Spacer];
    if c == ' ' then (V2(cursor.x + a.width as real, cursor.y), None)
    else if c == '\t' then (V2(cursor.x + a.width as real * 4.0, cursor.y), None)
    else if c == '\n' then (V2(home, cursor.y - a.height as real), None)
    else if c as int < 32 || c as int > 126 then (cursor, None)
    else
      var ch := chars[c as int];
      (V2(cursor.x + ch.width as real, cursor.y), Some(GlyphQuad(ch, tex, Plus(origin, Times(cursor, scale)), scale)))
  }

  /** The quads of `text` laid out from `cursor` on, in order. */
  function Layout(chars: seq<SpriteChar>, tex: Texture, origin: V2, home: real, scale: V2, cursor: V2, text: string)
    : (r: seq<Quad>)
    requires Readable(chars, tex)
    ensures |r| == GlyphCount(text)
    decreases |text|
  {
    if text == [] then []
    else
      var (next, quad) := TextStep(chars, tex, origin, home, scale, cursor, text[0]);
      var rest := Layout(chars, tex, origin, home, scale, next, text[1..]);
      if quad.Some? then [quad.value] + rest else rest
  }

  /** Moving the cursor and the line start by `d` moves every quad by
      `d * scale` and changes nothing else about it. */
  lemma {:induction false} LayoutShift(chars: seq<SpriteChar>, tex: Texture, origin: V2, home: real, scale: V2,
                                       cursor: V2, d: V2, text: string)
    requires Readable(chars, tex)
    ensures var a := Layout(chars, tex, origin, home, scale, cursor, text);
      var b := Layout(chars, tex, origin, home + d.x, scale, Plus(cursor, d), text);
      |a| == |b| && forall i :: 0 <= i < |a| ==> b[i] == a[i].(pos := Plus(a[i].pos, Times(d, scale)))
    decreases |text|
  {
    if text != [] {
      var c := text[0];
      var (n1, q1) := TextStep(chars, tex, origin, home, scale, cursor, c);
      var (n2, q2) := TextStep(chars, tex, origin, home + d.x, scale, Plus(cursor, d), c);
      if c == '\n' {
        assert n2 == V2(n1.x + d.x, n1.y + d.y);
      }
      assert n2 == Plus(n1, d);
      if IsGlyph(c) {
        assert q2.value == q1.value.(pos := Plus(q1.value.pos, Times(d, scale)));
      }
      LayoutShift(chars, tex, origin, home, scale, n1, d, text[1..]);
    }
  }

  /** The quads `drawText` as written computes: the cursor starts at `pos`
      and line breaks return it to `pos.x`, but each quad is then placed at
      `pos + cursor * scale`, which counts `pos` twice. */
  function TextQuadsAsWritten(chars: seq<SpriteChar>, tex: Texture, pos: V2, scale: V2, text: string): (r: seq<Quad>)
    requires Readable(chars, tex)
    ensures |r| == GlyphCount(text)
  {
    Layout(chars, tex, pos, pos.x, scale, pos, text)
  }

  /** The quads as intended: the cursor is relative to `pos`, starting at
      the origin and returning to x = 0 at a line break. */
  function TextQuads(chars: seq<SpriteChar>, tex: Texture, pos: V2, scale: V2, text: string): (r: seq<Quad>)
    requires Readable(chars, tex)
    ensures |r| == GlyphCount(text)
  {
    Layout(chars, tex, pos, 0.0, scale, V2(0.0, 0.0), text)
  }

  /** Every quad as written lies `pos * scale` away from where it is meant
      to be. */
  lemma {:induction false} AsWrittenOffsetByPos(chars: seq<SpriteChar>, tex: Texture, pos: V2, scale: V2, text: string)
    requires Readable(chars, tex)
    ensures var w := TextQuadsAsWritten(chars, tex, pos, scale, text);
      var m := TextQuads(chars, tex, pos, scale, text);
      forall i :: 0 <= i < |m| ==> w[i] == m[i].(pos := Plus(m[i].pos, Times(pos, scale)))
  {
    LayoutShift(chars, tex, pos, 0.0, scale, V2(0.0, 0.0), pos, text);
    assert Plus(V2(0.0, 0.0), pos) == pos;
  }

  /** The text starting at `pos` = (10, 0) at scale 1 with a glyph: as
      written its first quad is drawn at (20, 0). */
  lemma {:induction false} AsWrittenFirstGlyphMisplaced(chars: seq<SpriteChar>, tex: Texture, text: string)
    requires Readable(chars, tex) && |text| > 0 && IsGlyph(text[0])
    ensures GlyphCount(text) > 0
    ensures TextQuadsAsWritten(chars, tex, V2(10.0, 0.0), V2(1.0, 1.0), text)[0].pos == V2(20.0, 0.0)
    ensures TextQuads(chars, tex, V2(10.0, 0.0), V2(1.0, 1.0), text)[0].pos == V2(10.0, 0.0)
  {
    var pos := V2(10.0, 0.0);
    var one := V2(1.0, 1.0);
    FirstGlyphAtPos(chars, tex, pos, one, text);
    AsWrittenOffsetByPos(chars, tex, pos, one, text);
    assert Plus(pos, Times(pos, one)) == V2(20.0, 0.0);
  }

  /** As intended, a text that starts with a glyph draws it exactly at
      `pos`, whatever the scale. */
  lemma {:induction false} FirstGlyphAtPos(chars: seq<SpriteChar>, tex: Texture, pos: V2, scale: V2, text: string)
    requires Readable(chars, tex) && |text| > 0 && IsGlyph(text[0])
    ensures GlyphCount(text) > 0
    ensures TextQuads(chars, tex, pos, scale, text)[0].pos == pos
  {
    var m := TextStep(chars, tex, pos, 0.0, scale, V2(0.0, 0.0), text[0]);
    assert TextQuads(chars, tex, pos, scale, text)[0] == m.1.value;
  }

  /** The quads added one by one with `addSprite`, in white. */
  function AddQuads(b: Batch, quads: seq<Quad>): (r: Batch)
    requires Sized(b) && b.numQuads + |quads| <= MaxQuads
    ensures Sized(r) && r.numQuads == b.numQuads + |quads|
    ensures r.texture == b.texture && r.current == b.current && r.draws == b.draws
    ensures r.defaultShader == b.defaultShader && r.fontShader == b.fontShader
    ensures Filled(r, b.numQuads) == Filled(b, b.numQuads)
    decreases |quads|
  {
    if quads == [] then b
    else
      var q := quads[0];
      var b1 := AddSprite(b, q.pos, q.size, White, q.tmin, q.tmax);
      var r := AddQuads(b1, quads[1..]);
      FilledPrefix(r, b1, b.numQuads);
      r
  }

  /** The arrays' first `n` quads. */
  function Filled(b: Batch, n: nat): (seq<V2>, seq<V2>, seq<V4>, seq<int>)
    requires Sized(b) && n <= MaxQuads
  {
    (b.vertices[..4 * n], b.texcoords[..4 * n], b.colours[..4 * n], b.indices[..6 * n])
  }

  lemma {:induction false} FilledPrefix(r: Batch, b: Batch, n: nat)
    requires Sized(r) && Sized(b) && n < b.numQuads <= MaxQuads
    requires Filled(r, b.numQuads) == Filled(b, b.numQuads)
    ensures Filled(r, n) == Filled(b, n)
  {
    assert r.vertices[..4 * n] == r.vertices[..4 * b.numQuads][..4 * n];
    assert b.vertices[..4 * n] == b.vertices[..4 * b.numQuads][..4 * n];
    assert r.texcoords[..4 * n] == r.texcoords[..4 * b.numQuads][..4 * n];
    assert b.texcoords[..4 * n] == b.texcoords[..4 * b.numQuads][..4 * n];
    assert r.colours[..4 * n] == r.colours[..4 * b.numQuads][..4 * n];
    assert b.colours[..4 * n] == b.colours[..4 * b.numQuads][..4 * n];
    assert r.indices[..6 * n] == r.indices[..6 * b.numQuads][..6 * n];
    assert b.indices[..6 * n] == b.indices[..6 * b.numQuads][..6 * n];
  }

  /** What `addSprite` wrote into slot `q`, for the quad `quad`. */
  predicate Holds(b: Batch, q: nat, quad: Quad)
    requires Sized(b) && q < MaxQuads
  {
    && Slot(b.vertices, q, 4) == Corners(quad.pos, quad.size)
    && Slot(b.texcoords, q, 4) == TexCorners(quad.tmin, quad.tmax)
    && Slot(b.colours, q, 4) == [White, White, White, White]
    && Slot(b.indices, q, 6) == QuadIndices(q)
  }

  /** A slot below `n` holds the same in two batches whose first `n` quads agree. */
  lemma {:induction false} HoldsKept(r: Batch, b: Batch, n: nat, q: nat, quad: Quad)
    requires Sized(r) && Sized(b) && q < n <= MaxQuads && Filled(r, n) == Filled(b, n)
    requires Holds(b, q, quad)
    ensures Holds(r, q, quad)
  {
    assert Slot(r.vertices, q, 4) == r.vertices[..4 * n][4 * q..4 * q + 4];
    assert Slot(b.vertices, q, 4) == b.vertices[..4 * n][4 * q..4 * q + 4];
    assert Slot(r.texcoords, q, 4) == r.texcoords[..4 * n][4 * q..4 * q + 4];
    assert Slot(b.texcoords, q, 4) == b.texcoords[..4 * n][4 * q..4 * q + 4];
    assert Slot(r.colours, q, 4) == r.colours[..4 * n][4 * q..4 * q + 4];
    assert Slot(b.colours, q, 4) == b.colours[..4 * n][4 * q..4 * q + 4];
    assert Slot(r.indices, q, 6) == r.indices[..6 * n][6 * q..6 * q + 6];
    assert Slot(b.indices, q, 6) == b.indices[..6 * n][6 * q..6 * q + 6];
  }

  /** Quad `i` of the list lands in slot `numQuads + i`: its corners,
      texcoords, white and its six indices. */
  lemma {:induction false} AddQuadsWrites(b: Batch, quads: seq<Quad>, i: nat)
    requires Sized(b) && b.numQuads + |quads| <= MaxQuads && i < |quads|
    ensures Holds(AddQuads(b, quads), b.numQuads + i, quads[i])
  {
    AddQuadsWritesAt(b, quads, i, b.numQuads + i, quads[i]);
  }

  /** `AddQuadsWrites` with the slot and the quad held fixed through the
      induction. */
  lemma {:induction false} AddQuadsWritesAt(b: Batch, quads: seq<Quad>, i: nat, slot: nat, quad: Quad)
    requires Sized(b) && b.numQuads + |quads| <= MaxQuads && i < |quads|
    requires slot == b.numQuads + i && quad == quads[i]
    ensures Holds(AddQuads(b, quads), slot, quad)
    decreases |quads|
  {
    if i == 0 {
      AddQuadsWritesFirst(b, quads);
    } else {
      var q := quads[0];
      var b1 := AddSprite(b, q.pos, q.size, White, q.tmin, q.tmax);
      assert quads[1..][i - 1] == quad;
      AddQuadsWritesAt(b1, quads[1..], i - 1, slot, quad);
      assert AddQuads(b, quads) == AddQuads(b1, quads[1..]);
    }
  }

  /** The first quad of the list lands in slot `numQuads`. */
  lemma {:induction false} AddQuadsWritesFirst(b: Batch, quads: seq<Quad>)
    requires Sized(b) && b.numQuads + |quads| <= MaxQuads && 0 < |quads|
    ensures Holds(AddQuads(b, quads), b.numQuads, quads[0])
  {
    var q := quads[0];
    var b1 := AddSprite(b, q.pos, q.size, White, q.tmin, q.tmax);
    var r := AddQuads(b1, quads[1..]);
    assert AddQuads(b, quads) == r;
    AddSpriteHolds(b, q);
    HoldsKept(r, b1, b1.numQuads, b.numQuads, q);
  }

  /** `addSprite` in white writes the quad into its slot. */
  lemma {:induction false} AddSpriteHolds(b: Batch, quad: Quad)
    requires Sized(b) && b.numQuads < MaxQuads
    ensures Holds(AddSprite(b, quad.pos, quad.size, White, quad.tmin, quad.tmax), b.numQuads, quad)
  {
    assert Plus(quad.pos, quad.size) == V2(quad.pos.x + quad.size.x, quad.pos.y + quad.size.y);
  }

  /** What a draw uploaded for slot `q`. */
  predicate DrawHolds(d: Draw, q: nat, quad: Quad)
    requires 4 * q + 4 <= |d.vertices| && 4 * q + 4 <= |d.texcoords|
    requires 4 * q + 4 <= |d.colours| && 6 * q + 6 <= |d.indices|
  {
    && Slot(d.vertices, q, 4) == Corners(quad.pos, quad.size)
    && Slot(d.texcoords, q, 4) == TexCorners(quad.tmin, quad.tmax)
    && Slot(d.colours, q, 4) == [White, White, White, White]
    && Slot(d.indices, q, 6) == QuadIndices(q)
  }

  /** One batch of white quads in the font shader: `begin`, one `addSprite`
      per quad, `end`. */
  function DrawQuads(b: Batch, tex: int, quads: seq<Quad>): (r: Batch)
    requires Sized(b) && |quads| <= MaxQuads
    ensures |r.draws| == |b.draws| + 1 && r.draws[..|b.draws|] == b.draws
    ensures var d := r.draws[|b.draws|];
      && d.texture == tex && d.shader == b.fontShader && d.quads == |quads|
      && |d.vertices| == 4 * |quads| && |d.texcoords| == 4 * |quads|
      && |d.colours| == 4 * |quads| && |d.indices| == 6 * |quads|
    ensures r.numQuads == |quads| && r.current == Some(b.fontShader) && r.texture == tex
  {
    End(AddQuads(Begin(b, tex, Some(b.fontShader)), quads))
  }

  /** Quad `i` of the list is what the draw uploads for slot `i`. */
  lemma {:induction false} DrawQuadsHold(b: Batch, tex: int, quads: seq<Quad>)
    requires Sized(b) && |quads| <= MaxQuads
    ensures var d := DrawQuads(b, tex, quads).draws[|b.draws|];
      forall i :: 0 <= i < |quads| ==> DrawHolds(d, i, quads[i])
  {
    var b0 := Begin(b, tex, Some(b.fontShader));
    var a := AddQuads(b0, quads);
    var d := DrawQuads(b, tex, quads).draws[|b.draws|];
    forall i | 0 <= i < |quads|
      ensures DrawHolds(d, i, quads[i])
    {
      AddQuadsWrites(b0, quads, i);
      assert Holds(a, i, quads[i]);
      var n := |quads|;
      assert Slot(d.vertices, i, 4) == Slot(a.vertices, i, 4) by {
        assert d.vertices == a.vertices[..4 * n];
      }
      assert Slot(d.texcoords, i, 4) == Slot(a.texcoords, i, 4) by {
        assert d.texcoords == a.texcoords[..4 * n];
      }
      assert Slot(d.colours, i, 4) == Slot(a.colours, i, 4) by {
        assert d.colours == a.colours[..4 * n];
      }
      assert Slot(d.indices, i, 6) == Slot(a.indices, i, 6) by {
        assert d.indices == a.indices[..6 * n];
      }
    }
  }

  /** `drawText` as written: begin with the font's texture and the font
      shader, add one quad per glyph, end. The `shader` argument is never
      read. Nothing checks capacity, so the text may hold at most
      `MaxQuads` glyphs. The draw holds the misplaced quads. */
  function DrawTextAsWritten(b: Batch, tex: Texture, chars: seq<SpriteChar>, text: string, pos: V2, scale: V2,
                             shader: Option<nat>): (r: Batch)
    requires Sized(b) && Readable(chars, tex) && GlyphCount(text) <= MaxQuads
    ensures |r.draws| == |b.draws| + 1 && r.draws[..|b.draws|] == b.draws
    ensures var d := r.draws[|b.draws|]; var m := TextQuadsAsWritten(chars, tex, pos, scale, text);
      && d.texture == tex.name && d.shader == b.fontShader && d.quads == |m|
      && |d.vertices| == 4 * |m| && |d.texcoords| == 4 * |m| && |d.colours| == 4 * |m| && |d.indices| == 6 * |m|
      && forall i :: 0 <= i < |m| ==> DrawHolds(d, i, m[i])
  {
    var m := TextQuadsAsWritten(chars, tex, pos, scale, text);
    DrawQuadsHold(b, tex.name, m);
    DrawQuads(b, tex.name, m)
  }

  /** `drawText` with each quad placed as intended: one draw in the font's
      texture and the font shader whose slot `i` holds the `i`-th glyph of
      the text, laid out from `pos`. */
  function DrawText(b: Batch, tex: Texture, chars: seq<SpriteChar>, text: string, pos: V2, scale: V2,
                    shader: Option<nat>): (r: Batch)
    requires Sized(b) && Readable(chars, tex) && GlyphCount(text) <= MaxQuads
    ensures |r.draws| == |b.draws| + 1 && r.draws[..|b.draws|] == b.draws
    ensures var d := r.draws[|b.draws|]; var m := TextQuads(chars, tex, pos, scale, text);
      && d.texture == tex.name && d.shader == b.fontShader && d.quads == GlyphCount(text) == |m|
      && |d.vertices| == 4 * |m| && |d.texcoords| == 4 * |m| && |d.colours| == 4 * |m| && |d.indices| == 6 * |m|
      && forall i :: 0 <= i < |m| ==> DrawHolds(d, i, m[i])
    ensures r.numQuads == GlyphCount(text) && r.current == Some(b.fontShader)
  {
    var m := TextQuads(chars, tex, pos, scale, text);
    DrawQuadsHold(b, tex.name, m);
    DrawQuads(b, tex.name, m)
  }
}
