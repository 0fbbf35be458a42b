/** The older quad batcher `Sprite` of sprite.h: fixed-capacity vertex and
    index arrays that `addQuad` fills slot by slot, ending the batch and
    beginning a new one with the same state when it is full, and
    `drawString`, which lays out bitmap-font text as quads. Coordinates are
    reals; the GPU upload `end` performs is recorded as a `Draw`. */
module LegacySprite {
  import opened Wrappers
  import opened QuadBatch
  import opened Definitions
  import opened Vectors

  /** The two matrices `drawString` passes to `begin`; any other matrix is
      given by its entries. */
  datatype Matrix = Identity | OrthoOffCenter(l: real, r: real, b: real, t: real, zn: real, zf: real) | Entries(m: seq<real>)

  /** What `begin` records and every batch is drawn with. */
  datatype State = State(program: int, tex: int, view: Matrix, proj: Matrix)

  /** One `end`: the state and the first `quads` quads of the arrays. */
  datatype Draw = Draw(state: State, quads: nat, positions: seq<V3>, colours: seq<V4>,
                       texcoords: seq<V2>, indices: seq<int>)

  datatype Sprite = Sprite(maxQuads: nat, state: State, numQuads: nat,
                           positions: seq<V3>, colours: seq<V4>, texcoords: seq<V2>,
                           indices: seq<int>, draws: seq<Draw>)

  /** The cap `create` puts on `maxQuads`, safely below 2^16 vertices. */
  const QuadCap := 10000

  /** The arrays are sized for `maxQuads` quads, of which the first
      `numQuads` are filled. */
  predicate Sized(s: Sprite) {
    && s.numQuads <= s.maxQuads
    && |s.positions| == 4 * s.maxQuads && |s.colours| == 4 * s.maxQuads
    && |s.texcoords| == 4 * s.maxQuads && |s.indices| == 6 * s.maxQuads
  }

  /** A sprite `addQuad` can be called on: clamped, with at least one quad of
      room, and a free slot for the next quad. */
  predicate Valid(s: Sprite) {
    Sized(s) && 1 <= s.maxQuads <= QuadCap && s.numQuads < s.maxQuads
  }

  /** `Sprite::create`: the capacity is clamped to 10000 quads and the arrays
      are allocated for it; their contents start as zero here (the source
      leaves them uninitialised). */
  function Create(maxQuads: nat, state: State): (r: Sprite)
    ensures r.maxQuads <= QuadCap && (r.maxQuads == maxQuads || r.maxQuads == QuadCap)
    ensures maxQuads <= QuadCap ==> r.maxQuads == maxQuads
    ensures r.numQuads == 0 && r.draws == []
    ensures 1 <= maxQuads ==> Valid(r)
  {
    var n := Min(maxQuads, QuadCap);
    Sprite(n, state, 0,
           seq(4 * n, _ => V3(0.0, 0.0, 0.0)), seq(4 * n, _ => V4(0.0, 0.0, 0.0, 0.0)),
           seq(4 * n, _ => V2(0.0, 0.0)), seq(6 * n, _ => 0), [])
  }

  /** Every vertex number a clamped sprite can store fits in 16 bits, so the
      stored indices are the intended ones. */
  lemma {:induction false} IndicesFit(s: Sprite, q: nat)
    requires Valid(s) && q < s.maxQuads
    ensures QuadIndices(4 * q) == [4 * q, 4 * q + 1, 4 * q + 2, 4 * q + 1, 4 * q + 3, 4 * q + 2]
  {
  }

  /** `begin`: records the state and starts an empty batch. */
  function Begin(s: Sprite, st: State): (r: Sprite)
    ensures r.numQuads == 0 && r.state == st
    ensures r.maxQuads == s.maxQuads && r.draws == s.draws
    ensures r.positions == s.positions && r.colours == s.colours
    ensures r.texcoords == s.texcoords && r.indices == s.indices
    ensures Valid(s) ==> Valid(r)
  {
    s.(state := st, numQuads := 0)
  }

  /** `end`: draws the first `numQuads` quads with the recorded state. */
  function End(s: Sprite): (r: Sprite)
    requires Sized(s)
    ensures |r.draws| == |s.draws| + 1 && r.draws[..|s.draws|] == s.draws
    ensures var d := r.draws[|s.draws|];
      d.state == s.state && d.quads == s.numQuads
      && |d.positions| == 4 * s.numQuads && |d.indices| == 6 * s.numQuads
      && (forall k :: 0 <= k < 6 * s.numQuads ==> d.indices[k] == s.indices[k])
    ensures r == s.(draws := r.draws) && Sized(r)
  {
    var n := s.numQuads;
    s.(draws := s.draws + [Draw(s.state, n, s.positions[..4 * n], s.colours[..4 * n],
                                s.texcoords[..4 * n], s.indices[..6 * n])])
  }

  /** The four texcoords of a quad: texpos, texpos+(w,0), texpos+(0,h) and
      texpos+texsize. */
  function QuadTex(texpos: V2, texsize: V2): seq<V2> {
    [texpos, V2(texpos.x + texsize.x, texpos.y), V2(texpos.x, texpos.y + texsize.y), Plus(texpos, texsize)]
  }

  /** The copies both `addQuad` overloads make into slot `numQuads`: four
      positions, one colour four times, the texcoords and six indices. */
  function Write(s: Sprite, pos: seq<V3>, texpos: V2, texsize: V2, col: V4): (r: Sprite)
    requires Valid(s) && |pos| == 4
    ensures Sized(r) && r.numQuads == s.numQuads + 1
    ensures r.maxQuads == s.maxQuads && r.state == s.state && r.draws == s.draws
    ensures var q := s.numQuads;
      && r.indices[6 * q..6 * q + 6] == [4 * q, 4 * q + 1, 4 * q + 2, 4 * q + 1, 4 * q + 3, 4 * q + 2]
      && (forall k :: 0 <= k < 4 ==> r.positions[4 * q + k] == pos[k] && r.colours[4 * q + k] == col)
      && (forall k :: 0 <= k < 4 ==> r.texcoords[4 * q + k] == QuadTex(texpos, texsize)[k])
    ensures forall k :: 0 <= k < 6 * s.maxQuads && !(6 * s.numQuads <= k < 6 * s.numQuads + 6) ==>
      r.indices[k] == s.indices[k]
    ensures forall k :: 0 <= k < 4 * s.maxQuads && !(4 * s.numQuads <= k < 4 * s.numQuads + 4) ==>
      r.positions[k] == s.positions[k] && r.colours[k] == s.colours[k] && r.texcoords[k] == s.texcoords[k]
  {
    var q := s.numQuads;
    IndicesFit(s, q);
    s.(positions := Put(s.positions, 4 * q, pos),
       colours := Put(s.colours, 4 * q, [col, col, col, col]),
       texcoords := Put(s.texcoords, 4 * q, QuadTex(texpos, texsize)),
       indices := Put(s.indices, 6 * q, QuadIndices(4 * q)),
       numQuads := q + 1)
  }

  /** The common tail of both `addQuad` overloads: after the copies, a batch
      that has reached `maxQuads - 1` quads is ended and begun again with the
      same state. */
  function Store(s: Sprite, pos: seq<V3>, texpos: V2, texsize: V2, col: V4): (r: Sprite)
    requires Valid(s) && |pos| == 4
    ensures Valid(r) && r.maxQuads == s.maxQuads && r.state == s.state
    ensures var w := Write(s, pos, texpos, texsize, col);
      r.positions == w.positions && r.colours == w.colours
      && r.texcoords == w.texcoords && r.indices == w.indices
    ensures s.numQuads + 1 < s.maxQuads ==> r.numQuads == s.numQuads + 1 && r.draws == s.draws
    ensures s.numQuads + 1 == s.maxQuads ==>
      r.numQuads == 0 && |r.draws| == |s.draws| + 1 && r.draws[..|s.draws|] == s.draws
      && r.draws[|s.draws|].quads == s.maxQuads && r.draws[|s.draws|].state == s.state
  {
    var w := Write(s, pos, texpos, texsize, col);
    if w.numQuads > w.maxQuads - 1 then
      var e := End(w);
      Begin(e, e.state)
    else w
  }

  /** How many quads have been drawn by the given `end`s. */
  function DrawnQuads(draws: seq<Draw>): nat {
    if draws == [] then 0 else DrawnQuads(draws[..|draws| - 1]) + draws[|draws| - 1].quads
  }

  lemma {:induction false} DrawnQuadsSnoc(draws: seq<Draw>, d: Draw)
    ensures DrawnQuads(draws + [d]) == DrawnQuads(draws) + d.quads
  {
    assert (draws + [d])[..|draws|] == draws;
  }

  /** Quads drawn plus quads pending: what every `Store` adds one to. */
  function Emitted(s: Sprite): nat {
    DrawnQuads(s.draws) + s.numQuads
  }

  /** Every quad `addQuad` accepts is either pending or drawn, exactly once. */
  lemma {:induction false} StoreEmitsOne(s: Sprite, pos: seq<V3>, texpos: V2, texsize: V2, col: V4)
    requires Valid(s) && |pos| == 4
    ensures Emitted(Store(s, pos, texpos, texsize, col)) == Emitted(s) + 1
  {
    var r := Store(s, pos, texpos, texsize, col);
    if s.numQuads + 1 == s.maxQuads {
      assert r.draws == s.draws + [r.draws[|s.draws|]];
      DrawnQuadsSnoc(s.draws, r.draws[|s.draws|]);
    }
  }

  /** The four corners a quad is given land in its slot, in order. */
  lemma {:induction false} StoreCorners(s: Sprite, pos: seq<V3>, texpos: V2, texsize: V2, col: V4)
    requires Valid(s) && |pos| == 4
    ensures var r := Store(s, pos, texpos, texsize, col); var q := s.numQuads;
      && Valid(r) && r.maxQuads == s.maxQuads && 4 * q + 3 < |r.positions|
      && r.positions[4 * q] == pos[0] && r.positions[4 * q + 1] == pos[1]
      && r.positions[4 * q + 2] == pos[2] && r.positions[4 * q + 3] == pos[3]
  {
    var w := Write(s, pos, texpos, texsize, col);
    var q := s.numQuads;
    assert w.positions[4 * q] == pos[0] && w.positions[4 * q + 1] == pos[1];
    assert w.positions[4 * q + 2] == pos[2] && w.positions[4 * q + 3] == pos[3];
  }

  /** The corners of a quad centred on `pos`: pos ± e in x and y, with
      `e` half the size, at the centre's depth. */
  function CenteredCorners(pos: V3, size: V2): (r: seq<V3>)
    ensures |r| == 4
  {
    var e := V2(size.x / 2.0, size.y / 2.0);
    [V3(pos.x - e.x, pos.y - e.y, pos.z), V3(pos.x + e.x, pos.y - e.y, pos.z),
     V3(pos.x - e.x, pos.y + e.y, pos.z), V3(pos.x + e.x, pos.y + e.y, pos.z)]
  }

  /** `addQuad` with a centre in three dimensions: its slot gets the
      centred corners in order. */
  function AddQuadCentered(s: Sprite, pos: V3, size: V2, texpos: V2, texsize: V2, col: V4): (r: Sprite)
    requires Valid(s)
    ensures Valid(r) && r.maxQuads == s.maxQuads
    ensures var q := s.numQuads; var c := CenteredCorners(pos, size);
      r.positions[4 * q] == c[0] && r.positions[4 * q + 1] == c[1]
      && r.positions[4 * q + 2] == c[2] && r.positions[4 * q + 3] == c[3]
    ensures Emitted(r) == Emitted(s) + 1
  {
    var corners := CenteredCorners(pos, size);
    StoreEmitsOne(s, corners, texpos, texsize, col);
    StoreCorners(s, corners, texpos, texsize, col);
    Store(s, corners, texpos, texsize, col)
  }

  /** `addQuad` with a corner in two dimensions: pos, pos+(w,0), pos+(0,h)
      and pos+size, at depth 1. */
  function AddQuad(s: Sprite, pos: V2, size: V2, texpos: V2, texsize: V2, col: V4): (r: Sprite)
    requires Valid(s)
    ensures Valid(r) && r.maxQuads == s.maxQuads
    ensures var q := s.numQuads;
      r.positions[4 * q] == V3(pos.x, pos.y, 1.0)
      && r.positions[4 * q + 1] == V3(pos.x + size.x, pos.y, 1.0)
      && r.positions[4 * q + 2] == V3(pos.x, pos.y + size.y, 1.0)
      && r.positions[4 * q + 3] == V3(pos.x + size.x, pos.y + size.y, 1.0)
    ensures Emitted(r) == Emitted(s) + 1
  {
    var corners := [V3(pos.x, pos.y, 1.0), V3(pos.x + size.x, pos.y, 1.0),
                    V3(pos.x, pos.y + size.y, 1.0), V3(pos.x + size.x, pos.y + size.y, 1.0)];
    StoreEmitsOne(s, corners, texpos, texsize, col);
    StoreCorners(s, corners, texpos, texsize, col);
    Store(s, corners, texpos, texsize, col)
  }

  datatype Character = Character(pos: V2, size: V2, offset: V2, advance: V2)

  /** The part of `Font` `drawString` reads: 256 characters, the texture
      scale and the texture. */
  datatype Font = Font(characters: seq<Character>, scale: V2, texture: int)

  predicate FontShape(f: Font) {
    |f.characters| == 256
  }

  /** Float division; a zero scale (which gives an infinity) reads as 0. */
  function Div(a: real, b: real): real {
    if b == 0.0 then 0.0 else a / b
  }

  /** The texture rectangle of a character, as fractions of the texture,
      flipped vertically. */
  function CharTex(f: Font, ch: Character): (V2, V2) {
    (V2(Div(ch.pos.x, f.scale.x), 1.0 - Div(ch.pos.y + ch.size.y, f.scale.y)),
     V2(Div(ch.size.x, f.scale.x), Div(ch.size.y, f.scale.y)))
  }

  /** The characters `drawString` can index: `char` is signed, so only the
      first 128 codes are in range. */
  predicate Indexable(str: string) {
    forall i :: 0 <= i < |str| ==> str[i] as int < 128
  }

  predicate IsGlyph(c: char) {
    c != '\n' && c != ' '
  }

  /** One character of `drawString` at cursor `cur`, with `pos` where the
      text started: the new cursor and the quad, if any, it adds. */
  function StringStep(f: Font, pos: V2, cur: V2, c: char): (r: (V2, Option<(V2, V2, V2, V2)>))
    requires FontShape(f) && c as int < 128
    ensures r.1.Some? <==> IsGlyph(c)
    ensures c == '\n' ==> r.0 == V2(pos.x, cur.y + f.characters['|' as int].size.y)
    ensures c == ' ' ==> r.0 == V2(cur.x + f.characters[32].advance.x, cur.y)
    ensures IsGlyph(c) ==>
      (r.0 == Plus(cur, f.characters[c as int].advance)
       && r.1.value.0 == Plus(cur, f.characters[c as int].offset) && r.1.value.1 == f.characters[c as int].size)
  {
    if c == '\n' then (V2(pos.x, cur.y + f.characters['|' as int].size.y), None)
    else if c == ' ' then (V2(cur.x + f.characters[32].advance.x, cur.y), None)
    else
      var ch := f.characters[c as int];
      var (tp, ts) := CharTex(f, ch);
      (Plus(cur, ch.advance), Some((Plus(cur, ch.offset), ch.size, tp, ts)))
  }

  function GlyphCount(str: string): nat {
    if str == [] then 0 else (if IsGlyph(str[0]) then 1 else 0) + GlyphCount(str[1..])
  }

  /** The characters of `str` from the cursor `cur` on, quad by quad. */
  function DrawChars(s: Sprite, f: Font, pos: V2, cur: V2, str: string): (r: Sprite)
    requires Valid(s) && FontShape(f) && Indexable(str)
    ensures Valid(r) && r.state == s.state
    decreases |str|
  {
    if str == [] then s
    else
      var step := StringStep(f, pos, cur, str[0]);
      var next, quad := step.0, step.1;
      var s1 := if quad.None? then s else AddQuad(s, quad.value.0, quad.value.1, quad.value.2, quad.value.3, White);
      DrawChars(s1, f, pos, next, str[1..])
  }

  /** Every character other than '\n' and ' ' adds exactly one quad. */
  lemma {:induction false} DrawCharsEmits(s: Sprite, f: Font, pos: V2, cur: V2, str: string)
    requires Valid(s) && FontShape(f) && Indexable(str)
    ensures Emitted(DrawChars(s, f, pos, cur, str)) == Emitted(s) + GlyphCount(str)
    decreases |str|
  {
    if str != [] {
      var step := StringStep(f, pos, cur, str[0]);
      var next, quad := step.0, step.1;
      var s1 := if quad.None? then s else AddQuad(s, quad.value.0, quad.value.1, quad.value.2, quad.value.3, White);
      assert Emitted(s1) == Emitted(s) + (if IsGlyph(str[0]) then 1 else 0);
      DrawCharsEmits(s1, f, pos, next, str[1..]);
    }
  }

  /** The matrices `drawString` draws with: identity view and a 1920x1080
      orthographic projection. */
  function StringState(program: int, f: Font): State {
    State(program, f.texture, Identity, OrthoOffCenter(0.0, 1920.0, 0.0, 1080.0, 1.0, 1024.0))
  }

  /** `drawString`: begin with the font's texture, lay out the characters
      from `pos`, and end. */
  function DrawString(s: Sprite, program: int, f: Font, str: string, pos: V2): (r: Sprite)
    requires Valid(s) && FontShape(f) && Indexable(str)
    ensures Valid(r)
  {
    End(DrawChars(Begin(s, StringState(program, f)), f, pos, pos, str))
  }

  /** `drawString` discards a batch left pending before it, and the quads it
      draws, across however many batches, are one per glyph. */
  lemma {:induction false} DrawStringDrawsGlyphs(s: Sprite, program: int, f: Font, str: string, pos: V2)
    requires Valid(s) && FontShape(f) && Indexable(str)
    ensures var r := DrawString(s, program, f, str, pos);
      DrawnQuads(r.draws) == DrawnQuads(s.draws) + GlyphCount(str)
  {
    var b := Begin(s, StringState(program, f));
    var m := DrawChars(b, f, pos, pos, str);
    DrawCharsEmits(b, f, pos, pos, str);
    var r := End(m);
    assert r.draws == m.draws + [r.draws[|m.draws|]];
    DrawnQuadsSnoc(m.draws, r.draws[|m.draws|]);
  }
}
