/** The quad batcher of src/game.cpp: `draw_sprite_part` appends four
    vertices and six 16-bit indices, and `flush_batch` hands the batch to the
    driver and empties it. */
module QuadBatch {
  import opened Tge

  /** The largest value plus one of a `uint16_t`. */
  const U16Range := 65536

  /** Conversion to `uint16_t`, which keeps the value modulo 2^16. */
  function U16(n: int): (r: int)
    ensures 0 <= r < U16Range
    ensures 0 <= n < U16Range ==> r == n
  {
    n % U16Range
  }

  /** The four corners of a quad, in the order top-left, top-right,
      bottom-left, bottom-right of its texture rectangle. */
  datatype Quad = Quad(c0: Vec2, c1: Vec2, c2: Vec2, c3: Vec2)

  /** The corners of a texture rectangle of the given size once placed; the
      rotation arithmetic that computes them is outside the model. */
  type Layout = Vec2 -> Quad

  /** The corners `draw_sprite_part` computes for angle 0: the rectangle
      scaled and moved so that `origin` lands on `pos`. */
  function Upright(pos: Vec2, origin: Vec2, scale: Vec2): Layout {
    (size: Vec2) =>
      Quad(Vec2(pos.x - origin.x * scale.x, pos.y - origin.y * scale.y),
           Vec2(pos.x + (size.x - origin.x) * scale.x, pos.y - origin.y * scale.y),
           Vec2(pos.x - origin.x * scale.x, pos.y + (size.y - origin.y) * scale.y),
           Vec2(pos.x + (size.x - origin.x) * scale.x, pos.y + (size.y - origin.y) * scale.y))
  }

  datatype Batch = Batch(vertices: seq<Vertex>, indices: seq<int>)

  const Empty := Batch([], [])

  /** The six indices of the two triangles of the quad whose first vertex is
      `b`, each truncated to 16 bits as it is stored. */
  function QuadIndices(b: int): seq<int> {
    [U16(b), U16(b + 1), U16(b + 2), U16(b + 1), U16(b + 3), U16(b + 2)]
  }

  /** The four vertices of a quad: corners, texel corners and one colour. */
  function QuadVertices(q: Quad, texPos: Vec2, texMax: Vec2, color: int): seq<Vertex> {
    [Vertex(q.c0, U16(texPos.x), U16(texPos.y), color),
     Vertex(q.c1, U16(texMax.x), U16(texPos.y), color),
     Vertex(q.c2, U16(texPos.x), U16(texMax.y), color),
     Vertex(q.c3, U16(texMax.x), U16(texMax.y), color)]
  }

  /** `draw_sprite_part`: the quad showing the texture rectangle at
      `texPos` of size `texSize`, placed by `layout`. */
  function DrawSpritePart(b: Batch, layout: Layout, texPos: Vec2, texSize: Vec2, color: int): (r: Batch)
    ensures |r.vertices| == |b.vertices| + 4 && |r.indices| == |b.indices| + 6
    ensures r.vertices[..|b.vertices|] == b.vertices && r.indices[..|b.indices|] == b.indices
    ensures forall k :: |b.vertices| <= k < |r.vertices| ==> r.vertices[k].color == color
    ensures r.vertices[|b.vertices|].u == r.vertices[|b.vertices| + 2].u == U16(texPos.x)
    ensures r.vertices[|b.vertices| + 1].u == r.vertices[|b.vertices| + 3].u == U16(texPos.x + texSize.x)
    ensures r.vertices[|b.vertices|].v == r.vertices[|b.vertices| + 1].v == U16(texPos.y)
    ensures r.vertices[|b.vertices| + 2].v == r.vertices[|b.vertices| + 3].v == U16(texPos.y + texSize.y)
  {
    var texMax := Vec2(texPos.x + texSize.x, texPos.y + texSize.y);
    var base := U16(|b.vertices|);
    Batch(b.vertices + QuadVertices(layout(texSize), texPos, texMax, color),
          b.indices + QuadIndices(base))
  }

  /** `after` is `before` with one more quad: the four vertices of the
      placed corners `q`, with texel corners (u0, v0) to (u1, v1) and one
      colour, then the two triangles over them as 16-bit indices; nothing
      queued earlier changes. */
  predicate Queued(before: Batch, after: Batch, q: Quad, u0: int, v0: int, u1: int, v1: int, color: int) {
    var n := |before.vertices|;
    && after.vertices == before.vertices + [Vertex(q.c0, u0, v0, color), Vertex(q.c1, u1, v0, color),
                                            Vertex(q.c2, u0, v1, color), Vertex(q.c3, u1, v1, color)]
    && after.indices == before.indices + [U16(n), U16(n + 1), U16(n + 2), U16(n + 1), U16(n + 3), U16(n + 2)]
  }

  /** Drawing a texture rectangle queues the quad `layout` places for its
      size, textured from its top-left to its bottom-right texel. */
  lemma {:induction false} DrawQueued(b: Batch, layout: Layout, texPos: Vec2, texSize: Vec2, color: int)
    ensures Queued(b, DrawSpritePart(b, layout, texPos, texSize, color), layout(texSize),
                   U16(texPos.x), U16(texPos.y), U16(texPos.x + texSize.x), U16(texPos.y + texSize.y), color)
  {
    var n := |b.vertices|;
    U16Add(n, 1);
    U16Add(n, 2);
    U16Add(n, 3);
    assert U16(U16(n) + 0) == U16(n);
  }

  /** The indices of `n` quads drawn one after the other from vertex 0. */
  function Pattern(n: nat): (r: seq<int>)
    ensures |r| == 6 * n
  {
    if n == 0 then [] else Pattern(n - 1) + QuadIndices(4 * (n - 1))
  }

  /** What the batch looks like between draws: whole quads, each drawn as
      the two triangles of its own four vertices, which share one colour. */
  predicate WellFormed(b: Batch) {
    && |b.vertices| % 4 == 0
    && b.indices == Pattern(|b.vertices| / 4)
    && forall k :: 0 <= k < |b.vertices| ==> b.vertices[k].color == b.vertices[k - k % 4].color
  }

  lemma {:induction false} U16Add(x: int, k: int)
    ensures U16(U16(x) + k) == U16(x + k)
  {
  }

  lemma {:induction false} DrawIndices(b: Batch, layout: Layout, texPos: Vec2, texSize: Vec2, color: int)
    requires |b.vertices| % 4 == 0 && b.indices == Pattern(|b.vertices| / 4)
    ensures DrawSpritePart(b, layout, texPos, texSize, color).indices == Pattern(|b.vertices| / 4 + 1)
  {
    var n := |b.vertices| / 4;
    U16Add(4 * n, 0);
    U16Add(4 * n, 1);
    U16Add(4 * n, 2);
    U16Add(4 * n, 3);
    assert QuadIndices(U16(|b.vertices|)) == QuadIndices(4 * n);
  }

  lemma {:induction false} DrawColors(b: Batch, layout: Layout, texPos: Vec2, texSize: Vec2, color: int)
    requires |b.vertices| % 4 == 0
    requires forall k :: 0 <= k < |b.vertices| ==> b.vertices[k].color == b.vertices[k - k % 4].color
    ensures var r := DrawSpritePart(b, layout, texPos, texSize, color);
      forall k :: 0 <= k < |r.vertices| ==> r.vertices[k].color == r.vertices[k - k % 4].color
  {
    var r := DrawSpritePart(b, layout, texPos, texSize, color);
    forall k | 0 <= k < |r.vertices|
      ensures r.vertices[k].color == r.vertices[k - k % 4].color
    {
      if k < |b.vertices| {
        assert r.vertices[k] == b.vertices[k];
        assert r.vertices[k - k % 4] == b.vertices[k - k % 4];
      }
    }
  }

  /** Every quad drawn keeps the batch well formed. */
  lemma {:induction false} DrawKeepsWellFormed(b: Batch, layout: Layout, texPos: Vec2, texSize: Vec2, color: int)
    requires WellFormed(b)
    ensures WellFormed(DrawSpritePart(b, layout, texPos, texSize, color))
  {
    var r := DrawSpritePart(b, layout, texPos, texSize, color);
    QuarterStep(|b.vertices|);
    DrawIndices(b, layout, texPos, texSize, color);
    DrawColors(b, layout, texPos, texSize, color);
  }

  lemma {:induction false} QuarterStep(n: nat)
    requires n % 4 == 0
    ensures (n + 4) % 4 == 0 && (n + 4) / 4 == n / 4 + 1
  {
  }

  /** The indices of `n` quads name vertices below 4n, as long as 4n fits
      into 16 bits. */
  lemma {:induction false} PatternInRange(n: nat)
    requires 4 * n <= U16Range
    ensures forall k :: 0 <= k < 6 * n ==> 0 <= Pattern(n)[k] < 4 * n
  {
    if n > 0 {
      PatternInRange(n - 1);
      forall k | 0 <= k < 6 * n
        ensures 0 <= Pattern(n)[k] < 4 * n
      {
        if k >= 6 * (n - 1) {
          assert Pattern(n)[k] == QuadIndices(4 * (n - 1))[k - 6 * (n - 1)];
        }
      }
    }
  }

  /** While the batch holds at most 65536 vertices no index is truncated and
      each one names a vertex of the batch. */
  lemma {:induction false} IndicesInRange(b: Batch)
    requires WellFormed(b) && |b.vertices| <= U16Range
    ensures |b.indices| == 6 * (|b.vertices| / 4)
    ensures forall k :: 0 <= k < |b.indices| ==> 0 <= b.indices[k] < |b.vertices|
  {
    PatternInRange(|b.vertices| / 4);
  }

  /** `flush_batch`: with indices queued, one draw of the whole batch is
      issued and both arrays are emptied; otherwise nothing happens. */
  function Flush(b: Batch, draws: seq<Batch>): (r: (Batch, seq<Batch>))
    ensures |b.indices| == 0 ==> r == (b, draws)
    ensures |b.indices| > 0 ==> r.0 == Empty && r.1 == draws + [b]
  {
    if |b.indices| == 0 then (b, draws) else (Empty, draws + [b])
  }

  /** A second flush right after a first one does nothing. */
  lemma {:induction false} FlushIdempotent(b: Batch, draws: seq<Batch>)
    ensures var (b1, d1) := Flush(b, draws); Flush(b1, d1) == (b1, d1)
  {
  }

  /** A flushed batch is well formed and has no indices left. */
  lemma {:induction false} FlushEmpties(b: Batch, draws: seq<Batch>)
    requires WellFormed(b)
    ensures WellFormed(Flush(b, draws).0) && |Flush(b, draws).0.indices| == 0
  {
  }
}
