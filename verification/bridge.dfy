/** The argument handling of the script functions `init_script` binds in
    src/game.cpp: a `null` handle becomes -1, every number becomes a
    `uint32_t`, and a missing colour argument is opaque white. */
module Bridge {
  import opened Tge
  import opened QuadBatch
  import opened Registries
  import opened Runtime

  /** A script value as far as the bridge looks at it. */
  datatype Value = Null | Num(n: int) | Str(s: string)

  /** Opaque white, the colour of a call without a colour argument. */
  const White: U32 := 0xffffffff

  /** The handle argument of `set_sprite`, `set_font` and `set_shader`. */
  function HandleArg(v: Value): (r: U32)
    requires v.Null? || v.Num?
    ensures v.Null? ==> r == NoHandle
    ensures v.Num? ==> r == ToU32(v.n)
  {
    if v.Null? then ToU32(-1) else ToU32(v.n)
  }

  /** The colour argument at position `at`, used when the call passes more
      than `at` arguments. */
  function ColorArg(args: seq<Value>, at: nat): (r: U32)
    requires |args| > at ==> args[at].Num?
    ensures |args| <= at ==> r == White
    ensures |args| > at ==> r == ToU32(args[at].n)
  {
    if |args| > at then ToU32(args[at].n) else White
  }

  /** Where each drawing function takes its optional colour. */
  const DrawTextColorAt := 3
  const DrawSpriteColorAt := 2
  const DrawSpriteExtColorAt := 7
  const DrawSpritePartColorAt := 6
  const DrawSpriteSheetColorAt := 8

  /** A `null` handle selects the default sprite sheet or font. */
  lemma {:induction false} NullSelectsDefault(g: Game)
    requires g.defaultSprite < |g.assets.sprites| < NoHandle
    requires g.defaultFont < |g.assets.fonts| < NoHandle
    ensures SetSprite(g, HandleArg(Null)).currentSprite == g.defaultSprite
    ensures SetFont(g, HandleArg(Null)).currentFont == g.defaultFont
  {
  }

  /** A `null` shader handle selects the default program. */
  lemma {:induction false} NullSelectsDefaultShader(g: Game)
    requires g.defaultShader < |g.assets.shaders| && CurrentValid(g)
    ensures SetShader(g, HandleArg(Null)).currentShader == g.assets.shaders[g.defaultShader]
  {
  }

  predicate Numbers(args: seq<Value>, n: nat) {
    n <= |args| && forall k :: 0 <= k < n ==> args[k].Num?
  }

  /** Script `draw_sprite(x, y [, colour])`: the whole current sheet at
      (x, y), unrotated and unscaled. */
  function CallDrawSprite(g: Game, args: seq<Value>): (r: Game)
    requires Numbers(args, 2) && (|args| > 2 ==> args[2].Num?)
    requires g.currentSprite < |g.assets.sprites|
    ensures |r.batch.vertices| == |g.batch.vertices| + 4
    ensures forall k :: |g.batch.vertices| <= k < |r.batch.vertices| ==>
      r.batch.vertices[k].color == (if |args| > 2 then ToU32(args[2].n) else White)
  {
    DrawSprite(g, Upright(Vec2(args[0].n, args[1].n), Vec2(0, 0), Vec2(1, 1)), ColorArg(args, DrawSpriteColorAt))
  }

  /** Script `draw_sprite_part(x, y, x0, y0, w, h [, colour])`. */
  function CallDrawSpritePart(g: Game, args: seq<Value>): (r: Game)
    requires Numbers(args, 6) && (|args| > 6 ==> args[6].Num?)
    ensures |r.batch.vertices| == |g.batch.vertices| + 4
    ensures forall k :: |g.batch.vertices| <= k < |r.batch.vertices| ==>
      r.batch.vertices[k].color == (if |args| > 6 then ToU32(args[6].n) else White)
    ensures r.batch.vertices[|g.batch.vertices|].u == U16(args[2].n)
    ensures r.batch.vertices[|g.batch.vertices| + 3].v == U16(args[3].n + args[5].n)
  {
    g.(batch := DrawSpritePart(g.batch, Upright(Vec2(args[0].n, args[1].n), Vec2(0, 0), Vec2(1, 1)),
                               Vec2(args[2].n, args[3].n), Vec2(args[4].n, args[5].n),
                               ColorArg(args, DrawSpritePartColorAt)))
  }
}
