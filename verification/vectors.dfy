/** The small vector types of math3d.h the two sprite batchers use, and the
    `memcpy` into a fixed array both of them perform. Components are reals. */
module Vectors {
  datatype V2 = V2(x: real, y: real)
  datatype V3 = V3(x: real, y: real, z: real)
  datatype V4 = V4(x: real, y: real, z: real, w: real)

  function Plus(a: V2, b: V2): V2 {
    V2(a.x + b.x, a.y + b.y)
  }

  /** Componentwise product, as `float2 * float2`. */
  function Times(a: V2, b: V2): V2 {
    V2(a.x * b.x, a.y * b.y)
  }

  const White := V4(1.0, 1.0, 1.0, 1.0)

  /** `a` with `xs` copied over it from `at` on, as `memcpy` does. */
  function Put<T>(a: seq<T>, at: nat, xs: seq<T>): (r: seq<T>)
    requires at + |xs| <= |a|
    ensures |r| == |a|
    ensures forall k :: 0 <= k < |xs| ==> r[at + k] == xs[k]
    ensures forall k :: 0 <= k < |a| && !(at <= k < at + |xs|) ==> r[k] == a[k]
  {
    a[..at] + xs + a[at + |xs|..]
  }
}
