/** `MeshBuilder` of src/graphics/mesh.h: vertex, normal, texcoord and
    `ushort` index arrays grown subset by subset. Vertex payloads are opaque
    values; only the bookkeeping around them is modelled. */
module MeshBuilding {
  import opened Tge
  import opened QuadBatch

  datatype Vec3 = Vec3(x: real, y: real, z: real)
  datatype Uv = Uv(u: real, v: real)

  /** A `MeshSubset`: a run of the index array drawn with one material. */
  datatype Subset = Subset(start: nat, count: nat, material: U32)

  datatype Builder = Builder(
    vertices: seq<Vec3>, normals: seq<Vec3>, texcoords: seq<Uv>,
    indices: seq<int>, subsets: seq<Subset>)

  /** `begin` and `clear`: all five arrays empty. */
  const Empty: Builder := Builder([], [], [], [], [])

  /** The subsets cover the first `total` indices in order, without gaps. */
  predicate Tiled(subsets: seq<Subset>, total: nat) {
    if subsets == [] then total == 0
    else
      var last := subsets[|subsets| - 1];
      last.start + last.count == total && Tiled(subsets[..|subsets| - 1], last.start)
  }

  /** The three vertex arrays have one entry per vertex, every index names a
      vertex, and the subsets tile the index array. */
  predicate Consistent(b: Builder) {
    |b.normals| == |b.vertices| && |b.texcoords| == |b.vertices|
    && (forall k :: 0 <= k < |b.indices| ==> 0 <= b.indices[k] < |b.vertices|)
    && Tiled(b.subsets, |b.indices|)
  }

  lemma {:induction false} EmptyConsistent()
    ensures Consistent(Empty) && Empty.vertices == [] && Empty.indices == [] && Empty.subsets == []
  {
  }

  /** The new index entries of `geometry`: each input index plus the earlier
      vertex count, stored as a `ushort`. */
  function Offset(ind: seq<int>, base: nat): (r: seq<int>)
    ensures |r| == |ind| && forall k :: 0 <= k < |ind| ==> r[k] == U16(ind[k] + base)
  {
    seq(|ind|, k requires 0 <= k < |ind| => U16(ind[k] + base))
  }

  /** `geometry`: one new subset starting at the old index count, the
      offset indices, then `numvert` entries of each vertex array. */
  function Geometry(b: Builder, vert: seq<Vec3>, norm: seq<Vec3>, tex: seq<Uv>, ind: seq<int>,
                    numvert: nat, numind: nat, materialId: int): (r: Builder)
    requires numvert <= |vert| && numvert <= |norm| && numvert <= |tex| && numind <= |ind|
    ensures r.subsets == b.subsets + [Subset(|b.indices|, numind, ToU32(materialId))]
    ensures |r.indices| == |b.indices| + numind && r.indices[..|b.indices|] == b.indices
    ensures forall k :: 0 <= k < numind ==> r.indices[|b.indices| + k] == U16(ind[k] + |b.vertices|)
    ensures r.indices == b.indices + Offset(ind[..numind], |b.vertices|)
    ensures r.vertices == b.vertices + vert[..numvert]
    ensures r.normals == b.normals + norm[..numvert]
    ensures r.texcoords == b.texcoords + tex[..numvert]
  {
    Builder(b.vertices + vert[..numvert], b.normals + norm[..numvert], b.texcoords + tex[..numvert],
            b.indices + Offset(ind[..numind], |b.vertices|),
            b.subsets + [Subset(|b.indices|, numind, ToU32(materialId))])
  }

  /** `geometry` keeps a builder consistent when the new indices name the new
      vertices and the whole mesh stays addressable by a `ushort`. */
  lemma {:induction false} GeometryConsistent(b: Builder, vert: seq<Vec3>, norm: seq<Vec3>, tex: seq<Uv>, ind: seq<int>,
                           numvert: nat, numind: nat, materialId: int)
    requires numvert <= |vert| && numvert <= |norm| && numvert <= |tex| && numind <= |ind|
    requires Consistent(b)
    requires forall k :: 0 <= k < numind ==> 0 <= ind[k] < numvert
    requires |b.vertices| + numvert <= U16Range
    ensures Consistent(Geometry(b, vert, norm, tex, ind, numvert, numind, materialId))
  {
    var r := Geometry(b, vert, norm, tex, ind, numvert, numind, materialId);
    assert r.subsets[..|b.subsets|] == b.subsets;
    forall k | 0 <= k < |r.indices| ensures 0 <= r.indices[k] < |r.vertices| {
      if k >= |b.indices| {
        assert r.indices[k] == U16(ind[k - |b.indices|] + |b.vertices|);
      } else {
        assert r.indices[k] == r.indices[..|b.indices|][k];
      }
    }
  }

  /** Index slot `p` of the sphere: quad `p / 6` is sector `i`, ring `j`,
      and `k` is the next sector round. */
  function SphereQuad(sectors: nat, rings: nat, i: nat, j: nat): (r: seq<int>)
    requires i < sectors && j < rings
    ensures |r| == 6 && forall t :: 0 <= t < 6 ==> 0 <= r[t] < sectors * (rings + 1)
  {
    var k := (i + 1) % sectors;
    Column(sectors, rings, i, j);
    Column(sectors, rings, i, j + 1);
    Column(sectors, rings, k, j);
    Column(sectors, rings, k, j + 1);
    [i * (rings + 1) + j, i * (rings + 1) + j + 1, k * (rings + 1) + j,
     k * (rings + 1) + j, i * (rings + 1) + j + 1, k * (rings + 1) + j + 1]
  }

  lemma {:induction false} Column(sectors: nat, rings: nat, i: nat, j: nat)
    requires i < sectors && j <= rings
    ensures 0 <= i * (rings + 1) + j < sectors * (rings + 1)
  {
    assert (i + 1) * (rings + 1) <= sectors * (rings + 1);
  }

  /** The indices of sector `i` for rings below `j`. */
  function SphereRow(sectors: nat, rings: nat, i: nat, j: nat): (r: seq<int>)
    requires i < sectors && j <= rings
    ensures |r| == 6 * j && forall p :: 0 <= p < |r| ==> 0 <= r[p] < sectors * (rings + 1)
  {
    if j == 0 then [] else SphereRow(sectors, rings, i, j - 1) + SphereQuad(sectors, rings, i, j - 1)
  }

  /** The index array `sphere` fills, sector by sector. */
  function SphereIndices(sectors: nat, rings: nat, i: nat): (r: seq<int>)
    requires i <= sectors
    ensures |r| == 6 * rings * i && forall p :: 0 <= p < |r| ==> 0 <= r[p] < sectors * (rings + 1)
  {
    if i == 0 then [] else SphereIndices(sectors, rings, i - 1) + SphereRow(sectors, rings, i - 1, rings)
  }

  lemma {:induction false} Commute(sectors: nat, rings: nat)
    ensures 6 * rings * sectors == 6 * sectors * rings
  {
  }

  lemma {:induction false} MulLe(w: nat, a: nat, b: nat)
    requires a <= b
    ensures w * a <= w * b
  {
  }

  lemma {:induction false} MulSucc(w: nat, a: nat)
    ensures w * (a + 1) == w * a + w
  {
  }

  /** The quad of sector `i`, ring `j` sits at slots (i*rings + j)*6 ..+5. */
  lemma {:induction false} SphereSlots(sectors: nat, rings: nat, i: nat, j: nat, t: nat)
    requires i < sectors && j < rings && t < 6
    ensures (i * rings + j) * 6 + t < |SphereIndices(sectors, rings, sectors)|
    ensures SphereIndices(sectors, rings, sectors)[(i * rings + j) * 6 + t] == SphereQuad(sectors, rings, i, j)[t]
  {
    RowSlot(sectors, rings, i, rings, j, t);
    IndicesSlot(sectors, rings, sectors, i, j * 6 + t);
    SlotSplit(rings, i, j, t);
  }

  lemma {:induction false} SlotSplit(rings: nat, i: nat, j: nat, t: nat)
    ensures (i * rings + j) * 6 + t == 6 * rings * i + (j * 6 + t)
  {
  }

  lemma {:induction false} RowSlot(sectors: nat, rings: nat, i: nat, n: nat, j: nat, t: nat)
    requires i < sectors && j < n <= rings && t < 6
    ensures SphereRow(sectors, rings, i, n)[j * 6 + t] == SphereQuad(sectors, rings, i, j)[t]
  {
    if j < n - 1 {
      RowSlot(sectors, rings, i, n - 1, j, t);
    }
  }

  lemma {:induction false} IndicesSlot(sectors: nat, rings: nat, n: nat, i: nat, p: nat)
    requires i < n <= sectors && p < 6 * rings
    ensures 6 * rings * i + p < |SphereIndices(sectors, rings, n)|
    ensures SphereIndices(sectors, rings, n)[6 * rings * i + p] == SphereRow(sectors, rings, i, rings)[p]
  {
    var w := 6 * rings;
    var prefix := SphereIndices(sectors, rings, n - 1);
    assert |prefix| == w * (n - 1);
    MulSucc(w, i);
    if i < n - 1 {
      MulLe(w, i + 1, n - 1);
      IndicesSlot(sectors, rings, n - 1, i, p);
    }
  }

  /** `sphere`: sectors*(rings+1) vertices and 6*sectors*rings indices,
      every raw index below sectors*(rings+1), offset by the earlier vertex
      count. `at(p)` stands for the vertex, normal and texcoord stored at
      slot `p` = i*(rings+1) + j, whose trigonometry the model leaves out. */
  function Sphere(b: Builder, at: nat -> (Vec3, Vec3, Uv), sectors: nat, rings: nat, materialId: int): (r: Builder)
    ensures |r.vertices| == |b.vertices| + sectors * (rings + 1)
    ensures r.subsets == b.subsets + [Subset(|b.indices|, 6 * sectors * rings, ToU32(materialId))]
    ensures r.indices == b.indices + Offset(SphereIndices(sectors, rings, sectors), |b.vertices|)
  {
    var n := sectors * (rings + 1);
    var ind := SphereIndices(sectors, rings, sectors);
    Commute(sectors, rings);
    assert ind[..|ind|] == ind;
    Geometry(b, seq(n, (p: nat) requires p < n => at(p).0), seq(n, (p: nat) requires p < n => at(p).1), seq(n, (p: nat) requires p < n => at(p).2), ind, n, |ind|, materialId)
  }

  /** `sphere` keeps a consistent builder consistent while the mesh stays
      addressable by a `ushort`. */
  lemma {:induction false} SphereConsistent(b: Builder, at: nat -> (Vec3, Vec3, Uv), sectors: nat, rings: nat, materialId: int)
    requires Consistent(b) && |b.vertices| + sectors * (rings + 1) <= U16Range
    ensures Consistent(Sphere(b, at, sectors, rings, materialId))
  {
    var n := sectors * (rings + 1);
    var ind := SphereIndices(sectors, rings, sectors);
    GeometryConsistent(b, seq(n, (p: nat) requires p < n => at(p).0), seq(n, (p: nat) requires p < n => at(p).1), seq(n, (p: nat) requires p < n => at(p).2), ind, n, |ind|, materialId);
  }

  /** The 36 raw indices of `box`: two triangles per face, faces of four
      vertices each. */
  const BoxIndices: seq<int> := [
    0, 1, 2, 1, 3, 2,
    4, 6, 5, 5, 6, 7,
    8, 10, 9, 9, 10, 11,
    12, 13, 14, 13, 15, 14,
    16, 17, 18, 17, 19, 18,
    20, 21, 22, 21, 23, 22]

  /** The six face normals, each shared by four vertices. */
  const BoxNormals: seq<Vec3> := [
    Vec3(-1.0, 0.0, 0.0), Vec3(1.0, 0.0, 0.0), Vec3(0.0, -1.0, 0.0),
    Vec3(0.0, 1.0, 0.0), Vec3(0.0, 0.0, -1.0), Vec3(0.0, 0.0, 1.0)]

  function BoxVertices(lo: Vec3, hi: Vec3): (r: seq<Vec3>)
    ensures |r| == 24
  {
    [Vec3(lo.x, lo.y, lo.z), Vec3(lo.x, lo.y, hi.z), Vec3(lo.x, hi.y, lo.z), Vec3(lo.x, hi.y, hi.z),
     Vec3(hi.x, lo.y, lo.z), Vec3(hi.x, lo.y, hi.z), Vec3(hi.x, hi.y, lo.z), Vec3(hi.x, hi.y, hi.z),
     Vec3(lo.x, lo.y, lo.z), Vec3(lo.x, lo.y, hi.z), Vec3(hi.x, lo.y, lo.z), Vec3(hi.x, lo.y, hi.z),
     Vec3(lo.x, hi.y, lo.z), Vec3(lo.x, hi.y, hi.z), Vec3(hi.x, hi.y, lo.z), Vec3(hi.x, hi.y, hi.z),
     Vec3(lo.x, hi.y, lo.z), Vec3(hi.x, hi.y, lo.z), Vec3(lo.x, lo.y, lo.z), Vec3(hi.x, lo.y, lo.z),
     Vec3(hi.x, lo.y, hi.z), Vec3(hi.x, hi.y, hi.z), Vec3(lo.x, lo.y, hi.z), Vec3(lo.x, hi.y, hi.z)]
  }

  /** `box`: 24 vertices, four per face with that face's normal and the
      texture corners tmin, (tmax.x, tmin.y), (tmin.x, tmax.y), tmax; 36
      indices whose raw values lie in 0..23. */
  function Box(b: Builder, lo: Vec3, hi: Vec3, tmin: Uv, tmax: Uv, materialId: int): (r: Builder)
    ensures |r.vertices| == |b.vertices| + 24 && |r.indices| == |b.indices| + 36
    ensures |r.normals| == |b.normals| + 24 && |r.texcoords| == |b.texcoords| + 24
    ensures r.subsets == b.subsets + [Subset(|b.indices|, 36, ToU32(materialId))]
    ensures forall k :: 0 <= k < 36 ==> r.indices[|b.indices| + k] == U16(BoxIndices[k] + |b.vertices|)
    ensures forall k :: 0 <= k < 24 ==> r.normals[|b.normals| + k] == BoxNormals[k / 4]
    ensures forall k :: 0 <= k < 24 ==>
      r.texcoords[|b.texcoords| + k] == [tmin, Uv(tmax.u, tmin.v), Uv(tmin.u, tmax.v), tmax][k % 4]
  {
    var norm := seq(24, k requires 0 <= k < 24 => BoxNormals[k / 4]);
    var tex := seq(24, k requires 0 <= k < 24 => [tmin, Uv(tmax.u, tmin.v), Uv(tmin.u, tmax.v), tmax][k % 4]);
    Geometry(b, BoxVertices(lo, hi), norm, tex, BoxIndices, 24, 36, materialId)
  }

  lemma {:induction false} BoxIndicesInRange()
    ensures forall k :: 0 <= k < |BoxIndices| ==> 0 <= BoxIndices[k] < 24
  {
  }

  /** `box` keeps a consistent builder consistent while the mesh stays
      addressable by a `ushort`. */
  lemma {:induction false} BoxConsistent(b: Builder, lo: Vec3, hi: Vec3, tmin: Uv, tmax: Uv, materialId: int)
    requires Consistent(b) && |b.vertices| + 24 <= U16Range
    ensures Consistent(Box(b, lo, hi, tmin, tmax, materialId))
  {
    var norm := seq(24, k requires 0 <= k < 24 => BoxNormals[k / 4]);
    var tex := seq(24, k requires 0 <= k < 24 => [tmin, Uv(tmax.u, tmin.v), Uv(tmin.u, tmax.v), tmax][k % 4]);
    BoxIndicesInRange();
    GeometryConsistent(b, BoxVertices(lo, hi), norm, tex, BoxIndices, 24, 36, materialId);
  }
}
