/** The scene (Scene.cpp): turning the importer's header and buffer into
    meshes and texture bytes, the scene's own per-frame node buffers and
    descriptor pool, and the push constants of a draw.

    `load` reads accessor data through `Array<T>` views, i.e. through a
    pointer into `buffer`.  Element `k` of a view of `T` occupies
    `sizeof(T)` bytes from `data + k * sizeof(T)`; reading it through a null
    view, or when those bytes are not inside `buffer`, is undefined
    behaviour, which the model reports as `UndefinedBehaviour`. */
module Scenes {
  import opened Failures
  import opened Bytes
  import opened JsonValue
  import opened Structs
  import opened Vrm
  import opened Importer
  import opened Gpu
  import opened Meshes

  // ---------------------------------------------------------------------
  // Reading through a view

  /** The bytes of element `k` of a view of `size`-byte elements. */
  function ElementBytes(buffer: seq<byte>, v: View, size: nat, k: nat): (r: Result<seq<byte>>)
    ensures r.Ok? <==> v.data.Some? && v.data.value + size * (k + 1) <= |buffer|
    ensures r.Err? ==> r.error == UndefinedBehaviour
    ensures r.Ok? ==> |r.value| == size
  {
    if v.data.None? || v.data.value + size * (k + 1) > |buffer| then Err(UndefinedBehaviour)
    else Ok(buffer[v.data.value + size * k .. v.data.value + size * (k + 1)])
  }

  /** The first `n` elements of the view lie inside `buffer`. */
  predicate Covers(buffer: seq<byte>, v: View, size: nat, n: nat)
  {
    n == 0 || (v.data.Some? && v.data.value + size * n <= |buffer|)
  }

  lemma MulMonotone(a: nat, b: nat, c: nat)
    requires b <= c
    ensures a * b <= a * c
  {
  }

  /** Elements `0 .. n-1` can all be read exactly when the view covers `n` elements. */
  lemma ElementsReadable(buffer: seq<byte>, v: View, size: nat, n: nat)
    ensures (forall k :: 0 <= k < n ==> ElementBytes(buffer, v, size, k).Ok?) <==> Covers(buffer, v, size, n)
  {
    if n > 0 && Covers(buffer, v, size, n) {
      forall k | 0 <= k < n
        ensures ElementBytes(buffer, v, size, k).Ok?
      {
        MulMonotone(size, k + 1, n);
      }
    }
    if n > 0 && (forall k :: 0 <= k < n ==> ElementBytes(buffer, v, size, k).Ok?) {
      assert ElementBytes(buffer, v, size, n - 1).Ok?;
    }
  }

  // ---------------------------------------------------------------------
  // What an element's bytes mean

  /** A `glm::vec2` stored at `b`. */
  function Vec2Of(b: seq<byte>): (r: Vec2)
    requires |b| == 8
  {
    Vec2(U32At(b, 0), U32At(b, 4))
  }

  /** A `glm::vec3` stored at `b`. */
  function Vec3Of(b: seq<byte>): (r: Vec3)
    requires |b| == 12
  {
    Vec3(U32At(b, 0), U32At(b, 4), U32At(b, 8))
  }

  /** A `glm::vec4` stored at `b`. */
  function Vec4Of(b: seq<byte>): (r: Vec4)
    requires |b| == 16
  {
    Vec4(U32At(b, 0), U32At(b, 4), U32At(b, 8), U32At(b, 12))
  }

  /** The value of the little-endian `uint16_t` at `b[i..i+2]`. */
  function U16At(b: seq<byte>, i: nat): (r: U32)
    requires i + 2 <= |b|
    ensures r < 0x1_0000
  {
    b[i] as nat + 0x100 * (b[i + 1] as nat)
  }

  /** A `glm::u16vec4` stored at `b`, widened to a `glm::uvec4`. */
  function U16Vec4Of(b: seq<byte>): (r: UVec4)
    requires |b| == 8
    ensures r.x < 0x1_0000 && r.y < 0x1_0000 && r.z < 0x1_0000 && r.w < 0x1_0000
  {
    UVec4(U16At(b, 0), U16At(b, 2), U16At(b, 4), U16At(b, 6))
  }

  /** Reading a vector and storing it again gives back its bytes: the
      decoders lose nothing. */
  lemma VectorsRoundTrip(b2: seq<byte>, b3: seq<byte>, b4: seq<byte>)
    requires |b2| == 8 && |b3| == 12 && |b4| == 16
    ensures Vec2Bytes(Vec2Of(b2)) == b2
    ensures Vec3Bytes(Vec3Of(b3)) == b3
    ensures Vec4Bytes(Vec4Of(b4)) == b4
  {
    U32BytesOfU32At(b2, 0);
    U32BytesOfU32At(b2, 4);
    assert b2 == b2[0..4] + b2[4..8];
    U32BytesOfU32At(b3, 0);
    U32BytesOfU32At(b3, 4);
    U32BytesOfU32At(b3, 8);
    assert b3 == b3[0..4] + b3[4..8] + b3[8..12];
    U32BytesOfU32At(b4, 0);
    U32BytesOfU32At(b4, 4);
    U32BytesOfU32At(b4, 8);
    U32BytesOfU32At(b4, 12);
    assert b4 == b4[0..4] + b4[4..8] + b4[8..12] + b4[12..16];
  }

  /** Element `k` of a view of `vec3`. */
  function Vec3At(buffer: seq<byte>, v: View, k: nat): Result<Vec3>
  {
    var b :- ElementBytes(buffer, v, 12, k);
    Ok(Vec3Of(b))
  }

  // ---------------------------------------------------------------------
  // Vertices

  /** The five attribute views `load` asks for, in the order it asks. */
  datatype Sources = Sources(positions: View, normals: View, texCoords: View, joints: View, weights: View)

  function PrimitiveSources(header: Json, buffer: seq<byte>, i: nat, j: nat): Result<Sources>
  {
    var positions :- GetMeshAttribute(header, buffer, i, j, "POSITION");
    var normals :- GetMeshAttribute(header, buffer, i, j, "NORMAL");
    var texCoords :- GetMeshAttribute(header, buffer, i, j, "TEXCOORD_0");
    var joints :- GetMeshAttribute(header, buffer, i, j, "JOINTS_0");
    var weights :- GetMeshAttribute(header, buffer, i, j, "WEIGHTS_0");
    Ok(Sources(positions, normals, texCoords, joints, weights))
  }

  /** What the vertex loop reads for vertex `k`: position, normal and
      texture coordinate always, joints and weights only from a non-empty view. */
  datatype VertexRead = VertexRead(pos: Vec3, normal: Vec3, texCoord: Vec2, joints: Option<UVec4>, weights: Option<Vec4>)

  function ReadVertex(buffer: seq<byte>, s: Sources, k: nat): (r: Result<VertexRead>)
    ensures r.Err? ==> r.error == UndefinedBehaviour
  {
    var p :- ElementBytes(buffer, s.positions, 12, k);
    var n :- ElementBytes(buffer, s.normals, 12, k);
    var t :- ElementBytes(buffer, s.texCoords, 8, k);
    var joints :-
      if s.joints.count > 0 then
        var b :- ElementBytes(buffer, s.joints, 8, k);
        Ok(Some(U16Vec4Of(b)))
      else Ok(None);
    var weights :-
      if s.weights.count > 0 then
        var b :- ElementBytes(buffer, s.weights, 16, k);
        Ok(Some(Vec4Of(b)))
      else Ok(None);
    Ok(VertexRead(Vec3Of(p), Vec3Of(n), Vec2Of(t), joints, weights))
  }

  /** Every vertex the loop reads lies inside `buffer`: the three attributes
      read unconditionally cover `positions.count` elements, and so do
      joints and weights when their views are not empty. */
  predicate SourcesCover(buffer: seq<byte>, s: Sources)
  {
    var n := s.positions.count;
    && Covers(buffer, s.positions, 12, n) && Covers(buffer, s.normals, 12, n) && Covers(buffer, s.texCoords, 8, n)
    && (s.joints.count > 0 ==> Covers(buffer, s.joints, 8, n))
    && (s.weights.count > 0 ==> Covers(buffer, s.weights, 16, n))
  }

  /** The vertex loop reads without undefined behaviour exactly when the views cover it. */
  lemma VerticesReadable(buffer: seq<byte>, s: Sources)
    ensures (forall k :: 0 <= k < s.positions.count ==> ReadVertex(buffer, s, k).Ok?) <==> SourcesCover(buffer, s)
  {
    var n := s.positions.count;
    ElementsReadable(buffer, s.positions, 12, n);
    ElementsReadable(buffer, s.normals, 12, n);
    ElementsReadable(buffer, s.texCoords, 8, n);
    ElementsReadable(buffer, s.joints, 8, n);
    ElementsReadable(buffer, s.weights, 16, n);
    if forall k :: 0 <= k < n ==> ReadVertex(buffer, s, k).Ok? {
      forall k | 0 <= k < n
        ensures ElementBytes(buffer, s.positions, 12, k).Ok? && ElementBytes(buffer, s.normals, 12, k).Ok?
        ensures ElementBytes(buffer, s.texCoords, 8, k).Ok?
        ensures s.joints.count > 0 ==> ElementBytes(buffer, s.joints, 8, k).Ok?
        ensures s.weights.count > 0 ==> ElementBytes(buffer, s.weights, 16, k).Ok?
      {
        assert ReadVertex(buffer, s, k).Ok?;
      }
    }
  }

  /** Vertex `k` as the loop builds it from what it read: the position with
      y and z swapped, normal and texture coordinate as read, `index` the
      loop counter as a C `int`, joints and weights only when read (a
      default-constructed `glm` vector is left uninitialised, so otherwise
      nothing is known about them, nor about `color`). */
  predicate Assembled(v: Vertex, rd: VertexRead, k: nat)
  {
    && v.pos == Vec3(rd.pos.x, rd.pos.z, rd.pos.y)
    && v.normal == rd.normal && v.texCoord == rd.texCoord
    && v.index == Wrap32(k)
    && (rd.joints.Some? ==> v.joints == rd.joints.value)
    && (rd.weights.Some? ==> v.weights == rd.weights.value)
  }

  /** `blank` with what was read stored into it, as the loop body does. */
  function Assemble(blank: Vertex, rd: VertexRead, k: nat): (v: Vertex)
    ensures Assembled(v, rd, k)
  {
    var v := blank.(pos := Vec3(rd.pos.x, rd.pos.z, rd.pos.y), normal := rd.normal,
                    texCoord := rd.texCoord, index := Wrap32(k));
    var v := if rd.joints.Some? then v.(joints := rd.joints.value) else v;
    if rd.weights.Some? then v.(weights := rd.weights.value) else v
  }

  /** Every vertex of `vertices` was read without undefined behaviour and
      assembled from what was read. */
  predicate VerticesAssembled(buffer: seq<byte>, s: Sources, vertices: seq<Vertex>)
  {
    forall k :: 0 <= k < |vertices| ==> ReadVertex(buffer, s, k).Ok? && Assembled(vertices[k], ReadVertex(buffer, s, k).value, k)
  }

  lemma VerticesAssembledSnoc(buffer: seq<byte>, s: Sources, vertices: seq<Vertex>, v: Vertex)
    requires VerticesAssembled(buffer, s, vertices)
    requires ReadVertex(buffer, s, |vertices|).Ok? && Assembled(v, ReadVertex(buffer, s, |vertices|).value, |vertices|)
    ensures VerticesAssembled(buffer, s, vertices + [v])
  {
    var more := vertices + [v];
    forall k | 0 <= k < |more|
      ensures ReadVertex(buffer, s, k).Ok? && Assembled(more[k], ReadVertex(buffer, s, k).value, k)
    {
      if k < |vertices| {
        assert more[k] == vertices[k];
      }
    }
  }

  /** The vertex loop of `load`. */
  method ReadVertices(buffer: seq<byte>, s: Sources) returns (r: Outcome, vertices: seq<Vertex>)
    ensures r.Pass? <==> SourcesCover(buffer, s)
    ensures r.Fail? ==> r.error == UndefinedBehaviour
    ensures r.Pass? ==>
      && |vertices| == s.positions.count
      && forall k :: 0 <= k < |vertices| ==> Assembled(vertices[k], ReadVertex(buffer, s, k).value, k)
  {
    VerticesReadable(buffer, s);
    vertices := [];
    var k := 0;
    while k < s.positions.count
      invariant 0 <= k <= s.positions.count && |vertices| == k
      invariant VerticesAssembled(buffer, s, vertices)
    {
      var rd := ReadVertex(buffer, s, k);
      if rd.Err? {
        return Fail(rd.error), vertices;
      }
      var blank: Vertex := *;
      var v := Assemble(blank, rd.value, k);
      VerticesAssembledSnoc(buffer, s, vertices, v);
      vertices := vertices + [v];
      k := k + 1;
    }
    r := Pass;
  }

  // ---------------------------------------------------------------------
  // Morph targets

  /** A morph position padded to four components with `w = 1`; no axis swap. */
  function MorphVertex(p: Vec3): Vec4
  {
    Vec4(p.x, p.y, p.z, F32One)
  }

  /** `a` is the morph target read from the POSITION view `v`: as many
      entries as the view has, entry `l` element `l` of the view padded with 1. */
  predicate MorphTarget(a: AnimMesh, buffer: seq<byte>, v: View)
  {
    && Covers(buffer, v, 12, v.count)
    && |a.verts| == v.count
    && forall l :: 0 <= l < v.count ==> Vec3At(buffer, v, l).Ok? && a.verts[l] == MorphVertex(Vec3At(buffer, v, l).value)
  }

  /** The loop over one target's positions. */
  method ReadMorph(buffer: seq<byte>, v: View) returns (r: Outcome, anim: AnimMesh)
    ensures r.Pass? <==> Covers(buffer, v, 12, v.count)
    ensures r.Fail? ==> r.error == UndefinedBehaviour
    ensures r.Pass? ==> MorphTarget(anim, buffer, v)
  {
    ElementsReadable(buffer, v, 12, v.count);
    var verts: seq<Vec4> := [];
    var l := 0;
    while l < v.count
      invariant 0 <= l <= v.count && |verts| == l
      invariant forall q :: 0 <= q < l ==> ElementBytes(buffer, v, 12, q).Ok?
      invariant forall q :: 0 <= q < l ==> Vec3At(buffer, v, q).Ok? && verts[q] == MorphVertex(Vec3At(buffer, v, q).value)
    {
      var vec := Vec3At(buffer, v, l);
      if vec.Err? {
        assert ElementBytes(buffer, v, 12, l).Err?;
        return Fail(vec.error), AnimMesh(verts);
      }
      verts := verts + [MorphVertex(vec.value)];
      l := l + 1;
    }
    return Pass, AnimMesh(verts);
  }

  /** Every one of the `count` targets resolves and lies inside `buffer`. */
  predicate MorphsLoadable(header: Json, buffer: seq<byte>, i: nat, j: nat, count: nat)
  {
    forall k :: 0 <= k < count ==>
      && GetMeshMorph(header, buffer, i, j, k, "POSITION").Ok?
      && var v := GetMeshMorph(header, buffer, i, j, k, "POSITION").value;
      && Covers(buffer, v, 12, v.count)
  }

  /** The loop over the blend shapes of primitive `j` of mesh `i`. */
  method ReadMorphs(header: Json, buffer: seq<byte>, i: nat, j: nat, count: nat) returns (r: Outcome, anims: seq<AnimMesh>)
    ensures r.Pass? <==> MorphsLoadable(header, buffer, i, j, count)
    ensures r.Pass? ==>
      && |anims| == count
      && forall k :: 0 <= k < count ==> MorphTarget(anims[k], buffer, GetMeshMorph(header, buffer, i, j, k, "POSITION").value)
  {
    anims := [];
    var k := 0;
    while k < count
      invariant 0 <= k <= count && |anims| == k
      invariant MorphsLoadable(header, buffer, i, j, k)
      invariant forall q :: 0 <= q < k ==> MorphTarget(anims[q], buffer, GetMeshMorph(header, buffer, i, j, q, "POSITION").value)
    {
      var vecs := GetMeshMorph(header, buffer, i, j, k, "POSITION");
      if vecs.Err? {
        return Fail(vecs.error), anims;
      }
      var anim;
      r, anim := ReadMorph(buffer, vecs.value);
      if r.Fail? {
        return;
      }
      anims := anims + [anim];
      k := k + 1;
    }
    r := Pass;
  }

  // ---------------------------------------------------------------------
  // Indices

  /** The index loop: element `k` of the view, in order. */
  method ReadIndices(buffer: seq<byte>, v: View) returns (r: Outcome, indices: seq<U32>)
    ensures r.Pass? <==> Covers(buffer, v, U32Size, v.count)
    ensures r.Fail? ==> r.error == UndefinedBehaviour
    ensures r.Pass? ==>
      && |indices| == v.count
      && (v.count > 0 ==> v.data.Some? && v.data.value + U32Size * v.count <= |buffer|)
      && forall k :: 0 <= k < v.count ==> v.data.value + U32Size * (k + 1) <= |buffer| && indices[k] == U32At(buffer, v.data.value + U32Size * k)
  {
    ElementsReadable(buffer, v, U32Size, v.count);
    indices := [];
    var k := 0;
    while k < v.count
      invariant 0 <= k <= v.count && |indices| == k
      invariant forall q :: 0 <= q < k ==> ElementBytes(buffer, v, U32Size, q).Ok?
      invariant forall q :: 0 <= q < k ==>
        v.data.Some? && v.data.value + U32Size * (q + 1) <= |buffer| && indices[q] == U32At(buffer, v.data.value + U32Size * q)
    {
      var b := ElementBytes(buffer, v, U32Size, k);
      if b.Err? {
        return Fail(b.error), indices;
      }
      indices := indices + [U32At(b.value, 0)];
      k := k + 1;
    }
    r := Pass;
  }

  /** Indices read one by one from `buffer` from `at` on store back as the
      very bytes they were read from: the index buffer gets the accessor's
      bytes verbatim. */
  lemma {:induction false} IndicesVerbatim(buffer: seq<byte>, at: nat, ws: seq<U32>)
    requires at + U32Size * |ws| <= |buffer|
    requires forall k :: 0 <= k < |ws| ==> ws[k] == U32At(buffer, at + U32Size * k)
    ensures U32sBytes(ws) == buffer[at .. at + U32Size * |ws|]
    decreases |ws|
  {
    if ws != [] {
      forall k | 0 <= k < |ws[1..]|
        ensures ws[1..][k] == U32At(buffer, at + U32Size + U32Size * k)
      {
        assert ws[1..][k] == ws[k + 1];
      }
      IndicesVerbatim(buffer, at + U32Size, ws[1..]);
      U32BytesOfU32At(buffer, at);
      assert buffer[at .. at + U32Size * |ws|] == buffer[at .. at + U32Size] + buffer[at + U32Size .. at + U32Size * |ws|];
    }
  }

  // ---------------------------------------------------------------------
  // One primitive

  /** The geometry reads of the primitive loop body succeed: the five
      attribute views, the vertex reads, the blend-shape count and the
      targets. */
  predicate GeometryLoadable(header: Json, buffer: seq<byte>, i: nat, j: nat)
  {
    && PrimitiveSources(header, buffer, i, j).Ok?
    && SourcesCover(buffer, PrimitiveSources(header, buffer, i, j).value)
    && GetMeshBlendShapeCount(header, i, j).Ok?
    && MorphsLoadable(header, buffer, i, j, GetMeshBlendShapeCount(header, i, j).value)
  }

  /** The remaining reads succeed: the index view and its reads, the
      material index and the material. */
  predicate SurfaceLoadable(header: Json, buffer: seq<byte>, i: nat, j: nat)
  {
    && GetMeshProperty(header, buffer, i, j, "indices").Ok?
    && Covers(buffer, GetMeshProperty(header, buffer, i, j, "indices").value, U32Size,
              GetMeshProperty(header, buffer, i, j, "indices").value.count)
    && GetMeshMaterialIndex(header, i, j).Ok?
    && GetMaterial(header, GetMeshMaterialIndex(header, i, j).value).Ok?
  }

  /** Every read of the primitive loop body succeeds. */
  predicate PrimitiveLoadable(header: Json, buffer: seq<byte>, i: nat, j: nat)
  {
    GeometryLoadable(header, buffer, i, j) && SurfaceLoadable(header, buffer, i, j)
  }

  /** The vertices and morph targets the loop body stores for primitive `j` of mesh `i`. */
  predicate GeometryLoaded(header: Json, buffer: seq<byte>, i: nat, j: nat, vertices: seq<Vertex>, anims: seq<AnimMesh>)
    requires GeometryLoadable(header, buffer, i, j)
  {
    var s := PrimitiveSources(header, buffer, i, j).value;
    && |vertices| == s.positions.count
    && (forall k :: 0 <= k < |vertices| ==> Assembled(vertices[k], ReadVertex(buffer, s, k).value, k))
    && |anims| == GetMeshBlendShapeCount(header, i, j).value
    && (forall k :: 0 <= k < |anims| ==> MorphTarget(anims[k], buffer, GetMeshMorph(header, buffer, i, j, k, "POSITION").value))
  }

  /** The indices and material the loop body stores for primitive `j` of mesh `i`. */
  predicate SurfaceLoaded(header: Json, buffer: seq<byte>, i: nat, j: nat, indices: seq<U32>, material: Material)
    requires SurfaceLoadable(header, buffer, i, j)
  {
    var view := GetMeshProperty(header, buffer, i, j, "indices").value;
    && |indices| == view.count
    && (indices != [] ==> U32sBytes(indices) == buffer[view.data.value .. view.data.value + U32Size * view.count])
    && material == GetMaterial(header, GetMeshMaterialIndex(header, i, j).value).value
  }

  /** What the loop body stores into the new `Mesh` for primitive `j` of mesh `i`. */
  predicate PrimitiveLoaded(header: Json, buffer: seq<byte>, i: nat, j: nat,
                            vertices: seq<Vertex>, anims: seq<AnimMesh>, indices: seq<U32>, material: Material)
    requires PrimitiveLoadable(header, buffer, i, j)
  {
    GeometryLoaded(header, buffer, i, j, vertices, anims) && SurfaceLoaded(header, buffer, i, j, indices, material)
  }

  /** The first reads of the primitive loop body: the attribute views, the
      vertices, the blend-shape count and the targets. */
  method ReadGeometry(header: Json, buffer: seq<byte>, i: nat, j: nat)
    returns (r: Outcome, vertices: seq<Vertex>, anims: seq<AnimMesh>)
    ensures r.Pass? <==> GeometryLoadable(header, buffer, i, j)
    ensures r.Pass? ==> GeometryLoaded(header, buffer, i, j, vertices, anims)
  {
    anims := [];
    var sources := PrimitiveSources(header, buffer, i, j);
    if sources.Err? {
      return Fail(sources.error), [], [];
    }
    r, vertices := ReadVertices(buffer, sources.value);
    if r.Fail? {
      return;
    }
    var animCount := GetMeshBlendShapeCount(header, i, j);
    if animCount.Err? {
      return Fail(animCount.error), vertices, [];
    }
    r, anims := ReadMorphs(header, buffer, i, j, animCount.value);
  }

  /** The last reads of the primitive loop body: the index view and the
      indices, the material index and the material. */
  method ReadSurface(header: Json, buffer: seq<byte>, i: nat, j: nat)
    returns (r: Outcome, indices: seq<U32>, material: Material)
    ensures r.Pass? <==> SurfaceLoadable(header, buffer, i, j)
    ensures r.Pass? ==> SurfaceLoaded(header, buffer, i, j, indices, material)
  {
    material := *;
    var view := GetMeshProperty(header, buffer, i, j, "indices");
    if view.Err? {
      return Fail(view.error), [], material;
    }
    r, indices := ReadIndices(buffer, view.value);
    if r.Fail? {
      return;
    }
    if indices != [] {
      IndicesVerbatim(buffer, view.value.data.value, indices);
    }
    var materialIndex := GetMeshMaterialIndex(header, i, j);
    if materialIndex.Err? {
      return Fail(materialIndex.error), indices, material;
    }
    var read := GetMaterial(header, materialIndex.value);
    if read.Err? {
      return Fail(read.error), indices, material;
    }
    material := read.value;
  }

  /** The reads of the body of the primitive loop of `load`, in its order. */
  method ReadPrimitive(header: Json, buffer: seq<byte>, i: nat, j: nat)
    returns (r: Outcome, vertices: seq<Vertex>, anims: seq<AnimMesh>, indices: seq<U32>, material: Material)
    ensures r.Pass? <==> PrimitiveLoadable(header, buffer, i, j)
    ensures r.Pass? ==> PrimitiveLoaded(header, buffer, i, j, vertices, anims, indices, material)
  {
    indices, material := [], *;
    r, vertices, anims := ReadGeometry(header, buffer, i, j);
    if r.Fail? {
      return;
    }
    r, indices, material := ReadSurface(header, buffer, i, j);
  }

  /** The body of the primitive loop of `load`: a new `Mesh` tagged with
      its mesh and primitive index and filled with what the primitive's
      reads give.  Any failing read abandons it. */
  method LoadPrimitive(header: Json, buffer: seq<byte>, i: nat, j: nat) returns (r: Outcome, m: Mesh)
    ensures fresh(m)
    ensures r.Pass? <==> PrimitiveLoadable(header, buffer, i, j)
    ensures r.Pass? ==>
      && Built(header, buffer, m, (i, j))
      && m.uniformBuffers == [] && m.materialBuffers == [] && m.animBuffers == [] && m.descriptorSets == []
  {
    var vertices, anims, indices, material;
    r, vertices, anims, indices, material := ReadPrimitive(header, buffer, i, j);
    m := new Mesh.Of(Int32Of(i), Int32Of(j), vertices, anims, indices, material);
  }

  // ---------------------------------------------------------------------
  // The mesh and primitive loops

  /** The primitives of mesh `i`, as (mesh, primitive) pairs. */
  function PairsOf(i: nat, count: nat): (r: seq<(nat, nat)>)
    ensures |r| == count && forall j :: 0 <= j < count ==> r[j] == (i, j)
  {
    seq(count, j => (i, j))
  }
  lemma PairsOfSnoc(i: nat, count: nat)
    ensures PairsOf(i, count + 1) == PairsOf(i, count) + [(i, count)]
  {
    assert forall j :: 0 <= j < count ==> (PairsOf(i, count) + [(i, count)])[j] == (i, j);
  }


  /** The (mesh, primitive) pairs of the first `n` meshes, in the order the
      nested loops of `load` visit them; an error when a primitive count
      cannot be read. */
  function MeshPairs(header: Json, n: nat): Result<seq<(nat, nat)>>
  {
    if n == 0 then Ok([])
    else
      var front :- MeshPairs(header, n - 1);
      var count :- GetPrimitiveCount(header, n - 1);
      Ok(front + PairsOf(n - 1, count))
  }

  /** `p` comes before `q` in mesh-major order. */
  predicate MeshMajor(p: (nat, nat), q: (nat, nat))
  {
    p.0 < q.0 || (p.0 == q.0 && p.1 < q.1)
  }

  /** The loops visit every primitive of the first `n` meshes exactly once,
      mesh by mesh and within a mesh in primitive order, and nothing else. */
  lemma {:induction false} MeshPairsOrder(header: Json, n: nat)
    requires MeshPairs(header, n).Ok?
    ensures forall a :: 0 <= a < n ==> GetPrimitiveCount(header, a).Ok?
    ensures var pairs := MeshPairs(header, n).value;
      && (forall q :: 0 <= q < |pairs| ==> pairs[q].0 < n && pairs[q].1 < GetPrimitiveCount(header, pairs[q].0).value)
      && (forall a, b :: 0 <= a < n && 0 <= b < GetPrimitiveCount(header, a).value ==> (a, b) in pairs)
      && (forall p, q :: 0 <= p < q < |pairs| ==> MeshMajor(pairs[p], pairs[q]))
  {
    if n > 0 {
      MeshPairsOrder(header, n - 1);
      var front := MeshPairs(header, n - 1).value;
      var count := GetPrimitiveCount(header, n - 1).value;
      var pairs := front + PairsOf(n - 1, count);
      assert MeshPairs(header, n).value == pairs;
      forall a, b | 0 <= a < n && 0 <= b < GetPrimitiveCount(header, a).value
        ensures (a, b) in pairs
      {
        if a == n - 1 {
          assert pairs[|front| + b] == (a, b);
        } else {
          assert (a, b) in front;
        }
      }
    }
  }

  /** The pairs of the first `n + 1` meshes extend those of the first `n`. */
  lemma MeshPairsSnoc(header: Json, n: nat)
    requires MeshPairs(header, n).Ok? && GetPrimitiveCount(header, n).Ok?
    ensures MeshPairs(header, n + 1) == Ok(MeshPairs(header, n).value + PairsOf(n, GetPrimitiveCount(header, n).value))
  {
  }
  /** The primitives of any one of the first `n` meshes are among the pairs. */
  lemma MeshPairsIncluded(header: Json, n: nat, i: nat)
    requires MeshPairs(header, n).Ok? && i < n
    ensures GetPrimitiveCount(header, i).Ok?
    ensures forall q :: 0 <= q < GetPrimitiveCount(header, i).value ==>
      PairsOf(i, GetPrimitiveCount(header, i).value)[q] in MeshPairs(header, n).value
  {
    MeshPairsOrder(header, n);
  }


  /** `m` is the mesh `load` builds for pair `pair`. */
  predicate Built(header: Json, buffer: seq<byte>, m: Mesh, pair: (nat, nat))
  {
    && m.meshIndex == Int32Of(pair.0) && m.primitiveIndex == Int32Of(pair.1)
    && PrimitiveLoadable(header, buffer, pair.0, pair.1)
    && PrimitiveLoaded(header, buffer, pair.0, pair.1, m.vertices, m.anims, m.indices, m.material)
  }

  /** No mesh object appears twice. */
  predicate DistinctMeshes(ms: seq<Mesh>)
  {
    forall p, q :: 0 <= p < q < |ms| ==> ms[p] != ms[q]
  }

  lemma AppendAssociative(a: seq<Mesh>, b: seq<Mesh>, c: seq<Mesh>)
    ensures (a + b) + c == a + (b + c)
  {
  }

  lemma DistinctAppend(ms: seq<Mesh>, more: seq<Mesh>)
    requires DistinctMeshes(ms) && DistinctMeshes(more)
    requires forall m :: m in more ==> m !in ms
    ensures DistinctMeshes(ms + more)
  {
    forall p, q | 0 <= p < |ms| && 0 <= q < |more|
      ensures ms[p] != more[q]
    {
      assert more[q] in more;
    }
  }

  /** Meshes allocated since the old state are none of the meshes that existed then. */
  twostate lemma FreshDisjoint(ms: seq<Mesh>, new more: seq<Mesh>)
    requires forall m :: m in more ==> fresh(m)
    ensures forall m :: m in more ==> m !in ms
  {
  }

  lemma AppendSuffix(a: seq<Mesh>, b: seq<Mesh>)
    ensures (a + b)[|a|..] == b
  {
  }
  /** `P` relates each element of `xs` to the element of `ys` at the same
      position.  It is defined a list at a time through `EachLast`, so a
      proof sees the elements only as far as it unfolds the definition. */
  predicate Each<T, U>(P: (T, U) -> bool, xs: seq<T>, ys: seq<U>)
    decreases |xs|, 1
  {
    |xs| == |ys| && (xs != [] ==> EachLast(P, xs, ys))
  }

  /** `Each` on all but the last elements, and `P` on the last. */
  predicate EachLast<T, U>(P: (T, U) -> bool, xs: seq<T>, ys: seq<U>)
    requires |xs| == |ys| && xs != []
    decreases |xs|, 0
  {
    Each(P, xs[..|xs| - 1], ys[..|ys| - 1]) && P(xs[|xs| - 1], ys[|ys| - 1])
  }

  /** `Each` read element by element. */
  lemma {:induction false} EachElements<T, U>(P: (T, U) -> bool, xs: seq<T>, ys: seq<U>)
    ensures Each(P, xs, ys) <==> |xs| == |ys| && forall q :: 0 <= q < |xs| ==> P(xs[q], ys[q])
    decreases |xs|
  {
    if xs != [] && |xs| == |ys| {
      var n := |xs| - 1;
      EachElements(P, xs[..n], ys[..n]);
      assert EachLast(P, xs, ys) <==> Each(P, xs[..n], ys[..n]) && P(xs[n], ys[n]);
      assert forall q :: 0 <= q < n ==> xs[..n][q] == xs[q] && ys[..n][q] == ys[q];
    }
  }

  lemma EachSnoc<T, U>(P: (T, U) -> bool, xs: seq<T>, ys: seq<U>, x: T, y: U)
    requires Each(P, xs, ys) && P(x, y)
    ensures Each(P, xs + [x], ys + [y])
  {
    assert (xs + [x])[..|xs|] == xs;
    assert (ys + [y])[..|ys|] == ys;
    assert EachLast(P, xs + [x], ys + [y]);
  }

  lemma {:induction false} EachAppend<T, U>(P: (T, U) -> bool, xs: seq<T>, ys: seq<U>, zs: seq<T>, ws: seq<U>)
    requires Each(P, xs, ys) && Each(P, zs, ws)
    ensures Each(P, xs + zs, ys + ws)
    decreases |zs|
  {
    if zs == [] {
      assert xs + zs == xs && ys + ws == ys;
    } else {
      var n := |zs| - 1;
      assert EachLast(P, zs, ws);
      EachAppend(P, xs, ys, zs[..n], ws[..n]);
      EachSnoc(P, xs + zs[..n], ys + ws[..n], zs[n], ws[n]);
      assert xs + zs[..n] + [zs[n]] == xs + zs;
      assert ys + ws[..n] + [ws[n]] == ys + ws;
    }
  }

  /** `P` holds of every element of `xs`, defined a list at a time like `Each`. */
  predicate All<T>(P: T -> bool, xs: seq<T>)
    decreases |xs|, 1
  {
    xs != [] ==> AllLast(P, xs)
  }

  /** `All` on all but the last element, and `P` on the last. */
  predicate AllLast<T>(P: T -> bool, xs: seq<T>)
    requires xs != []
    decreases |xs|, 0
  {
    All(P, xs[..|xs| - 1]) && P(xs[|xs| - 1])
  }

  /** `All` read element by element. */
  lemma {:induction false} AllElements<T>(P: T -> bool, xs: seq<T>)
    ensures All(P, xs) <==> forall q :: 0 <= q < |xs| ==> P(xs[q])
    decreases |xs|
  {
    if xs != [] {
      var n := |xs| - 1;
      AllElements(P, xs[..n]);
      assert AllLast(P, xs) <==> All(P, xs[..n]) && P(xs[n]);
      assert forall q :: 0 <= q < n ==> xs[..n][q] == xs[q];
    }
  }

  lemma AllSnoc<T>(P: T -> bool, xs: seq<T>, x: T)
    requires All(P, xs) && P(x)
    ensures All(P, xs + [x])
  {
    assert (xs + [x])[..|xs|] == xs;
    assert AllLast(P, xs + [x]);
  }

  lemma AllAppend<T>(P: T -> bool, xs: seq<T>, ys: seq<T>)
    requires All(P, xs) && All(P, ys)
    ensures All(P, xs + ys)
  {
    AllElements(P, xs);
    AllElements(P, ys);
    AllElements(P, xs + ys);
    forall q | 0 <= q < |xs + ys|
      ensures P((xs + ys)[q])
    {
      if q >= |xs| {
        assert (xs + ys)[q] == ys[q - |xs|];
      }
    }
  }

  /** One element without `P` is enough to break `All`. */
  lemma NotAll<T>(P: T -> bool, xs: seq<T>, q: nat)
    requires q < |xs| && !P(xs[q])
    ensures !All(P, xs)
  {
    AllElements(P, xs);
  }

  /** `All` carries over to a list whose elements all occur in the first. */
  lemma AllIncluded<T>(P: T -> bool, xs: seq<T>, ys: seq<T>)
    requires forall q :: 0 <= q < |ys| ==> ys[q] in xs
    ensures All(P, xs) ==> All(P, ys)
  {
    AllElements(P, xs);
    AllElements(P, ys);
    if All(P, xs) {
      forall q | 0 <= q < |ys|
        ensures P(ys[q])
      {
        var p :| 0 <= p < |xs| && xs[p] == ys[q];
      }
    }
  }

  /** `Built` for one header and buffer, as a relation between meshes and pairs. */
  function BuiltFrom(header: Json, buffer: seq<byte>): (Mesh, (nat, nat)) -> bool
  {
    (m: Mesh, pair: (nat, nat)) => Built(header, buffer, m, pair)
  }

  /** `PrimitiveLoadable` for one header and buffer, as a property of pairs. */
  function LoadableFrom(header: Json, buffer: seq<byte>): ((nat, nat)) -> bool
  {
    (pair: (nat, nat)) => PrimitiveLoadable(header, buffer, pair.0, pair.1)
  }

  /** One more primitive loaded: the pairs and the meshes both grow by it. */
  lemma PrimitivesSnoc(header: Json, buffer: seq<byte>, i: nat, j: nat, built: seq<Mesh>, m: Mesh)
    requires All(LoadableFrom(header, buffer), PairsOf(i, j))
    requires Each(BuiltFrom(header, buffer), built, PairsOf(i, j))
    requires Built(header, buffer, m, (i, j))
    ensures All(LoadableFrom(header, buffer), PairsOf(i, j + 1))
    ensures Each(BuiltFrom(header, buffer), built + [m], PairsOf(i, j + 1))
  {
    PairsOfSnoc(i, j);
    AllSnoc(LoadableFrom(header, buffer), PairsOf(i, j), (i, j));
    EachSnoc(BuiltFrom(header, buffer), built, PairsOf(i, j), m, (i, j));
  }

  /** The primitive loop of `load` for mesh `i`: a new mesh per primitive,
      stopping at the first primitive whose reads fail. */
  method LoadPrimitives(header: Json, buffer: seq<byte>, i: nat, count: nat) returns (r: Outcome, built: seq<Mesh>)
    ensures r.Pass? <==> All(LoadableFrom(header, buffer), PairsOf(i, count))
    ensures r.Pass? ==> Each(BuiltFrom(header, buffer), built, PairsOf(i, count))
    ensures forall m :: m in built ==> fresh(m)
    ensures DistinctMeshes(built)
  {
    built := [];
    r := Pass;
    var j := 0;
    while j < count
      invariant 0 <= j <= count && r.Pass?
      invariant All(LoadableFrom(header, buffer), PairsOf(i, j))
      invariant Each(BuiltFrom(header, buffer), built, PairsOf(i, j))
      invariant forall m :: m in built ==> fresh(m)
      invariant DistinctMeshes(built)
    {
      var m;
      label Step:
      r, m := LoadPrimitive(header, buffer, i, j);
      FreshDisjoint@Step(built, [m]);
      DistinctAppend(built, [m]);
      if r.Fail? {
        NotAll(LoadableFrom(header, buffer), PairsOf(i, count), j);
        break;
      }
      PrimitivesSnoc(header, buffer, i, j, built, m);
      built := built + [m];
      j := j + 1;
    }
  }

  /** One more mesh loaded: the pairs and the meshes both grow by its primitives. */
  lemma MeshesSnoc(header: Json, buffer: seq<byte>, i: nat, loaded: seq<Mesh>, built: seq<Mesh>)
    requires MeshPairs(header, i).Ok? && GetPrimitiveCount(header, i).Ok?
    requires All(LoadableFrom(header, buffer), MeshPairs(header, i).value)
    requires Each(BuiltFrom(header, buffer), loaded, MeshPairs(header, i).value)
    requires All(LoadableFrom(header, buffer), PairsOf(i, GetPrimitiveCount(header, i).value))
    requires Each(BuiltFrom(header, buffer), built, PairsOf(i, GetPrimitiveCount(header, i).value))
    ensures MeshPairs(header, i + 1).Ok?
    ensures All(LoadableFrom(header, buffer), MeshPairs(header, i + 1).value)
    ensures Each(BuiltFrom(header, buffer), loaded + built, MeshPairs(header, i + 1).value)
  {
    var pairs := PairsOf(i, GetPrimitiveCount(header, i).value);
    MeshPairsSnoc(header, i);
    AllAppend(LoadableFrom(header, buffer), MeshPairs(header, i).value, pairs);
    EachAppend(BuiltFrom(header, buffer), loaded, MeshPairs(header, i).value, built, pairs);
  }

  /** A mesh `i` whose primitive count does not read, or one of whose
      primitives does not load, leaves the first `count` meshes unloadable. */
  lemma MeshesFail(header: Json, buffer: seq<byte>, count: nat, i: nat)
    requires i < count
    requires GetPrimitiveCount(header, i).Ok? ==>
      !All(LoadableFrom(header, buffer), PairsOf(i, GetPrimitiveCount(header, i).value))
    ensures !(MeshPairs(header, count).Ok? && All(LoadableFrom(header, buffer), MeshPairs(header, count).value))
  {
    if MeshPairs(header, count).Ok? {
      MeshPairsIncluded(header, count, i);
      AllIncluded(LoadableFrom(header, buffer), MeshPairs(header, count).value,
                  PairsOf(i, GetPrimitiveCount(header, i).value));
    }
  }

  /** One turn of the mesh loop of `load`: the primitive count of mesh `i`,
      then its primitives.  On success the meshes loaded so far cover the
      first `i + 1` meshes; on failure not every mesh can load. */
  method LoadMesh(header: Json, buffer: seq<byte>, count: nat, i: nat, ghost loaded: seq<Mesh>)
    returns (r: Outcome, built: seq<Mesh>)
    requires GetMeshCount(header) == Ok(count) && i < count
    requires MeshPairs(header, i).Ok?
    requires All(LoadableFrom(header, buffer), MeshPairs(header, i).value)
    requires Each(BuiltFrom(header, buffer), loaded, MeshPairs(header, i).value)
    requires DistinctMeshes(loaded)
    ensures forall m :: m in built ==> fresh(m)
    ensures DistinctMeshes(loaded + built)
    ensures r.Pass? ==>
      && MeshPairs(header, i + 1).Ok?
      && All(LoadableFrom(header, buffer), MeshPairs(header, i + 1).value)
      && Each(BuiltFrom(header, buffer), loaded + built, MeshPairs(header, i + 1).value)
    ensures r.Fail? ==> !MeshesLoadable(header, buffer)
  {
    var primitiveCount := GetPrimitiveCount(header, i);
    if primitiveCount.Err? {
      MeshesFail(header, buffer, count, i);
      DistinctAppend(loaded, []);
      return Fail(primitiveCount.error), [];
    }
    r, built := LoadPrimitives(header, buffer, i, primitiveCount.value);
    FreshDisjoint(loaded, built);
    DistinctAppend(loaded, built);
    if r.Fail? {
      MeshesFail(header, buffer, count, i);
    } else {
      MeshesSnoc(header, buffer, i, loaded, built);
    }
  }

  /** Every read of the nested loops succeeds. */
  predicate MeshesLoadable(header: Json, buffer: seq<byte>)
  {
    && GetMeshCount(header).Ok?
    && MeshPairs(header, GetMeshCount(header).value).Ok?
    && All(LoadableFrom(header, buffer), MeshPairs(header, GetMeshCount(header).value).value)
  }

  // ---------------------------------------------------------------------
  // Textures

  /** The bytes `load` copies for texture `t`: `byteLength` bytes from the
      start of the image's bufferView.  Nothing checks them against
      `buffer`, so a view reaching past its end is undefined behaviour. */
  function TextureBytes(header: Json, buffer: seq<byte>, t: nat): (r: Result<seq<byte>>)
    ensures r.Ok? ==> GetTextureData(header, t).Ok? && |r.value| == GetTextureData(header, t).value.byteLength
  {
    var data :- GetTextureData(header, t);
    if data.byteLength == 0 then Ok([])
    else if data.begin + data.byteLength > |buffer| then Err(UndefinedBehaviour)
    else Ok(buffer[data.begin .. data.begin + data.byteLength])
  }

  /** The byte loop for one texture. */
  method CopyTexture(buffer: seq<byte>, data: TextureData) returns (r: Outcome, temp: seq<byte>)
    ensures r.Pass? <==> data.byteLength == 0 || data.begin + data.byteLength <= |buffer|
    ensures r.Fail? ==> r.error == UndefinedBehaviour
    ensures r.Pass? && data.byteLength > 0 ==> temp == buffer[data.begin .. data.begin + data.byteLength]
    ensures r.Pass? ==> |temp| == data.byteLength
  {
    temp := [];
    var j := 0;
    while j < data.byteLength
      invariant 0 <= j <= data.byteLength && |temp| == j
      invariant j > 0 ==> data.begin + j <= |buffer| && temp == buffer[data.begin .. data.begin + j]
    {
      if data.begin + j >= |buffer| {
        return Fail(UndefinedBehaviour), temp;
      }
      temp := temp + [buffer[data.begin + j]];
      j := j + 1;
    }
    r := Pass;
  }

  /** Every texture the texture loop visits can be copied. */
  predicate TexturesLoadable(header: Json, buffer: seq<byte>)
  {
    && GetTextureCount(header).Ok?
    && forall t :: 0 <= t < GetTextureCount(header).value ==> TextureBytes(header, buffer, t).Ok?
  }

  /** `meshes` are the meshes the nested loops build, one per pair. */
  predicate MeshesLoaded(header: Json, buffer: seq<byte>, meshes: seq<Mesh>)
  {
    && MeshesLoadable(header, buffer)
    && var pairs := MeshPairs(header, GetMeshCount(header).value).value;
    && Each(BuiltFrom(header, buffer), meshes, pairs)
    && DistinctMeshes(meshes)
  }

  /** All `count` meshes loaded: the nested loops are done. */
  lemma MeshesDone(header: Json, buffer: seq<byte>, count: nat, loaded: seq<Mesh>)
    requires GetMeshCount(header) == Ok(count) && MeshPairs(header, count).Ok?
    requires All(LoadableFrom(header, buffer), MeshPairs(header, count).value)
    requires Each(BuiltFrom(header, buffer), loaded, MeshPairs(header, count).value)
    requires DistinctMeshes(loaded)
    ensures MeshesLoadable(header, buffer) && MeshesLoaded(header, buffer, loaded)
  {
  }

  /** `textures` are the copies the texture loop makes, one per texture. */
  predicate TexturesLoaded(header: Json, buffer: seq<byte>, textures: seq<seq<byte>>)
  {
    && TexturesLoadable(header, buffer)
    && |textures| == GetTextureCount(header).value
    && forall t :: 0 <= t < |textures| ==> textures[t] == TextureBytes(header, buffer, t).value
  }

  // ---------------------------------------------------------------------
  // Scene descriptors and drawing

  /** The scene's set layout (`createDescriptorSetLayouts`): an array of
      `numTextures` combined image samplers at binding 0 and the node
      storage buffer at binding 1. */
  function SceneLayoutBindings(numTextures: nat): seq<LayoutBinding>
  {
    [LayoutBinding(0, CombinedImageSampler, Wrap32(numTextures)), LayoutBinding(1, StorageBuffer, 1)]
  }

  /** The scene pool's sizes: N samplers per texture and N storage buffers. */
  function ScenePoolSizes(numTextures: nat): seq<PoolSize>
  {
    [PoolSize(CombinedImageSampler, Wrap32(MaxFramesInFlight * numTextures)), PoolSize(StorageBuffer, Wrap32(MaxFramesInFlight))]
  }

  /** The scene pool has room for `count` sets of the scene layout exactly
      when `count` is at most N, as long as the sampler count does not
      wrap round in its 32-bit field. */
  lemma ScenePoolFits(numTextures: nat, count: nat)
    requires MaxFramesInFlight * numTextures < 0x1_0000_0000
    ensures Fits(Pool(ScenePoolSizes(numTextures), Wrap32(MaxFramesInFlight), []), Copies(SceneLayoutBindings(numTextures), count))
        <==> count <= MaxFramesInFlight
  {
    var n := numTextures;
    var layout := SceneLayoutBindings(n);
    var sizes := ScenePoolSizes(n);
    var copies := Copies(layout, count);
    assert Wrap32(n) == n && Wrap32(MaxFramesInFlight * n) == MaxFramesInFlight * n;
    assert [] + copies == copies;
    forall t: DescriptorType
      ensures LayoutDemand(layout, t) == (if t == CombinedImageSampler then n else if t == StorageBuffer then 1 else 0)
      ensures Capacity(sizes, t) == (if t == CombinedImageSampler then MaxFramesInFlight * n
                                     else if t == StorageBuffer then MaxFramesInFlight else 0)
    {
      LayoutDemandOfPair(layout[0], layout[1], t);
      CapacityOfPair(sizes[0], sizes[1], t);
    }
    assert LayoutDemand(layout, CombinedImageSampler) == n;
    assert LayoutDemand(layout, StorageBuffer) == 1;
    assert LayoutDemand(layout, UniformBuffer) == 0;
    assert Capacity(sizes, CombinedImageSampler) == MaxFramesInFlight * n;
    assert Capacity(sizes, StorageBuffer) == MaxFramesInFlight;
    assert Capacity(sizes, UniformBuffer) == 0;
    DemandOfCopies(layout, count, CombinedImageSampler);
    DemandOfCopies(layout, count, StorageBuffer);
    DemandOfCopies(layout, count, UniformBuffer);
    if count <= MaxFramesInFlight {
      MulMonotone(n, count, MaxFramesInFlight);
      assert count * n <= MaxFramesInFlight * n;
      forall t: DescriptorType
        ensures Demand(copies, t) <= Capacity(sizes, t)
      {
      }
    }
  }

  /** What `draw` records for one mesh. */
  datatype DrawCall = DrawCall(vertexBuffer: Handle, indexBuffer: Handle, sets: seq<Handle>,
                               constants: PushConstants, indexCount: U32)

  /** The push constants `draw` derives for a mesh: material 0, the morph
      switch, the vertex count and the node the mesh hangs from. */
  function DrawConstants(anims: seq<AnimMesh>, vertexCount: nat, nodeIndex: int): PushConstants
  {
    PushConstants(0, if anims != [] then F32One else F32Zero, Wrap32(vertexCount), Wrap32(nodeIndex))
  }

  /** The push constants tell the shaders the truth about the mesh: the
      morph switch is on exactly when the mesh has morph targets (and is
      then 1.0, otherwise 0.0), material 0 is used, and the vertex count
      and node index reach the shader unchanged while they fit an `int`. */
  lemma DrawConstantsFaithful(anims: seq<AnimMesh>, vertexCount: nat, nodeIndex: int)
    ensures DrawConstants(anims, vertexCount, nodeIndex).value == F32One <==> anims != []
    ensures DrawConstants(anims, vertexCount, nodeIndex).value == F32Zero <==> anims == []
    ensures DrawConstants(anims, vertexCount, nodeIndex).materialIndex == 0
    ensures vertexCount < 0x8000_0000 ==> DrawConstants(anims, vertexCount, nodeIndex).numVertices == vertexCount
    ensures 0 <= nodeIndex < 0x8000_0000 ==> DrawConstants(anims, vertexCount, nodeIndex).nodeIndex == nodeIndex
  {
  }

  /** One mesh's draw in frame `frame`: its vertex and index buffers, its
      own set and the scene's set of that frame, its push constants, and
      all its indices. */
  function DrawOf(mesh: Mesh, sceneSets: seq<Handle>, frame: nat, nodeIndex: int): (r: DrawCall)
    reads mesh
    requires frame < |mesh.descriptorSets| && frame < |sceneSets|
  {
    DrawCall(mesh.vertexBuffer, mesh.indexBuffer, [mesh.descriptorSets[frame], sceneSets[frame]],
             DrawConstants(mesh.anims, |mesh.vertices|, nodeIndex), Wrap32(|mesh.indices|))
  }

  class Scene {
    var meshes: seq<Mesh>
    var importer: VRMImporter
    var textureData: seq<seq<byte>>

    var nodeBuffers: seq<Handle>
    var nodeBuffersMemory: seq<Handle>
    /** The mapped pointer of each node buffer, kept as the allocation it points into. */
    var nodeBuffersMapped: seq<Handle>

    var descriptorSetLayout: Handle
    var descriptorPool: Handle
    var descriptorSets: seq<Handle>

    /** `Scene scene;`: an empty importer and nothing loaded. */
    constructor ()
      ensures fresh(importer) && importer.header == Null && importer.buffer == [] && importer.nodes == []
      ensures meshes == [] && textureData == []
      ensures nodeBuffers == [] && nodeBuffersMemory == [] && nodeBuffersMapped == [] && descriptorSets == []
    {
      importer := new VRMImporter();
      meshes, textureData := [], [];
      nodeBuffers, nodeBuffersMemory, nodeBuffersMapped := [], [], [];
      descriptorSets := [];
    }

    /** `load`: the model file split and parsed by the importer, then one
        mesh appended per primitive and one byte copy per texture.  It
        succeeds exactly when every one of those steps does. */
    method Load(file: seq<byte>, parse: seq<byte> -> Option<Json>) returns (r: Outcome)
      modifies this`meshes, this`textureData, importer
      ensures old(meshes) <= meshes && old(textureData) <= textureData
      ensures r.Pass? <==>
        && SplitGlb(file).Ok?
        && parse(ParserInput(SplitGlb(file).value.json)).Some?
        && NodesLoadable(parse(ParserInput(SplitGlb(file).value.json)).value, old(importer.nodes))
        && MeshesLoadable(parse(ParserInput(SplitGlb(file).value.json)).value, SplitGlb(file).value.bin)
        && TexturesLoadable(parse(ParserInput(SplitGlb(file).value.json)).value, SplitGlb(file).value.bin)
      ensures r.Pass? ==>
        && importer.header == parse(ParserInput(SplitGlb(file).value.json)).value
        && importer.buffer == SplitGlb(file).value.bin
        && NodesLoaded(importer.header, old(importer.nodes), importer.nodes)
        && MeshesLoaded(importer.header, importer.buffer, meshes[|old(meshes)|..])
        && TexturesLoaded(importer.header, importer.buffer, textureData[|old(textureData)|..])
    {
      r := importer.LoadModel(file, parse);
      if r.Fail? {
        return;
      }
      ghost var added;
      r, added := LoadMeshes(importer.header, importer.buffer);
      AppendSuffix(old(meshes), added);
      if r.Fail? {
        return;
      }
      r := LoadTextures(importer.header, importer.buffer);
    }

    /** The mesh loop of `load`. */
    method LoadMeshes(header: Json, buffer: seq<byte>) returns (r: Outcome, ghost added: seq<Mesh>)
      modifies this`meshes
      ensures meshes == old(meshes) + added
      ensures r.Pass? <==> MeshesLoadable(header, buffer)
      ensures r.Pass? ==> MeshesLoaded(header, buffer, added)
    {
      added := [];
      var meshCount := GetMeshCount(header);
      if meshCount.Err? {
        return Fail(meshCount.error), added;
      }
      var count := meshCount.value;
      r := Pass;
      var i := 0;
      while i < count
        invariant 0 <= i <= count && MeshPairs(header, i).Ok? && r.Pass?
        invariant meshes == old(meshes) + added
        invariant All(LoadableFrom(header, buffer), MeshPairs(header, i).value)
        invariant Each(BuiltFrom(header, buffer), added, MeshPairs(header, i).value)
        invariant DistinctMeshes(added)
      {
        var built;
        r, built := LoadMesh(header, buffer, count, i, added);
        AppendAssociative(old(meshes), added, built);
        meshes, added := meshes + built, added + built;
        if r.Fail? {
          break;
        }
        i := i + 1;
      }
      if r.Pass? {
        MeshesDone(header, buffer, count, added);
      }
    }

    /** The texture loop of `load`. */
    method LoadTextures(header: Json, buffer: seq<byte>) returns (r: Outcome)
      modifies this`textureData
      ensures old(textureData) <= textureData
      ensures r.Pass? <==> TexturesLoadable(header, buffer)
      ensures r.Pass? ==> TexturesLoaded(header, buffer, textureData[|old(textureData)|..])
    {
      var textureCount := GetTextureCount(header);
      if textureCount.Err? {
        return Fail(textureCount.error);
      }
      ghost var base := |textureData|;
      var t := 0;
      while t < textureCount.value
        invariant 0 <= t <= textureCount.value
        invariant old(textureData) <= textureData && |textureData| == base + t
        invariant forall q :: 0 <= q < t ==> TextureBytes(header, buffer, q).Ok? && textureData[base + q] == TextureBytes(header, buffer, q).value
      {
        var data := GetTextureData(header, t);
        if data.Err? {
          assert TextureBytes(header, buffer, t).Err?;
          return Fail(data.error);
        }
        var temp;
        r, temp := CopyTexture(buffer, data.value);
        if r.Fail? {
          assert TextureBytes(header, buffer, t).Err?;
          return;
        }
        textureData := textureData + [temp];
        t := t + 1;
      }
      r := Pass;
    }
    /** `createNodeBuffers`: one mapped, host-visible storage buffer per
        frame in flight, each the size of the importer's node array. */
    method CreateNodeBuffers(vulkan: Device)
      requires vulkan.Valid()
      modifies this`nodeBuffers, this`nodeBuffersMemory, this`nodeBuffersMapped
      modifies vulkan`memory, vulkan`buffers, vulkan`next, vulkan`mapped
      ensures vulkan.Valid()
      ensures |nodeBuffers| == MaxFramesInFlight && |nodeBuffersMemory| == MaxFramesInFlight
      ensures nodeBuffersMapped == nodeBuffersMemory
      ensures Issued(nodeBuffers, old(vulkan.next), vulkan.next) && Issued(nodeBuffersMemory, old(vulkan.next), vulkan.next)
      ensures vulkan.buffers == old(vulkan.buffers) + Bindings(nodeBuffers, nodeBuffersMemory)
      ensures Extended(old(vulkan.memory), vulkan.memory, nodeBuffersMemory, NodeSize * |importer.nodes|)
      ensures vulkan.mapped == old(vulkan.mapped) + Elements(nodeBuffersMemory)
    {
      var bs, ms := MapPerFrame(vulkan, NodeSize * |importer.nodes|);
      nodeBuffers, nodeBuffersMemory, nodeBuffersMapped := bs, ms, ms;
    }

    /** `updateNodeBuffers`: the node array copied through the mapped
        pointer of slot `currentImage`.  Into a buffer the size of the
        array, that leaves the buffer holding exactly the array; no other
        slot changes. */
    method UpdateNodeBuffers(vulkan: Device, currentImage: nat)
      requires vulkan.Valid() && currentImage < |nodeBuffersMapped|
      requires nodeBuffersMapped[currentImage] in vulkan.mapped
      requires |NodesBytes(importer.nodes)| <= |vulkan.memory[nodeBuffersMapped[currentImage]]|
      modifies vulkan`memory
      ensures vulkan.Valid()
      ensures vulkan.memory == old(vulkan.memory)[nodeBuffersMapped[currentImage] :=
                Spliced(old(vulkan.memory[nodeBuffersMapped[currentImage]]), 0, NodesBytes(importer.nodes))]
      ensures |old(vulkan.memory[nodeBuffersMapped[currentImage]])| == NodeSize * |importer.nodes| ==>
                vulkan.memory[nodeBuffersMapped[currentImage]] == NodesBytes(importer.nodes)
      ensures Distinct(nodeBuffersMapped) ==>
        forall k :: 0 <= k < |nodeBuffersMapped| && k != currentImage ==>
          nodeBuffersMapped[k] in old(vulkan.memory) ==>
          vulkan.memory[nodeBuffersMapped[k]] == old(vulkan.memory[nodeBuffersMapped[k]])
    {
      vulkan.WriteMapped(nodeBuffersMapped[currentImage], 0, NodesBytes(importer.nodes));
    }

    /** `createDescriptorPools`: a pool for every mesh, then the scene's own
        pool with N samplers per texture, N storage buffers and N sets.  Each
        pool is a new handle, issued in mesh order, and nothing but the
        meshes' `descriptorPool` fields changes in the meshes.  `meshes`
        holds each mesh once, as the source's `std::vector<Mesh>` does by
        value; under that, mesh `k` gets the `k`-th new handle. */
    method CreateDescriptorPools(vulkan: Device)
      requires vulkan.Valid()
      modifies this`descriptorPool, vulkan`pools, vulkan`next, (set m | m in meshes)`descriptorPool
      ensures vulkan.Valid() && vulkan.next == old(vulkan.next) + |meshes| + 1
      ensures forall h :: h in old(vulkan.pools) ==> h in vulkan.pools && vulkan.pools[h] == old(vulkan.pools)[h]
      ensures forall h :: h in vulkan.pools <==> h in old(vulkan.pools) || old(vulkan.next) <= h < vulkan.next
      ensures forall k :: 0 <= k < |meshes| ==>
        && old(vulkan.next) <= meshes[k].descriptorPool < vulkan.next
        && meshes[k].descriptorPool in vulkan.pools
        && vulkan.pools[meshes[k].descriptorPool] == Pool(MeshPoolSizes(), MaxFramesInFlight as U32, [])
      ensures DistinctMeshes(meshes) ==>
        forall k :: 0 <= k < |meshes| ==> meshes[k].descriptorPool == old(vulkan.next) + k
      ensures DistinctMeshes(meshes) ==>
        forall p, q :: 0 <= p < q < |meshes| ==> meshes[p].descriptorPool != meshes[q].descriptorPool
      ensures descriptorPool == old(vulkan.next) + |meshes|
      ensures descriptorPool in vulkan.pools && vulkan.pools[descriptorPool] == Pool(ScenePoolSizes(|textureData|), Wrap32(MaxFramesInFlight), [])
    {
      CreateMeshPools(vulkan);
      descriptorPool := vulkan.CreateDescriptorPool(ScenePoolSizes(|textureData|), Wrap32(MaxFramesInFlight));
    }

    /** The loop of `createDescriptorPools` over the meshes. */
    method CreateMeshPools(vulkan: Device)
      requires vulkan.Valid()
      modifies vulkan`pools, vulkan`next, (set m | m in meshes)`descriptorPool
      ensures vulkan.Valid() && vulkan.next == old(vulkan.next) + |meshes|
      ensures forall h :: h in old(vulkan.pools) ==> h in vulkan.pools && vulkan.pools[h] == old(vulkan.pools)[h]
      ensures forall h :: h in vulkan.pools <==> h in old(vulkan.pools) || old(vulkan.next) <= h < vulkan.next
      ensures forall k :: 0 <= k < |meshes| ==>
        && old(vulkan.next) <= meshes[k].descriptorPool < vulkan.next
        && meshes[k].descriptorPool in vulkan.pools
        && vulkan.pools[meshes[k].descriptorPool] == Pool(MeshPoolSizes(), MaxFramesInFlight as U32, [])
      ensures DistinctMeshes(meshes) ==>
        forall k :: 0 <= k < |meshes| ==> meshes[k].descriptorPool == old(vulkan.next) + k
    {
      var i := 0;
      while i < |meshes|
        invariant 0 <= i <= |meshes|
        invariant vulkan.Valid() && vulkan.next == old(vulkan.next) + i
        invariant forall h :: h in old(vulkan.pools) ==> h in vulkan.pools && vulkan.pools[h] == old(vulkan.pools)[h]
        invariant forall h :: h in vulkan.pools <==> h in old(vulkan.pools) || old(vulkan.next) <= h < vulkan.next
        invariant forall k :: 0 <= k < i ==>
          && old(vulkan.next) <= meshes[k].descriptorPool < vulkan.next
          && meshes[k].descriptorPool in vulkan.pools
          && vulkan.pools[meshes[k].descriptorPool] == Pool(MeshPoolSizes(), MaxFramesInFlight as U32, [])
        invariant DistinctMeshes(meshes) ==>
          forall k :: 0 <= k < i ==> meshes[k].descriptorPool == old(vulkan.next) + k
      {
        meshes[i].CreateDescriptorPool(vulkan);
        i := i + 1;
      }
    }

    /** `draw` for frame `frame`: one draw per mesh, in mesh order.  The
        node each mesh hangs from is `nodeOf(mesh.meshIndex)`, standing for
        `findNodeFromMeshIndex`.  What the push constants of each call mean
        (morphing on exactly when there are targets, the vertex count and
        the node index as 32-bit words) is `DrawConstantsFaithful`. */
    method Draw(frame: nat, nodeOf: int -> int) returns (calls: seq<DrawCall>)
      requires frame < |descriptorSets|
      requires forall m :: m in meshes ==> frame < |m.descriptorSets|
      ensures |calls| == |meshes|
      ensures forall k :: 0 <= k < |meshes| ==> calls[k] == DrawOf(meshes[k], descriptorSets, frame, nodeOf(meshes[k].meshIndex))
    {
      calls := [];
      for i := 0 to |meshes|
        invariant |calls| == i
        invariant forall k :: 0 <= k < i ==> calls[k] == DrawOf(meshes[k], descriptorSets, frame, nodeOf(meshes[k].meshIndex))
      {
        var mesh := meshes[i];
        var constants := DrawConstants(mesh.anims, |mesh.vertices|, nodeOf(mesh.meshIndex));
        calls := calls + [DrawCall(mesh.vertexBuffer, mesh.indexBuffer, [mesh.descriptorSets[frame], descriptorSets[frame]],
                                   constants, Wrap32(|mesh.indices|))];
      }
    }
  }
}
