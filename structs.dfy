/** The plain records the renderer shares with the GPU (structs.hpp), their
    byte layout, and the vertex-input tables built from that layout.

    Floating-point components are never computed on in the core: they are
    copied, swizzled or padded with a constant.  The model therefore keeps
    each `float` as its IEEE-754 single-precision bit pattern. */
module Structs {
  import opened Failures
  import opened Bytes
  import opened Layout

  /** A `float`, as its bit pattern. */
  type F32 = U32

  const F32Zero: F32 := 0
  const F32One: F32 := 0x3F80_0000

  datatype Vec2 = Vec2(x: F32, y: F32)
  datatype Vec3 = Vec3(x: F32, y: F32, z: F32)
  datatype Vec4 = Vec4(x: F32, y: F32, z: F32, w: F32)
  datatype UVec4 = UVec4(x: U32, y: U32, z: U32, w: U32)

  // ---------------------------------------------------------------------
  // QueueFamilyIndices

  datatype QueueFamilyIndices = QueueFamilyIndices(graphicsFamily: Option<U32>, presentFamily: Option<U32>)
  {
    /** Both queue families have been found. */
    function IsComplete(): (r: bool)
      ensures r <==> graphicsFamily.Some? && presentFamily.Some?
    {
      graphicsFamily.Some? && presentFamily.Some?
    }
  }

  // ---------------------------------------------------------------------
  // Vertex, AnimMesh, PushConstants

  /** One vertex as the vertex shader receives it.  `index` is a C `int`
      kept as its 32-bit two's-complement pattern. */
  datatype Vertex = Vertex(
    pos: Vec3,
    normal: Vec3,
    color: Vec3,
    texCoord: Vec2,
    joints: UVec4,
    weights: Vec4,
    index: U32)

  /** The fields of `Vertex` in declaration order: `alignas(16)` on the
      three `vec3`s and the two four-component vectors, `alignas(8)` on the
      `vec2`, natural alignment on the `int`. */
  function VertexFields(): (fs: seq<Field>)
  {
    [Field(12, 16), Field(12, 16), Field(12, 16), Field(8, 8), Field(16, 16), Field(16, 16), Field(4, 4)]
  }

  /** The scalar type of a GLM vector's components. */
  datatype Scalar = Float32 | Uint32 | Sint32

  /** The declared type of each `Vertex` field, as its component type and
      component count: three `vec3`, a `vec2`, a `uvec4`, a `vec4` and an `int`. */
  function VertexFieldTypes(): seq<(Scalar, nat)>
  {
    [(Float32, 3), (Float32, 3), (Float32, 3), (Float32, 2), (Uint32, 4), (Float32, 4), (Sint32, 1)]
  }

  /** One blend shape: a displacement per vertex, padded to four components. */
  datatype AnimMesh = AnimMesh(verts: seq<Vec4>)

  /** The push-constant block; the `int` fields are kept as 32-bit patterns. */
  datatype PushConstants = PushConstants(materialIndex: U32, value: F32, numVertices: U32, nodeIndex: U32)

  /** `UniformBufferObject`: three `mat4` and a `float`. */
  function UniformBufferFields(): (fs: seq<Field>)
  {
    [Field(64, 4), Field(64, 4), Field(64, 4), Field(4, 4)]
  }

  const VertexSize: nat := 112
  const UniformBufferSize: nat := 196
  const Vec4Size: nat := 16
  const U32Size: nat := 4

  /** The sizes used throughout the model are `sizeof` the structs as the
      layout rule gives them, and the vertex fields sit where the attribute
      table reads them. */
  lemma StructSizes()
    ensures Offsets(VertexFields()) == [0, 16, 32, 48, 64, 80, 96]
    ensures SizeOf(VertexFields()) == VertexSize
    ensures SizeOf(UniformBufferFields()) == UniformBufferSize
  {
    var fs := VertexFields();
    assert Offset(fs, 0) == 0;
    assert Offset(fs, 1) == 16;
    assert Offset(fs, 2) == 32;
    assert Offset(fs, 3) == 48;
    assert Offset(fs, 4) == 64;
    assert Offset(fs, 5) == 80;
    assert Offset(fs, 6) == 96;
    assert End(fs) == 100;
    assert MaxAlignFrom(fs, 0) == 16 by {
      assert MaxAlignFrom(fs, 6) == 4;
      assert MaxAlignFrom(fs, 5) == 16;
    }
    var us := UniformBufferFields();
    assert Offset(us, 0) == 0;
    assert Offset(us, 1) == 64;
    assert Offset(us, 2) == 128;
    assert Offset(us, 3) == 192;
    assert End(us) == 196;
    assert MaxAlignFrom(us, 0) == 4;
  }

  // ---------------------------------------------------------------------
  // Vertex input description (Vertex::getBindingDescription,
  // Vertex::getAttributeDescriptions)

  datatype InputRate = PerVertex | PerInstance

  datatype BindingDescription = BindingDescription(binding: nat, stride: nat, inputRate: InputRate)

  datatype Format = R32G32B32Sfloat | R32G32Sfloat | R32G32B32A32Uint | R32G32B32A32Sfloat | R32Sint

  /** The number of bytes an attribute of this format reads. */
  function FormatSize(f: Format): nat
  {
    match f
    case R32G32B32Sfloat => 12
    case R32G32Sfloat => 8
    case R32G32B32A32Uint => 16
    case R32G32B32A32Sfloat => 16
    case R32Sint => 4
  }

  /** The components a format reads: their scalar type and their number. */
  function FormatType(f: Format): (Scalar, nat)
  {
    match f
    case R32G32B32Sfloat => (Float32, 3)
    case R32G32Sfloat => (Float32, 2)
    case R32G32B32A32Uint => (Uint32, 4)
    case R32G32B32A32Sfloat => (Float32, 4)
    case R32Sint => (Sint32, 1)
  }

  datatype AttributeDescription = AttributeDescription(location: nat, binding: nat, format: Format, offset: nat)

  /** Vertices come from binding 0, one `Vertex` apart, advancing per vertex. */
  function GetBindingDescription(): (r: BindingDescription)
    ensures r.binding == 0 && r.inputRate == PerVertex
    ensures r.stride == VertexSize
  {
    StructSizes();
    BindingDescription(0, SizeOf(VertexFields()), PerVertex)
  }

  /** One attribute per `Vertex` field, at location i for field i; the
      offsets are the source's `offsetof` constants. */
  function GetAttributeDescriptions(): (r: seq<AttributeDescription>)
    ensures |r| == 7
  {
    [AttributeDescription(0, 0, R32G32B32Sfloat, 0),
     AttributeDescription(1, 0, R32G32B32Sfloat, 16),
     AttributeDescription(2, 0, R32G32B32Sfloat, 32),
     AttributeDescription(3, 0, R32G32Sfloat, 48),
     AttributeDescription(4, 0, R32G32B32A32Uint, 64),
     AttributeDescription(5, 0, R32G32B32A32Sfloat, 80),
     AttributeDescription(6, 0, R32Sint, 96)]
  }

  /** Attribute i is read from binding 0 at location i, at the `offsetof`
      field i that the layout rule gives, in a format reading exactly the
      bytes of that field and reading its components as the field declares
      them (floats, joints as four unsigned ints, the index as one signed int). */
  lemma AttributesFollowLayout()
    ensures forall i :: 0 <= i < 7 ==> GetAttributeDescriptions()[i].binding == 0 && GetAttributeDescriptions()[i].location == i
    ensures forall i :: 0 <= i < 7 ==> GetAttributeDescriptions()[i].offset == Offsets(VertexFields())[i]
    ensures forall i :: 0 <= i < 7 ==> FormatSize(GetAttributeDescriptions()[i].format) == VertexFields()[i].size
    ensures forall i :: 0 <= i < 7 ==> FormatType(GetAttributeDescriptions()[i].format) == VertexFieldTypes()[i]
  {
    StructSizes();
    var d, fs, ts := GetAttributeDescriptions(), VertexFields(), VertexFieldTypes();
    var offsets := Offsets(fs);
    assert offsets == [0, 16, 32, 48, 64, 80, 96];
    forall i | 0 <= i < 7
      ensures d[i].offset == offsets[i]
      ensures FormatSize(d[i].format) == fs[i].size && FormatType(d[i].format) == ts[i]
    {
    }
  }

  /** The attributes are in field order and each one ends inside one
      vertex stride, so no attribute reads into the next vertex. */
  lemma AttributesWithinStride()
    ensures forall i :: 0 <= i < 6 ==> GetAttributeDescriptions()[i].offset < GetAttributeDescriptions()[i + 1].offset
    ensures forall i :: 0 <= i < 7 ==>
      GetAttributeDescriptions()[i].offset + FormatSize(GetAttributeDescriptions()[i].format) <= GetBindingDescription().stride
  {
  }

  // ---------------------------------------------------------------------
  // Bytes the GPU receives

  function Vec2Bytes(v: Vec2): (r: seq<byte>)
    ensures |r| == 8
  {
    U32Bytes(v.x) + U32Bytes(v.y)
  }

  function Vec3Bytes(v: Vec3): (r: seq<byte>)
    ensures |r| == 12
  {
    U32Bytes(v.x) + U32Bytes(v.y) + U32Bytes(v.z)
  }

  function Vec4Bytes(v: Vec4): (r: seq<byte>)
    ensures |r| == Vec4Size
  {
    U32Bytes(v.x) + U32Bytes(v.y) + U32Bytes(v.z) + U32Bytes(v.w)
  }

  function UVec4Bytes(v: UVec4): (r: seq<byte>)
    ensures |r| == 16
  {
    U32Bytes(v.x) + U32Bytes(v.y) + U32Bytes(v.z) + U32Bytes(v.w)
  }

  /** `b` followed by zero padding up to `n` bytes. */
  function Padded(b: seq<byte>, n: nat): (r: seq<byte>)
    requires |b| <= n
    ensures |r| == n && r[..|b|] == b
  {
    b + Zeros(n - |b|)
  }

  /** Every field of `Vertex` starts a 16-byte slot: the field's bytes,
      then padding up to the next field (or to the end of the struct). */
  function VertexSlots(v: Vertex): (ss: seq<seq<byte>>)
    ensures |ss| == 7
    ensures forall k :: 0 <= k < 7 ==> |ss[k]| == 16
  {
    [Padded(Vec3Bytes(v.pos), 16),
     Padded(Vec3Bytes(v.normal), 16),
     Padded(Vec3Bytes(v.color), 16),
     Padded(Vec2Bytes(v.texCoord), 16),
     UVec4Bytes(v.joints),
     Vec4Bytes(v.weights),
     Padded(U32Bytes(v.index), 16)]
  }

  /** The slots laid end to end. */
  function Flatten(ss: seq<seq<byte>>): seq<byte>
  {
    if ss == [] then [] else ss[0] + Flatten(ss[1..])
  }

  /** Slot `k` of 16-byte slots occupies bytes `[16k, 16k + 16)`. */
  lemma {:induction false} FlattenSlot(ss: seq<seq<byte>>, k: nat)
    requires forall j :: 0 <= j < |ss| ==> |ss[j]| == 16
    requires k < |ss|
    ensures |Flatten(ss)| == 16 * |ss|
    ensures Flatten(ss)[16 * k .. 16 * k + 16] == ss[k]
    decreases k
  {
    FlattenLength(ss);
    if k > 0 {
      FlattenSlot(ss[1..], k - 1);
      var rest := Flatten(ss[1..]);
      assert Flatten(ss) == ss[0] + rest;
      assert Flatten(ss)[16 * k .. 16 * k + 16] == rest[16 * (k - 1) .. 16 * (k - 1) + 16];
    }
  }

  lemma {:induction false} FlattenLength(ss: seq<seq<byte>>)
    requires forall j :: 0 <= j < |ss| ==> |ss[j]| == 16
    ensures |Flatten(ss)| == 16 * |ss|
    decreases |ss|
  {
    if ss != [] {
      FlattenLength(ss[1..]);
    }
  }

  /** The bytes of one `Vertex`; padding is written as zero. */
  function VertexBytes(v: Vertex): (r: seq<byte>)
    ensures |r| == VertexSize
  {
    FlattenLength(VertexSlots(v));
    Flatten(VertexSlots(v))
  }

  /** Each field of a vertex sits at its `offsetof`, so the attribute table
      reads back exactly the fields. */
  lemma VertexFieldsAtOffsets(v: Vertex)
    ensures var r := VertexBytes(v);
      && r[0..12] == Vec3Bytes(v.pos)
      && r[16..28] == Vec3Bytes(v.normal)
      && r[32..44] == Vec3Bytes(v.color)
      && r[48..56] == Vec2Bytes(v.texCoord)
      && r[64..80] == UVec4Bytes(v.joints)
      && r[80..96] == Vec4Bytes(v.weights)
      && r[96..100] == U32Bytes(v.index)
  {
    var ss := VertexSlots(v);
    var r := VertexBytes(v);
    forall k | 0 <= k < 7
      ensures r[16 * k .. 16 * k + 16] == ss[k]
    {
      FlattenSlot(ss, k);
    }
    SlotPrefix(r, 0, ss[0], 12);
    SlotPrefix(r, 16, ss[1], 12);
    SlotPrefix(r, 32, ss[2], 12);
    SlotPrefix(r, 48, ss[3], 8);
    SlotPrefix(r, 96, ss[6], 4);
    assert r[64..80] == ss[4] && r[80..96] == ss[5];
  }

  /** The first `m` bytes of a slot found at `at`. */
  lemma SlotPrefix(r: seq<byte>, at: nat, slot: seq<byte>, m: nat)
    requires at + 16 <= |r| && |slot| == 16 && m <= 16
    requires r[at .. at + 16] == slot
    ensures r[at .. at + m] == slot[..m]
  {
    assert r[at .. at + m] == r[at .. at + 16][..m];
  }

  /** The bytes of a `std::vector<Vertex>`. */
  function VerticesBytes(vs: seq<Vertex>): (r: seq<byte>)
    ensures |r| == VertexSize * |vs|
  {
    if vs == [] then [] else VertexBytes(vs[0]) + VerticesBytes(vs[1..])
  }

  /** The bytes of a `std::vector<glm::vec4>`. */
  function Vec4sBytes(vs: seq<Vec4>): (r: seq<byte>)
    ensures |r| == Vec4Size * |vs|
  {
    if vs == [] then [] else Vec4Bytes(vs[0]) + Vec4sBytes(vs[1..])
  }

  /** The bytes of a `std::vector<uint32_t>`. */
  function U32sBytes(ws: seq<U32>): (r: seq<byte>)
    ensures |r| == U32Size * |ws|
  {
    if ws == [] then [] else U32Bytes(ws[0]) + U32sBytes(ws[1..])
  }
}
