/** The VRM importer's records and its header getters (importer/VRMImporter.hpp).

    Every getter is a chain of `operator[]` reads on the importer's non-const
    `header`, followed by conversions to `int` or `size_t`; the ones that
    resolve an accessor end in `buffer.at(byteOffset)`, which throws when the
    offset is not inside `buffer`.  A getter here takes the header and the
    buffer as arguments and returns what the C++ getter returns, or the
    error it raises. */
module Vrm {
  import opened Failures
  import opened Bytes
  import opened JsonValue
  import opened Layout
  import opened Structs

  const SizeModulus: nat := 0x1_0000_0000_0000_0000

  /** `Array<T>`: where the elements start in `buffer` (null when absent)
      and how many there are. */
  datatype View = View(data: Option<nat>, count: nat)

  const NullView: View := View(None, 0)

  /** `VRM::Material`.  `alphaMode` is 0 for masked, 1 for any other mode, -1 when not given. */
  datatype Material = Material(
    doubleSided: bool,
    alphaMode: int,
    normalTextureIndex: int,
    emissiveTextureIndex: int,
    baseColourTextureIndex: int)

  /** A `bool` and four `int`s. */
  function MaterialFields(): seq<Field>
  {
    [Field(1, 1), Field(4, 4), Field(4, 4), Field(4, 4), Field(4, 4)]
  }

  const MaterialSize: nat := 20

  lemma MaterialLayout()
    ensures Offsets(MaterialFields()) == [0, 4, 8, 12, 16]
    ensures SizeOf(MaterialFields()) == MaterialSize
  {
    var fs := MaterialFields();
    assert Offset(fs, 0) == 0;
    assert Offset(fs, 1) == 4;
    assert Offset(fs, 2) == 8;
    assert Offset(fs, 3) == 12;
    assert Offset(fs, 4) == 16;
    assert End(fs) == 20;
    assert MaxAlignFrom(fs, 0) == 4;
  }

  /** The 20 bytes of a material as the fragment shader reads them: the
      `bool` as 0 or 1 followed by three padding bytes (taken as zero), then
      the four `int`s in two's complement. */
  function MaterialBytes(m: Material): (r: seq<byte>)
    ensures |r| == MaterialSize
    ensures r[0] == (if m.doubleSided then 1 else 0)
    ensures r[4..8] == U32Bytes(Wrap32(m.alphaMode)) && r[8..12] == U32Bytes(Wrap32(m.normalTextureIndex))
    ensures r[12..16] == U32Bytes(Wrap32(m.emissiveTextureIndex)) && r[16..20] == U32Bytes(Wrap32(m.baseColourTextureIndex))
  {
    [if m.doubleSided then 1 else 0, 0, 0, 0]
      + U32Bytes(Wrap32(m.alphaMode)) + U32Bytes(Wrap32(m.normalTextureIndex))
      + U32Bytes(Wrap32(m.emissiveTextureIndex)) + U32Bytes(Wrap32(m.baseColourTextureIndex))
  }

  /** `VRM::TextureData`: the bytes of an embedded image, as an offset into `buffer` and a length. */
  datatype TextureData = TextureData(begin: nat, byteLength: nat)

  /** `VRM::FCNSNode`: a node in first-child/next-sibling form. */
  datatype FCNSNode = FCNSNode(
    translation: Vec4,
    scale: Vec4,
    rotation: Vec4,
    mesh: int,
    skin: int,
    firstChild: int,
    nextSibling: int)

  /** Three `glm::vec4` (aligned to 16 by `GLM_FORCE_DEFAULT_ALIGNED_GENTYPES`) and four `int`s. */
  function NodeFields(): seq<Field>
  {
    [Field(16, 16), Field(16, 16), Field(16, 16), Field(4, 4), Field(4, 4), Field(4, 4), Field(4, 4)]
  }

  const NodeSize: nat := 64

  lemma NodeLayout()
    ensures Offsets(NodeFields()) == [0, 16, 32, 48, 52, 56, 60]
    ensures SizeOf(NodeFields()) == NodeSize
  {
    var fs := NodeFields();
    assert Offset(fs, 0) == 0;
    assert Offset(fs, 1) == 16;
    assert Offset(fs, 2) == 32;
    assert Offset(fs, 3) == 48;
    assert Offset(fs, 4) == 52;
    assert Offset(fs, 5) == 56;
    assert Offset(fs, 6) == 60;
    assert End(fs) == 64;
    assert MaxAlignFrom(fs, 0) == 16 by {
      assert MaxAlignFrom(fs, 3) == 4;
    }
  }

  /** The 64 bytes of one node as the shaders read them; `int`s are two's complement. */
  function NodeBytes(n: FCNSNode): (r: seq<byte>)
    ensures |r| == NodeSize
    ensures r[0..16] == Vec4Bytes(n.translation)
    ensures r[16..32] == Vec4Bytes(n.scale)
    ensures r[32..48] == Vec4Bytes(n.rotation)
    ensures r[48..52] == U32Bytes(Wrap32(n.mesh)) && r[52..56] == U32Bytes(Wrap32(n.skin))
    ensures r[56..60] == U32Bytes(Wrap32(n.firstChild)) && r[60..64] == U32Bytes(Wrap32(n.nextSibling))
  {
    var r := Vec4Bytes(n.translation) + Vec4Bytes(n.scale) + Vec4Bytes(n.rotation)
      + U32Bytes(Wrap32(n.mesh)) + U32Bytes(Wrap32(n.skin))
      + U32Bytes(Wrap32(n.firstChild)) + U32Bytes(Wrap32(n.nextSibling));
    assert r[0..48] == Vec4Bytes(n.translation) + Vec4Bytes(n.scale) + Vec4Bytes(n.rotation);
    r
  }

  /** The bytes of a `std::vector<VRM::FCNSNode>`. */
  function NodesBytes(ns: seq<FCNSNode>): (r: seq<byte>)
    ensures |r| == NodeSize * |ns|
  {
    if ns == [] then [] else NodeBytes(ns[0]) + NodesBytes(ns[1..])
  }

  /** Node `k` of the array sits at byte `sizeof(FCNSNode) * k`, where a
      shader indexing the node buffer with `k` reads it. */
  lemma {:induction false} NodesBytesAt(ns: seq<FCNSNode>, k: nat)
    requires k < |ns|
    ensures NodeSize * k + NodeSize <= |NodesBytes(ns)|
    ensures NodesBytes(ns)[NodeSize * k .. NodeSize * k + NodeSize] == NodeBytes(ns[k])
  {
    var head, rest := NodeBytes(ns[0]), NodesBytes(ns[1..]);
    assert NodesBytes(ns) == head + rest;
    if k == 0 {
      assert (head + rest)[..NodeSize] == head;
    } else {
      NodesBytesAt(ns[1..], k - 1);
      var at := NodeSize * (k - 1);
      assert NodeSize * k == |head| + at;
      SliceAfter(head, rest, at, NodeSize);
    }
  }

  /** A window of `a + b` past the end of `a` is a window of `b`. */
  lemma SliceAfter(a: seq<byte>, b: seq<byte>, at: nat, n: nat)
    requires at + n <= |b|
    ensures (a + b)[|a| + at .. |a| + at + n] == b[at .. at + n]
  {
  }

  /** An `int` used as a `size_t` index: a negative value wraps round to a huge one. */
  function SizeIndex(i: int): (r: nat)
    ensures 0 <= i < SizeModulus ==> r == i
  {
    i % SizeModulus
  }

  // ---------------------------------------------------------------------
  // Lookup chains

  /** `header["meshes"][meshIndex]["primitives"][primitiveIndex]`. */
  function Primitive(header: Json, meshIndex: nat, primitiveIndex: nat): Result<Json>
  {
    var meshes :- Member(header, "meshes");
    var mesh :- Element(meshes, meshIndex);
    var primitives :- Member(mesh, "primitives");
    Element(primitives, primitiveIndex)
  }

  /** The tail every accessor-resolving getter shares: accessor → bufferView →
      `byteOffset`, the accessor's `count`, and `buffer.at(byteOffset)`. */
  function AccessorView(header: Json, buffer: seq<byte>, accessorIndex: int): (r: Result<View>)
    ensures r.Ok? ==> r.value.data.Some? && r.value.data.value < |buffer|
  {
    var accessors :- Member(header, "accessors");
    var accessor :- Element(accessors, SizeIndex(accessorIndex));
    var viewIndexJson :- Member(accessor, "bufferView");
    var viewIndex :- ToSize(viewIndexJson);
    // `header` and `accessor` have already been indexed by name, so these reads cannot throw.
    var views := Member(header, "bufferViews").value;
    var view :- Element(views, viewIndex);
    var offsetJson :- Member(view, "byteOffset");
    var byteOffset :- ToSize(offsetJson);
    var countJson := Member(accessor, "count").value;
    var count :- ToSize(countJson);
    if byteOffset < |buffer| then Ok(View(Some(byteOffset), count)) else Err(OutOfRange)
  }

  /** `getMeshAttribute`: the null view exactly when the primitive's
      `attributes` does not name the attribute; otherwise the attribute's
      accessor resolved into `buffer`. */
  function GetMeshAttribute(header: Json, buffer: seq<byte>, meshIndex: nat, primitiveIndex: nat, attribute: string): (r: Result<View>)
    ensures r.Ok? && r.value.data.None? <==>
      && Primitive(header, meshIndex, primitiveIndex).Ok?
      && Member(Primitive(header, meshIndex, primitiveIndex).value, "attributes").Ok?
      && !Contains(Member(Primitive(header, meshIndex, primitiveIndex).value, "attributes").value, attribute)
    ensures r.Ok? && r.value.data.None? ==> r.value == NullView
    ensures r.Ok? && r.value.data.Some? ==> r.value.data.value < |buffer|
  {
    var primitive :- Primitive(header, meshIndex, primitiveIndex);
    var attributes :- Member(primitive, "attributes");
    if !Contains(attributes, attribute) then Ok(NullView)
    else
      var accessorIndex :- ToInt32(attributes.fields[attribute]);
      AccessorView(header, buffer, accessorIndex)
  }

  /** `getMeshProperty`: the accessor named by `primitive[property]`, with no absence check. */
  function GetMeshProperty(header: Json, buffer: seq<byte>, meshIndex: nat, primitiveIndex: nat, property: string): (r: Result<View>)
    ensures r.Ok? ==> r.value.data.Some? && r.value.data.value < |buffer|
    ensures (&& Primitive(header, meshIndex, primitiveIndex).Ok?
             && Primitive(header, meshIndex, primitiveIndex).value.Obj?
             && !Contains(Primitive(header, meshIndex, primitiveIndex).value, property))
            ==> r == Err(TypeError)
  {
    var primitive :- Primitive(header, meshIndex, primitiveIndex);
    var accessorJson :- Member(primitive, property);
    var accessorIndex :- ToInt32(accessorJson);
    AccessorView(header, buffer, accessorIndex)
  }

  /** `getMeshMorph`: the accessor named by `primitive.targets[morphIndex][attribute]`. */
  function GetMeshMorph(header: Json, buffer: seq<byte>, meshIndex: nat, primitiveIndex: nat, morphIndex: nat, attribute: string): (r: Result<View>)
    ensures r.Ok? ==> r.value.data.Some? && r.value.data.value < |buffer|
  {
    var primitive :- Primitive(header, meshIndex, primitiveIndex);
    var targets :- Member(primitive, "targets");
    var target :- Element(targets, morphIndex);
    var accessorJson :- Member(target, attribute);
    var accessorIndex :- ToInt32(accessorJson);
    AccessorView(header, buffer, accessorIndex)
  }

  /** `getMeshMaterialIndex`: a primitive without `material` reads as null, which does not convert. */
  function GetMeshMaterialIndex(header: Json, meshIndex: nat, primitiveIndex: nat): (r: Result<nat>)
    ensures r.Ok? ==> r.value < SizeModulus
    ensures (&& Primitive(header, meshIndex, primitiveIndex).Ok?
             && !Contains(Primitive(header, meshIndex, primitiveIndex).value, "material"))
            ==> r == Err(TypeError)
    ensures (&& Primitive(header, meshIndex, primitiveIndex).Ok?
             && Contains(Primitive(header, meshIndex, primitiveIndex).value, "material"))
            ==> r == ToSize(Primitive(header, meshIndex, primitiveIndex).value.fields["material"])
  {
    var primitive :- Primitive(header, meshIndex, primitiveIndex);
    var index :- Member(primitive, "material");
    ToSize(index)
  }

  /** `getBufferView`: the view's `byteOffset`; the address is formed without a bounds check. */
  function GetBufferView(header: Json, bufferView: nat): (r: Result<nat>)
    ensures r.Ok? ==> r.value < SizeModulus
    ensures Contains(header, "bufferViews") && Contains(At(header.fields["bufferViews"], bufferView), "byteOffset")
            ==> r == ToSize(At(header.fields["bufferViews"], bufferView).fields["byteOffset"])
    ensures Contains(header, "bufferViews") && At(header.fields["bufferViews"], bufferView).Obj?
            && !Contains(At(header.fields["bufferViews"], bufferView), "byteOffset")
            ==> r == Err(TypeError)
  {
    var views :- Member(header, "bufferViews");
    var view :- Element(views, bufferView);
    var offset :- Member(view, "byteOffset");
    ToSize(offset)
  }

  /** `getTextureData`: the bufferView of `images[textureIndex]`, as its offset and its `byteLength`. */
  function GetTextureData(header: Json, textureIndex: nat): (r: Result<TextureData>)
    ensures r.Ok? ==> r.value.begin < SizeModulus && r.value.byteLength < SizeModulus
  {
    var images :- Member(header, "images");
    var image :- Element(images, textureIndex);
    var viewIndexJson :- Member(image, "bufferView");
    var viewIndex :- ToSize(viewIndexJson);
    var begin :- GetBufferView(header, viewIndex);
    // The same reads succeeded inside `getBufferView`.
    var view := Element(Member(header, "bufferViews").value, viewIndex).value;
    var lengthJson := Member(view, "byteLength").value;
    var byteLength :- ToSize(lengthJson);
    Ok(TextureData(begin, byteLength))
  }

  /** `header["materials"][materialIndex]`. */
  function MaterialJson(header: Json, materialIndex: nat): Result<Json>
  {
    var materials :- Member(header, "materials");
    Element(materials, materialIndex)
  }

  /** A texture reference `{"index": i}` read as an `int`. */
  function TextureIndex(texture: Json): Result<int>
  {
    var index :- Member(texture, "index");
    ToInt32(index)
  }

  /** `getMaterial`: every field the material omits takes the importer's default. */
  function GetMaterial(header: Json, materialIndex: nat): (r: Result<Material>)
    ensures MaterialJson(header, materialIndex).Err? ==> r.Err?
    ensures r.Ok? ==> var m := MaterialJson(header, materialIndex).value;
      && (r.value.alphaMode == -1 <==> !Contains(m, "alphaMode"))
      && (r.value.alphaMode == 0 <==> Contains(m, "alphaMode") && m.fields["alphaMode"] == Str("MASK"))
      && (r.value.alphaMode == 1 <==> Contains(m, "alphaMode") && m.fields["alphaMode"] != Str("MASK"))
      && (r.value.doubleSided <==> Contains(m, "doubleSided") && m.fields["doubleSided"] == Bool(true))
      && (!Contains(m, "normalTexture") ==> r.value.normalTextureIndex == -1)
      && (Contains(m, "normalTexture") ==> TextureIndex(m.fields["normalTexture"]) == Ok(r.value.normalTextureIndex))
      && (!Contains(m, "emissiveTexture") ==> r.value.emissiveTextureIndex == -1)
      && (Contains(m, "emissiveTexture") ==> TextureIndex(m.fields["emissiveTexture"]) == Ok(r.value.emissiveTextureIndex))
      && (!(Contains(m, "pbrMetallicRoughness") && Contains(m.fields["pbrMetallicRoughness"], "baseColorTexture"))
          ==> r.value.baseColourTextureIndex == -1)
      && (Contains(m, "pbrMetallicRoughness") && Contains(m.fields["pbrMetallicRoughness"], "baseColorTexture")
          ==> TextureIndex(m.fields["pbrMetallicRoughness"].fields["baseColorTexture"])
              == Ok(r.value.baseColourTextureIndex))
    ensures MaterialJson(header, materialIndex).Ok? ==> var m := MaterialJson(header, materialIndex).value;
      (r.Ok? <==>
        && (Contains(m, "doubleSided") ==> m.fields["doubleSided"].Bool?)
        && (Contains(m, "normalTexture") ==> TextureIndex(m.fields["normalTexture"]).Ok?)
        && (Contains(m, "emissiveTexture") ==> TextureIndex(m.fields["emissiveTexture"]).Ok?)
        && (Contains(m, "pbrMetallicRoughness") && Contains(m.fields["pbrMetallicRoughness"], "baseColorTexture")
            ==> TextureIndex(m.fields["pbrMetallicRoughness"].fields["baseColorTexture"]).Ok?))
  {
    var mat :- MaterialJson(header, materialIndex);
    var alphaMode :=
      if Contains(mat, "alphaMode") then (if mat.fields["alphaMode"] == Str("MASK") then 0 else 1) else -1;
    var doubleSided :- if Contains(mat, "doubleSided") then ToBool(mat.fields["doubleSided"]) else Ok(false);
    var normal :- if Contains(mat, "normalTexture") then TextureIndex(mat.fields["normalTexture"]) else Ok(-1);
    var emissive :- if Contains(mat, "emissiveTexture") then TextureIndex(mat.fields["emissiveTexture"]) else Ok(-1);
    var baseColour :-
      if Contains(mat, "pbrMetallicRoughness") && Contains(mat.fields["pbrMetallicRoughness"], "baseColorTexture")
      then TextureIndex(mat.fields["pbrMetallicRoughness"].fields["baseColorTexture"])
      else Ok(-1);
    Ok(Material(doubleSided, alphaMode, normal, emissive, baseColour))
  }

  // ---------------------------------------------------------------------
  // Counts

  /** `getMeshCount`: a header without `meshes` has none. */
  function GetMeshCount(header: Json): (r: Result<nat>)
    ensures r.Ok? <==> header.Obj? || header.Null?
    ensures r.Ok? && !Contains(header, "meshes") ==> r.value == 0
    ensures Contains(header, "meshes") && header.fields["meshes"].Arr? ==> r == Ok(|header.fields["meshes"].items|)
  {
    var meshes :- Member(header, "meshes");
    Ok(Size(meshes))
  }

  /** `getPrimitiveCount`. */
  function GetPrimitiveCount(header: Json, meshIndex: nat): (r: Result<nat>)
    ensures (&& r.Ok? && Contains(header, "meshes") && header.fields["meshes"].Arr?
             && meshIndex >= |header.fields["meshes"].items|)
            ==> r.value == 0
    ensures (&& Contains(header, "meshes") && At(header.fields["meshes"], meshIndex).Obj?
             && !Contains(At(header.fields["meshes"], meshIndex), "primitives"))
            ==> r == Ok(0)
    ensures (&& Contains(header, "meshes") && Contains(At(header.fields["meshes"], meshIndex), "primitives")
             && At(header.fields["meshes"], meshIndex).fields["primitives"].Arr?)
            ==> r == Ok(|At(header.fields["meshes"], meshIndex).fields["primitives"].items|)
  {
    var meshes :- Member(header, "meshes");
    var mesh :- Element(meshes, meshIndex);
    var primitives :- Member(mesh, "primitives");
    Ok(Size(primitives))
  }

  /** `getTextureCount`: the number of `textures` (not of `images`). */
  function GetTextureCount(header: Json): (r: Result<nat>)
    ensures r.Ok? <==> header.Obj? || header.Null?
    ensures r.Ok? && !Contains(header, "textures") ==> r.value == 0
    ensures Contains(header, "textures") && header.fields["textures"].Arr? ==> r == Ok(|header.fields["textures"].items|)
  {
    var textures :- Member(header, "textures");
    Ok(Size(textures))
  }

  /** `getMeshBlendShapeCount`: a primitive without `targets` has no blend shapes. */
  function GetMeshBlendShapeCount(header: Json, meshIndex: nat, primitiveIndex: nat): (r: Result<nat>)
    ensures Primitive(header, meshIndex, primitiveIndex).Ok? ==> var p := Primitive(header, meshIndex, primitiveIndex).value;
      && (r.Ok? <==> p.Obj? || p.Null?)
      && (r.Ok? && !Contains(p, "targets") ==> r.value == 0)
      && (Contains(p, "targets") && p.fields["targets"].Arr? ==> r == Ok(|p.fields["targets"].items|))
  {
    var primitive :- Primitive(header, meshIndex, primitiveIndex);
    var targets :- Member(primitive, "targets");
    Ok(Size(targets))
  }

  // ---------------------------------------------------------------------
  // The getters against the glTF shape they expect

  /** `j` is the number `n`, as the glTF header writes an index or a count. */
  predicate IsNat(j: Json, n: nat)
  {
    j.Num? && j.asInt == n
  }

  /** `key` of the object `j`, or null. */
  function Get(j: Json, key: string): Json
  {
    if Contains(j, key) then j.fields[key] else Null
  }

  /** Item `i` of the array `j`, or null. */
  function At(j: Json, i: nat): Json
  {
    if j.Arr? && i < |j.items| then j.items[i] else Null
  }

  /** Accessor `a` of a well-formed header names bufferView `v`, which
      starts at `byteOffset`, and holds `count` elements. */
  predicate AccessorIs(header: Json, a: nat, v: nat, byteOffset: nat, count: nat)
  {
    && header.Obj?
    && var accessor := At(Get(header, "accessors"), a);
    && accessor.Obj?
    && IsNat(Get(accessor, "bufferView"), v)
    && IsNat(Get(accessor, "count"), count)
    && var view := At(Get(header, "bufferViews"), v);
    && view.Obj?
    && IsNat(Get(view, "byteOffset"), byteOffset)
  }

  /** On a well-formed header the accessor resolves to the start of its
      bufferView (the accessor's own `byteOffset` is not added) and to its
      `count`; the only failure left is an offset outside `buffer`. */
  lemma AccessorViewOfWellFormed(header: Json, buffer: seq<byte>, a: nat, v: nat, byteOffset: nat, count: nat)
    requires AccessorIs(header, a, v, byteOffset, count)
    requires a < 0x8000_0000 && v < SizeModulus && byteOffset < SizeModulus && count < SizeModulus
    ensures AccessorView(header, buffer, a)
      == if byteOffset < |buffer| then Ok(View(Some(byteOffset), count)) else Err(OutOfRange)
  {
  }

  /** An accessor that does not name a bufferView reads it as null, which
      does not convert to `size_t`: nothing checks for its absence. */
  lemma AccessorWithoutBufferView(header: Json, buffer: seq<byte>, a: nat)
    requires header.Obj? && a < 0x8000_0000
    requires At(Get(header, "accessors"), a).Obj? && !Contains(At(Get(header, "accessors"), a), "bufferView")
    requires Get(header, "accessors").Arr?
    ensures AccessorView(header, buffer, a) == Err(TypeError)
  {
  }

  /** `getMeshProperty` on a primitive whose `property` names accessor `a`. */
  lemma MeshPropertyOfWellFormed(header: Json, buffer: seq<byte>, meshIndex: nat, primitiveIndex: nat,
                                 property: string, a: nat, v: nat, byteOffset: nat, count: nat)
    requires Primitive(header, meshIndex, primitiveIndex).Ok?
    requires IsNat(Get(Primitive(header, meshIndex, primitiveIndex).value, property), a)
    requires AccessorIs(header, a, v, byteOffset, count)
    requires a < 0x8000_0000 && v < SizeModulus && byteOffset < SizeModulus && count < SizeModulus
    ensures GetMeshProperty(header, buffer, meshIndex, primitiveIndex, property)
      == if byteOffset < |buffer| then Ok(View(Some(byteOffset), count)) else Err(OutOfRange)
  {
    AccessorViewOfWellFormed(header, buffer, a, v, byteOffset, count);
  }

  /** `getMeshMorph` on a primitive whose target `morphIndex` names accessor `a` for `attribute`. */
  lemma MeshMorphOfWellFormed(header: Json, buffer: seq<byte>, meshIndex: nat, primitiveIndex: nat, morphIndex: nat,
                              attribute: string, a: nat, v: nat, byteOffset: nat, count: nat)
    requires Primitive(header, meshIndex, primitiveIndex).Ok?
    requires var p := Primitive(header, meshIndex, primitiveIndex).value;
      IsNat(Get(At(Get(p, "targets"), morphIndex), attribute), a)
    requires AccessorIs(header, a, v, byteOffset, count)
    requires a < 0x8000_0000 && v < SizeModulus && byteOffset < SizeModulus && count < SizeModulus
    ensures GetMeshMorph(header, buffer, meshIndex, primitiveIndex, morphIndex, attribute)
      == if byteOffset < |buffer| then Ok(View(Some(byteOffset), count)) else Err(OutOfRange)
  {
    AccessorViewOfWellFormed(header, buffer, a, v, byteOffset, count);
  }

  /** `getTextureData` on an image whose `bufferView` is `v`, a view at
      `byteOffset` of `byteLength` bytes. */
  lemma TextureDataOfWellFormed(header: Json, textureIndex: nat, v: nat, byteOffset: nat, byteLength: nat)
    requires header.Obj?
    requires IsNat(Get(At(Get(header, "images"), textureIndex), "bufferView"), v)
    requires var view := At(Get(header, "bufferViews"), v);
      IsNat(Get(view, "byteOffset"), byteOffset) && IsNat(Get(view, "byteLength"), byteLength)
    requires v < SizeModulus && byteOffset < SizeModulus && byteLength < SizeModulus
    ensures GetTextureData(header, textureIndex) == Ok(TextureData(byteOffset, byteLength))
  {
  }

  /** `getMeshAttribute` on a primitive whose `attributes` names accessor `a`. */
  lemma MeshAttributeOfWellFormed(header: Json, buffer: seq<byte>, meshIndex: nat, primitiveIndex: nat,
                                 attribute: string, a: nat, v: nat, byteOffset: nat, count: nat)
    requires Primitive(header, meshIndex, primitiveIndex).Ok?
    requires var p := Primitive(header, meshIndex, primitiveIndex).value;
      Contains(p, "attributes") && IsNat(Get(p.fields["attributes"], attribute), a)
    requires AccessorIs(header, a, v, byteOffset, count)
    requires a < 0x8000_0000 && v < SizeModulus && byteOffset < SizeModulus && count < SizeModulus
    ensures GetMeshAttribute(header, buffer, meshIndex, primitiveIndex, attribute)
      == if byteOffset < |buffer| then Ok(View(Some(byteOffset), count)) else Err(OutOfRange)
  {
    AccessorViewOfWellFormed(header, buffer, a, v, byteOffset, count);
  }
}
