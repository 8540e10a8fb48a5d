# VRM renderer core in Dafny

This project models the loading and GPU-resource core of a Vulkan renderer for
VRM avatars. A VRM file is a binary glTF (GLB) container.

- **Container.** The binary glTF container is split into its JSON chunk and its
  binary chunk by `VRMImporter::loadModel`. The split follows the `istream::read`
  rules exactly: a read can be partial, and the buffer left behind is zero-filled.
- **Node table.** `VRMImporter::loadNodes` turns the glTF `nodes` array into the
  first-child / next-sibling node table (`FCNSNode`).
- **Getters.** The header's getters find accessors, buffer views, materials,
  textures and counts in the parsed JSON. Reads of missing keys follow the
  non-const `operator[]` of nlohmann::json: a missing key or index reads as null.
- **Meshes.** `Scene::load` assembles one `Mesh` per glTF primitive: its vertices,
  morph targets, indices and material, read from the binary chunk.
- **Textures.** `Scene::load` copies each texture's bytes out of the binary chunk.
- **Per-mesh GPU resources.** `Mesh` owns, per frame in flight, a uniform buffer,
  a material buffer and possibly an animation buffer. It also owns a descriptor
  set layout, a descriptor pool and one descriptor set per frame. `cleanup`
  releases all of these again.
- **Scene resources.** `Scene` owns its node buffers and its descriptor pool. The
  push constants of `Scene::draw` are modelled too.
- **Struct tables.** The vertex binding and attribute tables of `structs.hpp` are
  checked against a model of C struct layout, and so are the byte images of
  `Vertex`, `Material` and `FCNSNode`.

Vulkan is modelled as the `Gpu.Device` class. It holds these handle tables:

- buffers, and the memory each buffer is bound to;
- memory contents, and which memory is mapped;
- descriptor set layouts, descriptor pools and descriptor sets.

Handles are issued in increasing order. Every create and destroy call states its
exact effect on those tables. The mesh and scene methods are proved against
these tables.

Bytes are numbers `0..255`, and words are numbers below 2^32. A float is its
IEEE-754 bit pattern held as a word. C++ `assert` is taken as enabled, so a
failed assertion fails the load (`Outcome.Fail`). A read past the end of a
buffer, which is undefined behaviour in C++, fails with `UndefinedBehaviour`.

Modules:

- `Failures`: Result, Outcome and the error kinds.
- `Bytes`: little-endian words.
- `JsonValue`: the read semantics of nlohmann::json.
- `Layout`: C struct layout.
- `Structs`: `structs.hpp`.
- `Vrm`: the VRM records and the getters of `VRMImporter.hpp`.
- `Importer`: `VRMImporter.cpp`.
- `Gpu`: the device.
- `Meshes`: `Mesh.cpp`.
- `Scenes`: `Scene.cpp`.

## Model

| member | source | states |
|---|---|---|
| JsonValue.Member | importer/VRMImporter.hpp:54-55 | non-const `operator[]` by key: succeeds exactly on an object or null; a present key yields its value, an absent one null |
| JsonValue.Element | importer/VRMImporter.hpp:54-55 | non-const `operator[]` by index: succeeds exactly on an array or null; an index in range yields that item, otherwise null |
| JsonValue.ToInt32 | importer/VRMImporter.hpp:59 | conversion to `int` succeeds exactly on numbers and booleans; the result is the number (or 1/0 for a boolean) reduced modulo 2^32 into the signed 32-bit range, so it equals the number itself when that is in range |
| JsonValue.ToSize | importer/VRMImporter.hpp:61 | conversion to `size_t` succeeds exactly on numbers and booleans; the result is the number (or 1/0) reduced modulo 2^64, so it equals the number itself when that is in range |
| JsonValue.ToF32 | importer/VRMImporter.cpp:58-89 | conversion to `float` succeeds exactly on numbers and booleans; a number yields its single-precision bits and a boolean yields 1.0f or 0.0f |
| JsonValue.ToBool | importer/VRMImporter.hpp:119-120 | conversion to `bool` succeeds exactly on booleans and yields that boolean |
| Layout.AlignUp | structs.hpp:29-37 | the padded offset is a multiple of the alignment, not below the unpadded one, and less than one alignment above it |
| Layout.OffsetsFollowRule | structs.hpp:29-37 | the first field is at offset 0; every later field is at the least multiple of its alignment at or after the end of the field before it |
| Layout.OffsetMonotone | structs.hpp:29-37 | every field ends no later than any later field begins |
| Layout.OffsetsDisjoint | structs.hpp:29-37 | consecutive fields do not overlap |
| Structs.QueueFamilyIndices.IsComplete | structs.hpp:18-20 | true exactly when both the graphics and the present family are set |
| Structs.StructSizes | structs.hpp:29-37 | the `alignas(16)` vertex fields sit at offsets 0,16,…,96; `sizeof(Vertex)` and `sizeof(UniformBufferObject)` are the constants the model uses |
| Structs.GetBindingDescription | structs.hpp:38-45 | binding 0, per-vertex rate, stride `sizeof(Vertex)` |
| Structs.GetAttributeDescriptions | structs.hpp:47-85 | the table has seven attributes |
| Structs.AttributesFollowLayout | structs.hpp:47-85 | attribute i is location i on binding 0 at the offset of field i; its format has exactly the size of field i and the component type of field i: float for position, normal, uv and weights, unsigned int for joints, signed int for index |
| Structs.AttributesWithinStride | structs.hpp:47-85 | attribute offsets strictly increase, and every attribute ends within the stride |
| Structs.VertexBytes | structs.hpp:29-37 | a vertex's byte image is `sizeof(Vertex)` long |
| Structs.VertexFieldsAtOffsets | structs.hpp:29-37 | each field's bytes sit at that field's offset in the vertex's byte image |
| Vrm.MaterialLayout | importer/VRMImporter.hpp:19-25 | `Material`'s fields sit at offsets 0,4,8,12,16 and its size is the constant the model uses |
| Vrm.MaterialBytes | importer/VRMImporter.hpp:19-25 | the material's byte image holds `doubleSided` and the four indices, each 32-bit at its own offset |
| Vrm.NodeLayout | importer/VRMImporter.hpp:32-40 | `FCNSNode`'s fields sit at offsets 0,16,32,48,52,56,60 and its size is the constant the model uses |
| Vrm.NodeBytes | importer/VRMImporter.hpp:32-40 | the node's byte image holds translation, scale, rotation, mesh, skin, first child and next sibling, each at its own offset, the indices as 32-bit words |
| Vrm.NodesBytesAt | Scene.cpp:200 | in the image of the node array, node k's bytes sit at k times `sizeof(FCNSNode)` |
| Vrm.AccessorView | importer/VRMImporter.hpp:59-65 | a successful accessor lookup points inside the binary buffer, because `buffer.at` checks the offset |
| Vrm.GetMeshAttribute | importer/VRMImporter.hpp:53-66 | a null view exactly when the primitive has no such attribute; any other view points inside the buffer |
| Vrm.GetMeshProperty | importer/VRMImporter.hpp:69-79 | a view points inside the buffer; a missing property is a type error, because null converts to no number |
| Vrm.GetMeshMorph | importer/VRMImporter.hpp:82-92 | a morph target's view points inside the buffer |
| Vrm.GetMeshMaterialIndex | importer/VRMImporter.hpp:94-96 | the index fits `size_t`; a primitive without `material` is a type error; a present `material` yields its `size_t` conversion |
| Vrm.GetBufferView | importer/VRMImporter.hpp:98-101 | the byte offset fits `size_t`; a present `byteOffset` of an existing view yields its `size_t` conversion, and a view without one is a type error |
| Vrm.GetTextureData | importer/VRMImporter.hpp:103-109 | the begin offset and the length fit `size_t` |
| Vrm.GetMaterial | importer/VRMImporter.hpp:111-142 | alphaMode is -1, 0 or 1 exactly when the key is absent, is "MASK", or is something else; a texture index is -1 when its key is absent and is the `index` of the texture reference when it is present; success exactly when every present field has the right type |
| Vrm.GetMeshCount | importer/VRMImporter.hpp:144-146 | the length of `meshes`, and 0 when there is none |
| Vrm.GetPrimitiveCount | importer/VRMImporter.hpp:148-150 | 0 for a mesh index past the end and for a mesh without `primitives`; for an existing mesh, the number of its primitives |
| Vrm.GetTextureCount | importer/VRMImporter.hpp:152-154 | the length of `textures`, and 0 when there is none |
| Vrm.GetMeshBlendShapeCount | importer/VRMImporter.hpp:156-160 | the length of the primitive's `targets`, and 0 when there is none |
| Vrm.AccessorViewOfWellFormed | importer/VRMImporter.hpp:59-65 | for a well-formed accessor, the view is (byteOffset, count) exactly when the offset is inside the buffer, and out of range otherwise |
| Vrm.AccessorWithoutBufferView | importer/VRMImporter.hpp:61 | an accessor without `bufferView` is a type error |
| Vrm.MeshPropertyOfWellFormed | importer/VRMImporter.hpp:69-79 | a property naming a well-formed accessor yields exactly that accessor's offset and count, or is out of range when the offset is past the buffer |
| Vrm.MeshMorphOfWellFormed | importer/VRMImporter.hpp:82-92 | a morph target attribute naming a well-formed accessor yields exactly that accessor's offset and count, or is out of range when the offset is past the buffer |
| Vrm.TextureDataOfWellFormed | importer/VRMImporter.hpp:103-109 | an image whose `bufferView` names a well-formed view yields exactly that view's `byteOffset` and `byteLength` |
| Vrm.MeshAttributeOfWellFormed | importer/VRMImporter.hpp:53-66 | a present, well-formed attribute yields exactly its accessor's offset and count |
| Importer.InputFile.Read | importer/VRMImporter.cpp:13-29 | `istream::read` delivers the bytes still available, up to the amount asked for; the stream fails exactly when fewer remain |
| Importer.Resized | importer/VRMImporter.cpp:28 | `vector::resize` keeps the prefix and zero-fills the rest |
| Importer.JsonChunk | importer/VRMImporter.cpp:12-34 | success exactly for a glTF magic number with the whole chunk present; the chunk is the `chunkLength` bytes after the 20-byte header; a wrong magic is BadMagic and a short file TruncatedInput |
| Importer.SecondChunkReads | importer/VRMImporter.cpp:38-42 | the second chunk's reads, partial or not, leave exactly the declared length of bytes: those read, then zeros |
| Importer.SplitGlb | importer/VRMImporter.cpp:5-49 | the split succeeds exactly when the JSON chunk does, with the same error otherwise |
| Importer.SplitWellFormed | importer/VRMImporter.cpp:5-49 | for a well-formed file, the split yields exactly the two declared chunks |
| Importer.SplitIgnoresUncheckedWords | importer/VRMImporter.cpp:16-26 | `version`, `length`, the JSON chunk's `chunkType` and the binary chunk's type word do not affect the split |
| Importer.ParserInputAsWritten | importer/VRMImporter.cpp:36 | parsing `buffer.data()` yields the bytes before the first NUL, none of which is zero, and a chunk with no NUL is read past its end |
| Importer.PaddedChunkOverruns | importer/VRMImporter.cpp:36 | a space-padded chunk, which has no NUL, is read past its end |
| Importer.ParserSeesWholeChunk | importer/VRMImporter.cpp:36 | the parser sees exactly the file's declared JSON chunk |
| Importer.DecodeNode | importer/VRMImporter.cpp:55-98 | a decoded node has no sibling yet, and has its first child exactly when `children` is present |
| Importer.DecodeNodeDefaults | importer/VRMImporter.cpp:58-94 | the defaults: zero translation, unit scale, identity rotation, mesh and skin -1, w forced to 1; the first child is `children[0]` |
| Importer.DecodeNodes | importer/VRMImporter.cpp:55-98 | the first pass decodes one record per node |
| Importer.DecodeNodesStops | importer/VRMImporter.cpp:55-98 | a failing node fails the whole pass |
| Importer.DecodeNodesAt | importer/VRMImporter.cpp:55-98 | record k is the decoding of node k |
| Importer.LinkChildrenFrame | importer/VRMImporter.cpp:101-114 | linking changes only `nextSibling`, and only on nodes named as children |
| Importer.LinkChildrenHit | importer/VRMImporter.cpp:101-114 | a child's sibling is the child listed after its last mention |
| Importer.LinkParentsFrame | importer/VRMImporter.cpp:101-114 | the second pass changes only `nextSibling`, and only on nodes some parent lists |
| Importer.LinkParentsHit | importer/VRMImporter.cpp:101-114 | a node listed exactly once gets the node listed after it as its sibling |
| Importer.LinkParentsStops | importer/VRMImporter.cpp:101-114 | an out-of-range child fails the whole pass |
| Importer.BuildNode | importer/VRMImporter.cpp:57-97 | building a node succeeds exactly when decoding does, and yields the decoded record completed |
| Importer.VRMImporter.LoadModel | importer/VRMImporter.cpp:5-49 | a load passes exactly when the split, the parse and the node passes succeed; the header is the parse of the whole JSON chunk, the buffer is the binary chunk, and the nodes are loaded from the header |
| Importer.VRMImporter.ReadContainer | importer/VRMImporter.cpp:6-46 | reading the container sets header and buffer to the parsed JSON chunk and the binary chunk, and leaves the nodes alone |
| Importer.VRMImporter.ReadJsonChunk | importer/VRMImporter.cpp:12-34 | the reads of the first chunk pass exactly when the JSON chunk is well formed, with the buffer holding it |
| Importer.VRMImporter.ReadPrefix | importer/VRMImporter.cpp:12-26 | the magic check passes exactly for the glTF magic with the chunk length read |
| Importer.VRMImporter.ReadBinChunk | importer/VRMImporter.cpp:38-42 | the buffer ends up as the binary chunk |
| Importer.VRMImporter.LoadNodes | importer/VRMImporter.cpp:51-116 | loading nodes passes exactly when both passes succeed, appending the completed, linked records; header and buffer are unchanged |
| Importer.VRMImporter.DecodePass | importer/VRMImporter.cpp:55-98 | the first pass appends one completed record per node, exactly when every node decodes |
| Importer.VRMImporter.LinkPass | importer/VRMImporter.cpp:101-114 | the second pass leaves the nodes equal to the sibling fold over all parents |
| Importer.VRMImporter.LinkParent | importer/VRMImporter.cpp:102-113 | one parent's iteration advances the fold by that parent |
| Importer.VRMImporter.LinkChildrenOf | importer/VRMImporter.cpp:108-113 | the inner loop over a parent's children advances the fold over its children |
| Meshes.PackedMorphs | Mesh.cpp:106-120 | the animation buffer holds one vertex-count slice of `vec4` per target |
| Meshes.PackedMorphTarget | Mesh.cpp:115-120 | target j's slice sits at j times the element size and holds the target's first vertex-count vertices |
| Meshes.Upload | Mesh.cpp:22-40 | staging, copying and freeing the staging buffer leave one new buffer, bound to new memory holding exactly the bytes; nothing else changes |
| Meshes.UploadPerFrame | Mesh.cpp:78-100 | one fresh device-local copy per frame, each holding the bytes; the only change is these new handles |
| Meshes.MapPerFrame | Mesh.cpp:64-76 | one fresh mapped uniform buffer per frame of the given size; the only change is these new handles |
| Meshes.MeshPoolFits | Mesh.cpp:231-249 | the mesh pool admits a request for `count` copies of the mesh layout exactly when `count` is at most the frames in flight |
| Meshes.SlotWritesApplied | Mesh.cpp:179-228 | one slot's writes give binding 0 the uniform, 1 the material and 2 the animation (or the material again) |
| Meshes.SlotWritesMatchLayout | Mesh.cpp:132-164 | every write matches a binding of the mesh layout in number, type and count |
| Meshes.SlotDescriptorsOwnBuffers | Mesh.cpp:179-228 | a slot refers to no buffer other than its own |
| Meshes.AnimDescriptorSpansPacked | Mesh.cpp:210-216 | with morph targets, binding 2 spans the packed animation buffer |
| Meshes.WriteSlots | Mesh.cpp:179-228 | after the slot loop, set k holds exactly frame k's descriptors and every other set is unchanged |
| Meshes.ReleaseAll | Mesh.cpp:252-263 | releasing removes exactly the listed buffers and memory |
| Meshes.SlotOrderDistinct | Mesh.cpp:252-263 | the release order names no buffer twice |
| Meshes.Mesh.CreateVertexBuffer | Mesh.cpp:22-40 | a new vertex buffer holds the vertices' bytes; the only change is those handles |
| Meshes.Mesh.CreateIndexBuffer | Mesh.cpp:42-62 | a new index buffer holds the indices' bytes; the only change is those handles |
| Meshes.Mesh.CreateUniformBuffers | Mesh.cpp:64-76 | there is one new, mapped uniform buffer per frame, and the mapped addresses kept are those allocations |
| Meshes.Mesh.CreateMaterialBuffers | Mesh.cpp:78-100 | there is one new material buffer per frame, each holding the material's bytes |
| Meshes.Mesh.CreateAnimBuffers | Mesh.cpp:102-130 | no morph targets means no buffers and no change; otherwise one buffer per frame holding the packed targets |
| Meshes.Mesh.CreateDescriptorSetLayout | Mesh.cpp:132-164 | a new layout with uniform binding 0 and storage bindings 1 and 2 |
| Meshes.Mesh.CreateDescriptorPool | Mesh.cpp:231-249 | a new pool sized for the frames in flight |
| Meshes.Mesh.CreateDescriptorSets | Mesh.cpp:166-229 | allocation fails only when the pool cannot admit the sets, and then changes nothing; otherwise it issues one new set per frame, holding that frame's descriptors |
| Meshes.Mesh.UpdateUniformBuffer | Mesh.cpp:7-20 | the ubo's bytes land at the start of this frame's mapped memory, and every other frame's memory is unchanged |
| Meshes.Mesh.Cleanup | Mesh.cpp:251-273 | removes exactly the mesh's buffers, memory and mappings (the animation ones only when it has targets), its pool with its sets, and its layout |
| Meshes.Mesh.CleanupUndoesBuffers | Mesh.cpp:251-273 | when this mesh's buffer creation grew the device's buffer tables, cleanup's removals give back exactly the tables from before |
| Meshes.Mesh.CleanupUndoesDescriptors | Mesh.cpp:251-273 | when creating the layout, pool and sets grew the device's tables, cleanup's removals give back exactly the tables from before |
| Meshes.Mesh.CreateBuffers | Scene.cpp:119-123 | the mesh's buffer creations in setup order add exactly its distinct, newly issued buffers and memory, and map exactly the uniform memory |
| Meshes.Mesh.CreateDescriptors | Scene.cpp:125-126 | creating the pool and its sets adds exactly the pool, fully issued, and one set per frame holding that frame's descriptors |
| Meshes.Mesh.BuffersCreated | Mesh.cpp:22-130 | handles issued in increasing ranges are all distinct, and the tables grow by exactly the owned handles |
| Scenes.ElementsReadable | Scene.cpp:54-68 | every element can be read exactly when the view covers `count` elements inside the buffer |
| Scenes.VectorsRoundTrip | Scene.cpp:54-68 | decoding then re-encoding a `vec2`/`vec3`/`vec4` gives back the same bytes |
| Scenes.VerticesReadable | Scene.cpp:54-68 | every vertex can be read exactly when all sources cover the position count |
| Scenes.ReadVertices | Scene.cpp:54-68 | passes exactly when the sources cover the positions; vertex k has swapped y/z, index k, and joints/weights only when present |
| Scenes.ReadMorph | Scene.cpp:74-80 | a target reads exactly when the view is covered, and each `vec3` gets w = 1 |
| Scenes.ReadMorphs | Scene.cpp:70-81 | the load passes exactly when every target reads, and yields one target per blend shape |
| Scenes.ReadIndices | Scene.cpp:83-87 | passes exactly when covered; index k is the k-th little-endian word of the view |
| Scenes.IndicesVerbatim | Scene.cpp:83-87 | the index buffer's bytes are exactly the view's bytes |
| Scenes.ReadPrimitive | Scene.cpp:44-90 | passes exactly when the primitive is loadable and yields its vertices, targets, indices and material |
| Scenes.LoadPrimitive | Scene.cpp:44-91 | a new mesh for (i, j), built from the primitive, with no GPU resources yet |
| Scenes.MeshPairsOrder | Scene.cpp:41-46 | meshes are loaded for every (mesh, primitive) pair, each in range, in mesh-major order |
| Scenes.LoadPrimitives | Scene.cpp:43-92 | one distinct mesh per primitive of a glTF mesh, exactly when all of them load |
| Scenes.LoadMesh | Scene.cpp:41-93 | extends the loaded meshes by one glTF mesh; a failure means the scene is not loadable |
| Scenes.TextureBytes | Scene.cpp:95-106 | a texture's bytes are `byteLength` long |
| Scenes.CopyTexture | Scene.cpp:99-105 | the copy is exactly the `byteLength` bytes at `begin`, and a read outside the buffer fails |
| Scenes.ScenePoolFits | Scene.cpp:411-433 | the scene pool admits `count` copies of the scene layout exactly when `count` is at most the frames in flight |
| Scenes.DrawConstantsFaithful | Scene.cpp:166-174 | `value` is 1.0 exactly with morph targets and 0.0 exactly without; material index 0; vertex count and node index stored unchanged when they fit |
| Scenes.Scene.Load | Scene.cpp:34-109 | the load passes exactly when the container, the nodes, every primitive and every texture load; it appends the loaded meshes and textures |
| Scenes.Scene.LoadMeshes | Scene.cpp:41-93 | appends exactly the meshes of every (mesh, primitive) pair, exactly when all load |
| Scenes.Scene.LoadTextures | Scene.cpp:95-106 | appends one byte copy per texture, exactly when all are in the buffer |
| Scenes.Scene.CreateNodeBuffers | Scene.cpp:435-447 | there is one new mapped storage buffer of the node array's size per frame |
| Scenes.Scene.UpdateNodeBuffers | Scene.cpp:198-201 | this frame's node memory begins with the node array's image, and every other frame's memory is unchanged |
| Scenes.Scene.CreateDescriptorPools | Scene.cpp:411-433 | every mesh gets a fresh mesh pool and the scene gets its own pool, sized for textures and nodes; old pools are unchanged and the new pool handles are exactly the |meshes|+1 issued; of each mesh only `descriptorPool` changes; with each mesh held once, mesh k gets the k-th new handle, so the mesh pools are pairwise distinct and distinct from the scene pool |
| Scenes.Scene.Draw | Scene.cpp:136-180 | one draw per mesh in order, binding its buffers and this frame's sets and pushing its constants |

## Left out

- JSON text parsing is foreign: `nlohmann::json::parse` is a parameter, `parse`, from bytes to an optional value. Opening the file, the `std::cout` output and the exceptions thrown are left out; a failed open is not modelled.
- The getters read through the non-const `operator[]`, which inserts nulls into the header. Those inserted nulls are not stored back; every later read still sees null, as it would with them.
- `findNodeFromMeshIndex` becomes the parameter `nodeOf` of `Scenes.Scene.Draw`. `recalculateMatrices` and `calculateJoints` are not part of this model: they are matrix arithmetic on floats.
- Float and matrix arithmetic is left out. The `UniformBufferObject` bytes written by `Meshes.Mesh.UpdateUniformBuffer` are a parameter, because they come from the camera.
- The scene descriptor set layout is modelled only as its bindings. Texture images, views and samplers, and the stb image decoder behind them, are foreign.
- `Scene::update`, `Scene::cleanup`, `Scene::setup` and the per-mesh loops at Scene.cpp:450-478 are not modelled as methods.
- There is no composite method that creates a mesh's resources and then cleans them up. Each creation step and `Meshes.Mesh.Cleanup` state their exact effects, and `Meshes.Mesh.CleanupUndoesBuffers` and `Meshes.Mesh.CleanupUndoesDescriptors` prove that cleanup removes exactly what creation added.
- Vulkan calls cannot fail in the model, except a descriptor pool that cannot admit an allocation. Command-buffer recording, queues and fences are left out. The buffer usage and memory-property flags are left out.
- Uninitialised C++ fields are left unconstrained: `Vertex.color`, absent joints and weights, and `firstChild` of a node without children.
- `Application`, `Camera` and the `Vulkan` class are not part of this model beyond the device tables.
- `g_MAX_FRAMES_IN_FLIGHT` has no value in the files modelled. The model fixes it at 2.
- `glm::vec3` is taken to be 12 bytes. structs.hpp:6 and importer/VRMImporter.hpp:9 define `GLM_FORCE_DEFAULT_ALIGNED_GENTYPES`, which takes effect only when GLM is built with SIMD instructions or language extensions enabled; the model takes it as inactive. Were it active, `vec3` would be 16 bytes, which changes the element stride of the `Array<glm::vec3>` views read by `Scenes.Vec3Of` and `sizeof(UniformBufferObject)`.
- Scene.cpp reads `vrmImporter.m_Nodes`, but the importer header declares `nodes`. The model takes them to be the same field.
- Scenes.Scene.LoadMeshes and Scenes.Scene.Load promise that the meshes they append are distinct, not that they are newly allocated.
- Scenes.ScenePoolFits requires `MaxFramesInFlight * numTextures < 2^32`, because the `uint32_t` cast at Scene.cpp:418 would wrap otherwise.
- Importer.VRMImporter.LoadModel, Importer.VRMImporter.ReadContainer and Scenes.Scene.Load hand the parser the whole JSON chunk (`Importer.ParserInput`), the corrected behaviour of `parse(buffer.data())` at importer/VRMImporter.cpp:36; the behaviour as written, which stops at the first NUL or reads past the chunk, is `Importer.ParserInputAsWritten`, and the disagreement is under "## Findings".
- Structs.VertexBytes: the padding bytes of a vertex and of the `Padded` fields are taken as zero, though the vertex filled at Scene.cpp:55 leaves them indeterminate; the same holds for the vertex slots of the meshes' buffers.
- Vrm.MaterialBytes: the padding after `doubleSided` is taken as zero, though the material built at importer/VRMImporter.hpp:112 leaves it indeterminate.
- The device tables accept a buffer of size 0 and a descriptor pool size with `descriptorCount` 0, which the Vulkan specification's valid-usage rules forbid; the model does not check them.
- Meshes.Mesh.CreateAnimBuffers requires that every morph target has at least as many vertices as the first. A shorter target would be read past its end at Mesh.cpp:119-120, which is undefined behaviour.

## Findings

| source | as written | input that shows it | evidently intended | confidence | as-written member | corrected member |
|---|---|---|---|---|---|---|
| importer/VRMImporter.cpp:36 | `parse(buffer.data())` reads a NUL-terminated string, but the chunk carries no terminator | the 4-byte JSON chunk `{}` followed by two spaces (`7B 7D 20 20`), a JSON chunk padded with spaces as GLB requires | parse exactly the `chunkLength` bytes of the chunk | not executed | Importer.PaddedChunkOverruns | Importer.ParserSeesWholeChunk |
