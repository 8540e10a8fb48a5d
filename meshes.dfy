/** One primitive of the model as it lives on the GPU (Mesh.cpp).

    A mesh owns a vertex and an index buffer, and one uniform buffer, one
    material buffer and (when it has morph targets) one morph-target buffer
    per frame in flight, together with a descriptor pool, a descriptor set
    layout and one descriptor set per frame in flight.  Every buffer is a
    `VkBuffer` bound to its own `VkDeviceMemory`. */
module Meshes {
  import opened Failures
  import opened Bytes
  import opened Structs
  import opened Vrm
  import opened Gpu

  // ---------------------------------------------------------------------
  // Morph targets packed for the vertex shader

  /** Every target holds at least as many displacements as the first one:
      the copy of each target reads that many. */
  predicate TargetsCover(anims: seq<AnimMesh>)
  {
    forall j :: 0 <= j < |anims| ==> |anims[0].verts| <= |anims[j].verts|
  }

  /** The first `n` displacements of each target, as bytes. */
  function Images(targets: seq<AnimMesh>, n: nat): (r: seq<seq<byte>>)
    requires forall j :: 0 <= j < |targets| ==> n <= |targets[j].verts|
    ensures |r| == |targets|
    ensures forall j :: 0 <= j < |targets| ==> r[j] == Vec4sBytes(targets[j].verts[..n]) && |r[j]| == n * Vec4Size
  {
    seq(|targets|, j requires 0 <= j < |targets| => Vec4sBytes(targets[j].verts[..n]))
  }

  /** The first `n` displacements of every target, target after target. */
  function Packed(targets: seq<AnimMesh>, n: nat): (r: seq<byte>)
    requires forall j :: 0 <= j < |targets| ==> n <= |targets[j].verts|
  {
    Concat(Images(targets, n))
  }

  /** `|anims[0].verts| × sizeof(glm::vec4)`: the bytes one target takes. */
  function ElementSize(anims: seq<AnimMesh>): nat
    requires anims != []
  {
    |anims[0].verts| * Vec4Size
  }

  /** The contents of a morph-target buffer: every target cut to the
      length of the first, `|anims[0].verts| × sizeof(glm::vec4) × |anims|` bytes. */
  function PackedMorphs(anims: seq<AnimMesh>): (r: seq<byte>)
    requires anims != [] && TargetsCover(anims)
    ensures |r| == |anims[0].verts| * Vec4Size * |anims|
  {
    PackedTarget(anims, |anims[0].verts|, 0);
    TimesIsProduct(ElementSize(anims), |anims|);
    Packed(anims, |anims[0].verts|)
  }

  /** Target `j` starts at byte offset `j × elementSize` of the packed bytes
      and fills the next `elementSize` bytes. */
  lemma PackedTarget(targets: seq<AnimMesh>, n: nat, j: nat)
    requires forall k :: 0 <= k < |targets| ==> n <= |targets[k].verts|
    requires j < |targets|
    ensures |Packed(targets, n)| == Times(n * Vec4Size, |targets|)
    ensures Times(n * Vec4Size, j) + n * Vec4Size <= |Packed(targets, n)|
    ensures Packed(targets, n)[Times(n * Vec4Size, j) .. Times(n * Vec4Size, j) + n * Vec4Size]
         == Vec4sBytes(targets[j].verts[..n])
  {
    ConcatBlock(Images(targets, n), n * Vec4Size, j);
  }

  /** In terms of the byte offset the copy loop computes. */
  lemma PackedMorphTarget(anims: seq<AnimMesh>, j: nat)
    requires anims != [] && TargetsCover(anims) && j < |anims|
    ensures ElementSize(anims) * j + ElementSize(anims) <= |PackedMorphs(anims)|
    ensures var at := ElementSize(anims) * j;
      PackedMorphs(anims)[at .. at + ElementSize(anims)] == Vec4sBytes(anims[j].verts[..|anims[0].verts|])
  {
    PackedTarget(anims, |anims[0].verts|, j);
    TimesIsProduct(ElementSize(anims), j);
  }

  // ---------------------------------------------------------------------
  // Staged uploads

  /** The second half of every upload: a device-local buffer of the
      staging buffer's size, the copy into it, and the staging buffer and
      its memory destroyed. */
  method Transfer(vulkan: Device, staging: Handle, stagingMemory: Handle) returns (buffer: Handle, bufferMemory: Handle)
    requires vulkan.Valid()
    requires staging in vulkan.buffers && vulkan.buffers[staging] == stagingMemory
    requires stagingMemory in vulkan.memory && stagingMemory !in vulkan.mapped
    modifies vulkan`memory, vulkan`buffers, vulkan`next, vulkan`mapped
    ensures vulkan.Valid()
    ensures buffer == old(vulkan.next) && bufferMemory == old(vulkan.next) + 1 && vulkan.next == old(vulkan.next) + 2
    ensures vulkan.memory == (old(vulkan.memory) - {stagingMemory})[bufferMemory := old(vulkan.memory[stagingMemory])]
    ensures vulkan.buffers == (old(vulkan.buffers) - {staging})[buffer := bufferMemory]
    ensures vulkan.mapped == old(vulkan.mapped)
  {
    var bytes := vulkan.memory[stagingMemory];
    buffer, bufferMemory := vulkan.CreateBuffer(|bytes|);
    vulkan.CopyBuffer(staging, buffer, |bytes|);
    assert vulkan.memory[bufferMemory] == bytes by {
      assert bytes[..|bytes|] == bytes;
      var got := vulkan.memory[bufferMemory];
      assert got == got[0 .. |bytes|];
    }
    vulkan.DestroyBuffer(staging);
    vulkan.FreeMemory(stagingMemory);
  }

  /** `bytes` uploaded to a new device-local buffer through a host-visible
      staging buffer. */
  method Upload(vulkan: Device, bytes: seq<byte>) returns (buffer: Handle, bufferMemory: Handle)
    requires vulkan.Valid()
    modifies vulkan`memory, vulkan`buffers, vulkan`next, vulkan`mapped
    ensures vulkan.Valid()
    ensures old(vulkan.next) <= buffer < vulkan.next && old(vulkan.next) <= bufferMemory < vulkan.next
    ensures buffer < bufferMemory
    ensures vulkan.memory == old(vulkan.memory)[bufferMemory := bytes]
    ensures vulkan.buffers == old(vulkan.buffers)[buffer := bufferMemory]
    ensures vulkan.mapped == old(vulkan.mapped)
  {
    buffer, bufferMemory := UploadBlocks(vulkan, [bytes], |bytes|);
    ConcatSingle(bytes);
  }

  /** The copy loop of `createAnimBuffers`: block `j` (one morph target's
      displacements) is copied to byte offset `j × size` of the mapped
      staging memory `m`. */
  method StageBlocks(vulkan: Device, m: Handle, blocks: seq<seq<byte>>, size: nat)
    requires vulkan.Valid() && blocks != []
    requires forall k :: 0 <= k < |blocks| ==> |blocks[k]| == size
    requires m in vulkan.mapped && |vulkan.memory[m]| == size * |blocks|
    modifies vulkan`memory
    ensures vulkan.Valid()
    ensures vulkan.memory == old(vulkan.memory)[m := Concat(blocks)]
  {
    ConcatBlock(blocks, size, 0);
    TimesIsProduct(size, |blocks|);
    var j := 0;
    while j < |blocks|
      invariant 0 <= j <= |blocks|
      invariant vulkan.Valid() && m in vulkan.mapped && m in vulkan.memory
      invariant |vulkan.memory[m]| == Times(size, |blocks|)
      invariant vulkan.memory == old(vulkan.memory)[m := vulkan.memory[m]]
      invariant Times(size, j) <= Times(size, |blocks|)
      invariant vulkan.memory[m][..Times(size, j)] == Concat(blocks[..j])
    {
      TimesIsProduct(size, j);
      var at := size * j;
      TimesMonotone(size, j + 1, |blocks|);
      vulkan.WriteMapped(m, at, blocks[j]);
      var after := vulkan.memory[m];
      ConcatPrefixSnoc(blocks, j);
      assert after[..at + size] == after[..at] + after[at .. at + size];
      j := j + 1;
    }
    assert blocks[..|blocks|] == blocks;
    assert vulkan.memory[m] == vulkan.memory[m][..Times(size, |blocks|)];
  }

  /** The staging part of `createAnimBuffers`: a host-visible buffer of
      `size × |blocks|` bytes is filled block by block and its contents moved
      into a new device-local buffer. */
  method UploadBlocks(vulkan: Device, blocks: seq<seq<byte>>, size: nat) returns (buffer: Handle, bufferMemory: Handle)
    requires vulkan.Valid() && blocks != []
    requires forall k :: 0 <= k < |blocks| ==> |blocks[k]| == size
    modifies vulkan`memory, vulkan`buffers, vulkan`next, vulkan`mapped
    ensures vulkan.Valid()
    ensures old(vulkan.next) <= buffer < vulkan.next && old(vulkan.next) <= bufferMemory < vulkan.next
    ensures buffer < bufferMemory
    ensures vulkan.memory == old(vulkan.memory)[bufferMemory := Concat(blocks)]
    ensures vulkan.buffers == old(vulkan.buffers)[buffer := bufferMemory]
    ensures vulkan.mapped == old(vulkan.mapped)
  {
    var staging, stagingMemory := vulkan.CreateBuffer(size * |blocks|);
    vulkan.MapMemory(stagingMemory);
    StageBlocks(vulkan, stagingMemory, blocks, size);
    vulkan.UnmapMemory(stagingMemory);
    buffer, bufferMemory := Transfer(vulkan, staging, stagingMemory);
  }

  /** The bindings of a set that just received `b`, bound to `m`. */
  lemma BindingsSnoc(bs: seq<Handle>, ms: seq<Handle>, b: Handle, m: Handle)
    requires |bs| == |ms|
    ensures Bindings(bs + [b], ms + [m]) == Bindings(bs, ms)[b := m]
  {
    assert (bs + [b])[..|bs|] == bs;
    assert (ms + [m])[..|ms|] == ms;
  }

  /** One device-local buffer per frame in flight, each holding the blocks
      `blocks` laid end to end (the loop shared by `createMaterialBuffers`
      and `createAnimBuffers`). */
  method UploadPerFrame(vulkan: Device, blocks: seq<seq<byte>>, size: nat) returns (bs: seq<Handle>, ms: seq<Handle>)
    requires vulkan.Valid() && blocks != []
    requires forall k :: 0 <= k < |blocks| ==> |blocks[k]| == size
    modifies vulkan`memory, vulkan`buffers, vulkan`next, vulkan`mapped
    ensures vulkan.Valid()
    ensures |bs| == MaxFramesInFlight && |ms| == MaxFramesInFlight
    ensures Issued(bs, old(vulkan.next), vulkan.next) && Issued(ms, old(vulkan.next), vulkan.next)
    ensures vulkan.buffers == old(vulkan.buffers) + Bindings(bs, ms)
    ensures vulkan.memory == old(vulkan.memory) + Filled(ms, Concat(blocks))
    ensures vulkan.mapped == old(vulkan.mapped)
  {
    ghost var packed := Concat(blocks);
    bs, ms := [], [];
    var i := 0;
    while i < MaxFramesInFlight
      invariant 0 <= i <= MaxFramesInFlight && |bs| == i && |ms| == i
      invariant vulkan.Valid()
      invariant old(vulkan.next) <= vulkan.next
      invariant Issued(bs, old(vulkan.next), vulkan.next) && Issued(ms, old(vulkan.next), vulkan.next)
      invariant vulkan.buffers == old(vulkan.buffers) + Bindings(bs, ms)
      invariant vulkan.memory == old(vulkan.memory) + Filled(ms, packed)
      invariant vulkan.mapped == old(vulkan.mapped)
    {
      ghost var before := vulkan.next;
      var b, m := UploadBlocks(vulkan, blocks, size);
      BindingsSnoc(bs, ms, b, m);
      UnionUpdate(old(vulkan.buffers), Bindings(bs, ms), b, m);
      FilledSnoc(ms, m, packed);
      UnionUpdate(old(vulkan.memory), Filled(ms, packed), m, packed);
      IssuedSnoc(bs, b, old(vulkan.next), before, vulkan.next);
      IssuedSnoc(ms, m, old(vulkan.next), before, vulkan.next);
      bs, ms := bs + [b], ms + [m];
      i := i + 1;
    }
  }

  /** `createUniformBuffers`: one host-visible buffer of `size` bytes per
      frame in flight, each left mapped; the contents are not initialised. */
  method MapPerFrame(vulkan: Device, size: nat) returns (bs: seq<Handle>, ms: seq<Handle>)
    requires vulkan.Valid()
    modifies vulkan`memory, vulkan`buffers, vulkan`next, vulkan`mapped
    ensures vulkan.Valid()
    ensures |bs| == MaxFramesInFlight && |ms| == MaxFramesInFlight
    ensures Issued(bs, old(vulkan.next), vulkan.next) && Issued(ms, old(vulkan.next), vulkan.next)
    ensures vulkan.buffers == old(vulkan.buffers) + Bindings(bs, ms)
    ensures Extended(old(vulkan.memory), vulkan.memory, ms, size)
    ensures vulkan.mapped == old(vulkan.mapped) + Elements(ms)
  {
    bs, ms := [], [];
    var i := 0;
    while i < MaxFramesInFlight
      invariant 0 <= i <= MaxFramesInFlight && |bs| == i && |ms| == i
      invariant vulkan.Valid()
      invariant old(vulkan.next) <= vulkan.next
      invariant Issued(bs, old(vulkan.next), vulkan.next) && Issued(ms, old(vulkan.next), vulkan.next)
      invariant vulkan.buffers == old(vulkan.buffers) + Bindings(bs, ms)
      invariant Extended(old(vulkan.memory), vulkan.memory, ms, size)
      invariant vulkan.mapped == old(vulkan.mapped) + Elements(ms)
    {
      ghost var before := vulkan.next;
      ghost var memory := vulkan.memory;
      var b, m := vulkan.CreateBuffer(size);
      ExtendedSnoc(old(vulkan.memory), memory, ms, m, vulkan.memory[m], size);
      ElementsSnoc(ms, m);
      ghost var mapped := vulkan.mapped;
      vulkan.MapMemory(m);
      assert vulkan.mapped == mapped + {m};
      assert vulkan.mapped == old(vulkan.mapped) + Elements(ms + [m]);
      BindingsSnoc(bs, ms, b, m);
      UnionUpdate(old(vulkan.buffers), Bindings(bs, ms), b, m);
      IssuedSnoc(bs, b, old(vulkan.next), before, vulkan.next);
      IssuedSnoc(ms, m, old(vulkan.next), before, vulkan.next);
      bs, ms := bs + [b], ms + [m];
      i := i + 1;
    }
  }

  // ---------------------------------------------------------------------
  // Descriptors

  /** The set layout of `createDescriptorSetLayout`: the uniform buffer at
      binding 0 and two storage buffers (material, morph targets) at 1 and 2,
      one descriptor each. */
  function MeshLayoutBindings(): seq<LayoutBinding>
  {
    [LayoutBinding(0, UniformBuffer, 1), LayoutBinding(1, StorageBuffer, 1), LayoutBinding(2, StorageBuffer, 1)]
  }

  /** The pool sizes of `createDescriptorPool`: three entries of N descriptors each. */
  function MeshPoolSizes(): seq<PoolSize>
  {
    var n := MaxFramesInFlight as U32;
    [PoolSize(UniformBuffer, n), PoolSize(StorageBuffer, n), PoolSize(StorageBuffer, n)]
  }

  /** A fresh mesh pool has room for `count` sets of the mesh layout exactly
      when `count` is at most N: one set per frame in flight, and no more. */
  lemma MeshPoolFits(count: nat)
    ensures Fits(Pool(MeshPoolSizes(), MaxFramesInFlight as U32, []), Copies(MeshLayoutBindings(), count))
        <==> count <= MaxFramesInFlight
  {
    var copies := Copies(MeshLayoutBindings(), count);
    assert [] + copies == copies;
    forall t: DescriptorType
      ensures Demand(copies, t) == count * LayoutDemand(MeshLayoutBindings(), t)
    {
      DemandOfCopies(MeshLayoutBindings(), count, t);
    }
    assert LayoutDemand(MeshLayoutBindings(), UniformBuffer) == 1;
    assert LayoutDemand(MeshLayoutBindings(), StorageBuffer) == 2;
    assert LayoutDemand(MeshLayoutBindings(), CombinedImageSampler) == 0;
    assert Capacity(MeshPoolSizes(), UniformBuffer) == MaxFramesInFlight;
    assert Capacity(MeshPoolSizes(), StorageBuffer) == 2 * MaxFramesInFlight;
    assert Capacity(MeshPoolSizes(), CombinedImageSampler) == 0;
  }

  /** The morph-target descriptor of one slot: the slot's morph buffer, all
      of it, when the mesh has targets; otherwise a one-byte window on the
      slot's material buffer, so that binding 2 is never left empty. */
  function AnimDescriptor(material: Handle, anim: Handle, anims: seq<AnimMesh>): BufferInfo
  {
    if anims != [] then BufferInfo(anim, 0, |anims[0].verts| * Vec4Size * |anims|) else BufferInfo(material, 0, 1)
  }

  /** The three descriptor writes `createDescriptorSets` makes for one slot. */
  function SlotWrites(target: Handle, uniform: Handle, material: Handle, anim: Handle, anims: seq<AnimMesh>): (r: seq<DescriptorWrite>)
    ensures forall k :: 0 <= k < |r| ==> r[k].dstSet == target
  {
    [ DescriptorWrite(target, 0, UniformBuffer, BufferInfo(uniform, 0, UniformBufferSize)),
      DescriptorWrite(target, 1, StorageBuffer, BufferInfo(material, 0, MaterialSize)),
      DescriptorWrite(target, 2, StorageBuffer, AnimDescriptor(material, anim, anims)) ]
  }

  /** The bindings of a slot's set once its writes are made. */
  function SlotDescriptors(uniform: Handle, material: Handle, anim: Handle, anims: seq<AnimMesh>): (r: map<nat, BufferInfo>)
    ensures r.Keys == {0, 1, 2}
    ensures forall k :: k in r ==> r[k].offset == 0
  {
    map[0 := BufferInfo(uniform, 0, UniformBufferSize),
        1 := BufferInfo(material, 0, MaterialSize),
        2 := AnimDescriptor(material, anim, anims)]
  }

  /** Writing a slot's three descriptors into a set with nothing written yet gives its bindings. */
  lemma SlotWritesApplied(target: Handle, uniform: Handle, material: Handle, anim: Handle, anims: seq<AnimMesh>)
    ensures Applied(map[], SlotWrites(target, uniform, material, anim, anims)) == SlotDescriptors(uniform, material, anim, anims)
  {
    var w := SlotWrites(target, uniform, material, anim, anims);
    var m0: map<nat, BufferInfo> := map[];
    var m1 := m0[0 := w[0].info];
    var m2 := m1[1 := w[1].info];
    var m3 := m2[2 := w[2].info];
    assert w[1..][1..][1..] == [];
    assert Applied(m3, w[1..][1..][1..]) == m3;
    assert Applied(m2, w[1..][1..]) == m3;
    assert Applied(m1, w[1..]) == m3;
    assert Applied(m0, w) == m3;
  }

  /** Every write agrees with the layout: the binding it targets is declared,
      with the same descriptor type and room for one descriptor. */
  lemma SlotWritesMatchLayout(target: Handle, uniform: Handle, material: Handle, anim: Handle, anims: seq<AnimMesh>)
    ensures forall w :: w in SlotWrites(target, uniform, material, anim, anims) ==>
      exists b :: b in MeshLayoutBindings() && b.binding == w.dstBinding && b.kind == w.kind && b.descriptorCount == 1
  {
    var l := MeshLayoutBindings();
    assert l[0] in l && l[1] in l && l[2] in l;
  }

  /** A slot's set refers to the slot's own uniform, material and (when the
      mesh has targets) morph buffer, and to no other buffer. */
  lemma SlotDescriptorsOwnBuffers(uniform: Handle, material: Handle, anim: Handle, anims: seq<AnimMesh>, other: Handle)
    requires other != uniform && other != material && (anims != [] ==> other != anim)
    ensures forall k :: k in SlotDescriptors(uniform, material, anim, anims) ==>
      SlotDescriptors(uniform, material, anim, anims)[k].buffer != other
  {
  }

  /** With morph targets whose every list covers the first, the morph
      descriptor spans exactly the packed bytes of the morph buffer. */
  lemma AnimDescriptorSpansPacked(material: Handle, anim: Handle, anims: seq<AnimMesh>)
    requires anims != [] && TargetsCover(anims)
    ensures AnimDescriptor(material, anim, anims) == BufferInfo(anim, 0, |PackedMorphs(anims)|)
  {
  }

  /** The morph buffer of slot `i`, or the null handle for a mesh without
      targets (whose morph descriptor does not read it).  The null handle
      also stands for `m_AnimBuffers[i]` past the end of a mesh with
      targets, which is undefined behaviour at Mesh.cpp:210-216; the setup
      order of Scene.cpp:111-134 creates the morph buffers first, so that
      case is not reached. */
  function SlotAnim(animBuffers: seq<Handle>, anims: seq<AnimMesh>, i: nat): Handle
  {
    if anims != [] && i < |animBuffers| then animBuffers[i] else 0
  }

  /** The descriptors of slot `k`. */
  function SlotOf(uniforms: seq<Handle>, materials: seq<Handle>, animBuffers: seq<Handle>, anims: seq<AnimMesh>, k: nat): map<nat, BufferInfo>
    requires k < |uniforms| && k < |materials|
  {
    SlotDescriptors(uniforms[k], materials[k], SlotAnim(animBuffers, anims, k), anims)
  }

  /** `cur` is `orig` with the sets of the first `i` slots written and the
      other slots' sets still empty. */
  ghost predicate SlotsWritten(cur: map<Handle, DescriptorSet>, orig: map<Handle, DescriptorSet>, sets: seq<Handle>, pool: Handle,
                               uniforms: seq<Handle>, materials: seq<Handle>, animBuffers: seq<Handle>, anims: seq<AnimMesh>, i: nat)
    requires |sets| <= |uniforms| && |sets| <= |materials|
  {
    && cur.Keys == orig.Keys
    && (forall h :: h in orig && h !in Elements(sets) ==> cur[h] == orig[h])
    && forall k :: 0 <= k < |sets| ==>
      sets[k] in cur && cur[sets[k]] == DescriptorSet(pool, if k < i then SlotOf(uniforms, materials, animBuffers, anims, k) else map[])
  }

  /** Writing slot `i` into its own set advances `SlotsWritten` by one slot. */
  lemma SlotStep(cur: map<Handle, DescriptorSet>, orig: map<Handle, DescriptorSet>, sets: seq<Handle>, pool: Handle,
                 uniforms: seq<Handle>, materials: seq<Handle>, animBuffers: seq<Handle>, anims: seq<AnimMesh>, i: nat)
    requires |sets| <= |uniforms| && |sets| <= |materials| && i < |sets| && Distinct(sets)
    requires SlotsWritten(cur, orig, sets, pool, uniforms, materials, animBuffers, anims, i)
    ensures SlotsWritten(cur[sets[i] := DescriptorSet(pool, SlotOf(uniforms, materials, animBuffers, anims, i))],
                         orig, sets, pool, uniforms, materials, animBuffers, anims, i + 1)
  {
    var next := cur[sets[i] := DescriptorSet(pool, SlotOf(uniforms, materials, animBuffers, anims, i))];
    forall k | 0 <= k < |sets| && k != i
      ensures next[sets[k]] == cur[sets[k]]
    {
      assert sets[k] != sets[i];
    }
  }

  /** The write loop of `createDescriptorSets`: set `sets[i]`, allocated
      with nothing written, receives slot `i`'s three descriptors. */
  method WriteSlots(vulkan: Device, sets: seq<Handle>, pool: Handle, uniforms: seq<Handle>, materials: seq<Handle>,
                    animBuffers: seq<Handle>, anims: seq<AnimMesh>)
    requires vulkan.Valid() && Distinct(sets)
    requires |sets| == MaxFramesInFlight && |uniforms| == MaxFramesInFlight && |materials| == MaxFramesInFlight
    requires forall k :: 0 <= k < |sets| ==> sets[k] in vulkan.sets && vulkan.sets[sets[k]] == DescriptorSet(pool, map[])
    modifies vulkan`sets
    ensures vulkan.Valid()
    ensures vulkan.sets.Keys == old(vulkan.sets).Keys
    ensures forall h :: h in old(vulkan.sets) && h !in Elements(sets) ==> vulkan.sets[h] == old(vulkan.sets)[h]
    ensures forall k :: 0 <= k < MaxFramesInFlight ==>
      vulkan.sets[sets[k]] == DescriptorSet(pool, SlotDescriptors(uniforms[k], materials[k], SlotAnim(animBuffers, anims, k), anims))
  {
    var i := 0;
    while i < MaxFramesInFlight
      invariant 0 <= i <= MaxFramesInFlight
      invariant vulkan.Valid()
      invariant SlotsWritten(vulkan.sets, old(vulkan.sets), sets, pool, uniforms, materials, animBuffers, anims, i)
    {
      var writes := SlotWrites(sets[i], uniforms[i], materials[i], SlotAnim(animBuffers, anims, i), anims);
      WrittenToOneSet(vulkan.sets, sets[i], writes);
      SlotWritesApplied(sets[i], uniforms[i], materials[i], SlotAnim(animBuffers, anims, i), anims);
      SlotStep(vulkan.sets, old(vulkan.sets), sets, pool, uniforms, materials, animBuffers, anims, i);
      vulkan.UpdateDescriptorSets(writes);
      i := i + 1;
    }
  }

  // ---------------------------------------------------------------------
  // Release

  /** `vkDestroyBuffer` then `vkFreeMemory`, as `cleanup` pairs them. */
  method Release(vulkan: Device, buffer: Handle, memory: Handle)
    requires vulkan.Valid() && buffer in vulkan.buffers && memory in vulkan.memory
    modifies vulkan`buffers, vulkan`memory, vulkan`mapped
    ensures vulkan.Valid()
    ensures vulkan.buffers == old(vulkan.buffers) - {buffer}
    ensures vulkan.memory == old(vulkan.memory) - {memory} && vulkan.mapped == old(vulkan.mapped) - {memory}
  {
    vulkan.DestroyBuffer(buffer);
    vulkan.FreeMemory(memory);
  }

  /** Releases `buffers[k]` with `memory[k]`, in order.  No handle is listed
      twice, so each one is live when its turn comes. */
  method ReleaseAll(vulkan: Device, buffers: seq<Handle>, memory: seq<Handle>)
    requires vulkan.Valid() && |buffers| == |memory|
    requires Distinct(buffers) && Distinct(memory)
    requires Elements(buffers) <= vulkan.buffers.Keys && Elements(memory) <= vulkan.memory.Keys
    modifies vulkan`buffers, vulkan`memory, vulkan`mapped
    ensures vulkan.Valid()
    ensures vulkan.buffers == old(vulkan.buffers) - Elements(buffers)
    ensures vulkan.memory == old(vulkan.memory) - Elements(memory)
    ensures vulkan.mapped == old(vulkan.mapped) - Elements(memory)
  {
    var i := 0;
    while i < |buffers|
      invariant 0 <= i <= |buffers|
      invariant vulkan.Valid()
      invariant vulkan.buffers == old(vulkan.buffers) - Elements(buffers[..i])
      invariant vulkan.memory == old(vulkan.memory) - Elements(memory[..i])
      invariant vulkan.mapped == old(vulkan.mapped) - Elements(memory[..i])
    {
      ghost var gone, freed := Elements(buffers[..i]), Elements(memory[..i]);
      assert buffers[..i + 1] == buffers[..i] + [buffers[i]] && memory[..i + 1] == memory[..i] + [memory[i]];
      ElementsSnoc(buffers[..i], buffers[i]);
      ElementsSnoc(memory[..i], memory[i]);
      assert buffers[i] !in gone && memory[i] !in freed;
      assert buffers[i] in Elements(buffers) && memory[i] in Elements(memory);
      Release(vulkan, buffers[i], memory[i]);
      RemoveTwice(old(vulkan.buffers), gone, {buffers[i]});
      RemoveTwice(old(vulkan.memory), freed, {memory[i]});
      i := i + 1;
    }
    assert buffers[..i] == buffers && memory[..i] == memory;
  }

  /** The order in which the slot loop of `cleanup` names its handles: for each
      of the first `n` slots, its uniform, its material and, when `anim` is not
      empty, its morph handle. */
  function SlotOrder(uniform: seq<Handle>, material: seq<Handle>, anim: seq<Handle>, n: nat): (r: seq<Handle>)
    requires n <= |uniform| && n <= |material| && (anim == [] || n <= |anim|)
    ensures |r| == if anim == [] then 2 * n else 3 * n
  {
    if n == 0 then []
    else SlotOrder(uniform, material, anim, n - 1) + [uniform[n - 1], material[n - 1]]
         + (if anim == [] then [] else [anim[n - 1]])
  }

  /** The slot loop names exactly the handles of its first `n` slots. */
  lemma {:induction false} SlotOrderElements(uniform: seq<Handle>, material: seq<Handle>, anim: seq<Handle>, n: nat)
    requires n <= |uniform| && n <= |material| && (anim == [] || n <= |anim|)
    ensures Elements(SlotOrder(uniform, material, anim, n))
            == Elements(uniform[..n]) + Elements(material[..n]) + Elements(anim[..if anim == [] then 0 else n])
  {
    if n > 0 {
      SlotOrderElements(uniform, material, anim, n - 1);
      var k := if anim == [] then 0 else n;
      var k' := if anim == [] then 0 else n - 1;
      assert uniform[..n] == uniform[..n - 1] + [uniform[n - 1]];
      assert material[..n] == material[..n - 1] + [material[n - 1]];
      ElementsSnoc(uniform[..n - 1], uniform[n - 1]);
      ElementsSnoc(material[..n - 1], material[n - 1]);
      if anim != [] {
        assert anim[..n] == anim[..n - 1] + [anim[n - 1]];
        ElementsSnoc(anim[..n - 1], anim[n - 1]);
      }
    }
  }

  /** The slot loop of `cleanup` names no handle twice when the three groups
      repeat none and share none. */
  lemma {:induction false} SlotOrderDistinct(uniform: seq<Handle>, material: seq<Handle>, anim: seq<Handle>, n: nat)
    requires n <= |uniform| && n <= |material| && (anim == [] || n <= |anim|)
    requires Distinct(uniform) && Distinct(material) && Distinct(anim)
    requires Elements(uniform) !! Elements(material) && Elements(uniform) !! Elements(anim)
    requires Elements(material) !! Elements(anim)
    ensures Distinct(SlotOrder(uniform, material, anim, n))
  {
    if n > 0 {
      var before := SlotOrder(uniform, material, anim, n - 1);
      var slot := [uniform[n - 1], material[n - 1]] + (if anim == [] then [] else [anim[n - 1]]);
      assert SlotOrder(uniform, material, anim, n) == before + slot;
      SlotOrderDistinct(uniform, material, anim, n - 1);
      SlotOrderElements(uniform, material, anim, n - 1);
      assert uniform[n - 1] in Elements(uniform) && material[n - 1] in Elements(material);
      forall h | h in Elements(uniform[..n - 1]) ensures h != uniform[n - 1] && h in Elements(uniform) {
        var k :| 0 <= k < n - 1 && uniform[..n - 1][k] == h;
        assert uniform[k] == h;
      }
      forall h | h in Elements(material[..n - 1]) ensures h != material[n - 1] && h in Elements(material) {
        var k :| 0 <= k < n - 1 && material[..n - 1][k] == h;
        assert material[k] == h;
      }
      if anim != [] {
        assert anim[n - 1] in Elements(anim);
        forall h | h in Elements(anim[..n - 1]) ensures h != anim[n - 1] && h in Elements(anim) {
          var k :| 0 <= k < n - 1 && anim[..n - 1][k] == h;
          assert anim[k] == h;
        }
      }
      DistinctConcat(before, slot);
    }
  }

  /** The release order of a mesh's handles repeats none when its groups and
      its two single handles are all apart. */
  lemma OwnedOrderDistinct(uniform: seq<Handle>, material: seq<Handle>, anim: seq<Handle>, x: Handle, y: Handle)
    requires |uniform| == MaxFramesInFlight && |material| == MaxFramesInFlight
    requires anim == [] || |anim| == MaxFramesInFlight
    requires Distinct(uniform) && Distinct(material) && Distinct(anim)
    requires Elements(uniform) !! Elements(material) && Elements(uniform) !! Elements(anim)
    requires Elements(material) !! Elements(anim)
    requires x != y && x !in Elements(uniform) + Elements(material) + Elements(anim)
    requires y !in Elements(uniform) + Elements(material) + Elements(anim)
    ensures Distinct(SlotOrder(uniform, material, anim, MaxFramesInFlight) + [x, y])
  {
    SlotOrderDistinct(uniform, material, anim, MaxFramesInFlight);
    SlotOrderElements(uniform, material, anim, MaxFramesInFlight);
    assert uniform[..MaxFramesInFlight] == uniform && material[..MaxFramesInFlight] == material;
    assert anim[..if anim == [] then 0 else MaxFramesInFlight] == anim;
    ElementsPair(x, y);
    DistinctConcat(SlotOrder(uniform, material, anim, MaxFramesInFlight), [x, y]);
  }

  class Mesh {
    // What `load` reads into the mesh before it is copied into the scene;
    // nothing changes these afterwards.
    const meshIndex: int
    const primitiveIndex: int
    const vertices: seq<Vertex>
    const indices: seq<U32>
    const material: Material
    const anims: seq<AnimMesh>

    var vertexBuffer: Handle
    var vertexBufferMemory: Handle
    var indexBuffer: Handle
    var indexBufferMemory: Handle

    var uniformBuffers: seq<Handle>
    var uniformBuffersMemory: seq<Handle>
    /** The mapped pointer of each uniform buffer, kept as the allocation it points into. */
    var uniformBuffersMapped: seq<Handle>

    var materialBuffers: seq<Handle>
    var materialBuffersMemory: seq<Handle>

    var animBuffers: seq<Handle>
    var animBuffersMemory: seq<Handle>

    var descriptorPool: Handle
    var descriptorSets: seq<Handle>
    var descriptorSetLayout: Handle

    /** A mesh holding the given geometry and material, with no resources yet. */
    constructor Of(meshIndex: int, primitiveIndex: int, vertices: seq<Vertex>, anims: seq<AnimMesh>,
                   indices: seq<U32>, material: Material)
      ensures this.meshIndex == meshIndex && this.primitiveIndex == primitiveIndex
      ensures this.vertices == vertices && this.anims == anims && this.indices == indices && this.material == material
      ensures uniformBuffers == [] && materialBuffers == [] && animBuffers == [] && descriptorSets == []
    {
      this.meshIndex, this.primitiveIndex := meshIndex, primitiveIndex;
      this.vertices, this.anims, this.indices, this.material := vertices, anims, indices, material;
      uniformBuffers, uniformBuffersMemory, uniformBuffersMapped := [], [], [];
      materialBuffers, materialBuffersMemory := [], [];
      animBuffers, animBuffersMemory := [], [];
      descriptorSets := [];
    }

    /** `createVertexBuffer`: the vertices' bytes in a new device-local buffer. */
    method CreateVertexBuffer(vulkan: Device)
      requires vulkan.Valid()
      modifies this`vertexBuffer, this`vertexBufferMemory, vulkan`memory, vulkan`buffers, vulkan`next, vulkan`mapped
      ensures vulkan.Valid()
      ensures old(vulkan.next) <= vertexBuffer < vulkan.next && old(vulkan.next) <= vertexBufferMemory < vulkan.next
      ensures vulkan.memory == old(vulkan.memory)[vertexBufferMemory := VerticesBytes(vertices)]
      ensures vulkan.buffers == old(vulkan.buffers)[vertexBuffer := vertexBufferMemory]
      ensures vulkan.mapped == old(vulkan.mapped)
    {
      var bytes := VerticesBytes(vertices);
      vertexBuffer, vertexBufferMemory := Upload(vulkan, bytes);
    }

    /** `createIndexBuffer`: the indices' bytes in a new device-local buffer. */
    method CreateIndexBuffer(vulkan: Device)
      requires vulkan.Valid()
      modifies this`indexBuffer, this`indexBufferMemory, vulkan`memory, vulkan`buffers, vulkan`next, vulkan`mapped
      ensures vulkan.Valid()
      ensures old(vulkan.next) <= indexBuffer < vulkan.next && old(vulkan.next) <= indexBufferMemory < vulkan.next
      ensures vulkan.memory == old(vulkan.memory)[indexBufferMemory := U32sBytes(indices)]
      ensures vulkan.buffers == old(vulkan.buffers)[indexBuffer := indexBufferMemory]
      ensures vulkan.mapped == old(vulkan.mapped)
    {
      indexBuffer, indexBufferMemory := Upload(vulkan, U32sBytes(indices));
    }

    /** `createUniformBuffers`: one new, mapped, host-visible buffer of
        `sizeof(UniformBufferObject)` bytes per frame in flight. */
    method CreateUniformBuffers(vulkan: Device)
      requires vulkan.Valid()
      modifies this`uniformBuffers, this`uniformBuffersMemory, this`uniformBuffersMapped
      modifies vulkan`memory, vulkan`buffers, vulkan`next, vulkan`mapped
      ensures vulkan.Valid()
      ensures |uniformBuffers| == MaxFramesInFlight && |uniformBuffersMemory| == MaxFramesInFlight
      ensures uniformBuffersMapped == uniformBuffersMemory
      ensures Issued(uniformBuffers, old(vulkan.next), vulkan.next) && Issued(uniformBuffersMemory, old(vulkan.next), vulkan.next)
      ensures vulkan.buffers == old(vulkan.buffers) + Bindings(uniformBuffers, uniformBuffersMemory)
      ensures Extended(old(vulkan.memory), vulkan.memory, uniformBuffersMemory, UniformBufferSize)
      ensures vulkan.mapped == old(vulkan.mapped) + Elements(uniformBuffersMemory)
    {
      var bs, ms := MapPerFrame(vulkan, UniformBufferSize);
      uniformBuffers, uniformBuffersMemory, uniformBuffersMapped := bs, ms, ms;
    }

    /** `createMaterialBuffers`: one device-local copy of the material per frame in flight. */
    method CreateMaterialBuffers(vulkan: Device)
      requires vulkan.Valid()
      modifies this`materialBuffers, this`materialBuffersMemory
      modifies vulkan`memory, vulkan`buffers, vulkan`next, vulkan`mapped
      ensures vulkan.Valid()
      ensures |materialBuffers| == MaxFramesInFlight && |materialBuffersMemory| == MaxFramesInFlight
      ensures Issued(materialBuffers, old(vulkan.next), vulkan.next) && Issued(materialBuffersMemory, old(vulkan.next), vulkan.next)
      ensures vulkan.buffers == old(vulkan.buffers) + Bindings(materialBuffers, materialBuffersMemory)
      ensures vulkan.memory == old(vulkan.memory) + Filled(materialBuffersMemory, MaterialBytes(material))
      ensures vulkan.mapped == old(vulkan.mapped)
    {
      var bs, ms := UploadPerFrame(vulkan, [MaterialBytes(material)], MaterialSize);
      ConcatSingle(MaterialBytes(material));
      materialBuffers, materialBuffersMemory := bs, ms;
    }

    /** `createAnimBuffers`: nothing for a mesh without morph targets;
        otherwise one device-local copy of the packed targets per frame in
        flight. */
    method CreateAnimBuffers(vulkan: Device)
      requires vulkan.Valid() && TargetsCover(anims)
      modifies this`animBuffers, this`animBuffersMemory
      modifies vulkan`memory, vulkan`buffers, vulkan`next, vulkan`mapped
      ensures vulkan.Valid()
      ensures anims == [] ==>
        && animBuffers == old(animBuffers) && animBuffersMemory == old(animBuffersMemory)
        && vulkan.memory == old(vulkan.memory) && vulkan.buffers == old(vulkan.buffers) && vulkan.next == old(vulkan.next)
      ensures anims != [] ==>
        && |animBuffers| == MaxFramesInFlight && |animBuffersMemory| == MaxFramesInFlight
        && Issued(animBuffers, old(vulkan.next), vulkan.next) && Issued(animBuffersMemory, old(vulkan.next), vulkan.next)
        && vulkan.buffers == old(vulkan.buffers) + Bindings(animBuffers, animBuffersMemory)
        && vulkan.memory == old(vulkan.memory) + Filled(animBuffersMemory, PackedMorphs(anims))
      ensures vulkan.mapped == old(vulkan.mapped)
    {
      if anims == [] {
        return;
      }
      var blocks := Images(anims, |anims[0].verts|);
      var bs, ms := UploadPerFrame(vulkan, blocks, |anims[0].verts| * Vec4Size);
      animBuffers, animBuffersMemory := bs, ms;
    }

    /** `createDescriptorSetLayout`. */
    method CreateDescriptorSetLayout(vulkan: Device)
      requires vulkan.Valid()
      modifies this`descriptorSetLayout, vulkan`layouts, vulkan`next
      ensures vulkan.Valid()
      ensures old(vulkan.next) <= descriptorSetLayout < vulkan.next
      ensures vulkan.layouts == old(vulkan.layouts)[descriptorSetLayout := MeshLayoutBindings()]
    {
      descriptorSetLayout := vulkan.CreateDescriptorSetLayout(MeshLayoutBindings());
    }

    /** `createDescriptorPool`: room for N sets of the mesh layout. */
    method CreateDescriptorPool(vulkan: Device)
      requires vulkan.Valid()
      modifies this`descriptorPool, vulkan`pools, vulkan`next
      ensures vulkan.Valid()
      ensures descriptorPool == old(vulkan.next) && vulkan.next == old(vulkan.next) + 1
      ensures vulkan.pools == old(vulkan.pools)[descriptorPool := Pool(MeshPoolSizes(), MaxFramesInFlight as U32, [])]
    {
      descriptorPool := vulkan.CreateDescriptorPool(MeshPoolSizes(), MaxFramesInFlight as U32);
    }

    /** `createDescriptorSets`: N sets of the mesh layout from the mesh pool,
        set `i` then pointing at slot `i`'s buffers.  A failed allocation
        throws, leaving the N entries null. */
    method CreateDescriptorSets(vulkan: Device) returns (r: Outcome)
      requires vulkan.Valid()
      requires descriptorPool in vulkan.pools && descriptorSetLayout in vulkan.layouts
      requires |uniformBuffers| == MaxFramesInFlight && |materialBuffers| == MaxFramesInFlight
      modifies this`descriptorSets, vulkan`pools, vulkan`sets, vulkan`next
      ensures vulkan.Valid()
      ensures Fits(old(vulkan.pools[descriptorPool]), Copies(old(vulkan.layouts[descriptorSetLayout]), MaxFramesInFlight)) ==> r.Pass?
      ensures r.Fail? ==>
        && r.error == PoolExhausted && descriptorSets == Copies(0, MaxFramesInFlight)
        && vulkan.pools == old(vulkan.pools) && vulkan.sets == old(vulkan.sets) && vulkan.next == old(vulkan.next)
      ensures r.Pass? ==>
        && descriptorSets == Consecutive(old(vulkan.next), MaxFramesInFlight)
        && vulkan.next == old(vulkan.next) + MaxFramesInFlight
        && vulkan.pools == old(vulkan.pools)[descriptorPool := old(vulkan.pools[descriptorPool]).(issued :=
             old(vulkan.pools[descriptorPool]).issued + Copies(old(vulkan.layouts[descriptorSetLayout]), MaxFramesInFlight))]
        && vulkan.sets.Keys == old(vulkan.sets).Keys + Elements(descriptorSets)
        && (forall h :: h in old(vulkan.sets) ==> vulkan.sets[h] == old(vulkan.sets)[h])
        && (forall k :: 0 <= k < MaxFramesInFlight ==>
              vulkan.sets[descriptorSets[k]] == DescriptorSet(descriptorPool, SlotDescriptors(uniformBuffers[k], materialBuffers[k], SlotAnim(animBuffers, anims, k), anims)))
    {
      var setLayouts := Copies(descriptorSetLayout, MaxFramesInFlight);
      assert LayoutsOf(vulkan.layouts, setLayouts) == Copies(vulkan.layouts[descriptorSetLayout], MaxFramesInFlight);
      var handles;
      r, handles := vulkan.AllocateDescriptorSets(descriptorPool, setLayouts);
      if r.Fail? {
        descriptorSets := Copies(0, MaxFramesInFlight);
        return;
      }
      descriptorSets := handles;
      WriteSlots(vulkan, handles, descriptorPool, uniformBuffers, materialBuffers, animBuffers, anims);
    }

    /** The morph buffers `cleanup` releases: none for a mesh without morph targets. */
    function AnimReleased(handles: seq<Handle>): seq<Handle>
    {
      if anims == [] then [] else handles
    }

    /** Every buffer the mesh owns, in the order `cleanup` destroys them. */
    function OwnedBuffers(): seq<Handle>
      reads this`uniformBuffers, this`materialBuffers, this`animBuffers, this`indexBuffer, this`vertexBuffer
      requires |uniformBuffers| == MaxFramesInFlight && |materialBuffers| == MaxFramesInFlight
      requires anims == [] || |animBuffers| == MaxFramesInFlight
    {
      SlotOrder(uniformBuffers, materialBuffers, AnimReleased(animBuffers), MaxFramesInFlight) + [indexBuffer, vertexBuffer]
    }

    /** Every allocation the mesh owns, in the order `cleanup` frees them. */
    function OwnedMemory(): seq<Handle>
      reads this`uniformBuffersMemory, this`materialBuffersMemory, this`animBuffersMemory
      reads this`indexBufferMemory, this`vertexBufferMemory
      requires |uniformBuffersMemory| == MaxFramesInFlight && |materialBuffersMemory| == MaxFramesInFlight
      requires anims == [] || |animBuffersMemory| == MaxFramesInFlight
    {
      SlotOrder(uniformBuffersMemory, materialBuffersMemory, AnimReleased(animBuffersMemory), MaxFramesInFlight)
      + [indexBufferMemory, vertexBufferMemory]
    }

    /** One buffer and one allocation per frame in flight in each per-frame group. */
    ghost predicate Sized()
      reads this`uniformBuffers, this`uniformBuffersMemory, this`materialBuffers, this`materialBuffersMemory
      reads this`animBuffers, this`animBuffersMemory
    {
      && |uniformBuffers| == MaxFramesInFlight && |uniformBuffersMemory| == MaxFramesInFlight
      && |materialBuffers| == MaxFramesInFlight && |materialBuffersMemory| == MaxFramesInFlight
      && (anims == [] || (|animBuffers| == MaxFramesInFlight && |animBuffersMemory| == MaxFramesInFlight))
    }

    /** The mesh's buffers and allocations are live on `vulkan` and no
        handle is owned twice. */
    ghost predicate BuffersResident(vulkan: Device)
      reads this`uniformBuffers, this`uniformBuffersMemory, this`materialBuffers, this`materialBuffersMemory
      reads this`animBuffers, this`animBuffersMemory, this`indexBuffer, this`indexBufferMemory
      reads this`vertexBuffer, this`vertexBufferMemory, vulkan`buffers, vulkan`memory
    {
      && Sized()
      && Distinct(OwnedBuffers()) && Distinct(OwnedMemory())
      && Elements(OwnedBuffers()) <= vulkan.buffers.Keys && Elements(OwnedMemory()) <= vulkan.memory.Keys
    }

    /** Every buffer and allocation of the mesh was handed out at or after `lo`. */
    ghost predicate OwnedFrom(lo: Handle)
      reads this`uniformBuffers, this`uniformBuffersMemory, this`materialBuffers, this`materialBuffersMemory
      reads this`animBuffers, this`animBuffersMemory, this`indexBuffer, this`indexBufferMemory
      reads this`vertexBuffer, this`vertexBufferMemory
    {
      && Sized()
      && (forall h <- Elements(OwnedBuffers()) :: lo <= h)
      && (forall h <- Elements(OwnedMemory()) :: lo <= h)
    }

    /** The mesh's resources are live on `vulkan`, one per frame in flight
        where there are several, and no handle is owned twice. */
    ghost predicate Resident(vulkan: Device)
      reads this, vulkan
    {
      && BuffersResident(vulkan)
      && descriptorPool in vulkan.pools && descriptorSetLayout in vulkan.layouts
    }

    /** `updateUniformBuffer`: the frame's uniform block copied through the
        mapped pointer of slot `currentImage`; no other slot changes. */
    method UpdateUniformBuffer(vulkan: Device, ubo: seq<byte>, currentImage: nat)
      requires vulkan.Valid() && |ubo| == UniformBufferSize && currentImage < |uniformBuffersMapped|
      requires uniformBuffersMapped[currentImage] in vulkan.mapped
      requires UniformBufferSize <= |vulkan.memory[uniformBuffersMapped[currentImage]]|
      modifies vulkan`memory
      ensures vulkan.Valid()
      ensures vulkan.memory == old(vulkan.memory)[uniformBuffersMapped[currentImage] :=
                Spliced(old(vulkan.memory[uniformBuffersMapped[currentImage]]), 0, ubo)]
      ensures vulkan.memory[uniformBuffersMapped[currentImage]][..UniformBufferSize] == ubo
      ensures Distinct(uniformBuffersMapped) ==>
        forall k :: 0 <= k < |uniformBuffersMapped| && k != currentImage ==>
          uniformBuffersMapped[k] in old(vulkan.memory) ==>
          vulkan.memory[uniformBuffersMapped[k]] == old(vulkan.memory[uniformBuffersMapped[k]])
    {
      vulkan.WriteMapped(uniformBuffersMapped[currentImage], 0, ubo);
      assert vulkan.memory[uniformBuffersMapped[currentImage]][..UniformBufferSize]
          == vulkan.memory[uniformBuffersMapped[currentImage]][0..0 + |ubo|];
    }

    /** `cleanup`: every buffer and allocation the mesh owns released, then
        its descriptor pool (and with it the mesh's descriptor sets) and its
        set layout destroyed.  Nothing else on the device changes. */
    method Cleanup(vulkan: Device)
      requires vulkan.Valid() && Resident(vulkan)
      modifies vulkan`buffers, vulkan`memory, vulkan`mapped, vulkan`pools, vulkan`sets, vulkan`layouts
      ensures vulkan.Valid()
      ensures vulkan.buffers == old(vulkan.buffers) - (Elements(uniformBuffers) + Elements(materialBuffers)
                + Elements(AnimReleased(animBuffers)) + {indexBuffer, vertexBuffer})
      ensures vulkan.memory == old(vulkan.memory) - (Elements(uniformBuffersMemory) + Elements(materialBuffersMemory)
                + Elements(AnimReleased(animBuffersMemory)) + {indexBufferMemory, vertexBufferMemory})
      ensures vulkan.mapped == old(vulkan.mapped) - (Elements(uniformBuffersMemory) + Elements(materialBuffersMemory)
                + Elements(AnimReleased(animBuffersMemory)) + {indexBufferMemory, vertexBufferMemory})
      ensures vulkan.pools == old(vulkan.pools) - {descriptorPool}
      ensures vulkan.sets == map h | h in old(vulkan.sets) && old(vulkan.sets)[h].pool != descriptorPool :: old(vulkan.sets)[h]
      ensures vulkan.layouts == old(vulkan.layouts) - {descriptorSetLayout}
    {
      var buffers, memory := OwnedBuffers(), OwnedMemory();
      ReleaseAll(vulkan, buffers, memory);
      OwnedElements();
      vulkan.DestroyDescriptorPool(descriptorPool);
      vulkan.DestroyDescriptorSetLayout(descriptorSetLayout);
    }

    /** Create/cleanup symmetry for buffers: on a device that `CreateBuffers`
        grew from `buffers0`, `memory0` and `mapped0` while handing out handles
        from `lo` on, what `Cleanup` releases leaves exactly the old maps. */
    lemma CleanupUndoesBuffers(lo: Handle, buffers0: map<Handle, Handle>, buffers: map<Handle, Handle>,
                                  memory0: map<Handle, seq<byte>>, memory: map<Handle, seq<byte>>,
                                  mapped0: set<Handle>, mapped: set<Handle>)
      requires OwnedFrom(lo)
      requires (forall h <- buffers0 :: h < lo) && (forall h <- memory0 :: h < lo) && mapped0 <= memory0.Keys
      requires Grown(buffers0, buffers, Elements(OwnedBuffers()))
      requires Grown(memory0, memory, Elements(OwnedMemory()))
      requires mapped == mapped0 + Elements(uniformBuffersMemory)
      ensures buffers - (Elements(uniformBuffers) + Elements(materialBuffers)
                + Elements(AnimReleased(animBuffers)) + {indexBuffer, vertexBuffer}) == buffers0
      ensures memory - (Elements(uniformBuffersMemory) + Elements(materialBuffersMemory)
                + Elements(AnimReleased(animBuffersMemory)) + {indexBufferMemory, vertexBufferMemory}) == memory0
      ensures mapped - (Elements(uniformBuffersMemory) + Elements(materialBuffersMemory)
                + Elements(AnimReleased(animBuffersMemory)) + {indexBufferMemory, vertexBufferMemory}) == mapped0
    {
      OwnedElements();
      GrownUndone(buffers0, buffers, Elements(OwnedBuffers()));
      GrownUndone(memory0, memory, Elements(OwnedMemory()));
    }

    /** Create/cleanup symmetry for descriptors: on a device whose layouts,
        pools and sets `CreateDescriptorSetLayout` and `CreateDescriptors`
        extended with handles from `lo` on, destroying the mesh's pool (and
        with it its sets) and its layout leaves exactly the old maps. */
    lemma CleanupUndoesDescriptors(vulkan: Device, lo: Handle, layouts0: map<Handle, seq<LayoutBinding>>,
                                   pools0: map<Handle, Pool>, sets0: map<Handle, DescriptorSet>)
      requires lo <= descriptorPool && lo <= descriptorSetLayout
      requires (forall h <- layouts0 :: h < lo) && (forall h <- pools0 :: h < lo)
      requires forall h <- sets0 :: sets0[h].pool in pools0
      requires Grown(layouts0, vulkan.layouts, {descriptorSetLayout})
      requires Grown(pools0, vulkan.pools, {descriptorPool})
      requires Grown(sets0, vulkan.sets, Elements(descriptorSets))
      requires forall k :: 0 <= k < |descriptorSets| ==> vulkan.sets[descriptorSets[k]].pool == descriptorPool
      ensures vulkan.layouts - {descriptorSetLayout} == layouts0
      ensures vulkan.pools - {descriptorPool} == pools0
      ensures (map h | h in vulkan.sets && vulkan.sets[h].pool != descriptorPool :: vulkan.sets[h]) == sets0
    {
      var kept := map h | h in vulkan.sets && vulkan.sets[h].pool != descriptorPool :: vulkan.sets[h];
      forall h | h in Elements(descriptorSets) ensures h !in kept {
        var k :| 0 <= k < |descriptorSets| && descriptorSets[k] == h;
      }
      assert kept.Keys == sets0.Keys;
    }

    /** The mesh's buffer calls of `Scene::setup`, in its order: vertex and
        index buffers, then the per-frame uniform, material and morph buffers,
        all new and none owned twice; `owned` and `ownedMemory` are what `cleanup` will release. */
    method CreateBuffers(vulkan: Device) returns (ghost owned: seq<Handle>, ghost ownedMemory: seq<Handle>)
      requires vulkan.Valid() && TargetsCover(anims)
      modifies this`vertexBuffer, this`vertexBufferMemory, this`indexBuffer, this`indexBufferMemory
      modifies this`uniformBuffers, this`uniformBuffersMemory, this`uniformBuffersMapped
      modifies this`materialBuffers, this`materialBuffersMemory, this`animBuffers, this`animBuffersMemory
      modifies vulkan`memory, vulkan`buffers, vulkan`next, vulkan`mapped
      ensures vulkan.Valid() && Sized() && owned == OwnedBuffers() && ownedMemory == OwnedMemory()
      ensures Distinct(owned) && Distinct(ownedMemory)
      ensures forall h <- Elements(owned) :: old(vulkan.next) <= h
      ensures forall h <- Elements(ownedMemory) :: old(vulkan.next) <= h
      ensures Grown(old(vulkan.buffers), vulkan.buffers, Elements(owned))
      ensures Grown(old(vulkan.memory), vulkan.memory, Elements(ownedMemory))
      ensures uniformBuffersMapped == uniformBuffersMemory
      ensures vulkan.mapped == old(vulkan.mapped) + Elements(uniformBuffersMemory)
    {
      ghost var n1, buffers1, memory1 := vulkan.next, vulkan.buffers, vulkan.memory;
      GeometryBuffers(vulkan);
      ghost var n3, buffers3, memory3 := vulkan.next, vulkan.buffers, vulkan.memory;
      ghost var n4, n5 := FrameBuffers(vulkan);
      BuffersCreated(n1, n3, n4, n5, vulkan.next, buffers1, buffers3, vulkan.buffers, memory1, memory3, vulkan.memory);
      owned, ownedMemory := OwnedBuffers(), OwnedMemory();
    }

    /** The mesh's descriptor calls of `Scene::setup`: a new pool, from which
        the N sets of the mesh layout are always allocated. */
    method CreateDescriptors(vulkan: Device)
      requires vulkan.Valid() && descriptorSetLayout in vulkan.layouts
      requires vulkan.layouts[descriptorSetLayout] == MeshLayoutBindings()
      requires |uniformBuffers| == MaxFramesInFlight && |materialBuffers| == MaxFramesInFlight
      modifies this`descriptorPool, this`descriptorSets, vulkan`pools, vulkan`sets, vulkan`next
      ensures vulkan.Valid() && old(vulkan.next) <= descriptorPool
      ensures vulkan.pools == old(vulkan.pools)[descriptorPool :=
                Pool(MeshPoolSizes(), MaxFramesInFlight as U32, Copies(MeshLayoutBindings(), MaxFramesInFlight))]
      ensures Grown(old(vulkan.sets), vulkan.sets, Elements(descriptorSets))
      ensures |descriptorSets| == MaxFramesInFlight
      ensures forall k :: 0 <= k < MaxFramesInFlight ==>
        vulkan.sets[descriptorSets[k]] == DescriptorSet(descriptorPool,
          SlotDescriptors(uniformBuffers[k], materialBuffers[k], SlotAnim(animBuffers, anims, k), anims))
    {
      CreateDescriptorPool(vulkan);
      MeshPoolFits(MaxFramesInFlight);
      var r := CreateDescriptorSets(vulkan);
      assert r.Pass?;
      assert [] + Copies(MeshLayoutBindings(), MaxFramesInFlight) == Copies(MeshLayoutBindings(), MaxFramesInFlight);
    }

    /** What the buffer calls of `CreateBuffers` add, taken together. */
    lemma BuffersCreated(n0: Handle, n3: Handle, n4: Handle, n5: Handle, n6: Handle,
                         b0: map<Handle, Handle>, b3: map<Handle, Handle>, b6: map<Handle, Handle>,
                         m0: map<Handle, seq<byte>>, m3: map<Handle, seq<byte>>, m6: map<Handle, seq<byte>>)
      requires |uniformBuffers| == MaxFramesInFlight && |uniformBuffersMemory| == MaxFramesInFlight
      requires |materialBuffers| == MaxFramesInFlight && |materialBuffersMemory| == MaxFramesInFlight
      requires anims == [] || (|animBuffers| == MaxFramesInFlight && |animBuffersMemory| == MaxFramesInFlight)
      requires n3 <= n4 <= n5 <= n6
      requires n0 <= vertexBuffer < indexBuffer < n3 && n0 <= vertexBufferMemory < indexBufferMemory < n3
      requires Issued(uniformBuffers, n3, n4) && Issued(uniformBuffersMemory, n3, n4)
      requires Issued(materialBuffers, n4, n5) && Issued(materialBuffersMemory, n4, n5)
      requires anims != [] ==> Issued(animBuffers, n5, n6) && Issued(animBuffersMemory, n5, n6)
      requires Grown(b0, b3, {vertexBuffer, indexBuffer})
      requires Grown(b3, b6, Elements(uniformBuffers) + Elements(materialBuffers) + Elements(AnimReleased(animBuffers)))
      requires Grown(m0, m3, {vertexBufferMemory, indexBufferMemory})
      requires Grown(m3, m6, Elements(uniformBuffersMemory) + Elements(materialBuffersMemory)
                 + Elements(AnimReleased(animBuffersMemory)))
      ensures Sized() && Distinct(OwnedBuffers()) && Distinct(OwnedMemory()) && OwnedFrom(n0)
      ensures Grown(b0, b6, Elements(OwnedBuffers()))
      ensures Grown(m0, m6, Elements(OwnedMemory()))
    {
      OwnedSeparate(n0, n3, n4, n5, n6);
      OwnedSince(n0, n3, n4, n5, n6);
      OwnedElements();
      GrownTrans(b0, b3, b6, {vertexBuffer, indexBuffer},
                 Elements(uniformBuffers) + Elements(materialBuffers) + Elements(AnimReleased(animBuffers)));
      GrownTrans(m0, m3, m6, {vertexBufferMemory, indexBufferMemory},
                 Elements(uniformBuffersMemory) + Elements(materialBuffersMemory) + Elements(AnimReleased(animBuffersMemory)));
    }

    /** `createUniformBuffers`, `createMaterialBuffers` and `createAnimBuffers`,
        seen as the handles they add: the uniform ones handed out before `n4`,
        the material ones before `n5`, the morph ones after. */
    method FrameBuffers(vulkan: Device) returns (ghost n4: Handle, ghost n5: Handle)
      requires vulkan.Valid() && TargetsCover(anims)
      modifies this`uniformBuffers, this`uniformBuffersMemory, this`uniformBuffersMapped
      modifies this`materialBuffers, this`materialBuffersMemory, this`animBuffers, this`animBuffersMemory
      modifies vulkan`memory, vulkan`buffers, vulkan`next, vulkan`mapped
      ensures vulkan.Valid() && old(vulkan.next) <= n4 <= n5 <= vulkan.next
      ensures |uniformBuffers| == MaxFramesInFlight && |uniformBuffersMemory| == MaxFramesInFlight
      ensures |materialBuffers| == MaxFramesInFlight && |materialBuffersMemory| == MaxFramesInFlight
      ensures anims == [] || (|animBuffers| == MaxFramesInFlight && |animBuffersMemory| == MaxFramesInFlight)
      ensures uniformBuffersMapped == uniformBuffersMemory
      ensures Issued(uniformBuffers, old(vulkan.next), n4) && Issued(uniformBuffersMemory, old(vulkan.next), n4)
      ensures Issued(materialBuffers, n4, n5) && Issued(materialBuffersMemory, n4, n5)
      ensures anims != [] ==> Issued(animBuffers, n5, vulkan.next) && Issued(animBuffersMemory, n5, vulkan.next)
      ensures Grown(old(vulkan.buffers), vulkan.buffers,
                Elements(uniformBuffers) + Elements(materialBuffers) + Elements(AnimReleased(animBuffers)))
      ensures Grown(old(vulkan.memory), vulkan.memory,
                Elements(uniformBuffersMemory) + Elements(materialBuffersMemory) + Elements(AnimReleased(animBuffersMemory)))
      ensures vulkan.mapped == old(vulkan.mapped) + Elements(uniformBuffersMemory)
    {
      ghost var n3, buffers3, memory3 := vulkan.next, vulkan.buffers, vulkan.memory;
      UniformHandles(vulkan);
      n4 := vulkan.next;
      ghost var buffers4, memory4 := vulkan.buffers, vulkan.memory;
      MaterialHandles(vulkan);
      n5 := vulkan.next;
      ghost var buffers5, memory5 := vulkan.buffers, vulkan.memory;
      AnimHandles(vulkan);
      GrownTrans(buffers3, buffers4, buffers5, Elements(uniformBuffers), Elements(materialBuffers));
      GrownTrans(buffers3, buffers5, vulkan.buffers, Elements(uniformBuffers) + Elements(materialBuffers),
                 Elements(AnimReleased(animBuffers)));
      GrownTrans(memory3, memory4, memory5, Elements(uniformBuffersMemory), Elements(materialBuffersMemory));
      GrownTrans(memory3, memory5, vulkan.memory, Elements(uniformBuffersMemory) + Elements(materialBuffersMemory),
                 Elements(AnimReleased(animBuffersMemory)));
    }

    /** `createUniformBuffers`, seen as the handles it adds. */
    method UniformHandles(vulkan: Device)
      requires vulkan.Valid()
      modifies this`uniformBuffers, this`uniformBuffersMemory, this`uniformBuffersMapped
      modifies vulkan`memory, vulkan`buffers, vulkan`next, vulkan`mapped
      ensures vulkan.Valid() && old(vulkan.next) <= vulkan.next
      ensures |uniformBuffers| == MaxFramesInFlight && |uniformBuffersMemory| == MaxFramesInFlight
      ensures uniformBuffersMapped == uniformBuffersMemory
      ensures Issued(uniformBuffers, old(vulkan.next), vulkan.next) && Issued(uniformBuffersMemory, old(vulkan.next), vulkan.next)
      ensures Grown(old(vulkan.buffers), vulkan.buffers, Elements(uniformBuffers))
      ensures Grown(old(vulkan.memory), vulkan.memory, Elements(uniformBuffersMemory))
      ensures vulkan.mapped == old(vulkan.mapped) + Elements(uniformBuffersMemory)
    {
      ghost var n, buffers := vulkan.next, vulkan.buffers;
      CreateUniformBuffers(vulkan);
      UnionOfNewer(buffers, Bindings(uniformBuffers, uniformBuffersMemory), n);
    }

    /** `createMaterialBuffers`, seen as the handles it adds. */
    method MaterialHandles(vulkan: Device)
      requires vulkan.Valid()
      modifies this`materialBuffers, this`materialBuffersMemory
      modifies vulkan`memory, vulkan`buffers, vulkan`next, vulkan`mapped
      ensures vulkan.Valid() && old(vulkan.next) <= vulkan.next
      ensures |materialBuffers| == MaxFramesInFlight && |materialBuffersMemory| == MaxFramesInFlight
      ensures Issued(materialBuffers, old(vulkan.next), vulkan.next) && Issued(materialBuffersMemory, old(vulkan.next), vulkan.next)
      ensures Grown(old(vulkan.buffers), vulkan.buffers, Elements(materialBuffers))
      ensures Grown(old(vulkan.memory), vulkan.memory, Elements(materialBuffersMemory))
      ensures vulkan.mapped == old(vulkan.mapped)
    {
      ghost var n, buffers, memory := vulkan.next, vulkan.buffers, vulkan.memory;
      CreateMaterialBuffers(vulkan);
      UnionOfNewer(buffers, Bindings(materialBuffers, materialBuffersMemory), n);
      UnionOfNewer(memory, Filled(materialBuffersMemory, MaterialBytes(material)), n);
    }

    /** `createAnimBuffers`, seen as the handles it adds. */
    method AnimHandles(vulkan: Device)
      requires vulkan.Valid() && TargetsCover(anims)
      modifies this`animBuffers, this`animBuffersMemory
      modifies vulkan`memory, vulkan`buffers, vulkan`next, vulkan`mapped
      ensures vulkan.Valid() && old(vulkan.next) <= vulkan.next
      ensures anims != [] ==> |animBuffers| == MaxFramesInFlight && |animBuffersMemory| == MaxFramesInFlight
      ensures anims != [] ==> Issued(animBuffers, old(vulkan.next), vulkan.next) && Issued(animBuffersMemory, old(vulkan.next), vulkan.next)
      ensures Grown(old(vulkan.buffers), vulkan.buffers, Elements(AnimReleased(animBuffers)))
      ensures Grown(old(vulkan.memory), vulkan.memory, Elements(AnimReleased(animBuffersMemory)))
      ensures vulkan.mapped == old(vulkan.mapped)
    {
      ghost var n, buffers, memory := vulkan.next, vulkan.buffers, vulkan.memory;
      CreateAnimBuffers(vulkan);
      if anims != [] {
        UnionOfNewer(buffers, Bindings(animBuffers, animBuffersMemory), n);
        UnionOfNewer(memory, Filled(animBuffersMemory, PackedMorphs(anims)), n);
      }
    }

    /** `createVertexBuffer` then `createIndexBuffer`, seen as the handles they add. */
    method GeometryBuffers(vulkan: Device)
      requires vulkan.Valid()
      modifies this`vertexBuffer, this`vertexBufferMemory, this`indexBuffer, this`indexBufferMemory
      modifies vulkan`memory, vulkan`buffers, vulkan`next, vulkan`mapped
      ensures vulkan.Valid()
      ensures old(vulkan.next) <= vertexBuffer < indexBuffer < vulkan.next
      ensures old(vulkan.next) <= vertexBufferMemory < indexBufferMemory < vulkan.next
      ensures Grown(old(vulkan.buffers), vulkan.buffers, {vertexBuffer, indexBuffer})
      ensures Grown(old(vulkan.memory), vulkan.memory, {vertexBufferMemory, indexBufferMemory})
      ensures vulkan.mapped == old(vulkan.mapped)
    {
      ghost var buffers0, memory0 := vulkan.buffers, vulkan.memory;
      VertexHandles(vulkan);
      ghost var buffers1, memory1 := vulkan.buffers, vulkan.memory;
      IndexHandles(vulkan);
      GrownTrans(buffers0, buffers1, vulkan.buffers, {vertexBuffer}, {indexBuffer});
      GrownTrans(memory0, memory1, vulkan.memory, {vertexBufferMemory}, {indexBufferMemory});
    }

    /** `createVertexBuffer`, seen as the handles it adds. */
    method VertexHandles(vulkan: Device)
      requires vulkan.Valid()
      modifies this`vertexBuffer, this`vertexBufferMemory, vulkan`memory, vulkan`buffers, vulkan`next, vulkan`mapped
      ensures vulkan.Valid()
      ensures old(vulkan.next) <= vertexBuffer < vulkan.next && old(vulkan.next) <= vertexBufferMemory < vulkan.next
      ensures Grown(old(vulkan.buffers), vulkan.buffers, {vertexBuffer})
      ensures Grown(old(vulkan.memory), vulkan.memory, {vertexBufferMemory})
      ensures vulkan.mapped == old(vulkan.mapped)
    {
      ghost var buffers, memory := vulkan.buffers, vulkan.memory;
      CreateVertexBuffer(vulkan);
      UpdateOfNewer(buffers, vertexBuffer, vertexBufferMemory);
      UpdateOfNewer(memory, vertexBufferMemory, VerticesBytes(vertices));
    }

    /** `createIndexBuffer`, seen as the handles it adds. */
    method IndexHandles(vulkan: Device)
      requires vulkan.Valid()
      modifies this`indexBuffer, this`indexBufferMemory, vulkan`memory, vulkan`buffers, vulkan`next, vulkan`mapped
      ensures vulkan.Valid()
      ensures old(vulkan.next) <= indexBuffer < vulkan.next && old(vulkan.next) <= indexBufferMemory < vulkan.next
      ensures Grown(old(vulkan.buffers), vulkan.buffers, {indexBuffer})
      ensures Grown(old(vulkan.memory), vulkan.memory, {indexBufferMemory})
      ensures vulkan.mapped == old(vulkan.mapped)
    {
      ghost var buffers, memory := vulkan.buffers, vulkan.memory;
      CreateIndexBuffer(vulkan);
      UpdateOfNewer(buffers, indexBuffer, indexBufferMemory);
      UpdateOfNewer(memory, indexBufferMemory, U32sBytes(indices));
    }

    /** The handles handed out by the creation calls in `CreateBuffers`,
        stretch by stretch, are pairwise different. */
    lemma OwnedSeparate(n0: Handle, n3: Handle, n4: Handle, n5: Handle, n6: Handle)
      requires |uniformBuffers| == MaxFramesInFlight && |uniformBuffersMemory| == MaxFramesInFlight
      requires |materialBuffers| == MaxFramesInFlight && |materialBuffersMemory| == MaxFramesInFlight
      requires anims == [] || (|animBuffers| == MaxFramesInFlight && |animBuffersMemory| == MaxFramesInFlight)
      requires n3 <= n4 <= n5 <= n6
      requires n0 <= vertexBuffer < indexBuffer < n3 && n0 <= vertexBufferMemory < indexBufferMemory < n3
      requires Issued(uniformBuffers, n3, n4) && Issued(uniformBuffersMemory, n3, n4)
      requires Issued(materialBuffers, n4, n5) && Issued(materialBuffersMemory, n4, n5)
      requires anims != [] ==> Issued(animBuffers, n5, n6) && Issued(animBuffersMemory, n5, n6)
      ensures Distinct(OwnedBuffers()) && Distinct(OwnedMemory())
    {
      var a, am := AnimReleased(animBuffers), AnimReleased(animBuffersMemory);
      if anims != [] {
        IssuedDisjoint(uniformBuffers, n3, n4, a, n5, n6);
        IssuedDisjoint(materialBuffers, n4, n5, a, n5, n6);
        IssuedDisjoint(uniformBuffersMemory, n3, n4, am, n5, n6);
        IssuedDisjoint(materialBuffersMemory, n4, n5, am, n5, n6);
      }
      IssuedDisjoint(uniformBuffers, n3, n4, materialBuffers, n4, n5);
      IssuedDisjoint(uniformBuffersMemory, n3, n4, materialBuffersMemory, n4, n5);
      assert forall h <- Elements(uniformBuffers) + Elements(materialBuffers) + Elements(a) :: n3 <= h;
      assert forall h <- Elements(uniformBuffersMemory) + Elements(materialBuffersMemory) + Elements(am) :: n3 <= h;
      OwnedOrderDistinct(uniformBuffers, materialBuffers, a, indexBuffer, vertexBuffer);
      OwnedOrderDistinct(uniformBuffersMemory, materialBuffersMemory, am, indexBufferMemory, vertexBufferMemory);
    }

    /** The same handles were all handed out at or after `n0`. */
    lemma OwnedSince(n0: Handle, n3: Handle, n4: Handle, n5: Handle, n6: Handle)
      requires |uniformBuffers| == MaxFramesInFlight && |uniformBuffersMemory| == MaxFramesInFlight
      requires |materialBuffers| == MaxFramesInFlight && |materialBuffersMemory| == MaxFramesInFlight
      requires anims == [] || (|animBuffers| == MaxFramesInFlight && |animBuffersMemory| == MaxFramesInFlight)
      requires n0 <= n3 <= n4 <= n5
      requires n0 <= vertexBuffer && n0 <= indexBuffer && n0 <= vertexBufferMemory && n0 <= indexBufferMemory
      requires Issued(uniformBuffers, n3, n4) && Issued(uniformBuffersMemory, n3, n4)
      requires Issued(materialBuffers, n4, n5) && Issued(materialBuffersMemory, n4, n5)
      requires anims != [] ==> Issued(animBuffers, n5, n6) && Issued(animBuffersMemory, n5, n6)
      ensures forall h <- Elements(OwnedBuffers()) :: n0 <= h
      ensures forall h <- Elements(OwnedMemory()) :: n0 <= h
    {
      OwnedElements();
      assert forall h <- Elements(uniformBuffers) + Elements(materialBuffers) :: n0 <= h;
      assert forall h <- Elements(uniformBuffersMemory) + Elements(materialBuffersMemory) :: n0 <= h;
      assert forall h <- Elements(AnimReleased(animBuffers)) + Elements(AnimReleased(animBuffersMemory)) :: n0 <= h;
    }

    /** What `OwnedBuffers` and `OwnedMemory` name, as sets. */
    lemma OwnedElements()
      requires |uniformBuffers| == MaxFramesInFlight && |uniformBuffersMemory| == MaxFramesInFlight
      requires |materialBuffers| == MaxFramesInFlight && |materialBuffersMemory| == MaxFramesInFlight
      requires anims == [] || (|animBuffers| == MaxFramesInFlight && |animBuffersMemory| == MaxFramesInFlight)
      ensures Elements(OwnedBuffers()) == Elements(uniformBuffers) + Elements(materialBuffers)
                + Elements(AnimReleased(animBuffers)) + {indexBuffer, vertexBuffer}
      ensures Elements(OwnedMemory()) == Elements(uniformBuffersMemory) + Elements(materialBuffersMemory)
                + Elements(AnimReleased(animBuffersMemory)) + {indexBufferMemory, vertexBufferMemory}
    {
      var a, am := AnimReleased(animBuffers), AnimReleased(animBuffersMemory);
      SlotOrderElements(uniformBuffers, materialBuffers, a, MaxFramesInFlight);
      SlotOrderElements(uniformBuffersMemory, materialBuffersMemory, am, MaxFramesInFlight);
      assert uniformBuffers[..MaxFramesInFlight] == uniformBuffers && materialBuffers[..MaxFramesInFlight] == materialBuffers;
      assert uniformBuffersMemory[..MaxFramesInFlight] == uniformBuffersMemory;
      assert materialBuffersMemory[..MaxFramesInFlight] == materialBuffersMemory;
      assert a[..if a == [] then 0 else MaxFramesInFlight] == a;
      assert am[..if am == [] then 0 else MaxFramesInFlight] == am;
      ElementsAppend(SlotOrder(uniformBuffers, materialBuffers, a, MaxFramesInFlight), [indexBuffer, vertexBuffer]);
      ElementsAppend(SlotOrder(uniformBuffersMemory, materialBuffersMemory, am, MaxFramesInFlight),
                     [indexBufferMemory, vertexBufferMemory]);
      ElementsPair(indexBuffer, vertexBuffer);
      ElementsPair(indexBufferMemory, vertexBufferMemory);
    }
  }
}
