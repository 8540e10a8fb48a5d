/** The part of a Vulkan device that the renderer's per-frame resources live in.

    The device is a heap: every live `VkBuffer` is bound to a live
    `VkDeviceMemory`, and every allocation holds bytes.  Descriptor set
    layouts, descriptor pools and descriptor sets are kept with exactly the
    information the renderer puts into them.  Handles are never reused; the
    null handle is 0, and every handle the device hands out is at least 1
    and below `next`.  Each method below stands for one `vk*` call (or for
    `Vulkan::createBuffer` / `Vulkan::copyBuffer`), and its `requires`
    clauses are the valid-usage rules of that call that the renderer relies
    on: a call outside them has undefined behaviour. */
module Gpu {
  import opened Failures
  import opened Bytes

  /** A non-dispatchable handle (`VkBuffer`, `VkDeviceMemory`, `VkDescriptorPool`, ...). */
  type Handle = nat

  /** `g_MAX_FRAMES_IN_FLIGHT`: how many frames may be recorded before the
      first is presented, hence how many copies of each per-frame resource
      exist.  Only its being at least 1 matters to the proofs. */
  const MaxFramesInFlight: nat := 2

  datatype DescriptorType = UniformBuffer | StorageBuffer | CombinedImageSampler

  /** `VkDescriptorPoolSize`. */
  datatype PoolSize = PoolSize(kind: DescriptorType, descriptorCount: U32)

  /** `VkDescriptorSetLayoutBinding`, without its stage flags and immutable samplers. */
  datatype LayoutBinding = LayoutBinding(binding: nat, kind: DescriptorType, descriptorCount: U32)

  /** A live descriptor pool: its `VkDescriptorPoolCreateInfo`, and the
      layouts of the sets allocated from it so far. */
  datatype Pool = Pool(sizes: seq<PoolSize>, maxSets: U32, issued: seq<seq<LayoutBinding>>)

  /** `VkDescriptorBufferInfo`. */
  datatype BufferInfo = BufferInfo(buffer: Handle, offset: nat, range: nat)

  /** A live descriptor set: the pool it came from and the buffer descriptor written at each binding. */
  datatype DescriptorSet = DescriptorSet(pool: Handle, bindings: map<nat, BufferInfo>)

  /** One `VkWriteDescriptorSet` of a single buffer descriptor. */
  datatype DescriptorWrite = DescriptorWrite(dstSet: Handle, dstBinding: nat, kind: DescriptorType, info: BufferInfo)

  /** How many descriptors of kind `t` the pool sizes provide (entries of the same kind add up). */
  function Capacity(sizes: seq<PoolSize>, t: DescriptorType): nat
  {
    if sizes == [] then 0
    else (if sizes[0].kind == t then sizes[0].descriptorCount as nat else 0) + Capacity(sizes[1..], t)
  }

  /** How many descriptors of kind `t` one set of layout `bindings` takes. */
  function LayoutDemand(bindings: seq<LayoutBinding>, t: DescriptorType): nat
  {
    if bindings == [] then 0
    else (if bindings[0].kind == t then bindings[0].descriptorCount as nat else 0) + LayoutDemand(bindings[1..], t)
  }

  /** How many descriptors of kind `t` sets of the given layouts take together. */
  function Demand(layouts: seq<seq<LayoutBinding>>, t: DescriptorType): nat
  {
    if layouts == [] then 0 else LayoutDemand(layouts[0], t) + Demand(layouts[1..], t)
  }

  /** `Capacity` and `LayoutDemand` of two-entry tables, added up. */
  lemma CapacityOfPair(a: PoolSize, b: PoolSize, t: DescriptorType)
    ensures Capacity([a, b], t) == (if a.kind == t then a.descriptorCount as nat else 0) + (if b.kind == t then b.descriptorCount as nat else 0)
  {
    assert [a, b][1..] == [b] && [b][1..] == [];
    assert Capacity([b], t) == (if b.kind == t then b.descriptorCount as nat else 0) + Capacity([], t);
  }

  lemma LayoutDemandOfPair(a: LayoutBinding, b: LayoutBinding, t: DescriptorType)
    ensures LayoutDemand([a, b], t) == (if a.kind == t then a.descriptorCount as nat else 0) + (if b.kind == t then b.descriptorCount as nat else 0)
  {
    assert [a, b][1..] == [b] && [b][1..] == [];
    assert LayoutDemand([b], t) == (if b.kind == t then b.descriptorCount as nat else 0) + LayoutDemand([], t);
  }

  /** The pool still has room for sets of `layouts`: within `maxSets`, and
      within every pool size. */
  predicate Fits(pool: Pool, layouts: seq<seq<LayoutBinding>>)
  {
    && |pool.issued| + |layouts| <= pool.maxSets as nat
    && forall t: DescriptorType :: Demand(pool.issued + layouts, t) <= Capacity(pool.sizes, t)
  }

  /** `count` copies of `x`, as a `std::vector<T>(count, x)` holds them. */
  function Copies<T>(x: T, count: nat): (r: seq<T>)
    ensures |r| == count && forall k :: 0 <= k < count ==> r[k] == x
  {
    seq(count, _ => x)
  }

  /** `count` sets of one layout take `count` times its demand. */
  lemma {:induction false} DemandOfCopies(bindings: seq<LayoutBinding>, count: nat, t: DescriptorType)
    ensures Demand(Copies(bindings, count), t) == count * LayoutDemand(bindings, t)
  {
    if count > 0 {
      assert Copies(bindings, count)[1..] == Copies(bindings, count - 1);
      DemandOfCopies(bindings, count - 1, t);
    }
  }

  /** The bindings of each layout in `setLayouts`, as an allocation reads them. */
  function LayoutsOf(layouts: map<Handle, seq<LayoutBinding>>, setLayouts: seq<Handle>): (r: seq<seq<LayoutBinding>>)
    requires forall k :: 0 <= k < |setLayouts| ==> setLayouts[k] in layouts
    ensures |r| == |setLayouts|
    ensures forall k :: 0 <= k < |setLayouts| ==> r[k] == layouts[setLayouts[k]]
  {
    seq(|setLayouts|, k requires 0 <= k < |setLayouts| => layouts[setLayouts[k]])
  }

  /** `s` with `bytes` written over it from byte `at` on. */
  function Spliced(s: seq<byte>, at: nat, bytes: seq<byte>): (r: seq<byte>)
    requires at + |bytes| <= |s|
    ensures |r| == |s|
    ensures r[at .. at + |bytes|] == bytes
    ensures r[..at] == s[..at] && r[at + |bytes|..] == s[at + |bytes|..]
  {
    s[..at] + bytes + s[at + |bytes|..]
  }

  /** `count` consecutive handles starting at `first`, as one allocation call returns them. */
  function Consecutive(first: Handle, count: nat): (r: seq<Handle>)
    ensures |r| == count
    ensures forall k :: 0 <= k < count ==> r[k] == first + k
  {
    seq(count, k => first + k)
  }

  /** `hs` were handed out in this order between the moments `next` was
      `lo` and `hi`: strictly increasing, so pairwise distinct, and none of
      them was live before. */
  predicate Issued(hs: seq<Handle>, lo: Handle, hi: Handle)
  {
    && (forall k :: 0 <= k < |hs| ==> lo <= hs[k] < hi)
    && (forall k, l :: 0 <= k < l < |hs| ==> hs[k] < hs[l])
  }

  /** A handle handed out after all of `hs` extends them. */
  lemma IssuedSnoc(hs: seq<Handle>, x: Handle, lo: Handle, mid: Handle, hi: Handle)
    requires Issued(hs, lo, mid) && lo <= mid <= x < hi
    ensures Issued(hs + [x], lo, hi)
  {
    var s := hs + [x];
    forall k | 0 <= k < |s|
      ensures lo <= s[k] < hi
    {
      if k < |hs| { assert s[k] == hs[k]; }
    }
    forall k, l | 0 <= k < l < |s|
      ensures s[k] < s[l]
    {
      assert s[k] == hs[k];
    }
  }

  /** The handles in `hs`, as a set. */
  function Elements(hs: seq<Handle>): (r: set<Handle>)
    ensures forall h :: h in r <==> h in hs
  {
    set h | h in hs
  }

  lemma ElementsSnoc(hs: seq<Handle>, x: Handle)
    ensures Elements(hs + [x]) == Elements(hs) + {x}
  {
  }

  lemma ElementsPair(x: Handle, y: Handle)
    ensures Elements([x, y]) == {x, y}
  {
    assert [x, y][0] == x && [x, y][1] == y;
  }

  lemma ElementsAppend(hs: seq<Handle>, gs: seq<Handle>)
    ensures Elements(hs + gs) == Elements(hs) + Elements(gs)
  {
  }

  /** Every allocation in `hs` holding `bytes`. */
  function Filled(hs: seq<Handle>, bytes: seq<byte>): (r: map<Handle, seq<byte>>)
    ensures r.Keys == Elements(hs)
  {
    map h | h in hs :: bytes
  }

  lemma FilledSnoc(hs: seq<Handle>, x: Handle, bytes: seq<byte>)
    ensures Filled(hs + [x], bytes) == Filled(hs, bytes)[x := bytes]
  {
  }

  /** `after` is `before` with a fresh allocation of `size` bytes for every
      handle in `hs`, whatever those bytes are. */
  ghost predicate Extended(before: map<Handle, seq<byte>>, after: map<Handle, seq<byte>>, hs: seq<Handle>, size: nat)
  {
    && after.Keys == before.Keys + Elements(hs)
    && (forall h :: h in before ==> after[h] == before[h])
    && (forall k :: 0 <= k < |hs| ==> |after[hs[k]]| == size)
  }

  lemma ExtendedSnoc(before: map<Handle, seq<byte>>, after: map<Handle, seq<byte>>, hs: seq<Handle>, x: Handle, bytes: seq<byte>, size: nat)
    requires Extended(before, after, hs, size) && x !in after && |bytes| == size
    ensures Extended(before, after[x := bytes], hs + [x], size)
  {
    var s := hs + [x];
    ElementsSnoc(hs, x);
    forall k | 0 <= k < |s|
      ensures |after[x := bytes][s[k]]| == size
    {
      if k < |hs| {
        assert s[k] == hs[k] && hs[k] in after;
      }
    }
  }

  /** Adding a key to the right operand of a union adds it to the union. */
  lemma UnionUpdate<K, V>(a: map<K, V>, b: map<K, V>, k: K, v: V)
    ensures a + b[k := v] == (a + b)[k := v]
  {
  }

  /** Buffer `bs[k]` bound to allocation `ms[k]`. */
  function Bindings(bs: seq<Handle>, ms: seq<Handle>): (r: map<Handle, Handle>)
    requires |bs| == |ms|
    ensures r.Keys == Elements(bs)
  {
    if bs == [] then map[]
    else Bindings(bs[..|bs| - 1], ms[..|ms| - 1])[bs[|bs| - 1] := ms[|ms| - 1]]
  }

  /** The sets after `writes` are applied in order. */
  function Written(sets: map<Handle, DescriptorSet>, writes: seq<DescriptorWrite>): (r: map<Handle, DescriptorSet>)
    requires forall k :: 0 <= k < |writes| ==> writes[k].dstSet in sets
    ensures r.Keys == sets.Keys
    ensures forall h :: h in sets ==> r[h].pool == sets[h].pool
  {
    if writes == [] then sets
    else
      var w := writes[0];
      var s := sets[w.dstSet];
      Written(sets[w.dstSet := s.(bindings := s.bindings[w.dstBinding := w.info])], writes[1..])
  }

  /** The bindings of one set after `writes` are applied to it in order. */
  function Applied(bindings: map<nat, BufferInfo>, writes: seq<DescriptorWrite>): map<nat, BufferInfo>
    decreases writes
  {
    if writes == [] then bindings else Applied(bindings[writes[0].dstBinding := writes[0].info], writes[1..])
  }

  /** Writes that all target set `h` change that set's bindings and no other set. */
  lemma {:induction false} WrittenToOneSet(sets: map<Handle, DescriptorSet>, h: Handle, writes: seq<DescriptorWrite>)
    requires h in sets
    requires forall k :: 0 <= k < |writes| ==> writes[k].dstSet == h
    ensures Written(sets, writes) == sets[h := sets[h].(bindings := Applied(sets[h].bindings, writes))]
    decreases |writes|
  {
    if writes != [] {
      var w := writes[0];
      var s := sets[h];
      var sets' := sets[h := s.(bindings := s.bindings[w.dstBinding := w.info])];
      WrittenToOneSet(sets', h, writes[1..]);
      assert sets'[h := sets'[h].(bindings := Applied(sets'[h].bindings, writes[1..]))]
          == sets[h := s.(bindings := Applied(s.bindings, writes))];
    }
  }

  /** No handle occurs twice. */
  predicate Distinct(hs: seq<Handle>)
  {
    forall k, l :: 0 <= k < l < |hs| ==> hs[k] != hs[l]
  }

  /** Handles handed out in increasing order are distinct. */
  lemma IssuedDistinct(hs: seq<Handle>, lo: Handle, hi: Handle)
    requires Issued(hs, lo, hi)
    ensures Distinct(hs)
  {
  }

  /** Handles handed out in two separate stretches of time are different. */
  lemma IssuedDisjoint(hs: seq<Handle>, lo: Handle, mid: Handle, gs: seq<Handle>, mid': Handle, hi: Handle)
    requires Issued(hs, lo, mid) && Issued(gs, mid', hi) && mid <= mid'
    ensures Elements(hs) !! Elements(gs)
  {
  }

  /** Two sequences without repeats and without common handles have none together. */
  lemma DistinctConcat(xs: seq<Handle>, ys: seq<Handle>)
    requires Distinct(xs) && Distinct(ys) && Elements(xs) !! Elements(ys)
    ensures Distinct(xs + ys)
  {
    var s := xs + ys;
    forall k, l | 0 <= k < l < |s|
      ensures s[k] != s[l]
    {
      if l < |xs| {
        assert s[k] == xs[k] && s[l] == xs[l];
      } else if k >= |xs| {
        assert s[k] == ys[k - |xs|] && s[l] == ys[l - |xs|];
      } else {
        assert s[k] == xs[k] && s[l] == ys[l - |xs|];
        assert s[k] in Elements(xs) && s[l] in Elements(ys);
      }
    }
  }

  /** `after` is `before` with entries added under the handles `added`;
      no entry of `before` changes. */
  ghost predicate Grown<V>(before: map<Handle, V>, after: map<Handle, V>, added: set<Handle>)
  {
    && after.Keys == before.Keys + added
    && (forall h <- before :: after[h] == before[h])
  }

  lemma GrownTrans<V>(a: map<Handle, V>, b: map<Handle, V>, c: map<Handle, V>, s: set<Handle>, t: set<Handle>)
    requires Grown(a, b, s) && Grown(b, c, t)
    ensures Grown(a, c, s + t)
  {
  }

  /** Removing what was added, when none of it was there before, gives back the original. */
  lemma GrownUndone<V>(a: map<Handle, V>, b: map<Handle, V>, s: set<Handle>)
    requires Grown(a, b, s) && a.Keys !! s
    ensures b - s == a
  {
  }

  /** Adding entries under handles newer than every existing one keeps the existing entries. */
  lemma UnionOfNewer<V>(a: map<Handle, V>, b: map<Handle, V>, lo: Handle)
    requires forall h <- a :: h < lo
    requires forall h <- b :: lo <= h
    ensures Grown(a, a + b, b.Keys)
  {
  }

  /** An entry under a handle newer than every existing one keeps the existing entries. */
  lemma UpdateOfNewer<V>(a: map<Handle, V>, k: Handle, v: V)
    requires forall h <- a :: h < k
    ensures Grown(a, a[k := v], {k})
  {
  }

  /** Removing keys one set after another removes their union. */
  lemma RemoveTwice<K, V>(m: map<K, V>, s: set<K>, t: set<K>)
    ensures m - s - t == m - (s + t)
  {
  }

  class Device {
    /** Live `VkDeviceMemory` allocations and their bytes. */
    var memory: map<Handle, seq<byte>>
    /** The allocations currently mapped; a mapped pointer is kept as the allocation it points into. */
    var mapped: set<Handle>
    /** Live `VkBuffer`s and the allocation each is bound to. */
    var buffers: map<Handle, Handle>
    var layouts: map<Handle, seq<LayoutBinding>>
    var pools: map<Handle, Pool>
    var sets: map<Handle, DescriptorSet>
    /** The next handle to hand out. */
    var next: Handle

    ghost predicate Valid()
      reads this
    {
      && 1 <= next
      && (forall h :: h in memory ==> 1 <= h < next)
      && (forall h :: h in buffers ==> 1 <= h < next)
      && (forall h :: h in layouts ==> 1 <= h < next)
      && (forall h :: h in pools ==> 1 <= h < next)
      && (forall h :: h in sets ==> 1 <= h < next && sets[h].pool in pools)
      && mapped <= memory.Keys
    }

    /** A device with nothing allocated. */
    constructor ()
      ensures Valid()
      ensures memory == map[] && mapped == {} && buffers == map[]
      ensures layouts == map[] && pools == map[] && sets == map[]
    {
      memory, mapped, buffers := map[], {}, map[];
      layouts, pools, sets := map[], map[], map[];
      next := 1;
    }

    /** `Vulkan::createBuffer`: a new buffer bound to a new allocation of
        `size` bytes, whose contents are undefined. */
    method CreateBuffer(size: nat) returns (buffer: Handle, bufferMemory: Handle)
      requires Valid()
      modifies this`memory, this`buffers, this`next
      ensures Valid()
      ensures buffer == old(next) && bufferMemory == old(next) + 1 && next == old(next) + 2
      ensures bufferMemory in memory && |memory[bufferMemory]| == size
      ensures memory == old(memory)[bufferMemory := memory[bufferMemory]]
      ensures buffers == old(buffers)[buffer := bufferMemory]
    {
      assert |Zeros(size)| == size;
      var contents: seq<byte> :| |contents| == size;
      buffer, bufferMemory := next, next + 1;
      memory := memory[bufferMemory := contents];
      buffers := buffers[buffer := bufferMemory];
      next := next + 2;
    }

    /** `vkMapMemory` of a whole allocation. */
    method MapMemory(m: Handle)
      requires Valid() && m in memory && m !in mapped
      modifies this`mapped
      ensures Valid()
      ensures mapped == old(mapped) + {m}
    {
      mapped := mapped + {m};
    }

    /** `vkUnmapMemory`. */
    method UnmapMemory(m: Handle)
      requires Valid() && m in mapped
      modifies this`mapped
      ensures Valid()
      ensures mapped == old(mapped) - {m}
    {
      mapped := mapped - {m};
    }

    /** `memcpy` of `bytes` into the mapped allocation `m` at offset `at`;
        writing past the end of the mapping is undefined. */
    method WriteMapped(m: Handle, at: nat, bytes: seq<byte>)
      requires Valid() && m in mapped && at + |bytes| <= |memory[m]|
      modifies this`memory
      ensures Valid()
      ensures memory == old(memory)[m := Spliced(old(memory[m]), at, bytes)]
    {
      memory := memory[m := Spliced(memory[m], at, bytes)];
    }

    /** `Vulkan::copyBuffer`: the first `size` bytes of `src` into `dst`. */
    method CopyBuffer(src: Handle, dst: Handle, size: nat)
      requires Valid() && src in buffers && dst in buffers
      requires buffers[src] in memory && buffers[dst] in memory && buffers[src] != buffers[dst]
      requires size <= |memory[buffers[src]]| && size <= |memory[buffers[dst]]|
      modifies this`memory
      ensures Valid()
      ensures memory == old(memory)[buffers[dst] := Spliced(old(memory[buffers[dst]]), 0, old(memory[buffers[src]])[..size])]
    {
      var d := buffers[dst];
      memory := memory[d := Spliced(memory[d], 0, memory[buffers[src]][..size])];
    }

    /** `vkDestroyBuffer`. */
    method DestroyBuffer(b: Handle)
      requires Valid() && b in buffers
      modifies this`buffers
      ensures Valid()
      ensures buffers == old(buffers) - {b}
    {
      buffers := buffers - {b};
    }

    /** `vkFreeMemory`; freeing a mapped allocation unmaps it. */
    method FreeMemory(m: Handle)
      requires Valid() && m in memory
      modifies this`memory, this`mapped
      ensures Valid()
      ensures memory == old(memory) - {m} && mapped == old(mapped) - {m}
    {
      memory := memory - {m};
      mapped := mapped - {m};
    }

    /** `vkCreateDescriptorSetLayout`. */
    method CreateDescriptorSetLayout(bindings: seq<LayoutBinding>) returns (layout: Handle)
      requires Valid()
      modifies this`layouts, this`next
      ensures Valid()
      ensures layout == old(next) && next == old(next) + 1
      ensures layouts == old(layouts)[layout := bindings]
    {
      layout := next;
      layouts := layouts[layout := bindings];
      next := next + 1;
    }

    /** `vkDestroyDescriptorSetLayout`. */
    method DestroyDescriptorSetLayout(layout: Handle)
      requires Valid() && layout in layouts
      modifies this`layouts
      ensures Valid()
      ensures layouts == old(layouts) - {layout}
    {
      layouts := layouts - {layout};
    }

    /** `vkCreateDescriptorPool`: an empty pool with the given sizes and `maxSets`. */
    method CreateDescriptorPool(sizes: seq<PoolSize>, maxSets: U32) returns (pool: Handle)
      requires Valid()
      modifies this`pools, this`next
      ensures Valid()
      ensures pool == old(next) && next == old(next) + 1
      ensures pools == old(pools)[pool := Pool(sizes, maxSets, [])]
    {
      pool := next;
      pools := pools[pool := Pool(sizes, maxSets, [])];
      next := next + 1;
    }

    /** `vkDestroyDescriptorPool`: the pool and every set allocated from it. */
    method DestroyDescriptorPool(pool: Handle)
      requires Valid() && pool in pools
      modifies this`pools, this`sets
      ensures Valid()
      ensures pools == old(pools) - {pool}
      ensures sets == map h | h in old(sets) && old(sets)[h].pool != pool :: old(sets)[h]
    {
      sets := map h | h in sets && sets[h].pool != pool :: sets[h];
      pools := pools - {pool};
    }

    /** `vkAllocateDescriptorSets`: one new set per entry of `setLayouts`,
        with nothing written yet.  The call always succeeds while the pool
        has room; past that the implementation may fail it with
        `VK_ERROR_OUT_OF_POOL_MEMORY`, and then nothing is allocated. */
    method AllocateDescriptorSets(pool: Handle, setLayouts: seq<Handle>) returns (r: Outcome, handles: seq<Handle>)
      requires Valid() && pool in pools
      requires forall k :: 0 <= k < |setLayouts| ==> setLayouts[k] in layouts
      modifies this`pools, this`sets, this`next
      ensures Valid()
      ensures Fits(old(pools[pool]), LayoutsOf(old(layouts), setLayouts)) ==> r.Pass?
      ensures r.Fail? ==> r.error == PoolExhausted && pools == old(pools) && sets == old(sets) && next == old(next)
      ensures r.Pass? ==>
        && handles == Consecutive(old(next), |setLayouts|)
        && next == old(next) + |setLayouts|
        && sets == old(sets) + (map h | h in handles :: DescriptorSet(pool, map[]))
        && pools == old(pools)[pool := old(pools[pool]).(issued :=
             old(pools[pool]).issued + LayoutsOf(old(layouts), setLayouts))]
    {
      var wanted := LayoutsOf(layouts, setLayouts);
      var p := pools[pool];
      var granted: bool := *;
      if !Fits(p, wanted) && !granted {
        return Fail(PoolExhausted), [];
      }
      handles := Consecutive(next, |setLayouts|);
      sets := sets + (map h | h in handles :: DescriptorSet(pool, map[]));
      pools := pools[pool := p.(issued := p.issued + wanted)];
      next := next + |setLayouts|;
      r := Pass;
    }

    /** `vkUpdateDescriptorSets` with buffer descriptors only. */
    method UpdateDescriptorSets(writes: seq<DescriptorWrite>)
      requires Valid()
      requires forall k :: 0 <= k < |writes| ==> writes[k].dstSet in sets
      modifies this`sets
      ensures Valid()
      ensures sets == Written(old(sets), writes)
    {
      sets := Written(sets, writes);
    }
  }
}
