/** `VRMImporter::loadModel` and `VRMImporter::loadNodes` (importer/VRMImporter.cpp).

    `loadModel` reads a binary glTF file (section 4.4 of the glTF 2.0
    specification: a 12-byte header, then chunks of an 8-byte header and a
    payload) through an `std::ifstream`; `loadNodes` turns the header's flat
    `nodes` list into first-child/next-sibling records.

    The file's bytes are the input; opening the file and printing are left
    out, and the JSON text parser is a parameter (`parse`), since it is
    foreign code.  A failed `assert`, an exception and undefined behaviour all
    end the operation with an `Error`; the object's fields are then whatever
    the C++ code had written before it stopped, and nothing is promised
    about them. */
module Importer {
  import opened Failures
  import opened Bytes
  import opened JsonValue
  import opened Structs
  import opened Vrm

  /** "glTF" read as a little-endian `uint32_t`. */
  const GltfMagic: U32 := 0x4654_6C67

  /** The ASCII space, which section 4.4.3.1 of the glTF 2.0 specification
      uses to pad the JSON chunk. */
  const Space: byte := 0x20

  function Min(a: nat, b: nat): nat
  {
    if a <= b then a else b
  }

  // ---------------------------------------------------------------------
  // The stream

  /** An `std::ifstream` opened in binary mode on `data`: a read position and the fail bit. */
  class InputFile {
    const data: seq<byte>
    var pos: nat
    var failed: bool

    ghost predicate Valid()
      reads this
    {
      pos <= |data|
    }

    constructor(data: seq<byte>)
      ensures this.data == data && pos == 0 && !failed && Valid()
    {
      this.data := data;
      pos := 0;
      failed := false;
    }

    /** `istream::read(s, n)`: a failed stream reads nothing; otherwise up to
        `n` bytes are copied, and fewer than `n` set the fail bit, which
        stays set. */
    method Read(n: nat) returns (got: seq<byte>)
      requires Valid()
      modifies this
      ensures Valid()
      ensures got == ReadFrom(data, old(pos), old(failed), n)
      ensures pos == old(pos) + |got|
      ensures failed == (old(failed) || old(pos) + n > |data|)
    {
      if failed {
        got := [];
      } else {
        var end := Min(pos + n, |data|);
        got := data[pos..end];
        failed := end < pos + n;
        pos := end;
      }
    }
  }

  /** What `read(s, n)` delivers from position `pos` of `data`. */
  function ReadFrom(data: seq<byte>, pos: nat, failed: bool, n: nat): (got: seq<byte>)
    requires pos <= |data|
    ensures |got| <= n && pos + |got| <= |data|
  {
    if failed then [] else data[pos..Min(pos + n, |data|)]
  }

  /** The four bytes of a `uint32_t` variable after a 4-byte read that
      delivered `got`: on a little-endian machine the delivered bytes are the
      low ones, and the rest keep what the variable held. */
  function Overlay(prior: seq<byte>, got: seq<byte>): (r: seq<byte>)
    requires |prior| == 4 && |got| <= 4
    ensures |r| == 4 && r[..|got|] == got && r[|got|..] == prior[|got|..]
  {
    got + prior[|got|..]
  }

  /** `std::vector<char>::resize(n)`: the first `n` bytes kept, zeros added to reach `n`. */
  function Resized(b: seq<byte>, n: nat): (r: seq<byte>)
    ensures |r| == n
    ensures forall k :: 0 <= k < n ==> r[k] == if k < |b| then b[k] else 0
  {
    if n <= |b| then b[..n] else b + Zeros(n - |b|)
  }

  // ---------------------------------------------------------------------
  // The container, declaratively

  /** What `loadModel` takes from a binary glTF file: the JSON chunk's bytes and the new `buffer`. */
  datatype Glb = Glb(json: seq<byte>, bin: seq<byte>)

  /** The JSON chunk `loadModel` accepts, by byte position.

      - Fewer than 4 bytes leave part of `magic` unwritten when it is
        compared, and fewer than 16 leave part of `chunkLength` unwritten
        when it is passed to `resize`: both are undefined behaviour.
      - A first word other than "glTF" fails the magic assertion.
      - The version, the total length and the chunk type are never looked at.
      - The chunk must be complete: otherwise the stream fails and the
        assertions after the read fail. */
  function JsonChunk(file: seq<byte>): (r: Result<seq<byte>>)
    ensures r.Ok? ==> |file| >= 20 && U32At(file, 0) == GltfMagic
    ensures r.Ok? ==> |file| >= 20 && 20 + U32At(file, 12) as nat <= |file| && r.value == file[20..20 + U32At(file, 12) as nat]
    ensures |file| >= 20 && U32At(file, 0) == GltfMagic && 20 + U32At(file, 12) as nat <= |file|
            ==> r == Ok(file[20..20 + U32At(file, 12) as nat])
    ensures |file| >= 4 && U32At(file, 0) != GltfMagic ==> r == Err(BadMagic)
    ensures |file| >= 20 && U32At(file, 0) == GltfMagic && 20 + U32At(file, 12) as nat > |file| ==> r == Err(TruncatedInput)
  {
    if |file| < 4 then Err(UndefinedBehaviour)
    else if U32At(file, 0) != GltfMagic then Err(BadMagic)
    else if |file| < 16 then Err(UndefinedBehaviour)
    else if |file| < 20 then Err(TruncatedInput)
    else
      var jsonLength := U32At(file, 12) as nat;
      if 20 + jsonLength > |file| then Err(TruncatedInput)
      else Ok(file[20..20 + jsonLength])
  }

  /** The second chunk, read without any check from the bytes `rest` that
      follow the JSON chunk: its length word is whatever of its four bytes
      `rest` still has, laid over `prior` (the first chunk's length), and the
      payload is what `rest` still holds, padded with zeros up to that
      length. */
  function ChunkAfter(rest: seq<byte>, prior: seq<byte>): (r: seq<byte>)
    requires |prior| == 4
    ensures |r| == U32At(Overlay(prior, rest[..Min(4, |rest|)]), 0) as nat
  {
    var binLength := U32At(Overlay(prior, rest[..Min(4, |rest|)]), 0) as nat;
    var payload := if |rest| < 8 then [] else rest[8..Min(8 + binLength, |rest|)];
    payload + Zeros(binLength - |payload|)
  }

  /** The new `buffer`: the chunk after the JSON chunk. */
  function BinChunk(file: seq<byte>): seq<byte>
    requires |file| >= 20 && 20 + U32At(file, 12) as nat <= |file|
  {
    ChunkAfter(file[20 + U32At(file, 12) as nat..], file[12..16])
  }

  /** The three reads of the second chunk, from position `pos` of `data`
      on a stream that has not failed, leave `ChunkAfter` in `buffer`. */
  lemma SecondChunkReads(data: seq<byte>, pos: nat, prior: seq<byte>, lengthRead: seq<byte>, typeRead: seq<byte>, got: seq<byte>)
    requires pos <= |data| && |prior| == 4
    requires lengthRead == ReadFrom(data, pos, false, 4)
    requires typeRead == ReadFrom(data, pos + |lengthRead|, pos + 4 > |data|, 4)
    requires got == ReadFrom(data, pos + |lengthRead| + |typeRead|, pos + 4 > |data| || pos + |lengthRead| + 4 > |data|,
                             U32At(Overlay(prior, lengthRead), 0) as nat)
    ensures got + Resized([], U32At(Overlay(prior, lengthRead), 0) as nat)[|got|..] == ChunkAfter(data[pos..], prior)
  {
    var rest := data[pos..];
    assert lengthRead == rest[..Min(4, |rest|)];
    var size := U32At(Overlay(prior, lengthRead), 0) as nat;
    var payload := if |rest| < 8 then [] else rest[8..Min(8 + size, |rest|)];
    if |rest| < 8 {
      assert got == [];
    } else {
      assert got == payload;
    }
    assert Resized([], size)[|got|..] == Zeros(size - |payload|);
  }

  /** The split `loadModel` performs. */
  function SplitGlb(file: seq<byte>): (r: Result<Glb>)
    ensures r.Ok? <==> JsonChunk(file).Ok?
    ensures r.Err? ==> r.error == JsonChunk(file).error
  {
    var json :- JsonChunk(file);
    Ok(Glb(json, BinChunk(file)))
  }

  /** A file with a complete second chunk: `buffer` is exactly that chunk's payload. */
  lemma SplitWellFormed(file: seq<byte>)
    requires |file| >= 28 && U32At(file, 0) == GltfMagic
    requires 28 + U32At(file, 12) as nat <= |file|
    requires var binAt := 20 + U32At(file, 12) as nat;
      binAt + 8 + U32At(file, binAt) as nat <= |file|
    ensures var jsonLength := U32At(file, 12) as nat;
      var binLength := U32At(file, 20 + jsonLength) as nat;
      SplitGlb(file) == Ok(Glb(file[20..20 + jsonLength], file[28 + jsonLength..28 + jsonLength + binLength]))
  {
    var jsonLength := U32At(file, 12) as nat;
    var rest := file[20 + jsonLength..];
    var word := Overlay(file[12..16], rest[..Min(4, |rest|)]);
    assert word == file[20 + jsonLength..24 + jsonLength];
    assert U32At(word, 0) == U32At(file, 20 + jsonLength);
    var binLength := U32At(file, 20 + jsonLength) as nat;
    assert rest[8..8 + binLength] == file[28 + jsonLength..28 + jsonLength + binLength];
    assert rest[8..8 + binLength] + Zeros(0) == rest[8..8 + binLength];
  }

  /** The second chunk's type word, bytes 4 to 8 of `rest`, is never looked at. */
  lemma ChunkAfterIgnoresType(rest: seq<byte>, other: seq<byte>, prior: seq<byte>)
    requires |prior| == 4 && |rest| == |other|
    requires forall k :: 0 <= k < |rest| && !(4 <= k < 8) ==> rest[k] == other[k]
    ensures ChunkAfter(rest, prior) == ChunkAfter(other, prior)
  {
    assert rest[..Min(4, |rest|)] == other[..Min(4, |rest|)];
    if |rest| >= 8 {
      assert rest[8..] == other[8..];
    }
  }

  /** Any version, total length and chunk types are accepted: changing those
      words (bytes 4 to 12, 16 to 20, and the second chunk's type word after
      the JSON chunk) changes nothing. */
  lemma SplitIgnoresUncheckedWords(file: seq<byte>, other: seq<byte>)
    requires |file| == |other|
    requires forall k ::
               && 0 <= k < |file|
               && !(4 <= k < 12 || 16 <= k < 20
                    || (|file| >= 16 && 24 + U32At(file, 12) as nat <= k < 28 + U32At(file, 12) as nat))
               ==> file[k] == other[k]
    ensures SplitGlb(file) == SplitGlb(other)
  {
    if |file| >= 4 {
      assert file[0] == other[0] && file[1] == other[1] && file[2] == other[2] && file[3] == other[3];
    }
    if |file| >= 20 {
      assert file[12] == other[12] && file[13] == other[13] && file[14] == other[14] && file[15] == other[15];
      assert file[12..16] == other[12..16];
      var jsonLength := U32At(file, 12) as nat;
      assert U32At(other, 12) as nat == jsonLength;
      if 20 + jsonLength <= |file| {
        assert file[20..20 + jsonLength] == other[20..20 + jsonLength];
        ChunkAfterIgnoresType(file[20 + jsonLength..], other[20 + jsonLength..], file[12..16]);
      }
    }
  }

  // ---------------------------------------------------------------------
  // The JSON text handed to the parser

  /** As written: `parse(buffer.data())` reads a NUL-terminated string, so
      the text ends at the first zero byte, and a chunk without one is read
      past its end. */
  function ParserInputAsWritten(chunk: seq<byte>): (r: Result<seq<byte>>)
    ensures r.Ok? ==> |r.value| < |chunk| && chunk[|r.value|] == 0
    ensures r.Ok? ==> r.value == chunk[..|r.value|] && forall k :: 0 <= k < |r.value| ==> chunk[k] != 0
    ensures r.Err? <==> forall k :: 0 <= k < |chunk| ==> chunk[k] != 0
    ensures r.Err? ==> r.error == UndefinedBehaviour
    decreases |chunk|
  {
    if chunk == [] then Err(UndefinedBehaviour)
    else if chunk[0] == 0 then Ok([])
    else
      var rest :- ParserInputAsWritten(chunk[1..]);
      Ok([chunk[0]] + rest)
  }

  /** A JSON chunk padded with spaces, as the container format asks, has no
      zero byte: the parser reads past the end of `buffer`. */
  lemma PaddedChunkOverruns()
    ensures ParserInputAsWritten([0x7B, 0x7D, Space, Space]) == Err(UndefinedBehaviour)
    ensures ParserInput([0x7B, 0x7D, Space, Space]) == [0x7B, 0x7D, Space, Space]
  {
    var chunk: seq<byte> := [0x7B, 0x7D, Space, Space];
    assert forall k :: 0 <= k < |chunk| ==> chunk[k] != 0;
  }

  /** Intended: the parser sees exactly the chunk's bytes. */
  function ParserInput(chunk: seq<byte>): (r: seq<byte>)
    ensures |r| == |chunk| && r == chunk[..]
  {
    chunk
  }

  /** The JSON text the parser receives is exactly the `chunkLength` bytes after the 20-byte prefix. */
  lemma ParserSeesWholeChunk(file: seq<byte>)
    requires SplitGlb(file).Ok?
    ensures |file| >= 20 && ParserInput(SplitGlb(file).value.json) == file[20..20 + U32At(file, 12) as nat]
  {
  }

  // ---------------------------------------------------------------------
  // The node table, declaratively

  /** `header["nodes"].size()`. */
  function NodeCount(header: Json): Result<nat>
  {
    var nodes :- Member(header, "nodes");
    Ok(Size(nodes))
  }

  /** `header["nodes"][i]`. */
  function NodeJson(header: Json, i: nat): Result<Json>
  {
    var nodes :- Member(header, "nodes");
    Element(nodes, i)
  }

  /** `v[k]` converted to `float`. */
  function Component(v: Json, k: nat): Result<F32>
  {
    var c :- Element(v, k);
    ToF32(c)
  }

  /** A node as the first pass builds it, and whether it had `children`
      (without them the C++ leaves `firstChild` unassigned). */
  datatype Decoded = Decoded(node: FCNSNode, firstChildAssigned: bool)

  /** The first pass on one node.  Its contract is split: the defaults are
      `DecodeNodeDefaults`. */
  function DecodeNode(n: Json): (r: Result<Decoded>)
    ensures r.Ok? ==> r.value.node.nextSibling == -1 && r.value.firstChildAssigned == Contains(n, "children")
  {
    var translation :-
      if Contains(n, "translation") then
        var t := n.fields["translation"];
        var x :- Component(t, 0);
        var y :- Component(t, 1);
        var z :- Component(t, 2);
        Ok(Vec4(x, y, z, F32One))
      else Ok(Vec4(F32Zero, F32Zero, F32Zero, F32Zero));
    var rotation :-
      if Contains(n, "rotation") then
        var t := n.fields["rotation"];
        var x :- Component(t, 0);
        var y :- Component(t, 1);
        var z :- Component(t, 2);
        var w :- Component(t, 3);
        Ok(Vec4(x, y, z, w))
      else Ok(Vec4(F32Zero, F32Zero, F32Zero, F32One));
    var scale :-
      if Contains(n, "scale") then
        var t := n.fields["scale"];
        var x :- Component(t, 0);
        var y :- Component(t, 1);
        var z :- Component(t, 2);
        Ok(Vec4(x, y, z, F32One))
      else Ok(Vec4(F32One, F32One, F32One, F32One));
    var mesh :- if Contains(n, "mesh") then ToInt32(n.fields["mesh"]) else Ok(-1);
    var skin :- if Contains(n, "skin") then ToInt32(n.fields["skin"]) else Ok(-1);
    var firstChild :-
      if Contains(n, "children") then
        var c :- Element(n.fields["children"], 0);
        ToInt32(c)
      else Ok(-1);
    Ok(Decoded(FCNSNode(translation, scale, rotation, mesh, skin, firstChild, -1), Contains(n, "children")))
  }

  /** Missing fields take the importer's defaults, which differ from the
      standard's (a missing translation has w = 0, a given one w = 1); a
      node that is not an object decodes to all defaults. */
  lemma DecodeNodeDefaults(n: Json)
    ensures var r := DecodeNode(n);
      && (!n.Obj? ==> r == Ok(Decoded(FCNSNode(Vec4(F32Zero, F32Zero, F32Zero, F32Zero), Vec4(F32One, F32One, F32One, F32One),
                                               Vec4(F32Zero, F32Zero, F32Zero, F32One), -1, -1, -1, -1), false)))
      && (r.Ok? && !Contains(n, "translation") ==> r.value.node.translation == Vec4(F32Zero, F32Zero, F32Zero, F32Zero))
      && (r.Ok? && Contains(n, "translation") ==> r.value.node.translation.w == F32One)
      && (r.Ok? && !Contains(n, "rotation") ==> r.value.node.rotation == Vec4(F32Zero, F32Zero, F32Zero, F32One))
      && (r.Ok? && !Contains(n, "scale") ==> r.value.node.scale == Vec4(F32One, F32One, F32One, F32One))
      && (r.Ok? && Contains(n, "scale") ==> r.value.node.scale.w == F32One)
      && (r.Ok? && !Contains(n, "mesh") ==> r.value.node.mesh == -1)
      && (r.Ok? && !Contains(n, "skin") ==> r.value.node.skin == -1)
      && (r.Ok? && r.value.firstChildAssigned ==> ToInt32(n.fields["children"].items[0]) == Ok(r.value.node.firstChild))
  {
  }

  /** The first pass over nodes `0..i`. */
  function DecodeNodes(header: Json, i: nat): (r: Result<seq<Decoded>>)
    ensures r.Ok? ==> |r.value| == i
  {
    if i == 0 then Ok([])
    else
      var before :- DecodeNodes(header, i - 1);
      var n :- NodeJson(header, i - 1);
      var d :- DecodeNode(n);
      Ok(before + [d])
  }

  /** Once a node fails to decode, the first pass over any longer prefix fails too. */
  lemma {:induction false} DecodeNodesStops(header: Json, i: nat, last: nat)
    requires i <= last && DecodeNodes(header, i).Err?
    ensures DecodeNodes(header, last).Err?
  {
    if i < last {
      DecodeNodesStops(header, i, last - 1);
    }
  }

  /** Record `k` of a successful first pass is node `k` of the header, decoded. */
  lemma {:induction false} DecodeNodesAt(header: Json, i: nat, k: nat)
    requires DecodeNodes(header, i).Ok? && k < i
    ensures NodeJson(header, k).Ok? && DecodeNode(NodeJson(header, k).value) == Ok(DecodeNodes(header, i).value[k])
  {
    if k < i - 1 {
      DecodeNodesAt(header, i - 1, k);
    }
  }

  /** The records of the first pass, with `firstChild` where it was not
      assigned taken from `actual`. */
  function Completed(ds: seq<Decoded>, actual: seq<FCNSNode>): (r: seq<FCNSNode>)
    requires |actual| == |ds|
    ensures |r| == |ds|
    ensures forall k :: 0 <= k < |ds| ==> r[k] == Complete(ds[k], actual[k])
  {
    seq(|ds|, k requires 0 <= k < |ds| => Complete(ds[k], actual[k]))
  }

  /** One record of the first pass, with `firstChild` taken from `actual` if it was not assigned. */
  function Complete(d: Decoded, actual: FCNSNode): (r: FCNSNode)
    ensures r == d.node.(firstChild := r.firstChild)
    ensures r.firstChild == if d.firstChildAssigned then d.node.firstChild else actual.firstChild
  {
    if d.firstChildAssigned then d.node else d.node.(firstChild := actual.firstChild)
  }

  /** The records of the first pass with the placeholder -1 where `firstChild` was not assigned. */
  function Records(ds: seq<Decoded>): (r: seq<FCNSNode>)
    ensures |r| == |ds| && forall k :: 0 <= k < |ds| ==> r[k] == ds[k].node
  {
    seq(|ds|, k requires 0 <= k < |ds| => ds[k].node)
  }

  /** A `size_t` stored into an `int`: the low 32 bits, as two's complement. */
  function Int32Of(s: nat): (r: int)
    ensures -0x8000_0000 <= r < 0x8000_0000
    ensures s < 0x8000_0000 ==> r == s
  {
    var w := s % 0x1_0000_0000;
    if w < 0x8000_0000 then w else w - 0x1_0000_0000
  }

  /** `n["children"][t]` converted to `size_t`. */
  function ChildIndex(children: Json, t: nat): Result<nat>
  {
    var c :- Element(children, t);
    ToSize(c)
  }

  /** How many sibling links the second pass writes for node `n`: none
      without `children` or with fewer than two of them. */
  function LinkCount(n: Json): nat
  {
    if !Contains(n, "children") || Size(n.fields["children"]) <= 1 then 0
    else Size(n.fields["children"]) - 1
  }

  /** The first `j` sibling writes of one parent: `nodes[children[t]].nextSibling = children[t + 1]`,
      with no bounds check on `children[t]`. */
  function LinkChildren(ns: seq<FCNSNode>, children: Json, j: nat): (r: Result<seq<FCNSNode>>)
    ensures r.Ok? ==> |r.value| == |ns|
  {
    if j == 0 then Ok(ns)
    else
      var before :- LinkChildren(ns, children, j - 1);
      var child :- ChildIndex(children, j - 1);
      var sibling :- ChildIndex(children, j);
      if child >= |before| then Err(UndefinedBehaviour)
      else Ok(before[child := before[child].(nextSibling := Int32Of(sibling))])
  }

  /** The second pass over parents `0..i`. */
  function LinkParents(header: Json, ns: seq<FCNSNode>, i: nat): (r: Result<seq<FCNSNode>>)
    ensures r.Ok? ==> |r.value| == |ns|
  {
    if i == 0 then Ok(ns)
    else
      var before :- LinkParents(header, ns, i - 1);
      var n :- NodeJson(header, i - 1);
      if LinkCount(n) == 0 then Ok(before)
      else LinkChildren(before, n.fields["children"], LinkCount(n))
  }

  /** `loadNodes` succeeds on this header, appending to `before`. */
  predicate NodesLoadable(header: Json, before: seq<FCNSNode>)
  {
    && NodeCount(header).Ok?
    && DecodeNodes(header, NodeCount(header).value).Ok?
    && LinkParents(header, before + Records(DecodeNodes(header, NodeCount(header).value).value), NodeCount(header).value).Ok?
  }

  /** `after` is what a successful `loadNodes` leaves: one record per header
      node appended in order, then the sibling links written; the only
      freedom is `firstChild` of nodes without `children`. */
  predicate NodesLoaded(header: Json, before: seq<FCNSNode>, after: seq<FCNSNode>)
  {
    && NodeCount(header).Ok?
    && var size := NodeCount(header).value;
    && DecodeNodes(header, size).Ok?
    && |after| == |before| + size
    && LinkParents(header, before + Completed(DecodeNodes(header, size).value, after[|before|..]), size) == Ok(after)
  }

  // ---------------------------------------------------------------------
  // Facts about the second pass

  /** Node `k` differs from `n` only in `nextSibling`. */
  predicate SameButSibling(a: FCNSNode, b: FCNSNode)
  {
    a == b.(nextSibling := a.nextSibling)
  }

  /** Parent `q`'s write number `t` targets node `k`. */
  predicate WritesTo(header: Json, q: nat, t: nat, k: nat)
  {
    && NodeJson(header, q).Ok?
    && var n := NodeJson(header, q).value;
    && t < LinkCount(n)
    && ChildIndex(n.fields["children"], t) == Ok(k)
  }

  lemma {:induction false} LinkChildrenFrame(ns: seq<FCNSNode>, children: Json, j: nat)
    requires LinkChildren(ns, children, j).Ok?
    ensures var r := LinkChildren(ns, children, j).value;
      && (forall k :: 0 <= k < |ns| ==> SameButSibling(r[k], ns[k]))
      && (forall k :: 0 <= k < |ns| && (forall t :: 0 <= t < j ==> ChildIndex(children, t) != Ok(k)) ==> r[k] == ns[k])
  {
    if j > 0 {
      LinkChildrenFrame(ns, children, j - 1);
    }
  }

  lemma {:induction false} LinkChildrenHit(ns: seq<FCNSNode>, children: Json, j: nat, t: nat, k: nat)
    requires LinkChildren(ns, children, j).Ok?
    requires t < j && ChildIndex(children, t) == Ok(k)
    requires forall u :: t < u < j ==> ChildIndex(children, u) != Ok(k)
    ensures k < |ns| && ChildIndex(children, t + 1).Ok?
    ensures LinkChildren(ns, children, j).value[k].nextSibling == Int32Of(ChildIndex(children, t + 1).value)
  {
    if t < j - 1 {
      LinkChildrenHit(ns, children, j - 1, t, k);
    }
  }

  /** The second pass changes nothing but `nextSibling`, and leaves every
      node no link targets exactly as it was. */
  lemma {:induction false} LinkParentsFrame(header: Json, ns: seq<FCNSNode>, i: nat)
    requires LinkParents(header, ns, i).Ok?
    ensures var r := LinkParents(header, ns, i).value;
      && (forall k :: 0 <= k < |ns| ==> SameButSibling(r[k], ns[k]))
      && (forall k :: 0 <= k < |ns| && (forall q, t :: 0 <= q < i && 0 <= t ==> !WritesTo(header, q, t, k)) ==> r[k] == ns[k])
  {
    if i > 0 {
      LinkParentsFrame(header, ns, i - 1);
      var n := NodeJson(header, i - 1).value;
      if LinkCount(n) > 0 {
        var before := LinkParents(header, ns, i - 1).value;
        LinkChildrenFrame(before, n.fields["children"], LinkCount(n));
        forall k | 0 <= k < |ns| && (forall q, t :: 0 <= q < i && 0 <= t ==> !WritesTo(header, q, t, k))
          ensures forall t :: 0 <= t < LinkCount(n) ==> ChildIndex(n.fields["children"], t) != Ok(k)
        {
          forall t | 0 <= t < LinkCount(n) ensures ChildIndex(n.fields["children"], t) != Ok(k) {
            assert !WritesTo(header, i - 1, t, k);
          }
        }
      }
    }
  }

  /** For a parent with children c0..ck, the second pass sets
      `nextSibling[c_j] = c_{j+1}` for j < k, provided no other link
      targets c_j (each node is a child of at most one parent, once). */
  lemma {:induction false} LinkParentsHit(header: Json, ns: seq<FCNSNode>, i: nat, p: nat, t: nat, k: nat)
    requires LinkParents(header, ns, i).Ok?
    requires p < i && WritesTo(header, p, t, k)
    requires forall q, u :: 0 <= q < i && 0 <= u && (q, u) != (p, t) ==> !WritesTo(header, q, u, k)
    ensures k < |ns|
    ensures var children := NodeJson(header, p).value.fields["children"];
      && ChildIndex(children, t + 1).Ok?
      && LinkParents(header, ns, i).value[k].nextSibling == Int32Of(ChildIndex(children, t + 1).value)
  {
    var n := NodeJson(header, i - 1).value;
    var before := LinkParents(header, ns, i - 1).value;
    if p == i - 1 {
      forall u | t < u < LinkCount(n) ensures ChildIndex(n.fields["children"], u) != Ok(k) {
        assert !WritesTo(header, p, u, k);
      }
      LinkChildrenHit(before, n.fields["children"], LinkCount(n), t, k);
    } else {
      LinkParentsHit(header, ns, i - 1, p, t, k);
      if LinkCount(n) > 0 {
        LinkChildrenFrame(before, n.fields["children"], LinkCount(n));
        forall u | 0 <= u < LinkCount(n) ensures ChildIndex(n.fields["children"], u) != Ok(k) {
          assert !WritesTo(header, i - 1, u, k);
        }
      }
    }
  }

  /** Whether the linking succeeds does not depend on the records' contents, only on how many there are. */
  lemma {:induction false} LinkChildrenOkLength(a: seq<FCNSNode>, b: seq<FCNSNode>, children: Json, j: nat)
    requires |a| == |b|
    ensures LinkChildren(a, children, j).Ok? == LinkChildren(b, children, j).Ok?
  {
    if j > 0 {
      LinkChildrenOkLength(a, b, children, j - 1);
    }
  }

  lemma {:induction false} LinkParentsOkLength(header: Json, a: seq<FCNSNode>, b: seq<FCNSNode>, i: nat)
    requires |a| == |b|
    ensures LinkParents(header, a, i).Ok? == LinkParents(header, b, i).Ok?
  {
    if i > 0 {
      LinkParentsOkLength(header, a, b, i - 1);
      if LinkParents(header, a, i - 1).Ok? && LinkParents(header, b, i - 1).Ok? && NodeJson(header, i - 1).Ok? {
        var n := NodeJson(header, i - 1).value;
        if LinkCount(n) > 0 {
          LinkChildrenOkLength(LinkParents(header, a, i - 1).value, LinkParents(header, b, i - 1).value, n.fields["children"], LinkCount(n));
        }
      }
    }
  }

  /** The body of the first loop of `loadNodes` for node `n`: its record,
      with `firstChild` left unassigned when `n` has no `children`. */
  method BuildNode(n: Json) returns (r: Result<FCNSNode>, ghost d: Decoded)
    ensures r.Ok? <==> DecodeNode(n).Ok?
    ensures r.Err? ==> r.error == DecodeNode(n).error
    ensures r.Ok? ==> DecodeNode(n) == Ok(d) && r.value == Complete(d, r.value)
  {
    var decoded := DecodeNode(n);
    if decoded.Err? {
      return Err(decoded.error), Decoded(FCNSNode(Vec4(0, 0, 0, 0), Vec4(0, 0, 0, 0), Vec4(0, 0, 0, 0), -1, -1, -1, -1), false);
    }
    d := decoded.value;
    var node := decoded.value.node;
    if !decoded.value.firstChildAssigned {
      var unassigned: int := *;
      node := node.(firstChild := unassigned);
    }
    r := Ok(node);
  }

  // ---------------------------------------------------------------------
  // The importer

  /** Once a link fails, every longer run of links fails too. */
  lemma {:induction false} LinkChildrenStops(ns: seq<FCNSNode>, children: Json, j: nat, last: nat)
    requires j <= last && LinkChildren(ns, children, j).Err?
    ensures LinkChildren(ns, children, last).Err?
  {
    if j < last {
      LinkChildrenStops(ns, children, j, last - 1);
    }
  }

  lemma {:induction false} LinkParentsStops(header: Json, ns: seq<FCNSNode>, i: nat, last: nat)
    requires i <= last && LinkParents(header, ns, i).Err?
    ensures LinkParents(header, ns, last).Err?
  {
    if i < last {
      LinkParentsStops(header, ns, i, last - 1);
    }
  }

  // ---------------------------------------------------------------------
  // The importer

  class VRMImporter {
    var header: Json
    var buffer: seq<byte>
    var nodes: seq<FCNSNode>

    constructor()
      ensures header == Null && buffer == [] && nodes == []
    {
      header := Null;
      buffer := [];
      nodes := [];
    }

    /** `loadModel`: split the container, parse the JSON chunk, keep the
        second chunk as `buffer`, then `loadNodes`. */
    method LoadModel(file: seq<byte>, parse: seq<byte> -> Option<Json>) returns (r: Outcome)
      modifies this
      ensures SplitGlb(file).Err? ==> r == Fail(SplitGlb(file).error)
      ensures r.Pass? <==>
        && SplitGlb(file).Ok?
        && parse(ParserInput(SplitGlb(file).value.json)).Some?
        && NodesLoadable(parse(ParserInput(SplitGlb(file).value.json)).value, old(nodes))
      ensures r.Pass? ==>
        && header == parse(ParserInput(SplitGlb(file).value.json)).value
        && buffer == SplitGlb(file).value.bin
        && NodesLoaded(header, old(nodes), nodes)
    {
      r := ReadContainer(file, parse);
      if r.Pass? {
        r := LoadNodes();
      }
    }

    /** The reads of `loadModel`, up to the call of `loadNodes`. */
    method ReadContainer(file: seq<byte>, parse: seq<byte> -> Option<Json>) returns (r: Outcome)
      modifies this
      ensures nodes == old(nodes)
      ensures SplitGlb(file).Err? ==> r == Fail(SplitGlb(file).error)
      ensures r.Pass? <==> SplitGlb(file).Ok? && parse(ParserInput(SplitGlb(file).value.json)).Some?
      ensures r.Pass? ==>
        && header == parse(ParserInput(SplitGlb(file).value.json)).value
        && buffer == SplitGlb(file).value.bin
    {
      var f := new InputFile(file);
      var chunkLength;
      r, chunkLength := ReadJsonChunk(f);
      if r.Fail? {
        return;
      }
      var parsed := parse(ParserInput(buffer));
      if parsed.None? {
        return Fail(ParseError);
      }
      header := parsed.value;
      ReadBinChunk(f, chunkLength);
    }

    /** The reads of the 12-byte header and the JSON chunk into `buffer`,
        with the assertions on them. */
    method ReadJsonChunk(f: InputFile) returns (r: Outcome, chunkLength: seq<byte>)
      requires f.Valid() && f.pos == 0 && !f.failed
      modifies this, f
      ensures header == old(header) && nodes == old(nodes)
      ensures f.Valid()
      ensures JsonChunk(f.data).Err? ==> r == Fail(JsonChunk(f.data).error)
      ensures r.Pass? <==> JsonChunk(f.data).Ok?
      ensures r.Pass? ==>
        && buffer == JsonChunk(f.data).value
        && chunkLength == f.data[12..16]
        && !f.failed && f.pos == 20 + |buffer|
    {
      r, chunkLength := ReadPrefix(f);
      if r.Fail? {
        return;
      }
      var size := U32At(chunkLength, 0) as nat;
      buffer := Resized(buffer, size);
      var got := f.Read(size);
      buffer := got + buffer[|got|..];
      if |got| < size || f.failed {
        assert |f.data| < 20 || 20 + size > |f.data|;
        return Fail(TruncatedInput), chunkLength;
      }
      assert got == f.data[20..20 + size];
      r := Pass;
    }

    /** The five word reads before the JSON chunk's payload. */
    method ReadPrefix(f: InputFile) returns (r: Outcome, chunkLength: seq<byte>)
      requires f.Valid() && f.pos == 0 && !f.failed
      modifies f
      ensures f.Valid()
      ensures r.Pass? <==> |f.data| >= 16 && U32At(f.data, 0) == GltfMagic
      ensures r.Fail? ==> r.error == if |f.data| >= 4 && U32At(f.data, 0) != GltfMagic then BadMagic else UndefinedBehaviour
      ensures r.Pass? ==> chunkLength == f.data[12..16] && (f.failed <==> |f.data| < 20) && (!f.failed ==> f.pos == 20)
    {
      var magic := f.Read(4);
      if |magic| < 4 {
        return Fail(UndefinedBehaviour), [];
      }
      assert magic == f.data[..4];
      assert U32At(magic, 0) == U32At(f.data, 0);
      if U32At(magic, 0) != GltfMagic {
        return Fail(BadMagic), [];
      }
      var version := f.Read(4);
      var length := f.Read(4);
      chunkLength := f.Read(4);
      if |chunkLength| < 4 {
        return Fail(UndefinedBehaviour), chunkLength;
      }
      var chunkType := f.Read(4);
      r := Pass;
    }

    /** The reads of the second chunk into `buffer`: nothing is checked. */
    method ReadBinChunk(f: InputFile, chunkLength: seq<byte>)
      requires f.Valid() && !f.failed && |chunkLength| == 4
      requires |f.data| >= 20 && chunkLength == f.data[12..16]
      requires f.pos == 20 + U32At(f.data, 12) as nat
      modifies this, f
      ensures header == old(header) && nodes == old(nodes)
      ensures buffer == BinChunk(f.data)
    {
      ghost var pos := f.pos;
      var lengthRead := f.Read(4);
      var binLength := Overlay(chunkLength, lengthRead);
      var size := U32At(binLength, 0) as nat;
      var chunkType := f.Read(4);
      buffer := [];
      buffer := Resized(buffer, size);
      var got := f.Read(size);
      SecondChunkReads(f.data, pos, chunkLength, lengthRead, chunkType, got);
      buffer := got + buffer[|got|..];
    }

    /** `loadNodes`: one record per header node, in header order, then the sibling links. */
    method LoadNodes() returns (r: Outcome)
      modifies this
      ensures header == old(header) && buffer == old(buffer)
      ensures r.Pass? <==> NodesLoadable(header, old(nodes))
      ensures r.Pass? ==> NodesLoaded(header, old(nodes), nodes)
    {
      var count := NodeCount(header);
      if count.Err? {
        return Fail(count.error);
      }
      var size := count.value;
      ghost var before := nodes;
      ghost var decoded;
      r, decoded := DecodePass(size);
      if r.Fail? {
        return;
      }
      ghost var firstPass := nodes;
      LinkParentsOkLength(header, firstPass, before + Records(decoded), size);
      r := LinkPass(size);
      if r.Pass? {
        LinkParentsFrame(header, firstPass, size);
        assert Completed(decoded, nodes[|before|..]) == Completed(decoded, firstPass[|before|..]) by {
          forall k | 0 <= k < size ensures nodes[|before|..][k].firstChild == firstPass[|before|..][k].firstChild {
            assert SameButSibling(nodes[|before| + k], firstPass[|before| + k]);
          }
        }
      }
    }

    /** The first loop of `loadNodes`. */
    method DecodePass(size: nat) returns (r: Outcome, ghost decoded: seq<Decoded>)
      requires NodeCount(header) == Ok(size)
      modifies this
      ensures header == old(header) && buffer == old(buffer)
      ensures r.Pass? <==> DecodeNodes(header, size).Ok?
      ensures r.Pass? ==>
        && DecodeNodes(header, size) == Ok(decoded)
        && |nodes| == |old(nodes)| + size
        && nodes == old(nodes) + Completed(decoded, nodes[|old(nodes)|..])
    {
      ghost var before := nodes;
      decoded := [];
      var i := 0;
      while i < size
        invariant 0 <= i <= size
        invariant header == old(header) && buffer == old(buffer)
        invariant DecodeNodes(header, i) == Ok(decoded)
        invariant |nodes| == |before| + i && nodes[..|before|] == before
        invariant forall k :: 0 <= k < i ==> nodes[|before|..][k] == Complete(decoded[k], nodes[|before|..][k])
      {
        var n := NodeJson(header, i);
        if n.Err? {
          DecodeNodesStops(header, i + 1, size);
          return Fail(n.error), decoded;
        }
        var node: Result<FCNSNode>;
        ghost var d: Decoded;
        node, d := BuildNode(n.value);
        if node.Err? {
          DecodeNodesStops(header, i + 1, size);
          return Fail(node.error), decoded;
        }
        decoded := decoded + [d];
        nodes := nodes + [node.value];
        i := i + 1;
      }
      assert nodes == before + nodes[|before|..];
      assert nodes[|before|..] == Completed(decoded, nodes[|before|..]);
      r := Pass;
    }

    /** The second loop of `loadNodes`. */
    method LinkPass(size: nat) returns (r: Outcome)
      modifies this
      ensures header == old(header) && buffer == old(buffer)
      ensures r.Pass? <==> LinkParents(header, old(nodes), size).Ok?
      ensures r.Pass? ==> LinkParents(header, old(nodes), size) == Ok(nodes)
    {
      ghost var start := nodes;
      var i := 0;
      while i < size
        invariant 0 <= i <= size
        invariant header == old(header) && buffer == old(buffer)
        invariant LinkParents(header, start, i) == Ok(nodes)
      {
        r := LinkParent(i, start);
        if r.Fail? {
          LinkParentsStops(header, start, i + 1, size);
          return;
        }
        i := i + 1;
      }
      r := Pass;
    }

    /** One round of the second loop: the sibling links of node `i`'s children. */
    method LinkParent(i: nat, ghost start: seq<FCNSNode>) returns (r: Outcome)
      requires LinkParents(header, start, i) == Ok(nodes)
      modifies this
      ensures header == old(header) && buffer == old(buffer)
      ensures r.Pass? <==> LinkParents(header, start, i + 1).Ok?
      ensures r.Pass? ==> LinkParents(header, start, i + 1) == Ok(nodes)
    {
      var nj := NodeJson(header, i);
      if nj.Err? {
        return Fail(nj.error);
      }
      var n := nj.value;
      if !Contains(n, "children") {
        return Pass;
      }
      var childrenCount := Size(n.fields["children"]);
      if childrenCount <= 1 {
        return Pass;
      }
      r := LinkChildrenOf(n.fields["children"], childrenCount);
    }

    /** The inner loop of the second pass, for one parent's `children`. */
    method LinkChildrenOf(children: Json, childrenCount: nat) returns (r: Outcome)
      requires childrenCount == Size(children) && childrenCount > 1
      modifies this
      ensures header == old(header) && buffer == old(buffer)
      ensures r.Pass? <==> LinkChildren(old(nodes), children, childrenCount - 1).Ok?
      ensures r.Pass? ==> LinkChildren(old(nodes), children, childrenCount - 1) == Ok(nodes)
    {
      ghost var start := nodes;
      var j := 0;
      while j < childrenCount - 1
        invariant 0 <= j <= childrenCount - 1
        invariant header == old(header) && buffer == old(buffer)
        invariant LinkChildren(start, children, j) == Ok(nodes)
      {
        var child := ChildIndex(children, j);
        var sibling := ChildIndex(children, j + 1);
        if child.Err? || sibling.Err? || child.value >= |nodes| {
          LinkChildrenStops(start, children, j + 1, childrenCount - 1);
          return Fail(if child.Err? then child.error else if sibling.Err? then sibling.error else UndefinedBehaviour);
        }
        nodes := nodes[child.value := nodes[child.value].(nextSibling := Int32Of(sibling.value))];
        j := j + 1;
      }
      r := Pass;
    }
  }
}
