/** Bytes and little-endian 32-bit words.

    Every multi-byte integer the program reads from the asset file or
    copies into GPU memory is laid out little-endian (the byte order of the
    machines the renderer targets, and the byte order section 4 of the glTF
    2.0 specification prescribes for the binary container).  Words are kept
    as numbers; a `float` is kept as the number its bit pattern spells. */
module Bytes {

  newtype byte = x: int | 0 <= x < 0x100

  /** An unsigned 32-bit value (`uint32_t`, or the bit pattern of a `float`). */
  type U32 = x: nat | x < 0x1_0000_0000

  /** The value whose little-endian bytes are `b0 b1 b2 b3`. */
  function U32Of(b0: byte, b1: byte, b2: byte, b3: byte): U32
  {
    b0 as nat + 0x100 * (b1 as nat + 0x100 * (b2 as nat + 0x100 * (b3 as nat)))
  }

  /** The value stored little-endian at `s[i..i+4]`. */
  function U32At(s: seq<byte>, i: nat): U32
    requires i + 4 <= |s|
  {
    U32Of(s[i], s[i + 1], s[i + 2], s[i + 3])
  }

  /** Splitting off the low byte of `b + 256 * q` gives back `b` and `q`. */
  lemma LowByte(b: byte, q: nat)
    ensures (b as nat + 0x100 * q) % 0x100 == b as nat
    ensures (b as nat + 0x100 * q) / 0x100 == q
  {
  }

  /** The four bytes that store `w` little-endian; reading them back gives `w`. */
  function U32Bytes(w: U32): (r: seq<byte>)
    ensures |r| == 4
    ensures U32At(r, 0) == w
  {
    var q0 := w / 0x100;
    var q1 := q0 / 0x100;
    var q2 := q1 / 0x100;
    assert w == w % 0x100 + 0x100 * q0;
    assert q0 == q0 % 0x100 + 0x100 * q1;
    assert q1 == q1 % 0x100 + 0x100 * q2;
    [(w % 0x100) as byte, (q0 % 0x100) as byte, (q1 % 0x100) as byte, q2 as byte]
  }

  /** Decoding then re-encoding four bytes gives the same bytes. */
  lemma U32BytesOfU32At(s: seq<byte>, i: nat)
    requires i + 4 <= |s|
    ensures U32Bytes(U32At(s, i)) == s[i..i + 4]
  {
    var q1 := s[i + 2] as nat + 0x100 * (s[i + 3] as nat);
    var q0 := s[i + 1] as nat + 0x100 * q1;
    LowByte(s[i], q0);
    LowByte(s[i + 1], q1);
    LowByte(s[i + 2], s[i + 3] as nat);
  }

  /** `n` zero bytes: what `std::vector<char>::resize(n)` fills a cleared vector with. */
  function Zeros(n: nat): (r: seq<byte>)
    ensures |r| == n
    ensures forall k :: 0 <= k < n ==> r[k] == 0
  {
    seq(n, _ => 0)
  }

  /** The low 32 bits of an integer, as a C++ conversion to a 32-bit type keeps them. */
  function Wrap32(x: int): U32
  {
    x % 0x1_0000_0000
  }

  /** `k` blocks of `a` bytes, end to end: `a * k`, kept in a form the
      verifier unfolds linearly. */
  function Times(a: nat, k: nat): nat
  {
    if k == 0 then 0 else Times(a, k - 1) + a
  }

  lemma {:induction false} TimesIsProduct(a: nat, k: nat)
    ensures Times(a, k) == a * k
  {
    if k > 0 {
      TimesIsProduct(a, k - 1);
      assert a * (k - 1) + a == a * k;
    }
  }

  lemma {:induction false} TimesMonotone(a: nat, k: nat, l: nat)
    requires k <= l
    ensures Times(a, k) <= Times(a, l)
  {
    if k < l {
      TimesMonotone(a, k, l - 1);
    }
  }

  /** Byte blocks laid end to end. */
  function Concat(blocks: seq<seq<byte>>): seq<byte>
  {
    if blocks == [] then [] else Concat(blocks[..|blocks| - 1]) + blocks[|blocks| - 1]
  }

  lemma ConcatSnoc(blocks: seq<seq<byte>>, b: seq<byte>)
    ensures Concat(blocks + [b]) == Concat(blocks) + b
  {
    assert (blocks + [b])[..|blocks|] == blocks;
  }

  lemma ConcatSingle(b: seq<byte>)
    ensures Concat([b]) == b
  {
    assert [b][..0] == [];
  }

  /** The first `j + 1` blocks are the first `j` followed by block `j`. */
  lemma ConcatPrefixSnoc(blocks: seq<seq<byte>>, j: nat)
    requires j < |blocks|
    ensures Concat(blocks[..j + 1]) == Concat(blocks[..j]) + blocks[j]
  {
    assert blocks[..j + 1][..j] == blocks[..j];
  }

  /** With blocks of `a` bytes each, block `j` occupies bytes `[a·j, a·j + a)`. */
  lemma {:induction false} ConcatBlock(blocks: seq<seq<byte>>, a: nat, j: nat)
    requires forall k :: 0 <= k < |blocks| ==> |blocks[k]| == a
    requires j < |blocks|
    ensures |Concat(blocks)| == Times(a, |blocks|)
    ensures Times(a, j) + a <= |Concat(blocks)|
    ensures Concat(blocks)[Times(a, j) .. Times(a, j) + a] == blocks[j]
  {
    var last := |blocks| - 1;
    var front := blocks[..last];
    var p := Concat(front);
    assert Concat(blocks) == p + blocks[last];
    if j < last {
      ConcatBlock(front, a, j);
      assert front[j] == blocks[j];
      TimesMonotone(a, j + 1, last);
      assert (p + blocks[last])[Times(a, j) .. Times(a, j) + a] == p[Times(a, j) .. Times(a, j) + a];
    } else {
      if last > 0 {
        ConcatBlock(front, a, 0);
      }
      assert |p| == Times(a, last);
      assert (p + blocks[last])[|p| ..] == blocks[last];
    }
  }
}
