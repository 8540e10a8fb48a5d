/** C++ struct layout: where a compiler places the fields of a struct.

    Each field starts at the first multiple of its alignment at or after the
    end of the previous field; the struct's size is the end of the last
    field rounded up to the largest alignment.  `offsetof` and `sizeof` in
    the renderer's tables are these numbers, so the tables are checked
    against this rule rather than trusted. */
module Layout {

  type Positive = n: nat | n >= 1 witness 1

  /** A field's size and alignment in bytes (an `alignas(n)` raises the alignment to `n`). */
  datatype Field = Field(size: Positive, align: Positive)

  /** The least multiple of `a` that is at least `x`. */
  function AlignUp(x: nat, a: Positive): (r: nat)
    ensures r % a == 0 && x <= r < x + a
  {
    if x % a == 0 then x
    else
      MultipleMod(x + (a - x % a), x / a + 1, a);
      x + (a - x % a)
  }

  lemma MulAtLeast(d: int, a: Positive)
    requires d >= 1
    ensures d * a >= a
  {
  }

  /** A multiple of `a` leaves no remainder. */
  lemma MultipleMod(y: nat, k: int, a: Positive)
    requires y == k * a
    ensures y % a == 0
  {
    var d := k - y / a;
    assert d * a == y % a;
    if d >= 1 {
      MulAtLeast(d, a);
    }
  }

  /** `offsetof` field `i`: the first field starts at 0, every later one at
      the end of its predecessor rounded up to its own alignment. */
  function Offset(fs: seq<Field>, i: nat): nat
    requires i < |fs|
  {
    if i == 0 then AlignUp(0, fs[0].align)
    else AlignUp(Offset(fs, i - 1) + fs[i - 1].size, fs[i].align)
  }

  /** The byte just past the last field. */
  function End(fs: seq<Field>): nat
  {
    if |fs| == 0 then 0 else Offset(fs, |fs| - 1) + fs[|fs| - 1].size
  }

  /** The largest alignment among `fs[i..]`, and 1 when there is none. */
  function MaxAlignFrom(fs: seq<Field>, i: nat): (r: Positive)
    requires i <= |fs|
    decreases |fs| - i
  {
    if i == |fs| then 1
    else
      var rest := MaxAlignFrom(fs, i + 1);
      if fs[i].align > rest then fs[i].align else rest
  }

  /** `offsetof` of every field, in declaration order. */
  function Offsets(fs: seq<Field>): (r: seq<nat>)
    ensures |r| == |fs|
    ensures forall i :: 0 <= i < |fs| ==> r[i] == Offset(fs, i)
  {
    seq(|fs|, i requires 0 <= i < |fs| => Offset(fs, i))
  }

  /** The offsets follow the C layout rule: the first field is at 0, and
      every later field at the least multiple of its alignment that is not
      before the end of the previous field. */
  lemma OffsetsFollowRule(fs: seq<Field>)
    ensures |fs| > 0 ==> Offsets(fs)[0] == 0
    ensures forall i :: 0 < i < |fs| ==>
      && Offsets(fs)[i] % fs[i].align == 0
      && Offsets(fs)[i - 1] + fs[i - 1].size <= Offsets(fs)[i] < Offsets(fs)[i - 1] + fs[i - 1].size + fs[i].align
  {
    forall i | 0 < i < |fs|
      ensures Offsets(fs)[i] == AlignUp(Offsets(fs)[i - 1] + fs[i - 1].size, fs[i].align)
    {
    }
  }

  /** `sizeof` the struct. */
  function SizeOf(fs: seq<Field>): nat
  {
    AlignUp(End(fs), MaxAlignFrom(fs, 0))
  }

  /** Offsets only grow along the declaration: a field ends no later than
      any later field starts. */
  lemma {:induction false} OffsetMonotone(fs: seq<Field>, i: nat, j: nat)
    requires i < j < |fs|
    ensures Offset(fs, i) + fs[i].size <= Offset(fs, j)
    decreases j - i
  {
    if j > i + 1 {
      OffsetMonotone(fs, i, j - 1);
    }
  }

  /** Hence the fields of a struct are in declaration order and do not
      overlap: each field ends no later than the next one starts. */
  lemma OffsetsDisjoint(fs: seq<Field>)
    ensures forall i :: 0 <= i < |fs| - 1 ==> Offsets(fs)[i] + fs[i].size <= Offsets(fs)[i + 1]
  {
    forall i | 0 <= i < |fs| - 1
      ensures Offset(fs, i) + fs[i].size <= Offset(fs, i + 1)
    {
      OffsetMonotone(fs, i, i + 1);
    }
  }
}
