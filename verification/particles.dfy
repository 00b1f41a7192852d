/** Block-based particle storage.

    A container fixes the capacity of every block and two ordered lists of
    attribute names (scalar "float" attributes and 3-vector attributes); the
    position of a name in its list is the index of its buffer in every block.
    A block holds one buffer per attribute and counts its active particles,
    which occupy the front of every buffer. */
module Particles {

  /** Handle of a live block; the container owns its blocks through handles. */
  type BlockId = nat

  /** No element occurs twice: the invariant a set-vector keeps. */
  ghost predicate Distinct<T>(s: seq<T>) {
    forall i, j :: 0 <= i < j < |s| ==> s[i] != s[j]
  }

  /** The elements of a sequence, forgetting order and position. */
  function Elements<T>(s: seq<T>): set<T> {
    set x | x in s
  }

  /** Position of the first occurrence of `x` in `s`. */
  function IndexOf<T(==)>(s: seq<T>, x: T): (i: nat)
    requires x in s
    ensures i < |s| && s[i] == x
    ensures forall j :: 0 <= j < i ==> s[j] != x
  {
    if s[0] == x then 0
    else
      assert x in s[1..];
      1 + IndexOf(s[1..], x)
  }

  /** A sequence without repetitions has as many elements as positions. */
  lemma {:induction false} DistinctCardinality<T>(s: seq<T>)
    requires Distinct(s)
    ensures |Elements(s)| == |s|
  {
    if |s| > 0 {
      var tail := s[1..];
      assert Distinct(tail) by {
        forall i, j | 0 <= i < j < |tail| ensures tail[i] != tail[j] {
          assert tail[i] == s[i + 1] && tail[j] == s[j + 1];
        }
      }
      DistinctCardinality(tail);
      assert s[0] !in Elements(tail) by {
        forall k | 0 <= k < |tail| ensures tail[k] != s[0] {
          assert tail[k] == s[k + 1];
        }
      }
      assert Elements(s) == {s[0]} + Elements(tail) by {
        assert s == [s[0]] + tail;
      }
    }
  }

  /** The container: block capacity, the two registered attribute-name lists
      (insertion order is buffer order) and the set of live blocks. */
  datatype Container = Container(
    blockSize: nat,
    floatNames: seq<string>,
    vec3Names: seq<string>,
    blocks: set<BlockId>)
  {
    /** Both name lists are set-vectors: no name is registered twice. */
    ghost predicate Valid() {
      Distinct(floatNames) && Distinct(vec3Names)
    }
  }

  function BlockSize(c: Container): nat {
    c.blockSize
  }

  function FloatAttributeAmount(c: Container): nat {
    |c.floatNames|
  }

  function Vec3AttributeAmount(c: Container): nat {
    |c.vec3Names|
  }

  /** The attribute amounts count the distinct registered names. */
  lemma AttributeAmountsCountNames(c: Container)
    requires c.Valid()
    ensures FloatAttributeAmount(c) == |Elements(c.floatNames)|
    ensures Vec3AttributeAmount(c) == |Elements(c.vec3Names)|
  {
    DistinctCardinality(c.floatNames);
    DistinctCardinality(c.vec3Names);
  }

  /** Buffer index of a registered float attribute: the one position at
      which the name was registered. */
  function FloatBufferIndex(c: Container, name: string): (i: nat)
    requires c.Valid() && name in c.floatNames
    ensures i < FloatAttributeAmount(c)
    ensures c.floatNames[i] == name
    ensures forall j :: 0 <= j < |c.floatNames| && c.floatNames[j] == name ==> j == i
  {
    IndexOf(c.floatNames, name)
  }

  /** Buffer index of a registered vec3 attribute. */
  function Vec3BufferIndex(c: Container, name: string): (i: nat)
    requires c.Valid() && name in c.vec3Names
    ensures i < Vec3AttributeAmount(c)
    ensures c.vec3Names[i] == name
    ensures forall j :: 0 <= j < |c.vec3Names| && c.vec3Names[j] == name ==> j == i
  {
    IndexOf(c.vec3Names, name)
  }

  /** The live blocks, as the container holds them. */
  function ActiveBlocks(c: Container): set<BlockId> {
    c.blocks
  }

  /** A block: a copy of its owning container, its active count and one
      buffer per registered attribute. `F` is the float element type and `V` the
      3-vector element type; no arithmetic is done on either. */
  datatype Block<F, V> = Block(
    container: Container,
    active: nat,
    floatBufs: seq<seq<F>>,
    vec3Bufs: seq<seq<V>>)

  /** What the container promises of the blocks it creates: one buffer per
      registered attribute, each `blockSize` long, and an active count that
      callers keep within the capacity. */
  ghost predicate WellFormed<F, V>(b: Block<F, V>) {
    && b.container.Valid()
    && |b.floatBufs| == FloatAttributeAmount(b.container)
    && |b.vec3Bufs| == Vec3AttributeAmount(b.container)
    && (forall k :: 0 <= k < |b.floatBufs| ==> |b.floatBufs[k]| == b.container.blockSize)
    && (forall k :: 0 <= k < |b.vec3Bufs| ==> |b.vec3Bufs[k]| == b.container.blockSize)
    && b.active <= b.container.blockSize
  }

  /** The block constructor, called with its default active count of 0. */
  function MakeBlock<F, V>(c: Container, floatBufs: seq<seq<F>>, vec3Bufs: seq<seq<V>>): (b: Block<F, V>)
    ensures b.active == 0
    ensures b.container == c && b.floatBufs == floatBufs && b.vec3Bufs == vec3Bufs
  {
    Block(c, 0, floatBufs, vec3Bufs)
  }

  function ActiveAmount<F, V>(b: Block<F, V>): nat {
    b.active
  }

  /** Assignment through the reference `active_amount()` hands out. */
  function SetActiveAmount<F, V>(b: Block<F, V>, n: nat): (b': Block<F, V>)
    ensures ActiveAmount(b') == n
    ensures b'.container == b.container && b'.floatBufs == b.floatBufs && b'.vec3Bufs == b.vec3Bufs
  {
    b.(active := n)
  }

  /** The capacity of a block is its container's block size. */
  function Size<F, V>(b: Block<F, V>): nat {
    BlockSize(b.container)
  }

  function IsFull<F, V>(b: Block<F, V>): bool {
    b.active == Size(b)
  }

  function NextInactiveIndex<F, V>(b: Block<F, V>): nat {
    b.active
  }

  function Clear<F, V>(b: Block<F, V>): (b': Block<F, V>)
    ensures ActiveAmount(b') == 0
    ensures b'.container == b.container && b'.floatBufs == b.floatBufs && b'.vec3Bufs == b.vec3Bufs
  {
    b.(active := 0)
  }

  function FloatBuffers<F, V>(b: Block<F, V>): seq<seq<F>> {
    b.floatBufs
  }

  function Vec3Buffers<F, V>(b: Block<F, V>): seq<seq<V>> {
    b.vec3Bufs
  }

  /** The buffer of a registered float attribute: the one stored at the
      position where the name was registered. */
  function FloatBuffer<F, V>(b: Block<F, V>, name: string): (buf: seq<F>)
    requires b.container.Valid() && name in b.container.floatNames
    requires |b.floatBufs| == FloatAttributeAmount(b.container)
    ensures forall j :: 0 <= j < |b.floatBufs| && b.container.floatNames[j] == name ==> buf == FloatBuffers(b)[j]
  {
    b.floatBufs[FloatBufferIndex(b.container, name)]
  }

  /** The buffer of a registered vec3 attribute. */
  function Vec3Buffer<F, V>(b: Block<F, V>, name: string): (buf: seq<V>)
    requires b.container.Valid() && name in b.container.vec3Names
    requires |b.vec3Bufs| == Vec3AttributeAmount(b.container)
    ensures forall j :: 0 <= j < |b.vec3Bufs| && b.container.vec3Names[j] == name ==> buf == Vec3Buffers(b)[j]
  {
    b.vec3Bufs[Vec3BufferIndex(b.container, name)]
  }

  /** Store `v` at slot `k` of the buffer `float_buffer(name)` points to. */
  function WriteFloat<F, V>(b: Block<F, V>, name: string, k: nat, v: F): (b': Block<F, V>)
    requires WellFormed(b) && name in b.container.floatNames && k < Size(b)
  {
    var i := FloatBufferIndex(b.container, name);
    b.(floatBufs := b.floatBufs[i := b.floatBufs[i][k := v]])
  }

  /** `is_full` holds exactly when no inactive slot is left; on a well-formed
      block the next inactive index is a free slot whenever the block is not
      full. */
  lemma FullIffNoFreeSlot<F, V>(b: Block<F, V>)
    requires WellFormed(b)
    ensures IsFull(b) <==> NextInactiveIndex(b) >= BlockSize(b.container)
    ensures !IsFull(b) ==> NextInactiveIndex(b) < Size(b)
    ensures NextInactiveIndex(b) == ActiveAmount(b)
  {
  }

  /** Writing the count through `active_amount()` changes nothing else, the
      block stays well formed exactly when the new count fits, and the next
      inactive index follows the new count. */
  lemma SetActiveAmountFrame<F, V>(b: Block<F, V>, n: nat)
    requires WellFormed(b)
    ensures WellFormed(SetActiveAmount(b, n)) <==> n <= Size(b)
    ensures NextInactiveIndex(SetActiveAmount(b, n)) == n
    ensures IsFull(SetActiveAmount(b, Size(b)))
    ensures Size(SetActiveAmount(b, n)) == Size(b)
  {
  }

  /** `clear` empties the block and keeps it well formed; clearing twice is
      clearing once; a cleared block of positive capacity is not full. */
  lemma ClearEmpties<F, V>(b: Block<F, V>)
    requires WellFormed(b)
    ensures WellFormed(Clear(b))
    ensures NextInactiveIndex(Clear(b)) == 0
    ensures Clear(Clear(b)) == Clear(b)
    ensures Size(b) > 0 ==> !IsFull(Clear(b))
    ensures FloatBuffers(Clear(b)) == FloatBuffers(b) && Vec3Buffers(Clear(b)) == Vec3Buffers(b)
  {
  }

  /** A newly constructed block with well-formed buffers is empty, and is
      not full unless its capacity is zero. */
  lemma MakeBlockEmpty<F, V>(c: Container, floatBufs: seq<seq<F>>, vec3Bufs: seq<seq<V>>)
    requires c.Valid()
    requires |floatBufs| == FloatAttributeAmount(c) && |vec3Bufs| == Vec3AttributeAmount(c)
    requires forall k :: 0 <= k < |floatBufs| ==> |floatBufs[k]| == c.blockSize
    requires forall k :: 0 <= k < |vec3Bufs| ==> |vec3Bufs[k]| == c.blockSize
    ensures WellFormed(MakeBlock(c, floatBufs, vec3Bufs))
    ensures NextInactiveIndex(MakeBlock(c, floatBufs, vec3Bufs)) == 0
    ensures IsFull(MakeBlock(c, floatBufs, vec3Bufs)) <==> c.blockSize == 0
  {
  }

  /** Handing out the container's block set changes nothing, and no block
      operation touches the container or its live blocks. */
  lemma ActiveBlocksUnchanged<F, V>(b: Block<F, V>, n: nat, name: string, k: nat, v: F)
    requires WellFormed(b) && name in b.container.floatNames && k < Size(b)
    ensures ActiveBlocks(b.container) == b.container.blocks
    ensures ActiveBlocks(Clear(b).container) == ActiveBlocks(b.container)
    ensures ActiveBlocks(SetActiveAmount(b, n).container) == ActiveBlocks(b.container)
    ensures ActiveBlocks(WriteFloat(b, name, k, v).container) == ActiveBlocks(b.container)
  {
  }

  /** Every registered float buffer of a well-formed block spans the block. */
  lemma FloatBufferSpansBlock<F, V>(b: Block<F, V>, name: string)
    requires WellFormed(b) && name in b.container.floatNames
    ensures |FloatBuffer(b, name)| == Size(b)
  {
  }

  /** Writing through `float_buffer(name)` and reading the same slot back
      gives the written value; every other slot and every other attribute's
      buffer is untouched, and so is the count. */
  lemma WriteFloatThenRead<F, V>(b: Block<F, V>, name: string, k: nat, v: F, other: string)
    requires WellFormed(b) && name in b.container.floatNames && k < Size(b)
    ensures WellFormed(WriteFloat(b, name, k, v))
    ensures FloatBuffer(WriteFloat(b, name, k, v), name)[k] == v
    ensures forall m :: 0 <= m < Size(b) && m != k ==>
      FloatBuffer(WriteFloat(b, name, k, v), name)[m] == FloatBuffer(b, name)[m]
    ensures other in b.container.floatNames && other != name ==>
      FloatBuffer(WriteFloat(b, name, k, v), other) == FloatBuffer(b, other)
    ensures ActiveAmount(WriteFloat(b, name, k, v)) == ActiveAmount(b)
    ensures Vec3Buffers(WriteFloat(b, name, k, v)) == Vec3Buffers(b)
  {
    var b' := WriteFloat(b, name, k, v);
    var i := FloatBufferIndex(b.container, name);
    if other in b.container.floatNames && other != name {
      var o := FloatBufferIndex(b.container, other);
      assert o != i;
    }
  }
}
