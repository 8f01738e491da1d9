/** Inodes, their direct and indirect blocks, and the free map, as values over a flat block map. */
module InodeDisk {

  const BSIZE: nat := 512
  const NINDIRECT: nat := 128
  /** Bits in a block of the free map. */
  const BPB: nat := BSIZE * 8
  const WRAP: nat := 0x1_0000_0000

  type Byte = b: int | 0 <= b < 256
  type Block = b: seq<Byte> | |b| == BSIZE witness seq(BSIZE, _ => 0)

  /** `meta` is the first data block: boot block, super block, log, inodes and free map come before. */
  datatype Geometry = Geometry(ndirect: nat, size: nat, meta: nat, bmapstart: nat, inodestart: nat, ipb: nat) {
    predicate Valid() {
      0 < meta <= size < WRAP && ipb > 0 && bmapstart + (size - 1) / BPB < meta
    }

    /** The block that holds inode `i`. */
    function InodeBlock(i: nat): nat
      requires ipb > 0
    {
      inodestart + i / ipb
    }

    function MaxFile(): nat {
      ndirect + NINDIRECT
    }

    /** An inode's references: direct blocks, the indirect block, the entries of the indirect block. */
    function Slots(): nat {
      ndirect + 1 + NINDIRECT
    }
  }

  datatype Inode = Inode(size: nat, addrs: seq<nat>)

  datatype Disk = Disk(used: seq<bool>, blocks: seq<Block>, inodes: seq<Inode>)

  // ---------- Words in a block ----------

  function Zero(): (b: Block)
    ensures forall x :: 0 <= x < BSIZE ==> b[x] == 0
  {
    seq(BSIZE, _ => 0)
  }

  function Word(b: Block, j: nat): (w: nat)
    requires j < NINDIRECT
    ensures w < WRAP
  {
    var b0: int, b1: int, b2: int, b3: int := b[4 * j], b[4 * j + 1], b[4 * j + 2], b[4 * j + 3];
    b0 + 0x100 * b1 + 0x1_0000 * b2 + 0x100_0000 * b3
  }

  function PutWord(b: Block, j: nat, w: nat): Block
    requires j < NINDIRECT && w < WRAP
  {
    b[4 * j := w % 0x100][4 * j + 1 := w / 0x100 % 0x100][4 * j + 2 := w / 0x1_0000 % 0x100][4 * j + 3 := w / 0x100_0000]
  }

  lemma WordPut(b: Block, j: nat, w: nat, m: nat)
    requires j < NINDIRECT && m < NINDIRECT && w < WRAP
    ensures Word(PutWord(b, j, w), m) == if m == j then w else Word(b, m)
  {
    if m == j {
      Digits(w);
    }
  }

  lemma Digits(w: nat)
    requires w < WRAP
    ensures w % 0x100 + 0x100 * (w / 0x100 % 0x100) + 0x1_0000 * (w / 0x1_0000 % 0x100) + 0x100_0000 * (w / 0x100_0000) == w
  {
    assert w / 0x1_0000 == w / 0x100 / 0x100;
    assert w / 0x100_0000 == w / 0x1_0000 / 0x100;
  }

  lemma WordZero(j: nat)
    requires j < NINDIRECT
    ensures Word(Zero(), j) == 0
  {
  }

  // ---------- Ownership ----------

  ghost predicate Shape(g: Geometry, d: Disk) {
    && g.Valid() && |d.used| == g.size && |d.blocks| == g.size
    && forall i: nat :: i < |d.inodes| ==> InodeShape(g, d, i)
  }

  predicate InodeShape(g: Geometry, d: Disk, i: nat)
    requires i < |d.inodes|
  {
    |d.inodes[i].addrs| == g.ndirect + 1
  }

  /** The block number in slot `k` of inode `i`, 0 for none. */
  function Ref(g: Geometry, d: Disk, i: nat, k: nat): (b: nat)
    requires i < |d.inodes| && InodeShape(g, d, i) && k < g.Slots()
  {
    var addrs := d.inodes[i].addrs;
    if k <= g.ndirect then addrs[k]
    else
      var t := addrs[g.ndirect];
      if 0 < t < |d.blocks| then Word(d.blocks[t], k - g.ndirect - 1) else 0
  }

  ghost predicate Slot(g: Geometry, d: Disk, i: nat, k: nat) {
    i < |d.inodes| && InodeShape(g, d, i) && k < g.Slots()
  }

  /** A block in use by an inode is a data block marked in the free map. */
  ghost predicate RefOk(g: Geometry, d: Disk, i: nat, k: nat)
    requires Slot(g, d, i, k)
  {
    var b := Ref(g, d, i, k);
    b != 0 ==> g.meta <= b < |d.used| && d.used[b]
  }

  ghost predicate RefApart(g: Geometry, d: Disk, i: nat, k: nat, j: nat, m: nat)
    requires Slot(g, d, i, k) && Slot(g, d, j, m)
  {
    (i != j || k != m) && Ref(g, d, i, k) != 0 ==> Ref(g, d, i, k) != Ref(g, d, j, m)
  }

  ghost predicate Refers(g: Geometry, d: Disk, i: nat, k: nat, b: nat) {
    Slot(g, d, i, k) && Ref(g, d, i, k) == b
  }

  /** A marked data block belongs to some inode. */
  ghost predicate NoLeak(g: Geometry, d: Disk, b: nat)
    requires b < |d.used|
  {
    d.used[b] && b >= g.meta ==> exists i: nat, k: nat :: Refers(g, d, i, k, b)
  }

  /** Every data block is free, or belongs to exactly one slot of one inode. */
  ghost predicate Owned(g: Geometry, d: Disk) {
    && Shape(g, d)
    && (forall b: nat :: b < g.meta ==> d.used[b])
    && (forall i: nat, k: nat :: Slot(g, d, i, k) ==> RefOk(g, d, i, k))
    && (forall i: nat, k: nat, j: nat, m: nat :: Slot(g, d, i, k) && Slot(g, d, j, m) ==> RefApart(g, d, i, k, j, m))
    && (forall b: nat :: b < |d.used| ==> NoLeak(g, d, b))
  }

  /** The slots that lead to data: all but the indirect block. */
  function DataSlot(g: Geometry, bn: nat): nat {
    if bn < g.ndirect then bn else bn + 1
  }

  function BlockOf(g: Geometry, d: Disk, i: nat, bn: nat): nat
    requires i < |d.inodes| && InodeShape(g, d, i) && bn < g.MaxFile()
  {
    Ref(g, d, i, DataSlot(g, bn))
  }

  /** Byte `x` of a file; what has no block reads as 0. */
  function Peek(g: Geometry, d: Disk, i: nat, x: nat): Byte
    requires i < |d.inodes| && InodeShape(g, d, i) && x < g.MaxFile() * BSIZE
  {
    var b := BlockOf(g, d, i, x / BSIZE);
    if 0 < b < |d.blocks| then d.blocks[b][x % BSIZE] else 0
  }

  // ---------- One more reference ----------

  /** Slot `k` of inode `i` has been given the free block `b`; nothing else has changed. */
  ghost predicate Gained(g: Geometry, d: Disk, d': Disk, i: nat, k: nat, b: nat) {
    && Slot(g, d, i, k) && Ref(g, d, i, k) == 0
    && |d'.inodes| == |d.inodes| && |d'.blocks| == |d.blocks|
    && b < |d.used| && !d.used[b] && d'.used == d.used[b := true]
    && (forall j: nat, m: nat :: Slot(g, d, j, m) ==> GainedAt(g, d, d', i, k, b, j, m))
  }

  ghost predicate GainedAt(g: Geometry, d: Disk, d': Disk, i: nat, k: nat, b: nat, j: nat, m: nat)
    requires Slot(g, d, j, m)
  {
    Slot(g, d', j, m) && Ref(g, d', j, m) == if j == i && m == k then b else Ref(g, d, j, m)
  }

  lemma GainedOwned(g: Geometry, d: Disk, d': Disk, i: nat, k: nat, b: nat)
    requires Owned(g, d) && Gained(g, d, d', i, k, b) && Shape(g, d')
    ensures Owned(g, d')
  {
    assert b >= g.meta;
    forall j: nat, m: nat | Slot(g, d', j, m) ensures RefOk(g, d', j, m) {
      assert InodeShape(g, d, j);
      assert Slot(g, d, j, m) && GainedAt(g, d, d', i, k, b, j, m) && RefOk(g, d, j, m);
    }
    forall j: nat, m: nat, p: nat, q: nat | Slot(g, d', j, m) && Slot(g, d', p, q)
      ensures RefApart(g, d', j, m, p, q)
    {
      GainedApart(g, d, d', i, k, b, j, m, p, q);
    }
    forall c: nat | c < |d'.used| ensures NoLeak(g, d', c) {
      GainedNoLeak(g, d, d', i, k, b, c);
    }
  }

  lemma GainedApart(g: Geometry, d: Disk, d': Disk, i: nat, k: nat, b: nat, j: nat, m: nat, p: nat, q: nat)
    requires Owned(g, d) && Gained(g, d, d', i, k, b) && Shape(g, d')
    requires Slot(g, d', j, m) && Slot(g, d', p, q)
    ensures RefApart(g, d', j, m, p, q)
  {
    assert InodeShape(g, d, j) && InodeShape(g, d, p);
    assert Slot(g, d, j, m) && Slot(g, d, p, q);
    assert GainedAt(g, d, d', i, k, b, j, m) && GainedAt(g, d, d', i, k, b, p, q);
    assert RefOk(g, d, j, m) && RefOk(g, d, p, q) && RefApart(g, d, j, m, p, q);
  }

  lemma GainedNoLeak(g: Geometry, d: Disk, d': Disk, i: nat, k: nat, b: nat, c: nat)
    requires Owned(g, d) && Gained(g, d, d', i, k, b) && c < |d'.used|
    ensures NoLeak(g, d', c)
  {
    if c == b {
      assert GainedAt(g, d, d', i, k, b, i, k);
      assert Refers(g, d', i, k, b);
    } else if d'.used[c] && c >= g.meta {
      assert NoLeak(g, d, c);
      var j: nat, m: nat :| Refers(g, d, j, m, c);
      assert GainedAt(g, d, d', i, k, b, j, m);
      assert Refers(g, d', j, m, c);
    }
  }

  /** A new direct or indirect block: the block is zeroed and its number stored in the inode. */
  function GiveAddr(d: Disk, i: nat, k: nat, b: nat): Disk
    requires i < |d.inodes| && k < |d.inodes[i].addrs| && b < |d.used| && b < |d.blocks|
  {
    Disk(d.used[b := true], d.blocks[b := Zero()],
         d.inodes[i := d.inodes[i].(addrs := d.inodes[i].addrs[k := b])])
  }

  lemma GiveAddrGained(g: Geometry, d: Disk, i: nat, k: nat, b: nat)
    requires Owned(g, d) && i < |d.inodes| && k <= g.ndirect && InodeShape(g, d, i)
    requires Ref(g, d, i, k) == 0 && b < g.size && !d.used[b]
    ensures Gained(g, d, GiveAddr(d, i, k, b), i, k, b) && Shape(g, GiveAddr(d, i, k, b))
  {
    var d' := GiveAddr(d, i, k, b);
    forall j: nat | j < |d'.inodes| ensures InodeShape(g, d', j) {
      assert InodeShape(g, d, j);
    }
    forall j: nat, m: nat | Slot(g, d, j, m) ensures GainedAt(g, d, d', i, k, b, j, m) {
      assert InodeShape(g, d', j);
      if m > g.ndirect {
        assert Slot(g, d, j, g.ndirect) && RefOk(g, d, j, g.ndirect);
        WordZero(m - g.ndirect - 1);
      }
    }
  }

  /** A new entry of the indirect block `t`. */
  function GiveEntry(d: Disk, t: nat, j: nat, b: nat): Disk
    requires t < |d.blocks| && b < |d.used| && b < |d.blocks| && j < NINDIRECT && b < WRAP
  {
    var zeroed := d.blocks[b := Zero()];
    d.(used := d.used[b := true], blocks := zeroed[t := PutWord(zeroed[t], j, b)])
  }

  lemma GiveEntryGained(g: Geometry, d: Disk, i: nat, j: nat, b: nat)
    requires Owned(g, d) && i < |d.inodes| && InodeShape(g, d, i) && j < NINDIRECT
    requires Ref(g, d, i, g.ndirect) != 0 && Ref(g, d, i, g.ndirect + 1 + j) == 0 && b < g.size && !d.used[b]
    ensures Ref(g, d, i, g.ndirect) < g.size
    ensures var d' := GiveEntry(d, Ref(g, d, i, g.ndirect), j, b);
      Gained(g, d, d', i, g.ndirect + 1 + j, b) && Shape(g, d')
  {
    assert Slot(g, d, i, g.ndirect) && RefOk(g, d, i, g.ndirect);
    var t, k := Ref(g, d, i, g.ndirect), g.ndirect + 1 + j;
    var d' := GiveEntry(d, t, j, b);
    forall p: nat | p < |d'.inodes| ensures InodeShape(g, d', p) {
      assert InodeShape(g, d, p);
    }
    forall p: nat, m: nat | Slot(g, d, p, m) ensures GainedAt(g, d, d', i, k, b, p, m) {
      assert InodeShape(g, d', p);
      if m > g.ndirect {
        assert Slot(g, d, p, g.ndirect) && RefOk(g, d, p, g.ndirect);
        assert RefApart(g, d, p, g.ndirect, i, g.ndirect);
        WordPut(d.blocks[t], j, b, m - g.ndirect - 1);
      }
    }
  }

  lemma DataSlots(g: Geometry, bn: nat, bm: nat)
    requires bn < g.MaxFile() && bm < g.MaxFile()
    ensures DataSlot(g, bn) < g.Slots() && DataSlot(g, bn) != g.ndirect
    ensures bn != bm ==> DataSlot(g, bn) != DataSlot(g, bm)
  {
  }

  /** The new block is zero, and apart from it only the indirect block `t` of inode `i` may have changed. */
  ghost predicate Zeroed(g: Geometry, d: Disk, d': Disk, i: nat, b: nat, t: nat) {
    && Slot(g, d, i, g.ndirect) && (t == 0 || t == Ref(g, d, i, g.ndirect))
    && |d'.blocks| == |d.blocks| && b < |d.blocks| && d'.blocks[b] == Zero()
    && forall a: nat :: a < |d.blocks| && a != b && a != t ==> d'.blocks[a] == d.blocks[a]
  }

  /** Giving a file a block does not change what any file reads. */
  lemma GainedPeek(g: Geometry, d: Disk, d': Disk, i: nat, k: nat, b: nat, t: nat, j: nat, x: nat)
    requires Owned(g, d) && Gained(g, d, d', i, k, b) && Zeroed(g, d, d', i, b, t) && k != g.ndirect
    requires j < |d.inodes| && x < g.MaxFile() * BSIZE
    ensures InodeShape(g, d, j) && InodeShape(g, d', j) && Peek(g, d', j, x) == Peek(g, d, j, x)
  {
    var bn := x / BSIZE;
    DataSlots(g, bn, bn);
    var q := DataSlot(g, bn);
    assert InodeShape(g, d, j);
    assert Slot(g, d, j, q) && GainedAt(g, d, d', i, k, b, j, q) && RefOk(g, d, j, q);
    assert RefApart(g, d, j, q, i, g.ndirect);
  }

  /** Nor does giving it an indirect block. */
  lemma GainedIndirectPeek(g: Geometry, d: Disk, d': Disk, i: nat, b: nat, j: nat, x: nat)
    requires Owned(g, d) && Gained(g, d, d', i, g.ndirect, b) && Zeroed(g, d, d', i, b, 0)
    requires j < |d.inodes| && x < g.MaxFile() * BSIZE
    ensures InodeShape(g, d, j) && InodeShape(g, d', j) && Peek(g, d', j, x) == Peek(g, d, j, x)
  {
    var bn := x / BSIZE;
    DataSlots(g, bn, bn);
    var q := DataSlot(g, bn);
    assert InodeShape(g, d, j);
    assert Slot(g, d, j, q) && GainedAt(g, d, d', i, g.ndirect, b, j, q) && RefOk(g, d, j, q);
  }

  // ---------- Changing bytes of a data block ----------

  function PutBytes(b: Block, at: nat, src: seq<Byte>): Block
    requires at + |src| <= BSIZE
  {
    b[..at] + src + b[at + |src|..]
  }

  function PutBlock(d: Disk, b: nat, at: nat, src: seq<Byte>): Disk
    requires b < |d.blocks| && at + |src| <= BSIZE
  {
    d.(blocks := d.blocks[b := PutBytes(d.blocks[b], at, src)])
  }

  lemma PutRef(g: Geometry, d: Disk, i: nat, bn: nat, at: nat, src: seq<Byte>, j: nat, m: nat)
    requires Owned(g, d) && i < |d.inodes| && InodeShape(g, d, i) && bn < g.MaxFile() && at + |src| <= BSIZE
    requires 0 < BlockOf(g, d, i, bn) < g.size && Slot(g, d, j, m)
    ensures var d' := PutBlock(d, BlockOf(g, d, i, bn), at, src);
      Slot(g, d', j, m) && Ref(g, d', j, m) == Ref(g, d, j, m)
  {
    DataSlots(g, bn, bn);
    assert Slot(g, d, i, DataSlot(g, bn)) && Slot(g, d, j, g.ndirect);
    assert RefApart(g, d, i, DataSlot(g, bn), j, g.ndirect);
  }

  lemma PutOwned(g: Geometry, d: Disk, i: nat, bn: nat, at: nat, src: seq<Byte>)
    requires Owned(g, d) && i < |d.inodes| && InodeShape(g, d, i) && bn < g.MaxFile() && at + |src| <= BSIZE
    requires 0 < BlockOf(g, d, i, bn) < g.size
    ensures Owned(g, PutBlock(d, BlockOf(g, d, i, bn), at, src))
  {
    var d' := PutBlock(d, BlockOf(g, d, i, bn), at, src);
    forall j: nat | j < |d'.inodes| ensures InodeShape(g, d', j) {
      assert InodeShape(g, d, j);
    }
    forall j: nat, m: nat | Slot(g, d', j, m) ensures RefOk(g, d', j, m) {
      assert Slot(g, d, j, m) && RefOk(g, d, j, m);
      PutRef(g, d, i, bn, at, src, j, m);
    }
    forall j: nat, m: nat, p: nat, q: nat | Slot(g, d', j, m) && Slot(g, d', p, q)
      ensures RefApart(g, d', j, m, p, q)
    {
      assert Slot(g, d, j, m) && Slot(g, d, p, q) && RefApart(g, d, j, m, p, q);
      PutRef(g, d, i, bn, at, src, j, m);
      PutRef(g, d, i, bn, at, src, p, q);
    }
    forall c: nat | c < |d'.used| ensures NoLeak(g, d', c) {
      assert NoLeak(g, d, c);
      if j: nat, m: nat :| Refers(g, d, j, m, c) {
        PutRef(g, d, i, bn, at, src, j, m);
        assert Refers(g, d', j, m, c);
      }
    }
  }

  lemma PutPeek(g: Geometry, d: Disk, i: nat, bn: nat, at: nat, src: seq<Byte>, j: nat, x: nat)
    requires Owned(g, d) && i < |d.inodes| && InodeShape(g, d, i) && bn < g.MaxFile() && at + |src| <= BSIZE
    requires 0 < BlockOf(g, d, i, bn) < g.size && j < |d.inodes| && x < g.MaxFile() * BSIZE
    ensures var d' := PutBlock(d, BlockOf(g, d, i, bn), at, src);
      && InodeShape(g, d, j) && InodeShape(g, d', j)
      && Peek(g, d', j, x) ==
           if j == i && bn * BSIZE + at <= x < bn * BSIZE + at + |src| then src[x - bn * BSIZE - at]
           else Peek(g, d, j, x)
  {
    var bm := x / BSIZE;
    DataSlots(g, bm, bn);
    DataSlots(g, bn, bm);
    assert InodeShape(g, d, j);
    assert Slot(g, d, j, DataSlot(g, bm)) && Slot(g, d, i, DataSlot(g, bn));
    PutRef(g, d, i, bn, at, src, j, DataSlot(g, bm));
    assert RefApart(g, d, i, DataSlot(g, bn), j, DataSlot(g, bm));
  }

  // ---------- Giving all blocks back ----------

  /** All blocks of inode `i` are free, nothing else has changed. */
  ghost predicate Truncated(g: Geometry, d: Disk, d': Disk, i: nat) {
    && i < |d.inodes| && d'.blocks == d.blocks && |d'.used| == |d.used|
    && d'.inodes == d.inodes[i := Inode(0, seq(g.ndirect + 1, _ => 0))]
    && forall c: nat :: c < |d.used| ==> TruncatedAt(g, d, d', i, c)
  }

  /** Block `c` belongs to inode `i`. */
  ghost predicate Mine(g: Geometry, d: Disk, i: nat, c: nat) {
    exists k: nat :: c != 0 && Refers(g, d, i, k, c)
  }

  ghost predicate TruncatedAt(g: Geometry, d: Disk, d': Disk, i: nat, c: nat)
    requires c < |d.used| && c < |d'.used|
  {
    d'.used[c] == (d.used[c] && !Mine(g, d, i, c))
  }

  lemma TruncatedRef(g: Geometry, d: Disk, d': Disk, i: nat, j: nat, m: nat)
    requires Owned(g, d) && Truncated(g, d, d', i) && Slot(g, d', j, m)
    ensures Slot(g, d, j, m) && Ref(g, d', j, m) == if j == i then 0 else Ref(g, d, j, m)
  {
    assert InodeShape(g, d, j);
  }

  lemma TruncatedOwned(g: Geometry, d: Disk, d': Disk, i: nat)
    requires Owned(g, d) && Truncated(g, d, d', i)
    ensures Owned(g, d')
  {
    forall j: nat | j < |d'.inodes| ensures InodeShape(g, d', j) {
      assert InodeShape(g, d, j);
    }
    forall b: nat | b < g.meta ensures d'.used[b] {
      assert TruncatedAt(g, d, d', i, b);
      forall k: nat ensures b == 0 || !Refers(g, d, i, k, b) {
        assert Slot(g, d, i, k) ==> RefOk(g, d, i, k);
      }
    }
    forall j: nat, m: nat | Slot(g, d', j, m) ensures RefOk(g, d', j, m) {
      TruncatedRef(g, d, d', i, j, m);
      if j != i && Ref(g, d, j, m) != 0 {
        StaysUsed(g, d, d', i, j, m);
      }
    }
    forall j: nat, m: nat, p: nat, q: nat | Slot(g, d', j, m) && Slot(g, d', p, q)
      ensures RefApart(g, d', j, m, p, q)
    {
      TruncatedRef(g, d, d', i, j, m);
      TruncatedRef(g, d, d', i, p, q);
      assert RefApart(g, d, j, m, p, q);
    }
    forall c: nat | c < |d'.used| ensures NoLeak(g, d', c) {
      TruncatedNoLeak(g, d, d', i, c);
    }
  }

  lemma StaysUsed(g: Geometry, d: Disk, d': Disk, i: nat, j: nat, m: nat)
    requires Owned(g, d) && Truncated(g, d, d', i) && Slot(g, d, j, m) && j != i && Ref(g, d, j, m) != 0
    ensures g.meta <= Ref(g, d, j, m) < |d'.used| && d'.used[Ref(g, d, j, m)]
  {
    var b := Ref(g, d, j, m);
    assert RefOk(g, d, j, m) && TruncatedAt(g, d, d', i, b);
    forall k: nat ensures !Refers(g, d, i, k, b) {
      assert Slot(g, d, i, k) ==> RefApart(g, d, j, m, i, k);
    }
  }

  lemma TruncatedNoLeak(g: Geometry, d: Disk, d': Disk, i: nat, c: nat)
    requires Owned(g, d) && Truncated(g, d, d', i) && c < |d'.used|
    ensures NoLeak(g, d', c)
  {
    assert NoLeak(g, d, c) && TruncatedAt(g, d, d', i, c);
    if d'.used[c] && c >= g.meta {
      var j: nat, m: nat :| Refers(g, d, j, m, c);
      assert j == i ==> Mine(g, d, i, c);
      assert InodeShape(g, d', j);
      TruncatedRef(g, d, d', i, j, m);
      assert Refers(g, d', j, m, c);
    }
  }

  lemma TruncatedPeek(g: Geometry, d: Disk, d': Disk, i: nat, j: nat, x: nat)
    requires Owned(g, d) && Truncated(g, d, d', i) && j < |d.inodes| && j != i && x < g.MaxFile() * BSIZE
    ensures InodeShape(g, d, j) && InodeShape(g, d', j) && Peek(g, d', j, x) == Peek(g, d, j, x)
  {
    DataSlots(g, x / BSIZE, x / BSIZE);
    assert InodeShape(g, d, j);
    assert InodeShape(g, d', j);
    TruncatedRef(g, d, d', i, j, DataSlot(g, x / BSIZE));
  }
}

/** The inode layer. Blocks are read and written through a flat block map, which the buffer cache
    provides; `logged` collects the numbers of the blocks handed to `log_write`. */
module InodeLayer {
  import opened Common
  import opened InodeDisk

  /** The size is within bounds, and the inode is stored before the free map. */
  predicate InodeOk(g: Geometry, d: Disk, i: nat)
    requires i < |d.inodes|
  {
    d.inodes[i].size <= g.MaxFile() * BSIZE && g.ipb > 0 && g.InodeBlock(i) < g.bmapstart
  }

  ghost predicate Mapped(g: Geometry, d: Disk, i: nat, bn: nat)
    requires i < |d.inodes| && InodeShape(g, d, i) && bn < g.MaxFile()
  {
    BlockOf(g, d, i, bn) != 0
  }

  /** Every block up to the size of the file exists. */
  ghost predicate HoleFree(g: Geometry, d: Disk, i: nat)
    requires i < |d.inodes| && InodeShape(g, d, i)
  {
    forall bn: nat :: bn < g.MaxFile() && bn * BSIZE < d.inodes[i].size ==> Mapped(g, d, i, bn)
  }

  /** The bytes of a file. */
  ghost function Content(g: Geometry, d: Disk, i: nat): (c: seq<Byte>)
    requires i < |d.inodes| && InodeShape(g, d, i) && InodeOk(g, d, i)
    ensures |c| == d.inodes[i].size
  {
    seq(d.inodes[i].size, x requires 0 <= x < d.inodes[i].size => Peek(g, d, i, x))
  }

  // ---------- What allocation keeps ----------

  ghost predicate KeptRef(g: Geometry, d: Disk, d': Disk, j: nat, m: nat)
    requires Slot(g, d, j, m)
  {
    Slot(g, d', j, m) && (Ref(g, d, j, m) != 0 ==> Ref(g, d', j, m) == Ref(g, d, j, m))
  }

  ghost predicate KeptByte(g: Geometry, d: Disk, d': Disk, j: nat, x: nat)
    requires j < |d.inodes| && x < g.MaxFile() * BSIZE
  {
    && InodeShape(g, d, j) && j < |d'.inodes| && InodeShape(g, d', j)
    && Peek(g, d', j, x) == Peek(g, d, j, x)
  }

  /** No reference is lost, no file changes. */
  ghost predicate Kept(g: Geometry, d: Disk, d': Disk) {
    && |d'.inodes| == |d.inodes|
    && (forall j: nat :: j < |d.inodes| ==> SameSize(d, d', j))
    && (forall j: nat, m: nat :: Slot(g, d, j, m) ==> KeptRef(g, d, d', j, m))
    && (forall j: nat, x: nat :: j < |d.inodes| && x < g.MaxFile() * BSIZE ==> KeptByte(g, d, d', j, x))
  }

  predicate SameSize(d: Disk, d': Disk, j: nat)
    requires j < |d.inodes| && j < |d'.inodes|
  {
    d'.inodes[j].size == d.inodes[j].size
  }

  lemma KeptRefl(g: Geometry, d: Disk)
    requires Owned(g, d)
    ensures Kept(g, d, d)
  {
    forall j: nat, x: nat | j < |d.inodes| && x < g.MaxFile() * BSIZE ensures KeptByte(g, d, d, j, x) {
      assert InodeShape(g, d, j);
    }
  }

  lemma KeptTrans(g: Geometry, d0: Disk, d1: Disk, d2: Disk)
    requires Kept(g, d0, d1) && Kept(g, d1, d2)
    ensures Kept(g, d0, d2)
  {
    forall j: nat | j < |d0.inodes| ensures SameSize(d0, d2, j) {
      assert SameSize(d0, d1, j) && SameSize(d1, d2, j);
    }
    forall j: nat, m: nat | Slot(g, d0, j, m) ensures KeptRef(g, d0, d2, j, m) {
      assert KeptRef(g, d0, d1, j, m) && KeptRef(g, d1, d2, j, m);
    }
    forall j: nat, x: nat | j < |d0.inodes| && x < g.MaxFile() * BSIZE ensures KeptByte(g, d0, d2, j, x) {
      assert KeptByte(g, d0, d1, j, x) && KeptByte(g, d1, d2, j, x);
    }
  }

  // ---------- Which blocks exist ----------

  ghost predicate MappedAt(g: Geometry, d: Disk, i: nat, bn: nat) {
    i < |d.inodes| && InodeShape(g, d, i) && bn < g.MaxFile() && Mapped(g, d, i, bn)
  }

  /** A slot has a block if it had one, or if it is slot `k` of inode `i`. */
  ghost predicate FilledSlot(g: Geometry, d: Disk, d': Disk, i: nat, k: nat, j: nat, m: nat)
    requires Slot(g, d, j, m)
  {
    Slot(g, d', j, m) && (Ref(g, d', j, m) != 0 <==> Ref(g, d, j, m) != 0 || (j == i && m == k))
  }

  ghost predicate Filled(g: Geometry, d: Disk, d': Disk, i: nat, k: nat) {
    |d'.inodes| == |d.inodes| && forall j: nat, m: nat :: Slot(g, d, j, m) ==> FilledSlot(g, d, d', i, k, j, m)
  }

  /** A file block exists if it did, or if it is one of blocks `lo` to `hi` of file `i`. */
  ghost predicate FilledAt(g: Geometry, d: Disk, d': Disk, i: nat, lo: nat, hi: nat, j: nat, bn: nat) {
    MappedAt(g, d', j, bn) <==> MappedAt(g, d, j, bn) || (j == i && lo <= bn < hi)
  }

  ghost predicate FilledRange(g: Geometry, d: Disk, d': Disk, i: nat, lo: nat, hi: nat) {
    |d'.inodes| == |d.inodes|
    && forall j: nat, bn: nat :: j < |d.inodes| && bn < g.MaxFile() ==> FilledAt(g, d, d', i, lo, hi, j, bn)
  }

  lemma FilledRefl(g: Geometry, d: Disk, i: nat, k: nat)
    requires Slot(g, d, i, k) && Ref(g, d, i, k) != 0
    ensures Filled(g, d, d, i, k)
  {
  }

  /** Filling a data slot, after the indirect block if need be. */
  lemma FilledBlock(g: Geometry, d: Disk, d1: Disk, d2: Disk, i: nat, bn: nat)
    requires Shape(g, d) && bn < g.MaxFile() && Filled(g, d1, d2, i, DataSlot(g, bn))
    requires d1 == d || Filled(g, d, d1, i, g.ndirect)
    ensures i < |d.inodes| ==> FilledRange(g, d, d2, i, bn, bn + 1)
  {
    if i < |d.inodes| {
      var hi := bn + 1;
      forall j: nat, b: nat | j < |d.inodes| && b < g.MaxFile() ensures FilledAt(g, d, d2, i, bn, hi, j, b) {
        DataSlots(g, b, bn);
        assert InodeShape(g, d, j) && Slot(g, d, j, DataSlot(g, b));
        assert d1 != d ==> FilledSlot(g, d, d1, i, g.ndirect, j, DataSlot(g, b));
        assert FilledSlot(g, d1, d2, i, DataSlot(g, bn), j, DataSlot(g, b));
      }
    }
  }

  /** What finding or making block `bn` of a file logs; `addr` is its number. */
  ghost function NewLogged(g: Geometry, d: Disk, d': Disk, i: nat, bn: nat, addr: nat): set<nat> {
    if MappedAt(g, d, i, bn) then {}
    else {g.bmapstart, addr} + if bn < g.ndirect then {} else Indirect(g, d', i)
  }

  /** The indirect block, if there is one. */
  ghost function Indirect(g: Geometry, d: Disk, i: nat): set<nat> {
    if Slot(g, d, i, g.ndirect) && Ref(g, d, i, g.ndirect) != 0 then {Ref(g, d, i, g.ndirect)} else {}
  }

  lemma GiveAddrKept(g: Geometry, d: Disk, i: nat, k: nat, b: nat)
    requires Owned(g, d) && i < |d.inodes| && k <= g.ndirect && InodeShape(g, d, i)
    requires Ref(g, d, i, k) == 0 && b < g.size && !d.used[b]
    ensures Owned(g, GiveAddr(d, i, k, b)) && Kept(g, d, GiveAddr(d, i, k, b))
    ensures Refers(g, GiveAddr(d, i, k, b), i, k, b) && Filled(g, d, GiveAddr(d, i, k, b), i, k)
  {
    var d' := GiveAddr(d, i, k, b);
    GiveAddrGained(g, d, i, k, b);
    GainedOwned(g, d, d', i, k, b);
    assert Slot(g, d, i, k) && GainedAt(g, d, d', i, k, b, i, k);
    assert Slot(g, d, i, g.ndirect) && Zeroed(g, d, d', i, b, 0);
    forall j: nat, m: nat | Slot(g, d, j, m) ensures KeptRef(g, d, d', j, m) && FilledSlot(g, d, d', i, k, j, m) {
      assert GainedAt(g, d, d', i, k, b, j, m);
    }
    forall j: nat, x: nat | j < |d.inodes| && x < g.MaxFile() * BSIZE ensures KeptByte(g, d, d', j, x) {
      if k == g.ndirect {
        GainedIndirectPeek(g, d, d', i, b, j, x);
      } else {
        GainedPeek(g, d, d', i, k, b, 0, j, x);
      }
    }
  }

  lemma GiveEntryKept(g: Geometry, d: Disk, i: nat, j: nat, b: nat)
    requires Owned(g, d) && i < |d.inodes| && InodeShape(g, d, i) && j < NINDIRECT
    requires Ref(g, d, i, g.ndirect) != 0 && Ref(g, d, i, g.ndirect + 1 + j) == 0 && b < g.size && !d.used[b]
    ensures Ref(g, d, i, g.ndirect) < g.size
    ensures var d' := GiveEntry(d, Ref(g, d, i, g.ndirect), j, b);
      Owned(g, d') && Kept(g, d, d') && Refers(g, d', i, g.ndirect + 1 + j, b) && Filled(g, d, d', i, g.ndirect + 1 + j)
  {
    GiveEntryGained(g, d, i, j, b);
    assert Slot(g, d, i, g.ndirect) && RefOk(g, d, i, g.ndirect);
    var t, k := Ref(g, d, i, g.ndirect), g.ndirect + 1 + j;
    var d' := GiveEntry(d, t, j, b);
    GainedOwned(g, d, d', i, k, b);
    assert GainedAt(g, d, d', i, k, b, i, k);
    assert Zeroed(g, d, d', i, b, t);
    forall p: nat, m: nat | Slot(g, d, p, m) ensures KeptRef(g, d, d', p, m) && FilledSlot(g, d, d', i, k, p, m) {
      assert GainedAt(g, d, d', i, k, b, p, m);
    }
    forall p: nat, x: nat | p < |d.inodes| && x < g.MaxFile() * BSIZE ensures KeptByte(g, d, d', p, x) {
      GainedPeek(g, d, d', i, k, b, t, p, x);
    }
  }

  lemma SizesKept(g: Geometry, d: Disk, d': Disk)
    requires Kept(g, d, d') && forall i: nat :: i < |d.inodes| ==> InodeOk(g, d, i)
    ensures forall i: nat :: i < |d'.inodes| ==> InodeOk(g, d', i)
  {
    forall i: nat | i < |d'.inodes| ensures InodeOk(g, d', i) {
      assert SameSize(d, d', i) && InodeOk(g, d, i);
    }
  }

  // ---------- Freeing slot by slot ----------

  /** Addresses of which the first `k` have been set to 0. */
  function Cleared(addrs: seq<nat>, k: nat): seq<nat>
    requires k <= |addrs|
  {
    seq(k, _ => 0) + addrs[k..]
  }

  lemma ClearedNext(addrs: seq<nat>, k: nat)
    requires k < |addrs|
    ensures |Cleared(addrs, k)| == |addrs| && Cleared(addrs, k)[k] == addrs[k]
    ensures Cleared(addrs, k)[k := 0] == Cleared(addrs, k + 1)
    ensures addrs[k] == 0 ==> Cleared(addrs, k) == Cleared(addrs, k + 1)
    ensures Cleared(addrs, 0) == addrs
    ensures k + 1 == |addrs| ==> Cleared(addrs, k)[k := 0] == seq(|addrs|, _ => 0)
  {
  }

  ghost predicate MineIn(g: Geometry, d: Disk, i: nat, done: set<nat>, c: nat) {
    exists k: nat :: k in done && c != 0 && Refers(g, d, i, k, c)
  }

  ghost predicate FreedAt(g: Geometry, d: Disk, used: seq<bool>, i: nat, done: set<nat>, c: nat)
    requires c < |d.used| && c < |used|
  {
    used[c] == (d.used[c] && !MineIn(g, d, i, done, c))
  }

  /** The blocks of the slots in `done` are free, the others are as they were. */
  ghost predicate FreedSlots(g: Geometry, d: Disk, used: seq<bool>, i: nat, done: set<nat>) {
    |used| == |d.used| && forall c: nat :: c < |d.used| ==> FreedAt(g, d, used, i, done, c)
  }

  lemma MineInMore(g: Geometry, d: Disk, i: nat, done: set<nat>, k: nat, c: nat)
    ensures MineIn(g, d, i, done + {k}, c) <==> MineIn(g, d, i, done, c) || (c != 0 && Refers(g, d, i, k, c))
  {
    if m: nat :| m in done && c != 0 && Refers(g, d, i, m, c) {
      assert m in done + {k};
    }
    if c != 0 && Refers(g, d, i, k, c) {
      assert k in done + {k};
    }
  }

  /** The next block is still marked; freeing it leaves one slot more. */
  lemma FreeNext(g: Geometry, d: Disk, used: seq<bool>, i: nat, done: set<nat>, k: nat)
    requires Owned(g, d) && Slot(g, d, i, k) && k !in done && FreedSlots(g, d, used, i, done)
    ensures var b := Ref(g, d, i, k);
      if b == 0 then FreedSlots(g, d, used, i, done + {k})
      else b < |used| && used[b] && FreedSlots(g, d, used[b := false], i, done + {k})
  {
    var b := Ref(g, d, i, k);
    assert RefOk(g, d, i, k);
    if b != 0 {
      assert FreedAt(g, d, used, i, done, b);
      forall m: nat | m in done ensures !Refers(g, d, i, m, b) {
        assert Slot(g, d, i, m) ==> RefApart(g, d, i, k, i, m);
      }
    }
    var after := if b == 0 then used else used[b := false];
    forall c: nat | c < |d.used| ensures FreedAt(g, d, after, i, done + {k}, c) {
      assert FreedAt(g, d, used, i, done, c);
      MineInMore(g, d, i, done, k, c);
    }
  }

  /** When all slots are done, all of the inode's blocks are free. */
  lemma AllFreed(g: Geometry, d: Disk, used: seq<bool>, i: nat, done: set<nat>, t: nat)
    requires Owned(g, d) && Refers(g, d, i, g.ndirect, t) && FreedSlots(g, d, used, i, done)
    requires forall k: nat :: k in done <==> if t == 0 then k < g.ndirect else k < g.Slots()
    ensures forall c: nat :: c < |d.used| ==> used[c] == (d.used[c] && !Mine(g, d, i, c))
  {
    forall c: nat | c < |d.used| ensures used[c] == (d.used[c] && !Mine(g, d, i, c)) {
      assert FreedAt(g, d, used, i, done, c);
      if k: nat :| c != 0 && Refers(g, d, i, k, c) {
        assert k in done;
      }
    }
  }

  // ---------- Reading and writing ----------

  /** `Refused` is the return value -1; a panic stops the machine. */
  datatype Result = Refused | Panic | Bytes(bytes: seq<Byte>)

  function Slice(c: seq<Byte>, off: nat, n: nat): seq<Byte> {
    if off > |c| then [] else if off + n > |c| then c[off..] else c[off..off + n]
  }

  ghost predicate ReadAt(g: Geometry, d: Disk, i: nat, off: nat, data: seq<Byte>, x: nat)
    requires x < |data|
  {
    i < |d.inodes| && InodeShape(g, d, i) && off + x < g.MaxFile() * BSIZE && data[x] == Peek(g, d, i, off + x)
  }

  lemma ContentSlice(g: Geometry, d: Disk, i: nat, off: nat, n: nat, data: seq<Byte>)
    requires i < |d.inodes| && InodeShape(g, d, i) && InodeOk(g, d, i) && off <= d.inodes[i].size
    requires |data| == if off + n > d.inodes[i].size then d.inodes[i].size - off else n
    requires forall x: nat :: x < |data| ==> ReadAt(g, d, i, off, data, x)
    ensures data == Slice(Content(g, d, i), off, n)
  {
    var c := Content(g, d, i);
    forall x: nat | x < |data| ensures data[x] == c[off + x] {
      assert ReadAt(g, d, i, off, data, x);
    }
  }

  ghost predicate WroteAt(g: Geometry, d: Disk, d': Disk, i: nat, off: nat, src: seq<Byte>, j: nat, x: nat)
    requires j < |d.inodes| && x < g.MaxFile() * BSIZE
  {
    && InodeShape(g, d, j) && j < |d'.inodes| && InodeShape(g, d', j)
    && Peek(g, d', j, x) == if j == i && off <= x < off + |src| then src[x - off] else Peek(g, d, j, x)
  }

  /** File `i` has `src` at `off`; nothing else has changed, and no reference is lost. */
  ghost predicate Wrote(g: Geometry, d: Disk, d': Disk, i: nat, off: nat, src: seq<Byte>) {
    && |d'.inodes| == |d.inodes|
    && (forall j: nat :: j < |d.inodes| ==> SameSize(d, d', j))
    && (forall j: nat, m: nat :: Slot(g, d, j, m) ==> KeptRef(g, d, d', j, m))
    && (forall j: nat, x: nat :: j < |d.inodes| && x < g.MaxFile() * BSIZE ==> WroteAt(g, d, d', i, off, src, j, x))
  }

  lemma PutWrote(g: Geometry, d: Disk, d1: Disk, i: nat, bn: nat, at: nat, src: seq<Byte>)
    requires Owned(g, d1) && Kept(g, d, d1) && i < |d.inodes| && InodeShape(g, d1, i)
    requires bn < g.MaxFile() && at + |src| <= BSIZE && 0 < BlockOf(g, d1, i, bn) < g.size
    ensures Wrote(g, d, PutBlock(d1, BlockOf(g, d1, i, bn), at, src), i, bn * BSIZE + at, src)
  {
    var d', off := PutBlock(d1, BlockOf(g, d1, i, bn), at, src), bn * BSIZE + at;
    forall j: nat | j < |d.inodes| ensures SameSize(d, d', j) {
      assert SameSize(d, d1, j);
    }
    forall j: nat, m: nat | Slot(g, d, j, m) ensures KeptRef(g, d, d', j, m) {
      assert KeptRef(g, d, d1, j, m);
      PutRef(g, d1, i, bn, at, src, j, m);
    }
    forall j: nat, x: nat | j < |d.inodes| && x < g.MaxFile() * BSIZE ensures WroteAt(g, d, d', i, off, src, j, x) {
      assert KeptByte(g, d, d1, j, x);
      PutPeek(g, d1, i, bn, at, src, j, x);
    }
  }

  /** Changing bytes changes no reference. */
  lemma PutFilled(g: Geometry, d: Disk, d1: Disk, i: nat, bn: nat, at: nat, src: seq<Byte>)
    requires Owned(g, d1) && i < |d1.inodes| && InodeShape(g, d1, i) && bn < g.MaxFile() && at + |src| <= BSIZE
    requires 0 < BlockOf(g, d1, i, bn) < g.size && FilledRange(g, d, d1, i, bn, bn + 1)
    ensures var d2 := PutBlock(d1, BlockOf(g, d1, i, bn), at, src);
      && FilledRange(g, d, d2, i, bn, bn + 1) && MappedAt(g, d2, i, bn) && BlockOf(g, d2, i, bn) == BlockOf(g, d1, i, bn)
      && NewLogged(g, d, d2, i, bn, BlockOf(g, d1, i, bn)) == NewLogged(g, d, d1, i, bn, BlockOf(g, d1, i, bn))
  {
    var d2, hi := PutBlock(d1, BlockOf(g, d1, i, bn), at, src), bn + 1;
    forall j: nat, b: nat | j < |d.inodes| && b < g.MaxFile() ensures FilledAt(g, d, d2, i, bn, hi, j, b) {
      DataSlots(g, b, b);
      assert FilledAt(g, d, d1, i, bn, hi, j, b) && InodeShape(g, d1, j) && Slot(g, d1, j, DataSlot(g, b));
      PutRef(g, d1, i, bn, at, src, j, DataSlot(g, b));
    }
    DataSlots(g, bn, bn);
    PutRef(g, d1, i, bn, at, src, i, DataSlot(g, bn));
    assert Slot(g, d1, i, g.ndirect);
    PutRef(g, d1, i, bn, at, src, i, g.ndirect);
  }

  lemma WroteTrans(g: Geometry, d0: Disk, d1: Disk, d2: Disk, i: nat, off: nat, a: seq<Byte>, b: seq<Byte>)
    requires Wrote(g, d0, d1, i, off, a) && Wrote(g, d1, d2, i, off + |a|, b)
    ensures Wrote(g, d0, d2, i, off, a + b)
  {
    forall j: nat | j < |d0.inodes| ensures SameSize(d0, d2, j) {
      assert SameSize(d0, d1, j) && SameSize(d1, d2, j);
    }
    forall j: nat, m: nat | Slot(g, d0, j, m) ensures KeptRef(g, d0, d2, j, m) {
      assert KeptRef(g, d0, d1, j, m) && KeptRef(g, d1, d2, j, m);
    }
    forall j: nat, x: nat | j < |d0.inodes| && x < g.MaxFile() * BSIZE
      ensures WroteAt(g, d0, d2, i, off, a + b, j, x)
    {
      assert WroteAt(g, d0, d1, i, off, a, j, x) && WroteAt(g, d1, d2, i, off + |a|, b, j, x);
    }
  }

  /** One past the last block that `n` bytes from `off` reach. */
  function Top(off: nat, n: nat): (hi: nat)
    ensures off / BSIZE <= hi && (n > 0 ==> off / BSIZE < hi)
  {
    if n == 0 then off / BSIZE else (off + n - 1) / BSIZE + 1
  }

  /** Blocks `lo` to `hi` of the file exist. */
  ghost predicate Spans(g: Geometry, d: Disk, i: nat, lo: nat, hi: nat) {
    forall bn: nat :: lo <= bn < hi ==> MappedAt(g, d, i, bn)
  }

  ghost function BlocksOf(g: Geometry, d: Disk, i: nat, lo: nat, hi: nat): (s: set<nat>)
    requires lo <= hi && Spans(g, d, i, lo, hi)
    ensures |s| <= hi - lo
    decreases hi - lo
  {
    if lo == hi then {}
    else
      assert MappedAt(g, d, i, hi - 1);
      BlocksOf(g, d, i, lo, hi - 1) + {BlockOf(g, d, i, hi - 1)}
  }

  ghost predicate RefsKept(g: Geometry, d: Disk, d': Disk) {
    |d'.inodes| == |d.inodes| && forall j: nat, m: nat :: Slot(g, d, j, m) ==> KeptRef(g, d, d', j, m)
  }

  /** The write makes the file larger. */
  predicate Enlarges(d: Disk, i: nat, off: nat, n: nat)
    requires i < |d.inodes|
  {
    n > 0 && off + n > d.inodes[i].size
  }

  lemma {:induction false} SpansKept(g: Geometry, d: Disk, d': Disk, i: nat, lo: nat, hi: nat)
    requires RefsKept(g, d, d') && lo <= hi && Spans(g, d, i, lo, hi)
    ensures Spans(g, d', i, lo, hi) && BlocksOf(g, d', i, lo, hi) == BlocksOf(g, d, i, lo, hi)
    decreases hi - lo
  {
    forall bn: nat | lo <= bn < hi ensures MappedAt(g, d', i, bn) && BlockOf(g, d', i, bn) == BlockOf(g, d, i, bn) {
      assert MappedAt(g, d, i, bn);
      DataSlots(g, bn, bn);
      assert Slot(g, d, i, DataSlot(g, bn)) && KeptRef(g, d, d', i, DataSlot(g, bn));
    }
    if lo < hi {
      SpansKept(g, d, d', i, lo, hi - 1);
      assert MappedAt(g, d, i, hi - 1) && MappedAt(g, d', i, hi - 1);
    }
  }

  lemma IndirectKept(g: Geometry, d: Disk, d': Disk, i: nat)
    requires RefsKept(g, d, d')
    ensures Indirect(g, d, i) <= Indirect(g, d', i)
  {
    if Slot(g, d, i, g.ndirect) {
      assert KeptRef(g, d, d', i, g.ndirect);
    }
  }

  /** After `m` more bytes within one block. */
  lemma SpansMore(g: Geometry, d: Disk, d': Disk, i: nat, off: nat, k: nat, m: nat)
    requires RefsKept(g, d, d') && Spans(g, d, i, off / BSIZE, Top(off, k)) && m > 0
    requires (off + k) % BSIZE + m <= BSIZE && MappedAt(g, d', i, (off + k) / BSIZE)
    ensures var lo, bn := off / BSIZE, (off + k) / BSIZE;
      && Top(off, k + m) == bn + 1 && Spans(g, d', i, lo, bn + 1)
      && BlocksOf(g, d', i, lo, bn + 1) == BlocksOf(g, d, i, lo, Top(off, k)) + {BlockOf(g, d', i, bn)}
    ensures Indirect(g, d, i) <= Indirect(g, d', i)
  {
    var lo, bn := off / BSIZE, (off + k) / BSIZE;
    SpansKept(g, d, d', i, lo, Top(off, k));
    IndirectKept(g, d, d', i);
    TopMore(off, k, m);
    BlocksMore(g, d', i, lo, Top(off, k), bn);
  }

  lemma TopMore(off: nat, k: nat, m: nat)
    requires m > 0 && (off + k) % BSIZE + m <= BSIZE
    ensures var bn := (off + k) / BSIZE; Top(off, k + m) == bn + 1 && (Top(off, k) == bn || Top(off, k) == bn + 1)
  {
  }

  lemma BlocksMore(g: Geometry, d: Disk, i: nat, lo: nat, hi: nat, bn: nat)
    requires lo <= bn && Spans(g, d, i, lo, hi) && lo <= hi && (hi == bn || hi == bn + 1) && MappedAt(g, d, i, bn)
    ensures Spans(g, d, i, lo, bn + 1)
    ensures BlocksOf(g, d, i, lo, bn + 1) == BlocksOf(g, d, i, lo, hi) + {BlockOf(g, d, i, bn)}
  {
  }

  ghost function Opt(b: bool, x: nat): set<nat> {
    if b then {x} else {}
  }

  /** Some of blocks `lo` to `hi` from `from` on does not exist. */
  ghost predicate Adds(g: Geometry, d: Disk, i: nat, lo: nat, hi: nat, from: nat) {
    exists bn: nat :: lo <= bn < hi && from <= bn && !MappedAt(g, d, i, bn)
  }

  /** What is logged besides the data blocks: the free map if a block is added, and the indirect block
      if an entry of it is. */
  ghost function Extra(g: Geometry, d: Disk, d': Disk, i: nat, lo: nat, hi: nat): set<nat> {
    Opt(Adds(g, d, i, lo, hi, 0), g.bmapstart)
    + if Adds(g, d, i, lo, hi, g.ndirect) then Indirect(g, d', i) else {}
  }

  lemma AddsNext(g: Geometry, d: Disk, i: nat, lo: nat, bn: nat, from: nat)
    requires lo <= bn
    ensures Adds(g, d, i, lo, bn + 1, from) <==> Adds(g, d, i, lo, bn, from) || (from <= bn && !MappedAt(g, d, i, bn))
  {
    if from <= bn && !MappedAt(g, d, i, bn) {
      assert Adds(g, d, i, lo, bn + 1, from);
    }
  }

  lemma ExtraNext(g: Geometry, d: Disk, d1: Disk, d2: Disk, i: nat, lo: nat, hi: nat, bn: nat, addr: nat)
    requires lo <= bn < g.MaxFile() && (hi == bn || hi == bn + 1) && i < |d.inodes|
    requires FilledRange(g, d, d1, i, lo, hi) && Indirect(g, d1, i) <= Indirect(g, d2, i)
    requires Adds(g, d, i, lo, hi, g.ndirect) ==> Indirect(g, d1, i) != {}
    ensures Extra(g, d, d2, i, lo, bn + 1) + {addr} == Extra(g, d, d1, i, lo, hi) + NewLogged(g, d1, d2, i, bn, addr) + {addr}
  {
    assert FilledAt(g, d, d1, i, lo, hi, i, bn);
    AddsNext(g, d, i, lo, bn, 0);
    AddsNext(g, d, i, lo, bn, g.ndirect);
    assert Indirect(g, d1, i) != {} ==> Indirect(g, d2, i) == Indirect(g, d1, i);
  }

  /** The first `k` bytes have been written, and these blocks logged. */
  ghost predicate Progress(g: Geometry, d: Disk, d': Disk, i: nat, off: nat, src: seq<Byte>, k: nat,
                           before: set<nat>, logged: set<nat>) {
    var lo, hi := off / BSIZE, Top(off, k);
    && k <= |src| && Wrote(g, d, d', i, off, src[..k])
    && Spans(g, d', i, lo, hi) && FilledRange(g, d, d', i, lo, hi)
    && BlocksOf(g, d', i, lo, hi) <= logged
    && (g.size <= BPB ==> logged == before + BlocksOf(g, d', i, lo, hi) + Extra(g, d, d', i, lo, hi))
  }

  /** A block behind the direct ones exists only if the indirect block does. */
  lemma HasIndirect(g: Geometry, d: Disk, i: nat, bn: nat)
    requires MappedAt(g, d, i, bn) && bn >= g.ndirect
    ensures Indirect(g, d, i) != {}
  {
  }

  lemma FilledMore(g: Geometry, d: Disk, d1: Disk, d2: Disk, i: nat, lo: nat, hi: nat, bn: nat)
    requires lo <= bn && (hi == bn || hi == bn + 1)
    requires FilledRange(g, d, d1, i, lo, hi) && FilledRange(g, d1, d2, i, bn, bn + 1)
    ensures FilledRange(g, d, d2, i, lo, bn + 1)
  {
    var hi2 := bn + 1;
    forall j: nat, b: nat | j < |d.inodes| && b < g.MaxFile() ensures FilledAt(g, d, d2, i, lo, hi2, j, b) {
      assert FilledAt(g, d, d1, i, lo, hi, j, b) && FilledAt(g, d1, d2, i, bn, hi2, j, b);
    }
  }

  /** One block has been written. */
  ghost predicate WroteBlock(g: Geometry, d1: Disk, d2: Disk, i: nat, bn: nat, l1: set<nat>, l2: set<nat>) {
    && MappedAt(g, d2, i, bn) && FilledRange(g, d1, d2, i, bn, bn + 1)
    && l1 <= l2 && BlockOf(g, d2, i, bn) in l2
    && (g.size <= BPB ==> l2 == l1 + NewLogged(g, d1, d2, i, bn, BlockOf(g, d2, i, bn)) + {BlockOf(g, d2, i, bn)})
  }

  lemma ProgressStep(g: Geometry, d: Disk, d1: Disk, d2: Disk, i: nat, off: nat, src: seq<Byte>, k: nat, m: nat,
                     before: set<nat>, l1: set<nat>, l2: set<nat>)
    requires Progress(g, d, d1, i, off, src, k, before, l1) && 0 < m && k + m <= |src|
    requires Wrote(g, d1, d2, i, off + k, src[k..][..m]) && (off + k) % BSIZE + m <= BSIZE
    requires WroteBlock(g, d1, d2, i, (off + k) / BSIZE, l1, l2)
    ensures Progress(g, d, d2, i, off, src, k + m, before, l2)
  {
    WroteTrans(g, d, d1, d2, i, off, src[..k], src[k..][..m]);
    assert src[..k] + src[k..][..m] == src[..k + m];
    ProgressBlocks(g, d, d1, d2, i, off, k, m, before, l1, l2);
  }

  lemma ProgressBlocks(g: Geometry, d: Disk, d1: Disk, d2: Disk, i: nat, off: nat, k: nat, m: nat,
                       before: set<nat>, l1: set<nat>, l2: set<nat>)
    requires RefsKept(g, d1, d2) && i < |d.inodes| && m > 0 && (off + k) % BSIZE + m <= BSIZE
    requires Spans(g, d1, i, off / BSIZE, Top(off, k)) && FilledRange(g, d, d1, i, off / BSIZE, Top(off, k))
    requires BlocksOf(g, d1, i, off / BSIZE, Top(off, k)) <= l1
    requires g.size <= BPB ==>
      l1 == before + BlocksOf(g, d1, i, off / BSIZE, Top(off, k)) + Extra(g, d, d1, i, off / BSIZE, Top(off, k))
    requires WroteBlock(g, d1, d2, i, (off + k) / BSIZE, l1, l2)
    ensures Spans(g, d2, i, off / BSIZE, Top(off, k + m)) && FilledRange(g, d, d2, i, off / BSIZE, Top(off, k + m))
    ensures BlocksOf(g, d2, i, off / BSIZE, Top(off, k + m)) <= l2
    ensures g.size <= BPB ==>
      l2 == before + BlocksOf(g, d2, i, off / BSIZE, Top(off, k + m)) + Extra(g, d, d2, i, off / BSIZE, Top(off, k + m))
  {
    var lo, hi, bn := off / BSIZE, Top(off, k), (off + k) / BSIZE;
    SpansMore(g, d1, d2, i, off, k, m);
    TopMore(off, k, m);
    FilledMore(g, d, d1, d2, i, lo, hi, bn);
    if Adds(g, d, i, lo, hi, g.ndirect) {
      AddsIndirect(g, d, d1, i, lo, hi);
    }
    var addr := BlockOf(g, d2, i, bn);
    ExtraNext(g, d, d1, d2, i, lo, hi, bn, addr);
    if g.size <= BPB {
      Regroup(before, BlocksOf(g, d1, i, lo, hi), Extra(g, d, d1, i, lo, hi), NewLogged(g, d1, d2, i, bn, addr),
              Extra(g, d, d2, i, lo, bn + 1), addr, l1, l2);
    }
  }

  lemma Regroup(a: set<nat>, b: set<nat>, e1: set<nat>, n: set<nat>, e2: set<nat>, x: nat, l1: set<nat>, l2: set<nat>)
    requires e2 + {x} == e1 + n + {x} && l1 == a + b + e1 && l2 == l1 + n + {x}
    ensures l2 == a + (b + {x}) + e2
  {
    forall y: nat ensures y in l2 <==> y in a + (b + {x}) + e2 {
      assert y in e2 + {x} <==> y in e1 + n + {x};
    }
  }

  /** Distinct blocks of a file have distinct numbers. */
  lemma {:induction false} BlocksDistinct(g: Geometry, d: Disk, i: nat, lo: nat, hi: nat)
    requires Owned(g, d) && lo <= hi && Spans(g, d, i, lo, hi)
    ensures |BlocksOf(g, d, i, lo, hi)| == hi - lo
    decreases hi - lo
  {
    if lo < hi {
      BlocksDistinct(g, d, i, lo, hi - 1);
      assert MappedAt(g, d, i, hi - 1);
      NotAmong(g, d, i, lo, hi - 1, hi - 1);
      var s, x := BlocksOf(g, d, i, lo, hi - 1), BlockOf(g, d, i, hi - 1);
      assert BlocksOf(g, d, i, lo, hi) == s + {x} && |s + {x}| == |s| + 1;
    }
  }

  lemma {:induction false} NotAmong(g: Geometry, d: Disk, i: nat, lo: nat, hi: nat, bn: nat)
    requires Owned(g, d) && lo <= hi <= bn && Spans(g, d, i, lo, hi) && MappedAt(g, d, i, bn)
    ensures BlockOf(g, d, i, bn) !in BlocksOf(g, d, i, lo, hi)
    decreases hi - lo
  {
    if lo < hi {
      NotAmong(g, d, i, lo, hi - 1, bn);
      assert MappedAt(g, d, i, hi - 1);
      DataSlots(g, bn, hi - 1);
      DataSlots(g, hi - 1, bn);
      assert Slot(g, d, i, DataSlot(g, bn)) && Slot(g, d, i, DataSlot(g, hi - 1));
      assert RefApart(g, d, i, DataSlot(g, bn), i, DataSlot(g, hi - 1));
    }
  }

  lemma WroteNothing(g: Geometry, d: Disk, i: nat, off: nat)
    requires Owned(g, d)
    ensures Wrote(g, d, d, i, off, [])
  {
    forall j: nat, x: nat | j < |d.inodes| && x < g.MaxFile() * BSIZE ensures WroteAt(g, d, d, i, off, [], j, x) {
      assert InodeShape(g, d, j);
    }
  }

  function Resized(d: Disk, i: nat, size: nat): Disk
    requires i < |d.inodes|
  {
    d.(inodes := d.inodes[i := d.inodes[i].(size := size)])
  }

  /** The size plays no part in ownership. */
  lemma ResizedRef(g: Geometry, d: Disk, i: nat, size: nat, j: nat, m: nat)
    requires i < |d.inodes|
    ensures Slot(g, Resized(d, i, size), j, m) <==> Slot(g, d, j, m)
    ensures Slot(g, d, j, m) ==> Ref(g, Resized(d, i, size), j, m) == Ref(g, d, j, m)
  {
  }

  lemma ResizedOwned(g: Geometry, d: Disk, i: nat, size: nat)
    requires Owned(g, d) && i < |d.inodes| && size <= g.MaxFile() * BSIZE
    requires forall j: nat :: j < |d.inodes| ==> InodeOk(g, d, j)
    ensures Owned(g, Resized(d, i, size))
    ensures forall j: nat :: j < |d.inodes| ==> InodeOk(g, Resized(d, i, size), j)
  {
    var d' := Resized(d, i, size);
    forall j: nat | j < |d'.inodes| ensures InodeShape(g, d', j) && InodeOk(g, d', j) {
      assert InodeShape(g, d, j) && InodeOk(g, d, j);
    }
    forall j: nat, m: nat | Slot(g, d', j, m) ensures RefOk(g, d', j, m) {
      ResizedRef(g, d, i, size, j, m);
      assert RefOk(g, d, j, m);
    }
    forall j: nat, m: nat, p: nat, q: nat | Slot(g, d', j, m) && Slot(g, d', p, q)
      ensures RefApart(g, d', j, m, p, q)
    {
      ResizedRef(g, d, i, size, j, m);
      ResizedRef(g, d, i, size, p, q);
      assert RefApart(g, d, j, m, p, q);
    }
    forall c: nat | c < |d'.used| ensures NoLeak(g, d', c) {
      assert NoLeak(g, d, c);
      if j: nat, m: nat :| Refers(g, d, j, m, c) {
        ResizedRef(g, d, i, size, j, m);
        assert Refers(g, d', j, m, c);
      }
    }
  }

  lemma ResizedBlocks(g: Geometry, d: Disk, i: nat, size: nat, lo: nat, hi: nat)
    requires i < |d.inodes| && lo <= hi && Spans(g, d, i, lo, hi)
    ensures var d' := Resized(d, i, size);
      && Spans(g, d', i, lo, hi) && BlocksOf(g, d', i, lo, hi) == BlocksOf(g, d, i, lo, hi)
      && Indirect(g, d', i) == Indirect(g, d, i)
  {
    var d' := Resized(d, i, size);
    forall j: nat, m: nat | Slot(g, d, j, m) ensures KeptRef(g, d, d', j, m) {
      ResizedRef(g, d, i, size, j, m);
    }
    SpansKept(g, d, d', i, lo, hi);
    ResizedRef(g, d, i, size, i, g.ndirect);
  }

  // ---------- The flat view of a write ----------

  /** `c` with `s` at `off`, extended if `s` reaches beyond the end. */
  function Splice(c: seq<Byte>, off: nat, s: seq<Byte>): seq<Byte>
    requires off <= |c|
  {
    c[..off] + s + (if off + |s| < |c| then c[off + |s|..] else [])
  }

  /** Reading back what was written gives it; every other byte is as before, and the file is as long as it
      has to be. */
  lemma ReadBack(c: seq<Byte>, off: nat, s: seq<Byte>, x: nat)
    requires off <= |c|
    ensures Slice(Splice(c, off, s), off, |s|) == s
    ensures |Splice(c, off, s)| == if off + |s| > |c| then off + |s| else |c|
    ensures x < |c| && !(off <= x < off + |s|) ==> Splice(c, off, s)[x] == c[x]
    ensures Slice(c, 0, |c|) == c
  {
  }

  ghost predicate UpdatedAt(g: Geometry, d: Disk, d': Disk, i: nat, off: nat, src: seq<Byte>, j: nat)
    requires j < |d.inodes| && j < |d'.inodes|
  {
    && InodeShape(g, d, j) && InodeShape(g, d', j) && InodeOk(g, d, j) && InodeOk(g, d', j)
    && (j != i ==> Content(g, d', j) == Content(g, d, j))
    && (j == i && off <= d.inodes[i].size ==> Content(g, d', j) == Splice(Content(g, d, j), off, src))
    && (HoleFree(g, d, j) ==> HoleFree(g, d', j))
  }

  /** File `i` has `src` at `off`, every other file is unchanged, and no file has got a hole. */
  ghost predicate Updated(g: Geometry, d: Disk, d': Disk, i: nat, off: nat, src: seq<Byte>) {
    |d'.inodes| == |d.inodes| && forall j: nat :: j < |d.inodes| ==> UpdatedAt(g, d, d', i, off, src, j)
  }

  /** What a write of `n` bytes at `off` logs and which blocks it adds. */
  ghost predicate WroteLogs(g: Geometry, d: Disk, d': Disk, i: nat, off: nat, n: nat, before: set<nat>, logged: set<nat>) {
    var lo, hi := off / BSIZE, Top(off, n);
    && i < |d.inodes| && g.ipb > 0 && Spans(g, d', i, lo, hi) && FilledRange(g, d, d', i, lo, hi)
    && BlocksOf(g, d', i, lo, hi) <= logged
    && (g.size <= BPB ==>
          logged == before + BlocksOf(g, d', i, lo, hi) + Extra(g, d, d', i, lo, hi)
                    + Opt(Enlarges(d, i, off, n), g.InodeBlock(i)))
  }

  lemma LogsDone(g: Geometry, d: Disk, d1: Disk, i: nat, off: nat, src: seq<Byte>, size: nat, before: set<nat>, l1: set<nat>)
    requires Progress(g, d, d1, i, off, src, |src|, before, l1) && i < |d.inodes| && i < |d1.inodes| && g.ipb > 0
    ensures WroteLogs(g, d, Resized(d1, i, size), i, off, |src|, before,
                      l1 + Opt(Enlarges(d, i, off, |src|), g.InodeBlock(i)))
  {
    var d2, lo, hi := Resized(d1, i, size), off / BSIZE, Top(off, |src|);
    ResizedBlocks(g, d1, i, size, lo, hi);
    forall j: nat, bn: nat | j < |d.inodes| && bn < g.MaxFile() ensures FilledAt(g, d, d2, i, lo, hi, j, bn) {
      DataSlots(g, bn, bn);
      assert FilledAt(g, d, d1, i, lo, hi, j, bn);
      ResizedRef(g, d1, i, size, j, DataSlot(g, bn));
    }
  }

  lemma WroteUpdated(g: Geometry, d: Disk, d1: Disk, i: nat, off: nat, src: seq<Byte>, size: nat)
    requires Owned(g, d) && (forall j: nat :: j < |d.inodes| ==> InodeOk(g, d, j))
    requires i < |d.inodes| && Wrote(g, d, d1, i, off, src) && off <= d.inodes[i].size
    requires size == (if off + |src| > d.inodes[i].size then off + |src| else d.inodes[i].size) <= g.MaxFile() * BSIZE
    requires Spans(g, d1, i, off / BSIZE, Top(off, |src|))
    ensures Updated(g, d, Resized(d1, i, size), i, off, src)
  {
    var d' := Resized(d1, i, size);
    forall j: nat | j < |d.inodes| ensures UpdatedAt(g, d, d', i, off, src, j) {
      assert InodeShape(g, d, j) && InodeOk(g, d, j) && SameSize(d, d1, j);
      assert Slot(g, d, j, 0) && KeptRef(g, d, d1, j, 0);
      WroteContent(g, d, d1, i, off, src, size, j);
      if HoleFree(g, d, j) {
        WroteHoleFree(g, d, d1, i, off, src, size, j);
      }
    }
  }

  lemma WroteContent(g: Geometry, d: Disk, d1: Disk, i: nat, off: nat, src: seq<Byte>, size: nat, j: nat)
    requires i < |d.inodes| && Wrote(g, d, d1, i, off, src) && off <= d.inodes[i].size
    requires size == (if off + |src| > d.inodes[i].size then off + |src| else d.inodes[i].size) <= g.MaxFile() * BSIZE
    requires j < |d.inodes| && InodeShape(g, d, j) && InodeOk(g, d, j) && SameSize(d, d1, j) && InodeShape(g, d1, j)
    ensures var d' := Resized(d1, i, size);
      && InodeShape(g, d', j) && InodeOk(g, d', j)
      && Content(g, d', j) == if j == i then Splice(Content(g, d, j), off, src) else Content(g, d, j)
  {
    var d' := Resized(d1, i, size);
    var c, c' := Content(g, d, j), Content(g, d', j);
    forall x: nat | x < |c'|
      ensures c'[x] == if j == i && off <= x < off + |src| then src[x - off] else Peek(g, d, j, x)
    {
      WroteByte(g, d, d1, i, off, src, size, j, x);
    }
    if j == i {
      SpliceIs(c, off, src, c');
    }
  }

  lemma WroteByte(g: Geometry, d: Disk, d1: Disk, i: nat, off: nat, src: seq<Byte>, size: nat, j: nat, x: nat)
    requires i < |d.inodes| && Wrote(g, d, d1, i, off, src) && j < |d.inodes| && x < g.MaxFile() * BSIZE
    requires InodeShape(g, d, j) && InodeShape(g, Resized(d1, i, size), j)
    ensures Peek(g, Resized(d1, i, size), j, x) ==
      if j == i && off <= x < off + |src| then src[x - off] else Peek(g, d, j, x)
  {
    assert WroteAt(g, d, d1, i, off, src, j, x);
    DataSlots(g, x / BSIZE, x / BSIZE);
    assert Slot(g, d1, j, DataSlot(g, x / BSIZE));
    ResizedRef(g, d1, i, size, j, DataSlot(g, x / BSIZE));
  }

  lemma SpliceIs(c: seq<Byte>, off: nat, s: seq<Byte>, r: seq<Byte>)
    requires off <= |c| && |r| == if off + |s| > |c| then off + |s| else |c|
    requires forall x: nat :: x < |r| ==> r[x] == if off <= x < off + |s| then s[x - off] else c[x]
    ensures r == Splice(c, off, s)
  {
  }

  lemma WroteHoleFree(g: Geometry, d: Disk, d1: Disk, i: nat, off: nat, src: seq<Byte>, size: nat, j: nat)
    requires i < |d.inodes| && Wrote(g, d, d1, i, off, src) && off <= d.inodes[i].size
    requires size == if off + |src| > d.inodes[i].size then off + |src| else d.inodes[i].size
    requires j < |d.inodes| && InodeShape(g, d, j) && SameSize(d, d1, j) && InodeShape(g, Resized(d1, i, size), j)
    requires HoleFree(g, d, j) && Spans(g, d1, i, off / BSIZE, Top(off, |src|))
    ensures HoleFree(g, Resized(d1, i, size), j)
  {
    var d' := Resized(d1, i, size);
    forall bn: nat | bn < g.MaxFile() && bn * BSIZE < d'.inodes[j].size ensures Mapped(g, d', j, bn) {
      DataSlots(g, bn, bn);
      var q := DataSlot(g, bn);
      assert Slot(g, d, j, q) && KeptRef(g, d, d1, j, q);
      ResizedRef(g, d1, i, size, j, q);
      if bn * BSIZE < d.inodes[j].size {
        assert Mapped(g, d, j, bn);
      } else {
        assert MappedAt(g, d1, i, bn);
      }
    }
  }

  // ---------- filewrite ----------

  /** The most that `filewrite` writes in one transaction. */
  const CHUNK: nat := (LOGSIZE - 1 - 1 - 2) / 2 * 512

  lemma ChunkSpan(off: nat, n: nat)
    requires n <= CHUNK
    ensures Top(off, n) - off / BSIZE <= 14 && (n == CHUNK ==> Top(off, n) - off / BSIZE >= 13)
  {
  }

  function One(b: bool): nat {
    if b then 1 else 0
  }

  /** How many blocks a write of `n` bytes at `off` logs: the blocks it reaches, the free map if it adds
      one, the indirect block if that gains an entry, and the inode if the file grows. */
  ghost function LogCost(g: Geometry, d: Disk, i: nat, off: nat, n: nat): nat
    requires i < |d.inodes|
  {
    var lo, hi := off / BSIZE, Top(off, n);
    hi - lo + One(Adds(g, d, i, lo, hi, 0)) + One(Adds(g, d, i, lo, hi, g.ndirect)) + One(Enlarges(d, i, off, n))
  }

  /** Data blocks lie behind the metadata, and none of them is the indirect block. */
  lemma {:induction false} DataApart(g: Geometry, d: Disk, i: nat, lo: nat, hi: nat, b: nat)
    requires Owned(g, d) && lo <= hi && Spans(g, d, i, lo, hi) && b in BlocksOf(g, d, i, lo, hi)
    ensures b >= g.meta && b !in Indirect(g, d, i)
    decreases hi - lo
  {
    assert MappedAt(g, d, i, hi - 1);
    if b == BlockOf(g, d, i, hi - 1) {
      DataSlots(g, hi - 1, hi - 1);
      var k := DataSlot(g, hi - 1);
      assert Slot(g, d, i, k) && RefOk(g, d, i, k) && Slot(g, d, i, g.ndirect) && RefApart(g, d, i, k, i, g.ndirect);
    } else {
      DataApart(g, d, i, lo, hi - 1, b);
    }
  }

  lemma IndirectApart(g: Geometry, d: Disk, i: nat)
    requires Owned(g, d)
    ensures |Indirect(g, d, i)| <= 1 && forall b :: b in Indirect(g, d, i) ==> b >= g.meta
  {
    if Slot(g, d, i, g.ndirect) {
      assert RefOk(g, d, i, g.ndirect);
    }
  }

  /** The data blocks and the indirect block are apart, and metadata block `x` is neither. */
  lemma LogsApart(g: Geometry, d: Disk, i: nat, lo: nat, hi: nat, x: nat)
    requires Owned(g, d) && lo <= hi && Spans(g, d, i, lo, hi) && x < g.meta
    ensures BlocksOf(g, d, i, lo, hi) !! Indirect(g, d, i)
    ensures x !in BlocksOf(g, d, i, lo, hi) && x !in Indirect(g, d, i)
  {
    IndirectApart(g, d, i);
    forall b: nat | b in BlocksOf(g, d, i, lo, hi) ensures b >= g.meta && b !in Indirect(g, d, i) {
      DataApart(g, d, i, lo, hi, b);
    }
  }

  lemma AddsIndirect(g: Geometry, d: Disk, d': Disk, i: nat, lo: nat, hi: nat)
    requires Spans(g, d', i, lo, hi) && Adds(g, d, i, lo, hi, g.ndirect)
    ensures Indirect(g, d', i) != {}
  {
    var b: nat :| lo <= b < hi && g.ndirect <= b && !MappedAt(g, d, i, b);
    assert MappedAt(g, d', i, b);
    HasIndirect(g, d', i, b);
  }

  /** The number of blocks a write logs, exactly. */
  lemma LogsExactly(g: Geometry, d: Disk, d': Disk, i: nat, off: nat, n: nat, logged: set<nat>)
    requires Owned(g, d') && i < |d.inodes| && InodeOk(g, d, i) && g.size <= BPB
    requires WroteLogs(g, d, d', i, off, n, {}, logged)
    ensures |logged| == LogCost(g, d, i, off, n)
  {
    var lo, hi := off / BSIZE, Top(off, n);
    BlocksDistinct(g, d', i, lo, hi);
    LogsCounted(g, d', i, lo, hi, Adds(g, d, i, lo, hi, 0), Adds(g, d, i, lo, hi, g.ndirect), Enlarges(d, i, off, n), logged) by {
      if Adds(g, d, i, lo, hi, g.ndirect) {
        AddsIndirect(g, d, d', i, lo, hi);
      }
    }
  }

  lemma LogsCounted(g: Geometry, d: Disk, i: nat, lo: nat, hi: nat, a: bool, e: bool, f: bool, logged: set<nat>)
    requires Owned(g, d) && lo <= hi && Spans(g, d, i, lo, hi) && g.ipb > 0 && g.InodeBlock(i) < g.bmapstart
    requires e ==> Indirect(g, d, i) != {}
    requires logged == {} + BlocksOf(g, d, i, lo, hi) + (Opt(a, g.bmapstart) + if e then Indirect(g, d, i) else {}) + Opt(f, g.InodeBlock(i))
    ensures |logged| == |BlocksOf(g, d, i, lo, hi)| + One(a) + One(e) + One(f)
  {
    LogsApart(g, d, i, lo, hi, g.bmapstart);
    LogsApart(g, d, i, lo, hi, g.InodeBlock(i));
    IndirectApart(g, d, i);
    CountSets(BlocksOf(g, d, i, lo, hi), g.bmapstart, Indirect(g, d, i), g.InodeBlock(i), a, e, f, logged);
  }

  lemma OptSize(s: set<nat>, b: bool, x: nat)
    requires b ==> x !in s
    ensures |s + Opt(b, x)| == |s| + One(b)
  {
    assert !b ==> s + {} == s;
  }

  lemma CountSets(data: set<nat>, bits: nat, t: set<nat>, inode: nat, a: bool, e: bool, f: bool, logged: set<nat>)
    requires bits !in data && inode !in data && bits != inode && data !! t && bits !in t && inode !in t
    requires |t| <= 1 && (e ==> t != {})
    requires logged == {} + data + (Opt(a, bits) + if e then t else {}) + Opt(f, inode)
    ensures |logged| == |data| + One(a) + One(e) + One(f)
  {
    var ind := if e then OnlyMember(t) else 0;
    FlatSets(logged, data, Opt(a, bits), Opt(e, ind), Opt(f, inode));
    OptSize(data, a, bits);
    OptSize(data + Opt(a, bits), e, ind);
    OptSize(data + Opt(a, bits) + Opt(e, ind), f, inode);
  }

  ghost function OnlyMember(t: set<nat>): (x: nat)
    requires t != {} && |t| <= 1
    ensures t == {x}
  {
    var x :| x in t;
    assert t == {x} + (t - {x}) && |t - {x}| == 0;
    x
  }

  lemma FlatSets(l: set<nat>, data: set<nat>, m: set<nat>, s: set<nat>, k: set<nat>)
    requires l == {} + data + (m + s) + k
    ensures l == data + m + s + k
  {
  }

  /** So a chunk of `filewrite` logs between its blocks and three more: at most 17, a full one at least 13. */
  lemma ChunkLogs(g: Geometry, d: Disk, d': Disk, i: nat, off: nat, n: nat, logged: set<nat>)
    requires Owned(g, d') && i < |d.inodes| && InodeOk(g, d, i) && n <= CHUNK
    requires WroteLogs(g, d, d', i, off, n, {}, logged)
    ensures g.size <= BPB ==> |logged| == LogCost(g, d, i, off, n) <= 17
    ensures g.size <= BPB ==> (|logged| <= MAXOPBLOCKS <==> LogCost(g, d, i, off, n) <= MAXOPBLOCKS)
    ensures n == CHUNK ==> |logged| >= 13 > MAXOPBLOCKS
  {
    var lo, hi := off / BSIZE, Top(off, n);
    ChunkSpan(off, n);
    BlocksDistinct(g, d', i, lo, hi);
    SubsetSize(BlocksOf(g, d', i, lo, hi), logged);
    if g.size <= BPB {
      LogsExactly(g, d, d', i, off, n, logged);
    }
  }

  // ---------- The cost by size ----------

  /** The file has exactly the blocks that its size asks for. */
  ghost predicate Snug(g: Geometry, d: Disk, i: nat) {
    i < |d.inodes| && forall bn: nat :: bn < g.MaxFile() ==> SnugAt(g, d, i, bn)
  }

  ghost predicate SnugAt(g: Geometry, d: Disk, i: nat, bn: nat)
    requires i < |d.inodes|
  {
    MappedAt(g, d, i, bn) <==> bn * BSIZE < d.inodes[i].size
  }

  ghost predicate StaysSnug(g: Geometry, d: Disk, d': Disk, j: nat) {
    Snug(g, d, j) ==> Snug(g, d', j)
  }

  lemma SnugKept(g: Geometry, d: Disk, d': Disk, i: nat, off: nat, n: nat, j: nat)
    requires FilledRange(g, d, d', i, off / BSIZE, Top(off, n)) && i < |d.inodes| && j < |d.inodes| && off <= d.inodes[i].size
    requires j != i ==> d'.inodes[j].size == d.inodes[j].size
    requires d'.inodes[i].size == if off + n > d.inodes[i].size then off + n else d.inodes[i].size
    ensures StaysSnug(g, d, d', j)
  {
    var lo, hi := off / BSIZE, Top(off, n);
    if Snug(g, d, j) {
      forall bn: nat | bn < g.MaxFile() ensures SnugAt(g, d', j, bn) {
        assert SnugAt(g, d, j, bn) && FilledAt(g, d, d', i, lo, hi, j, bn);
      }
    }
  }

  lemma SnugTruncated(g: Geometry, d: Disk, d': Disk, i: nat, j: nat)
    requires Owned(g, d) && Owned(g, d') && Truncated(g, d, d', i) && j < |d.inodes|
    ensures StaysSnug(g, d, d', j) && (j == i ==> Snug(g, d', j))
  {
    if j == i || Snug(g, d, j) {
      forall bn: nat | bn < g.MaxFile() ensures SnugAt(g, d', j, bn) {
        DataSlots(g, bn, bn);
        assert InodeShape(g, d', j) && Slot(g, d', j, DataSlot(g, bn));
        TruncatedRef(g, d, d', i, j, DataSlot(g, bn));
        assert j != i ==> SnugAt(g, d, j, bn);
      }
    }
  }

  /** Then offset, length and size decide: a block is added if the last one reached lies behind the end. */
  function CostBySize(ndirect: nat, size: nat, off: nat, n: nat): nat {
    var lo, hi := off / BSIZE, Top(off, n);
    var adds := n > 0 && (hi - 1) * BSIZE >= size;
    hi - lo + One(adds) + One(adds && hi > ndirect) + One(n > 0 && off + n > size)
  }

  lemma LogCostBySize(g: Geometry, d: Disk, i: nat, off: nat, n: nat)
    requires Snug(g, d, i) && off <= d.inodes[i].size && off + n <= g.MaxFile() * BSIZE
    ensures LogCost(g, d, i, off, n) == CostBySize(g.ndirect, d.inodes[i].size, off, n)
  {
    if n > 0 {
      var lo, hi := off / BSIZE, Top(off, n);
      forall bn: nat | lo <= bn < hi ensures MappedAt(g, d, i, bn) <==> bn * BSIZE < d.inodes[i].size {
        assert SnugAt(g, d, i, bn);
      }
      assert lo <= hi - 1 < hi;
      AddsLast(g, d, i, lo, hi, 0);
      AddsLast(g, d, i, lo, hi, g.ndirect);
    }
  }

  lemma AddsLast(g: Geometry, d: Disk, i: nat, lo: nat, hi: nat, from: nat)
    requires lo < hi && i < |d.inodes|
    requires forall bn: nat :: lo <= bn < hi ==> (MappedAt(g, d, i, bn) <==> bn * BSIZE < d.inodes[i].size)
    ensures Adds(g, d, i, lo, hi, from) <==> from <= hi - 1 && (hi - 1) * BSIZE >= d.inodes[i].size
  {
    if from <= hi - 1 && (hi - 1) * BSIZE >= d.inodes[i].size {
      assert !MappedAt(g, d, i, hi - 1);
    }
  }

  /** The longest write that keeps to MAXOPBLOCKS wherever it goes. */
  const SAFE: nat := (MAXOPBLOCKS - 4) * BSIZE + 1

  /** A length is safe at every offset of every file if and only if it is at most SAFE, less than half
      of what `filewrite` takes. */
  lemma SafeLength(ndirect: nat, n: nat)
    ensures n <= SAFE <==> forall size: nat, off: nat :: off <= size ==> CostBySize(ndirect, size, off, n) <= MAXOPBLOCKS
    ensures 2 * SAFE < CHUNK
  {
    if n <= SAFE {
      forall size: nat, off: nat | off <= size ensures CostBySize(ndirect, size, off, n) <= MAXOPBLOCKS {
      }
    } else {
      var off := ndirect * BSIZE + BSIZE - 1;
      assert CostBySize(ndirect, off, off, n) > MAXOPBLOCKS;
    }
  }

  lemma UpdatedNothing(g: Geometry, d: Disk, i: nat, off: nat)
    requires Owned(g, d) && (forall j: nat :: j < |d.inodes| ==> InodeOk(g, d, j))
    ensures Updated(g, d, d, i, off, [])
  {
    forall j: nat | j < |d.inodes| ensures UpdatedAt(g, d, d, i, off, [], j) {
      assert InodeShape(g, d, j) && InodeOk(g, d, j);
      if j == i && off <= d.inodes[i].size {
        SpliceIs(Content(g, d, j), off, [], Content(g, d, j));
      }
    }
  }

  lemma UpdatedSize(g: Geometry, d: Disk, d': Disk, i: nat, off: nat, s: seq<Byte>)
    requires Updated(g, d, d', i, off, s) && i < |d.inodes| && off <= d.inodes[i].size
    ensures off + |s| <= d'.inodes[i].size
  {
    assert UpdatedAt(g, d, d', i, off, s, i);
  }

  lemma UpdatedTrans(g: Geometry, d0: Disk, d1: Disk, d2: Disk, i: nat, off: nat, a: seq<Byte>, b: seq<Byte>)
    requires Updated(g, d0, d1, i, off, a) && Updated(g, d1, d2, i, off + |a|, b) && i < |d0.inodes| && off <= d0.inodes[i].size
    ensures Updated(g, d0, d2, i, off, a + b)
  {
    forall j: nat | j < |d0.inodes| ensures UpdatedAt(g, d0, d2, i, off, a + b, j) {
      assert UpdatedAt(g, d0, d1, i, off, a, j) && UpdatedAt(g, d1, d2, i, off + |a|, b, j);
      if j == i {
        SpliceTwice(Content(g, d0, j), off, a, b);
      }
    }
  }

  lemma SpliceTwice(c: seq<Byte>, off: nat, a: seq<Byte>, b: seq<Byte>)
    requires off <= |c|
    ensures off + |a| <= |Splice(c, off, a)|
    ensures Splice(Splice(c, off, a), off + |a|, b) == Splice(c, off, a + b)
  {
    SpliceIs(c, off, a + b, Splice(Splice(c, off, a), off + |a|, b));
  }

  lemma EmptyOwned(g: Geometry, d: Disk)
    requires g.Valid() && |d.used| == g.size && |d.blocks| == g.size
    requires forall b: nat :: b < g.size ==> d.used[b] == (b < g.meta)
    requires forall i: nat :: i < |d.inodes| ==> d.inodes[i] == Inode(0, seq(g.ndirect + 1, _ => 0))
    requires forall i: nat :: i < |d.inodes| ==> g.InodeBlock(i) < g.bmapstart
    ensures Owned(g, d) && forall i: nat :: i < |d.inodes| ==> InodeOk(g, d, i)
  {
    forall i: nat, k: nat | Slot(g, d, i, k) ensures Ref(g, d, i, k) == 0 {
      assert d.inodes[i] == Inode(0, seq(g.ndirect + 1, _ => 0));
    }
    forall i: nat, k: nat | Slot(g, d, i, k) ensures RefOk(g, d, i, k) {
    }
    forall i: nat, k: nat, j: nat, m: nat | Slot(g, d, i, k) && Slot(g, d, j, m) ensures RefApart(g, d, i, k, j, m) {
    }
  }

  class Fs {
    const g: Geometry
    var used: seq<bool>
    var blocks: seq<Block>
    var inodes: seq<Inode>
    ghost var logged: set<nat>

    ghost function D(): Disk
      reads this
    {
      Disk(used, blocks, inodes)
    }

    ghost predicate Valid()
      reads this
    {
      Owned(g, D()) && forall i: nat :: i < |inodes| ==> InodeOk(g, D(), i)
    }

    /** An empty disk: only the metadata blocks are in use. */
    constructor (g: Geometry, ninodes: nat)
      requires g.Valid() && forall i: nat :: i < ninodes ==> g.InodeBlock(i) < g.bmapstart
      ensures this.g == g && Valid() && |inodes| == ninodes && logged == {}
      ensures forall i: nat :: i < ninodes ==> inodes[i] == Inode(0, seq(g.ndirect + 1, _ => 0)) && Snug(g, D(), i)
    {
      this.g := g;
      used := seq(g.size, b requires 0 <= b < g.size => b < g.meta);
      blocks := seq(g.size, _ => Zero());
      inodes := seq(ninodes, _ => Inode(0, seq(g.ndirect + 1, _ => 0)));
      logged := {};
      new;
      EmptyOwned(g, D());
      forall i: nat, bn: nat | i < ninodes && bn < g.MaxFile() ensures SnugAt(g, D(), i, bn) {
        assert InodeShape(g, D(), i);
      }
    }

    /** The first free block, zeroed; or a panic when there is none. */
    method Balloc() returns (ok: bool, b: nat)
      requires g.Valid() && |used| == g.size && |blocks| == g.size
      modifies this
      ensures inodes == old(inodes)
      ensures ok <==> exists a: nat :: a < g.size && !old(used)[a]
      ensures !ok ==> used == old(used) && blocks == old(blocks)
      ensures ok ==> b < g.size && !old(used)[b] && (forall a :: 0 <= a < b ==> old(used)[a])
      ensures ok ==> used == old(used)[b := true] && blocks == old(blocks)[b := Zero()]
      ensures ok ==> logged == old(logged) + {g.bmapstart + b / BPB, b}
    {
      b := 0;
      while b < g.size
        invariant forall a :: 0 <= a < b && a < g.size ==> used[a]
        invariant used == old(used) && blocks == old(blocks) && inodes == old(inodes) && logged == old(logged)
      {
        var bi := 0;
        while bi < BPB && b + bi < g.size
          invariant bi <= BPB && forall a :: 0 <= a < b + bi && a < g.size ==> used[a]
          invariant used == old(used) && blocks == old(blocks) && inodes == old(inodes) && logged == old(logged)
        {
          if !used[b + bi] {
            b := b + bi;
            used := used[b := true];
            logged := logged + {g.bmapstart + b / BPB};
            blocks := blocks[b := Zero()];
            logged := logged + {b};
            return true, b;
          }
          bi := bi + 1;
        }
        b := b + BPB;
      }
      return false, 0;
    }

    /** A panic when the block is already free. */
    method Bfree(b: nat) returns (ok: bool)
      requires g.Valid() && |used| == g.size && b < g.size
      modifies `used, `logged
      ensures ok <==> old(used)[b]
      ensures ok ==> used == old(used)[b := false] && logged == old(logged) + {g.bmapstart + b / BPB}
    {
      if !used[b] {
        return false;
      }
      used := used[b := false];
      logged := logged + {g.bmapstart + b / BPB};
      return true;
    }

    /** The block of `addrs[k]`, allocated if there is none. */
    method Direct(i: nat, k: nat) returns (ok: bool, addr: nat)
      requires Valid() && i < |inodes| && k <= g.ndirect
      modifies this
      ensures !ok ==> |used| == g.size && forall a :: 0 <= a < g.size ==> used[a]
      ensures ok ==> Valid() && Kept(g, old(D()), D()) && Refers(g, D(), i, k, addr) && 0 < addr < g.size
      ensures InodeShape(g, old(D()), i)
      ensures Ref(g, old(D()), i, k) != 0 ==> ok && D() == old(D()) && logged == old(logged)
      ensures ok ==> Filled(g, old(D()), D(), i, k) && old(logged) <= logged
      ensures ok && g.size <= BPB ==> logged == old(logged) + if Ref(g, old(D()), i, k) != 0 then {} else {g.bmapstart, addr}
    {
      assert InodeShape(g, D(), i);
      assert Slot(g, D(), i, k) && RefOk(g, D(), i, k);
      addr := inodes[i].addrs[k];
      if addr == 0 {
        ok, addr := NewDirect(i, k);
      } else {
        KeptRefl(g, D());
        FilledRefl(g, D(), i, k);
        ok := true;
      }
    }

    method NewDirect(i: nat, k: nat) returns (ok: bool, addr: nat)
      requires Valid() && i < |inodes| && k <= g.ndirect && Refers(g, D(), i, k, 0)
      modifies this
      ensures !ok ==> |used| == g.size && forall a :: 0 <= a < g.size ==> used[a]
      ensures ok ==> Valid() && Kept(g, old(D()), D()) && Refers(g, D(), i, k, addr) && 0 < addr < g.size
      ensures ok ==> Filled(g, old(D()), D(), i, k) && old(logged) <= logged
      ensures ok && g.size <= BPB ==> logged == old(logged) + {g.bmapstart, addr}
    {
      ghost var d := D();
      ok, addr := Balloc();
      if !ok {
        return;
      }
      inodes := inodes[i := inodes[i].(addrs := inodes[i].addrs[k := addr])];
      GiveAddrKept(g, d, i, k, addr);
      assert D() == GiveAddr(d, i, k, addr);
      SizesKept(g, d, D());
      assert g.size <= BPB ==> addr / BPB == 0;
    }

    /** Block `bn` of a file, allocated if there is none. A panic when `bn` is out of range or no block
        is free. */
    method Bmap(i: nat, bn: nat) returns (ok: bool, addr: nat)
      requires Valid() && i < |inodes|
      modifies this
      ensures !ok && bn < g.MaxFile() ==> |used| == g.size && forall a :: 0 <= a < g.size ==> used[a]
      ensures ok ==> Valid() && Kept(g, old(D()), D()) && bn < g.MaxFile()
      ensures ok ==> Refers(g, D(), i, DataSlot(g, bn), addr) && 0 < addr < g.size
      ensures InodeShape(g, old(D()), i)
      ensures bn < g.MaxFile() && Mapped(g, old(D()), i, bn) ==> ok && D() == old(D()) && logged == old(logged)
      ensures ok ==> FilledRange(g, old(D()), D(), i, bn, bn + 1) && old(logged) <= logged
      ensures ok && g.size <= BPB ==> logged == old(logged) + NewLogged(g, old(D()), D(), i, bn, addr)
    {
      assert InodeShape(g, D(), i);
      if bn < g.ndirect {
        ok, addr := Direct(i, bn);
        if ok {
          FilledBlock(g, old(D()), old(D()), D(), i, bn);
        }
        return;
      }
      var j := bn - g.ndirect;
      if j >= NINDIRECT {
        return false, 0;
      }
      ghost var d := D();
      var t;
      ok, t := Direct(i, g.ndirect);
      if !ok {
        return false, 0;
      }
      ghost var d1 := D();
      assert Slot(g, d, i, DataSlot(g, bn)) && FilledSlot(g, d, d1, i, g.ndirect, i, DataSlot(g, bn));
      ok, addr := Entry(i, t, j);
      if ok {
        KeptTrans(g, d, d1, D());
        FilledBlock(g, d, d1, D(), i, bn);
      }
    }

    /** Entry `j` of the indirect block `t`, allocated if there is none. */
    method Entry(i: nat, t: nat, j: nat) returns (ok: bool, addr: nat)
      requires Valid() && i < |inodes| && j < NINDIRECT && Refers(g, D(), i, g.ndirect, t) && 0 < t < g.size
      modifies this
      ensures !ok ==> |used| == g.size && forall a :: 0 <= a < g.size ==> used[a]
      ensures ok ==> Valid() && Kept(g, old(D()), D()) && Refers(g, D(), i, g.ndirect + 1 + j, addr) && 0 < addr < g.size
      ensures InodeShape(g, old(D()), i)
      ensures Ref(g, old(D()), i, g.ndirect + 1 + j) != 0 ==> ok && D() == old(D()) && logged == old(logged)
      ensures ok ==> Filled(g, old(D()), D(), i, g.ndirect + 1 + j) && old(logged) <= logged
      ensures ok && g.size <= BPB ==>
        logged == old(logged) + if Ref(g, old(D()), i, g.ndirect + 1 + j) != 0 then {} else {g.bmapstart, addr, t}
      ensures ok ==> Refers(g, D(), i, g.ndirect, t)
    {
      ghost var d := D();
      KeptRefl(g, d);
      addr := Word(blocks[t], j);
      assert addr == Ref(g, d, i, g.ndirect + 1 + j);
      if addr == 0 {
        ok, addr := Balloc();
        if !ok {
          return;
        }
        blocks := blocks[t := PutWord(blocks[t], j, addr)];
        logged := logged + {t};
        GiveEntryKept(g, d, i, j, addr);
        assert D() == GiveEntry(d, t, j, addr);
        SizesKept(g, d, D());
        assert g.size <= BPB ==> addr / BPB == 0;
        assert Slot(g, d, i, g.ndirect) && KeptRef(g, d, D(), i, g.ndirect);
      } else {
        assert Slot(g, d, i, g.ndirect + 1 + j) && RefOk(g, d, i, g.ndirect + 1 + j);
        FilledRefl(g, d, i, g.ndirect + 1 + j);
      }
      return true, addr;
    }

    // ---------- itrunc ----------

    /** Free the block of slot `k`, if it has one; the slots in `done` have been freed before. */
    method FreeSlot(b: nat, ghost d: Disk, ghost i: nat, ghost done: set<nat>, ghost k: nat)
      requires Owned(g, d) && Slot(g, d, i, k) && b == Ref(g, d, i, k) && k !in done
      requires |used| == g.size && FreedSlots(g, d, used, i, done)
      modifies `used, `logged
      ensures |used| == g.size && FreedSlots(g, d, used, i, done + {k})
    {
      FreeNext(g, d, used, i, done, k);
      if b != 0 {
        var ok := Bfree(b);
        assert ok;
      }
    }

    method FreeDirects(i: nat)
      requires Valid() && i < |inodes|
      modifies `used, `inodes, `logged
      ensures Owned(g, old(D())) && |used| == g.size && InodeShape(g, old(D()), i)
      ensures FreedSlots(g, old(D()), used, i, Range(0, g.ndirect))
      ensures inodes == old(inodes)[i := old(inodes)[i].(addrs := Cleared(old(inodes)[i].addrs, g.ndirect))]
    {
      ghost var d := D();
      assert InodeShape(g, d, i);
      ghost var addrs := d.inodes[i].addrs;
      ClearedNext(addrs, 0);
      for k := 0 to g.ndirect
        invariant |used| == g.size && FreedSlots(g, d, used, i, Range(0, k))
        invariant inodes == d.inodes[i := d.inodes[i].(addrs := Cleared(addrs, k))]
      {
        ClearedNext(addrs, k);
        var b := inodes[i].addrs[k];
        assert Slot(g, d, i, k);
        FreeSlot(b, d, i, Range(0, k), k);
        assert Range(0, k) + {k} == Range(0, k + 1);
        if b != 0 {
          inodes := inodes[i := inodes[i].(addrs := inodes[i].addrs[k := 0])];
        }
      }
    }

    method FreeEntries(t: nat, ghost d: Disk, ghost i: nat, ghost before: set<nat>) returns (ghost done: set<nat>)
      requires Owned(g, d) && Refers(g, d, i, g.ndirect, t) && 0 < t < g.size && blocks == d.blocks
      requires |used| == g.size && FreedSlots(g, d, used, i, before) && forall k :: k in before ==> k < g.ndirect
      modifies `used, `logged
      ensures |used| == g.size && FreedSlots(g, d, used, i, done)
      ensures done == before + Range(g.ndirect + 1, g.Slots())
    {
      done := before;
      for j := 0 to NINDIRECT
        invariant |used| == g.size && FreedSlots(g, d, used, i, done)
        invariant done == before + Range(g.ndirect + 1, g.ndirect + 1 + j)
      {
        var b := Word(blocks[t], j);
        ghost var k := g.ndirect + 1 + j;
        assert Slot(g, d, i, k);
        FreeSlot(b, d, i, done, k);
        done := done + {k};
      }
    }

    method FreeAll(i: nat)
      requires Valid() && i < |inodes|
      modifies `used, `inodes, `logged
      ensures |used| == g.size && InodeShape(g, old(D()), i)
      ensures forall c: nat :: c < g.size ==> used[c] == (old(used)[c] && !Mine(g, old(D()), i, c))
      ensures inodes == old(inodes)[i := old(inodes)[i].(addrs := seq(g.ndirect + 1, _ => 0))]
    {
      ghost var d := D();
      assert InodeShape(g, d, i);
      FreeDirects(i);
      ghost var done := Range(0, g.ndirect);
      ClearedNext(d.inodes[i].addrs, g.ndirect);
      var t := inodes[i].addrs[g.ndirect];
      assert Slot(g, d, i, g.ndirect) && RefOk(g, d, i, g.ndirect);
      if t != 0 {
        done := FreeEntries(t, d, i, done);
        FreeSlot(t, d, i, done, g.ndirect);
        done := done + {g.ndirect};
        inodes := inodes[i := inodes[i].(addrs := inodes[i].addrs[g.ndirect := 0])];
      }
      AllFreed(g, d, used, i, done, t);
    }

    /** All blocks of the file are freed, each once, and the file is empty. */
    method Itrunc(i: nat)
      requires Valid() && i < |inodes|
      modifies this
      ensures Valid() && Truncated(g, old(D()), D(), i)
      ensures Snug(g, D(), i) && forall j: nat :: j < |inodes| ==> StaysSnug(g, old(D()), D(), j)
    {
      ghost var d := D();
      FreeAll(i);
      inodes := inodes[i := inodes[i].(size := 0)];
      logged := logged + {g.InodeBlock(i)};
      assert inodes == d.inodes[i := Inode(0, seq(g.ndirect + 1, _ => 0))];
      forall c: nat | c < |d.used| ensures TruncatedAt(g, d, D(), i, c) {
      }
      TruncatedOwned(g, d, D(), i);
      forall j: nat | j < |inodes| ensures InodeOk(g, D(), j) && StaysSnug(g, d, D(), j) {
        assert InodeOk(g, d, j);
        SnugTruncated(g, d, D(), i, j);
      }
      SnugTruncated(g, d, D(), i, i);
    }

    // ---------- readi and writei ----------

    /** The bytes of the file from `off` on, as far as there are any. Files without holes are read
        without a change. */
    method Readi(i: nat, off: nat, n: nat) returns (r: Result)
      requires Valid() && i < |inodes| && off < WRAP && n < WRAP
      modifies this
      ensures InodeShape(g, old(D()), i) && InodeOk(g, old(D()), i)
      ensures r.Refused? <==> off > old(inodes)[i].size || off + n >= WRAP
      ensures r.Refused? ==> D() == old(D())
      ensures r.Bytes? ==> Valid() && Kept(g, old(D()), D())
      ensures r.Bytes? ==> r.bytes == Slice(Content(g, old(D()), i), off, n)
      ensures r.Panic? ==> |used| == g.size && forall a :: 0 <= a < g.size ==> used[a]
      ensures HoleFree(g, old(D()), i) ==> !r.Panic? && D() == old(D())
    {
      ghost var d := D();
      assert InodeShape(g, d, i) && InodeOk(g, d, i);
      if off > inodes[i].size || (off + n) % WRAP < off {
        return Refused;
      }
      var len := if off + n > inodes[i].size then inodes[i].size - off else n;
      var data: seq<Byte> := [];
      KeptRefl(g, d);
      while |data| < len
        invariant Valid() && Kept(g, d, D()) && |data| <= len && off + len <= d.inodes[i].size
        invariant forall x: nat :: x < |data| ==> ReadAt(g, d, i, off, data, x)
        invariant HoleFree(g, d, i) ==> D() == d
        decreases len - |data|
      {
        ghost var here := data;
        var ok, more := ReadBlock(i, off + |data|, len - |data|, d);
        if !ok {
          return Panic;
        }
        data := data + more;
        forall x: nat | x < |data| ensures ReadAt(g, d, i, off, data, x) {
          if x < |here| {
            assert ReadAt(g, d, i, off, here, x);
          } else {
            assert ReadAt(g, d, i, off + |here|, more, x - |here|);
          }
        }
      }
      ContentSlice(g, d, i, off, n, data);
      return Bytes(data);
    }

    /** The part of a read that lies in one block. */
    method ReadBlock(i: nat, off: nat, len: nat, ghost d: Disk) returns (ok: bool, data: seq<Byte>)
      requires Valid() && i < |inodes| && Owned(g, d) && Kept(g, d, D()) && i < |d.inodes|
      requires InodeShape(g, d, i) && InodeOk(g, d, i) && len > 0 && off + len <= d.inodes[i].size
      modifies this
      ensures ok ==> Valid() && Kept(g, d, D()) && 0 < |data| <= len
      ensures ok ==> forall x: nat :: x < |data| ==> ReadAt(g, d, i, off, data, x)
      ensures !ok ==> |used| == g.size && forall a :: 0 <= a < g.size ==> used[a]
      ensures HoleFree(g, d, i) && old(D()) == d ==> ok && D() == d
    {
      var bn := off / BSIZE;
      ghost var d1 := D();
      assert HoleFree(g, d, i) ==> Mapped(g, d, i, bn);
      var addr;
      ok, addr := Bmap(i, bn);
      if !ok {
        return false, [];
      }
      KeptTrans(g, d, d1, D());
      var m := if len < BSIZE - off % BSIZE then len else BSIZE - off % BSIZE;
      data := blocks[addr][off % BSIZE..off % BSIZE + m];
      forall x: nat | x < m ensures ReadAt(g, d, i, off, data, x) {
        assert KeptByte(g, d, D(), i, off + x);
        assert (off + x) / BSIZE == bn && (off + x) % BSIZE == off % BSIZE + x;
      }
    }

    /** The part of a write that lies in one block. */
    method WriteBlock(i: nat, off: nat, src: seq<Byte>) returns (ok: bool, m: nat)
      requires Valid() && i < |inodes| && src != [] && off + |src| <= g.MaxFile() * BSIZE
      modifies this
      ensures !ok ==> |used| == g.size && forall a :: 0 <= a < g.size ==> used[a]
      ensures ok ==> Valid() && 0 < m <= |src| && off % BSIZE + m <= BSIZE && Wrote(g, old(D()), D(), i, off, src[..m])
      ensures ok ==> WroteBlock(g, old(D()), D(), i, off / BSIZE, old(logged), logged)
    {
      var bn, at := off / BSIZE, off % BSIZE;
      ghost var d := D();
      var addr;
      ok, addr := Bmap(i, bn);
      m := if |src| < BSIZE - at then |src| else BSIZE - at;
      if !ok {
        return;
      }
      ghost var d1 := D();
      assert addr == BlockOf(g, d1, i, bn);
      blocks := blocks[addr := PutBytes(blocks[addr], at, src[..m])];
      logged := logged + {addr};
      assert D() == PutBlock(d1, addr, at, src[..m]);
      PutOwned(g, d1, i, bn, at, src[..m]);
      PutWrote(g, d, d1, i, bn, at, src[..m]);
      PutFilled(g, d, d1, i, bn, at, src[..m]);
      forall j: nat | j < |inodes| ensures InodeOk(g, D(), j) {
        assert InodeOk(g, d1, j);
      }
    }

    /** The blocks of a write, one after the other. */
    method WriteAll(i: nat, off: nat, src: seq<Byte>) returns (ok: bool)
      requires Valid() && i < |inodes| && off + |src| <= g.MaxFile() * BSIZE
      modifies this
      ensures !ok ==> |used| == g.size && forall a :: 0 <= a < g.size ==> used[a]
      ensures ok ==> Valid() && Progress(g, old(D()), D(), i, off, src, |src|, old(logged), logged)
    {
      ghost var d := D();
      WroteNothing(g, d, i, off);
      assert InodeShape(g, d, i);
      var k := 0;
      assert src[..0] == [];
      assert !Adds(g, d, i, off / BSIZE, Top(off, 0), 0) && !Adds(g, d, i, off / BSIZE, Top(off, 0), g.ndirect);
      while k < |src|
        invariant Valid() && Progress(g, d, D(), i, off, src, k, old(logged), logged)
      {
        ghost var d1, before := D(), logged;
        var m;
        ok, m := WriteBlock(i, off + k, src[k..]);
        if !ok {
          return;
        }
        ProgressStep(g, d, d1, D(), i, off, src, k, m, old(logged), before, logged);
        k := k + m;
      }
      return true;
    }

    /** The bytes at `off` are replaced, the file grows if need be, and no other file changes. */
    method Writei(i: nat, off: nat, src: seq<Byte>) returns (r: Result)
      requires Valid() && i < |inodes| && off < WRAP && |src| < WRAP
      modifies this
      ensures InodeShape(g, old(D()), i) && InodeOk(g, old(D()), i)
      ensures r.Refused? <==> off > old(inodes)[i].size || off + |src| >= WRAP || off + |src| > g.MaxFile() * BSIZE
      ensures r.Refused? ==> D() == old(D()) && logged == old(logged)
      ensures r.Panic? ==> |used| == g.size && forall a :: 0 <= a < g.size ==> used[a]
      ensures r.Bytes? ==> Valid() && Updated(g, old(D()), D(), i, off, src)
      ensures r.Bytes? ==> WroteLogs(g, old(D()), D(), i, off, |src|, old(logged), logged)
      ensures r.Bytes? ==> forall j: nat :: j < |inodes| ==> StaysSnug(g, old(D()), D(), j)
    {
      ghost var d := D();
      assert InodeShape(g, d, i) && InodeOk(g, d, i);
      if off > inodes[i].size || (off + |src|) % WRAP < off {
        return Refused;
      }
      if off + |src| > g.MaxFile() * BSIZE {
        return Refused;
      }
      var ok := WriteAll(i, off, src);
      if !ok {
        return Panic;
      }
      ghost var d1, l1 := D(), logged;
      assert SameSize(d, d1, i) && src[..|src|] == src;
      var size := inodes[i].size;
      if |src| > 0 && off + |src| > inodes[i].size {
        size := off + |src|;
        Grow(i, size);
      } else {
        assert inodes[i := inodes[i].(size := size)] == inodes;
      }
      WroteUpdated(g, d, d1, i, off, src, size);
      LogsDone(g, d, d1, i, off, src, size, old(logged), l1);
      forall j: nat | j < |inodes| ensures StaysSnug(g, d, D(), j) {
        assert SameSize(d, d1, j);
        SnugKept(g, d, D(), i, off, |src|, j);
      }
      return Bytes(src);
    }

    /** Record a new size. */
    method Grow(i: nat, size: nat)
      requires Valid() && i < |inodes| && size <= g.MaxFile() * BSIZE
      modifies `inodes, `logged
      ensures Valid() && D() == Resized(old(D()), i, size) && logged == old(logged) + {g.InodeBlock(i)}
    {
      ghost var d := D();
      inodes := inodes[i := inodes[i].(size := size)];
      logged := logged + {g.InodeBlock(i)};
      ResizedOwned(g, d, i, size);
    }

    // ---------- filewrite ----------

    /** A chunk of `filewrite`, in a transaction of its own. How many blocks are logged follows from
        offset, length and size when the free map is one block. */
    method WriteChunk(i: nat, off: nat, src: seq<Byte>) returns (r: Result)
      requires Valid() && i < |inodes| && off < WRAP && |src| <= CHUNK
      modifies this
      ensures InodeShape(g, old(D()), i) && InodeOk(g, old(D()), i)
      ensures r.Refused? <==> off > old(inodes)[i].size || off + |src| >= WRAP || off + |src| > g.MaxFile() * BSIZE
      ensures r.Refused? ==> D() == old(D())
      ensures r.Panic? ==> |used| == g.size && forall a :: 0 <= a < g.size ==> used[a]
      ensures r.Bytes? ==> Valid() && Updated(g, old(D()), D(), i, off, src)
      ensures r.Bytes? && g.size <= BPB ==> |logged| == LogCost(g, old(D()), i, off, |src|) <= 17
      ensures r.Bytes? && g.size <= BPB && Snug(g, old(D()), i) ==>
        |logged| == CostBySize(g.ndirect, old(inodes)[i].size, off, |src|)
      ensures r.Bytes? && |src| == CHUNK ==> |logged| >= 13
      ensures r.Bytes? ==> forall j: nat :: j < |inodes| ==> StaysSnug(g, old(D()), D(), j)
    {
      ghost var d := D();
      logged := {};
      r := Writei(i, off, src);
      if r.Bytes? {
        ChunkLogs(g, d, D(), i, off, |src|, logged);
        if Snug(g, d, i) {
          LogCostBySize(g, d, i, off, |src|);
        }
      }
    }

    /** `filewrite` on an inode: the data goes in chunk by chunk, until one is refused. */
    method Filewrite(i: nat, start: nat, addr: seq<Byte>) returns (panic: bool, off: nat, done: nat)
      requires Valid() && i < |inodes| && start < WRAP
      modifies this
      ensures InodeShape(g, old(D()), i) && InodeOk(g, old(D()), i)
      ensures panic ==> |used| == g.size && forall a :: 0 <= a < g.size ==> used[a]
      ensures !panic ==> Valid() && done <= |addr| && off == start + done
      ensures !panic ==> Updated(g, old(D()), D(), i, start, addr[..done])
      ensures !panic && done < |addr| ==>
        var n := if |addr| - done > CHUNK then CHUNK else |addr| - done;
        start > old(inodes)[i].size || off + n >= WRAP || off + n > g.MaxFile() * BSIZE
      ensures !panic && start > old(inodes)[i].size ==> done == 0
      ensures !panic && Snug(g, old(D()), i) ==> Snug(g, D(), i)
    {
      ghost var d := D();
      assert InodeShape(g, d, i) && InodeOk(g, d, i);
      off, done := start, 0;
      UpdatedNothing(g, d, i, start);
      assert addr[..0] == [];
      while done < |addr|
        invariant Valid() && i < |inodes| && done <= |addr| && off == start + done && off < WRAP
        invariant Updated(g, d, D(), i, start, addr[..done])
        invariant if done == 0 then D() == d else start <= d.inodes[i].size
        invariant StaysSnug(g, d, D(), i)
        decreases |addr| - done
      {
        ghost var d1 := D();
        if start <= d.inodes[i].size {
          UpdatedSize(g, d, d1, i, start, addr[..done]);
        }
        var n := if |addr| - done > CHUNK then CHUNK else |addr| - done;
        var r := WriteChunk(i, off, addr[done..done + n]);
        if r.Refused? {
          return false, off, done;
        }
        if r.Panic? {
          return true, off, done;
        }
        assert StaysSnug(g, d1, D(), i);
        UpdatedTrans(g, d, d1, D(), i, start, addr[..done], addr[done..done + n]);
        assert addr[..done] + addr[done..done + n] == addr[..done + n];
        off, done := off + n, done + n;
      }
      return false, off, done;
    }
  }
}
