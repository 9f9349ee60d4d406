/** The NUFS disk image: bitmaps of bitmap.c, an inode table, and files that are chains of inodes with
    one block each. */
module NufsModel {
  import opened Common

  const BLOCK_SIZE: nat := 4096
  const BLOCK_COUNT: nat := 256
  /** SIZE in inode.c: inodes that get_inode accepts. */
  const INODES: nat := 64
  const ROOT_INODE: nat := 1
  /** Blocks 0 to 4 hold the bitmaps and the inode table. */
  const METADATA: nat := 5

  type Byte = bv8
  type Block = b: seq<Byte> | |b| == BLOCK_SIZE witness seq(BLOCK_SIZE, _ => 0)
  type Bitmap = seq<bv8>

  /** next is -1 at the end of a chain. */
  datatype INode = INode(size: int, block: int, next: int)

  // ---------------------------------------------------------------- bitmap.c

  function Mask(i: nat): bv8 {
    match i % 8
    case 0 => 1 case 1 => 2 case 2 => 4 case 3 => 8
    case 4 => 16 case 5 => 32 case 6 => 64 case _ => 128
  }

  predicate HasBit(b: bv8, i: nat) { b & Mask(i) != 0 }

  function WithBit(b: bv8, i: nat, v: bool): bv8 { if v then b | Mask(i) else b & !Mask(i) }

  function Get(bm: Bitmap, i: nat): bool
    requires i / 8 < |bm|
  {
    HasBit(bm[i / 8], i)
  }

  function Put(bm: Bitmap, i: nat, v: bool): (r: Bitmap)
    requires i / 8 < |bm|
    ensures |r| == |bm|
  {
    bm[i / 8 := WithBit(bm[i / 8], i, v)]
  }

  /** One bit changes and no other does. */
  lemma GetPut(bm: Bitmap, i: nat, v: bool, j: nat)
    requires i / 8 < |bm| && j / 8 < |bm|
    ensures Get(Put(bm, i, v), j) == if i == j then v else Get(bm, j)
    ensures Get(bm, j) <==> (bm[j / 8] >> (j % 8)) & 1 == 1
  {}

  // ---------------------------------------------------------------- a file as flat bytes

  /** The first n bytes stored in the blocks listed. */
  function Flat(bl: seq<Block>, bs: seq<nat>, n: nat): (s: seq<Byte>)
    requires n <= |bs| * BLOCK_SIZE && forall k :: 0 <= k < |bs| ==> bs[k] < |bl|
    ensures |s| == n && forall o :: 0 <= o < n ==>
      o / 4096 < |bs| && s[o] == bl[bs[o / 4096]][o % 4096]
  {
    seq(n, o requires 0 <= o < n => bl[bs[o / BLOCK_SIZE]][o % BLOCK_SIZE])
  }

  /** s with d in place of the bytes from o on. */
  function Over(s: seq<Byte>, o: nat, d: seq<Byte>): (r: seq<Byte>)
    requires o + |d| <= |s|
    ensures |r| == |s| && forall i :: 0 <= i < |s| ==> r[i] == if o <= i < o + |d| then d[i - o] else s[i]
  {
    s[..o] + d + s[o + |d|..]
  }

  function Patch(b: Block, p: nat, d: seq<Byte>): (r: Block)
    requires p + |d| <= BLOCK_SIZE
    ensures forall i :: 0 <= i < BLOCK_SIZE ==> r[i] == if p <= i < p + |d| then d[i - p] else b[i]
  {
    b[..p] + d + b[p + |d|..]
  }

  lemma OffsetIn(k: nat, p: nat)
    requires p < BLOCK_SIZE
    ensures (k * BLOCK_SIZE + p) / BLOCK_SIZE == k && (k * BLOCK_SIZE + p) % BLOCK_SIZE == p
  {}

  /** A piece copied into block k of a file replaces just those bytes of the file. */
  lemma PatchFlat(bl: seq<Block>, bs: seq<nat>, n: nat, k: nat, p: nat, d: seq<Byte>)
    requires n <= |bs| * BLOCK_SIZE && (forall j :: 0 <= j < |bs| ==> bs[j] < |bl|)
    requires (forall i, j :: 0 <= i < j < |bs| ==> bs[i] != bs[j])
    requires k < |bs| && p + |d| <= BLOCK_SIZE && k * BLOCK_SIZE + p + |d| <= n
    ensures Flat(bl[bs[k] := Patch(bl[bs[k]], p, d)], bs, n) == Over(Flat(bl, bs, n), k * BLOCK_SIZE + p, d)
  {}

  /** A change to a block of another file changes nothing here. */
  lemma FlatFrame(bl: seq<Block>, bl': seq<Block>, bs: seq<nat>, n: nat)
    requires n <= |bs| * BLOCK_SIZE && |bl'| == |bl|
    requires (forall j :: 0 <= j < |bs| ==> bs[j] < |bl| && bl'[bs[j]] == bl[bs[j]])
    ensures Flat(bl', bs, n) == Flat(bl, bs, n)
  {}

  // ---------------------------------------------------------------- the image

  /** The two bitmaps, the inode table and the blocks. */
  datatype Image = Image(ibm: Bitmap, bbm: Bitmap, inodes: seq<INode>, blocks: seq<Block>)

  predicate Sized(m: Image) {
    |m.ibm| == 8 && |m.bbm| == 32 && |m.inodes| == INODES && |m.blocks| == BLOCK_COUNT
  }

  /** Inode i is in use. */
  predicate Used(m: Image, i: nat)
    requires Sized(m)
  {
    i < INODES && Get(m.ibm, i)
  }

  /** Every inode in use has a block of its own, marked in the block bitmap. */
  predicate BlocksOwned(m: Image)
    requires Sized(m)
  {
    && (forall i :: 0 <= i < INODES && Used(m, i) ==>
         METADATA <= m.inodes[i].block < BLOCK_COUNT && Get(m.bbm, m.inodes[i].block))
    && (forall i, j :: 0 <= i < j < INODES && Used(m, i) && Used(m, j) ==> m.inodes[i].block != m.inodes[j].block)
  }

  /** Besides those, exactly the metadata blocks are marked. */
  predicate NoneLeaked(m: Image)
    requires Sized(m)
  {
    && (forall b :: 0 <= b < BLOCK_COUNT && Get(m.bbm, b) ==> b < METADATA || BlockOf(m, b))
    && (forall b :: 0 <= b < METADATA ==> Get(m.bbm, b))
  }

  predicate BlockOf(m: Image, b: nat)
    requires Sized(m)
  {
    exists i :: 0 <= i < INODES && Used(m, i) && m.inodes[i].block == b
  }

  /** Nodes a file of n bytes has: one even when it is empty. */
  function ChainLen(n: nat): (k: nat)
    ensures k >= 1 && n <= k * BLOCK_SIZE && (k > 1 ==> (k - 1) * BLOCK_SIZE < n)
  {
    if n <= BLOCK_SIZE then 1 else (n - 1) / BLOCK_SIZE + 1
  }

  /** The file starting at nodes[0] has n bytes: node k says n - k * BLOCK_SIZE, and the chain ends where that fits
      one block. */
  predicate ChainIs(m: Image, nodes: seq<nat>, n: nat)
    requires Sized(m)
  {
    && |nodes| == ChainLen(n)
    && (forall k :: 0 <= k < |nodes| ==> NodeIs(m, nodes, n, k))
    && (forall j, k :: 0 <= j < k < |nodes| ==> nodes[j] != nodes[k])
  }

  predicate NodeIs(m: Image, nodes: seq<nat>, n: nat, k: nat)
    requires Sized(m) && k < |nodes|
  {
    && Used(m, nodes[k]) && m.inodes[nodes[k]].size == n - k * BLOCK_SIZE
    && m.inodes[nodes[k]].next == if k + 1 < |nodes| then nodes[k + 1] else -1
  }

  function BlockNo(m: Image, i: nat): nat { if i < |m.inodes| && m.inodes[i].block >= 0 then m.inodes[i].block else 0 }

  function BlocksOf(m: Image, nodes: seq<nat>): (bs: seq<nat>)
    ensures |bs| == |nodes| && forall k :: 0 <= k < |nodes| ==> bs[k] == BlockNo(m, nodes[k])
  {
    seq(|nodes|, k requires 0 <= k < |nodes| => BlockNo(m, nodes[k]))
  }

  lemma BlocksApart(m: Image, nodes: seq<nat>, n: nat)
    requires Sized(m) && BlocksOwned(m) && ChainIs(m, nodes, n)
    ensures var bs := BlocksOf(m, nodes);
      (forall k :: 0 <= k < |bs| ==> METADATA <= bs[k] < |m.blocks|) &&
        (forall j, k :: 0 <= j < k < |bs| ==> bs[j] != bs[k])
  {
    var bs := BlocksOf(m, nodes);
    forall k | 0 <= k < |bs| ensures METADATA <= bs[k] < |m.blocks| {
      assert NodeIs(m, nodes, n, k);
    }
    forall j, k | 0 <= j < k < |bs| ensures bs[j] != bs[k] {
      assert NodeIs(m, nodes, n, j) && NodeIs(m, nodes, n, k);
    }
  }

  /** The bytes of a file. */
  function Bytes(m: Image, nodes: seq<nat>, n: nat): (s: seq<Byte>)
    requires Sized(m) && BlocksOwned(m) && ChainIs(m, nodes, n)
    ensures |s| == n
  {
    BlocksApart(m, nodes, n);
    Flat(m.blocks, BlocksOf(m, nodes), n)
  }

  // ---------------------------------------------------------------- room for one more

  /** Fewer inodes than blocks: while the bitmaps agree, some block is free. */
  lemma SomeBlockFree(m: Image)
    requires Sized(m) && NoneLeaked(m)
    ensures exists b :: METADATA <= b < BLOCK_COUNT && !Get(m.bbm, b)
  {
    if forall b :: METADATA <= b < BLOCK_COUNT ==> Get(m.bbm, b) {
      var all := set b: nat | METADATA <= b < BLOCK_COUNT && Get(m.bbm, b);
      forall b | b in all ensures b in BlockSet(m, INODES) {
        assert BlockOf(m, b);
      }
      assert all <= BlockSet(m, INODES);
      BlockSetSize(m, INODES);
      RangeSize(METADATA, BLOCK_COUNT, all);
      SubsetSize(all, BlockSet(m, INODES));
    }
  }

  function BlockSet(m: Image, n: nat): set<nat>
    requires Sized(m) && n <= INODES
  {
    set i | 0 <= i < n && Used(m, i) :: BlockNo(m, i)
  }

  lemma {:induction false} BlockSetSize(m: Image, n: nat)
    requires Sized(m) && n <= INODES
    ensures |BlockSet(m, n)| <= n
  {
    if n == 0 {
      assert BlockSet(m, n) == {};
    } else {
      BlockSetSize(m, n - 1);
      assert BlockSet(m, n) <= BlockSet(m, n - 1) + {BlockNo(m, n - 1)};
      SubsetSize(BlockSet(m, n), BlockSet(m, n - 1) + {BlockNo(m, n - 1)});
    }
  }

  lemma {:induction false} RangeSize(lo: nat, hi: nat, s: set<nat>)
    requires lo <= hi && forall b :: lo <= b < hi ==> b in s
    ensures |s| >= hi - lo
    decreases hi - lo
  {
    if lo < hi {
      RangeSize(lo, hi - 1, s - {hi - 1});
    }
  }

  /** Inodes alloc_inode can still hand out, from i on. */
  function FreeFrom(ibm: Bitmap, i: nat): nat
    requires |ibm| == 8 && i <= INODES
    decreases INODES - i
  {
    if i == INODES then 0 else (if Get(ibm, i) then 0 else 1) + FreeFrom(ibm, i + 1)
  }

  function FreeInodes(ibm: Bitmap): nat
    requires |ibm| == 8
  {
    FreeFrom(ibm, ROOT_INODE + 1)
  }

  lemma {:induction false} FreeAfterPut(ibm: Bitmap, i: nat, j: nat)
    requires |ibm| == 8 && i < INODES && j <= INODES && !Get(ibm, i)
    ensures FreeFrom(Put(ibm, i, true), j) == FreeFrom(ibm, j) - if j <= i then 1 else 0
    decreases INODES - j
  {
    if j < INODES {
      FreeAfterPut(ibm, i, j + 1);
      GetPut(ibm, i, true, j);
    }
  }

  lemma {:induction false} NoneFree(ibm: Bitmap, j: nat)
    requires |ibm| == 8 && j <= INODES
    ensures FreeFrom(ibm, j) == 0 <==> forall i :: j <= i < INODES ==> Get(ibm, i)
    decreases INODES - j
  {
    if j < INODES { NoneFree(ibm, j + 1); }
  }

  // ---------------------------------------------------------------- alloc_inode

  /** Inode i and block b are taken; nothing is written to the block. */
  function NewInode(m: Image, i: nat, b: nat): Image
    requires Sized(m) && i < INODES && b < BLOCK_COUNT
  {
    m.(ibm := Put(m.ibm, i, true), bbm := Put(m.bbm, b, true), inodes := m.inodes[i := INode(0, b, -1)])
  }

  lemma NewUsed(m: Image, i: nat, b: nat, j: nat)
    requires Sized(m) && i < INODES && b < BLOCK_COUNT
    ensures Used(NewInode(m, i, b), j) <==> j == i || Used(m, j)
  {
    if j < INODES { GetPut(m.ibm, i, true, j); }
  }

  lemma NewInodeOwned(m: Image, i: nat, b: nat)
    requires Sized(m) && BlocksOwned(m) && NoneLeaked(m) && i < INODES && b < BLOCK_COUNT && !Used(m, i)
    requires !Get(m.bbm, b)
    ensures BlocksOwned(NewInode(m, i, b))
  {
    var m' := NewInode(m, i, b);
    hide Get, Put, Used;
    forall j | 0 <= j < INODES && Used(m', j)
      ensures METADATA <= m'.inodes[j].block < BLOCK_COUNT && Get(m'.bbm, m'.inodes[j].block)
      ensures (j != i ==> m'.inodes[j].block != b)
    {
      NewUsed(m, i, b, j);
      GetPut(m.bbm, b, true, m'.inodes[j].block);
    }
    forall j, k | 0 <= j < k < INODES && Used(m', j) && Used(m', k) ensures m'.inodes[j].block != m'.inodes[k].block {
      NewUsed(m, i, b, j);
      NewUsed(m, i, b, k);
    }
  }

  lemma NewInodeNoneLeaked(m: Image, i: nat, b: nat)
    requires Sized(m) && NoneLeaked(m) && i < INODES && b < BLOCK_COUNT && !Used(m, i) && !Get(m.bbm, b)
    ensures NoneLeaked(NewInode(m, i, b))
  {
    var m' := NewInode(m, i, b);
    forall c | 0 <= c < BLOCK_COUNT
      ensures (Get(m'.bbm, c) ==> c < METADATA || BlockOf(m', c)) && (c < METADATA ==> Get(m'.bbm, c))
    {
      GetPut(m.bbm, b, true, c);
      if c == b {
        NewUsed(m, i, b, i);
        assert m'.inodes[i].block == b;
      } else if Get(m.bbm, c) && c >= METADATA {
        var j :| 0 <= j < INODES && Used(m, j) && m.inodes[j].block == c;
        NewUsed(m, i, b, j);
        assert m'.inodes[j].block == c;
      }
    }
  }

  // ---------------------------------------------------------------- grow_inode

  /** A chain being grown to n bytes: the nodes are linked, and those up to node k have their new sizes. */
  predicate Growing(m: Image, nodes: seq<nat>, n: nat, k: nat)
    requires Sized(m)
  {
    && k < |nodes| && k * BLOCK_SIZE <= n
    && (forall j :: 0 <= j < |nodes| ==> LinkIs(m, nodes, j))
    && (forall j :: 0 <= j <= k ==> SizeIs(m, nodes, n, j))
    && (forall i, j :: 0 <= i < j < |nodes| ==> nodes[i] != nodes[j])
  }

  predicate LinkIs(m: Image, nodes: seq<nat>, j: nat)
    requires Sized(m) && j < |nodes|
  {
    Used(m, nodes[j]) && m.inodes[nodes[j]].next == if j + 1 < |nodes| then nodes[j + 1] else -1
  }

  predicate SizeIs(m: Image, nodes: seq<nat>, n: nat, j: nat)
    requires Sized(m) && j < |nodes|
  {
    nodes[j] < INODES && m.inodes[nodes[j]].size == n - j * BLOCK_SIZE
  }

  lemma GrowingStarts(m: Image, nodes: seq<nat>, n0: nat, n: nat)
    requires Sized(m) && ChainIs(m, nodes, n0)
    ensures nodes[0] < INODES
    ensures var m' := m.(inodes := m.inodes[nodes[0] := m.inodes[nodes[0]].(size := n)]);
      Sized(m') && Growing(m', nodes, n, 0)
  {
    assert NodeIs(m, nodes, n0, 0);
    var m' := m.(inodes := m.inodes[nodes[0] := m.inodes[nodes[0]].(size := n)]);
    forall j | 0 <= j < |nodes| ensures LinkIs(m', nodes, j) {
      assert NodeIs(m, nodes, n0, j);
    }
  }

  /** The next node gets its size. */
  lemma GrowingNext(m: Image, nodes: seq<nat>, n: nat, k: nat)
    requires Sized(m) && Growing(m, nodes, n, k) && k + 1 < |nodes| && n - k * BLOCK_SIZE > BLOCK_SIZE
    ensures nodes[k + 1] < INODES
    ensures var i := nodes[k + 1];
      var m' := m.(inodes := m.inodes[i := m.inodes[i].(size := n - k * BLOCK_SIZE - BLOCK_SIZE)]);
      Sized(m') && Growing(m', nodes, n, k + 1)
  {
    assert LinkIs(m, nodes, k + 1);
    var m' := m.(inodes := m.inodes[nodes[k + 1] := m.inodes[nodes[k + 1]].(size := n - k * BLOCK_SIZE - BLOCK_SIZE)]);
    forall j | 0 <= j < |nodes| ensures LinkIs(m', nodes, j) && (j <= k + 1 ==> SizeIs(m', nodes, n, j)) {
      assert LinkIs(m, nodes, j);
      if j <= k { assert SizeIs(m, nodes, n, j); }
    }
  }

  /** A new inode goes on the end. */
  lemma GrowingNew(m: Image, nodes: seq<nat>, n: nat, i: nat, b: nat)
    requires Sized(m) && nodes != [] && Growing(m, nodes, n, |nodes| - 1) && i < INODES && !Used(m, i)
    requires b < BLOCK_COUNT
    ensures nodes[|nodes| - 1] < INODES && nodes[|nodes| - 1] != i
    ensures var m1 := NewInode(m, i, b); var last := nodes[|nodes| - 1];
      var m' := m1.(inodes := m1.inodes[last := m1.inodes[last].(next := i)]);
      Sized(m') && Growing(m', nodes + [i], n, |nodes| - 1)
  {
    var m1, last := NewInode(m, i, b), nodes[|nodes| - 1];
    assert LinkIs(m, nodes, |nodes| - 1);
    var m' := m1.(inodes := m1.inodes[last := m1.inodes[last].(next := i)]);
    var nodes' := nodes + [i];
    NewUsed(m, i, b, i);
    forall j | 0 <= j < |nodes| ensures LinkIs(m', nodes', j) && nodes[j] != i {
      assert LinkIs(m, nodes, j);
      NewUsed(m, i, b, nodes[j]);
    }
    assert LinkIs(m', nodes', |nodes|);
    forall j | 0 <= j < |nodes| ensures SizeIs(m', nodes', n, j) {
      assert SizeIs(m, nodes, n, j) && LinkIs(m, nodes, j);
    }
  }

  lemma GrowingEnds(m: Image, nodes: seq<nat>, n: nat, k: nat)
    requires Sized(m) && Growing(m, nodes, n, k) && n - k * BLOCK_SIZE <= BLOCK_SIZE && (k > 0 ==> k * BLOCK_SIZE < n)
    requires |nodes| <= ChainLen(n)
    ensures ChainIs(m, nodes, n) && |nodes| == k + 1
  {
    LenIs(n, k + 1);
    forall j | 0 <= j < |nodes| ensures NodeIs(m, nodes, n, j) {
      assert LinkIs(m, nodes, j) && SizeIs(m, nodes, n, j);
    }
  }

  lemma LenIs(n: nat, k: nat)
    requires k >= 1 && n <= k * BLOCK_SIZE && (k > 1 ==> (k - 1) * BLOCK_SIZE < n)
    ensures ChainLen(n) == k
  {}

  // ---------------------------------------------------------------- several files

  /** Inodes in use stay in use with their blocks, and those outside `nodes` do not change at all. */
  predicate Kept(m: Image, m': Image, nodes: seq<nat>)
    requires Sized(m) && Sized(m')
  {
    forall i :: 0 <= i < INODES && Used(m, i) ==>
      Used(m', i) && m'.inodes[i].block == m.inodes[i].block && (i !in nodes ==> m'.inodes[i] == m.inodes[i])
  }

  lemma KeptSelf(m: Image, nodes: seq<nat>)
    requires Sized(m)
    ensures Kept(m, m, nodes)
  {}

  lemma KeptTrans(m: Image, m1: Image, m2: Image, nodes: seq<nat>, nodes1: seq<nat>)
    requires Sized(m) && Sized(m1) && Sized(m2) && Kept(m, m1, nodes) && Kept(m1, m2, nodes1) && nodes <= nodes1
    ensures Kept(m, m2, nodes1)
  {}

  /** A file none of whose nodes was touched is the same file. */
  lemma KeptFile(m: Image, m': Image, nodes: seq<nat>, file: seq<nat>, n: nat)
    requires Sized(m) && Sized(m') && Kept(m, m', nodes) && ChainIs(m, file, n)
    requires forall k :: 0 <= k < |file| ==> file[k] !in nodes
    ensures ChainIs(m', file, n)
  {
    hide Used;
    forall k | 0 <= k < |file| ensures NodeIs(m', file, n, k) {
      assert NodeIs(m, file, n, k);
      UsedInRange(m, file[k]);
    }
  }

  lemma UsedInRange(m: Image, i: nat)
    requires Sized(m) && Used(m, i)
    ensures i < INODES
  {}

  lemma KeptBlocks(m: Image, m': Image, nodes: seq<nat>, file: seq<nat>, n: nat)
    requires Sized(m) && Sized(m') && Kept(m, m', nodes) && ChainIs(m, file, n)
    ensures BlocksOf(m', file) == BlocksOf(m, file)
  {
    hide Used;
    var a, b := BlocksOf(m', file), BlocksOf(m, file);
    forall k | 0 <= k < |file| ensures a[k] == b[k] {
      assert NodeIs(m, file, n, k);
      UsedInRange(m, file[k]);
    }
  }

  /** The files: each starts at its own inode, and no two share one. */
  ghost predicate FilesOk(m: Image, chains: map<nat, seq<nat>>)
    requires Sized(m)
  {
    && (forall h :: h in chains ==> FileOk(m, chains[h], h))
    && (forall g, h :: g in chains && h in chains && g != h ==> Apart(chains[g], chains[h]))
  }

  predicate FileOk(m: Image, nodes: seq<nat>, h: nat)
    requires Sized(m)
  {
    nodes != [] && nodes[0] == h && h < INODES && m.inodes[h].size >= 0 && ChainIs(m, nodes, m.inodes[h].size)
  }

  predicate Apart(a: seq<nat>, b: seq<nat>) { forall i :: 0 <= i < |a| ==> a[i] !in b }

  lemma NewInodeIs(m: Image, i: nat, b: nat)
    requires Sized(m) && i < INODES && b < BLOCK_COUNT
    ensures NewInode(m, i, b) ==
      Image(Put(m.ibm, i, true), Put(m.bbm, b, true), m.inodes[i := INode(0, b, -1)], m.blocks)
  {}

  lemma GrowingFacts(m: Image, nodes: seq<nat>, n: nat, k: nat)
    requires Sized(m) && Growing(m, nodes, n, k)
    ensures k < |nodes| && nodes[k] < INODES && Used(m, nodes[k]) && m.inodes[nodes[k]].size == n - k * BLOCK_SIZE
    ensures m.inodes[nodes[k]].next == (if k + 1 < |nodes| then nodes[k + 1] else -1)
    ensures k + 1 < |nodes| ==> nodes[k + 1] < INODES && Used(m, nodes[k + 1])
  {
    assert LinkIs(m, nodes, k) && SizeIs(m, nodes, n, k);
    if k + 1 < |nodes| { assert LinkIs(m, nodes, k + 1); }
  }

  lemma AppendKept(m: Image, nodes: seq<nat>, i: nat, b: nat, n: nat, k: nat)
    requires Sized(m) && BlocksOwned(m) && NoneLeaked(m) && Growing(m, nodes, n, k) && k + 1 == |nodes|
    requires i < INODES && !Used(m, i) && b < BLOCK_COUNT && BlocksOwned(NewInode(m, i, b))
    requires NoneLeaked(NewInode(m, i, b))
    ensures nodes[k] < INODES
    ensures var m1 := NewInode(m, i, b);
      var m' := m1.(inodes := m1.inodes[nodes[k] := m1.inodes[nodes[k]].(next := i)]);
      BlocksOwned(m') && NoneLeaked(m') && Kept(m, m', nodes + [i])
  {
    GrowingFacts(m, nodes, n, k);
    var m1 := NewInode(m, i, b);
    var m' := m1.(inodes := m1.inodes[nodes[k] := m1.inodes[nodes[k]].(next := i)]);
    NewUsed(m, i, b, nodes[k]);
    SameBlocks(m1, m', nodes[k]);
    forall j | 0 <= j < INODES && Used(m, j)
      ensures Used(m', j) && m'.inodes[j].block == m.inodes[j].block
      ensures (j !in nodes + [i] ==> m'.inodes[j] == m.inodes[j])
    {
      NewUsed(m, i, b, j);
    }
  }

  /** Changing sizes and links of one inode leaves the bitmaps and the ownership of blocks alone. */
  lemma SameBlocks(m: Image, m': Image, p: nat)
    requires Sized(m) && BlocksOwned(m) && NoneLeaked(m) && p < INODES
    requires Sized(m') && m' == m.(inodes := m.inodes[p := m'.inodes[p]]) && m'.inodes[p].block == m.inodes[p].block
    ensures BlocksOwned(m') && NoneLeaked(m')
  {
    forall b | 0 <= b < BLOCK_COUNT && Get(m'.bbm, b) ensures b < METADATA || BlockOf(m', b) {
      if b >= METADATA {
        assert BlockOf(m, b);
        var i :| 0 <= i < INODES && Used(m, i) && m.inodes[i].block == b;
        assert Used(m', i) && m'.inodes[i].block == b;
      }
    }
    assert forall i :: 0 <= i < INODES ==> Used(m', i) == Used(m, i) && m'.inodes[i].block == m.inodes[i].block;
  }

  lemma ResizeKept(m: Image, nodes: seq<nat>, p: nat, size: int)
    requires Sized(m) && BlocksOwned(m) && NoneLeaked(m) && p < INODES && p in nodes
    ensures var m' := m.(inodes := m.inodes[p := m.inodes[p].(size := size)]);
      Sized(m') && BlocksOwned(m') && NoneLeaked(m') && Kept(m, m', nodes)
  {
    var m' := m.(inodes := m.inodes[p := m.inodes[p].(size := size)]);
    SameBlocks(m, m', p);
  }

  lemma ChainLength(m: Image, nodes: seq<nat>, n0: nat, n: nat)
    requires Sized(m) && ChainIs(m, nodes, n0) && n0 <= n
    ensures nodes != [] && |nodes| == ChainLen(n0) <= ChainLen(n)
  {}

  /** A node that is too big for its block has a successor in the grown chain. */
  lemma RoomFor(n: nat, k: nat)
    requires n - k * BLOCK_SIZE > BLOCK_SIZE
    ensures k + 2 <= ChainLen(n) && (k + 1) * BLOCK_SIZE < n
  {}

  /** An inode free now was free at the start. */
  lemma NewNodeFresh(m: Image, m1: Image, p: nat, nodes: seq<nat>)
    requires Sized(m) && Sized(m1) && Kept(m, m1, nodes)
    ensures !Used(m1, p) ==> !Used(m, p)
  {}

  lemma OthersApart(chains: map<nat, seq<nat>>, h: nat)
    requires h in chains && forall g, h :: g in chains && h in chains && g != h ==> Apart(chains[g], chains[h])
    ensures forall g :: g in chains && g != h ==> Apart(chains[g], chains[h])
  {}

  /** When one file has grown, the files are consistent again and their old bytes are as they were. */
  lemma GrownFiles(m: Image, m': Image, chains: map<nat, seq<nat>>, h: nat, nodes: seq<nat>, n0: nat, n: nat)
    requires Sized(m) && BlocksOwned(m) && FilesOk(m, chains) && h in chains && n0 == m.inodes[h].size && n0 <= n
    requires Sized(m') && BlocksOwned(m') && m'.blocks == m.blocks && Kept(m, m', nodes) && ChainIs(m', nodes, n)
    requires chains[h] <= nodes && forall i :: |chains[h]| <= i < |nodes| ==> !Used(m, nodes[i])
    ensures FilesOk(m', chains[h := nodes]) && m'.inodes[h].size == n
    ensures ChainIs(m, chains[h], n0) && Bytes(m', nodes, n)[..n0] == Bytes(m, chains[h], n0)
    ensures forall g :: g in chains && g != h ==>
      FileOk(m, chains[g], g) && m'.inodes[g].size == m.inodes[g].size && ChainIs(m', chains[g], m.inodes[g].size) &&
      Bytes(m', chains[g], m.inodes[g].size) == Bytes(m, chains[g], m.inodes[g].size)
  {
    hide BlocksOwned, Kept, ChainIs, Apart, Bytes;
    assert FileOk(m, chains[h], h);
    GrownFile(m, m', chains[h], nodes, n0, n);
    FirstNode(m', nodes, n);
    forall g | g in chains && g != h
      ensures FileOk(m, chains[g], g) && m'.inodes[g].size == m.inodes[g].size
      ensures ChainIs(m', chains[g], m.inodes[g].size)
      ensures Bytes(m', chains[g], m.inodes[g].size) == Bytes(m, chains[g], m.inodes[g].size)
      ensures Apart(chains[g], nodes) && Apart(nodes, chains[g])
    {
      assert FileOk(m, chains[g], g) && Apart(chains[g], chains[h]) && Apart(chains[h], chains[g]);
      OtherFile(m, m', chains[h], nodes, chains[g], g);
    }
  }

  lemma FirstNode(m: Image, nodes: seq<nat>, n: nat)
    requires Sized(m) && ChainIs(m, nodes, n)
    ensures nodes != [] && nodes[0] < INODES && m.inodes[nodes[0]].size == n
  {
    assert NodeIs(m, nodes, n, 0);
  }

  lemma GrownFile(m: Image, m': Image, old_: seq<nat>, nodes: seq<nat>, n0: nat, n: nat)
    requires Sized(m) && BlocksOwned(m) && ChainIs(m, old_, n0) && n0 <= n
    requires Sized(m') && BlocksOwned(m') && m'.blocks == m.blocks && Kept(m, m', nodes) && ChainIs(m', nodes, n)
    requires old_ <= nodes
    ensures Bytes(m', nodes, n)[..n0] == Bytes(m, old_, n0)
  {
    KeptBlocks(m, m', nodes, old_, n0);
    BlocksApart(m, old_, n0);
    BlocksApart(m', nodes, n);
    hide Used, Kept, ChainIs, BlocksOwned;
    var a, b := BlocksOf(m', nodes), BlocksOf(m, old_);
    forall k | 0 <= k < |b| ensures a[k] == b[k] { assert BlocksOf(m', old_)[k] == b[k]; }
  }

  lemma OtherFile(m: Image, m': Image, old_: seq<nat>, nodes: seq<nat>, file: seq<nat>, g: nat)
    requires Sized(m) && BlocksOwned(m) && FileOk(m, file, g) && Apart(file, old_) && Apart(old_, file) && old_ <= nodes
    requires Sized(m') && BlocksOwned(m') && m'.blocks == m.blocks && Kept(m, m', nodes)
    requires forall i :: |old_| <= i < |nodes| ==> !Used(m, nodes[i])
    ensures Apart(file, nodes) && Apart(nodes, file) && m'.inodes[g].size == m.inodes[g].size
    ensures ChainIs(m', file, m.inodes[g].size)
    ensures Bytes(m', file, m.inodes[g].size) == Bytes(m, file, m.inodes[g].size)
  {
    var n := m.inodes[g].size;
    forall k | 0 <= k < |file| ensures file[k] !in nodes {
      assert NodeIs(m, file, n, k);
    }
    KeptFile(m, m', nodes, file, n);
    KeptBlocks(m, m', nodes, file, n);
    assert NodeIs(m, file, n, 0);
  }

  // ---------------------------------------------------------------- reading and writing

  /** Writing into a block of one file: the image stays consistent and the file's bytes change where written. */
  lemma WroteBlock(m: Image, nodes: seq<nat>, n: nat, k: nat, p: nat, d: seq<Byte>)
    requires Sized(m) && BlocksOwned(m) && NoneLeaked(m) && ChainIs(m, nodes, n) && k < |nodes|
    requires p + |d| <= BLOCK_SIZE && k * BLOCK_SIZE + p + |d| <= n
    ensures nodes[k] < INODES && BlockNo(m, nodes[k]) < |m.blocks| && m.inodes[nodes[k]].block == BlockNo(m, nodes[k])
    ensures var b := BlockNo(m, nodes[k]); var m' := m.(blocks := m.blocks[b := Patch(m.blocks[b], p, d)]);
      && Sized(m') && BlocksOwned(m') && NoneLeaked(m') && ChainIs(m', nodes, n)
      && Bytes(m', nodes, n) == Over(Bytes(m, nodes, n), k * BLOCK_SIZE + p, d)
  {
    assert NodeIs(m, nodes, n, k);
    BlocksApart(m, nodes, n);
    var b := BlockNo(m, nodes[k]);
    var m' := m.(blocks := m.blocks[b := Patch(m.blocks[b], p, d)]);
    SameButBlocks(m, m', nodes, n);
    PatchFlat(m.blocks, BlocksOf(m, nodes), n, k, p, d);
  }

  lemma SameButBlocks(m: Image, m': Image, nodes: seq<nat>, n: nat)
    requires Sized(m) && Sized(m') && m' == m.(blocks := m'.blocks)
    ensures BlocksOwned(m) ==> BlocksOwned(m')
    ensures NoneLeaked(m) ==> NoneLeaked(m')
    ensures ChainIs(m, nodes, n) ==> ChainIs(m', nodes, n)
    ensures BlocksOf(m', nodes) == BlocksOf(m, nodes)
  {
    assert forall i: nat :: Used(m', i) == Used(m, i);
    if NoneLeaked(m) {
      forall b | 0 <= b < BLOCK_COUNT && Get(m'.bbm, b) ensures b < METADATA || BlockOf(m', b) {
        if b >= METADATA {
          var i :| 0 <= i < INODES && Used(m, i) && m.inodes[i].block == b;
          assert Used(m', i);
        }
      }
    }
    if ChainIs(m, nodes, n) {
      forall k | 0 <= k < |nodes| ensures NodeIs(m', nodes, n, k) { assert NodeIs(m, nodes, n, k); }
    }
  }

  /** Files that share no inode with the one written keep their bytes. */
  lemma WroteElsewhere(m: Image, m': Image, nodes: seq<nat>, n: nat, file: seq<nat>, l: nat)
    requires Sized(m) && BlocksOwned(m) && ChainIs(m, nodes, n) && ChainIs(m, file, l) && Apart(file, nodes)
    requires Sized(m') && BlocksOwned(m') && m' == m.(blocks := m'.blocks) && ChainIs(m', file, l)
    requires forall b :: 0 <= b < BLOCK_COUNT && b !in BlocksOf(m, nodes) ==> m'.blocks[b] == m.blocks[b]
    ensures Bytes(m', file, l) == Bytes(m, file, l)
  {
    BlocksApart(m, file, l);
    SameButBlocks(m, m', file, l);
    var bs := BlocksOf(m, file);
    forall k | 0 <= k < |bs| ensures m'.blocks[bs[k]] == m.blocks[bs[k]] {
      assert NodeIs(m, file, l, k);
      forall j | 0 <= j < |nodes| ensures BlockNo(m, nodes[j]) != bs[k] {
        assert NodeIs(m, nodes, n, j) && file[k] != nodes[j];
      }
    }
    FlatFrame(m.blocks, m'.blocks, bs, l);
  }

  lemma OverOver(s: seq<Byte>, o: nat, a: seq<Byte>, b: seq<Byte>)
    requires o + |a| + |b| <= |s|
    ensures Over(Over(s, o, a), o + |a|, b) == Over(s, o, a + b)
  {}

  lemma BlockIndex(o: nat, n: nat)
    requires o < n || (o == n && (n == 0 || n % BLOCK_SIZE != 0))
    ensures o / BLOCK_SIZE < ChainLen(n) && o == o / BLOCK_SIZE * BLOCK_SIZE + o % BLOCK_SIZE
  {}
}
