/** Files over the block store: which block an inode owns, what the free map says,
    and what a file contains. */
module FsModel {
  import opened Common
  import opened FsLayout

  /** struct inode, the part that is also on disk.  Shorts are their unsigned values; addrs[NDIRECT] is the
      indirect block. */
  datatype InodeRec = Inode(typ: nat, major: nat, minor: nat, nlink: nat, size: nat, addrs: seq<nat>)

  predicate InodeOk(ip: InodeRec) {
    && ip.typ < SHORT && ip.major < SHORT && ip.minor < SHORT && ip.nlink < SHORT && ip.size < UINT
    && |ip.addrs| == NDIRECT + 1 && forall j :: 0 <= j <= NDIRECT ==> ip.addrs[j] < UINT
  }

  const EmptyInode: InodeRec := Inode(0, 0, 0, 0, 0, seq(NDIRECT + 1, _ => 0))

  type Inode = ip: InodeRec | InodeOk(ip) witness EmptyInode

  /** Slots 0..MAXFILE are the blocks of the file in order; slot MAXFILE is the indirect block itself. */
  function Slot(d: seq<Block>, ip: Inode, k: nat): nat
    requires k <= MAXFILE
  {
    if k < NDIRECT then ip.addrs[k]
    else if k == MAXFILE then ip.addrs[NDIRECT]
    else if 0 < ip.addrs[NDIRECT] < |d| then Word(d[ip.addrs[NDIRECT]], k - NDIRECT)
    else 0
  }

  /** Number of blocks that hold the first n bytes. */
  function Blocks(n: nat): nat { (n + BSIZE - 1) / BSIZE }

  lemma BlockIndex(o: nat, n: nat)
    requires o < n
    ensures o / BSIZE < Blocks(n) && o % BSIZE < BSIZE
  {}

  /** Exactly the first n blocks are mapped, and the indirect block when it is needed. */
  predicate MappedTo(d: seq<Block>, ip: Inode, n: nat) {
    && (forall k :: 0 <= k < MAXFILE ==> (Slot(d, ip, k) != 0 <==> k < n))
    && (Slot(d, ip, MAXFILE) != 0 <==> n > NDIRECT)
  }

  // ---------------------------------------------------------------- inodes on disk

  /** Word k of struct dinode. */
  function InodeWord(ip: Inode, k: nat): (w: nat)
    requires k < IWORDS
    ensures w < UINT
  {
    if k == 0 then ip.typ + SHORT * ip.major
    else if k == 1 then ip.minor + SHORT * ip.nlink
    else if k == 2 then ip.size
    else ip.addrs[k - 3]
  }

  function AddrsIn(b: Block, i: nat): (a: seq<nat>)
    requires i < IPB
    ensures |a| == NDIRECT + 1 && forall j :: 0 <= j <= NDIRECT ==> a[j] == Word(b, IWORDS * i + 3 + j)
  {
    seq<nat>(NDIRECT + 1, j requires 0 <= j <= NDIRECT => Word(b, IWORDS * i + 3 + j))
  }

  /** The dinode in slot i of an inode block, as ilock reads it. */
  function InodeIn(b: Block, i: nat): Inode
    requires i < IPB
  {
    var types, links := Word(b, IWORDS * i), Word(b, IWORDS * i + 1);
    Inode(types % SHORT, types / SHORT, links % SHORT, links / SHORT, Word(b, IWORDS * i + 2), AddrsIn(b, i))
  }

  /** IBLOCK(i, sb) */
  function InodeBlock(sb: Super, i: nat): nat { sb.inodestart + i / IPB }

  function InodeAt(sb: Super, d: seq<Block>, i: nat): Inode
    requires LayoutOk(sb) && |d| == sb.size && i < sb.ninodes
  {
    InodeIn(d[InodeBlock(sb, i)], i % IPB)
  }

  /** The whole inode table. */
  function Inodes(sb: Super, d: seq<Block>): (inos: seq<Inode>)
    requires LayoutOk(sb) && |d| == sb.size
    ensures |inos| == sb.ninodes && forall i :: 0 <= i < |inos| ==> inos[i] == InodeAt(sb, d, i)
  {
    seq(sb.ninodes, i requires 0 <= i < sb.ninodes => InodeAt(sb, d, i))
  }

  /** What is written word by word is read back. */
  lemma InodeReadBack(b: Block, i: nat, ip: Inode)
    requires i < IPB && forall k :: 0 <= k < IWORDS ==> Word(b, IWORDS * i + k) == InodeWord(ip, k)
    ensures InodeIn(b, i) == ip
  {
    var r := InodeIn(b, i);
    assert Word(b, IWORDS * i + 0) == InodeWord(ip, 0) && Word(b, IWORDS * i + 1) == InodeWord(ip, 1);
    assert Word(b, IWORDS * i + 2) == InodeWord(ip, 2);
    forall j | 0 <= j <= NDIRECT ensures r.addrs[j] == ip.addrs[j] {
      assert Word(b, IWORDS * i + (3 + j)) == InodeWord(ip, 3 + j);
    }
    assert r.addrs == ip.addrs;
  }

  /** Inodes whose words are the same are the same. */
  lemma InodeSame(b: Block, b': Block, i: nat)
    requires i < IPB && forall k :: IWORDS * i <= k < IWORDS * i + IWORDS ==> Word(b', k) == Word(b, k)
    ensures InodeIn(b', i) == InodeIn(b, i)
  {
    assert InodeIn(b', i).addrs == InodeIn(b, i).addrs;
  }

  lemma WordsPut(b: Block, i: nat, v: nat)
    requires i < NINDIRECT && v < UINT
    ensures forall j :: 0 <= j < NINDIRECT ==> Word(PutWord(b, i, v), j) == if i == j then v else Word(b, j)
  {
    forall j | 0 <= j < NINDIRECT ensures Word(PutWord(b, i, v), j) == if i == j then v else Word(b, j) {
      WordPut(b, i, v, j);
    }
  }

  /** Fields and addresses of a struct dinode, in the order of iupdate's assignments. */
  method PutInode(b0: Block, i: nat, ip: Inode) returns (b: Block)
    requires i < IPB
    ensures InodeIn(b, i) == ip
    ensures forall k :: 0 <= k < IPB && k != i ==> InodeIn(b, k) == InodeIn(b0, k)
  {
    hide Word, PutWord;
    var at := IWORDS * i;
    WordsPut(b0, at, ip.typ + SHORT * ip.major);
    b := PutWord(b0, at, ip.typ + SHORT * ip.major);
    WordsPut(b, at + 1, ip.minor + SHORT * ip.nlink);
    b := PutWord(b, at + 1, ip.minor + SHORT * ip.nlink);
    WordsPut(b, at + 2, ip.size);
    b := PutWord(b, at + 2, ip.size);
    var j := 0;
    while j <= NDIRECT
      invariant 0 <= j <= NDIRECT + 1
      invariant forall k :: 0 <= k < 3 + j ==> Word(b, at + k) == InodeWord(ip, k)
      invariant forall k :: 0 <= k < NINDIRECT && !(at <= k < at + IWORDS) ==> Word(b, k) == Word(b0, k)
    {
      WordsPut(b, at + 3 + j, ip.addrs[j]);
      b := PutWord(b, at + 3 + j, ip.addrs[j]);
      j := j + 1;
    }
    InodeReadBack(b, i, ip);
    forall k | 0 <= k < IPB && k != i ensures InodeIn(b, k) == InodeIn(b0, k) {
      InodeSame(b0, b, k);
    }
  }

  /** The blocks of the inode table have not changed. */
  predicate InodeBlocksSame(sb: Super, d: seq<Block>, d': seq<Block>) {
    |d'| == |d| && forall x :: sb.inodestart <= x < sb.bmapstart && x < |d| ==> d'[x] == d[x]
  }

  lemma InodesSame(sb: Super, d: seq<Block>, d': seq<Block>)
    requires LayoutOk(sb) && |d| == sb.size && InodeBlocksSame(sb, d, d')
    ensures Inodes(sb, d') == Inodes(sb, d)
  {
    forall i | 0 <= i < sb.ninodes ensures InodeAt(sb, d', i) == InodeAt(sb, d, i) {
      assert sb.inodestart <= InodeBlock(sb, i) < sb.bmapstart;
    }
  }

  // ---------------------------------------------------------------- block ownership

  predicate InData(sb: Super, a: nat) { sb.datastart <= a < sb.size }

  predicate SlotsInData(sb: Super, d: seq<Block>, inos: seq<Inode>) {
    forall i, k :: 0 <= i < |inos| && 0 <= k <= MAXFILE && Slot(d, inos[i], k) != 0 ==> InData(sb, Slot(d, inos[i], k))
  }

  /** No block is owned twice. */
  predicate SlotsDistinct(d: seq<Block>, inos: seq<Inode>) {
    forall i, k, j, l | 0 <= i < |inos| && 0 <= k <= MAXFILE && 0 <= j < |inos| && 0 <= l <= MAXFILE ::
      Slot(d, inos[i], k) != 0 && Slot(d, inos[i], k) == Slot(d, inos[j], l) ==> i == j && k == l
  }

  predicate Owned(d: seq<Block>, inos: seq<Inode>, b: nat) {
    exists i, k :: 0 <= i < |inos| && 0 <= k <= MAXFILE && Slot(d, inos[i], k) == b
  }

  /** The free map is set for metadata and for owned blocks; the blocks in `extra` are set as well. */
  predicate MapExact(sb: Super, d: seq<Block>, inos: seq<Inode>, extra: set<nat>)
    requires LayoutOk(sb) && |d| == sb.size
  {
    forall b :: 0 <= b < sb.size ==>
      (Bit(sb, d, b) <==> b < sb.datastart || (b != 0 && Owned(d, inos, b)) || b in extra)
  }

  predicate Owners(sb: Super, d: seq<Block>, inos: seq<Inode>, extra: set<nat>) {
    && LayoutOk(sb) && |d| == sb.size
    && SlotsInData(sb, d, inos) && SlotsDistinct(d, inos) && MapExact(sb, d, inos, extra)
  }

  predicate SizesOk(d: seq<Block>, inos: seq<Inode>) {
    forall i :: 0 <= i < |inos| ==> inos[i].size <= MAXFILE * BSIZE && MappedTo(d, inos[i], Blocks(inos[i].size))
  }

  /** The file system between operations. */
  predicate FsInv(sb: Super, d: seq<Block>, inos: seq<Inode>) {
    Owners(sb, d, inos, {}) && SizesOk(d, inos)
  }

  // ---------------------------------------------------------------- allocation

  /** balloc: mark the block and zero it. */
  function Allocated(sb: Super, d: seq<Block>, b: nat): seq<Block>
    requires LayoutOk(sb) && |d| == sb.size && b < sb.size
  {
    MarkUsed(sb, d, b)[b := ZeroBlock()]
  }

  /** Slots do not move when neither the inode nor its indirect block changes. */
  lemma SlotFrame(d: seq<Block>, d': seq<Block>, ip: Inode, k: nat)
    requires |d'| == |d| && k <= MAXFILE
    requires 0 < ip.addrs[NDIRECT] < |d| ==> d'[ip.addrs[NDIRECT]] == d[ip.addrs[NDIRECT]]
    ensures Slot(d', ip, k) == Slot(d, ip, k)
  {}

  /** A block the free map shows as free belongs to nobody. */
  lemma FreeUnowned(sb: Super, d: seq<Block>, inos: seq<Inode>, extra: set<nat>, b: nat)
    requires Owners(sb, d, inos, extra) && b < sb.size && !Bit(sb, d, b)
    ensures InData(sb, b) && b !in extra && b != 0
    ensures forall i, k :: 0 <= i < |inos| && 0 <= k <= MAXFILE ==> Slot(d, inos[i], k) != b
  {}

  lemma AllocatedSlots(sb: Super, d: seq<Block>, inos: seq<Inode>, extra: set<nat>, b: nat, i: nat, k: nat)
    requires Owners(sb, d, inos, extra) && b < sb.size && !Bit(sb, d, b) && i < |inos| && k <= MAXFILE
    ensures Slot(Allocated(sb, d, b), inos[i], k) == Slot(d, inos[i], k)
  {
    FreeUnowned(sb, d, inos, extra, b);
    assert Slot(d, inos[i], MAXFILE) == inos[i].addrs[NDIRECT];
    SlotFrame(d, Allocated(sb, d, b), inos[i], k);
  }

  lemma AllocatedBit(sb: Super, d: seq<Block>, b: nat, x: nat)
    requires LayoutOk(sb) && |d| == sb.size && InData(sb, b) && x < sb.size
    ensures Bit(sb, Allocated(sb, d, b), x) == (Bit(sb, d, x) || x == b)
  {
    BitMarkUsed(sb, d, b, x);
    BitDataWrite(sb, MarkUsed(sb, d, b), b, ZeroBlock(), x);
  }

  /** Slots unchanged and one more bit set: the new block is the extra one. */
  lemma OwnersAfterAlloc(sb: Super, d: seq<Block>, d': seq<Block>, inos: seq<Inode>, b: nat)
    requires Owners(sb, d, inos, {}) && |d'| == |d| && InData(sb, b)
    requires forall i, k :: 0 <= i < |inos| && 0 <= k <= MAXFILE ==> Slot(d', inos[i], k) == Slot(d, inos[i], k)
    requires forall x :: 0 <= x < sb.size ==> Bit(sb, d', x) == (Bit(sb, d, x) || x == b)
    ensures Owners(sb, d', inos, {b})
  {}

  lemma SameOwned(d: seq<Block>, d': seq<Block>, inos: seq<Inode>, x: nat)
    requires forall i, k :: 0 <= i < |inos| && 0 <= k <= MAXFILE ==> Slot(d', inos[i], k) == Slot(d, inos[i], k)
    ensures Owned(d', inos, x) == Owned(d, inos, x)
  {}

  lemma AllocKeeps(sb: Super, d: seq<Block>, inos: seq<Inode>, b: nat)
    requires Owners(sb, d, inos, {}) && b < sb.size && !Bit(sb, d, b)
    ensures Owners(sb, Allocated(sb, d, b), inos, {b})
    ensures forall i, k :: 0 <= i < |inos| && 0 <= k <= MAXFILE ==> Slot(d, inos[i], k) != b
    ensures forall i, k :: 0 <= i < |inos| && 0 <= k <= MAXFILE ==>
      Slot(Allocated(sb, d, b), inos[i], k) == Slot(d, inos[i], k)
  {
    var d' := Allocated(sb, d, b);
    FreeUnowned(sb, d, inos, {}, b);
    forall i, k | 0 <= i < |inos| && 0 <= k <= MAXFILE ensures Slot(d', inos[i], k) == Slot(d, inos[i], k) {
      AllocatedSlots(sb, d, inos, {}, b, i, k);
    }
    forall x | 0 <= x < sb.size ensures Bit(sb, d', x) == (Bit(sb, d, x) || x == b) {
      AllocatedBit(sb, d, b, x);
    }
    OwnersAfterAlloc(sb, d, d', inos, b);
  }

  // ---------------------------------------------------------------- attaching a new block to a slot

  /** Slot (w, kw), empty before, now holds b; every other slot is as it was. */
  predicate Attached(d: seq<Block>, inos: seq<Inode>, d': seq<Block>, inos': seq<Inode>, w: nat, kw: nat, b: nat) {
    && |inos'| == |inos| && w < |inos| && kw <= MAXFILE
    && Slot(d, inos[w], kw) == 0 && Slot(d', inos'[w], kw) == b
    && (forall i, k :: 0 <= i < |inos| && 0 <= k <= MAXFILE && (i != w || k != kw) ==>
         Slot(d', inos'[i], k) == Slot(d, inos[i], k))
  }

  lemma AttachOwned(d: seq<Block>, inos: seq<Inode>, d': seq<Block>, inos': seq<Inode>, w: nat, kw: nat, b: nat, x: nat)
    requires Attached(d, inos, d', inos', w, kw, b) && x != 0
    ensures Owned(d', inos', x) <==> Owned(d, inos, x) || x == b
  {}

  lemma AttachKeeps(sb: Super, d: seq<Block>, inos: seq<Inode>, d': seq<Block>, inos': seq<Inode>, w: nat, kw: nat,
                    b: nat)
    requires Owners(sb, d, inos, {b}) && Attached(d, inos, d', inos', w, kw, b) && InData(sb, b) && b != 0
    requires forall i, k :: 0 <= i < |inos| && 0 <= k <= MAXFILE ==> Slot(d, inos[i], k) != b
    requires |d'| == |d| && forall x :: 0 <= x < sb.size ==> Bit(sb, d', x) == Bit(sb, d, x)
    ensures Owners(sb, d', inos', {})
  {
    AttachDistinct(d, inos, d', inos', w, kw, b);
    forall x | 0 <= x < sb.size
      ensures Bit(sb, d', x) <==> x < sb.datastart || (x != 0 && Owned(d', inos', x)) || x in {}
    {
      if x != 0 { AttachOwned(d, inos, d', inos', w, kw, b, x); }
    }
  }

  lemma AttachDistinct(d: seq<Block>, inos: seq<Inode>, d': seq<Block>, inos': seq<Inode>, w: nat, kw: nat, b: nat)
    requires SlotsDistinct(d, inos) && Attached(d, inos, d', inos', w, kw, b)
    requires forall i, k :: 0 <= i < |inos| && 0 <= k <= MAXFILE ==> Slot(d, inos[i], k) != b
    ensures SlotsDistinct(d', inos')
  {}

  lemma AttachDirect(d: seq<Block>, inos: seq<Inode>, w: nat, k: nat, b: nat)
    requires w < |inos| && k < NDIRECT && inos[w].addrs[k] == 0 && b < UINT
    ensures Attached(d, inos, d, inos[w := inos[w].(addrs := inos[w].addrs[k := b])], w, k, b)
  {}

  lemma AttachIndirectPointer(d: seq<Block>, inos: seq<Inode>, w: nat, b: nat)
    requires w < |inos| && inos[w].addrs[NDIRECT] == 0 && 0 < b < |d| && b < UINT && d[b] == ZeroBlock()
    ensures Attached(d, inos, d, inos[w := inos[w].(addrs := inos[w].addrs[NDIRECT := b])], w, MAXFILE, b)
  {}

  lemma AttachEntry(d: seq<Block>, inos: seq<Inode>, w: nat, k: nat, b: nat)
    requires w < |inos| && NDIRECT <= k < MAXFILE && Slot(d, inos[w], k) == 0 && b < UINT
    requires 0 < inos[w].addrs[NDIRECT] < |d| && SlotsDistinct(d, inos)
    ensures var ind := inos[w].addrs[NDIRECT];
      Attached(d, inos, d[ind := PutWord(d[ind], k - NDIRECT, b)], inos, w, k, b)
  {
    hide PutWord, Word;
    var ind := inos[w].addrs[NDIRECT];
    var d' := d[ind := PutWord(d[ind], k - NDIRECT, b)];
    forall j | NDIRECT <= j < MAXFILE ensures Slot(d', inos[w], j) == if j == k then b else Slot(d, inos[w], j) {
      WordPut(d[ind], k - NDIRECT, b, j - NDIRECT);
    }
    forall i, j | 0 <= i < |inos| && 0 <= j <= MAXFILE && i != w ensures Slot(d', inos[i], j) == Slot(d, inos[i], j) {
      assert Slot(d, inos[w], MAXFILE) == ind && Slot(d, inos[i], MAXFILE) == inos[i].addrs[NDIRECT];
      SlotFrame(d, d', inos[i], j);
    }
  }

  // ---------------------------------------------------------------- contents survive

  /** Every mapped block of every file is still there with the same bytes. */
  predicate KeepsFiles(d: seq<Block>, inos: seq<Inode>, d': seq<Block>, inos': seq<Inode>) {
    && |d'| == |d| && |inos'| == |inos|
    && forall i, k :: 0 <= i < |inos| && 0 <= k < MAXFILE && 0 < Slot(d, inos[i], k) < |d| ==>
         Slot(d', inos'[i], k) == Slot(d, inos[i], k) && d'[Slot(d, inos[i], k)] == d[Slot(d, inos[i], k)]
  }

  lemma AllocKeepsFiles(sb: Super, d: seq<Block>, inos: seq<Inode>, b: nat)
    requires Owners(sb, d, inos, {}) && b < sb.size && !Bit(sb, d, b)
    ensures KeepsFiles(d, inos, Allocated(sb, d, b), inos)
  {
    AllocKeeps(sb, d, inos, b);
    var d' := Allocated(sb, d, b);
    forall i, k | 0 <= i < |inos| && 0 <= k < MAXFILE && 0 < Slot(d, inos[i], k) < |d|
      ensures d'[Slot(d, inos[i], k)] == d[Slot(d, inos[i], k)]
    {
      assert InData(sb, Slot(d, inos[i], k));
    }
  }

  /** A file's bytes, found through its slots. */
  predicate FileIs(d: seq<Block>, ip: Inode, bytes: seq<Byte>) {
    |bytes| <= MAXFILE * BSIZE &&
    forall o :: 0 <= o < |bytes| ==>
      0 < Slot(d, ip, o / BSIZE) < |d| && d[Slot(d, ip, o / BSIZE)][o % BSIZE] == bytes[o]
  }

  /** The bytes of a file whose first size bytes are mapped. */
  function Contents(d: seq<Block>, ip: Inode): (s: seq<Byte>)
    requires ip.size <= MAXFILE * BSIZE
    requires forall k :: 0 <= k < Blocks(ip.size) ==> 0 < Slot(d, ip, k) < |d|
    ensures |s| == ip.size && FileIs(d, ip, s)
  {
    assert forall o :: 0 <= o < ip.size ==> 0 < Slot(d, ip, o / BSIZE) < |d| by {
      forall o | 0 <= o < ip.size ensures 0 < Slot(d, ip, o / BSIZE) < |d| { BlockIndex(o, ip.size); }
    }
    seq(ip.size, o requires 0 <= o < ip.size => d[Slot(d, ip, o / BSIZE)][o % BSIZE])
  }

  /** The format of the disk: where the size of file w, the address of its block k and its byte o are. */
  lemma OnDisk(sb: Super, d: seq<Block>, w: nat, o: nat)
    requires LayoutOk(sb) && |d| == sb.size && FsInv(sb, d, Inodes(sb, d)) && w < sb.ninodes
    requires o < InodeAt(sb, d, w).size
    ensures sb.inodestart + w / 8 < |d| && InodeAt(sb, d, w).size <= 71680
    ensures var b, at := d[sb.inodestart + w / 8], 16 * (w % 8);
      && InodeAt(sb, d, w).size == Word(b, at + 2)
      && InodeAt(sb, d, w).typ == Word(b, at) % 0x1_0000 && InodeAt(sb, d, w).major == Word(b, at) / 0x1_0000
      && InodeAt(sb, d, w).minor == Word(b, at + 1) % 0x1_0000 && InodeAt(sb, d, w).nlink == Word(b, at + 1) / 0x1_0000
    ensures var b, at := d[sb.inodestart + w / 8], 16 * (w % 8);
      o / 512 >= 12 ==> Word(b, at + 15) < |d|
    ensures var b, at := d[sb.inodestart + w / 8], 16 * (w % 8);
      var a := if o / 512 < 12 then Word(b, at + 3 + o / 512) else Word(d[Word(b, at + 15)], o / 512 - 12);
      a < |d| && Contents(d, InodeAt(sb, d, w))[o] == d[a][o % 512]
  {
    var ip := InodeAt(sb, d, w);
    assert Inodes(sb, d)[w] == ip;
    ContentsMapped(sb, d, Inodes(sb, d), w);
    BlockIndex(o, ip.size);
    hide FsInv, Word;
    var b, at, k := d[sb.inodestart + w / 8], 16 * (w % 8), o / 512;
    assert ip.addrs == AddrsIn(b, w % 8);
    assert ip.addrs[12] == Word(b, at + 15);
    assert 0 < Slot(d, ip, k) < |d| && Contents(d, ip)[o] == d[Slot(d, ip, k)][o % 512];
    if k < 12 { assert ip.addrs[k] == Word(b, at + 3 + k); }
  }

  lemma ContentsMapped(sb: Super, d: seq<Block>, inos: seq<Inode>, i: nat)
    requires FsInv(sb, d, inos) && i < |inos|
    ensures inos[i].size <= MAXFILE * BSIZE
    ensures forall k :: 0 <= k < Blocks(inos[i].size) ==> 0 < Slot(d, inos[i], k) < |d|
  {}

  /** FileIs determines the bytes. */
  lemma FileIsUnique(d: seq<Block>, ip: Inode, a: seq<Byte>, b: seq<Byte>)
    requires FileIs(d, ip, a) && FileIs(d, ip, b) && |a| == |b|
    ensures a == b
  {}

  lemma KeptFileIs(d: seq<Block>, inos: seq<Inode>, d': seq<Block>, inos': seq<Inode>, i: nat, bytes: seq<Byte>)
    requires KeepsFiles(d, inos, d', inos') && i < |inos| && FileIs(d, inos[i], bytes)
    ensures FileIs(d', inos'[i], bytes)
  {}

  lemma KeepsTrans(d: seq<Block>, inos: seq<Inode>, d1: seq<Block>, inos1: seq<Inode>, d2: seq<Block>,
                   inos2: seq<Inode>)
    requires KeepsFiles(d, inos, d1, inos1) && KeepsFiles(d1, inos1, d2, inos2)
    ensures KeepsFiles(d, inos, d2, inos2)
  {}

  // ---------------------------------------------------------------- writing inside a block

  /** What write(off, s) makes of a file's bytes. */
  function Splice(bytes: seq<Byte>, off: nat, s: seq<Byte>): (r: seq<Byte>)
    requires off <= |bytes|
    ensures |r| == if off + |s| <= |bytes| then |bytes| else off + |s|
    ensures forall o :: 0 <= o < |r| ==> r[o] == if off <= o < off + |s| then s[o - off] else bytes[o]
  {
    bytes[..off] + s + (if off + |s| <= |bytes| then bytes[off + |s|..] else [])
  }

  /** memmove of s to offset p of a block. */
  function Patch(b: Block, p: nat, s: seq<Byte>): (r: Block)
    requires p + |s| <= BSIZE
    ensures forall j :: 0 <= j < BSIZE ==> r[j] == if p <= j < p + |s| then s[j - p] else b[j]
  {
    b[..p] + s + b[p + |s|..]
  }

  /** Overwriting a data block of a file moves no slot and no bit. */
  lemma DataWriteOwners(sb: Super, d: seq<Block>, inos: seq<Inode>, w: nat, k: nat, v: Block)
    requires Owners(sb, d, inos, {}) && w < |inos| && k < MAXFILE && Slot(d, inos[w], k) != 0
    ensures Owners(sb, d[Slot(d, inos[w], k) := v], inos, {})
    ensures forall i, l :: 0 <= i < |inos| && 0 <= l <= MAXFILE ==>
      Slot(d[Slot(d, inos[w], k) := v], inos[i], l) == Slot(d, inos[i], l)
  {
    var a := Slot(d, inos[w], k);
    var d' := d[a := v];
    assert InData(sb, a);
    forall i, l | 0 <= i < |inos| && 0 <= l <= MAXFILE ensures Slot(d', inos[i], l) == Slot(d, inos[i], l) {
      assert Slot(d, inos[i], MAXFILE) == inos[i].addrs[NDIRECT];
      SlotFrame(d, d', inos[i], l);
    }
    forall x | 0 <= x < sb.size
      ensures Bit(sb, d', x) <==> x < sb.datastart || (x != 0 && Owned(d', inos, x)) || x in {}
    {
      BitDataWrite(sb, d, a, v, x);
      SameOwned(d, d', inos, x);
    }
  }

  /** One round of writei's loop: the bytes written so far grow by the piece put into block bn. */
  lemma SpliceStep(d: seq<Block>, ip: Inode, d': seq<Block>, bytes: seq<Byte>, off: nat, src: seq<Byte>, tot: nat,
                   m: nat)
    requires off <= |bytes| && tot + m <= |src| && off + tot + m <= MAXFILE * BSIZE && 0 < m
    requires (off + tot) % BSIZE + m <= BSIZE
    requires var bn := (off + tot) / BSIZE;
      0 < Slot(d, ip, bn) < |d| &&
      d' == d[Slot(d, ip, bn) := Patch(d[Slot(d, ip, bn)], (off + tot) % BSIZE, src[tot..tot + m])]
    requires forall k :: 0 <= k <= MAXFILE ==> Slot(d', ip, k) == Slot(d, ip, k)
    requires forall k :: 0 <= k < MAXFILE && k != (off + tot) / BSIZE ==>
      Slot(d, ip, k) != Slot(d, ip, (off + tot) / BSIZE)
    requires FileIs(d, ip, Splice(bytes, off, src[..tot]))
    ensures FileIs(d', ip, Splice(bytes, off, src[..tot + m]))
  {}

  /** How many blocks are mapped after a piece ending inside block bn. */
  lemma BlocksAfter(len: nat, x: nat, m: nat)
    requires x <= len && 0 < m && x % BSIZE + m <= BSIZE
    ensures x / BSIZE <= Blocks(len)
    ensures Blocks(if x + m <= len then len else x + m) == if x / BSIZE < Blocks(len) then Blocks(len)
      else x / BSIZE + 1
  {}

  // ---------------------------------------------------------------- what bmap does

  /** Inode w may have got new addresses; nothing else in the inode table changed. */
  predicate OnlyAddrs(inos: seq<Inode>, inos': seq<Inode>, w: nat) {
    && |inos'| == |inos| && w < |inos|
    && inos'[w] == inos[w].(addrs := inos'[w].addrs)
    && forall i :: 0 <= i < |inos| && i != w ==> inos'[i] == inos[i]
  }

  /** One block b, free before, has been given to the empty slot (w, kw). */
  predicate GaveSlot(sb: Super, d: seq<Block>, inos: seq<Inode>, d': seq<Block>, inos': seq<Inode>, w: nat, kw: nat,
                     b: nat) {
    && Owners(sb, d', inos', {}) && OnlyAddrs(inos, inos', w)
    && Attached(d, inos, d', inos', w, kw, b) && InData(sb, b)
    && KeepsFiles(d, inos, d', inos') && InodeBlocksSame(sb, d, d')
  }

  lemma GiveAddr(sb: Super, d: seq<Block>, inos: seq<Inode>, w: nat, j: nat, b: nat)
    requires Owners(sb, d, inos, {}) && w < |inos| && j <= NDIRECT && inos[w].addrs[j] == 0
    requires b < sb.size && !Bit(sb, d, b)
    ensures GaveSlot(sb, d, inos, Allocated(sb, d, b), inos[w := inos[w].(addrs := inos[w].addrs[j := b])], w,
      if j == NDIRECT then MAXFILE else j, b)
  {
    var d' := Allocated(sb, d, b);
    var inos' := inos[w := inos[w].(addrs := inos[w].addrs[j := b])];
    FreeUnowned(sb, d, inos, {}, b);
    AllocKeeps(sb, d, inos, b);
    AllocKeepsFiles(sb, d, inos, b);
    if j == NDIRECT { AttachIndirectPointer(d', inos, w, b); } else { AttachDirect(d', inos, w, j, b); }
    AttachKeeps(sb, d', inos, d', inos', w, if j == NDIRECT then MAXFILE else j, b);
  }

  lemma GiveEntry(sb: Super, d: seq<Block>, inos: seq<Inode>, w: nat, k: nat, b: nat)
    requires Owners(sb, d, inos, {}) && w < |inos| && NDIRECT <= k < MAXFILE && Slot(d, inos[w], k) == 0
    requires inos[w].addrs[NDIRECT] != 0 && b < sb.size && !Bit(sb, d, b)
    ensures InData(sb, inos[w].addrs[NDIRECT]) && b != inos[w].addrs[NDIRECT]
    ensures var d1, ind := Allocated(sb, d, b), inos[w].addrs[NDIRECT];
      GaveSlot(sb, d, inos, d1[ind := PutWord(d1[ind], k - NDIRECT, b)], inos, w, k, b)
  {
    hide Bit, MapExact, KeepsFiles, SlotsDistinct, PutWord, Word;
    var d1, ind := Allocated(sb, d, b), inos[w].addrs[NDIRECT];
    FreeUnowned(sb, d, inos, {}, b);
    AllocKeeps(sb, d, inos, b);
    AllocKeepsFiles(sb, d, inos, b);
    assert Slot(d, inos[w], MAXFILE) == ind;
    assert InData(sb, ind);
    var d2 := d1[ind := PutWord(d1[ind], k - NDIRECT, b)];
    AttachEntry(d1, inos, w, k, b);
    forall x | 0 <= x < sb.size ensures Bit(sb, d2, x) == Bit(sb, d1, x) {
      BitDataWrite(sb, d1, ind, PutWord(d1[ind], k - NDIRECT, b), x);
    }
    AttachKeeps(sb, d1, inos, d2, inos, w, k, b);
    EntryKeepsFiles(sb, d1, inos, w, d2, k, b);
    KeepsTrans(d, inos, d1, inos, d2, inos);
  }

  /** The indirect block is not a data block of any file. */
  lemma EntryKeepsFiles(sb: Super, d: seq<Block>, inos: seq<Inode>, w: nat, d': seq<Block>, k: nat, b: nat)
    requires SlotsDistinct(d, inos) && w < |inos| && k < MAXFILE && 0 < inos[w].addrs[NDIRECT] < |d| && |d'| == |d|
    requires Attached(d, inos, d', inos, w, k, b)
    requires forall x :: 0 <= x < |d| && x != inos[w].addrs[NDIRECT] ==> d'[x] == d[x]
    ensures KeepsFiles(d, inos, d', inos)
  {
    assert Slot(d, inos[w], MAXFILE) == inos[w].addrs[NDIRECT];
    forall i, l | 0 <= i < |inos| && 0 <= l < MAXFILE && 0 < Slot(d, inos[i], l) < |d|
      ensures Slot(d', inos[i], l) == Slot(d, inos[i], l) && d'[Slot(d, inos[i], l)] == d[Slot(d, inos[i], l)]
    {
      assert Slot(d, inos[i], l) != Slot(d, inos[w], MAXFILE);
    }
  }

  /** bmap(w, bn): slot (w, bn) is mapped, with the indirect block if it needs one; all else is kept. */
  predicate Mapped(sb: Super, d: seq<Block>, inos: seq<Inode>, d': seq<Block>, inos': seq<Inode>, w: nat, bn: nat) {
    && Owners(sb, d', inos', {}) && OnlyAddrs(inos, inos', w) && KeepsFiles(d, inos, d', inos') && bn < MAXFILE
    && InodeBlocksSame(sb, d, d')
    && Slot(d', inos'[w], bn) != 0
    && (bn >= NDIRECT ==> Slot(d', inos'[w], MAXFILE) != 0)
    && (bn < NDIRECT || Slot(d, inos[w], MAXFILE) != 0 ==> Slot(d', inos'[w], MAXFILE) == Slot(d, inos[w], MAXFILE))
    && (Slot(d, inos[w], bn) != 0 ==> d' == d && inos' == inos)
    && (forall i, k :: 0 <= i < |inos| && 0 <= k < MAXFILE && (i != w || k != bn) ==>
         Slot(d', inos'[i], k) == Slot(d, inos[i], k))
  }

  lemma MappedTwoSteps(sb: Super, d: seq<Block>, inos: seq<Inode>, d1: seq<Block>, inos1: seq<Inode>,
                       d2: seq<Block>, inos2: seq<Inode>, w: nat, bn: nat, a: nat, b: nat)
    requires NDIRECT <= bn < MAXFILE && GaveSlot(sb, d, inos, d1, inos1, w, MAXFILE, a)
    requires GaveSlot(sb, d1, inos1, d2, inos2, w, bn, b) && b != 0 && a != 0
    ensures Mapped(sb, d, inos, d2, inos2, w, bn)
  {}

  lemma MappedOneStep(sb: Super, d: seq<Block>, inos: seq<Inode>, d1: seq<Block>, inos1: seq<Inode>, w: nat, bn: nat,
                      b: nat)
    requires bn < MAXFILE && GaveSlot(sb, d, inos, d1, inos1, w, bn, b) && b != 0
    requires bn >= NDIRECT ==> Slot(d, inos[w], MAXFILE) != 0
    ensures Mapped(sb, d, inos, d1, inos1, w, bn)
  {}

  /** Mapping the next block extends the mapped prefix by one. */
  lemma MappedPrefix(sb: Super, d: seq<Block>, inos: seq<Inode>, d': seq<Block>, inos': seq<Inode>, w: nat, bn: nat,
                     n: nat)
    requires Mapped(sb, d, inos, d', inos', w, bn) && MappedTo(d, inos[w], n) && bn <= n <= MAXFILE
    ensures MappedTo(d', inos'[w], if bn < n then n else n + 1)
  {}

  /** The indirect block, if there is one. */
  function IndirectSet(ip: Inode): (s: set<nat>)
    ensures |s| <= 1
  {
    if ip.addrs[NDIRECT] == 0 then {} else {ip.addrs[NDIRECT]}
  }

  // ---------------------------------------------------------------- writei's loop

  /** Files other than w have the same slots and the same bytes. */
  predicate OthersKept(d: seq<Block>, inos: seq<Inode>, d': seq<Block>, inos': seq<Inode>, w: nat) {
    && |d'| == |d| && |inos'| == |inos|
    && (forall i :: 0 <= i < |inos| && i != w ==> inos'[i] == inos[i])
    && (forall i, k :: 0 <= i < |inos| && i != w && 0 <= k <= MAXFILE ==> Slot(d', inos'[i], k) == Slot(d, inos[i], k))
    && (forall i, k :: 0 <= i < |inos| && i != w && 0 <= k < MAXFILE && 0 < Slot(d, inos[i], k) < |d| ==>
          d'[Slot(d, inos[i], k)] == d[Slot(d, inos[i], k)])
  }

  lemma OthersTrans(d: seq<Block>, inos: seq<Inode>, d1: seq<Block>, inos1: seq<Inode>, d2: seq<Block>,
                    inos2: seq<Inode>, w: nat)
    requires OthersKept(d, inos, d1, inos1, w) && OthersKept(d1, inos1, d2, inos2, w)
    ensures OthersKept(d, inos, d2, inos2, w)
  {}

  lemma MappedOthers(sb: Super, d: seq<Block>, inos: seq<Inode>, d': seq<Block>, inos': seq<Inode>, w: nat, bn: nat)
    requires Mapped(sb, d, inos, d', inos', w, bn)
    ensures OthersKept(d, inos, d', inos', w)
  {}

  lemma DataWriteOthers(sb: Super, d: seq<Block>, inos: seq<Inode>, w: nat, bn: nat, v: Block)
    requires Owners(sb, d, inos, {}) && w < |inos| && bn < MAXFILE && Slot(d, inos[w], bn) != 0
    ensures OthersKept(d, inos, d[Slot(d, inos[w], bn) := v], inos, w)
  {
    DataWriteOwners(sb, d, inos, w, bn, v);
  }

  /** tot bytes of src have been written at off; exactly the blocks needed so far are mapped. */
  predicate Writing(sb: Super, d: seq<Block>, inos: seq<Inode>, w: nat, bytes: seq<Byte>, off: nat, src: seq<Byte>,
                    tot: nat) {
    && Owners(sb, d, inos, {}) && w < |inos| && off <= |bytes| && tot <= |src|
    && MappedTo(d, inos[w], Blocks(|Splice(bytes, off, src[..tot])|))
    && FileIs(d, inos[w], Splice(bytes, off, src[..tot]))
  }

  /** The piece is moved into the block that bmap found for it. */
  predicate PieceMoved(d1: seq<Block>, ip: Inode, d2: seq<Block>, off: nat, src: seq<Byte>, tot: nat, m: nat) {
    && tot + m <= |src| && (off + tot) % BSIZE + m <= BSIZE && (off + tot) / BSIZE < MAXFILE
    && var a := Slot(d1, ip, (off + tot) / BSIZE);
      a < |d1| && d2 == d1[a := Patch(d1[a], (off + tot) % BSIZE, src[tot..tot + m])]
  }

  lemma WriteRoundFile(sb: Super, d: seq<Block>, inos: seq<Inode>, d1: seq<Block>, inos1: seq<Inode>, d2: seq<Block>,
                       w: nat, bytes: seq<Byte>, off: nat, src: seq<Byte>, tot: nat, m: nat)
    requires Writing(sb, d, inos, w, bytes, off, src, tot) && 0 < m && off + |src| <= MAXFILE * BSIZE
    requires Mapped(sb, d, inos, d1, inos1, w, (off + tot) / BSIZE) && PieceMoved(d1, inos1[w], d2, off, src, tot, m)
    ensures Writing(sb, d2, inos1, w, bytes, off, src, tot + m)
  {
    hide Splice, Patch, Bit, KeepsFiles, MappedTo, FileIs;
    var bn := (off + tot) / BSIZE;
    var a := Slot(d1, inos1[w], bn);
    var s0 := Splice(bytes, off, src[..tot]);
    BlocksAfter(|s0|, off + tot, m);
    KeptFileIs(d, inos, d1, inos1, w, s0);
    BlockBound(|s0|);
    MappedPrefix(sb, d, inos, d1, inos1, w, bn, Blocks(|s0|));
    DataWriteOwners(sb, d1, inos1, w, bn, d2[a]);
    assert forall k :: 0 <= k <= MAXFILE ==> Slot(d2, inos1[w], k) == Slot(d1, inos1[w], k);
    assert forall k :: 0 <= k < MAXFILE && k != bn ==> Slot(d1, inos1[w], k) != a;
    SameMapped(d1, d2, inos1[w], Blocks(|Splice(bytes, off, src[..tot + m])|));
    SpliceStep(d1, inos1[w], d2, bytes, off, src, tot, m);
  }

  lemma WriteRoundOthers(sb: Super, d: seq<Block>, inos: seq<Inode>, d1: seq<Block>, inos1: seq<Inode>, d2: seq<Block>,
                         w: nat, off: nat, src: seq<Byte>, tot: nat, m: nat)
    requires Owners(sb, d, inos, {}) && w < |inos|
    requires Mapped(sb, d, inos, d1, inos1, w, (off + tot) / BSIZE) && PieceMoved(d1, inos1[w], d2, off, src, tot, m)
    ensures OthersKept(d, inos, d2, inos1, w)
  {
    hide Patch, Bit;
    var bn := (off + tot) / BSIZE;
    MappedOthers(sb, d, inos, d1, inos1, w, bn);
    DataWriteOthers(sb, d1, inos1, w, bn, d2[Slot(d1, inos1[w], bn)]);
    OthersTrans(d, inos, d1, inos1, d2, inos1, w);
  }

  /** What the round allocates: a block exactly when the file grows by one, an indirect block at most once. */
  lemma RoundCost(sb: Super, d: seq<Block>, inos: seq<Inode>, d1: seq<Block>, inos1: seq<Inode>,
                  w: nat, bytes: seq<Byte>, off: nat, src: seq<Byte>, tot: nat, m: nat)
    requires Writing(sb, d, inos, w, bytes, off, src, tot) && 0 < m && tot + m <= |src|
    requires off + |src| <= MAXFILE * BSIZE
    requires (off + tot) % BSIZE + m <= BSIZE
    requires Mapped(sb, d, inos, d1, inos1, w, (off + tot) / BSIZE)
    ensures Blocks(|Splice(bytes, off, src[..tot + m])|) - Blocks(|Splice(bytes, off, src[..tot])|)
         == if Slot(d, inos[w], (off + tot) / BSIZE) == 0 then 1 else 0
    ensures inos[w].addrs[NDIRECT] != 0 || (off + tot) / BSIZE < NDIRECT ==>
      inos1[w].addrs[NDIRECT] == inos[w].addrs[NDIRECT]
    ensures inos[w].addrs[NDIRECT] == 0 && (off + tot) / BSIZE >= NDIRECT ==> inos1[w].addrs[NDIRECT] != 0
    ensures off + |src| <= |bytes| ==> inos1 == inos
  {}

  lemma BlockBound(n: nat)
    requires n <= MAXFILE * BSIZE
    ensures Blocks(n) <= MAXFILE
  {}

  /** The loop starts from the file as it is. */
  lemma WritingStarts(sb: Super, d: seq<Block>, inos: seq<Inode>, w: nat, off: nat, src: seq<Byte>)
    requires FsInv(sb, d, inos) && w < |inos| && off <= inos[w].size
    ensures inos[w].size <= MAXFILE * BSIZE
    ensures (forall k :: 0 <= k < Blocks(inos[w].size) ==> 0 < Slot(d, inos[w], k) < |d|)
    ensures Writing(sb, d, inos, w, Contents(d, inos[w]), off, src, 0)
  {}

  /** With the new size in the inode, the whole file system is consistent again. */
  lemma WritingEnds(sb: Super, d0: seq<Block>, inos0: seq<Inode>, d: seq<Block>, inos: seq<Inode>, w: nat,
                    bytes: seq<Byte>, off: nat, src: seq<Byte>, inos': seq<Inode>)
    requires FsInv(sb, d0, inos0) && Writing(sb, d, inos, w, bytes, off, src, |src|)
    requires OthersKept(d0, inos0, d, inos, w)
    requires inos' == inos[w := inos[w].(size := |Splice(bytes, off, src)|)]
    ensures FsInv(sb, d, inos') && FileIs(d, inos'[w], Splice(bytes, off, src))
    ensures OthersKept(d0, inos0, d, inos', w)
  {
    assert src[..|src|] == src;
    SizeOnly(sb, d, inos, inos', w);
    forall i | 0 <= i < |inos'|
      ensures inos'[i].size <= MAXFILE * BSIZE && MappedTo(d, inos'[i], Blocks(inos'[i].size))
    {
      if i != w {
        assert MappedTo(d0, inos0[i], Blocks(inos0[i].size));
        SameMapped(d0, d, inos0[i], Blocks(inos0[i].size));
      } else {
        SameSlots(d, inos[w], inos'[w], Blocks(inos'[w].size));
      }
    }
  }

  lemma SameMapped(d: seq<Block>, d': seq<Block>, ip: Inode, n: nat)
    requires MappedTo(d, ip, n) && forall k :: 0 <= k <= MAXFILE ==> Slot(d', ip, k) == Slot(d, ip, k)
    ensures MappedTo(d', ip, n)
  {}

  lemma SameSlots(d: seq<Block>, ip: Inode, ip': Inode, n: nat)
    requires ip'.addrs == ip.addrs && MappedTo(d, ip, n)
    ensures MappedTo(d, ip', n)
  {
    assert forall k :: 0 <= k <= MAXFILE ==> Slot(d, ip', k) == Slot(d, ip, k);
  }

  /** Ownership does not look at sizes. */
  lemma SizeOnly(sb: Super, d: seq<Block>, inos: seq<Inode>, inos': seq<Inode>, w: nat)
    requires Owners(sb, d, inos, {}) && |inos'| == |inos|
    requires forall i :: 0 <= i < |inos| ==> inos'[i].addrs == inos[i].addrs
    ensures Owners(sb, d, inos', {})
  {
    assert forall i, k :: 0 <= i < |inos| && 0 <= k <= MAXFILE ==> Slot(d, inos'[i], k) == Slot(d, inos[i], k);
    forall x | 0 <= x < sb.size
      ensures Bit(sb, d, x) <==> x < sb.datastart || (x != 0 && Owned(d, inos', x)) || x in {}
    {
      if Owned(d, inos, x) {
        var i, k :| 0 <= i < |inos| && 0 <= k <= MAXFILE && Slot(d, inos[i], k) == x;
        assert Slot(d, inos'[i], k) == x;
      }
      if Owned(d, inos', x) {
        var i, k :| 0 <= i < |inos'| && 0 <= k <= MAXFILE && Slot(d, inos'[i], k) == x;
        assert Slot(d, inos[i], k) == x;
      }
    }
  }

  // ---------------------------------------------------------------- log budget of one filewrite chunk

  /** Blocks touched by n bytes at off. */
  function Pieces(off: nat, n: nat): nat {
    if n == 0 then 0 else (off % BSIZE + n + BSIZE - 1) / BSIZE
  }

  /** min(n - tot, BSIZE - off % BSIZE) */
  function PieceSize(x: nat, left: nat): (m: nat)
    requires left > 0
    ensures 0 < m <= left && x % BSIZE + m <= BSIZE && (m == left || (x + m) % BSIZE == 0)
  {
    if left < BSIZE - x % BSIZE then left else BSIZE - x % BSIZE
  }

  /** A piece begins the write or begins a block. */
  predicate AtPiece(off: nat, tot: nat, n: nat) { tot == 0 || tot == n || (off + tot) % BSIZE == 0 }

  lemma PiecesStep(off: nat, tot: nat, n: nat)
    requires tot < n && AtPiece(off, tot, n)
    ensures Pieces(off, tot + PieceSize(off + tot, n - tot)) == Pieces(off, tot) + 1
    ensures AtPiece(off, tot + PieceSize(off + tot, n - tot), n)
  {}

  /** At most three blocks' worth of bytes, at an offset inside the file or at its end: the data blocks, one free
      map block per new block, the indirect block with its own free map block, and the inode are at most ten. */
  lemma ChunkBudget(off: nat, size: nat, n: nat)
    requires off <= size && n <= 1536
    ensures Pieces(off, n) + (Blocks(if off + n <= size then size else off + n) - Blocks(size)) + 3 <= 10
  {}

  /** Two writes in a row, the second where the first ended, are one. */
  lemma SpliceAppend(bytes: seq<Byte>, off: nat, s: seq<Byte>, t: seq<Byte>)
    requires off <= |bytes|
    ensures Splice(Splice(bytes, off, s), off + |s|, t) == Splice(bytes, off, s + t)
  {}

  // ---------------------------------------------------------------- itrunc

  /** The blocks in the first n slots. */
  function SlotSet(d: seq<Block>, ip: Inode, n: nat): set<nat>
    requires n <= MAXFILE + 1
  {
    set k | 0 <= k < n && Slot(d, ip, k) != 0 :: Slot(d, ip, k)
  }

  /** The bits of `gone` have been cleared in the free map and no data block has changed. */
  predicate Freed(sb: Super, d: seq<Block>, d': seq<Block>, gone: set<nat>) {
    && LayoutOk(sb) && |d| == sb.size && |d'| == sb.size
    && (forall x :: 0 <= x < sb.size ==> Bit(sb, d', x) == (Bit(sb, d, x) && x !in gone))
    && (forall x :: sb.datastart <= x < sb.size ==> d'[x] == d[x]) && InodeBlocksSame(sb, d, d')
  }

  lemma FreedNone(sb: Super, d: seq<Block>, ip: Inode)
    requires LayoutOk(sb) && |d| == sb.size
    ensures Freed(sb, d, d, SlotSet(d, ip, 0))
  {}

  /** The bit of the next slot is still set when its turn comes: no block is freed twice. */
  lemma NextSlotSet(sb: Super, d: seq<Block>, inos: seq<Inode>, d': seq<Block>, w: nat, n: nat)
    requires FsInv(sb, d, inos) && w < |inos| && n <= MAXFILE && Slot(d, inos[w], n) != 0
    requires Freed(sb, d, d', SlotSet(d, inos[w], n))
    ensures Slot(d, inos[w], n) < sb.size && Bit(sb, d', Slot(d, inos[w], n))
  {}

  lemma FreeNextSlot(sb: Super, d: seq<Block>, ip: Inode, d': seq<Block>, n: nat)
    requires n <= MAXFILE && Freed(sb, d, d', SlotSet(d, ip, n)) && 0 < Slot(d, ip, n) < sb.size
    ensures Freed(sb, d, MarkFree(sb, d', Slot(d, ip, n)), SlotSet(d, ip, n + 1))
  {
    var s := Slot(d, ip, n);
    var d2 := MarkFree(sb, d', s);
    assert SlotSet(d, ip, n + 1) == SlotSet(d, ip, n) + {s};
    forall x | 0 <= x < sb.size ensures Bit(sb, d2, x) == (Bit(sb, d, x) && x !in SlotSet(d, ip, n + 1)) {
      BitMarkFree(sb, d', s, x);
    }
  }

  lemma SkipEmptySlot(d: seq<Block>, ip: Inode, n: nat)
    requires n <= MAXFILE && Slot(d, ip, n) == 0
    ensures SlotSet(d, ip, n + 1) == SlotSet(d, ip, n)
  {}

  /** With no indirect block, the entries after the direct ones are empty. */
  lemma NoIndirectSlots(d: seq<Block>, ip: Inode)
    requires ip.addrs[NDIRECT] == 0
    ensures SlotSet(d, ip, MAXFILE + 1) == SlotSet(d, ip, NDIRECT)
  {}

  lemma TruncKeeps(sb: Super, d: seq<Block>, inos: seq<Inode>, d': seq<Block>, inos': seq<Inode>, w: nat)
    requires FsInv(sb, d, inos) && w < |inos| && Freed(sb, d, d', SlotSet(d, inos[w], MAXFILE + 1))
    requires |inos'| == |inos| && inos' == inos[w := inos[w].(addrs := inos'[w].addrs, size := 0)]
    requires forall j :: 0 <= j <= NDIRECT ==> inos'[w].addrs[j] == 0
    ensures FsInv(sb, d', inos') && OthersKept(d, inos, d', inos', w)
  {
    forall i, k | 0 <= i < |inos| && i != w && 0 <= k <= MAXFILE ensures Slot(d', inos'[i], k) == Slot(d, inos[i], k) {
      assert Slot(d, inos[i], MAXFILE) == inos[i].addrs[NDIRECT];
      SlotFrame(d, d', inos[i], k);
    }
    assert forall k :: 0 <= k <= MAXFILE ==> Slot(d', inos'[w], k) == 0;
    TruncOwners(sb, d, inos, d', inos', w);
    forall i | 0 <= i < |inos'|
      ensures inos'[i].size <= MAXFILE * BSIZE && MappedTo(d', inos'[i], Blocks(inos'[i].size))
    {
      if i != w {
        assert MappedTo(d, inos[i], Blocks(inos[i].size));
        SameMapped(d, d', inos[i], Blocks(inos[i].size));
      }
    }
    forall i, k | 0 <= i < |inos| && i != w && 0 <= k < MAXFILE && 0 < Slot(d, inos[i], k) < |d|
      ensures d'[Slot(d, inos[i], k)] == d[Slot(d, inos[i], k)]
    {
      assert InData(sb, Slot(d, inos[i], k));
    }
  }

  lemma TruncOwners(sb: Super, d: seq<Block>, inos: seq<Inode>, d': seq<Block>, inos': seq<Inode>, w: nat)
    requires Owners(sb, d, inos, {}) && w < |inos| && |inos'| == |inos|
    requires Freed(sb, d, d', SlotSet(d, inos[w], MAXFILE + 1))
    requires forall i, k :: 0 <= i < |inos| && i != w && 0 <= k <= MAXFILE ==>
      Slot(d', inos'[i], k) == Slot(d, inos[i], k)
    requires forall k :: 0 <= k <= MAXFILE ==> Slot(d', inos'[w], k) == 0
    ensures Owners(sb, d', inos', {})
  {
    forall x | 0 <= x < sb.size
      ensures Bit(sb, d', x) <==> x < sb.datastart || (x != 0 && Owned(d', inos', x)) || x in {}
    {
      if x >= sb.datastart { TruncOwned(sb, d, inos, d', inos', w, x); }
    }
  }

  lemma TruncOwned(sb: Super, d: seq<Block>, inos: seq<Inode>, d': seq<Block>, inos': seq<Inode>, w: nat, x: nat)
    requires SlotsDistinct(d, inos) && w < |inos| && |inos'| == |inos| && x != 0
    requires forall i, k :: 0 <= i < |inos| && i != w && 0 <= k <= MAXFILE ==>
      Slot(d', inos'[i], k) == Slot(d, inos[i], k)
    requires forall k :: 0 <= k <= MAXFILE ==> Slot(d', inos'[w], k) == 0
    ensures Owned(d', inos', x) <==> Owned(d, inos, x) && x !in SlotSet(d, inos[w], MAXFILE + 1)
  {}

  // ---------------------------------------------------------------- blocks before the free map

  /** The free map and the data blocks have not changed; inode blocks, the log and the superblock may have. */
  predicate SameFromMap(sb: Super, d: seq<Block>, d': seq<Block>) {
    LayoutOk(sb) && |d| == sb.size && |d'| == sb.size && forall x :: sb.bmapstart <= x < sb.size ==> d'[x] == d[x]
  }

  lemma SameFromMapSlots(sb: Super, d: seq<Block>, d': seq<Block>, inos: seq<Inode>, i: nat, k: nat)
    requires SameFromMap(sb, d, d') && SlotsInData(sb, d, inos) && i < |inos| && k <= MAXFILE
    ensures Slot(d', inos[i], k) == Slot(d, inos[i], k)
  {
    assert Slot(d, inos[i], MAXFILE) == inos[i].addrs[NDIRECT];
    SlotFrame(d, d', inos[i], k);
  }

  /** Ownership and contents are in the free map and the data blocks. */
  lemma FsInvFromMap(sb: Super, d: seq<Block>, d': seq<Block>, inos: seq<Inode>, w: nat)
    requires FsInv(sb, d, inos) && SameFromMap(sb, d, d')
    ensures FsInv(sb, d', inos) && KeepsFiles(d, inos, d', inos) && OthersKept(d, inos, d', inos, w)
  {
    forall i, k | 0 <= i < |inos| && 0 <= k <= MAXFILE ensures Slot(d', inos[i], k) == Slot(d, inos[i], k) {
      SameFromMapSlots(sb, d, d', inos, i, k);
    }
    forall x | 0 <= x < sb.size
      ensures Bit(sb, d', x) <==> x < sb.datastart || (x != 0 && Owned(d', inos, x)) || x in {}
    {
      SameOwned(d, d', inos, x);
    }
    forall i | 0 <= i < |inos| ensures inos[i].size <= MAXFILE * BSIZE && MappedTo(d', inos[i], Blocks(inos[i].size)) {
      SameMapped(d, d', inos[i], Blocks(inos[i].size));
    }
    forall i, k | 0 <= i < |inos| && 0 <= k < MAXFILE && 0 < Slot(d, inos[i], k) < |d|
      ensures d'[Slot(d, inos[i], k)] == d[Slot(d, inos[i], k)]
    {
      assert InData(sb, Slot(d, inos[i], k));
    }
  }

  lemma OtherFile(d: seq<Block>, inos: seq<Inode>, d': seq<Block>, inos': seq<Inode>, w: nat, i: nat, bytes: seq<Byte>)
    requires OthersKept(d, inos, d', inos', w) && i < |inos| && i != w && FileIs(d, inos[i], bytes)
    ensures FileIs(d', inos'[i], bytes)
  {}

  lemma PieceIndex(x: nat, m: nat, o: nat)
    requires x <= o < x + m && x % BSIZE + m <= BSIZE
    ensures o / BSIZE == x / BSIZE && o % BSIZE == x % BSIZE + (o - x)
  {}

  /** A piece of one block of a file is that piece of the file. */
  lemma PieceIsFile(sb: Super, d: seq<Block>, inos: seq<Inode>, w: nat, x: nat, m: nat)
    requires FsInv(sb, d, inos) && w < |inos| && 0 < m && x % BSIZE + m <= BSIZE && x + m <= inos[w].size
    ensures x / BSIZE < MAXFILE && 0 < Slot(d, inos[w], x / BSIZE) < |d|
    ensures inos[w].size <= MAXFILE * BSIZE
    ensures forall k :: 0 <= k < Blocks(inos[w].size) ==> 0 < Slot(d, inos[w], k) < |d|
    ensures d[Slot(d, inos[w], x / BSIZE)][x % BSIZE..x % BSIZE + m] == Contents(d, inos[w])[x..x + m]
  {
    ContentsMapped(sb, d, inos, w);
    BlockIndex(x, inos[w].size);
    var file, piece := Contents(d, inos[w]), d[Slot(d, inos[w], x / BSIZE)][x % BSIZE..x % BSIZE + m];
    forall o | x <= o < x + m ensures piece[o - x] == file[o] {
      PieceIndex(x, m, o);
    }
  }
}
