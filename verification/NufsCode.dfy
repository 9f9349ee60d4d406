/** alloc_block, alloc_inode, grow_inode, storage_write and storage_read of NUFS. */
module NufsCode {
  import opened Common
  import opened NufsModel

  class Nufs {
    var ibm: Bitmap
    var bbm: Bitmap
    var inodes: seq<INode>
    var blocks: seq<Block>
    /** The nodes of each file, by its first inode. */
    ghost var chains: map<nat, seq<nat>>

    ghost function Now(): Image
      reads this
    {
      Image(ibm, bbm, inodes, blocks)
    }

    ghost predicate Consistent()
      reads this
    {
      Sized(Now()) && BlocksOwned(Now()) && NoneLeaked(Now())
    }

    ghost predicate Valid()
      reads this
    {
      Consistent() && FilesOk(Now(), chains)
    }

    /** The bytes of the file that starts at inode h. */
    ghost function Contents(h: nat): (s: seq<Byte>)
      requires Valid() && h in chains
      reads this
      ensures |s| == inodes[h].size
    {
      Bytes(Now(), chains[h], inodes[h].size)
    }

    /** blocks_init and directory_init on an image of zeros: the metadata blocks are marked, and the root has the
        next block.  Its entries are left to directory_put. */
    constructor ()
      ensures Valid() && chains == map[ROOT_INODE := [ROOT_INODE]] && inodes[ROOT_INODE] == INode(0, METADATA, -1)
      ensures FreeInodes(ibm) > 0
    {
      var ib: Bitmap, bb: Bitmap := seq(8, _ => 0), seq(32, _ => 0);
      var i := 0;
      NoBits(bb);
      while i < METADATA
        invariant 0 <= i <= METADATA && |bb| == 32
        invariant forall b :: 0 <= b < BLOCK_COUNT ==> (Get(bb, b) <==> b < i)
      {
        PutBits(bb, i);
        bb := Put(bb, i, true);
        i := i + 1;
      }
      PutBits(bb, METADATA);
      NoBits(ib);
      PutBits(ib, ROOT_INODE);
      bb := Put(bb, METADATA, true);
      ib := Put(ib, ROOT_INODE, true);
      var table := seq(INODES, _ => INode(0, 0, 0))[ROOT_INODE := INode(0, METADATA, -1)];
      var store: seq<Block> := seq(BLOCK_COUNT, _ => seq(BLOCK_SIZE, _ => 0));
      ibm, bbm, inodes, blocks := ib, bb, table, store;
      chains := map[ROOT_INODE := [ROOT_INODE]];
      FreshImage(Image(ib, bb, table, store));
      NoneFree(ib, ROOT_INODE + 1);
    }

    /** alloc_block: the first free block, or -1. */
    method AllocBlock() returns (b: int)
      requires |bbm| == 32
      modifies `bbm
      ensures b == -1 ==> bbm == old(bbm) && forall i :: 1 <= i < BLOCK_COUNT ==> Get(bbm, i)
      ensures b != -1 ==> 1 <= b < BLOCK_COUNT && !Get(old(bbm), b) && bbm == Put(old(bbm), b, true)
      ensures b != -1 ==> forall i :: 1 <= i < b ==> Get(old(bbm), i)
    {
      var ii := 1;
      while ii < BLOCK_COUNT
        invariant 1 <= ii <= BLOCK_COUNT && bbm == old(bbm)
        invariant forall i :: 1 <= i < ii ==> Get(bbm, i)
      {
        if !Get(bbm, ii) {
          bbm := Put(bbm, ii, true);
          return ii;
        }
        ii := ii + 1;
      }
      return -1;
    }

    /** alloc_inode: an inode and a block for it, or -1.  It never lacks a block. */
    method AllocInode() returns (r: int, ghost b: nat)
      requires Consistent()
      modifies `ibm, `bbm, `inodes
      ensures Consistent()
      ensures r == -1 <==> FreeInodes(old(ibm)) == 0
      ensures r == -1 ==> Now() == old(Now())
      ensures r != -1 ==>
        0 <= r < INODES && !Used(old(Now()), r) && b < BLOCK_COUNT && Now() == NewInode(old(Now()), r, b)
      ensures r != -1 ==> FreeInodes(ibm) == FreeInodes(old(ibm)) - 1
    {
      hide Put, FreeFrom, BlocksOwned, NoneLeaked, NewInode;
      b := 0;
      NoneFree(ibm, ROOT_INODE + 1);
      var i := ROOT_INODE + 1;
      while i < INODES
        invariant ROOT_INODE + 1 <= i <= INODES && Now() == old(Now())
        invariant forall j :: ROOT_INODE + 1 <= j < i ==> Get(ibm, j)
      {
        if !Get(ibm, i) {
          FreeAfterPut(ibm, i, ROOT_INODE + 1);
          SomeBlockFree(Now());
          ibm := Put(ibm, i, true);
          var block := AllocBlock();
          assert block != -1;
          NewInodeOwned(old(Now()), i, block);
          NewInodeNoneLeaked(old(Now()), i, block);
          inodes := inodes[i := INode(0, block, -1)];
          NewInodeIs(old(Now()), i, block);
          b := block;
          return i, b;
        }
        i := i + 1;
      }
      return -1, b;
    }

    /** The inode that storage_mknod makes for a new file, or -1. */
    method NewFile() returns (r: int)
      requires Valid()
      modifies `ibm, `bbm, `inodes, `chains
      ensures Valid() && (r == -1 <==> FreeInodes(old(ibm)) == 0)
      ensures r == -1 ==> Now() == old(Now()) && chains == old(chains)
      ensures r != -1 ==>
        r >= 0 && r !in old(chains) && chains.Keys == old(chains).Keys + {r as nat} && Contents(r) == []
      ensures r != -1 ==> forall h :: h in old(chains) ==> Contents(h) == old(Contents(h))
    {
      hide BlocksOwned, NoneLeaked, ChainIs, Bytes, FreeInodes, NewInode, FilesOk;
      ghost var b;
      r, b := AllocInode();
      if r != -1 {
        NewInodeIs(old(Now()), r, b);
        FilesWithNew(old(Now()), chains, r, b);
        chains := chains[r := [r]];
      }
    }

    /** One round of grow_inode's loop: go on to the next node, making it if there is none. */
    method GrowRound(p: nat, ghost nodes: seq<nat>, ghost n: nat, ghost k: nat)
        returns (ok: bool, p': nat, ghost nodes': seq<nat>)
      requires Consistent() && Growing(Now(), nodes, n, k) && p == nodes[k] && n - k * BLOCK_SIZE > BLOCK_SIZE
      modifies `ibm, `bbm, `inodes
      ensures !ok ==> k + 1 == |nodes| && FreeInodes(old(ibm)) == 0
      ensures ok ==>
        Consistent() && Growing(Now(), nodes', n, k + 1) && p' == nodes'[k + 1] && Kept(old(Now()), Now(), nodes')
      ensures ok ==> if k + 1 < |nodes| then nodes' == nodes && ibm == old(ibm) else
        |nodes'| == |nodes| + 1 && nodes' == nodes + [p'] && !Used(old(Now()), p') &&
          FreeInodes(ibm) == FreeInodes(old(ibm)) - 1
    {
      hide BlocksOwned, NoneLeaked, Growing, Kept, FreeInodes, NewInode;
      ghost var s0 := Now();
      GrowingFacts(s0, nodes, n, k);
      nodes', p', ok := nodes, 0, true;
      KeptSelf(s0, nodes);
      if inodes[p].next == -1 {
        var i;
        ghost var b;
        i, b := AllocInode();
        if i == -1 {
          ok := false;
          return;
        }
        GrowingNew(s0, nodes, n, i, b);
        AppendKept(s0, nodes, i, b, n, k);
        inodes := inodes[p := inodes[p].(next := i)];
        nodes' := nodes + [i];
      }
      ghost var s1 := Now();
      GrowingFacts(s1, nodes', n, k);
      var sz := inodes[p].size;
      p' := inodes[p].next;
      GrowingNext(s1, nodes', n, k);
      ResizeKept(s1, nodes', p', sz - BLOCK_SIZE);
      inodes := inodes[p' := inodes[p'].(size := sz - BLOCK_SIZE)];
      KeptTrans(s0, s1, Now(), nodes', nodes');
    }

    /** grow_inode on the first inode of a file.  False is a chain that could not be extended: alloc_inode
        gave -1 and get_inode is called with it. */
    method GrowInode(inum: nat, size: nat) returns (ok: bool)
      requires Valid() && inum in chains
      modifies `ibm, `bbm, `inodes, `chains
      ensures ok <==> ChainLen(old(inodes[inum].size) + size) - ChainLen(old(inodes[inum].size)) <= FreeInodes(old(ibm))
      ensures ok ==> Valid() && chains.Keys == old(chains).Keys && inodes[inum].size == old(inodes[inum].size) + size
      ensures ok ==> Contents(inum)[..old(inodes[inum].size)] == old(Contents(inum))
      ensures ok ==> forall h :: h in chains && h != inum ==> Contents(h) == old(Contents(h))
    {
      hide BlocksOwned, NoneLeaked, Growing, Kept, FreeInodes, ChainIs, ChainLen, Apart;
      ghost var s0, nodes0 := Now(), chains[inum];
      assert FileOk(s0, nodes0, inum);
      ghost var n0: nat := inodes[inum].size;
      ghost var n := n0 + size;
      GrowingStarts(s0, nodes0, n0, n);
      ChainLength(s0, nodes0, n0, n);
      ResizeKept(s0, nodes0, inum, n);
      inodes := inodes[inum := inodes[inum].(size := inodes[inum].size + size)];
      var p := inum;
      ghost var nodes, k: nat := nodes0, 0;
      OthersApart(chains, inum);
      while inodes[p].size > BLOCK_SIZE
        invariant k < |nodes| && p == nodes[k] && p < |inodes| && inodes[p].size == n - k * BLOCK_SIZE
        invariant chains == old(chains)
        invariant Consistent() && Growing(Now(), nodes, n, k)
        invariant Kept(s0, Now(), nodes) && nodes0 <= nodes && |nodes| <= ChainLen(n) && (k > 0 ==> k * BLOCK_SIZE < n)
        invariant |nodes| == |nodes0| || |nodes| == k + 1
        invariant FreeInodes(ibm) == FreeInodes(s0.ibm) - (|nodes| - |nodes0|)
        invariant forall i :: |nodes0| <= i < |nodes| ==> !Used(s0, nodes[i])
        decreases n - k * BLOCK_SIZE
      {
        ghost var s1 := Now();
        RoomFor(n, k);
        ghost var nodes';
        ok, p, nodes' := GrowRound(p, nodes, n, k);
        if !ok {
          return;
        }
        GrowingFacts(Now(), nodes', n, k + 1);
        KeptTrans(s0, s1, Now(), nodes, nodes');
        NewNodeFresh(s0, s1, p, nodes);
        nodes, k := nodes', k + 1;
      }
      GrowingEnds(Now(), nodes, n, k);
      GrownFiles(s0, Now(), chains, inum, nodes, n0, n);
      chains := chains[inum := nodes];
      ok := true;
    }

    /** The loop both storage_read and storage_write start with: from the first inode to the one that
        holds the offset.  None is get_inode(-1), past the end of the chain. */
    method Walk(inum: nat, offset: nat, ghost nodes: seq<nat>, ghost n: nat) returns (r: Option<nat>, off: nat)
      requires Sized(Now()) && ChainIs(Now(), nodes, n) && nodes[0] == inum
      ensures r.None? <==> offset / BLOCK_SIZE >= |nodes|
      ensures r.Some? ==> r.value == nodes[offset / BLOCK_SIZE] && off == offset % BLOCK_SIZE
    {
      hide ChainLen;
      var p := inum;
      off := offset;
      ghost var k: nat := 0;
      while off >= BLOCK_SIZE
        invariant k <= offset / BLOCK_SIZE && k < |nodes| && p == nodes[k] && off == offset - k * BLOCK_SIZE
        decreases off
      {
        assert NodeIs(Now(), nodes, n, k);
        NextOffset(offset, k);
        if inodes[p].next == -1 {
          return None, off;
        }
        p := inodes[p].next;
        off := off - BLOCK_SIZE;
        k := k + 1;
      }
      LastOffset(offset, k);
      return Some(p), off;
    }

    /** memcpy into the block of one node. */
    method CopyIn(p: nat, ghost nodes: seq<nat>, ghost n: nat, ghost k: nat, at: nat, d: seq<Byte>)
      requires Consistent() && ChainIs(Now(), nodes, n) && k < |nodes| && p == nodes[k]
      requires at + |d| <= BLOCK_SIZE && k * BLOCK_SIZE + at + |d| <= n
      modifies `blocks
      ensures Consistent() && ChainIs(Now(), nodes, n)
      ensures Bytes(Now(), nodes, n) == Over(old(Bytes(Now(), nodes, n)), k * BLOCK_SIZE + at, d)
      ensures forall b :: 0 <= b < BLOCK_COUNT && b !in BlocksOf(Now(), nodes) ==> blocks[b] == old(blocks)[b]
    {
      WroteBlock(Now(), nodes, n, k, at, d);
      assert BlocksOf(Now(), nodes)[k] == BlockNo(Now(), p);
      ghost var s := Now();
      blocks := blocks[inodes[p].block := Patch(blocks[inodes[p].block], at, d)];
      SameButBlocks(s, Now(), nodes, n);
    }

    /** One round of storage_write's loop: the next node, filled from its start. */
    method CopyNext(p: nat, ghost nodes: seq<nat>, ghost n: nat, ghost k: nat, ghost file: seq<Byte>, buf: seq<Byte>,
                    ghost offset: nat, done: nat)
        returns (p': nat)
      requires Consistent() && ChainIs(Now(), nodes, n) && k < |nodes| && p == nodes[k] && done < |buf|
      requires offset + |buf| <= n == |file|
      requires offset + done == (k + 1) * BLOCK_SIZE && Bytes(Now(), nodes, n) == Over(file, offset, buf[..done])
      modifies `blocks
      ensures Consistent() && ChainIs(Now(), nodes, n) && k + 1 < |nodes| && p' == nodes[k + 1]
      ensures Bytes(Now(), nodes, n) ==
        Over(file, offset, buf[..if done + BLOCK_SIZE < |buf| then done + BLOCK_SIZE else |buf|])
      ensures BlocksOf(Now(), nodes) == old(BlocksOf(Now(), nodes))
      ensures forall b :: 0 <= b < BLOCK_COUNT && b !in BlocksOf(Now(), nodes) ==> blocks[b] == old(blocks)[b]
    {
      hide ChainIs, BlocksOwned, NoneLeaked, Bytes, BlocksOf, Over;
      var m := if |buf| - done > BLOCK_SIZE then BLOCK_SIZE else |buf| - done;
      StepNext(Now(), nodes, n, k, offset + done);
      p' := inodes[p].next;
      ghost var s := Now();
      CopyIn(p', nodes, n, k + 1, 0, buf[done..done + m]);
      OverOver(file, offset, buf[..done], buf[done..done + m]);
      assert buf[..done] + buf[done..done + m] == buf[..done + m];
      BlocksSame(s, Now(), nodes);
    }

    /** storage_write's copying, once the file is big enough: the first piece, then block after block. */
    method CopyAll(inum: nat, buf: seq<Byte>, offset: nat, ghost nodes: seq<nat>, ghost n: nat)
      requires Consistent() && ChainIs(Now(), nodes, n) && nodes[0] == inum && |buf| > 0 && offset + |buf| <= n
      modifies `blocks
      ensures Consistent() && ChainIs(Now(), nodes, n)
      ensures Bytes(Now(), nodes, n) == Over(old(Bytes(Now(), nodes, n)), offset, buf)
      ensures forall b :: 0 <= b < BLOCK_COUNT && b !in BlocksOf(Now(), nodes) ==> blocks[b] == old(blocks)[b]
    {
      hide ChainIs, BlocksOwned, NoneLeaked, Bytes, BlocksOf, Over;
      ghost var file := Bytes(Now(), nodes, n);
      ChainFacts(Now(), nodes, n);
      BlockIndex(offset, n);
      var w, off := Walk(inum, offset, nodes, n);
      var p := w.value;
      ghost var k: nat := offset / BLOCK_SIZE;
      ghost var s := Now();
      if |buf| + off > BLOCK_SIZE {
        var done := BLOCK_SIZE - off;
        CopyIn(p, nodes, n, k, off, buf[..done]);
        BlocksSame(s, Now(), nodes);
        while done < |buf|
          invariant 0 <= done && k < |nodes| && p == nodes[k] && offset + done == (k + 1) * BLOCK_SIZE
          invariant Consistent() && ChainIs(Now(), nodes, n)
          invariant Bytes(Now(), nodes, n) == Over(file, offset, buf[..if done < |buf| then done else |buf|])
          invariant BlocksOf(Now(), nodes) == BlocksOf(s, nodes)
          invariant forall b :: 0 <= b < BLOCK_COUNT && b !in BlocksOf(s, nodes) ==> blocks[b] == old(blocks)[b]
          decreases |buf| - done
        {
          p := CopyNext(p, nodes, n, k, file, buf, offset, done);
          k := k + 1;
          done := done + BLOCK_SIZE;
        }
        assert buf[..|buf|] == buf;
      } else {
        CopyIn(p, nodes, n, k, off, buf);
      }
    }

    /** storage_write.  Bytes between the old end and an offset beyond it are what the blocks held. */
    method StorageWrite(inum: nat, buf: seq<Byte>, offset: nat) returns (ok: bool)
      requires Valid() && inum in chains
      modifies `ibm, `bbm, `inodes, `blocks, `chains
      ensures ok <==>
        NewLen(old(inodes[inum].size), offset, |buf|) - ChainLen(old(inodes[inum].size)) <= FreeInodes(old(ibm))
      ensures ok ==> Valid() && chains.Keys == old(chains).Keys
      ensures ok ==> WroteAt(old(Contents(inum)), Contents(inum), offset, buf)
      ensures ok && offset <= old(inodes[inum].size) ==> Contents(inum) == Spliced(old(Contents(inum)), offset, buf)
      ensures ok ==> forall h :: h in chains && h != inum ==> Contents(h) == old(Contents(h))
    {
      hide BlocksOwned, NoneLeaked, ChainIs, Bytes, BlocksOf, ChainLen, FreeInodes, Apart, WroteAt;
      ghost var c0 := Contents(inum);
      if |buf| == 0 {
        WroteNothing(c0, offset, buf);
        return true;
      }
      ok := true;
      if |buf| + offset > inodes[inum].size {
        ok := GrowInode(inum, |buf| + offset - inodes[inum].size);
        if !ok {
          return;
        }
      }
      ghost var s1, nodes, n, c1 := Now(), chains[inum], inodes[inum].size, Contents(inum);
      assert FileOk(s1, nodes, inum);
      CopyAll(inum, buf, offset, nodes, n);
      FilesWritten(s1, Now(), chains, inum);
      OverIs(c0, c1, offset, buf);
      if offset <= |c0| { SplicedIs(c0, Contents(inum), offset, buf); }
    }

    /** storage_read.  None is a negative length or a walk past the end of the chain: it happens exactly
        when the offset is beyond the file, or at its end on a block boundary other than zero. */
    method StorageRead(inum: nat, size: nat, offset: nat) returns (r: Option<seq<Byte>>)
      requires Valid() && inum in chains
      ensures r.None? <==>
        size > 0 &&
        (offset > inodes[inum].size || (offset == inodes[inum].size && offset > 0 && offset % BLOCK_SIZE == 0))
      ensures r.Some? ==>
        r.value == if size == 0 then []
        else Contents(inum)[offset..if offset + size > inodes[inum].size then inodes[inum].size else offset + size]
    {
      if size == 0 {
        return Some([]);
      }
      var len: int := size;
      if offset + size > inodes[inum].size {
        len := inodes[inum].size - offset;
      }
      if len < 0 {
        return None;
      }
      assert FileOk(Now(), chains[inum], inum);
      PastTheEnd(offset, inodes[inum].size);
      var w, off := Walk(inum, offset, chains[inum], inodes[inum].size);
      if w.None? {
        return None;
      }
      var data := CopyOut(w.value, off, len, offset, chains[inum], inodes[inum].size);
      return Some(data);
    }

    /** storage_read's copying: the rest of the first block, whole blocks, and what remains of the last. */
    method CopyOut(first: nat, off: nat, len: nat, ghost offset: nat, ghost nodes: seq<nat>, ghost n: nat)
        returns (buf: seq<Byte>)
      requires Consistent() && ChainIs(Now(), nodes, n) && offset + len <= n && offset / BLOCK_SIZE < |nodes|
      requires first == nodes[offset / BLOCK_SIZE] && off == offset % BLOCK_SIZE
      ensures buf == Bytes(Now(), nodes, n)[offset..offset + len]
    {
      hide ChainIs, BlocksOwned, NoneLeaked, Bytes;
      ghost var file := Bytes(Now(), nodes, n);
      var p := first;
      ghost var k: nat := offset / BLOCK_SIZE;
      assert offset == k * BLOCK_SIZE + off;
      if len + off > BLOCK_SIZE {
        BlockBytes(Now(), nodes, n, k, off, BLOCK_SIZE);
        buf := blocks[inodes[p].block][off..BLOCK_SIZE];
        var left := len - (BLOCK_SIZE - off);
        while left > BLOCK_SIZE
          invariant 0 < left && k < |nodes| && p == nodes[k] && offset + (len - left) == (k + 1) * BLOCK_SIZE
          invariant left <= len
          invariant buf == file[offset..offset + (len - left)]
          decreases left
        {
          StepNext(Now(), nodes, n, k, offset + (len - left));
          p := inodes[p].next;
          k := k + 1;
          BlockBytes(Now(), nodes, n, k, 0, BLOCK_SIZE);
          buf := buf + blocks[inodes[p].block][0..BLOCK_SIZE];
          left := left - BLOCK_SIZE;
        }
        StepNext(Now(), nodes, n, k, offset + (len - left));
        p := inodes[p].next;
        k := k + 1;
        BlockBytes(Now(), nodes, n, k, 0, left);
        buf := buf + blocks[inodes[p].block][0..left];
      } else {
        BlockBytes(Now(), nodes, n, k, off, off + len);
        buf := blocks[inodes[p].block][off..off + len];
      }
    }
  }

  /** Nodes needed after a write. */
  function NewLen(n: nat, offset: nat, len: nat): nat {
    if len == 0 || offset + len <= n then ChainLen(n) else ChainLen(offset + len)
  }

  /** The file with buf at offset, longer if it must be. */
  function Spliced(s: seq<Byte>, offset: nat, buf: seq<Byte>): seq<Byte>
    requires offset <= |s|
  {
    s[..offset] + buf + (if offset + |buf| <= |s| then s[offset + |buf|..] else [])
  }

  /** c is c0 with buf at offset: as long as it must be, and the same bytes outside. */
  predicate WroteAt(c0: seq<Byte>, c: seq<Byte>, offset: nat, buf: seq<Byte>) {
    && |c| == (if |buf| == 0 || offset + |buf| <= |c0| then |c0| else offset + |buf|)
    && (forall o :: 0 <= o < |c| && offset <= o < offset + |buf| ==> c[o] == buf[o - offset])
    && (forall o :: 0 <= o < |c0| && !(offset <= o < offset + |buf|) ==> c[o] == c0[o])
  }

  lemma WroteNothing(c: seq<Byte>, offset: nat, buf: seq<Byte>)
    requires buf == []
    ensures WroteAt(c, c, offset, buf) && (offset <= |c| ==> Spliced(c, offset, buf) == c)
  {}

  lemma OverIs(c0: seq<Byte>, c1: seq<Byte>, offset: nat, buf: seq<Byte>)
    requires |buf| > 0 && |c1| == (if offset + |buf| <= |c0| then |c0| else offset + |buf|) && c1[..|c0|] == c0
    ensures WroteAt(c0, Over(c1, offset, buf), offset, buf)
  {
    assert forall o :: 0 <= o < |c0| ==> c1[o] == c1[..|c0|][o];
  }

  lemma SplicedIs(c0: seq<Byte>, c: seq<Byte>, offset: nat, buf: seq<Byte>)
    requires offset <= |c0| && WroteAt(c0, c, offset, buf)
    ensures c == Spliced(c0, offset, buf)
  {}

  /** Up to the end of the file, the chain falls short exactly at the end on a block boundary. */
  lemma PastTheEnd(offset: nat, n: nat)
    requires offset <= n
    ensures offset / BLOCK_SIZE >= ChainLen(n) <==> offset == n && n > 0 && n % BLOCK_SIZE == 0
  {}

  lemma ChainFacts(m: Image, nodes: seq<nat>, n: nat)
    requires Sized(m) && ChainIs(m, nodes, n)
    ensures nodes != [] && |nodes| == ChainLen(n) && nodes[0] < INODES && m.inodes[nodes[0]].size == n
  {
    assert NodeIs(m, nodes, n, 0);
  }

  /** Past the end of block k there is a node k + 1 as long as bytes are left. */
  lemma StepNext(m: Image, nodes: seq<nat>, n: nat, k: nat, o: nat)
    requires Sized(m) && ChainIs(m, nodes, n) && k < |nodes| && o == (k + 1) * BLOCK_SIZE && o < n
    ensures k + 1 < |nodes| && nodes[k] < INODES && m.inodes[nodes[k]].next == nodes[k + 1] && nodes[k + 1] < INODES
  {
    assert NodeIs(m, nodes, n, k);
    if k + 1 < |nodes| { assert NodeIs(m, nodes, n, k + 1); }
  }

  /** Bytes lo..hi of block k are that part of the file. */
  lemma BlockBytes(m: Image, nodes: seq<nat>, n: nat, k: nat, lo: nat, hi: nat)
    requires Sized(m) && BlocksOwned(m) && ChainIs(m, nodes, n) && k < |nodes| && lo <= hi <= BLOCK_SIZE
    requires k * BLOCK_SIZE + hi <= n
    ensures nodes[k] < INODES && 0 <= m.inodes[nodes[k]].block < |m.blocks|
    ensures m.blocks[m.inodes[nodes[k]].block][lo..hi] == Bytes(m, nodes, n)[k * BLOCK_SIZE + lo..k * BLOCK_SIZE + hi]
  {
    assert NodeIs(m, nodes, n, k);
    BlocksApart(m, nodes, n);
    var bs := BlocksOf(m, nodes);
    var a, b := m.blocks[bs[k]][lo..hi], Bytes(m, nodes, n)[k * BLOCK_SIZE + lo..k * BLOCK_SIZE + hi];
    forall i | 0 <= i < hi - lo ensures a[i] == b[i] {
      OffsetIn(k, lo + i);
    }
  }

  lemma BlocksSame(m: Image, m': Image, nodes: seq<nat>)
    requires m' == m.(blocks := m'.blocks)
    ensures BlocksOf(m', nodes) == BlocksOf(m, nodes)
  {}

  /** After a write into one file, all files are consistent and the others have the bytes they had. */
  lemma FilesWritten(m: Image, m': Image, chains: map<nat, seq<nat>>, h: nat)
    requires Sized(m) && BlocksOwned(m) && FilesOk(m, chains) && h in chains
    requires Sized(m') && BlocksOwned(m') && m' == m.(blocks := m'.blocks)
    requires forall b :: 0 <= b < BLOCK_COUNT && b !in BlocksOf(m', chains[h]) ==> m'.blocks[b] == m.blocks[b]
    ensures FilesOk(m', chains)
    ensures forall g :: g in chains && g != h ==>
      FileOk(m, chains[g], g) && ChainIs(m', chains[g], m.inodes[g].size) &&
        Bytes(m', chains[g], m.inodes[g].size) == Bytes(m, chains[g], m.inodes[g].size)
  {
    hide ChainIs, BlocksOwned, Bytes, BlocksOf, Apart;
    assert FileOk(m, chains[h], h);
    SameButBlocks(m, m', chains[h], m.inodes[h].size);
    forall g | g in chains ensures FileOk(m, chains[g], g) && FileOk(m', chains[g], g) &&
      (g != h ==> Bytes(m', chains[g], m.inodes[g].size) == Bytes(m, chains[g], m.inodes[g].size))
    {
      assert FileOk(m, chains[g], g);
      SameButBlocks(m, m', chains[g], m.inodes[g].size);
      if g != h {
        assert Apart(chains[g], chains[h]);
        WroteElsewhere(m, m', chains[h], m.inodes[h].size, chains[g], m.inodes[g].size);
      }
    }
  }

  lemma NextOffset(offset: nat, k: nat)
    requires offset - k * BLOCK_SIZE >= BLOCK_SIZE
    ensures k + 1 <= offset / BLOCK_SIZE
  {}

  lemma LastOffset(offset: nat, k: nat)
    requires 0 <= offset - k * BLOCK_SIZE < BLOCK_SIZE
    ensures k == offset / BLOCK_SIZE && offset - k * BLOCK_SIZE == offset % BLOCK_SIZE
  {}

  // ---------------------------------------------------------------- a fresh image

  lemma NoBits(bm: Bitmap)
    requires forall i :: 0 <= i < |bm| ==> bm[i] == 0
    ensures forall b :: 0 <= b < 8 * |bm| ==> !Get(bm, b)
  {}

  lemma PutBits(bm: Bitmap, i: nat)
    requires i < 8 * |bm|
    ensures forall b :: 0 <= b < 8 * |bm| ==> (Get(Put(bm, i, true), b) <==> Get(bm, b) || b == i)
  {
    forall b | 0 <= b < 8 * |bm| ensures Get(Put(bm, i, true), b) <==> Get(bm, b) || b == i {
      GetPut(bm, i, true, b);
    }
  }

  lemma FreshImage(m: Image)
    requires Sized(m) && m.inodes[ROOT_INODE] == INode(0, METADATA, -1)
    requires forall b :: 0 <= b < BLOCK_COUNT ==> (Get(m.bbm, b) <==> b <= METADATA)
    requires forall i :: 0 <= i < INODES ==> (Get(m.ibm, i) <==> i == ROOT_INODE)
    ensures BlocksOwned(m) && NoneLeaked(m) && FilesOk(m, map[ROOT_INODE := [ROOT_INODE]])
  {
    assert Used(m, ROOT_INODE) && BlockOf(m, METADATA);
    assert NodeIs(m, [ROOT_INODE], 0, 0);
  }

  /** A new inode is an empty file, and the others are as they were. */
  lemma FilesWithNew(m: Image, chains: map<nat, seq<nat>>, i: nat, b: nat)
    requires Sized(m) && BlocksOwned(m) && FilesOk(m, chains) && i < INODES && !Used(m, i) && b < BLOCK_COUNT
    requires BlocksOwned(NewInode(m, i, b))
    ensures i !in chains && FilesOk(NewInode(m, i, b), chains[i := [i]])
    ensures forall h :: h in chains ==>
      FileOk(m, chains[h], h) && FileOk(NewInode(m, i, b), chains[h], h) &&
      NewInode(m, i, b).inodes[h] == m.inodes[h] &&
      Bytes(NewInode(m, i, b), chains[h], m.inodes[h].size) == Bytes(m, chains[h], m.inodes[h].size)
  {
    var m' := NewInode(m, i, b);
    forall h | h in chains ensures i !in chains[h] && FileOk(m', chains[h], h) && m'.inodes[h] == m.inodes[h] &&
      Bytes(m', chains[h], m.inodes[h].size) == Bytes(m, chains[h], m.inodes[h].size)
    {
      NewElsewhere(m, chains[h], h, i, b);
    }
    NewUsed(m, i, b, i);
    assert NodeIs(m', [i], 0, 0);
  }

  lemma NewElsewhere(m: Image, nodes: seq<nat>, h: nat, i: nat, b: nat)
    requires Sized(m) && BlocksOwned(m) && FileOk(m, nodes, h) && i < INODES && !Used(m, i) && b < BLOCK_COUNT
    requires BlocksOwned(NewInode(m, i, b))
    ensures i !in nodes && h != i && FileOk(NewInode(m, i, b), nodes, h) && NewInode(m, i, b).inodes[h] == m.inodes[h]
    ensures Bytes(NewInode(m, i, b), nodes, m.inodes[h].size) == Bytes(m, nodes, m.inodes[h].size)
  {
    var m', n := NewInode(m, i, b), m.inodes[h].size;
    assert NodeIs(m, nodes, n, 0);
    forall k | 0 <= k < |nodes| ensures nodes[k] != i { assert NodeIs(m, nodes, n, k); }
    NewKept(m, i, b);
    KeptFile(m, m', [i], nodes, n);
    KeptBlocks(m, m', [i], nodes, n);
  }

  lemma NewKept(m: Image, i: nat, b: nat)
    requires Sized(m) && i < INODES && !Used(m, i) && b < BLOCK_COUNT
    ensures Kept(m, NewInode(m, i, b), [i])
  {
    forall j | 0 <= j < INODES && Used(m, j) ensures Used(NewInode(m, i, b), j) && j != i {
      NewUsed(m, i, b, j);
    }
  }

  /** The failing read, at a file that blocks_init, mknod and one write lead to: it ends on a block boundary. */
  method ReadAtBlockEnd(n: nat) returns (fs: Nufs, h: nat, r: Option<seq<Byte>>)
    requires n > 0
    ensures fs.Valid() && h in fs.chains && fs.inodes[h].size == BLOCK_SIZE && r.None?
  {
    hide Nufs.Valid, FreeInodes;
    fs := new Nufs();
    var i := fs.NewFile();
    h := i;
    var ok := fs.StorageWrite(h, seq(BLOCK_SIZE, _ => 0), 0);
    r := fs.StorageRead(h, n, BLOCK_SIZE);
  }
}
