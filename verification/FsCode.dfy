/** balloc, bfree, bmap, readi, writei and itrunc of fs.c, and filewrite of file.c.
    Buffers and the log appear as the one logical disk they are proved to be in
    module JournalRefinement; `logged` collects the blocks passed to log_write, `trace` the writes. */
module FsCode {
  import opened Common
  import opened FsLayout
  import opened FsModel
  import Journal

  /** One block changed and passed to log_write. */
  datatype BlockWrite = BlockWrite(bn: nat, data: Block)

  /** Panic stands for "balloc: out of blocks"; Driver holds the answer of a device driver. */
  datatype WriteResult = Wrote(n: nat) | Refused | Panic | Driver(answer: int)

  const T_DEV: nat := 3
  const NDEV: nat := 10

  /** devsw[major] has no driver for the call, or major is out of range; as a short, one of 0x8000 or more is
      negative. */
  predicate NoDriver<T>(devsw: seq<Option<T>>, major: nat) { major >= |devsw| || devsw[major].None? }

  /** The disk after some writes. */
  ghost function Overlaid(d: seq<Block>, tr: seq<BlockWrite>): (r: seq<Block>)
    ensures |r| == |d|
  {
    if tr == [] then d else
    var n := |tr| - 1;
    var e := Overlaid(d, tr[..n]);
    if tr[n].bn < |d| then e[tr[n].bn := tr[n].data] else e
  }

  lemma OverlaidNext(d: seq<Block>, tr: seq<BlockWrite>, w: BlockWrite)
    requires w.bn < |d|
    ensures Overlaid(d, tr + [w]) == Overlaid(d, tr)[w.bn := w.data]
  {
    assert (tr + [w])[..|tr|] == tr;
  }

  function BlocksIn(tr: seq<BlockWrite>): set<nat> { set i | 0 <= i < |tr| :: tr[i].bn }

  /** Writes to inode blocks, the free map and data blocks. */
  predicate InFs(sb: Super, tr: seq<BlockWrite>) { forall i :: 0 <= i < |tr| ==> sb.inodestart <= tr[i].bn < sb.size }

  class FileSystem {
    const sb: Super
    var disk: seq<Block>
    /** The cached inodes. */
    var mem: seq<Inode>
    ghost var logged: set<nat>
    /** The writes of the transaction, and the disk at its start. */
    ghost var trace: seq<BlockWrite>
    ghost var base: seq<Block>

    ghost predicate Ready()
      reads this
    {
      LayoutOk(sb) && |disk| == sb.size
    }

    /** Between operations: files and free map agree, and the inode blocks are up to date. */
    ghost predicate Valid()
      reads this
    {
      FsInv(sb, disk, mem) && mem == Inodes(sb, disk)
    }

    /** The writes so far lead from the disk at the start of the transaction to the disk now. */
    ghost predicate Traced()
      reads `disk, `logged, `trace, `base
    {
      disk == Overlaid(base, trace) && logged == BlocksIn(trace) && InFs(sb, trace)
    }

    /** bread, change, log_write and brelse of one block. */
    method Put(bn: nat, data: Block)
      requires bn < |disk|
      modifies `disk, `logged, `trace
      ensures disk == old(disk)[bn := data] && logged == old(logged) + {bn}
      ensures old(Traced()) && sb.inodestart <= bn < sb.size ==> Traced()
    {
      disk := disk[bn := data];
      logged := logged + {bn};
      ghost var w := BlockWrite(bn, data);
      if bn < |base| { OverlaidNext(base, trace, w); }
      assert BlocksIn(trace + [w]) == BlocksIn(trace) + {bn} by {
        forall x | x in BlocksIn(trace) + {bn} ensures x in BlocksIn(trace + [w]) {
          if x == bn { assert (trace + [w])[|trace|] == w; } else {
            var i :| 0 <= i < |trace| && trace[i].bn == x;
            assert (trace + [w])[i].bn == x;
          }
        }
      }
      trace := trace + [w];
    }

    /** begin_op, as the trace sees it. */
    ghost method StartTrace()
      modifies `logged, `trace, `base
      ensures Traced() && base == disk && logged == {} && trace == []
    {
      logged, trace, base := {}, [], disk;
    }

    lemma TransactionNow()
      requires Traced() && |logged| <= Journal.MAXOPBLOCKS
      ensures Transaction(sb, base, trace, disk)
    {}

    /** An empty file system as mkfs writes it: every block zero, and the bits of the metadata blocks set. */
    constructor (sb: Super)
      requires LayoutOk(sb)
      ensures Valid() && this.sb == sb && forall i :: 0 <= i < |mem| ==> mem[i] == EmptyInode
    {
      this.sb := sb;
      var d: seq<Block> := seq(sb.size, _ => ZeroBlock());
      var inos: seq<Inode> := seq(sb.ninodes, _ => EmptyInode);
      mem, logged, trace, base := inos, {}, [], d;
      var i := 0;
      ZeroBits(sb, d);
      while i < sb.datastart
        invariant 0 <= i <= sb.datastart && |d| == sb.size
        invariant forall x :: 0 <= x < sb.size ==> (Bit(sb, d, x) <==> x < i)
        invariant forall x :: sb.inodestart <= x < sb.bmapstart ==> d[x] == ZeroBlock()
      {
        forall x | 0 <= x < sb.size ensures Bit(sb, MarkUsed(sb, d, i), x) == (Bit(sb, d, x) || x == i) {
          BitMarkUsed(sb, d, i, x);
        }
        d := MarkUsed(sb, d, i);
        i := i + 1;
      }
      disk := d;
      EmptyTable(sb, d, inos);
    }

    /** Bit bi of the map block for b: if it is clear, the block is marked and zeroed. */
    method TakeIfFree(b: nat, bi: nat) returns (taken: bool)
      requires Ready() && b % BPB == 0 && bi < BPB && b + bi < sb.size
      modifies `disk, `logged, `trace
      ensures old(Traced()) && (taken ==> sb.inodestart <= b + bi) ==> Traced()
      ensures Ready() && (taken <==> !Bit(sb, old(disk), b + bi))
      ensures taken ==>
        disk == Allocated(sb, old(disk), b + bi) && logged == old(logged) + {MapBlock(sb, b + bi), b + bi}
      ensures !taken ==> disk == old(disk) && logged == old(logged)
    {
      hide Traced;
      var m := MapBlock(sb, b);
      assert MapBlock(sb, b + bi) == m && (b + bi) % BPB == bi;
      if disk[m][bi / 8] & Mask(bi) == 0 {
        Put(m, disk[m][bi / 8 := disk[m][bi / 8] | Mask(bi)]);
        Put(b + bi, ZeroBlock());
        return true;
      }
      return false;
    }

    /** The first block whose bit is clear is marked and zeroed. */
    method Balloc() returns (r: Option<nat>)
      requires Ready()
      modifies `disk, `logged, `trace
      ensures old(Traced()) && (r.Some? ==> sb.inodestart <= r.value) ==> Traced()
      ensures Ready()
      ensures r.Some? ==> r.value < sb.size && !Bit(sb, old(disk), r.value) && forall x :: 0 <= x < r.value ==>
        Bit(sb, old(disk), x)
      ensures r.Some? ==>
        disk == Allocated(sb, old(disk), r.value) && logged == old(logged) + {MapBlock(sb, r.value), r.value}
      ensures r.None? ==> disk == old(disk) && logged == old(logged) && forall x :: 0 <= x < sb.size ==>
        Bit(sb, disk, x)
    {
      hide Bit, Allocated, MapBlock, Traced;
      var b := 0;
      while b < sb.size
        invariant 0 <= b && b % BPB == 0 && disk == old(disk) && logged == old(logged)
        invariant old(Traced()) ==> Traced()
        invariant forall x :: 0 <= x < b && x < sb.size ==> Bit(sb, disk, x)
      {
        var bi := 0;
        while bi < BPB && b + bi < sb.size
          invariant 0 <= bi <= BPB && disk == old(disk) && logged == old(logged)
          invariant old(Traced()) ==> Traced()
          invariant forall x :: 0 <= x < b + bi && x < sb.size ==> Bit(sb, disk, x)
        {
          var taken := TakeIfFree(b, bi);
          if taken {
            return Some(b + bi);
          }
          bi := bi + 1;
        }
        b := b + BPB;
      }
      return None;
    }

    /** False is the panic "freeing free block". */
    method Bfree(b: nat) returns (ok: bool)
      requires Ready() && b < sb.size
      modifies `disk, `logged, `trace
      ensures old(Traced()) ==> Traced()
      ensures Ready()
      ensures ok <==> Bit(sb, old(disk), b)
      ensures ok ==> disk == MarkFree(sb, old(disk), b) && logged == old(logged) + {MapBlock(sb, b)}
      ensures !ok ==> disk == old(disk)
    {
      hide Traced;
      var m, bi := MapBlock(sb, b), b % BPB;
      if disk[m][bi / 8] & Mask(bi) == 0 {
        return false;
      }
      Put(m, disk[m][bi / 8 := disk[m][bi / 8] & !Mask(bi)]);
      return true;
    }

    /** Copy the cached inode to its inode block: ilock will read it back, and no other inode changes. */
    method Iupdate(w: nat)
      requires Ready() && w < |mem| == sb.ninodes
      modifies `disk, `logged, `trace
      ensures old(Traced()) ==> Traced()
      ensures Ready() && InodeAt(sb, disk, w) == mem[w]
      ensures forall i :: 0 <= i < |mem| && i != w ==> InodeAt(sb, disk, i) == InodeAt(sb, old(disk), i)
      ensures forall x :: 0 <= x < |disk| && x != InodeBlock(sb, w) ==> disk[x] == old(disk)[x]
      ensures logged == old(logged) + {InodeBlock(sb, w)}
    {
      hide Word, PutWord, Traced;
      var ib, ip := InodeBlock(sb, w), mem[w];
      var b := PutInode(disk[ib], w % IPB, ip);
      OtherInodes(disk, b, w);
      Put(ib, b);
    }

    lemma OtherInodes(d: seq<Block>, b: Block, w: nat)
      requires LayoutOk(sb) && |d| == sb.size && w < sb.ninodes
      requires forall i :: 0 <= i < IPB && i != w % IPB ==> InodeIn(b, i) == InodeIn(d[InodeBlock(sb, w)], i)
      ensures forall i :: 0 <= i < sb.ninodes && i != w ==>
        InodeAt(sb, d[InodeBlock(sb, w) := b], i) == InodeAt(sb, d, i)
    {}

    /** Inode w has just been written to its block and the others have not changed. */
    lemma UpToDate(d0: seq<Block>, inos0: seq<Inode>, w: nat)
      requires Ready() && |d0| == |disk| && inos0 == Inodes(sb, d0) && |mem| == |inos0| && w < |mem|
      requires forall i :: 0 <= i < |mem| && i != w ==> mem[i] == inos0[i] && InodeAt(sb, disk, i) == InodeAt(sb, d0, i)
      requires InodeAt(sb, disk, w) == mem[w]
      ensures mem == Inodes(sb, disk)
    {}

    /** ip->addrs[j] = balloc(): a direct block, or the indirect block for j == NDIRECT. */
    method AllocAddr(w: nat, j: nat) returns (r: Option<nat>)
      requires Owners(sb, disk, mem, {}) && w < |mem| && j <= NDIRECT && mem[w].addrs[j] == 0
      modifies `disk, `mem, `logged, `trace
      ensures old(Traced()) ==> Traced()
      ensures r.Some? ==> GaveSlot(sb, old(disk), old(mem), disk, mem, w, if j == NDIRECT then MAXFILE else j, r.value)
      ensures r.Some? ==>
        r.value != 0 && mem[w].addrs[j] == r.value && logged == old(logged) + {MapBlock(sb, r.value), r.value}
      ensures r.None? ==> |disk| == sb.size && forall x :: 0 <= x < sb.size ==> Bit(sb, disk, x)
    {
      hide Traced;
      r := Balloc();
      if r.Some? {
        GiveAddr(sb, old(disk), mem, w, j, r.value);
        mem := mem[w := mem[w].(addrs := mem[w].addrs[j := r.value])];
      }
    }

    /** a[k - NDIRECT] = balloc(); log_write(bp) */
    method AllocEntry(w: nat, k: nat) returns (r: Option<nat>)
      requires Owners(sb, disk, mem, {}) && w < |mem| && NDIRECT <= k < MAXFILE
      requires mem[w].addrs[NDIRECT] != 0 && Slot(disk, mem[w], k) == 0
      modifies `disk, `logged, `trace
      ensures old(Traced()) ==> Traced()
      ensures r.Some? ==> GaveSlot(sb, old(disk), mem, disk, mem, w, k, r.value)
      ensures r.Some? ==> r.value != 0 && Slot(disk, mem[w], k) == r.value
      ensures r.Some? ==> logged == old(logged) + {MapBlock(sb, r.value), r.value, mem[w].addrs[NDIRECT]}
      ensures r.None? ==> |disk| == sb.size && forall x :: 0 <= x < sb.size ==> Bit(sb, disk, x)
    {
      hide Traced;
      var ind := mem[w].addrs[NDIRECT];
      r := Balloc();
      if r.Some? {
        GiveEntry(sb, old(disk), mem, w, k, r.value);
        Put(ind, PutWord(disk[ind], k - NDIRECT, r.value));
      }
    }

    /** bmap.  None is balloc's panic.  The ghost result holds the free map blocks logged on the way,
        one for each block allocated. */
    method Bmap(w: nat, bn: nat) returns (r: Option<nat>, ghost maps: set<nat>)
      requires Owners(sb, disk, mem, {}) && w < |mem| && bn < MAXFILE
      modifies `disk, `mem, `logged, `trace
      ensures old(Traced()) ==> Traced()
      ensures r.Some? ==> Mapped(sb, old(disk), old(mem), disk, mem, w, bn) && r.value == Slot(disk, mem[w], bn)
      ensures r.Some? ==>
        logged <= old(logged) + {r.value} + maps + (if bn < NDIRECT then {} else {mem[w].addrs[NDIRECT]})
      ensures Slot(old(disk), old(mem)[w], bn) != 0 ==> r.Some? && logged == old(logged)
      ensures r.Some? ==> |maps| <= (if Slot(old(disk), old(mem)[w], bn) == 0 then 1 else 0) +
                                    (if bn >= NDIRECT && old(mem)[w].addrs[NDIRECT] == 0 then 1 else 0)
      ensures r.None? ==> |disk| == sb.size && forall x :: 0 <= x < sb.size ==> Bit(sb, disk, x)
    {
      hide Traced;
      maps := {};
      if bn < NDIRECT {
        if mem[w].addrs[bn] == 0 {
          r := AllocAddr(w, bn);
          if r.Some? {
            maps := {MapBlock(sb, r.value)};
            MappedOneStep(sb, old(disk), old(mem), disk, mem, w, bn, r.value);
          }
        } else {
          r := Some(mem[w].addrs[bn]);
        }
        return;
      }
      r, maps := BmapIndirect(w, bn);
    }

    /** bmap past the direct blocks. */
    method BmapIndirect(w: nat, bn: nat) returns (r: Option<nat>, ghost maps: set<nat>)
      requires Owners(sb, disk, mem, {}) && w < |mem| && NDIRECT <= bn < MAXFILE
      modifies `disk, `mem, `logged, `trace
      ensures old(Traced()) ==> Traced()
      ensures r.Some? ==> Mapped(sb, old(disk), old(mem), disk, mem, w, bn) && r.value == Slot(disk, mem[w], bn)
      ensures r.Some? ==> logged <= old(logged) + {r.value} + maps + {mem[w].addrs[NDIRECT]}
      ensures Slot(old(disk), old(mem)[w], bn) != 0 ==> r.Some? && logged == old(logged)
      ensures r.Some? ==> |maps| <= (if Slot(old(disk), old(mem)[w], bn) == 0 then 1 else 0) +
                                    (if old(mem)[w].addrs[NDIRECT] == 0 then 1 else 0)
      ensures r.None? ==> |disk| == sb.size && forall x :: 0 <= x < sb.size ==> Bit(sb, disk, x)
    {
      hide SlotsDistinct, MapExact, Traced;
      maps := {};
      var a := mem[w].addrs[NDIRECT];
      var fresh_ := a == 0;
      if fresh_ {
        r := AllocAddr(w, NDIRECT);
        if r.None? {
          return;
        }
        maps := {MapBlock(sb, r.value)};
        a := r.value;
      }
      ghost var d1, m1 := disk, mem;
      assert Slot(disk, mem[w], MAXFILE) == a;
      assert InData(sb, a);
      var e := Word(disk[a], bn - NDIRECT);
      if e != 0 {
        return Some(e), maps;
      }
      ghost var maps1 := maps;
      r := AllocEntry(w, bn);
      if r.Some? {
        maps := maps1 + {MapBlock(sb, r.value)};
        if fresh_ {
          MappedTwoSteps(sb, old(disk), old(mem), d1, m1, disk, mem, w, bn, a, r.value);
        } else {
          MappedOneStep(sb, old(disk), old(mem), disk, mem, w, bn, r.value);
        }
      }
    }

    /** One round of writei's loop: map the block, move the piece in, log the block. */
    method MovePiece(w: nat, ghost bytes: seq<Byte>, off: nat, src: seq<Byte>, tot: nat)
        returns (next: nat, ok: bool, ghost maps: set<nat>, ghost a: nat)
      requires Writing(sb, disk, mem, w, bytes, off, src, tot) && tot < |src| && off + |src| <= MAXFILE * BSIZE
      modifies `disk, `mem, `logged, `trace
      ensures old(Traced()) ==> Traced()
      ensures next == tot + PieceSize(off + tot, |src| - tot)
      ensures ok ==> Writing(sb, disk, mem, w, bytes, off, src, next) && OnlyAddrs(old(mem), mem, w)
      ensures ok ==> OthersKept(old(disk), old(mem), disk, mem, w) && InodeBlocksSame(sb, old(disk), disk)
      ensures ok ==> logged <= old(logged) + {a} + maps + IndirectSet(mem[w])
      ensures ok ==> |maps| <= Blocks(|Splice(bytes, off, src[..next])|) - Blocks(|Splice(bytes, off, src[..tot])|) +
                               (if mem[w].addrs[NDIRECT] != old(mem)[w].addrs[NDIRECT] then 1 else 0)
      ensures ok && old(mem)[w].addrs[NDIRECT] != 0 ==> mem[w].addrs[NDIRECT] == old(mem)[w].addrs[NDIRECT]
      ensures ok && off + |src| <= |bytes| ==> mem == old(mem)
      ensures !ok ==> |disk| == sb.size && forall x :: 0 <= x < sb.size ==> Bit(sb, disk, x)
    {
      hide Traced, FileIs, MappedTo, KeepsFiles, OthersKept, Splice, Blocks, Patch, Bit, SlotsDistinct, MapExact;
      var m := PieceSize(off + tot, |src| - tot);
      next, a := tot + m, 0;
      var addr;
      addr, maps := Bmap(w, (off + tot) / BSIZE);
      if addr.None? {
        ok := false;
        return;
      }
      a := addr.value;
      ghost var d1 := disk;
      RoundCost(sb, old(disk), old(mem), disk, mem, w, bytes, off, src, tot, m);
      SlotOnDisk(w, (off + tot) / BSIZE);
      Put(addr.value, Patch(disk[addr.value], (off + tot) % BSIZE, src[tot..tot + m]));
      WriteRoundFile(sb, old(disk), old(mem), d1, mem, disk, w, bytes, off, src, tot, m);
      WriteRoundOthers(sb, old(disk), old(mem), d1, mem, disk, w, off, src, tot, m);
      ok := true;
    }

    /** The same, with the count of pieces. */
    method WritePiece(w: nat, ghost bytes: seq<Byte>, off: nat, src: seq<Byte>, tot: nat)
        returns (next: nat, ok: bool, ghost maps: set<nat>, ghost a: nat)
      requires Writing(sb, disk, mem, w, bytes, off, src, tot) && tot < |src| && off + |src| <= MAXFILE * BSIZE
      requires AtPiece(off, tot, |src|)
      modifies `disk, `mem, `logged, `trace
      ensures old(Traced()) ==> Traced()
      ensures tot < next <= |src| && AtPiece(off, next, |src|) && Pieces(off, next) == Pieces(off, tot) + 1
      ensures ok ==> Writing(sb, disk, mem, w, bytes, off, src, next) && OnlyAddrs(old(mem), mem, w)
      ensures ok ==> OthersKept(old(disk), old(mem), disk, mem, w) && InodeBlocksSame(sb, old(disk), disk)
      ensures ok ==> logged <= old(logged) + {a} + maps + IndirectSet(mem[w])
      ensures ok ==> |maps| <= Blocks(|Splice(bytes, off, src[..next])|) - Blocks(|Splice(bytes, off, src[..tot])|) +
                               (if mem[w].addrs[NDIRECT] != old(mem)[w].addrs[NDIRECT] then 1 else 0)
      ensures ok && old(mem)[w].addrs[NDIRECT] != 0 ==> mem[w].addrs[NDIRECT] == old(mem)[w].addrs[NDIRECT]
      ensures ok && off + |src| <= |bytes| ==> mem == old(mem)
      ensures !ok ==> |disk| == sb.size && forall x :: 0 <= x < sb.size ==> Bit(sb, disk, x)
    {
      hide Traced;
      PiecesStep(off, tot, |src|);
      next, ok, maps, a := MovePiece(w, bytes, off, src, tot);
    }

    lemma SlotOnDisk(w: nat, k: nat)
      requires Owners(sb, disk, mem, {}) && w < |mem| && k <= MAXFILE && Slot(disk, mem[w], k) != 0
      ensures InData(sb, Slot(disk, mem[w], k)) && LayoutOk(sb) && |disk| == sb.size
    {
      assert InData(sb, Slot(disk, mem[w], k));
    }

    /** writei's loop.  The ghost results bound what it logs. */
    method WritePieces(w: nat, ghost bytes: seq<Byte>, off: nat, src: seq<Byte>)
        returns (ok: bool, ghost data: set<nat>, ghost maps: set<nat>)
      requires Writing(sb, disk, mem, w, bytes, off, src, 0) && off + |src| <= MAXFILE * BSIZE
      requires |bytes| <= MAXFILE * BSIZE
      modifies `disk, `mem, `logged, `trace
      ensures old(Traced()) ==> Traced()
      ensures ok ==> Writing(sb, disk, mem, w, bytes, off, src, |src|) && OnlyAddrs(old(mem), mem, w)
      ensures ok ==> OthersKept(old(disk), old(mem), disk, mem, w) && InodeBlocksSame(sb, old(disk), disk)
      ensures ok ==> logged <= old(logged) + data + maps + IndirectSet(mem[w]) && |data| <= Pieces(off, |src|)
      ensures ok ==> |maps| <= Blocks(|Splice(bytes, off, src)|) - Blocks(|bytes|) + 1
      ensures ok && off + |src| <= |bytes| ==> mem == old(mem)
      ensures !ok ==> |disk| == sb.size && forall x :: 0 <= x < sb.size ==> Bit(sb, disk, x)
    {
      hide Traced, FileIs, MappedTo, Blocks, Bit, SlotsDistinct, MapExact;
      data, maps := {}, {};
      var tot := 0;
      assert Splice(bytes, off, src[..0]) == bytes;
      while tot < |src|
        invariant 0 <= tot <= |src| && (old(Traced()) ==> Traced())
        invariant Writing(sb, disk, mem, w, bytes, off, src, tot) && OnlyAddrs(old(mem), mem, w)
        invariant OthersKept(old(disk), old(mem), disk, mem, w) && InodeBlocksSame(sb, old(disk), disk)
        invariant logged <= old(logged) + data + maps + IndirectSet(mem[w]) && |data| <= Pieces(off, tot)
        invariant |maps| <= Blocks(|Splice(bytes, off, src[..tot])|) - Blocks(|bytes|) +
                            (if mem[w].addrs[NDIRECT] != old(mem)[w].addrs[NDIRECT] then 1 else 0)
        invariant old(mem)[w].addrs[NDIRECT] != 0 ==> mem[w].addrs[NDIRECT] == old(mem)[w].addrs[NDIRECT]
        invariant off + |src| <= |bytes| ==> mem == old(mem)
        invariant AtPiece(off, tot, |src|)
      {
        ghost var d0, m0, l0 := disk, mem, logged;
        ghost var newMaps, a;
        var next;
        next, ok, newMaps, a := WritePiece(w, bytes, off, src, tot);
        if !ok {
          return;
        }
        OthersTrans(old(disk), old(mem), d0, m0, disk, mem, w);
        data, maps := data + {a}, maps + newMaps;
        tot := next;
      }
      ok := true;
      assert src[..|src|] == src;
    }

    /** The bytes of file i. */
    ghost function FileOf(i: nat): seq<Byte>
      requires Valid() && i < |mem|
      reads this
    {
      ContentsMapped(sb, disk, mem, i);
      Contents(disk, mem[i])
    }

    /** The bytes of every file. */
    ghost function Files(): (s: seq<seq<Byte>>)
      requires Valid()
      reads this
      ensures |s| == |mem| && forall i :: 0 <= i < |s| ==> s[i] == FileOf(i) && |s[i]| == mem[i].size
    {
      seq(|mem|, i requires 0 <= i < |mem| && Valid() reads this => FileOf(i))
    }

    /** writei.  On a file the bytes at off are replaced, the file grows if it must, no other file changes, and
        the inode blocks are up to date again.  On a device the driver's answer is passed on. */
    method Writei(w: nat, src: seq<Byte>, off: nat, devsw: seq<Option<int>>)
        returns (r: WriteResult, ghost data: set<nat>, ghost maps: set<nat>)
      requires Valid() && w < |mem| && off < UINT && |src| < UINT && |devsw| == NDEV
      modifies `disk, `mem, `logged, `trace
      ensures old(Traced()) ==> Traced()
      ensures r.Refused? <==> if old(mem)[w].typ == T_DEV then NoDriver(devsw, old(mem)[w].major)
        else off > old(mem)[w].size || off + |src| >= UINT || off + |src| > MAXFILE * BSIZE
      ensures r.Driver? <==> old(mem)[w].typ == T_DEV && !NoDriver(devsw, old(mem)[w].major)
      ensures r.Driver? ==> devsw[old(mem)[w].major] == Some(r.answer)
      ensures r.Refused? || r.Driver? ==> disk == old(disk) && mem == old(mem) && logged == old(logged)
      ensures r.Panic? ==> |disk| == sb.size && LayoutOk(sb) && forall x :: 0 <= x < sb.size ==> Bit(sb, disk, x)
      ensures r.Wrote? ==> r.n == |src| && Valid() && |mem| == old(|mem|)
      ensures r.Wrote? ==> Files() == old(Files())[w := Splice(old(FileOf(w)), off, src)]
      ensures r.Wrote? ==> mem[w].size == (if off + |src| <= old(mem)[w].size then old(mem)[w].size else off + |src|)
      ensures r.Wrote? ==> mem[w] == old(mem)[w].(size := mem[w].size, addrs := mem[w].addrs)
      ensures r.Wrote? ==> forall i :: 0 <= i < |mem| && i != w ==> mem[i] == old(mem)[i]
      ensures r.Wrote? ==> logged <= old(logged) + data + maps + IndirectSet(mem[w]) + {InodeBlock(sb, w)}
      ensures r.Wrote? ==> |data| <= Pieces(off, |src|) && |maps| <= Blocks(mem[w].size) - Blocks(old(mem)[w].size) + 1
    {
      hide Valid, Blocks, Pieces, Splice, IndirectSet, Traced;
      data, maps := {}, {};
      if mem[w].typ == T_DEV {
        if NoDriver(devsw, mem[w].major) {
          return Refused, data, maps;
        }
        return Driver(devsw[mem[w].major].value), data, maps;
      }
      if off > mem[w].size || off + |src| >= UINT {
        return Refused, data, maps;
      }
      if off + |src| > MAXFILE * BSIZE {
        return Refused, data, maps;
      }
      var ok;
      ok, data, maps := WriteFile(w, src, off);
      return if ok then Wrote(|src|) else Panic, data, maps;
    }

    /** writei past its tests; false is balloc's panic. */
    method WriteFile(w: nat, src: seq<Byte>, off: nat) returns (ok: bool, ghost data: set<nat>, ghost maps: set<nat>)
      requires Valid() && w < |mem| && off <= mem[w].size && off + |src| <= MAXFILE * BSIZE
      modifies `disk, `mem, `logged, `trace
      ensures old(Traced()) ==> Traced()
      ensures !ok ==> |disk| == sb.size && LayoutOk(sb) && forall x :: 0 <= x < sb.size ==> Bit(sb, disk, x)
      ensures ok ==> Valid() && |mem| == old(|mem|)
      ensures ok ==> Files() == old(Files())[w := Splice(old(FileOf(w)), off, src)]
      ensures ok ==> mem[w].size == (if off + |src| <= old(mem)[w].size then old(mem)[w].size else off + |src|)
      ensures ok ==> mem[w] == old(mem)[w].(size := mem[w].size, addrs := mem[w].addrs)
      ensures ok ==> forall i :: 0 <= i < |mem| && i != w ==> mem[i] == old(mem)[i]
      ensures ok ==> logged <= old(logged) + data + maps + IndirectSet(mem[w]) + {InodeBlock(sb, w)}
      ensures ok ==> |data| <= Pieces(off, |src|) && |maps| <= Blocks(mem[w].size) - Blocks(old(mem)[w].size) + 1
    {
      hide FsInv, FileIs, Contents, Blocks, Pieces, Splice, InodeAt, InodeBlocksSame, SameFromMap, OthersKept, Traced;
      ghost var bytes := FileOf(w);
      WritingStarts(sb, disk, mem, w, off, src);
      ok, data, maps := WritePieces(w, bytes, off, src);
      if !ok {
        return;
      }
      ghost var inos := mem[w := mem[w].(size := |Splice(bytes, off, src)|)];
      WritingEnds(sb, old(disk), old(mem), disk, mem, w, bytes, off, src, inos);
      InodesSame(sb, old(disk), disk);
      if |src| > 0 && off + |src| > mem[w].size {
        mem := mem[w := mem[w].(size := off + |src|)];
        WriteBack(old(disk), old(mem), w, Splice(bytes, off, src));
      }
      assert mem == inos;
      FilesAfter(old(disk), old(mem), w, Splice(bytes, off, src));
    }

    /** iupdate at the end of an operation on inode w: the inode blocks are up to date and nothing else changes. */
    method WriteBack(ghost d0: seq<Block>, ghost inos0: seq<Inode>, w: nat, ghost bytes: seq<Byte>)
      requires FsInv(sb, disk, mem) && |disk| == |d0| && inos0 == Inodes(sb, d0) && Inodes(sb, disk) == inos0
      requires OthersKept(d0, inos0, disk, mem, w) && w < |mem| && FileIs(disk, mem[w], bytes)
      modifies `disk, `logged, `trace
      ensures old(Traced()) ==> Traced()
      ensures Valid() && OthersKept(d0, inos0, disk, mem, w) && FileIs(disk, mem[w], bytes)
      ensures |disk| == |old(disk)| && forall x :: 0 <= x < sb.size ==> Bit(sb, disk, x) == Bit(sb, old(disk), x)
      ensures logged == old(logged) + {InodeBlock(sb, w)}
    {
      hide Traced;
      Iupdate(w);
      assert SameFromMap(sb, old(disk), disk);
      FsInvFromMap(sb, old(disk), disk, mem, w);
      OthersTrans(d0, inos0, old(disk), mem, disk, mem, w);
      KeptFileIs(old(disk), mem, disk, mem, w, bytes);
      UpToDate(old(disk), inos0, w);
    }

    lemma HoldsNow()
      requires Valid()
      ensures Holds(sb, disk, Files())
    {
      forall i | 0 <= i < |mem| ensures FileIs(disk, mem[i], Files()[i]) {
        ContentsMapped(sb, disk, mem, i);
      }
    }

    lemma FilesAfter(d0: seq<Block>, inos0: seq<Inode>, w: nat, bytes: seq<Byte>)
      requires FsInv(sb, d0, inos0) && Valid() && OthersKept(d0, inos0, disk, mem, w) && w < |mem|
      requires FileIs(disk, mem[w], bytes) && mem[w].size == |bytes|
      ensures FileOf(w) == bytes
      ensures forall i :: 0 <= i < |mem| && i != w ==>
        inos0[i].size <= MAXFILE * BSIZE &&
          (forall k :: 0 <= k < Blocks(inos0[i].size) ==> 0 < Slot(d0, inos0[i], k) < |d0|) &&
        FileOf(i) == Contents(d0, inos0[i])
    {
      FileIsUnique(disk, mem[w], FileOf(w), bytes);
      forall i | 0 <= i < |mem| && i != w
        ensures inos0[i].size <= MAXFILE * BSIZE
        ensures (forall k :: 0 <= k < Blocks(inos0[i].size) ==> 0 < Slot(d0, inos0[i], k) < |d0|)
        ensures FileOf(i) == Contents(d0, inos0[i])
      {
        ContentsMapped(sb, d0, inos0, i);
        OtherFile(d0, inos0, disk, mem, w, i, Contents(d0, inos0[i]));
        FileIsUnique(disk, mem[i], FileOf(i), Contents(d0, inos0[i]));
      }
    }

    /** readi.  On a file, the bytes from off on, cut at the end of the file; on a device, the driver's answer.
        None is -1. */
    method Readi(w: nat, off: nat, n: nat, devsw: seq<Option<seq<Byte>>>) returns (r: Option<seq<Byte>>)
      requires Valid() && w < |mem| && off < UINT && n < UINT && |devsw| == NDEV
      modifies `disk, `mem, `logged, `trace
      ensures old(Traced()) ==> Traced()
      ensures disk == old(disk) && mem == old(mem) && logged == old(logged) && Valid()
      ensures mem[w].typ == T_DEV ==> r == if NoDriver(devsw, mem[w].major) then None else devsw[mem[w].major]
      ensures mem[w].typ != T_DEV ==> (r.None? <==> off > mem[w].size || off + n >= 0x1_0000_0000)
      ensures mem[w].typ != T_DEV && r.Some? ==>
        r.value == FileOf(w)[off..if off + n <= mem[w].size then off + n else mem[w].size]
    {
      hide Valid, Traced;
      if mem[w].typ == T_DEV {
        if NoDriver(devsw, mem[w].major) {
          return None;
        }
        return devsw[mem[w].major];
      }
      if off > mem[w].size || off + n >= UINT {
        return None;
      }
      ghost var file := FileOf(w);
      var len := if off + n > mem[w].size then mem[w].size - off else n;
      var tot, dst := 0, [];
      while tot < len
        invariant Valid() && (old(Traced()) ==> Traced())
        invariant disk == old(disk) && mem == old(mem) && logged == old(logged)
        invariant 0 <= tot <= len && off + len <= mem[w].size
        invariant dst == file[off..off + tot]
      {
        var piece := ReadPiece(w, off + tot, len - tot);
        SlicesJoin(file, off, off + tot, off + tot + |piece|);
        dst, tot := dst + piece, tot + |piece|;
      }
      return Some(dst);
    }

    /** One round of readi's loop. */
    method ReadPiece(w: nat, x: nat, left: nat) returns (piece: seq<Byte>)
      requires Valid() && w < |mem| && left > 0 && x + left <= mem[w].size
      modifies `disk, `mem, `logged, `trace
      ensures old(Traced()) ==> Traced()
      ensures disk == old(disk) && mem == old(mem) && logged == old(logged) && Valid()
      ensures 0 < |piece| <= left && piece == FileOf(w)[x..x + |piece|]
    {
      hide Inodes, Contents, Mapped, InodeBlocksSame, Slot, Traced;
      var m := PieceSize(x, left);
      PieceIsFile(sb, disk, mem, w, x, m);
      var addr;
      ghost var maps;
      addr, maps := BmapMapped(w, x / BSIZE);
      piece := disk[addr.value][x % BSIZE..x % BSIZE + m];
    }

    /** bmap of a block that is mapped changes nothing. */
    method BmapMapped(w: nat, bn: nat) returns (r: Option<nat>, ghost maps: set<nat>)
      requires Owners(sb, disk, mem, {}) && w < |mem| && bn < MAXFILE && Slot(disk, mem[w], bn) != 0
      modifies `disk, `mem, `logged, `trace
      ensures old(Traced()) ==> Traced()
      ensures disk == old(disk) && mem == old(mem) && logged == old(logged) && r == Some(Slot(disk, mem[w], bn))
    {
      hide Owners, OnlyAddrs, KeepsFiles, InodeBlocksSame, Traced;
      r, maps := Bmap(w, bn);
    }

    /** itrunc.  False is bfree's panic, which is never reached. */
    method Itrunc(w: nat) returns (ok: bool)
      requires Valid() && w < |mem|
      modifies `disk, `mem, `logged, `trace
      ensures old(Traced()) ==> Traced()
      ensures ok && Valid() && |mem| == old(|mem|)
      ensures Files() == old(Files())[w := []]
      ensures mem[w] == old(mem)[w].(size := 0, addrs := mem[w].addrs)
      ensures forall x :: 0 <= x < sb.size ==>
        Bit(sb, disk, x) == (Bit(sb, old(disk), x) && x !in SlotSet(old(disk), old(mem)[w], MAXFILE + 1))
      ensures forall i :: 0 <= i < |mem| && i != w ==> mem[i] == old(mem)[i]
    {
      hide FsInv, Contents, Splice, Inodes, SlotSet, Bit, OthersKept, InodeBlocksSame, Traced;
      ok := FreeBlocks(w);
      mem := mem[w := mem[w].(size := 0)];
      TruncKeeps(sb, old(disk), old(mem), disk, mem, w);
      InodesSame(sb, old(disk), disk);
      WriteBack(old(disk), old(mem), w, []);
      FilesAfter(old(disk), old(mem), w, []);
    }

    /** itrunc up to the new size: every block of the file is freed and every address cleared. */
    method FreeBlocks(w: nat) returns (ok: bool)
      requires Valid() && w < |mem|
      modifies `disk, `mem, `logged, `trace
      ensures old(Traced()) ==> Traced()
      ensures ok && Freed(sb, old(disk), disk, SlotSet(old(disk), old(mem)[w], MAXFILE + 1))
      ensures OnlyAddrs(old(mem), mem, w) && forall j :: 0 <= j <= NDIRECT ==> mem[w].addrs[j] == 0
    {
      hide FsInv, Inodes, SlotSet, Freed, Traced;
      ok := FreeDirect(w);
      if mem[w].addrs[NDIRECT] != 0 {
        ok := FreeIndirect(w, old(disk), old(mem));
        mem := mem[w := mem[w].(addrs := mem[w].addrs[NDIRECT := 0])];
      } else {
        NoIndirectSlots(old(disk), old(mem)[w]);
      }
    }

    /** itrunc's first loop. */
    method FreeDirect(w: nat) returns (ok: bool)
      requires Valid() && w < |mem|
      modifies `disk, `mem, `logged, `trace
      ensures old(Traced()) ==> Traced()
      ensures ok && Freed(sb, old(disk), disk, SlotSet(old(disk), old(mem)[w], NDIRECT))
      ensures OnlyAddrs(old(mem), mem, w) && mem[w].addrs[NDIRECT] == old(mem)[w].addrs[NDIRECT]
      ensures forall j :: 0 <= j < NDIRECT ==> mem[w].addrs[j] == 0
    {
      ReadyNow();
      hide FsInv, Inodes, Freed, SlotSet, Traced, Cleared;
      FreedNone(sb, disk, mem[w]);
      ClearedNone(mem, w);
      var i := 0;
      while i < NDIRECT
        invariant 0 <= i <= NDIRECT && (old(Traced()) ==> Traced())
        invariant Freed(sb, old(disk), disk, SlotSet(old(disk), old(mem)[w], i)) && Cleared(old(mem), mem, w, i)
      {
        ClearedAt(old(mem), mem, w, i);
        if mem[w].addrs[i] != 0 {
          ok := FreeSlot(w, old(disk), old(mem), i, mem[w].addrs[i]);
          mem := mem[w := mem[w].(addrs := mem[w].addrs[i := 0])];
        } else {
          SkipEmptySlot(old(disk), old(mem)[w], i);
        }
        i := i + 1;
      }
      ClearedAll(old(mem), mem, w);
      ok := true;
    }

    lemma ReadyNow()
      requires Valid()
      ensures Ready()
    {}

    /** bfree of the block in the next slot: its bit is still set. */
    method FreeSlot(w: nat, ghost d0: seq<Block>, ghost inos0: seq<Inode>, ghost n: nat, b: nat) returns (ok: bool)
      requires FsInv(sb, d0, inos0) && w < |inos0| && n <= MAXFILE && b == Slot(d0, inos0[w], n) && b != 0
      requires Freed(sb, d0, disk, SlotSet(d0, inos0[w], n))
      modifies `disk, `logged, `trace
      ensures old(Traced()) ==> Traced()
      ensures ok && Freed(sb, d0, disk, SlotSet(d0, inos0[w], n + 1))
    {
      hide Traced;
      NextSlotSet(sb, d0, inos0, disk, w, n);
      FreeNextSlot(sb, d0, inos0[w], disk, n);
      ok := Bfree(b);
    }

    /** The blocks listed in the indirect block, then the indirect block itself. */
    method FreeIndirect(w: nat, ghost d0: seq<Block>, ghost inos0: seq<Inode>) returns (ok: bool)
      requires FsInv(sb, d0, inos0) && w < |inos0| == |mem| && mem[w].addrs[NDIRECT] == inos0[w].addrs[NDIRECT] != 0
      requires Freed(sb, d0, disk, SlotSet(d0, inos0[w], NDIRECT))
      modifies `disk, `logged, `trace
      ensures old(Traced()) ==> Traced()
      ensures ok && Freed(sb, d0, disk, SlotSet(d0, inos0[w], MAXFILE + 1))
    {
      hide Traced;
      var ind := mem[w].addrs[NDIRECT];
      assert Slot(d0, inos0[w], MAXFILE) == ind;
      assert InData(sb, ind);
      var j := 0;
      while j < NINDIRECT
        invariant 0 <= j <= NINDIRECT && (old(Traced()) ==> Traced())
        invariant Freed(sb, d0, disk, SlotSet(d0, inos0[w], NDIRECT + j))
      {
        var a := Word(disk[ind], j);
        assert a == Slot(d0, inos0[w], NDIRECT + j);
        if a != 0 {
          ok := FreeSlot(w, d0, inos0, NDIRECT + j, a);
        } else {
          SkipEmptySlot(d0, inos0[w], NDIRECT + j);
        }
        j := j + 1;
      }
      ok := FreeSlot(w, d0, inos0, MAXFILE, ind);
    }
  }

  lemma ZeroBits(sb: Super, d: seq<Block>)
    requires LayoutOk(sb) && |d| == sb.size && forall x :: 0 <= x < sb.size ==> d[x] == ZeroBlock()
    ensures forall x :: 0 <= x < sb.size ==> !Bit(sb, d, x)
  {}

  lemma EmptyTable(sb: Super, d: seq<Block>, inos: seq<Inode>)
    requires LayoutOk(sb) && |d| == sb.size && |inos| == sb.ninodes
    requires forall i :: 0 <= i < |inos| ==> inos[i] == EmptyInode
    requires forall x :: 0 <= x < sb.size ==> (Bit(sb, d, x) <==> x < sb.datastart)
    requires forall x :: sb.inodestart <= x < sb.bmapstart ==> d[x] == ZeroBlock()
    ensures FsInv(sb, d, inos) && inos == Inodes(sb, d)
  {
    forall i | 0 <= i < sb.ninodes ensures InodeAt(sb, d, i) == EmptyInode {
      assert sb.inodestart <= InodeBlock(sb, i) < sb.bmapstart;
      assert InodeAt(sb, d, i).addrs == EmptyInode.addrs;
    }
    assert forall i, k :: 0 <= i < |inos| && 0 <= k <= MAXFILE ==> Slot(d, inos[i], k) == 0;
  }

  lemma SlicesJoin(s: seq<Byte>, a: nat, b: nat, c: nat)
    requires a <= b <= c <= |s|
    ensures s[a..b] + s[b..c] == s[a..c]
  {
  }

  /** Only the first i direct addresses of inode w are cleared. */
  predicate Cleared(inos: seq<Inode>, inos': seq<Inode>, w: nat, i: nat) {
    && w < |inos| && i <= NDIRECT && OnlyAddrs(inos, inos', w)
    && (forall j :: 0 <= j < i ==> inos'[w].addrs[j] == 0)
    && (forall j :: i <= j <= NDIRECT ==> inos'[w].addrs[j] == inos[w].addrs[j])
  }

  lemma ClearedNone(inos: seq<Inode>, w: nat)
    requires w < |inos|
    ensures Cleared(inos, inos, w, 0)
  {}

  lemma ClearedAt(inos: seq<Inode>, inos': seq<Inode>, w: nat, i: nat)
    requires Cleared(inos, inos', w, i) && i < NDIRECT
    ensures |inos'| == |inos| && inos'[w].addrs[i] == inos[w].addrs[i]
    ensures inos'[w].addrs[i] == 0 ==> Cleared(inos, inos', w, i + 1)
    ensures Cleared(inos, inos'[w := inos'[w].(addrs := inos'[w].addrs[i := 0])], w, i + 1)
  {}

  lemma ClearedAll(inos: seq<Inode>, inos': seq<Inode>, w: nat)
    requires Cleared(inos, inos', w, NDIRECT)
    ensures OnlyAddrs(inos, inos', w) && inos'[w].addrs[NDIRECT] == inos[w].addrs[NDIRECT]
    ensures forall j :: 0 <= j < NDIRECT ==> inos'[w].addrs[j] == 0
  {}

  /** An open file on an inode. */
  class File {
    const writable: bool
    const inum: nat
    var off: nat
    var numWriteBytes: int
  }

  /** Panic as above; Returned(-1) is a write that stopped early. */
  datatype FileWriteResult = Returned(n: int) | OutOfBlocks

  /** ((MAXOPBLOCKS - 1 - 1 - 2) / 2) * 512 */
  const CHUNK: nat := ((Journal.MAXOPBLOCKS - 1 - 1 - 2) / 2) * 512

  /** What a write of s at off leaves; an empty write leaves the file as it was, wherever off is. */
  function Written(bytes: seq<Byte>, off: nat, s: seq<Byte>): seq<Byte>
    requires s == [] || off <= |bytes|
  {
    if s == [] then bytes else Splice(bytes, off, s)
  }

  /** One transaction of filewrite, with the writes it makes. */
  method WriteChunk(fs: FileSystem, w: nat, src: seq<Byte>, off: nat)
      returns (r: WriteResult, ghost tr: seq<BlockWrite>)
    requires fs.Valid() && w < |fs.mem| && fs.mem[w].typ != T_DEV && off < UINT && |src| <= CHUNK
    modifies fs`disk, fs`mem, fs`logged, fs`trace, fs`base
    ensures r.Refused? <==> off > old(fs.mem)[w].size || off + |src| > MAXFILE * BSIZE
    ensures !r.Driver? && (!r.Panic? ==> fs.Valid() && |fs.mem| == old(|fs.mem|))
    ensures r.Refused? ==> fs.Files() == old(fs.Files()) && fs.mem == old(fs.mem) && fs.disk == old(fs.disk)
    ensures r.Wrote? ==> r.n == |src| && fs.Files() == old(fs.Files())[w := Splice(old(fs.FileOf(w)), off, src)]
    ensures r.Wrote? ==> off + |src| <= fs.mem[w].size && fs.mem[w].typ == old(fs.mem)[w].typ
    ensures r.Wrote? ==> Transaction(fs.sb, old(fs.disk), tr, fs.disk)
  {
    hide FsInv, Splice, Contents, Inodes, FileSystem.Traced, Transaction;
    fs.StartTrace();
    ghost var size := fs.mem[w].size;
    ghost var data, maps;
    r, data, maps := fs.Writei(w, src, off, seq(NDEV, _ => None));
    tr := fs.trace;
    if r.Wrote? {
      ChunkCost(fs.logged, data, maps, IndirectSet(fs.mem[w]), InodeBlock(fs.sb, w), off, size, |src|);
      fs.TransactionNow();
    }
  }

  /** Some writes lead from one disk to the other, to at most the blocks that begin_op reserves. */
  ghost predicate Transaction(sb: Super, d: seq<Block>, tr: seq<BlockWrite>, d': seq<Block>) {
    d' == Overlaid(d, tr) && InFs(sb, tr) && |BlocksIn(tr)| <= Journal.MAXOPBLOCKS
  }

  /** Each image comes from the one before by a transaction. */
  ghost predicate Chained(sb: Super, images: seq<seq<Block>>, traces: seq<seq<BlockWrite>>) {
    |images| == |traces| + 1 &&
    forall k :: 0 <= k < |traces| ==> Transaction(sb, images[k], traces[k], images[k + 1])
  }

  /** The file system on disk d has exactly these files. */
  ghost predicate Holds(sb: Super, d: seq<Block>, files: seq<seq<Byte>>) {
    && LayoutOk(sb) && |d| == sb.size && FsInv(sb, d, Inodes(sb, d)) && |files| == sb.ninodes
    && forall i :: 0 <= i < |files| ==> FileIs(d, InodeAt(sb, d, i), files[i]) && InodeAt(sb, d, i).size == |files[i]|
  }

  /** The bytes of the next transaction, when i of n are written. */
  function ChunkSize(i: nat, n: nat): nat
    requires i < n
  {
    if n - i > 1536 then 1536 else n - i
  }

  /** Bytes written when k chunks are. */
  function ChunkEnd(k: nat, n: nat): nat { if k * 1536 < n then k * 1536 else n }

  /** How many of n bytes a write at off puts into a file of that size: all of them if they end within the largest
      file, and otherwise the pieces of 1536 bytes that do; none past the end. */
  function Reach(off: nat, size: nat, n: nat): nat {
    if off > size || off > 71680 then 0 else if off + n <= 71680 then n else (71680 - off) / 1536 * 1536
  }

  lemma ReachAt(off: nat, size: nat, n: nat, i: nat, k: nat)
    requires off <= size <= 71680 && i == ChunkEnd(k, n) < n && off + i <= 71680
    requires off + i + ChunkSize(i, n) > 71680
    ensures i == Reach(off, size, n)
  {}

  /** The disk before the first chunk of s at offset off of file w, and after each chunk so far. */
  ghost predicate ChunkImages(sb: Super, images: seq<seq<Block>>, files: seq<seq<Byte>>, w: nat, off: nat,
                              s: seq<Byte>) {
    && w < |files| && |images| > 0 && (|images| > 1 ==> off <= |files[w]|)
    && forall k :: 0 <= k < |images| ==>
         (ChunkEnd(k, |s|) > 0 ==> off <= |files[w]|) &&
         Holds(sb, images[k], files[w := Written(files[w], off, s[..ChunkEnd(k, |s|)])])
  }

  /** i bytes of addr have been written to f at off, chunk by chunk; files is what there was before. */
  ghost predicate InProgress(fs: FileSystem, f: File, addr: seq<Byte>, i: nat, files: seq<seq<Byte>>, off: nat,
                             images: seq<seq<Block>>)
    reads fs, f
  {
    && fs.Valid() && f.inum < |fs.mem| == |files| && fs.mem[f.inum].typ != T_DEV
    && i <= |addr| < UINT && off < UINT && f.off == off + i
    && (i > 0 ==> off <= |files[f.inum]| && f.off <= fs.mem[f.inum].size)
    && fs.Files() == files[f.inum := Written(files[f.inum], off, addr[..i])]
    && ChunkImages(fs.sb, images, files, f.inum, off, addr)
    && i == ChunkEnd(|images| - 1, |addr|) && images[|images| - 1] == fs.disk
  }

  /** One round of filewrite's loop. */
  method NextChunk(fs: FileSystem, f: File, addr: seq<Byte>, i: nat, ghost files: seq<seq<Byte>>, ghost off: nat,
                   ghost images: seq<seq<Block>>) returns (w: WriteResult, ghost tr: seq<BlockWrite>)
    requires InProgress(fs, f, addr, i, files, off, images) && i < |addr|
    modifies fs`disk, fs`mem, fs`logged, fs`trace, fs`base, f`off
    ensures w.Refused? <==> off + i > old(fs.mem)[f.inum].size || off + i + ChunkSize(i, |addr|) > MAXFILE * BSIZE
    ensures w.Refused? ==> InProgress(fs, f, addr, i, files, off, images) && fs.mem == old(fs.mem)
    ensures w.Wrote? ==> w.n == ChunkSize(i, |addr|) && Transaction(fs.sb, old(fs.disk), tr, fs.disk)
    ensures w.Wrote? ==> InProgress(fs, f, addr, i + w.n, files, off, images + [fs.disk])
    ensures !w.Driver? && (w.Panic? ==> f.off == old(f.off))
  {
    hide FileSystem.Valid, Splice, Written, Holds, ChunkImages, ChunkEnd;
    ImagesCount(fs.sb, images, files, f.inum, off, addr);
    WrittenNone(files[f.inum], off, addr);
    var n1 := |addr| - i;
    if n1 > CHUNK { n1 := CHUNK; }
    w, tr := WriteChunk(fs, f.inum, addr[i..i + n1], f.off);
    if w.Wrote? {
      WrittenAppend(files[f.inum], off, addr, i, n1);
      f.off := f.off + w.n;
      ChunkEndNext(|images|, |addr|);
      fs.HoldsNow();
      assert fs.Files() == files[f.inum := Written(files[f.inum], off, addr[..i + n1])];
      MoreImages(fs.sb, images, files, f.inum, off, addr, fs.disk);
    }
  }

  /** filewrite on an inode: chunks of CHUNK bytes, each in its own transaction.  `traces` lists the
      writes of the transactions, `images` what the disk was between them. */
  method Filewrite(fs: FileSystem, f: File, addr: seq<Byte>, n: int)
      returns (r: FileWriteResult, ghost traces: seq<seq<BlockWrite>>, ghost images: seq<seq<Block>>)
    requires fs.Valid() && f.inum < |fs.mem| && fs.mem[f.inum].typ != T_DEV && f.off < UINT
    requires n < UINT && |addr| == if n < 0 then 0 else n
    modifies fs`disk, fs`mem, fs`logged, fs`trace, fs`base, f`off, f`numWriteBytes
    ensures Chained(fs.sb, images, traces)
    ensures f.numWriteBytes == old(f.numWriteBytes) + if f.writable then n else 0
    ensures old(f.off) <= f.off <= old(f.off) + |addr|
    ensures ChunkImages(fs.sb, images, old(fs.Files()), f.inum, old(f.off), addr) && images[0] == old(fs.disk)
    ensures f.off - old(f.off) == ChunkEnd(|images| - 1, |addr|) && |traces| == (f.off - old(f.off) + 1535) / 1536
    ensures r.Returned? ==>
      f.off - old(f.off) == if f.writable then Reach(old(f.off), old(fs.mem)[f.inum].size, |addr|) else 0
    ensures r.Returned? ==> fs.Valid() && images[|images| - 1] == fs.disk
    ensures f.off > old(f.off) ==> old(f.off) <= |old(fs.FileOf(f.inum))|
    ensures r.Returned? ==>
      fs.Files() == old(fs.Files())[f.inum := Written(old(fs.FileOf(f.inum)), old(f.off), addr[..f.off - old(f.off)])]
    ensures r.Returned? ==> r.n == (if f.writable && f.off == old(f.off) + n then n else -1)
    ensures r.Returned? && n >= 0 ==> (r.n == n <==>
      f.writable && (n == 0 || (old(f.off) <= old(fs.mem)[f.inum].size && old(f.off) + n <= MAXFILE * BSIZE)))
  {
    hide FileSystem.Valid, Splice, Written, Holds, ChunkImages;
    traces := [];
    images := [fs.disk];
    ghost var files, size := fs.Files(), fs.mem[f.inum].size;
    SizeInside(fs, f.inum);
    FirstImage(fs, f.inum, f.off, addr);
    if !f.writable {
      return Returned(-1), traces, images;
    }
    f.numWriteBytes := f.numWriteBytes + n;
    var i := 0;
    while i < n
      invariant InProgress(fs, f, addr, i, files, old(f.off), images)
      invariant f.numWriteBytes == old(f.numWriteBytes) + n && images[0] == old(fs.disk)
      invariant Chained(fs.sb, images, traces)
      invariant i == 0 ==> fs.mem == old(fs.mem)
      invariant i > 0 ==> old(f.off) <= old(fs.mem)[f.inum].size && f.off <= MAXFILE * BSIZE
      invariant |traces| > 0 ==> 1536 * (|traces| - 1) < n
    {
      ghost var tr;
      var w;
      w, tr := NextChunk(fs, f, addr, i, files, old(f.off), images);
      if w.Panic? {
        return OutOfBlocks, traces, images;
      }
      if w.Refused? {
        if old(f.off) <= size { ReachAt(old(f.off), size, |addr|, i, |traces|); }
        break;
      }
      ChainedNext(fs.sb, images, traces, tr, fs.disk);
      traces := traces + [tr];
      images := images + [fs.disk];
      i := i + w.n;
    }
    return Returned(if i == n then n else -1), traces, images;
  }

  lemma SizeInside(fs: FileSystem, w: nat)
    requires fs.Valid() && w < |fs.mem|
    ensures fs.mem[w].size <= MAXFILE * BSIZE == 71680
  {}

  lemma ChainedNext(sb: Super, images: seq<seq<Block>>, traces: seq<seq<BlockWrite>>, tr: seq<BlockWrite>,
                    d: seq<Block>)
    requires Chained(sb, images, traces) && Transaction(sb, images[|images| - 1], tr, d)
    ensures Chained(sb, images + [d], traces + [tr])
  {}

  lemma FirstImage(fs: FileSystem, w: nat, off: nat, s: seq<Byte>)
    requires fs.Valid() && w < |fs.mem|
    ensures ChunkImages(fs.sb, [fs.disk], fs.Files(), w, off, s)
    ensures fs.Files()[w := Written(fs.Files()[w], off, s[..0])] == fs.Files()
  {
    hide Holds, FsInv, Splice, Contents, Inodes;
    fs.HoldsNow();
    assert s[..0] == [] && fs.Files()[w := fs.Files()[w]] == fs.Files();
  }

  lemma WrittenNone(bytes: seq<Byte>, off: nat, s: seq<Byte>)
    ensures s[..0] == [] && Written(bytes, off, s[..0]) == bytes
  {}

  lemma ImagesCount(sb: Super, images: seq<seq<Block>>, files: seq<seq<Byte>>, w: nat, off: nat, s: seq<Byte>)
    requires ChunkImages(sb, images, files, w, off, s)
    ensures |images| > 0
  {}

  lemma MoreImages(sb: Super, images: seq<seq<Block>>, files: seq<seq<Byte>>, w: nat, off: nat, s: seq<Byte>,
                   d: seq<Block>)
    requires ChunkImages(sb, images, files, w, off, s) && off <= |files[w]|
    requires Holds(sb, d, files[w := Written(files[w], off, s[..ChunkEnd(|images|, |s|)])])
    ensures ChunkImages(sb, images + [d], files, w, off, s)
  {
    hide Holds, Written, ChunkEnd;
  }

  lemma ChunkEndNext(k: nat, n: nat)
    requires k > 0 && ChunkEnd(k - 1, n) < n
    ensures ChunkEnd(k, n) == ChunkEnd(k - 1, n) + ChunkSize(ChunkEnd(k - 1, n), n)
  {}

  lemma WrittenAppend(bytes: seq<Byte>, off: nat, addr: seq<Byte>, i: nat, n: nat)
    requires i + n <= |addr| && off <= |bytes| && n > 0
    ensures off + i <= |Written(bytes, off, addr[..i])|
    ensures Splice(Written(bytes, off, addr[..i]), off + i, addr[i..i + n]) == Written(bytes, off, addr[..i + n])
  {
    hide Splice;
    assert addr[..i + n] == addr[..i] + addr[i..i + n];
    if i == 0 {
      assert addr[i..i + n] == addr[..i + n];
    } else {
      SpliceAppend(bytes, off, addr[..i], addr[i..i + n]);
    }
  }

  /** One chunk stays within the blocks begin_op reserved for it. */
  lemma ChunkCost(logged: set<nat>, data: set<nat>, maps: set<nat>, ind: set<nat>, inode: nat, off: nat, size: nat,
                  n: nat)
    requires logged <= data + maps + ind + {inode} && |ind| <= 1 && off <= size && n <= CHUNK
    requires |data| <= Pieces(off, n)
    requires |maps| <= Blocks(if off + n <= size then size else off + n) - Blocks(size) + 1
    ensures |logged| <= Journal.MAXOPBLOCKS
  {
    ChunkBudget(off, size, n);
    SubsetSize(logged, data + maps + ind + {inode});
    assert |data + maps + ind + {inode}| <= |data| + |maps| + |ind| + 1;
  }
}
