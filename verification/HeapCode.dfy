/** free, morecore and malloc of umalloc.c, the allocator of section 8.7 of The C Programming Language. */
module HeapCode {
  import opened Common
  import opened HeapModel

  const HEADER: nat := 8

  class Heap {
    /** &base, below the heap. */
    const base: Addr
    var freep: Option<Addr>
    var mem: map<Addr, Header>
    /** The free blocks in address order, and the node freep points to. */
    ghost var fb: seq<Block>
    ghost var at: nat
    /** The blocks handed out and not yet freed, by the address of their header. */
    ghost var live: map<Addr, nat>
    /** Every unit sbrk has given, all below brk. */
    ghost var core: set<nat>
    ghost var brk: nat

    ghost predicate Ready()
      reads this
    {
      && freep.Some? && FreeOk(base, fb) && Linked(base, fb, mem) && at <= |fb| && freep.value == Node(base, fb, at)
    }

    ghost predicate BelowBrk()
      reads this
    {
      base < brk && forall u :: u in core ==> u < brk
    }

    ghost predicate Valid()
      reads this
    {
      && (freep.Some? ==> Ready()) && (freep.None? ==> fb == [])
      && LiveOk(base, fb, live) && SizesKept(mem, live) && Covers(fb, live, core) && BelowBrk()
    }

    /** Before the first call: freep is null and the break is above base. */
    constructor (base: Addr, start: nat)
      requires base < start
      ensures Valid() && freep.None? && live == map[] && core == {} && this.base == base && brk == start
    {
      this.base := base;
      freep, mem := None, map[];
      fb, at, live, core, brk := [], 0, map[], {}, start;
    }

    /** Everything free does with a block whose header is at bp: find its place, link it in, merge. */
    method Insert(bp: Addr) returns (ghost j: nat)
      requires Ready() && base < bp && bp in mem && mem[bp].size > 0 && Apart(fb, bp, mem[bp].size)
      modifies `freep, `mem, `fb, `at
      ensures Ready() && Between(base, old(fb), j, bp) && fb == Inserted(old(fb), j, bp, old(mem)[bp].size)
      ensures Framed(base, old(fb), bp, old(mem), mem)
    {
      ghost var t := FindPlace(base, fb, bp, mem[bp].size, |fb|);
      var p := freep.value;
      j := at;
      SearchEnds(base, fb, mem, t, bp, j);
      while !(bp > p && bp < mem[p].ptr)
        invariant j <= |fb| && p == Node(base, fb, j) && NodeIs(base, fb, mem, j)
        invariant ((p < bp < mem[p].ptr) || (p >= mem[p].ptr && (bp > p || bp < mem[p].ptr))) <==> j == t
        modifies {}
        decreases if j == t then 0 else Ahead(fb, j, t)
      {
        if p >= mem[p].ptr && (bp > p || bp < mem[p].ptr) {
          break;
        }
        p := mem[p].ptr;
        j := Next(fb, j);
        SearchEnds(base, fb, mem, t, bp, j);
      }
      LinkAt(p, j, bp);
    }

    /** The rest of free, once p is found. */
    method LinkAt(p: Addr, ghost j: nat, bp: Addr)
      requires Ready() && Between(base, fb, j, bp) && bp in mem && mem[bp].size > 0 && Apart(fb, bp, mem[bp].size)
      requires p == Node(base, fb, j)
      modifies `freep, `mem, `fb, `at
      ensures Ready() && fb == Inserted(old(fb), j, bp, old(mem)[bp].size)
      ensures Framed(base, old(fb), bp, old(mem), mem)
    {
      hide PutBack, Joined, FreeOk, FreeOkBut, Apart, LiveOk, Linked, Framed;
      ghost var n := mem[bp].size;
      LinkedPut(base, fb, mem, j, bp);
      PutBackOk(base, fb, j, bp, n);
      NodeNotNew(base, fb, j, bp, j);
      ghost var fb1 := PutBack(fb, j, bp, n);
      var q := mem[p].ptr;
      if bp + mem[bp].size == q {
        mem := mem[bp := Header(mem[q].ptr, mem[bp].size + mem[q].size)];
      } else {
        mem := mem[bp := Header(q, mem[bp].size)];
      }
      assert mem == old(mem)[bp := HeaderPut(old(mem), bp, q)];
      LinkedJoin(base, fb1, mem, j);
      JoinedOk(base, fb1, j);
      ghost var mem1 := mem;
      if p + mem[p].size == bp {
        mem := mem[p := Header(mem[bp].ptr, mem[p].size + mem[bp].size)];
      } else {
        mem := mem[p := Header(bp, mem[p].size)];
      }
      assert mem == mem1[p := HeaderJoin(mem1, p, bp)];
      FramedWrites(base, fb, bp, j, old(mem), mem1[bp], mem[p]);
      freep := Some(p);
      fb, at := Joined(fb1, j), j;
    }

    /** free of a block that malloc returned. */
    method Free(ap: Addr)
      requires Valid() && freep.Some? && ap > 0 && ap - 1 in live
      modifies `freep, `mem, `fb, `at, `live
      ensures Valid() && freep.Some? && live == old(live) - {ap - 1}
    {
      hide FreeOk, LiveOk, Covers, Inserted, Linked;
      var bp := ap - 1;
      ghost var fb0, mem0, live0 := fb, mem, live;
      LiveApart(bp);
      ghost var j := Insert(bp);
      live := live - {bp};
      FreeDone(fb0, live0, j, bp);
      SizesFramed(base, fb0, bp, mem0, mem, live0);
    }

    lemma LiveApart(a: Addr)
      requires Valid() && a in live
      ensures base < a && live[a] > 0 && Apart(fb, a, live[a])
    {}

    lemma FreeDone(fb0: seq<Block>, live0: map<Addr, nat>, j: nat, a: Addr)
      requires FreeOk(base, fb0) && LiveOk(base, fb0, live0) && Covers(fb0, live0, core) && a in live0
      requires Between(base, fb0, j, a)
      ensures LiveOk(base, Inserted(fb0, j, a, live0[a]), live0 - {a})
      ensures Covers(Inserted(fb0, j, a, live0[a]), live0 - {a}, core)
    {
      LiveAfterInsert(base, fb0, live0 - {a}, j, a, live0[a]);
      CoversAfterFree(base, fb0, live0, core, j, a);
    }

    /** morecore; `grow` is what sbrk would return, memory above everything it gave before. */
    method MoreCore(nunits: nat, grow: Option<Addr>) returns (r: Option<Addr>)
      requires Valid() && freep.Some? && nunits > 0 && (grow.Some? ==> brk <= grow.value)
      modifies `freep, `mem, `fb, `at, `core, `brk
      ensures Valid() && freep.Some?
      ensures grow.None? ==> r.None? && fb == old(fb) && core == old(core)
      ensures grow.Some? ==> r == freep && core == old(core) + Units(grow.value, CoreSize(nunits))
      ensures grow.Some? ==> exists i :: 0 <= i < |fb| && fb[i].size >= nunits
    {
      hide FreeOk, LiveOk, Covers, Inserted, Linked, Apart, IsNode;
      var nu := if nunits < 4096 then 4096 else nunits;
      if grow.None? {
        return None;
      }
      var hp := grow.value;
      NewCore(hp, nu);
      NewHeader(hp, Header(if hp in mem then mem[hp].ptr else 0, nu));
      mem := mem[hp := Header(if hp in mem then mem[hp].ptr else 0, nu)];
      ghost var fb0, mem0 := fb, mem;
      ghost var j := Insert(hp);
      LiveAfterInsert(base, fb0, live, j, hp, nu);
      CoversAfterGrow(fb0, live, core, j, hp, nu);
      InsertedBig(fb0, j, hp, nu);
      SizesFramed(base, fb0, hp, mem0, mem, live);
      core, brk := core + Units(hp, nu), hp + nu;
      assert live - {hp} == live;
      r := freep;
    }

    /** Memory from sbrk is nobody's yet. */
    lemma NewCore(hp: Addr, n: nat)
      requires Valid() && brk <= hp
      ensures Apart(fb, hp, n) && hp !in live && (forall b :: b in live ==> b + live[b] <= hp)
    {
      forall i | 0 <= i < |fb| ensures fb[i].End() <= hp {
        if fb[i].size > 0 {
          assert fb[i].Has(fb[i].End() - 1);
          assert InFree(fb, fb[i].End() - 1);
        }
      }
      forall b | b in live ensures b + live[b] <= hp {
        assert InLive(live, b + live[b] - 1);
      }
    }

    lemma NewHeader(hp: Addr, h: Header)
      requires Ready() && Apart(fb, hp, h.size) && h.size > 0 && base < hp
      ensures Linked(base, fb, mem[hp := h])
    {
      var mem1 := mem[hp := h];
      forall i | 0 <= i <= |fb| ensures NodeIs(base, fb, mem1, i) {
        assert NodeIs(base, fb, mem, i);
      }
    }

    /** Cut nunits off the end of the block at p, or take it whole. */
    method Take(prevp: Addr, p: Addr, ghost i: nat, nunits: nat) returns (bp: Addr)
      requires Valid() && freep.Some? && i < |fb| && prevp == Node(base, fb, i) && p == fb[i].addr
      requires 0 < nunits <= fb[i].size
      modifies `freep, `mem, `fb, `at, `live
      ensures Valid() && freep.Some? && bp !in old(live) && live == old(live)[bp := nunits]
      ensures forall u :: bp <= u < bp + nunits ==> InFree(old(fb), u)
    {
      hide FreeOk, LiveOk, Covers, Shrunk, Linked, InFree;
      ghost var fb0, mem0, live0 := fb, mem, live;
      LastUnits(fb, i, nunits);
      LinkedTakeAll(base, fb, mem, i);
      LiveAfterTake(base, fb, live, i, nunits);
      CoversAfterTake(base, fb, live, core, i, nunits);
      ShrunkOk(base, fb, i, nunits);
      ShrunkNode(base, fb, i, nunits);
      bp := p;
      if mem[p].size == nunits {
        mem := mem[prevp := Header(mem[p].ptr, mem[prevp].size)];
      } else {
        bp := p + (mem[p].size - nunits);
        LinkedTakeTail(base, fb, mem, i, nunits, Header(if bp in mem then mem[bp].ptr else 0, nunits));
        mem := mem[p := Header(mem[p].ptr, mem[p].size - nunits)];
        mem := mem[bp := Header(if bp in mem then mem[bp].ptr else 0, nunits)];
      }
      freep := Some(prevp);
      fb, at, live := Shrunk(fb, i, nunits), i, live[bp := nunits];
      TakeSizes(fb0, mem0, live0, i, bp);
    }

    lemma LastUnits(fb0: seq<Block>, i: nat, n: nat)
      requires i < |fb0| && 0 < n <= fb0[i].size
      ensures forall u :: fb0[i].End() - n <= u < fb0[i].End() ==> InFree(fb0, u)
      ensures fb0[i].Has(fb0[i].End() - n)
    {
      assert forall u :: fb0[i].End() - n <= u < fb0[i].End() ==> fb0[i].Has(u);
    }

    lemma TakeSizes(fb0: seq<Block>, mem0: map<Addr, Header>, live0: map<Addr, nat>, i: nat, bp: Addr)
      requires FreeOk(base, fb0) && LiveOk(base, fb0, live0) && SizesKept(mem0, live0) && i < |fb0| && bp !in live0
      requires bp in mem && live == live0[bp := mem[bp].size]
      requires forall a :: a in mem0 && a != bp && a != Node(base, fb0, i) && a != fb0[i].addr ==>
        a in mem && mem[a] == mem0[a]
      ensures SizesKept(mem, live)
    {}

    /** malloc.  `grow` is what sbrk would return; it is asked at most once. */
    method Malloc(nbytes: nat, grow: Option<Addr>) returns (r: Option<Addr>)
      requires Valid() && (grow.Some? ==> brk <= grow.value)
      modifies `freep, `mem, `fb, `at, `live, `core, `brk
      ensures Valid() && freep.Some?
      ensures r.None? ==> grow.None? && live == old(live) && core == old(core) && fb == old(fb)
      ensures r.None? ==> forall i :: 0 <= i < |fb| ==> fb[i].size < NUnits(nbytes)
      ensures r.Some? ==> r.value > 0 && r.value - 1 !in old(live) && live == old(live)[r.value - 1 := NUnits(nbytes)]
      ensures r.Some? && core != old(core) ==>
        grow.Some? && core == old(core) + Units(grow.value, CoreSize(NUnits(nbytes))) &&
          forall i :: 0 <= i < |old(fb)| ==> old(fb)[i].size < NUnits(nbytes)
    {
      hide FreeOk, LiveOk, Covers, SizesKept, Linked, Units, TooSmall;
      var nunits := (nbytes + HEADER - 1) / HEADER + 1;
      if freep.None? {
        StartList();
      }
      var prevp := freep.value;
      FirstNode(at);
      var p := mem[prevp].ptr;
      ghost var i: nat, grown := at, false;
      SearchStarts(nunits);
      while true
        invariant Valid() && freep.Some? && i <= |fb| && prevp == Node(base, fb, i) && p == Node(base, fb, Next(fb, i))
        invariant NodeIs(base, fb, mem, Next(fb, i))
        invariant TooSmall(fb, at, i, nunits) && live == old(live)
        invariant grown ==> grow.Some? && core == old(core) + Units(grow.value, CoreSize(nunits))
        invariant !grown ==> fb == old(fb) && core == old(core) && brk == old(brk)
        invariant grown ==> exists k :: 0 <= k < |fb| && fb[k].size >= nunits
        invariant grown ==> forall k :: 0 <= k < |old(fb)| ==> old(fb)[k].size < nunits
        decreases !grown, Ahead(fb, i, at)
      {
        if mem[p].size >= nunits {
          var bp := Take(prevp, p, i, nunits);
          return Some(bp + 1);
        }
        if Some(p) == freep {
          SameNode(Next(fb, i), at);
          PassedAll(fb, at, i, nunits);
          var more := MoreCore(nunits, grow);
          if more.None? {
            return None;
          }
          p := more.value;
          grown := true;
          i := at;
          SearchStarts(nunits);
        } else {
          PassOne(fb, at, i, nunits);
          i := Next(fb, i);
        }
        FirstNode(i);
        prevp := p;
        p := mem[p].ptr;
      }
    }

    /** The list with nothing but base in it. */
    method StartList()
      requires Valid() && freep.None?
      modifies `freep, `mem, `at
      ensures Valid() && freep.Some?
    {
      mem := mem[base := Header(base, 0)];
      freep, at := Some(base), 0;
      assert NodeIs(base, fb, mem, 0);
    }

    lemma FirstNode(i: nat)
      requires Ready() && i <= |fb|
      ensures NodeIs(base, fb, mem, i) && NodeIs(base, fb, mem, Next(fb, i))
    {}

    lemma SearchStarts(n: nat)
      ensures TooSmall(fb, at, at, n)
    {}

    lemma SameNode(i: nat, j: nat)
      requires Ready() && i <= |fb| && j <= |fb| && Node(base, fb, i) == Node(base, fb, j)
      ensures i == j
    {}
  }

  /** One unit for the header and enough for the bytes. */
  function NUnits(nbytes: nat): (n: nat)
    ensures (n - 2) * 8 < nbytes <= (n - 1) * 8 || (nbytes == 0 && n == 1)
  {
    (nbytes + HEADER - 1) / HEADER + 1
  }

  function CoreSize(nunits: nat): (n: nat)
    ensures n >= nunits && n >= 4096 && (n == nunits || n == 4096)
  {
    if nunits < 4096 then 4096 else nunits
  }
}
