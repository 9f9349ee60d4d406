/** kalloc, kfree and the page-table functions of vm.c. */
module VmCode {
  import opened Common
  import opened VmModel

  const KERNBASE: nat := 0x8000_0000
  const PTE_W: nat := 2
  const PTE_U: nat := 4

  /** PGROUNDUP(x) / PGSIZE: the first page that starts at x or above. */
  function Up(x: nat): (u: nat)
    ensures x <= u * 4096 < x + 4096
  {
    (x + PGSIZE - 1) / PGSIZE
  }

  /** Everything but directory d is as before; nothing becomes free, and only free pages are written. */
  ghost predicate Others(s: State, s': State, d: Page) {
    && s'.pages == s.pages
    && (forall e :: e != d ==> (e in s'.dirs <==> e in s.dirs))
    && (forall e :: e != d && e in s.dirs && e in s'.dirs ==> s'.dirs[e] == s.dirs[e])
    && (forall e: Page, u: nat :: e != d ==> Lookup(s', e, u) == Lookup(s, e, u))
    && (forall pg :: pg in s'.free ==> pg in s.free)
    && (forall pg :: pg !in s.free ==> DataOf(s', pg) == DataOf(s, pg))
  }

  lemma OthersTrans(s: State, s1: State, s2: State, d: Page)
    requires Others(s, s1, d) && Others(s1, s2, d)
    ensures Others(s, s2, d)
  {}

  lemma OthersSelf(s: State, d: Page)
    ensures Others(s, s, d)
  {}

  /** Same mapping; only tables of d may have been added. */
  ghost predicate Extends(s: State, s': State, d: Page) {
    && Others(s, s', d) && s'.dirs.Keys == s.dirs.Keys && s'.held == s.held && s'.data == s.data
    && (forall u: nat :: Lookup(s', d, u) == Lookup(s, d, u))
  }

  /** Of the k pages from pg on, mapped at v, those that belong to the user part of the address space. */
  function UserPages(v: nat, k: nat, pg: Page): set<Page> { set x: Page | pg <= x < pg + k && BelowKernel(v, pg, x) }

  predicate BelowKernel(v: nat, pg: Page, x: Page) { v + (x - pg) < KERN }

  datatype MapResult = Mapped | NoMemory | Remap

  /** The number of pages that size bytes at va touch. */
  function PageSpan(va: nat, size: nat): (n: nat)
    requires size > 0
    ensures n > 0 && va / PGSIZE + n == (va + size - 1) / PGSIZE + 1
  {
    (va + size - 1) / PGSIZE - va / PGSIZE + 1
  }

  lemma SpanInside(va: nat, size: nat)
    requires size > 0 && va + size <= VPAGES * PGSIZE
    ensures va / PGSIZE + PageSpan(va, size) <= VPAGES
  {}

  lemma WholePages(v: nat, n: nat)
    requires n > 0
    ensures v * PGSIZE / PGSIZE == v && PageSpan(v * PGSIZE, n * PGSIZE) == n
  {}

  /** Exactly the k virtual pages from v on have been mapped, to the k pages from pg on. */
  ghost predicate MapsTo(s: State, s': State, d: Page, v: nat, k: nat, pg: Page, flags: nat) {
    && Others(s, s', d) && s'.dirs.Keys == s.dirs.Keys && s'.data == s.data
    && s'.held == s.held - UserPages(v, k, pg)
    && (forall u: nat :: Lookup(s', d, u) == if v <= u < v + k then Some(Pte(pg + (u - v), flags)) else Lookup(s, d, u))
  }

  lemma NoUserPages(v: nat, pg: Page)
    ensures UserPages(v, 0, pg) == {}
  {}

  lemma OneMore(v: nat, k: nat, pg: Page)
    ensures UserPages(v, k + 1, pg) == UserPages(v, k, pg) + UserPages(v + k, 1, pg + k)
  {}

  /** The next page is not among those already handed over. */
  lemma StillHeld(v: nat, k: nat, n: nat, pg: Page)
    requires k < n
    ensures pg + k !in UserPages(v, k, pg) && (v + k < KERN ==> pg + k in UserPages(v, n, pg))
  {}

  class Vm {
    var free: seq<Page>
    var dirs: map<Page, Dir>
    var tabs: map<Page, Table>
    var data: map<Page, Data>
    ghost var held: set<Page>
    ghost const pages: set<Page>

    ghost function Now(): State
      reads this
    {
      State(free, dirs, tabs, data, held, pages)
    }

    ghost predicate Valid()
      reads this
    {
      Inv(Now())
    }

    /** Before kinit1: no page is free and no page table exists. */
    constructor (ghost pages: set<Page>)
      ensures Valid() && this.pages == pages == held && free == [] && dirs == map[]
    {
      free, dirs, tabs, data := [], map[], map[], map[];
      held, this.pages := pages, pages;
      new;
      forall pg: Page | pg in pages ensures exists a: Place :: At(Now(), pg, a) { assert At(Now(), pg, Held); }
    }

    method Kalloc() returns (r: Option<Page>)
      requires Valid()
      modifies `free, `held
      ensures Valid()
      ensures r.None? <==> old(free) == []
      ensures r.None? ==> Now() == old(Now())
      ensures r.Some? ==> Now() == Alloc(old(Now())) && r.value == old(free)[0]
    {
      if free == [] {
        return None;
      }
      AllocMoves(Now());
      var x := free[0];
      free := free[1..];
      held := held + {x};
      return Some(x);
    }

    /** kfree of a page kalloc manages; of anything else it panics. */
    method Kfree(x: Page)
      requires x in pages
      modifies `free, `data, `held
      ensures Now() == Free(old(Now()), x)
    {
      data := data[x := 1];
      free := [x] + free;
      held := held - {x};
    }

    lemma ManagedInv(x: Page)
      requires Valid() && x in held
      ensures x in pages
    {
      assert At(Now(), x, Held);
    }

    /** freerange: every whole page between the two addresses goes on the free list. */
    method Freerange(vstart: nat, vend: nat)
      requires Valid() && forall pg :: Up(vstart) <= pg < vend / PGSIZE ==> pg in held
      modifies `free, `data, `held
      ensures Valid() && dirs == old(dirs) && tabs == old(tabs)
      ensures forall pg :: pg in free <==> pg in old(free) || Up(vstart) <= pg < vend / PGSIZE
      ensures forall pg :: pg in held <==> pg in old(held) && !(Up(vstart) <= pg < vend / PGSIZE)
    {
      hide Inv, At;
      var p := (vstart + PGSIZE - 1) / PGSIZE;
      while p * PGSIZE + PGSIZE <= vend
        invariant Up(vstart) <= p && (p == Up(vstart) || p <= vend / PGSIZE) && Valid() && dirs == old(dirs)
        invariant tabs == old(tabs)
        invariant forall pg :: pg in free <==> pg in old(free) || Up(vstart) <= pg < p
        invariant forall pg :: pg in held <==> pg in old(held) && !(Up(vstart) <= pg < p)
        decreases vend - p * PGSIZE
      {
        assert p < vend / PGSIZE;
        ManagedInv(p);
        FreeMoves(Now(), p);
        Kfree(p);
        p := p + 1;
      }
      assert vend / PGSIZE <= p;
    }

    method Walkpgdir(d: Page, v: nat, alloc: bool) returns (t: Option<Page>)
      requires Valid() && d in dirs && v < VPAGES
      modifies `free, `dirs, `tabs, `held
      ensures Valid() && Extends(old(Now()), Now(), d)
      ensures t.Some? ==> HasTable(Now(), d, v) && dirs[d][v / NENTRIES] == t
      ensures t.None? ==> Now() == old(Now()) && dirs[d][v / NENTRIES] == None && (alloc ==> free == [])
      ensures !alloc ==> Now() == old(Now())
    {
      var i := v / NENTRIES;
      if dirs[d][i].Some? {
        return dirs[d][i];
      }
      if !alloc {
        return None;
      }
      var x := Kalloc();
      if x.None? {
        return None;
      }
      AllocMoves(old(Now()));
      AddTableMoves(Now(), d, i, x.value);
      assert At(old(Now()), x.value, OnFree);
      assert At(old(Now()), x.value, Held) <==> x.value in old(held);
      tabs := tabs[x.value := EmptyTable()];
      dirs := dirs[d := dirs[d][i := Some(x.value)]];
      held := held - {x.value};
      return x;
    }

    /** *pte = pa | perm | PTE_P, through a table that walkpgdir found. */
    method SetPte(d: Page, v: nat, t: Page, pg: Page, flags: nat)
      requires Valid() && HasTable(Now(), d, v) && dirs[d][v / NENTRIES] == Some(t) && Lookup(Now(), d, v) == None
      requires v < KERN ==> pg in held
      modifies `tabs, `held
      ensures Valid() && MapsTo(old(Now()), Now(), d, v, 1, pg, flags)
    {
      ghost var s := Now();
      if v < KERN {
        MapUserMoves(s, d, v, Pte(pg, flags));
      } else {
        MapKernelKeeps(s, d, v, Pte(pg, flags));
      }
      tabs := tabs[t := tabs[t][v % NENTRIES := Some(Pte(pg, flags))]];
      if v < KERN {
        held := held - {pg};
      }
      assert UserPages(v, 1, pg) == if v < KERN then {pg} else {};
      assert Now() == if v < KERN then MapUser(s, d, v, Pte(pg, flags)) else PutPte(s, d, v, Some(Pte(pg, flags)));
    }

    /** mappages: the pages that size bytes at va touch are mapped to the pages from pg on, in order.  It stops at
        page k of the range when a table is missing and memory is out, or with the panic "remap" when that page is
        mapped already; the first k pages stay mapped.  In the user part pages are handed over from a holder. */
    method Mappages(d: Page, va: nat, size: nat, pg: Page, flags: nat) returns (r: MapResult, ghost k: nat)
      requires Valid() && d in dirs && 0 < size && va + size <= VPAGES * PGSIZE
      requires UserPages(va / PGSIZE, PageSpan(va, size), pg) <= held
      modifies `free, `dirs, `tabs, `held
      ensures Valid() && d in dirs && MapsTo(old(Now()), Now(), d, va / PGSIZE, k, pg, flags)
      ensures forall u :: va / PGSIZE <= u < va / PGSIZE + k ==> Lookup(old(Now()), d, u) == None
      ensures r.Mapped? <==> k == PageSpan(va, size)
      ensures !r.Mapped? ==> k < PageSpan(va, size)
      ensures r.Remap? <==> k < PageSpan(va, size) && Lookup(old(Now()), d, va / PGSIZE + k).Some?
      ensures r.NoMemory? ==> free == []
    {
      hide Inv, Lookup, Others, UserPages, PageSpan;
      OthersSelf(Now(), d);
      SpanInside(va, size);
      NoUserPages(va / PGSIZE, pg);
      var v, last := va / PGSIZE, (va + size - 1) / PGSIZE;
      k := 0;
      var a := v;
      while true
        invariant v <= a <= last && k == a - v && Valid() && d in dirs && MapsTo(old(Now()), Now(), d, v, k, pg, flags)
        invariant forall u :: v <= u < a ==> Lookup(old(Now()), d, u) == None
        decreases last - a
      {
        ghost var s := Now();
        var t := Walkpgdir(d, a, true);
        assert Lookup(s, d, a) == Lookup(old(Now()), d, a);
        if t.None? {
          TableMissing(d, a);
          return NoMemory, k;
        }
        OthersTrans(old(Now()), s, Now(), d);
        TableFound(d, a, t.value);
        if tabs[t.value][a % NENTRIES].Some? {
          return Remap, k;
        }
        ghost var s1 := Now();
        StillHeld(v, k, PageSpan(va, size), pg);
        SetPte(d, a, t.value, pg + (a - v), flags);
        OthersTrans(old(Now()), s1, Now(), d);
        OneMore(v, k, pg);
        k := k + 1;
        if a == last {
          break;
        }
        a := a + 1;
      }
      return Mapped, k;
    }

    lemma TableMissing(d: Page, v: nat)
      requires d in dirs && v < VPAGES && dirs[d][v / NENTRIES] == None
      ensures Lookup(Now(), d, v) == None
    {}

    lemma TableFound(d: Page, v: nat, t: Page)
      requires HasTable(Now(), d, v) && dirs[d][v / NENTRIES] == Some(t)
      ensures t in tabs && Lookup(Now(), d, v) == tabs[t][v % NENTRIES]
    {}

    /** mappages of n unmapped pages: one user page, or a range of the kernel's. */
    method MapFresh(d: Page, v: nat, n: nat, pg: Page, flags: nat) returns (ok: bool, ghost k: nat)
      requires Valid() && d in dirs && 0 < n && v + n <= VPAGES && (v < KERN ==> n == 1 && pg in held)
      requires forall u :: v <= u < v + n ==> Lookup(Now(), d, u) == None
      modifies `free, `dirs, `tabs, `held
      ensures Valid() && MapsTo(old(Now()), Now(), d, v, k, pg, flags) && (if ok then k == n else k < n)
      ensures held == if v < KERN && k > 0 then old(held) - {pg} else old(held)
    {
      hide Inv, Lookup, Others, PageSpan;
      WholePages(v, n);
      var r;
      r, k := Mappages(d, v * PGSIZE, n * PGSIZE, pg, flags);
      assert v < KERN && k > 0 ==> UserPages(v, k, pg) == {pg};
      assert v >= KERN || k == 0 ==> UserPages(v, k, pg) == {};
      ok := r.Mapped?;
    }

    /** The page a present entry maps is freed and the entry cleared. */
    method DropPage(d: Page, v: nat, t: Page)
      requires Valid() && HasTable(Now(), d, v) && v < KERN && dirs[d][v / NENTRIES] == Some(t)
      modifies `free, `tabs, `data, `held
      ensures Valid() && Now() == FreePage(old(Now()), d, v)
    {
      FreePageKeeps(Now(), d, v);
      var e := tabs[t][v % NENTRIES];
      if e.Some? {
        ghost var s := Now();
        assert At(s, e.value.page, User(d, v));
        Kfree(e.value.page);
        tabs := tabs[t := tabs[t][v % NENTRIES := None]];
        assert held == ClearUser(s, d, v).held - {e.value.page};
        assert Now() == FreePage(s, d, v);
      }
    }

    /** deallocuvm: what a walk over every page of the range would do, though it skips absent tables. */
    method Deallocuvm(d: Page, oldsz: nat, newsz: nat) returns (sz: nat)
      requires Valid() && d in dirs && oldsz <= KERNBASE
      modifies `free, `dirs, `tabs, `data, `held
      ensures Valid()
      ensures newsz >= oldsz ==> sz == oldsz && Now() == old(Now())
      ensures newsz < oldsz ==> sz == newsz && Now() == FreeRange(old(Now()), d, Up(newsz), Up(oldsz))
    {
      hide Inv;
      if newsz >= oldsz {
        return oldsz;
      }
      var a := (newsz + PGSIZE - 1) / PGSIZE * PGSIZE;
      while a < oldsz
        invariant a % PGSIZE == 0 && Valid() && dirs == old(dirs)
        invariant FreeRange(Now(), d, a / PGSIZE, Up(oldsz)) == FreeRange(old(Now()), d, Up(newsz), Up(oldsz))
        decreases KERNBASE + PGSIZE * NENTRIES - a
      {
        var v := a / PGSIZE;
        PageArith(a, oldsz);
        var t := Walkpgdir(d, v, false);
        if t.None? {
          SkipTable(Now(), d, v, Up(oldsz));
          a := (a / (PGSIZE * NENTRIES) + 1) * (PGSIZE * NENTRIES) - PGSIZE;
        } else {
          DropPage(d, v, t.value);
        }
        a := a + PGSIZE;
      }
      LastPage(a, oldsz);
      return newsz;
    }

    /** allocuvm.  A failed call leaves every mapping exactly as it was; all it may keep is page tables. */
    method Allocuvm(d: Page, oldsz: nat, newsz: nat) returns (sz: nat, ghost ok: bool)
      requires Valid() && d in dirs && oldsz < UINT && newsz < UINT
      requires oldsz <= newsz < KERNBASE ==> forall u :: Up(oldsz) <= u < Up(newsz) ==> Lookup(Now(), d, u) == None
      modifies `free, `dirs, `tabs, `data, `held
      ensures Valid() && held == old(held) && dirs.Keys == old(dirs).Keys
      ensures newsz >= 0x8000_0000 ==> !ok && sz == 0 && Now() == old(Now())
      ensures newsz < 0x8000_0000 && newsz < oldsz ==> ok && sz == oldsz && Now() == old(Now())
      ensures !ok ==> sz == 0 && forall e: Page, u: nat :: Lookup(Now(), e, u) == Lookup(old(Now()), e, u)
      ensures !ok ==> forall pg :: pg in old(free) && pg !in free ==>
        exists e, i :: At(Now(), pg, IsTab(e, i)) && !At(old(Now()), pg, IsTab(e, i))
      ensures ok && newsz >= oldsz ==> sz == newsz && Grew(old(Now()), Now(), d, Up(oldsz), Up(newsz))
    {
      if newsz >= KERNBASE {
        return 0, false;
      }
      if newsz < oldsz {
        return oldsz, true;
      }
      hide Inv, Lookup, Others;
      ghost var s0 := Now();
      OthersSelf(s0, d);
      var a := (oldsz + PGSIZE - 1) / PGSIZE * PGSIZE;
      while a < newsz
        invariant a % PGSIZE == 0 && Up(oldsz) <= a / PGSIZE && (a / PGSIZE <= Up(newsz))
        invariant Valid() && d in dirs && Grew(s0, Now(), d, Up(oldsz), a / PGSIZE)
      {
        PageArith(a, newsz);
        var r := GrowOne(s0, d, a / PGSIZE, oldsz, newsz);
        if !r {
          assert forall e: Page, u: nat :: Lookup(Now(), e, u) == Lookup(s0, e, u);
          forall pg | pg in s0.free && pg !in free
            ensures exists e, i :: At(Now(), pg, IsTab(e, i)) && !At(s0, pg, IsTab(e, i))
          {
            OnlyTablesKept(s0, Now(), pg);
          }
          return 0, false;
        }
        a := a + PGSIZE;
      }
      LastPage(a, newsz);
      return newsz, true;
    }

    /** kalloc, then memset or memmove of the new page. */
    method TakePage(value: Data) returns (x: Option<Page>)
      requires Valid()
      modifies `free, `data, `held
      ensures Valid()
      ensures x.None? ==> Now() == old(Now())
      ensures x.Some? ==> x.value in old(free) && x.value !in old(held) && held == old(held) + {x.value}
      ensures x.Some? ==>
        Now() == old(Now()).(free := free, held := held, data := data) && data == old(data)[x.value := value]
      ensures x.Some? ==> forall pg :: pg in free ==> pg in old(free)
      ensures forall e: Page, u: nat :: Lookup(Now(), e, u) == Lookup(old(Now()), e, u)
    {
      x := Kalloc();
      if x.Some? {
        ghost var s := Now();
        assert At(old(Now()), x.value, OnFree) && (At(old(Now()), x.value, Held) <==> x.value in old(held));
        data := data[x.value := value];
        forall pg: Page, pl: Place ensures At(Now(), pg, pl) <==> At(s, pg, pl) {
          assert pl.User? ==> Lookup(Now(), pl.d, pl.v) == Lookup(s, pl.d, pl.v);
        }
        SamePlaces(s, Now());
      }
    }

    /** deallocuvm of whatever allocuvm had mapped. */
    method GiveBack(d: Page, newsz: nat, oldsz: nat, ghost s0: State)
      requires Valid() && d in dirs && oldsz < newsz < KERNBASE
      requires forall e: Page, u: nat :: !(e == d && Up(oldsz) <= u < Up(newsz)) ==>
        Lookup(Now(), e, u) == Lookup(s0, e, u)
      requires forall u :: Up(oldsz) <= u < Up(newsz) ==> Lookup(s0, d, u) == None
      modifies `free, `dirs, `tabs, `data, `held
      ensures Valid() && held == old(held) && dirs == old(dirs)
      ensures forall e: Page, u: nat :: Lookup(Now(), e, u) == Lookup(s0, e, u)
    {
      hide Inv, Lookup;
      SizeArith(newsz);
      FreeRangeKeeps(Now(), d, Up(oldsz), Up(newsz));
      var sz := Deallocuvm(d, newsz, oldsz);
    }

    method KfreeHeld(x: Page)
      requires Valid() && x in held
      modifies `free, `data, `held
      ensures Valid() && Now() == Free(old(Now()), x)
      ensures forall e: Page, u: nat :: Lookup(Now(), e, u) == Lookup(old(Now()), e, u)
    {
      assert At(Now(), x, Held);
      FreeMoves(Now(), x);
      Kfree(x);
    }

    /** One round of allocuvm's loop, with its two ways to fail. */
    method GrowOne(ghost s0: State, d: Page, v: nat, oldsz: nat, newsz: nat) returns (ok: bool)
      requires Valid() && d in dirs && oldsz < newsz < KERNBASE && Up(oldsz) <= v < Up(newsz)
      requires Grew(s0, Now(), d, Up(oldsz), v) && forall u :: Up(oldsz) <= u < Up(newsz) ==> Lookup(s0, d, u) == None
      modifies `free, `dirs, `tabs, `data, `held
      ensures Valid() && d in dirs
      ensures ok ==> Grew(s0, Now(), d, Up(oldsz), v + 1)
      ensures !ok ==>
        held == s0.held && dirs.Keys == s0.dirs.Keys &&
        forall e: Page, u: nat :: Lookup(Now(), e, u) == Lookup(s0, e, u)
    {
      hide Inv, Lookup;
      SizeArith(newsz);
      var x := TakePage(0);
      if x.None? {
        GiveBack(d, newsz, oldsz, s0);
        return false;
      }
      ghost var k;
      ok, k := MapFresh(d, v, 1, x.value, PTE_W + PTE_U);
      if !ok {
        GiveBack(d, newsz, oldsz, s0);
        KfreeHeld(x.value);
      }
    }

    /** freevm: d, its tables and its user pages are free afterwards, and nothing else changes. */
    method Freevm(d: Page)
      requires Valid() && d in dirs
      modifies `free, `dirs, `tabs, `data, `held
      ensures Valid() && held == old(held) && dirs == old(dirs) - {d}
      ensures forall e: Page, u: nat :: e != d ==> Lookup(Now(), e, u) == Lookup(old(Now()), e, u)
      ensures forall pg :: pg in free <==> pg in old(free) || OwnedBy(old(Now()), d, pg)
      ensures forall pg :: pg !in free ==> DataOf(Now(), pg) == DataOf(old(Now()), pg)
    {
      hide Inv, Lookup;
      ghost var s0 := Now();
      SizeArith(KERNBASE);
      FreeRangeKeeps(s0, d, 0, KERN);
      var sz := Deallocuvm(d, KERNBASE, 0);
      FreeTables(d);
      ghost var s2 := Now().(dirs := dirs[d := Cleared(dirs[d], NENTRIES)]);
      DirFreed(s2, d);
      Kfree(d);
      dirs := dirs - {d};
      assert Now() == Free(DropDir(s2, d), d);
      forall pg ensures pg in free <==> pg in s0.free || OwnedBy(s0, d, pg) { FreedExactly(s0, Now(), d, pg); }
    }

    /** freevm's loop over the page directory.  The entries are left as they are; in effect they are cleared. */
    method FreeTables(d: Page)
      requires Valid() && d in dirs && forall u :: 0 <= u < KERN ==> Lookup(Now(), d, u) == None
      modifies `free, `tabs, `data, `held
      ensures var s := Now().(dirs := dirs[d := Cleared(dirs[d], NENTRIES)]);
        && Inv(s) && held == old(held)
        && (forall e: Page, u: nat :: e != d ==> Lookup(s, e, u) == Lookup(old(Now()), e, u))
        && (forall pg :: pg in old(free) ==> pg in free)
        && (forall pg :: pg !in free ==> DataOf(s, pg) == DataOf(old(Now()), pg))
    {
      hide Inv, Lookup, FreeTable;
      ghost var g, old_ := Now(), Now();
      assert Cleared(dirs[d], 0) == dirs[d] && dirs[d := dirs[d]] == dirs;
      var i := 0;
      while i < NENTRIES
        invariant 0 <= i <= NENTRIES && Inv(g) && g == Now().(dirs := dirs[d := Cleared(dirs[d], i)])
        invariant held == old_.held
        invariant forall e: Page, u: nat :: e != d || u < KERN ==> Lookup(g, e, u) == Lookup(old_, e, u)
        invariant forall pg :: pg in old_.free ==> pg in free
        invariant forall pg :: pg !in free ==> DataOf(g, pg) == DataOf(old_, pg)
      {
        FreeTableKeeps(g, d, i);
        ghost var g' := FreeTable(g, d, i);
        assert Cleared(dirs[d], i)[i := None] == Cleared(dirs[d], i + 1);
        assert dirs[d := Cleared(dirs[d], i)][d := Cleared(dirs[d], i + 1)] == dirs[d := Cleared(dirs[d], i + 1)];
        TableStep(g, d, i);
        if dirs[d][i].Some? {
          var x := dirs[d][i].value;
          Kfree(x);
          tabs := tabs - {x};
        }
        g := g';
        i := i + 1;
      }
    }

    /** setupkvm: a new directory with the kernel's mappings, or everything as before. */
    method Setupkvm(kmap: seq<KMap>) returns (r: Option<Page>)
      requires Valid() && KMapOk(kmap)
      modifies `free, `dirs, `tabs, `data, `held
      ensures Valid() && held == old(held)
      ensures r.Some? ==> r.value !in old(dirs) && r.value in dirs && Others(old(Now()), Now(), r.value)
      ensures r.Some? ==> forall u: nat :: Lookup(Now(), r.value, u) == KernelMap(kmap, |kmap|, u)
      ensures r.Some? ==> KernelHalf(Now(), r.value, kmap)
      ensures r.Some? ==> forall u :: 0 <= u < KERN ==> Lookup(Now(), r.value, u) == None
      ensures r.None? ==> AsBefore(old(Now()), Now())
    {
      hide Inv, Lookup;
      ghost var s0 := Now();
      var x := TakePage(0);
      if x.None? {
        return None;
      }
      var d := x.value;
      ghost var s1 := Now();
      AddDirMoves(s1, d);
      NoDirNoMap(s1, d);
      dirs := dirs[d := EmptyDir()];
      held := held - {d};
      assert Now() == AddDir(s1, d);
      var k := 0;
      while k < |kmap|
        invariant 0 <= k <= |kmap| && Valid() && d in dirs && d !in s0.dirs && held == s0.held && Others(s0, Now(), d)
        invariant forall u: nat :: Lookup(Now(), d, u) == KernelMap(kmap, k, u)
      {
        ghost var s2 := Now();
        RangeNew(kmap, k);
        ghost var done;
        var ok;
        ok, done := MapFresh(d, kmap[k].v, kmap[k].n, kmap[k].pg, kmap[k].flags);
        OthersTrans(s0, s2, Now(), d);
        if !ok {
          Abandon(d, s0);
          return None;
        }
        k := k + 1;
      }
      KernelRows(Now(), d, kmap, 0);
      UserPartEmpty(kmap);
      return Some(d);
    }

    /** freevm of a directory made since s0. */
    method Abandon(d: Page, ghost s0: State)
      requires Valid() && Inv(s0) && d in dirs && d !in s0.dirs && held == s0.held && Others(s0, Now(), d)
      modifies `free, `dirs, `tabs, `data, `held
      ensures Valid() && AsBefore(s0, Now())
    {
      hide Inv, Lookup;
      ghost var s1 := Now();
      Freevm(d);
      assert dirs == s0.dirs by {
        assert dirs.Keys == s0.dirs.Keys;
      }
      NoDirNoMap(s0, d);
      NoDirNoMap(Now(), d);
      forall pg ensures pg in s0.free <==> pg in free { AllGivenBack(s0, Now(), pg); }
    }

    /** copyuvm: the child has the same pages with the same contents and flags, in memory of its own. */
    method Copyuvm(d: Page, sz: nat, kmap: seq<KMap>) returns (r: Option<Page>)
      requires Valid() && KMapOk(kmap) && d in dirs && sz < KERNBASE
      requires forall u :: 0 <= u < Up(sz) ==> Lookup(Now(), d, u).Some?
      modifies `free, `dirs, `tabs, `data, `held
      ensures Valid() && held == old(held)
      ensures r.Some? ==> r.value !in old(dirs) && r.value in dirs && Others(old(Now()), Now(), r.value)
      ensures r.Some? ==> Copied(old(Now()), Now(), d, r.value, Up(sz), kmap)
      ensures r.Some? ==> KernelHalf(Now(), r.value, kmap)
      ensures r.Some? ==> forall u :: Up(sz) <= u < KERN ==> Lookup(Now(), r.value, u) == None
      ensures r.None? ==> AsBefore(old(Now()), Now())
    {
      hide Inv, Lookup;
      ghost var s0 := Now();
      var x := Setupkvm(kmap);
      if x.None? {
        return None;
      }
      var c := x.value;
      UserPartEmpty(kmap);
      var i := 0;
      while i < sz
        invariant i % PGSIZE == 0 && i / PGSIZE <= Up(sz) && Valid() && c in dirs && c !in s0.dirs && held == s0.held
        invariant Others(s0, Now(), c) && Copied(s0, Now(), d, c, i / PGSIZE, kmap)
      {
        PageArith(i, sz);
        var ok := CopyPage(s0, d, c, i / PGSIZE, kmap);
        if !ok {
          Abandon(c, s0);
          return None;
        }
        i := i + PGSIZE;
      }
      LastPage(i, sz);
      KernelRows(Now(), c, kmap, Up(sz));
      return Some(c);
    }

    /** One round of copyuvm's loop. */
    method CopyPage(ghost s0: State, d: Page, c: Page, v: nat, ghost kmap: seq<KMap>) returns (ok: bool)
      requires Valid() && Inv(s0) && c in dirs && c !in s0.dirs && d in s0.dirs && held == s0.held && v < KERN
      requires forall u :: 0 <= u <= v ==> Lookup(s0, d, u).Some?
      requires Others(s0, Now(), c) && Copied(s0, Now(), d, c, v, kmap) && KMapOk(kmap)
      modifies `free, `dirs, `tabs, `data, `held
      ensures Valid() && c in dirs && held == s0.held && Others(s0, Now(), c)
      ensures ok ==> Copied(s0, Now(), d, c, v + 1, kmap)
    {
      hide Inv, Lookup, HasTable, KernelMap, KMapOk, Copied, UserPages;
      ghost var s1 := Now();
      var t := Walkpgdir(d, v, false);
      assert Lookup(s1, d, v) == Lookup(s0, d, v);
      PresentHasTable(s1, d, v);
      var pte := tabs[t.value][v % NENTRIES].value;
      MappedNotFree(s0, d, v);
      UserPartEmpty(kmap);
      NextUnmapped(s0, s1, d, c, v, kmap);
      var x := TakePage(if pte.page in data then data[pte.page] else 0);
      if x.None? {
        return false;
      }
      ghost var s2 := Now();
      OthersTrans(s0, s1, s2, c);
      ghost var k;
      ok, k := MapFresh(c, v, 1, x.value, pte.flags);
      ghost var s3 := Now();
      OthersTrans(s0, s2, s3, c);
      if !ok {
        KfreeHeld(x.value);
        FreedAgain(s0, s3, c, x.value);
      } else {
        CopiedStep(s0, s1, s3, d, c, v, x.value, kmap);
      }
    }
  }

  lemma NextUnmapped(s0: State, s: State, d: Page, c: Page, v: nat, kmap: seq<KMap>)
    requires Copied(s0, s, d, c, v, kmap) && v < KERN && KMapOk(kmap)
    ensures Lookup(s, c, v) == None
  {
    UserPartEmpty(kmap);
  }

  lemma FreedAgain(s: State, s': State, c: Page, x: Page)
    requires Others(s, s', c) && x in s.free
    requires forall e: Page, u: nat :: Lookup(Free(s', x), e, u) == Lookup(s', e, u)
    ensures Others(s, Free(s', x), c)
  {}

  lemma CopiedStep(s0: State, s1: State, s3: State, d: Page, c: Page, v: nat, x: Page, kmap: seq<KMap>)
    requires Inv(s1) && v < KERN && Lookup(s0, d, v).Some? && Copied(s0, s1, d, c, v, kmap)
    requires forall u :: 0 <= u < v ==> Lookup(s0, d, u).Some?
    requires x in s1.free && x in s0.free
    requires forall u: nat :: Lookup(s3, c, u) == if u == v then Some(Pte(x, Lookup(s0, d, v).value.flags))
      else Lookup(s1, c, u)
    requires DataOf(s3, x) == DataOf(s0, Lookup(s0, d, v).value.page)
    requires forall pg :: pg != x ==> DataOf(s3, pg) == DataOf(s1, pg)
    ensures Copied(s0, s3, d, c, v + 1, kmap)
  {
    hide Inv, Lookup, DataOf;
    forall u: nat | u < v + 1 && Lookup(s0, d, u).Some?
      ensures NewPage(s0, s3, Lookup(s3, c, u), Lookup(s0, d, u).value.flags, DataOf(s0, Lookup(s0, d, u).value.page))
    {
      if u < v { MappedNotFree(s1, c, u); }
    }
  }

  /** One row of kmap: n pages from virtual page v map the n pages from pg. */
  datatype KMap = KMap(v: nat, n: nat, pg: Page, flags: nat)

  /** Rows above KERNBASE that do not overlap. */
  predicate KMapOk(kmap: seq<KMap>) {
    && (forall k :: 0 <= k < |kmap| ==> KERN <= kmap[k].v && kmap[k].n > 0 && kmap[k].v + kmap[k].n <= VPAGES)
    && (forall j, k :: 0 <= j < k < |kmap| ==> kmap[j].v + kmap[j].n <= kmap[k].v || kmap[k].v + kmap[k].n <= kmap[j].v)
  }

  /** The mapping of the first k rows. */
  function KernelMap(kmap: seq<KMap>, k: nat, u: nat): Option<Pte>
    requires k <= |kmap|
  {
    if k == 0 then None
    else if kmap[k - 1].v <= u < kmap[k - 1].v + kmap[k - 1].n then
      Some(Pte(kmap[k - 1].pg + (u - kmap[k - 1].v), kmap[k - 1].flags))
    else KernelMap(kmap, k - 1, u)
  }

  /** Row by row, page u of the row maps page u of its range with its flags; above KERNBASE nothing else is mapped. */
  ghost predicate KernelHalf(s: State, d: Page, kmap: seq<KMap>) {
    && (forall k, u :: 0 <= k < |kmap| && kmap[k].v <= u < kmap[k].v + kmap[k].n ==>
         Lookup(s, d, u) == Some(Pte(kmap[k].pg + (u - kmap[k].v), kmap[k].flags)))
    && (forall u: nat :: KERN <= u && (forall k :: 0 <= k < |kmap| ==> !(kmap[k].v <= u < kmap[k].v + kmap[k].n)) ==>
         Lookup(s, d, u) == None)
  }

  lemma {:induction false} RowMapped(kmap: seq<KMap>, j: nat, k: nat, u: nat)
    requires KMapOk(kmap) && k < j <= |kmap| && kmap[k].v <= u < kmap[k].v + kmap[k].n
    ensures KernelMap(kmap, j, u) == Some(Pte(kmap[k].pg + (u - kmap[k].v), kmap[k].flags))
  {
    if k < j - 1 { RowMapped(kmap, j - 1, k, u); }
  }

  lemma {:induction false} NoRow(kmap: seq<KMap>, j: nat, u: nat)
    requires j <= |kmap| && forall k :: 0 <= k < j ==> !(kmap[k].v <= u < kmap[k].v + kmap[k].n)
    ensures KernelMap(kmap, j, u) == None
  {
    if j > 0 { NoRow(kmap, j - 1, u); }
  }

  lemma KernelRows(s: State, d: Page, kmap: seq<KMap>, n: nat)
    requires KMapOk(kmap) && n <= KERN && forall u: nat :: u >= n ==> Lookup(s, d, u) == KernelMap(kmap, |kmap|, u)
    ensures KernelHalf(s, d, kmap)
  {
    hide Lookup, KernelMap;
    forall k, u | 0 <= k < |kmap| && kmap[k].v <= u < kmap[k].v + kmap[k].n
      ensures Lookup(s, d, u) == Some(Pte(kmap[k].pg + (u - kmap[k].v), kmap[k].flags))
    {
      RowMapped(kmap, |kmap|, k, u);
    }
    forall u: nat | KERN <= u && forall k :: 0 <= k < |kmap| ==> !(kmap[k].v <= u < kmap[k].v + kmap[k].n)
      ensures Lookup(s, d, u) == None
    {
      NoRow(kmap, |kmap|, u);
    }
  }

  lemma {:induction false} RowNew(kmap: seq<KMap>, k: nat, j: nat, u: nat)
    requires KMapOk(kmap) && j <= k < |kmap| && kmap[k].v <= u < kmap[k].v + kmap[k].n
    ensures KernelMap(kmap, j, u) == None
  {
    if j > 0 { RowNew(kmap, k, j - 1, u); }
  }

  lemma RangeNew(kmap: seq<KMap>, k: nat)
    requires KMapOk(kmap) && k < |kmap|
    ensures forall u: nat :: kmap[k].v <= u < kmap[k].v + kmap[k].n ==> KernelMap(kmap, k, u) == None
  {
    forall u: nat | kmap[k].v <= u < kmap[k].v + kmap[k].n
      ensures KernelMap(kmap, k, u) == None
    { RowNew(kmap, k, k, u); }
  }

  lemma {:induction false} UserNotMapped(kmap: seq<KMap>, k: nat, u: nat)
    requires KMapOk(kmap) && k <= |kmap| && u < KERN
    ensures KernelMap(kmap, k, u) == None
  {
    if k > 0 { UserNotMapped(kmap, k - 1, u); }
  }

  lemma UserPartEmpty(kmap: seq<KMap>)
    requires KMapOk(kmap)
    ensures forall u: nat :: u < KERN ==> KernelMap(kmap, |kmap|, u) == None
  {
    forall u: nat | u < KERN ensures KernelMap(kmap, |kmap|, u) == None { UserNotMapped(kmap, |kmap|, u); }
  }

  /** A failed call has given everything back: same directories, same mappings, same free pages. */
  ghost predicate AsBefore(s: State, s': State) {
    && s'.pages == s.pages && s'.held == s.held && s'.dirs == s.dirs
    && (forall e: Page, u: nat :: Lookup(s', e, u) == Lookup(s, e, u))
    && (forall pg :: pg in s.free <==> pg in s'.free)
    && (forall pg :: pg !in s.free ==> DataOf(s', pg) == DataOf(s, pg))
  }

  /** The first n user pages of d have copies in c, which has the kernel's mappings and nothing more. */
  ghost predicate Copied(s: State, s': State, d: Page, c: Page, n: nat, kmap: seq<KMap>) {
    && (forall u: nat :: u < n && Lookup(s, d, u).Some? ==>
         NewPage(s, s', Lookup(s', c, u), Lookup(s, d, u).value.flags, DataOf(s, Lookup(s, d, u).value.page)))
    && (forall u: nat :: u >= n ==> Lookup(s', c, u) == KernelMap(kmap, |kmap|, u))
  }

  lemma NoDirNoMap(s: State, d: Page)
    requires d !in s.dirs
    ensures forall u: nat :: Lookup(s, d, u) == None
  {}

  lemma PresentHasTable(s: State, d: Page, v: nat)
    requires Lookup(s, d, v).Some?
    ensures HasTable(s, d, v) && Lookup(s, d, v) == s.tabs[s.dirs[d][v / NENTRIES].value][v % NENTRIES]
  {}

  lemma MappedNotFree(s: State, d: Page, v: nat)
    requires Inv(s) && v < KERN && Lookup(s, d, v).Some?
    ensures Lookup(s, d, v).value.page !in s.free
  {
    var x := Lookup(s, d, v).value.page;
    assert At(s, x, User(d, v));
    assert At(s, x, OnFree) <==> x in s.free;
  }

  /** What freeing one table does to each part of the state. */
  lemma TableStep(s: State, d: Page, i: nat)
    requires Inv(s) && d in s.dirs && i < NENTRIES
    ensures s.dirs[d][i].None? ==> FreeTable(s, d, i) == s
    ensures s.dirs[d][i].Some? ==> var x := s.dirs[d][i].value; var s' := FreeTable(s, d, i);
      x in s.pages && s'.free == [x] + s.free && s'.tabs == s.tabs - {x} && s'.data == s.data[x := 1] &&
        s'.held == s.held - {x}
  {
    if s.dirs[d][i].Some? {
      assert At(s, s.dirs[d][i].value, IsTab(d, i));
    }
  }

  lemma DirFreed(s: State, d: Page)
    requires Inv(s) && d in s.dirs && forall i :: 0 <= i < NENTRIES ==> s.dirs[d][i] == None
    ensures var s' := Free(DropDir(s, d), d);
      && d in s.pages && Inv(s') && s'.held == s.held && s'.pages == s.pages
      && (forall e: Page, u: nat :: Lookup(s', e, u) == Lookup(s, e, u))
  {
    assert At(s, d, IsDir) && (At(s, d, Held) <==> d in s.held);
    DropDirMoves(s, d);
    FreeMoves(DropDir(s, d), d);
    assert s.held + {d} - {d} == s.held;
  }

  /** Each new page maps zeroed memory that was free, writable (2) by the user (4); nothing else is remapped. */
  ghost predicate Grew(s: State, s': State, d: Page, lo: nat, hi: nat) {
    && Others(s, s', d) && s'.held == s.held && s'.dirs.Keys == s.dirs.Keys
    && (forall u: nat :: !(lo <= u < hi) ==> Lookup(s', d, u) == Lookup(s, d, u))
    && (forall u: nat :: lo <= u < hi ==> NewPage(s, s', Lookup(s', d, u), 6, 0))
  }

  /** A present entry, for a page that was free in s and now holds the given data. */
  ghost predicate NewPage(s: State, s': State, e: Option<Pte>, flags: nat, value: Data) {
    e.Some? && e.value.flags == flags && e.value.page in s.free && DataOf(s', e.value.page) == value
  }

  lemma PageArith(a: nat, oldsz: nat)
    requires a % PGSIZE == 0 && a < oldsz <= KERNBASE
    ensures a / PGSIZE < Up(oldsz) <= KERN && (a + PGSIZE) / PGSIZE == a / PGSIZE + 1 && (a + PGSIZE) % PGSIZE == 0
    ensures var b := (a / (PGSIZE * NENTRIES) + 1) * (PGSIZE * NENTRIES);
      b % PGSIZE == 0 && b / PGSIZE == (a / PGSIZE / NENTRIES + 1) * NENTRIES && a < b <= KERNBASE
  {}

  lemma SizeArith(sz: nat)
    requires sz <= KERNBASE
    ensures Up(sz) <= KERN
  {}

  lemma LastPage(a: nat, oldsz: nat)
    requires a % PGSIZE == 0 && a >= oldsz
    ensures a / PGSIZE >= Up(oldsz)
  {}
}
