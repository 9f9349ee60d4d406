/** Page tables and physical pages of vm.c and kalloc.c.  Pages and virtual pages are numbered;
    virtual page v is entry v % 1024 of the table in entry v / 1024 of the directory. */
module VmModel {
  import opened Common

  const NENTRIES: nat := 1024
  const PGSIZE: nat := 4096
  /** KERNBASE / PGSIZE */
  const KERN: nat := 0x80000
  const VPAGES: nat := 0x100000

  type Page = nat
  /** What a page of user memory holds: 0 is a page of zeros, 1 the junk kfree writes. */
  type Data = nat

  datatype Pte = Pte(page: Page, flags: nat)

  type Dir = d: seq<Option<Page>> | |d| == NENTRIES witness seq(NENTRIES, _ => None)
  type Table = t: seq<Option<Pte>> | |t| == NENTRIES witness seq(NENTRIES, _ => None)

  function EmptyDir(): (d: Dir)
    ensures forall i :: 0 <= i < NENTRIES ==> d[i] == None
  {
    seq(NENTRIES, _ => None)
  }

  function EmptyTable(): (t: Table)
    ensures forall i :: 0 <= i < NENTRIES ==> t[i] == None
  {
    seq(NENTRIES, _ => None)
  }

  /** `held` are pages some other part of the kernel has; `pages` are all pages kalloc manages. */
  datatype State = State(free: seq<Page>, dirs: map<Page, Dir>, tabs: map<Page, Table>, data: map<Page, Data>,
                         held: set<Page>, pages: set<Page>)

  /** The mapping a directory stands for. */
  function Lookup(s: State, d: Page, v: nat): Option<Pte> {
    if d in s.dirs && v < VPAGES && s.dirs[d][v / NENTRIES].Some? && s.dirs[d][v / NENTRIES].value in s.tabs
    then s.tabs[s.dirs[d][v / NENTRIES].value][v % NENTRIES]
    else None
  }

  // ---------------------------------------------------------------- where a page is

  datatype Place = OnFree | IsDir | IsTab(d: Page, i: nat) | User(d: Page, v: nat) | Held

  predicate At(s: State, pg: Page, pl: Place) {
    match pl
    case OnFree => pg in s.free
    case IsDir => pg in s.dirs
    case IsTab(d, i) => d in s.dirs && i < NENTRIES && s.dirs[d][i] == Some(pg)
    case User(d, v) => v < KERN && Lookup(s, d, v).Some? && Lookup(s, d, v).value.page == pg
    case Held => pg in s.held
  }

  predicate NoDup(free: seq<Page>) {
    forall i, j :: 0 <= i < j < |free| ==> free[i] != free[j]
  }

  /** Directories point to tables, and the free list repeats nothing. */
  ghost predicate Shape(s: State) {
    && NoDup(s.free)
    && (forall d, i :: d in s.dirs && 0 <= i < NENTRIES && s.dirs[d][i].Some? ==> s.dirs[d][i].value in s.tabs)
  }

  ghost predicate OnePlace(s: State) {
    forall pg: Page, a: Place, b: Place :: At(s, pg, a) && At(s, pg, b) ==> a == b
  }

  ghost predicate AllManaged(s: State) {
    forall pg: Page, a: Place :: At(s, pg, a) ==> pg in s.pages
  }

  ghost predicate NoneLost(s: State) {
    forall pg: Page :: pg in s.pages ==> exists a: Place :: At(s, pg, a)
  }

  /** Every page kalloc manages is in exactly one place. */
  ghost predicate Inv(s: State) { Shape(s) && OnePlace(s) && AllManaged(s) && NoneLost(s) }

  /** One page goes from one place to another and no other page moves. */
  ghost predicate Moves(s: State, s': State, x: Page, from: Place, to: Place) {
    && s'.pages == s.pages && At(s, x, from) && from != to
    && forall pg: Page, pl: Place :: At(s', pg, pl) <==> (if pg == x then pl == to else At(s, pg, pl))
  }

  lemma MoveKeeps(s: State, s': State, x: Page, from: Place, to: Place)
    requires Inv(s) && Shape(s') && Moves(s, s', x, from, to)
    ensures Inv(s')
  {
    forall pg: Page | pg in s'.pages ensures exists a: Place :: At(s', pg, a) {
      if pg == x {
        assert At(s', x, to);
      } else {
        var a: Place :| At(s, pg, a);
        assert At(s', pg, a);
      }
    }
  }

  // ---------------------------------------------------------------- the steps of vm.c and kalloc.c

  /** kalloc, on a list that is not empty. */
  function Alloc(s: State): State
    requires s.free != []
  {
    s.(free := s.free[1..], held := s.held + {s.free[0]})
  }

  lemma AllocMoves(s: State)
    requires Inv(s) && s.free != []
    ensures Moves(s, Alloc(s), s.free[0], OnFree, Held) && Inv(Alloc(s))
    ensures forall d: Page, v: nat :: Lookup(Alloc(s), d, v) == Lookup(s, d, v)
  {
    var s', x := Alloc(s), s.free[0];
    assert At(s, x, OnFree);
    assert s.free == [x] + s'.free;
    assert x !in s'.free;
    forall pg: Page, pl: Place ensures At(s', pg, pl) <==> (if pg == x then pl == Held else At(s, pg, pl)) {
      assert At(s, x, pl) ==> pl == OnFree;
      assert pl == OnFree ==> (At(s, pg, pl) <==> pg == x || pg in s'.free);
    }
    MoveKeeps(s, s', x, OnFree, Held);
  }

  /** kfree */
  function Free(s: State, x: Page): State {
    s.(free := [x] + s.free, held := s.held - {x}, data := s.data[x := 1])
  }

  lemma FreeMoves(s: State, x: Page)
    requires Inv(s) && x in s.held
    ensures Moves(s, Free(s, x), x, Held, OnFree) && Inv(Free(s, x))
    ensures forall d: Page, v: nat :: Lookup(Free(s, x), d, v) == Lookup(s, d, v)
  {
    var s' := Free(s, x);
    assert At(s, x, Held);
    assert At(s, x, OnFree) <==> x in s.free;
    forall pg: Page, pl: Place ensures At(s', pg, pl) <==> (if pg == x then pl == OnFree else At(s, pg, pl)) {
      assert At(s, x, pl) ==> pl == Held;
    }
    MoveKeeps(s, s', x, Held, OnFree);
  }

  /** A new page table, all entries absent. */
  function AddTable(s: State, d: Page, i: nat, x: Page): State
    requires d in s.dirs && i < NENTRIES
  {
    s.(dirs := s.dirs[d := s.dirs[d][i := Some(x)]], tabs := s.tabs[x := EmptyTable()], held := s.held - {x})
  }

  lemma AddTableMoves(s: State, d: Page, i: nat, x: Page)
    requires Inv(s) && d in s.dirs && i < NENTRIES && s.dirs[d][i] == None && x in s.held
    ensures Moves(s, AddTable(s, d, i, x), x, Held, IsTab(d, i)) && Inv(AddTable(s, d, i, x))
    ensures forall e: Page, v: nat :: Lookup(AddTable(s, d, i, x), e, v) == Lookup(s, e, v)
  {
    var s' := AddTable(s, d, i, x);
    assert At(s, x, Held);
    NotATable(s, x);
    forall e: Page, v: nat ensures Lookup(s', e, v) == Lookup(s, e, v) {
    }
    forall pg: Page, pl: Place ensures At(s', pg, pl) <==> (if pg == x then pl == IsTab(d, i) else At(s, pg, pl)) {
      assert At(s, x, pl) ==> pl == Held;
      assert pl.User? ==> Lookup(s', pl.d, pl.v) == Lookup(s, pl.d, pl.v);
    }
    MoveKeeps(s, s', x, Held, IsTab(d, i));
  }

  /** A page held elsewhere is in no directory entry. */
  lemma NotATable(s: State, x: Page)
    requires OnePlace(s) && x in s.held
    ensures forall e, i :: e in s.dirs && 0 <= i < NENTRIES ==> s.dirs[e][i] != Some(x)
  {
    assert At(s, x, Held);
    forall e, i | e in s.dirs && 0 <= i < NENTRIES ensures s.dirs[e][i] != Some(x) {
      assert At(s, x, IsTab(e, i)) <==> s.dirs[e][i] == Some(x);
    }
  }

  predicate HasTable(s: State, d: Page, v: nat) {
    d in s.dirs && v < VPAGES && s.dirs[d][v / NENTRIES].Some? && s.dirs[d][v / NENTRIES].value in s.tabs
  }

  /** *pte = e */
  function PutPte(s: State, d: Page, v: nat, e: Option<Pte>): State
    requires HasTable(s, d, v)
  {
    var t := s.dirs[d][v / NENTRIES].value;
    s.(tabs := s.tabs[t := s.tabs[t][v % NENTRIES := e]])
  }

  /** No table is shared, so exactly one virtual page of one directory is remapped. */
  lemma PutPteLookup(s: State, d: Page, v: nat, e: Option<Pte>, d': Page, v': nat)
    requires OnePlace(s) && HasTable(s, d, v)
    ensures Lookup(PutPte(s, d, v, e), d', v') == if d' == d && v' == v then e else Lookup(s, d', v')
  {
    var t := s.dirs[d][v / NENTRIES].value;
    assert At(s, t, IsTab(d, v / NENTRIES));
    if d' in s.dirs && v' < VPAGES && s.dirs[d'][v' / NENTRIES] == Some(t) {
      assert At(s, t, IsTab(d', v' / NENTRIES));
      assert v' == v / NENTRIES * NENTRIES + v' % NENTRIES && v == v / NENTRIES * NENTRIES + v % NENTRIES;
    }
  }

  /** mappages on one user page. */
  function MapUser(s: State, d: Page, v: nat, pte: Pte): State
    requires HasTable(s, d, v)
  {
    PutPte(s, d, v, Some(pte)).(held := s.held - {pte.page})
  }

  lemma MapUserMoves(s: State, d: Page, v: nat, pte: Pte)
    requires Inv(s) && HasTable(s, d, v) && v < KERN && Lookup(s, d, v) == None && pte.page in s.held
    ensures Moves(s, MapUser(s, d, v, pte), pte.page, Held, User(d, v)) && Inv(MapUser(s, d, v, pte))
    ensures forall e: Page, u: nat ::
      Lookup(MapUser(s, d, v, pte), e, u) == if e == d && u == v then Some(pte) else Lookup(s, e, u)
  {
    var s', x := MapUser(s, d, v, pte), pte.page;
    assert At(s, x, Held);
    forall e: Page, u: nat ensures Lookup(s', e, u) == if e == d && u == v then Some(pte) else Lookup(s, e, u) {
      PutPteLookup(s, d, v, Some(pte), e, u);
    }
    forall pg: Page, pl: Place ensures At(s', pg, pl) <==> (if pg == x then pl == User(d, v) else At(s, pg, pl)) {
      assert At(s, x, pl) ==> pl == Held;
      assert pl.User? ==> Lookup(s', pl.d, pl.v) == if pl.d == d && pl.v == v then Some(pte) else Lookup(s, pl.d, pl.v);
    }
    MoveKeeps(s, s', x, Held, User(d, v));
  }

  function ClearUser(s: State, d: Page, v: nat): State
    requires HasTable(s, d, v) && Lookup(s, d, v).Some?
  {
    PutPte(s, d, v, None).(held := s.held + {Lookup(s, d, v).value.page})
  }

  lemma ClearUserMoves(s: State, d: Page, v: nat)
    requires Inv(s) && HasTable(s, d, v) && v < KERN && Lookup(s, d, v).Some?
    ensures Moves(s, ClearUser(s, d, v), Lookup(s, d, v).value.page, User(d, v), Held) && Inv(ClearUser(s, d, v))
    ensures forall e: Page, u: nat ::
      Lookup(ClearUser(s, d, v), e, u) == if e == d && u == v then None else Lookup(s, e, u)
  {
    var s', x := ClearUser(s, d, v), Lookup(s, d, v).value.page;
    assert At(s, x, User(d, v));
    forall e: Page, u: nat ensures Lookup(s', e, u) == if e == d && u == v then None else Lookup(s, e, u) {
      PutPteLookup(s, d, v, None, e, u);
    }
    forall pg: Page, pl: Place ensures At(s', pg, pl) <==> (if pg == x then pl == Held else At(s, pg, pl)) {
      assert At(s, x, pl) ==> pl == User(d, v);
      assert At(s, pg, User(d, v)) ==> pg == x;
      assert pl.User? ==> Lookup(s', pl.d, pl.v) == if pl.d == d && pl.v == v then None else Lookup(s, pl.d, pl.v);
    }
    MoveKeeps(s, s', x, User(d, v), Held);
  }

  /** A kernel mapping refers to a page but does not own it. */
  lemma MapKernelKeeps(s: State, d: Page, v: nat, pte: Pte)
    requires Inv(s) && HasTable(s, d, v) && KERN <= v
    ensures Inv(PutPte(s, d, v, Some(pte)))
    ensures forall e: Page, u: nat ::
      Lookup(PutPte(s, d, v, Some(pte)), e, u) == if e == d && u == v then Some(pte) else Lookup(s, e, u)
  {
    var s' := PutPte(s, d, v, Some(pte));
    forall e: Page, u: nat ensures Lookup(s', e, u) == if e == d && u == v then Some(pte) else Lookup(s, e, u) {
      PutPteLookup(s, d, v, Some(pte), e, u);
    }
    forall pg: Page, pl: Place ensures At(s', pg, pl) <==> At(s, pg, pl) {
      assert pl.User? && pl.v < KERN ==> Lookup(s', pl.d, pl.v) == Lookup(s, pl.d, pl.v);
    }
    SamePlaces(s, s');
  }

  lemma SamePlaces(s: State, s': State)
    requires Inv(s) && Shape(s') && s'.pages == s.pages
    requires forall pg: Page, pl: Place :: At(s', pg, pl) <==> At(s, pg, pl)
    ensures Inv(s')
  {}

  function AddDir(s: State, x: Page): State { s.(dirs := s.dirs[x := EmptyDir()], held := s.held - {x}) }

  lemma AddDirMoves(s: State, x: Page)
    requires Inv(s) && x in s.held
    ensures x !in s.dirs && Moves(s, AddDir(s, x), x, Held, IsDir) && Inv(AddDir(s, x))
    ensures forall e: Page, u: nat :: Lookup(AddDir(s, x), e, u) == Lookup(s, e, u)
  {
    var s' := AddDir(s, x);
    assert At(s, x, Held);
    assert At(s, x, IsDir) <==> x in s.dirs;
    forall e: Page, u: nat ensures Lookup(s', e, u) == Lookup(s, e, u) {
    }
    forall pg: Page, pl: Place ensures At(s', pg, pl) <==> (if pg == x then pl == IsDir else At(s, pg, pl)) {
      assert At(s, x, pl) ==> pl == Held;
      assert pl.User? ==> Lookup(s', pl.d, pl.v) == Lookup(s, pl.d, pl.v);
    }
    MoveKeeps(s, s', x, Held, IsDir);
  }

  /** The user part of a table is empty. */
  predicate NoUser(s: State, d: Page, i: nat) {
    forall v :: 0 <= v < KERN && v / NENTRIES == i ==> Lookup(s, d, v) == None
  }

  function DropTable(s: State, d: Page, i: nat): State
    requires d in s.dirs && i < NENTRIES && s.dirs[d][i].Some?
  {
    var x := s.dirs[d][i].value;
    s.(dirs := s.dirs[d := s.dirs[d][i := None]], tabs := s.tabs - {x}, held := s.held + {x})
  }

  lemma DropTableMoves(s: State, d: Page, i: nat)
    requires Inv(s) && d in s.dirs && i < NENTRIES && s.dirs[d][i].Some? && NoUser(s, d, i)
    ensures Moves(s, DropTable(s, d, i), s.dirs[d][i].value, IsTab(d, i), Held) && Inv(DropTable(s, d, i))
    ensures forall e: Page, u: nat :: e != d || u < KERN ==> Lookup(DropTable(s, d, i), e, u) == Lookup(s, e, u)
  {
    var s', x := DropTable(s, d, i), s.dirs[d][i].value;
    assert At(s, x, IsTab(d, i));
    forall e, k | e in s'.dirs && 0 <= k < NENTRIES && s'.dirs[e][k].Some? ensures s'.dirs[e][k].value in s'.tabs {
      assert At(s, s'.dirs[e][k].value, IsTab(e, k));
    }
    forall e: Page, u: nat | e != d || u < KERN ensures Lookup(s', e, u) == Lookup(s, e, u) {
      if e in s.dirs && u < VPAGES { assert At(s, x, IsTab(e, u / NENTRIES)) <==> s.dirs[e][u / NENTRIES] == Some(x); }
    }
    forall pg: Page, pl: Place ensures At(s', pg, pl) <==> (if pg == x then pl == Held else At(s, pg, pl)) {
      assert At(s, x, pl) ==> pl == IsTab(d, i);
      assert pl.User? && pl.v < KERN ==> Lookup(s', pl.d, pl.v) == Lookup(s, pl.d, pl.v);
    }
    MoveKeeps(s, s', x, IsTab(d, i), Held);
  }

  function DropDir(s: State, d: Page): State { s.(dirs := s.dirs - {d}, held := s.held + {d}) }

  lemma DropDirMoves(s: State, d: Page)
    requires Inv(s) && d in s.dirs && forall i :: 0 <= i < NENTRIES ==> s.dirs[d][i] == None
    ensures Moves(s, DropDir(s, d), d, IsDir, Held) && Inv(DropDir(s, d))
    ensures forall e: Page, u: nat :: Lookup(DropDir(s, d), e, u) == Lookup(s, e, u)
  {
    var s' := DropDir(s, d);
    assert At(s, d, IsDir);
    forall e: Page, u: nat ensures Lookup(s', e, u) == Lookup(s, e, u) {
    }
    forall pg: Page, pl: Place ensures At(s', pg, pl) <==> (if pg == d then pl == Held else At(s, pg, pl)) {
      assert At(s, d, pl) ==> pl == IsDir;
      assert pl.User? ==> Lookup(s', pl.d, pl.v) == Lookup(s, pl.d, pl.v);
    }
    MoveKeeps(s, s', d, IsDir, Held);
  }

  // ---------------------------------------------------------------- freeing a range, page by page

  function FreePage(s: State, d: Page, v: nat): State {
    if HasTable(s, d, v) && Lookup(s, d, v).Some? then Free(ClearUser(s, d, v), Lookup(s, d, v).value.page) else s
  }

  function FreeRange(s: State, d: Page, lo: nat, hi: nat): State
    decreases hi - lo
  {
    if lo >= hi then s else FreeRange(FreePage(s, d, lo), d, lo + 1, hi)
  }

  lemma FreePageKeeps(s: State, d: Page, v: nat)
    requires Inv(s) && v < KERN
    ensures var s' := FreePage(s, d, v);
      && Inv(s') && s'.dirs == s.dirs && s'.held == s.held && s'.pages == s.pages && s'.tabs.Keys == s.tabs.Keys
      && (forall e: Page, u: nat :: Lookup(s', e, u) == if e == d && u == v then None else Lookup(s, e, u))
      && (forall pg :: pg in s'.free <==> pg in s.free || At(s, pg, User(d, v)))
      && (forall pg :: !At(s, pg, User(d, v)) ==> DataOf(s', pg) == DataOf(s, pg))
  {
    if HasTable(s, d, v) && Lookup(s, d, v).Some? {
      var s1, x := ClearUser(s, d, v), Lookup(s, d, v).value.page;
      ClearUserMoves(s, d, v);
      FreeMoves(s1, x);
      assert At(s, x, User(d, v));
      assert At(s, x, Held) <==> x in s.held;
      assert s1.held - {x} == s.held;
    }
  }

  function DataOf(s: State, pg: Page): Data { if pg in s.data then s.data[pg] else 0 }

  lemma {:induction false} FreeRangeKeeps(s: State, d: Page, lo: nat, hi: nat)
    requires Inv(s) && hi <= KERN
    ensures var s' := FreeRange(s, d, lo, hi);
      && Inv(s') && s'.dirs == s.dirs && s'.held == s.held && s'.pages == s.pages && s'.tabs.Keys == s.tabs.Keys
      && (forall e: Page, u: nat :: Lookup(s', e, u) == if e == d && lo <= u < hi then None else Lookup(s, e, u))
      && (forall pg :: pg in s'.free <==> pg in s.free || UserIn(s, d, lo, hi, pg))
      && (forall pg :: !UserIn(s, d, lo, hi, pg) ==> DataOf(s', pg) == DataOf(s, pg))
    decreases hi - lo
  {
    if lo < hi {
      var s1 := FreePage(s, d, lo);
      FreePageKeeps(s, d, lo);
      FreeRangeKeeps(s1, d, lo + 1, hi);
      hide Inv, FreePage;
      forall pg ensures UserIn(s, d, lo, hi, pg) <==> At(s, pg, User(d, lo)) || UserIn(s1, d, lo + 1, hi, pg) {
        UserInStep(s, s1, d, lo, hi, pg);
      }
    }
  }

  /** The page is mapped in the range. */
  predicate UserIn(s: State, d: Page, lo: nat, hi: nat, pg: Page) {
    exists v :: lo <= v < hi && At(s, pg, User(d, v))
  }

  lemma UserInStep(s: State, s1: State, d: Page, lo: nat, hi: nat, pg: Page)
    requires lo < hi <= KERN && forall u: nat :: Lookup(s1, d, u) == if u == lo then None else Lookup(s, d, u)
    ensures UserIn(s, d, lo, hi, pg) <==> At(s, pg, User(d, lo)) || UserIn(s1, d, lo + 1, hi, pg)
  {}

  /** Where the directory has no table, walking page by page does nothing until the next table's first page. */
  lemma {:induction false} SkipTable(s: State, d: Page, lo: nat, hi: nat)
    requires d in s.dirs && lo < VPAGES && s.dirs[d][lo / NENTRIES] == None
    ensures FreeRange(s, d, lo, hi) == FreeRange(s, d, (lo / NENTRIES + 1) * NENTRIES, hi)
    decreases NENTRIES - lo % NENTRIES
  {
    if lo < hi {
      assert FreePage(s, d, lo) == s;
      if lo % NENTRIES < NENTRIES - 1 {
        NextInTable(lo);
        SkipTable(s, d, lo + 1, hi);
      } else {
        assert lo + 1 == (lo / NENTRIES + 1) * NENTRIES;
      }
    } else {
      assert hi <= (lo / NENTRIES + 1) * NENTRIES;
    }
  }

  lemma NextInTable(v: nat)
    requires v % NENTRIES < NENTRIES - 1 && v < VPAGES
    ensures (v + 1) / NENTRIES == v / NENTRIES && (v + 1) % NENTRIES == v % NENTRIES + 1 && v + 1 < VPAGES
  {}

  // ---------------------------------------------------------------- what a failed call gives back

  /** With the same mapping and the same other holders, the pages that are no longer free are page tables. */
  lemma OnlyTablesKept(s: State, s': State, pg: Page)
    requires Inv(s) && Inv(s') && s'.pages == s.pages && s'.held == s.held && s'.dirs.Keys == s.dirs.Keys
    requires forall e: Page, u: nat :: u < KERN ==> Lookup(s', e, u) == Lookup(s, e, u)
    requires pg in s.free && pg !in s'.free
    ensures exists d, i :: At(s', pg, IsTab(d, i)) && !At(s, pg, IsTab(d, i))
  {
    assert At(s, pg, OnFree);
    var a: Place :| At(s', pg, a);
    assert a.User? ==> At(s, pg, a);
    assert At(s, pg, a) ==> a == OnFree;
    assert a.IsTab?;
  }

  /** With the same directories as well, nothing is missing from the free list. */
  lemma AllGivenBack(s: State, s': State, pg: Page)
    requires Inv(s) && Inv(s') && s'.pages == s.pages && s'.held == s.held && s'.dirs == s.dirs
    requires forall e: Page, u: nat :: u < KERN ==> Lookup(s', e, u) == Lookup(s, e, u)
    ensures pg in s.free <==> pg in s'.free
  {
    if pg in s.free && pg !in s'.free {
      OnlyTablesKept(s, s', pg);
      assert false;
    }
    if pg in s'.free && pg !in s.free {
      OnlyTablesKept(s', s, pg);
      assert false;
    }
  }

  // ---------------------------------------------------------------- freevm

  /** The directory with its first i entries cleared, as freevm leaves it bit by bit. */
  function Cleared(d: Dir, i: nat): (r: Dir)
    requires i <= NENTRIES
    ensures forall k :: 0 <= k < NENTRIES ==> r[k] == if k < i then None else d[k]
  {
    seq(NENTRIES, k requires 0 <= k < NENTRIES => if k < i then None else d[k])
  }

  /** freevm's loop: the tables of d from entry i on are freed. */
  function FreeTable(s: State, d: Page, i: nat): State
    requires d in s.dirs && i < NENTRIES
  {
    if s.dirs[d][i].Some? then Free(DropTable(s, d, i), s.dirs[d][i].value) else s
  }

  lemma FreeTableKeeps(s: State, d: Page, i: nat)
    requires Inv(s) && d in s.dirs && i < NENTRIES && NoUser(s, d, i)
    ensures var s' := FreeTable(s, d, i);
      && Inv(s') && s'.pages == s.pages && s'.held == s.held && s'.dirs == s.dirs[d := s.dirs[d][i := None]]
      && (forall e: Page, u: nat :: e != d || u < KERN ==> Lookup(s', e, u) == Lookup(s, e, u))
      && (forall pg :: pg in s'.free || pg !in s.free)
      && (forall pg :: pg !in s'.free ==> DataOf(s', pg) == DataOf(s, pg))
  {
    if s.dirs[d][i].Some? {
      var x := s.dirs[d][i].value;
      DropTableMoves(s, d, i);
      FreeMoves(DropTable(s, d, i), x);
      assert At(s, x, IsTab(d, i)) && (At(s, x, Held) <==> x in s.held);
      assert s.held + {x} - {x} == s.held;
    } else {
      assert s.dirs[d][i := None] == s.dirs[d];
      assert s.dirs[d := s.dirs[d]] == s.dirs;
    }
  }

  /** Everything d had: its pages, its tables, itself. */
  ghost predicate OwnedBy(s: State, d: Page, pg: Page) {
    pg == d || exists pl: Place :: At(s, pg, pl) && (pl.IsTab? || pl.User?) && pl.d == d
  }

  /** Once d is gone and the rest is as before, the free list has gained exactly what d had. */
  lemma FreedExactly(s: State, s': State, d: Page, pg: Page)
    requires Inv(s) && Inv(s') && s'.pages == s.pages && s'.held == s.held && d in s.dirs && s'.dirs == s.dirs - {d}
    requires forall e: Page, u: nat :: e != d ==> Lookup(s', e, u) == Lookup(s, e, u)
    ensures pg in s'.free <==> pg in s.free || OwnedBy(s, d, pg)
  {
    assert At(s, d, IsDir);
    if pg in s.pages {
      var a: Place :| At(s, pg, a);
      var b: Place :| At(s', pg, b);
      assert b.User? ==> b.d != d && Lookup(s', b.d, b.v) == Lookup(s, b.d, b.v);
      assert b != OnFree ==> At(s, pg, b);
      assert a.User? && a.d != d ==> Lookup(s', a.d, a.v) == Lookup(s, a.d, a.v);
      assert a != OnFree && !(a == IsDir && pg == d) && !((a.IsTab? || a.User?) && a.d == d) ==> At(s', pg, a);
      assert At(s, pg, OnFree) <==> pg in s.free;
      assert At(s', pg, OnFree) <==> pg in s'.free;
    } else {
      assert !At(s', pg, OnFree) && !At(s, pg, OnFree);
    }
  }
}
