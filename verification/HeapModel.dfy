/** The free list of umalloc.c as a list of blocks in address order.  Addresses and sizes count
    headers (8 bytes each).  Node 0 of the circular list is `base`, node i the i-th free block. */
module HeapModel {
  type Addr = nat

  datatype Header = Header(ptr: Addr, size: nat)

  datatype Block = Block(addr: Addr, size: nat) {
    function End(): nat { addr + size }
    predicate Has(u: nat) { addr <= u < addr + size }
  }

  /** In address order, above base, never empty, and never two adjacent ones. */
  predicate FreeOk(base: Addr, fb: seq<Block>) {
    && (forall i :: 0 <= i < |fb| ==> base < fb[i].addr && fb[i].size > 0)
    && (forall i, j :: 0 <= i < j < |fb| ==> fb[i].End() < fb[j].addr)
  }

  predicate InFree(fb: seq<Block>, u: nat) { exists i :: 0 <= i < |fb| && fb[i].Has(u) }

  predicate InLive(live: map<Addr, nat>, u: nat) { exists a :: a in live && a <= u < a + live[a] }

  function Node(base: Addr, fb: seq<Block>, i: nat): Addr
    requires i <= |fb|
  {
    if i == 0 then base else fb[i - 1].addr
  }

  function Next(fb: seq<Block>, i: nat): nat
    requires i <= |fb|
  {
    if i == |fb| then 0 else i + 1
  }

  function NodeSize(fb: seq<Block>, i: nat): nat
    requires i <= |fb|
  {
    if i == 0 then 0 else fb[i - 1].size
  }

  /** The headers in memory form the circular list. */
  predicate NodeIs(base: Addr, fb: seq<Block>, mem: map<Addr, Header>, i: nat)
    requires i <= |fb|
  {
    Node(base, fb, i) in mem && mem[Node(base, fb, i)] == Header(Node(base, fb, Next(fb, i)), NodeSize(fb, i))
  }

  predicate Linked(base: Addr, fb: seq<Block>, mem: map<Addr, Header>) {
    forall i :: 0 <= i <= |fb| ==> NodeIs(base, fb, mem, i)
  }

  /** Where a block at address a belongs: after node j. */
  predicate Between(base: Addr, fb: seq<Block>, j: nat, a: Addr) {
    j <= |fb| && Node(base, fb, j) < a && (j < |fb| ==> a < fb[j].addr)
  }

  predicate Apart(fb: seq<Block>, a: Addr, n: nat) {
    forall i :: 0 <= i < |fb| ==> fb[i].End() <= a || a + n <= fb[i].addr
  }

  /** A block put back after node j, merged with the block that follows where they touch. */
  function PutBack(fb: seq<Block>, j: nat, a: Addr, n: nat): (r: seq<Block>)
    requires j <= |fb|
    ensures |r| == if j < |fb| && a + n == fb[j].addr then |fb| else |fb| + 1
    ensures r[j] == Block(a, if j < |fb| && a + n == fb[j].addr then n + fb[j].size else n)
    ensures forall i :: 0 <= i < j ==> r[i] == fb[i]
    ensures forall i :: j < i < |r| ==> r[i] == fb[i - 1 + |fb| + 1 - |r|]
  {
    if j < |fb| && a + n == fb[j].addr then fb[j := Block(a, n + fb[j].size)] else fb[..j] + [Block(a, n)] + fb[j..]
  }

  /** Block j merged into the one before it where they touch. */
  function Joined(fb: seq<Block>, j: nat): (r: seq<Block>)
    requires j < |fb|
    ensures !(j > 0 && fb[j - 1].End() == fb[j].addr) ==> r == fb
    ensures j > 0 && fb[j - 1].End() == fb[j].addr ==>
      && |r| == |fb| - 1 && r[j - 1] == Block(fb[j - 1].addr, fb[j - 1].size + fb[j].size)
      && (forall i :: 0 <= i < j - 1 ==> r[i] == fb[i]) && (forall i :: j <= i < |r| ==> r[i] == fb[i + 1])
  {
    if j > 0 && fb[j - 1].End() == fb[j].addr
    then fb[..j - 1] + [Block(fb[j - 1].addr, fb[j - 1].size + fb[j].size)] + fb[j + 1..]
    else fb
  }

  function Inserted(fb: seq<Block>, j: nat, a: Addr, n: nat): seq<Block>
    requires j <= |fb|
  {
    Joined(PutBack(fb, j, a, n), j)
  }

  /** FreeOk, except that block j may touch the one before it. */
  predicate FreeOkBut(base: Addr, fb: seq<Block>, j: nat) {
    && (forall i :: 0 <= i < |fb| ==> base < fb[i].addr && fb[i].size > 0)
    && (forall i, k :: 0 <= i < k < |fb| ==>
         fb[i].End() < fb[k].addr || (i == j - 1 && k == j && fb[i].End() == fb[k].addr))
  }

  /** The new block is above what was below its place and below what was above. */
  lemma PlaceOk(base: Addr, fb: seq<Block>, j: nat, a: Addr, n: nat)
    requires FreeOk(base, fb) && Between(base, fb, j, a) && Apart(fb, a, n) && n > 0
    ensures forall i :: 0 <= i < j ==> fb[i].End() < a || (i == j - 1 && fb[i].End() == a)
    ensures forall i :: j <= i < |fb| ==> a + n <= fb[i].addr
  {}

  lemma PutBackOk(base: Addr, fb: seq<Block>, j: nat, a: Addr, n: nat)
    requires FreeOk(base, fb) && Between(base, fb, j, a) && Apart(fb, a, n) && n > 0
    ensures FreeOkBut(base, PutBack(fb, j, a, n), j)
  {
    hide PutBack, Apart;
    PlaceOk(base, fb, j, a, n);
    var r := PutBack(fb, j, a, n);
    var d := |fb| + 1 - |r|;
    forall i, k | 0 <= i < k < |r| ensures r[i].End() < r[k].addr || (i == j - 1 && k == j && r[i].End() == r[k].addr) {
      if k > j { assert r[k] == fb[k - 1 + d]; }
      if i == j && d == 1 { assert fb[j].End() < fb[k].addr; }
      else if i == j && k > j { PutBackGap(fb, j, a, n, k - 1); }
    }
  }

  lemma PutBackGap(fb: seq<Block>, j: nat, a: Addr, n: nat, k: nat)
    requires j <= k < |fb| && a + n < fb[j].addr
    requires forall i :: j < i < |fb| ==> fb[j].End() < fb[i].addr
    ensures a + n < fb[k].addr
  {}

  lemma JoinedOk(base: Addr, fb: seq<Block>, j: nat)
    requires FreeOkBut(base, fb, j) && j < |fb|
    ensures FreeOk(base, Joined(fb, j))
  {
    hide Joined;
  }

  lemma InsertedOk(base: Addr, fb: seq<Block>, j: nat, a: Addr, n: nat)
    requires FreeOk(base, fb) && Between(base, fb, j, a) && Apart(fb, a, n) && n > 0
    ensures FreeOk(base, Inserted(fb, j, a, n))
  {
    PutBackOk(base, fb, j, a, n);
    JoinedOk(base, PutBack(fb, j, a, n), j);
  }

  lemma PutBackUnits(fb: seq<Block>, j: nat, a: Addr, n: nat, u: nat)
    requires j <= |fb|
    ensures InFree(PutBack(fb, j, a, n), u) <==> InFree(fb, u) || a <= u < a + n
  {
    hide PutBack;
    var r := PutBack(fb, j, a, n);
    var d := |fb| + 1 - |r|;
    if InFree(fb, u) {
      var i :| 0 <= i < |fb| && fb[i].Has(u);
      if i < j { assert r[i].Has(u); }
      else if d == 1 && i == j { assert r[j].Has(u); }
      else { assert r[i + 1 - d].Has(u); }
    }
    if a <= u < a + n { assert r[j].Has(u); }
    if InFree(r, u) {
      var i :| 0 <= i < |r| && r[i].Has(u);
      if i < j { assert fb[i].Has(u); }
      else if i > j { assert fb[i - 1 + d].Has(u); }
      else if u >= a + n { assert fb[j].Has(u); }
    }
  }

  lemma JoinedUnits(fb: seq<Block>, j: nat, u: nat)
    requires j < |fb|
    ensures InFree(Joined(fb, j), u) <==> InFree(fb, u)
  {
    hide Joined;
    var r := Joined(fb, j);
    if r != fb {
      if InFree(fb, u) {
        var i :| 0 <= i < |fb| && fb[i].Has(u);
        assert r[if i < j then i else i - 1].Has(u);
      }
      if InFree(r, u) {
        var i :| 0 <= i < |r| && r[i].Has(u);
        if i < j - 1 { assert fb[i].Has(u); }
        else if i >= j { assert fb[i + 1].Has(u); }
        else if u < fb[j].addr { assert fb[j - 1].Has(u); }
        else { assert fb[j].Has(u); }
      }
    }
  }

  /** The merged list covers the old free units and the units put back. */
  lemma InsertedUnits(fb: seq<Block>, j: nat, a: Addr, n: nat, u: nat)
    requires j <= |fb|
    ensures InFree(Inserted(fb, j, a, n), u) <==> InFree(fb, u) || a <= u < a + n
  {
    PutBackUnits(fb, j, a, n, u);
    JoinedUnits(PutBack(fb, j, a, n), j, u);
  }

  /** The list with n units taken from the end of block i. */
  function Shrunk(fb: seq<Block>, i: nat, n: nat): (r: seq<Block>)
    requires i < |fb| && n <= fb[i].size
    ensures |r| == if fb[i].size == n then |fb| - 1 else |fb|
    ensures forall k :: 0 <= k < i ==> r[k] == fb[k]
    ensures fb[i].size == n ==> forall k :: i <= k < |r| ==> r[k] == fb[k + 1]
    ensures fb[i].size != n ==> r == fb[i := Block(fb[i].addr, fb[i].size - n)]
  {
    if fb[i].size == n then fb[..i] + fb[i + 1..] else fb[i := Block(fb[i].addr, fb[i].size - n)]
  }

  lemma ShrunkOk(base: Addr, fb: seq<Block>, i: nat, n: nat)
    requires FreeOk(base, fb) && i < |fb| && n <= fb[i].size
    ensures FreeOk(base, Shrunk(fb, i, n))
  {
  }

  lemma ShrunkNode(base: Addr, fb: seq<Block>, i: nat, n: nat)
    requires i < |fb| && n <= fb[i].size
    ensures i <= |Shrunk(fb, i, n)| && Node(base, Shrunk(fb, i, n), i) == Node(base, fb, i)
  {}

  lemma ShrunkUnits(base: Addr, fb: seq<Block>, i: nat, n: nat, u: nat)
    requires FreeOk(base, fb) && i < |fb| && 0 < n <= fb[i].size
    ensures InFree(Shrunk(fb, i, n), u) <==> InFree(fb, u) && !(fb[i].End() - n <= u < fb[i].End())
  {
    hide Shrunk;
    var r := Shrunk(fb, i, n);
    if InFree(fb, u) && !(fb[i].End() - n <= u < fb[i].End()) {
      var k :| 0 <= k < |fb| && fb[k].Has(u);
      if fb[i].size == n && k > i { assert r[k - 1].Has(u); }
      else { assert r[k].Has(u); }
    }
    if InFree(r, u) {
      var k :| 0 <= k < |r| && r[k].Has(u);
      var k0 := if fb[i].size == n && k >= i then k + 1 else k;
      assert fb[k0].Has(u);
      if k0 < i { assert fb[k0].End() < fb[i].addr; }
      if k0 > i { assert fb[i].End() < fb[k0].addr; }
    }
  }

  /** Blocks handed out: distinct ranges above base, apart from each other and from the free ones. */
  predicate LiveOk(base: Addr, fb: seq<Block>, live: map<Addr, nat>) {
    && (forall a :: a in live ==> base < a && live[a] > 0 && Apart(fb, a, live[a]))
    && (forall a, b :: a in live && b in live && a < b ==> a + live[a] <= b)
  }

  /** Every unit sbrk ever gave is in a free block or in a live one, and nothing else is. */
  ghost predicate Covers(fb: seq<Block>, live: map<Addr, nat>, core: set<nat>) {
    forall u: nat :: u in core <==> InFree(fb, u) || InLive(live, u)
  }

  /** And never in both. */
  lemma NotBoth(base: Addr, fb: seq<Block>, live: map<Addr, nat>, u: nat)
    requires FreeOk(base, fb) && LiveOk(base, fb, live)
    ensures !(InFree(fb, u) && InLive(live, u))
  {}

  // ---------------------------------------------------------------- the place of a block

  lemma {:induction false} FindPlace(base: Addr, fb: seq<Block>, a: Addr, n: nat, k: nat) returns (t: nat)
    requires FreeOk(base, fb) && base < a && Apart(fb, a, n) && n > 0 && k <= |fb|
    requires forall i :: k <= i < |fb| ==> a < fb[i].addr
    ensures Between(base, fb, t, a)
    decreases k
  {
    if k == 0 || fb[k - 1].addr < a {
      t := k;
    } else {
      t := FindPlace(base, fb, a, n, k - 1);
    }
  }

  /** The test that ends free's search holds at the right node and at no other. */
  lemma SearchEnds(base: Addr, fb: seq<Block>, mem: map<Addr, Header>, t: nat, a: Addr, j: nat)
    requires FreeOk(base, fb) && Linked(base, fb, mem) && Between(base, fb, t, a) && j <= |fb|
    ensures NodeIs(base, fb, mem, j)
    ensures var p, q := Node(base, fb, j), mem[Node(base, fb, j)].ptr;
      ((p < a < q) || (p >= q && (a > p || a < q))) <==> j == t
  {}

  /** Steps from node i forward to node j, at least one. */
  function Ahead(fb: seq<Block>, i: nat, j: nat): (d: nat)
    requires i <= |fb| && j <= |fb|
    ensures 0 < d <= |fb| + 1 && (Next(fb, i) == j <==> d == 1)
    ensures (Next(fb, i) != j ==> Ahead2(fb, Next(fb, i), j) == d - 1)
  {
    Ahead2(fb, i, j)
  }

  function Ahead2(fb: seq<Block>, i: nat, j: nat): int
    requires i <= |fb| && j <= |fb|
  {
    if i < j then j - i else |fb| + 1 + j - i
  }

  // ---------------------------------------------------------------- what free writes

  /** bp's header after the first if. */
  function HeaderPut(mem: map<Addr, Header>, a: Addr, q: Addr): Header
    requires a in mem && q in mem
  {
    if a + mem[a].size == q then Header(mem[q].ptr, mem[a].size + mem[q].size) else Header(q, mem[a].size)
  }

  /** p's header after the second if. */
  function HeaderJoin(mem: map<Addr, Header>, p: Addr, a: Addr): Header
    requires a in mem && p in mem
  {
    if p + mem[p].size == a then Header(mem[a].ptr, mem[p].size + mem[a].size) else Header(a, mem[p].size)
  }

  lemma LinkedPut(base: Addr, fb: seq<Block>, mem: map<Addr, Header>, j: nat, a: Addr)
    requires FreeOk(base, fb) && Linked(base, fb, mem) && Between(base, fb, j, a) && a in mem
    ensures NodeIs(base, fb, mem, j) && Node(base, fb, Next(fb, j)) in mem
    ensures var q := Node(base, fb, Next(fb, j));
      var fb1, mem1 := PutBack(fb, j, a, mem[a].size), mem[a := HeaderPut(mem, a, q)];
      forall i :: 0 <= i <= |fb1| && i != j ==> NodeIs(base, fb1, mem1, i)
  {
    hide PutBack, HeaderPut;
    var q := Node(base, fb, Next(fb, j));
    assert NodeIs(base, fb, mem, j) && NodeIs(base, fb, mem, Next(fb, j));
    var fb1, mem1 := PutBack(fb, j, a, mem[a].size), mem[a := HeaderPut(mem, a, q)];
    forall i | 0 <= i <= |fb1| && i != j ensures NodeIs(base, fb1, mem1, i) {
      if i < j {
        PutBefore(base, fb, mem, j, a, i, mem1[a]);
      } else if i == j + 1 {
        PutHere(base, fb, mem, j, a);
      } else {
        PutAfter(base, fb, mem, j, a, i, mem1[a]);
      }
    }
  }

  lemma PutBefore(base: Addr, fb: seq<Block>, mem: map<Addr, Header>, j: nat, a: Addr, i: nat, h: Header)
    requires FreeOk(base, fb) && Linked(base, fb, mem) && Between(base, fb, j, a) && a in mem && i < j
    ensures NodeIs(base, PutBack(fb, j, a, mem[a].size), mem[a := h], i)
  {
    hide PutBack;
    assert NodeIs(base, fb, mem, i);
    NodeNotNew(base, fb, j, a, i);
  }

  lemma PutHere(base: Addr, fb: seq<Block>, mem: map<Addr, Header>, j: nat, a: Addr)
    requires FreeOk(base, fb) && Linked(base, fb, mem) && Between(base, fb, j, a) && a in mem
    ensures Node(base, fb, Next(fb, j)) in mem
    ensures NodeIs(base, PutBack(fb, j, a, mem[a].size), mem[a := HeaderPut(mem, a, Node(base, fb, Next(fb, j)))],
      j + 1)
  {
    hide PutBack;
    assert NodeIs(base, fb, mem, Next(fb, j));
  }

  lemma PutAfter(base: Addr, fb: seq<Block>, mem: map<Addr, Header>, j: nat, a: Addr, i: nat, h: Header)
    requires FreeOk(base, fb) && Linked(base, fb, mem) && Between(base, fb, j, a) && a in mem
    requires j + 1 < i <= |PutBack(fb, j, a, mem[a].size)|
    ensures NodeIs(base, PutBack(fb, j, a, mem[a].size), mem[a := h], i)
  {
    hide PutBack;
    var i0 := i - 1 + |fb| + 1 - |PutBack(fb, j, a, mem[a].size)|;
    assert NodeIs(base, fb, mem, i0);
    NodeNotNew(base, fb, j, a, i0);
  }

  lemma NodeNotNew(base: Addr, fb: seq<Block>, j: nat, a: Addr, i: nat)
    requires FreeOk(base, fb) && Between(base, fb, j, a) && i <= |fb|
    ensures Node(base, fb, i) != a
  {}

  lemma LinkedJoin(base: Addr, fb: seq<Block>, mem: map<Addr, Header>, j: nat)
    requires FreeOkBut(base, fb, j) && j < |fb|
    requires forall i :: 0 <= i <= |fb| && i != j ==> NodeIs(base, fb, mem, i)
    requires Node(base, fb, j) in mem && mem[Node(base, fb, j)].size == NodeSize(fb, j)
    ensures NodeIs(base, fb, mem, j + 1)
    ensures var p := Node(base, fb, j); Linked(base, Joined(fb, j), mem[p := HeaderJoin(mem, p, fb[j].addr)])
  {
    var p, a := Node(base, fb, j), fb[j].addr;
    assert NodeIs(base, fb, mem, j + 1);
    var fb1, mem1 := Joined(fb, j), mem[p := HeaderJoin(mem, p, a)];
    forall i | 0 <= i <= |fb1| ensures NodeIs(base, fb1, mem1, i) {
      LinkedJoinAt(base, fb, mem, j, i);
    }
  }

  lemma LinkedJoinAt(base: Addr, fb: seq<Block>, mem: map<Addr, Header>, j: nat, i: nat)
    requires FreeOkBut(base, fb, j) && j < |fb| && i <= |Joined(fb, j)|
    requires forall i :: 0 <= i <= |fb| && i != j ==> NodeIs(base, fb, mem, i)
    requires Node(base, fb, j) in mem && mem[Node(base, fb, j)].size == NodeSize(fb, j) && NodeIs(base, fb, mem, j + 1)
    ensures var p := Node(base, fb, j); NodeIs(base, Joined(fb, j), mem[p := HeaderJoin(mem, p, fb[j].addr)], i)
  {
    hide Joined;
    if j > 0 && fb[j - 1].End() == fb[j].addr {
      JoinAt(base, fb, Joined(fb, j), mem, j, i);
    } else if i != j {
      NodesApart(base, fb, j, i, j);
      assert NodeIs(base, fb, mem, i);
    }
  }

  lemma JoinAt(base: Addr, fb: seq<Block>, r: seq<Block>, mem: map<Addr, Header>, j: nat, i: nat)
    requires FreeOkBut(base, fb, j) && 0 < j < |fb| && |r| == |fb| - 1 && i <= |r| && fb[j - 1].End() == fb[j].addr
    requires r[j - 1] == Block(fb[j - 1].addr, fb[j - 1].size + fb[j].size)
    requires (forall i :: 0 <= i < j - 1 ==> r[i] == fb[i]) && (forall i :: j <= i < |r| ==> r[i] == fb[i + 1])
    requires forall i :: 0 <= i <= |fb| && i != j ==> NodeIs(base, fb, mem, i)
    requires fb[j - 1].addr in mem && mem[fb[j - 1].addr].size == fb[j - 1].size && NodeIs(base, fb, mem, j + 1)
    ensures var p := fb[j - 1].addr; NodeIs(base, r, mem[p := Header(mem[fb[j].addr].ptr, r[j - 1].size)], i)
  {
    var i0 := if i <= j then i else i + 1;
    if i0 != j {
      NodesApart(base, fb, j, i0, j);
      assert NodeIs(base, fb, mem, i0);
    }
  }

  lemma NodesApart(base: Addr, fb: seq<Block>, k: nat, i: nat, j: nat)
    requires FreeOkBut(base, fb, k) && i <= |fb| && j <= |fb| && i != j
    ensures Node(base, fb, i) != Node(base, fb, j)
  {}

  // ---------------------------------------------------------------- live blocks

  lemma ApartByUnits(fb: seq<Block>, a: Addr, n: nat)
    requires n > 0 && forall i :: 0 <= i < |fb| ==> fb[i].size > 0
    requires forall u :: a <= u < a + n ==> !InFree(fb, u)
    ensures Apart(fb, a, n)
  {
    forall i | 0 <= i < |fb| ensures fb[i].End() <= a || a + n <= fb[i].addr {
      var u := if fb[i].addr <= a then a else fb[i].addr;
      if fb[i].Has(u) && a <= u < a + n { assert InFree(fb, u); }
    }
  }

  lemma UnitsApart(fb: seq<Block>, a: Addr, n: nat, u: nat)
    requires Apart(fb, a, n) && a <= u < a + n
    ensures !InFree(fb, u)
  {}

  /** Putting back a block that is apart from the live ones keeps them apart. */
  lemma LiveAfterInsert(base: Addr, fb: seq<Block>, live: map<Addr, nat>, j: nat, a: Addr, n: nat)
    requires FreeOk(base, fb) && LiveOk(base, fb, live) && Between(base, fb, j, a) && Apart(fb, a, n) && n > 0
    requires forall b :: b in live ==> b + live[b] <= a || a + n <= b
    ensures LiveOk(base, Inserted(fb, j, a, n), live)
  {
    InsertedOk(base, fb, j, a, n);
    hide Inserted;
    forall b | b in live ensures Apart(Inserted(fb, j, a, n), b, live[b]) {
      forall u | b <= u < b + live[b] ensures !InFree(Inserted(fb, j, a, n), u) {
        UnitsApart(fb, b, live[b], u);
        InsertedUnits(fb, j, a, n, u);
      }
      ApartByUnits(Inserted(fb, j, a, n), b, live[b]);
    }
  }

  lemma LiveAfterTake(base: Addr, fb: seq<Block>, live: map<Addr, nat>, i: nat, n: nat)
    requires FreeOk(base, fb) && LiveOk(base, fb, live) && i < |fb| && 0 < n <= fb[i].size
    ensures fb[i].End() - n !in live
    ensures LiveOk(base, Shrunk(fb, i, n), live[fb[i].End() - n := n])
  {
    var q := fb[i].End() - n;
    var r := Shrunk(fb, i, n);
    ShrunkOk(base, fb, i, n);
    hide Shrunk;
    assert fb[i].Has(q);
    forall u | q <= u < q + n ensures !InFree(r, u) { ShrunkUnits(base, fb, i, n, u); }
    ApartByUnits(r, q, n);
    forall b | b in live ensures Apart(r, b, live[b]) && b != q && (b + live[b] <= q || q + n <= b) {
      assert Apart(fb, b, live[b]);
      forall u | b <= u < b + live[b] ensures !InFree(r, u) {
        UnitsApart(fb, b, live[b], u);
        ShrunkUnits(base, fb, i, n, u);
      }
      ApartByUnits(r, b, live[b]);
    }
  }

  lemma CoversAfterFree(base: Addr, fb: seq<Block>, live: map<Addr, nat>, core: set<nat>, j: nat, a: Addr)
    requires FreeOk(base, fb) && LiveOk(base, fb, live) && Covers(fb, live, core) && a in live && j <= |fb|
    ensures Covers(Inserted(fb, j, a, live[a]), live - {a}, core)
  {
    hide Inserted;
    forall u: nat ensures u in core <==> InFree(Inserted(fb, j, a, live[a]), u) || InLive(live - {a}, u) {
      InsertedUnits(fb, j, a, live[a], u);
      if InLive(live, u) && !(a <= u < a + live[a]) {
        var b :| b in live && b <= u < b + live[b];
        assert b in live - {a};
      }
    }
  }

  lemma CoversAfterGrow(fb: seq<Block>, live: map<Addr, nat>, core: set<nat>, j: nat, a: Addr, n: nat)
    requires Covers(fb, live, core) && j <= |fb|
    ensures Covers(Inserted(fb, j, a, n), live, core + Units(a, n))
  {
    hide Inserted;
    forall u: nat ensures u in core + Units(a, n) <==> InFree(Inserted(fb, j, a, n), u) || InLive(live, u) {
      InsertedUnits(fb, j, a, n, u);
    }
  }

  function Units(a: Addr, n: nat): set<nat> { set u | a <= u < a + n && Block(a, n).Has(u) }

  lemma CoversAfterTake(base: Addr, fb: seq<Block>, live: map<Addr, nat>, core: set<nat>, i: nat, n: nat)
    requires FreeOk(base, fb) && LiveOk(base, fb, live) && Covers(fb, live, core) && i < |fb| && 0 < n <= fb[i].size
    ensures Covers(Shrunk(fb, i, n), live[fb[i].End() - n := n], core)
  {
    LiveAfterTake(base, fb, live, i, n);
    hide Shrunk, LiveOk;
    var q := fb[i].End() - n;
    var live' := live[q := n];
    forall u: nat ensures u in core <==> InFree(Shrunk(fb, i, n), u) || InLive(live', u) {
      ShrunkUnits(base, fb, i, n, u);
      if InLive(live, u) {
        var b :| b in live && b <= u < b + live[b];
        assert b in live' && live'[b] == live[b];
      }
      if q <= u < q + n { assert fb[i].Has(u) && q in live'; }
      if InLive(live', u) {
        var b :| b in live' && b <= u < b + live'[b];
        assert b == q || b in live;
      }
    }
  }

  /** A whole block goes: the node before it points past it. */
  lemma LinkedTakeAll(base: Addr, fb: seq<Block>, mem: map<Addr, Header>, i: nat)
    requires FreeOk(base, fb) && Linked(base, fb, mem) && i < |fb|
    ensures NodeIs(base, fb, mem, i) && NodeIs(base, fb, mem, i + 1)
    ensures var prev := Node(base, fb, i);
      Linked(base, Shrunk(fb, i, fb[i].size), mem[prev := Header(mem[fb[i].addr].ptr, mem[prev].size)])
  {
    assert NodeIs(base, fb, mem, i) && NodeIs(base, fb, mem, i + 1);
    var r, prev := Shrunk(fb, i, fb[i].size), Node(base, fb, i);
    var mem1 := mem[prev := Header(mem[fb[i].addr].ptr, mem[prev].size)];
    forall k | 0 <= k <= |r| ensures NodeIs(base, r, mem1, k) {
      assert NodeIs(base, fb, mem, if k > i then k + 1 else k);
    }
  }

  /** The tail of a block goes: only its size changes, and a header appears inside it. */
  lemma LinkedTakeTail(base: Addr, fb: seq<Block>, mem: map<Addr, Header>, i: nat, n: nat, h: Header)
    requires FreeOk(base, fb) && Linked(base, fb, mem) && i < |fb| && 0 < n < fb[i].size
    ensures NodeIs(base, fb, mem, i + 1)
    ensures var p := fb[i].addr;
      Linked(base, Shrunk(fb, i, n), mem[p := Header(mem[p].ptr, fb[i].size - n)][fb[i].End() - n := h])
  {
    assert NodeIs(base, fb, mem, i + 1);
    var r, p, q := Shrunk(fb, i, n), fb[i].addr, fb[i].End() - n;
    var mem1 := mem[p := Header(mem[p].ptr, fb[i].size - n)][q := h];
    forall k | 0 <= k <= |r| ensures NodeIs(base, r, mem1, k) {
      assert NodeIs(base, fb, mem, k);
      InsideNotNode(base, fb, i, q, k);
      if k != i + 1 { NodesDiffer(base, fb, k, i + 1); }
    }
  }

  lemma InsideNotNode(base: Addr, fb: seq<Block>, i: nat, q: Addr, k: nat)
    requires FreeOk(base, fb) && i < |fb| && k <= |fb| && fb[i].addr < q < fb[i].End()
    ensures Node(base, fb, k) != q
  {}

  lemma NodesDiffer(base: Addr, fb: seq<Block>, i: nat, j: nat)
    requires FreeOk(base, fb) && i <= |fb| && j <= |fb| && i != j
    ensures Node(base, fb, i) != Node(base, fb, j)
  {}

  // ---------------------------------------------------------------- malloc's search

  /** After memory of n units is put back, some free block has at least n. */
  lemma InsertedBig(fb: seq<Block>, j: nat, a: Addr, n: nat)
    requires j <= |fb|
    ensures exists i :: 0 <= i < |Inserted(fb, j, a, n)| && Inserted(fb, j, a, n)[i].size >= n
  {
    hide PutBack, Joined;
    var r := PutBack(fb, j, a, n);
    if j > 0 && r[j - 1].End() == r[j].addr {
      assert Inserted(fb, j, a, n)[j - 1].size >= n;
    } else {
      assert Inserted(fb, j, a, n)[j].size >= n;
    }
  }

  /** Going forward from node f, node m comes no later than node i. */
  predicate Passed(f: nat, i: nat, m: nat) {
    if f <= i then f < m <= i else m > f || m <= i
  }

  /** The nodes the search has passed are too small. */
  predicate TooSmall(fb: seq<Block>, f: nat, i: nat, n: nat) {
    forall m :: 0 <= m <= |fb| && Passed(f, i, m) ==> NodeSize(fb, m) < n
  }

  lemma PassOne(fb: seq<Block>, f: nat, i: nat, n: nat)
    requires TooSmall(fb, f, i, n) && i <= |fb| && f <= |fb| && Next(fb, i) != f && NodeSize(fb, Next(fb, i)) < n
    ensures TooSmall(fb, f, Next(fb, i), n)
  {}

  /** Back at the start with nothing found: every free block is too small. */
  lemma PassedAll(fb: seq<Block>, f: nat, i: nat, n: nat)
    requires TooSmall(fb, f, i, n) && i <= |fb| && f <= |fb| && Next(fb, i) == f && NodeSize(fb, f) < n
    ensures forall k :: 0 <= k < |fb| ==> fb[k].size < n
  {
    forall k | 0 <= k < |fb| ensures fb[k].size < n {
      assert NodeSize(fb, k + 1) == fb[k].size;
      assert k + 1 == f || Passed(f, i, k + 1);
    }
  }

  // ---------------------------------------------------------------- headers of live blocks

  predicate SizesKept(mem: map<Addr, Header>, live: map<Addr, nat>) {
    forall a :: a in live ==> a in mem && mem[a].size == live[a]
  }

  predicate IsNode(base: Addr, fb: seq<Block>, a: Addr) { exists i :: 0 <= i <= |fb| && Node(base, fb, i) == a }

  /** Only headers of the list and the one at bp differ. */
  predicate Framed(base: Addr, fb: seq<Block>, bp: Addr, mem: map<Addr, Header>, mem': map<Addr, Header>) {
    forall a :: a in mem && a != bp && !IsNode(base, fb, a) ==> a in mem' && mem'[a] == mem[a]
  }

  lemma SizesFramed(base: Addr, fb: seq<Block>, bp: Addr, mem: map<Addr, Header>, mem': map<Addr, Header>,
                    live: map<Addr, nat>)
    requires FreeOk(base, fb) && LiveOk(base, fb, live) && SizesKept(mem, live) && Framed(base, fb, bp, mem, mem')
    ensures SizesKept(mem', live - {bp})
  {}

  lemma FramedWrites(base: Addr, fb: seq<Block>, bp: Addr, j: nat, mem: map<Addr, Header>, h: Header, k: Header)
    requires j <= |fb|
    ensures Framed(base, fb, bp, mem, mem[bp := h][Node(base, fb, j) := k])
  {}

  // ---------------------------------------------------------------- counting units

  function FreeTotal(fb: seq<Block>): nat {
    if fb == [] then 0 else FreeTotal(fb[..|fb| - 1]) + fb[|fb| - 1].size
  }

  ghost function LiveTotal(live: map<Addr, nat>): nat
    decreases |live|
  {
    if live == map[] then 0 else
    var a :| a in live;
    live[a] + LiveTotal(live - {a})
  }

  lemma {:induction false} LiveTotalSplit(live: map<Addr, nat>, a: Addr)
    requires a in live
    ensures LiveTotal(live) == live[a] + LiveTotal(live - {a})
    decreases |live|
  {
    var b :| b in live && LiveTotal(live) == live[b] + LiveTotal(live - {b});
    if a != b {
      LiveTotalSplit(live - {b}, a);
      LiveTotalSplit(live - {a}, b);
      assert live - {b} - {a} == live - {a} - {b};
    }
  }

  lemma {:induction false} UnitsCount(a: Addr, n: nat)
    ensures |Units(a, n)| == n
  {
    if n > 0 {
      UnitsCount(a, n - 1);
      assert Units(a, n) == Units(a, n - 1) + {a + n - 1};
    }
  }

  lemma SetSplit(s: set<nat>, piece: set<nat>)
    requires piece <= s
    ensures |s| == |s - piece| + |piece|
  {}

  lemma FreeSplit(base: Addr, fb: seq<Block>, u: nat)
    requires FreeOk(base, fb) && fb != []
    ensures var n := |fb| - 1;
      (InFree(fb, u) <==> InFree(fb[..n], u) || fb[n].Has(u)) && !(InFree(fb[..n], u) && fb[n].Has(u))
  {}

  lemma {:induction false} FreeCount(base: Addr, fb: seq<Block>, s: set<nat>)
    requires FreeOk(base, fb) && forall u: nat :: u in s <==> InFree(fb, u)
    ensures |s| == FreeTotal(fb)
    decreases |fb|
  {
    if fb == [] {
      assert s == {};
    } else {
      hide InFree;
      var n := |fb| - 1;
      var piece := Units(fb[n].addr, fb[n].size);
      forall u: nat
        ensures (u in s - piece <==> InFree(fb[..n], u)) && (u in piece ==> u in s)
      { FreeSplit(base, fb, u); }
      FreeCount(base, fb[..n], s - piece);
      UnitsCount(fb[n].addr, fb[n].size);
      SetSplit(s, piece);
    }
  }

  lemma LiveSplit(live: map<Addr, nat>, a: Addr, u: nat)
    requires forall a, b :: a in live && b in live && a < b ==> a + live[a] <= b
    requires a in live
    ensures InLive(live, u) <==> InLive(live - {a}, u) || a <= u < a + live[a]
    ensures !(InLive(live - {a}, u) && a <= u < a + live[a])
  {
    if InLive(live - {a}, u) {
      var b :| b in live - {a} && b <= u < b + live[b];
      assert a < b || b < a;
    }
    if InLive(live, u) && !(a <= u < a + live[a]) {
      var b :| b in live && b <= u < b + live[b];
      assert b in live - {a};
    }
  }

  lemma {:induction false} LiveCount(live: map<Addr, nat>, s: set<nat>)
    requires forall a, b :: a in live && b in live && a < b ==> a + live[a] <= b
    requires forall u: nat :: u in s <==> InLive(live, u)
    ensures |s| == LiveTotal(live)
    decreases |live|
  {
    if live == map[] {
      assert s == {};
    } else {
      hide InLive, LiveTotal;
      var a :| a in live;
      var piece := Units(a, live[a]);
      forall u: nat
        ensures (u in s - piece <==> InLive(live - {a}, u)) && (u in piece ==> u in s)
      { LiveSplit(live, a, u); }
      LiveCount(live - {a}, s - piece);
      LiveTotalSplit(live, a);
      UnitsCount(a, live[a]);
      SetSplit(s, piece);
    }
  }

  /** Free units and live units add up to all units obtained from sbrk. */
  lemma UnitsConserved(base: Addr, fb: seq<Block>, live: map<Addr, nat>, core: set<nat>)
    requires FreeOk(base, fb) && LiveOk(base, fb, live) && Covers(fb, live, core)
    ensures |core| == FreeTotal(fb) + LiveTotal(live)
  {
    hide InFree, InLive;
    var free := set u | u in core && InFree(fb, u);
    var held := core - free;
    forall u: nat ensures u in held <==> InLive(live, u) { NotBoth(base, fb, live, u); }
    FreeCount(base, fb, free);
    LiveCount(live, held);
    assert core == free + held;
  }
}
