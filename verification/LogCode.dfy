/** bio.c and log.c as imperative code.  Each method performs steps of the transition
    system of module Journal and records them, so what is proved of every run there
    holds of the steps taken here.  A method that would sleep stops. */
module LogCode {
  import opened Common
  import opened Journal
  import opened JournalInvariant
  import opened JournalRefinement

  lemma {:induction false} SpecSnoc(g: Geometry, s: State, es: seq<Event>, e: Event, sp: Spec)
    requires Runs(g, s, es) && Runs(g, s, es + [e]) && Enabled(g, After(g, s, es), e)
    ensures SpecRun(sp, Labels(g, s, es + [e])) ==
      SpecStep(SpecRun(sp, Labels(g, s, es)), LabelOf(g, After(g, s, es), e))
    decreases |es|
  {
    if es == [] {
      assert es + [e] == [e];
      var l := LabelOf(g, s, e);
      assert Labels(g, s, [e]) == [l] + [] && SpecRun(sp, [l]) == SpecStep(sp, l);
    } else {
      assert (es + [e])[0] == es[0] && (es + [e])[1..] == es[1..] + [e];
      var l := LabelOf(g, s, es[0]);
      var s' := Apply(g, s, es[0]);
      SpecSnoc(g, s', es[1..], e, SpecStep(sp, l));
      assert Labels(g, s, es) == [l] + Labels(g, s', es[1..]);
      assert Labels(g, s, es + [e]) == [l] + Labels(g, s', es[1..] + [e]);
    }
  }

  /** What bget and bread come back with. */
  datatype Fetch = NoBuffers | Asleep(slot: nat) | Got(slot: nat)

  /** The most recently used order after brelse drops the last reference to slot. */
  function MoveToFront(order: seq<nat>, slot: nat): seq<nat> {
    [slot] + Without(order, slot)
  }

  function Without(order: seq<nat>, slot: nat): (r: seq<nat>)
    ensures forall x :: x in r <==> x in order && x != slot
  {
    if order == [] then [] else
    if order[0] == slot then Without(order[1..], slot) else [order[0]] + Without(order[1..], slot)
  }

  /** The list holds exactly the slots below n. */
  predicate Lists(order: seq<nat>, n: nat) {
    (forall i :: 0 <= i < |order| ==> order[i] < n) && (forall b :: 0 <= b < n ==> b in order)
  }

  lemma MoveToFrontKeeps(order: seq<nat>, slot: nat, n: nat)
    requires Lists(order, n) && slot < n
    ensures Lists(MoveToFront(order, slot), n)
  {
    var r := MoveToFront(order, slot);
    forall i | 0 <= i < |r| ensures r[i] < n {
      assert r[i] in r;
      if i > 0 { assert r[i] == Without(order, slot)[i - 1]; assert r[i] in Without(order, slot); }
    }
    forall b | 0 <= b < n ensures b in r {
      if b == slot { assert r[0] == b; } else { assert b in Without(order, slot); }
    }
  }

  /** A cached buffer fetched once more by p: one more reference, contents kept if there were any. */
  predicate Refetched(b: Buf, b': Buf, p: Pid) {
    && b'.dev == b.dev && b'.blockno == b.blockno && b'.dirty == b.dirty
    && b'.users == b.users + multiset{p}
    && (b.valid ==> b'.data == b.data)
  }

  datatype Start = Start(geom: Geometry, start: State, images: Spec)

  ghost predicate GoodStart(o: Start) {
    Inv(o.geom, o.start) && Good(o.geom, o.start) && o.images == Abs(o.geom, o.start)
  }

  ghost function BootStart(g: Geometry, s: State): (o: Start)
    requires Boots(g, s) && Contained(g, s)
    ensures GoodStart(o) && o.geom == g && o.start == s
  {
    BootInv(g, s);
    InvGood(g, s);
    Start(g, s, Abs(g, s))
  }

  /** A state from which the runs of module Journal keep the invariant. */
  type Origin = o: Start | GoodStart(o) ghost witness
    BootStart(Geometry(0, 2, 2),
      State([seq(WORDS, _ => 0), seq(WORDS, _ => 0)], [], [], 0, ReadHead, 0, map[], {}, map[]))

  /** Where a sequence of steps leads, if every step of it is enabled. */
  ghost function Replay(o: Origin, hist: seq<Event>): Option<(State, Spec)> {
    if Runs(o.geom, o.start, hist)
    then Some((After(o.geom, o.start, hist), SpecRun(o.images, Labels(o.geom, o.start, hist))))
    else None
  }

  /** The step of the run in which the last reference to slot was dropped for the last time; 0 if there is none. */
  ghost function LastFreed(o: Origin, hist: seq<Event>, slot: nat): nat
    decreases |hist|
  {
    if hist == [] then 0
    else if Frees(o, hist, slot) then |hist|
    else LastFreed(o, hist[..|hist| - 1], slot)
  }

  /** The last step drops the last reference to slot. */
  ghost predicate Frees(o: Origin, hist: seq<Event>, slot: nat)
    requires hist != []
  {
    var e := hist[|hist| - 1];
    e.EvUnref? && e.slot == slot && Replay(o, hist).Some? && slot < |Replay(o, hist).value.0.bufs| &&
    Replay(o, hist).value.0.bufs[slot].refcnt == 0
  }

  /** Slot a was released after slot b.  Of slots never released the lower one counts as the older. */
  ghost predicate Later(o: Origin, hist: seq<Event>, a: nat, b: nat) {
    LastFreed(o, hist, a) > LastFreed(o, hist, b) || (LastFreed(o, hist, a) == LastFreed(o, hist, b) == 0 && a > b)
  }

  /** The list runs from the slot released last to the one released longest ago. */
  ghost predicate Ranked(o: Origin, hist: seq<Event>, order: seq<nat>) {
    forall i, j :: 0 <= i < j < |order| ==> Later(o, hist, order[i], order[j])
  }

  lemma FreedNext(o: Origin, hist: seq<Event>, e: Event, slot: nat)
    ensures LastFreed(o, hist + [e], slot) ==
      if Frees(o, hist + [e], slot) then |hist| + 1 else LastFreed(o, hist, slot)
  {
    assert (hist + [e])[..|hist|] == hist;
  }

  lemma {:induction false} FreedBound(o: Origin, hist: seq<Event>, slot: nat)
    ensures LastFreed(o, hist, slot) <= |hist|
    decreases |hist|
  {
    if hist != [] { FreedBound(o, hist[..|hist| - 1], slot); }
  }

  /** A step that frees no slot keeps the ranking. */
  lemma RankedStays(o: Origin, hist: seq<Event>, e: Event, order: seq<nat>)
    requires Ranked(o, hist, order) && forall slot :: !Frees(o, hist + [e], slot)
    ensures Ranked(o, hist + [e], order)
  {
    hide LastFreed, Frees;
    forall i, j | 0 <= i < j < |order| ensures Later(o, hist + [e], order[i], order[j]) {
      FreedNext(o, hist, e, order[i]);
      FreedNext(o, hist, e, order[j]);
      assert Later(o, hist, order[i], order[j]);
    }
  }

  /** The buffer whose last reference is dropped goes to the front. */
  lemma RankedFront(o: Origin, hist: seq<Event>, e: Event, order: seq<nat>, slot: nat)
    requires Ranked(o, hist, order) && e.EvUnref? && e.slot == slot && Frees(o, hist + [e], slot)
    ensures Ranked(o, hist + [e], MoveToFront(order, slot))
  {
    var rest := Without(order, slot);
    WithoutRanked(o, hist, order, slot);
    hide LastFreed;
    FreedNext(o, hist, e, slot);
    forall i | 0 <= i < |rest| ensures LastFreed(o, hist + [e], rest[i]) == LastFreed(o, hist, rest[i]) <= |hist| {
      assert rest[i] in rest;
      FreedNext(o, hist, e, rest[i]);
      FreedBound(o, hist, rest[i]);
    }
    forall i, j | 0 <= i < j < |rest| + 1 ensures Later(o, hist + [e], ([slot] + rest)[i], ([slot] + rest)[j]) {
      if i > 0 { assert Later(o, hist, rest[i - 1], rest[j - 1]); }
    }
  }

  lemma {:induction false} WithoutRanked(o: Origin, hist: seq<Event>, order: seq<nat>, slot: nat)
    requires Ranked(o, hist, order)
    ensures Ranked(o, hist, Without(order, slot))
    decreases |order|
  {
    hide Later;
    if order != [] {
      var r := Without(order[1..], slot);
      forall i, j | 0 <= i < j < |order[1..]| ensures Later(o, hist, order[1..][i], order[1..][j]) {
        assert order[1..][i] == order[i + 1] && order[1..][j] == order[j + 1];
      }
      WithoutRanked(o, hist, order[1..], slot);
      forall j | 0 <= j < |r| ensures Later(o, hist, order[0], r[j]) {
        assert r[j] in r;
        var k :| 0 <= k < |order[1..]| && order[1..][k] == r[j];
        assert order[k + 1] == r[j];
      }
    }
  }

  lemma OnlyUnrefFrees(o: Origin, hist: seq<Event>, e: Event)
    requires !e.EvUnref?
    ensures forall slot :: !Frees(o, hist + [e], slot)
  {}

  predicate Stepped(g: Geometry, s: State, e: Event, s': State) {
    Sized(g, s) && Enabled(g, s, e) && s' == Apply(g, s, e)
  }

  /** What bget does to the buffer it finds or takes over. */
  lemma GetEffect(g: Geometry, s: State, p: Pid, bn: nat, slot: nat, s': State)
    requires Stepped(g, s, EvGet(p, 1, bn, slot), s')
    ensures slot < |s.bufs| && |s'.bufs| == |s.bufs| && s'.disk == s.disk
    ensures forall i :: 0 <= i < |s.bufs| && i != slot ==> s'.bufs[i] == s.bufs[i]
    ensures var b, b' := s.bufs[slot], s'.bufs[slot];
      && Caches(b', 1, bn) && p in b'.users && b'.owner == b.owner
      && (if Cached(s, 1, bn) then Caches(b, 1, bn) && b' == b.(refcnt := b'.refcnt, users := b.users + multiset{p})
          else Recyclable(b) && b'.users == multiset{p} && !b'.dirty && !b'.valid)
  {}

  lemma HitStep(g: Geometry, s: State, p: Pid, dev: nat, bn: nat, slot: nat, s': State)
    requires Sized(g, s) && p !in s.passed && slot < |s.bufs| && Caches(s.bufs[slot], dev, bn)
    requires var b := s.bufs[slot];
      s' == s.(bufs := s.bufs[slot := b.(refcnt := b.refcnt + 1, users := b.users + multiset{p})])
    ensures var e := EvGet(p, dev, bn, slot); Stepped(g, s, e, s') && LabelOf(g, s, e) == Tau
  {}

  lemma MissStep(g: Geometry, s: State, p: Pid, dev: nat, bn: nat, slot: nat, s': State)
    requires Sized(g, s) && p !in s.passed && slot < |s.bufs| && !Cached(s, dev, bn) && Recyclable(s.bufs[slot])
    requires var b := s.bufs[slot];
      s' == s.(bufs := s.bufs[slot := Buf(dev, bn, false, false, 1, multiset{p}, b.owner, b.data)])
    ensures var e := EvGet(p, dev, bn, slot); Stepped(g, s, e, s') && LabelOf(g, s, e) == Tau
  {
    assert !Caches(s.bufs[slot], dev, bn);
  }

  lemma EndStep(g: Geometry, s: State, p: Pid, s': State)
    requires Sized(g, s) && p in s.ops && p !in s.passed && s.outstanding > 0
    requires forall i :: i in s.touched ==> !Owns(s, p, i)
    requires s' == s.(ops := s.ops - {p}, outstanding := s.outstanding - 1,
      phase := if s.outstanding > 1 then s.phase else if |s.lh| > 0 then WriteLog(0) else Finish,
      committer := if s.outstanding == 1 then p else s.committer)
    ensures Stepped(g, s, EvEnd(p), s') && LabelOf(g, s, EvEnd(p)) == Tau
  {}

  lemma UnrefStep(g: Geometry, s: State, p: Pid, slot: nat, s': State)
    requires Sized(g, s) && p !in s.passed && slot < |s.bufs| && p in s.bufs[slot].users
    requires s.bufs[slot].owner != Some(p) && s.bufs[slot].refcnt > 0
    requires var b := s.bufs[slot];
      s' == s.(bufs := s.bufs[slot := b.(refcnt := b.refcnt - 1, users := b.users - multiset{p})])
    ensures Stepped(g, s, EvUnref(p, slot), s') && LabelOf(g, s, EvUnref(p, slot)) == Tau
  {}

  lemma ClearReady(g: Geometry, s: State, hb: nat)
    requires Sized(g, s) && Enabled(g, s, EvClearHead(hb))
    ensures hb < |s.bufs| && s.bufs[hb].blockno < |s.disk| && |s.bufs[hb].data| == WORDS && s.phase.ClearHead?
    ensures s.bufs[hb].valid
  {}

  lemma ClearStep(g: Geometry, s: State, hb: nat, s': State)
    requires Sized(g, s) && Enabled(g, s, EvClearHead(hb))
    requires s' == Written(s, hb, EncodeHead(s.bufs[hb].data, [])).(lh := [],
      phase := if s.phase.rec then Normal else Finish)
    ensures Stepped(g, s, EvClearHead(hb), s') && LabelOf(g, s, EvClearHead(hb)) == Tau
  {}

  lemma LogWriteStep(g: Geometry, s: State, p: Pid, slot: nat, s': State)
    requires Sized(g, s) && MayLog(g, s, p, slot) && p in s.passed && s.passed[p] == slot
    requires var bn := s.bufs[slot].blockno;
      s' == s.(bufs := s.bufs[slot := s.bufs[slot].(dirty := true)], touched := s.touched - {slot},
        passed := s.passed - {p}, lh := Logged(s.lh, bn), ops := Charged(s.ops, p, bn in s.lh))
    ensures Stepped(g, s, EvLogWrite(p, slot), s') && LabelOf(g, s, EvLogWrite(p, slot)) == Tau
  {}

  /** Whether a commit runs is told by the phase. */
  lemma SamePhase(s: State)
    ensures forall t: State :: t.phase == s.phase ==> CommittingPhase(t) == CommittingPhase(s)
  {}

  predicate SameHolders(a: seq<Buf>, b: seq<Buf>) {
    |a| == |b| && forall i :: 0 <= i < |a| ==> a[i].users == b[i].users && a[i].owner == b[i].owner
  }

  /** The new contents of a block. */
  datatype Change = Change(bn: nat, data: Block)

  function BlocksOf(ws: seq<Change>): set<nat> { set i | 0 <= i < |ws| :: ws[i].bn }

  /** Writes that an operation may make: to home blocks, not more than begin_op reserves for it. */
  predicate FitsOp(g: Geometry, ws: seq<Change>) {
    |BlocksOf(ws)| <= MAXOPBLOCKS && forall i :: 0 <= i < |ws| ==> Home(g, ws[i].bn) && |ws[i].data| == WORDS
  }

  /** What is seen after the writes. */
  ghost function Stored(cur: map<nat, Block>, ws: seq<Change>): map<nat, Block> {
    if ws == [] then cur else
    var n := |ws| - 1;
    Stored(cur, ws[..n])[ws[n].bn := ws[n].data]
  }

  /** The header after log_write of block bn. */
  function Logged(lh: seq<nat>, bn: nat): seq<nat> { if bn in lh then lh else lh + [bn] }

  /** The budgets after p has logged a block; one that was logged already is free. */
  function Charged(ops: map<Pid, nat>, p: Pid, free: bool): map<Pid, nat>
    requires p in ops && (free || ops[p] > 0)
  {
    if free then ops else ops[p := ops[p] - 1]
  }


  lemma StoredNext(cur: map<nat, Block>, ws: seq<Change>, n: nat)
    requires n < |ws|
    ensures Stored(cur, ws[..n + 1]) == Stored(cur, ws[..n])[ws[n].bn := ws[n].data]
    ensures ws[..|ws|] == ws
  {
    assert ws[..n + 1][..n] == ws[..n];
  }

  /** The first n writes have been logged, each block once. */
  ghost predicate Spent(lh0: seq<nat>, ops0: map<Pid, nat>, lh: seq<nat>, ops: map<Pid, nat>, p: Pid, ws: seq<Change>,
                        n: nat) {
    && p in ops0 && ops.Keys == ops0.Keys && ops - {p} == ops0 - {p} && n <= |ws|
    && (forall i :: 0 <= i < n ==> ws[i].bn in lh) && |lh| <= |lh0| + |BlocksOf(ws[..n])|
    && ops[p] + |BlocksOf(ws[..n])| >= MAXOPBLOCKS
  }

  lemma BlocksNext(ws: seq<Change>, n: nat)
    requires n < |ws|
    ensures BlocksOf(ws[..n + 1]) == BlocksOf(ws[..n]) + {ws[n].bn} && BlocksOf(ws[..n + 1]) <= BlocksOf(ws)
    ensures |BlocksOf(ws[..n + 1])| <= |BlocksOf(ws)|
  {
    var a, b := ws[..n], ws[..n + 1];
    assert forall i :: 0 <= i < n ==> b[i] == a[i];
    assert b[n] == ws[n];
    SubsetSize(BlocksOf(b), BlocksOf(ws));
  }

  /** With n blocks logged, no write of ws meets a full header or a cache with every buffer pinned. */
  predicate Room(g: Geometry, n: nat, nbuf: nat, ws: seq<Change>) {
    n + |BlocksOf(ws)| < nbuf && (ws != [] ==> var m := n + |BlocksOf(ws[..|ws| - 1])|; m < LOGSIZE && m < g.nlog - 1)
  }

  lemma RoomLeft(g: Geometry, n: nat, nbuf: nat, ws: seq<Change>, k: nat)
    requires Room(g, n, nbuf, ws) && k < |ws|
    ensures var m := n + |BlocksOf(ws[..k])|; m < LOGSIZE && m < g.nlog - 1 && m < nbuf
  {
    var a, b := ws[..k], ws[..|ws| - 1];
    assert forall i :: 0 <= i < k ==> a[i] == b[i];
    SubsetSize(BlocksOf(a), BlocksOf(b));
    SubsetSize(BlocksOf(a), BlocksOf(ws));
  }

  lemma SpentNext(g: Geometry, lh0: seq<nat>, ops0: map<Pid, nat>, lh: seq<nat>, ops: map<Pid, nat>, p: Pid,
                  ws: seq<Change>, n: nat)
    requires Spent(lh0, ops0, lh, ops, p, ws, n) && n < |ws| && FitsOp(g, ws)
    ensures p in ops && (ws[n].bn in lh || ops[p] > 0)
    ensures Spent(lh0, ops0, Logged(lh, ws[n].bn), Charged(ops, p, ws[n].bn in lh), p, ws, n + 1)
  {
    var bn := ws[n].bn;
    BlocksNext(ws, n);
    var a, b := BlocksOf(ws[..n]), BlocksOf(ws[..n + 1]);
    SubsetSize(a, b);
    if bn !in lh {
      assert bn !in a;
      assert |b| == |a| + 1;
    }
  }


  /** struct bcache and struct log.  The ghost fields are the bookkeeping of module Journal:
      the phase of commit(), the operations in progress, and the steps taken so far. */
  class Kernel {
    const g: Geometry
    const nbuf: nat
    var disk: seq<Block>
    var bufs: seq<Buf>
    var order: seq<nat>
    var lh: seq<nat>
    var outstanding: nat
    var committing: bool
    ghost var phase: Phase
    ghost var committer: Pid
    ghost var ops: map<Pid, nat>
    ghost var touched: set<nat>
    ghost var passed: map<Pid, nat>
    ghost const origin: Origin
    ghost var hist: seq<Event>
    /** The two images of module JournalRefinement. */
    ghost var spec: Spec

    ghost function Now(): State
      reads this
    {
      State(disk, bufs, lh, outstanding, phase, committer, ops, touched, passed)
    }

    /** The list threaded through the buffers holds each of them. */
    ghost predicate OrderOk()
      reads this
    {
      |bufs| == nbuf && Lists(order, nbuf)
    }

    /** The steps recorded so far lead from the origin to the present state and images. */
    ghost predicate Valid()
      reads this
    {
      && origin.geom == g && Replay(origin, hist) == Some((Now(), spec))
      && OrderOk() && |disk| == g.disksize && committing == CommittingPhase(Now())
      && Ranked(origin, hist, order)
    }

    lemma SpecIsAbs()
      requires Valid()
      ensures Good(g, Now()) && spec == Abs(g, Now())
    {
      RunRefines(g, origin.start, hist);
    }

    lemma ValidInv()
      requires Valid()
      ensures Inv(g, Now())
    {
      RunKeeps(g, origin.start, hist);
    }

    lemma ValidSized()
      requires Valid()
      ensures Sized(g, Now())
    {
      ValidInv();
    }

    /** binit, then power-on with disk d: initlog has not read the header yet. */
    constructor (g: Geometry, d: seq<Block>, junk: seq<Block>, p: Pid)
      requires GeometryOk(g) && |d| == g.disksize && (forall i :: 0 <= i < |d| ==> |d[i]| == WORDS)
      requires HeadOk(d[g.start]) && GoodHeader(g, DecodeHead(d[g.start]))
      requires forall i :: 0 <= i < |junk| ==> |junk[i]| == WORDS
      requires g.nlog > LOGSIZE || g.nlog >= |junk|
      ensures Valid() && disk == d && |bufs| == |junk| && hist == [] && phase == ReadHead && committer == p
      ensures passed == map[]
      ensures |order| == |junk| && forall i :: 0 <= i < |order| ==> order[i] == |junk| - 1 - i
      ensures forall i :: 0 <= i < |bufs| ==> bufs[i] == NewBuf(junk[i])
      ensures this.g == g
    {
      this.g := g;
      nbuf := |junk|;
      disk := d;
      var bs := seq(|junk|, i requires 0 <= i < |junk| => NewBuf(junk[i]));
      bufs := bs;
      lh, outstanding, committing := [], 0, false;
      phase, committer, ops, touched, passed, hist := ReadHead, p, map[], {}, map[], [];
      ghost var s := State(d, bs, [], 0, ReadHead, p, map[], {}, map[]);
      assert Boots(g, s) && Contained(g, s);
      ghost var o := BootStart(g, s);
      spec := o.images;
      origin := o;
      var b, list := 0, [];
      while b < |junk|
        invariant 0 <= b <= |junk| && |list| == b
        invariant forall i :: 0 <= i < b ==> list[i] == b - 1 - i
      {
        list := [b] + list;
        b := b + 1;
      }
      order := list;
      new;
      forall x | 0 <= x < |bufs| ensures x in order {
        assert order[|junk| - 1 - x] == x;
      }
      assert forall slot :: LastFreed(origin, [], slot) == 0;
    }

    /** One step of module Journal has been taken, from state s. */
    ghost method Record(s: State, e: Event)
      requires origin.geom == g && Replay(origin, hist) == Some((s, spec)) && Stepped(g, s, e, Now())
      modifies `hist, `spec
      ensures hist == old(hist) + [e] && spec == SpecStep(old(spec), LabelOf(g, s, e))
      ensures Replay(origin, hist) == Some((Now(), spec))
      ensures !e.EvUnref? && Ranked(origin, old(hist), order) ==> Ranked(origin, hist, order)
    {
      hide Ranked, Frees;
      if !e.EvUnref? && Ranked(origin, hist, order) {
        OnlyUnrefFrees(origin, hist, e);
        RankedStays(origin, hist, e, order);
      }
      RunsSnoc(g, origin.start, hist, e);
      SpecSnoc(g, origin.start, hist, e, origin.images);
      spec := SpecStep(spec, LabelOf(g, s, e));
      hist := hist + [e];
    }

    /** bget's first scan, from the most recently used end. */
    method FindCached(dev: nat, bn: nat) returns (r: Option<nat>)
      requires OrderOk()
      ensures r.Some? ==> r.value < |bufs| && Caches(bufs[r.value], dev, bn)
      ensures r.None? ==> !Cached(Now(), dev, bn)
    {
      var i := 0;
      while i < |order|
        invariant 0 <= i <= |order|
        invariant forall j :: 0 <= j < i ==> !Caches(bufs[order[j]], dev, bn)
      {
        if Caches(bufs[order[i]], dev, bn) {
          return Some(order[i]);
        }
        i := i + 1;
      }
      forall b | 0 <= b < |bufs| ensures !Caches(bufs[b], dev, bn) {
        assert b in order;
      }
      return None;
    }

    /** Position k of the list holds the least recently used buffer that may be reused. */
    ghost predicate LeastRecent(k: int)
      reads this
    {
      && 0 <= k < |order| && order[k] < |bufs| && Recyclable(bufs[order[k]])
      && forall j :: k < j < |order| && order[j] < |bufs| ==> !Recyclable(bufs[order[j]])
    }

    /** The slot may be reused, and of those that may it was released longest ago. */
    ghost predicate OldestFree(slot: nat)
      reads this
      requires slot < |bufs|
    {
      Recyclable(bufs[slot]) &&
      forall i :: 0 <= i < |bufs| && i != slot && Recyclable(bufs[i]) ==> Later(origin, hist, i, slot)
    }

    lemma LastIsOldest(slot: nat)
      requires OrderOk() && Ranked(origin, hist, order) && slot < |bufs|
      requires exists k :: LeastRecent(k) && order[k] == slot
      ensures OldestFree(slot)
    {
      hide Later;
      var k :| LeastRecent(k) && order[k] == slot;
      forall i | 0 <= i < |bufs| && i != slot && Recyclable(bufs[i]) ensures Later(origin, hist, i, slot) {
        assert i in order;
        var j :| 0 <= j < |order| && order[j] == i;
        assert j < k;
      }
    }

    /** bget's second scan, from the least recently used end. */
    method FindFree() returns (r: Option<nat>)
      requires OrderOk()
      ensures r.Some? ==> exists k :: LeastRecent(k) && order[k] == r.value
      ensures r.None? ==> forall i :: 0 <= i < |bufs| ==> !Recyclable(bufs[i])
    {
      var i := |order|;
      while i > 0
        invariant 0 <= i <= |order|
        invariant forall j :: i <= j < |order| ==> !Recyclable(bufs[order[j]])
      {
        i := i - 1;
        if Recyclable(bufs[order[i]]) {
          assert LeastRecent(i);
          return Some(order[i]);
        }
      }
      forall b | 0 <= b < |bufs| ensures !Recyclable(bufs[b]) {
        assert b in order;
      }
      return None;
    }

    /** A cached buffer is found; otherwise the least recently used one that is neither
        referenced nor dirty is given to the block; otherwise the kernel panics. */
    method BGet(p: Pid, dev: nat, bn: nat) returns (r: Option<nat>)
      requires Valid() && p !in passed
      modifies `bufs, `hist, `spec
      ensures Valid() && spec == old(spec)
      ensures r.None? <==> old(!Cached(Now(), dev, bn) && forall i :: 0 <= i < |bufs| ==> !Recyclable(bufs[i]))
      ensures r.None? ==> Now() == old(Now()) && hist == old(hist)
      ensures r.Some? ==> hist == old(hist) + [EvGet(p, dev, bn, r.value)] && r.value < |bufs|
      ensures r.Some? ==> Stepped(g, old(Now()), EvGet(p, dev, bn, r.value), Now())
      ensures r.Some? && !old(Cached(Now(), dev, bn)) ==> exists k :: old(LeastRecent(k)) && order[k] == r.value
      ensures r.Some? && !old(Cached(Now(), dev, bn)) ==> r.value < |old(bufs)| && old(OldestFree(r.value))
    {
      hide Replay, Lists, Ranked, Sized, Apply, Enabled, Stepped, LabelOf;
      ValidSized();
      ghost var s := Now();
      var b := FindCached(dev, bn);
      if b.Some? {
        bufs := bufs[b.value := bufs[b.value].(refcnt := bufs[b.value].refcnt + 1,
          users := bufs[b.value].users + multiset{p})];
        HitStep(g, s, p, dev, bn, b.value, Now());
        Record(s, EvGet(p, dev, bn, b.value));
        return b;
      }
      b := FindFree();
      if b.Some? {
        LastIsOldest(b.value);
        bufs := bufs[b.value := Buf(dev, bn, false, false, 1, multiset{p}, bufs[b.value].owner, bufs[b.value].data)];
        MissStep(g, s, p, dev, bn, b.value, Now());
        Record(s, EvGet(p, dev, bn, b.value));
        return b;
      }
      return None;
    }

    /** acquiresleep on a buffer that nobody has locked. */
    method LockBuffer(p: Pid, slot: nat)
      requires Valid() && p !in passed && slot < |bufs| && p in bufs[slot].users && bufs[slot].owner == None
      modifies `bufs, `hist, `spec
      ensures Valid() && spec == old(spec) && hist == old(hist) + [EvLock(p, slot)]
      ensures bufs == old(bufs)[slot := old(bufs[slot]).(owner := Some(p))]
    {
      ValidSized();
      bufs := bufs[slot := bufs[slot].(owner := Some(p))];
      Record(old(Now()), EvLock(p, slot));
    }

    /** iderw on a locked buffer whose contents have not been read. */
    method FillBuffer(p: Pid, slot: nat)
      requires Valid() && p !in passed && Owns(Now(), p, slot) && !bufs[slot].valid && bufs[slot].dev == 1
      requires bufs[slot].blockno < g.disksize
      modifies `bufs, `hist, `spec
      ensures Valid() && spec == old(spec) && hist == old(hist) + [EvFill(p, slot)]
      ensures bufs == old(bufs)[slot := old(bufs[slot]).(data := disk[old(bufs[slot].blockno)], valid := true)]
    {
      ValidSized();
      bufs := bufs[slot := bufs[slot].(data := disk[bufs[slot].blockno], valid := true)];
      Record(old(Now()), EvFill(p, slot));
    }

    /** bread, for the log's device.  A caller that finds the buffer locked sleeps in
        acquiresleep, keeping its reference. */
    method BRead(p: Pid, bn: nat) returns (r: Fetch)
      requires Valid() && p !in passed && bn < g.disksize
      modifies `bufs, `hist, `spec
      ensures Valid() && old(hist) <= hist && spec == old(spec)
      ensures r.NoBuffers? <==> old(!Cached(Now(), 1, bn) && forall i :: 0 <= i < |bufs| ==> !Recyclable(bufs[i]))
      ensures r.NoBuffers? ==> Now() == old(Now())
      ensures !r.NoBuffers? ==> r.slot < |bufs| && p in bufs[r.slot].users && Caches(bufs[r.slot], 1, bn)
      ensures !r.NoBuffers? ==> forall i :: 0 <= i < |bufs| && i != r.slot ==> bufs[i] == old(bufs[i])
      ensures !r.NoBuffers? ==> (r.Asleep? <==> old(bufs[r.slot].owner.Some?))
      ensures !r.NoBuffers? && old(Cached(Now(), 1, bn)) ==> old(Caches(bufs[r.slot], 1, bn))
      ensures !r.NoBuffers? && !old(Cached(Now(), 1, bn)) ==> old(Recyclable(bufs[r.slot]))
      ensures r.Got? ==> Owns(Now(), p, r.slot) && bufs[r.slot].valid
      ensures r.Got? && old(Cached(Now(), 1, bn)) ==> Refetched(old(bufs[r.slot]), bufs[r.slot], p)
      ensures r.Got? && !old(Cached(Now(), 1, bn)) ==> bufs[r.slot].users == multiset{p} && !bufs[r.slot].dirty
    {
      hide Valid, Stepped, Recyclable, Cached;
      var b := BGet(p, 1, bn);
      if b.None? {
        return NoBuffers;
      }
      GetEffect(g, old(Now()), p, bn, b.value, Now());
      if bufs[b.value].owner.Some? {
        return Asleep(b.value);
      }
      LockBuffer(p, b.value);
      if !bufs[b.value].valid {
        FillBuffer(p, b.value);
      }
      return Got(b.value);
    }

    /** releasesleep on a buffer that p has locked and, if it changed it, logged. */
    method UnlockBuffer(p: Pid, slot: nat)
      requires Valid() && p !in passed && Owns(Now(), p, slot) && slot !in touched
      modifies `bufs, `hist, `spec
      ensures Valid() && spec == old(spec) && hist == old(hist) + [EvUnlock(p, slot)]
      ensures bufs == old(bufs)[slot := old(bufs[slot]).(owner := None)]
    {
      ValidSized();
      bufs := bufs[slot := bufs[slot].(owner := None)];
      Record(old(Now()), EvUnlock(p, slot));
    }

    /** The rest of brelse, under bcache.lock. */
    method DropReference(p: Pid, slot: nat)
      requires Valid() && p !in passed && slot < |bufs| && p in bufs[slot].users && bufs[slot].owner != Some(p)
      modifies `bufs, `order, `hist, `spec
      ensures Valid() && spec == old(spec) && hist == old(hist) + [EvUnref(p, slot)]
      ensures forall i :: 0 <= i < |bufs| && i != slot ==> bufs[i] == old(bufs[i])
      ensures bufs[slot].refcnt + 1 == old(bufs[slot].refcnt)
      ensures bufs[slot] == old(bufs[slot]).(refcnt := bufs[slot].refcnt, users := old(bufs[slot].users) - multiset{p})
      ensures order == if bufs[slot].refcnt == 0 then MoveToFront(old(order), slot) else old(order)
    {
      hide Replay, Lists, Ranked, Sized, Apply, Enabled, Stepped, LabelOf;
      ValidSized();
      RefCounted(slot);
      ghost var s := Now();
      bufs := bufs[slot := bufs[slot].(refcnt := bufs[slot].refcnt - 1, users := bufs[slot].users - multiset{p})];
      UnrefStep(g, s, p, slot, Now());
      Record(s, EvUnref(p, slot));
      ReleaseRanks(old(hist), p, slot);
      if bufs[slot].refcnt == 0 {
        MoveToFrontKeeps(order, slot, |bufs|);
        order := MoveToFront(order, slot);
      }
    }

    /** brelse: unlock, drop the reference, and with the last one move to the front of the list. */
    method BRelse(p: Pid, slot: nat)
      requires Valid() && p !in passed && Owns(Now(), p, slot) && slot !in touched
      modifies `bufs, `order, `hist, `spec
      ensures Valid() && spec == old(spec) && hist == old(hist) + [EvUnlock(p, slot), EvUnref(p, slot)]
      ensures |bufs| == |old(bufs)| && forall i :: 0 <= i < |bufs| && i != slot ==> bufs[i] == old(bufs[i])
      ensures bufs[slot].refcnt + 1 == old(bufs[slot].refcnt)
      ensures bufs[slot] ==
        old(bufs[slot]).(owner := None, refcnt := bufs[slot].refcnt, users := old(bufs[slot].users) - multiset{p})
      ensures order == if bufs[slot].refcnt == 0 then MoveToFront(old(order), slot) else old(order)
    {
      OwnerCounted(p, slot);
      UnlockBuffer(p, slot);
      DropReference(p, slot);
    }

    lemma ReleaseRanks(past: seq<Event>, p: Pid, slot: nat)
      requires slot < |bufs| && hist == past + [EvUnref(p, slot)] && Replay(origin, hist) == Some((Now(), spec))
      requires Ranked(origin, past, order)
      ensures Ranked(origin, hist, if bufs[slot].refcnt == 0 then MoveToFront(order, slot) else order)
    {
      hide Replay, Ranked, LastFreed;
      var e := EvUnref(p, slot);
      if bufs[slot].refcnt == 0 {
        RankedFront(origin, past, e, order, slot);
      } else {
        RankedStays(origin, past, e, order);
      }
    }

    lemma RefCounted(slot: nat)
      requires Valid() && slot < |bufs|
      ensures bufs[slot].refcnt == |bufs[slot].users|
    {
      ValidInv();
    }

    lemma OwnerCounted(p: Pid, slot: nat)
      requires Valid() && Owns(Now(), p, slot)
      ensures p in bufs[slot].users
    {
      ValidInv();
    }

    /** The owner fills the buffer with `data` and calls bwrite: iderw sends it to disk and clears B_DIRTY. */
    method BWrite(slot: nat, data: Block)
      requires slot < |bufs| && bufs[slot].blockno < |disk|
      modifies `disk, `bufs
      ensures disk == old(disk)[old(bufs[slot].blockno) := data]
      ensures bufs == old(bufs)[slot := old(bufs[slot]).(data := data, valid := true, dirty := false)]
    {
      disk := disk[bufs[slot].blockno := data];
      bufs := bufs[slot := bufs[slot].(data := data, valid := true, dirty := false)];
    }

    /** begin_op's test under log.lock; false means the caller sleeps on the log. */
    method BeginOp(p: Pid) returns (started: bool)
      requires Valid() && p !in passed && p !in ops && !Recovering(Now())
      modifies `outstanding, `ops, `hist, `spec
      ensures Valid() && spec == old(spec)
      ensures started <==> !committing && |lh| + (old(outstanding) + 1) * 10 <= 30
      ensures started ==>
        hist == old(hist) + [EvBegin(p)] && outstanding == old(outstanding) + 1 && ops == old(ops)[p := MAXOPBLOCKS]
      ensures !started ==> Now() == old(Now()) && hist == old(hist)
    {
      ValidSized();
      if committing {
        return false;
      } else if |lh| + (outstanding + 1) * MAXOPBLOCKS > LOGSIZE {
        return false;
      }
      outstanding := outstanding + 1;
      ops := ops[p := MAXOPBLOCKS];
      Record(old(Now()), EvBegin(p));
      return true;
    }

    /** end_op up to the release of log.lock: the last operation starts the commit. */
    method LeaveOp(p: Pid) returns (doCommit: bool)
      requires Valid() && p !in passed && p in ops && forall i :: i in touched ==> !Owns(Now(), p, i)
      modifies `outstanding, `committing, `ops, `phase, `committer, `hist, `spec
      ensures Valid() && spec == old(spec) && hist == old(hist) + [EvEnd(p)]
      ensures outstanding + 1 == old(outstanding) && ops == old(ops) - {p}
      ensures doCommit <==> outstanding == 0
      ensures doCommit ==> committing && committer == p && phase == if |lh| > 0 then WriteLog(0) else Finish
      ensures !doCommit ==> !committing && phase == Normal
    {
      hide Replay, Lists, Ranked, Sized, Apply, Enabled, Owns, Stepped, LabelOf;
      ValidSized();
      OpRunning(p);
      ghost var s := Now();
      outstanding, ops := outstanding - 1, ops - {p};
      doCommit := outstanding == 0;
      if doCommit {
        committing, committer, phase := true, p, if |lh| > 0 then WriteLog(0) else Finish;
      }
      EndStep(g, s, p, Now());
      Record(s, EvEnd(p));
    }

    lemma OpRunning(p: Pid)
      requires Valid() && p in ops
      ensures phase == Normal && outstanding >= 1 && !committing
    {
      NoCommitDuringOps(g, origin.start, hist, p);
    }

    /** log_write's scan of the header; n if the block is not logged yet. */
    method HeaderIndex(bn: nat) returns (i: nat)
      ensures i <= |lh| && (i == |lh| <==> bn !in lh) && (i < |lh| ==> lh[i] == bn)
    {
      i := 0;
      while i < |lh|
        invariant 0 <= i <= |lh| && forall j :: 0 <= j < i ==> lh[j] != bn
      {
        if lh[i] == bn {
          break;
        }
        i := i + 1;
      }
    }

    /** The owner of a locked buffer, inside an operation, changes the contents: from here on readers see them. */
    method Modify(p: Pid, slot: nat, data: Block)
      requires Valid() && p !in passed && Owns(Now(), p, slot) && bufs[slot].valid && p in ops
      requires Home(g, bufs[slot].blockno) && |data| == WORDS
      modifies `bufs, `touched, `hist, `spec
      ensures Valid() && hist == old(hist) + [EvModify(p, slot, data)] && touched == old(touched) + {slot}
      ensures bufs == old(bufs)[slot := old(bufs[slot]).(data := data)]
      ensures spec == old(spec).(cur := old(spec.cur)[old(bufs[slot].blockno) := data])
    {
      hide Replay, Lists, Ranked;
      ValidSized();
      bufs := bufs[slot := bufs[slot].(data := data)];
      touched := touched + {slot};
      Record(old(Now()), EvModify(p, slot, data));
    }

    /** The tests at the start of log_write, before it takes log.lock; false is the panic about the size. */
    method LogTest(p: Pid, slot: nat) returns (ok: bool)
      requires Valid() && p !in passed && MayLog(g, Now(), p, slot)
      modifies `passed, `hist, `spec
      ensures Valid() && spec == old(spec)
      ensures ok <==> |lh| < 30 && |lh| < g.nlog - 1
      ensures !ok ==> passed == old(passed) && hist == old(hist)
      ensures ok ==> passed == old(passed)[p := slot] && hist == old(hist) + [EvLogTest(p, slot)]
    {
      hide Replay, Lists, Ranked;
      ValidSized();
      if |lh| >= LOGSIZE || |lh| >= g.nlog - 1 {
        return false;
      }
      passed := passed[p := slot];
      Record(old(Now()), EvLogTest(p, slot));
      return true;
    }

    /** The rest of log_write, under log.lock: absorb the block into the header or append it, and pin its buffer.
        Others may have appended since the test; there is an entry for the block all the same. */
    method LogAppend(p: Pid, slot: nat)
      requires Valid() && p in passed && passed[p] == slot
      modifies `bufs, `lh, `ops, `touched, `passed, `hist, `spec
      ensures Valid() && spec == old(spec) && hist == old(hist) + [EvLogWrite(p, slot)]
      ensures slot < |old(bufs)| && old(MayLog(g, Now(), p, slot)) && passed == old(passed) - {p} && |lh| <= LOGSIZE
      ensures ops == Charged(old(ops), p, old(bufs[slot].blockno) in old(lh))
      ensures touched == old(touched) - {slot}
      ensures lh == Logged(old(lh), old(bufs[slot].blockno))
      ensures bufs == old(bufs)[slot := old(bufs[slot]).(dirty := true)]
    {
      hide Replay, Lists, Ranked, Sized, Apply, Enabled, Stepped, LabelOf, Home, CommittingPhase;
      PassedMayLog(p);
      ghost var s := Now();
      SamePhase(s);
      var bn := bufs[slot].blockno;
      var i := HeaderIndex(bn);
      if i == |lh| {
        lh := lh + [bn];
        ops := ops[p := ops[p] - 1];
      } else {
        assert lh[i := bn] == lh;
        lh := lh[i := bn];
      }
      bufs, touched, passed := bufs[slot := bufs[slot].(dirty := true)], touched - {slot}, passed - {p};
      LogWriteStep(g, s, p, slot, Now());
      Record(s, EvLogWrite(p, slot));
      HeaderShort();
    }

    lemma HeaderShort()
      requires Valid()
      ensures |lh| <= LOGSIZE
    {
      ValidSized();
    }

    lemma PassedMayLog(p: Pid)
      requires Valid() && p in passed
      ensures Sized(g, Now()) && MayLog(g, Now(), p, passed[p]) && phase == Normal
    {
      ValidInv();
    }

    /** log_write with nobody else in between. */
    method LogWrite(p: Pid, slot: nat) returns (ok: bool)
      requires Valid() && p !in passed && MayLog(g, Now(), p, slot)
      modifies `bufs, `lh, `ops, `touched, `passed, `hist, `spec
      ensures Valid() && spec == old(spec) && passed == old(passed)
      ensures ok <==> !(|old(lh)| >= LOGSIZE || |old(lh)| >= g.nlog - 1)
      ensures !ok ==> Now() == old(Now()) && hist == old(hist)
      ensures ok ==> hist == old(hist) + [EvLogTest(p, slot), EvLogWrite(p, slot)]
      ensures ok ==> ops == Charged(old(ops), p, old(bufs[slot].blockno) in old(lh))
      ensures ok ==> touched == old(touched) - {slot}
      ensures ok ==> lh == Logged(old(lh), old(bufs[slot].blockno))
      ensures ok ==> bufs == old(bufs)[slot := old(bufs[slot]).(dirty := true)]
    {
      hide Valid, MayLog;
      ok := LogTest(p, slot);
      if ok {
        LogAppend(p, slot);
        assert passed == old(passed);
      }
    }

    // -------------------------------------------------------------- commit and recovery

    /** Process p has locked the buffers in `held`; no process has a reference to any other. */
    ghost predicate OnlyHeld(p: Pid, held: set<nat>)
      reads `bufs
    {
      forall i :: 0 <= i < |bufs| ==>
        if i in held then bufs[i].users == multiset{p} && bufs[i].owner == Some(p)
        else bufs[i].users == multiset{} && bufs[i].owner == None
    }

    /** Fewer blocks are pinned than there are buffers. */
    ghost predicate SomeUnpinned()
      reads this
    {
      |lh| - PinFrom(Now()) < nbuf
    }

    /** With no references out and a buffer unpinned, bget finds one. */
    lemma IdleHasFree(p: Pid)
      requires Valid() && OnlyHeld(p, {}) && SomeUnpinned()
      ensures exists i :: 0 <= i < |bufs| && Recyclable(bufs[i])
    {
      ValidInv();
      CleanBufferLeft(g, Now());
      var i :| 0 <= i < |bufs| && !bufs[i].dirty;
      assert Recyclable(bufs[i]);
    }

    /** bget would panic: the block is not cached and no buffer can be reused. */
    ghost predicate NoBuffer(bn: nat)
      reads this
    {
      !Cached(Now(), 1, bn) && forall i :: 0 <= i < |bufs| ==> !Recyclable(bufs[i])
    }

    /** bread by a process that has locked the buffers in `held`.  None: bget panics, or the caller sleeps
        on the lock of a buffer that another process is using. */
    method Fetch(p: Pid, bn: nat, ghost held: set<nat>) returns (r: Option<nat>)
      requires Valid() && p !in passed && bn < g.disksize
      requires forall i :: i in held ==> Owns(Now(), p, i) && !Caches(bufs[i], 1, bn)
      modifies `bufs, `hist, `spec
      ensures Valid() && old(hist) <= hist && spec == old(spec)
      ensures old(NoBuffer(bn)) ==> r.None?
      ensures old(OnlyHeld(p, held)) ==> (r.None? <==> old(NoBuffer(bn)))
      ensures old(OnlyHeld(p, held)) && r.Some? ==> OnlyHeld(p, held + {r.value})
      ensures r.Some? ==> r.value !in held && Owns(Now(), p, r.value) && |bufs| == |old(bufs)|
      ensures r.Some? ==> old(bufs[r.value].owner).None?
      ensures r.Some? ==> bufs[r.value].valid && Caches(bufs[r.value], 1, bn)
      ensures r.Some? ==> forall i :: 0 <= i < |bufs| && i != r.value ==> bufs[i] == old(bufs[i])
    {
      hide Replay, Lists, Ranked;
      HeldNotFree(p, held);
      var f := BRead(p, bn);
      return if f.Got? then Some(f.slot) else None;
    }

    lemma HeldNotFree(p: Pid, held: set<nat>)
      requires Valid() && forall i :: i in held ==> Owns(Now(), p, i)
      ensures forall i :: i in held && i < |bufs| ==> !Recyclable(bufs[i])
    {
      ValidInv();
    }

    lemma NoOneTouched()
      requires Valid() && phase != Normal
      ensures touched == {} && ops == map[] && passed == map[]
    {
      ValidInv();
      NothingTouched(g, Now());
    }

    /** While the log is written, every logged block is in the cache. */
    lemma LoggedCached(k: nat)
      requires Valid() && k < |lh| && PinFrom(Now()) <= k
      ensures Cached(Now(), 1, lh[k])
    {
      ValidInv();
      assert DirtyCopy(Now(), lh[k]);
      var i :| 0 <= i < |bufs| && bufs[i].dirty && bufs[i].blockno == lh[k];
      assert Caches(bufs[i], 1, lh[k]);
    }

    /** A round of write_log or install_trans reads or writes a block of the log area. */
    lemma RoundInside(k: nat)
      requires Valid() && k < |lh| && (phase == WriteLog(k) || (phase.Install? && phase.tail == k))
      ensures k < g.nlog - 1
    {
      ValidInv();
    }

    lemma LoggedHome(k: nat)
      requires Valid() && k < |lh| && k < g.nlog - 1
      ensures Home(g, lh[k]) && !Home(g, g.start + k + 1) && g.start + k + 1 < g.disksize
    {
      ValidInv();
    }

    /** The two brelses that end a round of write_log or install_trans. */
    method ReleasePair(p: Pid, a: nat, b: nat)
      requires Valid() && phase != Normal && a != b && Owns(Now(), p, a) && Owns(Now(), p, b)
      modifies `bufs, `order, `hist, `spec
      ensures Valid() && old(hist) <= hist && spec == old(spec)
      ensures old(OnlyHeld(p, {a, b})) ==> OnlyHeld(p, {})
    {
      hide Replay, Lists, Ranked, Recyclable, Cached, MoveToFront;
      NoOneTouched();
      BRelse(p, a);
      BRelse(p, b);
    }

    /** The body of write_log's loop between the two breads and the two brelses. */
    method CopyToLog(to: nat, from: nat)
      requires Valid() && Enabled(g, Now(), EvCopyToLog(to, from))
      modifies `disk, `bufs, `phase, `hist, `spec
      ensures Valid() && spec == old(spec) && hist == old(hist) + [EvCopyToLog(to, from)]
      ensures phase == if old(phase).tail + 1 == |lh| then WriteHead else WriteLog(old(phase).tail + 1)
      ensures SameHolders(old(bufs), bufs)
    {
      hide Replay, Lists, Ranked;
      ValidSized();
      ghost var s' := Apply(g, Now(), EvCopyToLog(to, from));
      BWrite(to, bufs[from].data);
      phase := s'.phase;
      assert bufs == s'.bufs;
      Record(old(Now()), EvCopyToLog(to, from));
    }

    /** bread by a committer that holds no buffer. */
    method FetchFirst(p: Pid, bn: nat) returns (r: Option<nat>)
      requires Valid() && p !in passed && bn < g.disksize && committer == p
      modifies `bufs, `hist, `spec
      ensures Valid() && old(hist) <= hist && spec == old(spec)
      ensures r.Some? ==> CommitterHas(Now(), r.value, bn) && !old(NoBuffer(bn))
      ensures old(OnlyHeld(p, {})) && r.Some? ==> OnlyHeld(p, {r.value})
      ensures old(OnlyHeld(p, {})) && SomeUnpinned() ==> r.Some?
    {
      hide Replay, Lists, Ranked, Recyclable, Cached;
      if OnlyHeld(p, {}) && SomeUnpinned() { IdleHasFree(p); }
      r := Fetch(p, bn, {});
      assert r.Some? ==> {} + {r.value} == {r.value};
    }

    /** The two breads that begin a round of write_log or install_trans: entry k's log block and home block.
        They fail if every buffer is pinned, or if the committer has to sleep on a buffer in use; with nobody
        else in the cache and a buffer unpinned they succeed. */
    method FetchPair(p: Pid, k: nat) returns (ok: bool, a: nat, b: nat)
      requires Valid() && p !in passed && k < |lh| && k < g.nlog - 1 && committer == p
      modifies `bufs, `hist, `spec
      ensures Valid() && old(hist) <= hist && spec == old(spec)
      ensures ok ==> a != b && CommitterHas(Now(), a, g.start + k + 1) && CommitterHas(Now(), b, lh[k])
      ensures ok && old(OnlyHeld(p, {})) ==> OnlyHeld(p, {a, b})
      ensures ok && PinFrom(Now()) == 0 ==> |lh| < nbuf
      ensures old(OnlyHeld(p, {})) && SomeUnpinned() && PinFrom(Now()) <= k ==> ok
      ensures old(OnlyHeld(p, {})) && SomeUnpinned() && PinFrom(Now()) == |lh| && 2 <= nbuf ==> ok
    {
      hide Valid, NoBuffer, OnlyHeld, Owns;
      a, b := 0, 0;
      LoggedHome(k);
      if PinFrom(Now()) == 0 && |lh| >= nbuf { PinnedOut(k); }
      var x := FetchFirst(p, g.start + k + 1);
      if x.None? {
        ok := false;
        return;
      }
      a := x.value;
      x := FetchSecond(p, k, a);
      if x.None? {
        ok := false;
        return;
      }
      ok, b := true, x.value;
    }

    /** bread of entry k's home block by a committer that holds the log block. */
    method FetchSecond(p: Pid, k: nat, a: nat) returns (r: Option<nat>)
      requires Valid() && p !in passed && k < |lh| && k < g.nlog - 1
      requires committer == p && CommitterHas(Now(), a, g.start + k + 1)
      modifies `bufs, `hist, `spec
      ensures Valid() && old(hist) <= hist && spec == old(spec)
      ensures r.Some? ==> r.value != a && CommitterHas(Now(), a, g.start + k + 1) && CommitterHas(Now(), r.value, lh[k])
      ensures r.Some? && old(OnlyHeld(p, {a})) ==> OnlyHeld(p, {a, r.value})
      ensures old(OnlyHeld(p, {a})) && (PinFrom(Now()) <= k || (PinFrom(Now()) == |lh| && 2 <= nbuf)) ==> r.Some?
    {
      hide Replay, Lists, Ranked, Recyclable, Cached;
      LoggedHome(k);
      if OnlyHeld(p, {a}) { SecondFetch(p, k, a); }
      r := Fetch(p, lh[k], {a});
      assert r.Some? ==> {a} + {r.value} == {a, r.value};
    }

    /** With every buffer pinned there is none for a log block. */
    lemma PinnedOut(k: nat)
      requires Valid() && k < |lh| && k < g.nlog - 1 && PinFrom(Now()) == 0 && |lh| >= nbuf
      ensures NoBuffer(g.start + k + 1)
    {
      ValidInv();
      forall i | 0 <= i < |bufs| ensures bufs[i].dirty && !Caches(bufs[i], 1, g.start + k + 1) {
        AllPinned(Now(), i);
        assert bufs[i].blockno in lh[0..];
      }
    }

    lemma SecondFetch(p: Pid, k: nat, a: nat)
      requires Valid() && OnlyHeld(p, {a}) && k < |lh|
      ensures PinFrom(Now()) <= k ==> Cached(Now(), 1, lh[k])
      ensures PinFrom(Now()) == |lh| && 2 <= nbuf ==> exists i :: 0 <= i < |bufs| && Recyclable(bufs[i])
    {
      if PinFrom(Now()) <= k { LoggedCached(k); }
      if PinFrom(Now()) == |lh| && 2 <= nbuf { SecondFree(p, a); }
    }

    /** With nothing pinned, one held buffer leaves another free. */
    lemma SecondFree(p: Pid, a: nat)
      requires Valid() && OnlyHeld(p, {a}) && PinFrom(Now()) == |lh| && 2 <= nbuf
      ensures exists i :: 0 <= i < |bufs| && Recyclable(bufs[i])
    {
      ValidInv();
      var i := if a == 0 then 1 else 0;
      assert !bufs[i].dirty;
      assert Recyclable(bufs[i]);
    }

    /** One round of write_log. */
    method CopyBlock(p: Pid, tail: nat) returns (ok: bool)
      requires Valid() && phase == WriteLog(tail) && tail < |lh| && committer == p
      modifies `disk, `bufs, `order, `phase, `hist, `spec
      ensures Valid() && old(hist) <= hist && spec == old(spec)
      ensures ok ==> |lh| < nbuf && phase == if tail + 1 == |lh| then WriteHead else WriteLog(tail + 1)
      ensures old(OnlyHeld(p, {})) && ok ==> OnlyHeld(p, {})
      ensures old(OnlyHeld(p, {})) && |lh| < nbuf ==> ok
    {
      hide Valid, Recyclable, Cached, MoveToFront;
      NoOneTouched();
      RoundInside(tail);
      var to, from;
      ok, to, from := FetchPair(p, tail);
      if ok {
        CopyToLog(to, from);
        ReleasePair(p, from, to);
      }
    }

    /** write_log: copy every logged block from the cache to the log area. */
    method WriteLogBlocks(p: Pid) returns (ok: bool)
      requires Valid() && phase == WriteLog(0) && committer == p && |lh| > 0
      modifies `disk, `bufs, `order, `phase, `hist, `spec
      ensures Valid() && old(hist) <= hist && spec == old(spec)
      ensures ok ==> phase == WriteHead && |lh| < nbuf
      ensures old(OnlyHeld(p, {})) ==> (ok <==> |lh| < nbuf) && (ok ==> OnlyHeld(p, {}))
    {
      hide Valid, OnlyHeld;
      var tail := 0;
      while tail < |lh|
        invariant 0 <= tail <= |lh| && Valid() && old(hist) <= hist && spec == old(spec)
        invariant phase == if tail < |lh| then WriteLog(tail) else WriteHead
        invariant tail > 0 ==> |lh| < nbuf
        invariant old(OnlyHeld(p, {})) ==> OnlyHeld(p, {})
      {
        ok := CopyBlock(p, tail);
        if !ok {
          return;
        }
        tail := tail + 1;
      }
      return true;
    }

    /** The body of install_trans's loop between the two breads and the two brelses. */
    method CopyHome(lb: nat, db: nat)
      requires Valid() && Enabled(g, Now(), EvInstall(lb, db))
      modifies `disk, `bufs, `phase, `hist, `spec
      ensures Valid() && spec == old(spec) && hist == old(hist) + [EvInstall(lb, db)]
      ensures phase == if old(phase).tail + 1 == |lh| then ClearHead(old(phase).rec)
        else Install(old(phase).tail + 1, old(phase).rec)
      ensures SameHolders(old(bufs), bufs)
      ensures Owns(Now(), committer, lb) && Owns(Now(), committer, db)
      ensures old(OnlyHeld(committer, {lb, db})) ==> OnlyHeld(committer, {lb, db})
    {
      hide Replay, Lists, Ranked;
      ValidSized();
      ghost var s' := Apply(g, Now(), EvInstall(lb, db));
      BWrite(db, bufs[lb].data);
      phase := s'.phase;
      assert bufs == s'.bufs;
      Record(old(Now()), EvInstall(lb, db));
    }

    /** One round of install_trans. */
    method InstallBlock(p: Pid, tail: nat) returns (ok: bool)
      requires Valid() && phase.Install? && phase.tail == tail < |lh| && committer == p
      modifies `disk, `bufs, `order, `phase, `hist, `spec
      ensures Valid() && old(hist) <= hist && spec == old(spec)
      ensures ok ==> phase == if tail + 1 == |lh| then ClearHead(old(phase).rec) else Install(tail + 1, old(phase).rec)
      ensures old(OnlyHeld(p, {})) && ok ==> OnlyHeld(p, {})
      ensures old(OnlyHeld(p, {})) && (|lh| < nbuf || old(phase).rec) && 2 <= nbuf ==> ok
    {
      hide Valid, Recyclable, Cached, MoveToFront, Home, OnlyHeld, SameHolders;
      NoOneTouched();
      RoundInside(tail);
      var lbuf, dbuf;
      ok, lbuf, dbuf := FetchPair(p, tail);
      if ok {
        CopyHome(lbuf, dbuf);
        ReleasePair(p, lbuf, dbuf);
      }
    }

    /** install_trans: copy every logged block from the log area to its home. */
    method InstallTrans(p: Pid) returns (ok: bool)
      requires Valid() && phase.Install? && phase.tail == 0 && committer == p && |lh| > 0
      modifies `disk, `bufs, `order, `phase, `hist, `spec
      ensures Valid() && old(hist) <= hist && spec == old(spec)
      ensures ok ==> phase == ClearHead(old(phase).rec)
      ensures old(OnlyHeld(p, {})) && ok ==> OnlyHeld(p, {})
      ensures old(OnlyHeld(p, {})) && (|lh| < nbuf || old(phase).rec) && 2 <= nbuf ==> ok
    {
      hide Valid;
      var tail := 0;
      ghost var rec := phase.rec;
      while tail < |lh|
        invariant 0 <= tail <= |lh| && Valid() && old(hist) <= hist && spec == old(spec)
        invariant phase == if tail < |lh| then Install(tail, rec) else ClearHead(rec)
        invariant old(OnlyHeld(p, {})) ==> OnlyHeld(p, {})
      {
        ok := InstallBlock(p, tail);
        if !ok {
          return;
        }
        tail := tail + 1;
      }
      return true;
    }

    /** write_head's loop: n, then the block numbers, over the old contents. */
    method FillHeader(prev: Block, n: seq<nat>) returns (b: Block)
      requires |prev| == WORDS && |n| <= LOGSIZE
      ensures b == EncodeHead(prev, n)
    {
      b := prev[0 := |n|];
      var i := 0;
      while i < |n|
        invariant 0 <= i <= |n| && b == [|n|] + n[..i] + prev[1 + i..]
      {
        b := b[1 + i := n[i]];
        i := i + 1;
      }
    }

    /** read_head's loop. */
    method ReadHeader(b: Block) returns (h: seq<nat>)
      requires HeadOk(b)
      ensures h == DecodeHead(b)
    {
      h := [];
      var i := 0;
      while i < b[0]
        invariant 0 <= i <= b[0] && h == b[1..1 + i]
      {
        h := h + [b[1 + i]];
        i := i + 1;
      }
    }

    /** The header goes into its block and to disk: the commit point. */
    method StampCommit(hb: nat)
      requires Valid() && Enabled(g, Now(), EvCommitHead(hb))
      modifies `disk, `bufs, `phase, `hist, `spec
      ensures Valid() && spec == old(spec).(stable := old(spec.cur)) && hist == old(hist) + [EvCommitHead(hb)]
      ensures phase == Install(0, false)
      ensures SameHolders(old(bufs), bufs)
    {
      hide Replay, Lists, Ranked;
      ValidSized();
      ghost var s' := Apply(g, Now(), EvCommitHead(hb));
      var b := FillHeader(bufs[hb].data, lh);
      BWrite(hb, b);
      phase := s'.phase;
      assert bufs == s'.bufs;
      Record(old(Now()), EvCommitHead(hb));
    }

    /** The same with an empty header. */
    method StampErase(hb: nat)
      requires Valid() && Enabled(g, Now(), EvClearHead(hb))
      modifies `disk, `bufs, `lh, `phase, `hist, `spec
      ensures Valid() && spec == old(spec) && hist == old(hist) + [EvClearHead(hb)] &&
        phase == if old(phase).rec then Normal else Finish
      ensures SameHolders(old(bufs), bufs) && lh == []
    {
      hide Replay, Lists, Ranked, Apply, Enabled, Stepped, LabelOf, EncodeHead;
      ValidSized();
      ghost var s := Now();
      ClearReady(g, s, hb);
      lh := [];
      var b := FillHeader(bufs[hb].data, lh);
      BWrite(hb, b);
      phase := if phase.rec then Normal else Finish;
      ClearStep(g, s, hb, Now());
      Record(s, EvClearHead(hb));
    }

    /** brelse of the only buffer held. */
    method ReleaseHeader(p: Pid, hb: nat)
      requires Valid() && p !in passed && Owns(Now(), p, hb) && touched == {}
      modifies `bufs, `order, `hist, `spec
      ensures Valid() && old(hist) <= hist && spec == old(spec)
      ensures old(OnlyHeld(p, {hb})) ==> OnlyHeld(p, {})
    {
      hide Replay, Lists, Ranked, MoveToFront;
      BRelse(p, hb);
    }

    lemma HeaderOnDisk()
      requires Valid()
      ensures g.start < g.disksize
    {
      ValidSized();
    }

    /** write_head, "the real commit". */
    method CommitHeader(p: Pid) returns (ok: bool)
      requires Valid() && phase == WriteHead && committer == p
      modifies `disk, `bufs, `order, `phase, `hist, `spec
      ensures Valid() && old(hist) <= hist && spec.cur == old(spec.cur)
      ensures ok ==> spec.stable == spec.cur && phase == Install(0, false)
      ensures !ok ==> spec == old(spec)
      ensures old(OnlyHeld(p, {})) && ok ==> OnlyHeld(p, {})
      ensures old(OnlyHeld(p, {})) && |lh| < nbuf ==> ok
    {
      hide Valid, NoBuffer;
      HeaderOnDisk();
      NoOneTouched();
      var x := FetchFirst(p, g.start);
      if x.None? {
        return false;
      }
      StampCommit(x.value);
      ReleaseHeader(p, x.value);
      return true;
    }

    /** The header is emptied in memory and on disk, after commit or after recovery. */
    method EraseHeader(p: Pid) returns (ok: bool)
      requires Valid() && phase.ClearHead? && committer == p
      modifies `disk, `bufs, `order, `lh, `phase, `hist, `spec
      ensures Valid() && old(hist) <= hist && spec == old(spec)
      ensures ok ==> lh == [] && phase == if old(phase).rec then Normal else Finish
      ensures old(OnlyHeld(p, {})) && ok ==> OnlyHeld(p, {})
      ensures old(OnlyHeld(p, {})) && nbuf > 0 ==> ok
    {
      hide Valid, NoBuffer;
      HeaderOnDisk();
      ghost var rec := phase.rec;
      NoOneTouched();
      var x := FetchFirst(p, g.start);
      if x.None? {
        return false;
      }
      StampErase(x.value);
      ReleaseHeader(p, x.value);
      return true;
    }

    /** commit, called by the end_op that ended the last operation.  It stops only when bget panics or a buffer
        is in use.  With nobody else in the cache it completes exactly when something is left unpinned, and
        then what the file system saw before is on disk for good. */
    method Commit(p: Pid) returns (ok: bool)
      requires Valid() && committer == p && phase == if |lh| > 0 then WriteLog(0) else Finish
      modifies `disk, `bufs, `order, `lh, `phase, `hist, `spec
      ensures Valid() && old(hist) <= hist && spec.cur == old(spec.cur)
      ensures spec.stable == spec.cur || spec.stable == old(spec.stable)
      ensures ok ==> phase == Finish && lh == [] && HomeBlocks(g, disk) == spec.stable == spec.cur
      ensures ok ==> old(|lh|) == 0 || old(|lh|) < nbuf
      ensures old(OnlyHeld(p, {})) && (old(|lh|) == 0 || old(|lh|) < nbuf) ==> ok && OnlyHeld(p, {})
    {
      hide Valid;
      if |lh| > 0 {
        ok := WriteLogBlocks(p);
        if ok { ok := CommitHeader(p); }
        if ok { ok := InstallTrans(p); }
        if ok { ok := EraseHeader(p); }
      } else {
        NothingLogged();
        ok := true;
      }
      if ok { CommitDone(); }
    }

    lemma NothingLogged()
      requires Valid() && phase == Finish
      ensures lh == []
    {
      ValidInv();
    }

    /** end_op after commit: begin_op may start operations again. */
    method FinishCommit()
      requires Valid() && phase == Finish
      modifies `committing, `phase, `hist, `spec
      ensures Valid() && spec == old(spec) && hist == old(hist) + [EvFinish] && phase == Normal && !committing
    {
      hide Replay, Lists, Ranked;
      ValidSized();
      committing := false;
      phase := Normal;
      Record(old(Now()), EvFinish);
    }

    /** end_op.  The last operation commits for all of them; if commit stops, begin_op stays shut. */
    method EndOp(p: Pid) returns (ok: bool)
      requires Valid() && p !in passed && p in ops && forall i :: i in touched ==> !Owns(Now(), p, i)
      modifies `disk, `bufs, `order, `lh, `outstanding, `committing, `ops, `phase, `committer, `hist, `spec
      ensures Valid() && old(hist) <= hist && spec.cur == old(spec.cur)
      ensures outstanding + 1 == old(outstanding) && ops == old(ops) - {p}
      ensures old(outstanding) > 1 ==>
        ok && lh == old(lh) && disk == old(disk) && bufs == old(bufs) && spec == old(spec)
      ensures (committing <==> !ok) && (ok ==> phase == Normal)
      ensures old(outstanding) == 1 && ok ==> lh == [] && HomeBlocks(g, disk) == spec.stable == spec.cur
      ensures old(outstanding) == 1 && ok ==> old(|lh|) == 0 || old(|lh|) < nbuf
      ensures old(OnlyHeld(p, {})) && (old(|lh|) == 0 || old(|lh|) < nbuf) ==> ok && OnlyHeld(p, {})
    {
      hide Valid, HomeBlocks;
      ok := true;
      var doCommit := LeaveOp(p);
      if doCommit {
        ok := Commit(p);
        if ok { FinishCommit(); }
      }
    }

    // -------------------------------------------------------------- a whole operation

    /** A process outside operations has changed no buffer that is still to be logged. */
    lemma NoneTouchedBy(p: Pid)
      requires Valid() && p !in ops
      ensures forall i :: i in touched ==> i < |bufs| && bufs[i].owner.Some? && bufs[i].owner != Some(p)
    {
      ValidInv();
    }

    /** Change, log_write and brelse of a locked buffer inside an operation; false is the size panic. */
    method WriteLocked(p: Pid, slot: nat, data: Block) returns (ok: bool)
      requires Valid() && p !in passed && p in ops && Owns(Now(), p, slot) && bufs[slot].valid && slot !in touched
      requires Home(g, bufs[slot].blockno) && |data| == WORDS && (bufs[slot].blockno in lh || ops[p] > 0)
      modifies `bufs, `order, `lh, `ops, `touched, `passed, `hist, `spec
      ensures Valid() && passed == old(passed) && old(hist) <= hist
      ensures touched == old(touched) + {slot} - if ok then {slot} else {}
      ensures spec == old(spec).(cur := old(spec.cur)[old(bufs[slot].blockno) := data])
      ensures ok <==> !(|old(lh)| >= LOGSIZE || |old(lh)| >= g.nlog - 1)
      ensures ok ==> lh == Logged(old(lh), old(bufs[slot].blockno))
      ensures ok ==> ops == Charged(old(ops), p, old(bufs[slot].blockno) in old(lh))
      ensures ok ==> forall i :: 0 <= i < |bufs| && i != slot ==> bufs[i] == old(bufs[i])
      ensures ok ==> |bufs| == |old(bufs)| && bufs[slot].owner == None
      ensures ok && old(OnlyHeld(p, {slot})) ==> OnlyHeld(p, {})
    {
      hide Replay, Lists, Ranked, MoveToFront, HomeBlocks, Logged, Charged;
      Modify(p, slot, data);
      ok := LogWrite(p, slot);
      if ok {
        BRelse(p, slot);
      }
    }

    /** bread and the above; true if nothing panics or sleeps. */
    method WriteHeld(p: Pid, bn: nat, data: Block) returns (ok: bool)
      requires Valid() && p !in passed && p in ops && (bn in lh || ops[p] > 0) && Home(g, bn) && |data| == WORDS
      requires forall i :: i in touched ==> i < |bufs| && bufs[i].owner.Some? && bufs[i].owner != Some(p)
      modifies `bufs, `order, `lh, `ops, `touched, `passed, `hist, `spec
      ensures Valid() && passed == old(passed) && old(hist) <= hist && spec.stable == old(spec.stable)
      ensures ok ==> spec.cur == old(spec.cur)[bn := data] && lh == Logged(old(lh), bn)
      ensures ok ==> ops == Charged(old(ops), p, bn in old(lh))
      ensures ok ==> forall i :: i in touched ==> i < |bufs| && bufs[i].owner.Some? && bufs[i].owner != Some(p)
      ensures ok && old(OnlyHeld(p, {})) ==> OnlyHeld(p, {})
      ensures old(OnlyHeld(p, {}) && |lh| < nbuf && |lh| < LOGSIZE && |lh| < g.nlog - 1) ==> ok
    {
      hide Valid, NoBuffer, OnlyHeld, Logged, Charged;
      if OnlyHeld(p, {}) && |lh| < nbuf { IdleFree(p, bn); }
      var r := Fetch(p, bn, {});
      if r.None? {
        return false;
      }
      assert {} + {r.value} == {r.value};
      ok := WriteLocked(p, r.value, data);
    }

    lemma IdleFree(p: Pid, bn: nat)
      requires Valid() && OnlyHeld(p, {}) && |lh| < nbuf
      ensures !NoBuffer(bn)
    {
      IdleHasFree(p);
    }

    /** The writes of an operation, one block after the other. */
    method WriteAll(p: Pid, ws: seq<Change>) returns (ok: bool)
      requires Valid() && p !in passed && p in ops && ops[p] == MAXOPBLOCKS && FitsOp(g, ws)
      requires forall i :: i in touched ==> i < |bufs| && bufs[i].owner.Some? && bufs[i].owner != Some(p)
      modifies `bufs, `order, `lh, `ops, `touched, `passed, `hist, `spec
      ensures Valid() && passed == old(passed) && old(hist) <= hist && spec.stable == old(spec.stable)
      ensures ok ==> spec.cur == Stored(old(spec.cur), ws) && ops.Keys == old(ops.Keys) && ops - {p} == old(ops) - {p}
      ensures ok ==> |lh| <= old(|lh|) + |BlocksOf(ws)| && forall i :: i in touched ==> !Owns(Now(), p, i)
      ensures ok && old(OnlyHeld(p, {})) ==> OnlyHeld(p, {})
      ensures old(OnlyHeld(p, {}) && Room(g, |lh|, nbuf, ws)) ==> ok
    {
      hide Valid, OnlyHeld, Logged, Charged, BlocksOf, Room;
      var n := 0;
      assert ws[..0] == [];
      while n < |ws|
        invariant Valid() && n <= |ws| && passed == old(passed) && old(hist) <= hist && spec.stable == old(spec.stable)
        invariant forall i :: i in touched ==> i < |bufs| && bufs[i].owner.Some? && bufs[i].owner != Some(p)
        invariant spec.cur == Stored(old(spec.cur), ws[..n]) && Spent(old(lh), old(ops), lh, ops, p, ws, n)
        invariant old(OnlyHeld(p, {})) ==> OnlyHeld(p, {})
      {
        SpentNext(g, old(lh), old(ops), lh, ops, p, ws, n);
        if Room(g, |old(lh)|, nbuf, ws) { RoomLeft(g, |old(lh)|, nbuf, ws, n); }
        ok := WriteHeld(p, ws[n].bn, ws[n].data);
        if !ok {
          return;
        }
        StoredNext(old(spec.cur), ws, n);
        n := n + 1;
      }
      assert ws[..n] == ws;
      ok := true;
    }

    /** One operation: begin_op, the writes, end_op.  On success readers see what was written; and if this was the
        only operation, the home blocks hold it for good. */
    method Transact(p: Pid, ws: seq<Change>) returns (ok: bool)
      requires Valid() && p !in passed && p !in ops && !Recovering(Now()) && FitsOp(g, ws)
      modifies `disk, `bufs, `order, `lh, `outstanding, `committing, `ops, `touched, `passed, `phase, `committer
      modifies `hist, `spec
      ensures Valid() && old(hist) <= hist
      ensures ok ==> spec.cur == Stored(old(spec.cur), ws) && ops == old(ops) && outstanding == old(outstanding)
      ensures ok ==> passed == old(passed) && phase == Normal
      ensures ok && old(outstanding) == 0 ==> HomeBlocks(g, disk) == spec.stable == spec.cur
      ensures ok && old(outstanding) > 0 ==> spec.stable == old(spec.stable)
      ensures ok && old(outstanding) == 0 ==> lh == []
      ensures old(OnlyHeld(p, {}) && !committing && MayBegin() && Room(g, |lh|, nbuf, ws)) ==> ok && OnlyHeld(p, {})
    {
      hide Replay, Lists, Ranked, HomeBlocks, BlocksOf, Stored;
      NoneTouchedBy(p);
      ok := BeginOp(p);
      if ok { ok := WriteAll(p, ws); }
      if ok {
        ok := EndOp(p);
        assert ops == old(ops);
      }
    }

    /** begin_op's test of the space. */
    ghost predicate MayBegin()
      reads this
    {
      |lh| + (outstanding + 1) * MAXOPBLOCKS <= LOGSIZE
    }

    lemma CommitDone()
      requires Valid() && phase == Finish
      ensures HomeBlocks(g, disk) == spec.stable == spec.cur
    {
      ValidInv();
      SpecIsAbs();
      FinishedImages(g, Now());
    }

    /** recover_from_log at boot. */
    method RecoverFromLog(p: Pid) returns (ok: bool)
      requires Valid() && phase == ReadHead && committer == p && OnlyHeld(p, {}) && 2 <= nbuf
      modifies `disk, `bufs, `order, `lh, `phase, `hist, `spec
      ensures Valid() && old(hist) <= hist && spec == old(spec)
      ensures ok && phase == Normal && lh == [] && OnlyHeld(p, {})
      ensures spec == old(spec) && HomeBlocks(g, disk) == spec.stable
    {
      NoOneTouched();
      ok := ReadLogHeader(p);
      if |lh| > 0 {
        ok := InstallTrans(p);
      }
      ok := EraseHeader(p);
      RecoverDone();
    }

    lemma RecoverDone()
      requires Valid() && phase == Normal && lh == [] && touched == {} && ops == map[]
      ensures HomeBlocks(g, disk) == spec.stable
    {
      ValidInv();
      SpecIsAbs();
      RecoveryDone(g, Now());
    }

    method LoadHeader(hb: nat)
      requires Valid() && Enabled(g, Now(), EvReadHead(hb))
      modifies `lh, `phase, `hist, `spec
      ensures Valid() && spec == old(spec) && hist == old(hist) + [EvReadHead(hb)]
      ensures HeadOk(bufs[hb].data) && lh == DecodeHead(bufs[hb].data)
      ensures phase == if |lh| == 0 then ClearHead(true) else Install(0, true)
    {
      hide Replay, Lists, Ranked;
      ValidSized();
      lh := ReadHeader(bufs[hb].data);
      phase := if |lh| == 0 then ClearHead(true) else Install(0, true);
      Record(old(Now()), EvReadHead(hb));
    }

    /** read_head. */
    method ReadLogHeader(p: Pid) returns (ok: bool)
      requires Valid() && phase == ReadHead && committer == p && OnlyHeld(p, {}) && 2 <= nbuf
      modifies `bufs, `order, `lh, `phase, `hist, `spec
      ensures Valid() && old(hist) <= hist && spec == old(spec)
      ensures ok && OnlyHeld(p, {}) && |lh| <= LOGSIZE
      ensures g.start < |disk| && HeadOk(disk[g.start]) && lh == DecodeHead(disk[g.start])
      ensures phase == if |lh| == 0 then ClearHead(true) else Install(0, true)
    {
      hide Valid, NoBuffer;
      HeaderOnDisk();
      NoOneTouched();
      HeaderEmpty();
      var x := FetchFirst(p, g.start);
      HeaderReadable(x.value);
      LoadHeader(x.value);
      ReleaseHeader(p, x.value);
      return true;
    }

    lemma HeaderEmpty()
      requires Valid() && phase == ReadHead
      ensures lh == []
    {
      ValidInv();
    }

    lemma HeaderReadable(hb: nat)
      requires Valid() && phase == ReadHead && hb < |bufs| && bufs[hb].valid && bufs[hb].blockno == g.start
      ensures HeadOk(bufs[hb].data) && g.start < |disk| && bufs[hb].data == disk[g.start]
    {
      ValidInv();
      LogBlockClean(g, Now(), hb);
    }
  }
}
