/** When log_write's size panic is met, when the header leaves the log area, when commit runs out of buffers, and
    when that costs a transaction its atomicity.  Three operations log blocks in turn; log_write tests the size
    before it takes log.lock, so several may pass the test before any of them appends. */
module LogOverflow {
  import opened Common
  import opened Journal
  import opened JournalInvariant
  import opened JournalRefinement
  import opened JournalAtomicity
  import opened LogBounds

  // ---------------------------------------------------------------- runs

  ghost predicate Reaches(g: Geometry, s: State, t: State) {
    exists es :: Runs(g, s, es) && After(g, s, es) == t
  }

  /** No crash and no commit point; begin_op only if `begins`. */
  predicate Plain(e: Event, begins: bool) { !e.EvCrash? && !e.EvCommitHead? && (begins || !e.EvBegin?) }

  ghost predicate PlainRun(g: Geometry, s: State, es: seq<Event>, t: State, begins: bool) {
    Runs(g, s, es) && After(g, s, es) == t && forall i :: 0 <= i < |es| ==> Plain(es[i], begins)
  }

  ghost predicate Arrives(g: Geometry, s: State, t: State, begins: bool) {
    exists es :: PlainRun(g, s, es, t, begins)
  }

  lemma ArriveNone(g: Geometry, s: State, begins: bool)
    ensures Arrives(g, s, s, begins)
  {
    assert PlainRun(g, s, [], s, begins);
  }

  lemma ArriveStep(g: Geometry, s: State, t: State, e: Event, begins: bool)
    requires Arrives(g, s, t, begins) && Sized(g, t) && Enabled(g, t, e) && Plain(e, begins)
    ensures Arrives(g, s, Apply(g, t, e), begins)
  {
    var es :| PlainRun(g, s, es, t, begins);
    RunsSnoc(g, s, es, e);
    assert PlainRun(g, s, es + [e], Apply(g, t, e), begins);
  }

  lemma ArriveMore(g: Geometry, s: State, t: State)
    requires Arrives(g, s, t, false)
    ensures Arrives(g, s, t, true)
  {
    var es :| PlainRun(g, s, es, t, false);
    forall i | 0 <= i < |es| ensures Plain(es[i], true) { assert Plain(es[i], false); }
    assert PlainRun(g, s, es, t, true);
  }

  lemma ArriveReaches(g: Geometry, s: State, t: State, begins: bool)
    requires Arrives(g, s, t, begins)
    ensures Reaches(g, s, t)
  {
    var es :| PlainRun(g, s, es, t, begins);
  }

  // ---------------------------------------------------------------- bread and brelse

  predicate Idle(b: Buf) { b.refcnt == 0 && b.users == multiset{} && b.owner == None }

  predicate Locked(b: Buf, p: Pid) { b.refcnt == 1 && b.users == multiset{p} && b.owner == Some(p) }

  function Lock(b: Buf, p: Pid): Buf { b.(refcnt := 1, users := multiset{p}, owner := Some(p)) }

  function Unlock(b: Buf): Buf { b.(refcnt := 0, users := multiset{}, owner := None) }

  function WithBuf(s: State, slot: nat, b: Buf): State
    requires slot < |s.bufs|
  {
    s.(bufs := s.bufs[slot := b])
  }

  lemma StillSized(g: Geometry, s: State, slot: nat, b: Buf)
    requires Sized(g, s) && slot < |s.bufs| && |b.data| == WORDS && (b.valid ==> b.dev == 1 && b.blockno < g.disksize)
    ensures Sized(g, WithBuf(s, slot, b))
  {}

  /** bread of a block that is not in the cache, into an idle clean buffer. */
  lemma ReadIn(g: Geometry, s0: State, s: State, p: Pid, bn: nat, slot: nat, begins: bool) returns (t: State)
    requires Arrives(g, s0, s, begins) && Sized(g, s) && p !in s.passed && bn < g.disksize && !Cached(s, 1, bn)
    requires slot < |s.bufs| && Idle(s.bufs[slot]) && !s.bufs[slot].dirty
    ensures Arrives(g, s0, t, begins) && Sized(g, t)
    ensures t == WithBuf(s, slot, Buf(1, bn, true, false, 1, multiset{p}, Some(p), s.disk[bn]))
  {
    hide Arrives, Sized;
    SizedParts(g, s);
    var b1 := Buf(1, bn, false, false, 1, multiset{p}, None, s.bufs[slot].data);
    ArriveStep(g, s0, s, EvGet(p, 1, bn, slot), begins);
    var s1 := WithBuf(s, slot, b1);
    StillSized(g, s, slot, b1);
    assert s1 == Apply(g, s, EvGet(p, 1, bn, slot));
    ArriveStep(g, s0, s1, EvLock(p, slot), begins);
    var s2 := WithBuf(s, slot, b1.(owner := Some(p)));
    assert s2 == Apply(g, s1, EvLock(p, slot));
    StillSized(g, s, slot, b1.(owner := Some(p)));
    ArriveStep(g, s0, s2, EvFill(p, slot), begins);
    t := Apply(g, s2, EvFill(p, slot));
    StillSized(g, s, slot, t.bufs[slot]);
    assert t == WithBuf(s, slot, Buf(1, bn, true, false, 1, multiset{p}, Some(p), s.disk[bn]));
  }

  /** bread of a block that is in the cache. */
  lemma Grab(g: Geometry, s0: State, s: State, p: Pid, slot: nat, begins: bool) returns (t: State)
    requires Arrives(g, s0, s, begins) && Sized(g, s) && p !in s.passed
    requires slot < |s.bufs| && Idle(s.bufs[slot]) && s.bufs[slot].valid
    ensures Arrives(g, s0, t, begins) && Sized(g, t) && t == WithBuf(s, slot, Lock(s.bufs[slot], p))
  {
    hide Arrives, Sized;
    SizedParts(g, s);
    var b := s.bufs[slot];
    ArriveStep(g, s0, s, EvGet(p, b.dev, b.blockno, slot), begins);
    var s1 := Apply(g, s, EvGet(p, b.dev, b.blockno, slot));
    assert s1 == WithBuf(s, slot, s1.bufs[slot]);
    StillSized(g, s, slot, s1.bufs[slot]);
    ArriveStep(g, s0, s1, EvLock(p, slot), begins);
    t := Apply(g, s1, EvLock(p, slot));
    assert multiset{} + multiset{p} == multiset{p};
    assert t == WithBuf(s, slot, Lock(b, p));
    StillSized(g, s, slot, t.bufs[slot]);
  }

  /** brelse of a buffer that nobody else uses. */
  lemma Drop(g: Geometry, s0: State, s: State, p: Pid, slot: nat, begins: bool) returns (t: State)
    requires Arrives(g, s0, s, begins) && Sized(g, s) && p !in s.passed && slot !in s.touched
    requires slot < |s.bufs| && Locked(s.bufs[slot], p)
    ensures Arrives(g, s0, t, begins) && Sized(g, t) && t == WithBuf(s, slot, Unlock(s.bufs[slot]))
  {
    hide Arrives, Sized;
    SizedParts(g, s);
    var b := s.bufs[slot];
    ArriveStep(g, s0, s, EvUnlock(p, slot), begins);
    var s1 := Apply(g, s, EvUnlock(p, slot));
    assert s1 == WithBuf(s, slot, b.(owner := None));
    StillSized(g, s, slot, b.(owner := None));
    ArriveStep(g, s0, s1, EvUnref(p, slot), begins);
    t := Apply(g, s1, EvUnref(p, slot));
    assert t == WithBuf(s, slot, Unlock(b));
    StillSized(g, s, slot, Unlock(b));
  }

  lemma SizedParts(g: Geometry, s: State)
    requires Sized(g, s)
    ensures |s.disk| == g.disksize && g.start + g.nlog <= g.disksize && 2 <= g.nlog
    ensures forall i :: 0 <= i < |s.disk| ==> |s.disk[i]| == WORDS
    ensures forall i :: 0 <= i < |s.bufs| ==> |s.bufs[i].data| == WORDS
    ensures forall i :: 0 <= i < |s.bufs| && s.bufs[i].valid ==> s.bufs[i].dev == 1 && s.bufs[i].blockno < g.disksize
  {}

  // ---------------------------------------------------------------- three operations at work

  /** The blocks written: the ones right after the log area. */
  function Target(g: Geometry, i: nat): nat { g.start + g.nlog + i }

  function Logged(g: Geometry, k: nat): (r: seq<nat>)
    ensures |r| == k && forall i :: 0 <= i < k ==> r[i] == Target(g, i)
  {
    seq(k, i requires 0 <= i < k => Target(g, i))
  }

  /** The process that logs block i, in the buffer in slot i. */
  function Writer(i: nat): Pid { i % MAXOPS }

  /** Budget left to operation p when k blocks are logged. */
  function Left(p: nat, k: nat): nat {
    var used := (k + MAXOPS - 1 - p) / MAXOPS;
    if p < MAXOPS && used < MAXOPBLOCKS then MAXOPBLOCKS - used else 0
  }

  function Budgets(k: nat): map<Pid, nat> { map[0 := Left(0, k), 1 := Left(1, k), 2 := Left(2, k)] }

  /** The processes with blocks b to c - 1 have passed the test. */
  function Tests(b: nat, c: nat): map<Pid, nat> {
    if b >= c then map[] else Tests(b, c - 1)[Writer(c - 1) := c - 1]
  }

  /** A buffer that holds nothing but the header or an earlier block of the log. */
  predicate Spare(g: Geometry, b: Buf, upto: nat) {
    Idle(b) && !b.dirty && !(b.dev == 1 && b.blockno > g.start + upto)
  }

  predicate Holds(g: Geometry, b: Buf, i: nat) { b.valid && b.dev == 1 && b.blockno == Target(g, i) }

  /** A disk with blocks to write, and at least the buffers of param.h. */
  predicate Room(g: Geometry, s: State) { Target(g, LOGSIZE) <= g.disksize && NBUF <= |s.bufs| }

  /** Slots 0 to d - 1 hold the first d blocks.  Up to a they are logged and released; up to b logged; up to c past
      the test; up to d locked.  The rest is spare. */
  predicate Slots(g: Geometry, s: State, a: nat, b: nat, d: nat) {
    && a <= d <= |s.bufs|
    && (forall i :: 0 <= i < d ==> Holds(g, s.bufs[i], i) && s.bufs[i].dirty == (i < b))
    && (forall i :: 0 <= i < a ==> Idle(s.bufs[i]))
    && (forall i :: a <= i < d ==> Locked(s.bufs[i], Writer(i)))
    && (forall i :: d <= i < |s.bufs| ==> Spare(g, s.bufs[i], 0))
  }

  predicate At(g: Geometry, s: State, a: nat, b: nat, c: nat, d: nat) {
    && Sized(g, s) && Room(g, s) && a <= b <= c <= d <= LOGSIZE && d <= a + MAXOPS
    && s.phase == Normal && s.lh == Logged(g, b) && s.outstanding == MAXOPS
    && s.ops == Budgets(b) && s.passed == Tests(b, c) && (forall i :: i in s.touched ==> b <= i < d)
    && Slots(g, s, a, b, d)
  }

  /** The contents of the first d buffers and the disk. */
  predicate SameData(s: State, t: State, d: nat) {
    && t.disk == s.disk && |t.bufs| == |s.bufs|
    && forall i :: 0 <= i < d && i < |s.bufs| ==> t.bufs[i].data == s.bufs[i].data
  }

  lemma TestsAre(b: nat, c: nat, p: Pid)
    requires b <= c <= b + MAXOPS
    ensures p in Tests(b, c) <==> exists i :: b <= i < c && Writer(i) == p
    ensures p in Tests(b, c) ==> b <= Tests(b, c)[p] < c && Writer(Tests(b, c)[p]) == p
  {
    if b < c { TestsAre(b, c - 1, p); }
  }

  lemma TestsDrop(b: nat, c: nat)
    requires b < c <= b + MAXOPS
    ensures Writer(b) in Tests(b, c) && Tests(b, c)[Writer(b)] == b && Tests(b, c) - {Writer(b)} == Tests(b + 1, c)
  {
    hide Writer;
    if b + 1 < c {
      OtherWriters(b, c - 1);
      TestsDrop(b, c - 1);
    }
  }

  lemma OtherWriters(i: nat, j: nat)
    requires i < j < i + MAXOPS
    ensures Writer(i) != Writer(j)
  {}

  /** The next block, read by its writer. */
  lemma Fetch(g: Geometry, s0: State, s: State, a: nat, b: nat, c: nat, d: nat) returns (t: State)
    requires Arrives(g, s0, s, true) && At(g, s, a, b, c, d) && d < LOGSIZE && d < a + MAXOPS
    ensures Arrives(g, s0, t, true) && At(g, t, a, b, c, d + 1) && SameData(s, t, d)
  {
    hide Arrives, Tests, Sized, Budgets;
    Waiting(a, b, c, d);
    SizedParts(g, s);
    NotCached(g, s, a, b, d);
    t := ReadIn(g, s0, s, Writer(d), Target(g, d), d, true);
  }

  lemma NotCached(g: Geometry, s: State, a: nat, b: nat, d: nat)
    requires Slots(g, s, a, b, d) && g.nlog > 0
    ensures !Cached(s, 1, Target(g, d))
  {}

  lemma Waiting(a: nat, b: nat, c: nat, d: nat)
    requires a <= b <= c <= d < a + MAXOPS
    ensures Writer(d) !in Tests(b, c)
  {
    TestsAre(b, c, Writer(d));
    if i :| b <= i < c && Writer(i) == Writer(d) { OtherWriters(i, d); }
  }

  /** The writer of the last block changes it. */
  lemma Change(g: Geometry, s0: State, s: State, a: nat, b: nat, c: nat, d: nat, data: Block) returns (t: State)
    requires Arrives(g, s0, s, true) && At(g, s, a, b, c, d + 1) && c <= d && |data| == WORDS
    ensures Arrives(g, s0, t, true) && At(g, t, a, b, c, d + 1) && SameData(s, t, d) && t.bufs[d].data == data
  {
    hide Arrives, Tests;
    var p := Writer(d);
    Waiting(a, b, c, d);
    TargetHome(g, s, d);
    ArriveStep(g, s0, s, EvModify(p, d, data), true);
    t := Apply(g, s, EvModify(p, d, data));
  }

  lemma TargetHome(g: Geometry, s: State, i: nat)
    requires Room(g, s) && i < LOGSIZE
    ensures Home(g, Target(g, i))
  {}

  /** The next writer passes the test. */
  lemma Pass(g: Geometry, s0: State, s: State, a: nat, b: nat, c: nat, d: nat) returns (t: State)
    requires Arrives(g, s0, s, true) && At(g, s, a, b, c, d) && c < d && b < g.nlog - 1 && b < LOGSIZE
    ensures Arrives(g, s0, t, true) && At(g, t, a, b, c + 1, d) && SameData(s, t, d)
  {
    hide Arrives;
    var p := Writer(c);
    Waiting(a, b, c, c);
    TargetHome(g, s, c);
    StillBudget(b, c);
    ArriveStep(g, s0, s, EvLogTest(p, c), true);
    t := Apply(g, s, EvLogTest(p, c));
  }

  lemma StillBudget(b: nat, c: nat)
    requires b <= c < LOGSIZE && c < b + MAXOPS
    ensures Writer(c) < MAXOPS && Left(Writer(c), b) > 0
  {}

  /** The first writer that has passed appends. */
  lemma Append(g: Geometry, s0: State, s: State, a: nat, b: nat, c: nat, d: nat) returns (t: State)
    requires Arrives(g, s0, s, true) && At(g, s, a, b, c, d) && b < c
    ensures Arrives(g, s0, t, true) && At(g, t, a, b + 1, c, d) && SameData(s, t, d)
  {
    AppendEnabled(g, s, a, b, c, d);
    hide Arrives, At, Apply, Enabled;
    var p := Writer(b);
    ArriveStep(g, s0, s, EvLogWrite(p, b), true);
    AppendIs(g, s, p, b);
    t := Apply(g, s, EvLogWrite(p, b));
    AppendAt(g, s, t, a, b, c, d);
  }

  lemma AppendEnabled(g: Geometry, s: State, a: nat, b: nat, c: nat, d: nat)
    requires At(g, s, a, b, c, d) && b < c
    ensures Sized(g, s) && Enabled(g, s, EvLogWrite(Writer(b), b))
    ensures s.bufs[b].blockno == Target(g, b) && Target(g, b) !in s.lh
  {
    hide Left, Home;
    TestsDrop(b, c);
    TargetHome(g, s, b);
    StillBudget(b, b);
  }

  lemma AppendAt(g: Geometry, s: State, t: State, a: nat, b: nat, c: nat, d: nat)
    requires At(g, s, a, b, c, d) && b < c && Writer(b) in s.ops && s.ops[Writer(b)] > 0
    requires t == s.(bufs := s.bufs[b := s.bufs[b].(dirty := true)], touched := s.touched - {b},
      passed := s.passed - {Writer(b)}, lh := s.lh + [Target(g, b)], ops := s.ops[Writer(b) := s.ops[Writer(b)] - 1])
    ensures At(g, t, a, b + 1, c, d) && SameData(s, t, d)
  {
    hide Left, Home, Writer;
    TestsDrop(b, c);
    assert t.lh == Logged(g, b + 1);
    BudgetsNext(b, s.ops, t.ops);
  }

  lemma AppendIs(g: Geometry, s: State, p: Pid, slot: nat)
    requires Sized(g, s) && Enabled(g, s, EvLogWrite(p, slot)) && s.bufs[slot].blockno !in s.lh
    ensures p in s.ops && s.ops[p] > 0
    ensures Apply(g, s, EvLogWrite(p, slot)) ==
      s.(bufs := s.bufs[slot := s.bufs[slot].(dirty := true)], touched := s.touched - {slot},
         passed := s.passed - {p}, lh := s.lh + [s.bufs[slot].blockno], ops := s.ops[p := s.ops[p] - 1])
  {}

  lemma BudgetsNext(b: nat, ops: map<Pid, nat>, ops': map<Pid, nat>)
    requires b < LOGSIZE && ops == Budgets(b) && Writer(b) in ops && ops' == ops[Writer(b) := ops[Writer(b)] - 1]
    ensures ops' == Budgets(b + 1)
  {
    hide Left;
    LeftNext(0, b);
    LeftNext(1, b);
    LeftNext(2, b);
  }

  lemma LeftNext(p: nat, b: nat)
    requires p < MAXOPS && b < LOGSIZE
    ensures Left(p, b + 1) == Left(p, b) - (if Writer(b) == p then 1 else 0)
  {
    var q, r := b / 3, b % 3;
    assert b == 3 * q + r && (b + 2 - p) / 3 == q + (r + 2 - p) / 3 && (b + 3 - p) / 3 == q + (r + 3 - p) / 3;
  }

  /** The first writer that has logged its block releases it. */
  lemma Release(g: Geometry, s0: State, s: State, a: nat, b: nat, c: nat, d: nat) returns (t: State)
    requires Arrives(g, s0, s, true) && At(g, s, a, b, c, d) && a < b
    ensures Arrives(g, s0, t, true) && At(g, t, a + 1, b, c, d) && SameData(s, t, d)
  {
    hide Arrives, Sized, Tests, Budgets;
    NotTesting(a, b, c);
    t := Drop(g, s0, s, Writer(a), a, true);
  }

  lemma NotTesting(a: nat, b: nat, c: nat)
    requires a < b <= c <= a + MAXOPS
    ensures Writer(a) !in Tests(b, c)
  {
    TestsAre(b, c, Writer(a));
    if i :| b <= i < c && Writer(i) == Writer(a) { OtherWriters(a, i); }
  }

  /** k blocks logged one after the other, with nobody between test and append. */
  lemma {:induction false} Fill(g: Geometry, s0: State, s: State, k: nat) returns (t: State)
    requires Arrives(g, s0, s, true) && At(g, s, 0, 0, 0, 0) && k <= LOGSIZE && k <= g.nlog - 1
    ensures Arrives(g, s0, t, true) && At(g, t, k, k, k, k) && t.disk == s.disk && |t.bufs| == |s.bufs|
  {
    hide Arrives, At;
    if k == 0 {
      t := s;
    } else {
      var t1 := Fill(g, s0, s, k - 1);
      var t2 := Fetch(g, s0, t1, k - 1, k - 1, k - 1, k - 1);
      var t3 := Pass(g, s0, t2, k - 1, k - 1, k - 1, k);
      var t4 := Append(g, s0, t3, k - 1, k - 1, k, k);
      t := Release(g, s0, t4, k - 1, k, k, k);
    }
  }

  // ---------------------------------------------------------------- from boot

  /** Nobody is running and nothing is logged. */
  predicate Quiet(g: Geometry, s: State) {
    && Sized(g, s) && s.phase == Normal && s.lh == [] && s.touched == {} && s.ops == map[] && s.outstanding == 0
    && s.passed == map[] && (forall i :: 0 <= i < |s.bufs| ==> Spare(g, s.bufs[i], 0))
  }

  predicate OnlyHeader(g: Geometry, s: State, t: State) {
    && |t.disk| == |s.disk| && |t.bufs| == |s.bufs|
    && forall i :: 0 <= i < |s.disk| && i != g.start ==> t.disk[i] == s.disk[i]
  }

  /** recover_from_log on an empty log. */
  lemma Recovered(g: Geometry, s0: State) returns (t: State)
    requires Boots(g, s0) && DecodeHead(s0.disk[g.start]) == [] && |s0.bufs| > 0
    ensures Arrives(g, s0, t, false) && Quiet(g, t) && OnlyHeader(g, s0, t)
  {
    hide Arrives;
    ArriveNone(g, s0, false);
    assert !Cached(s0, 1, g.start);
    var s1 := ReadIn(g, s0, s0, s0.committer, g.start, 0, false);
    t := HeaderCleared(g, s0, s1, s0.committer);
  }

  lemma HeaderCleared(g: Geometry, s0: State, s: State, p: Pid) returns (t: State)
    requires Arrives(g, s0, s, false) && Sized(g, s) && s.phase == ReadHead && s.committer == p
    requires s.touched == {} && s.ops == map[] && s.outstanding == 0 && s.passed == map[] && |s.bufs| > 0
    requires forall i :: 1 <= i < |s.bufs| ==> Spare(g, s.bufs[i], 0)
    requires s.bufs[0].valid && !s.bufs[0].dirty && Caches(s.bufs[0], 1, g.start) && Locked(s.bufs[0], p)
    requires HeadOk(s.bufs[0].data) && DecodeHead(s.bufs[0].data) == []
    ensures Arrives(g, s0, t, false) && Quiet(g, t) && OnlyHeader(g, s, t)
  {
    hide Arrives;
    ArriveStep(g, s0, s, EvReadHead(0), false);
    var s1 := Apply(g, s, EvReadHead(0));
    ArriveStep(g, s0, s1, EvClearHead(0), false);
    t := Drop(g, s0, Apply(g, s1, EvClearHead(0)), p, 0, false);
  }

  lemma ThreeBegin(g: Geometry, s0: State, s: State) returns (t: State)
    requires Arrives(g, s0, s, true) && Quiet(g, s) && Room(g, s)
    ensures Arrives(g, s0, t, true) && At(g, t, 0, 0, 0, 0) && t.disk == s.disk && |t.bufs| == |s.bufs|
  {
    hide Arrives;
    ArriveStep(g, s0, s, EvBegin(0), true);
    var s1 := Apply(g, s, EvBegin(0));
    ArriveStep(g, s0, s1, EvBegin(1), true);
    var s2 := Apply(g, s1, EvBegin(1));
    ArriveStep(g, s0, s2, EvBegin(2), true);
    t := Apply(g, s2, EvBegin(2));
    assert t.lh == Logged(g, 0);
  }

  /** Power-on with an empty log, on a machine with room for the runs below. */
  ghost predicate Fresh(g: Geometry, s: State) {
    Boots(g, s) && DecodeHead(s.disk[g.start]) == [] && Room(g, s)
  }

  lemma FilledReached(g: Geometry, s: State, k: nat) returns (t: State)
    requires Fresh(g, s) && k <= LOGSIZE && k <= g.nlog - 1
    ensures Arrives(g, s, t, true) && At(g, t, k, k, k, k) && OnlyHeader(g, s, t)
  {
    hide Arrives, At;
    var t0 := Recovered(g, s);
    ArriveMore(g, s, t0);
    var t1 := ThreeBegin(g, s, t0);
    t := Fill(g, s, t1, k);
  }

  // ---------------------------------------------------------------- the size panic

  /** log_write by process p on the buffer it holds in slot, of a block logged already or within its budget,
      meets the size panic. */
  predicate Panics(g: Geometry, s: State, p: Pid, slot: nat) { p !in s.passed && MayLog(g, s, p, slot) && TooBig(g, s) }

  predicate Absorbs(s: State, slot: nat) { slot < |s.bufs| && s.bufs[slot].blockno in s.lh }

  lemma AppendRun(g: Geometry, s: State) returns (t: State, p: Pid, slot: nat)
    requires Fresh(g, s) && g.nlog <= LOGSIZE
    ensures Reaches(g, s, t) && Panics(g, t, p, slot) && !Absorbs(t, slot)
  {
    hide Arrives, Reaches;
    slot := g.nlog - 1;
    p := Writer(slot);
    var t1 := FilledReached(g, s, slot);
    t := Fetch(g, s, t1, slot, slot, slot, slot);
    TargetHome(g, t, slot);
    StillBudget(slot, slot);
    ArriveReaches(g, s, t, true);
  }

  /** The size test comes before the scan, so a block that is logged already panics as well. */
  lemma AbsorbRun(g: Geometry, s: State) returns (t: State)
    requires Fresh(g, s)
    ensures Reaches(g, s, t) && Panics(g, t, 0, 0) && Absorbs(t, 0)
  {
    hide Arrives, Reaches;
    var k := if g.nlog <= LOGSIZE then g.nlog - 1 else LOGSIZE;
    var t1 := FilledReached(g, s, k);
    TargetHome(g, t1, 0);
    assert Holds(g, t1.bufs[0], 0) && Idle(t1.bufs[0]);
    t := Grab(g, s, t1, 0, 0, true);
    assert t.lh[0] == Target(g, 0);
    ArriveReaches(g, s, t, true);
  }

  ghost predicate CanPanic(g: Geometry, s: State, absorbing: bool) {
    exists t: State, p: Pid, slot: nat :: Reaches(g, s, t) && Panics(g, t, p, slot) && Absorbs(t, slot) == absorbing
  }

  /** A log_write that appends, by an operation with budget left, can panic exactly when nlog is at most
      LOGSIZE, as mkfs lays it out.  One that absorbs can panic whatever nlog is. */
  lemma PanicExactly(g: Geometry, s: State)
    requires Fresh(g, s)
    ensures CanPanic(g, s, false) <==> g.nlog <= 30
    ensures CanPanic(g, s, true)
  {
    hide Reaches, Panics;
    if g.nlog <= LOGSIZE {
      var t, p, slot := AppendRun(g, s);
      assert CanPanic(g, s, false);
    } else if CanPanic(g, s, false) {
      var t: State, p: Pid, slot: nat :| Reaches(g, s, t) && Panics(g, t, p, slot) && Absorbs(t, slot) == false;
      NoAppendPanic(g, s, t, p, slot);
    }
    var t := AbsorbRun(g, s);
    assert CanPanic(g, s, true);
  }

  lemma NoAppendPanic(g: Geometry, s: State, t: State, p: Pid, slot: nat)
    requires Boots(g, s) && g.nlog > LOGSIZE && Reaches(g, s, t) && Panics(g, t, p, slot)
    ensures Absorbs(t, slot)
  {
    BootInv(g, s);
    var es :| Runs(g, s, es) && After(g, s, es) == t;
    SizePanic(g, s, es, p, t.bufs[slot].blockno);
  }

  // ---------------------------------------------------------------- the header and the log area

  /** Two operations pass the test with one entry left, and both append. */
  lemma OverfullRun(g: Geometry, s: State, data: Block) returns (t: State)
    requires Fresh(g, s) && g.nlog <= LOGSIZE && |data| == WORDS
    ensures Arrives(g, s, t, true) && At(g, t, g.nlog, g.nlog, g.nlog, g.nlog) && OnlyHeader(g, s, t)
    ensures t.bufs[g.nlog - 1].data == data
  {
    hide Arrives, At;
    var k: nat := g.nlog - 2;
    var t0 := FilledReached(g, s, k);
    var t1 := Fetch(g, s, t0, k, k, k, k);
    var t2 := Fetch(g, s, t1, k, k, k, k + 1);
    var t3 := Change(g, s, t2, k, k, k, k + 1, data);
    var t4 := Pass(g, s, t3, k, k, k, k + 2);
    var t5 := Pass(g, s, t4, k, k, k + 1, k + 2);
    var t6 := Append(g, s, t5, k, k, k + 2, k + 2);
    var t7 := Append(g, s, t6, k, k + 1, k + 2, k + 2);
    var t8 := Release(g, s, t7, k, k + 2, k + 2, k + 2);
    t := Release(g, s, t8, k + 1, k + 2, k + 2, k + 2);
    SlotsOf(g, t3, k, k, k, k + 2);
  }

  lemma SlotsOf(g: Geometry, s: State, a: nat, b: nat, c: nat, d: nat)
    requires At(g, s, a, b, c, d)
    ensures d <= |s.bufs| && |s.lh| == b && Sized(g, s)
  {}

  ghost predicate CanOverflow(g: Geometry, s: State) { exists t :: Reaches(g, s, t) && |t.lh| > g.nlog - 1 }

  /** In every run the header stays inside the log area if and only if nlog is above LOGSIZE. */
  lemma InsideExactly(g: Geometry, s: State)
    requires Fresh(g, s)
    ensures CanOverflow(g, s) <==> g.nlog <= 30
  {
    hide Reaches, Arrives, At;
    if g.nlog <= LOGSIZE {
      var t := OverfullRun(g, s, s.disk[0]);
      SlotsOf(g, t, g.nlog, g.nlog, g.nlog, g.nlog);
      ArriveReaches(g, s, t, true);
    } else if CanOverflow(g, s) {
      var t :| Reaches(g, s, t) && |t.lh| > g.nlog - 1;
      ShortHeader(g, s, t);
    }
  }

  lemma ShortHeader(g: Geometry, s: State, t: State)
    requires Boots(g, s) && Reaches(g, s, t)
    ensures Bounds(g, t) && |t.bufs| == |s.bufs| && |t.lh| <= LOGSIZE && |t.lh| <= g.nlog - 2 + MAXOPS
  {
    var es :| Runs(g, s, es) && After(g, s, es) == t;
    BootBounds(g, s);
    RunBounds(g, s, es);
    BuffersKept(g, s, es);
  }

  lemma {:induction false} BuffersKept(g: Geometry, s: State, es: seq<Event>)
    requires Runs(g, s, es)
    ensures |After(g, s, es).bufs| == |s.bufs|
    decreases |es|
  {
    if es != [] {
      BuffersKept(g, Apply(g, s, es[0]), es[1..]);
    }
  }

  // ---------------------------------------------------------------- buffers for commit

  /** commit has started and every buffer is pinned: bread of the first log block panics. */
  predicate Starved(s: State) {
    s.phase == WriteLog(0) && forall i :: 0 <= i < |s.bufs| ==> s.bufs[i].dirty
  }

  /** commit has started and has copied the first `tail` blocks to the log. */
  predicate Committing(g: Geometry, s: State, n: nat, tail: nat) {
    && Sized(g, s) && 0 < n <= LOGSIZE && tail < n && s.phase == WriteLog(tail) && s.committer == 2
    && s.lh == Logged(g, n) && s.ops == map[] && s.touched == {} && s.passed == map[] && Room(g, s) && n <= |s.bufs|
    && (forall i :: 0 <= i < n ==> Holds(g, s.bufs[i], i) && s.bufs[i].dirty && Idle(s.bufs[i]))
    && (forall i :: n <= i < |s.bufs| ==> Spare(g, s.bufs[i], tail))
  }

  lemma Ended(g: Geometry, s0: State, s: State, p: Pid) returns (t: State)
    requires Arrives(g, s0, s, true) && Sized(g, s) && s.touched == {} && s.passed == map[] && p in s.ops
    requires s.outstanding > 0 && s.phase == Normal
    ensures Arrives(g, s0, t, true) && Sized(g, t)
    ensures t == s.(ops := s.ops - {p}, outstanding := s.outstanding - 1,
      phase := if s.outstanding > 1 then Normal else if |s.lh| > 0 then WriteLog(0) else Finish,
      committer := if s.outstanding > 1 then s.committer else p)
  {
    hide Arrives;
    ArriveStep(g, s0, s, EvEnd(p), true);
    t := Apply(g, s, EvEnd(p));
  }

  /** The three operations end, and the last one commits. */
  lemma ThreeEnd(g: Geometry, s0: State, s: State, n: nat) returns (t: State)
    requires Arrives(g, s0, s, true) && At(g, s, n, n, n, n) && n > 0
    ensures Arrives(g, s0, t, true) && Committing(g, t, n, 0) && SameData(s, t, n)
  {
    hide Arrives, Left;
    assert s.touched == {} && s.passed == map[];
    var s1 := Ended(g, s0, s, 0);
    var s2 := Ended(g, s0, s1, 1);
    t := Ended(g, s0, s2, 2);
  }

  /** Three operations pass the test at 27 entries, and the header gets all 30. */
  lemma StarvedRun(g: Geometry, s: State) returns (t: State)
    requires Fresh(g, s) && g.nlog >= LOGSIZE - 1 && |s.bufs| == NBUF
    ensures Reaches(g, s, t) && Starved(t)
  {
    hide Arrives, At, Reaches;
    var k: nat := LOGSIZE - MAXOPS;
    var t0 := FilledReached(g, s, k);
    var t1 := Fetch(g, s, t0, k, k, k, k);
    var t2 := Fetch(g, s, t1, k, k, k, k + 1);
    var t3 := Fetch(g, s, t2, k, k, k, k + 2);
    var t4 := Pass(g, s, t3, k, k, k, k + 3);
    var t5 := Pass(g, s, t4, k, k, k + 1, k + 3);
    var t6 := Pass(g, s, t5, k, k, k + 2, k + 3);
    var t7 := AllAppend(g, s, t6, k);
    t := ThreeEnd(g, s, t7, k + 3);
    ArriveReaches(g, s, t, true);
  }

  lemma AllAppend(g: Geometry, s0: State, s: State, k: nat) returns (t: State)
    requires Arrives(g, s0, s, true) && At(g, s, k, k, k + 3, k + 3)
    ensures Arrives(g, s0, t, true) && At(g, t, k + 3, k + 3, k + 3, k + 3) && |t.bufs| == |s.bufs|
  {
    hide Arrives, At;
    var t1 := Append(g, s0, s, k, k, k + 3, k + 3);
    var t2 := Append(g, s0, t1, k, k + 1, k + 3, k + 3);
    var t3 := Append(g, s0, t2, k, k + 2, k + 3, k + 3);
    var t4 := Release(g, s0, t3, k, k + 3, k + 3, k + 3);
    var t5 := Release(g, s0, t4, k + 1, k + 3, k + 3, k + 3);
    t := Release(g, s0, t5, k + 2, k + 3, k + 3, k + 3);
  }

  ghost predicate CanStarve(g: Geometry, s: State) { exists t :: Reaches(g, s, t) && Starved(t) }

  /** With NBUF buffers commit can be left without one exactly when nlog is at least LOGSIZE - 1. */
  lemma StarvedExactly(g: Geometry, s: State)
    requires Fresh(g, s) && |s.bufs| == NBUF
    ensures CanStarve(g, s) <==> g.nlog >= 29
  {
    hide Reaches;
    if g.nlog >= LOGSIZE - 1 {
      var t := StarvedRun(g, s);
    } else if CanStarve(g, s) {
      var t :| Reaches(g, s, t) && Starved(t);
      ShortHeader(g, s, t);
      PinnedFew(g, t);
    }
  }

  // ---------------------------------------------------------------- atomicity

  /** bread of the two blocks of a round by the committer, into an unpinned buffer and the pinned one. */
  lemma RoundReads(g: Geometry, s0: State, s: State, n: nat, tail: nat) returns (t: State)
    requires Arrives(g, s0, s, true) && Committing(g, s, n, tail) && tail < g.nlog - 1 && n < |s.bufs|
    ensures Arrives(g, s0, t, true) && Sized(g, t) && Home(g, Target(g, tail)) && !Home(g, g.start + 1 + tail)
    ensures t == s.(bufs := t.bufs) && |t.bufs| == |s.bufs| && t.bufs[tail] == Lock(s.bufs[tail], 2)
    ensures t.bufs[n].valid && t.bufs[n].dev == 1 && t.bufs[n].blockno == g.start + 1 + tail && !t.bufs[n].dirty
    ensures Locked(t.bufs[n], 2) && forall i :: 0 <= i < |s.bufs| && i != n && i != tail ==> t.bufs[i] == s.bufs[i]
  {
    hide Arrives, Sized;
    SizedParts(g, s);
    assert !Cached(s, 1, g.start + 1 + tail);
    TargetHome(g, s, tail);
    var s1 := ReadIn(g, s0, s, 2, g.start + 1 + tail, n, true);
    t := Grab(g, s0, s1, 2, tail, true);
  }

  /** A round of write_log that writes the log area. */
  lemma Round(g: Geometry, s0: State, s: State, n: nat, tail: nat) returns (t: State)
    requires Arrives(g, s0, s, true) && Committing(g, s, n, tail) && tail < g.nlog - 1 && tail + 1 < n < |s.bufs|
    ensures Arrives(g, s0, t, true) && Committing(g, t, n, tail + 1) && |t.bufs| == |s.bufs| && |t.disk| == |s.disk|
    ensures forall i :: 0 <= i < n ==> t.bufs[i].data == s.bufs[i].data
    ensures forall i :: 0 <= i < |s.disk| && i != g.start + 1 + tail ==> t.disk[i] == s.disk[i]
  {
    hide Arrives;
    var s1 := RoundReads(g, s0, s, n, tail);
    ArriveStep(g, s0, s1, EvCopyToLog(n, tail), true);
    var s2 := Apply(g, s1, EvCopyToLog(n, tail));
    CopySized(g, s1, n, tail);
    t := RoundReleases(g, s0, s2, n, tail);
  }

  lemma CopySized(g: Geometry, s: State, to: nat, from: nat)
    requires Sized(g, s) && Enabled(g, s, EvCopyToLog(to, from))
    ensures Sized(g, Apply(g, s, EvCopyToLog(to, from)))
  {}

  lemma RoundReleases(g: Geometry, s0: State, s: State, n: nat, tail: nat) returns (t: State)
    requires Arrives(g, s0, s, true) && Sized(g, s) && s.passed == map[] && s.touched == {} && tail < n < |s.bufs|
    requires Locked(s.bufs[tail], 2) && Locked(s.bufs[n], 2)
    ensures Arrives(g, s0, t, true) && Sized(g, t) && t == s.(bufs := t.bufs) && |t.bufs| == |s.bufs|
    ensures t.bufs[tail] == Unlock(s.bufs[tail]) && t.bufs[n] == Unlock(s.bufs[n])
    ensures forall i :: 0 <= i < |s.bufs| && i != n && i != tail ==> t.bufs[i] == s.bufs[i]
  {
    hide Arrives, Sized;
    var s1 := Drop(g, s0, s, 2, tail, true);
    t := Drop(g, s0, s1, 2, n, true);
  }

  /** The home blocks and the header are as they were. */
  predicate HomeKept(g: Geometry, s: State, t: State) {
    && |t.disk| == |s.disk| && |t.bufs| == |s.bufs|
    && forall i :: 0 <= i < |s.disk| && (Home(g, i) || i == g.start) ==> t.disk[i] == s.disk[i]
  }

  lemma {:induction false} Rounds(g: Geometry, s0: State, s: State, n: nat, tail: nat) returns (t: State)
    requires Arrives(g, s0, s, true) && Committing(g, s, n, 0) && tail <= g.nlog - 1 && tail < n < |s.bufs|
    ensures Arrives(g, s0, t, true) && Committing(g, t, n, tail) && HomeKept(g, s, t)
    ensures forall i :: 0 <= i < n ==> t.bufs[i].data == s.bufs[i].data
  {
    hide Arrives, Committing;
    if tail == 0 {
      t := s;
      CommittingSlots(g, s, n, 0);
    } else {
      var t1 := Rounds(g, s0, s, n, tail - 1);
      CommittingSlots(g, t1, n, tail - 1);
      t := Round(g, s0, t1, n, tail - 1);
    }
  }

  lemma CommittingSlots(g: Geometry, s: State, n: nat, tail: nat)
    requires Committing(g, s, n, tail)
    ensures n <= |s.bufs| && Sized(g, s) && Room(g, s)
  {}

  /** The round after the last block of the log area writes a home block, before the header is written. */
  lemma Trespass(g: Geometry, s0: State, s: State) returns (t: State)
    requires Arrives(g, s0, s, true) && g.nlog >= 2 && Committing(g, s, g.nlog, g.nlog - 1)
    ensures Arrives(g, s0, t, true) && Sized(g, t) && |t.bufs| == |s.bufs| && |t.disk| == |s.disk|
    ensures t.disk == s.disk[Target(g, 0) := s.bufs[g.nlog - 1].data]
  {
    hide Arrives;
    SizedParts(g, s);
    var k := g.nlog - 1;
    var s1 := Grab(g, s0, s, 2, 0, true);
    var s2 := Grab(g, s0, s1, 2, k, true);
    ArriveStep(g, s0, s2, EvCopyToLog(0, k), true);
    t := Apply(g, s2, EvCopyToLog(0, k));
    CopySized(g, s2, 0, k);
  }

  /** Some block with other contents. */
  function Other(b: Block): (r: Block)
    requires |b| == WORDS
    ensures |r| == WORDS && r != b
  {
    b[0 := b[0] + 1]
  }

  /** With nlog at most LOGSIZE and more buffers than that, a transaction that is not committed changes a home block. */
  lemma TrespassRun(g: Geometry, s: State) returns (t: State)
    requires Fresh(g, s) && !Contained(g, s)
    ensures Arrives(g, s, t, true) && Sized(g, t) && |t.disk| == |s.disk| && |t.bufs| == |s.bufs|
    ensures HeadOk(t.disk[g.start]) && DecodeHead(t.disk[g.start]) == []
    ensures Home(g, Target(g, 0)) && t.disk[Target(g, 0)] != s.disk[Target(g, 0)]
  {
    hide Arrives, At, Committing;
    TargetHome(g, s, 0);
    var data := Other(s.disk[Target(g, 0)]);
    var t1 := OverfullRun(g, s, data);
    SlotsOf(g, t1, g.nlog, g.nlog, g.nlog, g.nlog);
    var t2 := ThreeEnd(g, s, t1, g.nlog);
    var t3 := Rounds(g, s, t2, g.nlog, g.nlog - 1);
    CommittingSlots(g, t2, g.nlog, 0);
    CommittingSlots(g, t3, g.nlog, g.nlog - 1);
    HeadStillEmpty(g, s, t1);
    t := Trespass(g, s, t3);
  }

  /** The header on disk is not written without a commit point or the end of recovery. */
  lemma HeadStillEmpty(g: Geometry, s: State, t: State)
    requires Boots(g, s) && DecodeHead(s.disk[g.start]) == [] && Arrives(g, s, t, true)
    ensures |t.disk| == g.disksize && HeadOk(t.disk[g.start]) && DecodeHead(t.disk[g.start]) == []
  {
    var es :| PlainRun(g, s, es, t, true);
    BootBounds(g, s);
    HeadAfter(g, s, es);
  }

  lemma {:induction false} HeadAfter(g: Geometry, s: State, es: seq<Event>)
    requires Bounds(g, s) && Runs(g, s, es) && (forall i :: 0 <= i < |es| ==> Plain(es[i], true))
    requires DecodeHead(s.disk[g.start]) == []
    ensures var t := After(g, s, es);
      |t.disk| == g.disksize && HeadOk(t.disk[g.start]) && DecodeHead(t.disk[g.start]) == []
    decreases |es|
  {
    if es != [] {
      assert Plain(es[0], true);
      StepBounds(g, s, es[0]);
      HeadStep(g, s, es[0]);
      HeadAfter(g, Apply(g, s, es[0]), es[1..]);
    }
  }

  lemma HeadStep(g: Geometry, s: State, e: Event)
    requires Bounds(g, s) && Enabled(g, s, e) && Plain(e, true) && DecodeHead(s.disk[g.start]) == []
    ensures var t := Apply(g, s, e); HeadOk(t.disk[g.start]) && DecodeHead(t.disk[g.start]) == []
  {
    hide CacheInv, PassedOk, DirtyIsLogged, Budgeted;
    if e.EvInstall? { assert Home(g, s.lh[s.phase.tail]); }
  }

  /** Recovery brings back what was committed: the images of the run, from the home blocks at boot. */
  ghost predicate Atomic(g: Geometry, s: State)
    requires |s.disk| == g.disksize
  {
    forall es, boot, junk, rs | Recovers(g, s, es, boot, junk, rs) ::
      |End(g, s, es, boot, junk, rs).disk| == g.disksize &&
      HomeBlocks(g, End(g, s, es, boot, junk, rs).disk) ==
      SpecRun(Spec(HomeBlocks(g, s.disk), HomeBlocks(g, s.disk)), Labels(g, s, es)).stable
  }

  lemma {:induction false} NothingCommitted(g: Geometry, s: State, es: seq<Event>, sp: Spec)
    requires Runs(g, s, es) && forall i :: 0 <= i < |es| ==> Plain(es[i], true)
    ensures SpecRun(sp, Labels(g, s, es)).stable == sp.stable
    decreases |es|
  {
    if es != [] {
      assert Plain(es[0], true);
      NothingCommitted(g, Apply(g, s, es[0]), es[1..], SpecStep(sp, LabelOf(g, s, es[0])));
    }
  }

  /** A crash is survived in every run if and only if the log area has more than LOGSIZE blocks or as many blocks as
      there are buffers.  mkfs and param.h are in the second case. */
  lemma AtomicExactly(g: Geometry, s: State)
    requires Fresh(g, s)
    ensures Atomic(g, s) <==> g.nlog > 30 || g.nlog >= |s.bufs|
  {
    hide Atomic;
    if Contained(g, s) {
      AtomicContained(g, s);
    } else {
      AtomicityLost(g, s);
    }
  }

  lemma AtomicContained(g: Geometry, s: State)
    requires Fresh(g, s) && Contained(g, s)
    ensures Atomic(g, s)
  {
    BootInv(g, s);
    BootSettled(g, s);
    EmptyImages(g, s);
    forall es, boot, junk, rs | Recovers(g, s, es, boot, junk, rs)
      ensures |End(g, s, es, boot, junk, rs).disk| == g.disksize
      ensures HomeBlocks(g, End(g, s, es, boot, junk, rs).disk) == SpecRun(Abs(g, s), Labels(g, s, es)).stable
    {
      CrashAtomicity(g, s, es, boot, junk, rs);
    }
  }

  lemma EmptyImages(g: Geometry, s: State)
    requires Fresh(g, s) && Good(g, s)
    ensures Abs(g, s) == Spec(HomeBlocks(g, s.disk), HomeBlocks(g, s.disk))
  {}

  lemma AtomicityLost(g: Geometry, s: State)
    requires Fresh(g, s) && !Contained(g, s)
    ensures !Atomic(g, s)
  {
    hide Recovers;
    var t := TrespassRun(g, s);
    var junk := seq(|t.bufs|, i requires 0 <= i < |t.bufs| => t.bufs[i].data);
    var t1 := Apply(g, t, EvCrash(0, junk));
    var u := Recovered(g, t1);
    var es :| PlainRun(g, s, es, t, true);
    var rs :| PlainRun(g, t1, rs, u, false);
    RecoversAre(g, s, es, t, 0, junk, rs, u);
    NothingCommitted(g, s, es, Spec(HomeBlocks(g, s.disk), HomeBlocks(g, s.disk)));
    assert HomeBlocks(g, u.disk)[Target(g, 0)] == t.disk[Target(g, 0)];
  }

  lemma RecoversAre(g: Geometry, s: State, es: seq<Event>, t: State, boot: Pid, junk: seq<Block>, rs: seq<Event>,
                    u: State)
    requires PlainRun(g, s, es, t, true) && Sized(g, t) && Enabled(g, t, EvCrash(boot, junk))
    requires PlainRun(g, Apply(g, t, EvCrash(boot, junk)), rs, u, false) && u.phase == Normal
    ensures Recovers(g, s, es, boot, junk, rs) && End(g, s, es, boot, junk, rs) == u
  {
    forall k | 0 <= k < |rs| ensures RecoveryEvent(rs[k]) { assert Plain(rs[k], false); }
  }
}
