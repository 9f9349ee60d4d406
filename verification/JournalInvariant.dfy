/** What every step of the log and the buffer cache keeps. */
module JournalInvariant {
  import opened Common
  import opened Journal

  // ---------------------------------------------------------------- reserved space

  /** The blocks all outstanding operations may still append. */
  ghost function Reserved(ops: map<Pid, nat>): nat
    decreases |ops|
  {
    if ops == map[] then 0 else
    var p :| p in ops;
    assert |ops - {p}| < |ops| by { assert (ops - {p}).Keys == ops.Keys - {p}; assert |(ops - {p}).Keys| < |ops.Keys|; }
    ops[p] + Reserved(ops - {p})
  }

  lemma {:induction false} ReservedSplit(ops: map<Pid, nat>, p: Pid)
    requires p in ops
    ensures Reserved(ops) == ops[p] + Reserved(ops - {p})
    decreases |ops|
  {
    var q :| q in ops && Reserved(ops) == ops[q] + Reserved(ops - {q});
    if q != p {
      assert (ops - {q}).Keys == ops.Keys - {q} && (ops - {p}).Keys == ops.Keys - {p};
      assert |(ops - {q}).Keys| < |ops.Keys| && |(ops - {p}).Keys| < |ops.Keys|;
      ReservedSplit(ops - {q}, p);
      ReservedSplit(ops - {p}, q);
      assert (ops - {q}) - {p} == (ops - {p}) - {q};
    }
  }

  lemma ReservedUpdate(ops: map<Pid, nat>, p: Pid, n: nat)
    ensures Reserved(ops[p := n]) == n + Reserved(ops - {p})
    ensures p !in ops ==> ops - {p} == ops
  {
    ReservedSplit(ops[p := n], p);
    assert ops[p := n] - {p} == ops - {p};
  }

  lemma {:induction false} ReservedBound(ops: map<Pid, nat>)
    requires forall p :: p in ops ==> ops[p] <= MAXOPBLOCKS
    ensures Reserved(ops) <= |ops| * MAXOPBLOCKS
    decreases |ops|
  {
    if ops != map[] {
      var p :| p in ops && Reserved(ops) == ops[p] + Reserved(ops - {p});
      assert (ops - {p}).Keys == ops.Keys - {p};
      assert |(ops - {p}).Keys| == |ops.Keys| - 1;
      ReservedBound(ops - {p});
    }
  }

  // ---------------------------------------------------------------- the invariant

  /** The first header entry whose block is still pinned dirty in the cache. */
  function PinFrom(s: State): nat {
    match s.phase
    case Normal => 0
    case WriteLog(_) => 0
    case WriteHead => 0
    case Install(t, rec) => if rec || t > |s.lh| then |s.lh| else t
    case _ => |s.lh|
  }

  /** Header entry k has been copied from its dirty buffer to its log block. */
  predicate Copied(s: State, k: nat) {
    match s.phase
    case WriteLog(t) => k < t
    case WriteHead => true
    case Install(_, rec) => !rec
    case _ => false
  }

  /** Header entry k has been copied from its log block to its home block. */
  predicate Installed(s: State, k: nat) {
    match s.phase
    case Install(t, _) => k < t
    case ClearHead(_) => true
    case _ => false
  }

  /** Distinct blocks outside the log area. */
  predicate HomeList(g: Geometry, lh: seq<nat>) {
    && |lh| <= LOGSIZE
    && (forall i, j :: 0 <= i < j < |lh| ==> lh[i] != lh[j])
    && (forall i :: 0 <= i < |lh| ==> Home(g, lh[i]))
  }

  /** A header whose entries all have a block in the log area. */
  predicate GoodHeader(g: Geometry, lh: seq<nat>) { |lh| <= g.nlog - 1 && HomeList(g, lh) }

  /** Reservations keep the header inside the log area, or an overfull header pins every buffer. */
  predicate Contained(g: Geometry, s: State) { g.nlog > LOGSIZE || g.nlog >= |s.bufs| }

  /** The header is inside the log area, or it pins every buffer and commit has not begun to write. */
  predicate Fits(g: Geometry, s: State) {
    |s.lh| <= g.nlog - 1 || (|s.lh| >= |s.bufs| && (s.phase == Normal || s.phase == WriteLog(0)))
  }

  predicate Counted(s: State) {
    forall i :: 0 <= i < |s.bufs| ==>
      && s.bufs[i].refcnt == |s.bufs[i].users|
      && (s.bufs[i].owner.Some? ==> s.bufs[i].owner.value in s.bufs[i].users)
  }

  /** At most one buffer per block of a real device. */
  predicate OneBuffer(s: State) {
    forall i, j :: 0 <= i < |s.bufs| && 0 <= j < |s.bufs| && i != j && s.bufs[i].dev != 0 ==>
      !(s.bufs[i].dev == s.bufs[j].dev && s.bufs[i].blockno == s.bufs[j].blockno)
  }

  /** A valid buffer that is neither logged nor being modified equals its disk block. */
  predicate CleanMatchesDisk(g: Geometry, s: State)
    requires Sized(g, s)
  {
    forall i :: 0 <= i < |s.bufs| && s.bufs[i].valid && !s.bufs[i].dirty && i !in s.touched ==>
      s.bufs[i].data == s.disk[s.bufs[i].blockno]
  }

  /** A dirty buffer belongs to a logged block that is not installed yet. */
  predicate DirtyIsLogged(s: State) {
    forall i :: 0 <= i < |s.bufs| && s.bufs[i].dirty ==>
      s.bufs[i].valid && s.bufs[i].blockno in s.lh[PinFrom(s)..]
  }

  predicate DirtyCopy(s: State, bn: nat) {
    exists i :: 0 <= i < |s.bufs| && s.bufs[i].dirty && s.bufs[i].blockno == bn
  }

  /** A logged block stays in the cache, dirty, until it is installed. */
  predicate LoggedIsDirty(s: State) {
    forall k :: PinFrom(s) <= k < |s.lh| ==> DirtyCopy(s, s.lh[k])
  }

  predicate TouchedOk(g: Geometry, s: State) {
    forall i :: i in s.touched ==>
      && i < |s.bufs| && s.bufs[i].valid && Home(g, s.bufs[i].blockno)
      && s.bufs[i].owner.Some? && s.bufs[i].owner.value in s.ops
  }

  predicate LogMatches(g: Geometry, s: State)
    requires Sized(g, s)
  {
    && (forall k, i :: (0 <= k < |s.lh| && k < g.nlog - 1 && Copied(s, k) && 0 <= i < |s.bufs| && s.bufs[i].dirty
                        && s.bufs[i].blockno == s.lh[k]) ==> s.disk[g.start + 1 + k] == s.bufs[i].data)
    && (forall k :: 0 <= k < |s.lh| && k < g.nlog - 1 && Installed(s, k) && s.lh[k] < |s.disk| ==>
           s.disk[s.lh[k]] == s.disk[g.start + 1 + k])
  }

  predicate HeadMatches(g: Geometry, s: State)
    requires Sized(g, s)
  {
    && HeadOk(s.disk[g.start])
    && var h := DecodeHead(s.disk[g.start]);
       match s.phase
       case Install(_, _) => h == s.lh
       case ClearHead(_) => h == s.lh
       case ReadHead => GoodHeader(g, h) && s.lh == []
       case _ => h == []
  }

  predicate PhaseOk(s: State) {
    match s.phase
    case WriteLog(t) => t < |s.lh|
    case WriteHead => 0 < |s.lh|
    case Install(t, _) => t < |s.lh|
    case Finish => s.lh == []
    case _ => true
  }

  /** Space for every block an outstanding operation may still append, and no
      operation outstanding while the log is being committed or recovered. */
  ghost predicate Budgeted(s: State) {
    && s.outstanding == |s.ops|
    && (s.phase != Normal ==> s.ops == map[])
    && (forall p :: p in s.ops ==> s.ops[p] <= MAXOPBLOCKS)
    && |s.lh| + Reserved(s.ops) <= LOGSIZE
  }

  /** Who has passed log_write's test can still append: the buffer is held, and the budget is not used up. */
  predicate PassedOk(g: Geometry, s: State) { forall p :: p in s.passed ==> MayLog(g, s, p, s.passed[p]) }

  /** The buffer cache by itself. */
  predicate CacheInv(g: Geometry, s: State)
    requires Sized(g, s)
  {
    Counted(s) && OneBuffer(s) && TouchedOk(g, s) && CleanMatchesDisk(g, s)
  }

  /** Logged blocks against dirty buffers and the log area. */
  predicate PinInv(g: Geometry, s: State)
    requires Sized(g, s)
  {
    DirtyIsLogged(s) && LoggedIsDirty(s) && LogMatches(g, s)
  }

  /** The header, the phase and the reservations. */
  ghost predicate ControlInv(g: Geometry, s: State)
    requires Sized(g, s)
  {
    HeadMatches(g, s) && PhaseOk(s) && Budgeted(s)
  }

  ghost predicate Inv(g: Geometry, s: State) {
    && Sized(g, s) && HomeList(g, s.lh) && Fits(g, s) && Contained(g, s)
    && CacheInv(g, s) && PinInv(g, s) && ControlInv(g, s) && PassedOk(g, s)
  }

  /** The state after binit, before initlog has read the header of a disk. */
  ghost predicate Boots(g: Geometry, s: State) {
    && GeometryOk(g)
    && |s.disk| == g.disksize
    && (forall i :: 0 <= i < |s.disk| ==> |s.disk[i]| == WORDS)
    && HeadOk(s.disk[g.start]) && GoodHeader(g, DecodeHead(s.disk[g.start]))
    && (forall i :: 0 <= i < |s.bufs| ==> |s.bufs[i].data| == WORDS && s.bufs[i] == NewBuf(s.bufs[i].data))
    && s.lh == [] && s.outstanding == 0 && s.phase == ReadHead && s.ops == map[] && s.touched == {} && s.passed == map[]
  }

  lemma BootInv(g: Geometry, s: State)
    requires Boots(g, s) && Contained(g, s)
    ensures Inv(g, s)
  {}

  // ---------------------------------------------------------------- counting pinned buffers

  function ToSet(xs: seq<nat>): set<nat> { set x | x in xs }

  lemma {:induction false} DistinctCard(xs: seq<nat>)
    ensures |ToSet(xs)| <= |xs|
    ensures (forall i, j :: 0 <= i < j < |xs| ==> xs[i] != xs[j]) ==> |ToSet(xs)| == |xs|
    decreases |xs|
  {
    if xs != [] {
      var n := |xs| - 1;
      DistinctCard(xs[..n]);
      assert xs == xs[..n] + [xs[n]];
      assert ToSet(xs) == ToSet(xs[..n]) + {xs[n]};
    }
  }

  function BlockNumbers(bufs: seq<Buf>): (xs: seq<nat>)
    ensures |xs| == |bufs| && forall i :: 0 <= i < |xs| ==> xs[i] == bufs[i].blockno
  {
    seq(|bufs|, i requires 0 <= i < |bufs| => bufs[i].blockno)
  }

  /** Dirty buffers are no more than logged blocks, so a short header leaves a clean buffer. */
  lemma CleanBufferLeft(g: Geometry, s: State)
    requires Inv(g, s) && |s.lh| - PinFrom(s) < |s.bufs|
    ensures exists i :: 0 <= i < |s.bufs| && !s.bufs[i].dirty
  {
    if forall i :: 0 <= i < |s.bufs| ==> s.bufs[i].dirty {
      var xs := BlockNumbers(s.bufs);
      forall i, j | 0 <= i < j < |xs| ensures xs[i] != xs[j] {
        assert s.bufs[i].valid && s.bufs[j].valid;
      }
      DistinctCard(xs);
      DistinctCard(s.lh[PinFrom(s)..]);
      forall x | x in ToSet(xs) ensures x in ToSet(s.lh[PinFrom(s)..]) {
        var i :| 0 <= i < |xs| && xs[i] == x;
        assert s.bufs[i].dirty;
      }
      SubsetSize(ToSet(xs), ToSet(s.lh[PinFrom(s)..]));
    }
  }

  lemma LoggedElsewhere(s: State, j: nat, x: nat)
    requires LoggedIsDirty(s) && PinFrom(s) == 0 && j < |s.bufs| && !s.bufs[j].dirty && x in s.lh
    ensures x in BlockNumbers(s.bufs)[..j] + BlockNumbers(s.bufs)[j + 1..]
  {
    var k :| 0 <= k < |s.lh| && s.lh[k] == x;
    assert DirtyCopy(s, s.lh[k]);
    var i :| 0 <= i < |s.bufs| && s.bufs[i].dirty && s.bufs[i].blockno == x;
    var xs := BlockNumbers(s.bufs);
    assert (xs[..j] + xs[j + 1..])[if i < j then i else i - 1] == x;
  }

  /** With as many logged blocks as buffers, all still to be written, every buffer is pinned. */
  lemma AllPinned(s: State, j: nat)
    requires LoggedIsDirty(s) && (forall i, k :: 0 <= i < k < |s.lh| ==> s.lh[i] != s.lh[k])
    requires PinFrom(s) == 0 && |s.lh| >= |s.bufs| && j < |s.bufs|
    ensures s.bufs[j].dirty
  {
    if !s.bufs[j].dirty {
      var rest := BlockNumbers(s.bufs)[..j] + BlockNumbers(s.bufs)[j + 1..];
      forall x | x in ToSet(s.lh) ensures x in ToSet(rest) { LoggedElsewhere(s, j, x); }
      DistinctCard(s.lh);
      DistinctCard(rest);
      SubsetSize(ToSet(s.lh), ToSet(rest));
    }
  }

  // ---------------------------------------------------------------- one lemma per kind of step

  /** A step that leaves header and phase alone and no dirty buffer worse off. */
  predicate SamePins(s: State, s': State) {
    && s'.disk == s.disk && s'.lh == s.lh && s'.phase == s.phase && |s'.bufs| == |s.bufs|
    && (forall i :: 0 <= i < |s.bufs| ==>
          && s'.bufs[i].dirty == s.bufs[i].dirty
          && (s.bufs[i].dirty ==> s'.bufs[i].valid && s'.bufs[i].blockno == s.bufs[i].blockno)
          && (s.bufs[i].dirty && s.phase != Normal ==> s'.bufs[i].data == s.bufs[i].data))
  }

  lemma PinsKeptLogged(s: State, s': State)
    requires SamePins(s, s') && DirtyIsLogged(s) && LoggedIsDirty(s)
    ensures DirtyIsLogged(s') && LoggedIsDirty(s')
  {}

  lemma PinsKept(g: Geometry, s: State, s': State)
    requires Sized(g, s) && Sized(g, s')
    requires SamePins(s, s') && PinInv(g, s)
    ensures PinInv(g, s')
  {
    hide Sized;
    PinsKeptLogged(s, s');
    assert forall k: nat :: Copied(s', k) == Copied(s, k) && Installed(s', k) == Installed(s, k);
  }

  /** A step of the buffer cache: nothing changes but buffers. */
  predicate CacheStep(e: Event) {
    e.EvGet? || e.EvLock? || e.EvFill? || e.EvModify? || e.EvUnlock? || e.EvUnref?
  }

  lemma GetCache(g: Geometry, s: State, p: Pid, dev: nat, bn: nat, slot: nat)
    requires Sized(g, s) && CacheInv(g, s) && Enabled(g, s, EvGet(p, dev, bn, slot))
    ensures var s' := Apply(g, s, EvGet(p, dev, bn, slot)); Sized(g, s') && CacheInv(g, s')
  {}

  lemma LockCache(g: Geometry, s: State, p: Pid, slot: nat)
    requires Sized(g, s) && CacheInv(g, s) && Enabled(g, s, EvLock(p, slot))
    ensures var s' := Apply(g, s, EvLock(p, slot)); Sized(g, s') && CacheInv(g, s')
  {}

  lemma FillCache(g: Geometry, s: State, p: Pid, slot: nat)
    requires Sized(g, s) && CacheInv(g, s) && Enabled(g, s, EvFill(p, slot))
    ensures var s' := Apply(g, s, EvFill(p, slot)); Sized(g, s') && CacheInv(g, s')
  {}

  lemma ModifyCache(g: Geometry, s: State, p: Pid, slot: nat, data: Block)
    requires Sized(g, s) && CacheInv(g, s) && Enabled(g, s, EvModify(p, slot, data))
    ensures var s' := Apply(g, s, EvModify(p, slot, data)); Sized(g, s') && CacheInv(g, s')
  {}

  lemma UnlockCache(g: Geometry, s: State, p: Pid, slot: nat)
    requires Sized(g, s) && CacheInv(g, s) && Enabled(g, s, EvUnlock(p, slot))
    ensures var s' := Apply(g, s, EvUnlock(p, slot)); Sized(g, s') && CacheInv(g, s')
  {}

  lemma UnrefCache(g: Geometry, s: State, p: Pid, slot: nat)
    requires Sized(g, s) && CacheInv(g, s) && Enabled(g, s, EvUnref(p, slot))
    ensures var s' := Apply(g, s, EvUnref(p, slot)); Sized(g, s') && CacheInv(g, s')
  {
    assert |s.bufs[slot].users - multiset{p}| == |s.bufs[slot].users| - 1;
  }

  lemma CacheStepCache(g: Geometry, s: State, e: Event)
    requires Sized(g, s) && CacheInv(g, s) && CacheStep(e) && Enabled(g, s, e)
    ensures Sized(g, Apply(g, s, e)) && CacheInv(g, Apply(g, s, e))
  {
    hide Sized, CacheInv, Enabled, Apply;
    match e
    case EvGet(p, dev, bn, slot) => GetCache(g, s, p, dev, bn, slot);
    case EvLock(p, slot) => LockCache(g, s, p, slot);
    case EvFill(p, slot) => FillCache(g, s, p, slot);
    case EvModify(p, slot, data) => ModifyCache(g, s, p, slot, data);
    case EvUnlock(p, slot) => UnlockCache(g, s, p, slot);
    case EvUnref(p, slot) => UnrefCache(g, s, p, slot);
  }

  /** Buffers keep block, contents and lock as far as dirty buffers and processes inside log_write are concerned. */
  predicate OnlyBuffers(s: State, s': State) {
    && s' == s.(bufs := s'.bufs, touched := s'.touched) && SamePins(s, s')
    && forall p :: p in s.passed && s.passed[p] < |s.bufs| ==>
         var b, b' := s.bufs[s.passed[p]], s'.bufs[s.passed[p]];
         b'.owner == b.owner && b'.valid == b.valid && b'.blockno == b.blockno
  }

  lemma CacheStepBuffers(g: Geometry, s: State, e: Event)
    requires Sized(g, s) && Counted(s) && TouchedOk(g, s) && Budgeted(s) && DirtyIsLogged(s) && PassedOk(g, s)
    requires CacheStep(e) && Enabled(g, s, e)
    ensures OnlyBuffers(s, Apply(g, s, e))
  {
    hide Budgeted;
    PhaseOfOps(s);
  }

  lemma PhaseOfOps(s: State)
    requires Budgeted(s)
    ensures forall p :: p in s.ops ==> s.phase == Normal
  {}

  lemma CacheStepPassed(g: Geometry, s: State, s': State)
    requires PassedOk(g, s) && OnlyBuffers(s, s')
    ensures PassedOk(g, s')
  {
    forall p | p in s'.passed ensures MayLog(g, s', p, s'.passed[p]) {
      assert MayLog(g, s, p, s.passed[p]);
    }
  }

  lemma CacheStepControl(g: Geometry, s: State, s': State)
    requires Sized(g, s) && Sized(g, s') && ControlInv(g, s) && OnlyBuffers(s, s')
    ensures ControlInv(g, s')
  {}

  lemma CacheStepKeeps(g: Geometry, s: State, e: Event)
    requires Inv(g, s) && CacheStep(e) && Enabled(g, s, e)
    ensures Inv(g, Apply(g, s, e))
  {
    hide Sized, CacheInv, PinInv, ControlInv, PassedOk, Enabled, Apply, HomeList;
    var s' := Apply(g, s, e);
    InvParts(g, s);
    CacheStepCache(g, s, e);
    CacheStepBuffers(g, s, e);
    PinsKept(g, s, s');
    CacheStepPassed(g, s, s');
    CacheStepControl(g, s, s');
  }

  lemma InvParts(g: Geometry, s: State)
    requires Inv(g, s)
    ensures Counted(s) && OneBuffer(s) && TouchedOk(g, s) && DirtyIsLogged(s) && LoggedIsDirty(s) && Budgeted(s)
  {}

  lemma LogTestKeeps(g: Geometry, s: State, p: Pid, slot: nat)
    requires Inv(g, s) && Enabled(g, s, EvLogTest(p, slot))
    ensures Inv(g, Apply(g, s, EvLogTest(p, slot)))
  {
    var s' := Apply(g, s, EvLogTest(p, slot));
    OnlyPassed(g, s, s');
    assert forall q :: q in s'.passed && q != p ==> MayLog(g, s, q, s.passed[q]);
  }

  lemma OnlyPassed(g: Geometry, s: State, s': State)
    requires Sized(g, s) && s' == s.(passed := s'.passed)
    ensures Sized(g, s') && (CacheInv(g, s) ==> CacheInv(g, s')) && (PinInv(g, s) ==> PinInv(g, s'))
    ensures ControlInv(g, s) ==> ControlInv(g, s')
  {
    hide CacheInv, PinInv, ControlInv;
    OnlyPassedCache(g, s, s');
    OnlyPassedPins(g, s, s');
    OnlyPassedControl(g, s, s');
  }

  lemma OnlyPassedCache(g: Geometry, s: State, s': State)
    requires Sized(g, s) && s' == s.(passed := s'.passed)
    ensures CacheInv(g, s) ==> CacheInv(g, s')
  {}

  lemma OnlyPassedPins(g: Geometry, s: State, s': State)
    requires Sized(g, s) && s' == s.(passed := s'.passed)
    ensures PinInv(g, s) ==> PinInv(g, s')
  {
    hide LogMatches;
    assert PinFrom(s') == PinFrom(s);
    if LoggedIsDirty(s) {
      forall k | PinFrom(s') <= k < |s'.lh| ensures DirtyCopy(s', s'.lh[k]) { assert DirtyCopy(s, s.lh[k]); }
    }
    if LogMatches(g, s) { OnlyPassedLog(g, s, s'); }
  }

  lemma OnlyPassedLog(g: Geometry, s: State, s': State)
    requires Sized(g, s) && s' == s.(passed := s'.passed) && LogMatches(g, s)
    ensures LogMatches(g, s')
  {
    hide Sized;
    assert forall k: nat :: Copied(s', k) == Copied(s, k) && Installed(s', k) == Installed(s, k);
  }

  lemma OnlyPassedControl(g: Geometry, s: State, s': State)
    requires Sized(g, s) && s' == s.(passed := s'.passed)
    ensures ControlInv(g, s) ==> ControlInv(g, s')
  {}

  lemma LogWriteLogged(g: Geometry, s: State, p: Pid, slot: nat)
    requires Sized(g, s) && HomeList(g, s.lh) && DirtyIsLogged(s) && Budgeted(s)
    requires Enabled(g, s, EvLogWrite(p, slot)) && s.phase == Normal
    ensures var s' := Apply(g, s, EvLogWrite(p, slot)); Sized(g, s') && HomeList(g, s'.lh) && DirtyIsLogged(s')
  {
    hide Reserved;
    var s' := Apply(g, s, EvLogWrite(p, slot));
    if s.bufs[slot].blockno !in s.lh { ReservedSplit(s.ops, p); }
    assert s'.lh[0..] == s'.lh && s.lh[0..] == s.lh;
  }

  /** An append keeps the header inside the log area, or pins the last buffer. */
  lemma LogWriteFits(g: Geometry, s: State, p: Pid, slot: nat)
    requires Sized(g, s) && Fits(g, s) && Contained(g, s) && Budgeted(s)
    requires Enabled(g, s, EvLogWrite(p, slot)) && s.phase == Normal
    ensures Fits(g, Apply(g, s, EvLogWrite(p, slot)))
  {
    hide Reserved;
    if s.bufs[slot].blockno !in s.lh { ReservedSplit(s.ops, p); }
  }

  lemma LogWritePassed(g: Geometry, s: State, p: Pid, slot: nat)
    requires Sized(g, s) && PassedOk(g, s) && Enabled(g, s, EvLogWrite(p, slot))
    ensures PassedOk(g, Apply(g, s, EvLogWrite(p, slot)))
  {
    var s' := Apply(g, s, EvLogWrite(p, slot));
    forall q | q in s'.passed ensures MayLog(g, s', q, s'.passed[q]) {
      assert MayLog(g, s, q, s.passed[q]);
    }
  }

  lemma LogWriteCache(g: Geometry, s: State, p: Pid, slot: nat)
    requires Sized(g, s) && CacheInv(g, s) && Enabled(g, s, EvLogWrite(p, slot))
    requires Sized(g, Apply(g, s, EvLogWrite(p, slot)))
    ensures CacheInv(g, Apply(g, s, EvLogWrite(p, slot)))
  {}

  lemma LogWriteMatches(g: Geometry, s: State, p: Pid, slot: nat)
    requires Sized(g, s) && s.phase == Normal && HeadMatches(g, s) && PhaseOk(s)
    requires Enabled(g, s, EvLogWrite(p, slot)) && Sized(g, Apply(g, s, EvLogWrite(p, slot)))
    ensures var s' := Apply(g, s, EvLogWrite(p, slot)); LogMatches(g, s') && HeadMatches(g, s') && PhaseOk(s')
  {}

  lemma LogWriteDirty(g: Geometry, s: State, p: Pid, slot: nat)
    requires Sized(g, s) && LoggedIsDirty(s) && Enabled(g, s, EvLogWrite(p, slot)) && s.phase == Normal
    ensures LoggedIsDirty(Apply(g, s, EvLogWrite(p, slot)))
  {
    var s' := Apply(g, s, EvLogWrite(p, slot));
    forall k | PinFrom(s') <= k < |s'.lh| ensures DirtyCopy(s', s'.lh[k]) {
      if k < |s.lh| {
        assert DirtyCopy(s, s.lh[k]);
        var i :| 0 <= i < |s.bufs| && s.bufs[i].dirty && s.bufs[i].blockno == s.lh[k];
        assert s'.bufs[i].dirty && s'.bufs[i].blockno == s'.lh[k];
      } else {
        assert s'.bufs[slot].dirty && s'.bufs[slot].blockno == s'.lh[k];
      }
    }
  }

  lemma LogWriteBudget(g: Geometry, s: State, p: Pid, slot: nat)
    requires Sized(g, s) && Enabled(g, s, EvLogWrite(p, slot)) && Budgeted(s)
    ensures Budgeted(Apply(g, s, EvLogWrite(p, slot)))
  {
    var s' := Apply(g, s, EvLogWrite(p, slot));
    if s.bufs[slot].blockno !in s.lh {
      ReservedSplit(s.ops, p);
      ReservedUpdate(s.ops, p, s.ops[p] - 1);
      assert s'.ops.Keys == s.ops.Keys;
      assert |s'.ops| == |s.ops|;
    }
  }

  lemma LogWriteKeeps(g: Geometry, s: State, p: Pid, slot: nat)
    requires Inv(g, s) && Enabled(g, s, EvLogWrite(p, slot))
    ensures Inv(g, Apply(g, s, EvLogWrite(p, slot)))
  {
    hide Sized, HomeList, Fits, CacheInv, PassedOk, LogMatches, HeadMatches, PhaseOk, Budgeted, DirtyIsLogged,
      LoggedIsDirty;
    LogWriteNormal(s, p);
    LogWriteLogged(g, s, p, slot);
    LogWriteFits(g, s, p, slot);
    LogWriteDirty(g, s, p, slot);
    LogWriteBudget(g, s, p, slot);
    LogWriteCache(g, s, p, slot);
    LogWriteMatches(g, s, p, slot);
    LogWritePassed(g, s, p, slot);
  }

  lemma LogWriteNormal(s: State, p: Pid)
    requires Budgeted(s) && p in s.ops
    ensures s.phase == Normal
  {}

  /** begin_op and end_op leave the cache alone. */
  lemma SameBuffers(g: Geometry, s: State, s': State)
    requires Sized(g, s) && CacheInv(g, s)
    requires s'.bufs == s.bufs && s'.disk == s.disk && s'.touched == s.touched && s'.lh == s.lh
    requires forall i :: i in s.touched ==> i < |s.bufs| && s.bufs[i].owner.Some? && s.bufs[i].owner.value in s'.ops
    ensures Sized(g, s') && CacheInv(g, s')
  {}

  lemma BeginBudget(g: Geometry, s: State, p: Pid)
    requires Sized(g, s) && Enabled(g, s, EvBegin(p)) && Budgeted(s)
    ensures Budgeted(Apply(g, s, EvBegin(p)))
  {
    BeginBudgetOf(s, Apply(g, s, EvBegin(p)), p);
  }

  lemma BeginBudgetOf(s: State, s': State, p: Pid)
    requires Budgeted(s) && p !in s.ops && s.phase == Normal && |s.lh| + (s.outstanding + 1) * MAXOPBLOCKS <= LOGSIZE
    requires s'.ops == s.ops[p := MAXOPBLOCKS] && s'.lh == s.lh && s'.phase == s.phase
    requires s'.outstanding == s.outstanding + 1
    ensures Budgeted(s')
  {
    hide Reserved;
    assert s'.ops.Keys == s.ops.Keys + {p};
    ReservedBound(s'.ops);
  }

  lemma BeginKeeps(g: Geometry, s: State, p: Pid)
    requires Inv(g, s) && Enabled(g, s, EvBegin(p))
    ensures Inv(g, Apply(g, s, EvBegin(p)))
  {
    hide Sized, HomeList, CacheInv, PinInv, Budgeted, MayLog;
    var s' := Apply(g, s, EvBegin(p));
    InvParts(g, s);
    SameBuffers(g, s, s');
    BeginBudget(g, s, p);
    PinsKept(g, s, s');
    forall q | q in s'.passed ensures MayLog(g, s', q, s'.passed[q]) {
      BeginMayLog(g, s, p, q, s.passed[q]);
    }
  }

  lemma BeginMayLog(g: Geometry, s: State, p: Pid, q: Pid, slot: nat)
    requires Sized(g, s) && MayLog(g, s, q, slot) && Enabled(g, s, EvBegin(p))
    ensures MayLog(g, Apply(g, s, EvBegin(p)), q, slot)
  {}

  lemma EndBudget(g: Geometry, s: State, p: Pid)
    requires Sized(g, s) && Enabled(g, s, EvEnd(p)) && Budgeted(s)
    ensures Budgeted(Apply(g, s, EvEnd(p)))
  {
    var s' := Apply(g, s, EvEnd(p));
    ReservedSplit(s.ops, p);
    assert s'.ops.Keys == s.ops.Keys - {p};
    assert |s'.ops| == |s.ops| - 1;
  }

  lemma EndPins(g: Geometry, s: State, p: Pid)
    requires Sized(g, s) && Enabled(g, s, EvEnd(p)) && PinInv(g, s) && s.phase == Normal
    requires Sized(g, Apply(g, s, EvEnd(p)))
    ensures PinInv(g, Apply(g, s, EvEnd(p)))
  {
    var s' := Apply(g, s, EvEnd(p));
    RelabelPins(s, s');
  }

  lemma EndFits(g: Geometry, s: State, p: Pid)
    requires Sized(g, s) && Enabled(g, s, EvEnd(p)) && Fits(g, s) && s.phase == Normal && HeadMatches(g, s)
    requires Sized(g, Apply(g, s, EvEnd(p)))
    ensures var s' := Apply(g, s, EvEnd(p)); Fits(g, s') && HeadMatches(g, s') && PhaseOk(s')
  {}

  lemma EndMayLog(g: Geometry, s: State, p: Pid, q: Pid, slot: nat)
    requires Sized(g, s) && MayLog(g, s, q, slot) && Enabled(g, s, EvEnd(p)) && p != q
    ensures MayLog(g, Apply(g, s, EvEnd(p)), q, slot)
  {}

  lemma EndKeeps(g: Geometry, s: State, p: Pid)
    requires Inv(g, s) && Enabled(g, s, EvEnd(p))
    ensures Inv(g, Apply(g, s, EvEnd(p)))
  {
    hide Sized, HomeList, CacheInv, PinInv, Budgeted, MayLog;
    var s' := Apply(g, s, EvEnd(p));
    InvParts(g, s);
    LogWriteNormal(s, p);
    SameBuffers(g, s, s');
    EndBudget(g, s, p);
    EndPins(g, s, p);
    EndFits(g, s, p);
    forall q | q in s'.passed ensures MayLog(g, s', q, s'.passed[q]) {
      EndMayLog(g, s, p, q, s.passed[q]);
    }
  }

  // ---------------------------------------------------------------- steps that write the disk

  lemma WrittenCache(g: Geometry, s: State, slot: nat, data: Block)
    requires Sized(g, s) && CacheInv(g, s) && |data| == WORDS
    requires slot < |s.bufs| && s.bufs[slot].valid && s.touched == {}
    ensures var s' := Written(s, slot, data); Sized(g, s') && CacheInv(g, s')
  {}

  /** The cache invariant does not look at the header or the phase. */
  lemma RelabelCache(g: Geometry, s: State, s': State)
    requires Sized(g, s) && CacheInv(g, s)
    requires s'.bufs == s.bufs && s'.disk == s.disk && s'.touched == s.touched && s'.ops == s.ops && |s'.lh| <= LOGSIZE
    ensures Sized(g, s') && CacheInv(g, s')
  {}

  /** While committing or recovering nobody is inside an operation. */
  lemma NothingTouched(g: Geometry, s: State)
    requires Inv(g, s) && s.phase != Normal
    ensures s.ops == map[] && s.touched == {} && s.passed == map[]
  {
    PassedInOps(g, s);
  }

  lemma PassedInOps(g: Geometry, s: State)
    requires PassedOk(g, s)
    ensures s.passed.Keys <= s.ops.Keys
  {
    forall p | p in s.passed.Keys ensures p in s.ops.Keys { assert MayLog(g, s, p, s.passed[p]); }
  }

  /** A write into the log area leaves every dirty buffer alone. */
  lemma LogAreaWrite(g: Geometry, s: State, slot: nat, data: Block)
    requires Inv(g, s) && |data| == WORDS && slot < |s.bufs| && s.bufs[slot].valid
    requires !Home(g, s.bufs[slot].blockno)
    ensures !s.bufs[slot].dirty
    ensures DirtyIsLogged(Written(s, slot, data)) && LoggedIsDirty(Written(s, slot, data))
  {
    assert s.bufs[slot].blockno !in s.lh[PinFrom(s)..];
    CleanWrite(s, slot, data);
  }

  lemma CleanWrite(s: State, slot: nat, data: Block)
    requires slot < |s.bufs| && s.bufs[slot].blockno < |s.disk| && !s.bufs[slot].dirty
    requires DirtyIsLogged(s) && LoggedIsDirty(s)
    ensures DirtyIsLogged(Written(s, slot, data)) && LoggedIsDirty(Written(s, slot, data))
  {
    var s' := Written(s, slot, data);
    assert PinFrom(s') == PinFrom(s);
    forall k | PinFrom(s') <= k < |s'.lh| ensures DirtyCopy(s', s'.lh[k]) {
      assert DirtyCopy(s, s.lh[k]);
      var i :| 0 <= i < |s.bufs| && s.bufs[i].dirty && s.bufs[i].blockno == s.lh[k];
      assert s'.bufs[i].dirty && s'.bufs[i].blockno == s'.lh[k];
    }
  }

  /** The log area after the copy: dirty buffers are as before, and one more log block holds its buffer's data. */
  predicate CopiedOne(g: Geometry, s: State, s': State, from: nat)
    requires Sized(g, s) && Sized(g, s') && |s.lh| <= g.nlog - 1
  {
    && s'.lh == s.lh && s.phase.WriteLog? && s.phase.tail < |s.lh|
    && (s'.phase == WriteLog(s.phase.tail + 1) || (s'.phase == WriteHead && s.phase.tail + 1 == |s.lh|))
    && from < |s.bufs| && s.bufs[from].valid && s.bufs[from].blockno == s.lh[s.phase.tail]
    && s'.disk == s.disk[g.start + 1 + s.phase.tail := s.bufs[from].data]
    && |s'.bufs| == |s.bufs| && forall i :: 0 <= i < |s.bufs| && s'.bufs[i].dirty ==> s'.bufs[i] == s.bufs[i]
  }

  lemma CopyToLogMatches(g: Geometry, s: State, s': State, from: nat)
    requires Sized(g, s) && Sized(g, s') && GoodHeader(g, s.lh) && OneBuffer(s)
    requires CopiedOne(g, s, s', from) && DirtyIsLogged(s) && LogMatches(g, s)
    ensures LogMatches(g, s')
  {
    hide OneBuffer, DirtyIsLogged;
    forall k, i | 0 <= k < |s'.lh| && Copied(s', k) && 0 <= i < |s'.bufs| && s'.bufs[i].dirty &&
      s'.bufs[i].blockno == s'.lh[k]
      ensures s'.disk[g.start + 1 + k] == s'.bufs[i].data
    {
      CopyToLogAt(g, s, s', from, k, i);
    }
  }

  lemma CopyToLogAt(g: Geometry, s: State, s': State, from: nat, k: nat, i: nat)
    requires Sized(g, s) && Sized(g, s') && GoodHeader(g, s.lh) && OneBuffer(s)
    requires CopiedOne(g, s, s', from) && DirtyIsLogged(s) && LogMatches(g, s)
    requires k < |s'.lh| && Copied(s', k) && i < |s'.bufs| && s'.bufs[i].dirty && s'.bufs[i].blockno == s'.lh[k]
    ensures s'.disk[g.start + 1 + k] == s'.bufs[i].data
  {
    hide LogMatches;
    assert s.bufs[i].dirty && s.bufs[i].valid;
    if k == s.phase.tail {
      assert i == from;
    } else {
      assert Copied(s, k);
      CopiedAt(g, s, k, i);
    }
  }

  lemma CopiedAt(g: Geometry, s: State, k: nat, i: nat)
    requires Sized(g, s) && |s.lh| <= g.nlog - 1 && LogMatches(g, s) && k < |s.lh| && Copied(s, k)
    requires i < |s.bufs| && s.bufs[i].dirty && s.bufs[i].blockno == s.lh[k]
    ensures s.disk[g.start + 1 + k] == s.bufs[i].data
  {}

  /** With every buffer pinned none holds a log block, so a commit that writes has its header inside the log area. */
  lemma CopyInside(g: Geometry, s: State, to: nat, from: nat)
    requires Inv(g, s) && Enabled(g, s, EvCopyToLog(to, from))
    ensures GoodHeader(g, s.lh)
  {
    if |s.lh| > g.nlog - 1 {
      AllPinned(s, to);
    }
  }

  lemma CopyToLogKeeps(g: Geometry, s: State, to: nat, from: nat)
    requires Inv(g, s) && Enabled(g, s, EvCopyToLog(to, from))
    ensures Inv(g, Apply(g, s, EvCopyToLog(to, from)))
  {
    var s' := Apply(g, s, EvCopyToLog(to, from));
    CopyInside(g, s, to, from);
    NothingTouched(g, s);
    WrittenCache(g, s, to, s.bufs[from].data);
    RelabelCache(g, Written(s, to, s.bufs[from].data), s');
    LogAreaWrite(g, s, to, s.bufs[from].data);
    CopyToLogMatches(g, s, s', from);
    RelabelPins(Written(s, to, s.bufs[from].data), s');
  }

  lemma CommitHeadMatches(g: Geometry, s: State, s': State)
    requires Sized(g, s) && Sized(g, s') && |s.lh| <= g.nlog - 1 && s'.lh == s.lh
    requires s.phase == WriteHead && s'.phase == Install(0, false) && |s'.bufs| == |s.bufs|
    requires forall i :: 0 <= i < |s.disk| && i != g.start ==> s'.disk[i] == s.disk[i]
    requires forall i :: 0 <= i < |s.bufs| && s'.bufs[i].dirty ==> s'.bufs[i] == s.bufs[i]
    requires LogMatches(g, s)
    ensures LogMatches(g, s')
  {}

  lemma CommitHeadKeeps(g: Geometry, s: State, hb: nat)
    requires Inv(g, s) && Enabled(g, s, EvCommitHead(hb))
    ensures Inv(g, Apply(g, s, EvCommitHead(hb)))
  {
    var s' := Apply(g, s, EvCommitHead(hb));
    var data := EncodeHead(s.bufs[hb].data, s.lh);
    var w := Written(s, hb, data);
    NothingTouched(g, s);
    WrittenCache(g, s, hb, data);
    RelabelCache(g, w, s');
    LogAreaWrite(g, s, hb, data);
    CommitHeadMatches(g, s, s');
    RelabelPins(w, s');
  }

  /** The pinning looks at buffers, header and PinFrom only. */
  lemma RelabelPins(s: State, s': State)
    requires s'.bufs == s.bufs && s'.lh == s.lh && PinFrom(s') == PinFrom(s)
    requires DirtyIsLogged(s) && LoggedIsDirty(s)
    ensures DirtyIsLogged(s') && LoggedIsDirty(s')
  {}

  lemma InstallPins(g: Geometry, s: State, s': State, db: nat)
    requires Sized(g, s) && GoodHeader(g, s.lh) && s'.lh == s.lh && OneBuffer(s)
    requires s.phase.Install? && s.phase.tail < |s.lh|
    requires s'.phase == Install(s.phase.tail + 1, s.phase.rec) ||
             (s'.phase == ClearHead(s.phase.rec) && s.phase.tail + 1 == |s.lh|)
    requires db < |s.bufs| && s.bufs[db].valid && s.bufs[db].blockno == s.lh[s.phase.tail]
    requires |s'.bufs| == |s.bufs| && !s'.bufs[db].dirty
    requires forall i :: 0 <= i < |s.bufs| && i != db ==> s'.bufs[i] == s.bufs[i]
    requires DirtyIsLogged(s) && LoggedIsDirty(s)
    ensures DirtyIsLogged(s') && LoggedIsDirty(s')
  {
    var t := s.phase.tail;
    assert PinFrom(s') == if s.phase.rec then |s.lh| else t + 1;
    forall i | 0 <= i < |s'.bufs| && s'.bufs[i].dirty
      ensures s'.bufs[i].valid && s'.bufs[i].blockno in s'.lh[PinFrom(s')..]
    {
      assert i != db && s.bufs[i].blockno in s.lh[PinFrom(s)..];
      var k :| PinFrom(s) <= k < |s.lh| && s.lh[k] == s.bufs[i].blockno;
      assert k != t;
      assert s'.lh[k] in s'.lh[PinFrom(s')..];
    }
    forall k | PinFrom(s') <= k < |s'.lh| ensures DirtyCopy(s', s'.lh[k]) {
      assert DirtyCopy(s, s.lh[k]);
      var i :| 0 <= i < |s.bufs| && s.bufs[i].dirty && s.bufs[i].blockno == s.lh[k];
      assert s'.bufs[i].dirty && s'.bufs[i].blockno == s'.lh[k];
    }
  }

  /** The log block an install reads is what the disk holds there. */
  lemma LogBlockClean(g: Geometry, s: State, slot: nat)
    requires Inv(g, s) && s.phase != Normal && slot < |s.bufs| && s.bufs[slot].valid
    requires !Home(g, s.bufs[slot].blockno)
    ensures s.bufs[slot].data == s.disk[s.bufs[slot].blockno]
  {}

  lemma InstallMatches(g: Geometry, s: State, s': State, t: nat, db: nat)
    requires Sized(g, s) && Sized(g, s') && GoodHeader(g, s.lh) && s'.lh == s.lh && t < |s.lh|
    requires s.phase.Install? && s.phase.tail == t
    requires s'.phase == Install(t + 1, s.phase.rec) || (s'.phase == ClearHead(s.phase.rec) && t + 1 == |s.lh|)
    requires s'.disk == s.disk[s.lh[t] := s.disk[g.start + 1 + t]]
    requires |s'.bufs| == |s.bufs|
    requires forall i :: 0 <= i < |s.bufs| && s'.bufs[i].dirty ==> s'.bufs[i] == s.bufs[i]
    requires LogMatches(g, s)
    ensures LogMatches(g, s')
  {
    forall k, i | 0 <= k < |s'.lh| && Copied(s', k) && 0 <= i < |s'.bufs| && s'.bufs[i].dirty &&
      s'.bufs[i].blockno == s'.lh[k]
      ensures s'.disk[g.start + 1 + k] == s'.bufs[i].data
    {
      assert Copied(s, k) && s.bufs[i].dirty;
    }
    forall k | 0 <= k < |s'.lh| && Installed(s', k) && s'.lh[k] < |s'.disk|
      ensures s'.disk[s'.lh[k]] == s'.disk[g.start + 1 + k]
    {
      assert Home(g, s.lh[k]) && Home(g, s.lh[t]);
      if k != t {
        assert Installed(s, k) && s.lh[k] != s.lh[t];
      }
    }
  }

  lemma InstallControl(g: Geometry, s: State, lb: nat, db: nat)
    requires Sized(g, s) && GoodHeader(g, s.lh) && ControlInv(g, s) && Enabled(g, s, EvInstall(lb, db))
    requires Sized(g, Apply(g, s, EvInstall(lb, db)))
    ensures ControlInv(g, Apply(g, s, EvInstall(lb, db)))
  {}

  lemma InstallCache(g: Geometry, s: State, lb: nat, db: nat)
    requires Sized(g, s) && CacheInv(g, s) && s.touched == {} && Enabled(g, s, EvInstall(lb, db))
    ensures var s' := Apply(g, s, EvInstall(lb, db)); Sized(g, s') && CacheInv(g, s')
  {
    WrittenCache(g, s, db, s.bufs[lb].data);
    RelabelCache(g, Written(s, db, s.bufs[lb].data), Apply(g, s, EvInstall(lb, db)));
  }

  lemma InstallPinInv(g: Geometry, s: State, lb: nat, db: nat)
    requires Sized(g, s) && GoodHeader(g, s.lh) && OneBuffer(s) && PinInv(g, s) && Enabled(g, s, EvInstall(lb, db))
    requires Sized(g, Apply(g, s, EvInstall(lb, db)))
    requires s.bufs[lb].data == s.disk[g.start + 1 + s.phase.tail]
    ensures PinInv(g, Apply(g, s, EvInstall(lb, db)))
  {
    var s' := Apply(g, s, EvInstall(lb, db));
    InstallPins(g, s, s', db);
    InstallMatches(g, s, s', s.phase.tail, db);
  }

  lemma InstallKeeps(g: Geometry, s: State, lb: nat, db: nat)
    requires Inv(g, s) && Enabled(g, s, EvInstall(lb, db))
    ensures Inv(g, Apply(g, s, EvInstall(lb, db)))
  {
    hide PinInv, ControlInv;
    NothingTouched(g, s);
    LogBlockClean(g, s, lb);
    assert s.bufs[lb].blockno == g.start + 1 + s.phase.tail;
    InstallCache(g, s, lb, db);
    InstallControl(g, s, lb, db);
    InstallPinInv(g, s, lb, db);
  }

  lemma ClearHeadKeeps(g: Geometry, s: State, hb: nat)
    requires Inv(g, s) && Enabled(g, s, EvClearHead(hb))
    ensures Inv(g, Apply(g, s, EvClearHead(hb)))
  {
    NothingTouched(g, s);
    WrittenCache(g, s, hb, EncodeHead(s.bufs[hb].data, []));
  }

  lemma FinishKeeps(g: Geometry, s: State)
    requires Inv(g, s) && Enabled(g, s, EvFinish)
    ensures Inv(g, Apply(g, s, EvFinish))
  {
    hide Sized, CacheInv, DirtyIsLogged, LoggedIsDirty, LogMatches, HomeList, Counted;
    var s' := Apply(g, s, EvFinish);
    NothingTouched(g, s);
    SameBuffers(g, s, s');
    InvParts(g, s);
    PinsKeptEmpty(s, s');
    NothingLogged(g, s');
  }

  lemma NothingLogged(g: Geometry, s: State)
    requires Sized(g, s) && s.lh == []
    ensures LogMatches(g, s)
  {}

  lemma PinsKeptEmpty(s: State, s': State)
    requires DirtyIsLogged(s) && s.lh[PinFrom(s)..] == []
    requires s'.bufs == s.bufs && s'.lh == []
    ensures DirtyIsLogged(s') && LoggedIsDirty(s')
  {}

  lemma CrashKeeps(g: Geometry, s: State, boot: Pid, junk: seq<Block>)
    requires Inv(g, s) && Enabled(g, s, EvCrash(boot, junk))
    ensures Inv(g, Apply(g, s, EvCrash(boot, junk)))
  {
    assert Boots(g, Apply(g, s, EvCrash(boot, junk)));
    BootInv(g, Apply(g, s, EvCrash(boot, junk)));
  }

  lemma ReadHeadKeeps(g: Geometry, s: State, hb: nat)
    requires Inv(g, s) && Enabled(g, s, EvReadHead(hb))
    ensures Inv(g, Apply(g, s, EvReadHead(hb)))
  {}

  // ---------------------------------------------------------------- every step, every run

  lemma StepKeeps(g: Geometry, s: State, e: Event)
    requires Inv(g, s) && Enabled(g, s, e)
    ensures Inv(g, Apply(g, s, e))
  {
    hide Inv, Enabled, Apply;
    match e
    case EvLogTest(p, slot) => LogTestKeeps(g, s, p, slot);
    case EvLogWrite(p, slot) => LogWriteKeeps(g, s, p, slot);
    case EvBegin(p) => BeginKeeps(g, s, p);
    case EvEnd(p) => EndKeeps(g, s, p);
    case EvCopyToLog(to, from) => CopyToLogKeeps(g, s, to, from);
    case EvCommitHead(hb) => CommitHeadKeeps(g, s, hb);
    case EvInstall(lb, db) => InstallKeeps(g, s, lb, db);
    case EvClearHead(hb) => ClearHeadKeeps(g, s, hb);
    case EvFinish => FinishKeeps(g, s);
    case EvCrash(boot, junk) => CrashKeeps(g, s, boot, junk);
    case EvReadHead(hb) => ReadHeadKeeps(g, s, hb);
    case _ => CacheStepKeeps(g, s, e);
  }

  lemma {:induction false} RunKeeps(g: Geometry, s: State, es: seq<Event>)
    requires Inv(g, s) && Runs(g, s, es)
    ensures Inv(g, After(g, s, es))
    decreases |es|
  {
    if es != [] {
      StepKeeps(g, s, es[0]);
      RunKeeps(g, Apply(g, s, es[0]), es[1..]);
    }
  }
}
