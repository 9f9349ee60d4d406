/** What every step keeps whatever the sizes of log area, header and cache are: how far the header can grow,
    also when log_writes that have all passed the size test append one after the other. */
module LogBounds {
  import opened Common
  import opened Journal
  import opened JournalInvariant

  /** begin_op admits no more. */
  const MAXOPS: nat := LOGSIZE / MAXOPBLOCKS

  /** The test leaves one free entry, and the operations that pass it together fill one more each. */
  predicate Short(g: Geometry, s: State) { |s.lh| + |s.passed| <= g.nlog - 2 + MAXOPS }

  predicate ShortHead(g: Geometry, b: Block) {
    HeadOk(b) && HomeList(g, DecodeHead(b)) && |DecodeHead(b)| <= g.nlog - 2 + MAXOPS
  }

  ghost predicate Bounds(g: Geometry, s: State) {
    && Sized(g, s) && HomeList(g, s.lh) && CacheInv(g, s) && DirtyIsLogged(s) && PhaseOk(s)
    && Budgeted(s) && |s.ops| <= MAXOPS && PassedOk(g, s) && Short(g, s) && ShortHead(g, s.disk[g.start])
  }

  lemma BootBounds(g: Geometry, s: State)
    requires Boots(g, s)
    ensures Bounds(g, s)
  {}

  /** At most one process an operation is inside log_write. */
  lemma PassedFew(g: Geometry, s: State)
    requires PassedOk(g, s)
    ensures |s.passed| <= |s.ops| && (s.ops == map[] ==> s.passed == map[])
  {
    PassedInOps(g, s);
    SubsetSize(s.passed.Keys, s.ops.Keys);
  }

  lemma CacheStepBounds(g: Geometry, s: State, e: Event)
    requires Bounds(g, s) && CacheStep(e) && Enabled(g, s, e)
    ensures Bounds(g, Apply(g, s, e))
  {
    hide Sized, CacheInv, PassedOk, Enabled, Apply, HomeList, Budgeted, ShortHead, DirtyIsLogged;
    var s' := Apply(g, s, e);
    CacheParts(g, s);
    CacheStepCache(g, s, e);
    CacheStepBuffers(g, s, e);
    CacheStepPassed(g, s, s');
    BufferPins(g, s, s');
  }

  lemma CacheParts(g: Geometry, s: State)
    requires Sized(g, s) && CacheInv(g, s)
    ensures Counted(s) && OneBuffer(s) && TouchedOk(g, s) && CleanMatchesDisk(g, s)
  {}

  lemma BufferPins(g: Geometry, s: State, s': State)
    requires OnlyBuffers(s, s') && DirtyIsLogged(s) && Budgeted(s)
    ensures DirtyIsLogged(s') && Budgeted(s')
  {}

  lemma LogTestBounds(g: Geometry, s: State, p: Pid, slot: nat)
    requires Bounds(g, s) && Enabled(g, s, EvLogTest(p, slot))
    ensures Bounds(g, Apply(g, s, EvLogTest(p, slot)))
  {
    hide CacheInv, DirtyIsLogged, Budgeted, HomeList, ShortHead;
    var s' := Apply(g, s, EvLogTest(p, slot));
    OnlyPassed(g, s, s');
    SameBut(s, s');
    forall q | q in s'.passed ensures MayLog(g, s', q, s'.passed[q]) {
      if q != p { assert MayLog(g, s, q, s.passed[q]); }
    }
    PassedFew(g, s');
  }

  lemma SameBut(s: State, s': State)
    requires s' == s.(passed := s'.passed) && DirtyIsLogged(s) && Budgeted(s)
    ensures DirtyIsLogged(s') && Budgeted(s')
  {}

  lemma LogWriteBounds(g: Geometry, s: State, p: Pid, slot: nat)
    requires Bounds(g, s) && Enabled(g, s, EvLogWrite(p, slot))
    ensures Bounds(g, Apply(g, s, EvLogWrite(p, slot)))
  {
    hide Sized, HomeList, CacheInv, PassedOk, Budgeted, DirtyIsLogged, ShortHead;
    var s' := Apply(g, s, EvLogWrite(p, slot));
    LogWriteNormal(s, p);
    LogWriteLogged(g, s, p, slot);
    LogWriteBudget(g, s, p, slot);
    LogWriteCache(g, s, p, slot);
    LogWritePassed(g, s, p, slot);
    assert s'.passed.Keys == s.passed.Keys - {p};
    assert |s'.passed| == |s.passed| - 1;
    assert s'.ops.Keys == s.ops.Keys;
    assert |s'.ops| == |s.ops|;
  }

  lemma BeginBounds(g: Geometry, s: State, p: Pid)
    requires Bounds(g, s) && Enabled(g, s, EvBegin(p))
    ensures Bounds(g, Apply(g, s, EvBegin(p)))
  {
    hide Sized, HomeList, CacheInv, DirtyIsLogged, ShortHead, MayLog, Reserved;
    var s' := Apply(g, s, EvBegin(p));
    CacheParts(g, s);
    SameBuffers(g, s, s');
    BeginBudget(g, s, p);
    Unpinned(s, s');
    forall q | q in s'.passed ensures MayLog(g, s', q, s'.passed[q]) {
      BeginMayLog(g, s, p, q, s.passed[q]);
    }
  }

  lemma Unpinned(s: State, s': State)
    requires s'.bufs == s.bufs && s'.lh == s.lh && PinFrom(s') == PinFrom(s) && DirtyIsLogged(s)
    ensures DirtyIsLogged(s')
  {}

  lemma EndBounds(g: Geometry, s: State, p: Pid)
    requires Bounds(g, s) && Enabled(g, s, EvEnd(p))
    ensures Bounds(g, Apply(g, s, EvEnd(p)))
  {
    hide Sized, HomeList, CacheInv, DirtyIsLogged, ShortHead, MayLog, Reserved;
    var s' := Apply(g, s, EvEnd(p));
    CacheParts(g, s);
    LogWriteNormal(s, p);
    SameBuffers(g, s, s');
    EndBudget(g, s, p);
    Unpinned(s, s');
    forall q | q in s'.passed ensures MayLog(g, s', q, s'.passed[q]) {
      EndMayLog(g, s, p, q, s.passed[q]);
    }
  }

  lemma Alone(g: Geometry, s: State)
    requires Bounds(g, s) && s.phase != Normal
    ensures s.ops == map[] && s.touched == {} && s.passed == map[]
  {
    PassedFew(g, s);
  }

  /** A transfer to disk by the committer, of a block that is not the header. */
  lemma WrittenBounds(g: Geometry, s: State, slot: nat, data: Block, phase: Phase)
    requires Bounds(g, s) && s.phase != Normal && phase != Normal && |data| == WORDS
    requires slot < |s.bufs| && s.bufs[slot].valid && s.bufs[slot].blockno != g.start
    requires var s' := Written(s, slot, data).(phase := phase); DirtyIsLogged(s') && PhaseOk(s')
    ensures Bounds(g, Written(s, slot, data).(phase := phase))
  {
    hide DirtyIsLogged, PhaseOk, HomeList, CacheInv;
    Alone(g, s);
    WrittenCache(g, s, slot, data);
    RelabelCache(g, Written(s, slot, data), Written(s, slot, data).(phase := phase));
  }

  lemma CopyBounds(g: Geometry, s: State, to: nat, from: nat)
    requires Bounds(g, s) && Enabled(g, s, EvCopyToLog(to, from))
    ensures Bounds(g, Apply(g, s, EvCopyToLog(to, from)))
  {
    var s' := Apply(g, s, EvCopyToLog(to, from));
    WrittenBounds(g, s, to, s.bufs[from].data, s'.phase);
  }

  lemma InstallLogged(g: Geometry, s: State, lb: nat, db: nat)
    requires Sized(g, s) && HomeList(g, s.lh) && DirtyIsLogged(s) && OneBuffer(s) && Enabled(g, s, EvInstall(lb, db))
    ensures DirtyIsLogged(Apply(g, s, EvInstall(lb, db)))
  {
    var s', t := Apply(g, s, EvInstall(lb, db)), s.phase.tail;
    assert PinFrom(s') == if s.phase.rec then |s.lh| else t + 1;
    forall i | 0 <= i < |s'.bufs| && s'.bufs[i].dirty
      ensures s'.bufs[i].valid && s'.bufs[i].blockno in s'.lh[PinFrom(s')..]
    {
      assert i != db && s.bufs[i].blockno in s.lh[PinFrom(s)..];
      var k :| PinFrom(s) <= k < |s.lh| && s.lh[k] == s.bufs[i].blockno;
      assert k != t;
      assert s'.lh[k] in s'.lh[PinFrom(s')..];
    }
  }

  lemma InstallBounds(g: Geometry, s: State, lb: nat, db: nat)
    requires Bounds(g, s) && Enabled(g, s, EvInstall(lb, db))
    ensures Bounds(g, Apply(g, s, EvInstall(lb, db)))
  {
    hide CacheInv, DirtyIsLogged, Budgeted, ShortHead, PassedOk;
    var s' := Apply(g, s, EvInstall(lb, db));
    CacheParts(g, s);
    InstallLogged(g, s, lb, db);
    WrittenBounds(g, s, db, s.bufs[lb].data, s'.phase);
  }

  /** write_head, with the header in memory as it is or emptied. */
  lemma HeadWritten(g: Geometry, s: State, hb: nat, lh: seq<nat>, phase: Phase)
    requires Bounds(g, s) && s.phase != Normal && hb < |s.bufs| && s.bufs[hb].valid && s.bufs[hb].blockno == g.start
    requires lh == s.lh || lh == []
    requires var s' := Written(s, hb, EncodeHead(s.bufs[hb].data, lh)).(lh := lh, phase := phase);
      DirtyIsLogged(s') && PhaseOk(s')
    ensures Bounds(g, Written(s, hb, EncodeHead(s.bufs[hb].data, lh)).(lh := lh, phase := phase))
  {
    hide DirtyIsLogged, PhaseOk, CacheInv;
    var data := EncodeHead(s.bufs[hb].data, lh);
    Alone(g, s);
    WrittenCache(g, s, hb, data);
    RelabelCache(g, Written(s, hb, data), Written(s, hb, data).(lh := lh, phase := phase));
  }

  lemma CommitHeadBounds(g: Geometry, s: State, hb: nat)
    requires Bounds(g, s) && Enabled(g, s, EvCommitHead(hb))
    ensures Bounds(g, Apply(g, s, EvCommitHead(hb)))
  {
    HeadWritten(g, s, hb, s.lh, Install(0, false));
  }

  lemma ClearHeadBounds(g: Geometry, s: State, hb: nat)
    requires Bounds(g, s) && Enabled(g, s, EvClearHead(hb))
    ensures Bounds(g, Apply(g, s, EvClearHead(hb)))
  {
    HeadWritten(g, s, hb, [], if s.phase.rec then Normal else Finish);
  }

  lemma FinishBounds(g: Geometry, s: State)
    requires Bounds(g, s) && Enabled(g, s, EvFinish)
    ensures Bounds(g, Apply(g, s, EvFinish))
  {
    hide CacheInv, HomeList, ShortHead;
    Alone(g, s);
    SameBuffers(g, s, Apply(g, s, EvFinish));
  }

  /** The header block in the cache is the one on disk. */
  lemma HeadCached(g: Geometry, s: State, hb: nat)
    requires Bounds(g, s) && hb < |s.bufs| && s.bufs[hb].valid && s.bufs[hb].blockno == g.start
    ensures s.bufs[hb].data == s.disk[g.start]
  {}

  lemma ReadHeadBounds(g: Geometry, s: State, hb: nat)
    requires Bounds(g, s) && Enabled(g, s, EvReadHead(hb))
    ensures Bounds(g, Apply(g, s, EvReadHead(hb)))
  {
    hide CacheInv, HomeList;
    var s' := Apply(g, s, EvReadHead(hb));
    HeadCached(g, s, hb);
    Alone(g, s);
    RelabelCache(g, s, s');
  }

  lemma CrashBounds(g: Geometry, s: State, boot: Pid, junk: seq<Block>)
    requires Bounds(g, s) && Enabled(g, s, EvCrash(boot, junk))
    ensures Bounds(g, Apply(g, s, EvCrash(boot, junk)))
  {}

  lemma StepBounds(g: Geometry, s: State, e: Event)
    requires Bounds(g, s) && Enabled(g, s, e)
    ensures Bounds(g, Apply(g, s, e))
  {
    hide Bounds, Enabled, Apply;
    match e
    case EvLogTest(p, slot) => LogTestBounds(g, s, p, slot);
    case EvLogWrite(p, slot) => LogWriteBounds(g, s, p, slot);
    case EvBegin(p) => BeginBounds(g, s, p);
    case EvEnd(p) => EndBounds(g, s, p);
    case EvCopyToLog(to, from) => CopyBounds(g, s, to, from);
    case EvCommitHead(hb) => CommitHeadBounds(g, s, hb);
    case EvInstall(lb, db) => InstallBounds(g, s, lb, db);
    case EvClearHead(hb) => ClearHeadBounds(g, s, hb);
    case EvFinish => FinishBounds(g, s);
    case EvCrash(boot, junk) => CrashBounds(g, s, boot, junk);
    case EvReadHead(hb) => ReadHeadBounds(g, s, hb);
    case _ => CacheStepBounds(g, s, e);
  }

  /** Every run of the code, at any sizes. */
  lemma {:induction false} RunBounds(g: Geometry, s: State, es: seq<Event>)
    requires Bounds(g, s) && Runs(g, s, es)
    ensures Bounds(g, After(g, s, es))
    decreases |es|
  {
    if es != [] {
      StepBounds(g, s, es[0]);
      RunBounds(g, Apply(g, s, es[0]), es[1..]);
    }
  }

  /** log_write never fails after its test: it holds the buffer, and log.lh.block has an entry left for the block. */
  lemma AppendPossible(g: Geometry, s: State, es: seq<Event>, p: Pid)
    requires Boots(g, s) && Runs(g, s, es) && p in After(g, s, es).passed
    ensures var t := After(g, s, es);
      Sized(g, t) && Enabled(g, t, EvLogWrite(p, t.passed[p])) &&
      (t.bufs[t.passed[p]].blockno in t.lh || |t.lh| < LOGSIZE)
  {
    BootBounds(g, s);
    RunBounds(g, s, es);
    var t := After(g, s, es);
    assert MayLog(g, t, p, t.passed[p]);
    ReservedSplit(t.ops, p);
  }

  /** The header outgrows the log area by at most two entries. */
  lemma HeaderBound(g: Geometry, s: State, es: seq<Event>)
    requires Boots(g, s) && Runs(g, s, es)
    ensures |After(g, s, es).lh| <= g.nlog - 1 + 2 && |After(g, s, es).lh| <= 30
  {
    BootBounds(g, s);
    RunBounds(g, s, es);
  }

  /** Each pinned buffer has an entry of the header of its own. */
  lemma PinnedFew(g: Geometry, s: State)
    requires Bounds(g, s) && forall i :: 0 <= i < |s.bufs| ==> s.bufs[i].dirty
    ensures |s.bufs| <= |s.lh|
  {
    var xs := BlockNumbers(s.bufs);
    forall i, j | 0 <= i < j < |xs| ensures xs[i] != xs[j] {
      assert s.bufs[i].valid && s.bufs[j].valid;
    }
    DistinctCard(xs);
    DistinctCard(s.lh);
    forall x | x in ToSet(xs) ensures x in ToSet(s.lh) {
      var i :| 0 <= i < |xs| && xs[i] == x;
      assert s.bufs[i].dirty;
    }
    SubsetSize(ToSet(xs), ToSet(s.lh));
  }
}
