/** The redo log of log.c over the buffer cache of bio.c, as a transition system.

    Every step is one critical section, one disk transfer or one unlocked test of one process, so a
    run is any interleaving of any number of processes; a machine crash may come between any two
    steps, inside commit() or inside recovery as well.  log_write tests the size of the header before
    it takes log.lock, so it is two steps.  The system is shown to refine a disk with atomic
    transactions (module JournalRefinement). */
module Journal {
  import opened Common

  type Pid = nat

  const MAXOPBLOCKS: nat := 10
  const LOGSIZE: nat := 30
  const NBUF: nat := 30
  /** BSIZE / sizeof(uint): a block is read as an array of words. */
  const WORDS: nat := 128

  type Block = seq<nat>

  /** struct log's start and size (superblock logstart and nlog), and the disk size. */
  datatype Geometry = Geometry(start: nat, nlog: nat, disksize: nat)

  predicate GeometryOk(g: Geometry) {
    2 <= g.nlog && g.start + g.nlog <= g.disksize
  }

  /** A block outside the log area: where file system calls write. */
  predicate Home(g: Geometry, bn: nat) {
    bn < g.disksize && !(g.start <= bn < g.start + g.nlog)
  }

  /** struct buf.  `users` lists the processes that refcnt counts; `owner` holds the sleep-lock. */
  datatype Buf = Buf(dev: nat, blockno: nat, valid: bool, dirty: bool, refcnt: nat,
                     users: multiset<Pid>, owner: Option<Pid>, data: Block)

  /** Where commit() or recover_from_log() stands; `rec` tells the two installs apart. */
  datatype Phase = Normal
                 | WriteLog(tail: nat)
                 | WriteHead
                 | Install(tail: nat, rec: bool)
                 | ClearHead(rec: bool)
                 | Finish
                 | ReadHead

  /** ops: the remaining block budget of each outstanding operation.
      touched: buffers modified by their owner and not yet passed to log_write.
      passed: the processes inside log_write, between its size test and log.lock, with their buffers. */
  datatype State = State(disk: seq<Block>, bufs: seq<Buf>, lh: seq<nat>, outstanding: nat,
                         phase: Phase, committer: Pid, ops: map<Pid, nat>, touched: set<nat>,
                         passed: map<Pid, nat>)

  datatype Event =
    | EvGet(p: Pid, dev: nat, bn: nat, slot: nat)
    | EvLock(p: Pid, slot: nat)
    | EvFill(p: Pid, slot: nat)
    | EvModify(p: Pid, slot: nat, data: Block)
    | EvLogTest(p: Pid, slot: nat)
    | EvLogWrite(p: Pid, slot: nat)
    | EvUnlock(p: Pid, slot: nat)
    | EvUnref(p: Pid, slot: nat)
    | EvBegin(p: Pid)
    | EvEnd(p: Pid)
    | EvCopyToLog(to: nat, from: nat)
    | EvCommitHead(hb: nat)
    | EvInstall(lb: nat, db: nat)
    | EvClearHead(hb: nat)
    | EvFinish
    | EvCrash(boot: Pid, junk: seq<Block>)
    | EvReadHead(hb: nat)

  // ---------------------------------------------------------------- header block

  predicate HeadOk(b: Block) { |b| == WORDS && b[0] <= LOGSIZE }

  /** struct logheader read back from a block. */
  function DecodeHead(b: Block): seq<nat>
    requires HeadOk(b)
  {
    b[1..1 + b[0]]
  }

  /** write_head: n and the first n entries; the rest of the block keeps its old words. */
  function EncodeHead(prev: Block, lh: seq<nat>): (b: Block)
    requires |prev| == WORDS && |lh| <= LOGSIZE
    ensures HeadOk(b) && DecodeHead(b) == lh && b[0] == |lh| && forall i :: 0 <= i < |lh| ==> b[1 + i] == lh[i]
    ensures forall i :: 1 + |lh| <= i < WORDS ==> b[i] == prev[i]
  {
    [|lh|] + lh + prev[1 + |lh|..]
  }

  // ---------------------------------------------------------------- steps

  predicate Caches(b: Buf, dev: nat, bn: nat) { b.dev == dev && b.blockno == bn }

  predicate Cached(s: State, dev: nat, bn: nat) {
    exists i :: 0 <= i < |s.bufs| && Caches(s.bufs[i], dev, bn)
  }

  /** bget's second scan: a buffer that may be reused for another block. */
  predicate Recyclable(b: Buf) { b.refcnt == 0 && !b.dirty }

  predicate Owns(s: State, p: Pid, slot: nat) {
    slot < |s.bufs| && s.bufs[slot].owner == Some(p)
  }

  /** The committer holds a valid buffer of block bn of the log's device. */
  predicate CommitterHas(s: State, slot: nat, bn: nat) {
    Owns(s, s.committer, slot) && s.bufs[slot].valid && Caches(s.bufs[slot], 1, bn)
  }

  /** Process p may call log_write on the buffer in slot: it is inside an operation, holds the buffer, and the
      block is logged already or within its budget. */
  predicate MayLog(g: Geometry, s: State, p: Pid, slot: nat) {
    && Owns(s, p, slot) && s.bufs[slot].valid && p in s.ops && Home(g, s.bufs[slot].blockno)
    && (s.bufs[slot].blockno in s.lh || s.ops[p] > 0)
  }

  /** The process that takes the step, if it is not the committer or the machine. */
  function Actor(e: Event): Option<Pid> {
    match e
    case EvGet(p, _, _, _) => Some(p)
    case EvLock(p, _) => Some(p)
    case EvFill(p, _) => Some(p)
    case EvModify(p, _, _) => Some(p)
    case EvLogTest(p, _) => Some(p)
    case EvLogWrite(p, _) => Some(p)
    case EvUnlock(p, _) => Some(p)
    case EvUnref(p, _) => Some(p)
    case EvBegin(p) => Some(p)
    case EvEnd(p) => Some(p)
    case _ => None
  }

  /** A process inside log_write does nothing else. */
  predicate InTurn(s: State, e: Event) {
    Actor(e).Some? && Actor(e).value in s.passed ==> e.EvLogWrite?
  }

  /** The two panics of log_write that are about the size of the transaction. */
  predicate TooBig(g: Geometry, s: State) {
    |s.lh| >= LOGSIZE || |s.lh| >= g.nlog - 1
  }

  predicate Enabled(g: Geometry, s: State, e: Event) { InTurn(s, e) && Possible(g, s, e) }

  predicate Possible(g: Geometry, s: State, e: Event) {
    match e
    case EvGet(p, dev, bn, slot) =>
      slot < |s.bufs| &&
      (Caches(s.bufs[slot], dev, bn) || (!Cached(s, dev, bn) && Recyclable(s.bufs[slot])))
    case EvLock(p, slot) =>
      slot < |s.bufs| && p in s.bufs[slot].users && s.bufs[slot].owner == None
    case EvFill(p, slot) =>
      Owns(s, p, slot) && !s.bufs[slot].valid && s.bufs[slot].dev == 1 && s.bufs[slot].blockno < g.disksize
    case EvModify(p, slot, data) =>
      Owns(s, p, slot) && s.bufs[slot].valid && p in s.ops && Home(g, s.bufs[slot].blockno) && |data| == WORDS
    case EvLogTest(p, slot) =>
      MayLog(g, s, p, slot) && !TooBig(g, s)
    case EvLogWrite(p, slot) =>
      MayLog(g, s, p, slot) && p in s.passed && s.passed[p] == slot
    case EvUnlock(p, slot) =>
      Owns(s, p, slot) && slot !in s.touched
    case EvUnref(p, slot) =>
      slot < |s.bufs| && p in s.bufs[slot].users && s.bufs[slot].owner != Some(p)
    case EvBegin(p) =>
      s.phase == Normal && p !in s.ops && |s.lh| + (s.outstanding + 1) * MAXOPBLOCKS <= LOGSIZE
    case EvEnd(p) =>
      p in s.ops && forall i :: i in s.touched ==> !Owns(s, p, i)
    case EvCopyToLog(to, from) =>
      s.phase.WriteLog? && s.phase.tail < |s.lh| &&
      CommitterHas(s, to, g.start + s.phase.tail + 1) && CommitterHas(s, from, s.lh[s.phase.tail])
    case EvCommitHead(hb) =>
      s.phase == WriteHead && CommitterHas(s, hb, g.start)
    case EvInstall(lb, db) =>
      s.phase.Install? && s.phase.tail < |s.lh| &&
      CommitterHas(s, lb, g.start + s.phase.tail + 1) && CommitterHas(s, db, s.lh[s.phase.tail])
    case EvClearHead(hb) =>
      s.phase.ClearHead? && CommitterHas(s, hb, g.start)
    case EvFinish =>
      s.phase == Finish
    case EvCrash(boot, junk) =>
      |junk| == |s.bufs| && forall i :: 0 <= i < |junk| ==> |junk[i]| == WORDS
    case EvReadHead(hb) =>
      s.phase == ReadHead && CommitterHas(s, hb, g.start) && HeadOk(s.bufs[hb].data)
  }

  /** bwrite: the block goes to disk, the buffer becomes valid and clean. */
  function Written(s: State, slot: nat, data: Block): State
    requires slot < |s.bufs| && s.bufs[slot].blockno < |s.disk|
  {
    s.(disk := s.disk[s.bufs[slot].blockno := data],
       bufs := s.bufs[slot := s.bufs[slot].(data := data, valid := true, dirty := false)])
  }

  function NewBuf(junk: Block): Buf { Buf(0, 0, false, false, 0, multiset{}, None, junk) }

  function Apply(g: Geometry, s: State, e: Event): State
    requires Enabled(g, s, e) && Sized(g, s)
  {
    match e
    case EvGet(p, dev, bn, slot) =>
      var b := s.bufs[slot];
      var b' := if Caches(b, dev, bn) then b.(refcnt := b.refcnt + 1, users := b.users + multiset{p})
                else Buf(dev, bn, false, false, 1, multiset{p}, b.owner, b.data);
      s.(bufs := s.bufs[slot := b'])
    case EvLock(p, slot) =>
      s.(bufs := s.bufs[slot := s.bufs[slot].(owner := Some(p))])
    case EvFill(p, slot) =>
      s.(bufs := s.bufs[slot := s.bufs[slot].(data := s.disk[s.bufs[slot].blockno], valid := true)])
    case EvModify(p, slot, data) =>
      s.(bufs := s.bufs[slot := s.bufs[slot].(data := data)], touched := s.touched + {slot})
    case EvLogTest(p, slot) =>
      s.(passed := s.passed[p := slot])
    case EvLogWrite(p, slot) =>
      var bn := s.bufs[slot].blockno;
      s.(bufs := s.bufs[slot := s.bufs[slot].(dirty := true)], touched := s.touched - {slot},
         passed := s.passed - {p},
         lh := if bn in s.lh then s.lh else s.lh + [bn],
         ops := if bn in s.lh then s.ops else s.ops[p := s.ops[p] - 1])
    case EvUnlock(p, slot) =>
      s.(bufs := s.bufs[slot := s.bufs[slot].(owner := None)])
    case EvUnref(p, slot) =>
      var b := s.bufs[slot];
      s.(bufs := s.bufs[slot := b.(refcnt := if b.refcnt > 0 then b.refcnt - 1 else 0, users := b.users - multiset{p})])
    case EvBegin(p) =>
      s.(ops := s.ops[p := MAXOPBLOCKS], outstanding := s.outstanding + 1)
    case EvEnd(p) =>
      var ops := s.ops - {p};
      var last := s.outstanding <= 1;
      s.(ops := ops, outstanding := if s.outstanding > 0 then s.outstanding - 1 else 0,
         phase := if !last then s.phase else if |s.lh| > 0 then WriteLog(0) else Finish,
         committer := if last then p else s.committer)
    case EvCopyToLog(to, from) =>
      var s' := Written(s, to, s.bufs[from].data);
      s'.(phase := if s.phase.tail + 1 == |s.lh| then WriteHead else WriteLog(s.phase.tail + 1))
    case EvCommitHead(hb) =>
      Written(s, hb, EncodeHead(s.bufs[hb].data, s.lh)).(phase := Install(0, false))
    case EvInstall(lb, db) =>
      var s' := Written(s, db, s.bufs[lb].data);
      s'.(phase := if s.phase.tail + 1 == |s.lh| then ClearHead(s.phase.rec)
        else Install(s.phase.tail + 1, s.phase.rec))
    case EvClearHead(hb) =>
      Written(s, hb, EncodeHead(s.bufs[hb].data, [])).(lh := [], phase := if s.phase.rec then Normal else Finish)
    case EvFinish =>
      s.(phase := Normal)
    case EvCrash(boot, junk) =>
      State(s.disk, seq(|junk|, i requires 0 <= i < |junk| => NewBuf(junk[i])), [], 0, ReadHead, boot, map[], {}, map[])
    case EvReadHead(hb) =>
      var h := DecodeHead(s.bufs[hb].data);
      s.(lh := h, phase := if |h| == 0 then ClearHead(true) else Install(0, true))
  }

  // ---------------------------------------------------------------- sizes

  /** Blocks are whole blocks, and block numbers that reach the disk are on it. */
  predicate Sized(g: Geometry, s: State) {
    && GeometryOk(g)
    && |s.disk| == g.disksize
    && (forall i :: 0 <= i < |s.disk| ==> |s.disk[i]| == WORDS)
    && (forall i :: 0 <= i < |s.bufs| ==> |s.bufs[i].data| == WORDS)
    && (forall i :: 0 <= i < |s.bufs| && s.bufs[i].valid ==> s.bufs[i].dev == 1 && s.bufs[i].blockno < g.disksize)
    && |s.lh| <= LOGSIZE
  }

  // ---------------------------------------------------------------- runs

  ghost predicate Runs(g: Geometry, s: State, es: seq<Event>)
    decreases |es|
  {
    es == [] || (Sized(g, s) && Enabled(g, s, es[0]) && Runs(g, Apply(g, s, es[0]), es[1..]))
  }

  ghost function After(g: Geometry, s: State, es: seq<Event>): State
    requires Runs(g, s, es)
    decreases |es|
  {
    if es == [] then s else After(g, Apply(g, s, es[0]), es[1..])
  }

  lemma {:induction false} RunsSnoc(g: Geometry, s: State, es: seq<Event>, e: Event)
    requires Runs(g, s, es) && Sized(g, After(g, s, es)) && Enabled(g, After(g, s, es), e)
    ensures Runs(g, s, es + [e]) && After(g, s, es + [e]) == Apply(g, After(g, s, es), e)
    decreases |es|
  {
    if es == [] {
      assert es + [e] == [e] && [e][1..] == [];
    } else {
      RunsSnoc(g, Apply(g, s, es[0]), es[1..], e);
      assert (es + [e])[0] == es[0] && (es + [e])[1..] == es[1..] + [e];
    }
  }
}
