/** sleep and wakeup of proc.c as used by sleeplock.c, pipe.c and log.c: a transition system whose
    steps are the acquires, releases, tests and updates of those functions, taken by any number of
    processes in any order.  Spin locks are atomic; any number of processors may run. */
module SleepWakeup {
  import opened Common
  import Journal

  const PIPESIZE: nat := 512

  type Pid = nat
  type Byte = nat

  datatype ProcState = Runnable | Running | Sleeping

  /** An address slept on: 0 is the lock, the log or &p->nread, 1 is &p->nwrite. */
  datatype Chan = Chan(obj: nat, which: nat)

  /** A call in progress.  A writer has put `i` bytes, `dirty` if any since it last woke readers. */
  datatype Call =
    | AcquireSleep
    | ReleaseSleep
    | PipeWrite(src: seq<Byte>, i: nat, dirty: bool)
    | PipeRead(n: nat, got: seq<Byte>)
    | PipeClose(writable: bool)
    | BeginOp
    | EndOp
    | EndCommit
    | LogAppend

  /** Where a process is.  `which` is the channel of the sleep or wakeup it is in. */
  datatype Pc =
    | Out                                       // outside these functions
    | Want(obj: nat, call: Call)                // acquire(lk)
    | In(obj: nat, call: Call)                  // holds lk, at the test of the loop
    | Copy(obj: nat, call: Call)                // piperead's copy loop
    | Sleep1(obj: nat, which: nat, call: Call)  // sleep: acquire(&ptable.lock)
    | Sleep2(obj: nat, which: nat, call: Call)  // sleep: release(lk)
    | Sleep3(obj: nat, which: nat, call: Call)  // sleep: set chan and state, sched()
    | Asleep(obj: nat, which: nat, call: Call)  // sleep: in sched()
    | Wake1(obj: nat, which: nat, call: Call)   // wakeup: acquire(&ptable.lock)
    | Wake2(obj: nat, which: nat, call: Call)   // wakeup: wakeup1(chan)
    | Wake3(obj: nat, which: nat, call: Call)   // wakeup: release(&ptable.lock)
    | Leave(obj: nat, call: Call)               // release(lk), return
    | Yielded                                   // yield: in sched()

  /** `held` lists the sleep locks the process has acquired and not begun to release. */
  datatype Proc = Proc(state: ProcState, chan: Option<Chan>, killed: bool, pc: Pc, held: set<nat>)

  /** What a spin lock lk protects.  `wrote` and `taken` record every byte put into and taken out of a pipe. */
  datatype Obj =
    | SleepLock(lk: Option<Pid>, locked: bool, pid: Pid)
    | Pipe(lk: Option<Pid>, data: seq<Byte>, nread: nat, nwrite: nat, readopen: bool, writeopen: bool,
           wrote: seq<Byte>, taken: seq<Byte>)
    | Log(lk: Option<Pid>, outstanding: int, committing: bool, n: int)

  /** ptable.lock is free, held by a process, or held by a scheduler. */
  datatype Ptable = Free | Held(pid: Pid) | Sched

  datatype State = State(procs: seq<Proc>, objs: seq<Obj>, ptable: Ptable)

  // ---------------------------------------------------------------- conditions

  predicate Empty(o: Obj) requires o.Pipe? { o.nread == o.nwrite }

  predicate Full(o: Obj) requires o.Pipe? { o.nwrite == (o.nread + PIPESIZE) % UINT }

  /** What a process waits out when it sleeps on a channel of the object. */
  predicate Cond(o: Obj, which: nat) {
    match o
    case SleepLock(_, locked, _) => locked
    case Pipe(_, _, _, _, readopen, writeopen, _, _) =>
      if which == 0 then Empty(o) && writeopen else Full(o) && readopen
    case Log(_, outstanding, committing, n) =>
      committing || n + (outstanding + 1) * Journal.MAXOPBLOCKS > Journal.LOGSIZE
  }

  /** The call belongs to the kind of object. */
  predicate Fits(o: Obj, call: Call) {
    match call
    case AcquireSleep => o.SleepLock?
    case ReleaseSleep => o.SleepLock?
    case PipeWrite(src, i, _) => o.Pipe? && i <= |src|
    case PipeRead(n, got) => o.Pipe? && |got| <= n
    case PipeClose(_) => o.Pipe?
    case _ => o.Log?
  }

  predicate Begins(call: Call) {
    match call
    case PipeWrite(_, i, dirty) => i == 0 && !dirty
    case PipeRead(_, got) => got == []
    case _ => true
  }

  predicate Reading(pc: Pc, o: nat) {
    !pc.Out? && !pc.Yielded? && pc.obj == o && pc.call.PipeRead?
  }

  predicate ClosingRead(pc: Pc, o: nat) {
    !pc.Out? && !pc.Yielded? && pc.obj == o && pc.call == PipeClose(false)
  }

  // ---------------------------------------------------------------- steps

  datatype Event =
    | EvCall(p: Pid, o: nat, call: Call)
    | EvLock(p: Pid)
    | EvTest(p: Pid)
    | EvCopy(p: Pid)
    | EvSleep1(p: Pid)
    | EvSleep2(p: Pid)
    | EvSleep3(p: Pid)
    | EvResume(p: Pid)
    | EvWake1(p: Pid)
    | EvWake2(p: Pid)
    | EvWake3(p: Pid)
    | EvLeave(p: Pid)
    | EvYield(p: Pid)
    | EvYieldBack(p: Pid)
    | EvKill(p: Pid)
    | EvPick(p: Pid)
    | EvSchedLock
    | EvSchedUnlock
    | EvErase(o: nat)

  predicate Live(s: State, p: Pid) { p < |s.procs| && s.procs[p].state == Running }

  /** The discipline of the callers: a sleep lock is released by its holder (brelse and iunlock panic
      otherwise), and the reference counts of file.c close an end once, with nobody inside a call on it. */
  predicate MayCall(s: State, p: Pid, o: nat, call: Call)
    requires p < |s.procs| && o < |s.objs|
  {
    match call
    case ReleaseSleep => o in s.procs[p].held
    case PipeRead(_, _) =>
      s.objs[o].Pipe? && s.objs[o].readopen && forall q :: 0 <= q < |s.procs| ==> !ClosingRead(s.procs[q].pc, o)
    case PipeClose(writable) =>
      writable || forall q :: 0 <= q < |s.procs| ==> !Reading(s.procs[q].pc, o)
    case _ => true
  }

  predicate Enabled(s: State, e: Event) {
    match e
    case EvCall(p, o, call) =>
      Live(s, p) && s.procs[p].pc.Out? && o < |s.objs| && Fits(s.objs[o], call) && Begins(call) &&
        MayCall(s, p, o, call)
    case EvLock(p) =>
      Live(s, p) && s.procs[p].pc.Want? && s.procs[p].pc.obj < |s.objs| && s.objs[s.procs[p].pc.obj].lk == None
    case EvTest(p) =>
      Live(s, p) && s.procs[p].pc.In? && s.procs[p].pc.obj < |s.objs| &&
      Testable(s.objs[s.procs[p].pc.obj], s.procs[p].pc.call)
    case EvCopy(p) =>
      Live(s, p) && s.procs[p].pc.Copy? && s.procs[p].pc.obj < |s.objs| && s.procs[p].pc.call.PipeRead? &&
      Testable(s.objs[s.procs[p].pc.obj], s.procs[p].pc.call)
    case EvSleep1(p) => Live(s, p) && s.procs[p].pc.Sleep1? && s.ptable == Free
    case EvSleep2(p) => Live(s, p) && s.procs[p].pc.Sleep2? && s.procs[p].pc.obj < |s.objs|
    case EvSleep3(p) => Live(s, p) && s.procs[p].pc.Sleep3?
    case EvResume(p) => Live(s, p) && s.procs[p].pc.Asleep?
    case EvWake1(p) => Live(s, p) && s.procs[p].pc.Wake1? && s.ptable == Free
    case EvWake2(p) => Live(s, p) && s.procs[p].pc.Wake2?
    case EvWake3(p) => Live(s, p) && s.procs[p].pc.Wake3?
    case EvLeave(p) => Live(s, p) && s.procs[p].pc.Leave? && s.procs[p].pc.obj < |s.objs|
    case EvYield(p) => Live(s, p) && s.procs[p].pc.Out? && s.ptable == Free
    case EvYieldBack(p) => Live(s, p) && s.procs[p].pc.Yielded?
    case EvKill(p) => p < |s.procs| && s.ptable == Free
    case EvPick(p) => p < |s.procs| && s.procs[p].state == Runnable && s.ptable == Sched
    case EvSchedLock => s.ptable == Free
    case EvSchedUnlock => s.ptable == Sched
    case EvErase(o) => o < |s.objs| && s.objs[o].Log? && s.objs[o].committing
  }

  /** The object is of the kind the call needs; end_op's panic on a commit in progress is not a step. */
  predicate Testable(o: Obj, call: Call) {
    Fits(o, call) && (o.Pipe? ==> |o.data| == PIPESIZE) && (call.EndOp? ==> o.Log? && !o.committing)
  }

  function SetPc(s: State, p: Pid, pc: Pc): State
    requires p < |s.procs|
  {
    s.(procs := s.procs[p := s.procs[p].(pc := pc)])
  }

  /** The test at the head of the loop, and the update it guards: the object and the next place. */
  function Test(o: Obj, p: Pid, killed: bool, i: nat, call: Call): (Obj, Pc)
    requires Testable(o, call)
  {
    match call
    case AcquireSleep =>
      if o.locked then (o, Sleep1(i, 0, call)) else (o.(locked := true, pid := p), Leave(i, call))
    case ReleaseSleep => (o.(locked := false, pid := 0), Wake1(i, 0, call))
    case PipeWrite(src, k, _) =>
      if k == |src| then (o, Wake1(i, 0, call))
      else if Full(o) then
        if !o.readopen || killed then (o, Leave(i, call)) else (o, Wake1(i, 0, call))
      else (Put(o, src[k]), In(i, PipeWrite(src, k + 1, true)))
    case PipeRead(_, _) =>
      if Empty(o) && o.writeopen then
        if killed then (o, Leave(i, call)) else (o, Sleep1(i, 0, call))
      else (o, Copy(i, call))
    case PipeClose(writable) =>
      if writable then (o.(writeopen := false), Wake1(i, 0, call)) else (o.(readopen := false), Wake1(i, 1, call))
    case BeginOp =>
      if o.committing then (o, Sleep1(i, 0, call))
      else if o.n + (o.outstanding + 1) * Journal.MAXOPBLOCKS > Journal.LOGSIZE then (o, Sleep1(i, 0, call))
      else (o.(outstanding := o.outstanding + 1), Leave(i, call))
    case EndOp =>
      if o.outstanding - 1 == 0 then (o.(outstanding := 0, committing := true), Leave(i, call))
      else (o.(outstanding := o.outstanding - 1), Wake1(i, 0, call))
    case EndCommit => (o.(committing := false), Wake1(i, 0, call))
    case LogAppend => (o.(n := o.n + 1), Leave(i, call))
  }

  /** p->data[p->nwrite++ % PIPESIZE] = c */
  function Put(o: Obj, c: Byte): Obj
    requires o.Pipe? && |o.data| == PIPESIZE
  {
    o.(data := o.data[o.nwrite % PIPESIZE := c], nwrite := (o.nwrite + 1) % UINT, wrote := o.wrote + [c])
  }

  /** p->data[p->nread++ % PIPESIZE] */
  function Take(o: Obj): Obj
    requires o.Pipe? && |o.data| == PIPESIZE
  {
    o.(nread := (o.nread + 1) % UINT, taken := o.taken + [o.data[o.nread % PIPESIZE]])
  }

  /** One round of piperead's copy loop. */
  function CopyStep(o: Obj, i: nat, call: Call): (Obj, Pc)
    requires Testable(o, call) && call.PipeRead?
  {
    if |call.got| == call.n || Empty(o) then (o, Wake1(i, 1, call))
    else (Take(o), Copy(i, call.(got := call.got + [o.data[o.nread % PIPESIZE]])))
  }

  /** wakeup1 */
  function WakeAll(procs: seq<Proc>, c: Chan): (r: seq<Proc>)
    ensures |r| == |procs|
    ensures forall q :: 0 <= q < |procs| ==> r[q] == if procs[q].state == Sleeping && procs[q].chan == Some(c)
                                                   then procs[q].(state := Runnable) else procs[q]
  {
    seq(|procs|, q requires 0 <= q < |procs| =>
      if procs[q].state == Sleeping && procs[q].chan == Some(c) then procs[q].(state := Runnable) else procs[q])
  }

  function Clean(call: Call): Call {
    if call.PipeWrite? then call.(dirty := false) else call
  }

  /** After a wakeup a writer with bytes left goes to sleep; everyone else returns. */
  function AfterWake(pc: Pc): Pc
    requires pc.Wake3?
  {
    if pc.call.PipeWrite? && pc.call.i < |pc.call.src| then Sleep1(pc.obj, 1, pc.call) else Leave(pc.obj, pc.call)
  }

  function Apply(s: State, e: Event): State
    requires Enabled(s, e)
  {
    match e
    case EvCall(p, o, call) =>
      s.(procs := s.procs[p := s.procs[p].(pc := Want(o, call),
                                           held := if call.ReleaseSleep? then s.procs[p].held - {o}
                                             else s.procs[p].held)])
    case EvLock(p) =>
      var pc := s.procs[p].pc;
      SetPc(s, p, In(pc.obj, pc.call)).(objs := s.objs[pc.obj := s.objs[pc.obj].(lk := Some(p))])
    case EvTest(p) =>
      var pc := s.procs[p].pc;
      var r := Test(s.objs[pc.obj], p, s.procs[p].killed, pc.obj, pc.call);
      SetPc(s, p, r.1).(objs := s.objs[pc.obj := r.0])
    case EvCopy(p) =>
      var pc := s.procs[p].pc;
      var r := CopyStep(s.objs[pc.obj], pc.obj, pc.call);
      SetPc(s, p, r.1).(objs := s.objs[pc.obj := r.0])
    case EvSleep1(p) =>
      var pc := s.procs[p].pc;
      SetPc(s, p, Sleep2(pc.obj, pc.which, pc.call)).(ptable := Held(p))
    case EvSleep2(p) =>
      var pc := s.procs[p].pc;
      SetPc(s, p, Sleep3(pc.obj, pc.which, pc.call)).(objs := s.objs[pc.obj := s.objs[pc.obj].(lk := None)])
    case EvSleep3(p) =>
      var pc := s.procs[p].pc;
      s.(ptable := Sched, procs := s.procs[p := s.procs[p].(
        pc := Asleep(pc.obj, pc.which, pc.call), state := Sleeping, chan := Some(Chan(pc.obj, pc.which)))])
    case EvResume(p) =>
      var pc := s.procs[p].pc;
      s.(ptable := Free, procs := s.procs[p := s.procs[p].(pc := Want(pc.obj, pc.call), chan := None)])
    case EvWake1(p) =>
      var pc := s.procs[p].pc;
      SetPc(s, p, Wake2(pc.obj, pc.which, pc.call)).(ptable := Held(p))
    case EvWake2(p) =>
      var pc := s.procs[p].pc;
      SetPc(s.(procs := WakeAll(s.procs, Chan(pc.obj, pc.which))), p, Wake3(pc.obj, pc.which, Clean(pc.call)))
    case EvWake3(p) => SetPc(s, p, AfterWake(s.procs[p].pc)).(ptable := Free)
    case EvLeave(p) =>
      var pc := s.procs[p].pc;
      s.(objs := s.objs[pc.obj := s.objs[pc.obj].(lk := None)],
         procs := s.procs[p := s.procs[p].(pc := Out, held := if pc.call.AcquireSleep? then s.procs[p].held + {pc.obj}
           else s.procs[p].held)])
    case EvYield(p) => s.(ptable := Sched, procs := s.procs[p := s.procs[p].(pc := Yielded, state := Runnable)])
    case EvYieldBack(p) => SetPc(s, p, Out).(ptable := Free)
    case EvKill(p) =>
      s.(procs := s.procs[p := s.procs[p].(killed := true, state := if s.procs[p].state == Sleeping then Runnable
        else s.procs[p].state)])
    case EvPick(p) => s.(ptable := Held(p), procs := s.procs[p := s.procs[p].(state := Running)])
    case EvSchedLock => s.(ptable := Sched)
    case EvSchedUnlock => s.(ptable := Free)
    case EvErase(o) => s.(objs := s.objs[o := s.objs[o].(n := 0)])
  }

  /** Everything idle: processes running elsewhere or ready to run, locks free, sleep locks open, pipes new. */
  predicate Initial(s: State) {
    && s.ptable == Free
    && (forall p :: 0 <= p < |s.procs| ==>
         (s.procs[p].pc, s.procs[p].state) in {(Out, Running), (Yielded, Runnable)} && s.procs[p].chan == None &&
           s.procs[p].held == {})
    && (forall o :: 0 <= o < |s.objs| ==> s.objs[o].lk == None && match s.objs[o]
         case SleepLock(_, locked, _) => !locked
         case Pipe(_, data, nread, nwrite, _, _, wrote, taken) =>
           |data| == PIPESIZE && nread == 0 && nwrite == 0 && wrote == [] && taken == []
         case Log(_, _, _, _) => true)
  }
}
