/** What every step of module SleepWakeup keeps: no wakeup is lost, pipes are first in first out, and
    sleep locks exclude. */
module SleepInvariant {
  import opened Common
  import opened SleepWakeup

  // ---------------------------------------------------------------- places and locks

  predicate Inside(pc: Pc) { !pc.Out? && !pc.Yielded? }

  /** The process holds the object's spin lock. */
  predicate Holds(pc: Pc, o: nat) {
    Inside(pc) && pc.obj == o && !pc.Want? && !pc.Sleep3? && !pc.Asleep?
  }

  /** The process holds ptable.lock. */
  predicate HoldsPtable(p: Proc) {
    p.pc.Sleep2? || p.pc.Sleep3? || p.pc.Wake2? || p.pc.Wake3? ||
      ((p.pc.Asleep? || p.pc.Yielded?) && p.state == Running)
  }

  predicate SleepsOn(call: Call, which: nat) {
    match call
    case AcquireSleep => which == 0
    case BeginOp => which == 0
    case PipeRead(_, _) => which == 0
    case PipeWrite(src, i, _) => which == 1 && i < |src|
    case _ => false
  }

  predicate Wakes(call: Call, which: nat) {
    match call
    case ReleaseSleep => which == 0
    case PipeWrite(_, _, _) => which == 0
    case PipeRead(_, _) => which == 1
    case PipeClose(writable) => which == if writable then 0 else 1
    case EndOp => which == 0
    case EndCommit => which == 0
    case _ => false
  }

  predicate PlaceOk(p: Proc) {
    match p.pc
    case Out => p.state == Running && p.chan == None
    case Yielded => p.state != Sleeping && p.chan == None
    case Asleep(o, which, call) => p.chan == Some(Chan(o, which)) && SleepsOn(call, which)
    case Sleep1(_, which, call) => p.state == Running && p.chan == None && SleepsOn(call, which)
    case Sleep2(_, which, call) => p.state == Running && p.chan == None && SleepsOn(call, which)
    case Sleep3(_, which, call) => p.state == Running && p.chan == None && SleepsOn(call, which)
    case Wake1(_, which, call) => p.state == Running && p.chan == None && Wakes(call, which)
    case Wake2(_, which, call) => p.state == Running && p.chan == None && Wakes(call, which)
    case Wake3(_, which, call) => p.state == Running && p.chan == None && Wakes(call, which)
    case Copy(_, call) => p.state == Running && p.chan == None && call.PipeRead?
    case _ => p.state == Running && p.chan == None
  }

  predicate CallOk(pc: Pc, objs: seq<Obj>) {
    Inside(pc) ==> pc.obj < |objs| && Fits(objs[pc.obj], pc.call)
  }

  predicate Places(s: State) {
    forall p :: 0 <= p < |s.procs| ==> PlaceOk(s.procs[p]) && CallOk(s.procs[p].pc, s.objs)
  }

  /** Each spin lock records who holds it. */
  predicate LkOk(s: State) {
    forall o, p :: 0 <= o < |s.objs| && 0 <= p < |s.procs| ==> (s.objs[o].lk == Some(p) <==> Holds(s.procs[p].pc, o))
  }

  predicate LkBounds(s: State) {
    forall o :: 0 <= o < |s.objs| && s.objs[o].lk.Some? ==> s.objs[o].lk.value < |s.procs|
  }

  predicate PtableOk(s: State) {
    forall p :: 0 <= p < |s.procs| ==> (s.ptable == Held(p) <==> HoldsPtable(s.procs[p]))
  }

  /** Steps of the scheduler, of processes entering or leaving it, and of wakeup. */
  predicate Switches(e: Event) {
    e.EvSleep3? || e.EvResume? || e.EvWake1? || e.EvWake2? || e.EvWake3? || e.EvYield? || e.EvYieldBack? ||
    e.EvKill? || e.EvPick? || e.EvSchedLock? || e.EvSchedUnlock? || e.EvErase?
  }

  lemma PlacesAtTest(s: State, p: Pid)
    requires Places(s) && Enabled(s, EvTest(p))
    ensures Places(Apply(s, EvTest(p)))
  {}

  lemma PlacesAtSleep(s: State, e: Event)
    requires Places(s) && Enabled(s, e) && (e.EvSleep1? || e.EvSleep2? || e.EvSleep3? || e.EvResume?)
    ensures Places(Apply(s, e))
  {}

  lemma PlacesAtWake(s: State, e: Event)
    requires Places(s) && Enabled(s, e) && (e.EvWake1? || e.EvWake2? || e.EvWake3?)
    ensures Places(Apply(s, e))
  {}

  lemma PlacesElsewhere(s: State, e: Event)
    requires Places(s) && Enabled(s, e) && !e.EvTest?
    requires !e.EvSleep1? && !e.EvSleep2? && !e.EvSleep3? && !e.EvResume? && !e.EvWake1? && !e.EvWake2? && !e.EvWake3?
    ensures Places(Apply(s, e))
  {
    hide Places, Apply, Enabled;
    if e.EvCall? || e.EvLock? || e.EvCopy? || e.EvLeave? {
      PlacesInCall(s, e);
    } else {
      PlacesAtScheduler(s, e);
    }
  }

  lemma PlacesInCall(s: State, e: Event)
    requires Places(s) && Enabled(s, e) && (e.EvCall? || e.EvLock? || e.EvCopy? || e.EvLeave?)
    ensures Places(Apply(s, e))
  {}

  lemma PlacesAtScheduler(s: State, e: Event)
    requires Places(s) && Enabled(s, e)
    requires e.EvYield? || e.EvYieldBack? || e.EvKill? || e.EvPick? || e.EvSchedLock? || e.EvSchedUnlock? || e.EvErase?
    ensures Places(Apply(s, e))
  {}

  lemma PlacesKept(s: State, e: Event)
    requires Places(s) && Enabled(s, e)
    ensures Places(Apply(s, e))
  {
    hide Places, Apply, Enabled;
    if e.EvTest? {
      PlacesAtTest(s, e.p);
    } else if e.EvSleep1? || e.EvSleep2? || e.EvSleep3? || e.EvResume? {
      PlacesAtSleep(s, e);
    } else if e.EvWake1? || e.EvWake2? || e.EvWake3? {
      PlacesAtWake(s, e);
    } else {
      PlacesElsewhere(s, e);
    }
  }

  lemma LkAtTest(s: State, p: Pid)
    requires Places(s) && LkOk(s) && LkBounds(s) && Enabled(s, EvTest(p))
    ensures LkOk(Apply(s, EvTest(p))) && LkBounds(Apply(s, EvTest(p)))
  {
  }

  lemma LkAtSwitch(s: State, e: Event)
    requires Places(s) && LkOk(s) && LkBounds(s) && Enabled(s, e) && Switches(e)
    ensures LkOk(Apply(s, e)) && LkBounds(Apply(s, e))
  {
    hide LkOk, LkBounds, Places, Apply, Enabled;
    if e.EvSleep3? || e.EvResume? || e.EvWake1? || e.EvWake2? || e.EvWake3? {
      LkAtHandover(s, e);
    } else {
      LkAtScheduler(s, e);
    }
  }

  lemma LkAtHandover(s: State, e: Event)
    requires Places(s) && LkOk(s) && LkBounds(s) && Enabled(s, e)
    requires e.EvSleep3? || e.EvResume? || e.EvWake1? || e.EvWake2? || e.EvWake3?
    ensures LkOk(Apply(s, e)) && LkBounds(Apply(s, e))
  {}

  lemma LkAtScheduler(s: State, e: Event)
    requires Places(s) && LkOk(s) && LkBounds(s) && Enabled(s, e) && Switches(e)
    requires !e.EvSleep3? && !e.EvResume? && !e.EvWake1? && !e.EvWake2? && !e.EvWake3?
    ensures LkOk(Apply(s, e)) && LkBounds(Apply(s, e))
  {}

  lemma LkElsewhere(s: State, e: Event)
    requires Places(s) && LkOk(s) && LkBounds(s) && Enabled(s, e) && !Switches(e) && !e.EvTest?
    ensures LkOk(Apply(s, e)) && LkBounds(Apply(s, e))
  {}

  lemma PtableAtSwitch(s: State, e: Event)
    requires Places(s) && PtableOk(s) && Enabled(s, e) && Switches(e)
    ensures PtableOk(Apply(s, e))
  {}

  lemma PtableElsewhere(s: State, e: Event)
    requires Places(s) && PtableOk(s) && Enabled(s, e) && !Switches(e)
    ensures PtableOk(Apply(s, e))
  {}

  // ---------------------------------------------------------------- waiting

  /** Past release(lk) on the way to sleep on a channel, or asleep there. */
  predicate Waits(p: Proc, o: nat, which: nat) {
    (p.pc.Sleep3? || (p.pc.Asleep? && p.state == Sleeping)) && p.pc.obj == o && p.pc.which == which
  }

  /** Under lk, between the test that failed and release(lk). */
  predicate Failed(p: Proc, o: nat, which: nat) {
    || ((p.pc.Sleep1? || p.pc.Sleep2?) && p.pc.obj == o && p.pc.which == which)
    || ((p.pc.Wake1? || p.pc.Wake2? || p.pc.Wake3?) && p.pc.obj == o && which == 1 && p.pc.call.PipeWrite? &&
      p.pc.call.i < |p.pc.call.src|)
  }

  /** The process will call wakeup on the channel before it releases lk. */
  predicate Owes(pc: Pc, o: nat, which: nat) {
    match pc
    case In(o', PipeWrite(_, _, dirty)) => o' == o && which == 0 && dirty
    case Copy(o', PipeRead(_, got)) => o' == o && which == 1 && got != []
    case Wake1(o', which', _) => o' == o && which' == which
    case Wake2(o', which', _) => o' == o && which' == which
    case _ => false
  }

  predicate Owed(s: State, o: nat, which: nat)
    requires o < |s.objs|
  {
    s.objs[o].lk.Some? && s.objs[o].lk.value < |s.procs| && Owes(s.procs[s.objs[o].lk.value].pc, o, which)
  }

  /** Whoever waits has its condition true, or its wakeup coming. */
  ghost predicate WaitersOk(s: State) {
    forall p, o, which :: 0 <= p < |s.procs| && 0 <= o < |s.objs| && Waits(s.procs[p], o, which) ==>
      Cond(s.objs[o], which) || Owed(s, o, which)
  }

  ghost predicate FailedOk(s: State) {
    forall p, o, which :: 0 <= p < |s.procs| && 0 <= o < |s.objs| && Failed(s.procs[p], o, which) ==>
      Cond(s.objs[o], which)
  }

  lemma FailedAtTest(s: State, p: Pid)
    requires Places(s) && LkOk(s) && FailedOk(s) && Enabled(s, EvTest(p))
    ensures FailedOk(Apply(s, EvTest(p)))
  {}

  lemma FailedAtWake(s: State, e: Event)
    requires Places(s) && LkOk(s) && FailedOk(s) && Enabled(s, e) && (e.EvWake1? || e.EvWake2? || e.EvWake3?)
    ensures FailedOk(Apply(s, e))
  {}

  lemma FailedAtSwitch(s: State, e: Event)
    requires Places(s) && LkOk(s) && FailedOk(s) && Enabled(s, e) && Switches(e) && !e.EvWake1? && !e.EvWake2?
    requires !e.EvWake3?
    ensures FailedOk(Apply(s, e))
  {}

  lemma FailedElsewhere(s: State, e: Event)
    requires Places(s) && LkOk(s) && FailedOk(s) && Enabled(s, e) && !Switches(e) && !e.EvTest?
    ensures FailedOk(Apply(s, e))
  {}

  /** The early return of a killed or readerless writer. */
  predicate Aborts(s: State, e: Event) {
    && e.EvTest? && Enabled(s, e)
    && var pc := s.procs[e.p].pc;
       pc.call.PipeWrite? && pc.call.i < |pc.call.src| && Full(s.objs[pc.obj]) &&
         (!s.objs[pc.obj].readopen || s.procs[e.p].killed)
  }

  /** Taking or releasing the lock does not change what it protects. */
  lemma SameCond(o: Obj, lk: Option<Pid>, which: nat)
    ensures Cond(o.(lk := lk), which) == Cond(o, which)
  {}

  /** The channels of an object. */
  predicate ChannelOf(o: Obj, which: nat) { which == 0 || (o.Pipe? && which == 1) }

  lemma WaiterChannel(s: State, q: Pid, o: nat, which: nat)
    requires Places(s) && q < |s.procs| && o < |s.objs| && Waits(s.procs[q], o, which)
    ensures ChannelOf(s.objs[o], which)
  {}

  /** A test that makes a condition false leaves the process owing the wakeup. */
  lemma TestOwes(o: Obj, p: Pid, killed: bool, i: nat, call: Call, which: nat)
    requires Testable(o, call) && ChannelOf(o, which) && (Cond(o, which) || Owes(In(i, call), i, which))
    requires !(call.PipeWrite? && call.i < |call.src| && Full(o) && (!o.readopen || killed))
    ensures var r := Test(o, p, killed, i, call); Cond(r.0, which) || Owes(r.1, i, which)
  {}

  lemma CopyOwes(o: Obj, i: nat, call: Call, which: nat)
    requires Testable(o, call) && call.PipeRead? && ChannelOf(o, which)
    requires (Cond(o, which) || Owes(Copy(i, call), i, which))
    ensures var r := CopyStep(o, i, call); Cond(r.0, which) || Owes(r.1, i, which)
  {}

  /** A step of the holder of one lock that owes what it must; the other objects are as before. */
  lemma HolderStep(s: State, s': State, p: Pid, i: nat)
    requires Places(s) && LkOk(s) && LkBounds(s) && WaitersOk(s)
    requires p < |s.procs| && i < |s.objs| && Holds(s.procs[p].pc, i) && !s.procs[p].pc.Sleep2?
    requires |s'.procs| == |s.procs| && |s'.objs| == |s.objs|
    requires forall q :: 0 <= q < |s.procs| && q != p ==> s'.procs[q] == s.procs[q]
    requires forall o :: 0 <= o < |s.objs| && o != i ==> s'.objs[o] == s.objs[o]
    requires s'.objs[i].lk == s.objs[i].lk && Holds(s'.procs[p].pc, i)
    requires forall which ::
      (ChannelOf(s.objs[i], which) && (Cond(s.objs[i], which) || Owes(s.procs[p].pc, i, which))) ==>
      Cond(s'.objs[i], which) || Owes(s'.procs[p].pc, i, which)
    ensures WaitersOk(s')
  {
    forall q, o, which: nat | 0 <= q < |s'.procs| && 0 <= o < |s'.objs| && Waits(s'.procs[q], o, which)
      ensures Cond(s'.objs[o], which) || Owed(s', o, which)
    {
      assert q != p && Waits(s.procs[q], o, which);
      WaiterChannel(s, q, o, which);
      if o != i && Owed(s, o, which) {
        assert Holds(s.procs[s.objs[o].lk.value].pc, o);
      }
    }
  }

  lemma WaitersAtTest(s: State, p: Pid)
    requires Places(s) && LkOk(s) && LkBounds(s) && WaitersOk(s) && Enabled(s, EvTest(p)) && !Aborts(s, EvTest(p))
    ensures WaitersOk(Apply(s, EvTest(p)))
  {
    var pc := s.procs[p].pc;
    forall which | ChannelOf(s.objs[pc.obj], which) && (Cond(s.objs[pc.obj], which) || Owes(pc, pc.obj, which))
      ensures var r := Test(s.objs[pc.obj], p, s.procs[p].killed, pc.obj, pc.call);
        Cond(r.0, which) || Owes(r.1, pc.obj, which)
    {
      TestOwes(s.objs[pc.obj], p, s.procs[p].killed, pc.obj, pc.call, which);
    }
    HolderStep(s, Apply(s, EvTest(p)), p, pc.obj);
  }

  lemma WaitersAtCopy(s: State, p: Pid)
    requires Places(s) && LkOk(s) && LkBounds(s) && WaitersOk(s) && Enabled(s, EvCopy(p))
    ensures WaitersOk(Apply(s, EvCopy(p)))
  {
    var pc := s.procs[p].pc;
    forall which | ChannelOf(s.objs[pc.obj], which) && (Cond(s.objs[pc.obj], which) || Owes(pc, pc.obj, which))
      ensures var r := CopyStep(s.objs[pc.obj], pc.obj, pc.call); Cond(r.0, which) || Owes(r.1, pc.obj, which)
    {
      CopyOwes(s.objs[pc.obj], pc.obj, pc.call, which);
    }
    HolderStep(s, Apply(s, EvCopy(p)), p, pc.obj);
  }

  /** A lock is released only by a process that owes nothing, and then every waiter's condition is true. */
  lemma WaitersAtUnlock(s: State, e: Event)
    requires Places(s) && LkOk(s) && LkBounds(s) && WaitersOk(s) && FailedOk(s) && Enabled(s, e)
    requires (e.EvSleep2? || e.EvLeave?)
    ensures WaitersOk(Apply(s, e))
  {
    var s' := Apply(s, e);
    var i := s.procs[e.p].pc.obj;
    forall q, o, which: nat | 0 <= q < |s'.procs| && 0 <= o < |s'.objs| && Waits(s'.procs[q], o, which)
      ensures Cond(s'.objs[o], which) || Owed(s', o, which)
    {
      if q == e.p {
        assert Failed(s.procs[q], o, which);
        SameCond(s.objs[i], None, which);
      } else {
        assert Waits(s.procs[q], o, which);
        if o == i {
          assert Holds(s.procs[e.p].pc, i) && !Owes(s.procs[e.p].pc, i, which);
          SameCond(s.objs[i], None, which);
        } else if Owed(s, o, which) {
          assert Holds(s.procs[s.objs[o].lk.value].pc, o);
        }
      }
    }
  }

  lemma WaitersAtLock(s: State, p: Pid)
    requires Places(s) && LkOk(s) && LkBounds(s) && WaitersOk(s) && Enabled(s, EvLock(p))
    ensures WaitersOk(Apply(s, EvLock(p)))
  {
    var s' := Apply(s, EvLock(p));
    var i := s.procs[p].pc.obj;
    forall q, o, which: nat | 0 <= q < |s'.procs| && 0 <= o < |s'.objs| && Waits(s'.procs[q], o, which)
      ensures Cond(s'.objs[o], which) || Owed(s', o, which)
    {
      assert Waits(s.procs[q], o, which);
      if o == i {
        SameCond(s.objs[i], Some(p), which);
      } else if Owed(s, o, which) {
        assert Holds(s.procs[s.objs[o].lk.value].pc, o);
      }
    }
  }

  lemma WaitersAtSwitch(s: State, e: Event)
    requires Places(s) && LkOk(s) && LkBounds(s) && PtableOk(s) && WaitersOk(s) && FailedOk(s) && Enabled(s, e)
    requires e.EvSleep3? || e.EvResume? || e.EvPick?
    ensures WaitersOk(Apply(s, e))
  {
    hide LkOk, LkBounds;
  }

  /** wakeup1 runs with ptable.lock, so no process is between release(lk) and SLEEPING then. */
  lemma WaitersAtWakeup1(s: State, p: Pid)
    requires Places(s) && LkOk(s) && LkBounds(s) && PtableOk(s) && WaitersOk(s) && Enabled(s, EvWake2(p))
    ensures WaitersOk(Apply(s, EvWake2(p)))
  {
    var s' := Apply(s, EvWake2(p));
    var pc := s.procs[p].pc;
    forall q, o, which: nat | 0 <= q < |s'.procs| && 0 <= o < |s'.objs| && Waits(s'.procs[q], o, which)
      ensures Cond(s'.objs[o], which) || Owed(s', o, which)
    {
      assert s.ptable == Held(p) && q != p && Waits(s.procs[q], o, which);
      assert !s.procs[q].pc.Sleep3?;
      assert PlaceOk(s.procs[q]) && (o, which) != (pc.obj, pc.which);
      if Owed(s, o, which) {
        var h := s.objs[o].lk.value;
        assert h != p ==> s'.procs[h].pc == s.procs[h].pc;
      }
    }
  }

  lemma WaitersAtPtableLock(s: State, e: Event)
    requires Places(s) && LkOk(s) && LkBounds(s) && WaitersOk(s) && Enabled(s, e)
    requires (e.EvWake1? || e.EvWake3? || e.EvSleep1?)
    ensures WaitersOk(Apply(s, e))
  {
    HolderStep(s, Apply(s, e), e.p, s.procs[e.p].pc.obj);
  }

  lemma WaitersOutside(s: State, e: Event)
    requires Places(s) && LkOk(s) && LkBounds(s) && WaitersOk(s) && Enabled(s, e)
    requires (e.EvCall? || e.EvYield? || e.EvYieldBack?)
    ensures WaitersOk(Apply(s, e))
  {
  }

  lemma WaitersElsewhere(s: State, e: Event)
    requires Places(s) && LkBounds(s) && WaitersOk(s) && Enabled(s, e)
    requires e.EvKill? || e.EvSchedLock? || e.EvSchedUnlock?
    ensures WaitersOk(Apply(s, e))
  {}

  lemma WaitersAtErase(s: State, e: Event)
    requires Places(s) && LkBounds(s) && WaitersOk(s) && Enabled(s, e) && e.EvErase?
    ensures WaitersOk(Apply(s, e))
  {}

  lemma WaitersKept(s: State, e: Event)
    requires Places(s) && LkOk(s) && LkBounds(s) && PtableOk(s) && WaitersOk(s) && FailedOk(s) && Enabled(s, e)
    requires !Aborts(s, e)
    ensures WaitersOk(Apply(s, e))
  {
    hide Apply, Enabled, Places, LkOk, LkBounds, PtableOk, WaitersOk, FailedOk, Aborts;
    match e
    case EvTest(p) => WaitersAtTest(s, p);
    case EvCopy(p) => WaitersAtCopy(s, p);
    case EvLock(p) => WaitersAtLock(s, p);
    case EvSleep2(_) => WaitersAtUnlock(s, e);
    case EvLeave(_) => WaitersAtUnlock(s, e);
    case EvSleep1(_) => WaitersAtPtableLock(s, e);
    case EvSleep3(_) => WaitersAtSwitch(s, e);
    case EvResume(_) => WaitersAtSwitch(s, e);
    case EvPick(_) => WaitersAtSwitch(s, e);
    case EvWake1(_) => WaitersAtPtableLock(s, e);
    case EvWake2(p) => WaitersAtWakeup1(s, p);
    case EvWake3(_) => WaitersAtPtableLock(s, e);
    case EvCall(_, _, _) => WaitersOutside(s, e);
    case EvYield(_) => WaitersOutside(s, e);
    case EvYieldBack(_) => WaitersOutside(s, e);
    case EvErase(_) => WaitersAtErase(s, e);
    case _ => WaitersElsewhere(s, e);
  }

  // ---------------------------------------------------------------- open ends

  predicate ReadersOk(s: State) {
    forall p, o :: 0 <= p < |s.procs| && 0 <= o < |s.objs| && Reading(s.procs[p].pc, o) && s.objs[o].Pipe? ==>
      s.objs[o].readopen && forall q :: 0 <= q < |s.procs| ==> !ClosingRead(s.procs[q].pc, o)
  }

  lemma ReadersAtTest(s: State, p: Pid)
    requires Places(s) && ReadersOk(s) && Enabled(s, EvTest(p))
    ensures ReadersOk(Apply(s, EvTest(p)))
  {}

  lemma ReadersAtWake(s: State, e: Event)
    requires Places(s) && ReadersOk(s) && Enabled(s, e) && (e.EvWake1? || e.EvWake2? || e.EvWake3?)
    ensures ReadersOk(Apply(s, e))
  {}

  lemma ReadersAtSwitch(s: State, e: Event)
    requires Places(s) && ReadersOk(s) && Enabled(s, e) && Switches(e) && !e.EvWake1? && !e.EvWake2? && !e.EvWake3?
    ensures ReadersOk(Apply(s, e))
  {}

  lemma ReadersElsewhere(s: State, e: Event)
    requires Places(s) && ReadersOk(s) && Enabled(s, e) && !Switches(e) && !e.EvTest?
    ensures ReadersOk(Apply(s, e))
  {}

  // ---------------------------------------------------------------- sleep locks

  /** From the moment the lock is taken to the moment it is given up. */
  predicate Owner(p: Proc, o: nat) {
    o in p.held || p.pc == Leave(o, AcquireSleep) || p.pc == Want(o, ReleaseSleep) || p.pc == In(o, ReleaseSleep)
  }

  predicate OwnersOk(s: State) {
    forall p, o :: 0 <= p < |s.procs| && 0 <= o < |s.objs| && s.objs[o].SleepLock? ==>
      (Owner(s.procs[p], o) <==> s.objs[o].locked && s.objs[o].pid == p)
  }

  /** A lock is in `held` only while no release of it is in progress. */
  predicate HeldIn(p: Proc, objs: seq<Obj>) {
    forall o :: o in p.held ==>
      o < |objs| && objs[o].SleepLock? && p.pc != Want(o, ReleaseSleep) && p.pc != In(o, ReleaseSleep)
  }

  predicate HeldOk(s: State) {
    forall p :: 0 <= p < |s.procs| ==> HeldIn(s.procs[p], s.objs)
  }

  lemma HeldAtSwitch(s: State, e: Event)
    requires Places(s) && HeldOk(s) && Enabled(s, e) && Switches(e)
    ensures HeldOk(Apply(s, e))
  {
  }

  lemma HeldElsewhere(s: State, e: Event)
    requires Places(s) && HeldOk(s) && Enabled(s, e) && !Switches(e)
    ensures HeldOk(Apply(s, e))
  {}

  lemma OwnersAtTest(s: State, p: Pid)
    requires Places(s) && OwnersOk(s) && HeldOk(s) && Enabled(s, EvTest(p))
    ensures OwnersOk(Apply(s, EvTest(p)))
  {}

  lemma OwnersAtEdges(s: State, e: Event)
    requires Places(s) && OwnersOk(s) && HeldOk(s) && Enabled(s, e)
    requires (e.EvCall? || e.EvLock? || e.EvLeave? || e.EvResume?)
    ensures OwnersOk(Apply(s, e))
  {
  }

  lemma OwnersElsewhere(s: State, e: Event)
    requires Places(s) && OwnersOk(s) && Enabled(s, e) && !e.EvTest? && !e.EvCall? && !e.EvLock? && !e.EvLeave?
    requires !e.EvResume?
    ensures OwnersOk(Apply(s, e))
  {
    hide Places, OwnersOk, Enabled, Apply;
    if e.EvCopy? || e.EvErase? || e.EvSleep1? || e.EvSleep2? || e.EvSleep3? {
      OwnersAtSleep(s, e);
    } else {
      OwnersAtWake(s, e);
    }
  }

  lemma OwnersAtSleep(s: State, e: Event)
    requires Places(s) && OwnersOk(s) && Enabled(s, e)
    requires e.EvCopy? || e.EvErase? || e.EvSleep1? || e.EvSleep2? || e.EvSleep3?
    ensures OwnersOk(Apply(s, e))
  {}

  lemma OwnersAtWake(s: State, e: Event)
    requires Places(s) && OwnersOk(s) && Enabled(s, e)
    requires e.EvWake1? || e.EvWake2? || e.EvWake3? || e.EvYield? || e.EvYieldBack? || e.EvKill? || e.EvPick? ||
      e.EvSchedLock? || e.EvSchedUnlock?
    ensures OwnersOk(Apply(s, e))
  {}

  // ---------------------------------------------------------------- pipes

  /** The ring holds the bytes written and not yet taken, and the counters count modulo 2^32. */
  predicate PipeOk(o: Obj)
    requires o.Pipe?
  {
    && |o.data| == PIPESIZE
    && o.taken <= o.wrote && |o.wrote| <= |o.taken| + PIPESIZE
    && o.nread == |o.taken| % UINT && o.nwrite == |o.wrote| % UINT
    && forall k :: |o.taken| <= k < |o.wrote| ==> o.data[k % PIPESIZE] == o.wrote[k]
  }

  predicate PipesOk(s: State) {
    forall o :: 0 <= o < |s.objs| && s.objs[o].Pipe? ==> PipeOk(s.objs[o])
  }

  /** The tests on the wrapping counters say what they mean. */
  lemma FullMeans(o: Obj)
    requires o.Pipe? && PipeOk(o)
    ensures Full(o) <==> |o.wrote| == |o.taken| + PIPESIZE
    ensures Empty(o) <==> o.wrote == o.taken
  {}

  lemma PutKeeps(o: Obj, c: Byte)
    requires o.Pipe? && PipeOk(o) && !Full(o)
    ensures PipeOk(Put(o, c))
  {
    FullMeans(o);
    RingSlot(|o.wrote|);
    var o' := Put(o, c);
    forall k | |o'.taken| <= k < |o'.wrote| ensures o'.data[k % PIPESIZE] == o'.wrote[k] {
      if k < |o.wrote| { RingDistinct(k, |o.wrote|); }
    }
  }

  lemma TakeKeeps(o: Obj)
    requires o.Pipe? && PipeOk(o) && !Empty(o)
    ensures PipeOk(Take(o)) && o.data[o.nread % PIPESIZE] == o.wrote[|o.taken|]
  {
    FullMeans(o);
    RingSlot(|o.taken|);
  }

  /** PIPESIZE divides 2^32, so a wrapped counter names the same slot. */
  lemma RingSlot(k: nat)
    ensures k % UINT % PIPESIZE == k % PIPESIZE && (k % UINT + 1) % UINT == (k + 1) % UINT
  {
  }

  lemma RingDistinct(j: nat, k: nat)
    requires j < k < j + PIPESIZE
    ensures j % PIPESIZE != k % PIPESIZE
  {}

  lemma PipesKept(s: State, e: Event)
    requires Places(s) && PipesOk(s) && Enabled(s, e)
    ensures PipesOk(Apply(s, e))
  {
    match e
    case EvTest(p) =>
      var o := s.objs[s.procs[p].pc.obj];
      if s.procs[p].pc.call.PipeWrite? && s.procs[p].pc.call.i < |s.procs[p].pc.call.src| && !Full(o) {
        PutKeeps(o, s.procs[p].pc.call.src[s.procs[p].pc.call.i]);
      }
    case EvCopy(p) =>
      var o := s.objs[s.procs[p].pc.obj];
      if !Empty(o) { TakeKeeps(o); }
    case _ =>
  }

  // ---------------------------------------------------------------- every step, every run

  /** What holds with or without killed writers. */
  ghost predicate Sound(s: State) {
    Places(s) && LkOk(s) && LkBounds(s) && PtableOk(s) && FailedOk(s) && ReadersOk(s) && OwnersOk(s) && HeldOk(s) &&
      PipesOk(s)
  }

  ghost predicate Inv(s: State) { Sound(s) && WaitersOk(s) }

  lemma HeldAndPtableStep(s: State, e: Event)
    requires Places(s) && HeldOk(s) && PtableOk(s) && Enabled(s, e)
    ensures HeldOk(Apply(s, e)) && PtableOk(Apply(s, e))
  {
    hide Places, HeldOk, PtableOk, Apply, Enabled;
    if Switches(e) {
      HeldAtSwitch(s, e);
      PtableAtSwitch(s, e);
    } else {
      HeldElsewhere(s, e);
      PtableElsewhere(s, e);
    }
  }

  lemma SoundStep(s: State, e: Event)
    requires Sound(s) && Enabled(s, e)
    ensures Sound(Apply(s, e))
  {
    hide Places, LkOk, LkBounds, PtableOk, FailedOk, ReadersOk, OwnersOk, HeldOk, PipesOk, Apply, Enabled;
    PlacesKept(s, e);
    HeldAndPtableStep(s, e);
    if e.EvTest? {
      LkAtTest(s, e.p);
      FailedAtTest(s, e.p);
      ReadersAtTest(s, e.p);
    } else if Switches(e) {
      LkAtSwitch(s, e);
      if e.EvWake1? || e.EvWake2? || e.EvWake3? {
        FailedAtWake(s, e);
        ReadersAtWake(s, e);
      } else {
        FailedAtSwitch(s, e);
        ReadersAtSwitch(s, e);
      }
    } else {
      LkElsewhere(s, e);
      FailedElsewhere(s, e);
      ReadersElsewhere(s, e);
    }
    if e.EvTest? { OwnersAtTest(s, e.p); }
    else if e.EvCall? || e.EvLock? || e.EvLeave? || e.EvResume? { OwnersAtEdges(s, e); }
    else { OwnersElsewhere(s, e); }
    PipesKept(s, e);
  }

  /** A reader of the pipe waits for bytes. */
  predicate ReaderWaits(s: State, o: nat) {
    exists q :: 0 <= q < |s.procs| && Waits(s.procs[q], o, 0)
  }

  /** The early return of pipewrite while a reader waits. */
  predicate Strands(s: State, e: Event) {
    Aborts(s, e) && ReaderWaits(s, s.procs[e.p].pc.obj)
  }

  /** pipewrite's early return keeps the invariant exactly when no reader is waiting. */
  lemma AbortExactly(s: State, e: Event)
    requires Inv(s) && Aborts(s, e)
    ensures Inv(Apply(s, e)) <==> !ReaderWaits(s, s.procs[e.p].pc.obj)
  {
    SoundStep(s, e);
    var s' := Apply(s, e);
    var i := s.procs[e.p].pc.obj;
    assert s'.objs == s.objs && Holds(s'.procs[e.p].pc, i) && s.objs[i].lk == Some(e.p);
    FullMeans(s.objs[i]);
    assert !Cond(s.objs[i], 0);
    if ReaderWaits(s, i) {
      var q :| 0 <= q < |s.procs| && Waits(s.procs[q], i, 0);
      assert Waits(s'.procs[q], i, 0) && !Owed(s', i, 0);
    } else {
      AbortQuiet(s, e);
    }
  }

  lemma AbortQuiet(s: State, e: Event)
    requires Inv(s) && Aborts(s, e) && !ReaderWaits(s, s.procs[e.p].pc.obj)
    ensures WaitersOk(Apply(s, e))
  {
    var s' := Apply(s, e);
    var i := s.procs[e.p].pc.obj;
    forall q, o, which: nat | 0 <= q < |s'.procs| && 0 <= o < |s'.objs| && Waits(s'.procs[q], o, which)
      ensures Cond(s'.objs[o], which) || Owed(s', o, which)
    {
      assert Waits(s.procs[q], o, which);
      WaiterChannel(s, q, o, which);
      if o != i && Owed(s, o, which) {
        assert Holds(s.procs[s.objs[o].lk.value].pc, o);
      }
    }
  }

  lemma StepKeeps(s: State, e: Event)
    requires Inv(s) && Enabled(s, e) && !Strands(s, e)
    ensures Inv(Apply(s, e))
  {
    if Aborts(s, e) {
      AbortExactly(s, e);
    } else {
      SoundStep(s, e);
      WaitersKept(s, e);
    }
  }

  predicate Runs(s: State, es: seq<Event>)
    decreases |es|
  {
    es == [] || (Enabled(s, es[0]) && Runs(Apply(s, es[0]), es[1..]))
  }

  function After(s: State, es: seq<Event>): State
    requires Runs(s, es)
    decreases |es|
  {
    if es == [] then s else After(Apply(s, es[0]), es[1..])
  }

  /** In no step of the run does a writer give up while a reader waits. */
  predicate NoStranding(s: State, es: seq<Event>)
    requires Runs(s, es)
    decreases |es|
  {
    es == [] || (!Strands(s, es[0]) && NoStranding(Apply(s, es[0]), es[1..]))
  }

  lemma {:induction false} RunSound(s: State, es: seq<Event>)
    requires Sound(s) && Runs(s, es)
    ensures Sound(After(s, es))
    decreases |es|
  {
    if es != [] {
      SoundStep(s, es[0]);
      RunSound(Apply(s, es[0]), es[1..]);
    }
  }

  lemma {:induction false} RunKeeps(s: State, es: seq<Event>)
    requires Inv(s) && Runs(s, es) && NoStranding(s, es)
    ensures Inv(After(s, es))
    decreases |es|
  {
    if es != [] {
      StepKeeps(s, es[0]);
      RunKeeps(Apply(s, es[0]), es[1..]);
    }
  }

  lemma InitialInv(s: State)
    requires Initial(s)
    ensures Inv(s)
  {}

  /** Whenever a lock is free, everyone asleep on its object, or on the way there, has reason to sleep. */
  lemma NoLostWakeup(s: State, es: seq<Event>, p: Pid, o: nat, which: nat)
    requires Initial(s) && Runs(s, es) && NoStranding(s, es)
    requires var t := After(s, es); p < |t.procs| && o < |t.objs| && t.objs[o].lk == None && Waits(t.procs[p], o, which)
    ensures Cond(After(s, es).objs[o], which)
  {
    hide Initial, Runs, After, Sound, NoStranding, Waits, Cond;
    InitialInv(s);
    RunKeeps(s, es);
  }

  /** When a writer does give up with a reader waiting, the reader sleeps on with the lock free and bytes to read. */
  lemma StrandedReader(s: State, e: Event) returns (q: Pid)
    requires Inv(s) && Strands(s, e)
    ensures Enabled(Apply(s, e), EvLeave(e.p))
    ensures var t := Apply(Apply(s, e), EvLeave(e.p)); var o := s.procs[e.p].pc.obj;
      q < |t.procs| && Waits(t.procs[q], o, 0) && t.objs[o].lk == None && t.objs[o].taken < t.objs[o].wrote
  {
    var o := s.procs[e.p].pc.obj;
    q :| 0 <= q < |s.procs| && Waits(s.procs[q], o, 0);
    FullMeans(s.objs[o]);
  }

  /** At most one process has a sleep lock, and holdingsleep tells it so. */
  lemma SleepLocksExclude(s: State, es: seq<Event>, p: Pid, q: Pid, o: nat)
    requires Initial(s) && Runs(s, es)
    requires var t := After(s, es); p < |t.procs| && q < |t.procs| && o < |t.objs| && o in t.procs[p].held
    ensures var t := After(s, es); t.objs[o].SleepLock? && t.objs[o].locked && t.objs[o].pid == p
    ensures o in After(s, es).procs[q].held ==> p == q
  {
    InitialInv(s);
    RunSound(s, es);
    var t := After(s, es);
    assert HeldIn(t.procs[p], t.objs);
    assert Owner(t.procs[p], o);
    if o in t.procs[q].held { assert Owner(t.procs[q], o); }
  }

  /** Bytes come out of a pipe in the order they went in, none lost or repeated, and at most PIPESIZE wait. */
  lemma PipeFifo(s: State, es: seq<Event>, o: nat)
    requires Initial(s) && Runs(s, es) && o < |After(s, es).objs| && After(s, es).objs[o].Pipe?
    ensures var pipe := After(s, es).objs[o]; pipe.taken <= pipe.wrote && |pipe.wrote| - |pipe.taken| <= 512
    ensures var pipe := After(s, es).objs[o];
      (Empty(pipe) <==> pipe.wrote == pipe.taken) && (Full(pipe) <==> |pipe.wrote| - |pipe.taken| == 512)
  {
    InitialInv(s);
    RunSound(s, es);
    FullMeans(After(s, es).objs[o]);
  }

  /** A process that has been killed is awake until it goes to sleep again of its own. */
  lemma KillWakes(s: State, es: seq<Event>, p: Pid)
    requires Enabled(s, EvKill(p)) && Runs(Apply(s, EvKill(p)), es)
    requires forall j :: 0 <= j < |es| ==> es[j] != EvSleep3(p)
    ensures var t := After(Apply(s, EvKill(p)), es); p < |t.procs| && t.procs[p].killed && t.procs[p].state != Sleeping
  {
    AwakeRun(Apply(s, EvKill(p)), es, p);
  }

  lemma AwakeStep(s: State, e: Event, p: Pid)
    requires Enabled(s, e) && p < |s.procs| && s.procs[p].killed && s.procs[p].state != Sleeping && e != EvSleep3(p)
    ensures var t := Apply(s, e); p < |t.procs| && t.procs[p].killed && t.procs[p].state != Sleeping
  {}

  lemma {:induction false} AwakeRun(s: State, es: seq<Event>, p: Pid)
    requires Runs(s, es) && p < |s.procs| && s.procs[p].killed && s.procs[p].state != Sleeping
    requires forall j :: 0 <= j < |es| ==> es[j] != EvSleep3(p)
    ensures var t := After(s, es); p < |t.procs| && t.procs[p].killed && t.procs[p].state != Sleeping
    decreases |es|
  {
    hide Apply, Enabled;
    if es != [] {
      AwakeStep(s, es[0], p);
      AwakeRun(Apply(s, es[0]), es[1..], p);
    }
  }

  /** begin_op's test: the operation starts exactly when no commit runs and ten blocks for it and for each other one
      fit into thirty; otherwise the process goes to sleep. */
  lemma BeginFits(s: State, p: Pid)
    requires Enabled(s, EvTest(p)) && s.procs[p].pc.call.BeginOp? && s.objs[s.procs[p].pc.obj].Log?
    ensures var o := s.procs[p].pc.obj; var t := Apply(s, EvTest(p)); var log := s.objs[o];
      if !log.committing && log.n + 10 * (log.outstanding + 1) <= 30
      then t.procs[p].pc.Leave? && t.objs[o].Log? && t.objs[o].outstanding == log.outstanding + 1
      else t.procs[p].pc.Sleep1? && t.objs[o] == log
  {}

  /** sched() is entered with ptable.lock and no other lock: none of its lock panics is reached. */
  lemma SchedHoldsOneLock(s: State, es: seq<Event>, p: Pid, o: nat)
    requires Initial(s) && Runs(s, es) && Enabled(After(s, es), EvSleep3(p)) && o < |After(s, es).objs|
    ensures After(s, es).ptable == Held(p) && After(s, es).objs[o].lk != Some(p)
  {
    InitialInv(s);
    RunSound(s, es);
  }

  lemma {:induction false} RunsSnoc(s: State, es: seq<Event>, e: Event)
    requires Runs(s, es) && Enabled(After(s, es), e)
    ensures Runs(s, es + [e]) && After(s, es + [e]) == Apply(After(s, es), e)
    decreases |es|
  {
    if es == [] {
      assert es + [e] == [e] && [e][1..] == [];
    } else {
      RunsSnoc(Apply(s, es[0]), es[1..], e);
      assert (es + [e])[0] == es[0] && (es + [e])[1..] == es[1..] + [e];
    }
  }

  ghost predicate Reaches(s: State, t: State) {
    exists es :: Runs(s, es) && After(s, es) == t
  }

  lemma ReachNone(s: State)
    ensures Reaches(s, s)
  {
    assert Runs(s, []) && After(s, []) == s;
  }

  lemma ReachStep(s: State, t: State, e: Event)
    requires Reaches(s, t) && Enabled(t, e)
    ensures Reaches(s, Apply(t, e))
  {
    var es :| Runs(s, es) && After(s, es) == t;
    RunsSnoc(s, es, e);
  }
}
