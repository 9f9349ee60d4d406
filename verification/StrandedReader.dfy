/** A run of module SleepWakeup in which a killed writer leaves a reader asleep beside a full pipe. */
module StrandedReader {
  import opened Common
  import opened SleepWakeup
  import opened SleepInvariant

  const READ := PipeRead(1, [])

  function Idle(): Proc { Proc(Running, None, false, Out, {}) }

  function EmptyPipe(lk: Option<Pid>): Obj { Pipe(lk, seq(PIPESIZE, _ => 0), 0, 0, true, true, [], []) }

  /** Process 0 is in piperead on an empty pipe, process 1 outside. */
  function Entering(pc: Pc, lk: Option<Pid>, ptable: Ptable): State {
    State([Proc(Running, None, false, pc, {}), Idle()], [EmptyPipe(lk)], ptable)
  }

  function Sleeper(): Proc { Proc(Sleeping, Some(Chan(0, 0)), false, Asleep(0, 0, READ), {}) }

  lemma ReaderSleeps()
    ensures Reaches(Entering(Out, None, Free), State([Sleeper(), Idle()], [EmptyPipe(None)], Free))
  {
    var s0 := Entering(Out, None, Free);
    ReaderFails();
    ReachStep(s0, Entering(Sleep1(0, 0, READ), Some(0), Free), EvSleep1(0));
    ReachStep(s0, Entering(Sleep2(0, 0, READ), Some(0), Held(0)), EvSleep2(0));
    ReachStep(s0, Entering(Sleep3(0, 0, READ), None, Held(0)), EvSleep3(0));
    var s6 := State([Sleeper(), Idle()], [EmptyPipe(None)], Sched);
    assert Apply(Entering(Sleep3(0, 0, READ), None, Held(0)), EvSleep3(0)) == s6;
    ReachStep(s0, s6, EvSchedUnlock);
  }

  lemma ReaderFails()
    ensures Reaches(Entering(Out, None, Free), Entering(Sleep1(0, 0, READ), Some(0), Free))
  {
    var s0 := Entering(Out, None, Free);
    ReachNone(s0);
    ReachStep(s0, s0, EvCall(0, 0, READ));
    ReachStep(s0, Entering(Want(0, READ), None, Free), EvLock(0));
    ReachStep(s0, Entering(In(0, READ), Some(0), Free), EvTest(0));
  }

  /** One more byte than the pipe holds. */
  function TooMuch(): (src: seq<Byte>)
    ensures |src| == PIPESIZE + 1 && forall i :: 0 <= i < |src| ==> src[i] == 7
  {
    seq(PIPESIZE + 1, _ => 7)
  }

  /** The reader sleeps and process 1, inside pipewrite, has put k bytes. */
  function Writing(k: nat, killed: bool, pc: Pc): State
    requires k <= PIPESIZE
  {
    State([Sleeper(), Proc(Running, None, killed, pc, {})],
          [Pipe(Some(1), seq(PIPESIZE, i => if i < k then 7 else 0), 0, k, true, true, TooMuch()[..k], [])], Free)
  }

  function Putting(k: nat): Pc { In(0, PipeWrite(TooMuch(), k, k > 0)) }

  lemma WriterEnters()
    ensures Reaches(Entering(Out, None, Free), Writing(0, false, Putting(0)))
  {
    var s0 := Entering(Out, None, Free);
    ReaderSleeps();
    var s1 := State([Sleeper(), Idle()], [EmptyPipe(None)], Free);
    ReachStep(s0, s1, EvCall(1, 0, PipeWrite(TooMuch(), 0, false)));
    var s2 := State([Sleeper(), Idle().(pc := Want(0, PipeWrite(TooMuch(), 0, false)))], [EmptyPipe(None)], Free);
    assert Apply(s1, EvCall(1, 0, PipeWrite(TooMuch(), 0, false))) == s2;
    ReachStep(s0, s2, EvLock(1));
    assert EmptyPipe(Some(1)).data == Writing(0, false, Putting(0)).objs[0].data;
    assert Apply(s2, EvLock(1)) == Writing(0, false, Putting(0));
  }

  lemma PutOne(k: nat)
    requires k < PIPESIZE
    ensures Enabled(Writing(k, false, Putting(k)), EvTest(1))
    ensures Apply(Writing(k, false, Putting(k)), EvTest(1)) == Writing(k + 1, false, Putting(k + 1))
  {
    var s, s' := Writing(k, false, Putting(k)), Writing(k + 1, false, Putting(k + 1));
    var o := s.objs[0];
    assert !Full(o) && k % PIPESIZE == k && (k + 1) % UINT == k + 1;
    assert Put(o, 7).data == s'.objs[0].data;
    assert TooMuch()[..k] + [TooMuch()[k]] == TooMuch()[..k + 1];
  }

  lemma {:induction false} PutMany(k: nat)
    requires k <= PIPESIZE
    ensures Reaches(Entering(Out, None, Free), Writing(k, false, Putting(k)))
  {
    if k == 0 {
      WriterEnters();
    } else {
      PutMany(k - 1);
      PutOne(k - 1);
      ReachStep(Entering(Out, None, Free), Writing(k - 1, false, Putting(k - 1)), EvTest(1));
    }
  }

  lemma WriterKilled()
    ensures Reaches(Entering(Out, None, Free), Writing(PIPESIZE, true, Putting(PIPESIZE)))
  {
    PutMany(PIPESIZE);
    var pc := Putting(PIPESIZE);
    ReachStep(Entering(Out, None, Free), Writing(PIPESIZE, false, pc), EvKill(1));
    assert Apply(Writing(PIPESIZE, false, pc), EvKill(1)) == Writing(PIPESIZE, true, pc);
  }

  /** The killed writer finds the pipe full and goes to its early return. */
  lemma WriterGivesUp()
    ensures Reaches(Entering(Out, None, Free), Writing(PIPESIZE, true, Leave(0, Putting(PIPESIZE).call)))
  {
    WriterKilled();
    var pc := Putting(PIPESIZE);
    ReachStep(Entering(Out, None, Free), Writing(PIPESIZE, true, pc), EvTest(1));
    assert Apply(Writing(PIPESIZE, true, pc), EvTest(1)) == Writing(PIPESIZE, true, Leave(0, pc.call));
  }

  /** From an idle start, a reader ends up asleep with nobody holding the lock and a full pipe: its wakeup is lost. */
  lemma LostWakeup() returns (s: State)
    ensures Initial(Entering(Out, None, Free)) && Reaches(Entering(Out, None, Free), s)
    ensures |s.procs| == 2 && |s.objs| == 1 && s.objs[0].Pipe?
    ensures Waits(s.procs[0], 0, 0) && s.objs[0].lk == None && Full(s.objs[0]) && !Cond(s.objs[0], 0)
  {
    WriterGivesUp();
    var s1 := Writing(PIPESIZE, true, Leave(0, Putting(PIPESIZE).call));
    ReachStep(Entering(Out, None, Free), s1, EvLeave(1));
    s := Apply(s1, EvLeave(1));
  }
}
