/** What readers and writers of a pipe pass through it: over every run, the bytes that pipereads return, in the order
    in which they return, are a prefix of the bytes that pipewrites have got rid of, in the order in which they did. */
module PipeBytes {
  import opened Common
  import opened SleepWakeup
  import opened SleepInvariant

  /** The process that takes the step. */
  function Actor(e: Event): Option<Pid> {
    match e
    case EvSchedLock => None
    case EvSchedUnlock => None
    case EvErase(_) => None
    case _ => Some(e.p)
  }

  /** A piperead on o in progress. */
  predicate Reads(pc: Pc, o: nat) { Inside(pc) && pc.obj == o && pc.call.PipeRead? }

  predicate Writes(pc: Pc, o: nat) { Inside(pc) && pc.obj == o && pc.call.PipeWrite? }

  // ---------------------------------------------------------------- what a run passes, seen from the calls

  /** What the step makes a piperead on o return. */
  function Back(s: State, e: Event, o: nat): seq<Byte>
    requires Enabled(s, e)
  {
    if e.EvLeave? && Reads(s.procs[e.p].pc, o) then s.procs[e.p].pc.call.got else []
  }

  /** The bytes that the step moves a pipewrite on o past. */
  function Sent(s: State, e: Event, o: nat): seq<Byte>
    requires Enabled(s, e)
  {
    if Actor(e).None? || Actor(e).value >= |s.procs| || Actor(e).value >= |Apply(s, e).procs| then [] else
    var pc, pc' := s.procs[Actor(e).value].pc, Apply(s, e).procs[Actor(e).value].pc;
    if Writes(pc, o) && Writes(pc', o) && pc.call.i <= pc'.call.i <= |pc.call.src|
    then pc.call.src[pc.call.i..pc'.call.i] else []
  }

  /** Everything pipereads on o have returned in the run, one call after the other. */
  function Returned(s: State, es: seq<Event>, o: nat): seq<Byte>
    requires Runs(s, es)
    decreases |es|
  {
    if es == [] then [] else Back(s, es[0], o) + Returned(Apply(s, es[0]), es[1..], o)
  }

  /** Everything pipewrites on o have passed in the run, of one process or of all. */
  function Passed(s: State, es: seq<Event>, o: nat, who: Option<Pid>): seq<Byte>
    requires Runs(s, es)
    decreases |es|
  {
    if es == [] then [] else
    (if who.None? || who == Actor(es[0]) then Sent(s, es[0], o) else []) + Passed(Apply(s, es[0]), es[1..], o, who)
  }

  // ---------------------------------------------------------------- calls in progress

  /** Before its copy loop a piperead has nothing yet. */
  predicate GotOk(pc: Pc) {
    Inside(pc) && pc.call.PipeRead? && !pc.Copy? && !pc.Wake1? && !pc.Wake2? && !pc.Wake3? && !pc.Leave? ==>
      pc.call.got == []
  }

  predicate GotsOk(s: State) { forall p :: 0 <= p < |s.procs| ==> GotOk(s.procs[p].pc) }

  /** What the piperead that holds the lock of o has copied. */
  function Copying(s: State, o: nat): seq<Byte>
    requires o < |s.objs|
  {
    if s.objs[o].lk.Some? && s.objs[o].lk.value < |s.procs| && Reads(s.procs[s.objs[o].lk.value].pc, o)
    then s.procs[s.objs[o].lk.value].pc.call.got else []
  }

  /** It is the last of what has been taken out. */
  predicate CopyLast(s: State, o: nat) {
    o < |s.objs| && s.objs[o].Pipe? && Last(s.objs[o].taken, Copying(s, o))
  }

  predicate Last(t: seq<Byte>, c: seq<Byte>) { |c| <= |t| && t[|t| - |c|..] == c }

  function Front(t: seq<Byte>, c: seq<Byte>): seq<Byte>
    requires Last(t, c)
  {
    t[..|t| - |c|]
  }

  /** A byte is taken out and copied, or the copied bytes, or none, are handed back. */
  predicate Moves(t: seq<Byte>, c: seq<Byte>, back: seq<Byte>, t': seq<Byte>, c': seq<Byte>) {
    || (|t'| == |t| + 1 && t' == t + [t'[|t|]] && c' == c + [t'[|t|]] && back == [])
    || (t' == t && back + c' == c)
  }

  lemma FrontMoves(t: seq<Byte>, c: seq<Byte>, back: seq<Byte>, t': seq<Byte>, c': seq<Byte>)
    requires Last(t, c) && Moves(t, c, back, t', c')
    ensures Last(t', c') && Front(t', c') == Front(t, c) + back
  {
    if t' == t { assert t == Front(t, c) + back + c'; }
  }

  /** What was taken out by calls that have returned. */
  function Delivered(s: State, o: nat): seq<Byte>
    requires CopyLast(s, o)
  {
    Front(s.objs[o].taken, Copying(s, o))
  }

  ghost predicate BytesOk(s: State, o: nat) { Sound(s) && GotsOk(s) && CopyLast(s, o) }

  // ---------------------------------------------------------------- one step

  lemma OthersStay(s: State, e: Event, q: Pid)
    requires Enabled(s, e) && q < |s.procs| && Actor(e) != Some(q)
    ensures q < |Apply(s, e).procs| && Apply(s, e).procs[q].pc == s.procs[q].pc
  {}

  lemma GotsStep(s: State, e: Event)
    requires Places(s) && GotsOk(s) && Enabled(s, e)
    ensures GotsOk(Apply(s, e))
  {
    var s' := Apply(s, e);
    forall q | 0 <= q < |s'.procs| ensures GotOk(s'.procs[q].pc) {
      if Actor(e) != Some(q) { OthersStay(s, e, q); }
      assert GotOk(s.procs[q].pc);
    }
  }

  /** A step that puts nothing into o and takes nothing out changes neither record. */
  lemma PipeSteps(s: State, e: Event, o: nat)
    requires Enabled(s, e) && o < |s.objs| && s.objs[o].Pipe?
    ensures var s' := Apply(s, e); |s'.procs| == |s.procs| && o < |s'.objs| && s'.objs[o].Pipe?
    ensures !e.EvTest? && !e.EvCopy? ==>
      Apply(s, e).objs[o].taken == s.objs[o].taken && Apply(s, e).objs[o].wrote == s.objs[o].wrote
  {}

  /** What is appended to `wrote` is what the writer moved past. */
  lemma WroteStep(s: State, e: Event, o: nat)
    requires Places(s) && Enabled(s, e) && o < |s.objs| && s.objs[o].Pipe?
    ensures var s' := Apply(s, e);
      o < |s'.objs| && s'.objs[o].Pipe? && s'.objs[o].wrote == s.objs[o].wrote + Sent(s, e, o)
  {
    PipeSteps(s, e, o);
    if e.EvTest? {
      WroteAtTest(s, e.p, o);
    } else {
      SentOnlyAtTest(s, e, o);
    }
  }

  lemma SentOnlyAtTest(s: State, e: Event, o: nat)
    requires Enabled(s, e) && !e.EvTest?
    ensures Sent(s, e, o) == [] && (e.EvCopy? && o < |s.objs| && s.objs[o].Pipe? ==>
      Apply(s, e).objs[o].Pipe? && Apply(s, e).objs[o].wrote == s.objs[o].wrote)
  {}

  lemma OneByte(src: seq<Byte>, i: nat)
    requires i < |src|
    ensures src[i..i + 1] == [src[i]]
  {}

  lemma WroteAtTest(s: State, p: Pid, o: nat)
    requires Places(s) && Enabled(s, EvTest(p)) && o < |s.objs| && s.objs[o].Pipe?
    ensures var s' := Apply(s, EvTest(p));
      s'.objs[o].Pipe? && s'.objs[o].wrote == s.objs[o].wrote + Sent(s, EvTest(p), o)
  {
    var pc, pc' := s.procs[p].pc, Apply(s, EvTest(p)).procs[p].pc;
    if Writes(pc, o) && Writes(pc', o) && pc.call.i < pc'.call.i {
      assert pc'.call.i == pc.call.i + 1;
      OneByte(pc.call.src, pc.call.i);
    }
  }

  /** A step of a process that does not hold the lock of o, unless it takes it, leaves pipe and holder alone. */
  lemma ApartStep(s: State, e: Event, o: nat)
    requires Places(s) && LkOk(s) && Enabled(s, e) && o < |s.objs| && s.objs[o].Pipe?
    requires Actor(e).None? || s.objs[o].lk != Actor(e)
    requires !(e.EvLock? && LocksIt(s, e, o))
    ensures Apply(s, e).objs[o] == s.objs[o] && Back(s, e, o) == []
  {
    if Actor(e).Some? && Actor(e).value < |s.procs| { assert !Holds(s.procs[Actor(e).value].pc, o); }
  }

  lemma LockStep(s: State, p: Pid, o: nat)
    requires Places(s) && GotsOk(s) && Enabled(s, EvLock(p)) && o < |s.objs| && s.objs[o].Pipe? &&
      LocksIt(s, EvLock(p), o)
    ensures var s' := Apply(s, EvLock(p));
      s'.objs[o].Pipe? && s'.objs[o].taken == s.objs[o].taken && Copying(s, o) == [] && Copying(s', o) == []
  {
    assert GotOk(s.procs[p].pc);
  }

  /** A step of the holder: it copies a byte to both records, or returns what it has, or changes nothing of this. */
  lemma HolderStep(s: State, e: Event, o: nat)
    requires Places(s) && LkOk(s) && GotsOk(s) && Enabled(s, e) && o < |s.objs| && s.objs[o].Pipe?
    requires Actor(e).Some? && s.objs[o].lk == Actor(e) && Actor(e).value < |s.procs|
    ensures var s' := Apply(s, e); |s'.objs| == |s.objs| && s'.objs[o].Pipe?
    ensures var s' := Apply(s, e);
      Moves(s.objs[o].taken, Copying(s, o), Back(s, e, o), s'.objs[o].taken, Copying(s', o))
  {
    var p := Actor(e).value;
    assert Holds(s.procs[p].pc, o) && GotOk(s.procs[p].pc) && PlaceOk(s.procs[p]);
    hide Places, LkOk, GotsOk;
    if e.EvTest? {
      HolderAtTest(s, p, o);
    } else if e.EvCopy? {
      HolderAtCopy(s, p, o);
    }
  }

  lemma HolderAtTest(s: State, p: Pid, o: nat)
    requires Enabled(s, EvTest(p)) && o < |s.objs| && s.objs[o].Pipe? && s.objs[o].lk == Some(p)
    requires Holds(s.procs[p].pc, o)
    ensures var s' := Apply(s, EvTest(p));
      |s'.objs| == |s.objs| && s'.objs[o].Pipe? &&
      Moves(s.objs[o].taken, Copying(s, o), Back(s, EvTest(p), o), s'.objs[o].taken, Copying(s', o))
  {}

  lemma HolderAtCopy(s: State, p: Pid, o: nat)
    requires Enabled(s, EvCopy(p)) && o < |s.objs| && s.objs[o].Pipe? && s.objs[o].lk == Some(p)
    requires Holds(s.procs[p].pc, o)
    ensures var s' := Apply(s, EvCopy(p));
      |s'.objs| == |s.objs| && s'.objs[o].Pipe? &&
      Moves(s.objs[o].taken, Copying(s, o), Back(s, EvCopy(p), o), s'.objs[o].taken, Copying(s', o))
  {}

  lemma MovesStep(s: State, e: Event, o: nat)
    requires Places(s) && LkOk(s) && LkBounds(s) && GotsOk(s) && Enabled(s, e) && o < |s.objs| && s.objs[o].Pipe?
    ensures var s' := Apply(s, e);
      o < |s'.objs| && s'.objs[o].Pipe? &&
      Moves(s.objs[o].taken, Copying(s, o), Back(s, e, o), s'.objs[o].taken, Copying(s', o))
  {
    hide Apply, Enabled, Places, LkOk, GotsOk, Back, Copying;
    PipeSteps(s, e, o);
    if Actor(e).Some? && s.objs[o].lk == Actor(e) {
      HolderStep(s, e, o);
    } else if e.EvLock? && LocksIt(s, e, o) {
      LockStep(s, e.p, o);
      LockReturnsNothing(s, e.p, o);
    } else {
      ApartStep(s, e, o);
      SameCopying(s, e, o);
    }
  }

  predicate LocksIt(s: State, e: Event, o: nat)
    requires e.EvLock?
  {
    Enabled(s, e) && s.procs[e.p].pc.obj == o
  }

  lemma DeliveredStep(s: State, e: Event, o: nat)
    requires BytesOk(s, o) && Enabled(s, e)
    ensures BytesOk(Apply(s, e), o) && Delivered(Apply(s, e), o) == Delivered(s, o) + Back(s, e, o)
  {
    SoundParts(s);
    hide Sound, Apply, Enabled, GotsOk, Back, Copying, Last, Front, Places;
    SoundStep(s, e);
    GotsStep(s, e);
    MovesStep(s, e, o);
    var s' := Apply(s, e);
    FrontMoves(s.objs[o].taken, Copying(s, o), Back(s, e, o), s'.objs[o].taken, Copying(s', o));
  }

  lemma SoundParts(s: State)
    requires Sound(s)
    ensures Places(s) && LkOk(s) && LkBounds(s)
  {}

  lemma SameCopying(s: State, e: Event, o: nat)
    requires Enabled(s, e) && o < |s.objs| && o < |Apply(s, e).objs| && Apply(s, e).objs[o] == s.objs[o]
    requires LkBounds(s) && (Actor(e).None? || s.objs[o].lk != Actor(e))
    ensures Copying(Apply(s, e), o) == Copying(s, o)
  {
    if s.objs[o].lk.Some? { OthersStay(s, e, s.objs[o].lk.value); }
  }

  lemma LockReturnsNothing(s: State, p: Pid, o: nat)
    requires Enabled(s, EvLock(p))
    ensures Back(s, EvLock(p), o) == []
  {}

  // ---------------------------------------------------------------- every run

  lemma {:induction false} RunDelivers(s: State, es: seq<Event>, o: nat)
    requires BytesOk(s, o) && Runs(s, es)
    ensures BytesOk(After(s, es), o) && Delivered(After(s, es), o) == Delivered(s, o) + Returned(s, es, o)
    decreases |es|
  {
    hide BytesOk, Delivered, Apply, Enabled, Back;
    if es != [] {
      DeliveredStep(s, es[0], o);
      RunDelivers(Apply(s, es[0]), es[1..], o);
    }
  }

  lemma {:induction false} RunWrites(s: State, es: seq<Event>, o: nat)
    requires Sound(s) && Runs(s, es) && o < |s.objs| && s.objs[o].Pipe?
    ensures var t := After(s, es);
      o < |t.objs| && t.objs[o].Pipe? && t.objs[o].wrote == s.objs[o].wrote + Passed(s, es, o, None)
    decreases |es|
  {
    hide Sound, Apply, Enabled, Sent;
    if es != [] {
      SoundStep(s, es[0]);
      SoundParts(s);
      WroteStep(s, es[0], o);
      RunWrites(Apply(s, es[0]), es[1..], o);
    }
  }

  lemma BytesAtStart(s: State, o: nat)
    requires Initial(s) && o < |s.objs| && s.objs[o].Pipe?
    ensures BytesOk(s, o) && Delivered(s, o) == [] && s.objs[o].wrote == []
  {
    InitialInv(s);
  }

  /** The bytes that pipereads have returned, then those that the piperead holding the lock has copied, are a prefix of
      the bytes that pipewrites have passed, and at most 512 bytes behind. */
  lemma BytesThrough(s: State, es: seq<Event>, o: nat)
    requires Initial(s) && Runs(s, es) && o < |s.objs| && s.objs[o].Pipe?
    ensures o < |After(s, es).objs|
    ensures Returned(s, es, o) + Copying(After(s, es), o) <= Passed(s, es, o, None)
    ensures |Passed(s, es, o, None)| - |Returned(s, es, o) + Copying(After(s, es), o)| <= 512
  {
    hide Initial, Runs, Returned, Passed, Sound;
    BytesAtStart(s, o);
    SoundOf(s, o);
    RunDelivers(s, es, o);
    RunWrites(s, es, o);
    PipeFifo(s, es, o);
    var t := After(s, es);
    assert t.objs[o].taken == Delivered(t, o) + Copying(t, o);
    assert [] + Returned(s, es, o) == Returned(s, es, o) && [] + Passed(s, es, o, None) == Passed(s, es, o, None);
  }

  lemma SoundOf(s: State, o: nat)
    requires BytesOk(s, o)
    ensures Sound(s)
  {}

  // ---------------------------------------------------------------- one call

  /** A piperead of p on o in its copy loop or after it. */
  predicate Mine(s: State, p: Pid, o: nat) {
    && p < |s.procs| && o < |s.objs| && s.objs[o].lk == Some(p) && Reads(s.procs[p].pc, o)
    && (s.procs[p].pc.Copy? || s.procs[p].pc.Wake1? || s.procs[p].pc.Wake2? || s.procs[p].pc.Wake3? ||
        s.procs[p].pc.Leave?)
  }

  lemma MineStep(s: State, e: Event, p: Pid, o: nat)
    requires BytesOk(s, o) && Mine(s, p, o) && Enabled(s, e) && e != EvLeave(p)
    ensures Mine(Apply(s, e), p, o) && Back(s, e, o) == []
  {
    assert Places(s) && LkOk(s);
    hide Sound, GotsOk, CopyLast;
    if Actor(e) != Some(p) {
      ApartStep(s, e, o);
      OthersStay(s, e, p);
    }
  }

  lemma {:induction false} MineRun(s: State, es: seq<Event>, p: Pid, o: nat)
    requires BytesOk(s, o) && Mine(s, p, o) && Runs(s, es) && forall j :: 0 <= j < |es| ==> es[j] != EvLeave(p)
    ensures Mine(After(s, es), p, o) && Returned(s, es, o) == []
    decreases |es|
  {
    hide BytesOk, Mine, Apply, Enabled, Back;
    if es != [] {
      MineStep(s, es[0], p, o);
      DeliveredStep(s, es[0], o);
      MineRun(Apply(s, es[0]), es[1..], p, o);
    }
  }

  /** What a piperead has got is what has been taken out of the pipe since its copy loop began. */
  lemma ReadStretch(s0: State, es0: seq<Event>, es: seq<Event>, p: Pid, o: nat)
    requires Initial(s0) && o < |s0.objs| && s0.objs[o].Pipe? && Runs(s0, es0)
    requires var s := After(s0, es0); Mine(s, p, o) && s.procs[p].pc.call.got == [] && Runs(s, es)
    requires forall j :: 0 <= j < |es| ==> es[j] != EvLeave(p)
    ensures var s := After(s0, es0); var t := After(s, es);
      Mine(t, p, o) && s.objs[o].Pipe? && t.objs[o].Pipe? &&
      t.objs[o].taken == s.objs[o].taken + t.procs[p].pc.call.got
  {
    hide Runs, After, Initial, BytesOk, Mine, Returned;
    BytesAtStart(s0, o);
    RunDelivers(s0, es0, o);
    var s := After(s0, es0);
    RunDelivers(s, es, o);
    MineRun(s, es, p, o);
    MineTaken(s, p, o);
    MineTaken(After(s, es), p, o);
  }

  lemma MineTaken(s: State, p: Pid, o: nat)
    requires BytesOk(s, o) && Mine(s, p, o)
    ensures p < |s.procs| && o < |s.objs| && Reads(s.procs[p].pc, o) && s.objs[o].Pipe? && CopyLast(s, o)
    ensures s.objs[o].taken == Delivered(s, o) + s.procs[p].pc.call.got
  {
    hide Sound, GotsOk;
  }

  /** A pipewrite of src by p on o that has passed i bytes. */
  predicate Passing(s: State, p: Pid, o: nat, src: seq<Byte>, i: nat) {
    p < |s.procs| && Writes(s.procs[p].pc, o) && s.procs[p].pc.call.src == src && s.procs[p].pc.call.i == i <= |src|
  }

  lemma PassingStep(s: State, e: Event, p: Pid, o: nat, src: seq<Byte>, i: nat) returns (i': nat)
    requires Passing(s, p, o, src, i) && Enabled(s, e) && e != EvLeave(p)
    ensures i <= i' <= |src| && Passing(Apply(s, e), p, o, src, i')
    ensures if Actor(e) == Some(p) then Sent(s, e, o) == src[i..i'] else i' == i
  {
    var s' := Apply(s, e);
    if Actor(e) == Some(p) {
      i' := s'.procs[p].pc.call.i;
    } else {
      i' := i;
      OthersStay(s, e, p);
    }
  }

  /** From the call on, a pipewrite that has come to index i has passed exactly the first i bytes of src, in order. */
  lemma {:induction false} WriteStretch(s: State, es: seq<Event>, p: Pid, o: nat, src: seq<Byte>, i: nat)
      returns (i': nat)
    requires Passing(s, p, o, src, i) && Runs(s, es) && forall j :: 0 <= j < |es| ==> es[j] != EvLeave(p)
    ensures i <= i' <= |src| && Passing(After(s, es), p, o, src, i') && Passed(s, es, o, Some(p)) == src[i..i']
    decreases |es|
  {
    hide Passing, Apply, Enabled, Sent;
    if es == [] {
      i' := i;
      assert i <= |src| by { PassingBound(s, p, o, src, i); }
    } else {
      var k := PassingStep(s, es[0], p, o, src, i);
      i' := WriteStretch(Apply(s, es[0]), es[1..], p, o, src, k);
      assert src[i..k] + src[k..i'] == src[i..i'];
    }
  }

  lemma PassingBound(s: State, p: Pid, o: nat, src: seq<Byte>, i: nat)
    requires Passing(s, p, o, src, i)
    ensures i <= |src|
  {}

  // ---------------------------------------------------------------- when calls return

  /** How far a call that holds the lock of its pipe has come.  A piperead goes on to copy only with bytes to read or
      nobody to write, and stops with all it asked for or the pipe empty; a pipewrite stops with everything written, or
      with the pipe full and no reader to come or itself killed. */
  predicate FarEnough(p: Proc, o: Obj) {
    Inside(p.pc) && o.Pipe? ==>
      match p.pc.call
      case PipeRead(n, got) =>
        && (p.pc.Copy? ==> got != [] || !Empty(o) || !o.writeopen)
        && (p.pc.Wake1? || p.pc.Wake2? || p.pc.Wake3? || p.pc.Leave? ==> |got| == n || Empty(o))
        && (p.pc.Wake1? || p.pc.Wake2? || p.pc.Wake3? ==> got != [] || n == 0 || !o.writeopen)
        && (p.pc.Leave? ==> got != [] || n == 0 || !o.writeopen || p.killed)
      case PipeWrite(src, i, _) => p.pc.Leave? ==> i == |src| || (Full(o) && (!o.readopen || p.killed))
      case _ => true
  }

  predicate CallsOk(s: State) {
    forall p :: 0 <= p < |s.procs| && Inside(s.procs[p].pc) && s.procs[p].pc.obj < |s.objs| ==>
      FarEnough(s.procs[p], s.objs[s.procs[p].pc.obj])
  }

  /** A step of the process itself. */
  lemma OwnCall(s: State, e: Event, p: Pid)
    requires Places(s) && CallsOk(s) && Enabled(s, e) && Actor(e) == Some(p)
    ensures var s' := Apply(s, e);
      p < |s'.procs| && (Inside(s'.procs[p].pc) && s'.procs[p].pc.obj < |s'.objs| ==>
        FarEnough(s'.procs[p], s'.objs[s'.procs[p].pc.obj]))
  {
    var pc := s.procs[p].pc;
    assert Inside(pc) ==> pc.obj < |s.objs| && FarEnough(s.procs[p], s.objs[pc.obj]);
    assert PlaceOk(s.procs[p]) && CallOk(s.procs[p].pc, s.objs);
    hide Places, CallsOk, FarEnough;
    if e.EvTest? {
      TestCall(s, p);
    } else if e.EvCopy? {
      CopyCall(s, p);
    } else {
      QuietCall(s, e, p);
    }
  }

  /** No other step looks at the pipe. */
  lemma QuietCall(s: State, e: Event, p: Pid)
    requires Enabled(s, e) && Actor(e) == Some(p) && !e.EvTest? && !e.EvCopy? && p < |s.procs|
    requires PlaceOk(s.procs[p]) && CallOk(s.procs[p].pc, s.objs)
    requires Inside(s.procs[p].pc) ==>
      s.procs[p].pc.obj < |s.objs| && FarEnough(s.procs[p], s.objs[s.procs[p].pc.obj])
    ensures var s' := Apply(s, e);
      p < |s'.procs| && (Inside(s'.procs[p].pc) && s'.procs[p].pc.obj < |s'.objs| ==>
        FarEnough(s'.procs[p], s'.objs[s'.procs[p].pc.obj]))
  {}

  lemma TestCall(s: State, p: Pid)
    requires Enabled(s, EvTest(p))
    ensures var s' := Apply(s, EvTest(p));
      p < |s'.procs| && Inside(s'.procs[p].pc) && s'.procs[p].pc.obj < |s'.objs| &&
      FarEnough(s'.procs[p], s'.objs[s'.procs[p].pc.obj])
  {}

  lemma CopyCall(s: State, p: Pid)
    requires Enabled(s, EvCopy(p)) && FarEnough(s.procs[p], s.objs[s.procs[p].pc.obj])
    ensures var s' := Apply(s, EvCopy(p));
      p < |s'.procs| && Inside(s'.procs[p].pc) && s'.procs[p].pc.obj < |s'.objs| &&
      FarEnough(s'.procs[p], s'.objs[s'.procs[p].pc.obj])
  {}

  lemma KilledStays(s: State, e: Event, q: Pid)
    requires Enabled(s, e) && q < |s.procs|
    ensures q < |Apply(s, e).procs| && (s.procs[q].killed ==> Apply(s, e).procs[q].killed)
  {}

  lemma OtherCall(s: State, e: Event, q: Pid)
    requires Places(s) && LkOk(s) && CallsOk(s) && Enabled(s, e) && q < |s.procs| && Actor(e) != Some(q)
    ensures var s' := Apply(s, e);
      q < |s'.procs| && (Inside(s'.procs[q].pc) && s'.procs[q].pc.obj < |s'.objs| ==>
        FarEnough(s'.procs[q], s'.objs[s'.procs[q].pc.obj]))
  {
    OthersStay(s, e, q);
    KilledStays(s, e, q);
    var pc, s' := s.procs[q].pc, Apply(s, e);
    if Inside(pc) {
      var o := pc.obj;
      assert FarEnough(s.procs[q], s.objs[o]) && (s.objs[o].lk == Some(q) <==> Holds(pc, o));
      if s.objs[o].Pipe? && Holds(pc, o) {
        ApartStep(s, e, o);
      } else {
        KindStays(s, e, o);
      }
    }
  }

  lemma KindStays(s: State, e: Event, o: nat)
    requires Enabled(s, e) && o < |s.objs|
    ensures o < |Apply(s, e).objs| && (Apply(s, e).objs[o].Pipe? <==> s.objs[o].Pipe?)
  {}

  lemma CallsStep(s: State, e: Event)
    requires Places(s) && LkOk(s) && CallsOk(s) && Enabled(s, e)
    ensures CallsOk(Apply(s, e))
  {
    hide Places, LkOk, Apply, Enabled, FarEnough;
    SameCount(s, e);
    var s' := Apply(s, e);
    forall q | 0 <= q < |s'.procs| && Inside(s'.procs[q].pc) && s'.procs[q].pc.obj < |s'.objs|
      ensures FarEnough(s'.procs[q], s'.objs[s'.procs[q].pc.obj])
    {
      if Actor(e) == Some(q) { OwnCall(s, e, q); } else { OtherCall(s, e, q); }
    }
  }

  lemma SameCount(s: State, e: Event)
    requires Enabled(s, e)
    ensures |Apply(s, e).procs| == |s.procs|
  {}

  lemma {:induction false} CallsRun(s: State, es: seq<Event>)
    requires Sound(s) && CallsOk(s) && Runs(s, es)
    ensures Sound(After(s, es)) && CallsOk(After(s, es))
    decreases |es|
  {
    hide Sound, CallsOk, Apply, Enabled;
    if es != [] {
      SoundParts(s);
      CallsStep(s, es[0]);
      SoundStep(s, es[0]);
      CallsRun(Apply(s, es[0]), es[1..]);
    }
  }

  lemma CallsAtStart(s: State)
    requires Initial(s)
    ensures Sound(s) && CallsOk(s)
  {
    InitialInv(s);
  }

  /** A piperead returns with as many bytes as asked for or with the pipe empty; and with none, if some were asked for,
      only when the write end is closed or the reader has been killed. */
  lemma ReadReturns(s: State, es: seq<Event>, p: Pid)
    requires Initial(s) && Runs(s, es) && Enabled(After(s, es), EvLeave(p))
    requires After(s, es).procs[p].pc.call.PipeRead?
    ensures var t := After(s, es); var call := t.procs[p].pc.call; var o := t.objs[t.procs[p].pc.obj];
      && o.Pipe? && (|call.got| == call.n || (|call.got| < call.n && o.taken == o.wrote))
      && (call.got == [] ==> call.n == 0 || !o.writeopen || t.procs[p].killed)
  {
    CallsAtStart(s);
    CallsRun(s, es);
    PipeParts(After(s, es), p);
  }

  /** A pipewrite returns with everything written, or with the pipe full and no reader to come or itself killed. */
  lemma WriteReturns(s: State, es: seq<Event>, p: Pid)
    requires Initial(s) && Runs(s, es) && Enabled(After(s, es), EvLeave(p))
    requires After(s, es).procs[p].pc.call.PipeWrite?
    ensures var t := After(s, es); var call := t.procs[p].pc.call; var o := t.objs[t.procs[p].pc.obj];
      && o.Pipe? && (call.i == |call.src| || (|o.wrote| == |o.taken| + 512 && (!o.readopen || t.procs[p].killed)))
  {
    CallsAtStart(s);
    CallsRun(s, es);
    PipeParts(After(s, es), p);
  }

  /** The test of a killed reader or writer never puts it to sleep: a piperead on an empty pipe and a pipewrite on a
      full one return. */
  lemma KilledReturns(s: State, p: Pid)
    requires Enabled(s, EvTest(p)) && s.procs[p].killed && s.objs[s.procs[p].pc.obj].Pipe?
    ensures var o := s.objs[s.procs[p].pc.obj]; var pc := Apply(s, EvTest(p)).procs[p].pc;
      && !pc.Sleep1?
      && (s.procs[p].pc.call.PipeRead? && Empty(o) && o.writeopen ==> pc.Leave?)
      && (s.procs[p].pc.call.PipeWrite? && Full(o) && s.procs[p].pc.call.i < |s.procs[p].pc.call.src| ==> pc.Leave?)
  {}

  lemma PipeParts(s: State, p: Pid)
    requires Sound(s) && p < |s.procs| && Inside(s.procs[p].pc)
    ensures s.procs[p].pc.obj < |s.objs| && Fits(s.objs[s.procs[p].pc.obj], s.procs[p].pc.call)
    ensures var o := s.objs[s.procs[p].pc.obj];
      o.Pipe? ==> PipeOk(o) && (Full(o) <==> |o.wrote| == |o.taken| + 512) && (Empty(o) <==> o.wrote == o.taken)
  {
    var o := s.objs[s.procs[p].pc.obj];
    if o.Pipe? { FullMeans(o); }
  }
}
