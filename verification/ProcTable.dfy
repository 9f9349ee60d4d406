/** The process table of proc.c: fork, exit, wait, kill and the scheduler, as steps taken under
    ptable.lock by any number of processes in any order.  A slot number stands for a struct proc. */
module ProcTable {
  import opened Common

  type Slot = nat

  datatype ProcState = Unused | Embryo | Sleeping | Runnable | Running | Zombie

  /** wait sleeps on the address of the waiting process; everything else on other addresses. */
  datatype Chan = OfProc(slot: Slot) | Other(addr: nat)

  /** `making` is the child a process inside fork has got from allocproc. */
  datatype Proc = Proc(state: ProcState, pid: nat, parent: Option<Slot>, chan: Option<Chan>, killed: bool,
    making: Option<Slot>)

  /** `exited` and `reaped` record the pids of every exit and of every successful wait. */
  datatype Table = Table(procs: seq<Proc>, init: Slot, nextpid: nat, exited: seq<nat>, reaped: seq<nat>)

  // ---------------------------------------------------------------- the loops of proc.c, on values

  predicate SleepsOn(p: Proc, c: Chan) { p.state == Sleeping && p.chan == Some(c) }

  /** wakeup1 */
  function Woken(ps: seq<Proc>, c: Chan): (r: seq<Proc>)
    ensures |r| == |ps|
    ensures forall q :: 0 <= q < |ps| ==> r[q] == if SleepsOn(ps[q], c) then ps[q].(state := Runnable) else ps[q]
  {
    seq(|ps|, q requires 0 <= q < |ps| => if SleepsOn(ps[q], c) then ps[q].(state := Runnable) else ps[q])
  }

  predicate ChildOf(ps: seq<Proc>, c: nat, p: Slot) { c < |ps| && ps[c].parent == Some(p) }

  predicate ZombieChild(ps: seq<Proc>, c: nat, p: Slot) { ChildOf(ps, c, p) && ps[c].state == Zombie }

  predicate HasZombie(ps: seq<Proc>, p: Slot) { exists c :: 0 <= c < |ps| && ZombieChild(ps, c, p) }

  /** exit's loop: children of p go to init. */
  function Adopted(ps: seq<Proc>, p: Slot, init: Slot): (r: seq<Proc>)
    ensures |r| == |ps|
    ensures forall q :: 0 <= q < |ps| ==>
      r[q] == if ps[q].parent == Some(p) then ps[q].(parent := Some(init)) else ps[q]
  {
    seq(|ps|, q requires 0 <= q < |ps| => if ps[q].parent == Some(p) then ps[q].(parent := Some(init)) else ps[q])
  }

  function WakeParent(ps: seq<Proc>, p: Slot): (r: seq<Proc>)
    requires p < |ps|
    ensures |r| == |ps|
  {
    if ps[p].parent.Some? then Woken(ps, OfProc(ps[p].parent.value)) else ps
  }

  /** Everything exit does under ptable.lock. */
  function Exited(ps: seq<Proc>, p: Slot, init: Slot): (r: seq<Proc>)
    requires p < |ps|
    ensures |r| == |ps|
  {
    var a := WakeParent(ps, p);
    var b := Adopted(a, p, init);
    var c := if HasZombie(a, p) then Woken(b, OfProc(init)) else b;
    c[p := c[p].(state := Zombie)]
  }

  /** The slot after wait has freed it. */
  function Freed(p: Proc): Proc {
    Proc(Unused, 0, None, p.chan, false, p.making)
  }

  // ---------------------------------------------------------------- steps

  datatype Event =
    | EvAlloc(p: Slot, np: Slot)       // fork: allocproc takes a slot
    | EvForkFail(p: Slot)              // fork: no memory, the slot is given back
    | EvSetParent(p: Slot)             // fork: np->parent = curproc
    | EvForkDone(p: Slot)              // fork: np->state = RUNNABLE
    | EvExit(p: Slot)
    | EvReap(p: Slot, c: Slot)         // wait: found a zombie child
    | EvWaitFail(p: Slot)              // wait: no children, or killed
    | EvWaitSleep(p: Slot)             // wait: sleep(curproc, &ptable.lock)
    | EvSleep(p: Slot, addr: nat)      // sleep on anything else
    | EvWake(addr: nat)
    | EvRun(p: Slot)
    | EvYield(p: Slot)
    | EvKill(p: Slot)

  predicate Is(t: Table, p: Slot, st: ProcState) { p < |t.procs| && t.procs[p].state == st }

  /** Not inside fork. */
  predicate Acts(t: Table, p: Slot) { Is(t, p, Running) && t.procs[p].making == None }

  /** In wait with ptable.lock: either just called, or resumed inside sleep. */
  predicate Waits(t: Table, p: Slot) {
    p < |t.procs| && t.procs[p].making == None &&
    (t.procs[p].state == Running || (t.procs[p].state == Runnable && t.procs[p].chan == Some(OfProc(p))))
  }

  predicate Makes(t: Table, p: Slot) {
    p < |t.procs| && t.procs[p].state == Running && t.procs[p].making.Some? && t.procs[p].making.value < |t.procs|
  }

  /** The first free slot, the one allocproc's loop stops at. */
  predicate FirstUnused(ps: seq<Proc>, np: nat) {
    np < |ps| && ps[np].state == Unused && forall q :: 0 <= q < np ==> ps[q].state != Unused
  }

  /** The first zombie child, the one wait's loop stops at. */
  predicate FirstZombie(ps: seq<Proc>, p: Slot, c: nat) {
    ZombieChild(ps, c, p) && forall q :: 0 <= q < c ==> !ZombieChild(ps, q, p)
  }

  predicate HasKids(ps: seq<Proc>, p: Slot) { exists c :: 0 <= c < |ps| && ChildOf(ps, c, p) }

  predicate Enabled(t: Table, e: Event) {
    match e
    case EvAlloc(p, np) => Acts(t, p) && FirstUnused(t.procs, np)
    case EvForkFail(p) => Makes(t, p) && t.procs[t.procs[p].making.value].parent == None
    case EvSetParent(p) => Makes(t, p) && t.procs[t.procs[p].making.value].parent == None
    case EvForkDone(p) => Makes(t, p) && t.procs[t.procs[p].making.value].parent == Some(p)
    case EvExit(p) => Acts(t, p) && p != t.init
    case EvReap(p, c) => Waits(t, p) && FirstZombie(t.procs, p, c)
    case EvWaitFail(p) => Waits(t, p) && !HasZombie(t.procs, p) && (!HasKids(t.procs, p) || t.procs[p].killed)
    case EvWaitSleep(p) => Waits(t, p) && !HasZombie(t.procs, p) && HasKids(t.procs, p) && !t.procs[p].killed
    case EvSleep(p, _) => Is(t, p, Running)
    case EvWake(_) => true
    case EvRun(p) => Is(t, p, Runnable) && t.procs[p].chan != Some(OfProc(p))
    case EvYield(p) => Is(t, p, Running)
    case EvKill(p) => p < |t.procs|
  }

  function Set(t: Table, p: Slot, q: Proc): Table
    requires p < |t.procs|
  {
    t.(procs := t.procs[p := q])
  }

  function Apply(t: Table, e: Event): Table
    requires Enabled(t, e)
  {
    match e
    case EvAlloc(p, np) =>
      var ps := t.procs[np := t.procs[np].(state := Embryo, pid := t.nextpid)];
      t.(procs := ps[p := ps[p].(making := Some(np))], nextpid := t.nextpid + 1)
    case EvForkFail(p) =>
      var np := t.procs[p].making.value;
      var ps := t.procs[np := t.procs[np].(state := Unused)];
      t.(procs := ps[p := ps[p].(making := None)])
    case EvSetParent(p) =>
      var np := t.procs[p].making.value;
      Set(t, np, t.procs[np].(parent := Some(p)))
    case EvForkDone(p) =>
      var np := t.procs[p].making.value;
      var ps := t.procs[np := t.procs[np].(state := Runnable)];
      t.(procs := ps[p := ps[p].(making := None)])
    case EvExit(p) => t.(procs := Exited(t.procs, p, t.init), exited := t.exited + [t.procs[p].pid])
    case EvReap(p, c) =>
      var ps := t.procs[c := Freed(t.procs[c])];
      t.(procs := ps[p := ps[p].(state := Running, chan := None)], reaped := t.reaped + [t.procs[c].pid])
    case EvWaitFail(p) => Set(t, p, t.procs[p].(state := Running, chan := None))
    case EvWaitSleep(p) => Set(t, p, t.procs[p].(state := Sleeping, chan := Some(OfProc(p))))
    case EvSleep(p, addr) => Set(t, p, t.procs[p].(state := Sleeping, chan := Some(Other(addr))))
    case EvWake(addr) => t.(procs := Woken(t.procs, Other(addr)))
    case EvRun(p) => Set(t, p, t.procs[p].(state := Running, chan := None))
    case EvYield(p) => Set(t, p, t.procs[p].(state := Runnable))
    case EvKill(p) =>
      Set(t, p,
        t.procs[p].(killed := true, state := if t.procs[p].state == Sleeping then Runnable else t.procs[p].state))
  }

  /** userinit */
  predicate Boots(t: Table) {
    && t.init < |t.procs| && t.nextpid == 2 && t.exited == [] && t.reaped == []
    && t.procs[t.init] == Proc(Runnable, 1, None, None, false, None)
    && forall q :: 0 <= q < |t.procs| && q != t.init ==> t.procs[q] == Proc(Unused, 0, None, None, false, None)
  }

  predicate Runs(t: Table, es: seq<Event>)
    decreases |es|
  {
    es == [] || (Enabled(t, es[0]) && Runs(Apply(t, es[0]), es[1..]))
  }

  function After(t: Table, es: seq<Event>): Table
    requires Runs(t, es)
    decreases |es|
  {
    if es == [] then t else After(Apply(t, es[0]), es[1..])
  }

  // ---------------------------------------------------------------- what every step keeps

  predicate Live(p: Proc) { p.state == Sleeping || p.state == Runnable || p.state == Running }

  /** A process with a parent has a live one; every process but init, once made, has a parent. */
  predicate FamilyOk(t: Table) {
    && t.init < |t.procs| && Live(t.procs[t.init]) && t.procs[t.init].parent == None
    && forall c :: 0 <= c < |t.procs| ==> ParentOk(t, c)
  }

  predicate ParentOk(t: Table, c: Slot)
    requires c < |t.procs|
  {
    var p := t.procs[c];
    && (p.parent.Some? ==>
         p.parent.value < |t.procs| && Live(t.procs[p.parent.value]) && p.state != Unused && p.parent.value != c)
    && ((Live(p) || p.state == Zombie) && c != t.init ==> p.parent.Some?)
  }

  /** Nobody asleep in wait has a zombie child. */
  predicate WaitersOk(t: Table) {
    forall p, c :: 0 <= p < |t.procs| && 0 <= c < |t.procs| && SleepsOn(t.procs[p], OfProc(p)) ==>
      !ZombieChild(t.procs, c, p)
  }

  /** Only sleepers and those just woken are on a channel; only wait sleeps on a process, and on its own. */
  predicate ChanOk(p: Proc, i: Slot) {
    && (p.chan.Some? ==> p.state == Sleeping || p.state == Runnable)
    && (p.chan.Some? && p.chan.value.OfProc? ==> p.chan.value.slot == i && p.making == None)
  }

  predicate ChansOk(t: Table) {
    forall p :: 0 <= p < |t.procs| ==> ChanOk(t.procs[p], p)
  }

  /** A child being made belongs to one live maker. */
  predicate MakingOk(t: Table) {
    && (forall p :: 0 <= p < |t.procs| ==> MakerOk(t, p))
    && (forall p, q :: 0 <= p < q < |t.procs| ==> MakeApart(t.procs[p], t.procs[q]))
  }

  predicate MakerOk(t: Table, p: Slot)
    requires p < |t.procs|
  {
    t.procs[p].making.Some? ==>
      var np := t.procs[p].making.value;
      Live(t.procs[p]) && np < |t.procs| && t.procs[np].state == Embryo &&
        (t.procs[np].parent == None || t.procs[np].parent == Some(p))
  }

  predicate MakeApart(p: Proc, q: Proc) { p.making.Some? ==> q.making != p.making }

  /** An embryo with a parent is being made by that parent. */
  predicate EmbryosOk(t: Table) {
    forall c :: 0 <= c < |t.procs| ==> EmbryoOk(t, c)
  }

  predicate EmbryoOk(t: Table, c: Slot)
    requires c < |t.procs|
  {
    t.procs[c].state == Embryo && t.procs[c].parent.Some? && t.procs[c].parent.value < |t.procs| ==>
      t.procs[t.procs[c].parent.value].making == Some(c)
  }

  predicate InUse(t: Table, p: Slot) { p < |t.procs| && t.procs[p].state != Unused }

  /** Processes have pids of their own, all given out already. */
  predicate PidsOk(t: Table) {
    && (forall p :: 0 <= p < |t.procs| && t.procs[p].state != Unused ==> t.procs[p].pid < t.nextpid)
    && (forall p, q :: 0 <= p < |t.procs| && 0 <= q < |t.procs| && p != q && InUse(t, p) && InUse(t, q) ==>
         t.procs[p].pid != t.procs[q].pid)
  }

  /** The pids of exit calls: each once, and of zombies or of processes already reaped. */
  predicate ExitsOk(t: Table) {
    && (forall i :: 0 <= i < |t.exited| ==> t.exited[i] < t.nextpid)
    && (forall i, j :: 0 <= i < j < |t.exited| ==> t.exited[i] != t.exited[j])
    && (forall p :: 0 <= p < |t.procs| ==>
         (t.procs[p].state == Zombie ==> t.procs[p].pid in t.exited) &&
         (Live(t.procs[p]) || t.procs[p].state == Embryo ==> t.procs[p].pid !in t.exited))
  }

  /** The pids wait returned: each once, each of an exited process whose slot is gone. */
  predicate ReapsOk(t: Table) {
    && (forall i :: 0 <= i < |t.reaped| ==> t.reaped[i] in t.exited)
    && (forall i, j :: 0 <= i < j < |t.reaped| ==> t.reaped[i] != t.reaped[j])
    && (forall p :: 0 <= p < |t.procs| && t.procs[p].state == Zombie ==> t.procs[p].pid !in t.reaped)
    && (forall i :: 0 <= i < |t.exited| && t.exited[i] !in t.reaped ==> ZombieWith(t, t.exited[i]))
  }

  predicate ZombieWith(t: Table, pid: nat) {
    exists p :: 0 <= p < |t.procs| && t.procs[p].state == Zombie && t.procs[p].pid == pid
  }

  ghost predicate Inv(t: Table) {
    FamilyOk(t) && WaitersOk(t) && ChansOk(t) && MakingOk(t) && EmbryosOk(t) && PidsOk(t) && ExitsOk(t) && ReapsOk(t)
  }

  // ---------------------------------------------------------------- steps that only schedule

  predicate SameKind(a: ProcState, b: ProcState) {
    a == b || (a in {Sleeping, Runnable, Running} && b in {Sleeping, Runnable, Running})
  }

  /** No process is made, moved, ended or freed. */
  predicate Quiet(t: Table, t': Table) {
    && |t'.procs| == |t.procs| && t'.init == t.init && t'.nextpid == t.nextpid && t'.exited == t.exited &&
      t'.reaped == t.reaped
    && forall q :: 0 <= q < |t.procs| ==>
         t'.procs[q].parent == t.procs[q].parent && t'.procs[q].making == t.procs[q].making &&
           t'.procs[q].pid == t.procs[q].pid &&
         SameKind(t.procs[q].state, t'.procs[q].state)
  }

  predicate Schedules(e: Event) {
    e.EvWaitFail? || e.EvWaitSleep? || e.EvSleep? || e.EvWake? || e.EvRun? || e.EvYield? || e.EvKill?
  }

  lemma SchedulesQuietly(t: Table, e: Event)
    requires Enabled(t, e) && Schedules(e)
    ensures Quiet(t, Apply(t, e))
  {
  }

  lemma QuietKin(t: Table, t': Table)
    requires Quiet(t, t') && FamilyOk(t) && MakingOk(t) && EmbryosOk(t)
    ensures FamilyOk(t') && MakingOk(t') && EmbryosOk(t')
  {
    forall c | 0 <= c < |t'.procs| ensures ParentOk(t', c) && MakerOk(t', c) && EmbryoOk(t', c) {
      assert ParentOk(t, c) && MakerOk(t, c) && EmbryoOk(t, c);
    }
    forall p, q | 0 <= p < q < |t'.procs| ensures MakeApart(t'.procs[p], t'.procs[q]) {
      assert MakeApart(t.procs[p], t.procs[q]);
    }
  }

  lemma QuietPids(t: Table, t': Table)
    requires Quiet(t, t') && PidsOk(t) && ExitsOk(t) && ReapsOk(t)
    ensures PidsOk(t') && ExitsOk(t') && ReapsOk(t')
  {
    forall i | 0 <= i < |t'.exited| && t'.exited[i] !in t'.reaped ensures ZombieWith(t', t'.exited[i]) {
      assert ZombieWith(t, t.exited[i]);
      var p :| 0 <= p < |t.procs| && t.procs[p].state == Zombie && t.procs[p].pid == t.exited[i];
      assert t'.procs[p].state == Zombie;
    }
  }

  lemma WaitersScheduled(t: Table, e: Event)
    requires WaitersOk(t) && Enabled(t, e) && Schedules(e)
    ensures WaitersOk(Apply(t, e))
  {
    var t' := Apply(t, e);
    SchedulesQuietly(t, e);
    forall p, c | 0 <= p < |t'.procs| && 0 <= c < |t'.procs| && SleepsOn(t'.procs[p], OfProc(p))
      ensures !ZombieChild(t'.procs, c, p)
    {
      assert ZombieChild(t'.procs, c, p) == ZombieChild(t.procs, c, p);
    }
  }

  lemma ChansForked(t: Table, e: Event)
    requires ChansOk(t) && MakingOk(t) && Enabled(t, e) && Forks(e)
    ensures ChansOk(Apply(t, e))
  {
    assert MakerOk(t, e.p);
  }

  lemma ChansExited(t: Table, p: Slot)
    requires FamilyOk(t) && ChansOk(t) && Enabled(t, EvExit(p))
    ensures ChansOk(Apply(t, EvExit(p)))
  {
    hide Apply, Enabled;
    ExitFrame(t, p);
    var t' := Apply(t, EvExit(p));
    forall q | 0 <= q < |t'.procs| ensures ChanOk(t'.procs[q], q) {
      ExitEffect(t, p, q);
    }
  }

  lemma ChansElsewhere(t: Table, e: Event)
    requires ChansOk(t) && Enabled(t, e) && !Forks(e) && !e.EvExit?
    ensures ChansOk(Apply(t, e))
  {}

  // ---------------------------------------------------------------- fork

  predicate Forks(e: Event) { e.EvAlloc? || e.EvForkFail? || e.EvSetParent? || e.EvForkDone? }

  lemma ForkFamily(t: Table, e: Event)
    requires FamilyOk(t) && MakingOk(t) && EmbryosOk(t) && Enabled(t, e) && Forks(e)
    ensures FamilyOk(Apply(t, e))
  {
    var t' := Apply(t, e);
    assert MakerOk(t, e.p) && ParentOk(t, e.p);
    forall c | 0 <= c < |t'.procs| ensures ParentOk(t', c) {
      assert ParentOk(t, c);
    }
  }

  lemma ForkMaking(t: Table, e: Event)
    requires FamilyOk(t) && MakingOk(t) && EmbryosOk(t) && Enabled(t, e) && Forks(e)
    ensures MakingOk(Apply(t, e))
  {
    var t' := Apply(t, e);
    assert MakerOk(t, e.p);
    if e.EvAlloc? { assert ParentOk(t, e.np); }
    forall c | 0 <= c < |t'.procs| ensures MakerOk(t', c) {
      assert MakerOk(t, c);
      if c < e.p { assert MakeApart(t.procs[c], t.procs[e.p]); }
      if e.p < c { assert MakeApart(t.procs[e.p], t.procs[c]); }
    }
    forall p, q | 0 <= p < q < |t'.procs| ensures MakeApart(t'.procs[p], t'.procs[q]) {
      assert MakeApart(t.procs[p], t.procs[q]) && MakerOk(t, p) && MakerOk(t, q);
    }
  }

  lemma ForkEmbryos(t: Table, e: Event)
    requires FamilyOk(t) && MakingOk(t) && EmbryosOk(t) && Enabled(t, e) && Forks(e)
    ensures EmbryosOk(Apply(t, e))
  {
    var t' := Apply(t, e);
    assert MakerOk(t, e.p);
    forall c | 0 <= c < |t'.procs| ensures EmbryoOk(t', c) {
      assert EmbryoOk(t, c) && ParentOk(t, c);
    }
  }

  lemma ForkPids(t: Table, e: Event)
    requires MakingOk(t) && PidsOk(t) && Enabled(t, e) && Forks(e)
    ensures PidsOk(Apply(t, e))
  {
    hide PidsOk, Apply;
    if e.EvAlloc? { AllocPids(t, e); } else { MadePids(t, e); }
  }

  lemma AllocPids(t: Table, e: Event)
    requires PidsOk(t) && Enabled(t, e) && e.EvAlloc?
    ensures PidsOk(Apply(t, e))
  {}

  /** The rest of fork and its failure change no pid and start no slot. */
  lemma MadePids(t: Table, e: Event)
    requires MakingOk(t) && PidsOk(t) && Enabled(t, e) && Forks(e) && !e.EvAlloc?
    ensures PidsOk(Apply(t, e))
  {
    assert MakerOk(t, e.p);
    hide MakingOk, MakerOk;
  }

  lemma ForkExits(t: Table, e: Event)
    requires MakingOk(t) && PidsOk(t) && ExitsOk(t) && Enabled(t, e) && Forks(e)
    ensures ExitsOk(Apply(t, e))
  {
    assert MakerOk(t, e.p);
  }

  lemma ForkReaps(t: Table, e: Event)
    requires MakingOk(t) && ReapsOk(t) && Enabled(t, e) && Forks(e)
    ensures ReapsOk(Apply(t, e))
  {
    var t' := Apply(t, e);
    assert MakerOk(t, e.p);
    forall i | 0 <= i < |t'.exited| && t'.exited[i] !in t'.reaped ensures ZombieWith(t', t'.exited[i]) {
      assert ZombieWith(t, t.exited[i]);
      var p :| 0 <= p < |t.procs| && t.procs[p].state == Zombie && t.procs[p].pid == t.exited[i];
      assert t'.procs[p].state == Zombie;
    }
  }

  lemma ForkWaiters(t: Table, e: Event)
    requires MakingOk(t) && WaitersOk(t) && Enabled(t, e) && Forks(e)
    ensures WaitersOk(Apply(t, e))
  {
    var t' := Apply(t, e);
    assert MakerOk(t, e.p);
    forall p, c | 0 <= p < |t'.procs| && 0 <= c < |t'.procs| && SleepsOn(t'.procs[p], OfProc(p))
      ensures !ZombieChild(t'.procs, c, p)
    {
      assert ZombieChild(t'.procs, c, p) ==> ZombieChild(t.procs, c, p);
    }
  }

  // ---------------------------------------------------------------- exit

  /** What exit does to each slot. */
  lemma ExitEffect(t: Table, p: Slot, q: Slot)
    requires FamilyOk(t) && Enabled(t, EvExit(p)) && q < |t.procs|
    ensures var x, y := t.procs[q], Apply(t, EvExit(p)).procs[q];
      && y.pid == x.pid && y.making == x.making && y.chan == x.chan
      && y.parent == (if x.parent == Some(p) then Some(t.init) else x.parent)
      && (q == p ==> y.state == Zombie)
      && (q != p ==> y.state == x.state || (x.state == Sleeping && y.state == Runnable))
      && (q != p && t.procs[p].parent == Some(q) ==> !SleepsOn(y, OfProc(q)))
      && (q == t.init && HasZombie(t.procs, p) ==> !SleepsOn(y, OfProc(q)))
  {
    assert ParentOk(t, p);
    ZombiesSame(t.procs, WakeParent(t.procs, p), p);
  }

  lemma ZombiesSame(a: seq<Proc>, b: seq<Proc>, p: Slot)
    requires |a| == |b|
    requires forall q :: 0 <= q < |a| ==> a[q].parent == b[q].parent && (a[q].state == Zombie <==> b[q].state == Zombie)
    ensures HasZombie(a, p) == HasZombie(b, p)
  {
    if HasZombie(a, p) {
      var c :| 0 <= c < |a| && ZombieChild(a, c, p);
      assert ZombieChild(b, c, p);
    }
    if HasZombie(b, p) {
      var c :| 0 <= c < |b| && ZombieChild(b, c, p);
      assert ZombieChild(a, c, p);
    }
  }

  lemma ExitFamily(t: Table, p: Slot)
    requires FamilyOk(t) && MakingOk(t) && EmbryosOk(t) && Enabled(t, EvExit(p))
    ensures FamilyOk(Apply(t, EvExit(p)))
  {
    hide Apply, Enabled;
    var t' := Apply(t, EvExit(p));
    ExitFrame(t, p);
    ExitEffect(t, p, t.init);
    forall c | 0 <= c < |t'.procs| ensures ParentOk(t', c) {
      assert ParentOk(t, c);
      ExitEffect(t, p, c);
      if t.procs[c].parent.Some? { ExitEffect(t, p, t.procs[c].parent.value); }
    }
  }

  lemma ExitFrame(t: Table, p: Slot)
    requires Enabled(t, EvExit(p))
    ensures var t' := Apply(t, EvExit(p));
      |t'.procs| == |t.procs| && t'.init == t.init && t'.nextpid == t.nextpid &&
        t'.exited == t.exited + [t.procs[p].pid] && t'.reaped == t.reaped
    ensures p != t.init && p < |t.procs| && t.procs[p].state == Running && t.procs[p].making == None
  {}

  lemma ExitMaking(t: Table, p: Slot)
    requires FamilyOk(t) && MakingOk(t) && EmbryosOk(t) && Enabled(t, EvExit(p))
    ensures MakingOk(Apply(t, EvExit(p))) && EmbryosOk(Apply(t, EvExit(p)))
  {
    hide Apply, Enabled;
    var t' := Apply(t, EvExit(p));
    ExitFrame(t, p);
    forall c | 0 <= c < |t'.procs| ensures MakerOk(t', c) && EmbryoOk(t', c) {
      assert MakerOk(t, c) && EmbryoOk(t, c) && ParentOk(t, c);
      ExitEffect(t, p, c);
      if t.procs[c].making.Some? { ExitEffect(t, p, t.procs[c].making.value); }
      if t.procs[c].parent.Some? { ExitEffect(t, p, t.procs[c].parent.value); }
    }
    forall a, b | 0 <= a < b < |t'.procs| ensures MakeApart(t'.procs[a], t'.procs[b]) {
      assert MakeApart(t.procs[a], t.procs[b]);
      ExitEffect(t, p, a);
      ExitEffect(t, p, b);
    }
  }

  lemma ExitWaiters(t: Table, p: Slot)
    requires FamilyOk(t) && WaitersOk(t) && Enabled(t, EvExit(p))
    ensures WaitersOk(Apply(t, EvExit(p)))
  {
    hide Apply, Enabled;
    var t' := Apply(t, EvExit(p));
    ExitFrame(t, p);
    forall q, c | 0 <= q < |t'.procs| && 0 <= c < |t'.procs| && SleepsOn(t'.procs[q], OfProc(q))
      ensures !ZombieChild(t'.procs, c, q)
    {
      ExitEffect(t, p, q);
      ExitEffect(t, p, c);
      assert SleepsOn(t.procs[q], OfProc(q)) && !ZombieChild(t.procs, c, q);
      if t.procs[c].parent == Some(p) && t.procs[c].state == Zombie { assert ZombieChild(t.procs, c, p); }
      assert ParentOk(t, p);
    }
  }

  lemma ExitPids(t: Table, p: Slot)
    requires FamilyOk(t) && PidsOk(t) && ExitsOk(t) && ReapsOk(t) && Enabled(t, EvExit(p))
    ensures PidsOk(Apply(t, EvExit(p))) && ExitsOk(Apply(t, EvExit(p)))
  {
    hide Apply, Enabled;
    var t' := Apply(t, EvExit(p));
    ExitFrame(t, p);
    forall q | 0 <= q < |t.procs| ensures t'.procs[q].pid == t.procs[q].pid &&
      (if q == p then t'.procs[q].state == Zombie else SameKind(t.procs[q].state, t'.procs[q].state)) {
      ExitEffect(t, p, q);
    }
  }

  lemma ExitReaps(t: Table, p: Slot)
    requires FamilyOk(t) && PidsOk(t) && ExitsOk(t) && ReapsOk(t) && Enabled(t, EvExit(p))
    ensures ReapsOk(Apply(t, EvExit(p)))
  {
    hide Apply, Enabled;
    var t' := Apply(t, EvExit(p));
    ExitFrame(t, p);
    forall q | 0 <= q < |t.procs| ensures t'.procs[q].pid == t.procs[q].pid &&
      (if q == p then t'.procs[q].state == Zombie else SameKind(t.procs[q].state, t'.procs[q].state)) {
      ExitEffect(t, p, q);
    }
    forall i | 0 <= i < |t'.exited| && t'.exited[i] !in t'.reaped ensures ZombieWith(t', t'.exited[i]) {
      if i < |t.exited| {
        assert ZombieWith(t, t.exited[i]);
        var c :| 0 <= c < |t.procs| && t.procs[c].state == Zombie && t.procs[c].pid == t.exited[i];
        assert t'.procs[c].state == Zombie;
      } else {
        assert t'.procs[p].state == Zombie;
      }
    }
  }

  // ---------------------------------------------------------------- wait

  lemma ReapKin(t: Table, p: Slot, c: Slot)
    requires FamilyOk(t) && MakingOk(t) && EmbryosOk(t) && Enabled(t, EvReap(p, c))
    ensures FamilyOk(Apply(t, EvReap(p, c))) && MakingOk(Apply(t, EvReap(p, c))) && EmbryosOk(Apply(t, EvReap(p, c)))
  {
    var t' := Apply(t, EvReap(p, c));
    assert ParentOk(t, c) && MakerOk(t, c);
    forall q | 0 <= q < |t'.procs| ensures ParentOk(t', q) && MakerOk(t', q) && EmbryoOk(t', q) {
      assert ParentOk(t, q) && MakerOk(t, q) && EmbryoOk(t, q);
    }
    forall a, b | 0 <= a < b < |t'.procs| ensures MakeApart(t'.procs[a], t'.procs[b]) {
      assert MakeApart(t.procs[a], t.procs[b]);
    }
  }

  lemma ReapWaiters(t: Table, p: Slot, c: Slot)
    requires FamilyOk(t) && WaitersOk(t) && Enabled(t, EvReap(p, c))
    ensures WaitersOk(Apply(t, EvReap(p, c)))
  {
    var t' := Apply(t, EvReap(p, c));
    forall q, d | 0 <= q < |t'.procs| && 0 <= d < |t'.procs| && SleepsOn(t'.procs[q], OfProc(q))
      ensures !ZombieChild(t'.procs, d, q)
    {
      assert ZombieChild(t'.procs, d, q) ==> ZombieChild(t.procs, d, q);
    }
  }

  lemma ReapPids(t: Table, p: Slot, c: Slot)
    requires FamilyOk(t) && PidsOk(t) && ExitsOk(t) && ReapsOk(t) && Enabled(t, EvReap(p, c))
    ensures PidsOk(Apply(t, EvReap(p, c))) && ExitsOk(Apply(t, EvReap(p, c)))
  {}

  /** The pid that wait returns is of an exited process and of nobody else. */
  lemma ReapedPid(t: Table, c: Slot)
    requires PidsOk(t) && ExitsOk(t) && ReapsOk(t) && c < |t.procs| && t.procs[c].state == Zombie
    ensures t.procs[c].pid in t.exited && t.procs[c].pid !in t.reaped
    ensures forall q :: 0 <= q < |t.procs| && q != c && t.procs[q].state != Unused ==> t.procs[q].pid != t.procs[c].pid
  {}

  lemma ReapReaps(t: Table, p: Slot, c: Slot)
    requires FamilyOk(t) && PidsOk(t) && ExitsOk(t) && ReapsOk(t) && Enabled(t, EvReap(p, c))
    ensures ReapsOk(Apply(t, EvReap(p, c)))
  {
    hide PidsOk, ExitsOk;
    var t' := Apply(t, EvReap(p, c));
    assert ParentOk(t, c);
    ReapedPid(t, c);
    forall i | 0 <= i < |t'.exited| && t'.exited[i] !in t'.reaped ensures ZombieWith(t', t'.exited[i]) {
      assert forall k :: 0 <= k < |t.reaped| ==> t'.reaped[k] == t.reaped[k];
      assert ZombieWith(t, t.exited[i]);
      var q :| 0 <= q < |t.procs| && t.procs[q].state == Zombie && t.procs[q].pid == t.exited[i];
      assert t'.reaped[|t.reaped|] == t.procs[c].pid;
      assert q != c && t'.procs[q].state == Zombie;
    }
  }

  // ---------------------------------------------------------------- every step, every run

  lemma StepKeeps(t: Table, e: Event)
    requires Inv(t) && Enabled(t, e)
    ensures Inv(Apply(t, e))
  {
    hide Apply, Enabled, FamilyOk, WaitersOk, ChansOk, MakingOk, EmbryosOk, PidsOk, ExitsOk, ReapsOk;
    if Schedules(e) {
      ChansElsewhere(t, e);
      SchedulesQuietly(t, e);
      QuietKin(t, Apply(t, e));
      QuietPids(t, Apply(t, e));
      WaitersScheduled(t, e);
    } else if Forks(e) {
      ChansForked(t, e);
      ForkFamily(t, e);
      ForkMaking(t, e);
      ForkEmbryos(t, e);
      ForkPids(t, e);
      ForkExits(t, e);
      ForkReaps(t, e);
      ForkWaiters(t, e);
    } else if e.EvExit? {
      ChansExited(t, e.p);
      ExitFamily(t, e.p);
      ExitMaking(t, e.p);
      ExitWaiters(t, e.p);
      ExitPids(t, e.p);
      ExitReaps(t, e.p);
    } else {
      ChansElsewhere(t, e);
      ReapKin(t, e.p, e.c);
      ReapWaiters(t, e.p, e.c);
      ReapPids(t, e.p, e.c);
      ReapReaps(t, e.p, e.c);
    }
  }

  lemma BootInv(t: Table)
    requires Boots(t)
    ensures Inv(t)
  {}

  lemma {:induction false} RunKeeps(t: Table, es: seq<Event>)
    requires Inv(t) && Runs(t, es)
    ensures Inv(After(t, es))
    decreases |es|
  {
    if es != [] {
      StepKeeps(t, es[0]);
      RunKeeps(Apply(t, es[0]), es[1..]);
    }
  }

  /** No process sleeps in wait while a child of it is a zombie. */
  lemma NoZombieMissed(t: Table, es: seq<Event>, p: Slot, c: Slot)
    requires Boots(t) && Runs(t, es)
    requires var t' := After(t, es); p < |t'.procs| && SleepsOn(t'.procs[p], OfProc(p)) && ChildOf(t'.procs, c, p)
    ensures After(t, es).procs[c].state != Zombie
  {
    BootInv(t);
    RunKeeps(t, es);
    assert !ZombieChild(After(t, es).procs, c, p);
  }

  /** The process that takes the step, if it is one of its own. */
  function Actor(e: Event): Option<Slot> {
    match e
    case EvWake(_) => None
    case EvKill(_) => None
    case _ => Some(e.p)
  }

  /** The last step that p took in the run is step i, in which it went to sleep in wait. */
  predicate LastWaited(es: seq<Event>, p: Slot, i: nat) {
    i < |es| && es[i] == EvWaitSleep(p) && forall j :: i < j < |es| ==> Actor(es[j]) != Some(p)
  }

  /** Asleep in wait, or woken from it and not yet run. */
  predicate InWait(t: Table, p: Slot) {
    p < |t.procs| && t.procs[p].chan == Some(OfProc(p)) &&
    (t.procs[p].state == Sleeping || t.procs[p].state == Runnable)
  }

  lemma InWaitStep(t: Table, e: Event, p: Slot)
    requires Inv(t) && InWait(t, p) && Enabled(t, e) && Actor(e) != Some(p)
    ensures InWait(Apply(t, e), p)
  {
    assert MakingOk(t) && ChansOk(t);
    hide Inv, FamilyOk, WaitersOk, EmbryosOk, PidsOk, ExitsOk, ReapsOk;
    if e.EvForkFail? || e.EvForkDone? || e.EvSetParent? { assert MakerOk(t, e.p); }
  }

  lemma {:induction false} StaysInWait(t: Table, es: seq<Event>, p: Slot)
    requires Inv(t) && InWait(t, p) && Runs(t, es) && forall j :: 0 <= j < |es| ==> Actor(es[j]) != Some(p)
    ensures InWait(After(t, es), p)
    decreases |es|
  {
    hide Inv, InWait, Enabled, Apply;
    if es != [] {
      assert Actor(es[0]) != Some(p);
      StepKeeps(t, es[0]);
      InWaitStep(t, es[0], p);
      StaysInWait(Apply(t, es[0]), es[1..], p);
    }
  }

  lemma {:induction false} WaitedIn(t: Table, es: seq<Event>, p: Slot, i: nat)
    requires Inv(t) && Runs(t, es) && LastWaited(es, p, i)
    ensures InWait(After(t, es), p) && Inv(After(t, es))
    decreases |es|
  {
    hide Inv;
    StepKeeps(t, es[0]);
    RunKeeps(t, es);
    if i > 0 {
      WaitedIn(Apply(t, es[0]), es[1..], p, i - 1);
    } else {
      forall j | 0 <= j < |es[1..]| ensures Actor(es[1..][j]) != Some(p) { assert es[1..][j] == es[j + 1]; }
      StaysInWait(Apply(t, es[0]), es[1..], p);
    }
  }

  /** A process whose last step was to sleep in wait, and that still sleeps, has no zombie child. */
  lemma NoZombieBeside(t: Table, es: seq<Event>, p: Slot, i: nat, c: Slot)
    requires Boots(t) && Runs(t, es) && LastWaited(es, p, i)
    requires var t' := After(t, es); p < |t'.procs| && t'.procs[p].state == Sleeping && ChildOf(t'.procs, c, p)
    ensures After(t, es).procs[c].state != Zombie
  {
    BootInv(t);
    WaitedIn(t, es, p, i);
    assert !ZombieChild(After(t, es).procs, c, p);
  }

  /** The exit of a child makes a process that sleeps in wait ready to run. */
  lemma ExitEndsWait(t: Table, es: seq<Event>, p: Slot, i: nat, c: Slot)
    requires Boots(t) && Runs(t, es) && LastWaited(es, p, i)
    requires Enabled(After(t, es), EvExit(c)) && ChildOf(After(t, es).procs, c, p)
    ensures var t' := Apply(After(t, es), EvExit(c)); p < |t'.procs| && t'.procs[p].state == Runnable
  {
    BootInv(t);
    WaitedIn(t, es, p, i);
    var t' := After(t, es);
    assert t'.procs[p].chan == Some(OfProc(p)) && ParentOk(t', c);
  }

  /** kill ends a wait: the process is ready to run, and then wait returns, with a zombie child or with -1. */
  lemma KillEndsWait(t: Table, es: seq<Event>, p: Slot, i: nat)
    requires Boots(t) && Runs(t, es) && LastWaited(es, p, i)
    ensures Enabled(After(t, es), EvKill(p))
    ensures var t' := Apply(After(t, es), EvKill(p));
      && p < |t'.procs| && t'.procs[p].state == Runnable && !Enabled(t', EvWaitSleep(p))
      && (HasZombie(t'.procs, p) || Enabled(t', EvWaitFail(p)))
  {
    BootInv(t);
    WaitedIn(t, es, p, i);
    var t1 := After(t, es);
    assert ChanOk(t1.procs[p], p);
  }

  /** Until its slot is free again, a killed process does not sleep in wait. */
  lemma {:induction false} KilledNeverWaits(t: Table, es: seq<Event>, p: Slot)
    requires Runs(t, es) && p < |t.procs| && t.procs[p].killed
    requires forall j :: 0 <= j < |es| ==> !(es[j].EvReap? && es[j].c == p)
    ensures p < |After(t, es).procs| && After(t, es).procs[p].killed && !Enabled(After(t, es), EvWaitSleep(p))
    decreases |es|
  {
    if es != [] {
      KilledStep(t, es[0], p);
      hide Apply, Enabled;
      KilledNeverWaits(Apply(t, es[0]), es[1..], p);
    }
  }

  /** When fork is done the child, and it alone, has its pid; it is ready to run and has the caller for a parent. */
  lemma ForkMakes(t: Table, es: seq<Event>, p: Slot)
    requires Boots(t) && Runs(t, es) && Enabled(After(t, es), EvForkDone(p))
    ensures var t' := Apply(After(t, es), EvForkDone(p)); var c := After(t, es).procs[p].making.value;
      && c < |t'.procs| && p < |t'.procs| && c != p && t'.procs[c].state == Runnable && t'.procs[c].parent == Some(p)
      && t'.procs[p].making == None && (t'.procs[c].killed <==> KilledSince(es, c))
      && forall q :: 0 <= q < |t'.procs| && q != c && t'.procs[q].state != Unused ==> t'.procs[q].pid != t'.procs[c].pid
  {
    BootInv(t);
    RunKeeps(t, es);
    var t1 := After(t, es);
    assert MakerOk(t1, p);
    StepKeeps(t1, EvForkDone(p));
    KilledExactly(t, es, t1.procs[p].making.value);
    PidsApart(Apply(t1, EvForkDone(p)), t1.procs[p].making.value);
    hide Inv, Runs, Boots;
  }

  lemma PidsApart(t: Table, c: Slot)
    requires Inv(t) && c < |t.procs| && t.procs[c].state != Unused
    ensures forall q :: 0 <= q < |t.procs| && q != c && t.procs[q].state != Unused ==> t.procs[q].pid != t.procs[c].pid
  {
    assert InUse(t, c);
  }

  /** Slot c has been killed since it was last freed. */
  predicate KilledSince(es: seq<Event>, c: Slot) {
    exists i :: 0 <= i < |es| && es[i] == EvKill(c) && NotReaped(es, i, c)
  }

  predicate NotReaped(es: seq<Event>, i: int, c: Slot) {
    forall j :: 0 <= j < |es| && i < j ==> !(es[j].EvReap? && es[j].c == c)
  }

  lemma {:induction false} SlotsStay(t: Table, es: seq<Event>)
    requires Runs(t, es)
    ensures |After(t, es).procs| == |t.procs|
    decreases |es|
  {
    if es != [] { SlotsStay(Apply(t, es[0]), es[1..]); }
  }

  lemma KilledStep(t: Table, e: Event, c: Slot)
    requires Enabled(t, e) && c < |t.procs|
    ensures c < |Apply(t, e).procs|
    ensures Apply(t, e).procs[c].killed <==> e == EvKill(c) || (t.procs[c].killed && !(e.EvReap? && e.c == c))
  {}

  lemma {:induction false} KilledFrom(t: Table, es: seq<Event>, c: Slot)
    requires Runs(t, es) && c < |t.procs|
    ensures c < |After(t, es).procs|
    ensures After(t, es).procs[c].killed <==> KilledSince(es, c) || (t.procs[c].killed && NotReaped(es, -1, c))
    decreases |es|
  {
    if es != [] {
      KilledStep(t, es[0], c);
      hide Apply, Enabled;
      var t1, rest := Apply(t, es[0]), es[1..];
      KilledFrom(t1, rest, c);
      assert forall j :: 0 < j < |es| ==> es[j] == rest[j - 1];
      if KilledSince(es, c) {
        var i :| 0 <= i < |es| && es[i] == EvKill(c) && NotReaped(es, i, c);
        if i > 0 {
          assert rest[i - 1] == EvKill(c);
          assert NotReaped(rest, i - 1, c) by {
            forall j | 0 <= j < |rest| && i - 1 < j ensures !(rest[j].EvReap? && rest[j].c == c) {
              assert rest[j] == es[j + 1];
            }
          }
        } else {
          assert NotReaped(rest, -1, c) by {
            forall j | 0 <= j < |rest| ensures !(rest[j].EvReap? && rest[j].c == c) { assert rest[j] == es[j + 1]; }
          }
        }
      }
      if KilledSince(rest, c) {
        var i :| 0 <= i < |rest| && rest[i] == EvKill(c) && NotReaped(rest, i, c);
        assert es[i + 1] == EvKill(c) && NotReaped(es, i + 1, c);
      }
      if NotReaped(rest, -1, c) { assert NotReaped(es, 0, c); }
      if NotReaped(es, -1, c) {
        forall j | 0 <= j < |rest| ensures !(rest[j].EvReap? && rest[j].c == c) { assert rest[j] == es[j + 1]; }
      }
    }
  }

  /** A slot is marked killed exactly when kill has hit it since it was last freed, in use or not. */
  lemma KilledExactly(t: Table, es: seq<Event>, c: Slot)
    requires Boots(t) && Runs(t, es) && c < |After(t, es).procs|
    ensures After(t, es).procs[c].killed <==> KilledSince(es, c)
  {
    SlotsStay(t, es);
    KilledFrom(t, es, c);
  }

  /** Every process but init has a parent that is neither free, nor half made, nor a zombie. */
  lemma ParentsLive(t: Table, es: seq<Event>, c: Slot)
    requires Boots(t) && Runs(t, es) && c < |After(t, es).procs| && c != t.init
    requires After(t, es).procs[c].state !in {Unused, Embryo}
    ensures var ps := After(t, es).procs;
      ps[c].parent.Some? && ps[c].parent.value < |ps| && Live(ps[ps[c].parent.value])
  {
    BootInv(t);
    RunKeeps(t, es);
    InitStays(t, es);
    assert ParentOk(After(t, es), c);
  }

  lemma {:induction false} InitStays(t: Table, es: seq<Event>)
    requires Runs(t, es)
    ensures After(t, es).init == t.init
    decreases |es|
  {
    if es != [] { InitStays(Apply(t, es[0]), es[1..]); }
  }

  /** Each exit is answered by at most one wait, and waits for nothing else: the exited pids are the
      reaped ones and those of the zombies, with no repetition. */
  lemma ReapedOnce(t: Table, es: seq<Event>, pid: nat)
    requires Boots(t) && Runs(t, es)
    ensures var t' := After(t, es);
      && (pid in t'.exited <==> pid in t'.reaped || ZombieWith(t', pid))
      && !(pid in t'.reaped && ZombieWith(t', pid))
      && multiset(t'.reaped)[pid] <= 1 && multiset(t'.exited)[pid] <= 1
  {
    BootInv(t);
    RunKeeps(t, es);
    var t' := After(t, es);
    DistinctOnce(t'.reaped, pid);
    DistinctOnce(t'.exited, pid);
  }

  lemma {:induction false} DistinctOnce(xs: seq<nat>, x: nat)
    requires forall i, j :: 0 <= i < j < |xs| ==> xs[i] != xs[j]
    ensures multiset(xs)[x] <= 1
    decreases |xs|
  {
    if xs != [] {
      var n := |xs| - 1;
      DistinctOnce(xs[..n], x);
      assert xs == xs[..n] + [xs[n]];
      if xs[n] == x { assert x !in xs[..n]; }
    }
  }
}
