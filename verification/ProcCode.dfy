/** The loops of proc.c over ptable.proc, run with ptable.lock held. */
module ProcCode {
  import opened Common
  import opened ProcTable

  /** What one pass of wait comes to. */
  datatype WaitResult = Reaped(pid: nat) | NoChildren | Slept

  class Ptable {
    var procs: seq<Proc>
    const init: Slot
    var nextpid: nat
    ghost var exited: seq<nat>
    ghost var reaped: seq<nat>

    ghost function Now(): Table
      reads this
    {
      Table(procs, init, nextpid, exited, reaped)
    }

    ghost predicate Valid()
      reads this
    {
      Inv(Now())
    }

    /** wakeup1 */
    method Wakeup1(c: Chan)
      modifies `procs
      ensures procs == Woken(old(procs), c)
    {
      var q := 0;
      while q < |procs|
        invariant 0 <= q <= |procs| == |old(procs)|
        invariant forall i :: 0 <= i < q ==> procs[i] == Woken(old(procs), c)[i]
        invariant forall i :: q <= i < |procs| ==> procs[i] == old(procs)[i]
      {
        if procs[q].state == Sleeping && procs[q].chan == Some(c) {
          procs := procs[q := procs[q].(state := Runnable)];
        }
        q := q + 1;
      }
    }

    /** allocproc's search, for a process inside fork. */
    method AllocProc(p: Slot) returns (r: Option<Slot>)
      requires Valid() && Acts(Now(), p)
      modifies `procs, `nextpid
      ensures Valid()
      ensures r.None? <==> forall q :: 0 <= q < |old(procs)| ==> old(procs)[q].state != Unused
      ensures r.None? ==> Now() == old(Now())
      ensures r.Some? ==> old(Enabled(Now(), EvAlloc(p, r.value))) && Now() == Apply(old(Now()), EvAlloc(p, r.value))
      ensures r.Some? ==> forall q :: 0 <= q < r.value ==> old(procs)[q].state != Unused
    {
      hide Inv;
      var q := 0;
      while q < |procs|
        invariant 0 <= q <= |procs| && Now() == old(Now())
        invariant forall i :: 0 <= i < q ==> procs[i].state != Unused
      {
        if procs[q].state == Unused {
          StepKeeps(Now(), EvAlloc(p, q));
          procs := procs[q := procs[q].(state := Embryo, pid := nextpid)];
          procs := procs[p := procs[p].(making := Some(q))];
          nextpid := nextpid + 1;
          return Some(q);
        }
        q := q + 1;
      }
      return None;
    }

    /** exit's loop over the table, after the wakeup of the parent: each child goes to init, which is
        woken when one of them is a zombie. */
    method PassChildren(p: Slot)
      requires p < |procs|
      modifies `procs
      ensures procs == if HasZombie(old(procs), p) then Woken(Adopted(old(procs), p, init), OfProc(init))
        else Adopted(old(procs), p, init)
    {
      ghost var was, zombie := procs, false;
      var q := 0;
      while q < |procs|
        invariant 0 <= q <= |procs| == |was|
        invariant zombie <==> exists c :: 0 <= c < q && ZombieChild(was, c, p)
        invariant forall i :: 0 <= i < |was| ==> procs[i] == PassedOn(was[i], p, init, i < q, zombie)
      {
        if procs[q].parent == Some(p) {
          procs := procs[q := procs[q].(parent := Some(init))];
          if procs[q].state == Zombie {
            assert ZombieChild(was, q, p);
            Wakeup1(OfProc(init));
            zombie := true;
          }
        }
        q := q + 1;
      }
      assert zombie <==> HasZombie(was, p);
    }

    /** exit, for any process but init, whose exit is a panic. */
    method Exit(p: Slot) returns (ok: bool)
      requires Valid() && Acts(Now(), p)
      modifies `procs, `exited
      ensures Valid() && (ok <==> p != init)
      ensures !ok ==> Now() == old(Now())
      ensures ok ==> Now() == Apply(old(Now()), EvExit(p))
    {
      if p == init {
        return false;
      }
      StepKeeps(Now(), EvExit(p));
      if procs[p].parent.Some? {
        Wakeup1(OfProc(procs[p].parent.value));
      }
      assert procs == WakeParent(old(procs), p);
      PassChildren(p);
      procs := procs[p := procs[p].(state := Zombie)];
      exited := exited + [procs[p].pid];
      PidThroughExit(old(procs), p, init);
      return true;
    }

    /** One pass of wait's outer loop. */
    method WaitOnce(p: Slot) returns (r: WaitResult)
      requires Valid() && Waits(Now(), p)
      modifies `procs, `reaped
      ensures Valid()
      ensures r.Reaped? ==>
        exists c: Slot ::
          old(Enabled(Now(), EvReap(p, c))) && Now() == Apply(old(Now()), EvReap(p, c)) && r.pid == old(procs)[c].pid &&
            c < |procs| && LikeNew(procs[c])
      ensures r.NoChildren? ==> old(Enabled(Now(), EvWaitFail(p))) && Now() == Apply(old(Now()), EvWaitFail(p))
      ensures r.Slept? ==> old(Enabled(Now(), EvWaitSleep(p))) && Now() == Apply(old(Now()), EvWaitSleep(p))
    {
      hide Inv;
      var haveKids := false;
      var c := 0;
      while c < |procs|
        invariant 0 <= c <= |procs| && Now() == old(Now())
        invariant haveKids <==> exists i :: 0 <= i < c && ChildOf(procs, i, p)
        invariant forall i :: 0 <= i < c ==> !ZombieChild(procs, i, p)
      {
        if procs[c].parent == Some(p) {
          assert ChildOf(procs, c, p);
          haveKids := true;
          if procs[c].state == Zombie {
            assert FirstZombie(procs, p, c);
            StepKeeps(Now(), EvReap(p, c));
            var pid := procs[c].pid;
            procs := procs[c := Freed(procs[c])];
            procs := procs[p := procs[p].(state := Running, chan := None)];
            reaped := reaped + [pid];
            return Reaped(pid);
          }
        }
        c := c + 1;
      }
      assert haveKids <==> HasKids(procs, p);
      if !haveKids || procs[p].killed {
        StepKeeps(Now(), EvWaitFail(p));
        procs := procs[p := procs[p].(state := Running, chan := None)];
        return NoChildren;
      }
      StepKeeps(Now(), EvWaitSleep(p));
      procs := procs[p := procs[p].(state := Sleeping, chan := Some(OfProc(p)))];
      return Slept;
    }

    /** kill: the first slot with the pid, whatever its state. */
    method Kill(pid: nat) returns (ok: bool)
      requires Valid()
      modifies `procs
      ensures Valid()
      ensures !ok <==> forall q :: 0 <= q < |old(procs)| ==> old(procs)[q].pid != pid
      ensures !ok ==> Now() == old(Now())
      ensures ok ==> exists q :: old(FirstWithPid(procs, pid, q)) && Now() == Apply(old(Now()), EvKill(q))
      ensures ok ==> exists q: Slot :: old(FirstWithPid(procs, pid, q)) && Marked(old(procs), procs, q)
    {
      hide Inv;
      var q := 0;
      while q < |procs|
        invariant 0 <= q <= |procs| && Now() == old(Now())
        invariant forall i :: 0 <= i < q ==> procs[i].pid != pid
      {
        if procs[q].pid == pid {
          assert FirstWithPid(procs, pid, q);
          StepKeeps(Now(), EvKill(q));
          procs := procs[q := procs[q].(killed := true, state := if procs[q].state == Sleeping then Runnable
            else procs[q].state)];
          return true;
        }
        q := q + 1;
      }
      return false;
    }
  }

  /** kill(0) finds a free slot, because free slots have pid 0, and marks it; the process that fork puts there next is
      killed from the start. */
  lemma KillZero(t: Table) returns (es: seq<Event>)
    requires Boots(t) && t.init == 0 && |t.procs| >= 2
    ensures Runs(t, es) && |es| == 5 && es[1] == EvKill(1)
    ensures Runs(t, es[..1]) && FirstWithPid(After(t, es[..1]).procs, 0, 1)
    ensures var c := After(t, es).procs; |c| >= 2 && c[1].state == Runnable && c[1].parent == Some(0) && c[1].killed
  {
    var e0, e1, e2, e3, e4 := EvRun(0), EvKill(1), EvAlloc(0, 1), EvSetParent(0), EvForkDone(0);
    es := [e0, e1, e2, e3, e4];
    var t1 := Apply(t, e0);
    var t2 := Apply(t1, e1);
    var t3 := Apply(t2, e2);
    var t4 := Apply(t3, e3);
    var t5 := Apply(t4, e4);
    hide Apply, Enabled;
    RunEmpty(t5);
    RunCons(t4, e4, []);
    RunCons(t3, e3, [e4]);
    RunCons(t2, e2, [e3, e4]);
    RunCons(t1, e1, [e2, e3, e4]);
    RunCons(t, e0, [e1, e2, e3, e4]);
    RunEmpty(t1);
    RunCons(t, e0, []);
    assert es == [e0] + [e1, e2, e3, e4] && es[..1] == [e0] + [];
  }

  lemma RunEmpty(t: Table)
    ensures Runs(t, []) && After(t, []) == t
  {}

  lemma RunCons(t: Table, e: Event, es: seq<Event>)
    requires Enabled(t, e) && Runs(Apply(t, e), es)
    ensures Runs(t, [e] + es) && After(t, [e] + es) == After(Apply(t, e), es)
  {
    hide Apply, Enabled;
    assert ([e] + es)[1..] == es;
  }

  /** A slot that fork may use again. */
  predicate LikeNew(p: Proc) { p.state == Unused && p.pid == 0 && p.parent == None && !p.killed }

  /** kill's marks: killed, and awake. */
  predicate Marked(ps: seq<Proc>, ps': seq<Proc>, q: Slot) {
    && q < |ps| && |ps'| == |ps| && ps'[q].killed && ps'[q].state != Sleeping
    && (ps[q].state != Sleeping ==> ps'[q].state == ps[q].state)
    && (ps[q].state == Sleeping ==> ps'[q].state == Runnable)
    && forall i :: 0 <= i < |ps| && i != q ==> ps'[i] == ps[i]
  }

  predicate FirstWithPid(ps: seq<Proc>, pid: nat, q: Slot) {
    q < |ps| && ps[q].pid == pid && forall i :: 0 <= i < q ==> ps[i].pid != pid
  }

  /** A slot part of the way through exit's loop. */
  function PassedOn(x: Proc, p: Slot, init: Slot, seen: bool, zombie: bool): Proc {
    var y := if seen && x.parent == Some(p) then x.(parent := Some(init)) else x;
    if zombie && SleepsOn(y, OfProc(init)) then y.(state := Runnable) else y
  }

  lemma PidThroughExit(ps: seq<Proc>, p: Slot, init: Slot)
    requires p < |ps|
    ensures Exited(ps, p, init)[p].pid == ps[p].pid
  {}
}
