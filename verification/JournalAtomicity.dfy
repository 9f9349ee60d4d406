/** Crash atomicity seen from one operation: what begin_op and end_op enclose is recovered whole or not at all,
    however many other operations share its transaction. */
module JournalAtomicity {
  import opened Common
  import opened Journal
  import opened JournalInvariant
  import opened JournalRefinement

  // ---------------------------------------------------------------- runs cut in two

  lemma {:induction false} RunsSplit(g: Geometry, s: State, es: seq<Event>, c: nat)
    requires Runs(g, s, es) && c <= |es|
    ensures Runs(g, s, es[..c]) && Runs(g, After(g, s, es[..c]), es[c..])
    ensures After(g, After(g, s, es[..c]), es[c..]) == After(g, s, es)
    decreases |es|
  {
    if c == 0 {
      assert es[..c] == [] && es[c..] == es;
    } else {
      RunsSplit(g, Apply(g, s, es[0]), es[1..], c - 1);
      assert es[..c][0] == es[0] && es[..c][1..] == es[1..][..c - 1] && es[c..] == es[1..][c - 1..];
    }
  }

  /** The last step of a run cut after c steps. */
  lemma RunsNext(g: Geometry, s: State, es: seq<Event>, c: nat)
    requires Runs(g, s, es) && c < |es|
    ensures Runs(g, s, es[..c]) && Runs(g, s, es[..c + 1])
    ensures var t := After(g, s, es[..c]);
      Sized(g, t) && Enabled(g, t, es[c]) && After(g, s, es[..c + 1]) == Apply(g, t, es[c])
  {
    RunsSplit(g, s, es, c);
    RunsSplit(g, s, es, c + 1);
    RunsSplit(g, s, es[..c + 1], c);
    assert es[..c + 1][..c] == es[..c] && es[..c + 1][c..] == [es[c]];
    assert [es[c]][1..] == [];
  }

  // ---------------------------------------------------------------- the stable image is a past current one

  /** Nobody runs, and what is seen is what would survive. */
  ghost predicate Settled(g: Geometry, s: State) {
    Inv(g, s) && Good(g, s) && s.ops == map[] && Abs(g, s).cur == Abs(g, s).stable
  }

  lemma BootSettled(g: Geometry, s: State)
    requires Boots(g, s) && Contained(g, s)
    ensures Settled(g, s)
  {
    BootInv(g, s);
    InvGood(g, s);
    assert Abs(g, s).cur == Abs(g, s).stable;
  }

  /** What survives a crash is what was seen at some moment when no operation was running. */
  lemma {:induction false} StableMoment(g: Geometry, s: State, es: seq<Event>, n: nat) returns (c: nat)
    requires Settled(g, s) && Runs(g, s, es) && n <= |es|
    ensures c <= n && Runs(g, s, es[..c]) && Runs(g, s, es[..n])
    ensures Inv(g, After(g, s, es[..c])) && Good(g, After(g, s, es[..c])) && After(g, s, es[..c]).ops == map[]
    ensures Inv(g, After(g, s, es[..n])) && Good(g, After(g, s, es[..n]))
    ensures Abs(g, After(g, s, es[..n])).stable == Abs(g, After(g, s, es[..c])).cur
    decreases n
  {
    hide Inv, Good, Abs, Apply, Enabled, Sized;
    if n == 0 {
      assert es[..0] == [];
      c := 0;
    } else {
      c := StableMoment(g, s, es, n - 1);
      RunsNext(g, s, es, n - 1);
      StableStep(g, After(g, s, es[..n - 1]), es[n - 1]);
      if es[n - 1].EvCommitHead? { c := n - 1; }
    }
  }

  lemma StableStep(g: Geometry, s: State, e: Event)
    requires Inv(g, s) && Enabled(g, s, e)
    ensures Inv(g, Apply(g, s, e)) && Good(g, s) && Good(g, Apply(g, s, e))
    ensures e.EvCommitHead? ==> s.ops == map[] && Abs(g, Apply(g, s, e)).stable == Abs(g, s).cur
    ensures !e.EvCommitHead? ==> Abs(g, Apply(g, s, e)).stable == Abs(g, s).stable
  {
    hide Abs, Apply;
    StepRefines(g, s, e);
  }

  // ---------------------------------------------------------------- one operation

  /** Step i begins an operation of p, and up to step j it is neither ended nor cut by a crash. */
  predicate RunsOp(es: seq<Event>, p: Pid, i: nat, j: nat) {
    && i < j <= |es| && es[i] == EvBegin(p)
    && forall k :: i < k < j ==> es[k] != EvEnd(p) && !es[k].EvCrash?
  }

  lemma {:induction false} StillRunning(g: Geometry, s: State, es: seq<Event>, p: Pid, i: nat, j: nat, c: nat)
    requires Runs(g, s, es) && RunsOp(es, p, i, j) && i < c <= j
    ensures Runs(g, s, es[..c]) && p in After(g, s, es[..c]).ops
    decreases c
  {
    hide Sized, Runs, Enabled, Apply;
    RunsNext(g, s, es, c - 1);
    OpGoesOn(g, After(g, s, es[..c - 1]), es[c - 1], p);
    if c - 1 > i {
      StillRunning(g, s, es, p, i, j, c - 1);
    }
  }

  /** Only end_op or a crash takes a process out of its operation, and who writes is inside one. */
  lemma OpGoesOn(g: Geometry, s: State, e: Event, p: Pid)
    requires Sized(g, s) && Enabled(g, s, e) && !e.EvCrash?
    ensures e != EvEnd(p) && (p in s.ops || e == EvBegin(p)) ==> p in Apply(g, s, e).ops
    ensures e.EvModify? ==> e.p in s.ops && e.slot < |s.bufs|
  {
    hide Sized;
  }

  /** The writes among ls, on top of an image. */
  function Overlay(image: map<nat, Block>, ls: seq<Label>): map<nat, Block>
    decreases |ls|
  {
    if ls == [] then image else
    Overlay(if ls[0].Write? then image[ls[0].bn := ls[0].data] else image, ls[1..])
  }

  lemma {:induction false} SpecOverlay(sp: Spec, ls: seq<Label>)
    requires forall k :: 0 <= k < |ls| ==> ls[k] != Crash
    ensures SpecRun(sp, ls).cur == Overlay(sp.cur, ls)
    decreases |ls|
  {
    if ls != [] {
      assert ls[0] != Crash;
      SpecOverlay(SpecStep(sp, ls[0]), ls[1..]);
    }
  }

  lemma {:induction false} NoCrashLabel(g: Geometry, s: State, es: seq<Event>)
    requires Runs(g, s, es) && forall k :: 0 <= k < |es| ==> !es[k].EvCrash?
    ensures forall k :: 0 <= k < |Labels(g, s, es)| ==> Labels(g, s, es)[k] != Crash
    decreases |es|
  {
    if es != [] {
      NoCrashLabel(g, Apply(g, s, es[0]), es[1..]);
    }
  }

  /** From step i to step c, with no crash in between, the image seen changes by the writes made. */
  lemma SeenBetween(g: Geometry, s: State, es: seq<Event>, i: nat, c: nat)
    requires Inv(g, s) && Runs(g, s, es) && i <= c <= |es| && forall k :: i <= k < c ==> !es[k].EvCrash?
    ensures Runs(g, s, es[..i]) && Runs(g, s, es[..c]) && Runs(g, After(g, s, es[..i]), es[i..c])
    ensures Good(g, After(g, s, es[..i])) && Good(g, After(g, s, es[..c]))
    ensures Abs(g, After(g, s, es[..c])).cur ==
            Overlay(Abs(g, After(g, s, es[..i])).cur, Labels(g, After(g, s, es[..i]), es[i..c]))
  {
    RunsSplit(g, s, es, c);
    RunsSplit(g, s, es[..c], i);
    assert es[..c][..i] == es[..i] && es[..c][i..] == es[i..c];
    RunRefines(g, s, es[..i]);
    var t := After(g, s, es[..i]);
    RunRefines(g, t, es[i..c]);
    NoCrashLabel(g, t, es[i..c]);
    SpecOverlay(Abs(g, t), Labels(g, t, es[i..c]));
  }

  /** A crash after the run es, and recovery, with any further crashes, up to its first completion. */
  ghost predicate Recovers(g: Geometry, s: State, es: seq<Event>, boot: Pid, junk: seq<Block>, rs: seq<Event>) {
    && Runs(g, s, es) && Sized(g, After(g, s, es)) && Enabled(g, After(g, s, es), EvCrash(boot, junk))
    && var t := Apply(g, After(g, s, es), EvCrash(boot, junk));
      Runs(g, t, rs) && (forall k :: 0 <= k < |rs| ==> RecoveryEvent(rs[k])) && After(g, t, rs).phase == Normal
  }

  /** The state in which that recovery completes. */
  ghost function End(g: Geometry, s: State, es: seq<Event>, boot: Pid, junk: seq<Block>, rs: seq<Event>): State
    requires Recovers(g, s, es, boot, junk, rs)
  {
    After(g, Apply(g, After(g, s, es), EvCrash(boot, junk)), rs)
  }

  /** Recovery brings back what was seen at a moment when no operation was running. */
  lemma RecoveredMoment(g: Geometry, s: State, es: seq<Event>, boot: Pid, junk: seq<Block>, rs: seq<Event>)
      returns (c: nat)
    requires Settled(g, s) && Recovers(g, s, es, boot, junk, rs)
    ensures c <= |es| && Runs(g, s, es[..c]) && After(g, s, es[..c]).ops == map[] && Good(g, After(g, s, es[..c]))
    ensures |End(g, s, es, boot, junk, rs).disk| == g.disksize
    ensures HomeBlocks(g, End(g, s, es, boot, junk, rs).disk) == Abs(g, After(g, s, es[..c])).cur
  {
    CrashAtomicity(g, s, es, boot, junk, rs);
    RunRefines(g, s, es);
    c := StableMoment(g, s, es, |es|);
    assert es[..|es|] == es;
  }

  /** An operation that begins at step i and ends at step j, or is still running then, with no crash since:
      recovery brings back what was seen at a moment c before it began, or at one after its end, and then
      the image has every write made since it began, its own among them. */
  lemma OperationAtomic(g: Geometry, s: State, es: seq<Event>, boot: Pid, junk: seq<Block>, rs: seq<Event>,
                        p: Pid, i: nat, j: nat) returns (c: nat)
    requires Settled(g, s) && Recovers(g, s, es, boot, junk, rs)
    requires RunsOp(es, p, i, j) && forall k :: i <= k < |es| ==> !es[k].EvCrash?
    ensures |End(g, s, es, boot, junk, rs).disk| == g.disksize
    ensures c <= |es| && Runs(g, s, es[..c]) && Good(g, After(g, s, es[..c])) && (c <= i || j < c)
    ensures HomeBlocks(g, End(g, s, es, boot, junk, rs).disk) == Abs(g, After(g, s, es[..c])).cur
    ensures j < c ==> Runs(g, s, es[..i]) && Runs(g, After(g, s, es[..i]), es[i..c]) && Good(g, After(g, s, es[..i]))
    ensures j < c ==>
      Abs(g, After(g, s, es[..c])).cur ==
      Overlay(Abs(g, After(g, s, es[..i])).cur, Labels(g, After(g, s, es[..i]), es[i..c]))
  {
    hide Recovers, Runs;
    c := RecoveredMoment(g, s, es, boot, junk, rs);
    RecoversRuns(g, s, es, boot, junk, rs);
    if i < c <= j {
      StillRunning(g, s, es, p, i, j, c);
      assert false;
    }
    if j < c { SeenBetween(g, s, es, i, c); }
  }

  lemma RecoversRuns(g: Geometry, s: State, es: seq<Event>, boot: Pid, junk: seq<Block>, rs: seq<Event>)
    requires Recovers(g, s, es, boot, junk, rs)
    ensures Runs(g, s, es)
  {}
}
