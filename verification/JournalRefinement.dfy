/** The log over the buffer cache refines a disk with atomic transactions:
    writes go to a current image, a commit makes the current image the stable one,
    and a crash returns to the stable image. */
module JournalRefinement {
  import opened Common
  import opened Journal
  import opened JournalInvariant

  /** The simple disk: what the file system sees, and what survives a crash. */
  datatype Spec = Spec(cur: map<nat, Block>, stable: map<nat, Block>)

  datatype Label = Tau | Write(bn: nat, data: Block) | Commit | Crash

  function SpecStep(sp: Spec, l: Label): Spec {
    match l
    case Tau => sp
    case Write(bn, data) => sp.(cur := sp.cur[bn := data])
    case Commit => sp.(stable := sp.cur)
    case Crash => sp.(cur := sp.stable)
  }

  function SpecRun(sp: Spec, ls: seq<Label>): Spec
    decreases |ls|
  {
    if ls == [] then sp else SpecRun(SpecStep(sp, ls[0]), ls[1..])
  }

  function LabelOf(g: Geometry, s: State, e: Event): Label
    requires Enabled(g, s, e)
  {
    match e
    case EvModify(_, slot, data) => Write(s.bufs[slot].blockno, data)
    case EvCommitHead(_) => Commit
    case EvCrash(_, _) => Crash
    case _ => Tau
  }

  ghost function Labels(g: Geometry, s: State, es: seq<Event>): seq<Label>
    requires Runs(g, s, es)
    decreases |es|
  {
    if es == [] then [] else [LabelOf(g, s, es[0])] + Labels(g, Apply(g, s, es[0]), es[1..])
  }

  // ---------------------------------------------------------------- abstraction

  /** What recover_from_log would leave in home block bn of this disk. */
  ghost function Recovered(g: Geometry, disk: seq<Block>, bn: nat): Block
    requires GeometryOk(g) && |disk| == g.disksize && Home(g, bn)
    requires HeadOk(disk[g.start]) && GoodHeader(g, DecodeHead(disk[g.start]))
  {
    var h := DecodeHead(disk[g.start]);
    if bn in h then
      var k :| 0 <= k < |h| && h[k] == bn;
      disk[g.start + 1 + k]
    else disk[bn]
  }

  predicate Recovering(s: State) {
    s.phase == ReadHead || (s.phase.Install? && s.phase.rec) || (s.phase.ClearHead? && s.phase.rec)
  }

  predicate ValidCopy(s: State, i: int, bn: nat) {
    0 <= i < |s.bufs| && s.bufs[i].valid && s.bufs[i].blockno == bn
  }

  ghost predicate Good(g: Geometry, s: State) {
    Sized(g, s) && HeadOk(s.disk[g.start]) && GoodHeader(g, DecodeHead(s.disk[g.start]))
  }

  /** What a process reading home block bn finds. */
  ghost function View(g: Geometry, s: State, bn: nat): Block
    requires Good(g, s) && Home(g, bn)
  {
    if Recovering(s) then Recovered(g, s.disk, bn)
    else if exists i :: ValidCopy(s, i, bn) then
      var i :| ValidCopy(s, i, bn);
      s.bufs[i].data
    else s.disk[bn]
  }

  ghost function Abs(g: Geometry, s: State): Spec
    requires Good(g, s)
  {
    Spec(map bn: nat | bn < g.disksize && Home(g, bn) :: View(g, s, bn),
         map bn: nat | bn < g.disksize && Home(g, bn) :: Recovered(g, s.disk, bn))
  }

  lemma InvGood(g: Geometry, s: State)
    requires Inv(g, s)
    ensures Good(g, s)
  {}

  // ---------------------------------------------------------------- facts about View and Recovered

  lemma RecoveredAt(g: Geometry, disk: seq<Block>, bn: nat, k: nat)
    requires GeometryOk(g) && |disk| == g.disksize && Home(g, bn)
    requires HeadOk(disk[g.start]) && GoodHeader(g, DecodeHead(disk[g.start]))
    requires k < |DecodeHead(disk[g.start])| && DecodeHead(disk[g.start])[k] == bn
    ensures Recovered(g, disk, bn) == disk[g.start + 1 + k]
  {}

  lemma ViewAt(g: Geometry, s: State, bn: nat, i: nat)
    requires Good(g, s) && OneBuffer(s) && Home(g, bn) && !Recovering(s) && ValidCopy(s, i, bn)
    ensures View(g, s, bn) == s.bufs[i].data
  {}

  /** A block whose cached copy, if any, is clean reads as its disk block. */
  lemma ViewClean(g: Geometry, s: State, bn: nat)
    requires Inv(g, s) && Home(g, bn) && !Recovering(s)
    requires forall i :: ValidCopy(s, i, bn) ==> !s.bufs[i].dirty && i !in s.touched
    ensures View(g, s, bn) == s.disk[bn]
  {}

  /** Valid contents agree, or a buffer without them was clean: the view is the same. */
  lemma ViewSame(g: Geometry, s: State, s': State, bn: nat)
    requires Good(g, s) && Good(g, s') && OneBuffer(s) && OneBuffer(s') && Home(g, bn)
    requires !Recovering(s) && !Recovering(s')
    requires s'.disk[bn] == s.disk[bn]
    requires forall i :: ValidCopy(s', i, bn) ==> ValidCopy(s, i, bn) && s'.bufs[i].data == s.bufs[i].data
    requires forall i :: ValidCopy(s, i, bn) && !ValidCopy(s', i, bn) ==> s.bufs[i].data == s.disk[bn]
    ensures View(g, s', bn) == View(g, s, bn)
  {
    if i :| ValidCopy(s', i, bn) {
      ViewAt(g, s', bn, i);
      ViewAt(g, s, bn, i);
    } else if i :| ValidCopy(s, i, bn) {
      ViewAt(g, s, bn, i);
    }
  }

  // ---------------------------------------------------------------- the step theorem, block by block

  lemma StableSame(g: Geometry, s: State, s': State, bn: nat)
    requires Good(g, s) && Good(g, s') && Home(g, bn)
    requires DecodeHead(s'.disk[g.start]) == DecodeHead(s.disk[g.start])
    requires s'.disk[bn] == s.disk[bn]
    requires forall j :: g.start < j <= g.start + |DecodeHead(s.disk[g.start])| ==> s'.disk[j] == s.disk[j]
    ensures Recovered(g, s'.disk, bn) == Recovered(g, s.disk, bn)
  {
    var h := DecodeHead(s.disk[g.start]);
    if bn in h {
      var k :| 0 <= k < |h| && h[k] == bn;
      RecoveredAt(g, s.disk, bn, k);
      RecoveredAt(g, s'.disk, bn, k);
    }
  }

  /** Both images of home block bn in s' are those in s. */
  ghost predicate SameImages(g: Geometry, s: State, s': State, bn: nat)
    requires Good(g, s) && Good(g, s') && Home(g, bn)
  {
    View(g, s', bn) == View(g, s, bn) && Recovered(g, s'.disk, bn) == Recovered(g, s.disk, bn)
  }

  lemma GetStep(g: Geometry, s: State, p: Pid, dev: nat, b: nat, slot: nat, bn: nat)
    requires Inv(g, s) && Enabled(g, s, EvGet(p, dev, b, slot)) && Inv(g, Apply(g, s, EvGet(p, dev, b, slot)))
    requires Home(g, bn)
    ensures SameImages(g, s, Apply(g, s, EvGet(p, dev, b, slot)), bn)
  {
    var s' := Apply(g, s, EvGet(p, dev, b, slot));
    if !Recovering(s) {
      ViewSame(g, s, s', bn);
    }
  }

  lemma FillStep(g: Geometry, s: State, p: Pid, slot: nat, bn: nat)
    requires Inv(g, s) && Enabled(g, s, EvFill(p, slot)) && Inv(g, Apply(g, s, EvFill(p, slot))) && Home(g, bn)
    ensures SameImages(g, s, Apply(g, s, EvFill(p, slot)), bn)
  {
    var s' := Apply(g, s, EvFill(p, slot));
    if !Recovering(s) {
      if s.bufs[slot].blockno == bn {
        ViewAt(g, s', bn, slot);
        assert forall i :: ValidCopy(s, i, bn) ==> i == slot;
      } else {
        ViewSame(g, s, s', bn);
      }
    }
  }

  /** A step that touches neither disk nor the contents of any buffer. */
  lemma QuietStep(g: Geometry, s: State, s': State, bn: nat)
    requires Good(g, s) && Good(g, s') && OneBuffer(s) && OneBuffer(s') && Home(g, bn)
    requires s'.disk == s.disk && |s'.bufs| == |s.bufs| && Recovering(s') == Recovering(s)
    requires forall i :: 0 <= i < |s.bufs| ==>
      s'.bufs[i].valid == s.bufs[i].valid && s'.bufs[i].blockno == s.bufs[i].blockno &&
        s'.bufs[i].data == s.bufs[i].data
    ensures SameImages(g, s, s', bn)
  {
    if !Recovering(s) {
      ViewSame(g, s, s', bn);
    }
  }

  lemma ModifyStep(g: Geometry, s: State, p: Pid, slot: nat, data: Block, bn: nat)
    requires Inv(g, s) && Enabled(g, s, EvModify(p, slot, data)) && Inv(g, Apply(g, s, EvModify(p, slot, data)))
    requires Home(g, bn)
    ensures View(g, Apply(g, s, EvModify(p, slot, data)), bn) == if bn == s.bufs[slot].blockno then data
      else View(g, s, bn)
    ensures Recovered(g, Apply(g, s, EvModify(p, slot, data)).disk, bn) == Recovered(g, s.disk, bn)
  {
    var s' := Apply(g, s, EvModify(p, slot, data));
    if bn == s.bufs[slot].blockno {
      ViewAt(g, s', bn, slot);
    } else {
      ViewSame(g, s, s', bn);
    }
  }

  lemma CopyToLogStep(g: Geometry, s: State, to: nat, from: nat, bn: nat)
    requires Inv(g, s) && Enabled(g, s, EvCopyToLog(to, from)) && Home(g, bn)
    requires Good(g, Apply(g, s, EvCopyToLog(to, from))) && OneBuffer(Apply(g, s, EvCopyToLog(to, from)))
    ensures SameImages(g, s, Apply(g, s, EvCopyToLog(to, from)), bn)
  {
    var s' := Apply(g, s, EvCopyToLog(to, from));
    LogAreaStep(g, s, s', to, bn);
    StableSame(g, s, s', bn);
  }

  lemma CommitPointLogged(g: Geometry, s: State, disk: seq<Block>, bn: nat, k: nat)
    requires Good(g, s) && OneBuffer(s) && GoodHeader(g, s.lh) && LoggedIsDirty(s) && DirtyIsLogged(s)
    requires LogMatches(g, s)
    requires s.phase == WriteHead && Home(g, bn) && k < |s.lh| && s.lh[k] == bn
    requires |disk| == |s.disk| && (forall j :: 0 <= j < |disk| && j != g.start ==> disk[j] == s.disk[j])
    requires HeadOk(disk[g.start]) && DecodeHead(disk[g.start]) == s.lh
    ensures Recovered(g, disk, bn) == View(g, s, bn)
  {
    RecoveredAt(g, disk, bn, k);
    assert DirtyCopy(s, s.lh[k]) && Copied(s, k);
    var i :| 0 <= i < |s.bufs| && s.bufs[i].dirty && s.bufs[i].blockno == s.lh[k];
    ViewAt(g, s, bn, i);
  }

  /** With every logged block copied to the log, a header naming them recovers to the current image. */
  lemma CommitPoint(g: Geometry, s: State, disk: seq<Block>, bn: nat)
    requires Inv(g, s) && s.phase == WriteHead && Home(g, bn)
    requires |disk| == |s.disk| && (forall j :: 0 <= j < |disk| && j != g.start ==> disk[j] == s.disk[j])
    requires HeadOk(disk[g.start]) && DecodeHead(disk[g.start]) == s.lh
    ensures Recovered(g, disk, bn) == View(g, s, bn)
  {
    if k :| 0 <= k < |s.lh| && s.lh[k] == bn {
      CommitPointLogged(g, s, disk, bn, k);
    } else {
      NothingTouched(g, s);
      UnloggedClean(g, s, bn);
      ViewClean(g, s, bn);
    }
  }

  /** Writing the header makes the current image the stable one. */
  lemma CommitHeadStep(g: Geometry, s: State, hb: nat, bn: nat)
    requires Inv(g, s) && Enabled(g, s, EvCommitHead(hb)) && Home(g, bn)
    requires Good(g, Apply(g, s, EvCommitHead(hb))) && OneBuffer(Apply(g, s, EvCommitHead(hb)))
    ensures ImageStep(g, s, Apply(g, s, EvCommitHead(hb)), Commit, bn)
  {
    var s' := Apply(g, s, EvCommitHead(hb));
    LogAreaStep(g, s, s', hb, bn);
    CommitPoint(g, s, s'.disk, bn);
  }

  /** A bwrite into the log area by the committer does not show in the current image. */
  lemma LogAreaStep(g: Geometry, s: State, s': State, slot: nat, bn: nat)
    requires Good(g, s) && Good(g, s') && OneBuffer(s) && OneBuffer(s') && Home(g, bn) && !Recovering(s)
    requires !Recovering(s')
    requires slot < |s.bufs| && s.bufs[slot].valid && !Home(g, s.bufs[slot].blockno)
    requires |s'.bufs| == |s.bufs| && s'.bufs[slot].blockno == s.bufs[slot].blockno
    requires forall i :: 0 <= i < |s.bufs| && i != slot ==> s'.bufs[i] == s.bufs[i]
    requires forall j :: 0 <= j < |s.disk| && j != s.bufs[slot].blockno ==> s'.disk[j] == s.disk[j]
    ensures View(g, s', bn) == View(g, s, bn)
  {
    ViewSame(g, s, s', bn);
  }

  /** A block outside the pinned part of the header has no dirty copy. */
  lemma UnloggedClean(g: Geometry, s: State, bn: nat)
    requires Inv(g, s) && forall k :: PinFrom(s) <= k < |s.lh| ==> s.lh[k] != bn
    ensures forall i :: ValidCopy(s, i, bn) ==> !s.bufs[i].dirty
  {
    assert bn !in s.lh[PinFrom(s)..];
  }

  /** Installing one logged block changes neither image: its log block already counted. */
  lemma InstallStable(g: Geometry, s: State, s': State, t: nat, bn: nat)
    requires Good(g, s) && Good(g, s') && Home(g, bn)
    requires t < |DecodeHead(s.disk[g.start])| && Home(g, DecodeHead(s.disk[g.start])[t])
    requires s'.disk == s.disk[DecodeHead(s.disk[g.start])[t] := s.disk[g.start + 1 + t]]
    ensures Recovered(g, s'.disk, bn) == Recovered(g, s.disk, bn)
  {
    var h := DecodeHead(s.disk[g.start]);
    assert DecodeHead(s'.disk[g.start]) == h;
    if k :| 0 <= k < |h| && h[k] == bn {
      RecoveredAt(g, s.disk, bn, k);
      RecoveredAt(g, s'.disk, bn, k);
    }
  }

  /** The dirty copy of a block about to be installed is its log block. */
  lemma InstallSource(g: Geometry, s: State, bn: nat)
    requires Good(g, s) && OneBuffer(s) && GoodHeader(g, s.lh) && DirtyIsLogged(s) && LoggedIsDirty(s)
    requires LogMatches(g, s)
    requires s.phase.Install? && !s.phase.rec && s.phase.tail < |s.lh| && Home(g, bn) && bn == s.lh[s.phase.tail]
    ensures View(g, s, bn) == s.disk[g.start + 1 + s.phase.tail]
  {
    var k := s.phase.tail;
    assert DirtyCopy(s, s.lh[k]) && Copied(s, k);
    var i :| 0 <= i < |s.bufs| && s.bufs[i].dirty && s.bufs[i].blockno == s.lh[k];
    ViewAt(g, s, bn, i);
  }

  lemma InstallView(g: Geometry, s: State, s': State, db: nat, bn: nat)
    requires Good(g, s) && Good(g, s') && OneBuffer(s) && OneBuffer(s') && Home(g, bn)
    requires !Recovering(s) && !Recovering(s')
    requires db < |s.bufs| && s.bufs[db].valid
    requires |s'.bufs| == |s.bufs| && ValidCopy(s', db, s.bufs[db].blockno)
    requires bn == s.bufs[db].blockno ==> s'.bufs[db].data == View(g, s, bn)
    requires forall i :: 0 <= i < |s.bufs| && i != db ==> s'.bufs[i] == s.bufs[i]
    requires forall j :: 0 <= j < |s.disk| && j != s.bufs[db].blockno ==> s'.disk[j] == s.disk[j]
    ensures View(g, s', bn) == View(g, s, bn)
  {
    if bn == s.bufs[db].blockno {
      ViewAt(g, s', bn, db);
    } else {
      ViewSame(g, s, s', bn);
    }
  }

  lemma InstallViewStep(g: Geometry, s: State, lb: nat, db: nat, bn: nat)
    requires Inv(g, s) && Enabled(g, s, EvInstall(lb, db)) && !s.phase.rec && Home(g, bn)
    requires var s' := Apply(g, s, EvInstall(lb, db)); Good(g, s') && OneBuffer(s')
    requires s.bufs[lb].data == s.disk[g.start + 1 + s.phase.tail]
    ensures View(g, Apply(g, s, EvInstall(lb, db)), bn) == View(g, s, bn)
  {
    hide Good, OneBuffer, DirtyIsLogged, LoggedIsDirty, LogMatches, View;
    var s' := Apply(g, s, EvInstall(lb, db));
    InvGood(g, s);
    if bn == s.bufs[db].blockno {
      InstallSource(g, s, bn);
    }
    InstallView(g, s, s', db, bn);
  }

  lemma InstallStableStep(g: Geometry, s: State, lb: nat, db: nat, bn: nat)
    requires Good(g, s) && GoodHeader(g, s.lh) && HeadMatches(g, s) && Enabled(g, s, EvInstall(lb, db)) && Home(g, bn)
    requires Good(g, Apply(g, s, EvInstall(lb, db)))
    requires s.bufs[lb].data == s.disk[g.start + 1 + s.phase.tail]
    ensures Recovered(g, Apply(g, s, EvInstall(lb, db)).disk, bn) == Recovered(g, s.disk, bn)
  {
    InstallStable(g, s, Apply(g, s, EvInstall(lb, db)), s.phase.tail, bn);
  }

  lemma InstallStep(g: Geometry, s: State, lb: nat, db: nat, bn: nat)
    requires Inv(g, s) && Enabled(g, s, EvInstall(lb, db)) && Home(g, bn)
    requires Good(g, Apply(g, s, EvInstall(lb, db))) && OneBuffer(Apply(g, s, EvInstall(lb, db)))
    ensures SameImages(g, s, Apply(g, s, EvInstall(lb, db)), bn)
  {
    hide Inv, Apply, Enabled, View, Recovered;
    InstallReads(g, s, lb, db);
    InstallStableStep(g, s, lb, db, bn);
    if s.phase.rec {
      InstallRecovers(g, s, lb, db, bn);
    } else {
      InstallViewStep(g, s, lb, db, bn);
    }
  }

  lemma InstallReads(g: Geometry, s: State, lb: nat, db: nat)
    requires Inv(g, s) && Enabled(g, s, EvInstall(lb, db))
    ensures Good(g, s) && HeadMatches(g, s) && GoodHeader(g, s.lh)
    ensures s.phase.Install? && lb < |s.bufs| && g.start + 1 + s.phase.tail < |s.disk|
    ensures s.bufs[lb].data == s.disk[g.start + 1 + s.phase.tail]
  {
    hide CacheInv, PinInv, Budgeted, PassedOk;
    InvGood(g, s);
    LogBlockClean(g, s, lb);
  }

  lemma InstallRecovers(g: Geometry, s: State, lb: nat, db: nat, bn: nat)
    requires Inv(g, s) && Enabled(g, s, EvInstall(lb, db)) && s.phase.rec && Home(g, bn) && Good(g, s)
    requires Good(g, Apply(g, s, EvInstall(lb, db)))
    ensures View(g, s, bn) == Recovered(g, s.disk, bn)
    ensures var s' := Apply(g, s, EvInstall(lb, db)); View(g, s', bn) == Recovered(g, s'.disk, bn)
  {
    hide Inv, Recovered;
  }

  /** With every logged block installed, erasing the header changes nothing. */
  lemma ClearStable(g: Geometry, s: State, disk: seq<Block>, bn: nat)
    requires Inv(g, s) && s.phase.ClearHead? && Home(g, bn)
    requires |disk| == |s.disk| && (forall j :: 0 <= j < |disk| && j != g.start ==> disk[j] == s.disk[j])
    requires HeadOk(disk[g.start]) && DecodeHead(disk[g.start]) == []
    ensures Recovered(g, disk, bn) == disk[bn] == Recovered(g, s.disk, bn)
  {
    if k :| 0 <= k < |s.lh| && s.lh[k] == bn {
      RecoveredAt(g, s.disk, bn, k);
      assert Installed(s, k);
    }
  }

  lemma ClearHeadStep(g: Geometry, s: State, hb: nat, bn: nat)
    requires Inv(g, s) && Enabled(g, s, EvClearHead(hb)) && Inv(g, Apply(g, s, EvClearHead(hb))) && Home(g, bn)
    ensures SameImages(g, s, Apply(g, s, EvClearHead(hb)), bn)
  {
    var s' := Apply(g, s, EvClearHead(hb));
    ClearStable(g, s, s'.disk, bn);
    if s.phase.rec {
      NothingLoggedView(g, s', bn);
    } else {
      LogAreaStep(g, s, s', hb, bn);
    }
  }

  /** With an empty header and no operation running, reads see the disk. */
  lemma NothingLoggedView(g: Geometry, s: State, bn: nat)
    requires Inv(g, s) && s.lh == [] && s.touched == {} && !Recovering(s) && Home(g, bn)
    ensures View(g, s, bn) == s.disk[bn] == Recovered(g, s.disk, bn)
  {
    UnloggedClean(g, s, bn);
    ViewClean(g, s, bn);
  }

  lemma CrashStep(g: Geometry, s: State, boot: Pid, junk: seq<Block>, bn: nat)
    requires Inv(g, s) && Enabled(g, s, EvCrash(boot, junk)) && Inv(g, Apply(g, s, EvCrash(boot, junk))) && Home(g, bn)
    ensures View(g, Apply(g, s, EvCrash(boot, junk)), bn) == Recovered(g, s.disk, bn)
    ensures Recovered(g, Apply(g, s, EvCrash(boot, junk)).disk, bn) == Recovered(g, s.disk, bn)
  {
  }

  lemma FinishStep(g: Geometry, s: State, bn: nat)
    requires Inv(g, s) && Enabled(g, s, EvFinish) && Inv(g, Apply(g, s, EvFinish)) && Home(g, bn)
    ensures SameImages(g, s, Apply(g, s, EvFinish), bn)
  {
    QuietStep(g, s, Apply(g, s, EvFinish), bn);
  }

  lemma ReadHeadStep(g: Geometry, s: State, hb: nat, bn: nat)
    requires Inv(g, s) && Enabled(g, s, EvReadHead(hb)) && Inv(g, Apply(g, s, EvReadHead(hb))) && Home(g, bn)
    ensures SameImages(g, s, Apply(g, s, EvReadHead(hb)), bn)
  {
  }

  predicate QuietEvent(e: Event) {
    e.EvLock? || e.EvUnlock? || e.EvUnref? || e.EvLogTest? || e.EvLogWrite? || e.EvBegin? || e.EvEnd?
  }

  lemma QuietEffect(g: Geometry, s: State, e: Event)
    requires Sized(g, s) && Budgeted(s) && Enabled(g, s, e) && QuietEvent(e)
    ensures var s' := Apply(g, s, e);
      && s'.disk == s.disk && |s'.bufs| == |s.bufs| && Recovering(s') == Recovering(s)
      && forall i :: 0 <= i < |s.bufs| ==>
           s'.bufs[i].valid == s.bufs[i].valid && s'.bufs[i].blockno == s.bufs[i].blockno &&
           s'.bufs[i].data == s.bufs[i].data
  {
    hide Reserved, Sized;
    if e.EvEnd? { assert s.phase == Normal; }
  }

  lemma QuietStepOf(g: Geometry, s: State, e: Event, bn: nat)
    requires Good(g, s) && OneBuffer(s) && Budgeted(s) && Enabled(g, s, e) && Home(g, bn) && QuietEvent(e)
    requires Good(g, Apply(g, s, e)) && OneBuffer(Apply(g, s, e))
    ensures SameImages(g, s, Apply(g, s, e), bn)
  {
    hide Apply, Enabled, Budgeted, OneBuffer;
    QuietEffect(g, s, e);
    QuietStep(g, s, Apply(g, s, e), bn);
  }

  /** Both images of one block after one step, by the label of the step. */
  ghost predicate ImageStep(g: Geometry, s: State, s': State, l: Label, bn: nat)
    requires Good(g, s) && Good(g, s') && Home(g, bn)
  {
    match l
    case Tau => SameImages(g, s, s', bn)
    case Write(b, data) =>
      && View(g, s', bn) == (if bn == b then data else View(g, s, bn))
      && Recovered(g, s'.disk, bn) == Recovered(g, s.disk, bn)
    case Commit => View(g, s', bn) == View(g, s, bn) && Recovered(g, s'.disk, bn) == View(g, s, bn)
    case Crash => View(g, s', bn) == Recovered(g, s.disk, bn) && Recovered(g, s'.disk, bn) == Recovered(g, s.disk, bn)
  }

  lemma ImageStepOfCommit(g: Geometry, s: State, e: Event, bn: nat)
    requires Inv(g, s) && Enabled(g, s, e) && Inv(g, Apply(g, s, e)) && Home(g, bn)
    requires e.EvCopyToLog? || e.EvCommitHead? || e.EvInstall? || e.EvClearHead?
    requires Good(g, s) && Good(g, Apply(g, s, e))
    ensures ImageStep(g, s, Apply(g, s, e), LabelOf(g, s, e), bn)
  {
    hide Apply, Enabled;
    match e
    case EvCopyToLog(to, from) => CopyToLogStep(g, s, to, from, bn);
    case EvCommitHead(hb) => CommitHeadStep(g, s, hb, bn);
    case EvInstall(lb, db) => InstallStep(g, s, lb, db, bn);
    case EvClearHead(hb) => ClearHeadStep(g, s, hb, bn);
  }

  lemma ImageStepOfBoot(g: Geometry, s: State, e: Event, bn: nat)
    requires Inv(g, s) && Enabled(g, s, e) && Inv(g, Apply(g, s, e)) && Home(g, bn)
    requires e.EvFinish? || e.EvCrash? || e.EvReadHead?
    ensures ImageStep(g, s, Apply(g, s, e), LabelOf(g, s, e), bn)
  {
    hide Apply, Enabled;
    match e
    case EvFinish => FinishStep(g, s, bn);
    case EvCrash(boot, junk) => CrashStep(g, s, boot, junk, bn);
    case EvReadHead(hb) => ReadHeadStep(g, s, hb, bn);
  }

  lemma ImageStepHolds(g: Geometry, s: State, e: Event, bn: nat)
    requires Inv(g, s) && Enabled(g, s, e) && Inv(g, Apply(g, s, e)) && Home(g, bn)
    requires Good(g, s) && Good(g, Apply(g, s, e))
    ensures ImageStep(g, s, Apply(g, s, e), LabelOf(g, s, e), bn)
  {
    hide Apply, Enabled, Inv;
    InvParts(g, s);
    InvParts(g, Apply(g, s, e));
    match e
    case EvGet(p, dev, b, slot) => GetStep(g, s, p, dev, b, slot, bn);
    case EvFill(p, slot) => FillStep(g, s, p, slot, bn);
    case EvModify(p, slot, data) => ModifyStep(g, s, p, slot, data, bn);
    case EvLock(_, _) => QuietStepOf(g, s, e, bn);
    case EvUnlock(_, _) => QuietStepOf(g, s, e, bn);
    case EvUnref(_, _) => QuietStepOf(g, s, e, bn);
    case EvLogTest(_, _) => QuietStepOf(g, s, e, bn);
    case EvLogWrite(_, _) => QuietStepOf(g, s, e, bn);
    case EvBegin(_) => QuietStepOf(g, s, e, bn);
    case EvEnd(_) => QuietStepOf(g, s, e, bn);
    case EvFinish => ImageStepOfBoot(g, s, e, bn);
    case EvCrash(_, _) => ImageStepOfBoot(g, s, e, bn);
    case EvReadHead(_) => ImageStepOfBoot(g, s, e, bn);
    case _ => ImageStepOfCommit(g, s, e, bn);
  }

  /** Both images at one block. */
  lemma AbsAt(g: Geometry, s: State, bn: nat)
    requires Good(g, s) && Home(g, bn)
    ensures bn in Abs(g, s).cur && Abs(g, s).cur[bn] == View(g, s, bn)
    ensures bn in Abs(g, s).stable && Abs(g, s).stable[bn] == Recovered(g, s.disk, bn)
  {
  }

  lemma AbsKeys(g: Geometry, s: State)
    requires Good(g, s)
    ensures forall bn: nat :: bn in Abs(g, s).cur <==> Home(g, bn)
    ensures forall bn: nat :: bn in Abs(g, s).stable <==> Home(g, bn)
  {
  }

  /** The step of the simple disk at one block. */
  predicate SpecStepAt(sp: Spec, sp': Spec, l: Label, bn: nat)
    requires bn in sp.cur && bn in sp.stable && bn in sp'.cur && bn in sp'.stable
  {
    match l
    case Tau => sp'.cur[bn] == sp.cur[bn] && sp'.stable[bn] == sp.stable[bn]
    case Write(b, data) => sp'.cur[bn] == (if bn == b then data else sp.cur[bn]) && sp'.stable[bn] == sp.stable[bn]
    case Commit => sp'.cur[bn] == sp.cur[bn] && sp'.stable[bn] == sp.cur[bn]
    case Crash => sp'.cur[bn] == sp.stable[bn] && sp'.stable[bn] == sp.stable[bn]
  }

  lemma SpecStepByBlocks(g: Geometry, sp: Spec, sp': Spec, l: Label)
    requires forall bn: nat :: (bn in sp.cur <==> Home(g, bn)) && (bn in sp.stable <==> Home(g, bn))
    requires forall bn: nat :: (bn in sp'.cur <==> Home(g, bn)) && (bn in sp'.stable <==> Home(g, bn))
    requires forall bn: nat | Home(g, bn) :: SpecStepAt(sp, sp', l, bn)
    requires l.Write? ==> Home(g, l.bn)
    ensures sp' == SpecStep(sp, l)
  {
    var r := SpecStep(sp, l);
    assert sp'.cur == r.cur;
    assert sp'.stable == r.stable;
  }

  lemma AbsStepAt(g: Geometry, s: State, s': State, l: Label, bn: nat)
    requires Good(g, s) && Good(g, s') && Home(g, bn) && ImageStep(g, s, s', l, bn)
    ensures bn in Abs(g, s).cur && bn in Abs(g, s).stable && bn in Abs(g, s').cur && bn in Abs(g, s').stable
    ensures SpecStepAt(Abs(g, s), Abs(g, s'), l, bn)
  {
    AbsAt(g, s, bn);
    AbsAt(g, s', bn);
  }

  lemma WritesHome(g: Geometry, s: State, e: Event)
    requires Enabled(g, s, e)
    ensures LabelOf(g, s, e).Write? ==> Home(g, LabelOf(g, s, e).bn)
  {}

  // ---------------------------------------------------------------- main theorems

  /** One step of the real system is one step, or none, of the disk with atomic transactions. */
  lemma StepRefines(g: Geometry, s: State, e: Event)
    requires Inv(g, s) && Enabled(g, s, e)
    ensures Inv(g, Apply(g, s, e)) && Good(g, s) && Good(g, Apply(g, s, e))
    ensures Abs(g, Apply(g, s, e)) == SpecStep(Abs(g, s), LabelOf(g, s, e))
  {
    hide Inv, Apply, Enabled, Abs, ImageStep;
    StepKeeps(g, s, e);
    InvGood(g, s);
    InvGood(g, Apply(g, s, e));
    WritesHome(g, s, e);
    var s', l := Apply(g, s, e), LabelOf(g, s, e);
    AbsKeys(g, s);
    AbsKeys(g, s');
    forall bn: nat | Home(g, bn) ensures SpecStepAt(Abs(g, s), Abs(g, s'), l, bn) {
      ImageStepHolds(g, s, e, bn);
      AbsStepAt(g, s, s', l, bn);
    }
    SpecStepByBlocks(g, Abs(g, s), Abs(g, s'), l);
  }

  /** Every run, with any interleaving and any crashes, is a run of the simple disk. */
  lemma {:induction false} RunRefines(g: Geometry, s: State, es: seq<Event>)
    requires Inv(g, s) && Runs(g, s, es)
    ensures Inv(g, After(g, s, es)) && Good(g, s) && Good(g, After(g, s, es))
    ensures Abs(g, After(g, s, es)) == SpecRun(Abs(g, s), Labels(g, s, es))
    decreases |es|
  {
    if es == [] {
      InvGood(g, s);
    } else {
      var s' := Apply(g, s, es[0]);
      StepRefines(g, s, es[0]);
      RunRefines(g, s', es[1..]);
      var ls := Labels(g, s, es);
      assert ls[0] == LabelOf(g, s, es[0]) && ls[1..] == Labels(g, s', es[1..]);
    }
  }

  /** bread returns the latest write: a valid buffer holds the current image of its block. */
  lemma ReadsLatest(g: Geometry, s: State, p: Pid, slot: nat)
    requires Inv(g, s) && !Recovering(s) && Owns(s, p, slot) && s.bufs[slot].valid && Home(g, s.bufs[slot].blockno)
    ensures Good(g, s) && s.bufs[slot].data == Abs(g, s).cur[s.bufs[slot].blockno]
  {
    InvGood(g, s);
    ViewAt(g, s, s.bufs[slot].blockno, slot);
  }

  /** write_log copies the pinned, modified contents of a block, never what the disk has. */
  lemma LogsLatest(g: Geometry, s: State, to: nat, from: nat)
    requires Inv(g, s) && Enabled(g, s, EvCopyToLog(to, from))
    ensures Good(g, s) && s.bufs[from].dirty
    ensures Apply(g, s, EvCopyToLog(to, from)).disk[g.start + 1 + s.phase.tail] == Abs(g, s).cur[s.lh[s.phase.tail]]
  {
    InvGood(g, s);
    assert Home(g, s.lh[s.phase.tail]);
    ViewAt(g, s, s.lh[s.phase.tail], from);
    assert DirtyCopy(s, s.lh[s.phase.tail]);
    var i :| 0 <= i < |s.bufs| && s.bufs[i].dirty && s.bufs[i].blockno == s.lh[s.phase.tail];
    assert i == from;
  }

  /** When commit() has returned, everything written so far survives a crash. */
  lemma CommitIsDurable(g: Geometry, s: State)
    requires Inv(g, s) && s.phase == Finish
    ensures Good(g, s) && Abs(g, s).cur == Abs(g, s).stable
  {
    InvGood(g, s);
    NothingTouched(g, s);
    forall bn | Home(g, bn) ensures View(g, s, bn) == Recovered(g, s.disk, bn) {
      NothingLoggedView(g, s, bn);
    }
  }

  // ---------------------------------------------------------------- commit and recovery under crashes

  predicate CommittingPhase(s: State) {
    s.phase != Normal && !Recovering(s)
  }

  predicate HasCommit(es: seq<Event>) { exists i :: 0 <= i < |es| && es[i].EvCommitHead? }

  lemma HasCommitCons(es: seq<Event>)
    requires es != []
    ensures HasCommit(es) <==> es[0].EvCommitHead? || HasCommit(es[1..])
  {
    if i :| 1 <= i < |es| && es[i].EvCommitHead? { assert es[1..][i - 1].EvCommitHead?; }
    if i :| 0 <= i < |es[1..]| && es[1..][i].EvCommitHead? { assert es[i + 1].EvCommitHead?; }
  }

  /** The labels of a stretch of commit are silent steps and commit points. */
  lemma {:induction false} CommitLabels(g: Geometry, s: State, es: seq<Event>)
    requires Inv(g, s) && CommittingPhase(s) && Runs(g, s, es)
    requires forall i :: 0 <= i < |es| ==> !es[i].EvCrash? && !es[i].EvFinish?
    ensures var ls := Labels(g, s, es);
      (forall i :: 0 <= i < |ls| ==> ls[i] == Tau || ls[i] == Commit) && (HasCommit(es) <==> Commit in ls)
    decreases |es|
  {
    hide Inv, Apply, Enabled;
    if es != [] {
      assert !es[0].EvCrash? && !es[0].EvFinish?;
      StepKeeps(g, s, es[0]);
      CommittingGoesOn(g, s, es[0]);
      CommitLabels(g, Apply(g, s, es[0]), es[1..]);
      HasCommitCons(es);
    }
  }

  lemma {:induction false} SpecRunOfCommit(sp: Spec, ls: seq<Label>)
    requires forall i :: 0 <= i < |ls| ==> ls[i] == Tau || ls[i] == Commit
    ensures SpecRun(sp, ls) == if Commit in ls then sp.(stable := sp.cur) else sp
    decreases |ls|
  {
    if ls != [] {
      assert ls[0] == Tau || ls[0] == Commit;
      SpecRunOfCommit(SpecStep(sp, ls[0]), ls[1..]);
    }
  }

  /** Inside one commit, whatever else the machine interleaves, the stable image is the one
      before the transaction until the header write and the one after it from then on. */
  lemma CommitAtomic(g: Geometry, s: State, es: seq<Event>)
    requires Inv(g, s) && CommittingPhase(s) && Runs(g, s, es)
    requires forall i :: 0 <= i < |es| ==> !es[i].EvCrash? && !es[i].EvFinish?
    ensures Good(g, s) && Good(g, After(g, s, es))
    ensures Abs(g, After(g, s, es)) == if HasCommit(es) then Abs(g, s).(stable := Abs(g, s).cur) else Abs(g, s)
  {
    RunRefines(g, s, es);
    CommitLabels(g, s, es);
    SpecRunOfCommit(Abs(g, s), Labels(g, s, es));
  }

  lemma CommittingGoesOn(g: Geometry, s: State, e: Event)
    requires Inv(g, s) && CommittingPhase(s) && Enabled(g, s, e) && !e.EvCrash? && !e.EvFinish?
    ensures CommittingPhase(Apply(g, s, e)) && !LabelOf(g, s, e).Write?
  {
    NothingTouched(g, s);
    CommitPhases(g, s, e);
  }

  lemma CommitPhases(g: Geometry, s: State, e: Event)
    requires Sized(g, s) && CommittingPhase(s) && Enabled(g, s, e) && !e.EvCrash? && !e.EvFinish?
    requires s.ops == map[] && s.passed == map[]
    ensures CommittingPhase(Apply(g, s, e)) && !LabelOf(g, s, e).Write?
  {
    hide Sized, Owns;
  }

  /** Between a crash and the end of recovery anything may happen, further crashes included,
      except that no new operation begins. */
  predicate RecoveryEvent(e: Event) { !e.EvBegin? }

  predicate AfterCrash(s: State) {
    Recovering(s) || (s.phase == Normal && s.lh == [] && s.ops == map[] && s.touched == {})
  }

  lemma RecoveryGoesOn(g: Geometry, s: State, e: Event)
    requires Inv(g, s) && AfterCrash(s) && Enabled(g, s, e) && RecoveryEvent(e)
    ensures AfterCrash(Apply(g, s, e)) && !LabelOf(g, s, e).Write? && !LabelOf(g, s, e).Commit?
  {
    if s.phase != Normal {
      NothingTouched(g, s);
    }
  }

  lemma {:induction false} RecoveryKeepsStable(g: Geometry, s: State, rs: seq<Event>)
    requires Inv(g, s) && AfterCrash(s) && Runs(g, s, rs)
    requires forall i :: 0 <= i < |rs| ==> RecoveryEvent(rs[i])
    ensures Inv(g, After(g, s, rs)) && AfterCrash(After(g, s, rs))
    ensures Good(g, s) && Good(g, After(g, s, rs)) && Abs(g, After(g, s, rs)).stable == Abs(g, s).stable
    decreases |rs|
  {
    if rs == [] {
      InvGood(g, s);
    } else {
      assert RecoveryEvent(rs[0]);
      StepRefines(g, s, rs[0]);
      RecoveryGoesOn(g, s, rs[0]);
      RecoveryKeepsStable(g, Apply(g, s, rs[0]), rs[1..]);
    }
  }

  /** The home blocks of a disk. */
  ghost function HomeBlocks(g: Geometry, disk: seq<Block>): map<nat, Block>
    requires |disk| == g.disksize
  {
    map bn: nat | bn < g.disksize && Home(g, bn) :: disk[bn]
  }

  lemma RecoveryDone(g: Geometry, s: State)
    requires Inv(g, s) && AfterCrash(s) && s.phase == Normal
    ensures Good(g, s) && HomeBlocks(g, s.disk) == Abs(g, s).stable
  {
    InvGood(g, s);
    forall bn | bn in HomeBlocks(g, s.disk) ensures s.disk[bn] == Recovered(g, s.disk, bn) {
      NothingLoggedView(g, s, bn);
    }
  }

  /** Crash atomicity: after any run, a crash, and any number of further crashes inside recovery,
      the first recovery that completes leaves in every home block exactly the stable image,
      which changes only at commit points. */
  lemma CrashAtomicity(g: Geometry, s: State, es: seq<Event>, boot: Pid, junk: seq<Block>, rs: seq<Event>)
    requires Inv(g, s) && Runs(g, s, es) && Enabled(g, After(g, s, es), EvCrash(boot, junk))
    requires Sized(g, After(g, s, es))
    requires Runs(g, Apply(g, After(g, s, es), EvCrash(boot, junk)), rs)
    requires forall i :: 0 <= i < |rs| ==> RecoveryEvent(rs[i])
    requires After(g, Apply(g, After(g, s, es), EvCrash(boot, junk)), rs).phase == Normal
    ensures Good(g, s)
    ensures var end := After(g, Apply(g, After(g, s, es), EvCrash(boot, junk)), rs);
      |end.disk| == g.disksize && HomeBlocks(g, end.disk) == SpecRun(Abs(g, s), Labels(g, s, es)).stable
  {
    RunRefines(g, s, es);
    var s1 := After(g, s, es);
    StepRefines(g, s1, EvCrash(boot, junk));
    var s2 := Apply(g, s1, EvCrash(boot, junk));
    RecoveryKeepsStable(g, s2, rs);
    RecoveryDone(g, After(g, s2, rs));
  }

  /** A commit that has run to its end has put the current image in the home blocks. */
  lemma FinishedImages(g: Geometry, s: State)
    requires Inv(g, s) && s.phase == Finish
    ensures Good(g, s) && HomeBlocks(g, s.disk) == Abs(g, s).cur == Abs(g, s).stable
  {
    CommitIsDurable(g, s);
    NothingTouched(g, s);
    forall bn | bn in HomeBlocks(g, s.disk) ensures s.disk[bn] == Recovered(g, s.disk, bn) {
      NothingLoggedView(g, s, bn);
    }
    assert HomeBlocks(g, s.disk) == Abs(g, s).stable;
  }

  // ---------------------------------------------------------------- reservations and panics

  /** end_op never finds a commit in progress, and log_write never runs outside an operation. */
  lemma NoCommitDuringOps(g: Geometry, s: State, es: seq<Event>, p: Pid)
    requires Inv(g, s) && Runs(g, s, es) && p in After(g, s, es).ops
    ensures After(g, s, es).phase == Normal && After(g, s, es).outstanding >= 1
  {
    RunKeeps(g, s, es);
    var ops := After(g, s, es).ops;
    assert p in ops.Keys;
  }

  /** With a log area larger than LOGSIZE, reservations fit the header, so log_write of a block logged already or
      within the caller's budget meets its size panic exactly when it absorbs into a full header: the size is
      tested before the scan.  One that appends never panics. */
  lemma SizePanic(g: Geometry, s: State, es: seq<Event>, p: Pid, bn: nat)
    requires Inv(g, s) && Runs(g, s, es) && g.nlog > LOGSIZE
    requires p in After(g, s, es).ops && (bn in After(g, s, es).lh || After(g, s, es).ops[p] > 0)
    ensures var s' := After(g, s, es);
      && |s'.lh| + Reserved(s'.ops) <= LOGSIZE
      && (TooBig(g, s') <==> |s'.lh| == LOGSIZE && bn in s'.lh)
  {
    RunKeeps(g, s, es);
    ReservedSplit(After(g, s, es).ops, p);
  }
}
