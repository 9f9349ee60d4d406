/** filewrite over the log: a crash at any moment of a write, and recovery, leave a consistent file system in which
    the file has a whole number of the chunks. */
module FileCrash {
  import opened Common
  import opened FsLayout
  import opened FsModel
  import opened FsCode
  import J = Journal
  import JI = JournalInvariant
  import JR = JournalRefinement
  import JA = JournalAtomicity
  import L = LogCode

  /** A block of the file system as the log sees it. */
  function Words(b: Block): (ws: J.Block)
    ensures |ws| == J.WORDS && forall i :: 0 <= i < |ws| ==> ws[i] == Word(b, i)
  {
    seq<nat>(J.WORDS, i requires 0 <= i < J.WORDS => Word(b, i))
  }

  lemma SameDigit(a: nat, b: nat, x: nat, y: nat)
    requires a < 0x100 && b < 0x100 && a + 0x100 * x == b + 0x100 * y
    ensures a == b && x == y
  {}

  lemma SameDigits(a0: nat, a1: nat, a2: nat, a3: nat, b0: nat, b1: nat, b2: nat, b3: nat)
    requires a0 < 0x100 && a1 < 0x100 && a2 < 0x100 && b0 < 0x100 && b1 < 0x100 && b2 < 0x100
    requires a0 + 0x100 * a1 + 0x1_0000 * a2 + 0x100_0000 * a3 == b0 + 0x100 * b1 + 0x1_0000 * b2 + 0x100_0000 * b3
    ensures a0 == b0 && a1 == b1 && a2 == b2 && a3 == b3
  {
    SameDigit(a0, b0, a1 + 0x100 * a2 + 0x1_0000 * a3, b1 + 0x100 * b2 + 0x1_0000 * b3);
    SameDigit(a1, b1, a2 + 0x100 * a3, b2 + 0x100 * b3);
    SameDigit(a2, b2, a3, b3);
  }

  lemma SameByte(a: Byte, b: Byte)
    requires Val(a) == Val(b)
    ensures a == b
  {}

  lemma WordByte(a: Block, b: Block, i: nat, k: nat)
    requires i < NINDIRECT && k < 4 && Word(a, i) == Word(b, i)
    ensures a[4 * i + k] == b[4 * i + k]
  {
    hide Val;
    SameDigits(Val(a[4 * i]), Val(a[4 * i + 1]), Val(a[4 * i + 2]), Val(a[4 * i + 3]),
               Val(b[4 * i]), Val(b[4 * i + 1]), Val(b[4 * i + 2]), Val(b[4 * i + 3]));
    SameByte(a[4 * i + k], b[4 * i + k]);
  }

  lemma WordsInjective(a: Block, b: Block)
    requires Words(a) == Words(b)
    ensures a == b
  {
    forall k | 0 <= k < BSIZE ensures a[k] == b[k] {
      assert Words(a)[k / 4] == Words(b)[k / 4];
      WordByte(a, b, k / 4, k % 4);
    }
  }

  /** The log area lies before the inode blocks, as mkfs puts it. */
  predicate LaidOut(g: J.Geometry, sb: Super) {
    LayoutOk(sb) && J.GeometryOk(g) && g.disksize == sb.size && g.start + g.nlog <= sb.inodestart
  }

  /** The home blocks of a disk. */
  ghost function Image(g: J.Geometry, d: seq<Block>): map<nat, J.Block>
    requires |d| == g.disksize
  {
    map bn: nat | bn < g.disksize && J.Home(g, bn) :: Words(d[bn])
  }

  /** Which files there are is told by the home blocks. */
  lemma HoldsAgain(g: J.Geometry, sb: Super, d: seq<Block>, d': seq<Block>, files: seq<seq<Byte>>)
    requires LaidOut(g, sb) && Holds(sb, d, files) && |d'| == |d| && Image(g, d') == Image(g, d)
    ensures Holds(sb, d', files)
  {
    hide FsInv, FileIs, InodeAt;
    forall x | sb.inodestart <= x < sb.size ensures d'[x] == d[x] {
      assert x in Image(g, d) && Image(g, d')[x] == Image(g, d)[x];
      WordsInjective(d'[x], d[x]);
    }
    InodesSame(sb, d, d');
    FsInvFromMap(sb, d, d', Inodes(sb, d), 0);
    forall i | 0 <= i < |files| ensures FileIs(d', InodeAt(sb, d', i), files[i]) {
      KeptFileIs(d, Inodes(sb, d), d', Inodes(sb, d), i, files[i]);
      assert Inodes(sb, d')[i] == Inodes(sb, d)[i];
    }
    forall i | 0 <= i < |files| ensures InodeAt(sb, d', i).size == |files[i]| {
      assert Inodes(sb, d')[i] == Inodes(sb, d)[i];
    }
  }

  // ---------------------------------------------------------------- runs that write the images

  /** What is seen in state s is one of the images. */
  ghost predicate Sees(g: J.Geometry, s: J.State, images: seq<seq<Block>>)
    requires JR.Good(g, s) && forall k :: 0 <= k < |images| ==> |images[k]| == g.disksize
  {
    exists k :: 0 <= k < |images| && JR.Abs(g, s).cur == Image(g, images[k])
  }

  /** No crash yet; the run starts from one of the images, and whenever the last operation ends, one is seen. */
  ghost predicate Leaves(g: J.Geometry, s: J.State, es: seq<J.Event>, images: seq<seq<Block>>) {
    && JI.Inv(g, s) && J.Runs(g, s, es) && (forall k :: 0 <= k < |images| ==> |images[k]| == g.disksize)
    && (forall c :: 0 <= c < |es| ==> !es[c].EvCrash?)
    && JR.Good(g, s) && Sees(g, s, images)
    && forall c :: 0 <= c < |es| && es[c].EvEnd? ==> SeesAfter(g, s, es, c + 1, images)
  }

  ghost predicate SeesAfter(g: J.Geometry, s: J.State, es: seq<J.Event>, c: nat, images: seq<seq<Block>>)
    requires c <= |es| && forall k :: 0 <= k < |images| ==> |images[k]| == g.disksize
  {
    J.Runs(g, s, es[..c]) && var t := J.After(g, s, es[..c]); t.ops == map[] ==> JR.Good(g, t) && Sees(g, t, images)
  }

  lemma OpsStay(g: J.Geometry, s: J.State, e: J.Event)
    requires J.Sized(g, s) && J.Enabled(g, s, e) && !e.EvEnd? && !e.EvCrash?
    ensures s.ops.Keys <= J.Apply(g, s, e).ops.Keys
  {}

  /** A step that ends no operation, after which none runs, writes nothing. */
  lemma QuietStep(g: J.Geometry, s: J.State, e: J.Event)
    requires JI.Inv(g, s) && J.Enabled(g, s, e) && !e.EvEnd? && !e.EvCrash? && J.Apply(g, s, e).ops == map[]
    ensures s.ops == map[] && JI.Inv(g, J.Apply(g, s, e)) && JR.Good(g, s) && JR.Good(g, J.Apply(g, s, e))
    ensures JR.Abs(g, J.Apply(g, s, e)).cur == JR.Abs(g, s).cur
  {
    hide J.Apply;
    JR.StepRefines(g, s, e);
    OpsStay(g, s, e);
    assert s.ops.Keys == {};
  }

  /** Whenever no operation runs, one of the images is seen. */
  lemma {:induction false} SeenIsImage(g: J.Geometry, s: J.State, es: seq<J.Event>, images: seq<seq<Block>>, c: nat)
    requires Leaves(g, s, es, images) && c <= |es|
    ensures SeesAfter(g, s, es, c, images) && JI.Inv(g, J.After(g, s, es[..c]))
    decreases c
  {
    hide JI.Inv, J.Enabled, J.Apply, Sees, JR.Good;
    if c == 0 {
      assert es[..0] == [];
    } else {
      SeenIsImage(g, s, es, images, c - 1);
      JA.RunsNext(g, s, es, c - 1);
      var t := J.After(g, s, es[..c - 1]);
      JI.StepKeeps(g, t, es[c - 1]);
      if !es[c - 1].EvEnd? && J.After(g, s, es[..c]).ops == map[] {
        QuietStep(g, t, es[c - 1]);
        SameSight(g, t, J.After(g, s, es[..c]), images);
      }
    }
  }

  lemma SameSight(g: J.Geometry, s: J.State, t: J.State, images: seq<seq<Block>>)
    requires JR.Good(g, s) && JR.Good(g, t) && JR.Abs(g, t).cur == JR.Abs(g, s).cur
    requires (forall k :: 0 <= k < |images| ==> |images[k]| == g.disksize) && Sees(g, s, images)
    ensures Sees(g, t, images)
  {}

  /** A run that performs filewrite's transactions is cut by a crash, and recovery completes, with any number of
      further crashes.  The home blocks are then one of filewrite's images, and any disk with these home blocks
      holds the files as they were, file w changed by a whole number of chunks. */
  lemma CrashedWrite(g: J.Geometry, sb: Super, s: J.State, es: seq<J.Event>, boot: J.Pid, junk: seq<J.Block>,
                     rs: seq<J.Event>, images: seq<seq<Block>>, files: seq<seq<Byte>>, w: nat, off: nat,
                     data: seq<Byte>, d: seq<Block>) returns (k: nat)
    requires LaidOut(g, sb) && JA.Settled(g, s) && JA.Recovers(g, s, es, boot, junk, rs)
    requires ChunkImages(sb, images, files, w, off, data) && Leaves(g, s, es, images)
    requires |d| == g.disksize && |JA.End(g, s, es, boot, junk, rs).disk| == g.disksize
    requires Image(g, d) == JR.HomeBlocks(g, JA.End(g, s, es, boot, junk, rs).disk)
    ensures k < |images| && Image(g, d) == Image(g, images[k])
    ensures (ChunkEnd(k, |data|) > 0 ==> off <= |files[w]|) &&
            Holds(sb, d, files[w := Written(files[w], off, data[..ChunkEnd(k, |data|)])])
  {
    hide JI.Inv, J.Runs, JR.Good, JA.Recovers, JA.Settled, Holds, Written, JR.Abs;
    var c := JA.RecoveredMoment(g, s, es, boot, junk, rs);
    SeenIsImage(g, s, es, images, c);
    var i :| 0 <= i < |images| && JR.Abs(g, J.After(g, s, es[..c])).cur == Image(g, images[i]);
    k := i;
    HoldsAgain(g, sb, images[k], d, files[w := Written(files[w], off, data[..ChunkEnd(k, |data|)])]);
  }

  // ---------------------------------------------------------------- runs that perform filewrite's transactions

  /** Transactions ended so far, and writes made in the current one. */
  datatype Progress = Progress(k: nat, i: nat)

  predicate Writes(s: J.State, slot: nat, data: J.Block, w: BlockWrite) {
    slot < |s.bufs| && s.bufs[slot].blockno == w.bn && data == Words(w.data)
  }

  /** Step e keeps to the transactions of process p.  It makes the next write of the current one, or, past the last,
      of one that never ends; it ends a transaction only when every write has been made, or none; and nobody else
      writes.  Every other step of any process is free. */
  ghost predicate Follows(s: J.State, e: J.Event, p: J.Pid, traces: seq<seq<BlockWrite>>, at: Progress) {
    match e
    case EvModify(q, slot, data) =>
      q == p && (at.k < |traces| ==> at.i < |traces[at.k]| && Writes(s, slot, data, traces[at.k][at.i]))
    case EvEnd(q) => q == p ==> at.i == 0 || (at.k < |traces| && at.i == |traces[at.k]|)
    case EvCrash(_, _) => false
    case _ => true
  }

  function Onward(e: J.Event, p: J.Pid, traces: seq<seq<BlockWrite>>, at: Progress): Progress {
    if e.EvModify? then Progress(at.k, at.i + 1)
    else if e == J.EvEnd(p) && at.k < |traces| && at.i == |traces[at.k]| then Progress(at.k + 1, 0)
    else at
  }

  ghost predicate Performs(g: J.Geometry, s: J.State, es: seq<J.Event>, p: J.Pid, traces: seq<seq<BlockWrite>>,
                           at: Progress)
    requires J.Runs(g, s, es)
    decreases |es|
  {
    es == [] ||
    (Follows(s, es[0], p, traces, at) &&
     Performs(g, J.Apply(g, s, es[0]), es[1..], p, traces, Onward(es[0], p, traces, at)))
  }

  /** The disk after the writes made so far. */
  ghost function Made(images: seq<seq<Block>>, traces: seq<seq<BlockWrite>>, at: Progress): seq<Block>
    requires at.k < |images| && (at.k < |traces| ==> at.i <= |traces[at.k]|)
  {
    if at.k < |traces| then Overlaid(images[at.k], traces[at.k][..at.i]) else images[at.k]
  }

  /** The transactions that lead from image to image, on a disk of g. */
  ghost predicate Plan(g: J.Geometry, sb: Super, images: seq<seq<Block>>, traces: seq<seq<BlockWrite>>) {
    LaidOut(g, sb) && Chained(sb, images, traces) && forall k :: 0 <= k < |images| ==> |images[k]| == g.disksize
  }

  /** What is seen while the transactions are performed. */
  ghost predicate Seen(g: J.Geometry, sb: Super, s: J.State, p: J.Pid, images: seq<seq<Block>>,
                       traces: seq<seq<BlockWrite>>, at: Progress) {
    && Plan(g, sb, images, traces) && JI.Inv(g, s) && JR.Good(g, s) && at.k < |images|
    && (at.k < |traces| ==> at.i <= |traces[at.k]|) && (p !in s.ops ==> at.i == 0)
    && (at.k < |traces| || at.i == 0 ==> JR.Abs(g, s).cur == Image(g, Made(images, traces, at)))
  }

  lemma ImageWrite(g: J.Geometry, d: seq<Block>, w: BlockWrite)
    requires |d| == g.disksize && J.Home(g, w.bn)
    ensures Image(g, d[w.bn := w.data]) == Image(g, d)[w.bn := Words(w.data)]
  {}

  /** The next write of a transaction. */
  lemma MadeNext(g: J.Geometry, sb: Super, images: seq<seq<Block>>, traces: seq<seq<BlockWrite>>, at: Progress)
    requires Plan(g, sb, images, traces) && at.k < |traces| && at.i < |traces[at.k]|
    ensures var w := traces[at.k][at.i];
      |Made(images, traces, at)| == g.disksize &&
      Image(g, Made(images, traces, Progress(at.k, at.i + 1))) ==
      Image(g, Made(images, traces, at))[w.bn := Words(w.data)]
  {
    var tr := traces[at.k];
    assert Transaction(sb, images[at.k], tr, images[at.k + 1]);
    assert tr[..at.i + 1] == tr[..at.i] + [tr[at.i]];
    OverlaidNext(images[at.k], tr[..at.i], tr[at.i]);
    ImageWrite(g, Made(images, traces, at), tr[at.i]);
  }

  /** A transaction that is complete, and the start of the next. */
  lemma MadeWhole(g: J.Geometry, sb: Super, images: seq<seq<Block>>, traces: seq<seq<BlockWrite>>, k: nat)
    requires Plan(g, sb, images, traces) && k < |traces|
    ensures Made(images, traces, Progress(k + 1, 0)) == Made(images, traces, Progress(k, |traces[k]|))
  {
    assert Transaction(sb, images[k], traces[k], images[k + 1]);
    assert traces[k][..|traces[k]|] == traces[k];
    if k + 1 < |traces| {
      assert traces[k + 1][..0] == [];
    }
  }

  lemma SeenNext(g: J.Geometry, sb: Super, s: J.State, e: J.Event, p: J.Pid, images: seq<seq<Block>>,
                 traces: seq<seq<BlockWrite>>, at: Progress)
    requires Seen(g, sb, s, p, images, traces, at) && J.Enabled(g, s, e) && Follows(s, e, p, traces, at)
    ensures J.Sized(g, s) && Seen(g, sb, J.Apply(g, s, e), p, images, traces, Onward(e, p, traces, at))
  {
    hide JI.Inv, J.Apply, J.Enabled, Plan, JR.Abs, Made, Image, Words;
    JR.StepRefines(g, s, e);
    JA.OpGoesOn(g, s, e, p);
    assert |images| == |traces| + 1 by { PlanSize(g, sb, images, traces); }
    if e.EvModify? {
      if at.k < |traces| {
        MadeNext(g, sb, images, traces, at);
      }
    } else if e == J.EvEnd(p) && at.k < |traces| && at.i == |traces[at.k]| {
      MadeWhole(g, sb, images, traces, at.k);
    }
  }

  lemma PlanSize(g: J.Geometry, sb: Super, images: seq<seq<Block>>, traces: seq<seq<BlockWrite>>)
    requires Plan(g, sb, images, traces)
    ensures |images| == |traces| + 1
  {}

  /** Whenever no operation runs, one of the images is seen. */
  lemma {:induction false} SeenAt(g: J.Geometry, sb: Super, s: J.State, es: seq<J.Event>, p: J.Pid,
                                  images: seq<seq<Block>>, traces: seq<seq<BlockWrite>>, at: Progress, c: nat)
      returns (then_: Progress)
    requires Seen(g, sb, s, p, images, traces, at) && J.Runs(g, s, es) && Performs(g, s, es, p, traces, at) && c <= |es|
    ensures J.Runs(g, s, es[..c]) && Seen(g, sb, J.After(g, s, es[..c]), p, images, traces, then_)
    decreases c
  {
    hide Seen, Follows, Onward, J.Apply, J.Enabled;
    if c == 0 {
      then_ := at;
      assert es[..0] == [];
    } else {
      SeenNext(g, sb, s, es[0], p, images, traces, at);
      then_ := SeenAt(g, sb, J.Apply(g, s, es[0]), es[1..], p, images, traces, Onward(es[0], p, traces, at), c - 1);
      assert es[..c][0] == es[0] && es[..c][1..] == es[1..][..c - 1];
    }
  }

  lemma SeenSees(g: J.Geometry, sb: Super, s: J.State, p: J.Pid, images: seq<seq<Block>>,
                 traces: seq<seq<BlockWrite>>, at: Progress)
    requires Seen(g, sb, s, p, images, traces, at) && s.ops == map[]
    ensures (forall k :: 0 <= k < |images| ==> |images[k]| == g.disksize) && JR.Good(g, s) && Sees(g, s, images)
  {
    hide JI.Inv, JR.Good, JR.Abs;
    assert Made(images, traces, at) == images[at.k] by {
      if at.k < |traces| {
        assert traces[at.k][..0] == [];
      }
    }
  }

  lemma PlanStarts(g: J.Geometry, sb: Super, s: J.State, p: J.Pid, images: seq<seq<Block>>,
                   traces: seq<seq<BlockWrite>>)
    requires Plan(g, sb, images, traces) && JA.Settled(g, s) && JR.Abs(g, s).cur == Image(g, images[0])
    ensures Seen(g, sb, s, p, images, traces, Progress(0, 0))
  {
    hide JI.Inv, JR.Good, JR.Abs, Image;
    if |traces| > 0 {
      assert traces[0][..0] == [];
    }
  }

  /** A run that performs the transactions, from a settled state that shows the first image, leaves the images. */
  lemma PerformsLeaves(g: J.Geometry, sb: Super, s: J.State, es: seq<J.Event>, p: J.Pid, images: seq<seq<Block>>,
                       traces: seq<seq<BlockWrite>>)
    requires Plan(g, sb, images, traces) && JA.Settled(g, s) && JR.Abs(g, s).cur == Image(g, images[0])
    requires J.Runs(g, s, es) && Performs(g, s, es, p, traces, Progress(0, 0))
    ensures Leaves(g, s, es, images)
  {
    hide JI.Inv, JR.Good, JR.Abs, J.Runs, Image, Seen, Sees, Performs;
    PlanStarts(g, sb, s, p, images, traces);
    SeenSees(g, sb, s, p, images, traces, Progress(0, 0));
    forall c | 0 <= c < |es| ensures !es[c].EvCrash? && SeesAfter(g, s, es, c + 1, images) {
      NoCrashIn(g, s, es, p, traces, Progress(0, 0), c);
      var at := SeenAt(g, sb, s, es, p, images, traces, Progress(0, 0), c + 1);
      if J.After(g, s, es[..c + 1]).ops == map[] {
        SeenSees(g, sb, J.After(g, s, es[..c + 1]), p, images, traces, at);
      }
    }
  }

  lemma {:induction false} NoCrashIn(g: J.Geometry, s: J.State, es: seq<J.Event>, p: J.Pid,
                                     traces: seq<seq<BlockWrite>>, at: Progress, c: nat)
    requires J.Runs(g, s, es) && Performs(g, s, es, p, traces, at) && c < |es|
    ensures !es[c].EvCrash?
    decreases c
  {
    hide Onward, J.Apply, J.Enabled;
    if c > 0 {
      NoCrashIn(g, J.Apply(g, s, es[0]), es[1..], p, traces, Onward(es[0], p, traces, at), c - 1);
    }
  }

  /** A run from a settled disk that performs the transactions and is cut by a crash; recovery completes, with any
      number of further crashes, and leaves the home blocks of d. */
  ghost predicate Cut(g: J.Geometry, s: J.State, es: seq<J.Event>, p: J.Pid, boot: J.Pid, junk: seq<J.Block>,
                      rs: seq<J.Event>, images: seq<seq<Block>>, traces: seq<seq<BlockWrite>>, d: seq<Block>) {
    && JA.Settled(g, s) && JA.Recovers(g, s, es, boot, junk, rs) && Performs(g, s, es, p, traces, Progress(0, 0))
    && |images| > 0 && |images[0]| == g.disksize && JR.Abs(g, s).cur == Image(g, images[0])
    && |d| == g.disksize && |JA.End(g, s, es, boot, junk, rs).disk| == g.disksize
    && Image(g, d) == JR.HomeBlocks(g, JA.End(g, s, es, boot, junk, rs).disk)
  }

  /** The files are as they were, file w changed by the first m bytes of data. */
  ghost predicate FirstBytes(sb: Super, d: seq<Block>, files: seq<seq<Byte>>, w: nat, off: nat, data: seq<Byte>,
                             m: nat) {
    && w < |files| && m <= |data| && (m > 0 ==> off <= |files[w]|)
    && Holds(sb, d, files[w := Written(files[w], off, data[..m])])
  }

  /** The files are as they were, file w changed by a whole number of pieces of 1536 bytes, or by all of data. */
  ghost predicate Survives(sb: Super, d: seq<Block>, files: seq<seq<Byte>>, w: nat, off: nat, data: seq<Byte>) {
    && (exists m: nat :: (m % 1536 == 0 || m == |data|) && FirstBytes(sb, d, files, w, off, data, m))
    && (|data| <= 1536 ==>
         FirstBytes(sb, d, files, w, off, data, 0) || FirstBytes(sb, d, files, w, off, data, |data|))
  }

  lemma ChunksSurvive(sb: Super, d: seq<Block>, files: seq<seq<Byte>>, w: nat, off: nat, data: seq<Byte>, k: nat)
    requires w < |files| && (ChunkEnd(k, |data|) > 0 ==> off <= |files[w]|)
    requires Holds(sb, d, files[w := Written(files[w], off, data[..ChunkEnd(k, |data|)])])
    ensures Survives(sb, d, files, w, off, data)
  {
    hide Holds, Written;
    assert FirstBytes(sb, d, files, w, off, data, ChunkEnd(k, |data|));
  }

  lemma CutWrite(g: J.Geometry, sb: Super, s: J.State, es: seq<J.Event>, p: J.Pid, boot: J.Pid, junk: seq<J.Block>,
                 rs: seq<J.Event>, images: seq<seq<Block>>, traces: seq<seq<BlockWrite>>, files: seq<seq<Byte>>,
                 w: nat, off: nat, data: seq<Byte>, d: seq<Block>)
    requires LaidOut(g, sb) && ChunkImages(sb, images, files, w, off, data) && Chained(sb, images, traces)
    requires Cut(g, s, es, p, boot, junk, rs, images, traces, d)
    ensures Survives(sb, d, files, w, off, data)
  {
    ImageSizes(sb, images, files, w, off, data);
    hide JI.Inv, J.Runs, JR.Good, JR.Abs, JA.Settled, ChunkImages, Performs, Image, Holds, Written, Chained, Survives,
      ChunkEnd;
    PerformsLeaves(g, sb, s, es, p, images, traces);
    var k := CrashedWrite(g, sb, s, es, boot, junk, rs, images, files, w, off, data, d);
    ChunksSurvive(sb, d, files, w, off, data, k);
  }

  lemma ImageSizes(sb: Super, images: seq<seq<Block>>, files: seq<seq<Byte>>, w: nat, off: nat, data: seq<Byte>)
    requires ChunkImages(sb, images, files, w, off, data)
    ensures w < |files| && forall k :: 0 <= k < |images| ==> |images[k]| == sb.size
  {
    hide Written, FsInv;
  }

  /** filewrite, and every run that performs its transactions over the log: wherever a crash cuts the run, recovery
      leaves the files as they were, the file changed by a whole number of the chunks; a write of at most 1536 bytes
      is there or not. */
  method FilewriteOverLog(fs: FileSystem, f: File, addr: seq<Byte>, n: int)
      returns (r: FileWriteResult, ghost traces: seq<seq<BlockWrite>>, ghost images: seq<seq<Block>>)
    requires fs.Valid() && f.inum < |fs.mem| && fs.mem[f.inum].typ != T_DEV && f.off < UINT
    requires n < UINT && |addr| == if n < 0 then 0 else n
    modifies fs`disk, fs`mem, fs`logged, fs`trace, fs`base, f`off, f`numWriteBytes
    ensures images != [] && images[0] == old(fs.disk) && Chained(fs.sb, images, traces)
    ensures |traces| == (f.off - old(f.off) + 1535) / 1536
    ensures forall g, s, es, p, boot, junk, rs, d |
      LaidOut(g, fs.sb) && Cut(g, s, es, p, boot, junk, rs, images, traces, d) ::
      Survives(fs.sb, d, old(fs.Files()), f.inum, old(f.off), addr)
  {
    hide FileSystem.Valid, ChunkImages, Chained, Cut, Survives, LaidOut, Written, Contents;
    ghost var files, off := fs.Files(), f.off;
    r, traces, images := Filewrite(fs, f, addr, n);
    ImagesCount(fs.sb, images, files, f.inum, off, addr);
    forall g, s, es, p, boot, junk, rs, d |
      LaidOut(g, fs.sb) && Cut(g, s, es, p, boot, junk, rs, images, traces, d)
      ensures Survives(fs.sb, d, files, f.inum, off, addr)
    {
      CutWrite(g, fs.sb, s, es, p, boot, junk, rs, images, traces, files, f.inum, off, addr, d);
    }
  }

  // ---------------------------------------------------------------- the transactions on the kernel

  function Changes(tr: seq<BlockWrite>): (ws: seq<L.Change>)
    ensures |ws| == |tr| && forall i :: 0 <= i < |ws| ==> ws[i] == L.Change(tr[i].bn, Words(tr[i].data))
  {
    seq(|tr|, i requires 0 <= i < |tr| => L.Change(tr[i].bn, Words(tr[i].data)))
  }

  lemma ChangesFit(g: J.Geometry, sb: Super, d: seq<Block>, tr: seq<BlockWrite>, d': seq<Block>)
    requires LaidOut(g, sb) && Transaction(sb, d, tr, d')
    ensures L.FitsOp(g, Changes(tr))
  {
    assert L.BlocksOf(Changes(tr)) == BlocksIn(tr) by {
      forall x | x in BlocksIn(tr) ensures x in L.BlocksOf(Changes(tr)) {
        var i :| 0 <= i < |tr| && tr[i].bn == x;
        assert Changes(tr)[i].bn == x;
      }
    }
  }

  lemma {:induction false} StoredImage(g: J.Geometry, d: seq<Block>, tr: seq<BlockWrite>)
    requires |d| == g.disksize && forall i :: 0 <= i < |tr| ==> J.Home(g, tr[i].bn)
    ensures L.Stored(Image(g, d), Changes(tr)) == Image(g, Overlaid(d, tr))
    decreases |tr|
  {
    if tr != [] {
      var n := |tr| - 1;
      StoredImage(g, d, tr[..n]);
      assert Changes(tr)[..n] == Changes(tr[..n]);
      ImageWrite(g, Overlaid(d, tr[..n]), tr[n]);
    }
  }

  /** A transaction fits an empty log and cache. */
  lemma ChangesRoom(g: J.Geometry, nbuf: nat, ws: seq<L.Change>)
    requires L.FitsOp(g, ws) && J.MAXOPBLOCKS < g.nlog - 1 && J.MAXOPBLOCKS < nbuf
    ensures L.Room(g, 0, nbuf, ws)
  {
    if ws != [] {
      var n := |ws| - 1;
      L.BlocksNext(ws, n);
      SubsetSize(L.BlocksOf(ws[..n]), L.BlocksOf(ws[..n + 1]));
    }
  }

  /** The log is empty, and the home blocks are those of disk d. */
  ghost predicate Shows(kernel: L.Kernel, p: J.Pid, d: seq<Block>)
    reads kernel
  {
    && kernel.Valid() && p !in kernel.passed && kernel.ops == map[] && kernel.phase == J.Normal
    && kernel.outstanding == 0 && kernel.lh == [] && |d| == kernel.g.disksize
    && JR.HomeBlocks(kernel.g, kernel.disk) == kernel.spec.stable == kernel.spec.cur == Image(kernel.g, d)
  }

  /** Log and cache can hold what one operation may write. */
  predicate LargeEnough(kernel: L.Kernel) { J.MAXOPBLOCKS < kernel.g.nlog - 1 && J.MAXOPBLOCKS < kernel.nbuf }

  method CarryOne(kernel: L.Kernel, p: J.Pid, sb: Super, tr: seq<BlockWrite>, ghost d: seq<Block>, ghost d': seq<Block>)
      returns (ok: bool)
    requires LaidOut(kernel.g, sb) && Shows(kernel, p, d) && Transaction(sb, d, tr, d')
    modifies kernel
    ensures kernel.Valid() && old(kernel.hist) <= kernel.hist && (ok ==> Shows(kernel, p, d'))
    ensures old(kernel.OnlyHeld(p, {})) && LargeEnough(kernel) ==> ok && kernel.OnlyHeld(p, {})
  {
    hide L.Kernel.OnlyHeld, L.Room, Image, JR.HomeBlocks, L.Stored, L.FitsOp;
    ChangesFit(kernel.g, sb, d, tr, d');
    StoredImage(kernel.g, d, tr);
    if LargeEnough(kernel) { ChangesRoom(kernel.g, kernel.nbuf, Changes(tr)); }
    ok := kernel.Transact(p, Changes(tr));
  }

  /** The transactions of a filewrite, carried out by a process that is alone in the log: they leave on disk the
      home blocks of the last image.  With no references to the buffers at the start, nothing stops them. */
  method CarryOut(kernel: L.Kernel, p: J.Pid, sb: Super, traces: seq<seq<BlockWrite>>, ghost images: seq<seq<Block>>)
      returns (ok: bool)
    requires LaidOut(kernel.g, sb) && Chained(sb, images, traces) && Shows(kernel, p, images[0])
    modifies kernel
    ensures kernel.Valid() && old(kernel.hist) <= kernel.hist && (ok ==> Shows(kernel, p, images[|traces|]))
    ensures old(kernel.OnlyHeld(p, {})) && LargeEnough(kernel) ==> ok
  {
    hide L.Kernel.OnlyHeld, L.Kernel.Valid, Image, JR.HomeBlocks, LaidOut, Transaction, LargeEnough;
    ok := true;
    var k := 0;
    while k < |traces|
      invariant k <= |traces| && ok && Shows(kernel, p, images[k]) && kernel.Valid() && old(kernel.hist) <= kernel.hist
      invariant old(kernel.OnlyHeld(p, {})) && LargeEnough(kernel) ==> kernel.OnlyHeld(p, {})
    {
      ok := CarryOne(kernel, p, sb, traces[k], images[k], images[k + 1]);
      if !ok {
        return;
      }
      k := k + 1;
    }
  }
}
