/** tmsort.c: merge_sort_aux with threads, one array write or one call at a time, in any interleaving.
    Two arrays are shared; `flip` tells which of them a call has as nums and which as target. */
module SortThreads {
  import opened Common
  import opened Merging

  datatype Mem = Mem(a: seq<int>, b: seq<int>)

  /** A call of merge_sort_aux on lo..hi, with the calls it has started. */
  datatype Task =
    | Start(lo: nat, hi: nat, flip: bool, tc: int)
    | First(lo: nat, hi: nat, flip: bool, sub: Task)                  // thread_count <= 1: first half
    | Second(lo: nat, hi: nat, flip: bool, sub: Task)                 // thread_count <= 1: second half
    | Both(lo: nat, hi: nat, flip: bool, thread: Task, self: Task)    // first half in a new thread
    | Merge(lo: nat, hi: nat, flip: bool, left: nat, right: nat)
    | Done(lo: nat, hi: nat, flip: bool)

  function Nums(m: Mem, flip: bool): seq<int> { if flip then m.b else m.a }

  function Target(m: Mem, flip: bool): seq<int> { if flip then m.a else m.b }

  function Mid(lo: nat, hi: nat): nat { (lo + hi) / 2 }

  function Write(m: Mem, flip: bool, i: nat, x: int): Mem
    requires i < |Target(m, flip)|
  {
    if flip then m.(a := m.a[i := x]) else m.(b := m.b[i := x])
  }

  /** The new call, the arrays, and whether a thread was created. */
  datatype Outcome = Outcome(task: Task, mem: Mem, spawned: nat)

  /** A step of a call seen from the call that started it. */
  function Inside(r: Option<Outcome>, t: Task, which: bool): Option<Outcome>
    requires t.First? || t.Second? || t.Both?
  {
    if r.None? then None else
    Some(Outcome(if t.First? then t.(sub := r.value.task) else if t.Second? then t.(sub := r.value.task)
                 else if which then t.(thread := r.value.task)
                   else t.(self := r.value.task), r.value.mem, r.value.spawned))
  }

  /** One step of the thread that `path` names: at each Both, true is the new thread.  None if it has to wait or is
      finished. */
  function Step(t: Task, m: Mem, path: seq<bool>): Option<Outcome>
    decreases t
  {
    match t
    case Start(lo, hi, flip, tc) =>
      if hi <= lo + 1 then Some(Outcome(Done(lo, hi, flip), m, 0))
      else if tc <= 1 then Some(Outcome(First(lo, hi, flip, Start(lo, Mid(lo, hi), !flip, 1)), m, 0))
      else Some(Outcome(Both(lo, hi, flip, Start(lo, Mid(lo, hi), !flip, tc / 2),
        Start(Mid(lo, hi), hi, !flip, (tc + 1) / 2)), m, 1))
    case First(lo, hi, flip, sub) =>
      if sub.Done? then Some(Outcome(Second(lo, hi, flip, Start(Mid(lo, hi), hi, !flip, 1)), m, 0))
      else Inside(Step(sub, m, path), t, false)
    case Second(lo, hi, flip, sub) =>
      if sub.Done? then Some(Outcome(Merge(lo, hi, flip, lo, Mid(lo, hi)), m, 0))
      else Inside(Step(sub, m, path), t, false)
    case Both(lo, hi, flip, thread, self) =>
      if thread.Done? && self.Done? then Some(Outcome(Merge(lo, hi, flip, lo, Mid(lo, hi)), m, 0))
      else if path == [] then None
      else if path[0] then Inside(Step(thread, m, path[1..]), t, true)
      else Inside(Step(self, m, path[1..]), t, false)
    case Merge(lo, hi, flip, left, right) => Some(MergeOne(t, m))
    case Done(_, _, _) => None
  }

  /** One element of merge, from the smaller head or from the slice that is left. */
  function MergeOne(t: Task, m: Mem): Outcome
    requires t.Merge?
  {
    var mid := Mid(t.lo, t.hi);
    var n, i := Nums(m, t.flip), t.left + t.right - mid;
    if t.left < mid && t.left < |n| && 0 <= i < |Target(m, t.flip)| &&
      (t.right >= t.hi || t.right >= |n| || n[t.left] <= n[t.right]) then
      Outcome(t.(left := t.left + 1), Write(m, t.flip, i, n[t.left]), 0)
    else if t.right < t.hi && t.right < |n| && 0 <= i < |Target(m, t.flip)| then
      Outcome(t.(right := t.right + 1), Write(m, t.flip, i, n[t.right]), 0)
    else Outcome(Done(t.lo, t.hi, t.flip), m, 0)
  }

  // ---------------------------------------------------------------- what a call has achieved so far

  predicate Sub(t: Task, lo: nat, hi: nat, flip: bool) { t.lo == lo && t.hi == hi && t.flip == flip }

  /** The arrays on lo..hi are as the call's progress says, for input `s`. */
  predicate Ok(t: Task, m: Mem, s: seq<int>)
    decreases t
  {
    && |m.a| == |m.b| == |s| && t.lo <= t.hi <= |s|
    && match t
       case Start(lo, hi, flip, _) => m.a[lo..hi] == s[lo..hi] && m.b[lo..hi] == s[lo..hi]
       case First(lo, hi, flip, sub) =>
         && lo + 1 < hi && Sub(sub, lo, Mid(lo, hi), !flip) && Ok(sub, m, s)
         && m.a[Mid(lo, hi)..hi] == s[Mid(lo, hi)..hi] && m.b[Mid(lo, hi)..hi] == s[Mid(lo, hi)..hi]
       case Second(lo, hi, flip, sub) =>
         && lo + 1 < hi && Sub(sub, Mid(lo, hi), hi, !flip) && Ok(sub, m, s)
         && Nums(m, flip)[lo..Mid(lo, hi)] == Sort(s[lo..Mid(lo, hi)])
       case Both(lo, hi, flip, thread, self) =>
         && lo + 1 < hi && Sub(thread, lo, Mid(lo, hi), !flip) && Sub(self, Mid(lo, hi), hi, !flip) &&
           Ok(thread, m, s) && Ok(self, m, s)
       case Merge(lo, hi, flip, left, right) => MergeOk(m, s, lo, hi, flip, left, right)
       case Done(lo, hi, flip) => Target(m, flip)[lo..hi] == Sort(s[lo..hi])
  }

  predicate MergeOk(m: Mem, s: seq<int>, lo: nat, hi: nat, flip: bool, left: nat, right: nat) {
    var mid := Mid(lo, hi);
    && |m.a| == |m.b| == |s| && lo + 1 < hi <= |s| && lo <= left <= mid <= right <= hi
    && Nums(m, flip)[lo..mid] == Sort(s[lo..mid]) && Nums(m, flip)[mid..hi] == Sort(s[mid..hi])
    && Merged(Nums(m, flip), Target(m, flip), Sort(s[lo..hi]), lo, mid, hi, left, right)
  }

  /** Only the slice lo..hi of either array has changed. */
  predicate Local(m: Mem, m': Mem, lo: nat, hi: nat) {
    Outside(m.a, m'.a, lo, hi) && Outside(m.b, m'.b, lo, hi)
  }

  lemma SliceSame(m: Mem, m': Mem, lo: nat, hi: nat, x: nat, y: nat)
    requires Local(m, m', lo, hi) && x <= y <= |m.a| && |m.a| == |m.b| && (y <= lo || hi <= x)
    ensures |m'.a| == |m.a| && |m'.b| == |m.b| && m'.a[x..y] == m.a[x..y] && m'.b[x..y] == m.b[x..y]
  {}

  /** What a call has achieved depends on its own slice only. */
  lemma {:induction false} OkFrame(t: Task, m: Mem, m': Mem, s: seq<int>, lo: nat, hi: nat)
    requires Ok(t, m, s) && Local(m, m', lo, hi) && (t.hi <= lo || hi <= t.lo)
    ensures Ok(t, m', s)
    decreases t
  {
    hide Local, Sort, MergeOk;
    SliceSame(m, m', lo, hi, t.lo, t.hi);
    var mid := Mid(t.lo, t.hi);
    match t
    case First(_, _, _, sub) =>
      SliceSame(m, m', lo, hi, mid, t.hi);
      OkFrame(sub, m, m', s, lo, hi);
    case Second(_, _, _, sub) =>
      SliceSame(m, m', lo, hi, t.lo, mid);
      OkFrame(sub, m, m', s, lo, hi);
    case Both(_, _, _, thread, self) =>
      OkFrame(thread, m, m', s, lo, hi);
      OkFrame(self, m, m', s, lo, hi);
    case Merge(_, _, flip, left, right) => MergeFrame(m, m', s, t.lo, t.hi, flip, left, right, lo, hi);
    case _ =>
  }

  lemma MergeFrame(m: Mem, m': Mem, s: seq<int>, x: nat, y: nat, flip: bool, left: nat, right: nat, lo: nat, hi: nat)
    requires MergeOk(m, s, x, y, flip, left, right) && Local(m, m', lo, hi) && (y <= lo || hi <= x)
    ensures MergeOk(m', s, x, y, flip, left, right)
  {
    hide Local, Sort, Merged;
    var mid: nat := Mid(x, y);
    SliceSame(m, m', lo, hi, x, mid);
    SliceSame(m, m', lo, hi, mid, y);
    SliceSame(m, m', lo, hi, left, mid);
    SliceSame(m, m', lo, hi, right, y);
    SliceSame(m, m', lo, hi, x, left + right - mid);
    MergedSame(Nums(m, flip), Target(m, flip), Nums(m', flip), Target(m', flip), Sort(s[x..y]), x, mid, y, left, right);
  }

  lemma MergedSame(n: seq<int>, g: seq<int>, n': seq<int>, g': seq<int>, r: seq<int>, lo: nat, mid: nat, hi: nat,
                   left: nat, right: nat)
    requires Merged(n, g, r, lo, mid, hi, left, right) && |n'| == |n| && |g'| == |g|
    requires n'[left..mid] == n[left..mid] && n'[right..hi] == n[right..hi]
    requires g'[lo..left + right - mid] == g[lo..left + right - mid]
    ensures Merged(n', g', r, lo, mid, hi, left, right)
  {
    hide Merging.Merge;
  }

  // ---------------------------------------------------------------- one step

  lemma LocalInside(m: Mem, m': Mem, lo: nat, hi: nat, lo': nat, hi': nat)
    requires Local(m, m', lo, hi) && lo' <= lo && hi <= hi'
    ensures Local(m, m', lo', hi')
  {}

  lemma MergeStarts(m: Mem, s: seq<int>, lo: nat, hi: nat, flip: bool)
    requires |m.a| == |m.b| == |s| && lo + 1 < hi <= |s|
    requires Nums(m, flip)[lo..Mid(lo, hi)] == Sort(s[lo..Mid(lo, hi)])
    requires Nums(m, flip)[Mid(lo, hi)..hi] == Sort(s[Mid(lo, hi)..hi])
    ensures MergeOk(m, s, lo, hi, flip, lo, Mid(lo, hi))
  {
    hide Sort, Merged;
    SortSlice(s, lo, Mid(lo, hi), hi);
    MergedStarts(Nums(m, flip), Target(m, flip), lo, Mid(lo, hi), hi);
  }

  lemma NumsLength(m: Mem, flip: bool)
    requires |m.a| == |m.b|
    ensures |Nums(m, flip)| == |Target(m, flip)| == |m.a|
  {}

  /** One element written to the target, inside the slice. */
  lemma WroteOne(m: Mem, flip: bool, i: nat, x: int, lo: nat, hi: nat)
    requires |m.a| == |m.b| && lo <= i < hi <= |m.a| && |Target(m, flip)| == |m.a|
    ensures var m' := Write(m, flip, i, x);
      && Nums(m', flip) == Nums(m, flip) && Target(m', flip) == Target(m, flip)[i := x]
      && |m'.a| == |m.a| && |m'.b| == |m.b| && Local(m, m', lo, hi)
  {}

  lemma MergeOneKeeps(t: Task, m: Mem, s: seq<int>)
    requires t.Merge? && Ok(t, m, s)
    ensures var o := MergeOne(t, m);
      Ok(o.task, o.mem, s) && Local(m, o.mem, t.lo, t.hi) && Sub(o.task, t.lo, t.hi, t.flip)
  {
    hide Sort, Merged, Local, Write, Nums, Target;
    var mid := Mid(t.lo, t.hi);
    LocalSelf(m, t.lo, t.hi);
    NumsLength(m, t.flip);
    var n, g, i, r := Nums(m, t.flip), Target(m, t.flip), t.left + t.right - mid, Sort(s[t.lo..t.hi]);
    if TakesLeft(n, mid, t.hi, t.left, t.right) {
      MergedLeft(n, g, r, t.lo, mid, t.hi, t.left, t.right);
      WroteOne(m, t.flip, i, n[t.left], t.lo, t.hi);
    } else if t.right < t.hi {
      MergedRight(n, g, r, t.lo, mid, t.hi, t.left, t.right);
      WroteOne(m, t.flip, i, n[t.right], t.lo, t.hi);
    } else {
      MergedEnds(n, g, r, t.lo, mid, t.hi);
    }
  }

  /** The call stays right and only its slice is written. */
  predicate Keeps(t: Task, m: Mem, s: seq<int>, path: seq<bool>)
    requires Step(t, m, path).Some?
  {
    var o := Step(t, m, path).value;
    Ok(o.task, o.mem, s) && Local(m, o.mem, t.lo, t.hi) && Sub(o.task, t.lo, t.hi, t.flip)
  }

  /** Whichever thread moves, the call as a whole stays right, and only its slice is written. */
  lemma {:induction false} StepKeeps(t: Task, m: Mem, s: seq<int>, path: seq<bool>)
    requires Ok(t, m, s) && Step(t, m, path).Some?
    ensures var o := Step(t, m, path).value;
      Ok(o.task, o.mem, s) && Local(m, o.mem, t.lo, t.hi) && Sub(o.task, t.lo, t.hi, t.flip)
    decreases t, 1
  {
    hide Ok, Local, MergeOne;
    LocalSelf(m, t.lo, t.hi);
    match t
    case Start(_, _, _, _) => StartKeeps(t, m, s);
    case First(_, _, _, _) => FirstKeeps(t, m, s, path);
    case Second(_, _, _, _) => SecondKeeps(t, m, s, path);
    case Both(_, _, _, _, _) => BothKeeps(t, m, s, path);
    case Merge(_, _, _, _, _) => MergeOneKeeps(t, m, s);
    case Done(_, _, _) =>
  }

  lemma {:induction false} FirstKeeps(t: Task, m: Mem, s: seq<int>, path: seq<bool>)
    requires t.First? && Ok(t, m, s) && Step(t, m, path).Some?
    ensures Keeps(t, m, s, path)
    decreases t, 0
  {
    hide Local, Sort, MergeOk, MergeOne;
    var mid := Mid(t.lo, t.hi);
    LocalSelf(m, t.lo, t.hi);
    if t.sub.Done? {
      assert Ok(Step(t, m, path).value.task.sub, m, s);
    } else {
      StepKeeps(t.sub, m, s, path);
      var o := Step(t.sub, m, path).value;
      SliceSame(m, o.mem, t.lo, mid, mid, t.hi);
      LocalInside(m, o.mem, t.lo, mid, t.lo, t.hi);
    }
  }

  lemma {:induction false} SecondKeeps(t: Task, m: Mem, s: seq<int>, path: seq<bool>)
    requires t.Second? && Ok(t, m, s) && Step(t, m, path).Some?
    ensures Keeps(t, m, s, path)
    decreases t, 0
  {
    hide Local, Sort, MergeOk, MergeOne;
    var mid := Mid(t.lo, t.hi);
    LocalSelf(m, t.lo, t.hi);
    if t.sub.Done? {
      MergeStarts(m, s, t.lo, t.hi, t.flip);
    } else {
      StepKeeps(t.sub, m, s, path);
      var o := Step(t.sub, m, path).value;
      SliceSame(m, o.mem, mid, t.hi, t.lo, mid);
      LocalInside(m, o.mem, mid, t.hi, t.lo, t.hi);
    }
  }

  lemma {:induction false} BothKeeps(t: Task, m: Mem, s: seq<int>, path: seq<bool>)
    requires t.Both? && Ok(t, m, s) && Step(t, m, path).Some?
    ensures Keeps(t, m, s, path)
    decreases t, 0
  {
    hide Local, Sort, MergeOk, MergeOne;
    var mid := Mid(t.lo, t.hi);
    LocalSelf(m, t.lo, t.hi);
    if t.thread.Done? && t.self.Done? {
      MergeStarts(m, s, t.lo, t.hi, t.flip);
    } else if path[0] {
      StepKeeps(t.thread, m, s, path[1..]);
      var o := Step(t.thread, m, path[1..]).value;
      OkFrame(t.self, m, o.mem, s, t.lo, mid);
      LocalInside(m, o.mem, t.lo, mid, t.lo, t.hi);
    } else {
      StepKeeps(t.self, m, s, path[1..]);
      var o := Step(t.self, m, path[1..]).value;
      OkFrame(t.thread, m, o.mem, s, mid, t.hi);
      LocalInside(m, o.mem, mid, t.hi, t.lo, t.hi);
    }
  }

  lemma LocalSelf(m: Mem, lo: nat, hi: nat)
    ensures Local(m, m, lo, hi)
  {}

  lemma StartKeeps(t: Task, m: Mem, s: seq<int>)
    requires t.Start? && Ok(t, m, s)
    ensures var o := Step(t, m, []).value;
      Step(t, m, []).Some? && Ok(o.task, o.mem, s) && o.mem == m && Sub(o.task, t.lo, t.hi, t.flip)
  {
    var mid := Mid(t.lo, t.hi);
    if t.lo + 1 < t.hi {
      hide Sort;
      Halves(s, t.lo, mid, t.hi);
      Halves(m.a, t.lo, mid, t.hi);
      Halves(m.b, t.lo, mid, t.hi);
    }
  }

  // ---------------------------------------------------------------- runs end

  /** Steps a call on n elements can take. */
  function Rank(n: nat): nat { if n <= 1 then 1 else Rank(n / 2) + Rank(n - n / 2) + n + 4 }

  /** Steps a call can still take. */
  function Work(t: Task): int {
    match t
    case Start(lo, hi, _, _) => if lo <= hi then Rank(hi - lo) else 0
    case First(lo, hi, _, sub) => Work(sub) + (if Mid(lo, hi) <= hi then Rank(hi - Mid(lo, hi)) else 0) + (hi - lo) + 3
    case Second(lo, hi, _, sub) => Work(sub) + (hi - lo) + 2
    case Both(lo, hi, _, thread, self) => Work(thread) + Work(self) + (hi - lo) + 2
    case Merge(lo, hi, _, left, right) => 1 + (Mid(lo, hi) - left) + (hi - right)
    case Done(_, _, _) => 0
  }

  lemma {:induction false} WorkPositive(t: Task, m: Mem, s: seq<int>)
    requires Ok(t, m, s)
    ensures Work(t) >= 0
    decreases t
  {
    match t
    case First(_, _, _, sub) => WorkPositive(sub, m, s);
    case Second(_, _, _, sub) => WorkPositive(sub, m, s);
    case Both(_, _, _, thread, self) => WorkPositive(thread, m, s); WorkPositive(self, m, s);
    case _ =>
  }

  lemma StartWork(t: Task, m: Mem, s: seq<int>)
    requires Ok(t, m, s) && t.Start?
    ensures Step(t, m, []).Some? && Work(Step(t, m, []).value.task) < Work(t)
  {
    if t.lo + 1 < t.hi {
      assert Mid(t.lo, t.hi) - t.lo == (t.hi - t.lo) / 2;
    }
  }

  lemma {:induction false} StepWorks(t: Task, m: Mem, s: seq<int>, path: seq<bool>)
    requires Ok(t, m, s) && Step(t, m, path).Some?
    ensures Work(Step(t, m, path).value.task) < Work(t)
    decreases t
  {
    hide Sort, MergeOk, MergeOne, Rank, Mid;
    match t
    case Start(_, _, _, _) => StartWork(t, m, s);
    case First(_, _, _, sub) => if !sub.Done? { StepWorks(sub, m, s, path); }
    case Second(_, _, _, sub) => if !sub.Done? { StepWorks(sub, m, s, path); }
    case Both(_, _, _, thread, self) =>
      if !(thread.Done? && self.Done?) {
        if path[0] { StepWorks(thread, m, s, path[1..]); } else { StepWorks(self, m, s, path[1..]); }
      }
    case Merge(_, _, _, _, _) => MergeOneWorks(t, m, s);
    case Done(_, _, _) =>
  }

  lemma MergeOneWorks(t: Task, m: Mem, s: seq<int>)
    requires t.Merge? && Ok(t, m, s)
    ensures Work(MergeOne(t, m).task) < Work(t)
  {
    hide Sort, Merged;
  }

  /** A thread that can move, as long as the sort is not done. */
  function Mover(t: Task): seq<bool> {
    match t
    case First(_, _, _, sub) => Mover(sub)
    case Second(_, _, _, sub) => Mover(sub)
    case Both(_, _, _, thread, self) => if thread.Done? then [false] + Mover(self) else [true] + Mover(thread)
    case _ => []
  }

  lemma {:induction false} NotStuck(t: Task, m: Mem)
    requires !t.Done?
    ensures Step(t, m, Mover(t)).Some?
    decreases t
  {
    match t
    case First(_, _, _, sub) => if !sub.Done? { NotStuck(sub, m); }
    case Second(_, _, _, sub) => if !sub.Done? { NotStuck(sub, m); }
    case Both(_, _, _, thread, self) =>
      if !thread.Done? {
        NotStuck(thread, m);
        assert Mover(t)[1..] == Mover(thread);
      } else if !self.Done? {
        NotStuck(self, m);
        assert Mover(t)[1..] == Mover(self);
      }
    case _ =>
  }

  /** While both halves are unfinished, either thread can take the next step. */
  lemma EitherMoves(t: Task, m: Mem)
    requires t.Both?
    ensures !t.thread.Done? ==> Step(t, m, [true] + Mover(t.thread)).Some?
    ensures !t.self.Done? ==> Step(t, m, [false] + Mover(t.self)).Some?
  {
    if !t.thread.Done? {
      NotStuck(t.thread, m);
      assert ([true] + Mover(t.thread))[1..] == Mover(t.thread);
    }
    if !t.self.Done? {
      NotStuck(t.self, m);
      assert ([false] + Mover(t.self))[1..] == Mover(t.self);
    }
  }

  // ---------------------------------------------------------------- threads

  /** Threads that a call on n elements with that thread count creates: one fewer than the smaller of the two. */
  function Threads(n: int, tc: int): nat { if n <= 1 || tc <= 1 then 0 else if n < tc then n - 1 else tc - 1 }

  lemma ThreadsHalve(lo: nat, hi: nat, tc: int)
    requires lo + 1 < hi && tc > 1
    ensures Threads(hi - lo, tc) == 1 + Threads(Mid(lo, hi) - lo, tc / 2) + Threads(hi - Mid(lo, hi), (tc + 1) / 2)
  {}

  /** Threads a call will still create. */
  function Spare(t: Task): nat {
    match t
    case Start(lo, hi, _, tc) => Threads(hi - lo, tc)
    case First(_, _, _, sub) => Spare(sub)
    case Second(_, _, _, sub) => Spare(sub)
    case Both(_, _, _, thread, self) => Spare(thread) + Spare(self)
    case _ => 0
  }

  lemma {:induction false} StepSpares(t: Task, m: Mem, path: seq<bool>)
    requires Step(t, m, path).Some?
    ensures Step(t, m, path).value.spawned + Spare(Step(t, m, path).value.task) == Spare(t)
    decreases t
  {
    hide Threads, MergeOne, Mid;
    match t
    case Start(lo, hi, _, tc) =>
      if lo + 1 < hi && tc > 1 { ThreadsHalve(lo, hi, tc); } else { FewThreads(lo, hi, tc); }
    case Merge(_, _, _, _, _) => MergeNoThreads(t, m);
    case First(lo, hi, _, sub) => if !sub.Done? { StepSpares(sub, m, path); } else { FewThreads(lo, hi, 1); }
    case Second(_, _, _, sub) => if !sub.Done? { StepSpares(sub, m, path); }
    case Both(_, _, _, thread, self) =>
      if !(thread.Done? && self.Done?) {
        if path[0] { StepSpares(thread, m, path[1..]); } else { StepSpares(self, m, path[1..]); }
      }
    case _ =>
  }

  lemma MergeNoThreads(t: Task, m: Mem)
    requires t.Merge?
    ensures MergeOne(t, m).spawned == 0 && Spare(MergeOne(t, m).task) == 0
  {}

  lemma FewThreads(lo: nat, hi: nat, tc: int)
    requires hi <= lo + 1 || tc <= 1
    ensures Threads(hi - lo, tc) == 0 && Threads(Mid(lo, hi) - lo, 1) == 0 && Threads(hi - Mid(lo, hi), 1) == 0
  {}

  // ---------------------------------------------------------------- every interleaving

  /** The steps named by the paths, one after the other; threads created are added up. */
  function Run(t: Task, m: Mem, paths: seq<seq<bool>>): Option<Outcome>
    decreases |paths|
  {
    if paths == [] then Some(Outcome(t, m, 0)) else
    var o := Step(t, m, paths[0]);
    if o.None? then None else
    var r := Run(o.value.task, o.value.mem, paths[1..]);
    if r.None? then None else Some(r.value.(spawned := o.value.spawned + r.value.spawned))
  }

  lemma {:induction false} RunKeeps(t: Task, m: Mem, s: seq<int>, paths: seq<seq<bool>>)
    requires Ok(t, m, s) && Run(t, m, paths).Some?
    ensures var o := Run(t, m, paths).value;
      Ok(o.task, o.mem, s) && Sub(o.task, t.lo, t.hi, t.flip) && o.spawned + Spare(o.task) == Spare(t) &&
        |paths| + Work(o.task) <= Work(t)
    decreases |paths|
  {
    if paths != [] {
      hide Ok, Work, Spare, Step;
      var o := Step(t, m, paths[0]).value;
      StepKeeps(t, m, s, paths[0]);
      StepWorks(t, m, s, paths[0]);
      StepSpares(t, m, paths[0]);
      RunKeeps(o.task, o.mem, s, paths[1..]);
    }
  }

  /** For every thread count and every interleaving: the run cannot go on for ever, it can always go on until the sort
      is done, and then the result is the one the sequential sort gives; and exactly one thread fewer has been created
      than the smaller of thread_count and the number of elements, never more before. */
  lemma ParallelSort(s: seq<int>, tc: int, paths: seq<seq<bool>>)
    requires Run(Start(0, |s|, false, tc), Mem(s, s), paths).Some?
    ensures var o := Run(Start(0, |s|, false, tc), Mem(s, s), paths).value;
      && o.spawned <= Threads(|s|, tc) && (o.task.Done? ==> o.spawned == Threads(|s|, tc)) && |paths| <= Rank(|s|)
      && (if o.task.Done? then o.mem.b == Sort(s) && Sorted(o.mem.b) && multiset(o.mem.b) == multiset(s)
          else Step(o.task, o.mem, Mover(o.task)).Some?)
  {
    var t, m := Start(0, |s|, false, tc), Mem(s, s);
    var o := Run(t, m, paths).value;
    RunKeeps(t, m, s, paths);
    WorkPositive(o.task, o.mem, s);
    if o.task.Done? {
      SortIsSorted(s);
      assert s[0..|s|] == s && o.mem.b[0..|s|] == o.mem.b;
    } else {
      NotStuck(o.task, o.mem);
    }
  }
}
