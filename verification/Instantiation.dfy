/** Filling an assembly under two locks (src/partcad/assembly.py, do_instantiate).

    Any number of tasks, on any threads, call do_instantiate on one assembly.  The
    thread lock is re-entrant per thread; inside it is a task lock, one per thread,
    replaced when the thread runs another loop.  A fill appends the items of `tree`
    one at a time and may raise.  A call is cut where it can be suspended, and the
    parts of different calls interleave in any order. */
module Instantiation {
  import opened Wrappers
  import opened Counting

  /** Who calls: a task, by the thread and the loop it runs on. */
  datatype Task = Task(thread: nat, loop: nat)

  /** The items an assembly holds, by identity. */
  type Child = nat

  datatype Phase =
    | Idle
    | AtTaskLock
    | WaitingOn(lock: nat)
    | Checking(lock: nat)
    | Filling(lock: nat, k: nat)
    | Leaving(lock: nat, raised: bool)
    | Releasing(raised: bool)
    | Returned
    | Raised

  datatype TaskLock = TaskLock(lock: nat, loop: nat)

  /** `holder[l]` is the task inside task lock l.  `cutShort` records that some fill
      raised after appending some of the tree and not all of it. */
  datatype State = State(
    phase: seq<Phase>,
    owner: Option<nat>,
    depth: nat,
    lockOf: map<nat, TaskLock>,
    holder: seq<Option<nat>>,
    children: seq<Child>,
    cutShort: bool)

  datatype Action =
    | TakeThreadLock(t: nat)
    | FindTaskLock(t: nat)
    | TakeTaskLock(t: nat)
    | Check(t: nat)
    | Append(t: nat)
    | FillEnds(t: nat)
    | FillRaises(t: nat)
    | ReleaseTaskLock(t: nat)
    | ReleaseThreadLock(t: nat)

  function Init(tasks: seq<Task>): State {
    State(seq(|tasks|, _ => Idle), None, 0, map[], [], [], false)
  }

  /** Inside `with self.lock`. */
  predicate Active(p: Phase) { !p.Idle? && !p.Returned? && !p.Raised? }

  /** Inside the task lock as well. */
  predicate Inside(p: Phase) { p.Checking? || p.Filling? || p.Leaving? }

  predicate Enabled(tasks: seq<Task>, tree: seq<Child>, s: State, a: Action) {
    && |s.phase| == |tasks| && a.t < |tasks|
    && var p := s.phase[a.t];
    match a
    case TakeThreadLock(t) =>
      && p.Idle? && (s.owner.None? || s.owner.value == tasks[t].thread)
      // A thread runs one loop at a time, to its end.
      && forall u | 0 <= u < |tasks| && tasks[u].thread == tasks[t].thread && Active(s.phase[u]) :: tasks[u].loop == tasks[t].loop
    case FindTaskLock(_) => p.AtTaskLock?
    case TakeTaskLock(_) => p.WaitingOn? && p.lock < |s.holder| && s.holder[p.lock].None?
    case Check(_) => p.Checking?
    case Append(_) => p.Filling? && p.k < |tree|
    case FillEnds(_) => p.Filling? && p.k >= |tree|
    case FillRaises(_) => p.Filling?
    case ReleaseTaskLock(_) => p.Leaving? && p.lock < |s.holder|
    case ReleaseThreadLock(_) => p.Releasing? && s.depth > 0
  }

  function Apply(tasks: seq<Task>, tree: seq<Child>, s: State, a: Action): State
    requires Enabled(tasks, tree, s, a)
  {
    var p := s.phase[a.t];
    match a
    case TakeThreadLock(t) =>
      s.(phase := s.phase[t := AtTaskLock], owner := Some(tasks[t].thread), depth := s.depth + 1)
    case FindTaskLock(t) =>
      var h := tasks[t].thread;
      if h !in s.lockOf || s.lockOf[h].loop != tasks[t].loop then
        var l := |s.holder|;
        s.(phase := s.phase[t := WaitingOn(l)], lockOf := s.lockOf[h := TaskLock(l, tasks[t].loop)], holder := s.holder + [None])
      else s.(phase := s.phase[t := WaitingOn(s.lockOf[h].lock)])
    case TakeTaskLock(t) => s.(phase := s.phase[t := Checking(p.lock)], holder := s.holder[p.lock := Some(t)])
    case Check(t) => s.(phase := s.phase[t := if s.children != [] then Leaving(p.lock, false) else Filling(p.lock, 0)])
    case Append(t) => s.(phase := s.phase[t := Filling(p.lock, p.k + 1)], children := s.children + [tree[p.k]])
    case FillEnds(t) => s.(phase := s.phase[t := Leaving(p.lock, false)])
    case FillRaises(t) =>
      s.(phase := s.phase[t := Leaving(p.lock, true)], cutShort := s.cutShort || 0 < p.k < |tree|)
    case ReleaseTaskLock(t) => s.(phase := s.phase[t := Releasing(p.raised)], holder := s.holder[p.lock := None])
    case ReleaseThreadLock(t) =>
      s.(phase := s.phase[t := if p.raised then Raised else Returned],
         owner := if s.depth == 1 then None else s.owner, depth := s.depth - 1)
  }

  // ---- the assembly itself ----

  /** One assembly and the tasks that instantiate it; the methods are the parts of
      `do_instantiate` between the points where it can be suspended. */
  class Assembly {
    const tasks: seq<Task>
    const tree: seq<Child>
    var phase: seq<Phase>
    var owner: Option<nat>
    var depth: nat
    var lockOf: map<nat, TaskLock>
    var holder: seq<Option<nat>>
    var children: seq<Child>
    ghost var cutShort: bool

    constructor (tasks: seq<Task>, tree: seq<Child>)
      ensures this.tasks == tasks && this.tree == tree && Snapshot() == Init(tasks)
    {
      this.tasks, this.tree := tasks, tree;
      phase, owner, depth, lockOf, holder := seq(|tasks|, _ => Idle), None, 0, map[], [];
      children, cutShort := [], false;
    }

    ghost function Snapshot(): State
      reads this
    {
      State(phase, owner, depth, lockOf, holder, children, cutShort)
    }

    /** The lock of the thread's own loop, in place of one of another loop. */
    method GetAsyncInstantiateLock(t: nat)
      requires Enabled(tasks, tree, Snapshot(), FindTaskLock(t))
      modifies this
      ensures Snapshot() == Apply(tasks, tree, old(Snapshot()), FindTaskLock(t))
    {
      var thread, loop := tasks[t].thread, tasks[t].loop;
      if thread !in lockOf || lockOf[thread].loop != loop {
        lockOf := lockOf[thread := TaskLock(|holder|, loop)];
        holder := holder + [None];
      }
      phase := phase[t := WaitingOn(lockOf[thread].lock)];
    }

    /** Fills the assembly unless it has children already. */
    method BeginFill(t: nat)
      requires Enabled(tasks, tree, Snapshot(), Check(t))
      modifies this
      ensures Snapshot() == Apply(tasks, tree, old(Snapshot()), Check(t))
    {
      if |children| == 0 {
        phase := phase[t := Filling(phase[t].lock, 0)];
      } else {
        phase := phase[t := Leaving(phase[t].lock, false)];
      }
    }

    method AppendItem(t: nat)
      requires Enabled(tasks, tree, Snapshot(), Append(t))
      modifies this
      ensures Snapshot() == Apply(tasks, tree, old(Snapshot()), Append(t))
    {
      children := children + [tree[phase[t].k]];
      phase := phase[t := Filling(phase[t].lock, phase[t].k + 1)];
    }

    method LeaveThreadLock(t: nat)
      requires Enabled(tasks, tree, Snapshot(), ReleaseThreadLock(t))
      modifies this
      ensures Snapshot() == Apply(tasks, tree, old(Snapshot()), ReleaseThreadLock(t))
    {
      depth := depth - 1;
      if depth == 0 { owner := None; }
      phase := phase[t := if phase[t].raised then Raised else Returned];
    }
  }

  // ---- what every step keeps ----

  function ActiveTasks(phase: seq<Phase>): set<nat> {
    set t | 0 <= t < |phase| && Active(phase[t])
  }

  /** What is known of one task: an active one runs on the thread that owns the
      thread lock, waits on or holds that thread's task lock, and when inside it is
      the one recorded as holding it. */
  predicate TaskOk(tasks: seq<Task>, s: State, t: nat)
    requires |s.phase| == |tasks| && t < |tasks|
  {
    var p, h := s.phase[t], tasks[t].thread;
    && (Active(p) ==> s.owner == Some(h))
    && (p.WaitingOn? || Inside(p) ==> p.lock < |s.holder| && h in s.lockOf && s.lockOf[h] == TaskLock(p.lock, tasks[t].loop))
    && (Inside(p) ==> s.holder[p.lock] == Some(t))
  }

  predicate LockOk(s: State, l: nat)
    requires l < |s.holder|
  {
    s.holder[l].Some? ==>
      s.holder[l].value < |s.phase| && Inside(s.phase[s.holder[l].value]) && s.phase[s.holder[l].value].lock == l
  }

  /** What is known of the children while task t is where it is. */
  predicate FillOk(tree: seq<Child>, s: State, t: nat)
    requires t < |s.phase|
  {
    match s.phase[t]
    case Filling(_, k) => k == |s.children| && k <= |tree| && !s.cutShort
    case Leaving(_, raised) => raised || s.cutShort || s.children == tree
    case Releasing(raised) => raised || s.cutShort || s.children == tree
    case Returned => s.cutShort || s.children == tree
    case _ => true
  }

  predicate SomeoneFills(s: State) {
    exists t | 0 <= t < |s.phase| :: s.phase[t].Filling?
  }

  /** Each thread in `lockOf` has a task lock of its own. */
  predicate LocksApart(s: State) {
    && (forall h | h in s.lockOf :: s.lockOf[h].lock < |s.holder|)
    && (forall h, i | h in s.lockOf && i in s.lockOf && h != i :: s.lockOf[h].lock != s.lockOf[i].lock)
  }

  predicate OneLoopPerThread(tasks: seq<Task>, phase: seq<Phase>)
    requires |phase| == |tasks|
  {
    forall t, u | 0 <= t < |tasks| && 0 <= u < |tasks| && tasks[t].thread == tasks[u].thread
      && Active(phase[t]) && Active(phase[u]) :: tasks[t].loop == tasks[u].loop
  }

  ghost predicate LockInv(tasks: seq<Task>, s: State) {
    && |s.phase| == |tasks|
    && (forall t | 0 <= t < |tasks| :: TaskOk(tasks, s, t))
    && (forall l | 0 <= l < |s.holder| :: LockOk(s, l))
    && OneLoopPerThread(tasks, s.phase) && LocksApart(s)
    && s.depth == |ActiveTasks(s.phase)| && (s.owner.None? <==> s.depth == 0)
  }

  ghost predicate FillInv(tree: seq<Child>, s: State) {
    && (forall t | 0 <= t < |s.phase| :: FillOk(tree, s, t))
    && s.children <= tree
    && (s.cutShort ==> 0 < |s.children| < |tree|)
    && (s.children != [] && s.children != tree && !s.cutShort ==> SomeoneFills(s))
  }

  ghost predicate Inv(tasks: seq<Task>, tree: seq<Child>, s: State) {
    LockInv(tasks, s) && FillInv(tree, s)
  }

  lemma InitHolds(tasks: seq<Task>, tree: seq<Child>)
    ensures Inv(tasks, tree, Init(tasks))
  {
    assert ActiveTasks(Init(tasks).phase) == {};
  }

  /** Two tasks are never inside at once, on one thread or on two: the same thread
      owns the thread lock for both, and one task lock stands for that thread. */
  lemma AtMostOneInside(tasks: seq<Task>, s: State, t: nat, u: nat)
    requires LockInv(tasks, s) && t < |tasks| && u < |tasks| && Inside(s.phase[t]) && Inside(s.phase[u])
    ensures t == u
  {
    assert TaskOk(tasks, s, t) && TaskOk(tasks, s, u);
  }

  lemma Activate(phase: seq<Phase>, t: nat, p: Phase)
    requires t < |phase|
    ensures |ActiveTasks(phase[t := p])| == |ActiveTasks(phase)| - (if Active(phase[t]) then 1 else 0) + (if Active(p) then 1 else 0)
  {
    var a, a' := ActiveTasks(phase), ActiveTasks(phase[t := p]);
    if Active(phase[t]) {
      if Active(p) { assert a' == a; } else { assert a' == a - {t}; }
    } else {
      if Active(p) { assert a' == a + {t}; } else { assert a' == a; }
    }
  }

  lemma TaskKept(tasks: seq<Task>, tree: seq<Child>, s: State, a: Action, t: nat)
    requires LockInv(tasks, s) && Enabled(tasks, tree, s, a) && t < |tasks|
    ensures TaskOk(tasks, Apply(tasks, tree, s, a), t)
  {
    assert TaskOk(tasks, s, t) && TaskOk(tasks, s, a.t);
    if a.ReleaseThreadLock? && t != a.t && Active(s.phase[t]) {
      assert {t, a.t} <= ActiveTasks(s.phase);
      AtLeastTwo(ActiveTasks(s.phase), t, a.t);
    }
  }

  lemma LockKept(tasks: seq<Task>, tree: seq<Child>, s: State, a: Action, l: nat)
    requires LockInv(tasks, s) && Enabled(tasks, tree, s, a) && l < |Apply(tasks, tree, s, a).holder|
    ensures LockOk(Apply(tasks, tree, s, a), l)
  {
    assert TaskOk(tasks, s, a.t);
    if l < |s.holder| { assert LockOk(s, l); }
  }

  lemma LocksStayApart(tasks: seq<Task>, tree: seq<Child>, s: State, a: Action)
    requires LockInv(tasks, s) && Enabled(tasks, tree, s, a)
    ensures LocksApart(Apply(tasks, tree, s, a))
  {}

  lemma LoopsStayOne(tasks: seq<Task>, tree: seq<Child>, s: State, a: Action)
    requires LockInv(tasks, s) && Enabled(tasks, tree, s, a)
    ensures |Apply(tasks, tree, s, a).phase| == |tasks| && OneLoopPerThread(tasks, Apply(tasks, tree, s, a).phase)
  {}

  lemma DepthKept(tasks: seq<Task>, tree: seq<Child>, s: State, a: Action)
    requires LockInv(tasks, s) && Enabled(tasks, tree, s, a)
    ensures var s' := Apply(tasks, tree, s, a);
            s'.depth == |ActiveTasks(s'.phase)| && (s'.owner.None? <==> s'.depth == 0)
  {
    var s' := Apply(tasks, tree, s, a);
    assert TaskOk(tasks, s, a.t);
    assert s'.phase == s.phase[a.t := s'.phase[a.t]];
    Activate(s.phase, a.t, s'.phase[a.t]);
  }

  lemma LocksKept(tasks: seq<Task>, tree: seq<Child>, s: State, a: Action)
    requires LockInv(tasks, s) && Enabled(tasks, tree, s, a)
    ensures LockInv(tasks, Apply(tasks, tree, s, a))
  {
    var s' := Apply(tasks, tree, s, a);
    LoopsStayOne(tasks, tree, s, a);
    LocksStayApart(tasks, tree, s, a);
    DepthKept(tasks, tree, s, a);
    forall t | 0 <= t < |tasks| ensures TaskOk(tasks, s', t) { TaskKept(tasks, tree, s, a, t); }
    forall l | 0 <= l < |s'.holder| ensures LockOk(s', l) { LockKept(tasks, tree, s, a, l); }
  }

  lemma FillKept(tasks: seq<Task>, tree: seq<Child>, s: State, a: Action, t: nat)
    requires Inv(tasks, tree, s) && Enabled(tasks, tree, s, a) && t < |tasks|
    ensures FillOk(tree, Apply(tasks, tree, s, a), t)
  {
    assert TaskOk(tasks, s, a.t) && FillOk(tree, s, a.t) && FillOk(tree, s, t);
    if Inside(s.phase[t]) && Inside(s.phase[a.t]) { AtMostOneInside(tasks, s, t, a.t); }
    if a.Check? && SomeoneFills(s) {
      var u :| 0 <= u < |s.phase| && s.phase[u].Filling?;
      AtMostOneInside(tasks, s, u, a.t);
    }
  }

  lemma FillsKept(tasks: seq<Task>, tree: seq<Child>, s: State, a: Action)
    requires Inv(tasks, tree, s) && Enabled(tasks, tree, s, a)
    ensures FillInv(tree, Apply(tasks, tree, s, a))
  {
    var s' := Apply(tasks, tree, s, a);
    assert TaskOk(tasks, s, a.t) && FillOk(tree, s, a.t);
    forall t | 0 <= t < |tasks| ensures FillOk(tree, s', t) { FillKept(tasks, tree, s, a, t); }
    if SomeoneFills(s) {
      var u :| 0 <= u < |s.phase| && s.phase[u].Filling?;
      assert u != a.t ==> s'.phase[u].Filling?;
    }
    assert a.Append? ==> s'.phase[a.t].Filling?;
  }

  lemma StepKeeps(tasks: seq<Task>, tree: seq<Child>, s: State, a: Action)
    requires Inv(tasks, tree, s) && Enabled(tasks, tree, s, a)
    ensures Inv(tasks, tree, Apply(tasks, tree, s, a))
  {
    LocksKept(tasks, tree, s, a);
    FillsKept(tasks, tree, s, a);
  }

  /** What a caller that returns finds: one complete fill, unless some fill raised
      half way - and then no later call completes it. */
  lemma ReturnedCallerSeesWholeTree(tasks: seq<Task>, tree: seq<Child>, s: State, t: nat)
    requires Inv(tasks, tree, s) && t < |tasks| && s.phase[t].Returned?
    ensures s.children == tree <==> !s.cutShort
  {
    assert FillOk(tree, s, t);
  }

  lemma CutShortIsForGood(tasks: seq<Task>, tree: seq<Child>, s: State, a: Action)
    requires Inv(tasks, tree, s) && Enabled(tasks, tree, s, a) && s.cutShort
    ensures var s' := Apply(tasks, tree, s, a);
            s'.cutShort && s'.children == s.children && s.children != tree
  {
    assert FillOk(tree, s, a.t);
  }

  // ---- every run finishes ----

  predicate Done(s: State) {
    forall t | 0 <= t < |s.phase| :: s.phase[t].Returned? || s.phase[t].Raised?
  }

  /** No deadlock: until every call is over some call can take a step, and while the
      thread lock is taken, one on the thread that has it. */
  lemma NeverStuck(tasks: seq<Task>, tree: seq<Child>, s: State) returns (a: Action)
    requires Inv(tasks, tree, s) && !Done(s)
    ensures Enabled(tasks, tree, s, a)
    ensures s.owner.Some? ==> tasks[a.t].thread == s.owner.value
  {
    if s.owner.None? {
      assert ActiveTasks(s.phase) == {};
      var t :| 0 <= t < |s.phase| && !(s.phase[t].Returned? || s.phase[t].Raised?);
      forall u | 0 <= u < |tasks| ensures !Active(s.phase[u]) { assert u !in ActiveTasks(s.phase); }
      a := TakeThreadLock(t);
    } else {
      assert ActiveTasks(s.phase) != {};
      var t :| t in ActiveTasks(s.phase);
      assert TaskOk(tasks, s, t);
      match s.phase[t]
      case AtTaskLock => a := FindTaskLock(t);
      case WaitingOn(l) =>
        if s.holder[l].None? {
          a := TakeTaskLock(t);
        } else {
          assert LockOk(s, l);
          assert TaskOk(tasks, s, s.holder[l].value);
          a := InsideCanMove(tasks, tree, s, s.holder[l].value);
        }
      case Releasing(_) => a := ReleaseThreadLock(t);
      case Checking(_) => a := InsideCanMove(tasks, tree, s, t);
      case Filling(_, _) => a := InsideCanMove(tasks, tree, s, t);
      case Leaving(_, _) => a := InsideCanMove(tasks, tree, s, t);
    }
  }

  lemma InsideCanMove(tasks: seq<Task>, tree: seq<Child>, s: State, t: nat) returns (a: Action)
    requires LockInv(tasks, s) && t < |tasks| && Inside(s.phase[t])
    ensures Enabled(tasks, tree, s, a) && a.t == t
  {
    assert TaskOk(tasks, s, t);
    match s.phase[t]
    case Checking(_) => a := Check(t);
    case Filling(_, k) => a := if k < |tree| then Append(t) else FillEnds(t);
    case Leaving(_, _) => a := ReleaseTaskLock(t);
  }

  function Left(p: Phase, n: nat): nat {
    match p
    case Idle => n + 7
    case AtTaskLock => n + 6
    case WaitingOn(_) => n + 5
    case Checking(_) => n + 4
    case Filling(_, k) => 3 + (if k < n then n - k else 0)
    case Leaving(_, _) => 2
    case Releasing(_) => 1
    case _ => 0
  }

  /** What is left of each phase when the whole tree has n children. */
  function LeftOf(n: nat): Phase -> nat { p => Left(p, n) }

  function Measure(s: State, tree: seq<Child>): nat { TotalLeft(s.phase, LeftOf(|tree|)) }

  lemma StepMakesProgress(tasks: seq<Task>, tree: seq<Child>, s: State, a: Action)
    requires Enabled(tasks, tree, s, a)
    ensures Measure(Apply(tasks, tree, s, a), tree) < Measure(s, tree)
  {
    var s' := Apply(tasks, tree, s, a);
    assert s'.phase == s.phase[a.t := s'.phase[a.t]];
    OneMoved(s.phase, LeftOf(|tree|), a.t, s'.phase[a.t]);
  }

  /** The state a schedule leads to, if each of its steps can be taken. */
  function After(tasks: seq<Task>, tree: seq<Child>, schedule: seq<Action>): Option<State> {
    if schedule == [] then Some(Init(tasks))
    else
      var r, a := After(tasks, tree, schedule[..|schedule|-1]), schedule[|schedule|-1];
      if r.Some? && Enabled(tasks, tree, r.value, a) then Some(Apply(tasks, tree, r.value, a)) else None
  }

  /** Under every interleaving the invariant holds, and each step brings the end nearer. */
  lemma {:induction false} RunsKeep(tasks: seq<Task>, tree: seq<Child>, schedule: seq<Action>)
    requires After(tasks, tree, schedule).Some?
    ensures var s := After(tasks, tree, schedule).value;
            Inv(tasks, tree, s) && |schedule| + Measure(s, tree) <= (|tree| + 7) * |tasks|
    decreases |schedule|
  {
    if schedule == [] {
      InitHolds(tasks, tree);
      TotalIsBounded(Init(tasks).phase, LeftOf(|tree|), |tree| + 7);
    } else {
      var rest, a := schedule[..|schedule|-1], schedule[|schedule|-1];
      RunsKeep(tasks, tree, rest);
      var r := After(tasks, tree, rest).value;
      StepKeeps(tasks, tree, r, a);
      StepMakesProgress(tasks, tree, r, a);
    }
  }

  /** Every run ends, and where it can go no further every caller has returned or
      raised; one that returned found the whole tree unless a fill was cut short. */
  lemma EveryRunFinishes(tasks: seq<Task>, tree: seq<Child>, schedule: seq<Action>)
    requires After(tasks, tree, schedule).Some?
    ensures |schedule| <= (|tree| + 7) * |tasks|
    ensures var s := After(tasks, tree, schedule).value;
            && (Done(s) || exists a :: Enabled(tasks, tree, s, a))
            && (forall t | 0 <= t < |s.phase| && s.phase[t].Returned? :: s.children == tree <==> !s.cutShort)
  {
    RunsKeep(tasks, tree, schedule);
    var s := After(tasks, tree, schedule).value;
    if !Done(s) { var a := NeverStuck(tasks, tree, s); }
    forall t | 0 <= t < |s.phase| && s.phase[t].Returned? ensures s.children == tree <==> !s.cutShort {
      ReturnedCallerSeesWholeTree(tasks, tree, s, t);
    }
  }

  /** Under every interleaving at most one caller is inside the fill, and `children` is
      at all times the beginning of one fill: never the tree twice. */
  lemma OneFillAtATime(tasks: seq<Task>, tree: seq<Child>, schedule: seq<Action>)
    requires After(tasks, tree, schedule).Some?
    ensures var s := After(tasks, tree, schedule).value;
            && (forall t, u | 0 <= t < |s.phase| && 0 <= u < |s.phase| && Inside(s.phase[t]) && Inside(s.phase[u]) :: t == u)
            && s.children <= tree
  {
    RunsKeep(tasks, tree, schedule);
    var s := After(tasks, tree, schedule).value;
    forall t, u | 0 <= t < |s.phase| && 0 <= u < |s.phase| && Inside(s.phase[t]) && Inside(s.phase[u]) ensures t == u {
      AtMostOneInside(tasks, s, t, u);
    }
  }

  /** The thread lock alone lets two tasks of one loop in together. */
  lemma ThreadLockAdmitsItsOwnTasks(thread: nat, loop: nat, tree: seq<Child>)
    ensures var tasks := [Task(thread, loop), Task(thread, loop)];
            var s0 := Init(tasks);
            && Enabled(tasks, tree, s0, TakeThreadLock(0))
            && var s1 := Apply(tasks, tree, s0, TakeThreadLock(0));
            && Enabled(tasks, tree, s1, TakeThreadLock(1))
            && var s2 := Apply(tasks, tree, s1, TakeThreadLock(1));
            s2.depth == 2 && s2.phase[0].AtTaskLock? && s2.phase[1].AtTaskLock?
  {}

  /** A fill that raises half way leaves its beginning behind: from then on every
      caller returns with an incomplete assembly (CutShortIsForGood). */
  lemma FillRaisingHalfWayCutsShort(tasks: seq<Task>, tree: seq<Child>, s: State, t: nat)
    requires Inv(tasks, tree, s) && t < |tasks| && s.phase[t].Filling?
    ensures Enabled(tasks, tree, s, FillRaises(t))
    ensures Apply(tasks, tree, s, FillRaises(t)).cutShort <==> s.children != [] && s.children != tree
  {
    assert FillOk(tree, s, t);
  }

  // ---- when a caller can be left with half a tree ----

  lemma Then(tasks: seq<Task>, tree: seq<Child>, schedule: seq<Action>, s: State, a: Action) returns (longer: seq<Action>, t: State)
    requires After(tasks, tree, schedule) == Some(s) && Enabled(tasks, tree, s, a)
    ensures After(tasks, tree, longer) == Some(t) && t == Apply(tasks, tree, s, a)
  {
    longer, t := schedule + [a], Apply(tasks, tree, s, a);
    assert longer[..|longer|-1] == schedule;
  }

  /** With nobody inside the thread lock, a call gets as far as looking for children. */
  lemma GetsIn(tasks: seq<Task>, tree: seq<Child>, schedule: seq<Action>, s: State, t: nat) returns (longer: seq<Action>, s': State)
    requires After(tasks, tree, schedule) == Some(s) && t < |tasks| == |s.phase| && s.phase[t].Idle? && s.owner.None?
    ensures After(tasks, tree, longer) == Some(s') && |s'.phase| == |tasks| && s'.depth == 1
    ensures s'.phase[t].Checking? && s'.phase[t].lock < |s'.holder| && s'.children == s.children && s'.cutShort == s.cutShort
    ensures forall u | 0 <= u < |tasks| && u != t :: s'.phase[u] == s.phase[u]
  {
    RunsKeep(tasks, tree, schedule);
    forall u | 0 <= u < |tasks| ensures !Active(s.phase[u]) { assert TaskOk(tasks, s, u); }
    assert ActiveTasks(s.phase) == {};
    longer, s' := Then(tasks, tree, schedule, s, TakeThreadLock(t));
    longer, s' := Then(tasks, tree, longer, s', FindTaskLock(t));
    RunsKeep(tasks, tree, longer);
    LockIsFree(tasks, s', t);
    longer, s' := Then(tasks, tree, longer, s', TakeTaskLock(t));
  }

  lemma LockIsFree(tasks: seq<Task>, s: State, t: nat)
    requires LockInv(tasks, s) && t < |tasks| && s.phase[t].WaitingOn? && s.depth == 1
    ensures s.phase[t].lock < |s.holder| && s.holder[s.phase[t].lock].None?
  {
    assert TaskOk(tasks, s, t);
    var l := s.phase[t].lock;
    if s.holder[l].Some? {
      assert LockOk(s, l);
      AtLeastTwo(ActiveTasks(s.phase), t, s.holder[l].value);
    }
  }

  /** The way out of both locks. */
  lemma GetsOut(tasks: seq<Task>, tree: seq<Child>, schedule: seq<Action>, s: State, t: nat) returns (longer: seq<Action>, s': State)
    requires After(tasks, tree, schedule) == Some(s) && t < |tasks| == |s.phase| && s.depth == 1
    requires s.phase[t].Leaving? && s.phase[t].lock < |s.holder|
    ensures After(tasks, tree, longer) == Some(s') && |s'.phase| == |tasks| && s'.owner.None?
    ensures s'.phase[t] == (if s.phase[t].raised then Raised else Returned) && s'.children == s.children && s'.cutShort == s.cutShort
    ensures forall u | 0 <= u < |tasks| && u != t :: s'.phase[u] == s.phase[u]
  {
    longer, s' := Then(tasks, tree, schedule, s, ReleaseTaskLock(t));
    longer, s' := Then(tasks, tree, longer, s', ReleaseThreadLock(t));
  }

  lemma RaisesHalfWay(tasks: seq<Task>, tree: seq<Child>, t: nat) returns (schedule: seq<Action>, s: State)
    requires t < |tasks| && |tree| >= 2
    ensures After(tasks, tree, schedule) == Some(s) && |s.phase| == |tasks| && s.owner.None?
    ensures s.children == [tree[0]] && s.cutShort
    ensures forall u | 0 <= u < |tasks| && u != t :: s.phase[u].Idle?
  {
    schedule, s := GetsIn(tasks, tree, [], Init(tasks), t);
    schedule, s := Then(tasks, tree, schedule, s, Check(t));
    schedule, s := Then(tasks, tree, schedule, s, Append(t));
    schedule, s := Then(tasks, tree, schedule, s, FillRaises(t));
    schedule, s := GetsOut(tasks, tree, schedule, s, t);
  }

  /** One call's fill raises after the first item, and the next call returns with it. */
  lemma ReturnsWithHalfATree(tasks: seq<Task>, tree: seq<Child>) returns (schedule: seq<Action>)
    requires |tasks| >= 2 && |tree| >= 2
    ensures After(tasks, tree, schedule).Some? && !WholeTreeForAll(tree, After(tasks, tree, schedule).value)
  {
    var s;
    schedule, s := RaisesHalfWay(tasks, tree, 0);
    schedule, s := GetsIn(tasks, tree, schedule, s, 1);
    schedule, s := Then(tasks, tree, schedule, s, Check(1));
    schedule, s := GetsOut(tasks, tree, schedule, s, 1);
    assert s.phase[1].Returned? && |s.children| == 1;
  }

  /** Every caller that has returned finds the whole tree. */
  predicate WholeTreeForAll(tree: seq<Child>, s: State) {
    forall t | 0 <= t < |s.phase| && s.phase[t].Returned? :: s.children == tree
  }

  predicate HasRaised(p: Phase) { p.Raised? || ((p.Leaving? || p.Releasing?) && p.raised) }

  lemma {:induction false} CutShortByRaising(tasks: seq<Task>, tree: seq<Child>, schedule: seq<Action>) returns (t: nat)
    requires After(tasks, tree, schedule).Some? && After(tasks, tree, schedule).value.cutShort
    ensures t < |After(tasks, tree, schedule).value.phase| && HasRaised(After(tasks, tree, schedule).value.phase[t])
    decreases |schedule|
  {
    var rest, a := schedule[..|schedule|-1], schedule[|schedule|-1];
    var r := After(tasks, tree, rest).value;
    if r.cutShort { t := CutShortByRaising(tasks, tree, rest); } else { t := a.t; }
  }

  /** Whatever the interleaving, and whichever fills raise, every caller that returns
      finds the whole tree - exactly when there are not two callers, or the tree has not
      two items. */
  lemma WholeTreeExactlyIfNotTwo(tasks: seq<Task>, tree: seq<Child>)
    ensures (forall schedule | After(tasks, tree, schedule).Some? :: WholeTreeForAll(tree, After(tasks, tree, schedule).value))
        <==> |tasks| < 2 || |tree| < 2
  {
    if |tasks| >= 2 && |tree| >= 2 {
      var schedule := ReturnsWithHalfATree(tasks, tree);
    } else {
      forall schedule | After(tasks, tree, schedule).Some? ensures WholeTreeForAll(tree, After(tasks, tree, schedule).value) {
        WholeUnlessTwo(tasks, tree, schedule);
      }
    }
  }

  lemma WholeUnlessTwo(tasks: seq<Task>, tree: seq<Child>, schedule: seq<Action>)
    requires After(tasks, tree, schedule).Some? && (|tasks| < 2 || |tree| < 2)
    ensures WholeTreeForAll(tree, After(tasks, tree, schedule).value)
  {
    RunsKeep(tasks, tree, schedule);
    var s := After(tasks, tree, schedule).value;
    forall t | 0 <= t < |s.phase| && s.phase[t].Returned? ensures s.children == tree {
      ReturnedCallerSeesWholeTree(tasks, tree, s, t);
      if s.cutShort { var u := CutShortByRaising(tasks, tree, schedule); }
    }
  }
}
