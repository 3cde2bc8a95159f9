/** Resolving the nodes of an ASSY file concurrently
    (src/partcad/assembly_factory_assy.py, handle_node_list).

    Every node is a task of its own.  Before a node that connects to another one is
    started, the tasks before it are waited for, in order, and their items appended;
    a connecting node looks its target up among the items appended so far. */
module NodeList {
  import opened Wrappers

  type Child = nat

  /** The nodes of one list: which of them carry `connect` or `connectPorts`, and what
      node i resolves to given the items it finds; other nodes look at no items. */
  datatype File = File(connects: seq<bool>, resolve: (nat, seq<Child>) -> Option<Child>)

  function Resolve(f: File, i: nat, found: seq<Child>): Option<Child>
    requires i < |f.connects|
  {
    if f.connects[i] then f.resolve(i, found) else f.resolve(i, [])
  }

  function Appended(s: seq<Child>, r: Option<Child>): seq<Child> {
    if r.Some? then s + [r.value] else s
  }

  /** The items after the first k nodes, resolved one after another in file order. */
  function Sequential(f: File, k: nat): seq<Child>
    requires k <= |f.connects|
  {
    if k == 0 then []
    else
      var before := Sequential(f, k - 1);
      Appended(before, Resolve(f, k - 1, before))
  }

  /** Where the list's own task is: going through the nodes, in wait_for_tasks, or
      there and waiting for one popped task. */
  datatype Main = Looping | Draining | Awaiting(task: nat) | Ended

  /** `collected` counts the nodes whose results have been taken. */
  datatype State = State(
    main: Main,
    next: nat,
    tasks: seq<nat>,
    running: set<nat>,
    results: map<nat, Option<Child>>,
    children: seq<Child>,
    collected: nat)

  datatype Action = Spawn | Drain | Pop | Collect | Resume | RunTask(j: nat)

  const INIT := State(Looping, 0, [], {}, map[], [], 0)

  predicate Enabled(f: File, s: State, a: Action) {
    match a
    case Spawn => s.main.Looping? && s.next < |f.connects| && !f.connects[s.next]
    case Drain => s.main.Looping? && (s.next >= |f.connects| || f.connects[s.next])
    case Pop => s.main.Draining? && s.tasks != []
    case Collect => s.main.Awaiting? && s.main.task in s.results
    case Resume => s.main.Draining? && s.tasks == []
    case RunTask(j) => j in s.running && j < |f.connects|
  }

  function Apply(f: File, s: State, a: Action): State
    requires Enabled(f, s, a)
  {
    match a
    case Spawn => Started(s)
    case Drain => s.(main := Draining)
    case Pop => s.(main := Awaiting(s.tasks[0]), tasks := s.tasks[1..])
    case Collect =>
      s.(main := Draining, children := Appended(s.children, s.results[s.main.task]), collected := s.collected + 1)
    case Resume => if s.next < |f.connects| then Started(s).(main := Looping) else s.(main := Ended)
    case RunTask(j) =>
      s.(running := s.running - {j}, results := s.results[j := Resolve(f, j, s.children)])
  }

  function Started(s: State): State {
    s.(next := s.next + 1, tasks := s.tasks + [s.next], running := s.running + {s.next})
  }

  // ---- what every step keeps ----

  /** The first node waiting in `tasks`. */
  function FirstTask(s: State): nat { s.collected + (if s.main.Awaiting? then 1 else 0) }

  predicate Inv(f: File, s: State) {
    && FirstTask(s) + |s.tasks| == s.next <= |f.connects|
    && (forall k | 0 <= k < |s.tasks| :: s.tasks[k] == FirstTask(s) + k)
    && (s.main.Awaiting? ==> s.main.task == s.collected)
    && (s.main.Ended? ==> s.collected == |f.connects|)
    && (s.main.Draining? || s.main.Awaiting? ==> s.next < |f.connects| ==> f.connects[s.next])
    && (forall j | s.collected <= j < s.next :: j in s.running || j in s.results)
    && (forall j | j in s.running :: s.collected <= j < s.next && j !in s.results)
    // A connecting node is started when every node before it has been collected.
    && (forall j | s.collected <= j < s.next && f.connects[j] :: j == s.collected)
    && s.children == Sequential(f, s.collected)
    && (forall j | j in s.results :: j < s.next && s.results[j] == Resolve(f, j, Sequential(f, j)))
  }

  lemma StartKeeps(f: File, s: State, s': State)
    requires Inv(f, s) && s.next < |f.connects| && !s.main.Awaiting? && !s.main.Ended?
    requires f.connects[s.next] ==> s.tasks == []
    requires s' == Started(s).(main := Looping)
    ensures Inv(f, s')
  {}

  lemma CollectKeeps(f: File, s: State)
    requires Inv(f, s) && Enabled(f, s, Collect)
    ensures Inv(f, Apply(f, s, Collect))
  {
    var c := s.collected;
    assert Sequential(f, c + 1) == Appended(Sequential(f, c), Resolve(f, c, Sequential(f, c)));
  }

  lemma RunTaskKeeps(f: File, s: State, j: nat)
    requires Inv(f, s) && Enabled(f, s, RunTask(j))
    ensures Inv(f, Apply(f, s, RunTask(j)))
  {}

  lemma StepKeeps(f: File, s: State, a: Action)
    requires Inv(f, s) && Enabled(f, s, a)
    ensures Inv(f, Apply(f, s, a))
  {
    match a
    case Spawn => StartKeeps(f, s, Apply(f, s, a));
    case Drain =>
    case Pop =>
    case Collect => CollectKeeps(f, s);
    case Resume => if s.next < |f.connects| { StartKeeps(f, s, Apply(f, s, a)); }
    case RunTask(j) => RunTaskKeeps(f, s, j);
  }

  /** However the tasks interleave, the list ends up as if its nodes had been resolved
      one after another in file order. */
  lemma EndsAsSequential(f: File, s: State)
    requires Inv(f, s) && s.main.Ended?
    ensures s.children == Sequential(f, |f.connects|)
  {}

  /** What a node is resolved to when `found` are the items before it: a connecting node
      looks at them, any other at none. */
  predicate ResolvesTo(f: File, n: nat, found: seq<Child>, r: Option<Child>)
    requires n < |f.connects|
  {
    (f.connects[n] && f.resolve(n, found) == r) || (!f.connects[n] && f.resolve(n, []) == r)
  }

  /** Node n comes after the first i of the nodes that gave an item, and before the others. */
  predicate ComesAfter(at: seq<nat>, i: nat, n: nat)
    requires i <= |at|
  {
    (i > 0 ==> at[i - 1] < n) && (i < |at| ==> n <= at[i])
  }

  /** The items are those of the nodes that resolved to one, in file order, and each node
      was resolved with the items of all the nodes before it. */
  lemma {:induction false} SequentialInFileOrder(f: File, k: nat) returns (at: seq<nat>)
    requires k <= |f.connects|
    ensures |at| == |Sequential(f, k)| && forall i | 0 <= i < |at| :: at[i] < k
    ensures forall i, j | 0 <= i < j < |at| :: at[i] < at[j]
    ensures forall i | 0 <= i < |at| :: ResolvesTo(f, at[i], Sequential(f, k)[..i], Some(Sequential(f, k)[i]))
    ensures forall n: nat, i: nat | n < k && n !in at && i <= |at| && ComesAfter(at, i, n) :: ResolvesTo(f, n, Sequential(f, k)[..i], None)
  {
    if k == 0 {
      at := [];
    } else {
      var before := SequentialInFileOrder(f, k - 1);
      at := NodeResolved(f, k - 1, before);
    }
  }

  lemma NodeResolved(f: File, k: nat, before: seq<nat>) returns (at: seq<nat>)
    requires k < |f.connects| && |before| == |Sequential(f, k)| && forall i | 0 <= i < |before| :: before[i] < k
    requires forall i, j | 0 <= i < j < |before| :: before[i] < before[j]
    requires forall i | 0 <= i < |before| :: ResolvesTo(f, before[i], Sequential(f, k)[..i], Some(Sequential(f, k)[i]))
    requires forall n: nat, i: nat | n < k && n !in before && i <= |before| && ComesAfter(before, i, n) :: ResolvesTo(f, n, Sequential(f, k)[..i], None)
    ensures |at| == |Sequential(f, k + 1)| && forall i | 0 <= i < |at| :: at[i] <= k
    ensures forall i, j | 0 <= i < j < |at| :: at[i] < at[j]
    ensures forall i | 0 <= i < |at| :: ResolvesTo(f, at[i], Sequential(f, k + 1)[..i], Some(Sequential(f, k + 1)[i]))
    ensures forall n: nat, i: nat | n <= k && n !in at && i <= |at| && ComesAfter(at, i, n) :: ResolvesTo(f, n, Sequential(f, k + 1)[..i], None)
  {
    var s, m := Sequential(f, k), |before|;
    var s' := Sequential(f, k + 1);
    var r := Resolve(f, k, s);
    assert s[..m] == s;
    if r.None? {
      at := before;
      forall n: nat, i: nat | n <= k && n !in at && i <= |at| && ComesAfter(at, i, n) ensures ResolvesTo(f, n, s'[..i], None) {
        if n == k { assert i == m; }
      }
    } else {
      at := before + [k];
      assert s' == s + [r.value];
      forall i | 0 <= i < |at| ensures ResolvesTo(f, at[i], s'[..i], Some(s'[i])) {
        assert s'[..i] == s[..i];
      }
      forall n: nat, i: nat | n <= k && n !in at && i <= |at| && ComesAfter(at, i, n) ensures ResolvesTo(f, n, s'[..i], None) {
        assert at[m] == k && n != k && i <= m;
        assert n !in before && s'[..i] == s[..i];
        assert i > 0 ==> before[i - 1] == at[i - 1];
        assert i < m ==> before[i] == at[i];
        assert ComesAfter(before, i, n);
      }
    }
  }

  // ---- every run finishes ----

  /** Until the list is through, something can go on: its own task, or the task it
      is waiting for. */
  lemma NeverStuck(f: File, s: State) returns (a: Action)
    requires Inv(f, s) && !s.main.Ended?
    ensures Enabled(f, s, a)
  {
    match s.main
    case Looping => a := if s.next < |f.connects| && !f.connects[s.next] then Spawn else Drain;
    case Draining => a := if s.tasks != [] then Pop else Resume;
    case Awaiting(j) => a := if j in s.results then Collect else RunTask(j);
  }

  function Measure(f: File, s: State): int {
    6 * (|f.connects| - s.next) + 2 * |s.tasks| + |s.running|
    + match s.main
      case Looping => 2
      case Draining => 1
      case Awaiting(_) => 2
      case Ended => 0
  }

  lemma StepMakesProgress(f: File, s: State, a: Action)
    requires Inv(f, s) && Enabled(f, s, a)
    ensures 0 <= Measure(f, Apply(f, s, a)) < Measure(f, s)
  {
    StepKeeps(f, s, a);
    if a.Spawn? || a.Resume? { assert s.next !in s.running; }
  }

  /** The state a schedule leads to, if each of its steps can be taken. */
  function After(f: File, schedule: seq<Action>): Option<State> {
    if schedule == [] then Some(INIT)
    else
      var r, a := After(f, schedule[..|schedule|-1]), schedule[|schedule|-1];
      if r.Some? && Enabled(f, r.value, a) then Some(Apply(f, r.value, a)) else None
  }

  lemma {:induction false} RunsKeep(f: File, schedule: seq<Action>)
    requires After(f, schedule).Some?
    ensures var s := After(f, schedule).value;
            Inv(f, s) && |schedule| + Measure(f, s) <= 6 * |f.connects| + 2
    decreases |schedule|
  {
    if schedule != [] {
      var rest, a := schedule[..|schedule|-1], schedule[|schedule|-1];
      RunsKeep(f, rest);
      var r := After(f, rest).value;
      StepKeeps(f, r, a);
      StepMakesProgress(f, r, a);
    }
  }

  /** Under every interleaving, while a connecting node is being resolved the items are
      exactly the results of all earlier nodes, in file order. */
  lemma ConnectFindsEarlierNodes(f: File, schedule: seq<Action>, j: nat)
    requires After(f, schedule).Some? && j < |f.connects|
    ensures var s := After(f, schedule).value;
            j in s.running && f.connects[j] ==> s.children == Sequential(f, j)
  {
    RunsKeep(f, schedule);
  }

  /** Every interleaving ends, and ends with the sequential result. */
  lemma EveryRunIsSequential(f: File, schedule: seq<Action>)
    requires After(f, schedule).Some?
    ensures |schedule| <= 6 * |f.connects| + 2
    ensures var s := After(f, schedule).value;
            if s.main.Ended? then s.children == Sequential(f, |f.connects|) else exists a :: Enabled(f, s, a)
  {
    RunsKeep(f, schedule);
    var s := After(f, schedule).value;
    if s.main.Ended? {
      EndsAsSequential(f, s);
      MeasureIsNatural(f, s);
    } else {
      MeasureIsNatural(f, s);
      var a := NeverStuck(f, s);
    }
  }

  lemma MeasureIsNatural(f: File, s: State)
    requires Inv(f, s)
    ensures Measure(f, s) >= 0
  {}

  // ---- the list's own task, whatever the others do while it waits ----

  /** `handle_node_list` as it runs: the other tasks move on only while it waits for
      one of them, and then in any order and any number. */
  class Handler {
    const f: File
    var children: seq<Child>
    var tasks: seq<nat>
    var running: set<nat>
    var results: map<nat, Option<Child>>

    constructor (f: File)
      ensures this.f == f && children == [] && tasks == [] && running == {} && results == map[]
    {
      this.f := f;
      children, tasks, running, results := [], [], {}, map[];
    }

    /** What is known with `collected` results taken and nodes up to `next` started. */
    ghost predicate Valid(collected: nat, next: nat)
      reads this
    {
      && collected <= next <= |f.connects| && children == Sequential(f, collected)
      && |tasks| == next - collected && (forall k | 0 <= k < |tasks| :: tasks[k] == collected + k)
      && (forall j | collected <= j < next :: j in running || j in results)
      && (forall j | j in running :: collected <= j < next && j !in results)
      && (forall j | j in results :: j < next && results[j] == Resolve(f, j, Sequential(f, j)))
      && (forall j | collected <= j < next && f.connects[j] :: j == collected)
    }

    /** Waits for a task; other tasks may finish before it and after it. */
    method Wait(task: nat, ghost collected: nat, ghost next: nat)
      requires Valid(collected, next) && task == collected < next
      modifies this`running, this`results
      ensures Valid(collected, next) && task in results
    {
      while task !in results
        invariant Valid(collected, next)
        decreases running
      {
        var j :| j in running;
        RunTask(j, collected, next);
      }
      while running != {}
        invariant Valid(collected, next) && task in results
        decreases running
      {
        if * { break; }
        var j :| j in running;
        RunTask(j, collected, next);
      }
    }

    method RunTask(j: nat, ghost collected: nat, ghost next: nat)
      requires Valid(collected, next) && j in running
      modifies this`running, this`results
      ensures Valid(collected, next) && running == old(running) - {j} && results == old(results)[j := Resolve(f, j, children)]
    {
      running, results := running - {j}, results[j := Resolve(f, j, children)];
    }

    method WaitForTasks(ghost collected: nat, ghost next: nat)
      requires Valid(collected, next)
      modifies this
      ensures Valid(next, next)
    {
      ghost var c := collected;
      while |tasks| > 0
        invariant collected <= c <= next && Valid(c, next)
        decreases |tasks|
      {
        var task := tasks[0];
        Wait(task, c, next);
        tasks := tasks[1..];
        var result := results[task];
        if result.Some? { children := children + [result.value]; }
        c := c + 1;
      }
    }

    /** However the tasks are scheduled, the items are those of the nodes resolved one
        after another, in file order. */
    method HandleNodeList()
      requires children == [] && tasks == [] && running == {} && results == map[]
      modifies this
      ensures children == Sequential(f, |f.connects|)
    {
      var link := 0;
      ghost var collected := 0;
      while link < |f.connects|
        invariant 0 <= link <= |f.connects| && Valid(collected, link)
      {
        if f.connects[link] {
          WaitForTasks(collected, link);
          collected := link;
        }
        tasks, running := tasks + [link], running + {link};
        link := link + 1;
      }
      WaitForTasks(collected, link);
    }
  }
}
