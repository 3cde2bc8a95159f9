/** The admission limit that nested work passes straight through
    (src/partcad/concurrency.py).

    A forest of gated calls runs on several event loops.  A call's body makes its
    nested calls and waits for nothing else.  A call is cut into the parts that run
    without an await: arriving, being admitted, finishing; the parts of different
    calls interleave in any order. */
module GateProtocol {
  import opened Wrappers
  import opened Counting

  /** A call of `run`: the loop it is made on, the call whose body makes it, and the
      limit it asks for, 0 when nothing has said. */
  datatype Call = Call(loop: nat, parent: Option<nat>, limit: nat)

  type Forest = f: seq<Call> | forall i | 0 <= i < |f| :: f[i].parent.Some? ==> f[i].parent.value < i

  datatype Phase = Idle | Waiting | Running | Finished

  datatype Semaphore = Semaphore(capacity: nat, free: nat)

  /** `admitted[i]` is the context variable as the body of call i sees it; `holds[i]`
      says that call i took a permit. */
  datatype State = State(phase: seq<Phase>, admitted: seq<bool>, holds: seq<bool>, semaphores: map<nat, Semaphore>)

  datatype Action = Arrive(i: nat) | Acquire(i: nat) | Finish(i: nat)

  function DefaultLimit(cpus: Option<nat>): nat {
    var n := if cpus.Some? && cpus.value != 0 then cpus.value else 1;
    if n > 8 then n else 8
  }

  /** The number of processors, but at least eight; unknown or none counts as one. */
  lemma DefaultIsAtLeastEight(n: nat)
    ensures DefaultLimit(None) == 8 && (n <= 8 ==> DefaultLimit(Some(n)) == 8) && (n > 8 ==> DefaultLimit(Some(n)) == n)
  {}

  function Init(f: Forest): State {
    State(seq(|f|, _ => Idle), seq(|f|, _ => false), seq(|f|, _ => false), map[])
  }

  predicate Shaped(f: Forest, s: State) {
    |s.phase| == |s.admitted| == |s.holds| == |f|
  }

  /** The context a call is made in: that of its caller's body, or a fresh one. */
  function Context(f: Forest, s: State, i: nat): bool
    requires Shaped(f, s) && i < |f|
  {
    f[i].parent.Some? && s.admitted[f[i].parent.value]
  }

  /** Look the loop's semaphore up, creating it with the limit of this, the first, arrival. */
  function WithSemaphore(f: Forest, s: State, i: nat, cpus: Option<nat>): map<nat, Semaphore>
    requires i < |f|
  {
    if f[i].loop in s.semaphores then s.semaphores
    else
      var limit := if f[i].limit != 0 then f[i].limit else DefaultLimit(cpus);
      s.semaphores[f[i].loop := Semaphore(limit, limit)]
  }

  predicate Enabled(f: Forest, s: State, a: Action) {
    && Shaped(f, s)
    && match a
    case Arrive(i) =>
      i < |f| && s.phase[i].Idle? && (f[i].parent.Some? ==> s.phase[f[i].parent.value].Running?)
    case Acquire(i) =>
      i < |f| && s.phase[i].Waiting? && f[i].loop in s.semaphores && s.semaphores[f[i].loop].free > 0
    case Finish(i) =>
      && i < |f| && s.phase[i].Running?
      && (forall j | 0 <= j < |f| && f[j].parent == Some(i) :: s.phase[j].Finished?)
      && (s.holds[i] ==> f[i].loop in s.semaphores)
  }

  /** One part of one call.  `reentrant` is false for a bare semaphore in its place. */
  function Apply(f: Forest, s: State, a: Action, reentrant: bool, cpus: Option<nat>): State
    requires Enabled(f, s, a)
  {
    match a
    case Arrive(i) =>
      if reentrant && Context(f, s, i) then s.(phase := s.phase[i := Running], admitted := s.admitted[i := true])
      else s.(phase := s.phase[i := Waiting], semaphores := WithSemaphore(f, s, i, cpus))
    case Acquire(i) =>
      var sem := s.semaphores[f[i].loop];
      State(s.phase[i := Running], s.admitted[i := true], s.holds[i := true],
            s.semaphores[f[i].loop := sem.(free := sem.free - 1)])
    case Finish(i) =>
      if s.holds[i] then
        var sem := s.semaphores[f[i].loop];
        State(s.phase[i := Finished], s.admitted[i := false], s.holds[i := false],
              s.semaphores[f[i].loop := sem.(free := sem.free + 1)])
      else s.(phase := s.phase[i := Finished])
  }

  // ---- the gate itself ----

  /** One gate and the calls that go through it; the methods are the parts of `run`
      that no other task of the loop can come in between of. */
  class ReentrantGate {
    const f: Forest
    const cpus: Option<nat>
    var phase: seq<Phase>
    var admitted: seq<bool>
    var holds: seq<bool>
    var semaphores: map<nat, Semaphore>

    constructor (f: Forest, cpus: Option<nat>)
      ensures this.f == f && this.cpus == cpus && Snapshot() == Init(f)
    {
      this.f, this.cpus := f, cpus;
      phase, admitted, holds, semaphores := seq(|f|, _ => Idle), seq(|f|, _ => false), seq(|f|, _ => false), map[];
    }

    function Snapshot(): State
      reads this
    {
      State(phase, admitted, holds, semaphores)
    }

    /** `_semaphore`. */
    method SemaphoreOf(i: nat)
      requires i < |f|
      modifies this`semaphores
      ensures semaphores == WithSemaphore(f, old(Snapshot()), i, cpus)
    {
      if f[i].loop !in semaphores {
        var limit := if f[i].limit != 0 then f[i].limit else DefaultLimit(cpus);
        semaphores := semaphores[f[i].loop := Semaphore(limit, limit)];
      }
    }

    method Enter(i: nat)
      requires Enabled(f, Snapshot(), Arrive(i))
      modifies this
      ensures Snapshot() == Apply(f, old(Snapshot()), Arrive(i), true, cpus)
    {
      if f[i].parent.Some? && admitted[f[i].parent.value] {
        phase, admitted := phase[i := Running], admitted[i := true];
      } else {
        SemaphoreOf(i);
        phase := phase[i := Waiting];
      }
    }

    method Admit(i: nat)
      requires Enabled(f, Snapshot(), Acquire(i))
      modifies this
      ensures Snapshot() == Apply(f, old(Snapshot()), Acquire(i), true, cpus)
    {
      var sem := semaphores[f[i].loop];
      semaphores := semaphores[f[i].loop := sem.(free := sem.free - 1)];
      phase, admitted, holds := phase[i := Running], admitted[i := true], holds[i := true];
    }

    method Leave(i: nat)
      requires Enabled(f, Snapshot(), Finish(i))
      modifies this
      ensures Snapshot() == Apply(f, old(Snapshot()), Finish(i), true, cpus)
    {
      phase := phase[i := Finished];
      if holds[i] {
        var sem := semaphores[f[i].loop];
        semaphores := semaphores[f[i].loop := sem.(free := sem.free + 1)];
        admitted, holds := admitted[i := false], holds[i := false];
      }
    }
  }

  // ---- what every step keeps ----

  function Holders(f: Forest, holds: seq<bool>, loop: nat): set<nat>
    requires |holds| == |f|
  {
    set i | 0 <= i < |f| && holds[i] && f[i].loop == loop
  }

  lemma TakePermit(f: Forest, holds: seq<bool>, i: nat, l: nat)
    requires |holds| == |f| && i < |f| && !holds[i]
    ensures |Holders(f, holds[i := true], l)| == |Holders(f, holds, l)| + (if l == f[i].loop then 1 else 0)
  {
    var h, h' := Holders(f, holds, l), Holders(f, holds[i := true], l);
    if l == f[i].loop {
      assert i !in h && h' == h + {i};
    } else {
      assert h' == h;
    }
  }

  lemma ReturnPermit(f: Forest, holds: seq<bool>, i: nat, l: nat)
    requires |holds| == |f| && i < |f| && holds[i]
    ensures |Holders(f, holds[i := false], l)| + (if l == f[i].loop then 1 else 0) == |Holders(f, holds, l)|
  {
    TakePermit(f, holds[i := false], i, l);
    assert holds[i := false][i := true] == holds;
  }

  predicate CallOk(f: Forest, s: State, i: nat)
    requires Shaped(f, s) && i < |f|
  {
    && (s.holds[i] <==> s.phase[i].Running? && f[i].parent.None?)
    && (s.phase[i].Running? ==> s.admitted[i])
    && (s.phase[i].Waiting? ==> f[i].parent.None?)
    && (s.phase[i].Waiting? || s.holds[i] ==> f[i].loop in s.semaphores)
    && (f[i].parent.Some? ==>
          var p := s.phase[f[i].parent.value];
          (p.Idle? || p.Waiting? ==> s.phase[i].Idle?) && (p.Finished? ==> s.phase[i].Finished?))
  }

  ghost predicate Inv(f: Forest, s: State) {
    && Shaped(f, s)
    && (forall i | 0 <= i < |f| :: CallOk(f, s, i))
    && (forall l | l in s.semaphores :: s.semaphores[l].capacity >= 1
                                        && s.semaphores[l].free + |Holders(f, s.holds, l)| == s.semaphores[l].capacity)
    && (forall l | l !in s.semaphores :: Holders(f, s.holds, l) == {})
  }

  lemma InitHolds(f: Forest)
    ensures Inv(f, Init(f))
  {}

  lemma ArriveKeepsCall(f: Forest, s: State, i: nat, j: nat, cpus: Option<nat>)
    requires Inv(f, s) && Enabled(f, s, Arrive(i)) && j < |f|
    ensures CallOk(f, Apply(f, s, Arrive(i), true, cpus), j)
  {
    assert CallOk(f, s, j) && CallOk(f, s, i);
    if f[i].parent.Some? { assert CallOk(f, s, f[i].parent.value); }
  }

  lemma ArriveKeeps(f: Forest, s: State, i: nat, cpus: Option<nat>)
    requires Inv(f, s) && Enabled(f, s, Arrive(i))
    ensures Inv(f, Apply(f, s, Arrive(i), true, cpus))
  {
    var s' := Apply(f, s, Arrive(i), true, cpus);
    forall j | 0 <= j < |f| ensures CallOk(f, s', j) { ArriveKeepsCall(f, s, i, j, cpus); }
  }

  lemma AcquireKeepsCall(f: Forest, s: State, i: nat, j: nat, cpus: Option<nat>)
    requires Inv(f, s) && Enabled(f, s, Acquire(i)) && j < |f|
    ensures CallOk(f, Apply(f, s, Acquire(i), true, cpus), j)
  {
    assert CallOk(f, s, j) && CallOk(f, s, i);
  }

  lemma AcquireKeeps(f: Forest, s: State, i: nat, cpus: Option<nat>)
    requires Inv(f, s) && Enabled(f, s, Acquire(i))
    ensures Inv(f, Apply(f, s, Acquire(i), true, cpus))
  {
    var s' := Apply(f, s, Acquire(i), true, cpus);
    assert CallOk(f, s, i);
    forall l | l in s'.semaphores
      ensures s'.semaphores[l].capacity >= 1 && s'.semaphores[l].free + |Holders(f, s'.holds, l)| == s'.semaphores[l].capacity
    {
      TakePermit(f, s.holds, i, l);
    }
    forall l | l !in s'.semaphores ensures Holders(f, s'.holds, l) == {} { TakePermit(f, s.holds, i, l); }
    forall j | 0 <= j < |f| ensures CallOk(f, s', j) { AcquireKeepsCall(f, s, i, j, cpus); }
  }

  lemma FinishKeepsCall(f: Forest, s: State, i: nat, j: nat, cpus: Option<nat>)
    requires Inv(f, s) && Enabled(f, s, Finish(i)) && j < |f|
    ensures CallOk(f, Apply(f, s, Finish(i), true, cpus), j)
  {
    assert CallOk(f, s, j) && CallOk(f, s, i);
  }

  lemma FinishKeeps(f: Forest, s: State, i: nat, cpus: Option<nat>)
    requires Inv(f, s) && Enabled(f, s, Finish(i))
    ensures Inv(f, Apply(f, s, Finish(i), true, cpus))
  {
    var s' := Apply(f, s, Finish(i), true, cpus);
    forall l | l in s'.semaphores
      ensures s'.semaphores[l].capacity >= 1 && s'.semaphores[l].free + |Holders(f, s'.holds, l)| == s'.semaphores[l].capacity
    {
      if s.holds[i] { ReturnPermit(f, s.holds, i, l); }
    }
    forall l | l !in s'.semaphores ensures Holders(f, s'.holds, l) == {} { if s.holds[i] { ReturnPermit(f, s.holds, i, l); } }
    forall j | 0 <= j < |f| ensures CallOk(f, s', j) { FinishKeepsCall(f, s, i, j, cpus); }
  }

  /** On each loop, permits held plus permits free stay the limit, and nested calls
      pass without a permit, whatever happens next. */
  lemma StepKeeps(f: Forest, s: State, a: Action, cpus: Option<nat>)
    requires Inv(f, s) && Enabled(f, s, a)
    ensures Inv(f, Apply(f, s, a, true, cpus))
  {
    match a
    case Arrive(i) => ArriveKeeps(f, s, i, cpus);
    case Acquire(i) => AcquireKeeps(f, s, i, cpus);
    case Finish(i) => FinishKeeps(f, s, i, cpus);
  }

  /** A nested call never touches a semaphore, at either end. */
  lemma NestedCallsPassThrough(f: Forest, s: State, a: Action, cpus: Option<nat>)
    requires Inv(f, s) && Enabled(f, s, a) && f[a.i].parent.Some?
    ensures Apply(f, s, a, true, cpus).semaphores == s.semaphores
    ensures !a.Acquire? && !Apply(f, s, a, true, cpus).phase[a.i].Waiting?
  {
    assert CallOk(f, s, a.i);
    assert CallOk(f, s, f[a.i].parent.value);
  }

  /** A step makes a loop's semaphore with the limit of an un-nested arrival, or leaves its limit. */
  lemma LimitStays(f: Forest, s: State, a: Action, cpus: Option<nat>, loop: nat)
    requires Inv(f, s) && Enabled(f, s, a)
    ensures var s' := Apply(f, s, a, true, cpus);
            && (loop in s.semaphores ==> loop in s'.semaphores && s'.semaphores[loop].capacity == s.semaphores[loop].capacity)
            && (loop !in s.semaphores && loop in s'.semaphores ==>
                  && a.Arrive? && f[a.i].loop == loop && f[a.i].parent.None?
                  && s'.semaphores[loop].capacity == if f[a.i].limit != 0 then f[a.i].limit else DefaultLimit(cpus))
  {
    assert CallOk(f, s, a.i);
    if f[a.i].parent.Some? { NestedCallsPassThrough(f, s, a, cpus); }
  }

  lemma RunningHoldPermits(f: Forest, s: State, loop: nat)
    requires Inv(f, s) && loop in s.semaphores
    ensures |set i | 0 <= i < |f| && s.phase[i].Running? && f[i].parent.None? && f[i].loop == loop| <= s.semaphores[loop].capacity
  {
    var running := set i | 0 <= i < |f| && s.phase[i].Running? && f[i].parent.None? && f[i].loop == loop;
    forall i | i in running ensures i in Holders(f, s.holds, loop) { assert CallOk(f, s, i); }
    forall i | i in Holders(f, s.holds, loop) ensures i in running { assert CallOk(f, s, i); }
    assert running == Holders(f, s.holds, loop);
  }

  // ---- every run finishes ----

  predicate Done(s: State) {
    forall i | 0 <= i < |s.phase| :: s.phase[i].Finished?
  }

  /** The innermost body under `i` that has not finished: its nested calls are done
      or have yet to be made. */
  lemma {:induction false} RunningBodyCanMove(f: Forest, s: State, i: nat) returns (a: Action)
    requires Inv(f, s) && i < |f| && s.phase[i].Running?
    ensures Enabled(f, s, a)
    decreases |f| - i
  {
    assert CallOk(f, s, i);
    if j :| 0 <= j < |f| && f[j].parent == Some(i) && !s.phase[j].Finished? {
      assert CallOk(f, s, j);
      if s.phase[j].Idle? {
        a := Arrive(j);
      } else {
        a := RunningBodyCanMove(f, s, j);
      }
    } else {
      a := Finish(i);
    }
  }

  /** The first call that is not finished is a root, or a call under a running body. */
  lemma {:induction false} FirstUnfinished(s: State, k: nat) returns (i: nat)
    requires k <= |s.phase| && exists j :: k <= j < |s.phase| && !s.phase[j].Finished?
    requires forall j | 0 <= j < k :: s.phase[j].Finished?
    ensures i < |s.phase| && !s.phase[i].Finished? && forall j | 0 <= j < i :: s.phase[j].Finished?
    decreases |s.phase| - k
  {
    if s.phase[k].Finished? {
      i := FirstUnfinished(s, k + 1);
    } else {
      i := k;
    }
  }

  /** No deadlock: until every call has finished, some call can take a step. */
  lemma NeverStuck(f: Forest, s: State) returns (a: Action)
    requires Inv(f, s) && !Done(s)
    ensures Enabled(f, s, a)
  {
    if r :| 0 <= r < |f| && s.phase[r].Running? {
      a := RunningBodyCanMove(f, s, r);
    } else {
      var i := FirstUnfinished(s, 0);
      assert CallOk(f, s, i);
      if s.phase[i].Idle? {
        a := Arrive(i);
      } else {
        var l := f[i].loop;
        forall j | 0 <= j < |f| ensures !s.holds[j] { assert CallOk(f, s, j); }
        assert Holders(f, s.holds, l) == {};
        a := Acquire(i);
      }
    }
  }

  function Left(p: Phase): nat {
    match p
    case Idle => 3
    case Waiting => 2
    case Running => 1
    case Finished => 0
  }

  function Measure(s: State): nat { TotalLeft(s.phase, Left) }

  lemma StepMakesProgress(f: Forest, s: State, a: Action, cpus: Option<nat>)
    requires Inv(f, s) && Enabled(f, s, a)
    ensures Measure(Apply(f, s, a, true, cpus)) < Measure(s)
  {
    var s' := Apply(f, s, a, true, cpus);
    assert s'.phase == s.phase[a.i := s'.phase[a.i]];
    OneMoved(s.phase, Left, a.i, s'.phase[a.i]);
  }

  /** The state a schedule leads to, if each of its steps can be taken. */
  function After(f: Forest, schedule: seq<Action>, reentrant: bool, cpus: Option<nat>): Option<State> {
    if schedule == [] then Some(Init(f))
    else
      var r, a := After(f, schedule[..|schedule|-1], reentrant, cpus), schedule[|schedule|-1];
      if r.Some? && Enabled(f, r.value, a) then Some(Apply(f, r.value, a, reentrant, cpus)) else None
  }

  /** Under every schedule the invariant holds, and each step brings the end nearer. */
  lemma {:induction false} RunsKeep(f: Forest, schedule: seq<Action>, cpus: Option<nat>)
    requires After(f, schedule, true, cpus).Some?
    ensures var s := After(f, schedule, true, cpus).value;
            Inv(f, s) && |schedule| + Measure(s) <= 3 * |f|
    decreases |schedule|
  {
    if schedule == [] {
      InitHolds(f);
      TotalIsBounded(Init(f).phase, Left, 3);
    } else {
      var rest, a := schedule[..|schedule|-1], schedule[|schedule|-1];
      RunsKeep(f, rest, cpus);
      var r := After(f, rest, true, cpus).value;
      StepKeeps(f, r, a, cpus);
      StepMakesProgress(f, r, a, cpus);
    }
  }

  /** Under every schedule, on each loop, the permits held and the free ones make up the
      limit that the loop's first arrival fixed, and only un-nested calls hold one. */
  lemma PermitsBalance(f: Forest, schedule: seq<Action>, cpus: Option<nat>, loop: nat)
    requires After(f, schedule, true, cpus).Some? && loop in After(f, schedule, true, cpus).value.semaphores
    ensures var s := After(f, schedule, true, cpus).value;
            && |s.holds| == |f|
            && |Holders(f, s.holds, loop)| + s.semaphores[loop].free == s.semaphores[loop].capacity >= 1
            && forall i | i in Holders(f, s.holds, loop) :: i < |f| && f[i].parent.None?
  {
    RunsKeep(f, schedule, cpus);
    var s := After(f, schedule, true, cpus).value;
    forall i | i in Holders(f, s.holds, loop) ensures i < |f| && f[i].parent.None? { assert CallOk(f, s, i); }
  }

  /** The un-nested call that arrived on the loop first. */
  function FirstArrival(f: Forest, schedule: seq<Action>, loop: nat): (r: Option<nat>)
    ensures r.Some? ==> r.value < |f|
  {
    if schedule == [] then None
    else
      var before, a := FirstArrival(f, schedule[..|schedule|-1], loop), schedule[|schedule|-1];
      if before.Some? then before
      else if a.Arrive? && a.i < |f| && f[a.i].loop == loop && f[a.i].parent.None? then Some(a.i)
      else None
  }

  /** After any schedule a loop has a semaphore exactly if an un-nested call has arrived
      on it, and its limit is what the first such call asked for, or the default. */
  lemma {:induction false} LimitIsFixedByFirstArrival(f: Forest, schedule: seq<Action>, cpus: Option<nat>, loop: nat)
    requires After(f, schedule, true, cpus).Some?
    ensures var s, first := After(f, schedule, true, cpus).value, FirstArrival(f, schedule, loop);
            && (loop in s.semaphores <==> first.Some?)
            && (first.Some? ==>
                  s.semaphores[loop].capacity == if f[first.value].limit != 0 then f[first.value].limit else DefaultLimit(cpus))
    decreases |schedule|
  {
    if schedule != [] {
      var rest, a := schedule[..|schedule|-1], schedule[|schedule|-1];
      LimitIsFixedByFirstArrival(f, rest, cpus, loop);
      RunsKeep(f, rest, cpus);
      var r := After(f, rest, true, cpus).value;
      LimitStays(f, r, a, cpus, loop);
      if a.Arrive? && f[a.i].parent.None? { assert loop == f[a.i].loop ==> loop in Apply(f, r, a, true, cpus).semaphores; }
    }
  }

  /** After any schedule no more than the limit of un-nested bodies run on a loop, and no
      nested call is waiting or holds a permit. */
  lemma AdmitsAtMostLimit(f: Forest, schedule: seq<Action>, cpus: Option<nat>, loop: nat)
    requires After(f, schedule, true, cpus).Some? && loop in After(f, schedule, true, cpus).value.semaphores
    ensures var s := After(f, schedule, true, cpus).value;
            && Shaped(f, s)
            && |set i | 0 <= i < |f| && s.phase[i].Running? && f[i].parent.None? && f[i].loop == loop| <= s.semaphores[loop].capacity
            && forall i | 0 <= i < |f| && f[i].parent.Some? :: !s.phase[i].Waiting? && !s.holds[i]
  {
    RunsKeep(f, schedule, cpus);
    var s := After(f, schedule, true, cpus).value;
    RunningHoldPermits(f, s, loop);
    forall i | 0 <= i < |f| && f[i].parent.Some? ensures !s.phase[i].Waiting? && !s.holds[i] { assert CallOk(f, s, i); }
  }

  /** No run takes more than three steps per call, and one that can go no further has
      finished every call. */
  lemma EveryRunFinishes(f: Forest, schedule: seq<Action>, cpus: Option<nat>)
    requires After(f, schedule, true, cpus).Some?
    ensures |schedule| <= 3 * |f|
    ensures var s := After(f, schedule, true, cpus).value;
            Done(s) || exists a :: Enabled(f, s, a)
  {
    RunsKeep(f, schedule, cpus);
    var s := After(f, schedule, true, cpus).value;
    if !Done(s) { var a := NeverStuck(f, s); }
  }

  // ---- a bare semaphore in the gate's place ----

  /** n callers at limit n, and for each a nested call that its body waits for. */
  function Nested(loop: nat, n: nat): (f: Forest)
    ensures |f| == 2 * n
    ensures forall i | 0 <= i < n :: f[i] == Call(loop, None, n) && f[n + i] == Call(loop, Some(i), n)
  {
    seq(2 * n, i requires 0 <= i < 2 * n => if i < n then Call(loop, None, n) else Call(loop, Some(i - n), n))
  }

  /** The first k callers run, and the rest have yet to arrive. */
  ghost predicate Admitted(loop: nat, n: nat, k: nat, s: State) {
    && k <= n && |s.phase| == |s.admitted| == |s.holds| == 2 * n
    && (forall i | 0 <= i < 2 * n :: s.phase[i] == if i < k then Running else Idle)
    && (k > 0 ==> loop in s.semaphores)
    && (loop in s.semaphores ==> s.semaphores[loop] == Semaphore(n, n - k))
  }

  /** All callers run, and the first k of their nested calls have arrived and wait. */
  ghost predicate AllInside(loop: nat, n: nat, k: nat, s: State) {
    && k <= n && |s.phase| == |s.admitted| == |s.holds| == 2 * n
    && (forall i | 0 <= i < n :: s.phase[i].Running?)
    && (forall j | n <= j < 2 * n :: s.phase[j] == if j < n + k then Waiting else Idle)
    && loop in s.semaphores && s.semaphores[loop].free == 0
  }

  lemma ThenBare(f: Forest, schedule: seq<Action>, s: State, a: Action, cpus: Option<nat>) returns (longer: seq<Action>, t: State)
    requires After(f, schedule, false, cpus) == Some(s) && Enabled(f, s, a)
    ensures After(f, longer, false, cpus) == Some(t) && t == Apply(f, s, a, false, cpus)
  {
    longer, t := schedule + [a], Apply(f, s, a, false, cpus);
    assert longer[..|longer|-1] == schedule;
  }

  lemma {:induction false} AdmitCallers(loop: nat, n: nat, k: nat, cpus: Option<nat>) returns (schedule: seq<Action>, s: State)
    requires 1 <= n && k <= n
    ensures After(Nested(loop, n), schedule, false, cpus) == Some(s) && Admitted(loop, n, k, s)
  {
    var f := Nested(loop, n);
    if k == 0 {
      schedule, s := [], Init(f);
    } else {
      schedule, s := AdmitCallers(loop, n, k - 1, cpus);
      schedule, s := ThenBare(f, schedule, s, Arrive(k - 1), cpus);
      schedule, s := ThenBare(f, schedule, s, Acquire(k - 1), cpus);
    }
  }

  lemma {:induction false} NestedArrive(loop: nat, n: nat, k: nat, cpus: Option<nat>) returns (schedule: seq<Action>, s: State)
    requires 1 <= n && k <= n
    ensures After(Nested(loop, n), schedule, false, cpus) == Some(s) && AllInside(loop, n, k, s)
  {
    if k == 0 {
      schedule, s := AdmitCallers(loop, n, n, cpus);
    } else {
      var f, i := Nested(loop, n), k - 1;
      schedule, s := NestedArrive(loop, n, i, cpus);
      assert f[n + i] == Call(loop, Some(i), n);
      schedule, s := ThenBare(f, schedule, s, Arrive(n + i), cpus);
    }
  }

  lemma NothingCanMove(loop: nat, n: nat, s: State, a: Action)
    requires 1 <= n && AllInside(loop, n, n, s)
    ensures !Enabled(Nested(loop, n), s, a)
  {
    var f := Nested(loop, n);
    if a.i < n {
      assert f[n + a.i].parent == Some(a.i) && s.phase[n + a.i].Waiting?;
    } else if a.i < 2 * n {
      var i := a.i - n;
      assert f[n + i] == Call(loop, Some(i), n) && s.phase[n + i].Waiting?;
    }
  }

  /** A bare semaphore counts a nested call as a new arrival.  Whatever the limit n, n
      callers that each wait for a nested call hold all its permits, and for good. */
  lemma BareSemaphoreDeadlocks(loop: nat, n: nat, cpus: Option<nat>) returns (schedule: seq<Action>)
    requires n >= 1
    ensures After(Nested(loop, n), schedule, false, cpus).Some?
    ensures var s := After(Nested(loop, n), schedule, false, cpus).value;
            !Done(s) && forall a :: !Enabled(Nested(loop, n), s, a)
  {
    var s;
    schedule, s := NestedArrive(loop, n, n, cpus);
    assert s.phase[0].Running?;
    forall a ensures !Enabled(Nested(loop, n), s, a) { NothingCanMove(loop, n, s, a); }
  }
}
