/** A cache tier's client, shared by the requests of one event loop
    (src/partcad/cache_backend.py, PooledCacheBackend).

    The state record of a loop - lock, client, users - is found or made by `_guard`
    and then held by the request, so a record can outlive its entry in the table.  A
    request is cut where it is suspended, and the parts of different requests interleave
    in any order.  The lock is asyncio's: a free one that nobody waits for is taken
    without suspending, and those that wait get it in the order they came.  Opening and
    closing suspend the request.  A body may end by raising; requests are not cancelled. */
module PooledClient {
  import opened Wrappers
  import opened Counting

  /** `lock` is who is suspended with the lock held, `waiting` who waits for it, the
      first of them next. */
  datatype Record = Record(loop: nat, lock: Option<nat>, waiting: seq<nat>, client: Option<nat>, users: nat)

  /** Entering and Exiting wait for the lock; Opening holds it. */
  datatype Phase =
    | Idle
    | Entering(record: nat)
    | Opening(record: nat)
    | InBody(record: nat, client: nat)
    | Exiting(record: nat, client: nat)
    | Closing(client: nat)
    | Done

  /** `openedFor[c]` is the record client c was opened for, `closes[c]` how many times it
      has been closed. */
  datatype State = State(
    phase: seq<Phase>,
    perLoop: map<nat, nat>,
    records: seq<Record>,
    openedFor: seq<nat>,
    closes: seq<nat>)

  /** The parts of a request.  Arrive, LeaveBody and Resume run on under the lock if they
      get it. */
  datatype Action =
    | Arrive(q: nat)
    | Opened(q: nat)
    | OpenFails(q: nat)
    | LeaveBody(q: nat)
    | Resume(q: nat)
    | Close(q: nat)

  /** `loops[q]` is the loop request q runs on. */
  function Init(loops: seq<nat>): State {
    State(seq(|loops|, _ => Idle), map[], [], [], [])
  }

  predicate Waits(p: Phase, r: nat) { (p.Entering? || p.Exiting?) && p.record == r }

  /** The lock can be had without waiting. */
  predicate Free(rec: Record) { rec.lock.None? && rec.waiting == [] }

  predicate Enabled(loops: seq<nat>, s: State, a: Action) {
    && |s.phase| == |loops| && a.q < |loops|
    && var p := s.phase[a.q];
    match a
    case Arrive(q) => p.Idle? && (loops[q] in s.perLoop ==> s.perLoop[loops[q]] < |s.records|)
    case Opened(_) => p.Opening? && p.record < |s.records|
    case OpenFails(_) => p.Opening? && p.record < |s.records|
    case LeaveBody(_) => p.InBody? && p.record < |s.records| && s.records[p.record].users > 0
    case Resume(q) =>
      && (p.Entering? || p.Exiting?) && p.record < |s.records|
      && var rec := s.records[p.record];
      rec.lock.None? && rec.waiting != [] && rec.waiting[0] == q && (p.Exiting? ==> rec.users > 0)
    case Close(_) => p.Closing? && p.client < |s.closes|
  }

  /** `_guard`: the loop has a record. */
  function Guarded(s: State, l: nat): State {
    if l in s.perLoop then s
    else s.(perLoop := s.perLoop[l := |s.records|], records := s.records + [Record(l, None, [], None, 0)])
  }

  function Queued(s: State, q: nat, r: nat, p: Phase): State
    requires q < |s.phase| && r < |s.records|
  {
    s.(phase := s.phase[q := p], records := s.records[r := s.records[r].(waiting := s.records[r].waiting + [q])])
  }

  /** With the lock, `rest` still waiting for it: in, or on to open the client. */
  function CountedIn(s: State, q: nat, r: nat, rest: seq<nat>): State
    requires q < |s.phase| && r < |s.records|
  {
    var rec := s.records[r].(waiting := rest);
    if rec.client.None? then
      s.(phase := s.phase[q := Opening(r)], records := s.records[r := rec.(lock := Some(q))])
    else
      s.(phase := s.phase[q := InBody(r, rec.client.value)], records := s.records[r := rec.(users := rec.users + 1)])
  }

  /** Whether the request about to leave is the last one of its record. */
  predicate LastOut(rec: Record) { rec.users == 1 && rec.client.Some? }

  /** With the lock: out, the last one taking the client with it. */
  function CountedOut(s: State, q: nat, r: nat, rest: seq<nat>): State
    requires q < |s.phase| && r < |s.records| && s.records[r].users > 0
  {
    var rec := s.records[r].(waiting := rest);
    if LastOut(rec) then
      s.(phase := s.phase[q := Closing(rec.client.value)], perLoop := s.perLoop - {rec.loop},
         records := s.records[r := rec.(client := None, users := 0)])
    else
      s.(phase := s.phase[q := Done], records := s.records[r := rec.(users := rec.users - 1)])
  }

  function Apply(loops: seq<nat>, s: State, a: Action): State
    requires Enabled(loops, s, a)
  {
    var p := s.phase[a.q];
    match a
    case Arrive(q) =>
      var g := Guarded(s, loops[q]);
      var r := g.perLoop[loops[q]];
      if Free(g.records[r]) then CountedIn(g, q, r, []) else Queued(g, q, r, Entering(r))
    case Opened(q) =>
      var rec, c := s.records[p.record], |s.openedFor|;
      s.(phase := s.phase[q := InBody(p.record, c)],
         records := s.records[p.record := rec.(lock := None, client := Some(c), users := rec.users + 1)],
         openedFor := s.openedFor + [p.record], closes := s.closes + [0])
    case OpenFails(q) =>
      s.(phase := s.phase[q := Done], records := s.records[p.record := s.records[p.record].(lock := None)])
    case LeaveBody(q) =>
      if Free(s.records[p.record]) then CountedOut(s, q, p.record, [])
      else Queued(s, q, p.record, Exiting(p.record, p.client))
    case Resume(q) =>
      var rest := s.records[p.record].waiting[1..];
      if p.Entering? then CountedIn(s, q, p.record, rest) else CountedOut(s, q, p.record, rest)
    case Close(q) => s.(phase := s.phase[q := Done], closes := s.closes[p.client := s.closes[p.client] + 1])
  }

  // ---- the tier itself ----

  /** One tier and the requests that go through it; the methods are the parts of
      `connected` that no other task of the loop can come in between of, and what they
      are made of. */
  class PooledCacheBackend {
    const loops: seq<nat>
    var phase: seq<Phase>
    var perLoop: map<nat, nat>
    var records: seq<Record>
    var openedFor: seq<nat>
    var closes: seq<nat>

    constructor (loops: seq<nat>)
      ensures this.loops == loops && Snapshot() == Init(loops)
    {
      this.loops := loops;
      phase, perLoop, records, openedFor, closes := seq(|loops|, _ => Idle), map[], [], [], [];
    }

    function Snapshot(): State
      reads this
    {
      State(phase, perLoop, records, openedFor, closes)
    }

    /** `_guard`: the loop's record, made if there is none. */
    method GuardFor(q: nat) returns (r: nat)
      requires Enabled(loops, Snapshot(), Arrive(q))
      modifies this
      ensures Snapshot() == Guarded(old(Snapshot()), loops[q])
      ensures loops[q] in perLoop && r == perLoop[loops[q]] < |records|
    {
      if loops[q] !in perLoop {
        perLoop := perLoop[loops[q] := |records|];
        records := records + [Record(loops[q], None, [], None, 0)];
      }
      r := perLoop[loops[q]];
    }

    method Wait(q: nat, r: nat, p: Phase)
      requires q < |phase| && r < |records|
      modifies this
      ensures Snapshot() == Queued(old(Snapshot()), q, r, p)
    {
      records := records[r := records[r].(waiting := records[r].waiting + [q])];
      phase := phase[q := p];
    }

    /** Under the lock, up to the await of `_open` if there is no client. */
    method CountIn(q: nat, r: nat, rest: seq<nat>)
      requires q < |phase| && r < |records|
      modifies this
      ensures Snapshot() == CountedIn(old(Snapshot()), q, r, rest)
    {
      var state := records[r].(waiting := rest);
      if state.client.None? {
        records, phase := records[r := state.(lock := Some(q))], phase[q := Opening(r)];
      } else {
        records, phase := records[r := state.(users := state.users + 1)], phase[q := InBody(r, state.client.value)];
      }
    }

    /** Under the lock again: the last user takes the client with it to close. */
    method CountOut(q: nat, r: nat, rest: seq<nat>)
      requires q < |phase| && r < |records| && records[r].users > 0
      modifies this
      ensures Snapshot() == CountedOut(old(Snapshot()), q, r, rest)
    {
      var state := records[r].(waiting := rest, users := records[r].users - 1);
      var client := if state.users == 0 then state.client else None;
      if client.Some? {
        state := state.(client := None);
        perLoop := perLoop - {state.loop};
        phase := phase[q := Closing(client.value)];
      } else {
        phase := phase[q := Done];
      }
      records := records[r := state];
    }

    method Connect(q: nat)
      requires Enabled(loops, Snapshot(), Arrive(q))
      modifies this
      ensures Snapshot() == Apply(loops, old(Snapshot()), Arrive(q))
    {
      var r := GuardFor(q);
      if Free(records[r]) { CountIn(q, r, []); } else { Wait(q, r, Entering(r)); }
    }

    method OpenReturns(q: nat)
      requires Enabled(loops, Snapshot(), Opened(q))
      modifies this
      ensures Snapshot() == Apply(loops, old(Snapshot()), Opened(q))
    {
      var r, client := phase[q].record, |openedFor|;
      openedFor, closes := openedFor + [r], closes + [0];
      records := records[r := records[r].(client := Some(client), users := records[r].users + 1)];
      records := records[r := records[r].(lock := None)];
      phase := phase[q := InBody(r, client)];
    }

    method Disconnect(q: nat)
      requires Enabled(loops, Snapshot(), LeaveBody(q))
      modifies this
      ensures Snapshot() == Apply(loops, old(Snapshot()), LeaveBody(q))
    {
      var r := phase[q].record;
      if Free(records[r]) { CountOut(q, r, []); } else { Wait(q, r, Exiting(r, phase[q].client)); }
    }

    /** The lock has come to the first that waits for it. */
    method GetsLock(q: nat)
      requires Enabled(loops, Snapshot(), Resume(q))
      modifies this
      ensures Snapshot() == Apply(loops, old(Snapshot()), Resume(q))
    {
      var r := phase[q].record;
      var rest := records[r].waiting[1..];
      if phase[q].Entering? { CountIn(q, r, rest); } else { CountOut(q, r, rest); }
    }
  }

  // ---- what every step keeps ----

  /** The request is in its body, or out of it and not yet counted out. */
  predicate Uses(p: Phase, r: nat) {
    (p.InBody? || p.Exiting?) && p.record == r
  }

  function Users(phase: seq<Phase>, r: nat): set<nat> {
    set q | 0 <= q < |phase| && Uses(phase[q], r)
  }

  predicate Attached(p: Phase) { p.Entering? || p.Opening? || p.InBody? || p.Exiting? }

  predicate RequestOk(loops: seq<nat>, s: State, q: nat)
    requires |s.phase| == |loops| && |s.openedFor| == |s.closes| && q < |loops|
  {
    var p := s.phase[q];
    && (Attached(p) ==> p.record < |s.records| && s.records[p.record].loop == loops[q])
    && (p.Entering? || p.Exiting? ==> q in s.records[p.record].waiting)
    && (p.Opening? ==> s.records[p.record].lock == Some(q))
    // Nobody holds a client that is closed or about to be.
    && (p.InBody? || p.Exiting? ==> s.records[p.record].client == Some(p.client))
    && (p.Closing? ==> p.client < |s.openedFor| && s.closes[p.client] == 0 && s.openedFor[p.client] < |s.records|
                       && s.records[s.openedFor[p.client]].client != Some(p.client))
  }

  predicate QueueOk(phase: seq<Phase>, waiting: seq<nat>, r: nat) {
    && (forall i | 0 <= i < |waiting| :: waiting[i] < |phase| && Waits(phase[waiting[i]], r))
    && (forall i, j | 0 <= i < j < |waiting| :: waiting[i] != waiting[j])
  }

  ghost predicate RecordOk(s: State, r: nat)
    requires r < |s.records| && |s.openedFor| == |s.closes|
  {
    var rec := s.records[r];
    && QueueOk(s.phase, rec.waiting, r)
    && rec.users == |Users(s.phase, r)|
    && (rec.client.Some? <==> rec.users > 0)
    && (rec.lock.Some? ==> rec.lock.value < |s.phase| && s.phase[rec.lock.value] == Opening(r) && rec.client.None?)
    && (rec.client.Some? ==> rec.client.value < |s.openedFor| && s.openedFor[rec.client.value] == r && s.closes[rec.client.value] == 0)
  }

  predicate BeingClosed(s: State, c: nat) {
    exists q | 0 <= q < |s.phase| :: s.phase[q] == Closing(c)
  }

  /** A client is in use, being closed, or closed - once. */
  predicate ClientOk(s: State, c: nat)
    requires c < |s.openedFor| == |s.closes|
  {
    && s.openedFor[c] < |s.records| && s.closes[c] <= 1
    && (s.closes[c] == 0 ==> s.records[s.openedFor[c]].client == Some(c) || BeingClosed(s, c))
  }

  ghost predicate Inv(loops: seq<nat>, s: State) {
    && |s.phase| == |loops| && |s.openedFor| == |s.closes|
    && (forall c | 0 <= c < |s.openedFor| :: ClientOk(s, c))
    && (forall q | 0 <= q < |loops| :: RequestOk(loops, s, q))
    && (forall r | 0 <= r < |s.records| :: RecordOk(s, r))
    && (forall l | l in s.perLoop :: s.perLoop[l] < |s.records| && s.records[s.perLoop[l]].loop == l)
    && (forall q, u | 0 <= q < u < |loops| && s.phase[q].Closing? && s.phase[u].Closing? :: s.phase[q] != s.phase[u])
  }

  lemma InitHolds(loops: seq<nat>)
    ensures Inv(loops, Init(loops))
  {}

  lemma JoinUsers(phase: seq<Phase>, q: nat, p: Phase, r: nat)
    requires q < |phase|
    ensures |Users(phase[q := p], r)| == |Users(phase, r)| - (if Uses(phase[q], r) then 1 else 0) + (if Uses(p, r) then 1 else 0)
  {
    var u, u' := Users(phase, r), Users(phase[q := p], r);
    if Uses(phase[q], r) {
      if Uses(p, r) { assert u' == u; } else { assert u' == u - {q}; }
    } else {
      if Uses(p, r) { assert u' == u + {q}; } else { assert u' == u; }
    }
  }

  /** A record that nobody knows of yet changes nothing. */
  lemma GuardedKeeps(loops: seq<nat>, s: State, l: nat)
    requires Inv(loops, s)
    ensures Inv(loops, Guarded(s, l))
  {
    var g := Guarded(s, l);
    forall q | 0 <= q < |loops| ensures RequestOk(loops, g, q) { assert RequestOk(loops, s, q); }
    forall c | 0 <= c < |g.openedFor| ensures ClientOk(g, c) { assert ClientOk(s, c); }
    forall r | 0 <= r < |g.records| ensures RecordOk(g, r) {
      if r < |s.records| {
        assert RecordOk(s, r);
      } else {
        forall q | 0 <= q < |loops| ensures !Uses(g.phase[q], r) { assert RequestOk(loops, s, q); }
        assert Users(g.phase, r) == {};
      }
    }
  }

  /** q is free to work on record r: it is not in the queue, or was the first there; the
      others that wait are `rest`. */
  predicate HasTurn(s: State, q: nat, r: nat, rest: seq<nat>)
    requires q < |s.phase| && r < |s.records|
  {
    var waiting := s.records[r].waiting;
    if s.phase[q].Entering? || s.phase[q].Exiting? then s.phase[q].record == r && waiting != [] && waiting[0] == q && rest == waiting[1..]
    else rest == waiting
  }

  /** q has moved within record r, which is as it was but for its queue, lock and users. */
  lemma OthersKept(loops: seq<nat>, s: State, s': State, q: nat, r: nat, u: nat)
    requires Inv(loops, s) && q < |loops| && u < |loops| && u != q && r < |s.records|
    requires |s'.phase| == |loops| && s'.phase == s.phase[q := s'.phase[q]] && s'.openedFor == s.openedFor && s'.closes == s.closes
    requires |s'.records| == |s.records| && s'.records == s.records[r := s'.records[r]] && s'.records[r].loop == s.records[r].loop
    requires u in s.records[r].waiting ==> u in s'.records[r].waiting
    requires s'.records[r].lock == s.records[r].lock || s.phase[u] != Opening(r)
    requires s'.records[r].client == s.records[r].client || (s'.records[r].client.None? && !Uses(s.phase[u], r))
    ensures RequestOk(loops, s', u)
  {
    assert RequestOk(loops, s, u);
  }

  lemma OtherRecordKept(loops: seq<nat>, s: State, s': State, q: nat, r: nat, t: nat)
    requires Inv(loops, s) && q < |loops| && r < |s.records| && t < |s.records| && t != r
    requires |s'.phase| == |loops| && s'.phase == s.phase[q := s'.phase[q]] && s'.openedFor == s.openedFor && s'.closes == s.closes
    requires |s'.records| == |s.records| && s'.records == s.records[r := s'.records[r]]
    requires Attached(s.phase[q]) ==> s.phase[q].record == r
    requires Attached(s'.phase[q]) ==> s'.phase[q].record == r
    ensures RecordOk(s', t)
  {
    assert RecordOk(s, t);
    JoinUsers(s.phase, q, s'.phase[q], t);
  }

  lemma QueuedKeeps(loops: seq<nat>, s: State, q: nat, r: nat, p: Phase)
    requires Inv(loops, s) && q < |loops| && r < |s.records| && s.records[r].loop == loops[q]
    requires if s.phase[q].InBody? then s.phase[q].record == r && p == Exiting(r, s.phase[q].client) else s.phase[q].Idle? && p == Entering(r)
    ensures Inv(loops, Queued(s, q, r, p))
  {
    var s' := Queued(s, q, r, p);
    assert RecordOk(s, r) && RequestOk(loops, s, q);
    forall u | 0 <= u < |loops| && u != q ensures RequestOk(loops, s', u) { OthersKept(loops, s, s', q, r, u); }
    forall t | 0 <= t < |s.records| && t != r ensures RecordOk(s', t) { OtherRecordKept(loops, s, s', q, r, t); }
    JoinUsers(s.phase, q, p, r);
    forall c | 0 <= c < |s'.openedFor| ensures ClientOk(s', c) { StaysClosing(loops, s, s', q, c); }
  }

  lemma StaysClosing(loops: seq<nat>, s: State, s': State, q: nat, c: nat)
    requires Inv(loops, s) && q < |loops| && !s.phase[q].Closing? && c < |s.openedFor|
    requires |s'.phase| == |loops| && s'.phase == s.phase[q := s'.phase[q]] && s'.openedFor == s.openedFor && s'.closes == s.closes
    requires |s'.records| == |s.records|
    requires var r := s.openedFor[c];
             r < |s.records| && s.records[r].client == Some(c) ==> s'.records[r].client == Some(c) || s'.phase[q] == Closing(c)
    ensures ClientOk(s', c)
  {
    assert ClientOk(s, c);
    SameClosing(s, s', q, c);
    if s'.phase[q] == Closing(c) { assert BeingClosed(s', c); }
  }

  lemma CountedInKeeps(loops: seq<nat>, s: State, q: nat, r: nat, rest: seq<nat>)
    requires Inv(loops, s) && q < |loops| && r < |s.records| && s.records[r].loop == loops[q] && s.records[r].lock.None?
    requires (s.phase[q].Idle? || s.phase[q] == Entering(r)) && HasTurn(s, q, r, rest)
    ensures Inv(loops, CountedIn(s, q, r, rest))
  {
    var s' := CountedIn(s, q, r, rest);
    assert RecordOk(s, r) && RequestOk(loops, s, q);
    forall u | 0 <= u < |loops| && u != q ensures RequestOk(loops, s', u) {
      assert RequestOk(loops, s, u);
      OthersKept(loops, s, s', q, r, u);
    }
    forall t | 0 <= t < |s.records| && t != r ensures RecordOk(s', t) { OtherRecordKept(loops, s, s', q, r, t); }
    JoinUsers(s.phase, q, s'.phase[q], r);
    forall c | 0 <= c < |s'.openedFor| ensures ClientOk(s', c) { StaysClosing(loops, s, s', q, c); }
  }

  lemma CountedOutKeeps(loops: seq<nat>, s: State, q: nat, r: nat, rest: seq<nat>)
    requires Inv(loops, s) && q < |loops| && r < |s.records| && s.records[r].lock.None? && s.records[r].users > 0
    requires Uses(s.phase[q], r) && HasTurn(s, q, r, rest)
    ensures Inv(loops, CountedOut(s, q, r, rest))
  {
    var s' := CountedOut(s, q, r, rest);
    assert RecordOk(s, r) && RequestOk(loops, s, q);
    forall u | 0 <= u < |loops| && u != q ensures RequestOk(loops, s', u) {
      assert RequestOk(loops, s, u);
      if LastOut(s.records[r]) { OnlyUser(loops, s, q, r, u); }
      OthersKept(loops, s, s', q, r, u);
    }
    forall t | 0 <= t < |s.records| && t != r ensures RecordOk(s', t) { OtherRecordKept(loops, s, s', q, r, t); }
    JoinUsers(s.phase, q, s'.phase[q], r);
    forall c | 0 <= c < |s'.openedFor| ensures ClientOk(s', c) { StaysClosing(loops, s, s', q, c); }
    forall u, v | 0 <= u < v < |loops| && s'.phase[u].Closing? && s'.phase[v].Closing?
      ensures s'.phase[u] != s'.phase[v]
    {
      assert RequestOk(loops, s, u) && RequestOk(loops, s, v);
    }
  }

  lemma OnlyUser(loops: seq<nat>, s: State, q: nat, r: nat, u: nat)
    requires Inv(loops, s) && q < |loops| && u < |loops| && r < |s.records| && s.records[r].users == 1
    requires Uses(s.phase[q], r) && u != q
    ensures !Uses(s.phase[u], r)
  {
    assert RecordOk(s, r);
    if Uses(s.phase[u], r) {
      assert {q, u} <= Users(s.phase, r);
      AtLeastTwo(Users(s.phase, r), q, u);
    }
  }

  lemma OpenedRecordKept(loops: seq<nat>, s: State, q: nat, t: nat)
    requires Inv(loops, s) && Enabled(loops, s, Opened(q)) && t < |s.records|
    ensures RecordOk(Apply(loops, s, Opened(q)), t)
  {
    assert RecordOk(s, t) && RequestOk(loops, s, q);
    JoinUsers(s.phase, q, InBody(s.phase[q].record, |s.openedFor|), t);
  }

  lemma OpenedKeeps(loops: seq<nat>, s: State, q: nat)
    requires Inv(loops, s) && Enabled(loops, s, Opened(q))
    ensures Inv(loops, Apply(loops, s, Opened(q)))
  {
    var s', r := Apply(loops, s, Opened(q)), s.phase[q].record;
    assert RecordOk(s, r) && RequestOk(loops, s, q);
    forall u | 0 <= u < |loops| ensures RequestOk(loops, s', u) { assert RequestOk(loops, s, u); }
    forall t | 0 <= t < |s.records| ensures RecordOk(s', t) { OpenedRecordKept(loops, s, q, t); }
    forall c | 0 <= c < |s.openedFor| ensures ClientOk(s', c) {
      assert ClientOk(s, c);
      assert BeingClosed(s, c) ==> BeingClosed(s', c) by { SameClosing(s, s', q, c); }
    }
  }

  lemma SameClosing(s: State, s': State, q: nat, c: nat)
    requires q < |s.phase| == |s'.phase| && s'.phase == s.phase[q := s'.phase[q]] && s.phase[q] != Closing(c)
    ensures BeingClosed(s, c) ==> BeingClosed(s', c)
  {
    if BeingClosed(s, c) {
      var u :| 0 <= u < |s.phase| && s.phase[u] == Closing(c);
      assert s'.phase[u] == Closing(c);
    }
  }

  lemma OpenFailsKeeps(loops: seq<nat>, s: State, q: nat)
    requires Inv(loops, s) && Enabled(loops, s, OpenFails(q))
    ensures Inv(loops, Apply(loops, s, OpenFails(q)))
  {
    var s', r := Apply(loops, s, OpenFails(q)), s.phase[q].record;
    assert RecordOk(s, r) && RequestOk(loops, s, q);
    forall u | 0 <= u < |loops| && u != q ensures RequestOk(loops, s', u) {
      assert RequestOk(loops, s, u);
      OthersKept(loops, s, s', q, r, u);
    }
    forall t | 0 <= t < |s.records| && t != r ensures RecordOk(s', t) { OtherRecordKept(loops, s, s', q, r, t); }
    JoinUsers(s.phase, q, Done, r);
    forall c | 0 <= c < |s'.openedFor| ensures ClientOk(s', c) { StaysClosing(loops, s, s', q, c); }
  }

  lemma CloseKeeps(loops: seq<nat>, s: State, q: nat)
    requires Inv(loops, s) && Enabled(loops, s, Close(q))
    ensures Inv(loops, Apply(loops, s, Close(q)))
  {
    var s' := Apply(loops, s, Close(q));
    assert RequestOk(loops, s, q);
    forall u | 0 <= u < |loops| ensures RequestOk(loops, s', u) { assert RequestOk(loops, s, u); }
    forall t | 0 <= t < |s.records| ensures RecordOk(s', t) {
      assert RecordOk(s, t);
      JoinUsers(s.phase, q, Done, t);
    }
    forall c | 0 <= c < |s'.openedFor| ensures ClientOk(s', c) {
      assert ClientOk(s, c);
      if c != s.phase[q].client { SameClosing(s, s', q, c); }
    }
  }

  lemma StepKeeps(loops: seq<nat>, s: State, a: Action)
    requires Inv(loops, s) && Enabled(loops, s, a)
    ensures Inv(loops, Apply(loops, s, a))
  {
    assert RequestOk(loops, s, a.q);
    match a
    case Arrive(q) =>
      var g := Guarded(s, loops[q]);
      var r := g.perLoop[loops[q]];
      GuardedKeeps(loops, s, loops[q]);
      if Free(g.records[r]) { CountedInKeeps(loops, g, q, r, []); } else { QueuedKeeps(loops, g, q, r, Entering(r)); }
    case Opened(q) => OpenedKeeps(loops, s, q);
    case OpenFails(q) => OpenFailsKeeps(loops, s, q);
    case LeaveBody(q) =>
      var p := s.phase[q];
      if Free(s.records[p.record]) { CountedOutKeeps(loops, s, q, p.record, []); }
      else { QueuedKeeps(loops, s, q, p.record, Exiting(p.record, p.client)); }
    case Resume(q) =>
      var p := s.phase[q];
      var rest := s.records[p.record].waiting[1..];
      if p.Entering? { CountedInKeeps(loops, s, q, p.record, rest); } else { CountedOutKeeps(loops, s, q, p.record, rest); }
    case Close(q) => CloseKeeps(loops, s, q);
  }

  // ---- every run finishes, and every client is closed ----

  predicate AllDone(s: State) {
    forall q | 0 <= q < |s.phase| :: s.phase[q].Done?
  }

  /** Whoever waits is behind a request that is opening the client, or it is the turn of
      the first that waits. */
  lemma NeverStuck(loops: seq<nat>, s: State) returns (a: Action)
    requires Inv(loops, s) && !AllDone(s)
    ensures Enabled(loops, s, a)
  {
    var q :| 0 <= q < |s.phase| && !s.phase[q].Done?;
    assert RequestOk(loops, s, q);
    match s.phase[q]
    case Idle => a := Arrive(q);
    case Opening(_) => a := Opened(q);
    case InBody(r, _) =>
      assert RecordOk(s, r);
      a := LeaveBody(q);
    case Closing(_) => a := Close(q);
    case Entering(r) => a := QueueMoves(loops, s, r);
    case Exiting(r, _) => a := QueueMoves(loops, s, r);
  }

  lemma QueueMoves(loops: seq<nat>, s: State, r: nat) returns (a: Action)
    requires Inv(loops, s) && r < |s.records| && s.records[r].waiting != []
    ensures Enabled(loops, s, a)
  {
    var rec := s.records[r];
    assert RecordOk(s, r);
    a := if rec.lock.Some? then Opened(rec.lock.value) else Resume(rec.waiting[0]);
    assert RequestOk(loops, s, a.q);
  }

  function Left(p: Phase): nat {
    match p
    case Idle => 6
    case Entering(_) => 5
    case Opening(_) => 4
    case InBody(_, _) => 3
    case Exiting(_, _) => 2
    case Closing(_) => 1
    case Done => 0
  }

  function Measure(s: State): nat { TotalLeft(s.phase, Left) }

  lemma OnePhaseMoves(loops: seq<nat>, s: State, a: Action)
    requires Enabled(loops, s, a)
    ensures var s' := Apply(loops, s, a);
            |s'.phase| == |s.phase| && s'.phase == s.phase[a.q := s'.phase[a.q]] && Left(s'.phase[a.q]) < Left(s.phase[a.q])
  {}

  lemma StepMakesProgress(loops: seq<nat>, s: State, a: Action)
    requires Enabled(loops, s, a)
    ensures Measure(Apply(loops, s, a)) < Measure(s)
  {
    var s' := Apply(loops, s, a);
    OnePhaseMoves(loops, s, a);
    OneMoved(s.phase, Left, a.q, s'.phase[a.q]);
  }

  function After(loops: seq<nat>, schedule: seq<Action>): Option<State> {
    if schedule == [] then Some(Init(loops))
    else
      var r, a := After(loops, schedule[..|schedule|-1]), schedule[|schedule|-1];
      if r.Some? && Enabled(loops, r.value, a) then Some(Apply(loops, r.value, a)) else None
  }

  lemma {:induction false} RunsKeep(loops: seq<nat>, schedule: seq<Action>)
    requires After(loops, schedule).Some?
    ensures var s := After(loops, schedule).value;
            Inv(loops, s) && |schedule| + Measure(s) <= 6 * |loops|
    decreases |schedule|
  {
    if schedule == [] {
      InitHolds(loops);
      TotalIsBounded(Init(loops).phase, Left, 6);
    } else {
      var rest, a := schedule[..|schedule|-1], schedule[|schedule|-1];
      RunsKeep(loops, rest);
      var r := After(loops, rest).value;
      StepKeeps(loops, r, a);
      StepMakesProgress(loops, r, a);
    }
  }

  /** Under every interleaving, for each record: `users` counts the requests in their
      body or not yet counted out, a client is open exactly while there are some, and
      all of them hold that client, which nobody has closed. */
  lemma UsersShareOneOpenClient(loops: seq<nat>, schedule: seq<Action>, r: nat)
    requires After(loops, schedule).Some? && r < |After(loops, schedule).value.records|
    ensures var s := After(loops, schedule).value;
            var rec := s.records[r];
            && rec.users == |Users(s.phase, r)|
            && (rec.client.Some? <==> Users(s.phase, r) != {})
            && forall q | q in Users(s.phase, r) ::
                 rec.client == Some(s.phase[q].client) && s.phase[q].client < |s.closes| && s.closes[s.phase[q].client] == 0
  {
    RunsKeep(loops, schedule);
    var s := After(loops, schedule).value;
    assert RecordOk(s, r);
    forall q | q in Users(s.phase, r) ensures s.records[r].client == Some(s.phase[q].client) {
      assert RequestOk(loops, s, q);
    }
  }

  lemma AllClosedInTheEnd(loops: seq<nat>, s: State)
    requires Inv(loops, s) && AllDone(s)
    ensures forall c | 0 <= c < |s.closes| :: s.closes[c] == 1
    ensures forall r | 0 <= r < |s.records| :: s.records[r].users == 0 && s.records[r].client.None?
  {
    forall r | 0 <= r < |s.records| ensures s.records[r].users == 0 && s.records[r].client.None? {
      assert RecordOk(s, r);
      assert Users(s.phase, r) == {};
    }
    forall c | 0 <= c < |s.closes| ensures s.closes[c] == 1 { assert ClientOk(s, c); }
  }

  /** Every run ends; no client is ever closed twice, and where the run can go no
      further each client that was opened has been closed once. */
  lemma EveryClientIsClosedOnce(loops: seq<nat>, schedule: seq<Action>)
    requires After(loops, schedule).Some?
    ensures |schedule| <= 6 * |loops|
    ensures var s := After(loops, schedule).value;
            && (forall c | 0 <= c < |s.closes| :: s.closes[c] <= 1)
            && ((exists a :: Enabled(loops, s, a))
                || (AllDone(s) && forall c | 0 <= c < |s.closes| :: s.closes[c] == 1))
  {
    RunsKeep(loops, schedule);
    var s := After(loops, schedule).value;
    forall c | 0 <= c < |s.closes| ensures s.closes[c] <= 1 { assert ClientOk(s, c); }
    if AllDone(s) { AllClosedInTheEnd(loops, s); } else { var a := NeverStuck(loops, s); }
  }

  // ---- one client per loop, and when not ----

  /** The request works on the record that the table has for its loop. */
  predicate RegisteredAt(loops: seq<nat>, s: State, q: nat)
    requires |s.phase| == |loops| && q < |loops|
  {
    Attached(s.phase[q]) ==> loops[q] in s.perLoop && s.perLoop[loops[q]] == s.phase[q].record
  }

  predicate Registered(loops: seq<nat>, s: State)
    requires |s.phase| == |loops|
  {
    forall q | 0 <= q < |loops| :: RegisteredAt(loops, s, q)
  }

  predicate OneClientPerLoop(s: State) {
    forall r, t | 0 <= r < t < |s.records| && s.records[r].client.Some? && s.records[t].client.Some? ::
      s.records[r].loop != s.records[t].loop
  }

  lemma ClientHasUser(loops: seq<nat>, s: State, r: nat) returns (q: nat)
    requires Inv(loops, s) && r < |s.records| && s.records[r].client.Some?
    ensures q < |loops| && Uses(s.phase[q], r) && loops[q] == s.records[r].loop
  {
    assert RecordOk(s, r);
    assert Users(s.phase, r) != {};
    q :| q in Users(s.phase, r);
    assert RequestOk(loops, s, q);
  }

  /** The step by which a last user, who has waited for the lock, drops the record from
      the table before a request that waits behind. */
  predicate DropsRecordInUse(loops: seq<nat>, s: State, a: Action)
    requires Enabled(loops, s, a)
  {
    a.Resume? && s.phase[a.q].Exiting?
    && var r := s.phase[a.q].record;
    LastOut(s.records[r]) && exists q | 0 <= q < |s.phase| :: s.phase[q] == Entering(r)
  }

  /** That is the only step that can cost a loop its one client: whatever else a request
      does, the table stays right for all that are under way. */
  lemma RegisteredUntilDropped(loops: seq<nat>, s: State, a: Action)
    requires Inv(loops, s) && Registered(loops, s) && Enabled(loops, s, a)
    ensures Registered(loops, Apply(loops, s, a)) <==> !DropsRecordInUse(loops, s, a)
  {
    var s', p := Apply(loops, s, a), s.phase[a.q];
    assert RequestOk(loops, s, a.q);
    if DropsRecordInUse(loops, s, a) {
      var q :| 0 <= q < |s.phase| && s.phase[q] == Entering(p.record);
      assert RequestOk(loops, s, q) && s'.phase[q] == s.phase[q];
      assert !RegisteredAt(loops, s', q);
    } else {
      forall q | 0 <= q < |loops| ensures RegisteredAt(loops, s', q) {
        assert RegisteredAt(loops, s, q) && RegisteredAt(loops, s, a.q);
        StaysRegistered(loops, s, a, q);
      }
    }
  }

  /** The step takes the client away, with the loop's entry. */
  predicate Drops(loops: seq<nat>, s: State, a: Action)
    requires Enabled(loops, s, a)
  {
    var p := s.phase[a.q];
    && ((a.Resume? && p.Exiting?) || (a.LeaveBody? && Free(s.records[p.record])))
    && LastOut(s.records[p.record])
  }

  lemma RegisteredKept(loops: seq<nat>, s: State, a: Action, q: nat)
    requires Inv(loops, s) && Enabled(loops, s, a) && q < |loops| && RegisteredAt(loops, s, q)
    requires Drops(loops, s, a) ==> loops[q] != loops[a.q]
    ensures RegisteredAt(loops, Apply(loops, s, a), q)
  {
    assert RequestOk(loops, s, a.q) && RequestOk(loops, s, q);
  }

  /** Whoever is still attached to a record when its last user drops it, waits. */
  lemma DroppedUnderWaiting(loops: seq<nat>, s: State, a: Action, q: nat)
    requires Inv(loops, s) && Enabled(loops, s, a) && Drops(loops, s, a) && q < |loops| && q != a.q
    requires Attached(s.phase[q]) && s.phase[q].record == s.phase[a.q].record
    ensures a.Resume? && s.phase[q].Entering?
  {
    var r := s.phase[a.q].record;
    assert RequestOk(loops, s, q) && RequestOk(loops, s, a.q) && RecordOk(s, r);
    OnlyUser(loops, s, a.q, r, q);
  }

  lemma StaysRegistered(loops: seq<nat>, s: State, a: Action, q: nat)
    requires Inv(loops, s) && Enabled(loops, s, a) && q < |loops|
    requires RegisteredAt(loops, s, q) && RegisteredAt(loops, s, a.q) && !DropsRecordInUse(loops, s, a)
    ensures RegisteredAt(loops, Apply(loops, s, a), q)
  {
    assert RequestOk(loops, s, q) && RequestOk(loops, s, a.q);
    if Drops(loops, s, a) && loops[q] == loops[a.q] {
      if q != a.q && Attached(s.phase[q]) { DroppedUnderWaiting(loops, s, a, q); }
    } else {
      RegisteredKept(loops, s, a, q);
    }
  }

  lemma RegisteredMeansOneClient(loops: seq<nat>, s: State)
    requires Inv(loops, s) && Registered(loops, s)
    ensures OneClientPerLoop(s)
  {
    forall r, t | 0 <= r < t < |s.records| && s.records[r].client.Some? && s.records[t].client.Some?
      ensures s.records[r].loop != s.records[t].loop
    {
      var q := ClientHasUser(loops, s, r);
      var u := ClientHasUser(loops, s, t);
      assert RegisteredAt(loops, s, q) && RegisteredAt(loops, s, u);
    }
  }

  // ---- a client that is opened without suspending ----

  /** The step comes while another request of its loop is opening the client. */
  predicate ComesBetween(loops: seq<nat>, s: State, a: Action)
    requires Enabled(loops, s, a)
  {
    exists q | 0 <= q < |loops| :: q != a.q && loops[q] == loops[a.q] && s.phase[q].Opening?
  }

  /** In this run no other request of the loop goes on while one is opening the client:
      the run of a tier whose `_open` does not suspend. */
  predicate OpensAtOnce(loops: seq<nat>, schedule: seq<Action>)
    requires After(loops, schedule).Some?
    decreases |schedule|
  {
    schedule != [] ==>
      var rest, a := schedule[..|schedule|-1], schedule[|schedule|-1];
      OpensAtOnce(loops, rest) && !ComesBetween(loops, After(loops, rest).value, a)
  }

  predicate NobodyWaits(s: State) {
    forall r | 0 <= r < |s.records| :: s.records[r].waiting == []
  }

  lemma LockHeldWhileOpening(loops: seq<nat>, s: State, r: nat)
    requires Inv(loops, s) && r < |s.records| && s.records[r].lock.Some?
    ensures exists q | 0 <= q < |loops| :: s.phase[q].Opening? && loops[q] == s.records[r].loop
  {
    assert RecordOk(s, r);
    assert RequestOk(loops, s, s.records[r].lock.value);
  }

  lemma NobodyWaitsKept(loops: seq<nat>, s: State, a: Action)
    requires Inv(loops, s) && NobodyWaits(s) && Enabled(loops, s, a) && !ComesBetween(loops, s, a)
    ensures NobodyWaits(Apply(loops, s, a))
  {
    assert RequestOk(loops, s, a.q);
    match a
    case Arrive(q) =>
      var g := Guarded(s, loops[q]);
      var r := g.perLoop[loops[q]];
      if loops[q] in s.perLoop {
        assert RecordOk(s, r);
        if s.records[r].lock.Some? { LockHeldWhileOpening(loops, s, r); }
      }
      assert Free(g.records[r]);
    case LeaveBody(q) => assert RecordOk(s, s.phase[q].record);
    case _ =>
  }

  lemma {:induction false} OpenedAtOnceIsShared(loops: seq<nat>, schedule: seq<Action>)
    requires After(loops, schedule).Some? && OpensAtOnce(loops, schedule)
    ensures var s := After(loops, schedule).value;
            |s.phase| == |loops| && NobodyWaits(s) && Registered(loops, s) && OneClientPerLoop(s)
    decreases |schedule|
  {
    RunsKeep(loops, schedule);
    if schedule != [] {
      var rest, a := schedule[..|schedule|-1], schedule[|schedule|-1];
      OpenedAtOnceIsShared(loops, rest);
      RunsKeep(loops, rest);
      NobodyWaitsKept(loops, After(loops, rest).value, a);
      RegisteredUntilDropped(loops, After(loops, rest).value, a);
    }
    RegisteredMeansOneClient(loops, After(loops, schedule).value);
  }

  // ---- two clients take four requests ----

  predicate Gone(p: Phase) { p.Closing? || p.Done? }

  /** Some request of the loop is counted out, or has failed to open the client. */
  predicate HasLeft(loops: seq<nat>, s: State, loop: nat)
    requires |s.phase| == |loops|
  {
    exists q | 0 <= q < |loops| :: Gone(s.phase[q]) && loops[q] == loop
  }

  predicate TwoHaveLeft(loops: seq<nat>, s: State, loop: nat)
    requires |s.phase| == |loops|
  {
    exists q, u | 0 <= q < u < |loops| :: Gone(s.phase[q]) && Gone(s.phase[u]) && loops[q] == loops[u] == loop
  }

  lemma LeftForGood(loops: seq<nat>, s: State, a: Action, loop: nat)
    requires |s.phase| == |loops| && Enabled(loops, s, a)
    ensures HasLeft(loops, s, loop) ==> HasLeft(loops, Apply(loops, s, a), loop)
    ensures TwoHaveLeft(loops, s, loop) ==> TwoHaveLeft(loops, Apply(loops, s, a), loop)
  {
    var s' := Apply(loops, s, a);
    forall q | 0 <= q < |loops| && Gone(s.phase[q]) ensures Gone(s'.phase[q]) {}
    if TwoHaveLeft(loops, s, loop) {
      var q, u :| 0 <= q < u < |loops| && Gone(s.phase[q]) && Gone(s.phase[u]) && loops[q] == loops[u] == loop;
      assert Gone(s'.phase[q]) && Gone(s'.phase[u]);
    }
  }

  /** Behind nobody, and the last user of record r. */
  predicate LastInFront(s: State, r: nat)
    requires r < |s.records|
  {
    var rec := s.records[r];
    rec.users == 1 && rec.waiting != [] && rec.waiting[0] < |s.phase| && s.phase[rec.waiting[0]].Exiting?
  }

  /** Who waits to leave once waited behind another, who has left since; and who works on
      a record that the table has lost comes after two that have left. */
  predicate LostAfterTwo(loops: seq<nat>, s: State)
    requires |s.phase| == |loops|
  {
    && (forall r | 0 <= r < |s.records| && LastInFront(s, r) :: HasLeft(loops, s, s.records[r].loop))
    && (forall q | 0 <= q < |loops| :: RegisteredAt(loops, s, q) || TwoHaveLeft(loops, s, loops[q]))
  }

  lemma OtherFrontKept(loops: seq<nat>, s: State, a: Action, r: nat)
    requires Inv(loops, s) && Enabled(loops, s, a) && r < |s.records| && LastInFront(Apply(loops, s, a), r)
    requires if a.Arrive? then Guarded(s, loops[a.q]).perLoop[loops[a.q]] != r else !Attached(s.phase[a.q]) || s.phase[a.q].record != r
    ensures LastInFront(s, r)
  {
    assert RecordOk(s, r);
    assert Apply(loops, s, a).records[r] == s.records[r];
  }

  lemma ArrivesBehind(loops: seq<nat>, s: State, q: nat, r: nat)
    requires Inv(loops, s) && Enabled(loops, s, Arrive(q)) && r < |s.records|
    requires Guarded(s, loops[q]).perLoop[loops[q]] == r && LastInFront(Apply(loops, s, Arrive(q)), r)
    ensures LastInFront(s, r)
  {
    assert RecordOk(s, r);
  }

  /** Who holds the lock while suspended opens the first client: nobody waits to leave. */
  lemma NobodyLeavesYet(loops: seq<nat>, s: State, a: Action, r: nat)
    requires Inv(loops, s) && Enabled(loops, s, a) && s.phase[a.q] == Opening(r)
    ensures !LastInFront(Apply(loops, s, a), r)
  {
    assert RequestOk(loops, s, a.q) && RecordOk(s, r);
    var waiting := s.records[r].waiting;
    if waiting != [] { assert RequestOk(loops, s, waiting[0]); }
  }

  lemma LeavesBehind(loops: seq<nat>, s: State, q: nat, r: nat)
    requires Inv(loops, s) && Enabled(loops, s, LeaveBody(q)) && s.phase[q].record == r && !Free(s.records[r])
    ensures !LastInFront(Apply(loops, s, LeaveBody(q)), r)
  {
    assert RequestOk(loops, s, q) && RecordOk(s, r);
    var waiting := s.records[r].waiting;
    if s.records[r].users == 1 { OnlyUser(loops, s, q, r, waiting[0]); }
  }

  lemma ComesInBeside(loops: seq<nat>, s: State, q: nat, r: nat)
    requires Inv(loops, s) && Enabled(loops, s, Resume(q)) && s.phase[q] == Entering(r)
    ensures !LastInFront(Apply(loops, s, Resume(q)), r)
  {
    assert RecordOk(s, r);
    var waiting := s.records[r].waiting;
    if |waiting| > 1 && s.phase[waiting[1]].Exiting? {
      assert waiting[1] in Users(s.phase, r);
    }
  }

  /** Only another's leaving makes the first in a queue the last user. */
  lemma FrontKept(loops: seq<nat>, s: State, a: Action, r: nat)
    requires Inv(loops, s) && Enabled(loops, s, a) && r < |s.records| && LastInFront(Apply(loops, s, a), r)
    requires !Gone(Apply(loops, s, a).phase[a.q]) || !Attached(s.phase[a.q]) || s.phase[a.q].record != r
    ensures LastInFront(s, r)
  {
    var p := s.phase[a.q];
    if a.Arrive? {
      if Guarded(s, loops[a.q]).perLoop[loops[a.q]] == r { ArrivesBehind(loops, s, a.q, r); } else { OtherFrontKept(loops, s, a, r); }
    } else if !Attached(p) || p.record != r {
      OtherFrontKept(loops, s, a, r);
    } else if p.Opening? {
      NobodyLeavesYet(loops, s, a, r);
    } else if a.LeaveBody? {
      LeavesBehind(loops, s, a.q, r);
    } else {
      ComesInBeside(loops, s, a.q, r);
    }
  }

  lemma LastInFrontKept(loops: seq<nat>, s: State, a: Action, r: nat)
    requires Inv(loops, s) && LostAfterTwo(loops, s) && Enabled(loops, s, a)
    requires r < |Apply(loops, s, a).records| && LastInFront(Apply(loops, s, a), r)
    ensures HasLeft(loops, Apply(loops, s, a), Apply(loops, s, a).records[r].loop)
  {
    var s', p := Apply(loops, s, a), s.phase[a.q];
    assert RequestOk(loops, s, a.q);
    if r < |s.records| {
      assert s'.records[r].loop == s.records[r].loop;
      LeftForGood(loops, s, a, s.records[r].loop);
      if !(Gone(s'.phase[a.q]) && Attached(p) && p.record == r) { FrontKept(loops, s, a, r); }
    }
  }

  lemma LostAfterTwoKept(loops: seq<nat>, s: State, a: Action)
    requires Inv(loops, s) && LostAfterTwo(loops, s) && Enabled(loops, s, a)
    ensures LostAfterTwo(loops, Apply(loops, s, a))
  {
    var s' := Apply(loops, s, a);
    forall r | 0 <= r < |s'.records| && LastInFront(s', r) ensures HasLeft(loops, s', s'.records[r].loop) {
      LastInFrontKept(loops, s, a, r);
    }
    forall q | 0 <= q < |loops| ensures RegisteredAt(loops, s', q) || TwoHaveLeft(loops, s', loops[q]) {
      LeftForGood(loops, s, a, loops[q]);
      assert RegisteredAt(loops, s, q) || TwoHaveLeft(loops, s, loops[q]);
      assert RegisteredAt(loops, s, a.q) || TwoHaveLeft(loops, s, loops[a.q]);
      if RegisteredAt(loops, s, q) && !TwoHaveLeft(loops, s, loops[q]) {
        if Drops(loops, s, a) && loops[q] == loops[a.q] { LostByTwo(loops, s, a, q); } else { RegisteredKept(loops, s, a, q); }
      }
    }
  }

  lemma LostByTwo(loops: seq<nat>, s: State, a: Action, q: nat)
    requires Inv(loops, s) && LostAfterTwo(loops, s) && Enabled(loops, s, a) && Drops(loops, s, a)
    requires q < |loops| && loops[q] == loops[a.q] && RegisteredAt(loops, s, q) && RegisteredAt(loops, s, a.q)
    ensures var s' := Apply(loops, s, a);
            RegisteredAt(loops, s', q) || TwoHaveLeft(loops, s', loops[q])
  {
    var s' := Apply(loops, s, a);
    assert RequestOk(loops, s, a.q);
    if q != a.q && Attached(s.phase[q]) {
      DroppedUnderWaiting(loops, s, a, q);
      assert LastInFront(s, s.phase[a.q].record);
      var u :| 0 <= u < |loops| && Gone(s.phase[u]) && loops[u] == loops[a.q];
      assert u != a.q && Gone(s'.phase[u]) && Gone(s'.phase[a.q]);
      assert TwoHaveLeft(loops, s', loops[q]) by { assert u < a.q || a.q < u; }
    }
  }

  lemma {:induction false} RunsLoseAfterTwo(loops: seq<nat>, schedule: seq<Action>)
    requires After(loops, schedule).Some?
    ensures |After(loops, schedule).value.phase| == |loops| && LostAfterTwo(loops, After(loops, schedule).value)
    decreases |schedule|
  {
    if schedule != [] {
      var rest, a := schedule[..|schedule|-1], schedule[|schedule|-1];
      RunsLoseAfterTwo(loops, rest);
      RunsKeep(loops, rest);
      LostAfterTwoKept(loops, After(loops, rest).value, a);
    }
  }

  /** Four requests of one loop. */
  datatype Quartet = Quartet(loops: seq<nat>, i: nat, j: nat, k: nat, m: nat) {
    predicate OnOneLoop() {
      && i < |loops| && j < |loops| && k < |loops| && m < |loops|
      && i != j && i != k && i != m && j != k && j != m && k != m
      && loops[i] == loops[j] == loops[k] == loops[m]
    }

    function Phases(pi: Phase, pj: Phase, pk: Phase, pm: Phase): (r: seq<Phase>)
    {
      seq(|loops|, q => if q == i then pi else if q == j then pj else if q == k then pk else if q == m then pm else Idle)
    }

    function Found(lock: Option<nat>, waiting: seq<nat>, client: Option<nat>, users: nat): Record
      requires OnOneLoop()
    {
      Record(loops[i], lock, waiting, client, users)
    }

    /** How two clients come about: i opens one while j waits; both leave their body
        behind one who waits, j last; k waits behind j, who drops the record; k opens a
        client for it and m one for a new record. */
    function Move(n: nat): Action {
      match n
      case 0 => Arrive(i)
      case 1 => Arrive(j)
      case 2 => Opened(i)
      case 3 => LeaveBody(i)
      case 4 => Resume(j)
      case 5 => LeaveBody(j)
      case 6 => Arrive(k)
      case 7 => Resume(i)
      case 8 => Resume(j)
      case 9 => Resume(k)
      case 10 => Opened(k)
      case 11 => Arrive(m)
      case _ => Opened(m)
    }

    function Stage(n: nat): State
      requires OnOneLoop()
    {
      var here := map[loops[i] := 0];
      match n
      case 0 => State(Phases(Idle, Idle, Idle, Idle), map[], [], [], [])
      case 1 => State(Phases(Opening(0), Idle, Idle, Idle), here, [Found(Some(i), [], None, 0)], [], [])
      case 2 => State(Phases(Opening(0), Entering(0), Idle, Idle), here, [Found(Some(i), [j], None, 0)], [], [])
      case 3 => State(Phases(InBody(0, 0), Entering(0), Idle, Idle), here, [Found(None, [j], Some(0), 1)], [0], [0])
      case 4 => State(Phases(Exiting(0, 0), Entering(0), Idle, Idle), here, [Found(None, [j, i], Some(0), 1)], [0], [0])
      case 5 => State(Phases(Exiting(0, 0), InBody(0, 0), Idle, Idle), here, [Found(None, [i], Some(0), 2)], [0], [0])
      case 6 => State(Phases(Exiting(0, 0), Exiting(0, 0), Idle, Idle), here, [Found(None, [i, j], Some(0), 2)], [0], [0])
      case 7 => State(Phases(Exiting(0, 0), Exiting(0, 0), Entering(0), Idle), here, [Found(None, [i, j, k], Some(0), 2)], [0], [0])
      case 8 => State(Phases(Done, Exiting(0, 0), Entering(0), Idle), here, [Found(None, [j, k], Some(0), 1)], [0], [0])
      case 9 => State(Phases(Done, Closing(0), Entering(0), Idle), map[], [Found(None, [k], None, 0)], [0], [0])
      case 10 => State(Phases(Done, Closing(0), Opening(0), Idle), map[], [Found(Some(k), [], None, 0)], [0], [0])
      case 11 => State(Phases(Done, Closing(0), InBody(0, 1), Idle), map[], [Found(None, [], Some(1), 1)], [0, 0], [0, 0])
      case 12 => State(Phases(Done, Closing(0), InBody(0, 1), Opening(1)), map[loops[i] := 1],
                       [Found(None, [], Some(1), 1), Found(Some(m), [], None, 0)], [0, 0], [0, 0])
      case _ => State(Phases(Done, Closing(0), InBody(0, 1), InBody(1, 2)), map[loops[i] := 1],
                      [Found(None, [], Some(1), 1), Found(None, [], Some(2), 1)], [0, 0, 1], [0, 0, 0])
    }
  }

  lemma FirstMoves(t: Quartet, pi: Phase, pj: Phase, pk: Phase, pm: Phase, p: Phase)
    requires t.OnOneLoop()
    ensures t.Phases(pi, pj, pk, pm)[t.i := p] == t.Phases(p, pj, pk, pm)
  {}

  lemma SecondMoves(t: Quartet, pi: Phase, pj: Phase, pk: Phase, pm: Phase, p: Phase)
    requires t.OnOneLoop()
    ensures t.Phases(pi, pj, pk, pm)[t.j := p] == t.Phases(pi, p, pk, pm)
  {}

  lemma ThirdMoves(t: Quartet, pi: Phase, pj: Phase, pk: Phase, pm: Phase, p: Phase)
    requires t.OnOneLoop()
    ensures t.Phases(pi, pj, pk, pm)[t.k := p] == t.Phases(pi, pj, p, pm)
  {}

  lemma FourthMoves(t: Quartet, pi: Phase, pj: Phase, pk: Phase, pm: Phase, p: Phase)
    requires t.OnOneLoop()
    ensures t.Phases(pi, pj, pk, pm)[t.m := p] == t.Phases(pi, pj, pk, p)
  {}

  predicate StageLeadsOn(t: Quartet, n: nat)
    requires t.OnOneLoop()
  {
    Enabled(t.loops, t.Stage(n), t.Move(n)) && Apply(t.loops, t.Stage(n), t.Move(n)) == t.Stage(n + 1)
  }

  lemma TwoEnter(t: Quartet)
    requires t.OnOneLoop()
    ensures StageLeadsOn(t, 0)
    ensures StageLeadsOn(t, 1)
    ensures StageLeadsOn(t, 2)
  {
    FirstMoves(t, Idle, Idle, Idle, Idle, Opening(0));
    SecondMoves(t, Opening(0), Idle, Idle, Idle, Entering(0));
    assert [] + [t.j] == [t.j];
    FirstMoves(t, Opening(0), Entering(0), Idle, Idle, InBody(0, 0));
  }

  lemma TwoLeaveTheirBody(t: Quartet)
    requires t.OnOneLoop()
    ensures StageLeadsOn(t, 3)
    ensures StageLeadsOn(t, 4)
    ensures StageLeadsOn(t, 5)
  {
    FirstMoves(t, InBody(0, 0), Entering(0), Idle, Idle, Exiting(0, 0));
    assert [t.j] + [t.i] == [t.j, t.i];
    SecondMoves(t, Exiting(0, 0), Entering(0), Idle, Idle, InBody(0, 0));
    assert [t.j, t.i][1..] == [t.i];
    SecondMoves(t, Exiting(0, 0), InBody(0, 0), Idle, Idle, Exiting(0, 0));
    assert [t.i] + [t.j] == [t.i, t.j];
  }

  lemma ThirdWaitsBehind(t: Quartet)
    requires t.OnOneLoop()
    ensures StageLeadsOn(t, 6)
    ensures StageLeadsOn(t, 7)
  {
    ThirdMoves(t, Exiting(0, 0), Exiting(0, 0), Idle, Idle, Entering(0));
    assert [t.i, t.j] + [t.k] == [t.i, t.j, t.k];
    FirstMoves(t, Exiting(0, 0), Exiting(0, 0), Entering(0), Idle, Done);
    assert [t.i, t.j, t.k][1..] == [t.j, t.k];
  }

  lemma RecordIsDropped(t: Quartet)
    requires t.OnOneLoop()
    ensures StageLeadsOn(t, 8)
    ensures StageLeadsOn(t, 9)
  {
    SecondMoves(t, Done, Exiting(0, 0), Entering(0), Idle, Closing(0));
    assert [t.j, t.k][1..] == [t.k];
    ThirdMoves(t, Done, Closing(0), Entering(0), Idle, Opening(0));
    assert [t.k][1..] == [];
  }

  lemma OldRecordGetsAClient(t: Quartet)
    requires t.OnOneLoop()
    ensures StageLeadsOn(t, 10)
  {
    ThirdMoves(t, Done, Closing(0), Opening(0), Idle, InBody(0, 1));
  }

  lemma NewRecordGetsAClient(t: Quartet)
    requires t.OnOneLoop()
    ensures StageLeadsOn(t, 11)
    ensures StageLeadsOn(t, 12)
  {
    FourthMoves(t, Done, Closing(0), InBody(0, 1), Idle, Opening(1));
    FourthMoves(t, Done, Closing(0), InBody(0, 1), Opening(1), InBody(1, 2));
  }

  lemma {:induction false} StagesAreReached(t: Quartet, n: nat) returns (schedule: seq<Action>)
    requires t.OnOneLoop() && n <= 13
    ensures After(t.loops, schedule) == Some(t.Stage(n))
  {
    if n == 0 {
      schedule := [];
      assert Init(t.loops).phase == t.Stage(0).phase;
    } else {
      var rest := StagesAreReached(t, n - 1);
      schedule := rest + [t.Move(n - 1)];
      assert schedule[..|schedule|-1] == rest;
      if n <= 3 { TwoEnter(t); } else if n <= 6 { TwoLeaveTheirBody(t); } else if n <= 8 { ThirdWaitsBehind(t); }
      else if n <= 10 { RecordIsDropped(t); } else if n == 11 { OldRecordGetsAClient(t); } else { NewRecordGetsAClient(t); }
    }
  }

  lemma LastStageHasTwo(t: Quartet)
    requires t.OnOneLoop()
    ensures !OneClientPerLoop(t.Stage(13))
  {
    var records := t.Stage(13).records;
    assert records == [t.Found(None, [], Some(1), 1), t.Found(None, [], Some(2), 1)];
    assert records[0].client.Some? && records[1].client.Some? && records[0].loop == records[1].loop;
  }

  /** Any four requests of one loop can have two clients open on it at once. */
  lemma TwoClientsOnOneLoop(t: Quartet) returns (schedule: seq<Action>)
    requires t.OnOneLoop()
    ensures After(t.loops, schedule).Some? && !OneClientPerLoop(After(t.loops, schedule).value)
  {
    schedule := StagesAreReached(t, 13);
    LastStageHasTwo(t);
  }

  /** Two clients on one loop are held by two requests of it, and two others have left. */
  lemma TwoClientsTakeFour(loops: seq<nat>, schedule: seq<Action>) returns (t: Quartet)
    requires After(loops, schedule).Some? && !OneClientPerLoop(After(loops, schedule).value)
    ensures t.loops == loops && t.OnOneLoop()
  {
    RunsKeep(loops, schedule);
    RunsLoseAfterTwo(loops, schedule);
    t := TwoUsersAndTwoGone(loops, After(loops, schedule).value);
  }

  lemma TwoUsersAndTwoGone(loops: seq<nat>, s: State) returns (t: Quartet)
    requires Inv(loops, s) && LostAfterTwo(loops, s) && !OneClientPerLoop(s)
    ensures t.loops == loops && t.OnOneLoop()
  {
    var r, u :| 0 <= r < u < |s.records| && s.records[r].client.Some? && s.records[u].client.Some? && s.records[r].loop == s.records[u].loop;
    var i := ClientHasUser(loops, s, r);
    var j := ClientHasUser(loops, s, u);
    assert RegisteredAt(loops, s, i) || TwoHaveLeft(loops, s, loops[i]);
    assert RegisteredAt(loops, s, j) || TwoHaveLeft(loops, s, loops[j]);
    var k, m :| 0 <= k < m < |loops| && Gone(s.phase[k]) && Gone(s.phase[m]) && loops[k] == loops[m] == loops[i];
    t := Quartet(loops, i, j, k, m);
  }

  /** The runs of a tier, whose `_open` may suspend or not. */
  predicate Possible(loops: seq<nat>, schedule: seq<Action>, opensSuspend: bool) {
    After(loops, schedule).Some? && (opensSuspend || OpensAtOnce(loops, schedule))
  }

  /** A loop never has two clients, whatever the interleaving - exactly when opening one
      does not suspend, or no loop has four requests. */
  lemma OneClientExactlyIfNoFour(loops: seq<nat>, opensSuspend: bool)
    ensures (forall schedule | Possible(loops, schedule, opensSuspend) :: OneClientPerLoop(After(loops, schedule).value))
        <==> !opensSuspend || !exists i, j, k, m :: Quartet(loops, i, j, k, m).OnOneLoop()
  {
    if i, j, k, m :| opensSuspend && Quartet(loops, i, j, k, m).OnOneLoop() {
      var schedule := TwoClientsOnOneLoop(Quartet(loops, i, j, k, m));
      assert Possible(loops, schedule, opensSuspend);
    } else {
      forall schedule | Possible(loops, schedule, opensSuspend) ensures OneClientPerLoop(After(loops, schedule).value) {
        if !opensSuspend {
          OpenedAtOnceIsShared(loops, schedule);
        } else if !OneClientPerLoop(After(loops, schedule).value) {
          var t := TwoClientsTakeFour(loops, schedule);
        }
      }
    }
  }
}
