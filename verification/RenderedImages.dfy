/** The illustrations of one instruction book (src/partcad/assembly_guide.py,
    RenderedImages.shape_image_async and _slug).

    The pages of a book ask for illustrations at the same time.  Each request takes the
    lock of its key, looks whether the key is rendered already, and if not renders under
    the machine's budget.  A request is cut at its awaits, and the parts of different
    requests interleave in any order.  A render may write its file, write nothing, or
    raise; requests are not cancelled. */
module RenderedImages {
  import opened Wrappers
  import opened Counting

  // ---- file names ----

  predicate SafeChar(c: char) {
    'A' <= c <= 'Z' || 'a' <= c <= 'z' || '0' <= c <= '9' || c == '_' || c == '.' || c == '-'
  }

  /** The text with each run of other characters made one dash. */
  function Dashed(text: string, inRun: bool): string {
    if text == "" then ""
    else if SafeChar(text[0]) then [text[0]] + Dashed(text[1..], false)
    else if inRun then Dashed(text[1..], true)
    else "-" + Dashed(text[1..], true)
  }

  function StripLeft(text: string): string {
    if text != "" && text[0] == '-' then StripLeft(text[1..]) else text
  }

  function StripRight(text: string): string {
    if text != "" && text[|text|-1] == '-' then StripRight(text[..|text|-1]) else text
  }

  function Slug(text: string): string {
    var name := StripRight(StripLeft(Dashed(text, false)));
    if name == "" then "image" else name
  }

  // ---- the protocol ----

  datatype Phase =
    | Start
    | AtLock
    | AtBudget
    | Rendering
    | Done(image: Option<string>)
    | Raised

  datatype Event = Began(key: string) | Ended(key: string, shown: bool)

  /** `locks[k]` is who holds the lock of key k, `files[f]` the key whose render wrote
      file f last, `log` what was rendered when. */
  datatype State = State(
    phase: seq<Phase>,
    locks: map<string, Option<nat>>,
    rendered: map<string, string>,
    files: map<string, string>,
    free: nat,
    log: seq<Event>)

  datatype Action =
    | FindLock(t: nat)
    | Enter(t: nat)
    | TakeBudget(t: nat)
    | RenderEnds(t: nat, wrote: bool)
    | RenderRaises(t: nat, wrote: bool)

  /** At least one, whatever the machine says it has. */
  function Budget(slots: int): (r: nat)
    ensures r >= 1 && (slots >= 1 ==> r == slots)
  {
    if slots > 1 then slots else 1
  }

  function Init(keys: seq<string>, slots: int): State {
    State(seq(|keys|, _ => Start), map[], map[], map[], Budget(slots), [])
  }

  predicate Enabled(keys: seq<string>, s: State, a: Action) {
    && |s.phase| == |keys| && a.t < |keys|
    && var p, k := s.phase[a.t], keys[a.t];
    match a
    case FindLock(_) => p.Start?
    case Enter(_) => p.AtLock? && k in s.locks && s.locks[k].None?
    case TakeBudget(_) => p.AtBudget? && s.free > 0
    case RenderEnds(_, _) => p.Rendering?
    case RenderRaises(_, _) => p.Rendering?
  }

  function Written(s: State, k: string, wrote: bool): map<string, string> {
    if wrote then s.files[Slug(k) := k] else s.files
  }

  function Apply(keys: seq<string>, s: State, a: Action): State
    requires Enabled(keys, s, a)
  {
    var k := keys[a.t];
    match a
    case FindLock(t) =>
      s.(phase := s.phase[t := AtLock], locks := if k in s.locks then s.locks else s.locks[k := None])
    case Enter(t) =>
      if k in s.rendered then s.(phase := s.phase[t := Done(Some(s.rendered[k]))])
      else s.(phase := s.phase[t := AtBudget], locks := s.locks[k := Some(t)])
    case TakeBudget(t) => s.(phase := s.phase[t := Rendering], free := s.free - 1, log := s.log + [Began(k)])
    case RenderEnds(t, wrote) =>
      var files := Written(s, k, wrote);
      // Whether there is a file, not whether this render wrote it.
      var shown := Slug(k) in files;
      s.(phase := s.phase[t := Done(if shown then Some(Slug(k)) else None)],
         rendered := if shown then s.rendered[k := Slug(k)] else s.rendered,
         files := files, locks := s.locks[k := None], free := s.free + 1, log := s.log + [Ended(k, shown)])
    case RenderRaises(t, wrote) =>
      s.(phase := s.phase[t := Raised], files := Written(s, k, wrote),
         locks := s.locks[k := None], free := s.free + 1, log := s.log + [Ended(k, false)])
  }

  // ---- the illustrations themselves ----

  /** One book's illustrations and the requests for them; the methods are the parts of
      `shape_image_async` between its awaits. */
  class Illustrations {
    const keys: seq<string>
    const slots: int
    var phase: seq<Phase>
    var locks: map<string, Option<nat>>
    var rendered: map<string, string>
    var files: map<string, string>
    var free: nat
    ghost var log: seq<Event>

    constructor (keys: seq<string>, slots: int)
      ensures this.keys == keys && this.slots == slots && Snapshot() == Init(keys, slots)
    {
      this.keys, this.slots := keys, slots;
      phase, locks, rendered, files := seq(|keys|, _ => Start), map[], map[], map[];
      free, log := Budget(slots), [];
    }

    ghost function Snapshot(): State
      reads this
    {
      State(phase, locks, rendered, files, free, log)
    }

    method LockFor(t: nat)
      requires Enabled(keys, Snapshot(), FindLock(t))
      modifies this
      ensures Snapshot() == Apply(keys, old(Snapshot()), FindLock(t))
    {
      if keys[t] !in locks { locks := locks[keys[t] := None]; }
      phase := phase[t := AtLock];
    }

    /** With the key's lock: what is rendered already is the answer. */
    method LookUp(t: nat)
      requires Enabled(keys, Snapshot(), Enter(t))
      modifies this
      ensures Snapshot() == Apply(keys, old(Snapshot()), Enter(t))
    {
      if keys[t] in rendered {
        phase := phase[t := Done(Some(rendered[keys[t]]))];
      } else {
        locks, phase := locks[keys[t] := Some(t)], phase[t := AtBudget];
      }
    }

    method Begin(t: nat)
      requires Enabled(keys, Snapshot(), TakeBudget(t))
      modifies this
      ensures Snapshot() == Apply(keys, old(Snapshot()), TakeBudget(t))
    {
      free, phase := free - 1, phase[t := Rendering];
      log := log + [Began(keys[t])];
    }

    /** The render is over: the budget goes back, and a file that is there is kept. */
    method Finish(t: nat, wrote: bool)
      requires Enabled(keys, Snapshot(), RenderEnds(t, wrote))
      modifies this
      ensures Snapshot() == Apply(keys, old(Snapshot()), RenderEnds(t, wrote))
    {
      var key, path := keys[t], Slug(keys[t]);
      if wrote { files := files[path := key]; }
      free := free + 1;
      log := log + [Ended(key, path in files)];
      locks := locks[key := None];
      if path !in files {
        phase := phase[t := Done(None)];
      } else {
        rendered := rendered[key := path];
        phase := phase[t := Done(Some(path))];
      }
    }
  }

  // ---- what every step keeps ----

  predicate Holds(p: Phase) { p.AtBudget? || p.Rendering? }

  function InFlight(phase: seq<Phase>): set<nat> {
    set t | 0 <= t < |phase| && phase[t].Rendering?
  }

  predicate TaskOk(keys: seq<string>, s: State, t: nat)
    requires |s.phase| == |keys| && t < |keys|
  {
    var p, k := s.phase[t], keys[t];
    && (p.AtLock? ==> k in s.locks)
    && (Holds(p) ==> k in s.locks && s.locks[k] == Some(t) && k !in s.rendered)
    && (p.Done? && p.image.Some? ==> k in s.rendered && p.image.value == s.rendered[k])
  }

  predicate KeyOk(keys: seq<string>, s: State, k: string)
    requires |s.phase| == |keys|
  {
    && (k in s.locks && s.locks[k].Some? ==>
          var t := s.locks[k].value; t < |keys| && keys[t] == k && Holds(s.phase[t]))
    && (k in s.rendered ==> k in keys && s.rendered[k] == Slug(k) && Slug(k) in s.files)
  }

  predicate FileOk(keys: seq<string>, s: State, f: string) {
    f in s.files ==> s.files[f] in keys && f == Slug(s.files[f])
  }

  ghost predicate Inv(keys: seq<string>, s: State, slots: int) {
    && |s.phase| == |keys|
    && (forall t | 0 <= t < |keys| :: TaskOk(keys, s, t))
    && (forall k :: KeyOk(keys, s, k))
    && (forall f :: FileOk(keys, s, f))
    && s.free + |InFlight(s.phase)| == Budget(slots)
  }

  lemma InitHolds(keys: seq<string>, slots: int)
    ensures Inv(keys, Init(keys, slots), slots)
  {
    assert InFlight(Init(keys, slots).phase) == {};
  }

  lemma Launch(phase: seq<Phase>, t: nat, p: Phase)
    requires t < |phase|
    ensures |InFlight(phase[t := p])| == |InFlight(phase)| - (if phase[t].Rendering? then 1 else 0) + (if p.Rendering? then 1 else 0)
  {
    var u, u' := InFlight(phase), InFlight(phase[t := p]);
    if phase[t].Rendering? {
      if p.Rendering? { assert u' == u; } else { assert u' == u - {t}; }
    } else {
      if p.Rendering? { assert u' == u + {t}; } else { assert u' == u; }
    }
  }

  lemma StepKeeps(keys: seq<string>, s: State, a: Action, slots: int)
    requires Inv(keys, s, slots) && Enabled(keys, s, a)
    ensures Inv(keys, Apply(keys, s, a), slots)
  {
    var s' := Apply(keys, s, a);
    assert TaskOk(keys, s, a.t) && KeyOk(keys, s, keys[a.t]);
    forall t | 0 <= t < |keys| ensures TaskOk(keys, s', t) { assert TaskOk(keys, s, t); }
    forall k ensures KeyOk(keys, s', k) { assert KeyOk(keys, s, k); }
    forall f ensures FileOk(keys, s', f) { assert FileOk(keys, s, f); }
    Launch(s.phase, a.t, s'.phase[a.t]);
  }

  // ---- one render of a key at a time, and none after it succeeded ----

  datatype Standing = Quiet | UnderWay | Shown | Broken

  /** What may be said of one key's renders: they begin when none is under way and
      none has succeeded. */
  function Advance(st: Standing, e: Event, k: string): Standing {
    if e.key != k then st
    else match (st, e)
      case (Quiet, Began(_)) => UnderWay
      case (UnderWay, Ended(_, shown)) => if shown then Shown else Quiet
      case _ => Broken
  }

  function Replay(log: seq<Event>, k: string): Standing {
    if log == [] then Quiet else Advance(Replay(log[..|log|-1], k), log[|log|-1], k)
  }

  /** The standing that the state itself tells. */
  function StandingOf(s: State, k: string): Standing {
    if k in s.rendered then Shown else if UnderWayIn(s, k) then UnderWay else Quiet
  }

  predicate UnderWayIn(s: State, k: string) {
    k in s.locks && s.locks[k].Some? && s.locks[k].value < |s.phase| && s.phase[s.locks[k].value].Rendering?
  }

  /** A standing comes from what the state says of one key: whether it is rendered, and
      where the holder of its lock is. */
  lemma SameStanding(s: State, s': State, k: string)
    requires (k in s'.rendered <==> k in s.rendered) && (UnderWayIn(s', k) <==> UnderWayIn(s, k))
    ensures StandingOf(s', k) == StandingOf(s, k)
  {}

  lemma LogOneMore(s: State, s': State, e: Event, k: string)
    requires s'.log == s.log + [e] && Replay(s.log, k) == StandingOf(s, k)
    requires StandingOf(s', k) == Advance(StandingOf(s, k), e, k)
    ensures Replay(s'.log, k) == StandingOf(s', k)
  {
    assert s'.log[..|s.log|] == s.log;
  }

  lemma StandsByHolder(keys: seq<string>, s: State, slots: int, t: nat)
    requires Inv(keys, s, slots) && t < |keys| && Holds(s.phase[t])
    ensures StandingOf(s, keys[t]) == if s.phase[t].Rendering? then UnderWay else Quiet
  {
    assert TaskOk(keys, s, t);
  }

  lemma LockStepTellsTheLog(keys: seq<string>, s: State, s': State, a: Action, slots: int, k: string)
    requires Inv(keys, s, slots) && Enabled(keys, s, a) && (a.FindLock? || a.Enter?) && s' == Apply(keys, s, a)
    ensures s'.log == s.log && StandingOf(s', k) == StandingOf(s, k)
  {
    assert KeyOk(keys, s, k);
    SameStanding(s, s', k);
  }

  /** A step of another key's request leaves a key's standing as it is. */
  lemma OtherKeyStands(keys: seq<string>, s: State, s': State, a: Action, slots: int, k: string)
    requires Inv(keys, s, slots) && Enabled(keys, s, a) && !a.FindLock? && !a.Enter? && k != keys[a.t]
    requires s' == Apply(keys, s, a)
    ensures StandingOf(s', k) == StandingOf(s, k)
  {
    assert KeyOk(keys, s, k);
    SameStanding(s, s', k);
  }

  lemma BeginTellsTheLog(keys: seq<string>, s: State, s': State, t: nat, slots: int, k: string)
    requires Inv(keys, s, slots) && Enabled(keys, s, TakeBudget(t)) && s' == Apply(keys, s, TakeBudget(t))
    requires Replay(s.log, k) == StandingOf(s, k)
    ensures Replay(s'.log, k) == StandingOf(s', k)
  {
    if k == keys[t] {
      StandsByHolder(keys, s, slots, t);
      assert TaskOk(keys, s, t);
      assert UnderWayIn(s', k);
    } else {
      OtherKeyStands(keys, s, s', TakeBudget(t), slots, k);
    }
    LogOneMore(s, s', Began(keys[t]), k);
  }

  lemma EndOfOwn(keys: seq<string>, s: State, s': State, a: Action, slots: int)
    requires Inv(keys, s, slots) && Enabled(keys, s, a) && (a.RenderEnds? || a.RenderRaises?) && s' == Apply(keys, s, a)
    ensures var k := keys[a.t]; StandingOf(s, k) == UnderWay && StandingOf(s', k) == if k in s'.rendered then Shown else Quiet
  {
    StandsByHolder(keys, s, slots, a.t);
    assert s'.locks[keys[a.t]].None?;
  }

  lemma EndTellsTheLog(keys: seq<string>, s: State, s': State, t: nat, wrote: bool, slots: int, k: string)
    requires Inv(keys, s, slots) && Enabled(keys, s, RenderEnds(t, wrote)) && s' == Apply(keys, s, RenderEnds(t, wrote))
    requires Replay(s.log, k) == StandingOf(s, k)
    ensures Replay(s'.log, k) == StandingOf(s', k)
  {
    var own := keys[t];
    assert TaskOk(keys, s, t);
    assert s'.log == s.log + [Ended(own, own in s'.rendered)];
    if k == own { EndOfOwn(keys, s, s', RenderEnds(t, wrote), slots); } else { OtherKeyStands(keys, s, s', RenderEnds(t, wrote), slots, k); }
    LogOneMore(s, s', Ended(own, own in s'.rendered), k);
  }

  lemma RaiseTellsTheLog(keys: seq<string>, s: State, s': State, t: nat, wrote: bool, slots: int, k: string)
    requires Inv(keys, s, slots) && Enabled(keys, s, RenderRaises(t, wrote)) && s' == Apply(keys, s, RenderRaises(t, wrote))
    requires Replay(s.log, k) == StandingOf(s, k)
    ensures Replay(s'.log, k) == StandingOf(s', k)
  {
    assert TaskOk(keys, s, t);
    if k == keys[t] { EndOfOwn(keys, s, s', RenderRaises(t, wrote), slots); } else { OtherKeyStands(keys, s, s', RenderRaises(t, wrote), slots, k); }
    LogOneMore(s, s', Ended(keys[t], false), k);
  }

  lemma StepTellsTheLog(keys: seq<string>, s: State, s': State, a: Action, slots: int, k: string)
    requires Inv(keys, s, slots) && Enabled(keys, s, a) && s' == Apply(keys, s, a)
    requires Replay(s.log, k) == StandingOf(s, k)
    ensures Replay(s'.log, k) == StandingOf(s', k)
  {
    match a
    case TakeBudget(t) => BeginTellsTheLog(keys, s, s', t, slots, k);
    case RenderEnds(t, wrote) => EndTellsTheLog(keys, s, s', t, wrote, slots, k);
    case RenderRaises(t, wrote) => RaiseTellsTheLog(keys, s, s', t, wrote, slots, k);
    case _ => LockStepTellsTheLog(keys, s, s', a, slots, k);
  }

  // ---- every run finishes ----

  predicate AllDone(s: State) {
    forall t | 0 <= t < |s.phase| :: s.phase[t].Done? || s.phase[t].Raised?
  }

  /** No deadlock: whoever waits for the budget holds its key's lock, and whoever holds
      a slot of the budget waits for nobody. */
  lemma NeverStuck(keys: seq<string>, s: State, slots: int) returns (a: Action)
    requires Inv(keys, s, slots) && !AllDone(s)
    ensures Enabled(keys, s, a)
  {
    if t :| 0 <= t < |keys| && s.phase[t].Rendering? {
      a := RenderEnds(t, true);
    } else {
      assert InFlight(s.phase) == {};
      var t :| 0 <= t < |keys| && !(s.phase[t].Done? || s.phase[t].Raised?);
      assert TaskOk(keys, s, t) && KeyOk(keys, s, keys[t]);
      match s.phase[t]
      case Start => a := FindLock(t);
      case AtLock => a := if s.locks[keys[t]].None? then Enter(t) else TakeBudget(s.locks[keys[t]].value);
      case AtBudget => a := TakeBudget(t);
    }
  }

  function Left(p: Phase): nat {
    match p
    case Start => 4
    case AtLock => 3
    case AtBudget => 2
    case Rendering => 1
    case Done(_) => 0
    case Raised => 0
  }

  function Measure(s: State): nat { TotalLeft(s.phase, Left) }

  lemma StepMakesProgress(keys: seq<string>, s: State, a: Action)
    requires Enabled(keys, s, a)
    ensures Measure(Apply(keys, s, a)) < Measure(s)
  {
    var s' := Apply(keys, s, a);
    assert s'.phase == s.phase[a.t := s'.phase[a.t]];
    OneMoved(s.phase, Left, a.t, s'.phase[a.t]);
  }

  function After(keys: seq<string>, schedule: seq<Action>, slots: int): Option<State> {
    if schedule == [] then Some(Init(keys, slots))
    else
      var r, a := After(keys, schedule[..|schedule|-1], slots), schedule[|schedule|-1];
      if r.Some? && Enabled(keys, r.value, a) then Some(Apply(keys, r.value, a)) else None
  }

  lemma {:induction false} RunsKeep(keys: seq<string>, schedule: seq<Action>, slots: int)
    requires After(keys, schedule, slots).Some?
    ensures var s := After(keys, schedule, slots).value;
            Inv(keys, s, slots) && |schedule| + Measure(s) <= 4 * |keys|
    decreases |schedule|
  {
    if schedule == [] {
      InitHolds(keys, slots);
      TotalIsBounded(Init(keys, slots).phase, Left, 4);
    } else {
      var rest, a := schedule[..|schedule|-1], schedule[|schedule|-1];
      RunsKeep(keys, rest, slots);
      var r := After(keys, rest, slots).value;
      StepKeeps(keys, r, a, slots);
      StepMakesProgress(keys, r, a);
    }
  }

  /** Under every interleaving, the renders of one key follow each other, and the one
      that succeeds is the last. */
  lemma {:induction false} OneRenderAtATime(keys: seq<string>, schedule: seq<Action>, slots: int, k: string)
    requires After(keys, schedule, slots).Some?
    ensures var s := After(keys, schedule, slots).value;
            Replay(s.log, k) == StandingOf(s, k) && Replay(s.log, k) != Broken
    decreases |schedule|
  {
    if schedule != [] {
      var rest, a := schedule[..|schedule|-1], schedule[|schedule|-1];
      OneRenderAtATime(keys, rest, slots, k);
      RunsKeep(keys, rest, slots);
      StepTellsTheLog(keys, After(keys, rest, slots).value, After(keys, schedule, slots).value, a, slots, k);
    }
  }

  lemma RendersInFlight(keys: seq<string>, s: State, slots: int, t: nat, u: nat)
    requires Inv(keys, s, slots) && t < |keys| && u < |keys| && s.phase[t].Rendering? && s.phase[u].Rendering?
    ensures keys[t] !in s.rendered && (t != u ==> keys[t] != keys[u])
  {
    assert TaskOk(keys, s, t) && TaskOk(keys, s, u);
  }

  /** Never more renders than the budget; two in flight are of two keys, neither of
      which has succeeded; every run ends, and where it can go no further every request
      has its answer. */
  lemma EveryBookIsDrawn(keys: seq<string>, schedule: seq<Action>, slots: int)
    requires After(keys, schedule, slots).Some?
    ensures |schedule| <= 4 * |keys|
    ensures var s := After(keys, schedule, slots).value;
            && |InFlight(s.phase)| <= Budget(slots)
            && (forall t, u | t in InFlight(s.phase) && u in InFlight(s.phase) ::
                  t < |keys| && u < |keys| && keys[t] !in s.rendered && (t != u ==> keys[t] != keys[u]))
            && (AllDone(s) || exists a :: Enabled(keys, s, a))
  {
    RunsKeep(keys, schedule, slots);
    var s := After(keys, schedule, slots).value;
    assert |s.phase| == |keys|;
    forall t, u | t in InFlight(s.phase) && u in InFlight(s.phase)
      ensures t < |keys| && u < |keys| && keys[t] !in s.rendered && (t != u ==> keys[t] != keys[u])
    {
      RendersInFlight(keys, s, slots, t, u);
    }
    if !AllDone(s) { var a := NeverStuck(keys, s, slots); }
  }

  // ---- what the file names allow ----

  /** Different keys of this book have different file names. */
  predicate SlugsApart(keys: seq<string>) {
    forall i, j | 0 <= i < |keys| && 0 <= j < |keys| && Slug(keys[i]) == Slug(keys[j]) :: keys[i] == keys[j]
  }

  /** Every request that was given a file was given a picture of what it asked for. */
  predicate OwnPictures(keys: seq<string>, s: State)
    requires |s.phase| == |keys|
  {
    forall t | 0 <= t < |keys| && s.phase[t].Done? && s.phase[t].image.Some? ::
      s.phase[t].image.value in s.files && s.files[s.phase[t].image.value] == keys[t]
  }

  /** No two renders under way write the same file. */
  predicate FilesApart(keys: seq<string>, s: State)
    requires |s.phase| == |keys|
  {
    forall t, u | 0 <= t < u < |keys| && s.phase[t].Rendering? && s.phase[u].Rendering? :: Slug(keys[t]) != Slug(keys[u])
  }

  lemma SameKey(keys: seq<string>, k: string, l: string)
    requires SlugsApart(keys) && k in keys && l in keys && Slug(k) == Slug(l)
    ensures k == l
  {
    var i :| 0 <= i < |keys| && keys[i] == k;
    var j :| 0 <= j < |keys| && keys[j] == l;
    assert Slug(keys[i]) == Slug(keys[j]);
  }

  lemma PictureIsOwn(keys: seq<string>, s: State, slots: int, t: nat)
    requires Inv(keys, s, slots) && SlugsApart(keys) && t < |keys| && s.phase[t].Done? && s.phase[t].image.Some?
    ensures s.phase[t].image.value in s.files && s.files[s.phase[t].image.value] == keys[t]
  {
    assert TaskOk(keys, s, t) && KeyOk(keys, s, keys[t]);
    var f := Slug(keys[t]);
    assert FileOk(keys, s, f);
    SameKey(keys, keys[t], s.files[f]);
  }

  lemma FileIsUnshared(keys: seq<string>, s: State, slots: int, t: nat, u: nat)
    requires Inv(keys, s, slots) && (SlugsApart(keys) || Budget(slots) == 1)
    requires t < u < |keys| && s.phase[t].Rendering? && s.phase[u].Rendering?
    ensures Slug(keys[t]) != Slug(keys[u])
  {
    RendersInFlight(keys, s, slots, t, u);
    if !SlugsApart(keys) {
      assert {t, u} <= InFlight(s.phase);
      AtLeastTwo(InFlight(s.phase), t, u);
    }
  }

  lemma Then(keys: seq<string>, slots: int, schedule: seq<Action>, s: State, a: Action) returns (longer: seq<Action>, t: State)
    requires After(keys, schedule, slots) == Some(s) && Enabled(keys, s, a)
    ensures After(keys, longer, slots) == Some(t) && t == Apply(keys, s, a)
  {
    longer, t := schedule + [a], Apply(keys, s, a);
    assert longer[..|longer|-1] == schedule;
  }

  lemma StartRender(keys: seq<string>, slots: int, schedule: seq<Action>, s: State, t: nat) returns (longer: seq<Action>, s': State)
    requires After(keys, schedule, slots) == Some(s) && |s.phase| == |keys| && t < |keys| && s.phase[t].Start?
    requires keys[t] !in s.rendered && (keys[t] in s.locks ==> s.locks[keys[t]].None?) && s.free > 0
    ensures After(keys, longer, slots) == Some(s')
    ensures s'.phase == s.phase[t := Rendering] && s'.free == s.free - 1
    ensures s'.locks == s.locks[keys[t] := Some(t)] && s'.rendered == s.rendered && s'.files == s.files
  {
    longer, s' := Then(keys, slots, schedule, s, FindLock(t));
    longer, s' := Then(keys, slots, longer, s', Enter(t));
    longer, s' := Then(keys, slots, longer, s', TakeBudget(t));
  }

  /** Two keys with one name: the later render takes the place of the earlier one's
      picture, and the request that was given that file now shows the wrong thing. */
  lemma SharedNameShowsWrongPicture(keys: seq<string>, slots: int, i: nat, j: nat) returns (schedule: seq<Action>)
    requires i < |keys| && j < |keys| && Slug(keys[i]) == Slug(keys[j]) && keys[i] != keys[j]
    ensures After(keys, schedule, slots).Some? && |After(keys, schedule, slots).value.phase| == |keys|
    ensures !OwnPictures(keys, After(keys, schedule, slots).value)
  {
    var s := Init(keys, slots);
    schedule, s := StartRender(keys, slots, [], s, i);
    schedule, s := Then(keys, slots, schedule, s, RenderEnds(i, true));
    schedule, s := StartRender(keys, slots, schedule, s, j);
    schedule, s := Then(keys, slots, schedule, s, RenderEnds(j, true));
    assert s.phase[i] == Done(Some(Slug(keys[i]))) && s.files[Slug(keys[i])] == keys[j];
  }

  lemma SharedNameRendersTogether(keys: seq<string>, slots: int, i: nat, j: nat) returns (schedule: seq<Action>)
    requires i < |keys| && j < |keys| && Slug(keys[i]) == Slug(keys[j]) && keys[i] != keys[j] && Budget(slots) > 1
    ensures After(keys, schedule, slots).Some? && |After(keys, schedule, slots).value.phase| == |keys|
    ensures !FilesApart(keys, After(keys, schedule, slots).value)
  {
    var s := Init(keys, slots);
    schedule, s := StartRender(keys, slots, [], s, i);
    schedule, s := StartRender(keys, slots, schedule, s, j);
    assert s.phase[i].Rendering? && s.phase[j].Rendering?;
  }

  /** Whatever the interleaving, every page shows what it asked for - exactly when no
      two keys of the book share a file name. */
  lemma PicturesAreOwnExactlyIfSlugsApart(keys: seq<string>, slots: int)
    ensures (forall schedule | After(keys, schedule, slots).Some? ::
               |After(keys, schedule, slots).value.phase| == |keys| && OwnPictures(keys, After(keys, schedule, slots).value))
        <==> SlugsApart(keys)
  {
    if SlugsApart(keys) {
      forall schedule | After(keys, schedule, slots).Some?
        ensures |After(keys, schedule, slots).value.phase| == |keys| && OwnPictures(keys, After(keys, schedule, slots).value)
      {
        RunsKeep(keys, schedule, slots);
        var s := After(keys, schedule, slots).value;
        assert |s.phase| == |keys|;
        forall t | 0 <= t < |keys| && s.phase[t].Done? && s.phase[t].image.Some?
          ensures s.phase[t].image.value in s.files && s.files[s.phase[t].image.value] == keys[t]
        {
          PictureIsOwn(keys, s, slots, t);
        }
      }
    } else {
      var i, j :| 0 <= i < |keys| && 0 <= j < |keys| && Slug(keys[i]) == Slug(keys[j]) && keys[i] != keys[j];
      var schedule := SharedNameShowsWrongPicture(keys, slots, i, j);
    }
  }

  /** Two renders never write one file at a time - exactly when no two keys share a
      file name, or the budget is one. */
  lemma FilesAreUnsharedExactlyIfSlugsApart(keys: seq<string>, slots: int)
    ensures (forall schedule | After(keys, schedule, slots).Some? ::
               |After(keys, schedule, slots).value.phase| == |keys| && FilesApart(keys, After(keys, schedule, slots).value))
        <==> SlugsApart(keys) || slots <= 1
  {
    if SlugsApart(keys) || slots <= 1 {
      forall schedule | After(keys, schedule, slots).Some?
        ensures |After(keys, schedule, slots).value.phase| == |keys| && FilesApart(keys, After(keys, schedule, slots).value)
      {
        RunsKeep(keys, schedule, slots);
        var s := After(keys, schedule, slots).value;
        assert |s.phase| == |keys|;
        forall t, u | 0 <= t < u < |keys| && s.phase[t].Rendering? && s.phase[u].Rendering?
          ensures Slug(keys[t]) != Slug(keys[u])
        {
          FileIsUnshared(keys, s, slots, t, u);
        }
      }
    } else {
      var i, j :| 0 <= i < |keys| && 0 <= j < |keys| && Slug(keys[i]) == Slug(keys[j]) && keys[i] != keys[j];
      var schedule := SharedNameRendersTogether(keys, slots, i, j);
    }
  }

  // ---- what a file name may be ----

  lemma DashedIsSafe(text: string, inRun: bool)
    ensures forall i | 0 <= i < |Dashed(text, inRun)| :: SafeChar(Dashed(text, inRun)[i])
  {}

  lemma StripsEnds(text: string)
    ensures var r := StripRight(text); r <= text && (r == "" || r[|r|-1] != '-')
    ensures var l := StripLeft(text); |l| <= |text| && l == text[|text| - |l|..] && (l == "" || l[0] != '-')
  {}

  lemma {:induction false} DashedKeepsSafe(text: string, inRun: bool)
    requires forall i | 0 <= i < |text| :: SafeChar(text[i])
    ensures Dashed(text, inRun) == text
  {
    if text != "" { DashedKeepsSafe(text[1..], false); }
  }

  predicate IsName(name: string) {
    && name != "" && name[0] != '-' && name[|name|-1] != '-'
    && forall i | 0 <= i < |name| :: SafeChar(name[i])
  }

  lemma NameIsItsOwnSlug(name: string)
    requires IsName(name)
    ensures Slug(name) == name
  {
    DashedKeepsSafe(name, false);
    assert StripLeft(name) == name;
    assert StripRight(name) == name;
  }

  lemma StrippedIsName(text: string, l: string, r: string)
    requires forall i | 0 <= i < |text| :: SafeChar(text[i])
    requires l == StripLeft(text) && r == StripRight(l) && r != ""
    ensures IsName(r)
  {
    StripsEnds(text);
    StripsEnds(l);
    assert r[0] == l[0];
    forall i | 0 <= i < |r| ensures SafeChar(r[i]) { assert r[i] == l[i] == text[|text| - |l| + i]; }
  }

  /** A name has only safe characters, is not empty, does not begin or end with a dash,
      and is its own name. */
  lemma SlugIsAName(text: string)
    ensures IsName(Slug(text)) && Slug(Slug(text)) == Slug(text)
  {
    var d := Dashed(text, false);
    var r := StripRight(StripLeft(d));
    DashedIsSafe(text, false);
    if r != "" { StrippedIsName(d, StripLeft(d), r); }
    NameIsItsOwnSlug(Slug(text));
  }

  lemma FirstName()
    ensures Slug("//a:b-c") == "a-b-c"
  {
    var x := "//a:b-c";
    assert Dashed(x[6..], false) == "c" && Dashed(x[5..], false) == "-c" && Dashed(x[4..], true) == "b-c";
    assert Dashed(x[3..], false) == "-b-c" && Dashed(x[2..], true) == "a-b-c" && Dashed(x[1..], true) == "a-b-c";
    assert Dashed(x, false) == "-a-b-c";
    NameWithinDashes();
  }

  lemma SecondName()
    ensures Slug("//a/b:c") == "a-b-c"
  {
    var y := "//a/b:c";
    assert Dashed(y[6..], true) == "c" && Dashed(y[5..], false) == "-c" && Dashed(y[4..], true) == "b-c";
    assert Dashed(y[3..], false) == "-b-c" && Dashed(y[2..], true) == "a-b-c" && Dashed(y[1..], true) == "a-b-c";
    assert Dashed(y, false) == "-a-b-c";
    NameWithinDashes();
  }

  lemma NameWithinDashes()
    ensures StripRight(StripLeft("-a-b-c")) == "a-b-c"
  {
    assert "-a-b-c"[1..] == "a-b-c";
  }

  /** Shape b-c of package //a and shape c of package //a/b are given one file name. */
  lemma TwoShapesOneName()
    ensures Slug("//a:b-c") == Slug("//a/b:c") && !SlugsApart(["//a:b-c", "//a/b:c"])
  {
    FirstName();
    SecondName();
    var keys := ["//a:b-c", "//a/b:c"];
    assert keys[0] != keys[1] by { assert keys[0][3] != keys[1][3]; }
  }

  // ---- what a file name is made of ----

  /** A letter, a digit, an underscore, a dot or a dash. */
  predicate Kept(s: string) {
    forall i | 0 <= i < |s| :: s[i] as int in {45, 46, 95} || 48 <= s[i] as int <= 57 || 65 <= s[i] as int <= 90 || 97 <= s[i] as int <= 122
  }

  predicate NoneKept(s: string) { forall i | 0 <= i < |s| :: !Kept([s[i]]) }

  lemma KeptIsSafe(c: char)
    ensures Kept([c]) <==> SafeChar(c)
  {
    assert [c][0] == c;
  }

  lemma {:induction false} KeptStays(kept: string, rest: string, inRun: bool)
    requires Kept(kept) && kept != ""
    ensures Dashed(kept + rest, inRun) == kept + Dashed(rest, false)
  {
    var all := kept + rest;
    KeptIsSafe(kept[0]);
    assert [kept[0]][0] == kept[0] && SafeChar(all[0]) && all[1..] == kept[1..] + rest;
    if |kept| == 1 {
      assert kept[1..] + rest == rest;
    } else {
      assert Kept(kept[1..]);
      KeptStays(kept[1..], rest, false);
    }
  }

  lemma {:induction false} RunIsOver(run: string, rest: string)
    requires NoneKept(run) && (rest == "" || Kept([rest[0]]))
    ensures Dashed(run + rest, true) == Dashed(rest, false)
  {
    if run == "" {
      assert run + rest == rest;
      if rest != "" { KeptIsSafe(rest[0]); }
    } else {
      KeptIsSafe(run[0]);
      assert (run + rest)[1..] == run[1..] + rest && NoneKept(run[1..]);
      RunIsOver(run[1..], rest);
    }
  }

  lemma RunBecomesDash(run: string, rest: string)
    requires NoneKept(run) && run != "" && (rest == "" || Kept([rest[0]]))
    ensures Dashed(run + rest, false) == "-" + Dashed(rest, false)
  {
    var other := run + rest;
    KeptIsSafe(run[0]);
    assert other[0] == run[0] && other[1..] == run[1..] + rest && NoneKept(run[1..]);
    RunIsOver(run[1..], rest);
  }

  lemma KeptIsCopied(kept: string)
    requires Kept(kept)
    ensures Dashed(kept, false) == kept
  {
    assert kept + "" == kept;
    if kept != "" { KeptStays(kept, "", false); }
  }

  lemma KeptThenRun(kept: string, other: string)
    requires Kept(kept)
    ensures Dashed(kept + other, false) == kept + Dashed(other, false)
  {
    if kept == "" {
      assert kept + other == other && kept + Dashed(other, false) == Dashed(other, false);
    } else {
      KeptStays(kept, other, false);
    }
  }

  /** Text is copied as long as it is letters, digits and the like, and each run of other
      characters, as long as it may be, becomes one dash. */
  lemma RunsBecomeDashes(kept: string, run: string, rest: string)
    requires Kept(kept) && NoneKept(run) && run != "" && (rest == "" || Kept([rest[0]]))
    ensures Dashed(kept, false) == kept && Dashed(kept + (run + rest), false) == kept + ("-" + Dashed(rest, false))
  {
    KeptIsCopied(kept);
    RunBecomesDash(run, rest);
    KeptThenRun(kept, run + rest);
  }

  predicate Dashes(s: string) { forall i | 0 <= i < |s| :: s[i] == '-' }

  lemma {:induction false} LeftDashes(s: string) returns (k: nat)
    ensures k <= |s| && Dashes(s[..k]) && StripLeft(s) == s[k..] && (k < |s| ==> s[k] != '-')
  {
    if s == "" || s[0] != '-' {
      k := 0;
    } else {
      var n := LeftDashes(s[1..]);
      k := n + 1;
      assert s[1..][n..] == s[k..];
      forall i | 0 <= i < k ensures s[i] == '-' { if i > 0 { assert s[1..][..n][i - 1] == s[i]; } }
    }
  }

  lemma {:induction false} RightDashes(s: string) returns (k: nat)
    ensures k <= |s| && Dashes(s[k..]) && StripRight(s) == s[..k] && (k > 0 ==> s[k - 1] != '-')
  {
    var n := |s|;
    if s == "" || s[n - 1] != '-' {
      k := n;
    } else {
      k := RightDashes(s[..n - 1]);
      assert s[..n - 1][..k] == s[..k];
      forall i | k <= i < n ensures s[i] == '-' { if i < n - 1 { assert s[..n - 1][k..][i - k] == s[i]; } }
    }
  }

  /** The name is that text without the dashes at its ends, or "image" if it is nothing
      but dashes. */
  lemma SlugIsDashedText(text: string) returns (left: string, right: string)
    ensures Dashes(left) && Dashes(right)
    ensures (Dashed(text, false) == left + right && Slug(text) == "image") || Dashed(text, false) == left + Slug(text) + right
  {
    var d := Dashed(text, false);
    var i := LeftDashes(d);
    var rest := d[i..];
    var j := RightDashes(rest);
    left, right := d[..i], rest[j..];
    assert d == left + rest && rest == rest[..j] + right;
    if rest[..j] == "" { assert rest == right; }
  }

  /** A request that has rendered is given the file whenever there is one, though it wrote
      none itself - and gets nothing, and leaves the key to be tried again, only if neither
      it nor any request before it, of this key or another, wrote a file of that name. */
  lemma AnsweredIfFileThere(keys: seq<string>, s: State, t: nat, wrote: bool)
    requires Enabled(keys, s, RenderEnds(t, wrote))
    ensures var s', name := Apply(keys, s, RenderEnds(t, wrote)), Slug(keys[t]);
            && s'.phase[t] == Done(if wrote || name in s.files then Some(name) else None)
            && (keys[t] in s'.rendered <==> keys[t] in s.rendered || wrote || name in s.files)
  {}
}
