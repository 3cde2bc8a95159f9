/** Placing an item of an assembly by connecting it to another one
    (src/partcad/assembly_factory_assy.py).

    Where the ports are is worked out before; what is modelled is the placement that
    follows from them, and the root placement that moves a whole file. */
module Placement {
  import opened Geometry
  import opened Wrappers

  const Z_AXIS := Vec(0.0, 0.0, 1.0)
  const TURN_AXIS := Vec(0.71, 0.71, 0.0)

  /** Half a turn about the diagonal of the XY plane: cos 90 is 0, sin 90 is 1. */
  function TurnAround(norm: real): Location
    requires norm > 0.0 && norm * norm == Dot(TURN_AXIS, TURN_AXIS)
  {
    Location(AxisAngleToQuat(TURN_AXIS, norm, 0.0, 1.0).value, ORIGIN)
  }

  function Compose(start: Location, offsets: seq<Location>): Location
    decreases |offsets|
  {
    if offsets == [] then start else Compose(start, offsets[..|offsets|-1]).Mul(offsets[|offsets|-1])
  }

  predicate AllValid(s: seq<Location>) {
    forall i | 0 <= i < |s| :: s[i].Valid()
  }

  /** Both ends of a connection, as far as they are known. */
  datatype Ends = Ends(
    target: Location,
    targetPort: Option<Location>,
    sourcePort: Option<Location>,
    targetOffsets: seq<Location>,
    sourceOffsets: seq<Location>)
  {
    predicate Valid() {
      && target.Valid() && (targetPort.Some? ==> targetPort.value.Valid()) && (sourcePort.Some? ==> sourcePort.value.Valid())
      && AllValid(targetOffsets) && AllValid(sourceOffsets)
    }

    /** The frame the item is put against, before it turns to face it. */
    function TargetFrame(): Location {
      if targetPort.Some? then target.Mul(targetPort.value) else target
    }

    /** The offsets that apply: an end without a port takes none, and without any
        port there are none. */
    function Offsets(): seq<Location> {
      (if targetPort.Some? then targetOffsets else []) + (if sourcePort.Some? then sourceOffsets else [])
    }
  }

  /** The source port's frame once the item is placed at `location`. */
  function MatedFrame(e: Ends, location: Location): Location {
    if e.sourcePort.Some? then location.Mul(e.sourcePort.value) else location
  }

  /** The placement of the connected item. */
  method Connect(e: Ends, norm: real) returns (location: Location)
    requires norm > 0.0 && norm * norm == Dot(TURN_AXIS, TURN_AXIS)
    ensures location == Placed(e, TurnAround(norm))
  {
    var turn := TurnAround(norm);
    if e.sourcePort.Some? && e.targetPort.Some? {
      location := e.target.Mul(e.targetPort.value).Mul(turn);
      location := ApplyOffsets(location, e.targetOffsets);
      location := ApplyOffsets(location, e.sourceOffsets);
      location := location.Mul(e.sourcePort.value.Inverse());
    } else if e.sourcePort.None? && e.targetPort.Some? {
      location := e.target.Mul(e.targetPort.value).Mul(turn);
      location := ApplyOffsets(location, e.targetOffsets);
    } else if e.sourcePort.Some? {
      location := e.target.Mul(turn);
      location := ApplyOffsets(location, e.sourceOffsets);
      location := location.Mul(e.sourcePort.value.Inverse());
    } else {
      location := e.target.Mul(turn);
    }
    ComposeTwice(e.TargetFrame().Mul(turn), e.targetOffsets, e.sourceOffsets);
    assert [] + e.sourceOffsets == e.sourceOffsets && e.targetOffsets + [] == e.targetOffsets;
  }

  class AssemblyChild {
    var location: Option<Location>

    constructor (location: Option<Location>)
      ensures this.location == location
    {
      this.location := location;
    }
  }

  /** What became of a connection: there was no such target and the item stays unplaced,
      the target itself is unplaced and multiplying its location raises, or a location. */
  datatype Connected = NoTarget | Raised | At(location: Location)

  /** Connecting to the child that was found, if one was. */
  method ConnectToChild(child: Option<AssemblyChild>, targetPort: Option<Location>, sourcePort: Option<Location>,
                        targetOffsets: seq<Location>, sourceOffsets: seq<Location>, norm: real)
    returns (r: Connected)
    requires norm > 0.0 && norm * norm == Dot(TURN_AXIS, TURN_AXIS)
    ensures r.NoTarget? <==> child.None?
    ensures r.Raised? <==> child.Some? && child.value.location.None?
    ensures r.At? ==> r.location == Placed(Ends(child.value.location.value, targetPort, sourcePort, targetOffsets, sourceOffsets), TurnAround(norm))
  {
    if child.None? { return NoTarget; }
    if child.value.location.None? { return Raised; }
    var location := Connect(Ends(child.value.location.value, targetPort, sourcePort, targetOffsets, sourceOffsets), norm);
    r := At(location);
  }

  method ApplyOffsets(start: Location, offsets: seq<Location>) returns (location: Location)
    ensures location == Compose(start, offsets)
  {
    location := start;
    for i := 0 to |offsets|
      invariant location == Compose(start, offsets[..i])
    {
      location := location.Mul(offsets[i]);
      assert offsets[..i+1][..i] == offsets[..i];
    }
    assert offsets[..|offsets|] == offsets;
  }

  /** Pulled back by the source port, when there is one. */
  function Placed(e: Ends, turn: Location): Location {
    var frame := Compose(e.TargetFrame().Mul(turn), e.Offsets());
    if e.sourcePort.Some? then frame.Mul(e.sourcePort.value.Inverse()) else frame
  }

  lemma {:induction false} ComposeTwice(start: Location, a: seq<Location>, b: seq<Location>)
    ensures Compose(Compose(start, a), b) == Compose(start, a + b)
    decreases |b|
  {
    if b == [] {
      assert a + b == a;
    } else {
      ComposeTwice(start, a, b[..|b|-1]);
      assert (a + b)[..|a + b|-1] == a + b[..|b|-1];
    }
  }

  lemma {:induction false} ComposeIsValid(start: Location, offsets: seq<Location>)
    requires start.Valid() && AllValid(offsets)
    ensures Compose(start, offsets).Valid()
    decreases |offsets|
  {
    if offsets != [] {
      var rest, last := offsets[..|offsets|-1], offsets[|offsets|-1];
      ComposeIsValid(start, rest);
      MulIsComposition(Compose(start, rest), last, ORIGIN);
    }
  }

  // ---- the turn-around ----

  lemma HalfSquare(h: real, norm: real)
    requires norm > 0.0 && norm * norm == 0.71 * 0.71 + 0.71 * 0.71 && h * norm == 0.71
    ensures 2.0 * (h * h) == 1.0
  {
    UnitAxis(h, h, 0.0, norm, 0.71, 0.71, 0.0);
  }

  /** Half a turn about the XY diagonal, by the size h of its two entries. */
  function Diagonal(h: real): Location { Location(Quat(0.0, h, h, 0.0), ORIGIN) }

  lemma TurnAroundIsDiagonal(norm: real) returns (h: real)
    requires norm > 0.0 && norm * norm == Dot(TURN_AXIS, TURN_AXIS)
    ensures TurnAround(norm) == Diagonal(h) && 2.0 * (h * h) == 1.0
  {
    h := 0.71 / norm;
    HalfSquare(h, norm);
  }

  lemma DiagonalRows(h: real, a: real, b: real, c: real)
    requires 2.0 * (h * h) == 1.0
    ensures RowX(0.0, h, h, 0.0, a, b, c) == b
    ensures RowY(0.0, h, h, 0.0, a, b, c) == a
    ensures RowZ(0.0, h, h, 0.0, a, b, c) == -c
  {
    var k := h * h;
    assert 2.0 * k == 1.0;
  }

  lemma HalfTurn(h: real, v: Vec)
    requires 2.0 * (h * h) == 1.0
    ensures Diagonal(h).RotateVector(v) == Vec(v.y, v.x, -v.z)
  {
    DiagonalRows(h, v.x, v.y, v.z);
  }

  lemma DiagonalIsUnit(h: real)
    requires 2.0 * (h * h) == 1.0
    ensures Diagonal(h).Valid()
  {
    var k := h * h;
    assert NormSquared(Quat(0.0, h, h, 0.0)) == k + k;
  }

  lemma TransformedTwice(t: Location, v: Vec, w: Vec)
    requires t.Valid() && t.TransformPoint(v) == w && t.TransformPoint(w) == v
    ensures t.Mul(t).TransformPoint(v) == v
  {
    MulIsComposition(t, t, v);
  }

  lemma HalfTurnOfPoint(h: real, v: Vec)
    requires 2.0 * (h * h) == 1.0
    ensures Diagonal(h).TransformPoint(v) == Vec(v.y, v.x, -v.z)
  {
    HalfTurn(h, v);
  }

  lemma TwoHalfTurns(h: real, v: Vec)
    requires 2.0 * (h * h) == 1.0
    ensures Diagonal(h).Mul(Diagonal(h)).TransformPoint(v) == v
  {
    DiagonalIsUnit(h);
    HalfTurnOfPoint(h, v);
    HalfTurnOfPoint(h, Vec(v.y, v.x, -v.z));
    TransformedTwice(Diagonal(h), v, Vec(v.y, v.x, -v.z));
  }

  /** The turn-around swaps X and Y and reverses Z; it is rigid, stays put, and done
      twice it turns nothing. */
  lemma TurnAroundIsInvolution(norm: real, v: Vec)
    requires norm > 0.0 && norm * norm == Dot(TURN_AXIS, TURN_AXIS)
    ensures var t := TurnAround(norm);
            && t.Valid() && t.t == ORIGIN
            && t.RotateVector(v) == Vec(v.y, v.x, -v.z)
            && t.RotateVector(t.RotateVector(v)) == v
            && t.Mul(t).TransformPoint(v) == v
  {
    var h := TurnAroundIsDiagonal(norm);
    DiagonalIsUnit(h);
    HalfTurn(h, v);
    HalfTurn(h, Vec(v.y, v.x, -v.z));
    TwoHalfTurns(h, v);
  }

  // ---- what a connection achieves ----

  /** The placed item's source port frame is exactly the target's port frame, turned
      around and moved by the offsets. */
  lemma PortsMate(e: Ends, turn: Location)
    requires e.Valid() && turn.Valid()
    ensures Placed(e, turn).Valid()
    ensures MatedFrame(e, Placed(e, turn)) == Compose(e.TargetFrame().Mul(turn), e.Offsets())
  {
    var start := e.TargetFrame();
    if e.targetPort.Some? { MulIsComposition(e.target, e.targetPort.value, ORIGIN); }
    MulIsComposition(start, turn, ORIGIN);
    ComposeIsValid(start.Mul(turn), e.Offsets());
    var frame := Compose(start.Mul(turn), e.Offsets());
    if e.sourcePort.Some? {
      var s := e.sourcePort.value;
      InverseUndoes(s);
      MulIsComposition(frame, s.Inverse(), ORIGIN);
      LocationsAssociate(frame, s.Inverse(), s);
      IdentityIsNeutral(frame);
    }
  }

  // ---- the same, point by point ----

  /** Each point is where the offset before it takes the next. */
  predicate Passes(offsets: seq<Location>, ps: seq<Vec>) {
    |ps| == |offsets| + 1 && forall i | 0 <= i < |offsets| :: ps[i] == offsets[i].TransformPoint(ps[i + 1])
  }

  lemma {:induction false} ComposePasses(start: Location, offsets: seq<Location>, ps: seq<Vec>)
    requires start.Valid() && AllValid(offsets) && Passes(offsets, ps)
    ensures Compose(start, offsets).TransformPoint(ps[|offsets|]) == start.TransformPoint(ps[0])
    decreases |offsets|
  {
    if offsets != [] {
      var n := |offsets| - 1;
      ComposePasses(start, offsets[..n], ps[..n + 1]);
      ComposeIsValid(start, offsets[..n]);
      MulIsComposition(Compose(start, offsets[..n]), offsets[n], ps[n + 1]);
    }
  }

  /** Where the item's points get to: through its own port, if it has one, then through
      the offsets that apply, the sources' first, then through the turn-around and the
      target's port, if that has one, and with the target. */
  lemma PlacedPointByPoint(e: Ends, turn: Location, offsets: seq<Location>, ps: seq<Vec>)
    requires e.Valid() && turn.Valid() && Passes(offsets, ps)
    ensures e.targetPort.Some? && e.sourcePort.Some? && offsets == e.targetOffsets + e.sourceOffsets ==>
              Placed(e, turn).TransformPoint(e.sourcePort.value.TransformPoint(ps[|ps|-1]))
                == e.target.TransformPoint(e.targetPort.value.TransformPoint(turn.TransformPoint(ps[0])))
    ensures e.targetPort.Some? && e.sourcePort.None? && offsets == e.targetOffsets ==>
              Placed(e, turn).TransformPoint(ps[|ps|-1])
                == e.target.TransformPoint(e.targetPort.value.TransformPoint(turn.TransformPoint(ps[0])))
    ensures e.targetPort.None? && e.sourcePort.Some? && offsets == e.sourceOffsets ==>
              Placed(e, turn).TransformPoint(e.sourcePort.value.TransformPoint(ps[|ps|-1]))
                == e.target.TransformPoint(turn.TransformPoint(ps[0]))
    ensures e.targetPort.None? && e.sourcePort.None? && offsets == [] ==>
              Placed(e, turn).TransformPoint(ps[0]) == e.target.TransformPoint(turn.TransformPoint(ps[0]))
  {
    if offsets == e.Offsets() {
      PortsMate(e, turn);
      StartByPoint(e, turn, ps[0]);
      ComposePasses(e.TargetFrame().Mul(turn), offsets, ps);
      if e.sourcePort.Some? { MulIsComposition(Placed(e, turn), e.sourcePort.value, ps[|ps|-1]); }
    }
    assert [] + e.sourceOffsets == e.sourceOffsets && e.targetOffsets + [] == e.targetOffsets;
  }

  lemma StartByPoint(e: Ends, turn: Location, p: Vec)
    requires e.Valid() && turn.Valid()
    ensures e.TargetFrame().Valid() && e.TargetFrame().Mul(turn).Valid()
    ensures e.TargetFrame().Mul(turn).TransformPoint(p)
         == e.target.TransformPoint(if e.targetPort.Some? then e.targetPort.value.TransformPoint(turn.TransformPoint(p)) else turn.TransformPoint(p))
  {
    if e.targetPort.Some? { MulIsComposition(e.target, e.targetPort.value, turn.TransformPoint(p)); }
    MulIsComposition(e.TargetFrame(), turn, p);
  }

  /** With no offsets the two ports meet at one point and face each other. */
  lemma PortsMeetFaceToFace(e: Ends, norm: real)
    requires e.Valid() && norm > 0.0 && norm * norm == Dot(TURN_AXIS, TURN_AXIS)
    requires e.targetOffsets == [] && e.sourceOffsets == []
    ensures var mated := MatedFrame(e, Placed(e, TurnAround(norm)));
            && mated.t == e.TargetFrame().t
            && mated.RotateVector(Z_AXIS) == Negate(e.TargetFrame().RotateVector(Z_AXIS))
  {
    var turn, frame := TurnAround(norm), e.TargetFrame();
    TurnAroundIsInvolution(norm, Z_AXIS);
    PortsMate(e, turn);
    if e.targetPort.Some? { MulIsComposition(e.target, e.targetPort.value, ORIGIN); }
    MulIsComposition(frame, turn, Z_AXIS);
    RotationIsAdditive(frame.q, ORIGIN, Z_AXIS);
    assert turn.RotateVector(Z_AXIS) == Negate(Z_AXIS);
  }

  /** Only the relative placement matters: moving the target moves the item with it. */
  lemma PlacementFollowsTarget(e: Ends, turn: Location, move: Location)
    requires e.Valid() && turn.Valid() && move.Valid()
    ensures Placed(e.(target := move.Mul(e.target)), turn) == move.Mul(Placed(e, turn))
  {
    var start, offsets := e.TargetFrame(), e.Offsets();
    if e.targetPort.Some? {
      MulIsComposition(e.target, e.targetPort.value, ORIGIN);
      LocationsAssociate(move, e.target, e.targetPort.value);
    }
    MulIsComposition(start, turn, ORIGIN);
    LocationsAssociate(move, start, turn);
    ComposeFollows(move, start.Mul(turn), offsets);
    ComposeIsValid(start.Mul(turn), offsets);
    if e.sourcePort.Some? {
      InverseUndoes(e.sourcePort.value);
      LocationsAssociate(move, Compose(start.Mul(turn), offsets), e.sourcePort.value.Inverse());
    }
  }

  lemma {:induction false} ComposeFollows(move: Location, start: Location, offsets: seq<Location>)
    requires move.Valid() && start.Valid() && AllValid(offsets)
    ensures Compose(move.Mul(start), offsets) == move.Mul(Compose(start, offsets))
    decreases |offsets|
  {
    if offsets != [] {
      var rest, last := offsets[..|offsets|-1], offsets[|offsets|-1];
      ComposeFollows(move, start, rest);
      ComposeIsValid(start, rest);
      LocationsAssociate(move, Compose(start, rest), last);
    }
  }

  /** The point and direction recorded with a connection: where the ports meet, and
      the way the item comes off, against its own port's facing. */
  datatype Joint = Joint(point: Vec, direction: Vec)

  function ConnectionInfo(e: Ends): Option<Joint> {
    if e.targetPort.None? then None
    else
      var frame := e.target.Mul(e.targetPort.value);
      Some(Joint(frame.t, frame.RotateVector(Z_AXIS)))
  }

  /** Recorded exactly if the target's port is known, whatever the offsets: the port's
      origin and its Z axis, as the target has them. */
  lemma JointIsTheTargetPort(e: Ends)
    requires e.Valid()
    ensures ConnectionInfo(e).Some? <==> e.targetPort.Some?
    ensures e.targetPort.Some? ==>
              && ConnectionInfo(e).value.point == e.target.TransformPoint(e.targetPort.value.t)
              && ConnectionInfo(e).value.direction == e.target.RotateVector(e.targetPort.value.RotateVector(Vec(0.0, 0.0, 1.0)))
  {
    if e.targetPort.Some? { MulIsComposition(e.target, e.targetPort.value, Z_AXIS); }
  }

  lemma RecordedJointIsTheMatedPort(e: Ends, norm: real)
    requires e.Valid() && norm > 0.0 && norm * norm == Dot(TURN_AXIS, TURN_AXIS)
    requires e.targetPort.Some? && e.targetOffsets == [] && e.sourceOffsets == []
    ensures var mated, joint := MatedFrame(e, Placed(e, TurnAround(norm))), ConnectionInfo(e).value;
            && joint.point == mated.TransformPoint(ORIGIN)
            && joint.direction == Negate(mated.RotateVector(Z_AXIS))
            && Dot(joint.direction, joint.direction) == 1.0
  {
    var mated := MatedFrame(e, Placed(e, TurnAround(norm)));
    PortsMeetFaceToFace(e, norm);
    RotationIsAdditive(mated.q, ORIGIN, ORIGIN);
    MulIsComposition(e.target, e.targetPort.value, ORIGIN);
    RotationIsProper(e.TargetFrame().q, Z_AXIS, Z_AXIS);
  }

  // ---- the root placement ----

  /** Move everything the file holds by where its root node says it is. */
  method ApplyRootPlacement(children: seq<AssemblyChild>, root: Option<Location>)
    requires forall i, j | 0 <= i < j < |children| :: children[i] != children[j]
    modifies set c | c in children
    ensures root.None? ==> forall i | 0 <= i < |children| :: children[i].location == old(children[i].location)
    ensures root.Some? ==> forall i | 0 <= i < |children| :: children[i].location == Some(Moved(root.value, old(children[i].location)))
  {
    if root.Some? {
      for k := 0 to |children|
        invariant forall i | 0 <= i < k :: children[i].location == Some(Moved(root.value, old(children[i].location)))
        invariant forall i | k <= i < |children| :: children[i].location == old(children[i].location)
      {
        var c := children[k];
        c.location := Some(if c.location.None? then root.value else root.value.Mul(c.location.value));
      }
    }
  }

  function Moved(placement: Location, location: Option<Location>): Location {
    if location.None? then placement else placement.Mul(location.value)
  }

  lemma InverseOfProduct(a: Location, b: Location)
    requires a.Valid() && b.Valid()
    ensures a.Mul(b).Inverse() == b.Inverse().Mul(a.Inverse())
  {
    var ab, i, j := a.Mul(b), a.Inverse(), b.Inverse();
    MulIsComposition(a, b, ORIGIN);
    InverseUndoes(a);
    InverseUndoes(b);
    InverseUndoes(ab);
    MulIsComposition(j, i, ORIGIN);
    calc {
      j.Mul(i).Mul(ab);
      { LocationsAssociate(j, i, ab); LocationsAssociate(i, a, b); IdentityIsNeutral(b); }
      j.Mul(b);
      IDENTITY;
    }
    LocationsAssociate(j.Mul(i), ab, ab.Inverse());
    IdentityIsNeutral(j.Mul(i));
    IdentityIsNeutral(ab.Inverse());
  }

  /** What the root placement does to an item's points: they go where the item puts them,
      if it has a location, and from there with the placement. */
  lemma MovedPointByPoint(placement: Location, location: Option<Location>, p: Vec)
    requires placement.Valid() && (location.Some? ==> location.value.Valid())
    ensures Moved(placement, location).TransformPoint(p)
         == placement.TransformPoint(if location.Some? then location.value.TransformPoint(p) else p)
  {
    if location.Some? { MulIsComposition(placement, location.value, p); }
  }

  /** Where an item without a location is: where the file has its origin. */
  function Effective(location: Option<Location>): Location {
    if location.None? then IDENTITY else location.value
  }

  lemma MovedIsComposed(placement: Location, location: Option<Location>)
    ensures Moved(placement, location) == placement.Mul(Effective(location))
  {
    IdentityIsNeutral(placement);
  }

  lemma MovedTogether(p: Location, a: Location, b: Location)
    requires p.Valid() && a.Valid() && b.Valid()
    ensures p.Mul(a).Inverse().Mul(p.Mul(b)) == a.Inverse().Mul(b)
  {
    var i := a.Inverse();
    InverseUndoes(p);
    InverseUndoes(a);
    InverseOfProduct(p, a);
    MulIsComposition(p, b, ORIGIN);
    LocationsAssociate(i, p.Inverse(), p.Mul(b));
    LocationsAssociate(p.Inverse(), p, b);
    IdentityIsNeutral(b);
  }

  /** Moving all the items together keeps every one where it was relative to the others,
      those without a location of their own too. */
  lemma RootPlacementKeepsConnections(placement: Location, a: Option<Location>, b: Option<Location>)
    requires placement.Valid() && (a.Some? ==> a.value.Valid()) && (b.Some? ==> b.value.Valid())
    ensures Moved(placement, a).Inverse().Mul(Moved(placement, b)) == Effective(a).Inverse().Mul(Effective(b))
  {
    MovedIsComposed(placement, a);
    MovedIsComposed(placement, b);
    IdentityIsNeutral(placement);
    MovedTogether(placement, Effective(a), Effective(b));
  }
}
