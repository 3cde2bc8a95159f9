/** The mates of interfaces, and the interfaces by which two shapes mate
    (src/partcad/context.py: add_mate, _add_mate, get_mate, find_mating_interfaces).

    An interface is known by its full name, and two with one name are one.  What an
    interface is compatible with is a parameter. */
module Matings {
  import opened Wrappers

  datatype Mating = Mating(source: string, target: string, config: string, reverse: bool)

  type Mates = map<string, map<string, Mating>>

  function Peers(mates: Mates, i: string): map<string, Mating> { if i in mates then mates[i] else map[] }

  function MateOf(mates: Mates, source: string, target: string): Option<Mating> {
    var peers := Peers(mates, source);
    if target in peers then Some(peers[target]) else None
  }

  /** One direction of a mate, unless there is one already. */
  function WithMate(mates: Mates, source: string, target: string, config: string, reverse: bool): Mates {
    var peers := Peers(mates, source);
    mates[source := if target in peers then peers else peers[target := Mating(source, target, config, reverse)]]
  }

  datatype Call = Call(source: string, target: string, config: string)

  function WithCall(mates: Mates, c: Call): Mates {
    var there := WithMate(mates, c.source, c.target, c.config, false);
    if c.target != c.source then WithMate(there, c.target, c.source, c.config, true) else there
  }

  function AfterCalls(calls: seq<Call>): Mates {
    if calls == [] then map[] else WithCall(AfterCalls(calls[..|calls|-1]), calls[|calls|-1])
  }

  // ---- the table over any run of calls ----

  function Mirror(m: Mating): Mating { Mating(m.target, m.source, m.config, !m.reverse) }

  /** Each mate is filed under its two names, and from the other side is its mirror; a
      mate of an interface with itself is never a reverse one. */
  ghost predicate Symmetric(mates: Mates) {
    forall a, b :: MirrorOk(mates, a, b)
  }

  ghost predicate MirrorOk(mates: Mates, a: string, b: string) {
    var m := MateOf(mates, a, b);
    m.Some? ==>
      && m.value.source == a && m.value.target == b
      && if a == b then !m.value.reverse else MateOf(mates, b, a) == Some(Mirror(m.value))
  }

  lemma MateOfWith(mates: Mates, source: string, target: string, config: string, reverse: bool, a: string, b: string)
    ensures MateOf(WithMate(mates, source, target, config, reverse), a, b)
         == if a == source && b == target && MateOf(mates, a, b).None? then Some(Mating(source, target, config, reverse)) else MateOf(mates, a, b)
  {}

  predicate Joins(c: Call, a: string, b: string) {
    (c.source == a && c.target == b) || (c.source == b && c.target == a)
  }

  /** The mate as it is seen from a, if c is what made it. */
  function Made(c: Call, a: string, b: string): Mating { Mating(a, b, c.config, c.source != a) }

  lemma CallMakesOnePair(mates: Mates, c: Call, a: string, b: string)
    requires MateOf(mates, a, b).None? <==> MateOf(mates, b, a).None?
    ensures MateOf(WithCall(mates, c), a, b)
         == if Joins(c, a, b) && MateOf(mates, a, b).None? then Some(Made(c, a, b)) else MateOf(mates, a, b)
  {
    MateOfWith(mates, c.source, c.target, c.config, false, a, b);
    var there := WithMate(mates, c.source, c.target, c.config, false);
    MateOfWith(there, c.target, c.source, c.config, true, a, b);
  }

  lemma {:induction false} TableIsSymmetric(calls: seq<Call>)
    ensures Symmetric(AfterCalls(calls))
  {
    if calls != [] {
      var before, c := AfterCalls(calls[..|calls|-1]), calls[|calls|-1];
      TableIsSymmetric(calls[..|calls|-1]);
      forall a, b ensures MirrorOk(WithCall(before, c), a, b) {
        assert MirrorOk(before, a, b) && MirrorOk(before, b, a);
        CallMakesOnePair(before, c, a, b);
        CallMakesOnePair(before, c, b, a);
      }
    }
  }

  /** The first call that joins two interfaces decides their mate, whichever of the two
      it called the source; later ones change nothing. */
  function FirstJoining(calls: seq<Call>, a: string, b: string): Option<Call> {
    if calls == [] then None
    else if Joins(calls[0], a, b) then Some(calls[0])
    else FirstJoining(calls[1..], a, b)
  }

  lemma {:induction false} FirstJoiningOfLonger(calls: seq<Call>, c: Call, a: string, b: string)
    ensures FirstJoining(calls + [c], a, b)
         == if FirstJoining(calls, a, b).Some? then FirstJoining(calls, a, b) else if Joins(c, a, b) then Some(c) else None
  {
    if calls != [] {
      assert (calls + [c])[1..] == calls[1..] + [c];
      FirstJoiningOfLonger(calls[1..], c, a, b);
    }
  }

  lemma {:induction false} FirstCallDecides(calls: seq<Call>, a: string, b: string)
    ensures var first := FirstJoining(calls, a, b);
            MateOf(AfterCalls(calls), a, b) == if first.Some? then Some(Made(first.value, a, b)) else None
  {
    if calls != [] {
      var rest, c := calls[..|calls|-1], calls[|calls|-1];
      assert calls == rest + [c];
      FirstCallDecides(rest, a, b);
      FirstJoiningOfLonger(rest, c, a, b);
      TableIsSymmetric(rest);
      assert MirrorOk(AfterCalls(rest), a, b) && MirrorOk(AfterCalls(rest), b, a);
      CallMakesOnePair(AfterCalls(rest), c, a, b);
    }
  }

  // ---- the interfaces by which two shapes mate ----

  type Compatibility = string -> set<string>

  /** What an interface can stand for: itself and what it is compatible with. */
  function StandsFor(compatible: Compatibility, i: string): set<string> { {i} + compatible(i) }

  predicate Mate(mates: Mates, a: string, b: string) { b in Peers(mates, a) }

  /** A real interface of one shape mates with the other shape: something it stands for
      is filed under something that an interface of the other stands for. */
  ghost predicate MatesWith(mates: Mates, compatible: Compatibility, actual: string, others: set<string>) {
    exists i, other, j :: i in StandsFor(compatible, actual) && other in others && j in StandsFor(compatible, other) && Mate(mates, j, i)
  }

  ghost predicate IsMatingSide(mates: Mates, compatible: Compatibility, interfaces: set<string>, others: set<string>, side: set<string>) {
    forall r :: r in side <==> r in interfaces && MatesWith(mates, compatible, r, others)
  }

  /** Swapping the shapes swaps the answers. */
  lemma SwappedShapes(mates: Mates, compatible: Compatibility, a: set<string>, b: set<string>,
                      x: set<string>, y: set<string>, x': set<string>, y': set<string>)
    requires IsMatingSide(mates, compatible, a, b, x) && IsMatingSide(mates, compatible, b, a, y)
    requires IsMatingSide(mates, compatible, b, a, x') && IsMatingSide(mates, compatible, a, b, y')
    ensures x' == y && y' == x
  {
    forall r ensures (r in x' <==> r in y) && (r in y' <==> r in x) {}
  }

  lemma OneSideHasOther(mates: Mates, compatible: Compatibility, a: set<string>, b: set<string>, x: set<string>, y: set<string>)
    requires Symmetric(mates)
    requires IsMatingSide(mates, compatible, a, b, x) && IsMatingSide(mates, compatible, b, a, y)
    ensures x != {} ==> y != {}
  {
    if x != {} {
      var r :| r in x;
      var i, other, j :| i in StandsFor(compatible, r) && other in b && j in StandsFor(compatible, other) && Mate(mates, j, i);
      assert MirrorOk(mates, j, i);
      assert MateOf(mates, j, i).Some? && MateOf(mates, i, j).Some?;
      assert Mate(mates, i, j);
      assert other in y;
    }
  }

  /** Either both shapes have a mating interface or neither has. */
  lemma BothSidesOrNeither(calls: seq<Call>, compatible: Compatibility, a: set<string>, b: set<string>, x: set<string>, y: set<string>)
    requires IsMatingSide(AfterCalls(calls), compatible, a, b, x) && IsMatingSide(AfterCalls(calls), compatible, b, a, y)
    ensures x == {} <==> y == {}
  {
    TableIsSymmetric(calls);
    OneSideHasOther(AfterCalls(calls), compatible, a, b, x, y);
    OneSideHasOther(AfterCalls(calls), compatible, b, a, y, x);
  }

  /** Call k names something that the one stands for and something that the other does. */
  predicate CallJoins(calls: seq<Call>, compatible: Compatibility, actual: string, other: string, i: string, j: string, k: nat) {
    && (i == actual || i in compatible(actual)) && (j == other || j in compatible(other))
    && k < |calls| && Between(calls[k], i, j)
  }

  lemma ThroughACall(calls: seq<Call>, compatible: Compatibility, actual: string, others: set<string>)
    returns (other: string, i: string, j: string, k: nat)
    requires MatesWith(AfterCalls(calls), compatible, actual, others)
    ensures other in others && CallJoins(calls, compatible, actual, other, i, j, k)
  {
    i, other, j :| i in StandsFor(compatible, actual) && other in others && j in StandsFor(compatible, other) && Mate(AfterCalls(calls), j, i);
    MateIsACall(calls, i, j);
    k :| 0 <= k < |calls| && Between(calls[k], i, j);
  }

  lemma FromACall(calls: seq<Call>, compatible: Compatibility, actual: string, others: set<string>, other: string, i: string, j: string, k: nat)
    requires other in others && CallJoins(calls, compatible, actual, other, i, j, k)
    ensures MatesWith(AfterCalls(calls), compatible, actual, others)
  {
    MateIsACall(calls, i, j);
    assert i in StandsFor(compatible, actual) && j in StandsFor(compatible, other) && Mate(AfterCalls(calls), j, i);
  }

  /** In terms of the calls: an interface mates with the other shape exactly when some
      call joined, in either order, things that the two stand for. */
  lemma MatesThroughACall(calls: seq<Call>, compatible: Compatibility, actual: string, others: set<string>)
    ensures MatesWith(AfterCalls(calls), compatible, actual, others) <==>
              exists other, i, j, k :: other in others && CallJoins(calls, compatible, actual, other, i, j, k)
  {
    if MatesWith(AfterCalls(calls), compatible, actual, others) {
      var other, i, j, k := ThroughACall(calls, compatible, actual, others);
    }
    if other, i, j, k :| other in others && CallJoins(calls, compatible, actual, other, i, j, k) {
      FromACall(calls, compatible, actual, others, other, i, j, k);
    }
  }

  lemma MateIsACall(calls: seq<Call>, i: string, j: string)
    ensures Mate(AfterCalls(calls), j, i) <==> exists k :: 0 <= k < |calls| && Between(calls[k], i, j)
  {
    var mates := AfterCalls(calls);
    FirstCallDecides(calls, j, i);
    FirstCallDecides(calls, i, j);
    JoiningIsBetween(calls, i, j);
    TableIsSymmetric(calls);
    assert MirrorOk(mates, i, j) && MirrorOk(mates, j, i);
    assert MateOf(mates, j, i).Some? <==> Mate(mates, j, i);
  }

  /** The call names these two, in either order. */
  predicate Between(c: Call, a: string, b: string) { {c.source, c.target} == {a, b} }

  lemma BetweenIsJoins(c: Call, a: string, b: string)
    ensures Between(c, a, b) <==> Joins(c, a, b)
  {
    if Between(c, a, b) { assert c.source in {a, b} && c.target in {a, b} && a in {c.source, c.target} && b in {c.source, c.target}; }
  }

  lemma {:induction false} JoiningIsBetween(calls: seq<Call>, a: string, b: string)
    ensures FirstJoining(calls, a, b).Some? <==> exists k :: 0 <= k < |calls| && Between(calls[k], a, b)
  {
    if calls != [] {
      BetweenIsJoins(calls[0], a, b);
      JoiningIsBetween(calls[1..], a, b);
      if Joins(calls[0], a, b) {
        assert Between(calls[0], a, b);
      } else {
        if k :| 0 <= k < |calls| && Between(calls[k], a, b) { assert calls[1..][k - 1] == calls[k]; }
        if k :| 0 <= k < |calls[1..]| && Between(calls[1..][k], a, b) { assert calls[1..][k] == calls[k + 1]; }
      }
    }
  }

  lemma {:induction false} FirstJoiningIs(calls: seq<Call>, k: nat, a: string, b: string)
    requires k < |calls| && Between(calls[k], a, b) && forall j | 0 <= j < k :: !Between(calls[j], a, b)
    ensures FirstJoining(calls, a, b) == Some(calls[k])
  {
    BetweenIsJoins(calls[0], a, b);
    if k > 0 { FirstJoiningIs(calls[1..], k - 1, a, b); }
  }

  /** The first call between two interfaces files their mate as it says: under its source
      and target as they are, and under the two swapped as a reverse one. */
  lemma FiledAsCalled(calls: seq<Call>, k: nat, a: string, b: string, config: string)
    requires k < |calls| && calls[k] == Call(a, b, config) && forall j | 0 <= j < k :: !Between(calls[j], a, b)
    ensures MateOf(AfterCalls(calls), a, b) == Some(Mating(a, b, config, false))
    ensures a != b ==> MateOf(AfterCalls(calls), b, a) == Some(Mating(b, a, config, true))
  {
    assert {b, a} == {a, b};
    FirstJoiningIs(calls, k, a, b);
    FirstJoiningIs(calls, k, b, a);
    FirstCallDecides(calls, a, b);
    FirstCallDecides(calls, b, a);
  }

  /** Without such a call there is none. */
  lemma NotFiledUncalled(calls: seq<Call>, a: string, b: string)
    requires forall j | 0 <= j < |calls| :: !Between(calls[j], a, b)
    ensures MateOf(AfterCalls(calls), a, b) == None
  {
    JoiningIsBetween(calls, a, b);
    FirstCallDecides(calls, a, b);
  }

  class Context {
    var mates: Mates

    constructor ()
      ensures mates == AfterCalls([])
    {
      mates := map[];
    }

    method AddOneWay(source: string, target: string, config: string, reverse: bool)
      modifies this
      ensures mates == WithMate(old(mates), source, target, config, reverse)
    {
      if source !in mates { mates := mates[source := map[]]; }
      if target in mates[source] { return; }
      mates := mates[source := mates[source][target := Mating(source, target, config, reverse)]];
    }

    method AddMate(source: string, target: string, config: string)
      modifies this
      ensures mates == WithCall(old(mates), Call(source, target, config))
    {
      AddOneWay(source, target, config, false);
      if target != source { AddOneWay(target, source, config, true); }
    }

    method GetMate(source: string, target: string) returns (mate: Option<Mating>)
      ensures mate == MateOf(mates, source, target)
    {
      if source !in mates { return None; }
      if target !in mates[source] { return None; }
      return Some(mates[source][target]);
    }

    method FindMatingInterfaces(compatible: Compatibility, source: set<string>, target: set<string>)
      returns (sourceSide: set<string>, targetSide: set<string>)
      ensures IsMatingSide(mates, compatible, source, target, sourceSide)
      ensures IsMatingSide(mates, compatible, target, source, targetSide)
    {
      var sources, actualSources := Extend(compatible, source);
      var targets, actualTargets := Extend(compatible, target);
      var sourceMates := set i, peer | i in sources && peer in Peers(mates, i) :: peer;
      var targetMates := set i, peer | i in targets && peer in Peers(mates, i) :: peer;
      HaveStandIns(compatible, source, actualSources);
      HaveStandIns(compatible, target, actualTargets);
      sourceSide := ActualOnes(sources * targetMates, actualSources);
      targetSide := ActualOnes(targets * sourceMates, actualTargets);
      forall r ensures r in sourceSide <==> r in source && MatesWith(mates, compatible, r, target) {
        SideIsRight(mates, compatible, source, target, actualSources, sources * targetMates, r);
      }
      forall r ensures r in targetSide <==> r in target && MatesWith(mates, compatible, r, source) {
        SideIsRight(mates, compatible, target, source, actualTargets, targets * sourceMates, r);
      }
    }
  }

  /** All that the interfaces stand for. */
  function AllOf(compatible: Compatibility, interfaces: set<string>): set<string> {
    interfaces + (set r, c | r in interfaces && c in compatible(r) :: c)
  }

  function Lookup(actual: map<string, set<string>>, i: string): set<string> { if i in actual then actual[i] else {} }

  /** Which interfaces stand for i, those in `rest` standing only for themselves. */
  function StandIns(compatible: Compatibility, interfaces: set<string>, rest: set<string>, i: string): set<string> {
    set r | r in interfaces && (i == r || (r !in rest && i in compatible(r)))
  }

  ghost predicate ActualOk(compatible: Compatibility, interfaces: set<string>, rest: set<string>, actual: map<string, set<string>>, i: string) {
    Lookup(actual, i) == StandIns(compatible, interfaces, rest, i) && (i in actual <==> Lookup(actual, i) != {})
  }

  lemma StandInsOneMore(compatible: Compatibility, interfaces: set<string>, rest: set<string>, r: string, i: string)
    requires r in rest && rest <= interfaces
    ensures StandIns(compatible, interfaces, rest - {r}, i)
         == StandIns(compatible, interfaces, rest, i) + (if i in compatible(r) then {r} else {})
  {}

  /** All that the interfaces stand for, and for each of those which of them stand for it. */
  method Extend(compatible: Compatibility, interfaces: set<string>) returns (all: set<string>, actual: map<string, set<string>>)
    ensures all == AllOf(compatible, interfaces)
    ensures forall i :: ActualOk(compatible, interfaces, {}, actual, i)
  {
    var rest := interfaces;
    actual := map i | i in interfaces :: {i};
    forall i ensures ActualOk(compatible, interfaces, interfaces, actual, i) {
      assert StandIns(compatible, interfaces, interfaces, i) == if i in interfaces then {i} else {};
    }
    while rest != {}
      invariant rest <= interfaces && forall i :: ActualOk(compatible, interfaces, rest, actual, i)
      decreases |rest|
    {
      var r :| r in rest;
      ghost var before := actual;
      actual := ExtendOne(compatible(r), r, actual);
      forall i ensures ActualOk(compatible, interfaces, rest - {r}, actual, i) {
        assert ActualOk(compatible, interfaces, rest, before, i);
        assert ExtendedBy(before, actual, compatible(r), r, i);
        StandInsOneMore(compatible, interfaces, rest, r, i);
      }
      rest := rest - {r};
    }
    all := interfaces + (set r, c | r in interfaces && c in compatible(r) :: c);
  }

  /** As before, and r too where i is one of the names. */
  predicate ExtendedBy(before: map<string, set<string>>, actual: map<string, set<string>>, names: set<string>, r: string, i: string) {
    && (i in actual <==> i in before || i in names)
    && Lookup(actual, i) == (if i in names then Lookup(before, i) + {r} else Lookup(before, i))
  }

  method ExtendOne(names: set<string>, r: string, before: map<string, set<string>>) returns (actual: map<string, set<string>>)
    ensures forall i :: ExtendedBy(before, actual, names, r, i)
  {
    actual := before;
    var left := names;
    while left != {}
      invariant left <= names && forall i :: ExtendedBy(before, actual, names - left, r, i)
      decreases |left|
    {
      var c :| c in left;
      ghost var sofar := actual;
      if c !in actual { actual := actual[c := {}]; }
      actual := actual[c := actual[c] + {r}];
      forall i ensures ExtendedBy(before, actual, names - (left - {c}), r, i) {
        assert ExtendedBy(before, sofar, names - left, r, i);
      }
      left := left - {c};
    }
    assert names - left == names;
  }

  /** The actual interfaces behind the candidates. */
  method ActualOnes(candidates: set<string>, actual: map<string, set<string>>) returns (found: set<string>)
    requires forall i | i in candidates :: i in actual
    ensures forall r :: r in found <==> exists i :: i in candidates && r in Lookup(actual, i)
  {
    found := {};
    var rest := candidates;
    while rest != {}
      invariant rest <= candidates
      invariant forall r :: r in found <==> exists i :: i in candidates - rest && r in Lookup(actual, i)
      decreases |rest|
    {
      var i :| i in rest;
      ghost var done, before := candidates - rest, found;
      found := found + actual[i];
      rest := rest - {i};
      forall r ensures r in found <==> exists i :: i in candidates - rest && r in Lookup(actual, i) {
        if r in before { var k :| k in done && r in Lookup(actual, k); assert k in candidates - rest; }
        if r in Lookup(actual, i) { assert i in candidates - rest; }
      }
    }
  }

  lemma SideIsRight(mates: Mates, compatible: Compatibility, interfaces: set<string>, others: set<string>,
                    actual: map<string, set<string>>, candidates: set<string>, r: string)
    requires forall i :: ActualOk(compatible, interfaces, {}, actual, i)
    requires forall i :: i in candidates <==> i in AllOf(compatible, interfaces) && exists j :: j in AllOf(compatible, others) && i in Peers(mates, j)
    ensures (exists i :: i in candidates && r in Lookup(actual, i)) <==> r in interfaces && MatesWith(mates, compatible, r, others)
  {
    if i :| i in candidates && r in Lookup(actual, i) {
      assert ActualOk(compatible, interfaces, {}, actual, i);
      var j :| j in AllOf(compatible, others) && i in Peers(mates, j);
      var other := WhoStandsFor(compatible, others, j);
      assert i in StandsFor(compatible, r) && j in StandsFor(compatible, other) && Mate(mates, j, i);
    }
    if r in interfaces && MatesWith(mates, compatible, r, others) {
      var i, other, j :| i in StandsFor(compatible, r) && other in others && j in StandsFor(compatible, other) && Mate(mates, j, i);
      assert ActualOk(compatible, interfaces, {}, actual, i);
      assert j in AllOf(compatible, others) && i in candidates && r in Lookup(actual, i);
    }
  }

  lemma HaveStandIns(compatible: Compatibility, interfaces: set<string>, actual: map<string, set<string>>)
    requires forall i :: ActualOk(compatible, interfaces, {}, actual, i)
    ensures forall i | i in AllOf(compatible, interfaces) :: i in actual
  {
    forall i | i in AllOf(compatible, interfaces) ensures i in actual {
      var r := WhoStandsFor(compatible, interfaces, i);
      assert ActualOk(compatible, interfaces, {}, actual, i);
      assert r in StandIns(compatible, interfaces, {}, i);
    }
  }

  lemma WhoStandsFor(compatible: Compatibility, interfaces: set<string>, i: string) returns (r: string)
    requires i in AllOf(compatible, interfaces)
    ensures r in interfaces && i in StandsFor(compatible, r)
  {
    if i in interfaces { r := i; } else { r :| r in interfaces && i in compatible(r); }
  }
}
