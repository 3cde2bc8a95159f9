/** Counting for the protocols: what is left to do for their measures, sizes of sets. */
module Counting {

  /** What is left to do in all, where `left` tells it of each phase. */
  function TotalLeft<P>(phase: seq<P>, left: P -> nat): nat {
    if phase == [] then 0 else TotalLeft(phase[..|phase|-1], left) + left(phase[|phase|-1])
  }

  lemma {:induction false} OneMoved<P>(phase: seq<P>, left: P -> nat, i: nat, p: P)
    requires i < |phase|
    ensures TotalLeft(phase[i := p], left) + left(phase[i]) == TotalLeft(phase, left) + left(p)
  {
    var n := |phase| - 1;
    if i == n {
      assert phase[i := p][..n] == phase[..n];
    } else {
      assert phase[i := p][..n] == phase[..n][i := p];
      OneMoved(phase[..n], left, i, p);
    }
  }

  lemma {:induction false} TotalIsBounded<P>(phase: seq<P>, left: P -> nat, high: nat)
    requires forall i | 0 <= i < |phase| :: left(phase[i]) <= high
    ensures TotalLeft(phase, left) <= high * |phase|
  {
    if phase != [] {
      TotalIsBounded(phase[..|phase|-1], left, high);
      assert high * |phase| == high * (|phase| - 1) + high;
    }
  }

  lemma AtLeastTwo<T>(x: set<T>, t: T, u: T)
    requires {t, u} <= x && t != u
    ensures |x| >= 2
  {
    assert x == {t} + ({u} + (x - {t, u}));
  }
}
