/** The assignment of behave feature files to CI shards: longest-first greedy
    (dev-tools/behave_shard.py).

    A feature file is named by its rank in the sorted list of paths, so comparing
    ranks is comparing paths.  `w[f]` is the number of seconds file `f` is expected
    to cost.  An assignment `alt` gives each file the shard that runs it. */
module Sharding {

  type Weights = s: seq<real> | forall f | 0 <= f < |s| :: s[f] >= 0.0

  predicate Files(s: seq<nat>, n: nat) {
    forall i | 0 <= i < |s| :: s[i] < n
  }

  /** All files, in path order. */
  function Range(n: nat): (r: seq<nat>)
    ensures |r| == n && forall i | 0 <= i < n :: r[i] == i
  {
    seq(n, i => i)
  }

  // ---- sorted(files, key=lambda p: (-weights[p], p)) ----

  predicate NotAfter(w: seq<real>, a: nat, b: nat)
    requires a < |w| && b < |w|
  {
    w[a] > w[b] || (w[a] == w[b] && a <= b)
  }

  predicate Ordered(w: seq<real>, s: seq<nat>)
    requires Files(s, |w|)
  {
    forall i, j | 0 <= i < j < |s| :: NotAfter(w, s[i], s[j])
  }

  function Insert(w: seq<real>, f: nat, s: seq<nat>): (r: seq<nat>)
    requires f < |w| && Files(s, |w|)
    ensures |r| == |s| + 1 && Files(r, |w|)
  {
    if s == [] || NotAfter(w, f, s[0]) then [f] + s else [s[0]] + Insert(w, f, s[1..])
  }

  /** `sorted` with the key (-weight, path); with all weights equal it is the plain
      sort by path. */
  function Sorted(w: seq<real>, s: seq<nat>): (r: seq<nat>)
    requires Files(s, |w|)
    ensures |r| == |s| && Files(r, |w|)
  {
    if s == [] then [] else Insert(w, s[0], Sorted(w, s[1..]))
  }

  lemma {:induction false} InsertIsPermutation(w: seq<real>, f: nat, s: seq<nat>)
    requires f < |w| && Files(s, |w|)
    ensures multiset(Insert(w, f, s)) == multiset(s) + multiset{f}
  {
    if s != [] && !NotAfter(w, f, s[0]) {
      InsertIsPermutation(w, f, s[1..]);
      assert s == [s[0]] + s[1..];
    }
  }

  lemma OrderedWithFirst(w: seq<real>, f: nat, s: seq<nat>)
    requires f < |w| && Files(s, |w|) && Ordered(w, s) && forall i | 0 <= i < |s| :: NotAfter(w, f, s[i])
    ensures Ordered(w, [f] + s)
  {
    var r := [f] + s;
    forall i, j | 0 <= i < j < |r| ensures NotAfter(w, r[i], r[j]) {
      assert r[j] == s[j - 1];
      if i > 0 { assert r[i] == s[i - 1]; }
    }
  }

  lemma {:induction false} InsertIsOrdered(w: seq<real>, f: nat, s: seq<nat>)
    requires f < |w| && Files(s, |w|) && Ordered(w, s)
    ensures Ordered(w, Insert(w, f, s))
    ensures forall i | 0 <= i < |Insert(w, f, s)| :: Insert(w, f, s)[i] == f || Insert(w, f, s)[i] in s
  {
    if s == [] {
    } else if NotAfter(w, f, s[0]) {
      OrderedWithFirst(w, f, s);
    } else {
      InsertIsOrdered(w, f, s[1..]);
      OrderedWithFirst(w, s[0], Insert(w, f, s[1..]));
    }
  }

  lemma {:induction false} SortedIsSorted(w: seq<real>, s: seq<nat>)
    requires Files(s, |w|)
    ensures Ordered(w, Sorted(w, s)) && multiset(Sorted(w, s)) == multiset(s)
  {
    if s != [] {
      SortedIsSorted(w, s[1..]);
      InsertIsPermutation(w, s[0], Sorted(w, s[1..]));
      InsertIsOrdered(w, s[0], Sorted(w, s[1..]));
      assert s == [s[0]] + s[1..];
    }
  }

  // ---- sums of weights ----

  /** Seconds of a list of files. */
  function Total(s: seq<nat>, w: seq<real>): real
    requires Files(s, |w|)
  {
    if s == [] then 0.0 else Total(s[..|s|-1], w) + w[s[|s|-1]]
  }

  lemma {:induction false} TotalConcat(s: seq<nat>, t: seq<nat>, w: seq<real>)
    requires Files(s, |w|) && Files(t, |w|)
    ensures Files(s + t, |w|) && Total(s + t, w) == Total(s, w) + Total(t, w)
  {
    if t == [] {
      assert s + t == s;
    } else {
      TotalConcat(s, t[..|t|-1], w);
      assert (s + t)[..|s + t|-1] == s + t[..|t|-1];
    }
  }

  lemma {:induction false} TotalOfPermutation(s: seq<nat>, t: seq<nat>, w: seq<real>)
    requires Files(s, |w|) && Files(t, |w|) && multiset(s) == multiset(t)
    ensures Total(s, w) == Total(t, w)
    decreases |s|
  {
    if s == [] {
      assert |multiset(t)| == 0;
    } else {
      var s', f := s[..|s|-1], s[|s|-1];
      RemoveOne(s, |s| - 1);
      assert s' + s[|s|..] == s';
      assert f in multiset(t);
      var i :| 0 <= i < |t| && t[i] == f;
      RemoveOne(t, i);
      TotalOfPermutation(s', t[..i] + t[i+1..], w);
      TotalWithout(t, i, w);
    }
  }

  lemma RemoveOne(t: seq<nat>, i: nat)
    requires i < |t|
    ensures multiset(t[..i] + t[i+1..]) == multiset(t) - multiset{t[i]}
  {
    assert t == t[..i] + [t[i]] + t[i+1..];
  }

  lemma {:induction false} TotalWithout(t: seq<nat>, i: nat, w: seq<real>)
    requires i < |t| && Files(t, |w|)
    ensures Files(t[..i] + t[i+1..], |w|) && Total(t, w) == Total(t[..i] + t[i+1..], w) + w[t[i]]
    decreases |t|
  {
    var n, less := |t| - 1, t[..i] + t[i+1..];
    if i == n {
      assert less == t[..n];
    } else {
      TotalWithout(t[..n], i, w);
      assert less[..n-1] == t[..n][..i] + t[..n][i+1..];
      assert less[n-1] == t[n];
    }
  }

  /** m copies of x, added up. */
  function Times(m: nat, x: real): real {
    if m == 0 then 0.0 else Times(m - 1, x) + x
  }

  lemma {:induction false} TimesMultiplies(m: nat, x: real)
    ensures Times(m, x) == m as real * x
  {
    if m > 0 {
      TimesMultiplies(m - 1, x);
      assert m as real * x == (m - 1) as real * x + x;
    }
  }

  function Flatten(buckets: seq<seq<nat>>): seq<nat> {
    if buckets == [] then [] else Flatten(buckets[..|buckets|-1]) + buckets[|buckets|-1]
  }

  lemma ConcatMultiset(s: seq<nat>, t: seq<nat>)
    ensures multiset(s + t) == multiset(s) + multiset(t)
  {}

  /** The files of all buckets, in no order. */
  function FilesOf(b: seq<seq<nat>>): multiset<nat> {
    if b == [] then multiset{} else FilesOf(b[..|b|-1]) + multiset(b[|b|-1])
  }

  lemma {:induction false} FlattenHasFiles(b: seq<seq<nat>>)
    ensures multiset(Flatten(b)) == FilesOf(b)
  {
    if b != [] {
      FlattenHasFiles(b[..|b|-1]);
      ConcatMultiset(Flatten(b[..|b|-1]), b[|b|-1]);
    }
  }

  lemma Reordered(x: multiset<nat>, y: multiset<nat>, z: multiset<nat>)
    ensures x + y + z == x + z + y
    ensures x + (y + z) == x + y + z
  {}

  lemma {:induction false} FilesOfAppend(b: seq<seq<nat>>, t: nat, f: nat)
    requires t < |b|
    ensures FilesOf(b[t := b[t] + [f]]) == FilesOf(b) + multiset{f}
    decreases |b|
  {
    var n := |b| - 1;
    if t == n {
      assert b[n := b[n] + [f]][..n] == b[..n];
      ConcatMultiset(b[n], [f]);
      Reordered(FilesOf(b[..n]), multiset(b[n]), multiset{f});
    } else {
      assert b[t := b[t] + [f]][..n] == b[..n][t := b[t] + [f]];
      FilesOfAppend(b[..n], t, f);
      Reordered(FilesOf(b[..n]), multiset(b[n]), multiset{f});
    }
  }

  lemma {:induction false} FlattenOfEmpty(b: seq<seq<nat>>)
    requires forall q | 0 <= q < |b| :: b[q] == []
    ensures Flatten(b) == []
  {
    if b != [] { FlattenOfEmpty(b[..|b|-1]); }
  }

  predicate AllFiles(b: seq<seq<nat>>, n: nat) {
    forall q | 0 <= q < |b| :: Files(b[q], n)
  }

  /** If every bucket weighs at least `low`, together they weigh at least |b| * low. */
  lemma {:induction false} TotalAtLeast(b: seq<seq<nat>>, g: seq<real>, low: real)
    requires AllFiles(b, |g|) && forall q | 0 <= q < |b| :: Total(b[q], g) >= low
    ensures Files(Flatten(b), |g|) && Total(Flatten(b), g) >= Times(|b|, low)
  {
    if b != [] {
      var n := |b| - 1;
      TotalAtLeast(b[..n], g, low);
      TotalConcat(Flatten(b[..n]), b[n], g);
    }
  }

  // ---- any other assignment ----

  predicate Assignment(alt: seq<nat>, n: nat, m: nat) {
    |alt| == n && forall f | 0 <= f < n :: alt[f] < m
  }

  /** Seconds that the files of `s` put on shard `q` under the assignment `alt`. */
  function Load(s: seq<nat>, w: seq<real>, alt: seq<nat>, q: nat): real
    requires Files(s, |w|) && Files(s, |alt|)
  {
    if s == [] then 0.0
    else
      var f := s[|s|-1];
      Load(s[..|s|-1], w, alt, q) + (if alt[f] == q then w[f] else 0.0)
  }

  lemma {:induction false} LoadGrows(s: seq<nat>, k: nat, w: Weights, alt: seq<nat>, q: nat)
    requires Files(s, |w|) && Files(s, |alt|) && k <= |s|
    ensures Files(s[..k], |w|) && 0.0 <= Load(s[..k], w, alt, q) <= Load(s, w, alt, q)
    decreases |s|
  {
    if k == |s| {
      assert s[..k] == s;
      if s != [] { LoadGrows(s[..|s|-1], |s| - 1, w, alt, q); }
    } else {
      var t := s[..|s|-1];
      LoadGrows(t, k, w, alt, q);
      assert t[..k] == s[..k];
    }
  }

  /** Under any assignment, shards that each stay below `high` hold at most m * high:
      no second is lost or counted twice. */
  lemma {:induction false} TotalAtMost(s: seq<nat>, g: seq<real>, alt: seq<nat>, m: nat, high: real)
    requires Files(s, |g|) && Assignment(alt, |g|, m)
    requires forall q: nat | q < m :: Load(s, g, alt, q) <= high
    ensures Total(s, g) <= Times(m, high)
  {
    var loads := seq(m, q requires 0 <= q < m => Load(s, g, alt, q));
    LoadsAddUp(s, g, alt, m, loads);
    SumAtMost(loads, high);
  }

  function Sum(s: seq<real>): real {
    if s == [] then 0.0 else Sum(s[..|s|-1]) + s[|s|-1]
  }

  lemma {:induction false} SumAtMost(s: seq<real>, high: real)
    requires forall i | 0 <= i < |s| :: s[i] <= high
    ensures Sum(s) <= Times(|s|, high)
  {
    if s != [] {
      var n := |s| - 1;
      SumAtMost(s[..n], high);
    }
  }

  lemma {:induction false} SumUpdate(s: seq<real>, i: nat, x: real)
    requires i < |s|
    ensures Sum(s[i := x]) == Sum(s) - s[i] + x
  {
    var n := |s| - 1;
    if i == n {
      assert s[i := x][..n] == s[..n];
    } else {
      assert s[i := x][..n] == s[..n][i := x];
      SumUpdate(s[..n], i, x);
    }
  }

  lemma {:induction false} SumOfZeros(s: seq<real>)
    requires forall i | 0 <= i < |s| :: s[i] == 0.0
    ensures Sum(s) == 0.0
  {
    if s != [] { SumOfZeros(s[..|s|-1]); }
  }

  lemma {:induction false} LoadsAddUp(s: seq<nat>, g: seq<real>, alt: seq<nat>, m: nat, loads: seq<real>)
    requires Files(s, |g|) && Assignment(alt, |g|, m)
    requires |loads| == m && forall q: nat | q < m :: loads[q] == Load(s, g, alt, q)
    ensures Sum(loads) == Total(s, g)
  {
    if s == [] {
      SumOfZeros(loads);
    } else {
      var t, f := s[..|s|-1], s[|s|-1];
      var before := seq(m, q requires 0 <= q < m => Load(t, g, alt, q));
      LoadsAddUp(t, g, alt, m, before);
      SumUpdate(before, alt[f], before[alt[f]] + g[f]);
      assert loads == before[alt[f] := before[alt[f]] + g[f]];
    }
  }

  /** A load depends on which files there are, not on the order they are listed in. */
  lemma {:induction false} LoadIsTotal(s: seq<nat>, w: seq<real>, alt: seq<nat>, q: nat, own: seq<real>)
    requires Files(s, |w|) && Files(s, |alt|) && |alt| == |w| == |own|
    requires forall f | 0 <= f < |w| :: own[f] == if alt[f] == q then w[f] else 0.0
    ensures Load(s, w, alt, q) == Total(s, own)
  {
    if s != [] { LoadIsTotal(s[..|s|-1], w, alt, q, own); }
  }

  lemma LoadOfPermutation(s: seq<nat>, t: seq<nat>, w: seq<real>, alt: seq<nat>, q: nat)
    requires Files(s, |w|) && Files(t, |w|) && |alt| == |w| && multiset(s) == multiset(t)
    ensures Load(s, w, alt, q) == Load(t, w, alt, q)
  {
    var own := seq(|w|, f requires 0 <= f < |w| => if alt[f] == q then w[f] else 0.0);
    LoadIsTotal(s, w, alt, q, own);
    LoadIsTotal(t, w, alt, q, own);
    TotalOfPermutation(s, t, own);
  }

  // ---- the bound ----

  /** `load` is at most 4/3 - 1/(3m) times `bound`. */
  predicate Within(load: real, m: nat, bound: real) {
    3.0 * m as real * load <= (4.0 * m as real - 1.0) * bound
  }

  /** `alt` keeps every shard at or below `bound`. */
  predicate Feasible(s: seq<nat>, w: seq<real>, alt: seq<nat>, m: nat, bound: real)
    requires Files(s, |w|)
  {
    Assignment(alt, |w|, m) && forall q: nat | q < m :: Load(s, w, alt, q) <= bound
  }

  lemma FeasibleOfPermutation(s: seq<nat>, t: seq<nat>, w: seq<real>, alt: seq<nat>, m: nat, bound: real)
    requires Files(s, |w|) && Files(t, |w|) && multiset(s) == multiset(t)
    requires Feasible(s, w, alt, m, bound)
    ensures Feasible(t, w, alt, m, bound)
  {
    forall p: nat | p < m ensures Load(t, w, alt, p) <= bound { LoadOfPermutation(s, t, w, alt, p); }
  }

  lemma FeasibleOfPrefix(s: seq<nat>, k: nat, w: Weights, alt: seq<nat>, m: nat, bound: real)
    requires Files(s, |w|) && k <= |s| && Feasible(s, w, alt, m, bound)
    ensures Feasible(s[..k], w, alt, m, bound)
  {
    forall p: nat | p < m ensures Load(s[..k], w, alt, p) <= bound { LoadGrows(s, k, w, alt, p); }
  }

  /** Counts a file twice when it cannot share a shard with one of size `last`. */
  function Count(w: seq<real>, last: real, bound: real): (g: seq<real>)
    ensures |g| == |w|
    ensures forall f | 0 <= f < |g| :: g[f] == if w[f] + last > bound then 2.0 else 1.0
  {
    seq(|w|, f requires 0 <= f < |w| => if w[f] + last > bound then 2.0 else 1.0)
  }

  /** A shard too full for one more file of size `last` has a count of at least two. */
  lemma {:induction false} FullShardCountsTwo(s: seq<nat>, w: Weights, last: real, bound: real)
    requires Files(s, |w|) && last <= bound
    ensures var c, l := Total(s, Count(w, last, bound)), Total(s, w);
            (c == 0.0 && l == 0.0) || (c == 1.0 && l <= bound - last) || c >= 2.0
  {
    if s != [] { FullShardCountsTwo(s[..|s|-1], w, last, bound); }
  }

  /** A shard that fits under `bound` has a count of at most two, when every file is
      larger than a third of `bound` and no smaller than `last`. */
  lemma {:induction false} FittingShardCountsTwo(s: seq<nat>, w: Weights, alt: seq<nat>, q: nat, last: real, bound: real)
    requires Files(s, |w|) && Files(s, |alt|)
    requires forall i | 0 <= i < |s| :: w[s[i]] >= last && 3.0 * w[s[i]] > bound
    ensures var c, l := Load(s, Count(w, last, bound), alt, q), Load(s, w, alt, q);
            || (c == 0.0 && l == 0.0)
            || (c == 1.0 && l >= last && 3.0 * l > bound)
            || (c == 2.0 && (l > bound - last || 3.0 * l > 2.0 * bound))
            || (c > 2.0 && l > bound)
  {
    if s != [] { FittingShardCountsTwo(s[..|s|-1], w, alt, q, last, bound); }
  }

  /** The state of the greedy loop before it places `f`: `b` holds the files of `s`,
      none of them lighter than `f`, and `t` is the lightest shard. */
  predicate Placing(s: seq<nat>, f: nat, w: Weights, b: seq<seq<nat>>, t: nat) {
    && Files(s, |w|) && f < |w| && AllFiles(b, |w|) && t < |b|
    && multiset(Flatten(b)) == multiset(s)
    && (forall i | 0 <= i < |s| :: w[s[i]] >= w[f])
    && (forall q | 0 <= q < |b| :: Total(b[t], w) <= Total(b[q], w))
  }

  /** When every file so far is larger than a third of `bound`, the lightest shard
      still has room: counted by the greedy buckets the files make at least 2m,
      counted by the other assignment, `f` included, at most 2m. */
  lemma LightestShardHasRoom(s: seq<nat>, f: nat, w: Weights, b: seq<seq<nat>>, t: nat, alt: seq<nat>, bound: real)
    requires Placing(s, f, w, b, t) && Feasible(s + [f], w, alt, |b|, bound)
    requires 3.0 * w[f] > bound
    ensures Total(b[t], w) + w[f] <= bound
  {
    var m, last, all := |b|, w[f], s + [f];
    var g := Count(w, last, bound);
    assert all[..|s|] == s;
    assert last <= bound by { LoadGrows(all, |s|, w, alt, alt[f]); }
    if Total(b[t], w) + last > bound {
      forall q | 0 <= q < m ensures Total(b[q], g) >= 2.0 { FullShardCountsTwo(b[q], w, last, bound); }
      TotalAtLeast(b, g, 2.0);
      TotalOfPermutation(Flatten(b), s, g);
      forall q: nat | q < m ensures Load(all, g, alt, q) <= 2.0 {
        FittingShardCountsTwo(all, w, alt, q, last, bound);
      }
      TotalAtMost(all, g, alt, m, 2.0);
      assert false;
    }
  }

  /** The lightest shard is at most average, the new file included. */
  lemma LightestIsBelowAverage(s: seq<nat>, f: nat, w: Weights, b: seq<seq<nat>>, t: nat, alt: seq<nat>, bound: real)
    requires Placing(s, f, w, b, t) && Feasible(s + [f], w, alt, |b|, bound)
    ensures Times(|b|, Total(b[t], w)) + w[f] <= Times(|b|, bound)
  {
    var all := s + [f];
    assert all[..|s|] == s;
    TotalAtLeast(b, w, Total(b[t], w));
    TotalOfPermutation(Flatten(b), s, w);
    TotalAtMost(all, w, alt, |b|, bound);
  }

  lemma ProductNotNegative(k: real, d: real, p: real)
    requires k >= 0.0 && d >= 0.0 && p == k * d
    ensures p >= 0.0
  {}

  lemma ScaleAtMost(k: real, x: real, y: real)
    requires k >= 0.0 && x <= y
    ensures k * x <= k * y
  {
    ProductNotNegative(k, y - x, k * (y - x));
    assert k * (y - x) == k * y - k * x;
  }

  /** The two sides of `Within`, multiplied out. */
  lemma WithinSides(r: real, l: real, x: real, bound: real)
    ensures 3.0 * r * (l + x) == 3.0 * (r * l + x) + (r - 1.0) * (3.0 * x)
    ensures (4.0 * r - 1.0) * bound == 3.0 * (r * bound) + (r - 1.0) * bound
  {
    assert r * (l + x) == r * l + r * x;
    assert 3.0 * r * (l + x) == 3.0 * (r * (l + x));
    assert (r - 1.0) * (3.0 * x) == 3.0 * (r * x) - 3.0 * x;
  }

  /** A file of at most a third of `bound` fits on a shard that is below average. */
  lemma SmallFileFits(m: nat, l: real, x: real, bound: real)
    requires m >= 1 && Times(m, l) + x <= Times(m, bound) && 3.0 * x <= bound
    ensures Within(l + x, m, bound)
  {
    TimesMultiplies(m, l);
    TimesMultiplies(m, bound);
    BelowAverageFits(m as real, l, x, bound);
  }

  lemma BelowAverageFits(r: real, l: real, x: real, bound: real)
    requires r >= 1.0 && r * l + x <= r * bound && 3.0 * x <= bound
    ensures 3.0 * r * (l + x) <= (4.0 * r - 1.0) * bound
  {
    ScaleAtMost(r - 1.0, 3.0 * x, bound);
    WithinSides(r, l, x, bound);
  }

  lemma WithinWhenBelow(load: real, m: nat, bound: real)
    requires m >= 1 && 0.0 <= load <= bound
    ensures Within(load, m, bound)
  {
    var r := m as real;
    ScaleAtMost(r, load, bound);
    ProductNotNegative(r - 1.0, bound, (r - 1.0) * bound);
    WithinSides(r, load, 0.0, bound);
  }

  /** One greedy placement keeps its shard within the bound of any other assignment
      of the files placed so far. */
  lemma GreedyPlacement(s: seq<nat>, f: nat, w: Weights, b: seq<seq<nat>>, t: nat, alt: seq<nat>, bound: real)
    requires Placing(s, f, w, b, t) && Feasible(s + [f], w, alt, |b|, bound)
    ensures Within(Total(b[t], w) + w[f], |b|, bound)
  {
    if 3.0 * w[f] > bound {
      LightestShardHasRoom(s, f, w, b, t, alt, bound);
      TotalNotNegative(b[t], w);
      WithinWhenBelow(Total(b[t], w) + w[f], |b|, bound);
    } else {
      LightestIsBelowAverage(s, f, w, b, t, alt, bound);
      SmallFileFits(|b|, Total(b[t], w), w[f], bound);
    }
  }

  lemma {:induction false} TotalNotNegative(s: seq<nat>, w: Weights)
    requires Files(s, |w|)
    ensures Total(s, w) >= 0.0
  {
    if s != [] { TotalNotNegative(s[..|s|-1], w); }
  }

  // ---- the greedy split ----

  /** min(range(shards), key=lambda s: (loads[s], s)): the first of the lightest. */
  function Lightest(b: seq<seq<nat>>, w: seq<real>): (t: nat)
    requires b != [] && AllFiles(b, |w|)
    ensures t < |b|
    ensures forall q | 0 <= q < |b| :: Total(b[t], w) <= Total(b[q], w)
    ensures forall q | 0 <= q < t :: Total(b[t], w) < Total(b[q], w)
  {
    if |b| == 1 then 0
    else
      var n := |b| - 1;
      var t := Lightest(b[..n], w);
      if Total(b[n], w) < Total(b[t], w) then n else t
  }

  /** The buckets after the files of `order` have been placed one by one. */
  function Greedy(order: seq<nat>, w: seq<real>, m: nat): (b: seq<seq<nat>>)
    requires m >= 1 && Files(order, |w|)
    ensures |b| == m && AllFiles(b, |w|)
  {
    if order == [] then seq(m, _ => [])
    else
      var b := Greedy(order[..|order|-1], w, m);
      var t := Lightest(b, w);
      b[t := b[t] + [order[|order|-1]]]
  }

  lemma GreedyCoversOneMore(order: seq<nat>, w: seq<real>, m: nat)
    requires m >= 1 && Files(order, |w|) && order != []
    ensures var n := |order| - 1; FilesOf(Greedy(order, w, m)) == FilesOf(Greedy(order[..n], w, m)) + multiset{order[n]}
  {
    var b := Greedy(order[..|order|-1], w, m);
    FilesOfAppend(b, Lightest(b, w), order[|order|-1]);
  }

  lemma LastOfOrder(order: seq<nat>)
    requires order != []
    ensures multiset(order) == multiset(order[..|order|-1]) + multiset{order[|order|-1]}
  {
    assert order == order[..|order|-1] + [order[|order|-1]];
  }

  lemma {:induction false} GreedyHasFiles(order: seq<nat>, w: seq<real>, m: nat)
    requires m >= 1 && Files(order, |w|)
    ensures FilesOf(Greedy(order, w, m)) == multiset(order)
  {
    if order == [] {
      FlattenOfEmpty(Greedy(order, w, m));
      FlattenHasFiles(Greedy(order, w, m));
    } else {
      GreedyHasFiles(order[..|order|-1], w, m);
      GreedyCoversOneMore(order, w, m);
      LastOfOrder(order);
    }
  }

  lemma GreedyCovers(order: seq<nat>, w: seq<real>, m: nat)
    requires m >= 1 && Files(order, |w|)
    ensures multiset(Flatten(Greedy(order, w, m))) == multiset(order)
  {
    GreedyHasFiles(order, w, m);
    FlattenHasFiles(Greedy(order, w, m));
  }

  lemma GreedyIsPlacing(s: seq<nat>, f: nat, w: Weights, m: nat)
    requires m >= 1 && f < |w| && Files(s, |w|) && Files(s + [f], |w|) && Ordered(w, s + [f])
    ensures Placing(s, f, w, Greedy(s, w, m), Lightest(Greedy(s, w, m), w))
  {
    GreedyCovers(s, w, m);
    var all := s + [f];
    forall i | 0 <= i < |s| ensures w[s[i]] >= w[f] { assert NotAfter(w, all[i], all[|s|]); }
  }

  lemma FilesOfPrefix(order: seq<nat>, k: nat, n: nat)
    requires Files(order, n) && k <= |order|
    ensures Files(order[..k], n)
  {}

  /** The (j+1)-th file goes to the lightest shard, and to no other. */
  lemma GreedyOneMore(order: seq<nat>, w: seq<real>, m: nat, j: nat, q: nat)
    requires m >= 1 && j < |order| && Files(order[..j], |w|) && Files(order[..j + 1], |w|) && order[j] < |w| && q < m
    ensures var b := Greedy(order[..j], w, m);
            Greedy(order[..j + 1], w, m)[q] == if Lightest(b, w) == q then b[q] + [order[j]] else b[q]
  {
    assert order[..j + 1][..j] == order[..j];
  }

  /** The file, among the first j, that a shard was given last. */
  lemma {:induction false} LastPlacementBefore(order: seq<nat>, w: seq<real>, m: nat, q: nat, j: nat) returns (k: nat)
    requires m >= 1 && Files(order, |w|) && q < m && j <= |order| && Files(order[..j], |w|) && Greedy(order[..j], w, m)[q] != []
    ensures k < j && Files(order[..k], |w|) && Lightest(Greedy(order[..k], w, m), w) == q
    ensures Greedy(order[..j], w, m)[q] == Greedy(order[..k], w, m)[q] + [order[k]]
    decreases j
  {
    FilesOfPrefix(order, j - 1, |w|);
    GreedyOneMore(order, w, m, j - 1, q);
    if Lightest(Greedy(order[..j - 1], w, m), w) == q {
      k := j - 1;
    } else {
      k := LastPlacementBefore(order, w, m, q, j - 1);
    }
  }

  /** The file that a shard was given last, as a position in the order. */
  lemma LastPlacement(order: seq<nat>, w: seq<real>, m: nat, q: nat) returns (k: nat)
    requires m >= 1 && Files(order, |w|) && q < m && Greedy(order, w, m)[q] != []
    ensures k < |order| && Files(order[..k], |w|) && Lightest(Greedy(order[..k], w, m), w) == q
    ensures Greedy(order, w, m)[q] == Greedy(order[..k], w, m)[q] + [order[k]]
  {
    assert order[..|order|] == order;
    k := LastPlacementBefore(order, w, m, q, |order|);
  }

  /** What a load may be, as one number. */
  ghost predicate IsLimit(limit: real, m: nat, bound: real) {
    forall load: real :: Within(load, m, bound) <==> load <= limit
  }

  lemma Quotient(k: real, x: real, y: real)
    requires k > 0.0
    ensures k * x <= y <==> x <= y / k
  {
    var z := y / k;
    assert k * z == y;
    if x <= z { ScaleAtMost(k, x, z); }
    if z < x {
      var p := k * (x - z);
      assert p == k * x - y;
      ProductIsPositive(k, x - z, p);
    }
  }

  lemma ProductIsPositive(k: real, d: real, p: real)
    requires k > 0.0 && d > 0.0 && p == k * d
    ensures p > 0.0
  {}

  lemma LimitOf(m: nat, bound: real) returns (limit: real)
    requires m >= 1
    ensures IsLimit(limit, m, bound)
  {
    limit := (4.0 * m as real - 1.0) * bound / (3.0 * m as real);
    forall load: real ensures Within(load, m, bound) <==> load <= limit {
      Quotient(3.0 * m as real, load, (4.0 * m as real - 1.0) * bound);
    }
  }

  lemma NothingIsBelow(w: Weights, m: nat, order: seq<nat>, alt: seq<nat>, bound: real, limit: real)
    requires m >= 1 && Files(order, |w|) && Feasible(order, w, alt, m, bound) && IsLimit(limit, m, bound)
    ensures 0.0 <= limit
  {
    LoadGrows(order, 0, w, alt, 0);
    assert Load(order, w, alt, 0) <= bound;
    WithinWhenBelow(0.0, m, bound);
  }

  lemma OneMoreFile(s: seq<nat>, f: nat, w: seq<real>)
    requires Files(s, |w|) && f < |w|
    ensures Total(s + [f], w) == Total(s, w) + w[f]
  {
    assert (s + [f])[..|s|] == s;
  }

  lemma PrefixIsOrdered(order: seq<nat>, k: nat, w: seq<real>)
    requires Files(order, |w|) && Ordered(w, order) && k < |order|
    ensures var s := order[..k] + [order[k]];
            s == order[..k + 1] && Files(order[..k], |w|) && Files(s, |w|) && Ordered(w, s)
  {
    var s := order[..k] + [order[k]];
    forall i, j | 0 <= i < j < |s| ensures NotAfter(w, s[i], s[j]) { assert s[i] == order[i] && s[j] == order[j]; }
  }

  /** What the next placement makes of its shard. */
  lemma NextIsBelow(s: seq<nat>, f: nat, w: Weights, m: nat, alt: seq<nat>, bound: real, limit: real)
    requires m >= 1 && f < |w| && Files(s, |w|) && Files(s + [f], |w|) && Ordered(w, s + [f]) && Feasible(s + [f], w, alt, m, bound)
    requires IsLimit(limit, m, bound)
    ensures var b := Greedy(s, w, m);
            Total(b[Lightest(b, w)], w) + w[f] <= limit
  {
    var b := Greedy(s, w, m);
    GreedyIsPlacing(s, f, w, m);
    GreedyPlacement(s, f, w, b, Lightest(b, w), alt, bound);
  }

  lemma PlacementIsBelow(order: seq<nat>, k: nat, w: Weights, m: nat, alt: seq<nat>, bound: real, limit: real, q: nat)
    requires m >= 1 && Files(order, |w|) && Ordered(w, order) && Feasible(order, w, alt, m, bound) && k < |order|
    requires IsLimit(limit, m, bound)
    requires Files(order[..k], |w|) && q == Lightest(Greedy(order[..k], w, m), w)
    ensures Total(Greedy(order[..k], w, m)[q], w) + w[order[k]] <= limit
  {
    PrefixIsOrdered(order, k, w);
    FeasibleOfPrefix(order, k + 1, w, alt, m, bound);
    NextIsBelow(order[..k], order[k], w, m, alt, bound, limit);
  }

  lemma LastLoad(order: seq<nat>, w: seq<real>, m: nat, q: nat) returns (k: nat, load: real)
    requires m >= 1 && Files(order, |w|) && q < m && Greedy(order, w, m)[q] != []
    ensures k < |order| && Files(order[..k], |w|) && Lightest(Greedy(order[..k], w, m), w) == q
    ensures load == Total(Greedy(order, w, m)[q], w) == Total(Greedy(order[..k], w, m)[q], w) + w[order[k]]
  {
    k := LastPlacement(order, w, m, q);
    load := Total(Greedy(order, w, m)[q], w);
    OneMoreFile(Greedy(order[..k], w, m)[q], order[k], w);
  }

  lemma GreedyIsBelow(order: seq<nat>, w: Weights, m: nat, alt: seq<nat>, bound: real, limit: real, q: nat)
    requires m >= 1 && Files(order, |w|) && Ordered(w, order)
    requires Feasible(order, w, alt, m, bound) && q < m && IsLimit(limit, m, bound)
    ensures Total(Greedy(order, w, m)[q], w) <= limit
  {
    if Greedy(order, w, m)[q] == [] {
      NothingIsBelow(w, m, order, alt, bound, limit);
    } else {
      var k, load := LastLoad(order, w, m, q);
      PlacementIsBelow(order, k, w, m, alt, bound, limit, q);
    }
  }

  lemma GreedyIsWithin(order: seq<nat>, w: Weights, m: nat, alt: seq<nat>, bound: real, q: nat)
    requires m >= 1 && Files(order, |w|) && Ordered(w, order)
    requires Feasible(order, w, alt, m, bound) && q < m
    ensures Within(Total(Greedy(order, w, m)[q], w), m, bound)
  {
    var limit := LimitOf(m, bound);
    GreedyIsBelow(order, w, m, alt, bound, limit, q);
  }

  lemma WithinSays(load: real, m: nat, bound: real)
    requires Within(load, m, bound)
    ensures 3.0 * m as real * load <= (4.0 * m as real - 1.0) * bound
  {}

  /** The LPT bound: every shard of a longest-first greedy split is within
      4/3 - 1/(3m) of the worst shard of any assignment of the same files. */
  lemma GreedyIsNearOptimal(order: seq<nat>, w: Weights, m: nat, alt: seq<nat>, bound: real, q: nat, load: real)
    requires m >= 1 && Files(order, |w|) && Ordered(w, order)
    requires Feasible(order, w, alt, m, bound) && q < m && load == Total(Greedy(order, w, m)[q], w)
    ensures 3.0 * m as real * load <= (4.0 * m as real - 1.0) * bound
  {
    GreedyIsWithin(order, w, m, alt, bound, q);
    WithinSays(load, m, bound);
  }

  // ---- shard_loads and shard_files ----

  function Zeros(n: nat): (z: seq<real>)
    ensures |z| == n && forall i | 0 <= i < n :: z[i] == 0.0
  {
    seq(n, _ => 0.0)
  }

  /** What shard_loads answers: the greedy buckets, each in path order. */
  function Split(w: seq<real>, m: nat): (b: seq<seq<nat>>)
    requires m >= 1
    ensures |b| == m && AllFiles(b, |w|)
  {
    var b := Greedy(Sorted(w, Range(|w|)), w, m);
    seq(m, q requires 0 <= q < m => Sorted(Zeros(|w|), b[q]))
  }

  /** The order in which files are placed: all of them, heaviest first, and of equally heavy
      ones the first by path first. */
  lemma HeaviestThenFirst(w: seq<real>)
    ensures var order := Sorted(w, Range(|w|));
            && multiset(order) == multiset(Range(|w|)) && Files(order, |w|)
            && forall i, j | 0 <= i < j < |order| :: w[order[i]] > w[order[j]] || (w[order[i]] == w[order[j]] && order[i] <= order[j])
  {
    SortedIsSorted(w, Range(|w|));
    var order := Sorted(w, Range(|w|));
    forall i, j | 0 <= i < j < |order| ensures w[order[i]] > w[order[j]] || (w[order[i]] == w[order[j]] && order[i] <= order[j]) {
      assert NotAfter(w, order[i], order[j]);
    }
  }

  /** Each file goes to the first of the shards that are lightest when its turn comes. */
  lemma ToTheFirstLightest(order: seq<nat>, f: nat, w: seq<real>, m: nat) returns (t: nat)
    requires m >= 1 && Files(order + [f], |w|) && Files(order, |w|)
    ensures var b := Greedy(order, w, m);
            && t < m && (forall q | 0 <= q < m :: Total(b[t], w) <= Total(b[q], w)) && (forall q | 0 <= q < t :: Total(b[t], w) < Total(b[q], w))
            && Greedy(order + [f], w, m) == b[t := b[t] + [f]]
    ensures Greedy([], w, m) == seq(m, _ => [])
  {
    t := Lightest(Greedy(order, w, m), w);
    assert (order + [f])[..|order|] == order;
  }

  /** Every file lands in exactly one shard. */
  lemma SplitCoversEachFileOnce(w: seq<real>, m: nat)
    requires m >= 1
    ensures multiset(Flatten(Split(w, m))) == multiset(Range(|w|))
  {
    var order := Sorted(w, Range(|w|));
    SortedIsSorted(w, Range(|w|));
    GreedyCovers(order, w, m);
    var b := Greedy(order, w, m);
    forall q | 0 <= q < m ensures multiset(b[q]) == multiset(Split(w, m)[q]) { SortedIsSorted(Zeros(|w|), b[q]); }
    FlattenOfPermutations(b, Split(w, m));
  }

  lemma {:induction false} FlattenOfPermutations(a: seq<seq<nat>>, b: seq<seq<nat>>)
    requires |a| == |b| && forall q | 0 <= q < |a| :: multiset(a[q]) == multiset(b[q])
    ensures multiset(Flatten(a)) == multiset(Flatten(b))
  {
    if a != [] { FlattenOfPermutations(a[..|a|-1], b[..|b|-1]); }
  }

  lemma SplitIsWithin(w: Weights, m: nat, alt: seq<nat>, bound: real, q: nat)
    requires m >= 1 && q < m && Feasible(Range(|w|), w, alt, m, bound)
    ensures Within(Total(Split(w, m)[q], w), m, bound)
  {
    var order := Sorted(w, Range(|w|));
    SortedIsSorted(w, Range(|w|));
    FeasibleOfPermutation(Range(|w|), order, w, alt, m, bound);
    GreedyIsWithin(order, w, m, alt, bound, q);
    SortedKeepsTotal(Greedy(order, w, m)[q], w);
  }

  /** The worst shard of the split is at most 4/3 - 1/(3m) times as long as the worst
      shard of any other assignment `alt` of the same files to m shards. */
  lemma SplitIsNearOptimal(w: Weights, m: nat, alt: seq<nat>, bound: real, q: nat, load: real)
    requires m >= 1 && q < m && |alt| == |w| && forall f | 0 <= f < |w| :: alt[f] < m
    requires forall p: nat | p < m :: Load(Range(|w|), w, alt, p) <= bound
    requires load == Total(Split(w, m)[q], w)
    ensures 3.0 * m as real * load <= (4.0 * m as real - 1.0) * bound
  {
    assert Feasible(Range(|w|), w, alt, m, bound);
    SplitIsWithin(w, m, alt, bound, q);
    WithinSays(load, m, bound);
  }

  lemma SortedKeepsTotal(s: seq<nat>, w: seq<real>)
    requires Files(s, |w|)
    ensures Total(Sorted(Zeros(|w|), s), w) == Total(s, w)
  {
    SortedIsSorted(Zeros(|w|), s);
    TotalOfPermutation(Sorted(Zeros(|w|), s), s, w);
  }

  /** The files of each shard come out in path order. */
  lemma SplitIsSorted(w: seq<real>, m: nat, q: nat)
    requires m >= 1 && q < m
    ensures forall i, j | 0 <= i < j < |Split(w, m)[q]| :: Split(w, m)[q][i] <= Split(w, m)[q][j]
  {
    var z, b := Zeros(|w|), Split(w, m)[q];
    SortedIsSorted(z, Greedy(Sorted(w, Range(|w|)), w, m)[q]);
    forall i, j | 0 <= i < j < |b| ensures b[i] <= b[j] { assert NotAfter(z, b[i], b[j]); }
  }

  method LightestShard(load: array<real>, ghost b: seq<seq<nat>>, w: seq<real>) returns (t: nat)
    requires b != [] && AllFiles(b, |w|)
    requires load.Length == |b| && forall q | 0 <= q < |b| :: load[q] == Total(b[q], w)
    ensures t == Lightest(b, w)
  {
    t := 0;
    for s := 1 to load.Length
      invariant t < s
      invariant forall q | 0 <= q < s :: load[t] <= load[q]
      invariant forall q | 0 <= q < t :: load[t] < load[q]
    {
      if load[s] < load[t] { t := s; }
    }
  }

  lemma PlaceTotals(b: seq<seq<nat>>, f: nat, w: seq<real>, t: nat, load: seq<real>)
    requires AllFiles(b, |w|) && t < |b| == |load| && f < |w|
    requires forall q | 0 <= q < |b| :: load[q] == Total(b[q], w)
    ensures var b', load' := b[t := b[t] + [f]], load[t := load[t] + w[f]];
            AllFiles(b', |w|) && forall q | 0 <= q < |b'| :: load'[q] == Total(b'[q], w)
  {
    assert (b[t] + [f])[..|b[t]|] == b[t];
  }

  predicate Balanced(b: seq<seq<nat>>, load: seq<real>, w: seq<real>) {
    |b| == |load| && AllFiles(b, |w|) && forall q | 0 <= q < |b| :: load[q] == Total(b[q], w)
  }

  /** One turn of the loop: the heaviest file left goes to the lightest shard. */
  method Place(w: Weights, f: nat, bucket: array<seq<nat>>, load: array<real>)
    requires f < |w| && bucket.Length >= 1 && Balanced(bucket[..], load[..], w)
    modifies bucket, load
    ensures var b := old(bucket[..]);
            var t := Lightest(b, w);
            bucket[..] == b[t := b[t] + [f]]
    ensures Balanced(bucket[..], load[..], w)
  {
    ghost var b, l := bucket[..], load[..];
    var target := LightestShard(load, b, w);
    bucket[target] := bucket[target] + [f];
    load[target] := load[target] + w[f];
    assert bucket[..] == b[target := b[target] + [f]];
    assert load[..] == l[target := l[target] + w[f]];
    PlaceTotals(b, f, w, target, l);
  }

  /** Longest first, each file to the lightest shard. */
  method Distribute(w: Weights, order: seq<nat>, bucket: array<seq<nat>>, load: array<real>)
    requires Files(order, |w|) && bucket.Length >= 1
    requires bucket[..] == Greedy([], w, bucket.Length) && Balanced(bucket[..], load[..], w)
    modifies bucket, load
    ensures bucket[..] == Greedy(order, w, bucket.Length) && Balanced(bucket[..], load[..], w)
  {
    assert order[..0] == [];
    for k := 0 to |order|
      invariant bucket[..] == Greedy(order[..k], w, bucket.Length)
      invariant Balanced(bucket[..], load[..], w)
    {
      assert order[..k+1][..k] == order[..k];
      Place(w, order[k], bucket, load);
    }
    assert order[..|order|] == order;
  }

  method InPathOrder(w: Weights, b: seq<seq<nat>>) returns (buckets: seq<seq<nat>>)
    requires AllFiles(b, |w|)
    ensures |buckets| == |b| && forall q | 0 <= q < |b| :: buckets[q] == Sorted(Zeros(|w|), b[q])
  {
    buckets := [];
    for q := 0 to |b|
      invariant |buckets| == q && forall p | 0 <= p < q :: buckets[p] == Sorted(Zeros(|w|), b[p])
    {
      buckets := buckets + [Sorted(Zeros(|w|), b[q])];
    }
  }

  method ShardLoads(w: Weights, shards: nat) returns (buckets: seq<seq<nat>>, loads: seq<real>)
    requires shards >= 1
    ensures buckets == Split(w, shards)
    ensures |loads| == shards && forall q | 0 <= q < shards :: loads[q] == Total(buckets[q], w)
  {
    var load := new real[shards](_ => 0.0);
    var bucket := new seq<nat>[shards](_ => []);
    var order := Sorted(w, Range(|w|));
    assert bucket[..] == Greedy([], w, shards);
    Distribute(w, order, bucket, load);
    loads := load[..];
    buckets := InPathOrder(w, bucket[..]);
    forall q | 0 <= q < shards ensures loads[q] == Total(buckets[q], w) { SortedKeepsTotal(bucket[..][q], w); }
    assert buckets == Split(w, shards);
  }

  /** The files of one 1-based shard. */
  method ShardFiles(w: Weights, shards: nat, index: nat) returns (files: seq<nat>)
    requires 1 <= index <= shards
    ensures files == Split(w, shards)[index - 1]
  {
    var buckets, _ := ShardLoads(w, shards);
    files := buckets[index - 1];
  }
}
