/** The bills of materials of an assembly (src/partcad/assembly.py: _get_bom_real,
    _get_supply_bom_real, _get_bom_grouped_real and what they merge with).

    Objects are shared: an assembly used twice is one object in two places.  They are
    numbered contents first, as an acyclic graph always can be. */
module BillOfMaterials {
  import opened Wrappers

  datatype Obj =
    | Part(package: string, name: string)
    | Assembly(package: string, name: string, embedded: bool, vendor: Option<string>, sku: Option<string>, children: seq<nat>)

  type World = seq<Obj>

  function Kids(world: World, a: nat): seq<nat>
    requires a < |world|
  {
    match world[a]
    case Part(_, _) => []
    case Assembly(_, _, _, _, _, children) => children
  }

  predicate ContentsFirst(world: World) {
    forall a, k | 0 <= a < |world| && 0 <= k < |Kids(world, a)| :: Kids(world, a)[k] < a
  }

  function FullName(o: Obj): string { o.package + ":" + o.name }

  predicate Given(s: Option<string>) { s.Some? && s.value != "" }

  /** Ordered whole: a package's own assembly, with a vendor and an SKU. */
  predicate Purchasable(o: Obj) {
    o.Assembly? && !o.embedded && Given(o.vendor) && Given(o.sku)
  }

  /** Whether an object can be named in a BoM at all. */
  predicate Named(o: Obj) { o.Part? || !o.embedded }

  predicate NamesIdentify(world: World) {
    forall a, b | 0 <= a < |world| && 0 <= b < |world| && Named(world[a]) && Named(world[b]) && FullName(world[a]) == FullName(world[b]) :: a == b
  }

  // ---- counting placements ----

  datatype Kind = PartKind | AssemblyKind

  datatype Key = Key(kind: Kind, package: string, name: string)

  /** What a count is of: the lines of the three BoMs, the leaves, the placements of one
      object, and those reached from inside embedded containers only. */
  datatype Query = Flat(n: string) | Supply(n: string) | Grouped(key: Key) | Leaves | To(t: nat) | Through(t: nat)

  function KeyOf(o: Obj): Key { Key(if o.Part? then PartKind else AssemblyKind, o.package, o.name) }

  /** Whether being placed counts. */
  predicate Hits(world: World, q: Query, c: nat)
    requires c < |world|
  {
    var o := world[c];
    match q
    case Flat(n) => o.Part? && FullName(o) == n
    case Supply(n) => (o.Part? || Purchasable(o)) && FullName(o) == n
    case Grouped(key) => Named(o) && KeyOf(o) == key
    case Leaves => o.Part?
    case To(t) => c == t
    case Through(t) => c == t
  }

  /** Whether the walk goes on inside. */
  predicate Enters(world: World, q: Query, c: nat)
    requires c < |world|
  {
    var o := world[c];
    o.Assembly? && (q.Supply? ==> !Purchasable(o)) && (q.Through? ==> o.embedded)
  }

  /** The count over the first k children of a. */
  function Tally(world: World, q: Query, a: nat, k: nat): nat
    requires ContentsFirst(world) && a < |world| && k <= |Kids(world, a)|
    decreases a, k
  {
    if k == 0 then 0 else Tally(world, q, a, k - 1) + PerChild(world, q, Kids(world, a)[k - 1])
  }

  function PerChild(world: World, q: Query, c: nat): nat
    requires ContentsFirst(world) && c < |world|
    decreases c, |Kids(world, c)| + 2
  {
    (if Hits(world, q, c) then 1 else 0) + (if Enters(world, q, c) then Count(world, q, c) else 0)
  }

  function Count(world: World, q: Query, a: nat): nat
    requires ContentsFirst(world) && a < |world|
    decreases a, |Kids(world, a)| + 1
  {
    Tally(world, q, a, |Kids(world, a)|)
  }

  /** What one child adds: itself, and what is inside it. */
  lemma TallyByChild(world: World, q: Query, a: nat, k: nat)
    requires ContentsFirst(world) && a < |world| && 0 < k <= |Kids(world, a)|
    ensures var c := Kids(world, a)[k - 1];
            Tally(world, q, a, k) == Tally(world, q, a, k - 1) + (if Hits(world, q, c) then 1 else 0)
              + (if Enters(world, q, c) then Tally(world, q, c, |Kids(world, c)|) else 0)
  {
    var c := Kids(world, a)[k - 1];
    assert Tally(world, q, a, k) == Tally(world, q, a, k - 1) + PerChild(world, q, c);
    assert Count(world, q, c) == Tally(world, q, c, |Kids(world, c)|);
  }

  // ---- a count is a number of paths ----

  /** A path goes from child position to child position, to something that counts. */
  predicate Leads(world: World, q: Query, a: nat, path: seq<nat>)
    requires ContentsFirst(world) && a < |world|
    decreases |path|
  {
    && path != [] && path[0] < |Kids(world, a)|
    && var c := Kids(world, a)[path[0]];
       if |path| == 1 then Hits(world, q, c) else Enters(world, q, c) && Leads(world, q, c, path[1..])
  }

  function Under(k: nat, paths: seq<seq<nat>>): (r: seq<seq<nat>>)
    ensures |r| == |paths| && forall i | 0 <= i < |r| :: r[i] == [k] + paths[i]
  {
    seq(|paths|, i requires 0 <= i < |paths| => [k] + paths[i])
  }

  /** The paths that begin with one of the first k children. */
  function Paths(world: World, q: Query, a: nat, k: nat): seq<seq<nat>>
    requires ContentsFirst(world) && a < |world| && k <= |Kids(world, a)|
    decreases a, k
  {
    if k == 0 then []
    else
      var c := Kids(world, a)[k - 1];
      Paths(world, q, a, k - 1) + (if Hits(world, q, c) then [[k - 1]] else [])
        + (if Enters(world, q, c) then Under(k - 1, Paths(world, q, c, |Kids(world, c)|)) else [])
  }

  lemma {:induction false} AsManyAsPaths(world: World, q: Query, a: nat, k: nat)
    requires ContentsFirst(world) && a < |world| && k <= |Kids(world, a)|
    ensures |Paths(world, q, a, k)| == Tally(world, q, a, k)
    decreases a, k
  {
    if k > 0 {
      var c := Kids(world, a)[k - 1];
      TallyByChild(world, q, a, k);
      AsManyAsPaths(world, q, a, k - 1);
      AsManyAsPaths(world, q, c, |Kids(world, c)|);
    }
  }

  predicate AllDistinct<T(==)>(s: seq<T>) { forall i, j | 0 <= i < j < |s| :: s[i] != s[j] }

  lemma InUnder(k: nat, paths: seq<seq<nat>>, path: seq<nat>)
    ensures path in Under(k, paths) <==> path != [] && path[0] == k && path[1..] in paths
  {
    if path != [] && path[0] == k && path[1..] in paths {
      var i :| 0 <= i < |paths| && paths[i] == path[1..];
      assert Under(k, paths)[i] == path;
    }
    if path in Under(k, paths) {
      var i :| 0 <= i < |paths| && Under(k, paths)[i] == path;
      assert path[1..] == paths[i];
    }
  }

  lemma PathsByChild(world: World, q: Query, a: nat, k: nat, path: seq<nat>)
    requires ContentsFirst(world) && a < |world| && 0 < k <= |Kids(world, a)|
    ensures var c := Kids(world, a)[k - 1];
            path in Paths(world, q, a, k) <==>
              || path in Paths(world, q, a, k - 1)
              || (Hits(world, q, c) && path == [k - 1])
              || (Enters(world, q, c) && path != [] && path[0] == k - 1 && path[1..] in Paths(world, q, c, |Kids(world, c)|))
  {
    var c := Kids(world, a)[k - 1];
    InUnder(k - 1, Paths(world, q, c, |Kids(world, c)|), path);
  }

  lemma LeadsByChild(world: World, q: Query, a: nat, k: nat, path: seq<nat>)
    requires ContentsFirst(world) && a < |world| && 0 < k <= |Kids(world, a)| && path != [] && path[0] == k - 1
    ensures var c := Kids(world, a)[k - 1];
            Leads(world, q, a, path) <==> (Hits(world, q, c) && path == [k - 1]) || (Enters(world, q, c) && Leads(world, q, c, path[1..]))
  {
    if |path| == 1 { assert path == [path[0]]; }
  }

  lemma {:induction false} PathsAreThoseThatLead(world: World, q: Query, a: nat, k: nat, path: seq<nat>)
    requires ContentsFirst(world) && a < |world| && k <= |Kids(world, a)|
    ensures path in Paths(world, q, a, k) <==> Leads(world, q, a, path) && path[0] < k
    decreases a, k
  {
    if k > 0 {
      var c := Kids(world, a)[k - 1];
      PathsAreThoseThatLead(world, q, a, k - 1, path);
      PathsByChild(world, q, a, k, path);
      if path != [] && path[0] == k - 1 {
        PathsAreThoseThatLead(world, q, c, |Kids(world, c)|, path[1..]);
        LeadsByChild(world, q, a, k, path);
      }
    }
  }

  lemma DistinctByFirst(before: seq<seq<nat>>, k: nat, here: bool, below: bool, inner: seq<seq<nat>>)
    requires AllDistinct(before) && AllDistinct(inner)
    requires (forall path | path in before :: path != [] && path[0] < k) && [] !in inner
    ensures AllDistinct(before + (if here then [[k]] else []) + (if below then Under(k, inner) else []))
  {
    var one, under := if here then [[k]] else [], if below then Under(k, inner) else [];
    UnderIsDistinct(k, inner);
    assert [k][1..] == [];
    forall path | path in under ensures path != [] && path[0] == k && path != [k] { InUnder(k, inner, path); }
    DistinctTogether(before, one);
    DistinctTogether(before + one, under);
  }

  lemma {:induction false} PathsAreDistinct(world: World, q: Query, a: nat, k: nat)
    requires ContentsFirst(world) && a < |world| && k <= |Kids(world, a)|
    ensures AllDistinct(Paths(world, q, a, k))
    decreases a, k
  {
    if k > 0 {
      var c := Kids(world, a)[k - 1];
      var before, inner := Paths(world, q, a, k - 1), Paths(world, q, c, |Kids(world, c)|);
      PathsAreDistinct(world, q, a, k - 1);
      PathsAreDistinct(world, q, c, |Kids(world, c)|);
      forall path | path in before ensures path != [] && path[0] < k - 1 { PathsAreThoseThatLead(world, q, a, k - 1, path); }
      PathsAreThoseThatLead(world, q, c, |Kids(world, c)|, []);
      DistinctByFirst(before, k - 1, Hits(world, q, c), Enters(world, q, c), inner);
    }
  }

  lemma UnderIsDistinct(k: nat, paths: seq<seq<nat>>)
    requires AllDistinct(paths)
    ensures AllDistinct(Under(k, paths))
  {
    forall i, j | 0 <= i < j < |paths| ensures Under(k, paths)[i] != Under(k, paths)[j] {
      assert Under(k, paths)[i][1..] == paths[i] && Under(k, paths)[j][1..] == paths[j];
    }
  }

  lemma DistinctTogether(s: seq<seq<nat>>, t: seq<seq<nat>>)
    requires AllDistinct(s) && AllDistinct(t) && forall x | x in s :: x !in t
    ensures AllDistinct(s + t)
  {
    forall i, j | 0 <= i < j < |s + t| ensures (s + t)[i] != (s + t)[j] {
      if i < |s| <= j { assert s[i] in s && t[j - |s|] in t; }
    }
  }

  /** Every count of every BoM is the number of paths from the assembly to what it
      counts, through what its walk enters. */
  lemma CountsPaths(world: World, q: Query, a: nat) returns (paths: seq<seq<nat>>)
    requires ContentsFirst(world) && a < |world|
    ensures Count(world, q, a) == |paths| && AllDistinct(paths)
    ensures forall path :: path in paths <==> Leads(world, q, a, path)
  {
    paths := Paths(world, q, a, |Kids(world, a)|);
    AsManyAsPaths(world, q, a, |Kids(world, a)|);
    PathsAreDistinct(world, q, a, |Kids(world, a)|);
    forall path ensures path in paths <==> Leads(world, q, a, path) {
      PathsAreThoseThatLead(world, q, a, |Kids(world, a)|, path);
    }
  }

  // ---- counts in terms of other counts ----

  function Dot(xs: seq<nat>, ys: seq<nat>): nat
    requires |xs| == |ys|
  {
    if xs == [] then 0 else Dot(xs[..|xs|-1], ys[..|ys|-1]) + xs[|xs|-1] * ys[|ys|-1]
  }

  function Plus(xs: seq<nat>, ys: seq<nat>): (r: seq<nat>)
    requires |xs| == |ys|
    ensures |r| == |xs| && forall i | 0 <= i < |r| :: r[i] == xs[i] + ys[i]
  {
    seq(|xs|, i requires 0 <= i < |xs| => xs[i] + ys[i])
  }

  function Unit(n: nat, at: nat, x: nat): (r: seq<nat>)
    ensures |r| == n && forall i | 0 <= i < n :: r[i] == if i == at then x else 0
  {
    seq(n, i => if i == at then x else 0)
  }

  lemma {:induction false} DotPlus(xs: seq<nat>, ys: seq<nat>, zs: seq<nat>)
    requires |xs| == |ys| == |zs|
    ensures Dot(Plus(xs, ys), zs) == Dot(xs, zs) + Dot(ys, zs)
  {
    var n := |xs| - 1;
    if n >= 0 {
      DotPlus(xs[..n], ys[..n], zs[..n]);
      assert Plus(xs, ys)[..n] == Plus(xs[..n], ys[..n]);
      Distribute(xs[n], ys[n], zs[n]);
    }
  }

  lemma Distribute(x: nat, y: nat, z: nat)
    ensures (x + y) * z == x * z + y * z
  {}

  lemma {:induction false} DotUnit(n: nat, at: nat, x: nat, zs: seq<nat>)
    requires |zs| == n
    ensures Dot(Unit(n, at, x), zs) == if at < n then x * zs[at] else 0
  {
    if n > 0 {
      DotUnit(n - 1, at, x, zs[..n - 1]);
      assert Unit(n, at, x)[..n - 1] == Unit(n - 1, at, x);
    }
  }

  /** How often each purchasable assembly is a line of a's supply BoM. */
  function Bought(world: World, a: nat, k: nat): (r: seq<nat>)
    requires ContentsFirst(world) && a < |world| && k <= |Kids(world, a)|
    ensures |r| == |world|
    ensures forall u | 0 <= u < |world| :: r[u] == if Purchasable(world[u]) then Tally(world, Supply(FullName(world[u])), a, k) else 0
  {
    seq(|world|, u requires 0 <= u < |world| => if Purchasable(world[u]) then Tally(world, Supply(FullName(world[u])), a, k) else 0)
  }

  /** How many of line n each object's own flat BoM has. */
  function FlatOf(world: World, n: string): (r: seq<nat>)
    requires ContentsFirst(world)
    ensures |r| == |world| && forall u | 0 <= u < |world| :: r[u] == Count(world, Flat(n), u)
  {
    seq(|world|, u requires 0 <= u < |world| => Count(world, Flat(n), u))
  }

  /** The parts among the lines of a supply BoM. */
  function SupplyOfParts(world: World, n: string, a: nat, k: nat): nat
    requires ContentsFirst(world) && a < |world| && k <= |Kids(world, a)|
  {
    if NamesAssembly(world, n) then 0 else Tally(world, Supply(n), a, k)
  }

  predicate NamesAssembly(world: World, n: string) {
    exists u | 0 <= u < |world| :: Purchasable(world[u]) && FullName(world[u]) == n
  }

  /** What one child adds to `Bought`. */
  lemma BoughtByChild(world: World, a: nat, k: nat)
    requires ContentsFirst(world) && NamesIdentify(world) && a < |world| && 0 < k <= |Kids(world, a)|
    ensures var c := Kids(world, a)[k - 1];
            Bought(world, a, k) == Plus(Bought(world, a, k - 1),
              if Purchasable(world[c]) then Unit(|world|, c, 1) else Bought(world, c, |Kids(world, c)|))
  {
    var c := Kids(world, a)[k - 1];
    var added := if Purchasable(world[c]) then Unit(|world|, c, 1) else Bought(world, c, |Kids(world, c)|);
    forall u | 0 <= u < |world| ensures Bought(world, a, k)[u] == Bought(world, a, k - 1)[u] + added[u] {
      if Purchasable(world[u]) {
        var q := Supply(FullName(world[u]));
        assert Hits(world, q, c) <==> c == u;
        TallyByChild(world, q, a, k);
      }
    }
  }

  lemma SupplyOfPartsByChild(world: World, n: string, a: nat, k: nat)
    requires ContentsFirst(world) && NamesIdentify(world) && a < |world| && 0 < k <= |Kids(world, a)|
    ensures var c := Kids(world, a)[k - 1];
            SupplyOfParts(world, n, a, k) == SupplyOfParts(world, n, a, k - 1)
              + (if Purchasable(world[c]) then 0
                 else (if world[c].Part? && FullName(world[c]) == n then 1 else 0) + SupplyOfParts(world, n, c, |Kids(world, c)|))
  {
    var c := Kids(world, a)[k - 1];
    TallyByChild(world, Supply(n), a, k);
    if NamesAssembly(world, n) {
      var u :| 0 <= u < |world| && Purchasable(world[u]) && FullName(world[u]) == n;
    } else {
      assert Purchasable(world[c]) ==> FullName(world[c]) != n;
    }
  }

  /** Replacing each purchasable assembly's line by that many copies of that assembly's
      own flat BoM makes the supply BoM the flat BoM, line by line. */
  lemma {:induction false} SupplyExpandsToFlat(world: World, n: string, a: nat, k: nat)
    requires ContentsFirst(world) && NamesIdentify(world) && a < |world| && k <= |Kids(world, a)|
    ensures Tally(world, Flat(n), a, k) == SupplyOfParts(world, n, a, k) + Dot(Bought(world, a, k), FlatOf(world, n))
    decreases a, k
  {
    if k == 0 {
      NothingBought(world, a, FlatOf(world, n));
    } else {
      var c := Kids(world, a)[k - 1];
      SupplyExpandsToFlat(world, n, a, k - 1);
      SupplyExpandsToFlat(world, n, c, |Kids(world, c)|);
      ExpandsByChild(world, n, a, k);
    }
  }

  lemma NothingBought(world: World, a: nat, each: seq<nat>)
    requires ContentsFirst(world) && a < |world| == |each|
    ensures Dot(Bought(world, a, 0), each) == 0
  {
    assert Bought(world, a, 0) == Unit(|world|, |world|, 0);
    DotUnit(|world|, |world|, 0, each);
  }

  lemma ExpandsByChild(world: World, n: string, a: nat, k: nat)
    requires ContentsFirst(world) && NamesIdentify(world) && a < |world| && 0 < k <= |Kids(world, a)|
    requires var flat, c := FlatOf(world, n), Kids(world, a)[k - 1];
             && Tally(world, Flat(n), a, k - 1) == SupplyOfParts(world, n, a, k - 1) + Dot(Bought(world, a, k - 1), flat)
             && Count(world, Flat(n), c) == SupplyOfParts(world, n, c, |Kids(world, c)|) + Dot(Bought(world, c, |Kids(world, c)|), flat)
    ensures Tally(world, Flat(n), a, k) == SupplyOfParts(world, n, a, k) + Dot(Bought(world, a, k), FlatOf(world, n))
  {
    var flat, c := FlatOf(world, n), Kids(world, a)[k - 1];
    var before := Bought(world, a, k - 1);
    BoughtByChild(world, a, k);
    SupplyOfPartsByChild(world, n, a, k);
    TallyByChild(world, Flat(n), a, k);
    if Purchasable(world[c]) {
      DotPlus(before, Unit(|world|, c, 1), flat);
      DotUnit(|world|, c, 1, flat);
    } else {
      DotPlus(before, Bought(world, c, |Kids(world, c)|), flat);
    }
  }

  /** How often each declared assembly is placed under a. */
  function Placed(world: World, a: nat, k: nat): (r: seq<nat>)
    requires ContentsFirst(world) && a < |world| && k <= |Kids(world, a)|
    ensures |r| == |world|
    ensures forall u | 0 <= u < |world| :: r[u] == if world[u].Assembly? && !world[u].embedded then Tally(world, To(u), a, k) else 0
  {
    seq(|world|, u requires 0 <= u < |world| => if world[u].Assembly? && !world[u].embedded then Tally(world, To(u), a, k) else 0)
  }

  /** How often each object places t itself, its embedded containers' placements among
      its own. */
  function PlacementsOf(world: World, t: nat): (r: seq<nat>)
    requires ContentsFirst(world)
    ensures |r| == |world| && forall u | 0 <= u < |world| :: r[u] == Count(world, Through(t), u)
  {
    seq(|world|, u requires 0 <= u < |world| => Count(world, Through(t), u))
  }

  lemma PlacedByChild(world: World, a: nat, k: nat)
    requires ContentsFirst(world) && a < |world| && 0 < k <= |Kids(world, a)|
    ensures var c := Kids(world, a)[k - 1];
            Placed(world, a, k) == Plus(Plus(Placed(world, a, k - 1), Placed(world, c, |Kids(world, c)|)),
              Unit(|world|, c, if world[c].Assembly? && !world[c].embedded then 1 else 0))
  {
    var c := Kids(world, a)[k - 1];
    var below, here := Placed(world, c, |Kids(world, c)|), Unit(|world|, c, if world[c].Assembly? && !world[c].embedded then 1 else 0);
    forall u | 0 <= u < |world| ensures Placed(world, a, k)[u] == Placed(world, a, k - 1)[u] + below[u] + here[u] {
      if world[u].Assembly? && !world[u].embedded { TallyByChild(world, To(u), a, k); }
    }
  }

  /** The placements of anything are the sum over its users: how often each declared
      assembly is placed, times how often that one places it, and what the top places
      itself - embedded containers being transparent. */
  lemma {:induction false} PlacementsByUser(world: World, t: nat, a: nat, k: nat)
    requires ContentsFirst(world) && a < |world| && k <= |Kids(world, a)| && t < |world|
    ensures Tally(world, To(t), a, k) == Tally(world, Through(t), a, k) + Dot(Placed(world, a, k), PlacementsOf(world, t))
    decreases a, k
  {
    if k == 0 {
      NothingPlaced(world, a, PlacementsOf(world, t));
    } else {
      var c := Kids(world, a)[k - 1];
      PlacementsByUser(world, t, a, k - 1);
      PlacementsByUser(world, t, c, |Kids(world, c)|);
      UsersByChild(world, t, a, k);
    }
  }

  lemma NothingPlaced(world: World, a: nat, each: seq<nat>)
    requires ContentsFirst(world) && a < |world| == |each|
    ensures Dot(Placed(world, a, 0), each) == 0
  {
    assert Placed(world, a, 0) == Unit(|world|, |world|, 0);
    DotUnit(|world|, |world|, 0, each);
  }

  lemma UsersByChild(world: World, t: nat, a: nat, k: nat)
    requires ContentsFirst(world) && a < |world| && 0 < k <= |Kids(world, a)| && t < |world|
    requires var each, c := PlacementsOf(world, t), Kids(world, a)[k - 1];
             && Tally(world, To(t), a, k - 1) == Tally(world, Through(t), a, k - 1) + Dot(Placed(world, a, k - 1), each)
             && Count(world, To(t), c) == Count(world, Through(t), c) + Dot(Placed(world, c, |Kids(world, c)|), each)
    ensures Tally(world, To(t), a, k) == Tally(world, Through(t), a, k) + Dot(Placed(world, a, k), PlacementsOf(world, t))
  {
    var each, c := PlacementsOf(world, t), Kids(world, a)[k - 1];
    var before, below := Placed(world, a, k - 1), Placed(world, c, |Kids(world, c)|);
    var x: nat := if world[c].Assembly? && !world[c].embedded then 1 else 0;
    TallyByChild(world, To(t), a, k);
    TallyByChild(world, Through(t), a, k);
    PlacedByChild(world, a, k);
    DotPlus(Plus(before, below), Unit(|world|, c, x), each);
    DotPlus(before, below, each);
    DotUnit(|world|, c, x, each);
  }

  /** In the grouped BoM, a line's count is how often its object is placed. */
  lemma {:induction false} GroupedLineCountsPlacements(world: World, t: nat, a: nat, k: nat)
    requires ContentsFirst(world) && a < |world| && k <= |Kids(world, a)| && t < |world| && Named(world[t])
    requires forall c | 0 <= c < |world| && Named(world[c]) && KeyOf(world[c]) == KeyOf(world[t]) :: c == t
    ensures Tally(world, Grouped(KeyOf(world[t])), a, k) == Tally(world, To(t), a, k)
    decreases a, k
  {
    if k > 0 {
      var c := Kids(world, a)[k - 1];
      GroupedLineCountsPlacements(world, t, a, k - 1);
      GroupedLineCountsPlacements(world, t, c, |Kids(world, c)|);
      TallyByChild(world, Grouped(KeyOf(world[t])), a, k);
      TallyByChild(world, To(t), a, k);
    }
  }

  /** The count of a package's part or assembly in the grouped BoM is the number of
      paths to it, and the sum over its users. */
  lemma GroupedLineIsPathsAndUsers(world: World, t: nat, a: nat) returns (paths: seq<seq<nat>>)
    requires ContentsFirst(world) && a < |world| && t < |world| && Named(world[t])
    requires forall c | 0 <= c < |world| && Named(world[c]) && KeyOf(world[c]) == KeyOf(world[t]) :: c == t
    ensures AllDistinct(paths) && forall path :: path in paths <==> Leads(world, To(t), a, path)
    ensures Count(world, Grouped(KeyOf(world[t])), a) == |paths|
    ensures |paths| == Count(world, Through(t), a) + Dot(Placed(world, a, |Kids(world, a)|), PlacementsOf(world, t))
  {
    paths := CountsPaths(world, To(t), a);
    GroupedLineCountsPlacements(world, t, a, |Kids(world, a)|);
    PlacementsByUser(world, t, a, |Kids(world, a)|);
  }

  // ---- the flat BoM and the supply BoM, as dictionaries ----

  type Bom = map<string, nat>

  function Line(bom: Bom, n: string): nat { if n in bom then bom[n] else 0 }

  ghost function Total(bom: Bom): nat {
    if bom == map[] then 0 else
      var n :| n in bom;
      bom[n] + Total(bom - {n})
  }

  lemma {:induction false} TotalWithout(bom: Bom, n: string)
    requires n in bom
    ensures Total(bom) == bom[n] + Total(bom - {n})
    decreases |bom|
  {
    var m :| m in bom && Total(bom) == bom[m] + Total(bom - {m});
    if m != n {
      TotalWithout(bom - {m}, n);
      TotalWithout(bom - {n}, m);
      assert bom - {m} - {n} == bom - {n} - {m};
    }
  }

  lemma TotalOfUpdate(bom: Bom, n: string, x: nat)
    ensures Total(bom[n := x]) + Line(bom, n) == Total(bom) + x
  {
    TotalWithout(bom[n := x], n);
    assert bom[n := x] - {n} == bom - {n};
    if n in bom { TotalWithout(bom, n); } else { assert bom - {n} == bom; }
  }

  method AccountFor(bom: Bom, n: string, count: nat) returns (r: Bom)
    ensures forall m :: (m in r <==> m in bom || m == n) && Line(r, m) == Line(bom, m) + if m == n then count else 0
    ensures Total(r) == Total(bom) + count
  {
    if n in bom {
      TotalOfUpdate(bom, n, bom[n] + count);
      r := bom[n := bom[n] + count];
    } else {
      TotalOfUpdate(bom, n, count);
      r := bom[n := count];
    }
  }

  lemma LineWithout(bom: Bom, n: string, m: string)
    ensures Line(bom - {n}, m) == if m == n then 0 else Line(bom, m)
  {}

  method MergeInto(bom: Bom, other: Bom) returns (r: Bom)
    ensures forall n :: (n in r <==> n in bom || n in other) && Line(r, n) == Line(bom, n) + Line(other, n)
    ensures Total(r) == Total(bom) + Total(other)
  {
    r := bom;
    var rest := other;
    while rest != map[]
      invariant forall n :: Line(r, n) + Line(rest, n) == Line(bom, n) + Line(other, n)
      invariant forall n :: (n in r || n in rest) <==> (n in bom || n in other)
      invariant Total(r) + Total(rest) == Total(bom) + Total(other)
      decreases |rest|
    {
      var n :| n in rest;
      TotalWithout(rest, n);
      r := AccountFor(r, n, rest[n]);
      forall m ensures Line(rest - {n}, m) == if m == n then 0 else Line(rest, m) { LineWithout(rest, n, m); }
      rest := rest - {n};
    }
  }

  /** A BoM has a line for each name that is counted, and no other. */
  ghost predicate Lists(bom: Bom, world: World, supply: bool, a: nat, k: nat)
    requires ContentsFirst(world) && a < |world| && k <= |Kids(world, a)|
  {
    forall n :: LineOk(bom, world, LineQuery(supply, n), n, a, k)
  }

  ghost predicate LineOk(bom: Bom, world: World, q: Query, n: string, a: nat, k: nat)
    requires ContentsFirst(world) && a < |world| && k <= |Kids(world, a)|
  {
    Line(bom, n) == Tally(world, q, a, k) && (n in bom ==> bom[n] > 0)
  }

  function LineQuery(supply: bool, n: string): Query { if supply then Supply(n) else Flat(n) }

  /** What is inside a child that the walk enters is added line by line. */
  lemma ListsContents(world: World, supply: bool, a: nat, k: nat, before: Bom, inner: Bom, bom: Bom)
    requires ContentsFirst(world) && a < |world| && k < |Kids(world, a)|
    requires var c := Kids(world, a)[k];
             && world[c].Assembly? && (supply ==> !Purchasable(world[c]))
             && Lists(before, world, supply, a, k) && Lists(inner, world, supply, c, |Kids(world, c)|)
    requires forall n :: (n in bom <==> n in before || n in inner) && Line(bom, n) == Line(before, n) + Line(inner, n)
    ensures Lists(bom, world, supply, a, k + 1)
  {
    var c := Kids(world, a)[k];
    forall n ensures LineOk(bom, world, LineQuery(supply, n), n, a, k + 1) {
      var q := LineQuery(supply, n);
      TallyByChild(world, q, a, k + 1);
      assert LineOk(before, world, q, n, a, k) && LineOk(inner, world, q, n, c, |Kids(world, c)|);
    }
  }

  /** A child that the walk does not enter is one more of its own line. */
  lemma ListsItem(world: World, supply: bool, a: nat, k: nat, before: Bom, bom: Bom)
    requires ContentsFirst(world) && a < |world| && k < |Kids(world, a)|
    requires var c := Kids(world, a)[k];
             && (world[c].Part? || (supply && Purchasable(world[c]))) && Lists(before, world, supply, a, k)
             && forall n :: (n in bom <==> n in before || n == FullName(world[c]))
                            && Line(bom, n) == Line(before, n) + if n == FullName(world[c]) then 1 else 0
    ensures Lists(bom, world, supply, a, k + 1)
  {
    forall n ensures LineOk(bom, world, LineQuery(supply, n), n, a, k + 1) {
      TallyByChild(world, LineQuery(supply, n), a, k + 1);
      assert LineOk(before, world, LineQuery(supply, n), n, a, k);
    }
  }

  method GetBom(world: World, a: nat) returns (bom: Bom)
    requires ContentsFirst(world) && a < |world|
    ensures Lists(bom, world, false, a, |Kids(world, a)|)
    ensures Total(bom) == Count(world, Leaves, a)
    decreases a
  {
    bom := map[];
    var k := 0;
    while k < |Kids(world, a)|
      invariant 0 <= k <= |Kids(world, a)|
      invariant Lists(bom, world, false, a, k) && Total(bom) == Tally(world, Leaves, a, k)
    {
      var c := Kids(world, a)[k];
      ghost var before := bom;
      TallyByChild(world, Leaves, a, k + 1);
      if world[c].Assembly? {
        var inner := GetBom(world, c);
        bom := MergeInto(bom, inner);
        ListsContents(world, false, a, k, before, inner, bom);
      } else {
        bom := AccountFor(bom, FullName(world[c]), 1);
        ListsItem(world, false, a, k, before, bom);
      }
      k := k + 1;
    }
  }

  method GetSupplyBom(world: World, a: nat) returns (bom: Bom)
    requires ContentsFirst(world) && a < |world|
    ensures Lists(bom, world, true, a, |Kids(world, a)|)
    decreases a
  {
    bom := map[];
    var k := 0;
    while k < |Kids(world, a)|
      invariant 0 <= k <= |Kids(world, a)|
      invariant Lists(bom, world, true, a, k)
    {
      var c := Kids(world, a)[k];
      ghost var before := bom;
      if world[c].Assembly? && !Purchasable(world[c]) {
        var inner := GetSupplyBom(world, c);
        bom := MergeInto(bom, inner);
        ListsContents(world, true, a, k, before, inner, bom);
      } else {
        bom := AccountFor(bom, FullName(world[c]), 1);
        ListsItem(world, true, a, k, before, bom);
      }
      k := k + 1;
    }
  }

  // ---- the grouped BoM, whose entries are objects ----

  class Entry {
    var count: nat

    constructor (count: nat)
      ensures this.count == count
    {
      this.count := count;
    }
  }

  class GroupedBom {
    var entries: map<Key, Entry>
    ghost var owned: set<Entry>

    /** No entry stands for two lines, and none stands for nothing. */
    ghost predicate Valid()
      reads this, owned
    {
      && (forall k | k in entries :: entries[k] in owned && entries[k].count > 0)
      && (forall k, l | k in entries && l in entries && k != l :: entries[k] != entries[l])
    }

    ghost function LineOf(key: Key): nat
      requires Valid()
      reads this, owned
    {
      if key in entries then entries[key].count else 0
    }

    constructor ()
      ensures Valid() && owned == {} && forall k :: LineOf(k) == 0
    {
      entries, owned := map[], {};
    }

    method Add(key: Key)
      requires Valid()
      modifies this, owned
      ensures Valid() && fresh(owned - old(owned))
      ensures forall k :: LineOf(k) == old(LineOf(k)) + if k == key then 1 else 0
    {
      if key !in entries {
        var entry := new Entry(0);
        entries, owned := entries[key := entry], owned + {entry};
      }
      var entry := entries[key];
      entry.count := entry.count + 1;
    }

    /** One entry of another BoM: its count is added here, or copied into an entry of
        this BoM's own. */
    method MergeEntry(key: Key, entry: Entry)
      requires Valid() && entry !in owned && entry.count > 0
      modifies this, owned
      ensures Valid() && fresh(owned - old(owned))
      ensures forall k :: LineOf(k) == old(LineOf(k)) + if k == key then entry.count else 0
    {
      if key in entries {
        var mine := entries[key];
        mine.count := mine.count + entry.count;
      } else {
        var mine := new Entry(entry.count);
        entries, owned := entries[key := mine], owned + {mine};
      }
    }

    /** Adds another BoM's counts.  The other's entries are copied, never taken over, so
        the other stays what it was whatever is later added here. */
    method Merge(other: GroupedBom)
      requires Valid() && other.Valid() && other != this && owned !! other.owned
      modifies this, owned
      ensures Valid() && other.Valid() && fresh(owned - old(owned)) && owned !! other.owned
      ensures forall k :: LineOf(k) == old(LineOf(k)) + other.LineOf(k)
      ensures other.entries == old(other.entries) && forall k :: other.LineOf(k) == old(other.LineOf(k))
    {
      var rest := other.entries.Keys;
      while rest != {}
        invariant Valid() && other.Valid() && fresh(owned - old(owned)) && owned !! other.owned
        invariant rest <= other.entries.Keys
        invariant forall k :: LineOf(k) == old(LineOf(k)) + if k in rest then 0 else other.LineOf(k)
        decreases |rest|
      {
        var key :| key in rest;
        MergeLine(other, key);
        rest := rest - {key};
      }
    }

    method MergeLine(other: GroupedBom, key: Key)
      requires Valid() && other.Valid() && other != this && owned !! other.owned && key in other.entries
      modifies this, owned
      ensures Valid() && other.Valid() && fresh(owned - old(owned)) && owned !! other.owned
      ensures forall k :: LineOf(k) == old(LineOf(k)) + if k == key then other.LineOf(k) else 0
      ensures forall k :: other.LineOf(k) == old(other.LineOf(k))
    {
      MergeEntry(key, other.entries[key]);
    }

    /** One placed assembly: itself, unless it is embedded, and all that it contains. */
    method AddAssembly(o: Obj, inner: GroupedBom)
      requires o.Assembly? && Valid() && inner.Valid() && inner != this && owned !! inner.owned
      modifies this, owned
      ensures Valid() && fresh(owned - old(owned))
      ensures forall k :: LineOf(k) == old(LineOf(k)) + (if Named(o) && KeyOf(o) == k then 1 else 0) + old(inner.LineOf(k))
    {
      if !o.embedded { Add(KeyOf(o)); }
      Merge(inner);
    }
  }

  ghost predicate GroupedLines(world: World, g: GroupedBom, a: nat, k: nat)
    requires ContentsFirst(world) && a < |world| && k <= |Kids(world, a)|
    requires g.Valid()
    reads g, g.owned
  {
    forall key :: g.LineOf(key) == Tally(world, Grouped(key), a, k)
  }

  lemma GroupedByChild(world: World, a: nat, k: nat, key: Key)
    requires ContentsFirst(world) && a < |world| && k < |Kids(world, a)|
    ensures var c := Kids(world, a)[k];
            Tally(world, Grouped(key), a, k + 1) == Tally(world, Grouped(key), a, k)
              + (if Named(world[c]) && KeyOf(world[c]) == key then 1 else 0)
              + (if world[c].Assembly? then Tally(world, Grouped(key), c, |Kids(world, c)|) else 0)
  {
    TallyByChild(world, Grouped(key), a, k + 1);
  }

  method AddPlacedAssembly(world: World, ghost a: nat, ghost k: nat, c: nat, grouped: GroupedBom, inner: GroupedBom)
    requires ContentsFirst(world) && a < |world| && k < |Kids(world, a)| && c == Kids(world, a)[k] && world[c].Assembly?
    requires grouped.Valid() && inner.Valid() && inner != grouped && grouped.owned !! inner.owned
    requires GroupedLines(world, grouped, a, k) && GroupedLines(world, inner, c, |Kids(world, c)|)
    modifies grouped, grouped.owned
    ensures grouped.Valid() && fresh(grouped.owned - old(grouped.owned))
    ensures GroupedLines(world, grouped, a, k + 1)
  {
    grouped.AddAssembly(world[c], inner);
    forall key ensures grouped.LineOf(key) == Tally(world, Grouped(key), a, k + 1) {
      GroupedByChild(world, a, k, key);
      assert old(grouped.LineOf(key)) == Tally(world, Grouped(key), a, k);
      assert old(inner.LineOf(key)) == Tally(world, Grouped(key), c, |Kids(world, c)|);
    }
  }

  method AddPlacedPart(world: World, ghost a: nat, ghost k: nat, c: nat, grouped: GroupedBom)
    requires ContentsFirst(world) && a < |world| && k < |Kids(world, a)| && c == Kids(world, a)[k] && world[c].Part?
    requires grouped.Valid() && GroupedLines(world, grouped, a, k)
    modifies grouped, grouped.owned
    ensures grouped.Valid() && fresh(grouped.owned - old(grouped.owned))
    ensures GroupedLines(world, grouped, a, k + 1)
  {
    grouped.Add(KeyOf(world[c]));
    forall key ensures grouped.LineOf(key) == Tally(world, Grouped(key), a, k + 1) {
      GroupedByChild(world, a, k, key);
      assert old(grouped.LineOf(key)) == Tally(world, Grouped(key), a, k);
    }
  }

  method GetBomGrouped(world: World, a: nat) returns (grouped: GroupedBom)
    requires ContentsFirst(world) && a < |world|
    ensures fresh(grouped) && grouped.Valid() && fresh(grouped.owned)
    ensures GroupedLines(world, grouped, a, |Kids(world, a)|)
    decreases a
  {
    grouped := new GroupedBom();
    var k := 0;
    while k < |Kids(world, a)|
      invariant 0 <= k <= |Kids(world, a)|
      invariant fresh(grouped) && grouped.Valid() && fresh(grouped.owned)
      invariant GroupedLines(world, grouped, a, k)
    {
      var c := Kids(world, a)[k];
      if world[c].Assembly? {
        var inner := GetBomGrouped(world, c);
        AddPlacedAssembly(world, a, k, c, grouped, inner);
      } else {
        AddPlacedPart(world, a, k, c, grouped);
      }
      k := k + 1;
    }
  }

  // ---- which paths count, by what they pass and where they end ----

  /** The objects along a path, from child position to child position. */
  function Stops(world: World, a: nat, path: seq<nat>): Option<seq<nat>>
    requires ContentsFirst(world) && a < |world|
    decreases |path|
  {
    if path == [] then Some([])
    else if !world[a].Assembly? || path[0] >= |world[a].children| then None
    else
      var c := Kids(world, a)[path[0]];
      match Stops(world, c, path[1..])
      case None => None
      case Some(more) => Some([c] + more)
  }

  /** Declared by a package, with a vendor and an SKU that are not empty. */
  predicate OrderedWhole(o: Obj) {
    && o.Assembly? && !o.embedded && o.vendor.Some? && o.vendor.value != "" && o.sku.Some? && o.sku.value != ""
  }

  /** Where a path that counts ends: at a part of the line's name; for the supply BoM, or at
      an assembly of that name that is ordered whole; for the grouped one, at a package's
      part or assembly under its own kind, package and name. */
  predicate EndsRight(world: World, q: Query, c: nat)
    requires c < |world|
  {
    var o := world[c];
    match q
    case Flat(n) => o.Part? && o.package + ":" + o.name == n
    case Supply(n) => (o.Part? || OrderedWhole(o)) && o.package + ":" + o.name == n
    case Grouped(key) =>
      if o.Part? then key == Key(PartKind, o.package, o.name) else !o.embedded && key == Key(AssemblyKind, o.package, o.name)
    case Leaves => o.Part?
    case To(t) => c == t
    case Through(t) => c == t
  }

  /** And what it may pass: anything, but for the supply BoM nothing that is ordered whole,
      and for placements through containers only embedded assemblies. */
  predicate PassesRight(world: World, q: Query, c: nat)
    requires c < |world|
  {
    match q
    case Supply(_) => !OrderedWhole(world[c])
    case Through(_) => world[c].Assembly? && world[c].embedded
    case _ => true
  }

  predicate CountedPath(world: World, q: Query, a: nat, path: seq<nat>)
    requires ContentsFirst(world) && a < |world|
  {
    var stops := Stops(world, a, path);
    stops.Some? && RightStops(world, q, stops.value)
  }

  predicate RightStops(world: World, q: Query, stops: seq<nat>) {
    && stops != [] && (forall i | 0 <= i < |stops| :: stops[i] < |world|)
    && EndsRight(world, q, stops[|stops|-1])
    && forall i | 0 <= i < |stops| - 1 :: PassesRight(world, q, stops[i])
  }

  lemma RightFromSecond(world: World, q: Query, c: nat, rest: seq<nat>)
    requires c < |world| && rest != []
    ensures RightStops(world, q, [c] + rest) <==> PassesRight(world, q, c) && RightStops(world, q, rest)
  {
    var stops := [c] + rest;
    assert stops[|stops|-1] == rest[|rest|-1];
    forall i | 0 <= i < |rest| ensures stops[i + 1] == rest[i] {}
    if RightStops(world, q, stops) {
      assert PassesRight(world, q, stops[0]);
      forall i | 0 <= i < |rest| ensures rest[i] < |world| { assert stops[i + 1] < |world| && stops[i + 1] == rest[i]; }
      forall i | 0 <= i < |rest| - 1 ensures PassesRight(world, q, rest[i]) { assert PassesRight(world, q, stops[i + 1]) && stops[i + 1] == rest[i]; }
    }
  }

  lemma LongerStops(world: World, q: Query, a: nat, path: seq<nat>)
    requires ContentsFirst(world) && a < |world| && |path| > 1 && path[0] < |Kids(world, a)|
    ensures var c := Kids(world, a)[path[0]];
            CountedPath(world, q, a, path) <==> PassesRight(world, q, c) && CountedPath(world, q, c, path[1..])
  {
    var c := Kids(world, a)[path[0]];
    var rest := Stops(world, c, path[1..]);
    assert world[a].Assembly? && world[a].children == Kids(world, a);
    assert Stops(world, a, path) == (match rest case None => None case Some(more) => Some([c] + more));
    if rest.Some? {
      StopsOnce(world, c, path[1..]);
      RightFromSecond(world, q, c, rest.value);
    }
  }

  lemma {:induction false} StopsOnce(world: World, a: nat, path: seq<nat>)
    requires ContentsFirst(world) && a < |world| && Stops(world, a, path).Some?
    ensures |Stops(world, a, path).value| == |path|
    decreases |path|
  {
    if path != [] { StopsOnce(world, Kids(world, a)[path[0]], path[1..]); }
  }

  lemma OneStop(world: World, q: Query, a: nat, path: seq<nat>)
    requires ContentsFirst(world) && a < |world| && |path| == 1 && path[0] < |Kids(world, a)|
    ensures CountedPath(world, q, a, path) <==> EndsRight(world, q, Kids(world, a)[path[0]])
  {
    var c := Kids(world, a)[path[0]];
    assert path[1..] == [] && Stops(world, c, path[1..]) == Some([]);
    assert [c] + [] == [c];
    assert Stops(world, a, path) == Some([c]);
  }

  /** The paths that a count is the number of are exactly those. */
  lemma {:induction false} LeadsIsCounted(world: World, q: Query, a: nat, path: seq<nat>)
    requires ContentsFirst(world) && a < |world|
    ensures Leads(world, q, a, path) <==> CountedPath(world, q, a, path)
    decreases |path|
  {
    if path != [] && path[0] < |Kids(world, a)| {
      var c := Kids(world, a)[path[0]];
      if |path| == 1 {
        OneStop(world, q, a, path);
      } else {
        LongerStops(world, q, a, path);
        LeadsIsCounted(world, q, c, path[1..]);
        if world[c].Part? {
          var rest := path[1..];
          assert |rest| > 0;
          assert Stops(world, c, rest).None?;
        }
      }
    }
  }
}
