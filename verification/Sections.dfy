/** The sections of an instruction book, bottom up (src/partcad/assembly_guide.py,
    collect_sections_async, _collect_section, _step_source and _assembly_key).

    Assemblies are objects, named by their place in `world`; an embedded one belongs to
    no package.  Their children are there already: do_instantiate is the subject of
    module Instantiation. */
module Sections {

  datatype Item = Part | Assembly(id: nat)

  datatype Child = Child(item: Item, connected: bool)

  datatype Asm = Asm(embedded: bool, package: string, name: string, children: seq<Child>)

  datatype Key = Identity(id: nat) | Name(package: string, name: string)

  datatype Node = Node(assembly: nat, content: nat, top: bool)

  type World = seq<Asm>

  /** Every child is an assembly of the world, below the one that holds it. */
  predicate Acyclic(world: World, rank: seq<nat>) {
    && |rank| == |world|
    && forall a, k | 0 <= a < |world| && 0 <= k < |world[a].children| && world[a].children[k].item.Assembly? ::
         var b := world[a].children[k].item.id; b < |world| && rank[b] < rank[a]
  }

  function KeyOf(world: World, a: nat): Key
    requires a < |world|
  {
    if world[a].embedded then Identity(a) else Name(world[a].package, world[a].name)
  }

  /** An assembly that a package declares is one object wherever it is used. */
  predicate NamesIdentify(world: World) {
    forall a, b | 0 <= a < |world| && 0 <= b < |world| && KeyOf(world, a) == KeyOf(world, b) :: a == b
  }

  /** Holds nothing but one embedded assembly, and no step places that one. */
  predicate IsWrapper(world: World, a: nat)
    requires a < |world|
  {
    var children := world[a].children;
    && |children| == 1 && children[0].item.Assembly? && children[0].item.id < |world|
    && world[children[0].item.id].embedded && !children[0].connected
  }

  /** Its children are one: an embedded assembly that is not connected to anything. */
  lemma WrappersAreBare(world: World, a: nat)
    requires a < |world|
    ensures IsWrapper(world, a) <==> exists b: nat :: b < |world| && world[a].children == [Child(Assembly(b), false)] && world[b].embedded
  {
    if IsWrapper(world, a) {
      var b := world[a].children[0].item.id;
      assert world[a].children == [Child(Assembly(b), false)];
    }
  }

  /** Two assemblies are one section if they are one object, or packages declare both, under
      one name. */
  lemma KeysTellApart(world: World, a: nat, b: nat)
    requires a < |world| && b < |world|
    ensures KeyOf(world, a) == KeyOf(world, b) <==>
              a == b || (!world[a].embedded && !world[b].embedded && world[a].package == world[b].package && world[a].name == world[b].name)
  {}

  /** Connected or not, an assembly among the children is one. */
  lemma ChildrenAreHeld(world: World, a: nat, b: nat)
    requires a < |world|
    ensures HasChild(world, a, b) <==> Child(Assembly(b), true) in world[a].children || Child(Assembly(b), false) in world[a].children
  {
    if HasChild(world, a, b) {
      var k :| 0 <= k < |world[a].children| && world[a].children[k].item == Assembly(b);
      assert world[a].children[k] == Child(Assembly(b), world[a].children[k].connected);
    }
  }

  predicate HasChild(world: World, a: nat, b: nat)
    requires a < |world|
  {
    exists k | 0 <= k < |world[a].children| :: world[a].children[k].item == Assembly(b)
  }

  /** What is inside the wrappers, by recursion. */
  function StepSource(world: World, rank: seq<nat>, a: nat): (c: nat)
    requires Acyclic(world, rank) && a < |world|
    ensures c < |world| && rank[c] <= rank[a] && !IsWrapper(world, c)
    decreases rank[a]
  {
    if IsWrapper(world, a) then
      assert world[a].children[0].item.Assembly?;
      StepSource(world, rank, world[a].children[0].item.id)
    else a
  }

  method LookThrough(world: World, ghost rank: seq<nat>, assembly: nat) returns (content: nat)
    requires Acyclic(world, rank) && assembly < |world|
    ensures content == StepSource(world, rank, assembly)
  {
    content := assembly;
    while |world[content].children| == 1
      invariant content < |world| && StepSource(world, rank, content) == StepSource(world, rank, assembly)
      decreases rank[content]
    {
      var child := world[content].children[0];
      if !child.item.Assembly? || !world[child.item.id].embedded { break; }
      if child.connected { break; }
      content := child.item.id;
    }
  }

  // ---- what the walk has found ----

  predicate Listed(nodes: seq<Node>, a: nat) {
    exists i | 0 <= i < |nodes| :: nodes[i].assembly == a
  }

  /** Node i is right: its content is what is inside its wrappers, and each assembly
      that the content places comes before it. */
  ghost predicate NodeOk(world: World, rank: seq<nat>, nodes: seq<Node>, i: nat)
    requires Acyclic(world, rank) && i < |nodes|
  {
    && nodes[i].assembly < |world| && nodes[i].content == StepSource(world, rank, nodes[i].assembly)
    && forall b | HasChild(world, nodes[i].content, b) :: Listed(nodes[..i], b)
  }

  predicate Distinct(nodes: seq<Node>) {
    forall i, j | 0 <= i < j < |nodes| :: nodes[i].assembly != nodes[j].assembly
  }

  ghost predicate NodesOk(world: World, rank: seq<nat>, nodes: seq<Node>)
    requires Acyclic(world, rank)
  {
    Distinct(nodes) && forall i | 0 <= i < |nodes| :: NodeOk(world, rank, nodes, i)
  }

  lemma NodesStayOk(world: World, rank: seq<nat>, nodes: seq<Node>, node: Node)
    requires Acyclic(world, rank) && NodesOk(world, rank, nodes)
    requires node.assembly < |world| && node.content == StepSource(world, rank, node.assembly) && !Listed(nodes, node.assembly)
    requires forall b | HasChild(world, node.content, b) :: Listed(nodes, b)
    ensures NodesOk(world, rank, nodes + [node])
  {
    var more := nodes + [node];
    forall i | 0 <= i < |more| ensures NodeOk(world, rank, more, i) {
      if i < |nodes| {
        assert NodeOk(world, rank, nodes, i);
        assert more[..i] == nodes[..i];
      } else {
        assert more[..i] == nodes;
      }
    }
  }

  /** One step of the walk: the content of a places b. */
  predicate Places(world: World, rank: seq<nat>, a: nat, b: nat)
    requires Acyclic(world, rank)
  {
    a < |world| && HasChild(world, StepSource(world, rank, a), b)
  }

  ghost predicate IsWalk(world: World, rank: seq<nat>, path: seq<nat>)
    requires Acyclic(world, rank)
  {
    && path != [] && path[0] < |world|
    && forall i | 0 <= i < |path| - 1 :: Places(world, rank, path[i], path[i + 1])
  }

  ghost predicate Walks(world: World, rank: seq<nat>, a: nat, b: nat)
    requires Acyclic(world, rank)
  {
    exists path: seq<nat> :: IsWalk(world, rank, path) && path[0] == a && path[|path|-1] == b
  }

  lemma WalkNowhere(world: World, rank: seq<nat>, a: nat)
    requires Acyclic(world, rank) && a < |world|
    ensures Walks(world, rank, a, a)
  {
    assert IsWalk(world, rank, [a]) && [a][0] == a;
  }

  lemma WalkOneFirst(world: World, rank: seq<nat>, a: nat, b: nat, c: nat)
    requires Acyclic(world, rank) && Places(world, rank, a, b) && Walks(world, rank, b, c)
    ensures Walks(world, rank, a, c)
  {
    var path :| IsWalk(world, rank, path) && path[0] == b && path[|path|-1] == c;
    var longer := [a] + path;
    assert IsWalk(world, rank, longer) && longer[0] == a && longer[|longer|-1] == c;
  }

  /** Everything appended past the first n nodes is reached from a, and is not the top. */
  ghost predicate NewFrom(world: World, rank: seq<nat>, nodes: seq<Node>, n: nat, a: nat)
    requires Acyclic(world, rank)
  {
    forall i | n <= i < |nodes| :: Walks(world, rank, a, nodes[i].assembly) && !nodes[i].top
  }

  lemma NewFromChild(world: World, rank: seq<nat>, before: seq<Node>, after: seq<Node>, n: nat, a: nat, b: nat)
    requires Acyclic(world, rank) && NewFrom(world, rank, before, n, a) && Places(world, rank, a, b)
    requires before < after && after[|after|-1].assembly == b && !after[|after|-1].top && b < |world|
    requires NewFrom(world, rank, after[..|after|-1], |before|, b)
    ensures NewFrom(world, rank, after, n, a)
  {
    forall i | n <= i < |after| ensures Walks(world, rank, a, after[i].assembly) && !after[i].top {
      if i < |before| {
        assert after[i] == before[i];
      } else {
        if i == |after| - 1 { WalkNowhere(world, rank, b); } else { assert after[..|after|-1][i] == after[i]; }
        WalkOneFirst(world, rank, a, b, after[i].assembly);
      }
    }
  }

  lemma ListedOneMore(nodes: seq<Node>, node: Node, a: nat)
    ensures Listed(nodes + [node], a) <==> Listed(nodes, a) || a == node.assembly
  {
    var more := nodes + [node];
    if Listed(nodes, a) {
      var i :| 0 <= i < |nodes| && nodes[i].assembly == a;
      assert more[i].assembly == a;
    }
    if a == node.assembly { assert more[|nodes|].assembly == a; }
  }

  class Walk {
    var nodes: seq<Node>
    var seen: set<Key>

    constructor ()
      ensures nodes == [] && seen == {}
    {
      nodes, seen := [], {};
    }

    /** Seen and not listed: its walk has begun and not ended. */
    ghost predicate UnderWay(world: World, a: nat)
      requires a < |world|
      reads this
    {
      KeyOf(world, a) in seen && !Listed(nodes, a)
    }

    ghost predicate Valid(world: World, rank: seq<nat>)
      reads this
    {
      && Acyclic(world, rank) && NamesIdentify(world) && NodesOk(world, rank, nodes)
      && forall a | 0 <= a < |world| && Listed(nodes, a) :: KeyOf(world, a) in seen
    }

    /** Lists the assembly after everything it is made of, unless it is seen. */
    method Collect(world: World, ghost rank: seq<nat>, assembly: nat, top: bool)
      requires Valid(world, rank) && assembly < |world|
      requires forall a | 0 <= a < |world| && UnderWay(world, a) :: rank[a] > rank[assembly]
      modifies this
      ensures Valid(world, rank) && Listed(nodes, assembly)
      ensures old(nodes) <= nodes
      ensures forall a | 0 <= a < |world| :: UnderWay(world, a) <==> old(UnderWay(world, a))
      ensures old(KeyOf(world, assembly) in seen) ==> nodes == old(nodes)
      ensures !old(KeyOf(world, assembly) in seen) ==>
                && old(nodes) < nodes && nodes[|nodes|-1] == Node(assembly, StepSource(world, rank, assembly), top)
                && NewFrom(world, rank, nodes[..|nodes|-1], |old(nodes)|, assembly)
      decreases rank[assembly]
    {
      var key := KeyOf(world, assembly);
      if key in seen {
        assert !UnderWay(world, assembly);
        return;
      }
      seen := seen + {key};
      var content := LookThrough(world, rank, assembly);
      var k := 0;
      while k < |world[content].children|
        invariant 0 <= k <= |world[content].children|
        invariant Valid(world, rank) && old(nodes) <= nodes
        invariant forall a | 0 <= a < |world| :: UnderWay(world, a) <==> a == assembly || old(UnderWay(world, a))
        invariant NewFrom(world, rank, nodes, |old(nodes)|, assembly)
        invariant forall j | 0 <= j < k && world[content].children[j].item.Assembly? :: Listed(nodes, world[content].children[j].item.id)
      {
        var child := world[content].children[k];
        if child.item.Assembly? {
          ghost var before := nodes;
          Collect(world, rank, child.item.id, false);
          if nodes != before { NewFromChild(world, rank, before, nodes, |old(nodes)|, assembly, child.item.id); }
          forall a | Listed(before, a) ensures Listed(nodes, a) { ListedStays(before, nodes, a); }
        }
        k := k + 1;
      }
      ghost var before := nodes;
      var node := Node(assembly, content, top);
      assert UnderWay(world, assembly);
      NodesStayOk(world, rank, nodes, node);
      forall a ensures Listed(before + [node], a) <==> Listed(before, a) || a == assembly { ListedOneMore(before, node, a); }
      nodes := nodes + [node];
      assert nodes[..|nodes|-1] == before;
    }
  }

  lemma ListedStays(before: seq<Node>, after: seq<Node>, a: nat)
    requires before <= after && Listed(before, a)
    ensures Listed(after, a)
  {
    var i :| 0 <= i < |before| && before[i].assembly == a;
    assert after[i].assembly == a;
  }

  // ---- which assemblies are documented, told without the walk ----

  ghost predicate IsDescent(world: World, path: seq<nat>) {
    && path != [] && (forall i | 0 <= i < |path| :: path[i] < |world|)
    && forall i | 0 <= i < |path| - 1 :: HasChild(world, path[i], path[i + 1])
  }

  /** b is a, or somewhere inside it. */
  ghost predicate Within(world: World, a: nat, b: nat) {
    exists path: seq<nat> :: IsDescent(world, path) && path[0] == a && path[|path|-1] == b
  }

  /** The top is; so is whatever an assembly holds that is not a mere wrapper. */
  ghost predicate Documented(world: World, top: nat, b: nat) {
    b == top || exists p: nat :: p < |world| && Within(world, top, p) && !IsWrapper(world, p) && HasChild(world, p, b)
  }

  lemma WithinItself(world: World, a: nat)
    requires a < |world|
    ensures Within(world, a, a)
  {
    assert IsDescent(world, [a]) && [a][0] == a;
  }

  lemma WithinOneMore(world: World, a: nat, b: nat, c: nat)
    requires Within(world, a, b) && b < |world| && HasChild(world, b, c) && c < |world|
    ensures Within(world, a, c)
  {
    var path :| IsDescent(world, path) && path[0] == a && path[|path|-1] == b;
    var longer := path + [c];
    assert IsDescent(world, longer) && longer[0] == a && longer[|longer|-1] == c;
  }

  lemma ChildInWorld(world: World, rank: seq<nat>, a: nat, b: nat)
    requires Acyclic(world, rank) && a < |world| && HasChild(world, a, b)
    ensures b < |world| && rank[b] < rank[a]
  {
    var k :| 0 <= k < |world[a].children| && world[a].children[k].item == Assembly(b);
  }

  lemma {:induction false} ContentIsWithin(world: World, rank: seq<nat>, a: nat, b: nat)
    requires Acyclic(world, rank) && a < |world| && b < |world| && Within(world, a, b)
    ensures Within(world, a, StepSource(world, rank, b))
    decreases rank[b]
  {
    if IsWrapper(world, b) {
      var c := world[b].children[0].item.id;
      assert HasChild(world, b, c);
      WithinOneMore(world, a, b, c);
      ContentIsWithin(world, rank, a, c);
    }
  }

  lemma {:induction false} WalkedIsDocumented(world: World, rank: seq<nat>, path: seq<nat>)
    requires Acyclic(world, rank) && IsWalk(world, rank, path)
    ensures path[|path|-1] < |world| && Within(world, path[0], path[|path|-1]) && Documented(world, path[0], path[|path|-1])
  {
    var n := |path| - 1;
    if n == 0 {
      WithinItself(world, path[0]);
    } else {
      WalkedIsDocumented(world, rank, path[..n]);
      var a, b := path[n - 1], path[n];
      assert Places(world, rank, a, b);
      var c := StepSource(world, rank, a);
      ContentIsWithin(world, rank, path[0], a);
      ChildInWorld(world, rank, c, b);
      WithinOneMore(world, path[0], c, b);
    }
  }

  lemma WalkOneMore(world: World, rank: seq<nat>, a: nat, b: nat, c: nat)
    requires Acyclic(world, rank) && Walks(world, rank, a, b) && Places(world, rank, b, c)
    ensures Walks(world, rank, a, c)
  {
    var path :| IsWalk(world, rank, path) && path[0] == a && path[|path|-1] == b;
    var longer := path + [c];
    assert IsWalk(world, rank, longer) && longer[0] == a && longer[|longer|-1] == c;
  }

  /** Whatever is inside the top is inside the wrappers of something that is walked. */
  lemma {:induction false} InsideIsCovered(world: World, rank: seq<nat>, path: seq<nat>) returns (a: nat)
    requires Acyclic(world, rank) && IsDescent(world, path)
    ensures a < |world| && Walks(world, rank, path[0], a)
    ensures StepSource(world, rank, a) == StepSource(world, rank, path[|path|-1])
    decreases |path|
  {
    var n := |path| - 1;
    if n == 0 {
      a := path[0];
      WalkNowhere(world, rank, a);
    } else {
      a := InsideIsCovered(world, rank, path[..n]);
      var p, c := path[n - 1], path[n];
      assert HasChild(world, p, c);
      if !IsWrapper(world, p) {
        assert Places(world, rank, a, c);
        WalkOneMore(world, rank, path[0], a, c);
        a := c;
      }
    }
  }

  lemma WalksExactlyToDocumented(world: World, rank: seq<nat>, top: nat, b: nat)
    requires Acyclic(world, rank) && top < |world|
    ensures Walks(world, rank, top, b) <==> Documented(world, top, b)
  {
    if Walks(world, rank, top, b) {
      var path :| IsWalk(world, rank, path) && path[0] == top && path[|path|-1] == b;
      WalkedIsDocumented(world, rank, path);
    }
    if Documented(world, top, b) {
      WalkNowhere(world, rank, top);
      if b != top {
        var p: nat :| p < |world| && Within(world, top, p) && !IsWrapper(world, p) && HasChild(world, p, b);
        var path :| IsDescent(world, path) && path[0] == top && path[|path|-1] == p;
        var a := InsideIsCovered(world, rank, path);
        assert Places(world, rank, a, b);
        WalkOneMore(world, rank, top, a, b);
      }
    }
  }

  lemma {:induction false} WalkStaysListed(world: World, rank: seq<nat>, nodes: seq<Node>, path: seq<nat>)
    requires Acyclic(world, rank) && NodesOk(world, rank, nodes) && IsWalk(world, rank, path) && Listed(nodes, path[0])
    ensures Listed(nodes, path[|path|-1])
    decreases |path|
  {
    var n := |path| - 1;
    if n > 0 {
      WalkStaysListed(world, rank, nodes, path[..n]);
      var i :| 0 <= i < |nodes| && nodes[i].assembly == path[n - 1];
      assert NodeOk(world, rank, nodes, i) && Places(world, rank, path[n - 1], path[n]);
      ListedStays(nodes[..i], nodes, path[n]);
    }
  }

  /** Each assembly to document once, after everything its content places, the top one
      last and it alone marked so. */
  method CollectSections(world: World, ghost rank: seq<nat>, top: nat) returns (nodes: seq<Node>)
    requires Acyclic(world, rank) && NamesIdentify(world) && top < |world|
    ensures NodesOk(world, rank, nodes)
    ensures nodes != [] && nodes[|nodes|-1] == Node(top, StepSource(world, rank, top), true)
    ensures forall i | 0 <= i < |nodes| - 1 :: !nodes[i].top
    ensures forall b: nat :: Listed(nodes, b) <==> Documented(world, top, b)
  {
    var walk := new Walk();
    walk.Collect(world, rank, top, true);
    nodes := walk.nodes;
    assert nodes[|nodes|-1].assembly == top;
    forall b: nat ensures Listed(nodes, b) <==> Documented(world, top, b) {
      WalksExactlyToDocumented(world, rank, top, b);
      if Walks(world, rank, top, b) {
        var path :| IsWalk(world, rank, path) && path[0] == top && path[|path|-1] == b;
        WalkStaysListed(world, rank, nodes, path);
      }
      if Listed(nodes, b) {
        var i :| 0 <= i < |nodes| && nodes[i].assembly == b;
        if i == |nodes| - 1 { WalkNowhere(world, rank, top); } else { assert nodes[..|nodes|-1][i] == nodes[i]; }
      }
    }
  }
}
