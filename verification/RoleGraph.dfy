/** Role inheritance as a graph: reachability, acyclicity, and the permissions a role inherits. */
module RoleGraph {
  import opened Sequences
  import opened Ordered

  /** A role with its own permissions and the roles it inherits from, some of which may be deleted. */
  datatype Role = Role(permissions: set<nat>, parents: set<nat>, isSystem: bool)

  type Graph = map<nat, Role>

  const NewRole: Role := Role({}, {}, false)

  predicate IsEdge(g: Graph, a: nat, b: nat) {
    a in g && b in g && b in g[a].parents
  }

  predicate IsPath(g: Graph, p: seq<nat>) {
    p != [] && p[0] in g && forall i :: 0 <= i < |p| - 1 ==> IsEdge(g, p[i], p[i + 1])
  }

  predicate Connects(g: Graph, p: seq<nat>, a: nat, b: nat) {
    IsPath(g, p) && p[0] == a && p[|p| - 1] == b
  }

  /** b is a or inherited by a through live roles. */
  ghost predicate Reaches(g: Graph, a: nat, b: nat) {
    exists p :: Connects(g, p, a, b)
  }

  ghost predicate Acyclic(g: Graph) {
    forall a, b :: IsEdge(g, a, b) ==> !Reaches(g, b, a)
  }

  ghost function Ancestors(g: Graph, a: nat): set<nat> {
    set b | b in g && Reaches(g, a, b)
  }

  /** The permissions of every role reachable from a. */
  ghost function Closure(g: Graph, a: nat): set<nat> {
    set r, p | r in g && Reaches(g, a, r) && p in g[r].permissions :: p
  }

  // ---------------------------------------------------------------- paths

  lemma ReachesSelf(g: Graph, a: nat)
    ensures Reaches(g, a, a) <==> a in g
  {
    if a in g { assert Connects(g, [a], a, a); }
  }

  lemma PathNodesLive(g: Graph, p: seq<nat>, i: nat)
    requires IsPath(g, p) && i < |p|
    ensures p[i] in g
  {
    if i > 0 { assert IsEdge(g, p[i - 1], p[i - 1 + 1]); }
  }

  lemma ReachesLive(g: Graph, a: nat, b: nat)
    requires Reaches(g, a, b)
    ensures a in g && b in g
  {
    var p :| Connects(g, p, a, b);
    PathNodesLive(g, p, |p| - 1);
  }

  lemma ReachesTransitive(g: Graph, a: nat, b: nat, c: nat)
    requires Reaches(g, a, b) && Reaches(g, b, c)
    ensures Reaches(g, a, c)
  {
    var p :| Connects(g, p, a, b);
    var q :| Connects(g, q, b, c);
    var r := p + q[1..];
    forall i | 0 <= i < |r| - 1 ensures IsEdge(g, r[i], r[i + 1]) {
      if i < |p| - 1 { assert IsEdge(g, p[i], p[i + 1]); }
      else { assert IsEdge(g, q[i + 1 - |p|], q[i + 1 - |p| + 1]); }
    }
    assert Connects(g, r, a, c);
  }

  lemma EdgeReaches(g: Graph, a: nat, b: nat)
    requires IsEdge(g, a, b)
    ensures Reaches(g, a, b)
  {
    assert Connects(g, [a, b], a, b);
  }

  /** Part of a path is a path. */
  lemma SubPath(g: Graph, p: seq<nat>, i: nat, j: nat)
    requires IsPath(g, p) && i <= j < |p|
    ensures Connects(g, p[i..j + 1], p[i], p[j])
  {
    PathNodesLive(g, p, i);
    var q := p[i..j + 1];
    forall k | 0 <= k < |q| - 1 ensures IsEdge(g, q[k], q[k + 1]) {
      assert IsEdge(g, p[i + k], p[i + k + 1]);
    }
  }

  /** One step of reachability: stay, or go on from some live parent. */
  lemma ReachesUnfold(g: Graph, a: nat, r: nat)
    requires a in g
    ensures Reaches(g, a, r) <==> r == a || exists b :: IsEdge(g, a, b) && Reaches(g, b, r)
  {
    ReachesSelf(g, a);
    if Reaches(g, a, r) && r != a {
      var p :| Connects(g, p, a, r);
      assert IsEdge(g, p[0], p[0 + 1]);
      SubPath(g, p, 1, |p| - 1);
      assert Reaches(g, p[1], r);
    }
    if b :| IsEdge(g, a, b) && Reaches(g, b, r) {
      EdgeReaches(g, a, b);
      ReachesTransitive(g, a, b, r);
    }
  }

  /** A subgraph has no new paths. */
  predicate Subgraph(small: Graph, big: Graph) {
    forall a :: a in small ==> a in big && small[a].parents <= big[a].parents
  }

  lemma SubgraphReaches(small: Graph, big: Graph, a: nat, b: nat)
    requires Subgraph(small, big) && Reaches(small, a, b)
    ensures Reaches(big, a, b)
  {
    var p :| Connects(small, p, a, b);
    forall i | 0 <= i < |p| - 1 ensures IsEdge(big, p[i], p[i + 1]) {
      assert IsEdge(small, p[i], p[i + 1]);
    }
    assert Connects(big, p, a, b);
  }

  lemma SubgraphAcyclic(small: Graph, big: Graph)
    requires Subgraph(small, big) && Acyclic(big)
    ensures Acyclic(small)
  {
    forall a, b | IsEdge(small, a, b) ensures !Reaches(small, b, a) {
      assert IsEdge(big, a, b);
      if Reaches(small, b, a) { SubgraphReaches(small, big, b, a); }
    }
  }

  // ---------------------------------------------------------------- the termination measure

  /** Along an edge of an acyclic graph the set of reachable roles shrinks. */
  lemma AncestorsShrink(g: Graph, a: nat, b: nat)
    requires Acyclic(g) && a in g && b in g[a].parents
    ensures |Ancestors(g, b)| < |Ancestors(g, a)|
  {
    assert b in g ==> IsEdge(g, a, b);
    if Reaches(g, b, a) { ReachesLive(g, b, a); }
    AncestorsShrinkAt(g, a, b);
  }

  lemma AncestorsShrinkAt(g: Graph, a: nat, b: nat)
    requires a in g && b in g[a].parents && !Reaches(g, b, a)
    ensures |Ancestors(g, b)| < |Ancestors(g, a)|
  {
    ReachesSelf(g, a);
    assert a in Ancestors(g, a);
    if b in g {
      assert IsEdge(g, a, b);
      EdgeReaches(g, a, b);
      forall r | r in Ancestors(g, b) ensures r in Ancestors(g, a) { ReachesTransitive(g, a, b, r); }
      assert a !in Ancestors(g, b);
      ProperSubsetSmaller(Ancestors(g, b), Ancestors(g, a));
    } else {
      forall r | r in Ancestors(g, b) ensures false { ReachesLive(g, b, r); }
      assert Ancestors(g, b) == {};
      assert Ancestors(g, a) != {};
    }
  }

  lemma ProperSubsetSmaller(small: set<nat>, big: set<nat>)
    requires small < big
    ensures |small| < |big|
  {
    var x :| x in big && x !in small;
    assert small <= big - {x};
    SubsetNotLarger(small, big - {x});
  }

  lemma {:induction false} SubsetNotLarger(small: set<nat>, big: set<nat>)
    requires small <= big
    ensures |small| <= |big|
    decreases |small|
  {
    if small != {} {
      var x :| x in small;
      SubsetNotLarger(small - {x}, big - {x});
    }
  }

  // ---------------------------------------------------------------- collecting permissions

  /** The recursion of the cache builder: own permissions, then those of each parent in id order. */
  ghost function Collect(g: Graph, a: nat): set<nat>
    requires Acyclic(g)
    decreases |Ancestors(g, a)|, 1, 0
  {
    if a !in g then {} else g[a].permissions + CollectAll(g, a, Ascending(g[a].parents))
  }

  ghost function CollectAll(g: Graph, a: nat, parents: seq<nat>): set<nat>
    requires Acyclic(g) && a in g && forall b :: b in parents ==> b in g[a].parents
    decreases |Ancestors(g, a)|, 0, |parents|
  {
    if parents == [] then {}
    else
      AncestorsShrink(g, a, parents[0]);
      Collect(g, parents[0]) + CollectAll(g, a, parents[1..])
  }

  lemma ClosureMember(g: Graph, a: nat, r: nat, p: nat)
    requires r in g && Reaches(g, a, r) && p in g[r].permissions
    ensures p in Closure(g, a)
  {
  }

  /** The closure of a role is its own permissions and the closures of its live parents. */
  lemma ClosureUnfold(g: Graph, a: nat, p: nat)
    requires a in g
    ensures p in Closure(g, a) <==>
      p in g[a].permissions || exists b :: IsEdge(g, a, b) && p in Closure(g, b)
  {
    ReachesSelf(g, a);
    if p in Closure(g, a) {
      var r :| r in g && Reaches(g, a, r) && p in g[r].permissions;
      ReachesUnfold(g, a, r);
      if r != a {
        var b :| IsEdge(g, a, b) && Reaches(g, b, r);
        ClosureMember(g, b, r, p);
      }
    }
    if b :| IsEdge(g, a, b) && p in Closure(g, b) {
      var r :| r in g && Reaches(g, b, r) && p in g[r].permissions;
      ReachesUnfold(g, a, r);
      ClosureMember(g, a, r, p);
    }
  }

  lemma ClosureDead(g: Graph, a: nat)
    requires a !in g
    ensures Closure(g, a) == {}
  {
    forall r | r in g ensures !Reaches(g, a, r) {
      if Reaches(g, a, r) { ReachesLive(g, a, r); }
    }
  }

  /** The recursion computes the closure. */
  lemma {:induction false} CollectIsClosure(g: Graph, a: nat)
    requires Acyclic(g)
    ensures Collect(g, a) == Closure(g, a)
    decreases |Ancestors(g, a)|, 1, 0
  {
    if a !in g {
      ClosureDead(g, a);
    } else {
      var parents := Ascending(g[a].parents);
      forall p ensures p in Collect(g, a) <==> p in Closure(g, a) {
        CollectAllMember(g, a, parents, p);
        ClosureUnfold(g, a, p);
        assert forall b :: b in parents <==> b in g[a].parents;
        forall b | b in parents && b !in g ensures Closure(g, b) == {} { ClosureDead(g, b); }
      }
    }
  }

  lemma {:induction false} CollectAllMember(g: Graph, a: nat, parents: seq<nat>, p: nat)
    requires Acyclic(g) && a in g && forall b :: b in parents ==> b in g[a].parents
    ensures p in CollectAll(g, a, parents) <==> exists b :: b in parents && p in Closure(g, b)
    decreases |Ancestors(g, a)|, 0, |parents|
  {
    if parents != [] {
      AncestorsShrink(g, a, parents[0]);
      CollectIsClosure(g, parents[0]);
      CollectAllMember(g, a, parents[1..], p);
      assert forall b :: b in parents <==> b == parents[0] || b in parents[1..];
    }
  }

  // ---------------------------------------------------------------- the inheritance chain

  /** The recursion of get_inheritance_chain: the chains of the parents in id order, then the role. */
  ghost function Chain(g: Graph, a: nat): seq<nat>
    requires Acyclic(g)
    decreases |Ancestors(g, a)|, 1, 0
  {
    if a !in g then [] else ChainAll(g, a, Ascending(g[a].parents)) + [a]
  }

  ghost function ChainAll(g: Graph, a: nat, parents: seq<nat>): seq<nat>
    requires Acyclic(g) && a in g && forall b :: b in parents ==> b in g[a].parents
    decreases |Ancestors(g, a)|, 0, |parents|
  {
    if parents == [] then []
    else
      AncestorsShrink(g, a, parents[0]);
      Chain(g, parents[0]) + ChainAll(g, a, parents[1..])
  }

  /** The chain lists exactly the live roles that can be reached. */
  lemma {:induction false} ChainMembers(g: Graph, a: nat, r: nat)
    requires Acyclic(g)
    ensures r in Chain(g, a) <==> r in g && Reaches(g, a, r)
    decreases |Ancestors(g, a)|, 1, 0
  {
    if a !in g {
      if Reaches(g, a, r) { ReachesLive(g, a, r); }
    } else {
      var parents := Ascending(g[a].parents);
      ChainAllMembers(g, a, parents, r);
      ReachesUnfold(g, a, r);
      if Reaches(g, a, r) { ReachesLive(g, a, r); }
      if b :| b in parents && Reaches(g, b, r) {
        ReachesLive(g, b, r);
        assert IsEdge(g, a, b);
      }
      if b :| IsEdge(g, a, b) && Reaches(g, b, r) { assert b in parents; }
    }
  }

  lemma {:induction false} ChainAllMembers(g: Graph, a: nat, parents: seq<nat>, r: nat)
    requires Acyclic(g) && a in g && forall b :: b in parents ==> b in g[a].parents
    ensures r in ChainAll(g, a, parents) <==> r in g && exists b :: b in parents && Reaches(g, b, r)
    decreases |Ancestors(g, a)|, 0, |parents|
  {
    if parents != [] {
      AncestorsShrink(g, a, parents[0]);
      ChainMembers(g, parents[0], r);
      ChainAllMembers(g, a, parents[1..], r);
      assert forall b :: b in parents <==> b == parents[0] || b in parents[1..];
    }
  }

  /** Every occurrence of a role has each of its live parents somewhere before it. */
  ghost predicate ParentsFirst(g: Graph, chain: seq<nat>) {
    forall i, b :: 0 <= i < |chain| && IsEdge(g, chain[i], b) ==> b in chain[..i]
  }

  lemma ParentsFirstConcat(g: Graph, x: seq<nat>, y: seq<nat>)
    requires ParentsFirst(g, x) && ParentsFirst(g, y)
    ensures ParentsFirst(g, x + y)
  {
    forall i, b | 0 <= i < |x + y| && IsEdge(g, (x + y)[i], b) ensures b in (x + y)[..i] {
      if i < |x| {
        assert IsEdge(g, x[i], b) && (x + y)[..i] == x[..i];
      } else {
        assert IsEdge(g, y[i - |x|], b) && (x + y)[..i] == x + y[..i - |x|];
      }
    }
  }

  lemma {:induction false} ChainParentsFirst(g: Graph, a: nat)
    requires Acyclic(g)
    ensures ParentsFirst(g, Chain(g, a))
    decreases |Ancestors(g, a)|, 1, 0
  {
    if a in g {
      var parents := Ascending(g[a].parents);
      var before := ChainAll(g, a, parents);
      ChainAllParentsFirst(g, a, parents);
      forall i, b | 0 <= i < |before + [a]| && IsEdge(g, (before + [a])[i], b) ensures b in (before + [a])[..i] {
        if i < |before| {
          assert IsEdge(g, before[i], b) && (before + [a])[..i] == before[..i];
        } else {
          ChainAllMembers(g, a, parents, b);
          ReachesSelf(g, b);
          assert (before + [a])[..i] == before;
        }
      }
    }
  }

  lemma {:induction false} ChainAllParentsFirst(g: Graph, a: nat, parents: seq<nat>)
    requires Acyclic(g) && a in g && forall b :: b in parents ==> b in g[a].parents
    ensures ParentsFirst(g, ChainAll(g, a, parents))
    decreases |Ancestors(g, a)|, 0, |parents|
  {
    if parents != [] {
      AncestorsShrink(g, a, parents[0]);
      ChainParentsFirst(g, parents[0]);
      ChainAllParentsFirst(g, a, parents[1..]);
      ParentsFirstConcat(g, Chain(g, parents[0]), ChainAll(g, a, parents[1..]));
    }
  }

  /** The chain as a whole: the role comes last, parents come first, and its permissions are the closure. */
  lemma ChainSummary(g: Graph, a: nat)
    requires Acyclic(g) && a in g
    ensures var chain := Chain(g, a);
      && chain != [] && chain[|chain| - 1] == a
      && (forall r :: r in chain <==> r in g && Reaches(g, a, r))
      && ParentsFirst(g, chain)
      && (set r, p | r in chain && r in g && p in g[r].permissions :: p) == Closure(g, a)
  {
    forall r ensures r in Chain(g, a) <==> r in g && Reaches(g, a, r) { ChainMembers(g, a, r); }
    ChainParentsFirst(g, a);
  }

  // ---------------------------------------------------------------- edits

  function AddParent(g: Graph, child: nat, parent: nat): Graph
    requires child in g
  {
    g[child := g[child].(parents := g[child].parents + {parent})]
  }

  /** A new inheritance edge opens only paths that run through it. */
  lemma {:induction false} NewEdgePaths(g: Graph, child: nat, parent: nat, p: seq<nat>)
    requires child in g && parent in g && IsPath(AddParent(g, child, parent), p)
    ensures Reaches(g, p[0], p[|p| - 1]) || (Reaches(g, p[0], child) && Reaches(g, parent, p[|p| - 1]))
    decreases |p|
  {
    var g' := AddParent(g, child, parent);
    if |p| == 1 {
      ReachesSelf(g, p[0]);
    } else {
      assert IsEdge(g', p[0], p[0 + 1]);
      SubPath(g', p, 1, |p| - 1);
      assert p[1..|p| - 1 + 1] == p[1..];
      NewEdgePaths(g, child, parent, p[1..]);
      ReachesSelf(g, p[0]);
      if IsEdge(g, p[0], p[1]) {
        EdgeReaches(g, p[0], p[1]);
        if Reaches(g, p[1], p[|p| - 1]) { ReachesTransitive(g, p[0], p[1], p[|p| - 1]); }
        else { ReachesTransitive(g, p[0], p[1], child); }
      }
    }
  }

  /** Adding an inheritance keeps the graph acyclic exactly when the parent does not inherit from the child. */
  lemma AddParentAcyclicIff(g: Graph, child: nat, parent: nat)
    requires Acyclic(g) && child in g && parent in g
    ensures Acyclic(AddParent(g, child, parent)) <==> !Reaches(g, parent, child)
  {
    var g' := AddParent(g, child, parent);
    if Reaches(g, parent, child) {
      SubgraphReaches(g, g', parent, child);
      assert IsEdge(g', child, parent);
    } else {
      forall a, b | IsEdge(g', a, b) ensures !Reaches(g', b, a) {
        if Reaches(g', b, a) {
          var p :| Connects(g', p, b, a);
          NewEdgePaths(g, child, parent, p);
          if IsEdge(g, a, b) {
            assert Reaches(g, b, child) && Reaches(g, parent, a);
            EdgeReaches(g, a, b);
            ReachesTransitive(g, parent, a, b);
            ReachesTransitive(g, parent, b, child);
          }
          assert false;
        }
      }
    }
  }

  /** Paths to another role in a graph with a parentless role do not run through that role. */
  lemma PathAvoids(g: Graph, id: nat, p: seq<nat>, b: nat)
    requires id in g && g[id].parents == {} && IsPath(g, p) && p[|p| - 1] == b && b != id
    ensures id !in p
  {
    forall i | 0 <= i < |p| ensures p[i] != id {
      if i < |p| - 1 { assert IsEdge(g, p[i], p[i + 1]); }
    }
  }

  lemma AvoidingPath(g: Graph, id: nat, role: Role, p: seq<nat>, a: nat, b: nat)
    requires id !in p
    ensures Connects(g, p, a, b) <==> Connects(g[id := role], p, a, b)
  {
    var g' := g[id := role];
    if Connects(g, p, a, b) {
      forall i | 0 <= i < |p| - 1 ensures IsEdge(g', p[i], p[i + 1]) { assert IsEdge(g, p[i], p[i + 1]); }
    }
    if Connects(g', p, a, b) {
      forall i | 0 <= i < |p| - 1 ensures IsEdge(g, p[i], p[i + 1]) { assert IsEdge(g', p[i], p[i + 1]); }
    }
  }

  /** A role without parents, new or overwriting another, closes no cycle. */
  lemma CreateAcyclic(g: Graph, id: nat)
    requires Acyclic(g)
    ensures Acyclic(g[id := NewRole])
  {
    var g' := g[id := NewRole];
    forall a, b | IsEdge(g', a, b) ensures !Reaches(g', b, a) {
      if Reaches(g', b, a) {
        var p :| Connects(g', p, b, a);
        PathAvoids(g', id, p, a);
        AvoidingPath(g, id, NewRole, p, b, a);
        assert p[0] == b;
        assert IsEdge(g, a, b);
        assert false;
      }
    }
  }

  /** Creating a role changes nobody else's closure if the id was free or had nothing to pass on. */
  lemma CreateClosure(g: Graph, id: nat, a: nat)
    requires a != id && (id !in g || Closure(g, id) == {})
    ensures Closure(g[id := NewRole], a) == Closure(g, a)
  {
    var g' := g[id := NewRole];
    forall p ensures p in Closure(g', a) <==> p in Closure(g, a) {
      if p in Closure(g', a) {
        var r :| r in g' && Reaches(g', a, r) && p in g'[r].permissions;
        var q :| Connects(g', q, a, r);
        PathAvoids(g', id, q, r);
        AvoidingPath(g, id, NewRole, q, a, r);
        ClosureMember(g, a, r, p);
      }
      if p in Closure(g, a) {
        var r :| r in g && Reaches(g, a, r) && p in g[r].permissions;
        var q :| Connects(g, q, a, r);
        if i :| 0 <= i < |q| && q[i] == id {
          PathNodesLive(g, q, i);
          SubPath(g, q, i, |q| - 1);
          ClosureMember(g, id, r, p);
          assert false;
        }
        AvoidingPath(g, id, NewRole, q, a, r);
        ClosureMember(g', a, r, p);
      }
    }
  }

  lemma CreateOwnClosure(g: Graph, id: nat)
    ensures Closure(g[id := NewRole], id) == {}
  {
    var g' := g[id := NewRole];
    forall r | r in g' && r != id ensures !Reaches(g', id, r) {
      if Reaches(g', id, r) {
        var p :| Connects(g', p, id, r);
        assert p[0] in p;
        PathAvoids(g', id, p, r);
      }
    }
  }
}
