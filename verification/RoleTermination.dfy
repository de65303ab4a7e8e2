/** When the recursive traversals of the role graph end: the recursion depth that a role needs. */
module RoleTermination {
  import opened RoleGraph
  import RoleModel

  /**
   The recursion of build_inheritance_cache and get_inheritance_chain, which calls itself on every
   parent of a live role and remembers nothing, unwinds from a within the given depth.
   */
  ghost predicate Ends(g: Graph, a: nat, depth: nat)
    decreases depth
  {
    a in g ==> depth > 0 && forall b :: b in g[a].parents ==> Ends(g, b, depth - 1)
  }

  /** No cycle can be reached from a. */
  ghost predicate AcyclicFrom(g: Graph, a: nat) {
    forall x, y :: Reaches(g, a, x) && IsEdge(g, x, y) ==> !Reaches(g, y, x)
  }

  lemma {:induction false} MoreDepth(g: Graph, a: nat, d: nat, e: nat)
    requires Ends(g, a, d) && d <= e
    ensures Ends(g, a, e)
    decreases d
  {
    if a in g {
      forall b | b in g[a].parents ensures Ends(g, b, e - 1) { MoreDepth(g, b, d - 1, e - 1); }
    }
  }

  /** Without a cycle in reach the depth needed is at most the number of roles in reach. */
  lemma {:induction false} EndsWithin(g: Graph, a: nat)
    requires AcyclicFrom(g, a)
    ensures Ends(g, a, |Ancestors(g, a)|)
    decreases |Ancestors(g, a)|
  {
    if a in g {
      ReachesSelf(g, a);
      assert a in Ancestors(g, a);
      forall b | b in g[a].parents ensures Ends(g, b, |Ancestors(g, a)| - 1) {
        if b in g {
          assert IsEdge(g, a, b);
          AncestorsShrinkAt(g, a, b);
          EdgeReaches(g, a, b);
          forall x, y | Reaches(g, b, x) && IsEdge(g, x, y) ensures !Reaches(g, y, x) { ReachesTransitive(g, a, b, x); }
          EndsWithin(g, b);
          MoreDepth(g, b, |Ancestors(g, b)|, |Ancestors(g, a)| - 1);
        }
      }
    }
  }

  /** Every edge of a path costs one level of depth. */
  lemma {:induction false} EndsAlong(g: Graph, p: seq<nat>, depth: nat)
    requires IsPath(g, p) && Ends(g, p[0], depth)
    ensures |p| <= depth && Ends(g, p[|p| - 1], depth + 1 - |p|)
    decreases |p|
  {
    if |p| > 1 {
      assert IsEdge(g, p[0], p[0 + 1]);
      SubPath(g, p, 1, |p| - 1);
      assert p[1..|p| - 1 + 1] == p[1..];
      EndsAlong(g, p[1..], depth - 1);
    }
  }

  /** Round a cycle the depth would have to grow for ever. */
  lemma {:induction false} CycleNeverEnds(g: Graph, x: nat, y: nat, depth: nat)
    requires IsEdge(g, x, y) && Reaches(g, y, x)
    ensures !Ends(g, x, depth)
    decreases depth
  {
    if Ends(g, x, depth) {
      var p :| Connects(g, p, y, x);
      EndsAlong(g, p, depth - 1);
      CycleNeverEnds(g, x, y, depth - |p|);
    }
  }

  /** The recursion from a role ends exactly when no cycle can be reached from it. */
  lemma EndsIff(g: Graph, a: nat)
    ensures (exists d: nat :: Ends(g, a, d)) <==> AcyclicFrom(g, a)
    ensures AcyclicFrom(g, a) ==> Ends(g, a, |Ancestors(g, a)|)
  {
    if AcyclicFrom(g, a) {
      EndsWithin(g, a);
      var n: nat := |Ancestors(g, a)|;
      assert Ends(g, a, n);
    }
    if exists d: nat :: Ends(g, a, d) {
      var d: nat :| Ends(g, a, d);
      forall x, y | Reaches(g, a, x) && IsEdge(g, x, y) ensures !Reaches(g, y, x) {
        var p :| Connects(g, p, a, x);
        EndsAlong(g, p, d);
        if Reaches(g, y, x) { CycleNeverEnds(g, x, y, d + 1 - |p|); }
      }
    }
  }

  /** Building the cache traverses every role. */
  ghost predicate BuildEnds(g: Graph) {
    forall a :: a in g ==> exists d: nat :: Ends(g, a, d)
  }

  lemma BuildEndsIff(g: Graph)
    ensures BuildEnds(g) <==> Acyclic(g)
  {
    forall a ensures (exists d: nat :: Ends(g, a, d)) <==> AcyclicFrom(g, a) { EndsIff(g, a); }
    if BuildEnds(g) {
      forall a, b | IsEdge(g, a, b) ensures !Reaches(g, b, a) {
        ReachesSelf(g, a);
        assert AcyclicFrom(g, a);
      }
    } else {
      var a :| a in g && !exists d: nat :: Ends(g, a, d);
      assert !AcyclicFrom(g, a);
    }
  }

  /** After add_inheritance the cache can be built exactly when the parent did not inherit from the child. */
  lemma AddInheritanceEndsIff(g: Graph, child: nat, parent: nat)
    requires BuildEnds(g) && child in g && parent in g
    ensures BuildEnds(AddParent(g, child, parent)) <==> !Reaches(g, parent, child)
  {
    BuildEndsIff(g);
    BuildEndsIff(AddParent(g, child, parent));
    AddParentAcyclicIff(g, child, parent);
  }

  lemma MutualNeverEnds(g: Graph, a: nat, b: nat, depth: nat)
    requires IsEdge(g, a, b) && IsEdge(g, b, a)
    ensures !Ends(g, a, depth) && !Ends(g, b, depth)
  {
    EdgeReaches(g, a, b);
    EdgeReaches(g, b, a);
    CycleNeverEnds(g, a, b, depth);
    CycleNeverEnds(g, b, a, depth);
  }

  /** Two roles that inherit from each other, by two calls that both succeed. */
  function Mutual(): Graph {
    var two := RoleModel.Create(RoleModel.Create(RoleModel.Empty));
    RoleModel.AddInheritance(RoleModel.AddInheritance(two, 1, 2), 2, 1).roles
  }

  lemma MutualEdges()
    ensures IsEdge(Mutual(), 1, 2) && IsEdge(Mutual(), 2, 1)
  {
    assert RoleModel.Create(RoleModel.Create(RoleModel.Empty)).roles == map[1 := NewRole, 2 := NewRole];
  }

  lemma MutualInheritanceNeverEnds(depth: nat)
    ensures 1 in Mutual() && 2 in Mutual() && !Ends(Mutual(), 1, depth) && !Ends(Mutual(), 2, depth)
  {
    MutualEdges();
    MutualNeverEnds(Mutual(), 1, 2, depth);
  }
}
