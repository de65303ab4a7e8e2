/** The role manager as a state machine: roles, the cached closures and the dirty flag. */
module RoleModel {
  import opened Results
  import opened Ordered
  import opened RoleGraph

  datatype State = State(roles: Graph, cache: map<nat, set<nat>>, dirty: bool)

  const Empty: State := State(map[], map[], false)

  function NewId(s: State): nat { |s.roles| + 1 }

  /** create_role takes the number of live roles plus one, free or not, and does not mark the cache. */
  function Create(s: State): State {
    s.(roles := s.roles[NewId(s) := NewRole])
  }

  function Delete(s: State, id: nat): State {
    if id in s.roles && !s.roles[id].isSystem then State(s.roles - {id}, s.cache, true) else s
  }

  function Edit(s: State, id: nat, role: Role): State {
    if id in s.roles then State(s.roles[id := role], s.cache, true) else s
  }

  function AddPermission(s: State, id: nat, p: nat): State {
    if id in s.roles then Edit(s, id, s.roles[id].(permissions := s.roles[id].permissions + {p})) else s
  }

  function RemovePermission(s: State, id: nat, p: nat): State {
    if id in s.roles then Edit(s, id, s.roles[id].(permissions := s.roles[id].permissions - {p})) else s
  }

  function SetPermissions(s: State, id: nat, ps: set<nat>): State {
    if id in s.roles then Edit(s, id, s.roles[id].(permissions := ps)) else s
  }

  function AddInheritance(s: State, child: nat, parent: nat): State {
    if child in s.roles && parent in s.roles
    then State(AddParent(s.roles, child, parent), s.cache, true) else s
  }

  function RemoveInheritance(s: State, child: nat, parent: nat): State {
    if child in s.roles
    then Edit(s, child, s.roles[child].(parents := s.roles[child].parents - {parent})) else s
  }

  ghost function Build(s: State): State
    requires Acyclic(s.roles)
  {
    State(s.roles, map r | r in s.roles :: Collect(s.roles, r), false)
  }

  /** Reading rebuilds a dirty cache first. */
  ghost function Read(s: State, id: nat): State
    requires Acyclic(s.roles)
  {
    if id in s.roles && s.dirty then Build(s) else s
  }

  /** A role missing from the cache answers with its own permissions. */
  function Answer(s: State, id: nat): set<nat>
    requires id in s.roles
  {
    if id in s.cache then s.cache[id] else s.roles[id].permissions
  }

  // ---------------------------------------------------------------- the cache is dirty or right

  /** Clean cache: its entries are the closures of live roles, and a role without an entry has nothing yet. */
  ghost predicate Coherent(s: State) {
    s.dirty ||
    ((forall r :: r in s.cache ==> r in s.roles && s.cache[r] == Closure(s.roles, r))
     && forall r :: r in s.roles && r !in s.cache ==> s.roles[r].permissions == {} && s.roles[r].parents == {})
  }

  ghost predicate Inv(s: State) {
    Acyclic(s.roles) && Coherent(s)
  }

  lemma NothingToInherit(g: Graph, id: nat)
    requires id in g && g[id].permissions == {} && g[id].parents == {}
    ensures Closure(g, id) == {}
  {
    forall p ensures p !in Closure(g, id) { ClosureUnfold(g, id, p); }
  }

  /** A clean cache answers with the closure, for cached roles and for the fallback alike. */
  lemma AnswerIsClosure(s: State, id: nat)
    requires Inv(s) && id in s.roles
    ensures Answer(Read(s, id), id) == Closure(s.roles, id)
    ensures Inv(Read(s, id))
  {
    forall r | r in s.roles ensures Collect(s.roles, r) == Closure(s.roles, r) { CollectIsClosure(s.roles, r); }
    if !s.dirty && id !in s.cache { NothingToInherit(s.roles, id); }
  }

  /**
   Creating a role keeps the cache dirty-or-right exactly when the cache is dirty already, the id
   is free, or the overwritten role had no permissions, own or inherited.
   */
  lemma CreateCoherentIff(s: State)
    requires Inv(s)
    ensures Inv(Create(s)) <==> s.dirty || NewId(s) !in s.roles || Closure(s.roles, NewId(s)) == {}
  {
    var id := NewId(s);
    var t := Create(s);
    CreateAcyclic(s.roles, id);
    CreateOwnClosure(s.roles, id);
    if !s.dirty {
      if id !in s.roles || Closure(s.roles, id) == {} {
        forall r | r in s.roles && r != id ensures Closure(t.roles, r) == Closure(s.roles, r) {
          CreateClosure(s.roles, id, r);
        }
      } else {
        if id !in s.cache { NothingToInherit(s.roles, id); }
        assert s.cache[id] != Closure(t.roles, id);
      }
    }
  }

  // ---------------------------------------------------------------- runs

  datatype Op =
    | OpCreate
    | OpDelete(id: nat)
    | OpAddPermission(id: nat, p: nat)
    | OpRemovePermission(id: nat, p: nat)
    | OpSetPermissions(id: nat, ps: set<nat>)
    | OpAddInheritance(child: nat, parent: nat)
    | OpRemoveInheritance(child: nat, parent: nat)
    | OpRead(id: nat)

  /** Creation as in CreateCoherentIff, inheritance as in AddParentAcyclicIff; the rest is free. */
  ghost predicate Legal(s: State, op: Op) {
    match op
    case OpCreate => s.dirty || NewId(s) !in s.roles || Closure(s.roles, NewId(s)) == {}
    case OpAddInheritance(child, parent) => !Reaches(s.roles, parent, child)
    case OpDelete(_) => true
    case OpAddPermission(_, _) => true
    case OpRemovePermission(_, _) => true
    case OpSetPermissions(_, _) => true
    case OpRemoveInheritance(_, _) => true
    case OpRead(_) => true
  }

  ghost function Apply(s: State, op: Op): State
    requires Acyclic(s.roles)
  {
    match op
    case OpCreate => Create(s)
    case OpDelete(id) => Delete(s, id)
    case OpAddPermission(id, p) => AddPermission(s, id, p)
    case OpRemovePermission(id, p) => RemovePermission(s, id, p)
    case OpSetPermissions(id, ps) => SetPermissions(s, id, ps)
    case OpAddInheritance(child, parent) => AddInheritance(s, child, parent)
    case OpRemoveInheritance(child, parent) => RemoveInheritance(s, child, parent)
    case OpRead(id) => Read(s, id)
  }

  lemma AddInheritanceSafeIff(s: State, child: nat, parent: nat)
    requires Inv(s)
    ensures Inv(AddInheritance(s, child, parent)) <==> !Reaches(s.roles, parent, child)
  {
    if child in s.roles && parent in s.roles {
      AddParentAcyclicIff(s.roles, child, parent);
    } else if Reaches(s.roles, parent, child) {
      ReachesLive(s.roles, parent, child);
    }
  }

  /** The two guards are exact: a step breaks the invariant precisely when it is not legal. */
  lemma StepSafeIff(s: State, op: Op)
    requires Inv(s)
    ensures Inv(Apply(s, op)) <==> Legal(s, op)
  {
    match op
    case OpCreate => CreateCoherentIff(s);
    case OpAddInheritance(child, parent) => AddInheritanceSafeIff(s, child, parent);
    case _ => StepKeepsInv(s, op);
  }

  lemma StepKeepsInv(s: State, op: Op)
    requires Inv(s) && Legal(s, op)
    ensures Inv(Apply(s, op))
  {
    match op
    case OpCreate => CreateCoherentIff(s);
    case OpAddInheritance(child, parent) => AddInheritanceSafeIff(s, child, parent);
    case OpRead(id) => if id in s.roles { AnswerIsClosure(s, id); }
    case OpDelete(id) => SubgraphAcyclic(Apply(s, op).roles, s.roles);
    case OpAddPermission(_, _) => SubgraphAcyclic(Apply(s, op).roles, s.roles);
    case OpRemovePermission(_, _) => SubgraphAcyclic(Apply(s, op).roles, s.roles);
    case OpSetPermissions(_, _) => SubgraphAcyclic(Apply(s, op).roles, s.roles);
    case OpRemoveInheritance(_, _) => SubgraphAcyclic(Apply(s, op).roles, s.roles);
  }

  ghost predicate LegalRun(s: State, ops: seq<Op>)
    decreases |ops|
  {
    ops == [] || (Legal(s, ops[0]) && Acyclic(s.roles) && LegalRun(Apply(s, ops[0]), ops[1..]))
  }

  ghost function Run(s: State, ops: seq<Op>): State
    requires LegalRun(s, ops)
    decreases |ops|
  {
    if ops == [] then s else Run(Apply(s, ops[0]), ops[1..])
  }

  lemma {:induction false} RunKeepsInv(s: State, ops: seq<Op>)
    requires Inv(s) && LegalRun(s, ops)
    ensures Inv(Run(s, ops))
    decreases |ops|
  {
    if ops != [] {
      StepKeepsInv(s, ops[0]);
      RunKeepsInv(Apply(s, ops[0]), ops[1..]);
    }
  }

  /** After every run each live role is answered with the union of permissions over all it inherits from. */
  lemma PermissionsAnswered(ops: seq<Op>, id: nat)
    requires LegalRun(Empty, ops)
    ensures var t := Run(Empty, ops);
      Acyclic(t.roles) && (id in t.roles ==> Answer(Read(t, id), id) == Closure(t.roles, id))
  {
    RunKeepsInv(Empty, ops);
    var t := Run(Empty, ops);
    if id in t.roles { AnswerIsClosure(t, id); }
  }

  /** Three roles, the first one deleted again, permission 7 for the last one, and a read that cleans the cache. */
  const Overwriting: seq<Op> :=
    [OpCreate] + ([OpCreate] + ([OpCreate] + ([OpDelete(1)] + ([OpAddPermission(3, 7)] + ([OpRead(3)] + [])))))

  /** After a deletion the next id can be a live one; overwriting it leaves its old permissions in the clean cache. */
  lemma OverwriteLeaksPermissions()
    ensures LegalRun(Empty, Overwriting)
    ensures var s := Run(Empty, Overwriting);
      Inv(s) && NewId(s) == 3 && Create(s).roles[3].permissions == {} && Acyclic(Create(s).roles)
      && Answer(Read(Create(s), 3), 3) == {7}
  {
    var two, three: Graph := map[1 := NewRole, 2 := NewRole], map[1 := NewRole, 2 := NewRole, 3 := NewRole];
    var left: Graph := map[2 := NewRole, 3 := NewRole];
    assert three - {1} == left;
    CleanedState();
    OneStep(State(LeftGraph(), map[], true), OpRead(3), Cleaned(), []);
    OneStep(State(left, map[], true), OpAddPermission(3, 7), State(LeftGraph(), map[], true), [OpRead(3)] + []);
    OneStep(State(three, map[], false), OpDelete(1), State(left, map[], true),
      [OpAddPermission(3, 7)] + ([OpRead(3)] + []));
    CreatedStates([OpDelete(1)] + ([OpAddPermission(3, 7)] + ([OpRead(3)] + [])));
    RunKeepsInv(Empty, Overwriting);
    CreateAcyclic(LeftGraph(), 3);
  }

  lemma CreatedStates(more: seq<Op>)
    requires LegalRun(State(map[1 := NewRole, 2 := NewRole, 3 := NewRole], map[], false), more)
    ensures LegalRun(Empty, [OpCreate] + ([OpCreate] + ([OpCreate] + more)))
    ensures Run(Empty, [OpCreate] + ([OpCreate] + ([OpCreate] + more)))
         == Run(State(map[1 := NewRole, 2 := NewRole, 3 := NewRole], map[], false), more)
  {
    var one, two: Graph := map[1 := NewRole], map[1 := NewRole, 2 := NewRole];
    OneStep(State(two, map[], false), OpCreate, State(two[3 := NewRole], map[], false), more);
    OneStep(State(one, map[], false), OpCreate, State(two, map[], false), [OpCreate] + more);
    OneStep(Empty, OpCreate, State(one, map[], false), [OpCreate] + ([OpCreate] + more));
  }

  function LeftGraph(): Graph {
    map[2 := NewRole, 3 := Role({7}, {}, false)]
  }

  function Cleaned(): State {
    State(LeftGraph(), map[2 := {}, 3 := {7}], false)
  }

  lemma CleanedState()
    ensures Acyclic(LeftGraph()) && Read(State(LeftGraph(), map[], true), 3) == Cleaned()
    ensures NewId(Cleaned()) == 3
  {
    var g := LeftGraph();
    assert g.Keys == {2, 3};
    NoEdges(g);
    assert Collect(g, 2) == {} + CollectAll(g, 2, []);
    assert Collect(g, 3) == {7} + CollectAll(g, 3, []);
  }

  lemma NoEdges(g: Graph)
    requires forall a :: a in g ==> g[a].parents == {}
    ensures Acyclic(g)
  {
  }

  lemma OneStep(s: State, op: Op, t: State, more: seq<Op>)
    requires (forall a :: a in s.roles ==> s.roles[a].parents == {}) && !op.OpAddInheritance?
    requires Legal(s, op)
    requires Acyclic(s.roles) ==> Apply(s, op) == t
    requires LegalRun(t, more)
    ensures LegalRun(s, [op] + more) && Run(s, [op] + more) == Run(t, more)
  {
    NoEdges(s.roles);
    assert ([op] + more)[1..] == more;
  }
}

module RoleManagers {
  import opened Results
  import opened Ordered
  import opened RoleGraph
  import Model = RoleModel

  class RoleManager {
    var roles: Graph
    var inheritanceCache: map<nat, set<nat>>
    var cacheDirty: bool

    function State(): Model.State
      reads this
    {
      Model.State(roles, inheritanceCache, cacheDirty)
    }

    /** Acyclic roles, and a cache that is dirty or right. */
    ghost predicate Valid()
      reads this
    {
      Model.Inv(State())
    }

    constructor ()
      ensures State() == Model.Empty && Valid()
    {
      roles, inheritanceCache, cacheDirty := map[], map[], false;
    }

    /** The cache stays dirty or right unless a role that grants something through a clean cache is overwritten. */
    method CreateRole() returns (id: nat)
      requires Valid()
      modifies `roles
      ensures id == |old(roles)| + 1 && State() == Model.Create(old(State()))
      ensures Valid() <==> old(cacheDirty || id !in roles || Closure(roles, id) == {})
    {
      Model.CreateCoherentIff(State());
      id := |roles| + 1;
      roles := roles[id := Role({}, {}, false)];
    }

    method DeleteRole(id: nat) returns (r: Outcome)
      requires Valid()
      modifies this
      ensures r.Ok? <==> id in old(roles) && !old(roles)[id].isSystem
      ensures Valid() && State() == Model.Delete(old(State()), id)
    {
      Model.StepKeepsInv(State(), Model.OpDelete(id));
      if id !in roles {
        return Error(InvalidParameter);
      }
      if roles[id].isSystem {
        return Error(InvalidParameter);
      }
      roles := roles - {id};
      InvalidateInheritanceCache();
      return Ok(());
    }

    method AddPermissionToRole(id: nat, p: nat) returns (r: Outcome)
      requires Valid()
      modifies this
      ensures r.Ok? <==> id in old(roles)
      ensures Valid() && State() == Model.AddPermission(old(State()), id, p)
    {
      Model.StepKeepsInv(State(), Model.OpAddPermission(id, p));
      if id !in roles {
        return Error(InvalidParameter);
      }
      roles := roles[id := roles[id].(permissions := roles[id].permissions + {p})];
      InvalidateInheritanceCache();
      return Ok(());
    }

    method RemovePermissionFromRole(id: nat, p: nat) returns (r: Outcome)
      requires Valid()
      modifies this
      ensures r.Ok? <==> id in old(roles)
      ensures Valid() && State() == Model.RemovePermission(old(State()), id, p)
    {
      Model.StepKeepsInv(State(), Model.OpRemovePermission(id, p));
      if id !in roles {
        return Error(InvalidParameter);
      }
      roles := roles[id := roles[id].(permissions := roles[id].permissions - {p})];
      InvalidateInheritanceCache();
      return Ok(());
    }

    method SetRolePermissions(id: nat, ps: set<nat>) returns (r: Outcome)
      requires Valid()
      modifies this
      ensures r.Ok? <==> id in old(roles)
      ensures Valid() && State() == Model.SetPermissions(old(State()), id, ps)
    {
      Model.StepKeepsInv(State(), Model.OpSetPermissions(id, ps));
      if id !in roles {
        return Error(InvalidParameter);
      }
      roles := roles[id := roles[id].(permissions := ps)];
      InvalidateInheritanceCache();
      return Ok(());
    }

    /** No cycle check is made: a cycle arises exactly if the parent inherits from the child already. */
    method AddInheritance(child: nat, parent: nat) returns (r: Outcome)
      requires Valid()
      modifies this
      ensures r.Ok? <==> child in old(roles) && parent in old(roles)
      ensures State() == Model.AddInheritance(old(State()), child, parent)
      ensures Valid() <==> !Reaches(old(roles), parent, child)
    {
      Model.AddInheritanceSafeIff(State(), child, parent);
      if child !in roles || parent !in roles {
        return Error(InvalidParameter);
      }
      roles := roles[child := roles[child].(parents := roles[child].parents + {parent})];
      InvalidateInheritanceCache();
      return Ok(());
    }

    method RemoveInheritance(child: nat, parent: nat) returns (r: Outcome)
      requires Valid()
      modifies this
      ensures r.Ok? <==> child in old(roles)
      ensures Valid() && State() == Model.RemoveInheritance(old(State()), child, parent)
    {
      Model.StepKeepsInv(State(), Model.OpRemoveInheritance(child, parent));
      if child !in roles {
        return Error(InvalidParameter);
      }
      roles := roles[child := roles[child].(parents := roles[child].parents - {parent})];
      InvalidateInheritanceCache();
      return Ok(());
    }

    method InvalidateInheritanceCache()
      modifies `cacheDirty
      ensures cacheDirty
    {
      cacheDirty := true;
    }

    /** The answer is the union of permissions over all roles reachable by inheritance. */
    method GetAllRolePermissions(id: nat) returns (r: Result<set<nat>>)
      requires Valid()
      modifies this
      ensures Valid() && State() == Model.Read(old(State()), id)
      ensures if id in roles then r == Ok(Closure(roles, id)) else r == Error(InvalidParameter)
    {
      if id !in roles {
        return Error(InvalidParameter);
      }
      Model.AnswerIsClosure(State(), id);
      if cacheDirty {
        BuildInheritanceCache();
      }
      if id in inheritanceCache {
        return Ok(inheritanceCache[id]);
      }
      return Ok(roles[id].permissions);
    }

    method BuildInheritanceCache()
      requires Acyclic(roles)
      modifies `inheritanceCache, `cacheDirty
      ensures State() == Model.Build(old(State()))
    {
      inheritanceCache := map[];
      var rest := roles.Keys;
      while rest != {}
        invariant rest <= roles.Keys && inheritanceCache.Keys == roles.Keys - rest
        invariant forall r :: r in inheritanceCache ==> inheritanceCache[r] == Collect(roles, r)
        decreases rest
      {
        var id := Least(rest);
        var perms := CollectInto(id, {});
        inheritanceCache := inheritanceCache[id := perms];
        rest := rest - {id};
      }
      BuildIs(Model.State(roles, inheritanceCache, false));
      cacheDirty := false;
    }

    /** The recursive lambda of the cache builder, which adds to a captured set. */
    method CollectInto(id: nat, perms: set<nat>) returns (all: set<nat>)
      requires Acyclic(roles)
      ensures all == perms + Collect(roles, id)
      decreases |Ancestors(roles, id)|
    {
      all := perms;
      if id in roles {
        all := all + roles[id].permissions;
        var parents := Ascending(roles[id].parents);
        ghost var goal := perms + Collect(roles, id);
        CollectUnfold(roles, id, perms, parents);
        for n := 0 to |parents|
          invariant all + CollectAll(roles, id, parents[n..]) == goal
        {
          AncestorsShrink(roles, id, parents[n]);
          CollectAllFrom(roles, id, parents, n, all);
          all := CollectInto(parents[n], all);
        }
      }
    }

    /** Ancestors before descendants, the role itself last. */
    method GetInheritanceChain(id: nat) returns (r: Result<seq<nat>>)
      requires Valid()
      ensures if id in roles then
          r.Ok? && r.value != [] && r.value[|r.value| - 1] == id && ParentsFirst(roles, r.value)
          && forall a :: a in r.value <==> a in roles && Reaches(roles, id, a)
        else r == Error(InvalidParameter)
    {
      if id !in roles {
        return Error(InvalidParameter);
      }
      var chain := Traverse(id, []);
      assert chain == Chain(roles, id);
      ChainSummary(roles, id);
      return Ok(chain);
    }

    /** The recursive lambda of get_inheritance_chain, which appends to a captured vector. */
    method Traverse(id: nat, chain: seq<nat>) returns (all: seq<nat>)
      requires Acyclic(roles)
      ensures all == chain + Chain(roles, id)
      decreases |Ancestors(roles, id)|
    {
      all := chain;
      if id in roles {
        var parents := Ascending(roles[id].parents);
        ghost var goal := ChainAll(roles, id, parents);
        for n := 0 to |parents|
          invariant all + ChainAll(roles, id, parents[n..]) == chain + goal
        {
          AncestorsShrink(roles, id, parents[n]);
          ChainAllFrom(roles, id, parents, n, all);
          all := Traverse(parents[n], all);
        }
        assert all == chain + goal;
        assert Chain(roles, id) == goal + [id];
        all := all + [id];
      }
    }
  }

  lemma CollectUnfold(g: Graph, a: nat, perms: set<nat>, parents: seq<nat>)
    requires Acyclic(g) && a in g && parents == Ascending(g[a].parents)
    ensures (perms + g[a].permissions) + CollectAll(g, a, parents[0..]) == perms + Collect(g, a)
  {
    assert parents[0..] == parents;
  }

  lemma CollectAllFrom(g: Graph, a: nat, parents: seq<nat>, n: nat, before: set<nat>)
    requires Acyclic(g) && a in g && n < |parents| && forall b :: b in parents ==> b in g[a].parents
    ensures before + CollectAll(g, a, parents[n..]) ==
      (before + Collect(g, parents[n])) + CollectAll(g, a, parents[n + 1..])
  {
    assert parents[n..][0] == parents[n] && parents[n..][1..] == parents[n + 1..];
  }

  lemma ChainAllFrom(g: Graph, a: nat, parents: seq<nat>, n: nat, before: seq<nat>)
    requires Acyclic(g) && a in g && n < |parents| && forall b :: b in parents ==> b in g[a].parents
    ensures before + ChainAll(g, a, parents[n..]) == (before + Chain(g, parents[n])) + ChainAll(g, a, parents[n + 1..])
  {
    assert parents[n..][0] == parents[n] && parents[n..][1..] == parents[n + 1..];
  }

  lemma BuildIs(s: Model.State)
    requires Acyclic(s.roles) && !s.dirty && s.cache.Keys == s.roles.Keys
    requires forall r :: r in s.cache ==> s.cache[r] == Collect(s.roles, r)
    ensures forall d, c :: s == Model.Build(Model.State(s.roles, c, d))
  {
    assert s.cache == map r | r in s.roles :: Collect(s.roles, r);
  }
}
