/** Who may do what, read from the calls alone: grants, revocations and inheritances as sets of pairs. */
module RoleHistory {
  import opened Results
  import opened Sequences
  import opened RoleGraph
  import opened RoleModel

  /** Live roles, (role, permission) pairs granted and not revoked, and (child, parent) pairs added and not removed. */
  datatype Ledger = Ledger(live: set<nat>, grants: set<(nat, nat)>, parents: set<(nat, nat)>)

  function Strip(pairs: set<(nat, nat)>, id: nat): set<(nat, nat)> {
    set x | x in pairs && x.0 != id
  }

  function Tell(g: Ledger, op: Op): Ledger {
    match op
    case OpCreate =>
      var id := |g.live| + 1;
      Ledger(g.live + {id}, Strip(g.grants, id), Strip(g.parents, id))
    case OpDelete(id) => Ledger(g.live - {id}, Strip(g.grants, id), Strip(g.parents, id))
    case OpAddPermission(id, p) => if id in g.live then g.(grants := g.grants + {(id, p)}) else g
    case OpRemovePermission(id, p) => g.(grants := g.grants - {(id, p)})
    case OpSetPermissions(id, ps) =>
      if id in g.live then g.(grants := Strip(g.grants, id) + set p | p in ps :: (id, p)) else g
    case OpAddInheritance(child, parent) =>
      if child in g.live && parent in g.live then g.(parents := g.parents + {(child, parent)}) else g
    case OpRemoveInheritance(child, parent) => g.(parents := g.parents - {(child, parent)})
    case OpRead(_) => g
  }

  function TellAll(g: Ledger, ops: seq<Op>): Ledger
    decreases |ops|
  {
    if ops == [] then g else TellAll(Tell(g, ops[0]), ops[1..])
  }

  const Nobody: Ledger := Ledger({}, {}, {})

  predicate Owns(roles: Graph, r: nat, p: nat) { r in roles && p in roles[r].permissions }

  predicate Inherits(roles: Graph, r: nat, b: nat) { r in roles && b in roles[r].parents }

  /** The ledger is right about role r and the number x, as a permission and as a parent. */
  predicate RightAbout(roles: Graph, g: Ledger, r: nat, x: nat) {
    ((r, x) in g.grants <==> Owns(roles, r, x)) && ((r, x) in g.parents <==> Inherits(roles, r, x))
  }

  predicate NoSystem(roles: Graph) { forall r :: r in roles ==> !roles[r].isSystem }

  /** The roles are what the ledger says, and none of them is a system role. */
  ghost predicate Matches(roles: Graph, g: Ledger) {
    && roles.Keys == g.live
    && (forall r: nat, x: nat :: RightAbout(roles, g, r, x))
    && NoSystem(roles)
  }

  lemma StepRight(s: State, op: Op, g: Ledger, r: nat, x: nat)
    requires Acyclic(s.roles) && s.roles.Keys == g.live && RightAbout(s.roles, g, r, x)
    requires NoSystem(s.roles)
    ensures RightAbout(Apply(s, op).roles, Tell(g, op), r, x)
  {
    assert |s.roles| == |g.live|;
  }

  lemma StepMatches(s: State, op: Op, g: Ledger)
    requires Acyclic(s.roles) && Matches(s.roles, g)
    ensures Matches(Apply(s, op).roles, Tell(g, op))
  {
    forall r: nat, x: nat ensures RightAbout(Apply(s, op).roles, Tell(g, op), r, x) { StepRight(s, op, g, r, x); }
    StepLive(s, op, g);
  }

  lemma StepLive(s: State, op: Op, g: Ledger)
    requires Acyclic(s.roles) && s.roles.Keys == g.live && NoSystem(s.roles)
    ensures Apply(s, op).roles.Keys == Tell(g, op).live
    ensures NoSystem(Apply(s, op).roles)
  {
    assert |s.roles| == |g.live|;
    match op
    case OpCreate => CreateLive(s);
    case OpDelete(id) => DeleteLive(s, id);
    case OpAddPermission(id, p) =>
      if id in s.roles { EditLive(s, id, s.roles[id].(permissions := s.roles[id].permissions + {p})); }
    case OpRemovePermission(id, p) =>
      if id in s.roles { EditLive(s, id, s.roles[id].(permissions := s.roles[id].permissions - {p})); }
    case OpSetPermissions(id, ps) => if id in s.roles { EditLive(s, id, s.roles[id].(permissions := ps)); }
    case OpAddInheritance(child, parent) =>
      if child in s.roles { EditLive(s, child, s.roles[child].(parents := s.roles[child].parents + {parent})); }
    case OpRemoveInheritance(child, parent) =>
      if child in s.roles { EditLive(s, child, s.roles[child].(parents := s.roles[child].parents - {parent})); }
    case OpRead(_) =>
  }

  lemma CreateLive(s: State)
    requires NoSystem(s.roles)
    ensures Create(s).roles.Keys == s.roles.Keys + {|s.roles| + 1}
    ensures NoSystem(Create(s).roles)
  {
  }

  lemma DeleteLive(s: State, id: nat)
    requires NoSystem(s.roles)
    ensures Delete(s, id).roles.Keys == s.roles.Keys - {id}
    ensures NoSystem(Delete(s, id).roles)
  {
  }

  lemma EditLive(s: State, id: nat, role: Role)
    requires id in s.roles && role.isSystem == s.roles[id].isSystem
    requires NoSystem(s.roles)
    ensures s.roles[id := role].Keys == s.roles.Keys
    ensures NoSystem(s.roles[id := role])
  {
  }

  lemma {:induction false} RunMatches(s: State, ops: seq<Op>, g: Ledger)
    requires LegalRun(s, ops) && Matches(s.roles, g)
    ensures Matches(Run(s, ops).roles, TellAll(g, ops))
    decreases |ops|
  {
    if ops != [] {
      StepMatches(s, ops[0], g);
      RunMatches(Apply(s, ops[0]), ops[1..], Tell(g, ops[0]));
    }
  }

  /** A way from a role up to another one along pairs of the ledger, through live roles. */
  predicate Way(g: Ledger, path: seq<nat>, from: nat, to: nat) {
    && path != [] && path[0] == from && path[|path| - 1] == to && from in g.live
    && forall i :: 0 <= i < |path| - 1 ==> Up(g, path[i], path[i + 1])
  }

  predicate Up(g: Ledger, a: nat, b: nat) { (a, b) in g.parents && b in g.live }

  /** Role id has p: from itself or from a role it inherits from, by the ledger. */
  ghost predicate Entitled(g: Ledger, id: nat, p: nat) {
    exists path, r: nat :: Way(g, path, id, r) && (r, p) in g.grants
  }

  lemma WayConnects(roles: Graph, g: Ledger, path: seq<nat>, a: nat, b: nat)
    requires Matches(roles, g)
    ensures Way(g, path, a, b) <==> Connects(roles, path, a, b)
  {
    if Way(g, path, a, b) {
      forall i | 0 <= i < |path| - 1 ensures IsEdge(roles, path[i], path[i + 1]) {
        assert Up(g, path[i], path[i + 1]) && RightAbout(roles, g, path[i], path[i + 1]);
      }
    }
    if Connects(roles, path, a, b) {
      forall i | 0 <= i < |path| - 1 ensures Up(g, path[i], path[i + 1]) {
        assert IsEdge(roles, path[i], path[i + 1]) && RightAbout(roles, g, path[i], path[i + 1]);
      }
    }
  }

  lemma EntitledIsClosure(roles: Graph, g: Ledger, id: nat, p: nat)
    requires Matches(roles, g)
    ensures p in Closure(roles, id) <==> Entitled(g, id, p)
  {
    if p in Closure(roles, id) {
      var r :| r in roles && Reaches(roles, id, r) && p in roles[r].permissions;
      var path :| Connects(roles, path, id, r);
      WayConnects(roles, g, path, id, r);
      assert RightAbout(roles, g, r, p);
    }
    if Entitled(g, id, p) {
      var path, r: nat :| Way(g, path, id, r) && (r, p) in g.grants;
      WayConnects(roles, g, path, id, r);
      assert RightAbout(roles, g, r, p);
      ClosureMember(roles, id, r, p);
    }
  }

  /**
   After every run the answer of get_all_role_permissions, from a clean or a dirty cache, is what
   the calls have granted and not revoked, to the role itself or along inheritances added and not
   removed; a role that is not live by the calls is refused.
   */
  lemma AnsweredByLedger(ops: seq<Op>, id: nat, p: nat)
    requires LegalRun(Empty, ops)
    ensures var t := Run(Empty, ops); var g := TellAll(Nobody, ops);
      && Acyclic(t.roles) && (id in t.roles <==> id in g.live)
      && (id in t.roles ==> (p in Answer(Read(t, id), id) <==> Entitled(g, id, p)))
  {
    RunMatches(Empty, ops, Nobody);
    PermissionsAnswered(ops, id);
    var t := Run(Empty, ops);
    EntitledIsClosure(t.roles, TellAll(Nobody, ops), id, p);
  }

  /** A permission that no role holds any more is answered for nobody, wherever it was before. */
  lemma RevokedForAll(ops: seq<Op>, id: nat, p: nat)
    requires LegalRun(Empty, ops) && id in Run(Empty, ops).roles
    requires forall r: nat :: (r, p) !in TellAll(Nobody, ops).grants
    ensures Acyclic(Run(Empty, ops).roles) && p !in Answer(Read(Run(Empty, ops), id), id)
  {
    AnsweredByLedger(ops, id, p);
  }

  /** Right after a revocation a role has the permission only if another role it inherits from holds it. */
  lemma RevokedUnlessInherited(g: Ledger, id: nat, p: nat)
    requires Entitled(Tell(g, OpRemovePermission(id, p)), id, p)
    ensures exists path, r: nat :: r != id && Way(g, path, id, r) && (r, p) in g.grants
  {
    var h := Tell(g, OpRemovePermission(id, p));
    var path, r: nat :| Way(h, path, id, r) && (r, p) in h.grants;
    assert Way(g, path, id, r) && r != id;
  }
}
