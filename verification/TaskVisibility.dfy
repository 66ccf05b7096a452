/** Task visibility written twice: a SQL scope under three-valued logic and an in-memory policy. */
module TaskVisibility {
  import opened Prelude
  import opened Lists

  const ADMIN := "Admin"
  const ADMIN_OPERATOR := "Admin Operator"
  const OPERATOR := "Operator"
  const MUTAWIF := "Mutawif"
  const VIEW_TASKS := "group-tasks.view"

  datatype Principal = Principal(userId: Id, roles: seq<string>, permissions: seq<string>)

  datatype Task = Task(groupId: Option<Id>, assignedUserId: Option<Id>, assignedRole: Option<string>)

  datatype Group = Group(mutawif: Option<Id>, mutawif2: Option<Id>, mutawif3: Option<Id>)

  type Groups = map<Id, Group>

  predicate HasRole(p: Principal, role: string) { role in p.roles }

  predicate IsSuperAdmin(p: Principal) { p.userId == 1 }

  predicate IsAdminOrOperator(p: Principal) { HasRole(p, ADMIN) || HasRole(p, ADMIN_OPERATOR) || HasRole(p, OPERATOR) }

  predicate Privileged(p: Principal) { IsSuperAdmin(p) || IsAdminOrOperator(p) }

  // The policy

  predicate IsMutawifOf(g: Group, uid: Id) {
    g.mutawif == Some(uid) || g.mutawif2 == Some(uid) || g.mutawif3 == Some(uid)
  }

  predicate IsAssignedTo(p: Principal, groups: Groups, t: Task) {
    if t.assignedUserId.Some? && t.assignedUserId.value == p.userId then true
    else if t.assignedRole.None? || t.assignedRole.value == "" then false
    else if !HasRole(p, t.assignedRole.value) then false
    else if t.assignedRole.value == MUTAWIF then
      if t.assignedUserId.Some? || t.groupId.None? then false
      else t.groupId.value in groups && IsMutawifOf(groups[t.groupId.value], p.userId)
    else true
  }

  predicate CanViewGroupTask(p: Principal, groups: Groups, t: Task) {
    if Privileged(p) then true
    else if VIEW_TASKS !in p.permissions then false
    else IsAssignedTo(p, groups, t)
  }

  // SQL conditions

  datatype Tri = Yes | No | Unknown

  function Or(a: Tri, b: Tri): Tri {
    if a == Yes || b == Yes then Yes else if a == Unknown || b == Unknown then Unknown else No
  }

  function And(a: Tri, b: Tri): Tri {
    if a == No || b == No then No else if a == Unknown || b == Unknown then Unknown else Yes
  }

  function Of(b: bool): Tri { if b then Yes else No }

  /** `column = value`; NULL compares as unknown. */
  function Equals<T(==)>(column: Option<T>, value: T): Tri {
    if column.None? then Unknown else Of(column.value == value)
  }

  /** `column IN (values)`: the disjunction of the comparisons. */
  function In(column: Option<string>, values: seq<string>): Tri {
    if values == [] then No else Or(In(column, values[..|values| - 1]), Equals(column, values[|values| - 1]))
  }

  /** The WHERE of the EXISTS subquery on one row of groups. */
  function GroupRow(t: Task, id: Id, g: Group, uid: Id): Tri {
    And(Equals(t.groupId, id), Or(Or(Equals(g.mutawif, uid), Equals(g.mutawif2, uid)), Equals(g.mutawif3, uid)))
  }

  /** EXISTS is never unknown: some row's condition is true, or none is. */
  function ExistsGroup(t: Task, groups: Groups, uid: Id): Tri {
    Of(exists id :: id in groups && GroupRow(t, id, groups[id], uid) == Yes)
  }

  function NotMutawif(): string -> bool { (r: string) => r != MUTAWIF }

  /** Roles with one removed, appended one by one. */
  method RolesExcept(roles: seq<string>, exclude: string) returns (out: seq<string>)
    ensures out == Filter(roles, (r: string) => r != exclude)
  {
    out := [];
    for i := 0 to |roles|
      invariant out == Filter(roles[..i], (r: string) => r != exclude)
    {
      assert roles[..i + 1][..i] == roles[..i];
      if roles[i] != exclude { out := out + [roles[i]]; }
    }
    assert roles[..|roles|] == roles;
  }

  /** The condition built for a caller without privileges. */
  function Scope(p: Principal, groups: Groups, t: Task): Tri {
    var otherRoles := Filter(p.roles, NotMutawif());
    var own := Equals(t.assignedUserId, p.userId);
    var byRole := if otherRoles != [] then Or(own, In(t.assignedRole, otherRoles)) else own;
    if HasRole(p, MUTAWIF)
    then Or(byRole, And(And(Equals(t.assignedRole, MUTAWIF), Of(t.assignedUserId.None?)),
                        ExistsGroup(t, groups, p.userId)))
    else byRole
  }

  /** The rows the query returns: those whose condition is true. */
  predicate InScope(p: Principal, groups: Groups, t: Task) { Privileged(p) || Scope(p, groups, t) == Yes }

  // The two agree

  lemma {:induction false} InMeansMember(column: Option<string>, values: seq<string>)
    ensures In(column, values) == Yes <==> column.Some? && column.value in values
  {
    if values != [] {
      InMeansMember(column, values[..|values| - 1]);
      assert values == values[..|values| - 1] + [values[|values| - 1]];
    }
  }

  lemma ExistsMeansMutawif(t: Task, groups: Groups, uid: Id)
    ensures ExistsGroup(t, groups, uid) == Yes
       <==> t.groupId.Some? && t.groupId.value in groups && IsMutawifOf(groups[t.groupId.value], uid)
  {
    if t.groupId.Some? && t.groupId.value in groups && IsMutawifOf(groups[t.groupId.value], uid) {
      assert GroupRow(t, t.groupId.value, groups[t.groupId.value], uid) == Yes;
    }
  }

  /** The condition read out: one's own task, a role one has, or a mutawif task of one's group left to the role. */
  lemma ScopeMeans(p: Principal, groups: Groups, t: Task)
    ensures Scope(p, groups, t) == Yes
       <==> || t.assignedUserId == Some(p.userId)
            || (t.assignedRole.Some? && t.assignedRole.value in p.roles && t.assignedRole.value != "Mutawif")
            || (t.assignedRole == Some("Mutawif") && "Mutawif" in p.roles && t.assignedUserId.None?
                && ExistsGroup(t, groups, p.userId) == Yes)
  {
    InMeansMember(t.assignedRole, Filter(p.roles, NotMutawif()));
    if t.assignedRole.Some? { FilterContains(p.roles, NotMutawif(), t.assignedRole.value); }
  }

  /** For every database and task: the scope adds to the policy only tasks with an empty role name the caller "has". */
  lemma ScopeIsPolicyPlusEmptyRole(p: Principal, groups: Groups, t: Task)
    ensures Scope(p, groups, t) == Yes
       <==> IsAssignedTo(p, groups, t) || (t.assignedRole == Some("") && "" in p.roles)
  {
    ScopeMeans(p, groups, t);
    ExistsMeansMutawif(t, groups, p.userId);
  }

  ghost predicate FormsAgree(p: Principal) {
    forall groups: Groups, t: Task :: Scope(p, groups, t) == Yes <==> IsAssignedTo(p, groups, t)
  }

  /** The two forms decide the same on all databases and tasks exactly for callers without an empty role name. */
  lemma FormsAgreeExactly(p: Principal)
    ensures FormsAgree(p) <==> "" !in p.roles
  {
    if "" in p.roles {
      var t := Task(None, None, Some(""));
      ScopeIsPolicyPlusEmptyRole(p, map[], t);
      assert !IsAssignedTo(p, map[], t);
    } else {
      forall groups: Groups, t: Task ensures Scope(p, groups, t) == Yes <==> IsAssignedTo(p, groups, t) {
        ScopeIsPolicyPlusEmptyRole(p, groups, t);
      }
    }
  }

  /** The view policy is privilege, or the permission together with the list's own scope. */
  lemma ViewIsPermissionAndScope(p: Principal, groups: Groups, t: Task)
    requires "" !in p.roles
    ensures var operator := "Admin Operator" in p.roles || "Operator" in p.roles;
            var privileged := p.userId == 1 || "Admin" in p.roles || operator;
            && (CanViewGroupTask(p, groups, t)
                <==> privileged || ("group-tasks.view" in p.permissions && InScope(p, groups, t)))
            && (InScope(p, groups, t) <==> privileged || Scope(p, groups, t) == Yes)
  {
    ScopeIsPolicyPlusEmptyRole(p, groups, t);
  }
}
