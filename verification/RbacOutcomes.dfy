/** What members may do, and what each administrative call answers and leaves behind: said of memberships, roles,
    grants and the catalogue. */
module RbacOutcomes {
  import opened Schema
  import opened Rbac
  import RbacAdministration

  // ---------- when calls are accepted ----------

  /** A list of permission ids that a role may be given: bounded, with bounded ids, each once, all in the catalogue. */
  predicate ProperIds(d: Directory, ids: seq<PermissionId>) {
    && |ids| <= 50 && (forall i :: 0 <= i < |ids| ==> |ids[i]| <= 40)
    && (forall i, j :: 0 <= i < j < |ids| ==> ids[i] != ids[j])
    && forall i :: 0 <= i < |ids| ==> ids[i] in d.catalog
  }

  /** The actor may do everything, or holds every listed permission. */
  ghost predicate MayGrant(d: Directory, u: UserId, ids: seq<PermissionId>) {
    IsOwner(d, u) || forall i :: 0 <= i < |ids| && ids[i] in d.catalog ==> Holds(d, u, d.catalog[ids[i]])
  }

  predicate KeyInUse(d: Directory, key: string) {
    exists r :: r in d.roles && d.roles[r].key == key
  }

  /** What is wrong with a list of ids, by the first check that fails. */
  lemma {:induction false} IdsTold(d: Directory, ids: seq<PermissionId>)
    ensures var e := ResolveRefusal(d, ids);
            var short := forall i :: 0 <= i < |ids| ==> |ids[i]| <= 40;
            var distinct := forall i, j :: 0 <= i < j < |ids| ==> ids[i] != ids[j];
            && (e.None? <==> ProperIds(d, ids))
            && (|ids| > 50 ==> e == Some(ListTooLarge))
            && (|ids| <= 50 && !short ==> e == Some(IdTooLong))
            && (|ids| <= 50 && short && !distinct ==> e == Some(DuplicateId))
            && (|ids| <= 50 && short && distinct && !ProperIds(d, ids) ==> e == Some(UnknownPermission))
  {
  }

  lemma {:induction false} BoundedIff(d: Directory, u: UserId, ids: seq<PermissionId>)
    requires WellFormed(d)
    ensures Bounded(d, SnapshotOf(d, u), ids) <==> MayGrant(d, u, ids)
  {
    SnapshotIff(d, u);
    hide SnapshotOf, Holds, IsOwner, WellFormed;
  }

  /** Creating a role: the actor may manage roles, the key is neither reserved nor in use, and there is at least one
      permission, all proper and within the actor's own; else the first of these that fails. */
  lemma {:induction false} CreateRoleTold(d: Directory, u: UserId, key: string, ids: seq<PermissionId>)
    requires WellFormed(d)
    ensures RefusalOf(d, CreateRole(u, key, ids))
            == if !May(d, u, "role:manage") then Some(InsufficientPermissions)
               else if key == "owner" || key == "admin" || key == "employee" then Some(ReservedKey)
               else if ids == [] then Some(PermissionRequired)
               else if !ProperIds(d, ids) then ResolveRefusal(d, ids)
               else if !MayGrant(d, u, ids) then Some(GrantExceedsActor)
               else if KeyInUse(d, key) then Some(RoleKeyTaken)
               else None
  {
    MayIff(d, u, "role:manage");
    IdsTold(d, ids);
    BoundedIff(d, u, ids);
    hide SnapshotOf, May, ResolveRefusal, Bounded, ProperIds, MayGrant, Satisfies, WellFormed;
  }

  /** Replacing a role's grants: a custom role, proper ids, within the actor's own. */
  lemma {:induction false} AssignPermissionsTold(d: Directory, u: UserId, r: RoleId, ids: seq<PermissionId>)
    requires WellFormed(d)
    ensures RefusalOf(d, AssignPermissions(u, r, ids))
            == if !May(d, u, "role:manage") then Some(InsufficientPermissions)
               else if r !in d.roles then Some(RoleNotFound)
               else if d.roles[r].isSystem then Some(SystemRoleImmutable)
               else if !ProperIds(d, ids) then ResolveRefusal(d, ids)
               else if !MayGrant(d, u, ids) then Some(GrantExceedsActor)
               else None
  {
    MayIff(d, u, "role:manage");
    IdsTold(d, ids);
    BoundedIff(d, u, ids);
    hide SnapshotOf, May, ResolveRefusal, Bounded, ProperIds, MayGrant, Satisfies, WellFormed;
  }

  /** Deleting a role: a custom role that no membership has. */
  lemma {:induction false} DeleteRoleTold(d: Directory, u: UserId, r: RoleId)
    requires WellFormed(d)
    ensures RefusalOf(d, DeleteRole(u, r))
            == if !May(d, u, "role:manage") then Some(InsufficientPermissions)
               else if r !in d.roles then Some(RoleNotFound)
               else if d.roles[r].isSystem then Some(SystemRoleImmutable)
               else if exists m :: m in d.members && d.members[m].roleId == r then Some(RoleAssigned)
               else None
  {
    MayIff(d, u, "role:manage");
    hide SnapshotOf, May, Satisfies, WellFormed;
  }

  predicate OwnerMember(d: Directory, m: MemberId) {
    m in d.members && d.members[m].roleId in d.roles && d.roles[d.members[m].roleId].key == "owner"
  }

  predicate ActiveOwner(d: Directory, m: MemberId) { OwnerMember(d, m) && d.members[m].status == ActiveMember }

  /** Two different memberships are active owners. */
  ghost predicate TwoActiveOwners(d: Directory) {
    exists m: MemberId, n: MemberId :: m != n && ActiveOwner(d, m) && ActiveOwner(d, n)
  }

  lemma {:induction false} OwnersCounted(d: Directory)
    ensures |ActiveOwners(d)| <= 1 <==> !TwoActiveOwners(d)
  {
    RbacAdministration.FewOwners(d);
    assert forall m :: RbacAdministration.IsActiveOwner(d, m) <==> ActiveOwner(d, m);
    hide RbacAdministration.IsActiveOwner, ActiveOwner, ActiveOwners;
  }

  /** Assigning a role: not to oneself, the owner role only by an owner, and never away from an owner unless two are
      active. */
  lemma {:induction false} AssignRoleTold(d: Directory, u: UserId, m: MemberId, r: RoleId)
    requires WellFormed(d)
    ensures RefusalOf(d, AssignRole(u, m, r))
            == if !May(d, u, "role:manage") then Some(InsufficientPermissions)
               else if r !in d.roles then Some(RoleNotFound)
               else if m !in d.members then Some(MembershipNotFound)
               else if d.members[m].userId == u then Some(SelfChange)
               else if d.roles[r].key == "owner" && !IsOwner(d, u) then Some(OwnerAssignment)
               else if OwnerMember(d, m) && d.roles[r].key != "owner" && !TwoActiveOwners(d) then Some(LastOwner)
               else None
  {
    MayIff(d, u, "role:manage");
    SnapshotIff(d, u);
    OwnersCounted(d);
    hide SnapshotOf, May, Satisfies, WellFormed, ActiveOwners, TwoActiveOwners, IsOwner, Holds;
  }

  /** Suspending or reactivating a member: not oneself, and no active owner is suspended unless two are active. */
  lemma {:induction false} UpdateStatusTold(d: Directory, u: UserId, m: MemberId, suspend: bool)
    requires WellFormed(d)
    ensures RefusalOf(d, UpdateStatus(u, m, suspend))
            == if !May(d, u, "member:manage") then Some(InsufficientPermissions)
               else if m !in d.members then Some(MembershipNotFound)
               else if d.members[m].userId == u then Some(SelfChange)
               else if ActiveOwner(d, m) && suspend && !TwoActiveOwners(d) then Some(LastOwner)
               else None
  {
    MayIff(d, u, "member:manage");
    OwnersCounted(d);
    hide SnapshotOf, May, Satisfies, WellFormed, ActiveOwners, TwoActiveOwners;
  }

  /** The role somebody is onboarded with: the requested one, or the system role for employees. */
  ghost predicate Target(d: Directory, wanted: Option<RoleId>, r: RoleId) {
    && r in d.roles
    && (wanted.Some? ==> wanted.value == r) && (wanted.None? ==> d.roles[r].key == "employee" && d.roles[r].isSystem)
  }

  lemma {:induction false} TargetIs(d: Directory, wanted: Option<RoleId>, r: RoleId)
    requires WellFormed(d)
    ensures TargetRole(d, wanted) == Some(r) <==> Target(d, wanted, r)
  {
    if wanted.None? {
      assert forall s :: IsDefaultRole(d, s) <==> Target(d, wanted, s);
    }
  }

  /** The user whom the email names, or who is about to be created for it. */
  predicate Names(d: Directory, email: string, user: UserId) {
    if email in d.users then d.users[email] == user else user == d.nextId
  }

  /** Onboarding a member: only an owner makes owners, nobody onboards themselves, and not a member already. */
  lemma {:induction false} CreateMemberTold(d: Directory, u: UserId, email: string, wanted: Option<RoleId>,
                                            r: RoleId, user: UserId)
    requires WellFormed(d) && Target(d, wanted, r) && Names(d, email, user)
    ensures RefusalOf(d, CreateMember(u, email, wanted))
            == if !May(d, u, "member:manage") then Some(InsufficientPermissions)
               else if d.roles[r].key == "owner" && !IsOwner(d, u) then Some(OwnerAssignment)
               else if user == u then Some(SelfChange)
               else if exists m :: m in d.members && d.members[m].userId == user then Some(AlreadyMember)
               else None
  {
    MayIff(d, u, "member:manage");
    SnapshotIff(d, u);
    TargetIs(d, wanted, r);
    hide SnapshotOf, May, Satisfies, WellFormed, IsOwner, Holds, TargetRole;
  }

  /** And there is no role to onboard with when the requested one, or the employee role, does not exist. */
  lemma {:induction false} NoTargetTold(d: Directory, u: UserId, email: string, wanted: Option<RoleId>)
    requires WellFormed(d) && forall r :: !Target(d, wanted, r)
    ensures RefusalOf(d, CreateMember(u, email, wanted))
            == Some(if !May(d, u, "member:manage") then InsufficientPermissions
                    else if wanted.Some? then RoleNotFound else DefaultRoleNotFound)
  {
    MayIff(d, u, "member:manage");
    if TargetRole(d, wanted).Some? { TargetIs(d, wanted, TargetRole(d, wanted).value); }
    hide SnapshotOf, May, Satisfies, WellFormed, IsOwner, Holds, Target, TargetRole;
  }

  // ---------- what calls leave behind ----------

  /** A refused call changes nothing. */
  lemma {:induction false} RefusedChangesNothing(d: Directory, call: Call)
    requires WellFormed(d)
    ensures RefusalOf(d, call).Some? ==> Do(d, call) == d
  {
    hide RefusalOf;
  }

  ghost predicate SameBut<Row>(rows: map<nat, Row>, rows': map<nat, Row>, id: nat) {
    forall x :: x != id ==> (x in rows' <==> x in rows) && (x in rows ==> rows'[x] == rows[x])
  }

  /** Among the roles only this one is new or changed, and nothing but the roles changes. */
  ghost predicate OnlyRole(d: Directory, d': Directory, r: RoleId) {
    && SameBut(d.roles, d'.roles, r)
    && d'.members == d.members && d'.users == d.users && d'.catalog == d.catalog
  }

  /** Among the memberships only this one is new or changed, and the roles stay. */
  ghost predicate OnlyMember(d: Directory, d': Directory, m: MemberId) {
    && SameBut(d.members, d'.members, m) && d'.roles == d.roles && d'.catalog == d.catalog
  }

  /** The role is a custom one with this key, granting exactly the listed permissions. */
  ghost predicate CustomRole(d: Directory, r: RoleId, key: string, ids: seq<PermissionId>) {
    && r in d.roles && d.roles[r].key == key && !d.roles[r].isSystem
    && forall p :: p in d.roles[r].grants <==> exists i :: 0 <= i < |ids| && ids[i] == p
  }

  lemma {:induction false} CreateRoleLeaves(d: Directory, u: UserId, key: string, ids: seq<PermissionId>)
    requires WellFormed(d) && RefusalOf(d, CreateRole(u, key, ids)).None?
    ensures var d' := Do(d, CreateRole(u, key, ids));
            && d.nextId !in d.roles && CustomRole(d', d.nextId, key, ids) && OnlyRole(d, d', d.nextId)
            && d'.nextId == d.nextId + 1
  {
    hide RefusalOf;
  }

  /** A grant change leaves the role with exactly the listed permissions. */
  lemma {:induction false} AssignPermissionsLeaves(d: Directory, u: UserId, r: RoleId, ids: seq<PermissionId>)
    requires WellFormed(d) && RefusalOf(d, AssignPermissions(u, r, ids)).None?
    ensures var d' := Do(d, AssignPermissions(u, r, ids));
            && r in d.roles && CustomRole(d', r, d.roles[r].key, ids) && OnlyRole(d, d', r) && d'.nextId == d.nextId
  {
    hide SnapshotOf, Satisfies, ResolveRefusal, Bounded, WellFormed;
  }

  lemma {:induction false} DeleteRoleLeaves(d: Directory, u: UserId, r: RoleId)
    requires WellFormed(d) && RefusalOf(d, DeleteRole(u, r)).None?
    ensures var d' := Do(d, DeleteRole(u, r));
            r in d.roles && r !in d'.roles && OnlyRole(d, d', r) && d'.nextId == d.nextId
  {
    hide SnapshotOf, Satisfies, WellFormed;
  }

  /** An assignment leaves exactly the requested role. */
  lemma {:induction false} AssignRoleLeaves(d: Directory, u: UserId, m: MemberId, r: RoleId)
    requires WellFormed(d) && RefusalOf(d, AssignRole(u, m, r)).None?
    ensures var d' := Do(d, AssignRole(u, m, r));
            && m in d.members && m in d'.members
            && d'.members[m] == Membership(d.members[m].userId, r, d.members[m].status)
            && OnlyMember(d, d', m) && d'.users == d.users && d'.nextId == d.nextId
  {
    hide SnapshotOf, Satisfies, WellFormed, ActiveOwners;
  }

  /** A status change leaves exactly the requested status. */
  lemma {:induction false} UpdateStatusLeaves(d: Directory, u: UserId, m: MemberId, suspend: bool)
    requires WellFormed(d) && RefusalOf(d, UpdateStatus(u, m, suspend)).None?
    ensures var d' := Do(d, UpdateStatus(u, m, suspend));
            && m in d.members && m in d'.members
            && d'.members[m] == Membership(d.members[m].userId, d.members[m].roleId,
                                           if suspend then Suspended else ActiveMember)
            && OnlyMember(d, d', m) && d'.users == d.users && d'.nextId == d.nextId
  {
    hide SnapshotOf, Satisfies, WellFormed, ActiveOwners;
  }

  /** Onboarding leaves an ACTIVE membership of the user whom the email names, with the role asked for. */
  lemma {:induction false} CreateMemberLeaves(d: Directory, u: UserId, email: string, wanted: Option<RoleId>,
                                              r: RoleId, user: UserId)
    requires WellFormed(d) && RefusalOf(d, CreateMember(u, email, wanted)).None?
    requires Target(d, wanted, r) && Names(d, email, user)
    ensures var d', m := Do(d, CreateMember(u, email, wanted)), d.nextId + 1;
            && m !in d.members && m in d'.members && d'.members[m] == Membership(user, r, ActiveMember)
            && OnlyMember(d, d', m) && d'.users == d.users[email := user] && d'.nextId == d.nextId + 2
  {
    TargetIs(d, wanted, r);
    hide RefusalOf, TargetRole, Target;
  }
}
