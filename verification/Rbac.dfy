/** Roles, memberships and permissions of one tenant, and what each administrative call does. */
module Rbac {
  import opened Schema

  type RoleId = nat
  type MemberId = nat
  type PermissionId = string
  type PermissionKey = string

  const MAX_PERMISSION_IDS: nat := 50
  const MAX_PERMISSION_ID_LENGTH: nat := 40

  const OWNER: string := "owner"
  const ADMIN: string := "admin"
  const EMPLOYEE: string := "employee"
  const ROLE_MANAGE: PermissionKey := "role:manage"
  const MEMBER_MANAGE: PermissionKey := "member:manage"

  datatype Role = Role(key: string, isSystem: bool, grants: set<PermissionId>)
  datatype MemberStatus = ActiveMember | Invited | Suspended
  datatype Membership = Membership(userId: UserId, roleId: RoleId, status: MemberStatus)

  /** The tenant's rows, the global user table and the platform's permission catalogue (id to key). */
  datatype Directory = Directory(roles: map<RoleId, Role>, members: map<MemberId, Membership>,
                                 users: map<string, UserId>, catalog: map<PermissionId, PermissionKey>, nextId: nat)

  /** What the schema guarantees (foreign keys and unique keys) and the seed provides (a role with the
      owner key is a system role). */
  ghost predicate WellFormed(d: Directory) {
    && (forall m :: m in d.members ==> d.members[m].roleId in d.roles && m < d.nextId)
    && (forall m, n :: m in d.members && n in d.members && d.members[m].userId == d.members[n].userId ==> m == n)
    && (forall r, s :: r in d.roles && s in d.roles && d.roles[r].key == d.roles[s].key ==> r == s)
    && (forall r :: r in d.roles ==> r < d.nextId && d.roles[r].grants <= d.catalog.Keys
                                     && (d.roles[r].key == OWNER ==> d.roles[r].isSystem))
    && (forall p, q :: p in d.catalog && q in d.catalog && d.catalog[p] == d.catalog[q] ==> p == q)
  }

  // ---------- effective permissions ----------

  datatype Snapshot = Snapshot(isOwner: bool, keys: set<PermissionKey>)

  const NOTHING: Snapshot := Snapshot(false, {})

  /** What an active membership carries: everything for the owner role, else its role's grants. */
  function SnapshotOfMembership(d: Directory, m: MemberId): Snapshot
    requires m in d.members && d.members[m].roleId in d.roles
  {
    var role := d.roles[d.members[m].roleId];
    if d.members[m].status != ActiveMember then NOTHING
    else if role.key == OWNER then Snapshot(true, {})
    else Snapshot(false, set p | p in role.grants && p in d.catalog :: d.catalog[p])
  }

  ghost predicate IsMember(d: Directory, u: UserId) {
    exists m :: m in d.members && d.members[m].userId == u
  }

  ghost function MembershipOf(d: Directory, u: UserId): (m: MemberId)
    requires IsMember(d, u)
    ensures m in d.members && d.members[m].userId == u
  {
    var m :| m in d.members && d.members[m].userId == u;
    m
  }

  ghost function SnapshotOf(d: Directory, u: UserId): Snapshot
    requires WellFormed(d)
  {
    if IsMember(d, u) then SnapshotOfMembership(d, MembershipOf(d, u)) else NOTHING
  }

  lemma {:induction false} SnapshotIs(d: Directory, m: MemberId)
    requires WellFormed(d) && m in d.members
    ensures SnapshotOf(d, d.members[m].userId) == SnapshotOfMembership(d, m)
  {
    assert MembershipOf(d, d.members[m].userId) == m;
  }

  datatype Mode = Any | All

  predicate Satisfies(s: Snapshot, mode: Mode, keys: seq<PermissionKey>) {
    s.isOwner || if mode == Any then exists k :: k in keys && k in s.keys else forall k :: k in keys ==> k in s.keys
  }

  // ---------- and what they are, row by row ----------

  /** An ACTIVE membership of the user with the owner role. */
  ghost predicate IsOwner(d: Directory, u: UserId) {
    exists m :: ActiveWith(d, u, m) && d.roles[d.members[m].roleId].key == "owner"
  }

  predicate ActiveWith(d: Directory, u: UserId, m: MemberId) {
    && m in d.members && d.members[m].userId == u && d.members[m].status == ActiveMember
    && d.members[m].roleId in d.roles
  }

  /** The role grants a permission of the catalogue with this key. */
  predicate Grants(d: Directory, r: RoleId, k: PermissionKey)
    requires r in d.roles
  {
    exists p :: p in d.roles[r].grants && p in d.catalog && d.catalog[p] == k
  }

  /** An ACTIVE membership of the user whose role, not the owner role, grants the key. */
  ghost predicate Holds(d: Directory, u: UserId, k: PermissionKey) {
    exists m :: ActiveWith(d, u, m) && d.roles[d.members[m].roleId].key != "owner" && Grants(d, d.members[m].roleId, k)
  }

  ghost predicate May(d: Directory, u: UserId, k: PermissionKey) { IsOwner(d, u) || Holds(d, u, k) }

  /** A user's snapshot says exactly whether the user is an active owner, and which keys the user holds. */
  lemma {:induction false} SnapshotIff(d: Directory, u: UserId)
    requires WellFormed(d)
    ensures SnapshotOf(d, u).isOwner <==> IsOwner(d, u)
    ensures forall k :: k in SnapshotOf(d, u).keys <==> Holds(d, u, k)
  {
    if IsMember(d, u) {
      var m := MembershipOf(d, u);
      assert forall n :: n in d.members && d.members[n].userId == u ==> n == m;
      hide WellFormed;
      forall k
        ensures k in SnapshotOf(d, u).keys <==> Holds(d, u, k)
      {
      }
    }
  }

  /** A permission check passes exactly for an active owner, or for a member who holds one, or all, of the keys. */
  lemma {:induction false} CheckPassesIff(d: Directory, u: UserId, mode: Mode, keys: seq<PermissionKey>)
    requires WellFormed(d)
    ensures Satisfies(SnapshotOf(d, u), mode, keys)
            <==> IsOwner(d, u) || (mode == Any && exists k :: k in keys && Holds(d, u, k))
                 || (mode == All && forall k :: k in keys ==> Holds(d, u, k))
  {
    SnapshotIff(d, u);
    hide SnapshotOf, Holds, IsOwner;
  }

  lemma {:induction false} MayIff(d: Directory, u: UserId, k: PermissionKey)
    requires WellFormed(d)
    ensures Satisfies(SnapshotOf(d, u), All, [k]) <==> May(d, u, k)
  {
    CheckPassesIff(d, u, All, [k]);
    hide SnapshotOf, Holds, IsOwner, Satisfies;
    assert k in [k];
  }

  // ---------- the calls ----------

  datatype Refusal =
    | InsufficientPermissions | ReservedKey | PermissionRequired | ListTooLarge | IdTooLong | DuplicateId
    | UnknownPermission
                   | GrantExceedsActor | RoleKeyTaken | RoleNotFound | SystemRoleImmutable | RoleAssigned
                   | MembershipNotFound | SelfChange | OwnerAssignment | LastOwner | DefaultRoleNotFound | AlreadyMember

  datatype Call =
    | CreateRole(actor: UserId, key: string, ids: seq<PermissionId>)
    | DeleteRole(actor: UserId, roleId: RoleId)
    | AssignPermissions(actor: UserId, roleId: RoleId, ids: seq<PermissionId>)
    | AssignRole(actor: UserId, memberId: MemberId, roleId: RoleId)
    | UpdateStatus(actor: UserId, memberId: MemberId, suspend: bool)
    | CreateMember(actor: UserId, email: string, wanted: Option<RoleId>)

  predicate NoDuplicates(ids: seq<PermissionId>) {
    forall i, j :: 0 <= i < j < |ids| ==> ids[i] != ids[j]
  }

  /** resolvePermissions: bounded list, bounded ids, no duplicates, all in the catalogue. */
  function ResolveRefusal(d: Directory, ids: seq<PermissionId>): Option<Refusal> {
    if |ids| > MAX_PERMISSION_IDS then Some(ListTooLarge)
    else if exists i :: 0 <= i < |ids| && |ids[i]| > MAX_PERMISSION_ID_LENGTH then Some(IdTooLong)
    else if !NoDuplicates(ids) then Some(DuplicateId)
    else if exists i :: 0 <= i < |ids| && ids[i] !in d.catalog then Some(UnknownPermission)
    else None
  }

  /** assertBoundedGrants: an actor grants only what the actor holds; owners are exempt. */
  predicate Bounded(d: Directory, actor: Snapshot, ids: seq<PermissionId>) {
    ids == [] || actor.isOwner || forall i :: 0 <= i < |ids| && ids[i] in d.catalog ==> d.catalog[ids[i]] in actor.keys
  }

  predicate Reserved(key: string) { key in {OWNER, ADMIN, EMPLOYEE} }

  predicate KeyTaken(d: Directory, key: string) {
    exists r :: r in d.roles && d.roles[r].key == key
  }

  function CreateRoleRefusal(d: Directory, actor: Snapshot, key: string, ids: seq<PermissionId>): Option<Refusal> {
    if !Satisfies(actor, All, [ROLE_MANAGE]) then Some(InsufficientPermissions)
    else if Reserved(key) then Some(ReservedKey)
    else if ids == [] then Some(PermissionRequired)
    else if ResolveRefusal(d, ids).Some? then ResolveRefusal(d, ids)
    else if !Bounded(d, actor, ids) then Some(GrantExceedsActor)
    else if KeyTaken(d, key) then Some(RoleKeyTaken)
    else None
  }

  predicate HasMembers(d: Directory, r: RoleId) {
    exists m :: m in d.members && d.members[m].roleId == r
  }

  function DeleteRoleRefusal(d: Directory, actor: Snapshot, r: RoleId): Option<Refusal> {
    if !Satisfies(actor, All, [ROLE_MANAGE]) then Some(InsufficientPermissions)
    else if r !in d.roles then Some(RoleNotFound)
    else if d.roles[r].isSystem then Some(SystemRoleImmutable)
    else if HasMembers(d, r) then Some(RoleAssigned)
    else None
  }

  function AssignPermissionsRefusal(d: Directory, actor: Snapshot, r: RoleId, ids: seq<PermissionId>): Option<Refusal> {
    if !Satisfies(actor, All, [ROLE_MANAGE]) then Some(InsufficientPermissions)
    else if r !in d.roles then Some(RoleNotFound)
    else if d.roles[r].isSystem then Some(SystemRoleImmutable)
    else if ResolveRefusal(d, ids).Some? then ResolveRefusal(d, ids)
    else if !Bounded(d, actor, ids) then Some(GrantExceedsActor)
    else None
  }

  predicate HoldsOwnerRole(d: Directory, m: MemberId) {
    m in d.members && d.members[m].roleId in d.roles && d.roles[d.members[m].roleId].key == OWNER
  }

  /** The rows the lock query returns: ACTIVE memberships with the owner role. */
  function ActiveOwners(d: Directory): set<MemberId> {
    set m | m in d.members && HoldsOwnerRole(d, m) && d.members[m].status == ActiveMember
  }

  function AssignRoleRefusal(d: Directory, actor: Snapshot, u: UserId, m: MemberId, r: RoleId): Option<Refusal> {
    if !Satisfies(actor, All, [ROLE_MANAGE]) then Some(InsufficientPermissions)
    else if r !in d.roles then Some(RoleNotFound)
    else if m !in d.members then Some(MembershipNotFound)
    else if d.members[m].userId == u then Some(SelfChange)
    else if d.roles[r].key == OWNER && !actor.isOwner then Some(OwnerAssignment)
    else if HoldsOwnerRole(d, m) && d.roles[r].key != OWNER && |ActiveOwners(d)| <= 1 then Some(LastOwner)
    else None
  }

  function UpdateStatusRefusal(d: Directory, actor: Snapshot, u: UserId, m: MemberId, suspend: bool): Option<Refusal> {
    if !Satisfies(actor, All, [MEMBER_MANAGE]) then Some(InsufficientPermissions)
    else if m !in d.members then Some(MembershipNotFound)
    else if d.members[m].userId == u then Some(SelfChange)
    else if HoldsOwnerRole(d, m) && d.members[m].status == ActiveMember && suspend && |ActiveOwners(d)| <= 1 then
      Some(LastOwner)
    else None
  }

  /** The endpoint only activates or suspends. */
  function NewStatus(suspend: bool): MemberStatus { if suspend then Suspended else ActiveMember }

  predicate IsDefaultRole(d: Directory, r: RoleId) {
    r in d.roles && d.roles[r].key == EMPLOYEE && d.roles[r].isSystem
  }

  /** The role to onboard with: the requested one, or the employee system role. */
  ghost function TargetRole(d: Directory, wanted: Option<RoleId>): (r: Option<RoleId>)
    ensures r.Some? ==> r.value in d.roles
  {
    match wanted
    case Some(r) => if r in d.roles then Some(r) else None
    case None =>
      if exists r :: IsDefaultRole(d, r) then
        var r :| IsDefaultRole(d, r);
        Some(r)
      else None
  }

  /** The user the email resolves to, existing or about to be created. */
  function UserFor(d: Directory, email: string): UserId {
    if email in d.users then d.users[email] else d.nextId
  }

  ghost function CreateMemberRefusal(d: Directory, actor: Snapshot, u: UserId, email: string, wanted: Option<RoleId>)
    : Option<Refusal>
  {
    if !Satisfies(actor, All, [MEMBER_MANAGE]) then Some(InsufficientPermissions)
    else if TargetRole(d, wanted).None? then Some(if wanted.Some? then RoleNotFound else DefaultRoleNotFound)
    else if d.roles[TargetRole(d, wanted).value].key == OWNER && !actor.isOwner then Some(OwnerAssignment)
    else if UserFor(d, email) == u then Some(SelfChange)
    else if IsMember(d, UserFor(d, email)) then Some(AlreadyMember)
    else None
  }

  ghost function RefusalOf(d: Directory, call: Call): Option<Refusal>
    requires WellFormed(d)
  {
    var actor := SnapshotOf(d, call.actor);
    match call
    case CreateRole(_, key, ids) => CreateRoleRefusal(d, actor, key, ids)
    case DeleteRole(_, r) => DeleteRoleRefusal(d, actor, r)
    case AssignPermissions(_, r, ids) => AssignPermissionsRefusal(d, actor, r, ids)
    case AssignRole(u, m, r) => AssignRoleRefusal(d, actor, u, m, r)
    case UpdateStatus(u, m, suspend) => UpdateStatusRefusal(d, actor, u, m, suspend)
    case CreateMember(u, email, wanted) => CreateMemberRefusal(d, actor, u, email, wanted)
  }

  function IdSet(ids: seq<PermissionId>): set<PermissionId> { set i | 0 <= i < |ids| :: ids[i] }

  /** The new membership, and the new user if the email was unknown. */
  function Onboarded(d: Directory, email: string, r: RoleId): Directory {
    var user := UserFor(d, email);
    d.(users := d.users[email := user], members := d.members[d.nextId + 1 := Membership(user, r, ActiveMember)],
       nextId := d.nextId + 2)
  }

  /** One atomic call; refused calls change nothing. */
  ghost function Do(d: Directory, call: Call): Directory
    requires WellFormed(d)
  {
    if RefusalOf(d, call).Some? then d
    else
      match call
      case CreateRole(_, key, ids) => d.(roles := d.roles[d.nextId := Role(key, false, IdSet(ids))],
                                         nextId := d.nextId + 1)
      case DeleteRole(_, r) => d.(roles := d.roles - {r})
      case AssignPermissions(_, r, ids) => d.(roles := d.roles[r := d.roles[r].(grants := IdSet(ids))])
      case AssignRole(_, m, r) => d.(members := d.members[m := d.members[m].(roleId := r)])
      case UpdateStatus(_, m, suspend) => d.(members := d.members[m := d.members[m].(status := NewStatus(suspend))])
      case CreateMember(_, email, wanted) => Onboarded(d, email, TargetRole(d, wanted).value)
  }
}
