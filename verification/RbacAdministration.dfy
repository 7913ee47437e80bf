/** PermissionService, RoleService and MemberService over the tenant's rows, changed in place. */
module RbacAdministration {
  import opened Schema
  import opened Rbac
  import opened RbacTheorems
  import opened Sums

  /** The rows, and the permission memo of the current request. */
  class Tables {
    var roles: map<RoleId, Role>
    var members: map<MemberId, Membership>
    var users: map<string, UserId>
    var catalog: map<PermissionId, PermissionKey>
    var nextId: nat
    var memo: map<UserId, Snapshot>

    function View(): Directory
      reads this
    {
      Directory(roles, members, users, catalog, nextId)
    }

    /** Rows are well formed and every memoised snapshot is the current one. */
    ghost predicate Valid()
      reads this
    {
      WellFormed(View()) && forall u :: u in memo ==> memo[u] == SnapshotOf(View(), u)
    }
  }

  class PermissionService {
    const db: Tables

    constructor (db: Tables)
      ensures this.db == db
    {
      this.db := db;
    }

    method GetPermissions(u: UserId) returns (s: Snapshot)
      requires db.Valid()
      modifies db`memo
      ensures db.Valid() && s == SnapshotOf(db.View(), u)
      ensures s.isOwner <==> IsOwner(db.View(), u)
      ensures forall k :: k in s.keys <==> Holds(db.View(), u, k)
    {
      SnapshotIff(db.View(), u);
      hide IsOwner, Holds;
      if u in db.memo {
        return db.memo[u];
      }
      s := LoadSnapshot(u);
      db.memo := db.memo[u := s];
    }

    method LoadSnapshot(u: UserId) returns (s: Snapshot)
      requires WellFormed(db.View())
      ensures s == SnapshotOf(db.View(), u)
      ensures s.isOwner <==> IsOwner(db.View(), u)
      ensures forall k :: k in s.keys <==> Holds(db.View(), u, k)
    {
      SnapshotIff(db.View(), u);
      hide IsOwner, Holds;
      var todo := db.members.Keys;
      while todo != {}
        invariant todo <= db.members.Keys
        invariant forall m :: m in db.members && db.members[m].userId == u ==> m in todo
        decreases |todo|
      {
        var m :| m in todo;
        if db.members[m].userId == u {
          SnapshotIs(db.View(), m);
          if db.members[m].status != ActiveMember { return NOTHING; }
          var role := db.roles[db.members[m].roleId];
          if role.key == OWNER { return Snapshot(true, {}); }
          return Snapshot(false, set p | p in role.grants && p in db.catalog :: db.catalog[p]);
        }
        todo := todo - {m};
      }
      return NOTHING;
    }

    method AssertPermission(u: UserId, key: PermissionKey) returns (ok: bool)
      requires db.Valid()
      modifies db`memo
      ensures db.Valid() && ok == Satisfies(SnapshotOf(db.View(), u), All, [key])
      ensures ok <==> May(db.View(), u, key)
    {
      MayIff(db.View(), u, key);
      hide May;
      var s := GetPermissions(u);
      return Satisfies(s, All, [key]);
    }

    method ClearMemo()
      requires WellFormed(db.View())
      modifies db`memo
      ensures db.Valid() && db.memo == map[]
    {
      db.memo := map[];
    }
  }

  class RoleService {
    const db: Tables
    const permissions: PermissionService

    constructor (db: Tables, permissions: PermissionService)
      requires permissions.db == db
      ensures this.db == db && this.permissions == permissions
    {
      this.db, this.permissions := db, permissions;
    }

    method ResolvePermissions(ids: seq<PermissionId>) returns (refusal: Option<Refusal>)
      ensures refusal == ResolveRefusal(db.View(), ids)
    {
      if |ids| > MAX_PERMISSION_IDS {
        return Some(ListTooLarge);
      }
      for i := 0 to |ids|
        invariant forall j :: 0 <= j < i ==> |ids[j]| <= MAX_PERMISSION_ID_LENGTH
      {
        if |ids[i]| > MAX_PERMISSION_ID_LENGTH {
          return Some(IdTooLong);
        }
      }
      var unique := IdSet(ids);
      DuplicatesCount(ids);
      if |unique| != |ids| {
        return Some(DuplicateId);
      }
      var found := set p | p in unique && p in db.catalog;
      SubsetSize(found, unique);
      FoundAll(db.catalog, ids);
      if |found| != |unique| {
        return Some(UnknownPermission);
      }
      return None;
    }

    method AssertBoundedGrants(actor: UserId, ids: seq<PermissionId>) returns (ok: bool)
      requires db.Valid() && permissions.db == db && ResolveRefusal(db.View(), ids).None?
      modifies db`memo
      ensures db.Valid() && ok == Bounded(db.View(), SnapshotOf(db.View(), actor), ids)
    {
      if ids == [] {
        return true;
      }
      var held := permissions.GetPermissions(actor);
      if held.isOwner {
        return true;
      }
      for i := 0 to |ids|
        invariant forall j :: 0 <= j < i ==> db.catalog[ids[j]] in held.keys
      {
        if db.catalog[ids[i]] !in held.keys {
          return false;
        }
      }
      return true;
    }

    method CreateRole(actor: UserId, key: string, ids: seq<PermissionId>) returns (refusal: Option<Refusal>)
      requires db.Valid() && permissions.db == db
      modifies db`roles, db`nextId, db`memo
      ensures var call := Call.CreateRole(actor, key, ids);
              db.Valid() && db.View() == Do(old(db.View()), call) && refusal == RefusalOf(old(db.View()), call)
    {
      hide SnapshotOf, Satisfies, ResolveRefusal, Bounded, WellFormed;
      DoWellFormed(db.View(), Call.CreateRole(actor, key, ids));
      var ok := permissions.AssertPermission(actor, ROLE_MANAGE);
      if !ok { return Some(InsufficientPermissions); }
      if Reserved(key) { return Some(ReservedKey); }
      if ids == [] { return Some(PermissionRequired); }
      refusal := ResolvePermissions(ids);
      if refusal.Some? { return; }
      ok := AssertBoundedGrants(actor, ids);
      if !ok { return Some(GrantExceedsActor); }
      if KeyTaken(db.View(), key) { return Some(RoleKeyTaken); }
      db.roles := db.roles[db.nextId := Role(key, false, IdSet(ids))];
      db.nextId := db.nextId + 1;
      permissions.ClearMemo();
    }

    method DeleteRole(actor: UserId, r: RoleId) returns (refusal: Option<Refusal>)
      requires db.Valid() && permissions.db == db
      modifies db`roles, db`memo
      ensures var call := Call.DeleteRole(actor, r);
              db.Valid() && db.View() == Do(old(db.View()), call) && refusal == RefusalOf(old(db.View()), call)
    {
      hide SnapshotOf, Satisfies, WellFormed;
      DoWellFormed(db.View(), Call.DeleteRole(actor, r));
      var ok := permissions.AssertPermission(actor, ROLE_MANAGE);
      if !ok { return Some(InsufficientPermissions); }
      if r !in db.roles { return Some(RoleNotFound); }
      if db.roles[r].isSystem { return Some(SystemRoleImmutable); }
      if HasMembers(db.View(), r) { return Some(RoleAssigned); }
      db.roles := db.roles - {r};
      permissions.ClearMemo();
      return None;
    }

    method AssignPermissions(actor: UserId, r: RoleId, ids: seq<PermissionId>) returns (refusal: Option<Refusal>)
      requires db.Valid() && permissions.db == db
      modifies db`roles, db`memo
      ensures var call := Call.AssignPermissions(actor, r, ids);
              db.Valid() && db.View() == Do(old(db.View()), call) && refusal == RefusalOf(old(db.View()), call)
    {
      hide SnapshotOf, Satisfies, ResolveRefusal, Bounded, WellFormed;
      DoWellFormed(db.View(), Call.AssignPermissions(actor, r, ids));
      var ok := permissions.AssertPermission(actor, ROLE_MANAGE);
      if !ok { return Some(InsufficientPermissions); }
      if r !in db.roles { return Some(RoleNotFound); }
      if db.roles[r].isSystem { return Some(SystemRoleImmutable); }
      refusal := ResolvePermissions(ids);
      if refusal.Some? { return; }
      ok := AssertBoundedGrants(actor, ids);
      if !ok { return Some(GrantExceedsActor); }
      db.roles := db.roles[r := db.roles[r].(grants := {})];
      db.roles := db.roles[r := db.roles[r].(grants := IdSet(ids))];
      assert db.roles == old(db.roles)[r := old(db.roles)[r].(grants := IdSet(ids))];
      permissions.ClearMemo();
    }

    method AssignRoleToMembership(actor: UserId, m: MemberId, r: RoleId) returns (refusal: Option<Refusal>)
      requires db.Valid() && permissions.db == db
      modifies db`members, db`memo
      ensures var call := AssignRole(actor, m, r);
              db.Valid() && db.View() == Do(old(db.View()), call) && refusal == RefusalOf(old(db.View()), call)
    {
      hide SnapshotOf, Satisfies, WellFormed, ActiveOwners;
      DoWellFormed(db.View(), AssignRole(actor, m, r));
      var ok := permissions.AssertPermission(actor, ROLE_MANAGE);
      if !ok { return Some(InsufficientPermissions); }
      if r !in db.roles { return Some(RoleNotFound); }
      if m !in db.members { return Some(MembershipNotFound); }
      MemberRow(db.View(), m);
      if db.members[m].userId == actor { return Some(SelfChange); }
      if db.roles[r].key == OWNER {
        var held := permissions.GetPermissions(actor);
        if !held.isOwner { return Some(OwnerAssignment); }
      }
      if db.roles[db.members[m].roleId].key == OWNER && db.roles[r].key != OWNER {
        var last := LastActiveOwner(db);
        if last { return Some(LastOwner); }
      }
      db.members := db.members[m := db.members[m].(roleId := r)];
      permissions.ClearMemo();
      return None;
    }
  }

  /** The membership is ACTIVE and its role is an owner role of the tenant. */
  predicate IsActiveOwner(d: Directory, m: MemberId) {
    HoldsOwnerRole(d, m) && d.members[m].status == ActiveMember
  }

  /** The lock query: the tenant's owner roles, then the ACTIVE memberships holding one of them. */
  method LockActiveOwners(db: Tables) returns (rows: seq<MemberId>)
    ensures forall m :: m in rows <==> IsActiveOwner(db.View(), m)
    ensures forall i, j :: 0 <= i < j < |rows| ==> rows[i] != rows[j]
  {
    var ownerRoles: set<RoleId> := {};
    var roles := db.roles.Keys;
    while roles != {}
      invariant roles <= db.roles.Keys
      invariant forall r :: r in ownerRoles <==> r in db.roles.Keys - roles && db.roles[r].key == OWNER
      decreases |roles|
    {
      var r :| r in roles;
      if db.roles[r].key == OWNER {
        ownerRoles := ownerRoles + {r};
      }
      roles := roles - {r};
    }
    rows := [];
    var members := db.members.Keys;
    while members != {}
      invariant members <= db.members.Keys
      invariant forall m :: m in rows <==> m in db.members.Keys - members && IsActiveOwner(db.View(), m)
      invariant forall i, j :: 0 <= i < j < |rows| ==> rows[i] != rows[j]
      decreases |members|
    {
      var m :| m in members;
      if db.members[m].status == ActiveMember && db.members[m].roleId in ownerRoles {
        assert forall i :: 0 <= i < |rows| ==> rows[i] in rows;
        rows := rows + [m];
      }
      members := members - {m};
    }
  }

  /** assertNotLastActiveOwner: refuses unless two different memberships are active owners. */
  method LastActiveOwner(db: Tables) returns (last: bool)
    ensures last <==> !exists m: MemberId, n: MemberId ::
              m != n && IsActiveOwner(db.View(), m) && IsActiveOwner(db.View(), n)
    ensures last <==> |ActiveOwners(db.View())| <= 1
  {
    var owners := LockActiveOwners(db);
    last := |owners| <= 1;
    FewOwners(db.View());
    if !last {
      assert owners[0] in owners && owners[1] in owners;
    }
  }

  /** At most one active owner: no two different memberships are. */
  lemma {:induction false} FewOwners(d: Directory)
    ensures |ActiveOwners(d)| <= 1 <==> !exists m: MemberId, n: MemberId ::
              m != n && IsActiveOwner(d, m) && IsActiveOwner(d, n)
  {
    var owners := ActiveOwners(d);
    if m: MemberId, n: MemberId :| m != n && IsActiveOwner(d, m) && IsActiveOwner(d, n) {
      SubsetSize({m, n}, owners);
    } else if owners != {} {
      var m :| m in owners;
      assert IsActiveOwner(d, m);
      forall n | n in owners
        ensures n == m
      {
        assert IsActiveOwner(d, n);
      }
      SubsetSize(owners, {m});
    }
  }

  class MemberService {
    const db: Tables
    const permissions: PermissionService

    constructor (db: Tables, permissions: PermissionService)
      requires permissions.db == db
      ensures this.db == db && this.permissions == permissions
    {
      this.db, this.permissions := db, permissions;
    }

    method UpdateMemberStatus(actor: UserId, m: MemberId, suspend: bool) returns (refusal: Option<Refusal>)
      requires db.Valid() && permissions.db == db
      modifies db`members, db`memo
      ensures var call := UpdateStatus(actor, m, suspend);
              db.Valid() && db.View() == Do(old(db.View()), call) && refusal == RefusalOf(old(db.View()), call)
    {
      hide SnapshotOf, Satisfies, WellFormed, ActiveOwners;
      DoWellFormed(db.View(), UpdateStatus(actor, m, suspend));
      var ok := permissions.AssertPermission(actor, MEMBER_MANAGE);
      if !ok { return Some(InsufficientPermissions); }
      if m !in db.members { return Some(MembershipNotFound); }
      MemberRow(db.View(), m);
      if db.members[m].userId == actor { return Some(SelfChange); }
      var isOwnerMembership := db.roles[db.members[m].roleId].key == OWNER;
      if isOwnerMembership && db.members[m].status == ActiveMember && suspend {
        var last := LastActiveOwner(db);
        if last { return Some(LastOwner); }
      }
      db.members := db.members[m := db.members[m].(status := NewStatus(suspend))];
      permissions.ClearMemo();
      return None;
    }

    /** The requested role, or the tenant's employee system role. */
    method ResolveTargetRole(wanted: Option<RoleId>) returns (r: Option<RoleId>)
      requires WellFormed(db.View())
      ensures r == TargetRole(db.View(), wanted)
    {
      if wanted.Some? {
        return if wanted.value in db.roles then wanted else None;
      }
      var todo := db.roles.Keys;
      while todo != {}
        invariant todo <= db.roles.Keys
        invariant forall s :: IsDefaultRole(db.View(), s) ==> s in todo
        decreases |todo|
      {
        var s :| s in todo;
        if IsDefaultRole(db.View(), s) {
          return Some(s);
        }
        todo := todo - {s};
      }
      return None;
    }

    /** Onboarding. The memo is not cleared afterwards, so it stays current exactly when it holds no
        snapshot of the new member that the new membership outdates. */
    method CreateMember(actor: UserId, email: string, wanted: Option<RoleId>) returns (refusal: Option<Refusal>)
      requires db.Valid() && permissions.db == db
      modifies db`users, db`members, db`nextId, db`memo
      ensures var call := Call.CreateMember(actor, email, wanted);
              && WellFormed(db.View()) && db.View() == Do(old(db.View()), call)
              && refusal == RefusalOf(old(db.View()), call)
      ensures refusal.Some? ==> db.Valid()
      ensures refusal.None? ==>
                var user := UserFor(old(db.View()), email);
                db.Valid() <==> (user in db.memo ==> SnapshotOf(db.View(), user) == NOTHING)
    {
      hide SnapshotOf, WellFormed, TargetRole, IsMember, Satisfies;
      DoWellFormed(db.View(), Call.CreateMember(actor, email, wanted));
      ghost var before := db.View();
      var ok := permissions.AssertPermission(actor, MEMBER_MANAGE);
      if !ok { return Some(InsufficientPermissions); }
      var r := ResolveTargetRole(wanted);
      if r.None? { return Some(if wanted.Some? then RoleNotFound else DefaultRoleNotFound); }
      if db.roles[r.value].key == OWNER {
        var held := permissions.GetPermissions(actor);
        if !held.isOwner { return Some(OwnerAssignment); }
      }
      var user := UserFor(db.View(), email);
      if user == actor { return Some(SelfChange); }
      var existing := FindMembership(user);
      if existing { return Some(AlreadyMember); }
      OnboardingLeavesOthers(before, email, r.value);
      assert db.View() == before && Do(before, Call.CreateMember(actor, email, wanted))
             == Onboarded(before, email, r.value);
      db.users := db.users[email := user];
      db.members := db.members[db.nextId + 1 := Membership(user, r.value, ActiveMember)];
      db.nextId := db.nextId + 2;
      return None;
    }

    method FindMembership(u: UserId) returns (found: bool)
      ensures found <==> IsMember(db.View(), u)
    {
      return exists m :: m in db.members && db.members[m].userId == u;
    }
  }

  // ---------- facts the methods use ----------

  lemma {:induction false} IdSetSnoc(ids: seq<PermissionId>, id: PermissionId)
    ensures IdSet(ids + [id]) == IdSet(ids) + {id}
  {
    var more := ids + [id];
    assert more[|ids|] == id && forall i :: 0 <= i < |ids| ==> more[i] == ids[i];
    forall p
      ensures p in IdSet(more) <==> p in IdSet(ids) || p == id
    {
      if p in IdSet(ids) {
        var i :| 0 <= i < |ids| && ids[i] == p;
        assert more[i] == p;
      }
    }
  }

  lemma {:induction false} NoDuplicatesSnoc(ids: seq<PermissionId>, id: PermissionId)
    ensures NoDuplicates(ids + [id]) <==> NoDuplicates(ids) && id !in IdSet(ids)
  {
    var more := ids + [id];
    assert more[|ids|] == id && forall i :: 0 <= i < |ids| ==> more[i] == ids[i];
    if id in IdSet(ids) {
      var i :| 0 <= i < |ids| && ids[i] == id;
      assert more[i] == more[|ids|];
    }
  }

  /** The deduplicated list is as long as the list exactly when nothing occurs twice. */
  lemma {:induction false} DuplicatesCount(ids: seq<PermissionId>)
    ensures |IdSet(ids)| <= |ids|
    ensures |IdSet(ids)| == |ids| <==> NoDuplicates(ids)
  {
    if ids == [] {
      assert IdSet(ids) == {};
    } else {
      var front, last := ids[..|ids| - 1], ids[|ids| - 1];
      DuplicatesCount(front);
      assert ids == front + [last];
      IdSetSnoc(front, last);
      NoDuplicatesSnoc(front, last);
      hide IdSet, NoDuplicates;
      assert last in IdSet(front) ==> IdSet(front) + {last} == IdSet(front);
    }
  }

  lemma {:induction false} FoundAll(catalog: map<PermissionId, PermissionKey>, ids: seq<PermissionId>)
    ensures (set p | p in IdSet(ids) && p in catalog) == IdSet(ids)
            <==> forall i :: 0 <= i < |ids| ==> ids[i] in catalog
  {
    assert forall i :: 0 <= i < |ids| ==> ids[i] in IdSet(ids);
  }

  /** Onboarding one user leaves every other user's effective permissions as they were. */
  lemma {:induction false} OnboardingLeavesOthers(d: Directory, email: string, r: RoleId)
    requires WellFormed(d) && r in d.roles && !IsMember(d, UserFor(d, email))
    ensures WellFormed(Onboarded(d, email, r))
    ensures forall u :: u != UserFor(d, email) ==> SnapshotOf(Onboarded(d, email, r), u) == SnapshotOf(d, u)
    ensures SnapshotOf(d, UserFor(d, email)) == NOTHING
  {
    OnboardWellFormed(d, email, r);
    var e := Onboarded(d, email, r);
    OnlyOneJoins(d, email, r);
    assert forall m :: m in d.members ==> m in e.members && e.members[m] == d.members[m] && e.roles == d.roles;
    hide WellFormed, Onboarded, UserFor;
    forall u | u != UserFor(d, email)
      ensures SnapshotOf(e, u) == SnapshotOf(d, u)
    {
      if IsMember(d, u) {
        var m := MembershipOf(d, u);
        SnapshotIs(d, m);
        SnapshotIs(e, m);
      }
    }
  }

  lemma {:induction false} OnlyOneJoins(d: Directory, email: string, r: RoleId)
    requires WellFormed(d) && r in d.roles
    ensures forall u :: u != UserFor(d, email) ==> (IsMember(Onboarded(d, email, r), u) <==> IsMember(d, u))
  {
    var e := Onboarded(d, email, r);
    forall u | u != UserFor(d, email)
      ensures IsMember(e, u) <==> IsMember(d, u)
    {
      assert forall m :: m in e.members && e.members[m].userId == u ==> m in d.members;
      assert forall m :: m in d.members ==> m in e.members && e.members[m] == d.members[m];
    }
  }
}
