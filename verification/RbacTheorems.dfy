/** What no sequence of administrative calls can achieve. */
module RbacTheorems {
  import opened Schema
  import opened Rbac

  // ---------- one call keeps the rows well formed ----------

  lemma {:induction false} PutRole(d: Directory, r: RoleId, role: Role, nextId: nat)
    requires WellFormed(d) && r < nextId && d.nextId <= nextId
    requires role.grants <= d.catalog.Keys && (role.key == OWNER ==> role.isSystem)
    requires forall s :: s in d.roles && s != r ==> d.roles[s].key != role.key
    ensures WellFormed(d.(roles := d.roles[r := role], nextId := nextId))
  {
  }

  lemma {:induction false} PutMember(d: Directory, m: MemberId, row: Membership, users: map<string, UserId>,
                                     nextId: nat)
    requires WellFormed(d) && m < nextId && d.nextId <= nextId && row.roleId in d.roles
    requires forall n :: n in d.members && n != m ==> d.members[n].userId != row.userId
    ensures WellFormed(d.(members := d.members[m := row], users := users, nextId := nextId))
  {
  }

  lemma {:induction false} DropRole(d: Directory, r: RoleId)
    requires WellFormed(d) && !HasMembers(d, r)
    ensures WellFormed(d.(roles := d.roles - {r}))
  {
  }

  lemma {:induction false} ResolvedInCatalog(d: Directory, ids: seq<PermissionId>)
    requires ResolveRefusal(d, ids).None?
    ensures IdSet(ids) <= d.catalog.Keys
  {
  }

  lemma {:induction false} DoWellFormed(d: Directory, call: Call)
    requires WellFormed(d)
    ensures WellFormed(Do(d, call))
  {
    hide WellFormed, Satisfies, Bounded, SnapshotOf, ActiveOwners, HasMembers, ResolveRefusal, IdSet, IsMember;
    if RefusalOf(d, call).None? {
      match call
      case CreateRole(_, key, ids) =>
        ResolvedInCatalog(d, ids);
        PutRole(d, d.nextId, Role(key, false, IdSet(ids)), d.nextId + 1);
      case DeleteRole(_, r) =>
        DropRole(d, r);
      case AssignPermissions(_, r, ids) =>
        ResolvedInCatalog(d, ids);
        RoleRow(d, r);
        PutRole(d, r, d.roles[r].(grants := IdSet(ids)), d.nextId);
      case AssignRole(_, m, r) =>
        MemberRow(d, m);
        PutMember(d, m, d.members[m].(roleId := r), d.users, d.nextId);
      case UpdateStatus(_, m, suspend) =>
        MemberRow(d, m);
        PutMember(d, m, d.members[m].(status := NewStatus(suspend)), d.users, d.nextId);
      case CreateMember(_, email, wanted) =>
        OnboardWellFormed(d, email, TargetRole(d, wanted).value);
    }
  }

  lemma {:induction false} RoleRow(d: Directory, r: RoleId)
    requires WellFormed(d) && r in d.roles
    ensures r < d.nextId && (d.roles[r].key == OWNER ==> d.roles[r].isSystem)
    ensures forall s :: s in d.roles && s != r ==> d.roles[s].key != d.roles[r].key
  {
  }

  lemma {:induction false} MemberRow(d: Directory, m: MemberId)
    requires WellFormed(d) && m in d.members
    ensures m < d.nextId && d.members[m].roleId in d.roles
    ensures forall n :: n in d.members && n != m ==> d.members[n].userId != d.members[m].userId
  {
  }

  lemma {:induction false} OnboardWellFormed(d: Directory, email: string, r: RoleId)
    requires WellFormed(d) && r in d.roles && !IsMember(d, UserFor(d, email))
    ensures WellFormed(Onboarded(d, email, r))
  {
    var user := UserFor(d, email);
    PutMember(d, d.nextId + 1, Membership(user, r, ActiveMember), d.users[email := user], d.nextId + 2);
  }

  // ---------- bounded grants ----------

  /** Every permission some role of the tenant grants. */
  function Granted(d: Directory): set<PermissionId> {
    set r, p | r in d.roles && p in d.roles[r].grants :: p
  }

  function OwnerHolders(d: Directory): set<MemberId> {
    set m | m in d.members && HoldsOwnerRole(d, m)
  }

  /** What a user effectively holds is granted by some role. */
  lemma {:induction false} HeldIsGranted(d: Directory, u: UserId, k: PermissionKey)
    requires WellFormed(d) && k in SnapshotOf(d, u).keys
    ensures exists p :: p in Granted(d) && p in d.catalog && d.catalog[p] == k
  {
    var m := MembershipOf(d, u);
    var r := d.members[m].roleId;
    var p :| p in d.roles[r].grants && p in d.catalog && d.catalog[p] == k;
    assert p in Granted(d);
  }

  /** Keys are unique in the catalogue, so an actor who is no owner grants only granted permissions. */
  lemma {:induction false} BoundedIsGranted(d: Directory, u: UserId, ids: seq<PermissionId>)
    requires WellFormed(d) && !SnapshotOf(d, u).isOwner
    requires Bounded(d, SnapshotOf(d, u), ids) && ResolveRefusal(d, ids).None?
    ensures IdSet(ids) <= Granted(d)
  {
    hide SnapshotOf;
    forall i | 0 <= i < |ids|
      ensures ids[i] in Granted(d)
    {
      assert ids[i] in d.catalog;
      HeldIsGranted(d, u, d.catalog[ids[i]]);
    }
  }

  lemma {:induction false} RegrantGranted(d: Directory, r: RoleId, role: Role)
    requires role.grants <= Granted(d)
    ensures Granted(d.(roles := d.roles[r := role])) <= Granted(d)
  {
  }

  /** No call by a non-owner widens the tenant's grants or the circle of owner memberships. */
  lemma {:induction false} NonOwnerIsConfined(d: Directory, call: Call)
    requires WellFormed(d) && !SnapshotOf(d, call.actor).isOwner
    ensures Granted(Do(d, call)) <= Granted(d)
    ensures OwnerHolders(Do(d, call)) <= OwnerHolders(d)
  {
    GrantsConfined(d, call);
    OwnersConfined(d, call);
  }

  lemma {:induction false} GrantsConfined(d: Directory, call: Call)
    requires WellFormed(d) && !SnapshotOf(d, call.actor).isOwner
    ensures Granted(Do(d, call)) <= Granted(d)
  {
    hide WellFormed, Satisfies, Bounded, SnapshotOf, ActiveOwners, HasMembers, ResolveRefusal, IdSet, IsMember, Granted;
    if RefusalOf(d, call).None? {
      match call
      case CreateRole(u, key, ids) =>
        BoundedIsGranted(d, u, ids);
        RegrantGranted(d, d.nextId, Role(key, false, IdSet(ids)));
        SameRoles(d.(roles := d.roles[d.nextId := Role(key, false, IdSet(ids))]), Do(d, call));
      case DeleteRole(_, r) =>
        FewerRoles(d, r);
      case AssignPermissions(u, r, ids) =>
        BoundedIsGranted(d, u, ids);
        RegrantGranted(d, r, d.roles[r].(grants := IdSet(ids)));
      case AssignRole(_, _, _) => SameRoles(d, Do(d, call));
      case UpdateStatus(_, _, _) => SameRoles(d, Do(d, call));
      case CreateMember(_, _, _) => SameRoles(d, Do(d, call));
    }
  }

  lemma {:induction false} SameRoles(d: Directory, e: Directory)
    requires d.roles == e.roles
    ensures Granted(d) == Granted(e)
  {
  }

  lemma {:induction false} FewerRoles(d: Directory, r: RoleId)
    ensures Granted(d.(roles := d.roles - {r})) <= Granted(d)
  {
  }

  lemma {:induction false} OwnersConfined(d: Directory, call: Call)
    requires WellFormed(d) && !SnapshotOf(d, call.actor).isOwner
    ensures OwnerHolders(Do(d, call)) <= OwnerHolders(d)
  {
    hide Satisfies, Bounded, SnapshotOf, ActiveOwners, ResolveRefusal, IdSet, IsMember;
  }

  // ---------- the last active owner, calls being atomic ----------

  /** An active owner other than `m`, when there are at least two. */
  lemma {:induction false} AnotherOwner(owners: set<MemberId>, m: MemberId) returns (n: MemberId)
    requires |owners| >= 2
    ensures n in owners && n != m
  {
    assert owners - {m} != {} by {
      if owners - {m} == {} {
        assert owners <= {m};
        SmallSet(owners, m);
        assert false;
      }
    }
    n :| n in owners - {m};
  }

  lemma {:induction false} SmallSet(owners: set<MemberId>, m: MemberId)
    requires owners <= {m}
    ensures |owners| <= 1
  {
    if m in owners {
      assert owners == {m};
    } else {
      assert owners == {};
    }
  }

  /** A tenant with an active owner keeps one after any call. */
  lemma {:induction false} KeepsAnActiveOwner(d: Directory, call: Call)
    requires WellFormed(d) && ActiveOwners(d) != {}
    ensures ActiveOwners(Do(d, call)) != {}
  {
    var o :| o in ActiveOwners(d);
    var n := o;
    if (call.AssignRole? || call.UpdateStatus?) && |ActiveOwners(d)| >= 2 {
      n := AnotherOwner(ActiveOwners(d), call.memberId);
    }
    StaysActiveOwner(d, call, n);
  }

  lemma {:induction false} StaysActiveOwner(d: Directory, call: Call, n: MemberId)
    requires WellFormed(d) && n in ActiveOwners(d)
    requires (call.AssignRole? || call.UpdateStatus?) && n == call.memberId ==> |ActiveOwners(d)| <= 1
    ensures n in ActiveOwners(Do(d, call))
  {
    hide Satisfies, Bounded, SnapshotOf, ResolveRefusal, IdSet, IsMember, TargetRole;
  }

  /** Nobody changes their own membership. */
  lemma {:induction false} OwnMembershipUntouched(d: Directory, call: Call, m: MemberId)
    requires WellFormed(d) && m in d.members && d.members[m].userId == call.actor
    ensures m in Do(d, call).members && Do(d, call).members[m] == d.members[m]
  {
    hide Satisfies, Bounded, SnapshotOf, ResolveRefusal, IdSet, IsMember, ActiveOwners, TargetRole;
  }

  // ---------- whole runs ----------

  ghost function Run(d: Directory, calls: seq<Call>): Directory
    requires WellFormed(d)
    decreases |calls|
  {
    if calls == [] then d
    else
      assert WellFormed(Do(d, calls[0])) by { DoWellFormed(d, calls[0]); }
      Run(Do(d, calls[0]), calls[1..])
  }

  /** At the moment of each of its calls, no actor is an active owner. */
  ghost predicate NoOwnerActs(d: Directory, calls: seq<Call>)
    requires WellFormed(d)
    decreases |calls|
  {
    calls == []
    || (!SnapshotOf(d, calls[0].actor).isOwner
        && (assert WellFormed(Do(d, calls[0])) by { DoWellFormed(d, calls[0]); }
            NoOwnerActs(Do(d, calls[0]), calls[1..])))
  }

  lemma {:induction false} RunWellFormed(d: Directory, calls: seq<Call>)
    requires WellFormed(d)
    ensures WellFormed(Run(d, calls))
    decreases |calls|
  {
    hide WellFormed, Do;
    if calls != [] {
      DoWellFormed(d, calls[0]);
      RunWellFormed(Do(d, calls[0]), calls[1..]);
    }
  }

  /** Grant closure: while no owner acts, the union of all roles' permissions never grows and no
      membership comes to hold the owner role. */
  lemma {:induction false} GrantClosure(d: Directory, calls: seq<Call>)
    requires WellFormed(d) && NoOwnerActs(d, calls)
    ensures Granted(Run(d, calls)) <= Granted(d)
    ensures OwnerHolders(Run(d, calls)) <= OwnerHolders(d)
    decreases |calls|
  {
    hide WellFormed, Do, Granted, OwnerHolders, SnapshotOf;
    if calls != [] {
      DoWellFormed(d, calls[0]);
      NonOwnerIsConfined(d, calls[0]);
      GrantClosure(Do(d, calls[0]), calls[1..]);
    }
  }

  lemma {:induction false} CatalogFixed(d: Directory, calls: seq<Call>)
    requires WellFormed(d)
    ensures Run(d, calls).catalog == d.catalog
    decreases |calls|
  {
    if calls != [] {
      DoWellFormed(d, calls[0]);
      CatalogFixed(Do(d, calls[0]), calls[1..]);
    }
  }

  /** No escalation: after any such run every user's effective permissions lie within what the tenant's
      roles granted at the start, and whoever has owner power held the owner role at the start. */
  lemma {:induction false} NoEscalation(d: Directory, calls: seq<Call>, u: UserId)
    requires WellFormed(d) && NoOwnerActs(d, calls)
    ensures WellFormed(Run(d, calls))
    ensures forall k :: k in SnapshotOf(Run(d, calls), u).keys ==>
              exists p :: p in Granted(d) && p in d.catalog && d.catalog[p] == k
    ensures SnapshotOf(Run(d, calls), u).isOwner ==>
              IsMember(Run(d, calls), u) && MembershipOf(Run(d, calls), u) in OwnerHolders(d)
  {
    RunWellFormed(d, calls);
    GrantClosure(d, calls);
    CatalogFixed(d, calls);
    hide Run, NoOwnerActs, Granted;
    var e := Run(d, calls);
    forall k | k in SnapshotOf(e, u).keys
      ensures exists p :: p in Granted(d) && p in d.catalog && d.catalog[p] == k
    {
      HeldIsGranted(e, u, k);
    }
  }

  /** A tenant with an active owner has one after every run, whoever acts. */
  lemma {:induction false} AlwaysAnActiveOwner(d: Directory, calls: seq<Call>)
    requires WellFormed(d) && ActiveOwners(d) != {}
    ensures ActiveOwners(Run(d, calls)) != {}
    decreases |calls|
  {
    hide WellFormed, Do, ActiveOwners;
    if calls != [] {
      DoWellFormed(d, calls[0]);
      KeepsAnActiveOwner(d, calls[0]);
      AlwaysAnActiveOwner(Do(d, calls[0]), calls[1..]);
    }
  }
}
