/** Refresh tokens under concurrent login, refresh and logout calls. Reads, the guarded revoke with
    its insert, and the other single statements are atomic steps; calls interleave at will. */
module Tokens {
  import opened Schema

  type Hash = string
  type WorkerId = nat

  /** Seven days in milliseconds. */
  const REFRESH_TOKEN_TTL_MS: int := 7 * 24 * 60 * 60 * 1000

  datatype User = User(active: bool, hasPassword: bool)
  datatype Token = Token(userId: UserId, expiresAt: Instant, revokedAt: Option<Instant>)

  /** Where a call stands. `asOf` is the clock reading taken before the transaction began. */
  datatype Pc =
    | Verified(userId: UserId)
    | Presented(hash: Hash, asOf: Instant)
    | Owned(hash: Hash, asOf: Instant, userId: UserId)
    | Validated(hash: Hash, asOf: Instant, userId: UserId)

  /** The rows and the running calls, with two records of the run: for every login the tokens that
      descend from it, oldest first, and the tokens that were rotated. */
  datatype State = State(users: map<UserId, User>, tokens: map<Hash, Token>, now: Instant, calls: map<WorkerId, Pc>,
                         chains: seq<seq<Hash>>, rotated: seq<Hash>)

  datatype Action =
    | SetUser(userId: UserId, user: User)
    | BeginLogin(w: WorkerId, userId: UserId, passwordValid: bool)
    | IssueFirst(w: WorkerId, minted: Hash)
    | BeginRefresh(w: WorkerId, hash: Hash)
    | ReadOwner(w: WorkerId)
    | ReadUser(w: WorkerId)
    | Rotate(w: WorkerId, minted: Hash)
    | Logout(hash: Hash)
    | Crash(w: WorkerId)
    | Tick(ms: nat)

  predicate IsActive(users: map<UserId, User>, userId: UserId) {
    userId in users && users[userId].active
  }

  predicate MayLogin(users: map<UserId, User>, userId: UserId, passwordValid: bool) {
    IsActive(users, userId) && users[userId].hasPassword && passwordValid
  }

  /** The where clause of the guarded revoke. */
  predicate Revocable(tokens: map<Hash, Token>, hash: Hash, asOf: Instant) {
    hash in tokens && tokens[hash].revokedAt.None? && tokens[hash].expiresAt > asOf
  }

  function FreshRow(userId: UserId, now: Instant): Token {
    Token(userId, now + REFRESH_TOKEN_TTL_MS, None)
  }

  function Revoked(tokens: map<Hash, Token>, hash: Hash, at: Instant): map<Hash, Token>
    requires hash in tokens
  {
    tokens[hash := tokens[hash].(revokedAt := Some(at))]
  }

  /** Revoke the presented token and insert its successor: both or, on a taken hash, neither. */
  predicate RotateOk(tokens: map<Hash, Token>, hash: Hash, asOf: Instant, minted: Hash) {
    Revocable(tokens, hash, asOf) && minted !in tokens
  }

  function Rotation(tokens: map<Hash, Token>, hash: Hash, asOf: Instant, userId: UserId, minted: Hash, now: Instant)
    : map<Hash, Token>
    requires hash in tokens
  {
    Revoked(tokens, hash, asOf)[minted := FreshRow(userId, now)]
  }

  /** logout: revoke unless unknown or already revoked. */
  function LoggedOut(tokens: map<Hash, Token>, hash: Hash, now: Instant): map<Hash, Token> {
    if hash in tokens && tokens[hash].revokedAt.None? then Revoked(tokens, hash, now) else tokens
  }

  /** The chain that ends in `hash` grows by its successor. */
  function Extended(chains: seq<seq<Hash>>, hash: Hash, minted: Hash): seq<seq<Hash>> {
    seq(|chains|, c requires 0 <= c < |chains| =>
      if chains[c] != [] && chains[c][|chains[c]| - 1] == hash then chains[c] + [minted] else chains[c])
  }

  function Drop(calls: map<WorkerId, Pc>, w: WorkerId): map<WorkerId, Pc> {
    map v | v in calls && v != w :: calls[v]
  }

  /** One atomic step; a step its call is not ready for does nothing. */
  function Act(s: State, a: Action): State {
    match a
    case SetUser(u, user) => s.(users := s.users[u := user])
    case BeginLogin(w, u, valid) =>
      if w !in s.calls && MayLogin(s.users, u, valid) then s.(calls := s.calls[w := Verified(u)]) else s
    case IssueFirst(w, minted) =>
      if w in s.calls && s.calls[w].Verified? then
        var s1 := s.(calls := Drop(s.calls, w));
        if minted in s.tokens then s1
        else s1.(tokens := s.tokens[minted := FreshRow(s.calls[w].userId, s.now)], chains := s.chains + [[minted]])
      else s
    case BeginRefresh(w, hash) =>
      if w !in s.calls then s.(calls := s.calls[w := Presented(hash, s.now)]) else s
    case ReadOwner(w) =>
      if w in s.calls && s.calls[w].Presented? then
        var pc := s.calls[w];
        if pc.hash in s.tokens then s.(calls := s.calls[w := Owned(pc.hash, pc.asOf, s.tokens[pc.hash].userId)])
        else s.(calls := Drop(s.calls, w))
      else s
    case ReadUser(w) =>
      if w in s.calls && s.calls[w].Owned? then
        var pc := s.calls[w];
        if IsActive(s.users, pc.userId) then s.(calls := s.calls[w := Validated(pc.hash, pc.asOf, pc.userId)])
        else s.(calls := Drop(s.calls, w))
      else s
    case Rotate(w, minted) =>
      if w in s.calls && s.calls[w].Validated? then
        var pc := s.calls[w];
        var s1 := s.(calls := Drop(s.calls, w));
        if RotateOk(s.tokens, pc.hash, pc.asOf, minted) then
          s1.(tokens := Rotation(s.tokens, pc.hash, pc.asOf, pc.userId, minted, s.now),
              chains := Extended(s.chains, pc.hash, minted), rotated := s.rotated + [pc.hash])
        else s1
      else s
    case Logout(hash) => s.(tokens := LoggedOut(s.tokens, hash, s.now))
    case Crash(w) => s.(calls := Drop(s.calls, w))
    case Tick(ms) => s.(now := s.now + ms)
  }

  function Exec(s: State, run: seq<Action>): State
    decreases |run|
  {
    if run == [] then s else Exec(Act(s, run[0]), run[1..])
  }

  /** No tokens issued and no call under way. */
  ghost predicate Init(s: State) {
    s.tokens == map[] && s.calls == map[] && s.chains == [] && s.rotated == []
  }

  // ---------- the invariant ----------

  /** `hash` is generation `i` of login `c`. */
  predicate At(chains: seq<seq<Hash>>, hash: Hash, c: int, i: int) {
    0 <= c < |chains| && 0 <= i < |chains[c]| && chains[c][i] == hash
  }

  /** Every token is exactly one generation of exactly one login. */
  ghost predicate ChainsPartition(tokens: map<Hash, Token>, chains: seq<seq<Hash>>) {
    && (forall c :: 0 <= c < |chains| ==> chains[c] != [])
    && (forall h :: h in tokens ==> exists c, i :: At(chains, h, c, i))
    && (forall h, c, i :: At(chains, h, c, i) ==> h in tokens)
    && (forall h, c, i, d, j :: At(chains, h, c, i) && At(chains, h, d, j) ==> c == d && i == j)
  }

  /** Only the youngest token of a login may be unrevoked, and a login keeps its user. */
  ghost predicate ChainsRotate(tokens: map<Hash, Token>, chains: seq<seq<Hash>>) {
    && (forall h, c, i :: At(chains, h, c, i) && h in tokens && i + 1 < |chains[c]| ==> tokens[h].revokedAt.Some?)
    && (forall h, k, c, i, j :: At(chains, h, c, i) && At(chains, k, c, j) && h in tokens && k in tokens
          ==> tokens[h].userId == tokens[k].userId)
  }

  ghost predicate RotatedOnce(tokens: map<Hash, Token>, rotated: seq<Hash>) {
    && (forall h :: h in rotated ==> h in tokens && tokens[h].revokedAt.Some?)
    && (forall i, j :: 0 <= i < j < |rotated| ==> rotated[i] != rotated[j])
  }

  predicate CallOk(s: State, w: WorkerId)
    requires w in s.calls
  {
    match s.calls[w]
    case Verified(_) => true
    case Presented(_, asOf) => asOf <= s.now
    case Owned(hash, asOf, u) => asOf <= s.now && hash in s.tokens && s.tokens[hash].userId == u
    case Validated(hash, asOf, u) => asOf <= s.now && hash in s.tokens && s.tokens[hash].userId == u
  }

  ghost predicate Inv(s: State) {
    && ChainsPartition(s.tokens, s.chains) && ChainsRotate(s.tokens, s.chains) && RotatedOnce(s.tokens, s.rotated)
    && (forall h :: h in s.tokens ==> s.tokens[h].expiresAt <= s.now + REFRESH_TOKEN_TTL_MS)
    && (forall w :: w in s.calls ==> CallOk(s, w))
  }

  /** Rows are never deleted; owner and expiry never change; a revocation is final; chains only grow. */
  ghost predicate Later(s: State, t: State) {
    && s.now <= t.now
    && (forall h :: h in s.tokens ==>
          && h in t.tokens && t.tokens[h].userId == s.tokens[h].userId && t.tokens[h].expiresAt == s.tokens[h].expiresAt
          && (s.tokens[h].revokedAt.Some? ==> t.tokens[h].revokedAt == s.tokens[h].revokedAt))
    && |s.chains| <= |t.chains|
    && (forall c :: 0 <= c < |s.chains| ==> s.chains[c] <= t.chains[c])
    && s.rotated <= t.rotated
  }

  // ---------- one step ----------

  /** Revoking tokens in place keeps the chains. */
  lemma {:induction false} RevokeKeepsChains(tokens: map<Hash, Token>, chains: seq<seq<Hash>>, rotated: seq<Hash>,
                                             hash: Hash, at: Instant)
    requires hash in tokens
    requires ChainsPartition(tokens, chains) && ChainsRotate(tokens, chains) && RotatedOnce(tokens, rotated)
    ensures var tokens' := Revoked(tokens, hash, at);
            ChainsPartition(tokens', chains) && ChainsRotate(tokens', chains) && RotatedOnce(tokens', rotated)
  {
  }

  /** Placing one new token in a free slot at the end keeps every token in exactly one slot. */
  lemma {:induction false} PlaceKeepsPartition(tokens: map<Hash, Token>, chains: seq<seq<Hash>>,
                                               tokens': map<Hash, Token>, chains': seq<seq<Hash>>, minted: Hash,
                                               c0: int, i0: int)
    requires ChainsPartition(tokens, chains) && minted !in tokens && tokens'.Keys == tokens.Keys + {minted}
    requires forall c :: 0 <= c < |chains'| ==> chains'[c] != []
    requires forall k, c, i :: At(chains', k, c, i) <==> At(chains, k, c, i) || (k == minted && c == c0 && i == i0)
    ensures ChainsPartition(tokens', chains')
  {
    hide At;
    assert At(chains', minted, c0, i0);
    forall k | k in tokens
      ensures exists c, i :: At(chains', k, c, i)
    {
      var c, i :| At(chains, k, c, i);
      assert At(chains', k, c, i);
    }
  }

  /** A first token starts a chain of its own. */
  lemma {:induction false} IssueKeepsChains(tokens: map<Hash, Token>, chains: seq<seq<Hash>>, minted: Hash, row: Token)
    requires minted !in tokens && row.revokedAt.None?
    requires ChainsPartition(tokens, chains) && ChainsRotate(tokens, chains)
    ensures ChainsPartition(tokens[minted := row], chains + [[minted]])
            && ChainsRotate(tokens[minted := row], chains + [[minted]])
  {
    var chains' := chains + [[minted]];
    forall k, c, i
      ensures At(chains', k, c, i) <==> At(chains, k, c, i) || (k == minted && c == |chains| && i == 0)
    {
    }
    PlaceKeepsPartition(tokens, chains, tokens[minted := row], chains', minted, |chains|, 0);
    forall k, h, c, i, j | At(chains', h, c, i) && At(chains', k, c, j)
      ensures (At(chains, h, c, i) && At(chains, k, c, j)) || h == k == minted
    {
    }
  }

  /** Only the youngest token of a chain is unrevoked, so only it can be rotated. */
  lemma {:induction false} UnrevokedIsYoungest(tokens: map<Hash, Token>, chains: seq<seq<Hash>>, h: Hash)
    returns (c: nat)
    requires ChainsPartition(tokens, chains) && ChainsRotate(tokens, chains)
    requires h in tokens && tokens[h].revokedAt.None?
    ensures c < |chains| && At(chains, h, c, |chains[c]| - 1)
    ensures forall d :: 0 <= d < |chains| ==> (chains[d][|chains[d]| - 1] == h <==> d == c)
  {
    var c', i :| At(chains, h, c', i);
    c := c';
    forall d | 0 <= d < |chains| && chains[d][|chains[d]| - 1] == h
      ensures d == c
    {
      assert At(chains, h, d, |chains[d]| - 1);
    }
  }

  lemma {:induction false} RotateExtends(tokens: map<Hash, Token>, chains: seq<seq<Hash>>, h: Hash, minted: Hash)
    returns (c: nat)
    requires ChainsPartition(tokens, chains) && ChainsRotate(tokens, chains)
    requires h in tokens && tokens[h].revokedAt.None?
    ensures c < |chains| && At(chains, h, c, |chains[c]| - 1)
    ensures Extended(chains, h, minted) == chains[c := chains[c] + [minted]]
  {
    c := UnrevokedIsYoungest(tokens, chains, h);
    hide At, ChainsPartition, ChainsRotate;
  }

  lemma {:induction false} AppendedAt(chains: seq<seq<Hash>>, c0: int, minted: Hash, k: Hash, c: int, i: int)
    requires 0 <= c0 < |chains|
    ensures At(chains[c0 := chains[c0] + [minted]], k, c, i)
            <==> At(chains, k, c, i) || (k == minted && c == c0 && i == |chains[c0]|)
  {
  }

  lemma {:induction false} RotateKeepsPartition(tokens: map<Hash, Token>, chains: seq<seq<Hash>>,
                                                tokens': map<Hash, Token>, minted: Hash, c0: int)
    requires ChainsPartition(tokens, chains) && minted !in tokens && tokens'.Keys == tokens.Keys + {minted}
    requires 0 <= c0 < |chains|
    ensures ChainsPartition(tokens', chains[c0 := chains[c0] + [minted]])
  {
    var chains' := chains[c0 := chains[c0] + [minted]];
    forall k, c, i {
      AppendedAt(chains, c0, minted, k, c, i);
    }
    assert forall c :: 0 <= c < |chains'| ==> chains'[c] != [];
    hide At, ChainsPartition;
    PlaceKeepsPartition(tokens, chains, tokens', chains', minted, c0, |chains[c0]|);
  }

  lemma {:induction false} RotateKeepsRotation(tokens: map<Hash, Token>, chains: seq<seq<Hash>>, h: Hash, asOf: Instant,
                                               minted: Hash, now: Instant, c0: int)
    requires RotateOk(tokens, h, asOf, minted)
    requires ChainsPartition(tokens, chains) && ChainsRotate(tokens, chains)
    requires 0 <= c0 < |chains| && At(chains, h, c0, |chains[c0]| - 1)
    ensures ChainsRotate(Rotation(tokens, h, asOf, tokens[h].userId, minted, now), chains[c0 := chains[c0] + [minted]])
  {
    var n, chains' := |chains[c0]|, chains[c0 := chains[c0] + [minted]];
    var tokens' := Rotation(tokens, h, asOf, tokens[h].userId, minted, now);
    forall k, c, i {
      AppendedAt(chains, c0, minted, k, c, i);
    }
    forall k, c, i | At(chains', k, c, i) && k in tokens' && i + 1 < |chains'[c]|
      ensures tokens'[k].revokedAt.Some?
    {
      if c == c0 && i == n - 1 {
        SameSlot(chains, c0, n - 1, k, h);
      } else {
        assert At(chains, k, c, i);
      }
    }
    SameOwnerAlong(tokens, chains, tokens', chains', h, minted, c0);
  }

  lemma {:induction false} SameOwnerAlong(tokens: map<Hash, Token>, chains: seq<seq<Hash>>, tokens': map<Hash, Token>,
                                          chains': seq<seq<Hash>>, h: Hash, minted: Hash, c0: int)
    requires ChainsPartition(tokens, chains) && ChainsRotate(tokens, chains)
    requires 0 <= c0 < |chains| && h in tokens && At(chains, h, c0, |chains[c0]| - 1) && minted !in tokens
    requires forall k, c, i ::
               At(chains', k, c, i) <==> At(chains, k, c, i) || (k == minted && c == c0 && i == |chains[c0]|)
    requires forall k :: k in tokens ==> k in tokens' && tokens'[k].userId == tokens[k].userId
    requires minted in tokens' && tokens'[minted].userId == tokens[h].userId
    ensures forall k, l, c, i, j :: At(chains', k, c, i) && At(chains', l, c, j) && k in tokens' && l in tokens'
                                    ==> tokens'[k].userId == tokens'[l].userId
  {
    hide At;
  }

  lemma {:induction false} RotateKeepsChains(tokens: map<Hash, Token>, chains: seq<seq<Hash>>, h: Hash, asOf: Instant,
                                             minted: Hash, now: Instant)
    requires RotateOk(tokens, h, asOf, minted)
    requires ChainsPartition(tokens, chains) && ChainsRotate(tokens, chains)
    ensures var tokens' := Rotation(tokens, h, asOf, tokens[h].userId, minted, now);
            ChainsPartition(tokens', Extended(chains, h, minted)) && ChainsRotate(tokens', Extended(chains, h, minted))
  {
    hide ChainsPartition, ChainsRotate, At;
    var c0 := RotateExtends(tokens, chains, h, minted);
    RotateKeepsPartition(tokens, chains, Rotation(tokens, h, asOf, tokens[h].userId, minted, now), minted, c0);
    RotateKeepsRotation(tokens, chains, h, asOf, minted, now, c0);
  }

  lemma {:induction false} SameSlot(chains: seq<seq<Hash>>, c: int, i: int, k: Hash, h: Hash)
    requires At(chains, k, c, i) && At(chains, h, c, i)
    ensures k == h
  {
  }

  lemma {:induction false} ActInv(s: State, a: Action)
    requires Inv(s)
    ensures Inv(Act(s, a))
  {
    hide ChainsPartition, ChainsRotate, Extended, Rotation, LoggedOut;
    match a
    case IssueFirst(w, minted) =>
      if w in s.calls && s.calls[w].Verified? && minted !in s.tokens {
        IssueKeepsChains(s.tokens, s.chains, minted, FreshRow(s.calls[w].userId, s.now));
      }
    case Rotate(w, minted) =>
      RotateInv(s, w, minted);
    case Logout(hash) =>
      LogoutInv(s, hash);
    case _ =>
  }

  lemma {:induction false} RotateInv(s: State, w: WorkerId, minted: Hash)
    requires Inv(s)
    ensures Inv(Act(s, Rotate(w, minted)))
  {
    hide ChainsPartition, ChainsRotate, Extended;
    if w in s.calls && s.calls[w].Validated? && RotateOk(s.tokens, s.calls[w].hash, s.calls[w].asOf, minted) {
      RotateKeepsChains(s.tokens, s.chains, s.calls[w].hash, s.calls[w].asOf, minted, s.now);
      assert CallOk(s, w);
    }
  }

  lemma {:induction false} LogoutInv(s: State, hash: Hash)
    requires Inv(s)
    ensures Inv(Act(s, Logout(hash)))
  {
    hide ChainsPartition, ChainsRotate;
    if hash in s.tokens {
      RevokeKeepsChains(s.tokens, s.chains, s.rotated, hash, s.now);
    }
  }

  lemma {:induction false} ActLater(s: State, a: Action)
    requires Inv(s)
    ensures Later(s, Act(s, a))
  {
    hide ChainsPartition, ChainsRotate;
  }

  lemma {:induction false} LaterTrans(r: State, s: State, t: State)
    requires Later(r, s) && Later(s, t)
    ensures Later(r, t)
  {
    forall c | 0 <= c < |r.chains|
      ensures r.chains[c] <= t.chains[c]
    {
      assert r.chains[c] <= s.chains[c] <= t.chains[c];
    }
  }

  lemma {:induction false} ExecKeeps(s: State, run: seq<Action>)
    requires Inv(s)
    ensures Inv(Exec(s, run)) && Later(s, Exec(s, run))
    decreases |run|
  {
    if run != [] {
      hide Inv, Later, Act;
      ActInv(s, run[0]);
      ActLater(s, run[0]);
      ExecKeeps(Act(s, run[0]), run[1..]);
      LaterTrans(s, Act(s, run[0]), Exec(s, run));
    }
  }

  lemma {:induction false} InitInv(s: State)
    requires Init(s)
    ensures Inv(s)
  {
  }

  // ---------- results over every interleaving ----------

  ghost predicate Reachable(s: State) {
    exists s0, run :: Init(s0) && s == Exec(s0, run)
  }

  lemma {:induction false} ReachableInv(s: State)
    requires Reachable(s)
    ensures Inv(s)
  {
    var s0, run :| Init(s0) && s == Exec(s0, run);
    InitInv(s0);
    ExecKeeps(s0, run);
  }

  /** The tokens that descend from one login form a chain in which at most the youngest is unrevoked;
      they all belong to one user, and none outlives its seven days. */
  lemma {:induction false} OneLiveTokenPerLogin(s: State, c: nat)
    requires Reachable(s) && c < |s.chains|
    ensures forall i :: 0 <= i < |s.chains[c]| ==>
              && s.chains[c][i] in s.tokens && s.chains[c][0] in s.tokens
              && (s.tokens[s.chains[c][i]].revokedAt.None? ==> i == |s.chains[c]| - 1)
              && s.tokens[s.chains[c][i]].userId == s.tokens[s.chains[c][0]].userId
              && s.tokens[s.chains[c][i]].expiresAt <= s.now + REFRESH_TOKEN_TTL_MS
  {
    ReachableInv(s);
    forall i | 0 <= i < |s.chains[c]|
      ensures s.chains[c][i] in s.tokens && s.chains[c][0] in s.tokens
      ensures s.tokens[s.chains[c][i]].revokedAt.None? ==> i == |s.chains[c]| - 1
      ensures s.tokens[s.chains[c][i]].userId == s.tokens[s.chains[c][0]].userId
    {
      assert At(s.chains, s.chains[c][i], c, i) && At(s.chains, s.chains[c][0], c, 0);
    }
  }

  /** Every token descends from exactly one login, at one place in its chain. */
  lemma {:induction false} OneLoginPerToken(s: State, h: Hash)
    requires Reachable(s) && h in s.tokens
    ensures exists c, i :: At(s.chains, h, c, i) && forall d, j :: At(s.chains, h, d, j) ==> d == c && j == i
  {
    ReachableInv(s);
    var c, i :| At(s.chains, h, c, i);
  }

  /** A revoked token stays revoked, with its moment, in every continuation of the run, and no
      continuation rotates it. */
  lemma {:induction false} RevokedForever(s: State, run: seq<Action>, h: Hash)
    requires Reachable(s) && h in s.tokens && s.tokens[h].revokedAt.Some?
    ensures h in Exec(s, run).tokens && Exec(s, run).tokens[h].revokedAt == s.tokens[h].revokedAt
    ensures forall i :: |s.rotated| <= i < |Exec(s, run).rotated| ==> Exec(s, run).rotated[i] != h
    decreases |run|
  {
    ReachableInv(s);
    ExecKeeps(s, run);
    NoLaterRotation(s, run, h);
  }

  lemma {:induction false} NoLaterRotation(s: State, run: seq<Action>, h: Hash)
    requires Inv(s) && h in s.tokens && s.tokens[h].revokedAt.Some?
    ensures s.rotated <= Exec(s, run).rotated
    ensures forall i :: |s.rotated| <= i < |Exec(s, run).rotated| ==> Exec(s, run).rotated[i] != h
    decreases |run|
  {
    hide Inv, Act;
    if run != [] {
      RotatesUnrevoked(s, run[0]);
      ActInv(s, run[0]);
      ActLater(s, run[0]);
      NoLaterRotation(Act(s, run[0]), run[1..], h);
    }
  }

  lemma {:induction false} RotatesUnrevoked(s: State, a: Action)
    requires Inv(s)
    ensures var t := Act(s, a);
            t.rotated == s.rotated
            || (|t.rotated| == |s.rotated| + 1 && t.rotated[|s.rotated|] in s.tokens
                && s.tokens[t.rotated[|s.rotated|]].revokedAt.None?)
  {
    hide Inv;
  }

  /** No token is rotated successfully twice in any run. */
  lemma {:induction false} RotatedAtMostOnce(s: State)
    requires Reachable(s)
    ensures forall i, j :: 0 <= i < j < |s.rotated| ==> s.rotated[i] != s.rotated[j]
  {
    ReachableInv(s);
  }

  /** Once the youngest token of a login is revoked, by logout say, the whole family is dead: no
      continuation mints another descendant or leaves one unrevoked. */
  lemma {:induction false} DeadFamilyStaysDead(s: State, run: seq<Action>, c: nat)
    requires Reachable(s) && c < |s.chains| && s.chains[c] != []
    requires s.chains[c][|s.chains[c]| - 1] in s.tokens && s.tokens[s.chains[c][|s.chains[c]| - 1]].revokedAt.Some?
    ensures c < |Exec(s, run).chains| && Exec(s, run).chains[c] == s.chains[c]
    ensures forall i :: 0 <= i < |s.chains[c]| ==>
              s.chains[c][i] in Exec(s, run).tokens && Exec(s, run).tokens[s.chains[c][i]].revokedAt.Some?
  {
    ReachableInv(s);
    DeadRun(s, run, c);
    OneLiveTokenPerLogin(s, c);
    ExecKeeps(s, run);
  }

  ghost predicate Dead(s: State, c: nat) {
    && c < |s.chains| && s.chains[c] != []
    && var h := s.chains[c][|s.chains[c]| - 1];
       h in s.tokens && s.tokens[h].revokedAt.Some?
  }

  lemma {:induction false} DeadRun(s: State, run: seq<Action>, c: nat)
    requires Inv(s) && Dead(s, c)
    ensures c < |Exec(s, run).chains| && Exec(s, run).chains[c] == s.chains[c]
    decreases |run|
  {
    if run != [] {
      DeadStep(s, run[0], c);
      ActInv(s, run[0]);
      hide Inv, Act, Dead;
      DeadRun(Act(s, run[0]), run[1..], c);
    }
  }

  lemma {:induction false} DeadStep(s: State, a: Action, c: nat)
    requires Inv(s) && Dead(s, c)
    ensures Dead(Act(s, a), c) && Act(s, a).chains[c] == s.chains[c]
  {
    hide ChainsPartition, ChainsRotate;
    ActLater(s, a);
  }

  // ---------- one call alone ----------

  /** Whether a refresh that nobody interferes with succeeds. */
  predicate RefreshOk(users: map<UserId, User>, tokens: map<Hash, Token>, hash: Hash, now: Instant, minted: Hash) {
    RotateOk(tokens, hash, now, minted) && IsActive(users, tokens[hash].userId)
  }

  /** The rows after a refresh that nobody interferes with. */
  function RefreshedTokens(users: map<UserId, User>, tokens: map<Hash, Token>, hash: Hash, now: Instant, minted: Hash)
    : map<Hash, Token>
  {
    if RefreshOk(users, tokens, hash, now, minted)
    then Rotation(tokens, hash, now, tokens[hash].userId, minted, now) else tokens
  }

  function Step4(s: State, w: WorkerId, hash: Hash, minted: Hash): State {
    Act(Act(Act(Act(s, BeginRefresh(w, hash)), ReadOwner(w)), ReadUser(w)), Rotate(w, minted))
  }

  /** `s` with one more call under way. */
  function With(s: State, w: WorkerId, pc: Pc): State { s.(calls := s.calls[w := pc]) }

  lemma {:induction false} DropAdded(s: State, w: WorkerId, pc: Pc)
    requires w !in s.calls
    ensures Drop(With(s, w, pc).calls, w) == s.calls
  {
  }

  lemma {:induction false} OwnerStep(s: State, w: WorkerId, hash: Hash)
    requires w !in s.calls
    ensures Act(With(s, w, Presented(hash, s.now)), ReadOwner(w))
            == if hash in s.tokens then With(s, w, Owned(hash, s.now, s.tokens[hash].userId)) else s
  {
    DropAdded(s, w, Presented(hash, s.now));
  }

  lemma {:induction false} UserStep(s: State, w: WorkerId, hash: Hash, u: UserId)
    requires w !in s.calls
    ensures Act(With(s, w, Owned(hash, s.now, u)), ReadUser(w))
            == if IsActive(s.users, u) then With(s, w, Validated(hash, s.now, u)) else s
  {
    DropAdded(s, w, Owned(hash, s.now, u));
  }

  lemma {:induction false} RotateStep(s: State, w: WorkerId, hash: Hash, u: UserId, minted: Hash)
    requires w !in s.calls
    ensures Act(With(s, w, Validated(hash, s.now, u)), Rotate(w, minted))
            == if RotateOk(s.tokens, hash, s.now, minted)
               then s.(tokens := Rotation(s.tokens, hash, s.now, u, minted, s.now),
                       chains := Extended(s.chains, hash, minted), rotated := s.rotated + [hash])
               else s
  {
    hide Rotation, Extended;
    DropAdded(s, w, Validated(hash, s.now, u));
  }

  lemma {:induction false} IdleSteps(s: State, w: WorkerId, minted: Hash)
    requires w !in s.calls
    ensures Act(s, ReadUser(w)) == s && Act(s, Rotate(w, minted)) == s
  {
  }

  lemma {:induction false} AloneSteps(s: State, w: WorkerId, hash: Hash, minted: Hash)
    requires w !in s.calls
    ensures var t, ok := Step4(s, w, hash, minted), RefreshOk(s.users, s.tokens, hash, s.now, minted);
            && t == s.(tokens := RefreshedTokens(s.users, s.tokens, hash, s.now, minted),
                       chains := if ok then Extended(s.chains, hash, minted) else s.chains,
                       rotated := if ok then s.rotated + [hash] else s.rotated)
  {
    assert Act(s, BeginRefresh(w, hash)) == With(s, w, Presented(hash, s.now));
    hide Act, With, Rotation, Extended;
    OwnerStep(s, w, hash);
    IdleSteps(s, w, minted);
    if hash in s.tokens {
      UserStep(s, w, hash, s.tokens[hash].userId);
      RotateStep(s, w, hash, s.tokens[hash].userId, minted);
    }
  }

  /** The four steps of a refresh run back to back are the atomic call. */
  lemma {:induction false} AloneIsRefresh(s: State, w: WorkerId, hash: Hash, minted: Hash)
    requires w !in s.calls
    ensures var t := Exec(s, [BeginRefresh(w, hash), ReadOwner(w), ReadUser(w), Rotate(w, minted)]);
            && t.tokens == RefreshedTokens(s.users, s.tokens, hash, s.now, minted)
            && t.rotated == (if RefreshOk(s.users, s.tokens, hash, s.now, minted) then s.rotated + [hash]
                             else s.rotated)
            && t.users == s.users && t.calls == s.calls && t.now == s.now
  {
    AloneSteps(s, w, hash, minted);
    hide Act, RefreshOk, RefreshedTokens, Extended;
    var tail2, tail3 := [ReadUser(w), Rotate(w, minted)], [Rotate(w, minted)];
    var s1 := Act(s, BeginRefresh(w, hash));
    var s2 := Act(s1, ReadOwner(w));
    var s3 := Act(s2, ReadUser(w));
    ExecCons(s, BeginRefresh(w, hash), [ReadOwner(w)] + tail2);
    ExecCons(s1, ReadOwner(w), tail2);
    ExecCons(s2, ReadUser(w), tail3);
    ExecCons(s3, Rotate(w, minted), []);
    assert [BeginRefresh(w, hash)] + ([ReadOwner(w)] + tail2)
           == [BeginRefresh(w, hash), ReadOwner(w), ReadUser(w), Rotate(w, minted)];
  }

  lemma {:induction false} ExecCons(s: State, a: Action, rest: seq<Action>)
    ensures Exec(s, [a] + rest) == Exec(Act(s, a), rest)
  {
    assert ([a] + rest)[1..] == rest;
  }

  // ---------- what each call needs and leaves ----------

  /** A login needs a known, active user with a password, and the right one; its token lives seven days. */
  lemma {:induction false} LoginNeeds(users: map<UserId, User>, u: UserId, valid: bool, now: Instant)
    ensures MayLogin(users, u, valid) <==> u in users && users[u].active && users[u].hasPassword && valid
    ensures FreshRow(u, now) == Token(u, now + 604800000, None)
  {
  }

  /** A refresh succeeds exactly for a known, unrevoked, unexpired token of an active user, when the new hash is not
      taken. It then leaves that token
      revoked and a new one of the same user that lives seven days; every other row stays, and all do otherwise. */
  lemma {:induction false} RefreshNeeds(users: map<UserId, User>, tokens: map<Hash, Token>, hash: Hash, now: Instant,
                                        minted: Hash)
    ensures var after := RefreshedTokens(users, tokens, hash, now, minted);
            var live := hash in tokens && tokens[hash].revokedAt.None? && now < tokens[hash].expiresAt
                        && tokens[hash].userId in users && users[tokens[hash].userId].active && minted !in tokens;
            && (RefreshOk(users, tokens, hash, now, minted) <==> live)
            && (!live ==> after == tokens)
            && (live ==>
                  && after.Keys == tokens.Keys + {minted}
                  && after[hash] == Token(tokens[hash].userId, tokens[hash].expiresAt, Some(now))
                  && after[minted] == Token(tokens[hash].userId, now + 604800000, None)
                  && forall h :: h in tokens && h != hash ==> after[h] == tokens[h])
  {
  }

  /** A logout leaves the token revoked and every other row as it was; an unknown token changes nothing. */
  lemma {:induction false} LogoutLeaves(tokens: map<Hash, Token>, hash: Hash, now: Instant)
    ensures var after := LoggedOut(tokens, hash, now);
            && after.Keys == tokens.Keys
            && (forall h :: h in tokens && h != hash ==> after[h] == tokens[h])
            && (hash in tokens ==>
                  after[hash] == tokens[hash].(revokedAt := if tokens[hash].revokedAt.Some? then tokens[hash].revokedAt
                                                            else Some(now)))
  {
  }
}
