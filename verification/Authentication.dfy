/** AuthService over its user and token rows, changed in place. */
module Authentication {
  import opened Schema
  import opened Tokens

  class AuthService {
    var users: map<UserId, User>
    var tokens: map<Hash, Token>

    /** Conditional revoke; the count is whether a row matched. */
    method UpdateManyRevoke(hash: Hash, mustOutlive: Option<Instant>, at: Instant) returns (count: nat)
      modifies `tokens
      ensures var hit := hash in old(tokens) && old(tokens)[hash].revokedAt.None?
                         && (mustOutlive.Some? ==> old(tokens)[hash].expiresAt > mustOutlive.value);
              && count == (if hit then 1 else 0)
              && tokens == if hit then Revoked(old(tokens), hash, at) else old(tokens)
    {
      if hash in tokens && tokens[hash].revokedAt.None?
         && (mustOutlive.None? || tokens[hash].expiresAt > mustOutlive.value) {
        tokens := tokens[hash := tokens[hash].(revokedAt := Some(at))];
        return 1;
      }
      return 0;
    }

    method Login(userId: UserId, passwordValid: bool, minted: Hash, now: Instant) returns (ok: bool)
      modifies `tokens
      ensures ok <==> MayLogin(users, userId, passwordValid) && minted !in old(tokens)
      ensures tokens == if ok then old(tokens)[minted := FreshRow(userId, now)] else old(tokens)
    {
      if userId !in users || !users[userId].active || !users[userId].hasPassword { return false; }
      if !passwordValid { return false; }
      if minted in tokens { return false; }
      tokens := tokens[minted := Token(userId, now + REFRESH_TOKEN_TTL_MS, None)];
      return true;
    }

    /** The rotation transaction; a throw after the revoke rolls it back. */
    method Refresh(hash: Hash, minted: Hash, now: Instant) returns (ok: bool)
      modifies `tokens
      ensures ok <==> RefreshOk(users, old(tokens), hash, now, minted)
      ensures tokens == RefreshedTokens(users, old(tokens), hash, now, minted)
    {
      var snapshot := tokens;
      if hash !in tokens { return false; }
      var userId := tokens[hash].userId;
      if userId !in users || !users[userId].active { return false; }
      var count := UpdateManyRevoke(hash, Some(now), now);
      if count == 0 { return false; }
      if minted in tokens {
        tokens := snapshot;
        return false;
      }
      tokens := tokens[minted := Token(userId, now + REFRESH_TOKEN_TTL_MS, None)];
      return true;
    }

    /** Silent success whether or not the token exists. */
    method LogOut(hash: Hash, now: Instant)
      modifies `tokens
      ensures tokens == LoggedOut(old(tokens), hash, now)
    {
      var _ := UpdateManyRevoke(hash, None, now);
    }
  }
}
