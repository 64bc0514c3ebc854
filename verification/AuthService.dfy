/**
 The authentication service as an object (backend/internal/auth/service.go): a clock, the deny entries in
 Redis and the source of token ids. Its methods are the steps of `TokenRotation`.
 */
module AuthService {
  import opened Basics
  import opened TokenRotation

  datatype LoginResult = LoginResult(accessToken: JTI, refreshToken: JTI)

  /** The new pair has the family of the old token and full lifetimes, and is accepted; every other token is as before. */
  ghost predicate Exchanged(s: State, s': State, ttls: TTLs, jti: JTI, r: LoginResult) {
    && jti in s.issued && r.accessToken in s'.issued && r.refreshToken in s'.issued
    && r.accessToken !in s.issued && r.refreshToken !in s.issued
    && s'.issued[r.accessToken] == Claims(Access, s.now + ttls.access, s.issued[jti].family)
    && s'.issued[r.refreshToken] == Claims(Kind.Refresh, s.now + ttls.refresh, s.issued[jti].family)
    && (ttls.access > 0 ==> Accepts(s', r.accessToken, true)) && (ttls.refresh > 0 ==> Accepts(s', r.refreshToken, true))
    && forall j | j in s.issued && j != jti :: Accepts(s', j, true) == Accepts(s, j, true)
  }

  lemma ExchangeIsUsable(s: State, s': State, ttls: TTLs, jti: JTI, r: LoginResult, setOk: bool)
    requires DenyInv(s) && jti in s.issued && s.now < s.issued[jti].exp && s'.now == s.now
    requires r.accessToken !in s.issued && r.refreshToken !in s.issued && r.accessToken in s'.issued && r.refreshToken in s'.issued
    requires s'.issued[r.accessToken] == Claims(Access, s.now + ttls.access, s.issued[jti].family)
    requires s'.issued[r.refreshToken] == Claims(Kind.Refresh, s.now + ttls.refresh, s.issued[jti].family)
    requires forall j | j in s.issued :: j in s'.issued && s'.issued[j] == s.issued[j]
    requires s'.deny == if setOk then s.deny[jti := s.issued[jti].exp] else s.deny
    ensures Exchanged(s, s', ttls, jti, r) && (setOk ==> !Accepts(s', jti, true))
  {
  }

  class Service {
    const ttls: TTLs
    var now: nat
    var deny: map<JTI, nat>
    var issued: map<JTI, Claims>
    var nextID: JTI
    var families: nat
    ghost var revoked: set<JTI>
    ghost var redeemed: map<JTI, nat>
    ghost var refreshing: map<ThreadID, JTI>

    ghost function View(): State
      reads this
    {
      State(now, deny, issued, nextID, families, revoked, redeemed, refreshing)
    }

    ghost predicate Valid()
      reads this
    {
      DenyInv(View())
    }

    constructor (ttls: TTLs)
      ensures Valid() && View() == INITIAL && this.ttls == ttls
    {
      this.ttls := ttls;
      now, deny, issued, nextID, families := 0, map[], map[], 0, 0;
      revoked, redeemed, refreshing := {}, map[], map[];
    }

    /** `IssueTokenPair`: two tokens under ids never used before. */
    method IssueTokenPair(family: nat) returns (r: LoginResult)
      requires Valid() && family < families
      modifies this`issued, this`nextID
      ensures Valid() && View() == IssuePair(old(View()), ttls, family)
      ensures r.accessToken !in old(issued) && r.refreshToken !in old(issued) && r.accessToken != r.refreshToken
      ensures r.accessToken in issued && r.refreshToken in issued && forall j | j in old(issued) :: j in issued && issued[j] == old(issued)[j]
      ensures issued[r.accessToken] == Claims(Access, now + ttls.access, family)
      ensures issued[r.refreshToken] == Claims(Kind.Refresh, now + ttls.refresh, family)
    {
      IssueKeepsDeny(View(), Access, ttls.access, family);
      IssueKeepsDeny(Issue(View(), Access, ttls.access, family), Kind.Refresh, ttls.refresh, family);
      r := LoginResult(nextID, nextID + 1);
      issued := issued[nextID := Claims(Access, now + ttls.access, family)];
      issued := issued[nextID + 1 := Claims(Kind.Refresh, now + ttls.refresh, family)];
      nextID := nextID + 2;
    }

    /** The token part of `Login`: a pair of a new family. */
    method Login() returns (r: LoginResult)
      requires Valid()
      modifies this`issued, this`nextID, this`families
      ensures Valid() && View() == Next(ttls, old(View()), TokenRotation.Login)
      ensures r.accessToken in issued && issued[r.accessToken].kind == Access && issued[r.accessToken].exp == now + ttls.access
      ensures r.refreshToken in issued && issued[r.refreshToken].kind == Kind.Refresh && issued[r.refreshToken].exp == now + ttls.refresh
      ensures issued[r.accessToken].family == issued[r.refreshToken].family
      ensures forall j | j in old(issued) :: j in issued && issued[j].family != issued[r.refreshToken].family
    {
      families := families + 1;
      r := IssueTokenPair(families - 1);
    }

    method IsRevoked(jti: JTI, redisOk: bool) returns (r: bool)
      requires Valid()
      ensures r == TokenRotation.IsRevoked(View(), jti, redisOk)
      ensures jti in issued && now < issued[jti].exp && redisOk ==> (r <==> jti in revoked)
    {
      r := redisOk && jti in deny && now < deny[jti];
    }

    /** `RevokeClaims`: the deny entry expires exactly when the token does. */
    method RevokeClaims(jti: JTI, setOk: bool)
      requires Valid() && jti in issued
      modifies this`deny, this`revoked
      ensures Valid() && View() == Revoke(old(View()), jti, setOk)
      ensures deny == if setOk && now < issued[jti].exp then old(deny)[jti := issued[jti].exp] else old(deny)
    {
      RevokeKeepsDeny(View(), jti, setOk);
      if issued[jti].exp <= now { return; }
      var ttl := issued[jti].exp - now;
      if setOk {
        deny := deny[jti := now + ttl];
        revoked := revoked + {jti};
      }
    }

    /** The checks of `Refresh`: parsed, of the right type, not revoked, the user enabled. */
    method CheckRefresh(ghost t: ThreadID, jti: JTI, redisOk: bool, userOk: bool) returns (ok: bool)
      requires Valid() && t !in refreshing
      modifies this`refreshing
      ensures Valid() && View() == Next(ttls, old(View()), BeginRefresh(t, jti, redisOk, userOk))
      ensures ok <==> Accepts(View(), jti, redisOk) && issued[jti].kind == Kind.Refresh && userOk
      ensures ok ==> t in refreshing && refreshing[t] == jti
    {
      StepKeepsDeny(ttls, View(), BeginRefresh(t, jti, redisOk, userOk));
      ok := false;
      if jti !in issued || issued[jti].exp <= now { return; }
      if issued[jti].kind != Kind.Refresh { return; }
      var denied := IsRevoked(jti, redisOk);
      if denied || !userOk { return; }
      ok := true;
      refreshing := refreshing[t := jti];
    }

    /** A new pair of the token's family, then the token is denied. */
    method Exchange(jti: JTI, setOk: bool) returns (r: LoginResult)
      requires Valid() && jti in issued
      modifies this`issued, this`nextID, this`deny, this`revoked
      ensures Valid() && View() == Revoke(IssuePair(old(View()), ttls, old(issued)[jti].family), jti, setOk)
      ensures r.accessToken !in old(issued) && r.refreshToken !in old(issued) && r.accessToken in issued && r.refreshToken in issued
      ensures forall j | j in old(issued) :: j in issued && issued[j] == old(issued)[j]
      ensures issued[r.accessToken] == Claims(Access, now + ttls.access, issued[jti].family)
      ensures issued[r.refreshToken] == Claims(Kind.Refresh, now + ttls.refresh, issued[jti].family)
      ensures deny == if setOk && now < issued[jti].exp then old(deny)[jti := issued[jti].exp] else old(deny)
    {
      r := IssueTokenPair(issued[jti].family);
      RevokeClaims(jti, setOk);
    }

    /** The rotation of `Refresh`: a new pair of the same family, then the old token is denied. */
    method Rotate(ghost t: ThreadID, jti: JTI, setOk: bool) returns (r: LoginResult)
      requires Valid() && t in refreshing && refreshing[t] == jti
      modifies this`issued, this`nextID, this`deny, this`revoked, this`refreshing, this`redeemed
      ensures Valid() && View() == End(old(View()), ttls, t, setOk)
      ensures r.accessToken !in old(issued) && r.refreshToken !in old(issued) && r.accessToken in issued && r.refreshToken in issued
      ensures forall j | j in old(issued) :: j in issued && issued[j] == old(issued)[j]
      ensures issued[r.accessToken] == Claims(Access, now + ttls.access, issued[jti].family)
      ensures issued[r.refreshToken] == Claims(Kind.Refresh, now + ttls.refresh, issued[jti].family)
      ensures deny == if setOk && now < issued[jti].exp then old(deny)[jti := issued[jti].exp] else old(deny)
    {
      EndKeepsDeny(ttls, View(), t, setOk);
      r := Exchange(jti, setOk);
      redeemed := redeemed[jti := Redeemed(old(View()), jti) + 1];
      refreshing := refreshing - {t};
    }

    /** `Refresh` without interference: what it returns is usable, what it was given is not any more. */
    method Refresh(ghost t: ThreadID, jti: JTI, redisOk: bool, userOk: bool, setOk: bool) returns (r: Option<LoginResult>)
      requires Valid() && t !in refreshing
      modifies this
      ensures Valid() && View() == Next(ttls, Next(ttls, old(View()), BeginRefresh(t, jti, redisOk, userOk)), EndRefresh(t, setOk))
      ensures r.None? ==> View() == old(View())
      ensures r.Some? <==> old(Accepts(View(), jti, redisOk)) && old(issued)[jti].kind == Kind.Refresh && userOk
      ensures r.Some? ==> Exchanged(old(View()), View(), ttls, jti, r.value) && (setOk ==> !Accepts(View(), jti, true))
    {
      r := None;
      ghost var s := View();
      var ok := CheckRefresh(t, jti, redisOk, userOk);
      if !ok { return; }
      var pair := Rotate(t, jti, setOk);
      ExchangeIsUsable(s, View(), ttls, jti, pair, setOk);
      r := Some(pair);
    }

    /** `Logout`: the access token, and the refresh token if one is given and still parses as one. */
    method Logout(access: JTI, refreshToken: Option<JTI>, setAccessOk: bool, setRefreshOk: bool)
      requires Valid() && access in issued
      modifies this`deny, this`revoked
      ensures Valid() && View() == LogoutStep(old(View()), access, refreshToken, setAccessOk, setRefreshOk)
      ensures setAccessOk ==> !Accepts(View(), access, true)
      ensures refreshToken.Some? && refreshToken.value in issued && issued[refreshToken.value].kind == Kind.Refresh && setRefreshOk ==>
                !Accepts(View(), refreshToken.value, true)
      ensures forall j | j != access && (refreshToken != Some(j) || (j in issued && issued[j].kind == Access)) ::
                Accepts(View(), j, true) == Accepts(old(View()), j, true)
    {
      forall j ensures Accepts(LogoutStep(View(), access, refreshToken, setAccessOk, setRefreshOk), j, true) <==>
                Accepts(View(), j, true) && !Revokes(View(), TokenRotation.Logout(access, refreshToken, setAccessOk, setRefreshOk), j)
      {
        LogoutIsExact(View(), access, refreshToken, setAccessOk, setRefreshOk, j);
      }
      RevokeClaims(access, setAccessOk);
      if refreshToken.None? || refreshToken.value !in issued { return; }
      var rc := issued[refreshToken.value];
      if rc.exp <= now || rc.kind != Kind.Refresh { return; }
      RevokeClaims(refreshToken.value, setRefreshOk);
    }

    /** Time passing. */
    method Wait()
      requires Valid()
      modifies this`now
      ensures Valid() && View() == Next(ttls, old(View()), Tick)
    {
      now := now + 1;
    }
  }
}
