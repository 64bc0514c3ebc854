/**
 Tokens, their rotation and the deny list (backend/internal/auth/service.go, backend/internal/auth/jwt.go)
 on a discrete clock. A token is named by its `jti` (section 4.1.7 of RFC 7519) and is valid before its `exp`
 (section 4.1.4 of RFC 7519); signatures are abstract. The tokens descending from one login are a family.
 A refresh is two steps, the checks and then the rotation, so refreshes of one token may overlap.
 */
module TokenRotation {
  import opened Basics

  type JTI = nat
  type ThreadID = nat

  datatype Kind = Access | Refresh

  datatype Claims = Claims(kind: Kind, exp: nat, family: nat)

  datatype TTLs = TTLs(access: nat, refresh: nat)

  /** `issued`, `families`, `revoked`, `redeemed` are history; `deny` maps a jti to the time its entry expires. */
  datatype State = State(
    now: nat,
    deny: map<JTI, nat>,
    issued: map<JTI, Claims>,
    nextID: JTI,
    families: nat,
    revoked: set<JTI>,
    redeemed: map<JTI, nat>,
    refreshing: map<ThreadID, JTI>)

  const INITIAL := State(0, map[], map[], 0, 0, {}, map[], map[])

  datatype Event =
    | Tick
    | Login
    | BeginRefresh(t: ThreadID, jti: JTI, redisOk: bool, userOk: bool)
    | EndRefresh(t: ThreadID, setOk: bool)
    | Logout(access: JTI, refresh: Option<JTI>, setAccessOk: bool, setRefreshOk: bool)

  /** `ParseToken`: an issued token before its expiry. */
  predicate Parses(s: State, jti: JTI) { jti in s.issued && s.now < s.issued[jti].exp }

  /** `IsRevoked`: a failed Redis read counts as not revoked. */
  predicate IsRevoked(s: State, jti: JTI, redisOk: bool) { redisOk && jti in s.deny && s.now < s.deny[jti] }

  /** What the middleware and `Refresh` accept. */
  predicate Accepts(s: State, jti: JTI, redisOk: bool) { Parses(s, jti) && !IsRevoked(s, jti, redisOk) }

  function Issue(s: State, kind: Kind, ttl: nat, family: nat): State {
    s.(issued := s.issued[s.nextID := Claims(kind, s.now + ttl, family)], nextID := s.nextID + 1)
  }

  /** An access token and a refresh token of one family. */
  function IssuePair(s: State, ttls: TTLs, family: nat): State {
    Issue(Issue(s, Access, ttls.access, family), Refresh, ttls.refresh, family)
  }

  /** `RevokeClaims`: an entry for the remaining lifetime; nothing for a token already expired. */
  function Revoke(s: State, jti: JTI, setOk: bool): State {
    if jti !in s.issued || s.issued[jti].exp <= s.now || !setOk then s
    else s.(deny := s.deny[jti := s.now + (s.issued[jti].exp - s.now)], revoked := s.revoked + {jti})
  }

  function Redeemed(s: State, jti: JTI): nat {
    if jti in s.redeemed then s.redeemed[jti] else 0
  }

  function End(s: State, ttls: TTLs, t: ThreadID, setOk: bool): State {
    if t !in s.refreshing || s.refreshing[t] !in s.issued then s
    else
      var jti := s.refreshing[t];
      Revoke(IssuePair(s, ttls, s.issued[jti].family), jti, setOk)
      .(refreshing := s.refreshing - {t}, redeemed := s.redeemed[jti := Redeemed(s, jti) + 1])
  }

  function LogoutStep(s: State, access: JTI, refresh: Option<JTI>, setAccessOk: bool, setRefreshOk: bool): State {
    var s1 := Revoke(s, access, setAccessOk);
    if refresh.Some? && Parses(s, refresh.value) && s.issued[refresh.value].kind == Refresh then Revoke(s1, refresh.value, setRefreshOk)
    else s1
  }

  function Next(ttls: TTLs, s: State, e: Event): State {
    match e
    case Tick => s.(now := s.now + 1)
    case Login => IssuePair(s, ttls, s.families).(families := s.families + 1)
    case BeginRefresh(t, jti, redisOk, userOk) =>
      if t !in s.refreshing && Accepts(s, jti, redisOk) && s.issued[jti].kind == Refresh && userOk
      then s.(refreshing := s.refreshing[t := jti]) else s
    case EndRefresh(t, setOk) => End(s, ttls, t, setOk)
    case Logout(access, refresh, setAccessOk, setRefreshOk) => LogoutStep(s, access, refresh, setAccessOk, setRefreshOk)
  }

  function Run(ttls: TTLs, events: seq<Event>): State {
    if events == [] then INITIAL else Next(ttls, Run(ttls, events[..|events| - 1]), events[|events| - 1])
  }

  // ---- the deny list, on every run ----

  ghost predicate DenyInv(s: State) {
    && (forall jti | jti in s.issued :: jti < s.nextID && s.issued[jti].family < s.families)
    && s.deny.Keys == s.revoked
    && (forall jti | jti in s.deny :: jti in s.issued && s.deny[jti] == s.issued[jti].exp)
    && (forall t | t in s.refreshing :: s.refreshing[t] in s.issued && s.issued[s.refreshing[t]].kind == Refresh)
  }

  lemma IssueKeepsDeny(s: State, kind: Kind, ttl: nat, family: nat)
    requires DenyInv(s) && family < s.families
    ensures DenyInv(Issue(s, kind, ttl, family))
  {
  }

  lemma RevokeKeepsDeny(s: State, jti: JTI, setOk: bool)
    requires DenyInv(s)
    ensures DenyInv(Revoke(s, jti, setOk)) && s.revoked <= Revoke(s, jti, setOk).revoked
  {
  }

  lemma EndKeepsDeny(ttls: TTLs, s: State, t: ThreadID, setOk: bool)
    requires DenyInv(s)
    ensures DenyInv(End(s, ttls, t, setOk)) && s.revoked <= End(s, ttls, t, setOk).revoked
  {
    if t in s.refreshing {
      var jti := s.refreshing[t];
      var family := s.issued[jti].family;
      IssueKeepsDeny(s, Access, ttls.access, family);
      IssueKeepsDeny(Issue(s, Access, ttls.access, family), Refresh, ttls.refresh, family);
      RevokeKeepsDeny(IssuePair(s, ttls, family), jti, setOk);
    }
  }

  lemma LoginKeepsDeny(ttls: TTLs, s: State)
    requires DenyInv(s)
    ensures DenyInv(Next(ttls, s, Login)) && Next(ttls, s, Login).revoked == s.revoked
  {
    var s1 := s.(families := s.families + 1);
    IssueKeepsDeny(s1, Access, ttls.access, s.families);
    IssueKeepsDeny(Issue(s1, Access, ttls.access, s.families), Refresh, ttls.refresh, s.families);
    assert Next(ttls, s, Login) == IssuePair(s1, ttls, s.families);
  }

  lemma StepKeepsDeny(ttls: TTLs, s: State, e: Event)
    requires DenyInv(s)
    ensures DenyInv(Next(ttls, s, e))
    ensures s.revoked <= Next(ttls, s, e).revoked
  {
    match e
    case Tick =>
    case Login => LoginKeepsDeny(ttls, s);
    case BeginRefresh(_, _, _, _) =>
    case EndRefresh(t, setOk) => EndKeepsDeny(ttls, s, t, setOk);
    case Logout(access, refresh, setAccessOk, setRefreshOk) =>
      RevokeKeepsDeny(s, access, setAccessOk);
      if refresh.Some? { RevokeKeepsDeny(Revoke(s, access, setAccessOk), refresh.value, setRefreshOk); }
  }

  lemma {:induction false} RunKeepsDeny(ttls: TTLs, events: seq<Event>)
    ensures DenyInv(Run(ttls, events))
  {
    if events != [] {
      RunKeepsDeny(ttls, events[..|events| - 1]);
      StepKeepsDeny(ttls, Run(ttls, events[..|events| - 1]), events[|events| - 1]);
    }
  }

  /**
   The event revokes the token: a logout of it, or one that is handed it as its refresh token, or the end of a
   refresh with it, while it has not expired and if the write to Redis succeeds.
   */
  predicate Revokes(s: State, e: Event, jti: JTI) {
    Parses(s, jti) &&
    match e
    case Logout(access, refresh, setAccessOk, setRefreshOk) =>
      (jti == access && setAccessOk) || (refresh == Some(jti) && s.issued[jti].kind == Refresh && setRefreshOk)
    case EndRefresh(t, setOk) => setOk && t in s.refreshing && s.refreshing[t] == jti
    case _ => false
  }

  ghost predicate RevokedBy(ttls: TTLs, events: seq<Event>, jti: JTI) {
    exists n :: 0 <= n < |events| && Revokes(Run(ttls, events[..n]), events[n], jti)
  }

  lemma LogoutRevokes(s: State, access: JTI, refresh: Option<JTI>, setAccessOk: bool, setRefreshOk: bool, jti: JTI)
    ensures jti in LogoutStep(s, access, refresh, setAccessOk, setRefreshOk).revoked <==>
            jti in s.revoked || Revokes(s, Logout(access, refresh, setAccessOk, setRefreshOk), jti)
  {
  }

  lemma EndRevokes(ttls: TTLs, s: State, t: ThreadID, setOk: bool, jti: JTI)
    requires DenyInv(s)
    ensures jti in End(s, ttls, t, setOk).revoked <==> jti in s.revoked || Revokes(s, EndRefresh(t, setOk), jti)
  {
  }

  lemma StepRevokes(ttls: TTLs, s: State, e: Event, jti: JTI)
    requires DenyInv(s)
    ensures jti in Next(ttls, s, e).revoked <==> jti in s.revoked || Revokes(s, e, jti)
  {
    match e
    case EndRefresh(t, setOk) => EndRevokes(ttls, s, t, setOk, jti);
    case Logout(access, refresh, setAccessOk, setRefreshOk) => LogoutRevokes(s, access, refresh, setAccessOk, setRefreshOk, jti);
    case _ =>
  }

  lemma RevokedByOneMore(ttls: TTLs, events: seq<Event>, jti: JTI)
    requires events != []
    ensures var before, e := events[..|events| - 1], events[|events| - 1];
            RevokedBy(ttls, events, jti) <==> RevokedBy(ttls, before, jti) || Revokes(Run(ttls, before), e, jti)
  {
    var before := events[..|events| - 1];
    assert forall n | 0 <= n < |before| :: before[..n] == events[..n] && before[n] == events[n];
  }

  lemma {:induction false} RevokedIsExact(ttls: TTLs, events: seq<Event>, jti: JTI)
    ensures jti in Run(ttls, events).revoked <==> RevokedBy(ttls, events, jti)
  {
    if events != [] {
      var before := events[..|events| - 1];
      RevokedIsExact(ttls, before, jti);
      RunKeepsDeny(ttls, before);
      StepRevokes(ttls, Run(ttls, before), events[|events| - 1], jti);
      RevokedByOneMore(ttls, events, jti);
    }
  }

  /** A check whose Redis read works accepts exactly the issued, unexpired tokens that no step has revoked. */
  lemma AcceptsExactlyTheLive(ttls: TTLs, events: seq<Event>, jti: JTI)
    ensures var s := Run(ttls, events);
            Accepts(s, jti, true) <==> jti in s.issued && s.now < s.issued[jti].exp && !RevokedBy(ttls, events, jti)
  {
    RunKeepsDeny(ttls, events);
    RevokedIsExact(ttls, events, jti);
  }

  /** So a token once revoked is never accepted again: its entry lives as long as the token. */
  lemma RevokedForEver(ttls: TTLs, earlier: seq<Event>, later: seq<Event>, jti: JTI)
    requires RevokedBy(ttls, earlier, jti)
    ensures RevokedBy(ttls, earlier + later, jti) && !Accepts(Run(ttls, earlier + later), jti, true)
  {
    var n :| 0 <= n < |earlier| && Revokes(Run(ttls, earlier[..n]), earlier[n], jti);
    assert (earlier + later)[..n] == earlier[..n] && (earlier + later)[n] == earlier[n];
    AcceptsExactlyTheLive(ttls, earlier + later, jti);
  }

  /** A token keeps its claims, and time goes on. */
  predicate KeepsClaims(s: State, s': State) {
    s.now <= s'.now && forall j | j in s.issued :: j in s'.issued && s'.issued[j] == s.issued[j]
  }

  lemma EndKeepsClaims(ttls: TTLs, s: State, t: ThreadID, setOk: bool)
    requires DenyInv(s)
    ensures KeepsClaims(s, End(s, ttls, t, setOk))
  {
  }

  lemma StepKeepsClaims(ttls: TTLs, s: State, e: Event)
    requires DenyInv(s)
    ensures KeepsClaims(s, Next(ttls, s, e))
  {
    match e
    case EndRefresh(t, setOk) => EndKeepsClaims(ttls, s, t, setOk);
    case _ =>
  }

  lemma {:induction false} RunKeepsClaims(ttls: TTLs, earlier: seq<Event>, later: seq<Event>)
    ensures KeepsClaims(Run(ttls, earlier), Run(ttls, earlier + later))
  {
    if later == [] {
      assert earlier + later == earlier;
    } else {
      var all, before := earlier + later, earlier + later[..|later| - 1];
      assert all[..|all| - 1] == before;
      RunKeepsClaims(ttls, earlier, later[..|later| - 1]);
      RunKeepsDeny(ttls, before);
      StepKeepsClaims(ttls, Run(ttls, before), all[|all| - 1]);
    }
  }

  /**
   A logout ends both tokens for good: if its writes to Redis succeed, no later state accepts the access token, nor
   the refresh token that came with it.
   */
  lemma LogoutEndsBoth(ttls: TTLs, earlier: seq<Event>, access: JTI, refresh: JTI, later: seq<Event>)
    requires var s := Run(ttls, earlier); access in s.issued && refresh in s.issued && s.issued[refresh].kind == Refresh
    ensures var s' := Run(ttls, earlier + [Logout(access, Some(refresh), true, true)] + later);
            !Accepts(s', access, true) && !Accepts(s', refresh, true)
  {
    LoggedOutIsRefused(ttls, earlier, Logout(access, Some(refresh), true, true), access, later);
    LoggedOutIsRefused(ttls, earlier, Logout(access, Some(refresh), true, true), refresh, later);
  }

  lemma LoggedOutIsRefused(ttls: TTLs, earlier: seq<Event>, e: Event, jti: JTI, later: seq<Event>)
    requires jti in Run(ttls, earlier).issued && (Parses(Run(ttls, earlier), jti) ==> Revokes(Run(ttls, earlier), e, jti))
    ensures !Accepts(Run(ttls, earlier + [e] + later), jti, true)
  {
    if Parses(Run(ttls, earlier), jti) {
      var all := earlier + [e];
      assert all[..|earlier|] == earlier && all[|earlier|] == e;
      assert RevokedBy(ttls, all, jti);
      RevokedForEver(ttls, all, later, jti);
    } else {
      assert earlier + [e] + later == earlier + ([e] + later);
      RunKeepsClaims(ttls, earlier, [e] + later);
    }
  }

  /** What a logout changes: exactly the tokens it revokes are not accepted any more, and no other token is touched. */
  lemma LogoutIsExact(s: State, access: JTI, refresh: Option<JTI>, setAccessOk: bool, setRefreshOk: bool, jti: JTI)
    requires DenyInv(s)
    ensures var s' := LogoutStep(s, access, refresh, setAccessOk, setRefreshOk);
            Accepts(s', jti, true) <==> Accepts(s, jti, true) && !Revokes(s, Logout(access, refresh, setAccessOk, setRefreshOk), jti)
  {
  }

  // ---- rotation, while no two refreshes of one token overlap ----

  /** A refresh token of a family that can still be presented, or is being refreshed. */
  predicate Active(s: State, jti: JTI) {
    jti in s.issued && s.issued[jti].kind == Refresh && ((s.now < s.issued[jti].exp && jti !in s.revoked) || InFlight(s, jti))
  }

  predicate InFlight(s: State, jti: JTI) { exists t :: t in s.refreshing && s.refreshing[t] == jti }

  /** The event starts a refresh. */
  predicate Begins(s: State, e: Event) {
    e.BeginRefresh? && e.t !in s.refreshing && Accepts(s, e.jti, e.redisOk) && s.issued[e.jti].kind == Refresh && e.userOk
  }

  /** The event starts a refresh of a token while another refresh of the same token is under way. */
  predicate Overlaps(s: State, e: Event) { Begins(s, e) && InFlight(s, e.jti) }

  predicate RedisAnswers(e: Event) { (e.BeginRefresh? ==> e.redisOk) && (e.EndRefresh? ==> e.setOk) }

  /** No two refreshes of one token overlap at any point of the run. */
  predicate NoOverlap(ttls: TTLs, events: seq<Event>) {
    events == [] || (NoOverlap(ttls, events[..|events| - 1]) && !Overlaps(Run(ttls, events[..|events| - 1]), events[|events| - 1]))
  }

  ghost predicate RotationInv(s: State) {
    && DenyInv(s)
    && (forall t, u | t in s.refreshing && u in s.refreshing && s.refreshing[t] == s.refreshing[u] :: t == u)
    && (forall i, j | Active(s, i) && Active(s, j) && s.issued[i].family == s.issued[j].family :: i == j)
    && (forall i :: RedeemedInv(s, i))
  }

  predicate RedeemedInv(s: State, i: JTI) {
    Redeemed(s, i) <= 1 && (Redeemed(s, i) == 1 ==> !Active(s, i) && i in s.issued)
  }

  /** Time passing and revocations only make tokens less usable. */
  lemma LessUsable(s: State, s': State)
    requires RotationInv(s) && DenyInv(s')
    requires s'.refreshing == s.refreshing && s'.issued == s.issued && s'.redeemed == s.redeemed
    requires s.now <= s'.now && s.revoked <= s'.revoked
    ensures RotationInv(s')
  {
    forall i
      ensures Active(s', i) ==> Active(s, i)
      ensures RedeemedInv(s', i)
    {
      assert InFlight(s', i) == InFlight(s, i) && RedeemedInv(s, i);
    }
  }

  lemma LogoutOnlyRevokes(s: State, access: JTI, refresh: Option<JTI>, setAccessOk: bool, setRefreshOk: bool)
    ensures var s' := LogoutStep(s, access, refresh, setAccessOk, setRefreshOk);
            && s'.refreshing == s.refreshing && s'.issued == s.issued && s'.redeemed == s.redeemed && s'.now == s.now
            && s.revoked <= s'.revoked
  {
  }

  lemma LoginKeepsRotation(ttls: TTLs, s: State)
    requires RotationInv(s)
    ensures RotationInv(Next(ttls, s, Login))
  {
    var s' := Next(ttls, s, Login);
    StepKeepsDeny(ttls, s, Login);
    forall i
      ensures Active(s', i) ==> Active(s, i) || i == s.nextID + 1
      ensures RedeemedInv(s', i)
    {
      assert InFlight(s', i) == InFlight(s, i) && RedeemedInv(s, i);
    }
  }

  lemma BeginKeepsRotation(ttls: TTLs, s: State, t: ThreadID, jti: JTI)
    requires RotationInv(s) && t !in s.refreshing && !InFlight(s, jti)
    requires Accepts(s, jti, true) && s.issued[jti].kind == Refresh
    ensures RotationInv(s.(refreshing := s.refreshing[t := jti]))
  {
    var s' := s.(refreshing := s.refreshing[t := jti]);
    assert Active(s, jti);
    forall i
      ensures Active(s', i) ==> Active(s, i)
      ensures RedeemedInv(s', i)
    {
      assert RedeemedInv(s, i) && (i != jti && InFlight(s', i) ==> InFlight(s, i));
    }
    forall x, y | x in s'.refreshing && y in s'.refreshing && s'.refreshing[x] == s'.refreshing[y]
      ensures x == y
    {
      assert x in s.refreshing ==> InFlight(s, s.refreshing[x]);
      assert y in s.refreshing ==> InFlight(s, s.refreshing[y]);
    }
  }

  /** After its rotation the token is spent; the one new refresh token takes its place. */
  lemma EndActive(ttls: TTLs, s: State, t: ThreadID, i: JTI)
    requires RotationInv(s) && t in s.refreshing
    ensures var s' := End(s, ttls, t, true);
            && (Active(s', i) ==> (Active(s, i) && i != s.refreshing[t]) || i == s.nextID + 1)
            && RedeemedInv(s', i)
  {
    var s', jti := End(s, ttls, t, true), s.refreshing[t];
    assert InFlight(s, jti) && Active(s, jti);
    assert RedeemedInv(s, i) && RedeemedInv(s, jti);
    assert InFlight(s', i) ==> InFlight(s, i) && i != jti;
    assert i in s.issued ==> s'.issued[i] == s.issued[i];
  }

  lemma EndKeepsRotation(ttls: TTLs, s: State, t: ThreadID)
    requires RotationInv(s) && t in s.refreshing
    ensures RotationInv(End(s, ttls, t, true))
  {
    var s', jti := End(s, ttls, t, true), s.refreshing[t];
    EndKeepsDeny(ttls, s, t, true);
    assert InFlight(s, jti) && Active(s, jti);
    forall i ensures RedeemedInv(s', i) { EndActive(ttls, s, t, i); }
    forall i, j | Active(s', i) && Active(s', j) && s'.issued[i].family == s'.issued[j].family
      ensures i == j
    {
      EndActive(ttls, s, t, i);
      EndActive(ttls, s, t, j);
    }
  }

  lemma StepKeepsRotation(ttls: TTLs, s: State, e: Event)
    requires RotationInv(s) && RedisAnswers(e) && !Overlaps(s, e)
    ensures RotationInv(Next(ttls, s, e))
  {
    match e
    case Tick =>
      StepKeepsDeny(ttls, s, e);
      LessUsable(s, Next(ttls, s, e));
    case Login => LoginKeepsRotation(ttls, s);
    case BeginRefresh(t, jti, _, _) =>
      if Begins(s, e) { BeginKeepsRotation(ttls, s, t, jti); }
    case EndRefresh(t, _) => if t in s.refreshing { EndKeepsRotation(ttls, s, t); }
    case Logout(access, refresh, setAccessOk, setRefreshOk) =>
      StepKeepsDeny(ttls, s, e);
      LogoutOnlyRevokes(s, access, refresh, setAccessOk, setRefreshOk);
      LessUsable(s, Next(ttls, s, e));
  }

  lemma {:induction false} RunKeepsRotation(ttls: TTLs, events: seq<Event>)
    requires NoOverlap(ttls, events) && forall e | e in events :: RedisAnswers(e)
    ensures RotationInv(Run(ttls, events))
  {
    if events != [] {
      var before, e := events[..|events| - 1], events[|events| - 1];
      assert forall x | x in before :: x in events;
      RunKeepsRotation(ttls, before);
      StepKeepsRotation(ttls, Run(ttls, before), e);
    }
  }

  /** Without overlap, each refresh token is redeemed at most once, and each login has at most one usable at a time. */
  lemma RotationIsSafe(ttls: TTLs, events: seq<Event>, i: JTI, j: JTI)
    requires NoOverlap(ttls, events) && forall e | e in events :: RedisAnswers(e)
    ensures var s := Run(ttls, events);
            && Redeemed(s, i) <= 1
            && (Usable(s, i) && Usable(s, j) && s.issued[i].family == s.issued[j].family ==> i == j)
  {
    RunKeepsRotation(ttls, events);
    var s := Run(ttls, events);
    assert RedeemedInv(s, i);
    assert Usable(s, i) ==> Active(s, i);
    assert Usable(s, j) ==> Active(s, j);
  }

  /** A refresh token that `Refresh` would accept. */
  predicate Usable(s: State, jti: JTI) { Accepts(s, jti, true) && s.issued[jti].kind == Refresh }

  // ---- what overlap costs ----

  /** A refresh of `jti` that this thread still has to finish. */
  function Owed(s: State, t: ThreadID, jti: JTI): nat {
    if t in s.refreshing && s.refreshing[t] == jti then 1 else 0
  }

  /** A begun refresh is not forgotten: it is owed until it counts as a redemption. */
  lemma StepKeepsDebt(ttls: TTLs, s: State, e: Event, t: ThreadID, u: ThreadID, jti: JTI)
    requires DenyInv(s) && t != u
    ensures var s' := Next(ttls, s, e);
            Redeemed(s, jti) + Owed(s, t, jti) + Owed(s, u, jti) <= Redeemed(s', jti) + Owed(s', t, jti) + Owed(s', u, jti)
  {
    match e
    case EndRefresh(x, setOk) =>
      if x in s.refreshing { EndRedeems(ttls, s, x, setOk); }
    case Logout(access, refresh, setAccessOk, setRefreshOk) =>
      LogoutOnlyRevokes(s, access, refresh, setAccessOk, setRefreshOk);
    case _ =>
  }

  lemma EndRedeems(ttls: TTLs, s: State, t: ThreadID, setOk: bool)
    requires DenyInv(s) && t in s.refreshing
    ensures var s', jti := End(s, ttls, t, setOk), s.refreshing[t];
            s'.refreshing == s.refreshing - {t} && s'.redeemed == s.redeemed[jti := Redeemed(s, jti) + 1]
  {
  }

  lemma {:induction false} DebtIsPaid(ttls: TTLs, earlier: seq<Event>, later: seq<Event>, t: ThreadID, u: ThreadID, jti: JTI)
    requires t != u
    ensures var s, s' := Run(ttls, earlier), Run(ttls, earlier + later);
            Redeemed(s, jti) + Owed(s, t, jti) + Owed(s, u, jti) <= Redeemed(s', jti) + Owed(s', t, jti) + Owed(s', u, jti)
  {
    if later == [] {
      assert earlier + later == earlier;
    } else {
      var all, before := earlier + later, earlier + later[..|later| - 1];
      assert all[..|all| - 1] == before && all[|all| - 1] == later[|later| - 1];
      DebtIsPaid(ttls, earlier, later[..|later| - 1], t, u, jti);
      RunKeepsDeny(ttls, before);
      StepKeepsDebt(ttls, Run(ttls, before), later[|later| - 1], t, u, jti);
    }
  }

  /**
   Wherever in a run a refresh begins while another of the same token is under way, and whatever else happens
   until no refresh of that token is under way any more, the token has been redeemed at least twice.
   */
  lemma OverlapRedeemsTwice(ttls: TTLs, earlier: seq<Event>, e: Event, later: seq<Event>)
    requires Overlaps(Run(ttls, earlier), e) && !InFlight(Run(ttls, earlier + [e] + later), e.jti)
    ensures Redeemed(Run(ttls, earlier + [e] + later), e.jti) >= 2
  {
    var s, s' := Run(ttls, earlier), Run(ttls, earlier + [e] + later);
    var t :| t in s.refreshing && s.refreshing[t] == e.jti;
    assert (earlier + [e])[..|earlier|] == earlier;
    var s1 := Run(ttls, earlier + [e]);
    assert s1 == s.(refreshing := s.refreshing[e.t := e.jti]);
    DebtIsPaid(ttls, earlier + [e], later, t, e.t, e.jti);
    assert Owed(s', t, e.jti) == 0 && Owed(s', e.t, e.jti) == 0;
  }

  lemma {:induction false} FirstOverlap(ttls: TTLs, events: seq<Event>) returns (n: nat)
    requires !NoOverlap(ttls, events)
    ensures n < |events| && Overlaps(Run(ttls, events[..n]), events[n])
  {
    var before := events[..|events| - 1];
    if NoOverlap(ttls, before) {
      n := |before|;
    } else {
      n := FirstOverlap(ttls, before);
      assert before[..n] == events[..n];
    }
  }

  /**
   On a run that leaves no refresh unfinished, while Redis answers: every refresh token is redeemed at most once
   if and only if no two refreshes of one token ever overlapped.
   */
  lemma RotationIsExact(ttls: TTLs, events: seq<Event>)
    requires Run(ttls, events).refreshing == map[] && forall e | e in events :: RedisAnswers(e)
    ensures (forall jti :: Redeemed(Run(ttls, events), jti) <= 1) <==> NoOverlap(ttls, events)
  {
    if NoOverlap(ttls, events) {
      forall jti ensures Redeemed(Run(ttls, events), jti) <= 1 {
        RotationIsSafe(ttls, events, jti, jti);
      }
    } else {
      var n := FirstOverlap(ttls, events);
      assert events == events[..n] + [events[n]] + events[n + 1..];
      OverlapRedeemsTwice(ttls, events[..n], events[n], events[n + 1..]);
    }
  }

  /** Two refreshes that both began before either rotated also leave two usable tokens of one login. */
  lemma OverlapLeavesTwoUsable(ttls: TTLs, s: State, t: ThreadID, u: ThreadID, jti: JTI)
    requires DenyInv(s) && Usable(s, jti) && ttls.refresh > 0
    requires t != u && t !in s.refreshing && u !in s.refreshing
    ensures var s1 := Next(ttls, Next(ttls, s, BeginRefresh(t, jti, true, true)), BeginRefresh(u, jti, true, true));
            var s' := End(End(s1, ttls, t, true), ttls, u, true);
            && Redeemed(s', jti) == Redeemed(s, jti) + 2
            && exists i, j :: i != j && Usable(s', i) && Usable(s', j)
                              && s'.issued[i].family == s'.issued[j].family == s.issued[jti].family
  {
    BothBegin(ttls, s, t, u, jti);
    TwoRotations(ttls, s.(refreshing := s.refreshing[t := jti][u := jti]), t, u, jti);
  }

  lemma TwoRotations(ttls: TTLs, s: State, t: ThreadID, u: ThreadID, jti: JTI)
    requires jti in s.issued && s.now < s.issued[jti].exp && ttls.refresh > 0
    requires t != u && t in s.refreshing && u in s.refreshing && s.refreshing[t] == s.refreshing[u] == jti
    requires (forall i | i in s.issued :: i < s.nextID) && forall i | i in s.deny :: i in s.issued
    ensures var s' := End(End(s, ttls, t, true), ttls, u, true);
            && Redeemed(s', jti) == Redeemed(s, jti) + 2
            && exists i, j :: i != j && Usable(s', i) && Usable(s', j)
                              && s'.issued[i].family == s'.issued[j].family == s.issued[jti].family
  {
    RotatesOnce(ttls, s, t);
    var s2 := End(s, ttls, t, true);
    assert s2.issued[jti] == s.issued[jti] && s2.refreshing[u] == jti;
    RotatesOnce(ttls, s2, u);
    var s' := End(s2, ttls, u, true);
    var i, j := s.nextID + 1, s.nextID + 3;
    assert i !in s'.deny && j !in s'.deny;
    assert s'.issued[i] == s'.issued[j] == Claims(Refresh, s.now + ttls.refresh, s.issued[jti].family);
    assert Usable(s', i) && Usable(s', j);
  }

  lemma BothBegin(ttls: TTLs, s: State, t: ThreadID, u: ThreadID, jti: JTI)
    requires Usable(s, jti) && t != u && t !in s.refreshing && u !in s.refreshing
    ensures Next(ttls, Next(ttls, s, BeginRefresh(t, jti, true, true)), BeginRefresh(u, jti, true, true))
         == s.(refreshing := s.refreshing[t := jti][u := jti])
  {
    assert Next(ttls, s, BeginRefresh(t, jti, true, true)) == s.(refreshing := s.refreshing[t := jti]);
  }

  /** One rotation of a live token issues one fresh pair and denies the old token. */
  lemma RotatesOnce(ttls: TTLs, s: State, t: ThreadID)
    requires t in s.refreshing && s.refreshing[t] in s.issued && s.now < s.issued[s.refreshing[t]].exp
    requires forall i | i in s.issued :: i < s.nextID
    ensures var jti := s.refreshing[t];
            var s' := End(s, ttls, t, true);
            && s'.now == s.now && s'.nextID == s.nextID + 2 && s'.refreshing == s.refreshing - {t}
            && s'.issued == s.issued[s.nextID := Claims(Access, s.now + ttls.access, s.issued[jti].family)]
                                    [s.nextID + 1 := Claims(Refresh, s.now + ttls.refresh, s.issued[jti].family)]
            && s'.deny == s.deny[jti := s.issued[jti].exp]
            && s'.redeemed == s.redeemed[jti := Redeemed(s, jti) + 1]
  {
  }
}
