/**
 The token refresh of one browser client (frontend/src/app/services/request.ts) against the rotating server
 (backend/internal/auth/service.go). A promise settles and everything awaiting it continues before the next
 network event, so settling a refresh and resuming its waiters is one step. A refresh POST may be answered,
 or lost before or after the server handles it, and the page may be reloaded at any time.
 */
module BrowserRefresh {
  import opened Basics

  type Token = nat
  type RequestID = nat
  type PostID = nat

  /** What `isAuthPath` and `handleError` distinguish in a URL. */
  datatype Path = Plain | LoginOrRefresh | LogoutPath

  datatype Phase = InAir | Waiting | Done

  datatype Request = Request(path: Path, retried: bool, sends: nat, phase: Phase)

  /** localStorage and the module's variables. An access token is named by the refresh token it came with. */
  datatype Browser = Browser(access: Option<Token>, refresh: Option<Token>, refreshInFlight: Option<PostID>,
                             requests: map<RequestID, Request>)

  datatype Post = Asked(token: Token) | Answered(token: Token, result: Option<Token>)

  /** `family` holds every refresh token issued; `newest`, `ended` (expired or revoked by a logout) are history. */
  datatype Server = Server(live: set<Token>, family: map<Token, nat>, newest: map<nat, Token>, ended: set<Token>)

  datatype State = State(browser: Browser, posts: map<PostID, Post>, abandoned: set<PostID>, server: Server)

  const INITIAL := State(Browser(None, None, None, map[]), map[], {}, Server({}, map[], map[], {}))

  datatype Event =
    | Send(r: RequestID, path: Path)
    | Respond(r: RequestID, unauthorized: bool, p: PostID)
    | ServerHandles(p: PostID, userOk: bool, fresh_: Token)
    | Deliver(p: PostID)
    | Lose(p: PostID)
    | LogIn(token: Token, family: nat)
    | LogOut
    | Expire(token: Token)
    | Reload

  // ---- browser ----

  function HandleUnauthorized(b: Browser): Browser { b.(access := None, refresh := None) }

  function Finish(b: Browser, r: RequestID): Browser
    requires r in b.requests
  {
    b.(requests := b.requests[r := b.requests[r].(phase := Done)])
  }

  /** The response interceptor on an error, with `p` the name of the POST it may have to send. */
  function OnError(b: Browser, r: RequestID, unauthorized: bool, p: PostID): Browser
    requires r in b.requests
  {
    var q := b.requests[r];
    if !unauthorized then Finish(b, r)
    else if q.retried || q.path != Plain then
      Finish(if q.path == LoginOrRefresh then b else HandleUnauthorized(b), r)
    else if b.refreshInFlight.Some? then b.(requests := b.requests[r := q.(phase := Waiting)])
    else if b.refresh.None? then Finish(HandleUnauthorized(b), r)
    else b.(requests := b.requests[r := q.(phase := Waiting)], refreshInFlight := Some(p))
  }

  /** A waiter continues: one retry with the new token, or the unauthorized handling. */
  function Resumed(q: Request, ok: bool): Request {
    if q.phase != Waiting then q
    else if ok then q.(retried := true, sends := q.sends + 1, phase := InAir)
    else q.(phase := Done)
  }

  function ResumeAll(requests: map<RequestID, Request>, ok: bool): map<RequestID, Request> {
    map r | r in requests :: Resumed(requests[r], ok)
  }

  predicate SomeoneWaits(b: Browser) { exists r :: r in b.requests && b.requests[r].phase == Waiting }

  /** The refresh settles: the finally clause, then every waiter; without a token each waiter logs the user out. */
  function Settle(b: Browser, result: Option<Token>): Browser {
    var b1 := if result.Some? then b.(access := result, refresh := result)
              else if SomeoneWaits(b) then HandleUnauthorized(b) else b;
    b1.(refreshInFlight := None, requests := ResumeAll(b.requests, result.Some?))
  }

  // ---- the whole system ----

  function Next(s: State, e: Event): State {
    var b := s.browser;
    match e
    case Send(r, path) =>
      if r in b.requests then s else s.(browser := b.(requests := b.requests[r := Request(path, false, 1, InAir)]))
    case Respond(r, unauthorized, p) =>
      if r !in b.requests || b.requests[r].phase != InAir || p in s.posts then s
      else
        var b' := OnError(b, r, unauthorized, p);
        s.(browser := b', posts := if b'.refreshInFlight == b.refreshInFlight then s.posts else s.posts[p := Asked(b.refresh.value)])
    case ServerHandles(p, userOk, fresh_) =>
      if p !in s.posts || !s.posts[p].Asked? || fresh_ in s.server.family then s
      else
        var x := s.posts[p].token;
        if x in s.server.live && x in s.server.family && userOk
        then s.(posts := s.posts[p := Answered(x, Some(fresh_))], server := Rotate(s.server, x, fresh_))
        else s.(posts := s.posts[p := Answered(x, None)])
    case Deliver(p) =>
      if b.refreshInFlight != Some(p) || p !in s.posts || !s.posts[p].Answered? then s
      else s.(browser := Settle(b, s.posts[p].result), posts := s.posts - {p})
    case Lose(p) =>
      if b.refreshInFlight != Some(p) then s else s.(browser := Settle(b, None), abandoned := s.abandoned + {p})
    case LogIn(token, family) =>
      if token in s.server.family || family in s.server.newest then s
      else s.(browser := b.(access := Some(token), refresh := Some(token)), server := Issue(s.server, token, family))
    case LogOut =>
      s.(browser := HandleUnauthorized(b), server := if b.refresh.Some? then Retire(s.server, b.refresh.value) else s.server)
    case Expire(token) => s.(server := Retire(s.server, token))
    case Reload => ReloadPage(s)
  }

  /** Reloading the page drops the requests and the awaited refresh, and keeps localStorage. */
  function ReloadPage(s: State): State {
    s.(browser := s.browser.(refreshInFlight := None, requests := map[]),
       abandoned := if s.browser.refreshInFlight.Some? then s.abandoned + {s.browser.refreshInFlight.value} else s.abandoned)
  }

  function Issue(v: Server, token: Token, family: nat): Server {
    v.(live := v.live + {token}, family := v.family[token := family], newest := v.newest[family := token])
  }

  function Rotate(v: Server, x: Token, y: Token): Server
    requires x in v.family
  {
    Issue(v.(live := v.live - {x}), y, v.family[x])
  }

  function Retire(v: Server, x: Token): Server { v.(live := v.live - {x}, ended := v.ended + {x}) }

  function Steps(s: State, events: seq<Event>): State {
    if events == [] then s else Next(Steps(s, events[..|events| - 1]), events[|events| - 1])
  }

  function Run(events: seq<Event>): State { Steps(INITIAL, events) }

  // ---- invariant ----

  predicate RequestInv(q: Request) {
    && 1 <= q.sends <= 2 && (q.retried <==> q.sends == 2)
    && (q.phase == Waiting ==> !q.retried && q.path == Plain)
  }

  /** The token is the newest of its family. */
  predicate Newest(v: Server, x: Token) {
    x in v.family && v.family[x] in v.newest && v.newest[v.family[x]] == x
  }

  predicate ServerInv(v: Server) {
    && (forall x | x in v.live :: Newest(v, x))
    && (forall x | x in v.family :: v.family[x] in v.newest)
    && (forall f | f in v.newest :: Newest(v, v.newest[f]) && v.family[v.newest[f]] == f)
    && (forall f | f in v.newest :: v.newest[f] in v.live || v.newest[f] in v.ended)
  }

  predicate BrowserInv(s: State) {
    && (forall r | r in s.browser.requests :: RequestInv(s.browser.requests[r]))
    && (forall p | p in s.posts && p !in s.abandoned :: s.browser.refreshInFlight == Some(p))
    && (s.browser.refreshInFlight.Some? ==> s.browser.refreshInFlight.value in s.posts && s.browser.refreshInFlight.value !in s.abandoned)
    && (s.browser.refreshInFlight.Some? ==> SomeoneWaits(s.browser))
    && s.abandoned <= s.posts.Keys
  }

  /** What a post has in hand: the token presented, or the one it came back with. */
  predicate PostInv(v: Server, post: Post) {
    && post.token in v.family
    && (post.Answered? && post.result.Some? ==>
          && Newest(v, post.result.value) && v.family[post.result.value] == v.family[post.token]
          && post.result.value != post.token)
  }

  predicate FamilyOf(v: Server, x: Token, f: nat) { x in v.family && v.family[x] == f }

  /** The server may still rotate the token of this post. */
  predicate Rotatable(v: Server, post: Post) { post.Asked? && post.token in v.live }

  predicate Rotated(post: Post) { post.Answered? && post.result.Some? }

  predicate TokensInv(s: State) {
    var v, b := s.server, s.browser;
    && (forall p | p in s.posts :: s.posts[p].token in v.family)
    // the post in flight presents the newest token of its family, or has already got the newest
    && (b.refreshInFlight.Some? && b.refreshInFlight.value in s.posts ==>
          var post := s.posts[b.refreshInFlight.value];
          if Rotated(post) then PostInv(v, post) && b.refresh != post.result else Newest(v, post.token))
    // the stored token is the newest of its family, unless the post in flight is about to replace it
    && (b.refresh.Some? ==> b.refresh.value in v.family)
    && (b.refresh.Some? && !Newest(v, b.refresh.value) ==>
          b.refreshInFlight.Some? && b.refreshInFlight.value in s.posts && Rotated(s.posts[b.refreshInFlight.value])
          && FamilyOf(v, s.posts[b.refreshInFlight.value].token, v.family[b.refresh.value]))
    // an abandoned post that can still rotate belongs to a family the browser no longer uses
    && (forall z | z in s.abandoned && z in s.posts && Rotatable(v, s.posts[z]) ::
          && (b.refresh.Some? ==> !FamilyOf(v, s.posts[z].token, v.family[b.refresh.value]))
          && (forall p | p in s.posts && p !in s.abandoned :: !FamilyOf(v, s.posts[z].token, v.family[s.posts[p].token])))
  }

  predicate Inv(s: State) { ServerInv(s.server) && BrowserInv(s) && TokensInv(s) }

  lemma SendKeepsInv(s: State, r: RequestID, path: Path)
    requires Inv(s)
    ensures Inv(Next(s, Send(r, path)))
  {
    if s.browser.refreshInFlight.Some? {
      var w :| w in s.browser.requests && s.browser.requests[w].phase == Waiting;
      assert w in Next(s, Send(r, path)).browser.requests;
    }
  }

  lemma RespondKeepsInv(s: State, r: RequestID, unauthorized: bool, p: PostID)
    requires Inv(s)
    ensures Inv(Next(s, Respond(r, unauthorized, p)))
  {
    var b' := Next(s, Respond(r, unauthorized, p)).browser;
    if s.browser.refreshInFlight.Some? {
      var w :| w in s.browser.requests && s.browser.requests[w].phase == Waiting;
      assert w in b'.requests && b'.requests[w].phase == Waiting;
    } else if b'.refreshInFlight.Some? {
      assert b'.requests[r].phase == Waiting;
    }
  }

  lemma SettleKeepsInv(s: State, e: Event)
    requires Inv(s) && (e.Deliver? || e.Lose?)
    ensures Inv(Next(s, e))
  {
  }

  lemma NewFamilyKeepsServer(v: Server, x: Token, f: nat)
    requires ServerInv(v) && x !in v.family && f !in v.newest
    ensures ServerInv(Issue(v, x, f))
    ensures forall i | i in v.family :: Newest(Issue(v, x, f), i) == Newest(v, i)
  {
  }

  lemma LogInKeepsInv(s: State, x: Token, f: nat)
    requires Inv(s) && x !in s.server.family && f !in s.server.newest
    ensures Inv(Next(s, LogIn(x, f)))
  {
    var s' := Next(s, LogIn(x, f));
    NewFamilyKeepsServer(s.server, x, f);
    assert Newest(s'.server, x);
    assert SomeoneWaits(s.browser) ==> SomeoneWaits(s'.browser);
  }

  lemma RetireKeepsServer(v: Server, x: Token)
    requires ServerInv(v)
    ensures ServerInv(Retire(v, x)) && forall i :: Newest(Retire(v, x), i) == Newest(v, i)
  {
  }

  lemma RetireKeepsInv(s: State, e: Event)
    requires Inv(s) && (e.LogOut? || e.Expire?)
    ensures Inv(Next(s, e))
  {
    var s' := Next(s, e);
    if e.Expire? {
      RetireKeepsServer(s.server, e.token);
    } else if s.browser.refresh.Some? {
      RetireKeepsServer(s.server, s.browser.refresh.value);
    }
    assert SomeoneWaits(s.browser) ==> SomeoneWaits(s'.browser);
  }

  /** A rotation makes the fresh token the newest of the family in place of the old one, and moves no other. */
  lemma RotateMovesNewest(v: Server, x: Token, y: Token, i: Token)
    requires ServerInv(v) && Newest(v, x) && y !in v.family
    ensures Newest(Rotate(v, x, y), i) <==> i == y || (Newest(v, i) && i != x)
    ensures i in v.family ==> i in Rotate(v, x, y).family && Rotate(v, x, y).family[i] == v.family[i]
  {
  }

  lemma RotateKeepsServer(v: Server, x: Token, y: Token)
    requires ServerInv(v) && Newest(v, x) && y !in v.family
    ensures ServerInv(Rotate(v, x, y))
  {
    forall i ensures Newest(Rotate(v, x, y), i) <==> i == y || (Newest(v, i) && i != x) {
      RotateMovesNewest(v, x, y, i);
    }
  }

  /** Newest tokens of two different families are not disturbed by each other's rotation. */
  lemma HandledKeepsTokens(s: State, p: PostID, y: Token)
    requires Inv(s) && p in s.posts && s.posts[p].Asked? && s.posts[p].token in s.server.live && y !in s.server.family
    ensures var x := s.posts[p].token;
            TokensInv(s.(posts := s.posts[p := Answered(x, Some(y))], server := Rotate(s.server, x, y)))
  {
    var x, v := s.posts[p].token, s.server;
    var v' := Rotate(v, x, y);
    forall i ensures Newest(v', i) <==> i == y || (Newest(v, i) && i != x) {
      RotateMovesNewest(v, x, y, i);
    }
    assert forall i | i in v.family :: i in v'.family && v'.family[i] == v.family[i];
    assert p in s.abandoned || s.browser.refreshInFlight == Some(p);
  }

  lemma ServerKeepsInv(s: State, p: PostID, userOk: bool, y: Token)
    requires Inv(s)
    ensures Inv(Next(s, ServerHandles(p, userOk, y)))
  {
    if p in s.posts && s.posts[p].Asked? && y !in s.server.family {
      var x := s.posts[p].token;
      if x in s.server.live && userOk {
        RotateKeepsServer(s.server, x, y);
        HandledKeepsTokens(s, p, y);
      }
    }
  }

  /** What waits and what was sent stays in order on every step, reloads included. */
  lemma StepKeepsBrowser(s: State, e: Event)
    requires BrowserInv(s)
    ensures BrowserInv(Next(s, e))
  {
    var b, b' := s.browser, Next(s, e).browser;
    if b.refreshInFlight.Some? && b'.refreshInFlight.Some? {
      var w :| w in b.requests && b.requests[w].phase == Waiting;
      assert w in b'.requests && b'.requests[w].phase == Waiting;
    } else if b'.refreshInFlight.Some? {
      assert b'.requests[e.r].phase == Waiting;
    }
  }

  lemma {:induction false} RunKeepsBrowser(events: seq<Event>)
    ensures BrowserInv(Run(events))
  {
    if events != [] {
      RunKeepsBrowser(events[..|events| - 1]);
      StepKeepsBrowser(Run(events[..|events| - 1]), events[|events| - 1]);
    }
  }

  /** The refresh in flight has rotated the login that the browser has stored, or still can. */
  predicate Harmful(s: State) {
    var b := s.browser;
    && b.refreshInFlight.Some? && b.refreshInFlight.value in s.posts && b.refresh.Some? && b.refresh.value in s.server.family
    && var post := s.posts[b.refreshInFlight.value];
       FamilyOf(s.server, post.token, s.server.family[b.refresh.value]) && (Rotated(post) || Rotatable(s.server, post))
  }

  /** The page is reloaded only at moments when that does no harm. */
  predicate Careful(s: State, e: Event) { e.Reload? ==> !Harmful(s) }

  predicate CarefulFrom(s: State, events: seq<Event>) {
    events == [] || (CarefulFrom(s, events[..|events| - 1]) && Careful(Steps(s, events[..|events| - 1]), events[|events| - 1]))
  }

  lemma ReloadKeepsInv(s: State)
    requires Inv(s) && !Harmful(s)
    ensures Inv(ReloadPage(s))
  {
    StepKeepsBrowser(s, Reload);
  }

  lemma StepKeepsInv(s: State, e: Event)
    requires Inv(s) && Careful(s, e)
    ensures Inv(Next(s, e))
  {
    match e
    case Send(r, path) => SendKeepsInv(s, r, path);
    case Respond(r, unauthorized, p) => RespondKeepsInv(s, r, unauthorized, p);
    case ServerHandles(p, userOk, y) => ServerKeepsInv(s, p, userOk, y);
    case Deliver(_) => SettleKeepsInv(s, e);
    case Lose(_) => SettleKeepsInv(s, e);
    case LogIn(x, f) => if x !in s.server.family && f !in s.server.newest { LogInKeepsInv(s, x, f); }
    case LogOut => RetireKeepsInv(s, e);
    case Expire(_) => RetireKeepsInv(s, e);
    case Reload => ReloadKeepsInv(s);
  }

  lemma {:induction false} StepsKeepInv(s: State, events: seq<Event>)
    requires Inv(s) && CarefulFrom(s, events)
    ensures Inv(Steps(s, events))
  {
    if events != [] {
      StepsKeepInv(s, events[..|events| - 1]);
      StepKeepsInv(Steps(s, events[..|events| - 1]), events[|events| - 1]);
    }
  }

  // ---- main results ----

  /** At most one refresh POST is awaited at any time, and every logical request is sent at most twice. */
  lemma OneRefreshAndOneRetry(events: seq<Event>, p: PostID, q: PostID, r: RequestID)
    ensures var s := Run(events);
            && (p in s.posts && p !in s.abandoned && q in s.posts && q !in s.abandoned ==> p == q)
            && (r in s.browser.requests ==> s.browser.requests[r].sends <= 2)
  {
    RunKeepsBrowser(events);
  }

  /**
   A refresh that is waiting for the server presents the newest token of its login: no other token of that
   family is accepted any more, and this one is, unless it expired or a logout revoked it. Responses may get
   lost; the page may be reloaded as long as that is not harmful.
   */
  lemma RefreshPresentsTheOnlyLiveToken(events: seq<Event>, p: PostID, other: Token)
    requires CarefulFrom(INITIAL, events)
    ensures var s := Run(events);
            p in s.posts && p !in s.abandoned && s.posts[p].Asked? ==>
              var x := s.posts[p].token;
              && x in s.server.family && (x in s.server.live || x in s.server.ended)
              && (other in s.server.live && FamilyOf(s.server, other, s.server.family[x]) ==> other == x)
  {
    StepsKeepInv(INITIAL, events);
  }

  /** What an answer does to its request: all other requests are as before. */
  predicate OnlyTouches(b: Browser, b': Browser, r: RequestID) {
    r in b.requests && b'.requests.Keys == b.requests.Keys && forall o | o in b.requests && o != r :: b'.requests[o] == b.requests[o]
  }

  /**
   On every run, a refused request joins the refresh that is under way, or starts one if a refresh token is stored;
   nothing else waits. Any other answer is final, and only a final refusal outside the login paths drops the tokens.
   */
  lemma RefusedRequestsShareTheRefresh(events: seq<Event>, r: RequestID, unauthorized: bool, p: PostID)
    requires var s := Run(events); r in s.browser.requests && s.browser.requests[r].phase == InAir && p !in s.posts
    ensures var s := Run(events);
            var b, b' := s.browser, Next(s, Respond(r, unauthorized, p)).browser;
            var q := b.requests[r];
            var may := unauthorized && q.sends == 1 && q.path == Plain;
            && OnlyTouches(b, b', r)
            && b'.requests[r] == q.(phase := if may && (b.refreshInFlight.Some? || b.refresh.Some?) then Waiting else Done)
            && b'.refreshInFlight == (if may && b.refreshInFlight.None? && b.refresh.Some? then Some(p) else b.refreshInFlight)
            && (b'.access, b'.refresh) == (if unauthorized && q.path != LoginOrRefresh && b'.requests[r].phase == Done
                                           then (None, None) else (b.access, b.refresh))
  {
    RunKeepsBrowser(events);
  }

  /** And a POST is sent for it exactly when it had to start the refresh: with the stored refresh token. */
  lemma OnePostPerRefresh(events: seq<Event>, r: RequestID, unauthorized: bool, p: PostID)
    requires var s := Run(events); r in s.browser.requests && s.browser.requests[r].phase == InAir && p !in s.posts
    ensures var s := Run(events);
            var b, s' := s.browser, Next(s, Respond(r, unauthorized, p));
            var starts := unauthorized && b.requests[r].sends == 1 && b.requests[r].path == Plain && b.refreshInFlight.None? && b.refresh.Some?;
            s'.posts == if starts then s.posts[p := Asked(b.refresh.value)] else s.posts
  {
    RunKeepsBrowser(events);
  }

  predicate WaitsForRefresh(b: Browser) {
    forall r | r in b.requests && b.requests[r].phase == Waiting :: b.refreshInFlight.Some?
  }

  lemma StepKeepsWaiting(s: State, e: Event)
    requires WaitsForRefresh(s.browser)
    ensures WaitsForRefresh(Next(s, e).browser)
  {
  }

  /** Nobody waits for nothing: on every run, while a request waits, a refresh POST is awaited. */
  lemma {:induction false} NobodyWaitsForNothing(events: seq<Event>)
    ensures WaitsForRefresh(Run(events).browser)
  {
    if events != [] {
      NobodyWaitsForNothing(events[..|events| - 1]);
      StepKeepsWaiting(Run(events[..|events| - 1]), events[|events| - 1]);
    }
  }

  /** Every waiter has gone on: with its one retry under way, or finished. */
  predicate AllResumed(b: Browser, b': Browser, ok: bool) {
    && b'.refreshInFlight.None? && b'.requests.Keys == b.requests.Keys
    && forall r | r in b.requests :: b'.requests[r] ==
         if b.requests[r].phase != Waiting then b.requests[r]
         else if ok then Request(b.requests[r].path, true, 2, InAir)
         else Request(b.requests[r].path, false, 1, Done)
  }

  /** On every run, a token that comes back is stored, and puts every waiting request back in the air, once. */
  lemma DeliveryResumesEveryone(events: seq<Event>, p: PostID, y: Token)
    requires var s := Run(events); s.browser.refreshInFlight == Some(p) && p in s.posts && s.posts[p].Answered? && s.posts[p].result == Some(y)
    ensures var b, b' := Run(events).browser, Next(Run(events), Deliver(p)).browser;
            b'.access == Some(y) && b'.refresh == Some(y) && AllResumed(b, b', true)
  {
    RunKeepsBrowser(events);
    TokenResumesEveryone(Run(events), p, y);
  }

  /** A refresh that fails, for whatever reason, leaves no token behind in the browser, and finishes every waiter. */
  lemma FailedRefreshLogsOut(events: seq<Event>, p: PostID)
    requires Run(events).browser.refreshInFlight == Some(p)
    ensures var s := Run(events);
            var e := if p in s.posts && s.posts[p].Answered? && s.posts[p].result.None? then Deliver(p) else Lose(p);
            var b := Next(s, e).browser;
            b.access == None && b.refresh == None && AllResumed(s.browser, b, false)
  {
    RunKeepsBrowser(events);
  }

  /**
   The whole refresh, from any moment of any run: if the token presented is still live and the user enabled, then once
   the server has answered and the answer has arrived, the browser holds the new token, which is now the only live one
   of the login, and every request that waited is back in the air.
   */
  lemma RefreshServesEveryone(events: seq<Event>, p: PostID, y: Token)
    requires CarefulFrom(INITIAL, events)
    requires var s := Run(events);
             s.browser.refreshInFlight == Some(p) && p in s.posts && s.posts[p].Asked? && s.posts[p].token in s.server.live && y !in s.server.family
    ensures var s := Run(events);
            var x, s' := s.posts[p].token, Next(Next(s, ServerHandles(p, true, y)), Deliver(p));
            && s'.browser.access == Some(y) && s'.browser.refresh == Some(y) && AllResumed(s.browser, s'.browser, true)
            && s'.server.live == s.server.live - {x} + {y}
            && x in s.server.family && FamilyOf(s'.server, y, s.server.family[x])
            && forall o | o in s'.server.live && FamilyOf(s'.server, o, s.server.family[x]) :: o == y
  {
    StepsKeepInv(INITIAL, events);
    RotationIsServed(Run(events), p, y);
    TokenResumesEveryone(Next(Run(events), ServerHandles(p, true, y)), p, y);
  }

  /** The server's half: the token is replaced by the new one, which is then the only live one of its family. */
  lemma RotationIsServed(s: State, p: PostID, y: Token)
    requires Inv(s) && p in s.posts && s.posts[p].Asked? && s.posts[p].token in s.server.live && y !in s.server.family
    ensures var x, s' := s.posts[p].token, Next(s, ServerHandles(p, true, y));
            && s'.browser == s.browser && s'.posts == s.posts[p := Answered(x, Some(y))] && BrowserInv(s')
            && s'.server.live == s.server.live - {x} + {y}
            && x in s.server.family && FamilyOf(s'.server, y, s.server.family[x])
            && forall o | o in s'.server.live && FamilyOf(s'.server, o, s.server.family[x]) :: o == y
  {
    RotateKeepsServer(s.server, s.posts[p].token, y);
    StepKeepsBrowser(s, ServerHandles(p, true, y));
  }

  /** The browser's half. */
  lemma TokenResumesEveryone(s: State, p: PostID, y: Token)
    requires BrowserInv(s) && s.browser.refreshInFlight == Some(p) && p in s.posts && s.posts[p].Answered? && s.posts[p].result == Some(y)
    ensures var s' := Next(s, Deliver(p));
            && s'.server == s.server && s'.browser.access == Some(y) && s'.browser.refresh == Some(y)
            && AllResumed(s.browser, s'.browser, true)
  {
  }

  /** The server refuses exactly the refresh of a token that is not live, or of a user who is not enabled. */
  lemma RefusedExactly(events: seq<Event>, p: PostID, userOk: bool, y: Token)
    requires CarefulFrom(INITIAL, events)
    requires var s := Run(events); p in s.posts && s.posts[p].Asked? && y !in s.server.family
    ensures var s := Run(events);
            Next(s, ServerHandles(p, userOk, y)).posts[p]
            == Answered(s.posts[p].token, if s.posts[p].token in s.server.live && userOk then Some(y) else None)
  {
    StepsKeepInv(INITIAL, events);
  }

  /** A login stores its pair, whose refresh token is live and the only one of a new family. */
  lemma LogInStoresThePair(events: seq<Event>, x: Token, f: nat)
    requires CarefulFrom(INITIAL, events) && x !in Run(events).server.family && f !in Run(events).server.newest
    ensures var s' := Next(Run(events), LogIn(x, f));
            && s'.browser.access == Some(x) && s'.browser.refresh == Some(x)
            && x in s'.server.live && forall o | FamilyOf(s'.server, o, f) :: o == x
  {
    StepsKeepInv(INITIAL, events);
  }

  predicate Dead(v: Server, x: Token) { x in v.family && x !in v.live }

  lemma DeadStaysDead(s: State, e: Event, x: Token)
    requires Dead(s.server, x)
    ensures Dead(Next(s, e).server, x)
  {
  }

  /** A refresh token that has expired, or is not live any more for another reason, never comes to life again. */
  lemma {:induction false} DeadForEver(s: State, events: seq<Event>, x: Token)
    requires x in s.server.family && (Dead(s.server, x) || (events != [] && events[0] == Expire(x)))
    ensures Dead(Steps(s, events).server, x)
  {
    if events != [] {
      var init := events[..|events| - 1];
      if |events| == 1 {
        assert init == [] && Steps(s, init) == s;
      } else {
        DeadForEver(s, init, x);
      }
      if Dead(Steps(s, init).server, x) { DeadStaysDead(Steps(s, init), events[|events| - 1], x); }
    }
  }

  /** Logging out forgets both tokens and ends the stored login on the server. */
  lemma LogOutEndsTheLogin(events: seq<Event>)
    ensures var s, s' := Run(events), Next(Run(events), LogOut);
            && s'.browser.access == None && s'.browser.refresh == None
            && s'.server.live == s.server.live - (if s.browser.refresh.Some? then {s.browser.refresh.value} else {})
  {
  }

  // ---- when a logout lasts ----

  /** The refresh under way has got, or can still get, a new token. */
  predicate Revivable(s: State) {
    var f := s.browser.refreshInFlight;
    f.Some? && f.value in s.posts && (Rotated(s.posts[f.value]) || Rotatable(s.server, s.posts[f.value]))
  }

  predicate NoLogIn(events: seq<Event>) { forall e | e in events :: !e.LogIn? }

  /** No token is stored, and none can come back. */
  predicate LoggedOut(s: State) {
    && s.browser.refresh.None? && !Revivable(s)
    && s.server.live <= s.server.family.Keys && forall p | p in s.posts :: s.posts[p].token in s.server.family
  }

  lemma LoggedOutStays(s: State, e: Event)
    requires LoggedOut(s) && !e.LogIn?
    ensures LoggedOut(Next(s, e))
  {
  }

  lemma {:induction false} LoggedOutLasts(s: State, events: seq<Event>)
    requires LoggedOut(s) && NoLogIn(events)
    ensures LoggedOut(Steps(s, events))
  {
    if events != [] {
      var init := events[..|events| - 1];
      assert forall e | e in init :: e in events;
      LoggedOutLasts(s, init);
      LoggedOutStays(Steps(s, init), events[|events| - 1]);
    }
  }

  /** A stored token comes back although nobody logs in. */
  ghost predicate ComesBack(s: State) {
    exists events :: NoLogIn(events) && Steps(s, events).browser.refresh.Some?
  }

  /**
   Exactly when a logout does not last: a refresh is under way that the server has already answered with a token, or
   whose token is live and not the one being logged out. Its answer then stores a new login.
   */
  lemma LogoutIsExact(s: State)
    requires Inv(s)
    ensures ComesBack(Next(s, LogOut)) <==>
            var f := s.browser.refreshInFlight;
            f.Some? && f.value in s.posts
            && (Rotated(s.posts[f.value]) || (Rotatable(s.server, s.posts[f.value]) && s.browser.refresh != Some(s.posts[f.value].token)))
  {
    var s' := Next(s, LogOut);
    if Revivable(s') {
      var p := s'.browser.refreshInFlight.value;
      var y := Unused(s'.server.family.Keys);
      Revives(s', p, y);
      assert ComesBack(s');
    } else {
      assert LoggedOut(s') by {
        assert forall x | x in s.server.live :: Newest(s.server, x);
      }
      forall events | NoLogIn(events)
        ensures Steps(s', events).browser.refresh.None?
      {
        LoggedOutLasts(s', events);
      }
    }
  }

  lemma Revives(s: State, p: PostID, y: Token)
    requires Revivable(s) && s.browser.refreshInFlight == Some(p) && y !in s.server.family && s.server.live <= s.server.family.Keys
    ensures ComesBack(s)
  {
    if Rotated(s.posts[p]) {
      var events := [Deliver(p)];
      assert events[..0] == [] && Steps(s, events[..0]) == s;
      assert Steps(s, events) == Next(s, Deliver(p));
      assert NoLogIn(events) && Steps(s, events).browser.refresh.Some?;
    } else {
      var events := [ServerHandles(p, true, y), Deliver(p)];
      assert events[..1][..0] == [] && Steps(s, events[..1]) == Next(s, events[0]);
      assert Steps(s, events) == Next(Next(s, events[0]), events[1]);
      assert NoLogIn(events) && Steps(s, events).browser.refresh.Some?;
    }
  }

  /** A refresh asks the server with a token that a rotation has replaced. */
  predicate PresentsSpentToken(s: State) {
    exists p :: p in s.posts && p !in s.abandoned && s.posts[p].Asked? && !Newest(s.server, s.posts[p].token)
  }

  /** The page is reloaded now, and these steps follow without another harmful reload. */
  predicate Spoils(s: State, events: seq<Event>) {
    CarefulFrom(ReloadPage(s), events) && PresentsSpentToken(Steps(ReloadPage(s), events))
  }

  /**
   Exactly when a reload is outside the guarantee: after it, some continuation without a further harmful reload
   makes a refresh present a spent token if and only if the refresh that was under way concerns the stored login
   and the server has rotated that login's token, or still would.
   */
  lemma ReloadIsExact(s: State)
    requires Inv(s)
    ensures (exists events :: Spoils(s, events)) <==> Harmful(s)
  {
    if Harmful(s) {
      var y := Unused(s.server.family.Keys);
      var p2 := Unused(s.posts.Keys);
      HarmfulReload(s, y, p2);
      assert Spoils(s, Aftermath(s, y, p2));
    } else {
      ReloadKeepsInv(s);
      forall events
        ensures !Spoils(s, events)
      {
        if CarefulFrom(ReloadPage(s), events) {
          StepsKeepInv(ReloadPage(s), events);
        }
      }
    }
  }

  /** A number outside a finite set. */
  lemma {:induction false} Unused(used: set<nat>) returns (n: nat)
    ensures n !in used && forall k | k in used :: k < n
    decreases |used|
  {
    if used == {} {
      n := 0;
    } else {
      var k :| k in used;
      var m := Unused(used - {k});
      n := if k < m then m else k + 1;
      assert used == (used - {k}) + {k};
    }
  }

  /** The server finishes what it was asked, and the next request that is refused presents the stored token. */
  function Aftermath(s: State, y: Token, p2: PostID): seq<Event>
    requires Harmful(s)
  {
    var p := s.browser.refreshInFlight.value;
    [if Rotated(s.posts[p]) then Deliver(p) else ServerHandles(p, true, y), Send(0, Plain), Respond(0, true, p2)]
  }

  lemma HarmfulReload(s: State, y: Token, p2: PostID)
    requires Inv(s) && Harmful(s) && y !in s.server.family && p2 !in s.posts
    ensures CarefulFrom(ReloadPage(s), Aftermath(s, y, p2)) && PresentsSpentToken(Steps(ReloadPage(s), Aftermath(s, y, p2)))
  {
    var events, p, x := Aftermath(s, y, p2), s.browser.refreshInFlight.value, s.browser.refresh.value;
    var s1 := Next(ReloadPage(s), events[0]);
    SpentAfterReload(s, y);
    var s2 := Next(s1, events[1]);
    var s3 := Next(s2, events[2]);
    assert s2.browser.requests[0] == Request(Plain, false, 1, InAir);
    assert s3.posts[p2] == Asked(x) && s3.server == s1.server && s3.abandoned == s1.abandoned;
    ThreeSteps(ReloadPage(s), events);
  }

  lemma SpentAfterReload(s: State, y: Token)
    requires Inv(s) && Harmful(s) && y !in s.server.family
    ensures var p := s.browser.refreshInFlight.value;
            var s1 := Next(ReloadPage(s), if Rotated(s.posts[p]) then Deliver(p) else ServerHandles(p, true, y));
            && s1.browser == ReloadPage(s).browser && s1.abandoned == ReloadPage(s).abandoned && s1.posts.Keys == s.posts.Keys
            && !Newest(s1.server, s.browser.refresh.value)
  {
    var p, x := s.browser.refreshInFlight.value, s.browser.refresh.value;
    if Rotatable(s.server, s.posts[p]) {
      RotateMovesNewest(s.server, s.posts[p].token, y, x);
      assert Rotate(s.server, s.posts[p].token, y).newest[s.server.family[x]] == y;
    }
  }

  lemma ThreeSteps(s: State, e: seq<Event>)
    requires |e| == 3 && forall x | x in e :: !x.Reload?
    ensures Steps(s, e) == Next(Next(Next(s, e[0]), e[1]), e[2]) && CarefulFrom(s, e)
  {
    assert e[0] in e && e[1] in e && e[2] in e;
    assert e[..2][..1] == e[..1] && e[..1][..0] == [];
    assert Steps(s, e[..1]) == Next(s, e[0]) && CarefulFrom(s, e[..1]);
    assert Steps(s, e[..2]) == Next(Steps(s, e[..1]), e[1]) && CarefulFrom(s, e[..2]);
  }
}
