/**
 The two-party subscription protocol: the browser session on one side, one server connection with
 its permission tree and channel set on the other (backend/internal/websocket/handler.go), and the
 actions still in flight between them. Every list of events is a run, so a statement about all
 lists covers every interleaving of page calls, reconnects, token changes, logouts and deliveries.
 */
module SubscriptionProtocol {
  import opened Basics
  import opened Permissions
  import opened ChannelAuth
  import BS = BrowserSession

  /** One physical connection: what it may see, what is under way, what the server recorded. */
  datatype Connection = Connection(tree: PermissionTree, inflight: seq<BS.Action>, channels: set<string>, serverAlive: bool)

  datatype System = System(browser: BS.Browser, wire: Option<Connection>)

  datatype Event =
    | SubscribeCall(channel: string)
    | UnsubscribeCall(channel: string)
    | ConnectCall(token: string)
    | CleanupCall
    | LogoutCall
    | SocketOpens(order: seq<string>, pendingOrder: seq<string>, tree: PermissionTree)
    | SocketCloses(rejected: bool)
    | HeartbeatFires
    | ServerReads
    | ServerGoes

  const INITIAL := System(BS.INITIAL_BROWSER, None)

  predicate IsOpen(b: BS.Browser) {
    b.instance.Some? && b.instance.value.open
  }

  /** `readPump`: one action read from the socket. */
  function ServerApply(tree: PermissionTree, channels: set<string>, action: BS.Action): set<string> {
    match action
    case Subscribe(ch) => if AuthorizeChannel(Some(tree), ch) then channels + {ch} else channels
    case Unsubscribe(ch) => channels - {ch}
    case Ping => channels
  }

  /** The channel set once every action in flight has been read, in order. */
  function Drain(tree: PermissionTree, channels: set<string>, actions: seq<BS.Action>): set<string> {
    if actions == [] then channels
    else ServerApply(tree, Drain(tree, channels, actions[..|actions| - 1]), actions[|actions| - 1])
  }

  /** A browser call: the socket goes with its instance; what the call sent is now in flight. */
  function AfterCall(s: System, outcome: BS.Outcome): System {
    System(outcome.browser,
           if IsOpen(outcome.browser) && s.wire.Some?
           then Some(s.wire.value.(inflight := s.wire.value.inflight + outcome.sent))
           else None)
  }

  /** One step; an event that cannot happen in `s` leaves it alone. */
  function Next(s: System, e: Event): System {
    match e
    case SubscribeCall(ch) => AfterCall(s, BS.SubscribeChannel(s.browser, ch))
    case UnsubscribeCall(ch) => AfterCall(s, BS.UnsubscribeChannel(s.browser, ch))
    case ConnectCall(token) => AfterCall(s, BS.Outcome(BS.Connect(s.browser, token), []))
    case CleanupCall => AfterCall(s, BS.Outcome(BS.Cleanup(s.browser), []))
    case LogoutCall => AfterCall(s, BS.Outcome(BS.Logout(s.browser), []))
    case SocketOpens(order, pendingOrder, tree) =>
      if s.browser.instance.Some? && !s.browser.instance.value.open && s.browser.instance.value.retrying
         && Enumerates(order, s.browser.refs.Keys) && Enumerates(pendingOrder, s.browser.instance.value.pending)
      then
        var outcome := BS.OnOpen(s.browser, order, pendingOrder);
        System(outcome.browser, Some(Connection(tree, outcome.sent, {}, true)))
      else s
    case SocketCloses(rejected) =>
      if IsOpen(s.browser) then System(BS.OnClose(s.browser, rejected), None) else s
    case HeartbeatFires =>
      if s.browser.instance.Some?
      then AfterCall(s, BS.Outcome(s.browser, BS.SendRaw(s.browser.instance.value, BS.Ping).sent))
      else s
    case ServerReads =>
      if s.wire.Some? && s.wire.value.serverAlive && s.wire.value.inflight != [] then
        var w := s.wire.value;
        s.(wire := Some(w.(inflight := w.inflight[1..], channels := ServerApply(w.tree, w.channels, w.inflight[0]))))
      else s
    case ServerGoes =>
      if s.wire.Some? then s.(wire := Some(s.wire.value.(serverAlive := false))) else s
  }

  function Run(s: System, events: seq<Event>): System {
    if events == [] then s else Next(Run(s, events[..|events| - 1]), events[|events| - 1])
  }

  /** The counted channels that this connection may see. */
  function Wanted(refs: map<string, nat>, tree: PermissionTree): set<string> {
    set ch | ch in refs && AuthorizeChannel(Some(tree), ch)
  }

  predicate BrowserInv(b: BS.Browser) {
    && "" !in b.refs
    && (forall ch | ch in b.refs :: b.refs[ch] >= 1)
    && NoDuplicates(b.subscriptions)
    && (forall ch | ch in b.subscriptions :: ch in b.refs)
    && (b.instance.None? ==> b.subscriptions == [])
    && (b.instance.Some? ==> b.instance.value.pending <= b.refs.Keys)
    && (IsOpen(b) ==> b.instance.value.pending == {} && forall ch | ch in b.refs :: ch in b.subscriptions)
  }

  predicate WireInv(s: System) {
    && (s.wire.Some? <==> IsOpen(s.browser))
    && (s.wire.Some? ==>
          var w := s.wire.value;
          && Drain(w.tree, w.channels, w.inflight) == Wanted(s.browser.refs, w.tree)
          && forall ch | ch in w.channels :: AuthorizeChannel(Some(w.tree), ch))
  }

  predicate Inv(s: System) {
    BrowserInv(s.browser) && WireInv(s)
  }

  // ---- laws of draining ----

  lemma DrainAppend(tree: PermissionTree, channels: set<string>, actions: seq<BS.Action>, a: BS.Action)
    ensures Drain(tree, channels, actions + [a]) == ServerApply(tree, Drain(tree, channels, actions), a)
  {
    assert (actions + [a])[..|actions|] == actions;
  }

  lemma {:induction false} DrainFirst(tree: PermissionTree, channels: set<string>, actions: seq<BS.Action>)
    requires actions != []
    ensures Drain(tree, ServerApply(tree, channels, actions[0]), actions[1..]) == Drain(tree, channels, actions)
  {
    var init, last := actions[..|actions| - 1], actions[|actions| - 1];
    if |actions| > 1 {
      DrainFirst(tree, channels, init);
      assert actions[1..] == init[1..] + [last];
      DrainAppend(tree, ServerApply(tree, channels, actions[0]), init[1..], last);
    }
  }

  function AuthorizedAmong(tree: PermissionTree, order: seq<string>): set<string> {
    set ch | ch in order && AuthorizeChannel(Some(tree), ch)
  }

  lemma AuthorizedAppend(tree: PermissionTree, order: seq<string>, ch: string)
    ensures AuthorizedAmong(tree, order + [ch]) ==
            AuthorizedAmong(tree, order) + if AuthorizeChannel(Some(tree), ch) then {ch} else {}
  {
    assert forall c :: c in order + [ch] <==> c in order || c == ch;
  }

  lemma {:induction false} DrainSubscribes(tree: PermissionTree, channels: set<string>, actions: seq<BS.Action>, order: seq<string>)
    ensures Drain(tree, channels, actions + BS.Subscribes(order)) ==
            Drain(tree, channels, actions) + AuthorizedAmong(tree, order)
  {
    if order == [] {
      assert actions + BS.Subscribes(order) == actions;
    } else {
      var init, last := order[..|order| - 1], order[|order| - 1];
      DrainSubscribes(tree, channels, actions, init);
      assert actions + BS.Subscribes(order) == (actions + BS.Subscribes(init)) + [BS.Subscribe(last)];
      DrainAppend(tree, channels, actions + BS.Subscribes(init), BS.Subscribe(last));
      assert order == init + [last];
      AuthorizedAppend(tree, init, last);
    }
  }

  // ---- every step keeps the invariant ----

  lemma BrowserOnSubscribe(b: BS.Browser, ch: string)
    requires BrowserInv(b)
    ensures BrowserInv(BS.SubscribeChannel(b, ch).browser)
  {
    if ch != "" {
      assert b.refs[ch := BS.RefCount(b, ch) + 1].Keys == b.refs.Keys + {ch};
    }
  }

  lemma SubscribeKeepsInv(s: System, ch: string)
    requires Inv(s)
    ensures Inv(Next(s, SubscribeCall(ch)))
  {
    BrowserOnSubscribe(s.browser, ch);
    SubscribeKeepsWire(s, ch);
  }

  lemma SubscribeKeepsWire(s: System, ch: string)
    requires Inv(s)
    ensures WireInv(Next(s, SubscribeCall(ch)))
  {
    if s.wire.Some? && ch != "" && ch !in s.browser.refs {
      DrainAppend(s.wire.value.tree, s.wire.value.channels, s.wire.value.inflight, BS.Subscribe(ch));
    } else if s.wire.Some? {
      assert s.wire.value.inflight + [] == s.wire.value.inflight;
    }
  }

  lemma UnsubscribeKeepsInv(s: System, ch: string)
    requires Inv(s)
    ensures Inv(Next(s, UnsubscribeCall(ch)))
  {
    BS.RemoveSubscriptionLaw(s.browser.subscriptions, ch);
    if ch != "" && BS.RefCount(s.browser, ch) > 1 {
      assert (s.browser.refs[ch := s.browser.refs[ch] - 1]).Keys == s.browser.refs.Keys;
    }
    if s.wire.Some? && ch != "" && BS.RefCount(s.browser, ch) <= 1 {
      DrainAppend(s.wire.value.tree, s.wire.value.channels, s.wire.value.inflight, BS.Unsubscribe(ch));
    } else if s.wire.Some? {
      assert s.wire.value.inflight + [] == s.wire.value.inflight;
    }
  }

  /** What `onopen` sends, restored and pending together, amounts to the wanted channels. */
  lemma DrainOnOpen(b: BS.Browser, order: seq<string>, pendingOrder: seq<string>, tree: PermissionTree)
    requires b.instance.Some? && BrowserInv(b)
    requires Enumerates(order, b.refs.Keys) && Enumerates(pendingOrder, b.instance.value.pending)
    ensures Drain(tree, {}, BS.Subscribes(order) + BS.Subscribes(pendingOrder)) == Wanted(b.refs, tree)
  {
    DrainTwice(tree, order, pendingOrder);
    EnumerationMembers(order, b.refs.Keys);
    EnumerationMembers(pendingOrder, b.instance.value.pending);
    assert AuthorizedAmong(tree, order) == Wanted(b.refs, tree);
    assert AuthorizedAmong(tree, pendingOrder) <= Wanted(b.refs, tree);
  }

  lemma DrainTwice(tree: PermissionTree, order: seq<string>, more: seq<string>)
    ensures Drain(tree, {}, BS.Subscribes(order) + BS.Subscribes(more)) == AuthorizedAmong(tree, order) + AuthorizedAmong(tree, more)
  {
    DrainSubscribes(tree, {}, BS.Subscribes(order), more);
    DrainSubscribes(tree, {}, [], order);
    assert [] + BS.Subscribes(order) == BS.Subscribes(order);
  }

  lemma BrowserOnOpen(b: BS.Browser, order: seq<string>, pendingOrder: seq<string>)
    requires b.instance.Some? && BrowserInv(b)
    requires Enumerates(order, b.refs.Keys)
    ensures BrowserInv(BS.OnOpen(b, order, pendingOrder).browser)
  {
    EnumerationMembers(order, b.refs.Keys);
    BS.AddAllLaw(b.subscriptions, order);
  }

  lemma OpeningKeepsInv(s: System, order: seq<string>, pendingOrder: seq<string>, tree: PermissionTree)
    requires Inv(s)
    ensures Inv(Next(s, SocketOpens(order, pendingOrder, tree)))
  {
    if Next(s, SocketOpens(order, pendingOrder, tree)) != s {
      BrowserOnOpen(s.browser, order, pendingOrder);
      DrainOnOpen(s.browser, order, pendingOrder, tree);
    }
  }

  lemma {:induction false} StepKeepsInv(s: System, e: Event)
    requires Inv(s)
    ensures Inv(Next(s, e))
  {
    match e
    case SubscribeCall(ch) => SubscribeKeepsInv(s, ch);
    case UnsubscribeCall(ch) => UnsubscribeKeepsInv(s, ch);
    case SocketOpens(order, pendingOrder, tree) => OpeningKeepsInv(s, order, pendingOrder, tree);
    case ServerReads =>
      if s.wire.Some? && s.wire.value.inflight != [] {
        DrainFirst(s.wire.value.tree, s.wire.value.channels, s.wire.value.inflight);
      }
    case HeartbeatFires =>
      if s.wire.Some? {
        DrainAppend(s.wire.value.tree, s.wire.value.channels, s.wire.value.inflight, BS.Ping);
      }
    case ConnectCall(_) =>
      if s.wire.Some? {
        assert s.wire.value.inflight + [] == s.wire.value.inflight;
      }
    case _ =>
  }

  lemma {:induction false} RunKeepsInv(events: seq<Event>)
    ensures Inv(Run(INITIAL, events))
  {
    if events != [] {
      RunKeepsInv(events[..|events| - 1]);
      StepKeepsInv(Run(INITIAL, events[..|events| - 1]), events[|events| - 1]);
    }
  }

  // ---- the calls that were made ----

  /**
   How many components use a channel, judged by the page's calls alone: each subscribe adds one, each unsubscribe
   takes one away if there is one, and a logout forgets them all.
   */
  function Subscribers(events: seq<Event>, ch: string): nat {
    if events == [] then 0
    else
      var n := Subscribers(events[..|events| - 1], ch);
      match events[|events| - 1]
      case SubscribeCall(c) => if c == ch && ch != "" then n + 1 else n
      case UnsubscribeCall(c) => if c == ch && n > 0 then n - 1 else n
      case LogoutCall => 0
      case _ => n
  }

  /** The token of the last connect call, unless a cleanup or a logout came after it. */
  function LastToken(events: seq<Event>): Option<string> {
    if events == [] then None
    else
      match events[|events| - 1]
      case ConnectCall(token) => Some(token)
      case CleanupCall => None
      case LogoutCall => None
      case _ => LastToken(events[..|events| - 1])
  }

  /** The server has refused the present token: an open socket was closed with a rejection since it was first given. */
  predicate Refused(events: seq<Event>) {
    if events == [] then false
    else
      var before := events[..|events| - 1];
      match events[|events| - 1]
      case SocketCloses(rejected) => Refused(before) || (rejected && IsOpen(Run(INITIAL, before).browser))
      case ConnectCall(token) => Refused(before) && LastToken(before) == Some(token)
      case CleanupCall => false
      case LogoutCall => false
      case _ => Refused(before)
  }

  /** Exactly the channels that some component uses and the tree allows. */
  ghost predicate AsAsked(channels: set<string>, events: seq<Event>, tree: PermissionTree) {
    forall ch :: ch in channels <==> Subscribers(events, ch) > 0 && AuthorizeChannel(Some(tree), ch)
  }

  // ---- main results ----

  /** On every run the browser counts, for every channel, the components that use it, and keeps no other entry. */
  lemma {:induction false} CountsAreTheCalls(events: seq<Event>, ch: string)
    ensures var b := Run(INITIAL, events).browser;
            BS.RefCount(b, ch) == Subscribers(events, ch) && (ch in b.refs <==> Subscribers(events, ch) > 0)
  {
    if events != [] {
      CountsAreTheCalls(events[..|events| - 1], ch);
      RunKeepsInv(events[..|events| - 1]);
    }
  }

  lemma WantedIsAsAsked(events: seq<Event>, tree: PermissionTree)
    ensures AsAsked(Wanted(Run(INITIAL, events).browser.refs, tree), events, tree)
  {
    forall ch
      ensures ch in Wanted(Run(INITIAL, events).browser.refs, tree) <==> Subscribers(events, ch) > 0 && AuthorizeChannel(Some(tree), ch)
    {
      CountsAreTheCalls(events, ch);
    }
  }

  /**
   Convergence. On every run, while the socket is open, reading what is in flight leaves the server
   with exactly the channels that some component uses and that the server authorizes.
   */
  lemma Convergence(events: seq<Event>)
    ensures var s := Run(INITIAL, events);
            IsOpen(s.browser) ==>
              && s.wire.Some?
              && AsAsked(Drain(s.wire.value.tree, s.wire.value.channels, s.wire.value.inflight), events, s.wire.value.tree)
              && (s.wire.value.inflight == [] ==> AsAsked(s.wire.value.channels, events, s.wire.value.tree))
  {
    RunKeepsInv(events);
    var s := Run(INITIAL, events);
    if s.wire.Some? { WantedIsAsAsked(events, s.wire.value.tree); }
  }

  /** The Redux list of an open session is the channels in use, each once; without a session it is empty. */
  lemma ReduxMirrorsRefs(events: seq<Event>)
    ensures var b := Run(INITIAL, events).browser;
            && NoDuplicates(b.subscriptions)
            && (IsOpen(b) ==> forall ch :: ch in b.subscriptions <==> Subscribers(events, ch) > 0)
            && (b.instance.None? ==> b.subscriptions == [])
  {
    RunKeepsInv(events);
    forall ch ensures ch in Run(INITIAL, events).browser.refs <==> Subscribers(events, ch) > 0 {
      CountsAreTheCalls(events, ch);
    }
  }

  /** On every run the session is that of the last connect call, and retries until its token is refused. */
  lemma {:induction false} SessionFollowsTheCalls(events: seq<Event>)
    ensures var b := Run(INITIAL, events).browser;
            && (b.instance.Some? <==> LastToken(events).Some?)
            && (b.instance.Some? ==> b.instance.value.token == LastToken(events).value
                                     && (b.instance.value.retrying <==> !Refused(events)))
  {
    if events != [] {
      SessionFollowsTheCalls(events[..|events| - 1]);
    }
  }

  /** Connecting again with the present token changes nothing: no socket is dropped and nothing is sent. */
  lemma ReconnectIsIdle(events: seq<Event>, token: string)
    requires LastToken(events) == Some(token)
    ensures Run(INITIAL, events + [ConnectCall(token)]) == Run(INITIAL, events)
  {
    SessionFollowsTheCalls(events);
    RunKeepsInv(events);
    var s := Run(INITIAL, events);
    assert (events + [ConnectCall(token)])[..|events|] == events;
    if s.wire.Some? { assert s.wire.value.inflight + [] == s.wire.value.inflight; }
  }

  /** At every moment the server records only channels that the connection's tree allows. */
  lemma RecordedChannelsAreAuthorized(events: seq<Event>, ch: string)
    ensures var s := Run(INITIAL, events);
            s.wire.Some? && ch in s.wire.value.channels ==> AuthorizeChannel(Some(s.wire.value.tree), ch)
  {
    RunKeepsInv(events);
  }

  function Reads(n: nat): seq<Event> {
    seq(n, _ => ServerReads)
  }

  lemma {:induction false} ReadingEmptiesTheQueue(s: System, n: nat)
    requires Inv(s) && s.wire.Some? && s.wire.value.serverAlive && n <= |s.wire.value.inflight|
    ensures var s' := Run(s, Reads(n));
            && Inv(s') && s'.browser == s.browser && s'.wire.Some? && s'.wire.value.serverAlive
            && s'.wire.value.tree == s.wire.value.tree && s'.wire.value.inflight == s.wire.value.inflight[n..]
  {
    if n > 0 {
      assert Reads(n)[..n - 1] == Reads(n - 1);
      ReadingEmptiesTheQueue(s, n - 1);
      StepKeepsInv(Run(s, Reads(n - 1)), ServerReads);
    }
  }

  /**
   Agreement is reached, not only approached: from any moment of any run at which the connection is alive, the
   server has recorded exactly the channels in use that it authorizes once it has read what is in flight.
   */
  lemma ServerCatchesUp(events: seq<Event>)
    ensures var s := Run(INITIAL, events);
            s.wire.Some? && s.wire.value.serverAlive ==>
              var s' := Run(s, Reads(|s.wire.value.inflight|));
              s'.wire.Some? && AsAsked(s'.wire.value.channels, events, s.wire.value.tree)
  {
    var s := Run(INITIAL, events);
    RunKeepsInv(events);
    if s.wire.Some? && s.wire.value.serverAlive {
      ReadingEmptiesTheQueue(s, |s.wire.value.inflight|);
      WantedIsAsAsked(events, s.wire.value.tree);
    }
  }

  /**
   A lost connection loses nothing: whenever a session that was not refused is down, it can open again, under
   whatever tree the server then loads, and the server has recorded the channels in use once it has read what
   the browser sends on opening.
   */
  lemma ReopeningRestores(events: seq<Event>, tree: PermissionTree)
    requires LastToken(events).Some? && !Refused(events) && !IsOpen(Run(INITIAL, events).browser)
    ensures exists order, pendingOrder ::
              var s := Next(Run(INITIAL, events), SocketOpens(order, pendingOrder, tree));
              && IsOpen(s.browser) && s.wire.Some? && s.wire.value.tree == tree
              && var s' := Run(s, Reads(|s.wire.value.inflight|));
                 s'.wire.Some? && AsAsked(s'.wire.value.channels, events, tree)
  {
    var s := Run(INITIAL, events);
    RunKeepsInv(events);
    SessionFollowsTheCalls(events);
    var order := SomeOrder(s.browser.refs.Keys);
    var pendingOrder := SomeOrder(s.browser.instance.value.pending);
    var s1 := Next(s, SocketOpens(order, pendingOrder, tree));
    OpeningKeepsInv(s, order, pendingOrder, tree);
    ReadingEmptiesTheQueue(s1, |s1.wire.value.inflight|);
    WantedIsAsAsked(events, tree);
  }

  lemma {:induction false} SomeOrder(s: set<string>) returns (order: seq<string>)
    ensures Enumerates(order, s)
    decreases |s|
  {
    if s == {} {
      order := [];
    } else {
      var x :| x in s;
      var init := SomeOrder(s - {x});
      EnumerateOneMore(init, s - {x}, x);
      assert s == s - {x} + {x};
      order := init + [x];
    }
  }
}
