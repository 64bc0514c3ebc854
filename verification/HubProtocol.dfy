/**
 The WebSocket hub (backend/internal/websocket/hub.go) as a state machine: clients arrive and
 leave, the main loop takes from its queues in any order, and broadcasts come from the loop and
 from the Redis listeners. `C` identifies a client. A send on a closed queue and a second close
 make a Go program panic; here they set `panicked`.
 */
module HubProtocol {
  import opened Basics
  import opened Permissions
  import opened ChannelAuth
  import SP = SubscriptionProtocol
  import BS = BrowserSession

  const REGISTER_CAPACITY := 64
  const BROADCAST_CAPACITY := 256
  const SEND_CAPACITY := 256

  /** What a client's queue holds. `raw` is present for progress events from Redis; pongs and errors are direct. */
  datatype Message =
    | OnChannel(channel: string, payload: string, raw: Option<Option<ProgressPayload>>)
    | ToAll(payload: string)
    | Direct(payload: string)

  /** `reading` until the read pump has ended, which is when the client is unregistered. */
  datatype Conn = Conn(tree: PermissionTree, channels: set<string>, queue: seq<Message>, closes: nat, reading: bool)

  datatype HubState<C(==)> = HubState(
    conns: map<C, Conn>,
    clients: set<C>,
    registerQ: seq<C>,
    unregisterQ: seq<C>,
    broadcastQ: seq<Message>,
    stopRequested: bool,
    loopExited: bool,
    panicked: bool,
    // history: the clients closed by the stop case, and those whose own reply met a closed queue
    stopped: set<C>,
    faults: set<C>)

  datatype Event<C> =
    | Arrive(client: C, tree: PermissionTree)
    | Act(client: C, action: BS.Action)
    | Reply(client: C, payload: string)
    | Leave(client: C)
    | WritePump(client: C)
    | BroadcastCall(payload: string)
    | ChannelBroadcast(channel: string, payload: string, raw: Option<Option<ProgressPayload>>)
    | StopCall
    | LoopStops
    | LoopRegisters
    | LoopUnregisters
    | LoopBroadcasts

  function Initial<C>(): HubState<C> {
    HubState(map[], {}, [], [], [], false, false, false, {}, {})
  }

  function Fresh(tree: PermissionTree): Conn {
    Conn(tree, {}, [], 0, true)
  }

  /** A non-blocking send: a full queue drops the message. */
  function Offer(conn: Conn, m: Message): Conn {
    if |conn.queue| < SEND_CAPACITY then conn.(queue := conn.queue + [m]) else conn
  }

  function Close(conn: Conn): Conn {
    conn.(closes := conn.closes + 1)
  }

  /** The extra test on progress events that come with their payload. */
  predicate MaySee(tree: PermissionTree, channel: string, raw: Option<Option<ProgressPayload>>) {
    channel == TYPE_TASK_PROGRESS && raw.Some? ==> AuthorizeTaskProgressPayload(Some(tree), raw.value)
  }

  /** Would a registered client be sent a channel message? */
  predicate Hears(conn: Conn, channel: string, raw: Option<Option<ProgressPayload>>) {
    Subscribed(conn.channels, channel) && MaySee(conn.tree, channel, raw)
  }

  /** The clients that a channel broadcast addresses. */
  function Audience<C>(s: HubState<C>, channel: string, raw: Option<Option<ProgressPayload>>): set<C> {
    set c | c in s.conns && c in s.clients && Hears(s.conns[c], channel, raw)
  }

  function SendTo<C>(s: HubState<C>, targets: set<C>, m: Message): HubState<C> {
    s.(conns := map c | c in s.conns :: if c in targets then Offer(s.conns[c], m) else s.conns[c],
       panicked := s.panicked || exists c | c in targets && c in s.conns :: s.conns[c].closes > 0)
  }

  function CloseAll<C>(s: HubState<C>, targets: set<C>): HubState<C> {
    s.(conns := map c | c in s.conns :: if c in targets then Close(s.conns[c]) else s.conns[c],
       panicked := s.panicked || exists c | c in targets && c in s.conns :: s.conns[c].closes > 0)
  }

  /** The read pump ends: its deferred `Unregister`, dropped when the queue is full. */
  function StopReading<C>(s: HubState<C>, c: C): HubState<C>
    requires c in s.conns
  {
    s.(conns := s.conns[c := s.conns[c].(reading := false)],
       unregisterQ := if |s.unregisterQ| < REGISTER_CAPACITY then s.unregisterQ + [c] else s.unregisterQ)
  }

  /** The read pump answers on its client's own queue; on a closed one the send panics and the pump ends. */
  predicate HitsClosedQueue<C>(s: HubState<C>, c: C) {
    c in s.conns && s.conns[c].reading && s.conns[c].closes > 0
  }

  /** One step; an event that cannot happen in `s` leaves it alone. Each client arrives once. */
  function Next<C>(s: HubState<C>, e: Event<C>): HubState<C> {
    match e
    case Arrive(c, tree) =>
      if c in s.conns then s else
        s.(conns := s.conns[c := Fresh(tree)],
           registerQ := if |s.registerQ| < REGISTER_CAPACITY then s.registerQ + [c] else s.registerQ)
    case Act(c, action) =>
      if c !in s.conns then s else
        var conn := s.conns[c];
        s.(conns := s.conns[c := conn.(channels := SP.ServerApply(conn.tree, conn.channels, action))])
    case Reply(c, payload) =>
      if c !in s.conns || !s.conns[c].reading then s
      else if HitsClosedQueue(s, c) then StopReading(s, c).(faults := s.faults + {c})
      else s.(conns := s.conns[c := Offer(s.conns[c], Direct(payload))])
    case Leave(c) =>
      if c !in s.conns || !s.conns[c].reading then s else StopReading(s, c)
    case WritePump(c) =>
      if c !in s.conns || s.conns[c].queue == [] then s else
        s.(conns := s.conns[c := s.conns[c].(queue := s.conns[c].queue[1..])])
    case BroadcastCall(payload) =>
      if |s.broadcastQ| < BROADCAST_CAPACITY then s.(broadcastQ := s.broadcastQ + [ToAll(payload)]) else s
    case ChannelBroadcast(channel, payload, raw) =>
      SendTo(s, Audience(s, channel, raw), OnChannel(channel, payload, raw))
    case StopCall => s.(stopRequested := true)
    case LoopStops =>
      if s.loopExited || !s.stopRequested then s else CloseAll(s, s.clients).(clients := {}, loopExited := true, stopped := s.stopped + s.clients)
    case LoopRegisters =>
      if s.loopExited || s.registerQ == [] then s else
        s.(clients := s.clients + {s.registerQ[0]}, registerQ := s.registerQ[1..])
    case LoopUnregisters =>
      if s.loopExited || s.unregisterQ == [] then s else
        var c, s' := s.unregisterQ[0], s.(unregisterQ := s.unregisterQ[1..]);
        if c in s.clients then CloseAll(s', {c}).(clients := s.clients - {c}) else s'
    case LoopBroadcasts =>
      if s.loopExited || s.broadcastQ == [] then s else
        SendTo(s, s.clients, s.broadcastQ[0]).(broadcastQ := s.broadcastQ[1..])
  }

  function Run<C>(events: seq<Event<C>>): HubState<C> {
    if events == [] then Initial() else Next(Run(events[..|events| - 1]), events[|events| - 1])
  }

  // ---- invariant ----

  /** Everything a client is told on a channel, its tree allows. */
  predicate ConnInv(conn: Conn) {
    && (forall ch | ch in conn.channels :: AuthorizeChannel(Some(conn.tree), ch))
    && (forall m | m in conn.queue && m.OnChannel? ::
          AuthorizeChannel(Some(conn.tree), m.channel) && MaySee(conn.tree, m.channel, m.raw))
    && |conn.queue| <= SEND_CAPACITY
  }

  predicate Inv<C>(s: HubState<C>) {
    && !s.panicked
    && (forall c | c in s.conns :: ConnInv(s.conns[c]))
    && (forall c | c in s.clients :: c in s.conns && s.conns[c].closes == 0 && c !in s.registerQ)
    && (forall c | c in s.registerQ :: c in s.conns && s.conns[c].closes == 0)
    && (forall c | c in s.conns :: s.conns[c].closes <= 1)
    && NoDuplicates(s.registerQ)
    && (forall m | m in s.broadcastQ :: m.ToAll?)
    && (s.loopExited ==> s.clients == {})
    && (forall c | c in s.unregisterQ :: c in s.conns && !s.conns[c].reading)
    && (forall c | c in s.conns && s.conns[c].closes > 0 && s.conns[c].reading :: c in s.stopped)
    && (forall c | c in s.stopped :: c in s.conns && s.conns[c].closes > 0)
    && s.faults <= s.stopped
  }

  lemma OfferKeepsConnInv(conn: Conn, m: Message)
    requires ConnInv(conn)
    requires m.OnChannel? ==> AuthorizeChannel(Some(conn.tree), m.channel) && MaySee(conn.tree, m.channel, m.raw)
    ensures ConnInv(Offer(conn, m))
  {
  }

  lemma ChannelBroadcastKeepsInv<C>(s: HubState<C>, channel: string, payload: string, raw: Option<Option<ProgressPayload>>)
    requires Inv(s)
    ensures Inv(Next(s, ChannelBroadcast(channel, payload, raw)))
  {
    var m := OnChannel(channel, payload, raw);
    forall c | c in Audience(s, channel, raw)
      ensures ConnInv(Offer(s.conns[c], m))
    {
      SubscribedIsMembership(Some(s.conns[c].tree), s.conns[c].channels, channel);
      OfferKeepsConnInv(s.conns[c], m);
    }
  }

  lemma LoopBroadcastKeepsInv<C>(s: HubState<C>)
    requires Inv(s)
    ensures Inv(Next(s, LoopBroadcasts))
  {
    if !s.loopExited && s.broadcastQ != [] {
      assert s.broadcastQ[0] in s.broadcastQ;
      forall c | c in s.clients
        ensures ConnInv(Offer(s.conns[c], s.broadcastQ[0]))
      {
        OfferKeepsConnInv(s.conns[c], s.broadcastQ[0]);
      }
    }
  }

  /** A client's channels or queue may change within its own invariant. */
  lemma ConnKeepsInv<C>(s: HubState<C>, c: C, conn: Conn)
    requires Inv(s) && c in s.conns && ConnInv(conn)
    requires conn.closes == s.conns[c].closes && conn.reading == s.conns[c].reading
    ensures Inv(s.(conns := s.conns[c := conn]))
  {
  }

  lemma ActKeepsInv<C>(s: HubState<C>, c: C, action: BS.Action)
    requires Inv(s)
    ensures Inv(Next(s, Act(c, action)))
  {
    if c in s.conns {
      assert ConnInv(Next(s, Act(c, action)).conns[c]);
    }
  }

  lemma ArriveKeepsInv<C>(s: HubState<C>, c: C, tree: PermissionTree)
    requires Inv(s)
    ensures Inv(Next(s, Arrive(c, tree)))
  {
    assert ConnInv(Fresh(tree));
  }

  lemma WritePumpKeepsInv<C>(s: HubState<C>, c: C)
    requires Inv(s)
    ensures Inv(Next(s, WritePump(c)))
  {
    if c in s.conns && s.conns[c].queue != [] {
      var q := s.conns[c].queue;
      assert ConnInv(s.conns[c]) && forall m | m in q[1..] :: m in q;
      ConnKeepsInv(s, c, s.conns[c].(queue := q[1..]));
    }
  }

  lemma LoopRegistersKeepsInv<C>(s: HubState<C>)
    requires Inv(s)
    ensures Inv(Next(s, LoopRegisters))
  {
    if !s.loopExited && s.registerQ != [] {
      var c := s.registerQ[0];
      assert c in s.registerQ && forall x | x in s.registerQ[1..] :: x in s.registerQ;
    }
  }

  /** Closing registered clients that have stopped reading, or that are closed by the stop case. */
  lemma ClosingKeepsInv<C>(s: HubState<C>, targets: set<C>, stopped: set<C>)
    requires Inv(s) && targets <= s.clients && stopped <= targets
    requires forall c | c in targets - stopped :: !s.conns[c].reading
    ensures Inv(CloseAll(s, targets).(clients := s.clients - targets, stopped := s.stopped + stopped))
  {
    var s' := CloseAll(s, targets).(clients := s.clients - targets, stopped := s.stopped + stopped);
    forall c | c in s'.conns
      ensures ConnInv(s'.conns[c]) && s'.conns[c].closes <= 1
    {
      assert ConnInv(s.conns[c]);
    }
  }

  lemma LoopUnregistersKeepsInv<C>(s: HubState<C>)
    requires Inv(s)
    ensures Inv(Next(s, LoopUnregisters))
  {
    if !s.loopExited && s.unregisterQ != [] {
      var c, s' := s.unregisterQ[0], s.(unregisterQ := s.unregisterQ[1..]);
      assert c in s.unregisterQ && forall x | x in s.unregisterQ[1..] :: x in s.unregisterQ;
      assert Inv(s');
      if c in s.clients {
        ClosingKeepsInv(s', {c}, {});
        assert s'.stopped + {} == s'.stopped;
      }
    }
  }

  lemma LoopStopsKeepsInv<C>(s: HubState<C>)
    requires Inv(s)
    ensures Inv(Next(s, LoopStops))
  {
    ClosingKeepsInv(s, s.clients, s.clients);
    assert s.clients - s.clients == {};
  }

  lemma ReadingEndsKeepsInv<C>(s: HubState<C>, c: C)
    requires Inv(s) && c in s.conns
    ensures Inv(StopReading(s, c))
  {
    assert ConnInv(s.conns[c].(reading := false));
  }

  lemma ReplyKeepsInv<C>(s: HubState<C>, c: C, payload: string)
    requires Inv(s)
    ensures Inv(Next(s, Reply(c, payload)))
  {
    if c in s.conns && s.conns[c].reading {
      if HitsClosedQueue(s, c) {
        ReadingEndsKeepsInv(s, c);
      } else {
        OfferKeepsConnInv(s.conns[c], Direct(payload));
        ConnKeepsInv(s, c, Offer(s.conns[c], Direct(payload)));
      }
    }
  }

  lemma QueuedKeepsInv<C>(s: HubState<C>, payload: string)
    requires Inv(s)
    ensures Inv(Next(s, BroadcastCall(payload)))
  {
  }

  lemma StopKeepsInv<C>(s: HubState<C>)
    requires Inv(s)
    ensures Inv(Next(s, StopCall))
  {
  }

  lemma {:induction false} StepKeepsInv<C>(s: HubState<C>, e: Event<C>)
    requires Inv(s)
    ensures Inv(Next(s, e))
  {
    match e
    case Arrive(c, tree) => ArriveKeepsInv(s, c, tree);
    case Act(c, action) => ActKeepsInv(s, c, action);
    case WritePump(c) => WritePumpKeepsInv(s, c);
    case ChannelBroadcast(channel, payload, raw) => ChannelBroadcastKeepsInv(s, channel, payload, raw);
    case LoopStops => LoopStopsKeepsInv(s);
    case LoopRegisters => LoopRegistersKeepsInv(s);
    case LoopUnregisters => LoopUnregistersKeepsInv(s);
    case LoopBroadcasts => LoopBroadcastKeepsInv(s);
    case Reply(c, payload) => ReplyKeepsInv(s, c, payload);
    case Leave(c) => if c in s.conns { ReadingEndsKeepsInv(s, c); }
    case BroadcastCall(payload) => QueuedKeepsInv(s, payload);
    case StopCall => StopKeepsInv(s);
  }

  lemma {:induction false} RunKeepsInv<C>(events: seq<Event<C>>)
    ensures Inv(Run(events))
  {
    if events != [] {
      RunKeepsInv(events[..|events| - 1]);
      StepKeepsInv(Run(events[..|events| - 1]), events[|events| - 1]);
    }
  }

  // ---- main results ----

  /**
   In every order of arrivals, departures, broadcasts and stop - also when a departure is handled
   before its arrival - no queue is closed twice or written after it is closed, and a closed client
   is neither among the clients nor waiting to be registered.
   */
  lemma CloseOnce<C>(events: seq<Event<C>>, c: C)
    ensures var s := Run(events);
            && !s.panicked
            && (c in s.conns ==> s.conns[c].closes <= 1)
            && (c in s.conns && s.conns[c].closes == 1 ==> c !in s.clients && c !in s.registerQ)
            && (s.loopExited ==> s.clients == {})
  {
    RunKeepsInv(events);
  }

  /**
   Exactly when a reply of a read pump meets a closed queue: the pump is still reading although the stop case has
   closed its client. Closing by an unregistration never does it, because that comes after the pump has ended.
   */
  lemma ReplyFaultIsExact<C>(events: seq<Event<C>>, c: C)
    requires c in Run(events).conns
    ensures var s := Run(events);
            && (HitsClosedQueue(s, c) <==> s.conns[c].reading && c in s.stopped)
            && (c in s.faults ==> c in s.stopped)
  {
    RunKeepsInv(events);
  }

  /** And the stop case does cause it: any registered client whose pump is still reading can reply afterwards. */
  lemma StopThenReplyFaults<C>(events: seq<Event<C>>, c: C, payload: string)
    requires var s := Run(events); s.stopRequested && !s.loopExited && c in s.clients && c in s.conns && s.conns[c].reading
    ensures c in Next(Next(Run(events), LoopStops), Reply(c, payload)).faults
  {
    RunKeepsInv(events);
  }

  /** On every run the hub's prefix test is plain membership, and every recorded channel is allowed. */
  lemma SubscribedIsMembershipOnRuns<C>(events: seq<Event<C>>, c: C, channel: string)
    requires c in Run(events).conns
    ensures var conn := Run(events).conns[c];
            && (Subscribed(conn.channels, channel) <==> channel in conn.channels)
            && (channel in conn.channels ==> '*' !in channel && AuthorizeChannel(Some(conn.tree), channel))
  {
    RunKeepsInv(events);
    SubscribedIsMembership(Some(Run(events).conns[c].tree), Run(events).conns[c].channels, channel);
  }

  /** A log line of pod (cl, n, p) is only ever queued for clients with scope on (cl, n). */
  lemma PodLogsStayInScope<C>(events: seq<Event<C>>, c: C, m: Message, cl: string, n: string, p: string)
    requires c in Run(events).conns && m in Run(events).conns[c].queue
    requires m.OnChannel? && m.channel == PodLogChannelName(cl, n, p)
    ensures HasNamespaceScope(Run(events).conns[c].tree, cl, n)
    ensures PlainName(cl) && PlainName(n) && PlainName(p)
  {
    RunKeepsInv(events);
    PodLogChannelAccepted(Some(Run(events).conns[c].tree), cl, n, p);
  }

  /** A progress event from Redis is only ever queued for clients that may see its cluster and namespace. */
  lemma ProgressStaysInScope<C>(events: seq<Event<C>>, c: C, m: Message)
    requires c in Run(events).conns && m in Run(events).conns[c].queue
    requires m.OnChannel? && m.channel == TYPE_TASK_PROGRESS && m.raw.Some?
    ensures AuthorizeTaskProgressPayload(Some(Run(events).conns[c].tree), m.raw.value)
  {
    RunKeepsInv(events);
  }

  /** And nobody is forgotten: a registered subscriber that may see the event and has room receives it. */
  lemma BroadcastReaches<C>(events: seq<Event<C>>, c: C, channel: string, payload: string, raw: Option<Option<ProgressPayload>>)
    requires c in Run(events).conns
    ensures var s := Run(events);
            var before, after := s.conns[c], Next(s, ChannelBroadcast(channel, payload, raw)).conns[c];
            after.queue == before.queue +
              if c in s.clients && channel in before.channels && MaySee(before.tree, channel, raw) && |before.queue| < SEND_CAPACITY
              then [OnChannel(channel, payload, raw)] else []
  {
    SubscribedIsMembershipOnRuns(events, c, channel);
    BroadcastQueues(Run(events), c, channel, payload, raw);
  }

  lemma BroadcastQueues<C>(s: HubState<C>, c: C, channel: string, payload: string, raw: Option<Option<ProgressPayload>>)
    requires c in s.conns
    ensures Next(s, ChannelBroadcast(channel, payload, raw)).conns[c].queue == s.conns[c].queue +
              if c in Audience(s, channel, raw) && |s.conns[c].queue| < SEND_CAPACITY
              then [OnChannel(channel, payload, raw)] else []
  {
    assert s.conns[c].queue + [] == s.conns[c].queue;
  }

  // ---- every client has one life ----

  /** The loop takes `c` from the register queue. */
  predicate Registers<C(==)>(s: HubState<C>, e: Event<C>, c: C) {
    e.LoopRegisters? && !s.loopExited && s.registerQ != [] && s.registerQ[0] == c
  }

  /** The loop takes `c`, which is in the map, from the unregister queue, or stops while it is in the map. */
  predicate Dismisses<C(==)>(s: HubState<C>, e: Event<C>, c: C) {
    && c in s.clients && !s.loopExited
    && ((e.LoopUnregisters? && s.unregisterQ != [] && s.unregisterQ[0] == c) || (e.LoopStops? && s.stopRequested))
  }

  ghost predicate WasRegistered<C(!new)>(events: seq<Event<C>>, c: C) {
    exists n :: 0 <= n < |events| && Registers(Run(events[..n]), events[n], c)
  }

  ghost predicate WasDismissed<C(!new)>(events: seq<Event<C>>, c: C) {
    exists n :: 0 <= n < |events| && Dismisses(Run(events[..n]), events[n], c)
  }

  lemma RegisteredOneMore<C(!new)>(events: seq<Event<C>>, c: C)
    requires events != []
    ensures var before, e := events[..|events| - 1], events[|events| - 1];
            WasRegistered(events, c) <==> WasRegistered(before, c) || Registers(Run(before), e, c)
  {
    var before := events[..|events| - 1];
    if WasRegistered(before, c) {
      var n :| 0 <= n < |before| && Registers(Run(before[..n]), before[n], c);
      assert before[..n] == events[..n] && before[n] == events[n];
    }
    if WasRegistered(events, c) {
      var n :| 0 <= n < |events| && Registers(Run(events[..n]), events[n], c);
      if n < |before| { assert before[..n] == events[..n] && before[n] == events[n]; }
    }
  }

  lemma DismissedOneMore<C(!new)>(events: seq<Event<C>>, c: C)
    requires events != []
    ensures var before, e := events[..|events| - 1], events[|events| - 1];
            WasDismissed(events, c) <==> WasDismissed(before, c) || Dismisses(Run(before), e, c)
  {
    var before := events[..|events| - 1];
    if WasDismissed(before, c) {
      var n :| 0 <= n < |before| && Dismisses(Run(before[..n]), before[n], c);
      assert before[..n] == events[..n] && before[n] == events[n];
    }
    if WasDismissed(events, c) {
      var n :| 0 <= n < |events| && Dismisses(Run(events[..n]), events[n], c);
      if n < |before| { assert before[..n] == events[..n] && before[n] == events[n]; }
    }
  }

  function Closes<C>(s: HubState<C>, c: C): nat { if c in s.conns then s.conns[c].closes else 0 }

  /** Only the loop moves a client into the map, out of it, or closes it. */
  lemma StepMovesClient<C>(s: HubState<C>, e: Event<C>, c: C)
    requires Inv(s)
    ensures var s' := Next(s, e);
            && (c in s'.clients <==> (c in s.clients || Registers(s, e, c)) && !Dismisses(s, e, c))
            && Closes(s', c) == Closes(s, c) + if Dismisses(s, e, c) then 1 else 0
  {
  }

  /**
   On every run a client is in the map exactly when the loop has taken its arrival and has not dismissed it, and its
   queue is closed exactly when it was dismissed: nobody is forgotten and no registered client is left open.
   */
  lemma {:induction false} OneLife<C(!new)>(events: seq<Event<C>>, c: C)
    ensures var s := Run(events);
            && (c in s.clients <==> WasRegistered(events, c) && !WasDismissed(events, c))
            && Closes(s, c) == (if WasDismissed(events, c) then 1 else 0)
            && (WasDismissed(events, c) ==> WasRegistered(events, c))
  {
    if events != [] {
      var before := events[..|events| - 1];
      OneLife(before, c);
      RegisteredOneMore(events, c);
      DismissedOneMore(events, c);
      RunKeepsInv(before);
      RunKeepsInv(events);
      StepMovesClient(Run(before), events[|events| - 1], c);
    }
  }

  function Among<C>(queue: seq<C>): set<C> { set c | c in queue }

  /** The state after `n` turns of the loop that take the same case. */
  function Turns<C>(s: HubState<C>, e: Event<C>, n: nat): HubState<C> {
    if n == 0 then s else Next(Turns(s, e, n - 1), e)
  }

  /** As long as the loop runs, it registers everyone who waits, in as many turns. */
  lemma {:induction false} RegistrationsDrain<C>(s: HubState<C>, n: nat)
    requires !s.loopExited && n <= |s.registerQ|
    ensures var s' := Turns(s, LoopRegisters, n);
            && s'.clients == s.clients + Among(s.registerQ[..n]) && s'.registerQ == s.registerQ[n..]
            && s'.conns == s.conns && !s'.loopExited
  {
    if n > 0 {
      RegistrationsDrain(s, n - 1);
      assert s.registerQ[..n] == s.registerQ[..n - 1] + [s.registerQ[n - 1]];
      assert Among(s.registerQ[..n]) == Among(s.registerQ[..n - 1]) + {s.registerQ[n - 1]};
    }
  }

  lemma TakesDeparture<C>(s: HubState<C>)
    requires Inv(s) && !s.loopExited && s.unregisterQ != []
    ensures var s', c := Next(s, LoopUnregisters), s.unregisterQ[0];
            && Inv(s') && !s'.loopExited && s'.clients == s.clients - {c} && s'.unregisterQ == s.unregisterQ[1..]
            && (c in s.clients ==> Closes(s', c) == 1) && forall o | o != c :: Closes(s', o) == Closes(s, o)
  {
    LoopUnregistersKeepsInv(s);
  }

  /** And it dismisses everyone who left: out of the map, and closed if they were in it. */
  lemma {:induction false} DeparturesDrain<C(!new)>(s: HubState<C>, n: nat)
    requires Inv(s) && !s.loopExited && n <= |s.unregisterQ|
    ensures var s', gone := Turns(s, LoopUnregisters, n), Among(s.unregisterQ[..n]);
            && Inv(s') && !s'.loopExited && s'.clients == s.clients - gone && s'.unregisterQ == s.unregisterQ[n..]
            && forall c | c in s.clients :: Closes(s', c) == if c in gone then 1 else 0
  {
    if n > 0 {
      DeparturesDrain(s, n - 1);
      TakesDeparture(Turns(s, LoopUnregisters, n - 1));
      assert s.unregisterQ[..n] == s.unregisterQ[..n - 1] + [s.unregisterQ[n - 1]];
      assert Among(s.unregisterQ[..n]) == Among(s.unregisterQ[..n - 1]) + {s.unregisterQ[n - 1]};
    }
  }

  /** A broadcast to all reaches every registered client that has room, and nobody else. */
  lemma LoopBroadcastReaches<C>(events: seq<Event<C>>, c: C)
    requires var s := Run(events); c in s.conns && !s.loopExited && s.broadcastQ != []
    ensures var s := Run(events);
            var s' := Next(s, LoopBroadcasts);
            && s'.broadcastQ == s.broadcastQ[1..] && c in s'.conns
            && s'.conns[c].queue == s.conns[c].queue + if c in s.clients && |s.conns[c].queue| < SEND_CAPACITY then [s.broadcastQ[0]] else []
  {
    var q := Run(events).conns[c].queue;
    assert q + [] == q;
  }

  /** What a client asks for is granted exactly as far as its tree allows, and concerns nobody else. */
  lemma ActionIsExact<C>(events: seq<Event<C>>, c: C, action: BS.Action, other: C, channel: string)
    requires c in Run(events).conns && other in Run(events).conns
    ensures var s, s' := Run(events), Next(Run(events), Act(c, action));
            other in s'.conns &&
            (channel in s'.conns[other].channels <==>
              if other == c && action == BS.Subscribe(channel) then channel in s.conns[c].channels || AuthorizeChannel(Some(s.conns[c].tree), channel)
              else channel in s.conns[other].channels && !(other == c && action == BS.Unsubscribe(channel)))
  {
  }
}
