/**
 The objects of backend/internal/websocket/hub.go and the read loop of handler.go: a Client with
 its channel set and send queue, and the Hub with its client set and queues. Each method is
 proved to be one step of `HubProtocol`; the cases of the main loop are one method each.
 */
module Hub {
  import opened Basics
  import opened Permissions
  import opened ChannelAuth
  import opened HubProtocol
  import SP = SubscriptionProtocol
  import BS = BrowserSession

  class Client {
    const permTree: PermissionTree
    var channels: set<string>
    var send: seq<Message>
    var closes: nat
    var reading: bool

    constructor (permTree: PermissionTree)
      ensures State() == Fresh(permTree)
    {
      this.permTree := permTree;
      channels, send, closes, reading := {}, [], 0, true;
    }

    function State(): Conn
      reads this
    {
      Conn(permTree, channels, send, closes, reading)
    }

    method IsSubscribed(channel: string) returns (r: bool)
      ensures r == Subscribed(channels, channel)
    {
      if channel == "" {
        return false;
      }
      if channel in channels {
        return true;
      }
      var rest := channels;
      while rest != {}
        invariant rest <= channels
        invariant forall ch | ch in channels - rest :: !(ch != "" && ch[|ch| - 1] == '*' && ch[..|ch| - 1] <= channel)
        decreases rest
      {
        var ch :| ch in rest;
        if |ch| > 0 && ch[|ch| - 1] == '*' {
          if |channel| >= |ch| - 1 && channel[..|ch| - 1] == ch[..|ch| - 1] {
            return true;
          }
        }
        rest := rest - {ch};
      }
      return false;
    }

    method Subscribe(channel: string)
      modifies this`channels
      ensures channels == if channel == "" then old(channels) else old(channels) + {channel}
    {
      if channel == "" {
        return;
      }
      channels := channels + {channel};
    }

    method Unsubscribe(channel: string)
      modifies this`channels
      ensures channels == old(channels) - {channel}
    {
      channels := channels - {channel};
    }

    /** One turn of `readPump`. */
    method HandleAction(action: BS.Action)
      modifies this`channels
      ensures channels == SP.ServerApply(permTree, old(channels), action)
    {
      match action {
        case Subscribe(ch) =>
          if AuthorizeChannel(Some(permTree), ch) {
            Subscribe(ch);
          }
        case Unsubscribe(ch) => Unsubscribe(ch);
        case Ping =>
      }
    }

    /** A non-blocking send; it would panic on a closed queue. */
    method TrySend(m: Message)
      requires closes == 0
      modifies this`send
      ensures State() == Offer(old(State()), m)
    {
      if |send| < SEND_CAPACITY {
        send := send + [m];
      }
    }

    /** The write pump takes the oldest message. */
    method Receive() returns (m: Message)
      requires send != []
      modifies this`send
      ensures m == old(send)[0] && send == old(send)[1..]
    {
      m, send := send[0], send[1..];
    }

    /** Closing the queue; it would panic the second time. */
    method CloseSend()
      requires closes == 0
      modifies this`closes
      ensures State() == Close(old(State()))
    {
      closes := 1;
    }
  }

  /** The loop of `broadcastToChannel`. */
  method OfferToAudience(clients: set<Client>, channel: string, payload: string, raw: Option<Option<ProgressPayload>>)
    requires forall c | c in clients :: c.closes == 0
    modifies clients`send
    ensures forall c | c in clients ::
      c.State() == old(if Hears(c.State(), channel, raw) then Offer(c.State(), OnChannel(channel, payload, raw)) else c.State())
  {
    var rest := clients;
    while rest != {}
      invariant rest <= clients
      invariant forall c | c in clients ::
        c.State() == (if c !in rest && old(Hears(c.State(), channel, raw))
                      then Offer(old(c.State()), OnChannel(channel, payload, raw)) else old(c.State()))
      decreases rest
    {
      var c :| c in rest;
      rest := rest - {c};
      var subscribed := c.IsSubscribed(channel);
      if !subscribed {
        continue;
      }
      if channel == TYPE_TASK_PROGRESS && raw.Some? {
        if !AuthorizeTaskProgressPayload(Some(c.permTree), raw.value) {
          continue;
        }
      }
      c.TrySend(OnChannel(channel, payload, raw));
    }
  }

  /** The loop of the broadcast case. */
  method OfferToAll(clients: set<Client>, m: Message)
    requires forall c | c in clients :: c.closes == 0
    modifies clients`send
    ensures forall c | c in clients :: c.State() == Offer(old(c.State()), m)
  {
    var rest := clients;
    while rest != {}
      invariant rest <= clients
      invariant forall c | c in clients :: c.State() == if c !in rest then Offer(old(c.State()), m) else old(c.State())
      decreases rest
    {
      var c :| c in rest;
      rest := rest - {c};
      c.TrySend(m);
    }
  }

  /** The loop of the stop case. */
  method CloseEach(clients: set<Client>)
    requires forall c | c in clients :: c.closes == 0
    modifies clients`closes
    ensures forall c | c in clients :: c.State() == Close(old(c.State()))
  {
    var rest := clients;
    while rest != {}
      invariant rest <= clients
      invariant forall c | c in clients :: c.State() == if c !in rest then Close(old(c.State())) else old(c.State())
      decreases rest
    {
      var c :| c in rest;
      rest := rest - {c};
      c.CloseSend();
    }
  }

  class Hub {
    var clients: set<Client>
    var registerQ: seq<Client>
    var unregisterQ: seq<Client>
    var broadcastQ: seq<Message>
    var stopRequested: bool
    var loopExited: bool
    // every client that ever connected, those closed by the stop case, and those whose reply met a closed queue
    ghost var known: set<Client>
    ghost var stopped: set<Client>
    ghost var faults: set<Client>

    constructor ()
      ensures Valid() && View() == Initial()
    {
      clients, registerQ, unregisterQ, broadcastQ := {}, [], [], [];
      stopRequested, loopExited, known, stopped, faults := false, false, {}, {}, {};
    }

    ghost function View(): HubState<Client>
      reads this, known
    {
      HubState(map c | c in known :: c.State(), clients, registerQ, unregisterQ, broadcastQ, stopRequested, loopExited, false, stopped, faults)
    }

    ghost predicate Valid()
      reads this, known
    {
      Inv(View())
    }

    /** A connection is accepted: a new client enters the register queue, if there is room. */
    method Connect(permTree: PermissionTree) returns (c: Client)
      requires Valid()
      modifies this`registerQ, this`known
      ensures Valid() && fresh(c) && View() == Next(old(View()), Arrive(c, permTree))
      ensures c.State() == Fresh(permTree) && registerQ == if |old(registerQ)| < REGISTER_CAPACITY then old(registerQ) + [c] else old(registerQ)
    {
      c := new Client(permTree);
      known := known + {c};
      if |registerQ| < REGISTER_CAPACITY {
        registerQ := registerQ + [c];
      }
      assert View().conns == old(View()).conns[c := Fresh(permTree)];
      StepKeepsInv(old(View()), Arrive(c, permTree));
    }

    /** One turn of a client's read pump. */
    method HandleAction(c: Client, action: BS.Action)
      requires Valid() && c in known
      modifies c`channels
      ensures Valid() && View() == Next(old(View()), Act(c, action))
    {
      ActKeepsInv(View(), c, action);
      ActOn(c, action);
    }

    method ActOn(c: Client, action: BS.Action)
      requires c in known
      modifies c`channels
      ensures View() == Next(old(View()), Act(c, action))
    {
      ghost var was := View();
      c.HandleAction(action);
      assert View().conns == Next(was, Act(c, action)).conns;
    }

    /** One turn of a client's write pump. */
    method WriteNext(c: Client) returns (m: Message)
      requires Valid() && c in known && c.send != []
      modifies c`send
      ensures Valid() && View() == Next(old(View()), WritePump(c)) && m == old(c.send)[0]
    {
      WritePumpKeepsInv(View(), c);
      m := TakeMessage(c);
    }

    method TakeMessage(c: Client) returns (m: Message)
      requires c in known && c.send != []
      modifies c`send
      ensures View() == Next(old(View()), WritePump(c)) && m == old(c.send)[0]
    {
      ghost var was := View();
      m := c.Receive();
      assert View().conns == Next(was, WritePump(c)).conns;
    }

    /** The end of a read pump. */
    method Unregister(c: Client)
      requires Valid() && c in known && c.reading
      modifies this`unregisterQ, c`reading
      ensures Valid() && View() == Next(old(View()), Leave(c)) && !c.reading
      ensures unregisterQ == if |old(unregisterQ)| < REGISTER_CAPACITY then old(unregisterQ) + [c] else old(unregisterQ)
    {
      ReadingEndsKeepsInv(View(), c);
      EndReading(c);
    }

    method EndReading(c: Client)
      requires c in known
      modifies this`unregisterQ, c`reading
      ensures View() == StopReading(old(View()), c) && !c.reading
      ensures unregisterQ == if |old(unregisterQ)| < REGISTER_CAPACITY then old(unregisterQ) + [c] else old(unregisterQ)
    {
      ghost var was := View();
      c.reading := false;
      if |unregisterQ| < REGISTER_CAPACITY {
        unregisterQ := unregisterQ + [c];
      }
      assert View().conns == was.conns[c := was.conns[c].(reading := false)];
    }

    /** A pong or an error of a read pump; on a closed queue the send panics, which ends the pump. */
    method SendToClient(c: Client, payload: string)
      requires Valid() && c in known && c.reading
      modifies this`unregisterQ, this`faults, c`reading, c`send
      ensures Valid() && View() == Next(old(View()), Reply(c, payload))
      ensures c in faults && c !in old(faults) ==> c in stopped
      ensures c.send == if old(c.closes) == 0 && |old(c.send)| < SEND_CAPACITY then old(c.send) + [Direct(payload)] else old(c.send)
      ensures c.reading <==> old(c.closes) == 0
    {
      ReplyKeepsInv(View(), c, payload);
      if c.closes > 0 {
        SendOnClosed(c);
      } else {
        SendOnOpen(c, payload);
      }
    }

    method SendOnClosed(c: Client)
      requires c in known && c.reading && c.closes > 0
      modifies this`unregisterQ, this`faults, c`reading
      ensures View() == StopReading(old(View()), c).(faults := old(faults) + {c}) && !c.reading
    {
      EndReading(c);
      faults := faults + {c};
    }

    method SendOnOpen(c: Client, payload: string)
      requires c in known && c.closes == 0
      modifies c`send
      ensures View() == old(View()).(conns := old(View()).conns[c := Offer(old(c.State()), Direct(payload))])
      ensures c.State() == Offer(old(c.State()), Direct(payload))
    {
      ghost var was := View();
      c.TrySend(Direct(payload));
      assert View().conns == was.conns[c := Offer(was.conns[c], Direct(payload))];
    }

    method Broadcast(payload: string)
      requires Valid()
      modifies this`broadcastQ
      ensures Valid() && View() == Next(old(View()), BroadcastCall(payload))
      ensures broadcastQ == if |old(broadcastQ)| < BROADCAST_CAPACITY then old(broadcastQ) + [ToAll(payload)] else old(broadcastQ)
    {
      QueuedKeepsInv(View(), payload);
      Enqueue(ToAll(payload));
    }

    /** A non-blocking send to the hub's own queue. */
    method Enqueue(m: Message)
      modifies this`broadcastQ
      ensures View() == old(View()).(broadcastQ := if |old(broadcastQ)| < BROADCAST_CAPACITY then old(broadcastQ) + [m] else old(broadcastQ))
    {
      if |broadcastQ| < BROADCAST_CAPACITY {
        broadcastQ := broadcastQ + [m];
      }
    }

    method Stop()
      requires Valid()
      modifies this`stopRequested
      ensures Valid() && View() == Next(old(View()), StopCall)
    {
      StopKeepsInv(View());
      CloseStopChannel();
    }

    method CloseStopChannel()
      modifies this`stopRequested
      ensures View() == old(View()).(stopRequested := true)
    {
      stopRequested := true;
    }

    method SpreadToAudience(channel: string, payload: string, raw: Option<Option<ProgressPayload>>)
      requires forall c | c in clients :: c in known && c.closes == 0
      modifies clients`send
      ensures View() == SendTo(old(View()), Audience(old(View()), channel, raw), OnChannel(channel, payload, raw))
    {
      ghost var was := View();
      OfferToAudience(clients, channel, payload, raw);
      assert View().conns == SendTo(was, Audience(was, channel, raw), OnChannel(channel, payload, raw)).conns;
    }

    method BroadcastToChannel(channel: string, payload: string, raw: Option<Option<ProgressPayload>>)
      requires Valid()
      modifies clients`send
      ensures Valid() && View() == Next(old(View()), ChannelBroadcast(channel, payload, raw))
    {
      ghost var was := View();
      ChannelBroadcastKeepsInv(was, channel, payload, raw);
      SpreadToAudience(channel, payload, raw);
      assert View() == Next(was, ChannelBroadcast(channel, payload, raw));
    }

    // ---- the cases of the main loop ----

    method CloseAllClients()
      requires forall c | c in clients :: c in known && c.closes == 0
      modifies this`clients, this`loopExited, this`stopped, clients`closes
      ensures View() == CloseAll(old(View()), old(View()).clients)
                        .(clients := {}, loopExited := true, stopped := old(stopped) + old(clients))
    {
      ghost var was := View();
      CloseEach(clients);
      stopped := stopped + clients;
      clients := {};
      loopExited := true;
      assert View().conns == CloseAll(was, was.clients).conns;
    }

    method LoopStop()
      requires Valid() && stopRequested && !loopExited
      modifies this`clients, this`loopExited, this`stopped, clients`closes
      ensures Valid() && View() == Next(old(View()), LoopStops)
    {
      LoopStopsKeepsInv(View());
      CloseAllClients();
    }

    method LoopRegister()
      requires Valid() && !loopExited && registerQ != []
      modifies this`clients, this`registerQ
      ensures Valid() && View() == Next(old(View()), LoopRegisters)
    {
      LoopRegistersKeepsInv(View());
      TakeRegistration();
    }

    method TakeRegistration()
      requires registerQ != []
      modifies this`clients, this`registerQ
      ensures View() == old(View()).(clients := old(clients) + {old(registerQ)[0]}, registerQ := old(registerQ)[1..])
    {
      clients := clients + {registerQ[0]};
      registerQ := registerQ[1..];
    }

    method CloseClient(c: Client)
      requires c in clients && c in known && c.closes == 0
      modifies this`clients, c`closes
      ensures View() == CloseAll(old(View()), {c}).(clients := old(clients) - {c})
    {
      ghost var was := View();
      clients := clients - {c};
      c.CloseSend();
      assert View().conns == CloseAll(was, {c}).conns;
    }

    method LoopUnregister()
      requires Valid() && !loopExited && unregisterQ != []
      modifies this`clients, this`unregisterQ, {unregisterQ[0]}`closes
      ensures Valid() && View() == Next(old(View()), LoopUnregisters)
    {
      LoopUnregistersKeepsInv(View());
      TakeUnregistration();
    }

    /** The first waiting client leaves the map, if it is there, and is closed. */
    method TakeUnregistration()
      requires !loopExited && unregisterQ != []
      requires unregisterQ[0] in clients ==> unregisterQ[0] in known && unregisterQ[0].closes == 0
      modifies this`clients, this`unregisterQ, {unregisterQ[0]}`closes
      ensures View() == Next(old(View()), LoopUnregisters)
    {
      var c := unregisterQ[0];
      ghost var was := View();
      unregisterQ := unregisterQ[1..];
      assert View() == was.(unregisterQ := was.unregisterQ[1..]);
      if c in clients {
        CloseClient(c);
      }
    }

    method LoopBroadcast()
      requires Valid() && !loopExited && broadcastQ != []
      modifies this`broadcastQ, clients`send
      ensures Valid() && View() == Next(old(View()), LoopBroadcasts)
    {
      LoopBroadcastKeepsInv(View());
      TakeBroadcast();
    }

    method TakeBroadcast()
      requires broadcastQ != [] && forall c | c in clients :: c in known && c.closes == 0
      modifies this`broadcastQ, clients`send
      ensures View() == SendTo(old(View()), old(clients), old(broadcastQ)[0]).(broadcastQ := old(broadcastQ)[1..])
    {
      ghost var was := View();
      var m := broadcastQ[0];
      broadcastQ := broadcastQ[1..];
      OfferToAll(clients, m);
      assert View().conns == SendTo(was, was.clients, m).conns;
    }
  }
}
