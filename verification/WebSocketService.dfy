/**
 The mutable objects of frontend/src/app/services/websocket.ts and of the lifecycle hook: the
 WebSocketClient, and the module that holds one instance and the reference counts. Each method
 is proved against the function of `BrowserSession` that the protocol is stated over.
 */
module WebSocketService {
  import opened Basics
  import opened BS = BrowserSession

  /** The Redux store, of which the client touches the subscription list. */
  class Store {
    var subscriptions: seq<string>

    constructor ()
      ensures subscriptions == []
    {
      subscriptions := [];
    }

    method DispatchAdd(ch: string)
      modifies this
      ensures subscriptions == AddSubscription(old(subscriptions), ch)
    {
      if ch == "" {
        return;
      }
      if ch !in subscriptions {
        subscriptions := subscriptions + [ch];
      }
    }

    method DispatchRemove(ch: string)
      modifies this
      ensures subscriptions == RemoveSubscription(old(subscriptions), ch)
    {
      var kept: seq<string> := [];
      for i := 0 to |subscriptions|
        invariant subscriptions == old(subscriptions)
        invariant kept == RemoveSubscription(subscriptions[..i], ch)
      {
        assert subscriptions[..i + 1][..i] == subscriptions[..i];
        if subscriptions[i] != ch {
          kept := kept + [subscriptions[i]];
        }
      }
      assert subscriptions[..|subscriptions|] == subscriptions;
      subscriptions := kept;
    }
  }

  /** Some order in which a Map or Set is visited. */
  method IterationOrder(s: set<string>) returns (order: seq<string>)
    ensures Enumerates(order, s)
  {
    order := [];
    var rest := s;
    while rest != {}
      invariant rest <= s && Enumerates(order, s - rest)
      decreases |rest|
    {
      var x :| x in rest;
      EnumerateOneMore(order, s - rest, x);
      assert s - (rest - {x}) == s - rest + {x};
      order, rest := order + [x], rest - {x};
    }
    assert s - rest == s;
  }

  lemma SubscribeOneMore(order: seq<string>, ch: string)
    ensures Subscribes(order + [ch]) == Subscribes(order) + [Action.Subscribe(ch)]
  {
    assert (order + [ch])[..|order|] == order;
  }

  lemma AddOneMore(subscriptions: seq<string>, order: seq<string>, ch: string)
    ensures AddAll(subscriptions, order + [ch]) == AddSubscription(AddAll(subscriptions, order), ch)
  {
    assert (order + [ch])[..|order|] == order;
  }

  class WebSocketClient {
    const store: Store
    const token: string
    var hasSocket: bool
    var socketOpen: bool
    var retrying: bool
    var explicitlyClosed: bool
    var pendingSubscriptions: set<string>
    // everything handed to the socket since it last opened
    var sent: seq<Action>

    constructor (store: Store, token: string)
      ensures this.store == store && this.token == token
      ensures hasSocket && !explicitlyClosed && State() == Instance(token, false, true, {})
    {
      this.store, this.token := store, token;
      hasSocket, socketOpen, retrying, explicitlyClosed := true, false, true, false;
      pendingSubscriptions, sent := {}, [];
    }

    function State(): Instance
      reads this
    {
      Instance(token, hasSocket && socketOpen, retrying, pendingSubscriptions)
    }

    /** The session as the protocol sees it, given the reference counts of the module. */
    function View(refs: map<string, nat>): Browser
      reads this, store
    {
      Browser(refs, Some(State()), store.subscriptions)
    }

    method SendRaw(action: Action)
      modifies this`pendingSubscriptions, this`sent
      ensures State() == BS.SendRaw(old(State()), action).instance
      ensures sent == old(sent) + BS.SendRaw(old(State()), action).sent
    {
      if !hasSocket || !socketOpen {
        match action {
          case Subscribe(ch) =>
            if ch != "" {
              pendingSubscriptions := pendingSubscriptions + {ch};
            }
          case Unsubscribe(ch) => pendingSubscriptions := pendingSubscriptions - {ch};
          case Ping =>
        }
        return;
      }
      sent := sent + [action];
    }

    method Subscribe(ch: string, ghost refs: map<string, nat>)
      modifies store, this`pendingSubscriptions, this`sent
      ensures var r := ClientSubscribe(old(View(refs)), ch);
              View(refs) == r.browser && sent == old(sent) + r.sent
    {
      if ch == "" {
        return;
      }
      store.DispatchAdd(ch);
      SendRaw(Action.Subscribe(ch));
    }

    method Unsubscribe(ch: string, ghost refs: map<string, nat>)
      modifies store, this`pendingSubscriptions, this`sent
      ensures var r := ClientUnsubscribe(old(View(refs)), ch);
              View(refs) == r.browser && sent == old(sent) + r.sent
    {
      if ch == "" {
        return;
      }
      store.DispatchRemove(ch);
      SendRaw(Action.Unsubscribe(ch));
      pendingSubscriptions := pendingSubscriptions - {ch};
    }

    method RestoreOne(ch: string)
      requires hasSocket && socketOpen
      modifies store, this`pendingSubscriptions, this`sent
      ensures State() == old(State()) && sent == old(sent) + [Action.Subscribe(ch)]
      ensures store.subscriptions == AddSubscription(old(store.subscriptions), ch)
    {
      store.DispatchAdd(ch);
      SendRaw(Action.Subscribe(ch));
    }

    /** First half of the `open` handler: restore every counted channel. */
    method RestoreCounted(refs: map<string, nat>) returns (order: seq<string>)
      requires hasSocket && socketOpen && sent == [] && forall ch | ch in refs :: refs[ch] > 0
      modifies store, this`pendingSubscriptions, this`sent
      ensures Enumerates(order, refs.Keys)
      ensures State() == old(State()) && sent == Subscribes(order)
      ensures store.subscriptions == AddAll(old(store.subscriptions), order)
    {
      order := IterationOrder(refs.Keys);
      EnumerationMembers(order, refs.Keys);
      for i := 0 to |order|
        invariant State() == old(State()) && sent == Subscribes(order[..i])
        invariant store.subscriptions == AddAll(old(store.subscriptions), order[..i])
      {
        assert order[i] in order && order[..i + 1] == order[..i] + [order[i]];
        SubscribeOneMore(order[..i], order[i]);
        AddOneMore(old(store.subscriptions), order[..i], order[i]);
        if refs[order[i]] > 0 {
          RestoreOne(order[i]);
        }
      }
      assert order[..|order|] == order;
    }

    /** Second half: whatever was asked for before the socket was open. */
    method FlushPending() returns (order: seq<string>)
      requires hasSocket && socketOpen
      modifies this`pendingSubscriptions, this`sent
      ensures Enumerates(order, old(pendingSubscriptions))
      ensures State() == old(State()).(pending := {}) && sent == old(sent) + Subscribes(order)
    {
      order := IterationOrder(pendingSubscriptions);
      for i := 0 to |order|
        invariant State() == old(State()) && sent == old(sent) + Subscribes(order[..i])
      {
        assert order[..i + 1] == order[..i] + [order[i]];
        SubscribeOneMore(order[..i], order[i]);
        SendRaw(Action.Subscribe(order[i]));
      }
      assert order[..|order|] == order;
      pendingSubscriptions := {};
    }

    /** The handler of `open`; the orders in which the two collections were visited are returned. */
    method OnOpen(refs: map<string, nat>) returns (ghost order: seq<string>, ghost pendingOrder: seq<string>)
      requires hasSocket && forall ch | ch in refs :: refs[ch] > 0
      modifies store, this`socketOpen, this`pendingSubscriptions, this`sent
      ensures Enumerates(order, refs.Keys) && Enumerates(pendingOrder, old(pendingSubscriptions))
      ensures var r := BS.OnOpen(old(View(refs)), order, pendingOrder);
              View(refs) == r.browser && sent == r.sent
    {
      socketOpen := true;
      sent := [];
      order := RestoreCounted(refs);
      pendingOrder := FlushPending();
    }

    /** A rejection stops the retries, unless the instance was closed on purpose, when there are none to stop. */
    method OnClose(rejected: bool, ghost refs: map<string, nat>)
      modifies this`socketOpen, this`retrying
      ensures View(refs) == BS.OnClose(old(View(refs)), rejected && !explicitlyClosed)
    {
      socketOpen := false;
      if explicitlyClosed {
        return;
      }
      if rejected {
        retrying := false;
      }
    }

    method Close()
      modifies this
      ensures explicitlyClosed && !hasSocket && !socketOpen && pendingSubscriptions == {}
    {
      explicitlyClosed := true;
      pendingSubscriptions := {};
      retrying, socketOpen, hasSocket := false, false, false;
    }
  }

  /** The module: one instance for the whole page, and the counts that outlive it. */
  class Module {
    const store: Store
    var instance: WebSocketClient?
    var channelRefs: map<string, nat>

    constructor ()
      ensures Valid() && View() == INITIAL_BROWSER && fresh(store)
    {
      store := new Store();
      instance := null;
      channelRefs := map[];
    }

    ghost predicate Valid()
      reads this, instance
    {
      && (instance != null ==> instance.store == store && instance.hasSocket && !instance.explicitlyClosed)
      && forall ch | ch in channelRefs :: channelRefs[ch] > 0
    }

    function View(): Browser
      reads this, store, instance
    {
      Browser(channelRefs, if instance == null then None else Some(instance.State()), store.subscriptions)
    }

    method ConnectWebSocket(token: string)
      requires Valid()
      modifies this`instance, instance
      ensures Valid() && View() == Connect(old(View()), token)
      ensures instance != null && instance.token == token
      ensures if old(instance != null && instance.token == token) then instance == old(instance) else fresh(instance)
    {
      if instance != null && !instance.explicitlyClosed && instance.token == token {
        return;
      }
      if instance != null {
        instance.Close();
        instance := null;
      }
      instance := new WebSocketClient(store, token);
    }

    method DisconnectWebSocket()
      requires Valid()
      modifies this`instance, instance
      ensures Valid() && instance == null && channelRefs == old(channelRefs) && store.subscriptions == old(store.subscriptions)
    {
      if instance != null {
        instance.Close();
        instance := null;
      }
    }

    method SubscribeChannel(channel: string)
      requires Valid()
      modifies this`channelRefs, store, instance
      ensures Valid() && instance == old(instance)
      ensures var r := BS.SubscribeChannel(old(View()), channel);
              View() == r.browser && (instance != null ==> instance.sent == old(instance.sent) + r.sent)
      ensures channel != "" ==> channelRefs == old(channelRefs)[channel := RefCount(old(View()), channel) + 1]
      ensures RefCount(old(View()), channel) > 0 ==> instance != null ==> instance.sent == old(instance.sent)
    {
      if channel == "" {
        return;
      }
      var next := (if channel in channelRefs then channelRefs[channel] else 0) + 1;
      channelRefs := channelRefs[channel := next];
      if next == 1 && instance != null {
        instance.Subscribe(channel, channelRefs);
      }
    }

    method UnsubscribeChannel(channel: string)
      requires Valid()
      modifies this`channelRefs, store, instance
      ensures Valid() && instance == old(instance)
      ensures var r := BS.UnsubscribeChannel(old(View()), channel);
              View() == r.browser && (instance != null ==> instance.sent == old(instance.sent) + r.sent)
      ensures channel in old(channelRefs) && channel != "" && old(channelRefs)[channel] > 1 ==>
                channelRefs == old(channelRefs)[channel := old(channelRefs)[channel] - 1]
                && (instance != null ==> instance.sent == old(instance.sent))
      ensures channel != "" && RefCount(old(View()), channel) <= 1 ==> channelRefs == old(channelRefs) - {channel}
    {
      if channel == "" {
        return;
      }
      var cur := if channel in channelRefs then channelRefs[channel] else 0;
      if cur <= 1 {
        channelRefs := channelRefs - {channel};
        if instance != null {
          instance.Unsubscribe(channel, channelRefs);
        }
      } else {
        channelRefs := channelRefs[channel := cur - 1];
      }
    }

    method ResetChannelRefs()
      modifies this`channelRefs
      ensures channelRefs == map[]
    {
      channelRefs := map[];
    }

    method ResetWS()
      modifies store
      ensures store.subscriptions == []
    {
      store.subscriptions := [];
    }

    /** The cleanup function of the lifecycle hook. */
    method LifecycleCleanup()
      requires Valid()
      modifies this`instance, instance, store
      ensures Valid() && View() == Cleanup(old(View()))
    {
      DisconnectWebSocket();
      ResetWS();
    }

    /** The hook's effect when the token is gone. */
    method LifecycleLogout()
      requires Valid()
      modifies this, instance, store
      ensures Valid() && View() == Logout(old(View()))
    {
      DisconnectWebSocket();
      ResetChannelRefs();
      ResetWS();
    }
  }
}
