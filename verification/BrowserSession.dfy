/**
 The browser's channel bookkeeping (frontend/src/app/services/websocket.ts,
 frontend/src/hooks/useWebSocket.ts and the subscription list of frontend/src/slices/wsSlice.ts)
 as functions on values. `WebSocketService` proves that the mutable objects compute them.
 */
module BrowserSession {
  import opened Basics

  /** What the client sends to the server. */
  datatype Action = Subscribe(channel: string) | Unsubscribe(channel: string) | Ping

  /** The WebSocketClient that the module holds; `open` is readyState === OPEN. */
  datatype Instance = Instance(token: string, open: bool, retrying: bool, pending: set<string>)

  /** Module state, plus the Redux list of subscriptions. */
  datatype Browser = Browser(refs: map<string, nat>, instance: Option<Instance>, subscriptions: seq<string>)

  /** The state after a call, and the actions it put on the open socket. */
  datatype Outcome = Outcome(browser: Browser, sent: seq<Action>)

  const INITIAL_BROWSER := Browser(map[], None, [])

  // ---- wsSlice ----

  function AddSubscription(subs: seq<string>, ch: string): seq<string> {
    if ch == "" || ch in subs then subs else subs + [ch]
  }

  function RemoveSubscription(subs: seq<string>, ch: string): seq<string> {
    if subs == [] then []
    else RemoveSubscription(subs[..|subs| - 1], ch) + if subs[|subs| - 1] != ch then [subs[|subs| - 1]] else []
  }

  function AddAll(subs: seq<string>, channels: seq<string>): seq<string> {
    if channels == [] then subs
    else AddSubscription(AddAll(subs, channels[..|channels| - 1]), channels[|channels| - 1])
  }

  // ---- WebSocketClient ----

  datatype Raw = Raw(instance: Instance, sent: seq<Action>)

  /** `sendRaw`: straight to an open socket; otherwise only the pending set remembers it. */
  function SendRaw(i: Instance, action: Action): Raw {
    if i.open then Raw(i, [action])
    else match action
      case Subscribe(ch) => Raw(if ch != "" then i.(pending := i.pending + {ch}) else i, [])
      case Unsubscribe(ch) => Raw(i.(pending := i.pending - {ch}), [])
      case Ping => Raw(i, [])
  }

  function ClientSubscribe(b: Browser, ch: string): Outcome
    requires b.instance.Some?
  {
    if ch == "" then Outcome(b, []) else
      var raw := SendRaw(b.instance.value, Subscribe(ch));
      Outcome(b.(instance := Some(raw.instance), subscriptions := AddSubscription(b.subscriptions, ch)), raw.sent)
  }

  function ClientUnsubscribe(b: Browser, ch: string): Outcome
    requires b.instance.Some?
  {
    if ch == "" then Outcome(b, []) else
      var raw := SendRaw(b.instance.value, Unsubscribe(ch));
      Outcome(b.(instance := Some(raw.instance.(pending := raw.instance.pending - {ch})),
                 subscriptions := RemoveSubscription(b.subscriptions, ch)), raw.sent)
  }

  function Subscribes(channels: seq<string>): seq<Action> {
    seq(|channels|, i requires 0 <= i < |channels| => Subscribe(channels[i]))
  }

  /** `onopen`: restore every counted channel, then whatever was asked for while closed. */
  function OnOpen(b: Browser, order: seq<string>, pendingOrder: seq<string>): Outcome
    requires b.instance.Some?
  {
    Outcome(b.(instance := Some(b.instance.value.(open := true, pending := {})),
               subscriptions := AddAll(b.subscriptions, order)),
            Subscribes(order) + Subscribes(pendingOrder))
  }

  /** `onclose`: reconnect later, unless the server rejected the credentials. */
  function OnClose(b: Browser, rejected: bool): Browser
    requires b.instance.Some?
  {
    b.(instance := Some(b.instance.value.(open := false, retrying := b.instance.value.retrying && !rejected)))
  }

  // ---- singleton and reference counts ----

  /** `connectWebSocket`: keep the instance if its token is current, else replace it. */
  function Connect(b: Browser, token: string): Browser {
    if b.instance.Some? && b.instance.value.token == token then b
    else b.(instance := Some(Instance(token, false, true, {})))
  }

  function RefCount(b: Browser, ch: string): nat {
    if ch in b.refs then b.refs[ch] else 0
  }

  function SubscribeChannel(b: Browser, ch: string): Outcome {
    if ch == "" then Outcome(b, []) else
      var next := RefCount(b, ch) + 1;
      var b' := b.(refs := b.refs[ch := next]);
      if next == 1 && b.instance.Some? then ClientSubscribe(b', ch) else Outcome(b', [])
  }

  function UnsubscribeChannel(b: Browser, ch: string): Outcome {
    if ch == "" then Outcome(b, []) else
      var cur := RefCount(b, ch);
      if cur <= 1 then
        var b' := b.(refs := b.refs - {ch});
        if b.instance.Some? then ClientUnsubscribe(b', ch) else Outcome(b', [])
      else Outcome(b.(refs := b.refs[ch := cur - 1]), [])
  }

  /** The effect cleanup of the lifecycle hook: disconnect and reset the Redux state. */
  function Cleanup(b: Browser): Browser {
    b.(instance := None, subscriptions := [])
  }

  /** The hook without a token: also forget the reference counts. */
  function Logout(b: Browser): Browser {
    INITIAL_BROWSER
  }

  // ---- laws of the subscription list ----

  lemma {:induction false} RemoveSubscriptionLaw(subs: seq<string>, ch: string)
    ensures forall c :: c in RemoveSubscription(subs, ch) <==> c in subs && c != ch
    ensures NoDuplicates(subs) ==> NoDuplicates(RemoveSubscription(subs, ch))
  {
    if subs != [] {
      var init, last := subs[..|subs| - 1], subs[|subs| - 1];
      RemoveSubscriptionLaw(init, ch);
      assert subs == init + [last];
      if NoDuplicates(subs) {
        assert forall i | 0 <= i < |init| :: subs[i] == init[i] && subs[i] != subs[|init|];
        assert NoDuplicates(init) && last !in init;
      }
    }
  }

  lemma {:induction false} AddAllLaw(subs: seq<string>, channels: seq<string>)
    requires "" !in channels
    ensures forall c :: c in AddAll(subs, channels) <==> c in subs || c in channels
    ensures NoDuplicates(subs) ==> NoDuplicates(AddAll(subs, channels))
  {
    if channels != [] {
      var init, last := channels[..|channels| - 1], channels[|channels| - 1];
      assert channels == init + [last];
      AddAllLaw(subs, init);
    }
  }
}
