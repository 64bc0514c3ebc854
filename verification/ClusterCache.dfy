/**
 The per-cluster client cache (backend/internal/cluster/manager.go). Getters double-check the cache around
 an exclusive lock and read the database while holding it; updaters and deleters write the database outside
 the lock and invalidate the entry afterwards. Each database access, lock operation and map access is its
 own event, so a run is any interleaving of any number of calls within one process.
 */
module ClusterCache {
  import opened Basics

  type Code = string
  type ThreadID = nat

  /** A cluster row, or the client built from it. `version` numbers the writes to a code, for the proofs. */
  datatype Row = Row(kubeconfig: string, version: nat)

  /** Where a call stands. From Locked to Leaving, and while Invalidating, it holds the lock. */
  datatype Call =
    | Idle
    | Missed(code: Code)
    | Locked(code: Code)
    | Checked(code: Code)
    | Read(code: Code, row: Row)
    | Leaving
    | Updating(code: Code, newKubeconfig: Option<string>)
    | Wrote(code: Code, version: nat)
    | Invalidating(code: Code, version: nat)

  datatype State = State(
    rows: map<Code, Row>,
    clients: map<Code, Row>,
    holder: Option<ThreadID>,
    calls: map<ThreadID, Call>,
    // history: the number of writes to a code, and the newest write whose call has invalidated the entry
    writes: map<Code, nat>,
    completed: map<Code, nat>)

  const INITIAL := State(map[], map[], None, map[], map[], map[])

  datatype Event =
    | StartGet(t: ThreadID, code: Code)
    | Acquire(t: ThreadID)
    | Recheck(t: ThreadID)
    | ReadRow(t: ThreadID, dbOk: bool)
    | Build(t: ThreadID, ok: bool)
    | Release(t: ThreadID)
    | StartUpdate(t: ThreadID, code: Code, newKubeconfig: Option<string>)
    | WriteUpdate(t: ThreadID, dbOk: bool)
    | WriteDelete(t: ThreadID, code: Code, dbOk: bool)
    | Invalidate(t: ThreadID)
    | Import(t: ThreadID, code: Code, kubeconfig: string)

  function CallOf(s: State, t: ThreadID): Call {
    if t in s.calls then s.calls[t] else Idle
  }

  function Count(m: map<Code, nat>, code: Code): nat {
    if code in m then m[code] else 0
  }

  function Max(a: nat, b: nat): nat { if a < b then b else a }

  function Goto(s: State, t: ThreadID, pc: Call): State {
    s.(calls := s.calls[t := pc])
  }

  /** One step; an event that cannot happen in `s` leaves it alone. */
  function Next(s: State, e: Event): State {
    var pc := CallOf(s, e.t);
    match e
    case StartGet(t, code) =>
      if pc.Idle? && s.holder.None? && code != "" && code !in s.clients then Goto(s, t, Missed(code)) else s
    case Acquire(t) =>
      if s.holder.Some? then s
      else if pc.Missed? then Goto(s, t, Locked(pc.code)).(holder := Some(t))
      else if pc.Wrote? then Goto(s, t, Invalidating(pc.code, pc.version)).(holder := Some(t))
      else s
    case Recheck(t) =>
      if !pc.Locked? then s else Goto(s, t, if pc.code in s.clients then Leaving else Checked(pc.code))
    case ReadRow(t, dbOk) =>
      if !pc.Checked? then s
      else Goto(s, t, if dbOk && pc.code in s.rows then Read(pc.code, s.rows[pc.code]) else Leaving)
    case Build(t, ok) =>
      if !pc.Read? then s
      else Goto(if ok then s.(clients := s.clients[pc.code := pc.row]) else s, t, Leaving)
    case Release(t) =>
      if pc.Leaving? then Goto(s, t, Idle).(holder := None) else s
    case StartUpdate(t, code, kubeconfig) =>
      if pc.Idle? && code in s.rows then Goto(s, t, Updating(code, kubeconfig)) else s
    case WriteUpdate(t, dbOk) =>
      if !pc.Updating? then s
      else if !dbOk || pc.newKubeconfig.None? then Goto(s, t, Idle)
      else if pc.code !in s.rows then Goto(s, t, Wrote(pc.code, Count(s.writes, pc.code)))
      else Goto(WriteRow(s, pc.code, pc.newKubeconfig.value), t, Wrote(pc.code, Count(s.writes, pc.code) + 1))
    case WriteDelete(t, code, dbOk) =>
      if !pc.Idle? || !dbOk || code !in s.rows then s
      else Goto(s.(rows := s.rows - {code}, writes := s.writes[code := Count(s.writes, code) + 1]),
                t, Wrote(code, Count(s.writes, code) + 1))
    case Invalidate(t) =>
      if !pc.Invalidating? then s
      else Goto(s, t, Leaving).(clients := s.clients - {pc.code},
                                completed := s.completed[pc.code := Max(Count(s.completed, pc.code), pc.version)])
    case Import(t, code, kubeconfig) =>
      if pc.Idle? && code != "" && code !in s.rows then WriteRow(s, code, kubeconfig) else s
  }

  function WriteRow(s: State, code: Code, kubeconfig: string): State {
    var version := Count(s.writes, code) + 1;
    s.(rows := s.rows[code := Row(kubeconfig, version)], writes := s.writes[code := version])
  }

  function Steps(s: State, events: seq<Event>): State {
    if events == [] then s else Next(Steps(s, events[..|events| - 1]), events[|events| - 1])
  }

  function Run(events: seq<Event>): State { Steps(INITIAL, events) }

  // ---- invariant ----

  predicate Holds(pc: Call) {
    pc.Locked? || pc.Checked? || pc.Read? || pc.Leaving? || pc.Invalidating?
  }

  /** A call between its database write and its invalidation. */
  predicate Pending(pc: Call, code: Code) {
    (pc.Wrote? || pc.Invalidating?) && pc.code == code
  }

  ghost predicate PendingWriter(s: State, code: Code) {
    exists t :: t in s.calls && Pending(s.calls[t], code)
  }

  predicate Current(s: State, code: Code, row: Row) {
    code in s.rows && s.rows[code] == row
  }

  predicate LockInv(s: State) {
    && (s.holder.Some? ==> s.holder.value in s.calls && Holds(s.calls[s.holder.value]))
    && (forall t | t in s.calls && Holds(s.calls[t]) :: s.holder == Some(t))
  }

  predicate CountsInv(s: State) {
    && (forall code | code in s.rows :: s.rows[code].version == Count(s.writes, code))
    && (forall code | code in s.completed :: s.completed[code] <= Count(s.writes, code))
    && (forall t | t in s.calls && (s.calls[t].Wrote? || s.calls[t].Invalidating?) ::
          s.calls[t].version <= Count(s.writes, s.calls[t].code))
  }

  /** What a cached or freshly read row may be. */
  ghost predicate Fresh(s: State, code: Code, row: Row) {
    && (Current(s, code, row) || PendingWriter(s, code))
    && Count(s.completed, code) <= row.version
  }

  ghost predicate CacheInv(s: State) {
    && (forall code | code in s.clients :: Fresh(s, code, s.clients[code]))
    && (forall t | t in s.calls && s.calls[t].Read? :: Fresh(s, s.calls[t].code, s.calls[t].row))
  }

  ghost predicate Inv(s: State) {
    LockInv(s) && CountsInv(s) && CacheInv(s)
  }

  /** A step that leaves rows, completed writes and pending calls alone keeps a row fresh. */
  lemma StaysFresh(s: State, s': State, code: Code, row: Row)
    requires Fresh(s, code, row)
    requires s'.rows == s.rows && s'.completed == s.completed
    requires forall t | t in s.calls && Pending(s.calls[t], code) :: t in s'.calls && Pending(s'.calls[t], code)
    ensures Fresh(s', code, row)
  {
    if PendingWriter(s, code) {
      var t :| t in s.calls && Pending(s.calls[t], code);
      assert t in s'.calls && Pending(s'.calls[t], code);
    }
  }

  /** A call moves on, perhaps taking or leaving the lock; nothing pending is lost. */
  lemma MoveKeepsInv(s: State, t: ThreadID, pc: Call, holder: Option<ThreadID>)
    requires Inv(s)
    requires if Holds(pc) then holder == Some(t) && (s.holder == holder || s.holder == None)
             else holder == if s.holder == Some(t) then None else s.holder
    requires forall code | Pending(CallOf(s, t), code) :: Pending(pc, code)
    requires pc.Wrote? || pc.Invalidating? ==> pc.version <= Count(s.writes, pc.code)
    requires pc.Read? ==> Fresh(s, pc.code, pc.row)
    ensures Inv(Goto(s, t, pc).(holder := holder))
  {
    var s' := Goto(s, t, pc).(holder := holder);
    forall code | code in s'.clients
      ensures Fresh(s', code, s'.clients[code])
    {
      StaysFresh(s, s', code, s.clients[code]);
    }
    forall x | x in s'.calls && s'.calls[x].Read?
      ensures Fresh(s', s'.calls[x].code, s'.calls[x].row)
    {
      StaysFresh(s, s', s'.calls[x].code, s'.calls[x].row);
    }
  }

  lemma StoreKeepsInv(s: State, code: Code, row: Row)
    requires Inv(s) && Fresh(s, code, row)
    ensures Inv(s.(clients := s.clients[code := row]))
  {
    var s' := s.(clients := s.clients[code := row]);
    forall k | k in s'.clients
      ensures Fresh(s', k, s'.clients[k])
    {
      StaysFresh(s, s', k, s'.clients[k]);
    }
    forall x | x in s'.calls && s'.calls[x].Read?
      ensures Fresh(s', s'.calls[x].code, s'.calls[x].row)
    {
      StaysFresh(s, s', s.calls[x].code, s.calls[x].row);
    }
  }

  lemma GetKeepsInv(s: State, e: Event)
    requires Inv(s) && (e.StartGet? || e.Acquire? || e.Recheck? || e.ReadRow? || e.Release? || e.StartUpdate?)
    ensures Inv(Next(s, e))
  {
    var s' := Next(s, e);
    if s' != s {
      var pc := s'.calls[e.t];
      MoveKeepsInv(s, e.t, pc, s'.holder);
      assert s' == Goto(s, e.t, pc).(holder := s'.holder);
    }
  }

  lemma BuildKeepsInv(s: State, t: ThreadID, ok: bool)
    requires Inv(s)
    ensures Inv(Next(s, Build(t, ok)))
  {
    var pc := CallOf(s, t);
    if pc.Read? {
      var stored := if ok then s.(clients := s.clients[pc.code := pc.row]) else s;
      if ok { StoreKeepsInv(s, pc.code, pc.row); }
      MoveKeepsInv(stored, t, Leaving, s.holder);
      assert Next(s, Build(t, ok)) == Goto(stored, t, Leaving).(holder := s.holder);
    }
  }

  /** A write leaves every copy of the row fresh, because the writer itself is now pending. */
  lemma WriteKeepsFresh(s: State, s': State, t: ThreadID, written: Code, code: Code, row: Row)
    requires Fresh(s, code, row) && s'.completed == s.completed
    requires !Pending(CallOf(s, t), code)
    requires forall x | x in s.calls && x != t :: x in s'.calls && s'.calls[x] == s.calls[x]
    requires code != written ==> (Current(s, code, row) ==> Current(s', code, row))
    requires code == written ==> t in s'.calls && Pending(s'.calls[t], code)
    ensures Fresh(s', code, row)
  {
    if code != written && PendingWriter(s, code) {
      var x :| x in s.calls && Pending(s.calls[x], code);
      assert x in s'.calls && Pending(s'.calls[x], code);
    }
  }

  /** The state after a write to `code` that leaves `rows`, by a call that is now pending. */
  function Written(s: State, t: ThreadID, code: Code, rows: map<Code, Row>): State {
    var version := Count(s.writes, code) + 1;
    Goto(s.(rows := rows, writes := s.writes[code := version]), t, Wrote(code, version))
  }

  predicate WritesOnly(s: State, code: Code, rows: map<Code, Row>) {
    && (forall k | k in rows && k != code :: k in s.rows && rows[k] == s.rows[k])
    && (forall k | k in s.rows && k != code :: k in rows)
    && (code in rows ==> rows[code].version == Count(s.writes, code) + 1)
  }

  lemma WriteKeepsInv(s: State, t: ThreadID, code: Code, rows: map<Code, Row>)
    requires Inv(s) && !Holds(CallOf(s, t)) && !CallOf(s, t).Wrote? && WritesOnly(s, code, rows)
    ensures Inv(Written(s, t, code, rows))
  {
    var s' := Written(s, t, code, rows);
    forall k | k in s'.clients
      ensures Fresh(s', k, s'.clients[k])
    {
      WriteKeepsFresh(s, s', t, code, k, s.clients[k]);
    }
    forall x | x in s'.calls && s'.calls[x].Read?
      ensures Fresh(s', s'.calls[x].code, s'.calls[x].row)
    {
      WriteKeepsFresh(s, s', t, code, s.calls[x].code, s.calls[x].row);
    }
  }

  lemma UpdateWrites(s: State, t: ThreadID, code: Code, kubeconfig: string)
    requires CallOf(s, t) == Updating(code, Some(kubeconfig)) && code in s.rows
    ensures WritesOnly(s, code, WriteRow(s, code, kubeconfig).rows)
    ensures Next(s, WriteUpdate(t, true)) == Written(s, t, code, WriteRow(s, code, kubeconfig).rows)
  {
  }

  lemma UpdateKeepsInv(s: State, t: ThreadID, dbOk: bool)
    requires Inv(s)
    ensures Inv(Next(s, WriteUpdate(t, dbOk)))
  {
    var pc := CallOf(s, t);
    if pc.Updating? {
      if dbOk && pc.newKubeconfig.Some? && pc.code in s.rows {
        UpdateWrites(s, t, pc.code, pc.newKubeconfig.value);
        WriteKeepsInv(s, t, pc.code, WriteRow(s, pc.code, pc.newKubeconfig.value).rows);
      } else if dbOk && pc.newKubeconfig.Some? {
        StayKeepsInv(s, t, Wrote(pc.code, Count(s.writes, pc.code)));
      } else {
        StayKeepsInv(s, t, Idle);
      }
    }
  }

  /** A call that held nothing moves on without touching the lock. */
  lemma StayKeepsInv(s: State, t: ThreadID, pc: Call)
    requires Inv(s) && CallOf(s, t).Updating?
    requires pc.Idle? || (pc.Wrote? && pc.version <= Count(s.writes, pc.code))
    ensures Inv(Goto(s, t, pc))
  {
    MoveKeepsInv(s, t, pc, s.holder);
    assert Goto(s, t, pc) == Goto(s, t, pc).(holder := s.holder);
  }

  lemma DeleteWrites(s: State, t: ThreadID, code: Code)
    requires CallOf(s, t).Idle? && code in s.rows
    ensures WritesOnly(s, code, s.rows - {code})
    ensures Next(s, WriteDelete(t, code, true)) == Written(s, t, code, s.rows - {code})
  {
  }

  lemma DeleteKeepsInv(s: State, t: ThreadID, code: Code, dbOk: bool)
    requires Inv(s)
    ensures Inv(Next(s, WriteDelete(t, code, dbOk)))
  {
    if CallOf(s, t).Idle? && dbOk && code in s.rows {
      DeleteWrites(s, t, code);
      WriteKeepsInv(s, t, code, s.rows - {code});
    }
  }

  /** The invalidating call holds the lock, so no getter sits on a row it has read. */
  lemma InvalidateKeepsInv(s: State, t: ThreadID)
    requires Inv(s)
    ensures Inv(Next(s, Invalidate(t)))
  {
    var s', pc := Next(s, Invalidate(t)), CallOf(s, t);
    if pc.Invalidating? {
      forall code | code in s'.clients
        ensures Fresh(s', code, s'.clients[code])
      {
        OthersStayFresh(s, s', t, pc.code, code, s.clients[code]);
      }
      assert forall x | x in s'.calls :: !s'.calls[x].Read?;
    }
  }

  lemma OthersStayFresh(s: State, s': State, t: ThreadID, removed: Code, code: Code, row: Row)
    requires Fresh(s, code, row) && code != removed && s'.rows == s.rows
    requires Count(s'.completed, code) == Count(s.completed, code)
    requires Pending(CallOf(s, t), removed)
    requires forall x | x in s.calls && x != t :: x in s'.calls && s'.calls[x] == s.calls[x]
    ensures Fresh(s', code, row)
  {
    if PendingWriter(s, code) {
      var x :| x in s.calls && Pending(s.calls[x], code);
      assert x in s'.calls && Pending(s'.calls[x], code);
    }
  }

  /** An import finds no row, so every copy of one under its code is already covered by a pending call. */
  lemma ImportKeepsInv(s: State, e: Event)
    requires Inv(s) && e.Import?
    ensures Inv(Next(s, e))
  {
    var s' := Next(s, e);
    if s' != s {
      forall code | code in s'.clients
        ensures Fresh(s', code, s'.clients[code])
      {
        assert Fresh(s, code, s.clients[code]);
        assert PendingWriter(s, code) ==> PendingWriter(s', code);
      }
      forall t | t in s'.calls && s'.calls[t].Read?
        ensures Fresh(s', s'.calls[t].code, s'.calls[t].row)
      {
        assert Fresh(s, s.calls[t].code, s.calls[t].row);
        assert PendingWriter(s, s.calls[t].code) ==> PendingWriter(s', s.calls[t].code);
      }
    }
  }

  lemma StepKeepsInv(s: State, e: Event)
    requires Inv(s)
    ensures Inv(Next(s, e))
  {
    match e
    case Build(t, ok) => BuildKeepsInv(s, t, ok);
    case WriteUpdate(t, dbOk) => UpdateKeepsInv(s, t, dbOk);
    case WriteDelete(t, code, dbOk) => DeleteKeepsInv(s, t, code, dbOk);
    case Invalidate(t) => InvalidateKeepsInv(s, t);
    case Import(_, _, _) => ImportKeepsInv(s, e);
    case _ => GetKeepsInv(s, e);
  }

  lemma {:induction false} StepsKeepInv(s: State, events: seq<Event>)
    requires Inv(s)
    ensures Inv(Steps(s, events))
  {
    if events != [] {
      StepsKeepInv(s, events[..|events| - 1]);
      StepKeepsInv(Steps(s, events[..|events| - 1]), events[|events| - 1]);
    }
  }

  // ---- main results ----

  /** On every run, a cached client that disagrees with its row has a writer yet to invalidate it. */
  lemma StaleImpliesPendingWriter(events: seq<Event>, code: Code)
    ensures var s := Run(events);
            code in s.clients && !(code in s.rows && s.rows[code].kubeconfig == s.clients[code].kubeconfig)
            ==> PendingWriter(s, code)
  {
    StepsKeepInv(INITIAL, events);
    var s := Run(events);
    assert code in s.clients ==> Fresh(s, code, s.clients[code]);
  }

  /** When no update or delete of any code is unfinished, the whole cache agrees with the database. */
  lemma QuiescentIsCoherent(events: seq<Event>)
    requires forall code :: !PendingWriter(Run(events), code)
    ensures var s := Run(events);
            forall code | code in s.clients :: code in s.rows && s.clients[code] == s.rows[code]
  {
    StepsKeepInv(INITIAL, events);
    var s := Run(events);
    forall code | code in s.clients
      ensures code in s.rows && s.clients[code] == s.rows[code]
    {
      assert Fresh(s, code, s.clients[code]);
    }
  }

  /** At most one call is inside the exclusive section. */
  lemma LockIsExclusive(events: seq<Event>, t: ThreadID, u: ThreadID)
    ensures Holds(CallOf(Run(events), t)) && Holds(CallOf(Run(events), u)) ==> t == u
  {
    StepsKeepInv(INITIAL, events);
  }

  lemma StepGrows(s: State, e: Event, code: Code)
    ensures Count(s.completed, code) <= Count(Next(s, e).completed, code)
  {
  }

  lemma {:induction false} CompletedGrows(s: State, events: seq<Event>, code: Code)
    ensures Count(s.completed, code) <= Count(Steps(s, events).completed, code)
  {
    if events != [] {
      CompletedGrows(s, events[..|events| - 1], code);
      StepGrows(Steps(s, events[..|events| - 1]), events[|events| - 1], code);
    }
  }

  lemma {:induction false} StepsAppend(s: State, a: seq<Event>, b: seq<Event>)
    ensures Steps(s, a + b) == Steps(Steps(s, a), b)
  {
    if b == [] {
      assert a + b == a;
    } else {
      var all := a + b;
      assert all[..|all| - 1] == a + b[..|b| - 1] && all[|all| - 1] == b[|b| - 1];
      StepsAppend(s, a, b[..|b| - 1]);
    }
  }

  /**
   Once an update or delete has returned, no later state caches a client older than it: `earlier` ends after
   the invalidation that completed write number `Count(completed, code)`, and `later` is arbitrary.
   */
  lemma CompletedWritesAreSeen(earlier: seq<Event>, later: seq<Event>, code: Code)
    ensures var s' := Run(earlier + later);
            code in s'.clients ==> Count(Run(earlier).completed, code) <= s'.clients[code].version
  {
    StepsKeepInv(INITIAL, earlier + later);
    StepsAppend(INITIAL, earlier, later);
    CompletedGrows(Run(earlier), later, code);
    var s' := Run(earlier + later);
    assert code in s'.clients ==> Fresh(s', code, s'.clients[code]);
  }

  /**
   The pending writer is necessary: a getter that read the row before an update and stores it afterwards
   leaves the old client in the cache until the update invalidates it.
   */
  lemma StaleWindowExists(code: Code, before: string, after: string)
    requires code != "" && before != after
    ensures var s := Run([Import(0, code, before), StartGet(1, code), Acquire(1), Recheck(1)] +
                         [ReadRow(1, true), StartUpdate(2, code, Some(after)), WriteUpdate(2, true), Build(1, true)]);
            code in s.clients && code in s.rows && s.clients[code].kubeconfig == before && s.rows[code].kubeconfig == after
  {
    var getting := [Import(0, code, before), StartGet(1, code), Acquire(1), Recheck(1)];
    var racing := [ReadRow(1, true), StartUpdate(2, code, Some(after)), WriteUpdate(2, true), Build(1, true)];
    FourSteps(INITIAL, getting);
    GetterRunsToItsRead(code, before);
    FourSteps(Run(getting), racing);
    UpdateOvertakesRead(code, before, after);
    StepsAppend(INITIAL, getting, racing);
  }

  function ReadingState(code: Code, kubeconfig: string): State {
    State(map[code := Row(kubeconfig, 1)], map[], Some(1), map[1 := Checked(code)], map[code := 1], map[])
  }

  lemma UpdateOvertakesRead(code: Code, before: string, after: string)
    ensures var s := Next(Next(Next(Next(ReadingState(code, before), ReadRow(1, true)), StartUpdate(2, code, Some(after))),
                          WriteUpdate(2, true)), Build(1, true));
            code in s.clients && code in s.rows && s.clients[code].kubeconfig == before && s.rows[code].kubeconfig == after
  {
    var row := Row(before, 1);
    var s0 := ReadingState(code, before);
    var s1 := Next(s0, ReadRow(1, true));
    assert s1 == Goto(s0, 1, Read(code, row));
    var s2 := Next(s1, StartUpdate(2, code, Some(after)));
    assert s2 == Goto(s1, 2, Updating(code, Some(after)));
    var s3 := Next(s2, WriteUpdate(2, true));
    assert s3.rows == map[code := Row(after, 2)] && CallOf(s3, 1) == Read(code, row);
  }

  lemma GetterRunsToItsRead(code: Code, kubeconfig: string)
    requires code != ""
    ensures Next(Next(Next(Next(INITIAL, Import(0, code, kubeconfig)), StartGet(1, code)), Acquire(1)), Recheck(1))
         == ReadingState(code, kubeconfig)
  {
    var s1 := Next(INITIAL, Import(0, code, kubeconfig));
    assert s1 == State(map[code := Row(kubeconfig, 1)], map[], None, map[], map[code := 1], map[]);
    var s2 := Next(s1, StartGet(1, code));
    assert s2.calls == map[1 := Missed(code)];
    var s3 := Next(s2, Acquire(1));
    assert s3.calls == map[1 := Locked(code)] && s3.holder == Some(1);
  }

  lemma FourSteps(s: State, e: seq<Event>)
    requires |e| == 4
    ensures Steps(s, e) == Next(Next(Next(Next(s, e[0]), e[1]), e[2]), e[3])
  {
    assert e[..3][..2] == e[..2] && e[..2][..1] == e[..1] && e[..1][..0] == [];
    assert Steps(s, e[..1]) == Next(s, e[0]);
    assert Steps(s, e[..2]) == Next(Steps(s, e[..1]), e[1]);
    assert Steps(s, e[..3]) == Next(Steps(s, e[..2]), e[2]);
  }

  // ---- what a call achieves ----

  /** What is left of a call after its write, when nobody interferes. */
  function Invalidated(s: State, t: ThreadID): State { Next(Next(Next(s, Acquire(t)), Invalidate(t)), Release(t)) }

  function Updated(s: State, t: ThreadID, code: Code, kubeconfig: string): State {
    Invalidated(Next(Next(s, StartUpdate(t, code, Some(kubeconfig))), WriteUpdate(t, true)), t)
  }

  function Deleted(s: State, t: ThreadID, code: Code): State { Invalidated(Next(s, WriteDelete(t, code, true)), t) }

  /** A get that finds nothing cached, when nobody interferes. */
  function Got(s: State, t: ThreadID, code: Code): State { Loaded(Next(Next(s, StartGet(t, code)), Acquire(t)), t) }

  function Loaded(s: State, t: ThreadID): State {
    Next(Next(Next(Next(s, Recheck(t)), ReadRow(t, true)), Build(t, true)), Release(t))
  }

  predicate Free(s: State, t: ThreadID) { s.holder.None? && CallOf(s, t).Idle? }

  /** After its write a call takes the free lock, drops the entry, and is done. */
  lemma InvalidationEnds(s: State, t: ThreadID, code: Code)
    requires s.holder.None? && CallOf(s, t).Wrote? && CallOf(s, t).code == code
    ensures var s' := Invalidated(s, t);
            Free(s', t) && s'.rows == s.rows && s'.clients == s.clients - {code}
  {
    var s1 := Next(s, Acquire(t));
    assert CallOf(s1, t) == Invalidating(code, CallOf(s, t).version) && s1.rows == s.rows && s1.clients == s.clients;
    var s2 := Next(s1, Invalidate(t));
    assert CallOf(s2, t).Leaving? && s2.rows == s.rows && s2.clients == s.clients - {code};
  }

  lemma UpdateWritesAndInvalidates(s: State, t: ThreadID, code: Code, kubeconfig: string)
    requires Free(s, t) && code in s.rows
    ensures var s' := Updated(s, t, code, kubeconfig);
            && Free(s', t) && s'.rows == s.rows[code := Row(kubeconfig, Count(s.writes, code) + 1)] && s'.clients == s.clients - {code}
  {
    var s1 := Next(s, StartUpdate(t, code, Some(kubeconfig)));
    assert s1 == Goto(s, t, Updating(code, Some(kubeconfig)));
    UpdateWrites(s1, t, code, kubeconfig);
    InvalidationEnds(Next(s1, WriteUpdate(t, true)), t, code);
  }

  lemma LoadCachesTheRow(s: State, t: ThreadID, code: Code)
    requires CallOf(s, t) == Locked(code) && code in s.rows && code !in s.clients
    ensures var s' := Loaded(s, t);
            Free(s', t) && s'.rows == s.rows && s'.clients == s.clients[code := s.rows[code]]
  {
    var s1 := Next(s, Recheck(t));
    assert CallOf(s1, t) == Checked(code) && s1.rows == s.rows && s1.clients == s.clients;
    var s2 := Next(s1, ReadRow(t, true));
    assert CallOf(s2, t) == Read(code, s.rows[code]) && s2.rows == s.rows && s2.clients == s.clients;
  }

  lemma GetCachesTheRow(s: State, t: ThreadID, code: Code)
    requires Free(s, t) && code in s.rows && code !in s.clients && code != ""
    ensures var s' := Got(s, t, code);
            Free(s', t) && s'.rows == s.rows && s'.clients == s.clients[code := s.rows[code]]
  {
    var s1 := Next(s, StartGet(t, code));
    assert CallOf(s1, t) == Missed(code) && s1.holder.None? && s1.rows == s.rows && s1.clients == s.clients;
    LoadCachesTheRow(Next(s1, Acquire(t)), t, code);
  }

  /**
   A caller sees its own write: from any moment of any run at which the lock is free, an update followed by a get
   leaves exactly the new kubeconfig in the table and in the cache, and touches no other cluster.
   */
  lemma UpdateThenGet(events: seq<Event>, t: ThreadID, code: Code, kubeconfig: string)
    requires Free(Run(events), t) && code in Run(events).rows && code != ""
    ensures var s, s' := Run(events), Got(Updated(Run(events), t, code, kubeconfig), t, code);
            && code in s'.clients && code in s'.rows && s'.clients[code] == s'.rows[code] && s'.rows[code].kubeconfig == kubeconfig
            && (forall k | k in s.rows && k != code :: k in s'.rows && s'.rows[k] == s.rows[k])
            && (forall k | k in s.clients && k != code :: k in s'.clients && s'.clients[k] == s.clients[k])
  {
    UpdateWritesAndInvalidates(Run(events), t, code, kubeconfig);
    GetCachesTheRow(Updated(Run(events), t, code, kubeconfig), t, code);
  }

  /** A deleted cluster is gone from the table and, once its call has ended, from the cache. */
  lemma DeleteEndsInBoth(events: seq<Event>, t: ThreadID, code: Code)
    requires Free(Run(events), t) && code in Run(events).rows
    ensures var s, s' := Run(events), Deleted(Run(events), t, code);
            Free(s', t) && s'.rows == s.rows - {code} && s'.clients == s.clients - {code}
  {
    DeleteWrites(Run(events), t, code);
    InvalidationEnds(Next(Run(events), WriteDelete(t, code, true)), t, code);
  }
}
