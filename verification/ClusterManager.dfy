/**
 The cluster manager as an object (backend/internal/cluster/manager.go): the client map behind a mutex and
 the cluster table. The calls of one thread are methods; what other threads do while this thread waits for
 the lock or the database is an arbitrary list of steps given to the call, so each method is verified
 against every interference, and its whole effect is a run of `ClusterCache`.
 */
module ClusterManager {
  import opened Basics
  import opened ClusterCache

  ghost predicate ByOthers(events: seq<Event>, t: ThreadID) {
    forall i | 0 <= i < |events| :: events[i].t != t
  }

  lemma StepsSnoc(s: State, events: seq<Event>, e: Event)
    ensures Steps(s, events + [e]) == Next(Steps(s, events), e)
  {
    assert (events + [e])[..|events|] == events;
  }

  /** Steps of other threads leave a thread's own program counter alone. */
  lemma {:induction false} OthersLeaveCall(s: State, events: seq<Event>, t: ThreadID)
    requires ByOthers(events, t)
    ensures CallOf(Steps(s, events), t) == CallOf(s, t)
  {
    if events != [] {
      assert ByOthers(events[..|events| - 1], t);
      OthersLeaveCall(s, events[..|events| - 1], t);
      OtherLeavesCall(Steps(s, events[..|events| - 1]), events[|events| - 1], t);
    }
  }

  lemma OtherLeavesCall(s: State, e: Event, t: ThreadID)
    requires e.t != t
    ensures CallOf(Next(s, e), t) == CallOf(s, t)
  {
  }

  method Apply(s: State, events: seq<Event>) returns (s': State)
    ensures s' == Steps(s, events)
  {
    s' := s;
    for i := 0 to |events|
      invariant s' == Steps(s, events[..i])
    {
      s' := Next(s', events[i]);
      assert events[..i + 1][..i] == events[..i];
    }
    assert events[..|events|] == events;
  }

  class Manager {
    var rows: map<Code, Row>
    var clients: map<Code, Row>
    var holder: Option<ThreadID>
    var calls: map<ThreadID, Call>
    var writes: map<Code, nat>
    var completed: map<Code, nat>

    function View(): State
      reads this
    {
      State(rows, clients, holder, calls, writes, completed)
    }

    ghost predicate Valid()
      reads this
    {
      Inv(View())
    }

    constructor ()
      ensures View() == INITIAL && Valid()
    {
      rows, clients, holder, calls, writes, completed := map[], map[], None, map[], map[], map[];
    }

    /** What the other threads do meanwhile. */
    method Others(t: ThreadID, events: seq<Event>)
      requires ByOthers(events, t)
      modifies this
      ensures View() == Steps(old(View()), events)
      ensures CallOf(View(), t) == CallOf(old(View()), t)
    {
      OthersLeaveCall(View(), events, t);
      var s := Apply(View(), events);
      rows, clients, holder := s.rows, s.clients, s.holder;
      calls, writes, completed := s.calls, s.writes, s.completed;
    }

    /** The lookup under the read lock. */
    method FastLookup(t: ThreadID, code: Code) returns (client: Option<Row>)
      requires CallOf(View(), t).Idle? && holder.None? && code != ""
      modifies this`calls
      ensures View() == Next(old(View()), StartGet(t, code))
      ensures client.Some? ==> View() == old(View()) && code in clients && client.value == clients[code]
      ensures client.None? ==> CallOf(View(), t) == Missed(code)
    {
      client := None;
      if code in clients {
        client := Some(clients[code]);
      } else {
        calls := calls[t := Missed(code)];
      }
    }

    /** The exclusive lock, for a getter after a miss or a writer about to invalidate. */
    method Lock(t: ThreadID)
      requires holder.None? && (CallOf(View(), t).Missed? || CallOf(View(), t).Wrote?)
      modifies this`calls, this`holder
      ensures View() == Next(old(View()), Acquire(t))
    {
      var pc := CallOf(View(), t);
      calls := calls[t := if pc.Missed? then Locked(pc.code) else Invalidating(pc.code, pc.version)];
      holder := Some(t);
    }

    method Unlock(t: ThreadID)
      requires CallOf(View(), t).Leaving?
      modifies this`calls, this`holder
      ensures View() == Next(old(View()), Release(t)) && holder.None?
    {
      calls, holder := calls[t := Idle], None;
    }

    /** The second lookup, under the exclusive lock. */
    method SlowLookup(t: ThreadID, code: Code) returns (client: Option<Row>)
      requires CallOf(View(), t) == Locked(code)
      modifies this`calls
      ensures View() == Next(old(View()), Recheck(t))
      ensures client.Some? ==> code in clients && client.value == clients[code] && CallOf(View(), t).Leaving?
      ensures client.None? ==> CallOf(View(), t) == Checked(code)
    {
      client := None;
      if code in clients {
        client := Some(clients[code]);
        calls := calls[t := Leaving];
      } else {
        calls := calls[t := Checked(code)];
      }
    }

    /** The database read of `decryptAndBuildConfig`. */
    method QueryRow(t: ThreadID, code: Code, dbOk: bool) returns (row: Option<Row>)
      requires CallOf(View(), t) == Checked(code)
      modifies this`calls
      ensures View() == Next(old(View()), ReadRow(t, dbOk))
      ensures row.Some? ==> CallOf(View(), t) == Read(code, row.value)
      ensures row.None? ==> CallOf(View(), t).Leaving?
      ensures row.Some? <==> dbOk && code in rows
    {
      row := None;
      if dbOk && code in rows {
        row := Some(rows[code]);
        calls := calls[t := Read(code, rows[code])];
      } else {
        calls := calls[t := Leaving];
      }
    }

    /** Decryption, parsing and client construction, any of which may fail, and the store into the map. */
    method StoreClient(t: ThreadID, code: Code, row: Row, ok: bool) returns (client: Option<Row>)
      requires CallOf(View(), t) == Read(code, row)
      modifies this`calls, this`clients
      ensures View() == Next(old(View()), Build(t, ok))
      ensures CallOf(View(), t).Leaving? && (client.Some? <==> ok)
      ensures client.Some? ==> client.value == row && code in clients && clients[code] == row
    {
      client := None;
      if ok {
        clients := clients[code := row];
        client := Some(row);
      }
      calls := calls[t := Leaving];
    }

    /** The exclusive section of a getter, up to the unlock. */
    method LoadUnderLock(t: ThreadID, code: Code, whileReading: seq<Event>, dbOk: bool, buildOk: bool)
      returns (client: Option<Row>, ghost trace: seq<Event>)
      requires CallOf(View(), t) == Locked(code) && ByOthers(whileReading, t)
      modifies this
      ensures View() == Steps(old(View()), trace) && CallOf(View(), t).Leaving?
      ensures client.Some? ==> code in clients && clients[code] == client.value
      ensures client.Some? <==> old(code in clients) || (dbOk && buildOk && old(code in rows))
    {
      ghost var s0 := View();
      trace := [] + [Recheck(t)];
      StepsSnoc(s0, [], Recheck(t));
      client := SlowLookup(t, code);
      if client.None? {
        StepsSnoc(s0, trace, ReadRow(t, dbOk));
        trace := trace + [ReadRow(t, dbOk)];
        var row := QueryRow(t, code, dbOk);
        if row.Some? {
          StepsAppend(s0, trace, whileReading);
          trace := trace + whileReading;
          Others(t, whileReading);
          StepsSnoc(s0, trace, Build(t, buildOk));
          trace := trace + [Build(t, buildOk)];
          client := StoreClient(t, code, row.value, buildOk);
        }
      }
    }

    /** Waiting for the lock while others run, and taking it. */
    method WaitForLock(t: ThreadID, beforeLock: seq<Event>) returns (ghost trace: seq<Event>)
      requires (CallOf(View(), t).Missed? || CallOf(View(), t).Wrote?)
      requires ByOthers(beforeLock, t) && Steps(View(), beforeLock).holder.None?
      modifies this
      ensures View() == Steps(old(View()), trace)
      ensures clients == Steps(old(View()), beforeLock).clients && rows == Steps(old(View()), beforeLock).rows
      ensures var pc := CallOf(old(View()), t);
              CallOf(View(), t) == if pc.Missed? then Locked(pc.code) else Invalidating(pc.code, pc.version)
    {
      StepsSnoc(View(), beforeLock, Acquire(t));
      trace := beforeLock + [Acquire(t)];
      Others(t, beforeLock);
      Lock(t);
    }

    /**
     Whatever the others do, a returned client is the cached one, agrees with the row unless a writer has yet
     to invalidate it, and is not older than any update or delete that had returned before the call began.
     */
    method GetDynamicClient(t: ThreadID, code: Code, beforeLock: seq<Event>, whileReading: seq<Event>, dbOk: bool, buildOk: bool)
      returns (client: Option<Row>, ghost trace: seq<Event>)
      requires Valid() && CallOf(View(), t).Idle? && holder.None?
      requires ByOthers(beforeLock, t) && ByOthers(whileReading, t)
      requires Steps(Next(View(), StartGet(t, code)), beforeLock).holder.None?
      modifies this
      ensures Valid() && View() == Steps(old(View()), trace) && CallOf(View(), t).Idle?
      ensures code == "" ==> client.None? && View() == old(View())
      ensures old(code in clients) && code != "" ==> client == Some(old(clients)[code]) && View() == old(View())
      ensures var locked := Steps(Next(old(View()), StartGet(t, code)), beforeLock);
              old(code !in clients) && code != "" ==>
                (client.Some? <==> code in locked.clients || (dbOk && buildOk && code in locked.rows))
      ensures client.Some? ==> code in clients && clients[code] == client.value
      ensures client.Some? ==> Current(View(), code, client.value) || PendingWriter(View(), code)
      ensures client.Some? ==> Count(old(completed), code) <= client.value.version
    {
      ghost var s0 := View();
      client, trace := Fetch(t, code, beforeLock, whileReading, dbOk, buildOk);
      CompletedGrows(s0, trace, code);
      StepsKeepInv(s0, trace);
    }

    /** The lookups, the lock and the load, as a run of steps. */
    method Fetch(t: ThreadID, code: Code, beforeLock: seq<Event>, whileReading: seq<Event>, dbOk: bool, buildOk: bool)
      returns (client: Option<Row>, ghost trace: seq<Event>)
      requires CallOf(View(), t).Idle? && holder.None?
      requires ByOthers(beforeLock, t) && ByOthers(whileReading, t)
      requires Steps(Next(View(), StartGet(t, code)), beforeLock).holder.None?
      modifies this
      ensures View() == Steps(old(View()), trace) && CallOf(View(), t).Idle?
      ensures code == "" ==> client.None? && View() == old(View())
      ensures old(code in clients) && code != "" ==> client == Some(old(clients)[code]) && View() == old(View())
      ensures var locked := Steps(Next(old(View()), StartGet(t, code)), beforeLock);
              old(code !in clients) && code != "" ==>
                (client.Some? <==> code in locked.clients || (dbOk && buildOk && code in locked.rows))
      ensures client.Some? ==> code in clients && clients[code] == client.value
    {
      trace, client := [], None;
      if code == "" { return; }
      ghost var s0 := View();
      client := FastLookup(t, code);
      if client.Some? { return; }
      StepsSnoc(s0, [], StartGet(t, code));
      trace := [] + [StartGet(t, code)];
      ghost var more := WaitForLock(t, beforeLock);
      StepsAppend(s0, trace, more);
      trace := trace + more;
      client, more := LoadUnderLock(t, code, whileReading, dbOk, buildOk);
      StepsAppend(s0, trace, more);
      trace := trace + more;
      StepsSnoc(s0, trace, Release(t));
      trace := trace + [Release(t)];
      Unlock(t);
    }

    /** The map delete of `invalidateClient`. */
    method DropEntry(t: ThreadID, code: Code)
      requires CallOf(View(), t).Invalidating? && CallOf(View(), t).code == code
      modifies this`clients, this`completed, this`calls
      ensures View() == Next(old(View()), Invalidate(t)) && CallOf(View(), t).Leaving?
      ensures clients == old(clients) - {code} && CallOf(old(View()), t).version <= Count(completed, code)
    {
      var version := Max(Count(completed, code), CallOf(View(), t).version);
      clients, completed, calls := clients - {code}, completed[code := version], calls[t := Leaving];
    }

    /** `invalidateClient`, once the lock is granted. */
    method InvalidateClient(t: ThreadID, code: Code, beforeLock: seq<Event>) returns (ghost trace: seq<Event>)
      requires CallOf(View(), t).Wrote? && CallOf(View(), t).code == code
      requires ByOthers(beforeLock, t) && Steps(View(), beforeLock).holder.None?
      modifies this
      ensures View() == Steps(old(View()), trace) && CallOf(View(), t).Idle?
      ensures code !in clients && holder.None?
      ensures rows == Steps(old(View()), beforeLock).rows && clients == Steps(old(View()), beforeLock).clients - {code}
      ensures CallOf(old(View()), t).version <= Count(completed, code)
    {
      ghost var s0 := View();
      trace := WaitForLock(t, beforeLock);
      StepsSnoc(s0, trace, Invalidate(t));
      trace := trace + [Invalidate(t)];
      DropEntry(t, code);
      StepsSnoc(s0, trace, Release(t));
      trace := trace + [Release(t)];
      Unlock(t);
    }

    /**
     `Update`: the row as first read, the checks and the encryption (`prepared`), the write, the invalidation, which
     only a new kubeconfig needs, and the final reload. An error of the reload comes after the write: then, too, the
     write counts as completed, so no later client is older than it.
     */
    method Update(t: ThreadID, code: Code, newKubeconfig: Option<string>, prepared: bool, beforeWrite: seq<Event>, dbOk: bool,
                  beforeLock: seq<Event>, beforeReload: seq<Event>, reloadOk: bool)
      returns (ok: bool, ghost trace: seq<Event>)
      requires Valid() && CallOf(View(), t).Idle?
      requires ByOthers(beforeWrite, t) && ByOthers(beforeLock, t) && ByOthers(beforeReload, t)
      requires Steps(Next(Steps(Next(View(), StartUpdate(t, code, newKubeconfig)), beforeWrite), WriteUpdate(t, dbOk)), beforeLock).holder.None?
      modifies this
      ensures Valid() && View() == Steps(old(View()), trace) && CallOf(View(), t).Idle?
      ensures ok <==> old(code in rows) && prepared && dbOk && reloadOk && code in rows
      ensures !(old(code in rows) && prepared) ==> View() == old(View())
      ensures old(code in rows) && prepared && dbOk && newKubeconfig.Some? && beforeWrite == [] ==>
                Count(old(writes), code) < Count(completed, code)
      ensures old(code in rows) && prepared && dbOk && newKubeconfig.Some? && beforeReload == [] ==> code !in clients
      ensures code in clients ==> Count(completed, code) <= clients[code].version
      ensures old(code in rows) && prepared && beforeWrite == [] && beforeLock == [] && beforeReload == [] ==>
                rows == if dbOk && newKubeconfig.Some? then old(rows)[code := Row(newKubeconfig.value, Count(old(writes), code) + 1)] else old(rows)
    {
      trace, ok := [], false;
      ghost var s0 := View();
      if code !in rows || !prepared { return; }
      ok, trace := ReadAndWrite(t, code, newKubeconfig, beforeWrite, dbOk);
      if ok {
        if newKubeconfig.Some? {
          ghost var more := InvalidateClient(t, code, beforeLock);
          StepsAppend(s0, trace, more);
          trace := trace + more;
        }
        StepsAppend(s0, trace, beforeReload);
        trace := trace + beforeReload;
        CompletedGrows(View(), beforeReload, code);
        Others(t, beforeReload);
        ok := reloadOk && code in rows;
      }
      StepsKeepInv(s0, trace);
    }

    /** The database part of `Update`, with what the others do between its read and its write. */
    method ReadAndWrite(t: ThreadID, code: Code, newKubeconfig: Option<string>, beforeWrite: seq<Event>, dbOk: bool)
      returns (ok: bool, ghost trace: seq<Event>)
      requires CallOf(View(), t).Idle? && code in rows && ByOthers(beforeWrite, t)
      modifies this
      ensures View() == Steps(old(View()), trace) && ok == dbOk
      ensures View() == Next(Steps(Next(old(View()), StartUpdate(t, code, newKubeconfig)), beforeWrite), WriteUpdate(t, dbOk))
      ensures ok && newKubeconfig.Some? ==> CallOf(View(), t) == Wrote(code, Count(writes, code))
      ensures !(ok && newKubeconfig.Some?) ==> CallOf(View(), t).Idle?
      ensures ok && newKubeconfig.Some? && beforeWrite == [] ==> Count(writes, code) == Count(old(writes), code) + 1
      ensures beforeWrite == [] ==>
                rows == if ok && newKubeconfig.Some? then old(rows)[code := Row(newKubeconfig.value, Count(old(writes), code) + 1)] else old(rows)
    {
      ghost var s0 := View();
      StepsSnoc(s0, [], StartUpdate(t, code, newKubeconfig));
      trace := [] + [StartUpdate(t, code, newKubeconfig)];
      calls := calls[t := Updating(code, newKubeconfig)];
      StepsAppend(s0, trace, beforeWrite);
      trace := trace + beforeWrite;
      Others(t, beforeWrite);
      StepsSnoc(s0, trace, WriteUpdate(t, dbOk));
      trace := trace + [WriteUpdate(t, dbOk)];
      ok := WriteColumns(t, code, newKubeconfig, dbOk);
    }

    /** The UPDATE statement: kubeconfig and creator change together, and a vanished row is no error. */
    method WriteColumns(t: ThreadID, code: Code, newKubeconfig: Option<string>, dbOk: bool) returns (ok: bool)
      requires CallOf(View(), t) == Updating(code, newKubeconfig)
      modifies this`rows, this`writes, this`calls
      ensures View() == Next(old(View()), WriteUpdate(t, dbOk)) && ok == dbOk
      ensures ok && newKubeconfig.Some? ==> CallOf(View(), t) == Wrote(code, Count(writes, code))
      ensures !(ok && newKubeconfig.Some?) ==> CallOf(View(), t).Idle?
      ensures ok && newKubeconfig.Some? && old(code in rows) ==> Count(writes, code) == Count(old(writes), code) + 1
      ensures rows == if ok && newKubeconfig.Some? && code in old(rows)
                      then old(rows)[code := Row(newKubeconfig.value, Count(old(writes), code) + 1)] else old(rows)
    {
      ok := dbOk;
      if ok && newKubeconfig.Some? {
        if code in rows {
          var version := Count(writes, code) + 1;
          rows, writes := rows[code := Row(newKubeconfig.value, version)], writes[code := version];
        }
        calls := calls[t := Wrote(code, Count(writes, code))];
      } else {
        calls := calls[t := Idle];
      }
    }

    /** `Delete`: true when a row was deleted, and then the cached client is gone too. */
    method Delete(t: ThreadID, code: Code, beforeLock: seq<Event>, dbOk: bool) returns (ok: bool, ghost trace: seq<Event>)
      requires Valid() && CallOf(View(), t).Idle?
      requires ByOthers(beforeLock, t) && Steps(Next(View(), WriteDelete(t, code, dbOk)), beforeLock).holder.None?
      modifies this
      ensures Valid() && View() == Steps(old(View()), trace) && CallOf(View(), t).Idle?
      ensures ok <==> dbOk && old(code in rows)
      ensures ok ==> code !in clients && Count(old(writes), code) < Count(completed, code)
      ensures ok && beforeLock == [] ==> rows == old(rows) - {code} && clients == old(clients) - {code}
      ensures !ok ==> View() == old(View())
    {
      trace, ok := [], false;
      ghost var s0 := View();
      if dbOk && code in rows {
        ok := true;
        StepsSnoc(s0, [], WriteDelete(t, code, dbOk));
        DeleteRow(t, code);
        ghost var more := InvalidateClient(t, code, beforeLock);
        trace := [] + [WriteDelete(t, code, dbOk)];
        StepsAppend(s0, trace, more);
        trace := trace + more;
        StepsKeepInv(s0, trace);
      }
    }

    /** The DELETE statement. */
    method DeleteRow(t: ThreadID, code: Code)
      requires CallOf(View(), t).Idle? && code in rows
      modifies this`rows, this`writes, this`calls
      ensures View() == Next(old(View()), WriteDelete(t, code, true))
      ensures CallOf(View(), t) == Wrote(code, Count(old(writes), code) + 1) && rows == old(rows) - {code} && clients == old(clients)
    {
      var version := Count(writes, code) + 1;
      rows, writes, calls := rows - {code}, writes[code := version], calls[t := Wrote(code, version)];
    }

    /**
     `ImportCluster`: creates the row of an unused code, if the other checks, the parsing and the encryption pass
     (`ready`) and the insert succeeds. It never touches the cache.
     */
    method ImportCluster(t: ThreadID, code: Code, kubeconfig: string, ready: bool, insertOk: bool) returns (ok: bool)
      requires Valid() && CallOf(View(), t).Idle?
      modifies this`rows, this`writes
      ensures Valid() && View() == if ready && insertOk then Next(old(View()), Import(t, code, kubeconfig)) else old(View())
      ensures ok <==> ready && insertOk && code != "" && old(code !in rows)
      ensures rows == if ok then old(rows)[code := Row(kubeconfig, Count(old(writes), code) + 1)] else old(rows)
    {
      ok := false;
      if ready && insertOk {
        StepKeepsInv(View(), Import(t, code, kubeconfig));
        ok := InsertRow(t, code, kubeconfig);
      }
    }

    /** The existence check and the INSERT. */
    method InsertRow(ghost t: ThreadID, code: Code, kubeconfig: string) returns (ok: bool)
      requires CallOf(View(), t).Idle?
      modifies this`rows, this`writes
      ensures View() == Next(old(View()), Import(t, code, kubeconfig))
      ensures ok <==> code != "" && old(code !in rows)
      ensures rows == if ok then old(rows)[code := Row(kubeconfig, Count(old(writes), code) + 1)] else old(rows)
    {
      ok := code != "" && code !in rows;
      if ok {
        var version := Count(writes, code) + 1;
        rows, writes := rows[code := Row(kubeconfig, version)], writes[code := version];
      }
    }
  }
}
