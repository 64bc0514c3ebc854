/**
 The shared store of the backup protocol, updated in place: the task table and the Redis stream as the
 submitters (backend/internal/backup/manager.go) and the workers (backend/internal/worker/backup_worker.go)
 use them. Most methods are one database or Redis call and refine one step of `BackupTasks`. `HandleTask` and
 `Process` are the worker's handlers: what all other actors do between their calls is an arbitrary list of
 steps, so they are verified against every interference. The last five fields are not stored anywhere; they
 are the program counters and the history.
 */
module TaskStore {
  import opened Basics
  import opened BackupTasks

  function Steps(s: State, events: seq<Event>): State {
    if events == [] then s else Next(Steps(s, events[..|events| - 1]), events[|events| - 1])
  }

  predicate MovesWorker(e: Event, w: nat) {
    (e.ReadNew? || e.AutoClaim? || e.Load? || e.Claim? || e.Succeed? || e.Fail? || e.MarkFailed? || e.Ack? || e.Crash?) && e.w == w
  }

  /** Steps of other workers, of submitters, and deletions. */
  ghost predicate ByOthers(events: seq<Event>, w: nat) {
    forall i | 0 <= i < |events| :: !MovesWorker(events[i], w)
  }

  predicate NoAckBy(events: seq<Event>, w: nat) {
    forall e | e in events && e.Ack? :: e.w != w
  }

  lemma NoAckAppend(a: seq<Event>, b: seq<Event>, w: nat)
    requires NoAckBy(a, w) && NoAckBy(b, w)
    ensures NoAckBy(a + b, w)
  {
  }

  predicate KeepsMessages(s: State, s': State) {
    (forall m | m in s.stream :: m < s.nextMsg) ==>
      (forall m | m in s'.stream :: m < s'.nextMsg) && (forall m | m in s.stream :: m in s'.stream && s'.stream[m] == s.stream[m])
  }

  /** Another actor's step leaves a worker where it stands and every message in the stream. */
  predicate Apart(s: State, s': State, w: nat) {
    WorkerOf(s', w) == WorkerOf(s, w) && KeepsMessages(s, s')
  }

  lemma SucceedIsApart(s: State, v: nat, work: Work, w: nat)
    requires v != w
    ensures Apart(s, SucceedStep(s, v, work), w)
  {
  }

  lemma ClaimIsApart(s: State, v: nat, dbOk: bool, w: nat)
    requires v != w
    ensures Apart(s, ClaimStep(s, v, dbOk), w)
  {
  }

  lemma LoadIsApart(s: State, v: nat, dbOk: bool, w: nat)
    requires v != w
    ensures Apart(s, LoadStep(s, v, dbOk), w)
  {
  }

  lemma WorkerIsApart(s: State, e: Event, w: nat)
    requires (e.Fail? || e.MarkFailed? || e.Ack? || e.Crash?) && e.w != w
    ensures Apart(s, Next(s, e), w)
  {
  }

  lemma SubmitterIsApart(s: State, e: Event, w: nat)
    requires e.SubmitBackup? || e.SubmitRestore? || e.WritePayload? || e.Enqueue? || e.MarkSubmitError?
    ensures Apart(s, Next(s, e), w)
  {
  }

  lemma OtherIsApart(s: State, e: Event, w: nat)
    requires !MovesWorker(e, w)
    ensures Apart(s, Next(s, e), w)
  {
    match e
    case Succeed(v, work) => SucceedIsApart(s, v, work, w);
    case MalformedMessage =>
    case DeleteRow(_) =>
    case SubmitBackup(_, _, _) => SubmitterIsApart(s, e, w);
    case SubmitRestore(_, _, _) => SubmitterIsApart(s, e, w);
    case WritePayload(_, _) => SubmitterIsApart(s, e, w);
    case Enqueue(_, _) => SubmitterIsApart(s, e, w);
    case MarkSubmitError(_) => SubmitterIsApart(s, e, w);
    case Fail(_, _) => WorkerIsApart(s, e, w);
    case MarkFailed(_, _) => WorkerIsApart(s, e, w);
    case Ack(_, _) => WorkerIsApart(s, e, w);
    case Crash(_) => WorkerIsApart(s, e, w);
    case Claim(v, dbOk) => ClaimIsApart(s, v, dbOk, w);
    case Load(v, dbOk) => LoadIsApart(s, v, dbOk, w);
    case ReadNew(_, _) =>
    case AutoClaim(_, _) =>
  }

  lemma {:induction false} OthersLeaveWorker(s: State, events: seq<Event>, w: nat)
    requires ByOthers(events, w)
    ensures Apart(s, Steps(s, events), w)
  {
    if events != [] {
      var init := events[..|events| - 1];
      assert ByOthers(init, w);
      OthersLeaveWorker(s, init, w);
      OtherIsApart(Steps(s, init), events[|events| - 1], w);
    }
  }

  lemma StepsSnoc(s: State, events: seq<Event>, e: Event)
    ensures Steps(s, events + [e]) == Next(Steps(s, events), e)
  {
    assert (events + [e])[..|events|] == events;
  }

  lemma {:induction false} StepsAppend(s: State, a: seq<Event>, b: seq<Event>)
    ensures Steps(s, a + b) == Steps(Steps(s, a), b)
  {
    if b == [] {
      assert a + b == a;
    } else {
      var all := a + b;
      assert all[..|all| - 1] == a + b[..|b| - 1] && all[|all| - 1] == b[|b| - 1];
      StepsAppend(s, a, b[..|b| - 1]);
    }
  }

  method Apply(s: State, events: seq<Event>) returns (s': State)
    ensures s' == Steps(s, events)
  {
    s' := s;
    for i := 0 to |events|
      invariant s' == Steps(s, events[..i])
    {
      s' := Next(s', events[i]);
      assert events[..i + 1][..i] == events[..i];
    }
    assert events[..|events|] == events;
  }

  /** What the calls of one handler return, and the executor's own result, None when it fails. */
  datatype Calls = Calls(loadOk: bool, claimOk: bool, work: Option<Work>, writeOk: bool, marksRow: bool, markOk: bool)

  class TaskStore {
    var rows: map<TaskID, Row>
    var nextID: TaskID
    var stream: map<MsgID, Message>
    var nextMsg: MsgID
    var delivered: set<MsgID>
    var acked: set<MsgID>
    var workers: map<nat, Worker>
    var submitters: map<nat, Submitter>
    var starts: map<TaskID, nat>
    var origin: map<TaskID, nat>
    var carrier: map<TaskID, MsgID>

    function View(): State
      reads this
    {
      State(rows, nextID, stream, nextMsg, delivered, acked, workers, submitters, starts, origin, carrier)
    }

    constructor ()
      ensures View() == INITIAL
    {
      rows, nextID, stream, nextMsg, delivered, acked := map[], 0, map[], 0, {}, {};
      workers, submitters, starts, origin, carrier := map[], map[], map[], map[], map[];
    }

    /** The row insert of `SubmitBackupTask`. */
    method CreateBackup(sub: nat, batch: bool, cluster: string) returns (id: TaskID)
      requires SubmitterOf(View(), sub) == NotStarted
      modifies this
      ensures View() == Next(old(View()), SubmitBackup(sub, batch, cluster))
      ensures id == old(nextID) && rows == old(rows)[id := Row(if batch then BatchOfNamespaces else SingleBackup, cluster, Pending, "", 0)]
    {
      id := nextID;
      var kind := if batch then BatchOfNamespaces else SingleBackup;
      rows := rows[id := Row(kind, cluster, Pending, "", 0)];
      nextID := nextID + 1;
      submitters, origin := submitters[sub := Created(id, kind)], origin[id := sub];
    }

    /** The checks and the row insert of `SubmitRestoreTask`; None when the source cannot be restored. */
    method CreateRestore(sub: nat, source: TaskID, cluster: string) returns (id: Option<TaskID>)
      requires SubmitterOf(View(), sub) == NotStarted
      modifies this
      ensures View() == Next(old(View()), SubmitRestore(sub, source, cluster))
      ensures id.None? ==> View() == old(View())
      ensures id.Some? <==> source in old(rows) && old(rows)[source].status == Success && old(rows)[source].kind != BatchOfNamespaces
      ensures id.Some? ==> rows == old(rows)[id.value := Row(Restoration, cluster, Pending, old(rows)[source].storagePath, 0)]
      ensures id.Some? ==> id.value == old(nextID)
    {
      id := None;
      if source in rows {
        var src := rows[source];
        if src.status == Success && src.kind != BatchOfNamespaces {
          id := Some(nextID);
          rows := rows[nextID := Row(Restoration, cluster, Pending, src.storagePath, 0)];
          submitters, origin := submitters[sub := Created(nextID, Restoration)], origin[nextID := sub];
          nextID := nextID + 1;
        }
      }
    }

    /** `pushTaskToStream` with the task type of the submission; returns whether it failed. */
    method PushTaskToStream(sub: nat, id: TaskID, restore: bool, ok: bool) returns (err: bool)
      requires var pc := SubmitterOf(View(), sub);
               && (pc.Ready? || (pc.Created? && pc.kind != BatchOfNamespaces)) && pc.id == id
               && (restore <==> pc.kind == Restoration)
      modifies this`stream, this`nextMsg, this`submitters, this`carrier
      ensures View() == EnqueueStep(old(View()), sub, ok)
      ensures err == !ok && stream == if ok
              then old(stream)[old(nextMsg) := Message(Some(id), if restore then RestoreTask else BackupTask)] else old(stream)
    {
      err := !ok;
      if ok {
        stream := stream[nextMsg := Message(Some(id), if restore then RestoreTask else BackupTask)];
        submitters, carrier := submitters[sub := Finished], carrier[id := nextMsg];
        nextMsg := nextMsg + 1;
      } else {
        submitters := submitters[sub := Aborting(id)];
      }
    }

    /** `setTaskError` on behalf of a failing submission: no status condition in the WHERE clause. */
    method SetTaskError(sub: nat, id: TaskID)
      requires SubmitterOf(View(), sub) == Aborting(id)
      modifies this`rows, this`submitters
      ensures View() == SubmitError(old(View()), sub)
    {
      if id in rows { rows := rows[id := rows[id].(status := Failed)]; }
      submitters := submitters[sub := Finished];
    }

    /** The message names a task whose row is pending. */
    predicate NamesPendingRow(m: MsgID)
      reads this
    {
      m in stream && stream[m].taskID.Some? && stream[m].taskID.value in rows && rows[stream[m].taskID.value].status == Pending
    }

    /** The lookup of `HandleTask`. Dropping a message and skipping a task both end in an acknowledgement. */
    method LoadTask(w: nat, m: MsgID, dbOk: bool) returns (task: Option<Row>, err: bool)
      requires WorkerOf(View(), w) == Received(m) && m in stream
      modifies this`workers
      ensures View() == LoadStep(old(View()), w, dbOk)
      ensures var id := stream[m].taskID;
              task.Some? <==> dbOk && id.Some? && id.value in rows && rows[id.value].status == Pending
      ensures err <==> !dbOk && stream[m].taskID.Some?
      ensures task.Some? ==> rows[stream[m].taskID.value] == task.value && task.value.status == Pending
      ensures task.Some? ==> !err && WorkerOf(View(), w) == Loaded(m, stream[m].taskID.value, task.value)
      ensures task.None? && !err ==> WorkerOf(View(), w) == Acking(m)
      ensures err ==> WorkerOf(View(), w) == Idle
    {
      task, err := None, false;
      var msg := stream[m];
      if msg.taskID.None? {
        workers := workers[w := Acking(m)];
      } else if !dbOk {
        err := true;
        workers := workers[w := Idle];
      } else if msg.taskID.value !in rows || rows[msg.taskID.value].status != Pending {
        workers := workers[w := Acking(m)];
      } else {
        task := Some(rows[msg.taskID.value]);
        workers := workers[w := Loaded(m, msg.taskID.value, task.value)];
      }
    }

    /** The compare-and-set: exactly the worker that sees one affected row runs the executor. */
    method ClaimTask(w: nat, m: MsgID, id: TaskID, task: Row, dbOk: bool) returns (rowsAffected: nat, err: bool)
      requires WorkerOf(View(), w) == Loaded(m, id, task)
      modifies this`rows, this`workers, this`starts
      ensures View() == ClaimStep(old(View()), w, dbOk)
      ensures rowsAffected == 1 <==> WorkerOf(View(), w) == Executing(m, id, task)
      ensures rowsAffected == 1 <==> dbOk && id in old(rows) && old(rows)[id].status == Pending
      ensures err == !dbOk && rows == if rowsAffected == 1 then old(rows)[id := old(rows)[id].(status := Running)] else old(rows)
      ensures rowsAffected == 0 ==> WorkerOf(View(), w) == if err then Idle else Acking(m)
      ensures rowsAffected <= 1 && (err ==> rowsAffected == 0)
    {
      rowsAffected, err := 0, !dbOk;
      if !dbOk {
        workers := workers[w := Idle];
      } else if id in rows && rows[id].status == Pending {
        rows := rows[id := rows[id].(status := Running)];
        rowsAffected := 1;
        workers, starts := workers[w := Executing(m, id, task)], starts[id := BackupTasks.Starts(View(), id) + 1];
      } else {
        workers := workers[w := Acking(m)];
      }
    }

    /**
     The end of an executor: the result write, which may fail. An executor that has no result, or whose write
     fails, returns an error and has changed nothing here.
     */
    method FinishTask(w: nat, m: MsgID, id: TaskID, task: Row, work: Work, writeOk: bool) returns (err: bool)
      requires WorkerOf(View(), w) == Executing(m, id, task) && m in stream
      modifies this`rows, this`workers
      ensures View() == if writeOk then SucceedStep(old(View()), w, work) else old(View())
      ensures err ==> View() == old(View())
      ensures err <==> !writeOk || ResultOf(stream[m].taskType, id, task, work).None?
      ensures !err ==> WorkerOf(View(), w) == Acking(m)
      ensures !err && id in rows ==> rows[id].status == Success && rows[id].storagePath != ""
      ensures !err && id in rows ==> ResultOf(stream[m].taskType, id, task, work) == Some((rows[id].storagePath, rows[id].objectCount))
      ensures rows.Keys == old(rows.Keys)
    {
      var result := ResultOf(stream[m].taskType, id, task, work);
      ResultHasPath(stream[m].taskType, id, task, work);
      err := result.None? || !writeOk;
      if !err {
        if id in rows {
          rows := rows[id := rows[id].(status := Success, storagePath := result.value.0, objectCount := result.value.1)];
        }
        workers := workers[w := Acking(m)];
      }
    }

    /** An executor returns its error; the batch executor has already tried to mark its row. */
    method AbortExecutor(w: nat, m: MsgID, id: TaskID, marksRow: bool)
      requires exists task :: WorkerOf(View(), w) == Executing(m, id, task)
      modifies this`rows, this`workers
      ensures View() == Next(old(View()), Fail(w, marksRow)) && WorkerOf(View(), w) == Failing(m, id)
      ensures rows.Keys == old(rows.Keys)
    {
      if marksRow && id in rows { rows := rows[id := rows[id].(status := Failed)]; }
      workers := workers[w := Failing(m, id)];
    }

    /** The failure write of `HandleTask`, whose own error is ignored; the message stays unacknowledged. */
    method MarkTaskFailed(w: nat, m: MsgID, id: TaskID, dbOk: bool)
      requires WorkerOf(View(), w) == Failing(m, id)
      modifies this`rows, this`workers
      ensures View() == Next(old(View()), MarkFailed(w, dbOk))
      ensures WorkerOf(View(), w) == Idle
      ensures rows.Keys == old(rows.Keys) && (dbOk && id in rows ==> rows[id].status == Failed)
    {
      if dbOk && id in rows { rows := rows[id := rows[id].(status := Failed)]; }
      workers := workers[w := Idle];
    }

    /** XACK after a handler without error. */
    method AckMessage(w: nat, m: MsgID, ok: bool)
      requires WorkerOf(View(), w) == Acking(m)
      modifies this`acked, this`workers
      ensures View() == Next(old(View()), Ack(w, ok))
    {
      if ok { acked := acked + {m}; }
      workers := workers[w := Idle];
    }

    /** What everybody else does meanwhile. */
    method Others(w: nat, events: seq<Event>)
      requires ByOthers(events, w)
      modifies this
      ensures View() == Steps(old(View()), events)
      ensures WorkerOf(View(), w) == WorkerOf(old(View()), w) && KeepsMessages(old(View()), View())
    {
      OthersLeaveWorker(View(), events, w);
      var s := Apply(View(), events);
      rows, nextID, stream, nextMsg, delivered, acked := s.rows, s.nextID, s.stream, s.nextMsg, s.delivered, s.acked;
      workers, submitters, starts, origin, carrier := s.workers, s.submitters, s.starts, s.origin, s.carrier;
    }

    /** The two steps of a failed executor. */
    method Abort(w: nat, m: MsgID, id: TaskID, task: Row, c: Calls) returns (ghost trace: seq<Event>)
      requires WorkerOf(View(), w) == Executing(m, id, task)
      modifies this`rows, this`workers
      ensures trace == [Fail(w, c.marksRow), MarkFailed(w, c.markOk)]
      ensures View() == Steps(old(View()), trace) && WorkerOf(View(), w) == Idle
      ensures c.markOk && id in rows ==> rows[id].status == Failed
      ensures rows.Keys == old(rows.Keys)
    {
      ghost var s0 := View();
      AbortExecutor(w, m, id, c.marksRow);
      StepsSnoc(s0, [], Fail(w, c.marksRow));
      trace := [] + [Fail(w, c.marksRow)];
      MarkTaskFailed(w, m, id, c.markOk);
      StepsSnoc(s0, trace, MarkFailed(w, c.markOk));
      trace := trace + [MarkFailed(w, c.markOk)];
    }

    /** After the claim: the executor, its result write or its failure, and the failure write. */
    method Execute(w: nat, m: MsgID, id: TaskID, task: Row, c: Calls) returns (err: bool, ghost trace: seq<Event>)
      requires WorkerOf(View(), w) == Executing(m, id, task) && m in stream
      modifies this`rows, this`workers
      ensures View() == Steps(old(View()), trace) && NoAckBy(trace, w)
      ensures WorkerOf(View(), w) == if err then Idle else Acking(m)
      ensures err <==> c.work.None? || !c.writeOk || ResultOf(stream[m].taskType, id, task, c.work.value).None?
      ensures rows.Keys == old(rows.Keys)
      ensures !err && id in rows ==> rows[id].status == Success
      ensures err && c.markOk && id in rows ==> rows[id].status == Failed
    {
      if c.work.Some? {
        StepsSnoc(View(), [], Succeed(w, c.work.value));
        err := FinishTask(w, m, id, task, c.work.value, c.writeOk);
        if !err {
          trace := [] + [Succeed(w, c.work.value)];
          return;
        }
      }
      err := true;
      trace := Abort(w, m, id, task, c);
    }

    /** Others run, then the claim. */
    method ClaimLoaded(w: nat, m: MsgID, id: TaskID, task: Row, beforeClaim: seq<Event>, claimOk: bool)
      returns (rowsAffected: nat, err: bool, ghost trace: seq<Event>)
      requires WorkerOf(View(), w) == Loaded(m, id, task) && ByOthers(beforeClaim, w)
      modifies this
      ensures trace == beforeClaim + [Claim(w, claimOk)] && NoAckBy(trace, w)
      ensures View() == Steps(old(View()), trace) && KeepsMessages(old(View()), View())
      ensures rowsAffected == 1 ==> !err && WorkerOf(View(), w) == Executing(m, id, task)
      ensures var before := Steps(old(View()), beforeClaim);
              rowsAffected == 1 <==> claimOk && id in before.rows && before.rows[id].status == Pending
      ensures rowsAffected == 1 ==> id in rows
      ensures rowsAffected != 1 ==> WorkerOf(View(), w) == if err then Idle else Acking(m)
    {
      StepsSnoc(View(), beforeClaim, Claim(w, claimOk));
      trace := beforeClaim + [Claim(w, claimOk)];
      Others(w, beforeClaim);
      rowsAffected, err := ClaimTask(w, m, id, task, claimOk);
    }

    /** Others run, then the executor; in the program they overlap. */
    method RunClaimed(w: nat, m: MsgID, id: TaskID, task: Row, whileRunning: seq<Event>, c: Calls)
      returns (err: bool, ghost trace: seq<Event>)
      requires WorkerOf(View(), w) == Executing(m, id, task) && ByOthers(whileRunning, w)
      requires m in stream && forall k | k in stream :: k < nextMsg
      modifies this
      ensures View() == Steps(old(View()), trace)
      ensures WorkerOf(View(), w) == if err then Idle else Acking(m)
      ensures NoAckBy(trace, w)
      ensures err <==> c.work.None? || !c.writeOk || ResultOf(old(stream)[m].taskType, id, task, c.work.value).None?
      ensures whileRunning == [] ==> rows.Keys == old(rows.Keys)
      ensures !err && id in rows ==> rows[id].status == Success
      ensures err && c.markOk && id in rows ==> rows[id].status == Failed
    {
      ghost var s0 := View();
      Others(w, whileRunning);
      ghost var more;
      err, more := Execute(w, m, id, task, c);
      StepsAppend(s0, whileRunning, more);
      NoAckAppend(whileRunning, more, w);
      trace := whileRunning + more;
    }

    /**
     `HandleTask`, with others running before the claim and while the executor runs: whatever they do, its effect
     is a run of protocol steps that acknowledges nothing, and it returns nil exactly when its message may be. Alone,
     with its own calls working, it runs the task of a pending row to success or to failure.
     */
    method HandleTask(w: nat, m: MsgID, beforeClaim: seq<Event>, whileRunning: seq<Event>, c: Calls)
      returns (err: bool, ghost trace: seq<Event>)
      requires WorkerOf(View(), w) == Received(m) && m in stream && forall k | k in stream :: k < nextMsg
      requires ByOthers(beforeClaim, w) && ByOthers(whileRunning, w)
      modifies this
      ensures View() == Steps(old(View()), trace)
      ensures WorkerOf(View(), w) == if err then Idle else Acking(m)
      ensures NoAckBy(trace, w)
      ensures beforeClaim == [] && whileRunning == [] && old(NamesPendingRow(m)) && c.loadOk && c.claimOk ==>
                var id := old(stream)[m].taskID.value;
                && id in rows
                && (err <==> c.work.None? || !c.writeOk
                             || ResultOf(old(stream)[m].taskType, id, old(rows)[id], c.work.value).None?)
                && (!err ==> rows[id].status == Success)
                && (err && c.markOk ==> rows[id].status == Failed)
    {
      ghost var s0 := View();
      StepsSnoc(s0, [], Load(w, c.loadOk));
      trace := [] + [Load(w, c.loadOk)];
      var task;
      task, err := LoadTask(w, m, c.loadOk);
      if task.None? { return; }
      var id, rowsAffected := stream[m].taskID.value, 0;
      ghost var more;
      rowsAffected, err, more := ClaimLoaded(w, m, id, task.value, beforeClaim, c.claimOk);
      StepsAppend(s0, trace, more);
      NoAckAppend(trace, more, w);
      trace := trace + more;
      if rowsAffected != 1 { return; }
      err, more := RunClaimed(w, m, id, task.value, whileRunning, c);
      StepsAppend(s0, trace, more);
      NoAckAppend(trace, more, w);
      trace := trace + more;
    }

    /** One turn of the consumer loop or of the auto-claim loop: an acknowledgement follows only a nil result. */
    method Process(w: nat, m: MsgID, beforeClaim: seq<Event>, whileRunning: seq<Event>, c: Calls, ackOk: bool)
      returns (err: bool, ghost trace: seq<Event>)
      requires WorkerOf(View(), w) == Received(m) && m in stream && forall k | k in stream :: k < nextMsg
      requires ByOthers(beforeClaim, w) && ByOthers(whileRunning, w)
      modifies this
      ensures View() == Steps(old(View()), trace) && WorkerOf(View(), w) == Idle
      ensures err ==> NoAckBy(trace, w)
      ensures !err && ackOk ==> m in acked
    {
      ghost var s0 := View();
      err, trace := HandleTask(w, m, beforeClaim, whileRunning, c);
      if !err {
        StepsSnoc(s0, trace, Ack(w, ackOk));
        trace := trace + [Ack(w, ackOk)];
        AckMessage(w, m, ackOk);
      }
    }
  }
}
