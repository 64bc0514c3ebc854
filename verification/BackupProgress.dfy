/**
 What can still happen to a backup task, from any moment of any run of `BackupTasks`: a pending row can be settled,
 a running row exactly while a worker is busy with it, and an acknowledged message is done with.
 */
module BackupProgress {
  import opened Basics
  import opened BatchBackup
  import opened BackupTasks
  import opened BackupRecords

  // ---- a pending task can be run ----

  lemma RunSnoc(events: seq<Event>, e: Event)
    ensures Run(events + [e]) == Next(Run(events), e)
  {
    assert (events + [e])[..|events|] == events;
  }

  /** A worker takes a message and claims its task. */
  function Taking(s: State, w: nat, m: MsgID): seq<Event> {
    [if m in s.delivered then AutoClaim(w, m) else ReadNew(w, m), Load(w, true), Claim(w, true)]
  }

  lemma RunLoads(events: seq<Event>, w: nat)
    ensures Run(events + [Load(w, true)]) == LoadStep(Run(events), w, true)
  {
    RunSnoc(events, Load(w, true));
  }

  lemma RunClaims(events: seq<Event>, w: nat)
    ensures Run(events + [Claim(w, true)]) == ClaimStep(Run(events), w, true)
  {
    RunSnoc(events, Claim(w, true));
  }

  lemma RunTakes(events: seq<Event>, taking: seq<Event>, w: nat)
    requires |taking| == 3 && taking[1] == Load(w, true) && taking[2] == Claim(w, true)
    ensures Run(events + taking) == ClaimStep(LoadStep(Run(events + [taking[0]]), w, true), w, true)
  {
    var received := events + [taking[0]];
    RunLoads(received, w);
    RunClaims(received + [Load(w, true)], w);
    assert events + taking == received + [Load(w, true)] + [Claim(w, true)];
  }

  lemma TakesMessage(s: State, w: nat, m: MsgID)
    requires WorkerOf(s, w).Idle? && m in s.stream && m !in s.acked
    ensures var s1 := Next(s, Taking(s, w, m)[0]);
            WorkerOf(s1, w) == Received(m) && s1.rows == s.rows && s1.stream == s.stream && s1.starts == s.starts
  {
  }

  lemma TakingEntersExecutor(s: State, w: nat, m: MsgID, id: TaskID)
    requires Inv(s) && WorkerOf(s, w).Idle? && m in s.stream && m !in s.acked && s.stream[m].taskID == Some(id)
    requires id in s.rows && s.rows[id].status == Pending
    ensures var s' := ClaimStep(LoadStep(Next(s, Taking(s, w, m)[0]), w, true), w, true);
            && WorkerOf(s', w) == Executing(m, id, s.rows[id]) && Starts(s', id) == 1
            && s'.stream == s.stream && s'.rows == s.rows[id := s.rows[id].(status := Running)]
  {
    assert RowInv(s, id);
    TakesMessage(s, w, m);
    LoadFindsPending(Next(s, Taking(s, w, m)[0]), w, m, id);
  }

  lemma LoadFindsPending(s: State, w: nat, m: MsgID, id: TaskID)
    requires WorkerOf(s, w) == Received(m) && m in s.stream && s.stream[m].taskID == Some(id)
    requires id in s.rows && s.rows[id].status == Pending && Starts(s, id) == 0
    ensures LoadStep(s, w, true) == Goto(s, w, Loaded(m, id, s.rows[id]))
    ensures var s' := ClaimStep(LoadStep(s, w, true), w, true);
            && WorkerOf(s', w) == Executing(m, id, s.rows[id]) && Starts(s', id) == 1
            && s'.stream == s.stream && s'.rows == s.rows[id := s.rows[id].(status := Running)]
  {
  }

  /**
   From any moment of any run at which a pending row has a message that is not acknowledged, any idle worker can
   take the message and enter the executor, and if the executor finds anything to do, the row becomes a success.
   */
  lemma PendingTaskCanRun(events: seq<Event>, w: nat, m: MsgID, id: TaskID, work: Work)
    requires var s := Run(events);
             && id in s.rows && s.rows[id].status == Pending
             && m in s.stream && m !in s.acked && s.stream[m].taskID == Some(id) && WorkerOf(s, w).Idle?
    ensures var entered := Run(events + Taking(Run(events), w, m));
            && WorkerOf(entered, w) == Executing(m, id, Run(events).rows[id]) && Starts(entered, id) == 1
    ensures Run(events).rows[id].kind != BatchOfNamespaces || work.count > 0 ==>
              var s := Run(events + Taking(Run(events), w, m) + [Succeed(w, work), Ack(w, true)]);
              && id in s.rows && s.rows[id].status == Success && Recorded(id, s.rows[id])
              && m in s.acked && WorkerOf(s, w).Idle?
  {
    var s := Run(events);
    var taking := Taking(s, w, m);
    RunKeepsInv(events);
    TakingEntersExecutor(s, w, m, id);
    RunTakes(events, taking, w);
    RunSnoc(events, taking[0]);
    ExecutingTaskCanSucceed(events + taking, w, work);
    assert events + taking + [Succeed(w, work), Ack(w, true)] == events + taking + [Succeed(w, work)] + [Ack(w, true)];
  }

  lemma ExecutingTaskCanSucceed(events: seq<Event>, w: nat, work: Work)
    requires WorkerOf(Run(events), w).Executing?
    ensures var pc := WorkerOf(Run(events), w);
            pc.row.kind != BatchOfNamespaces || work.count > 0 ==>
              var s := Run(events + [Succeed(w, work)] + [Ack(w, true)]);
              && (pc.id in Run(events).rows ==> pc.id in s.rows && s.rows[pc.id].status == Success && Recorded(pc.id, s.rows[pc.id]))
              && pc.msg in s.acked && WorkerOf(s, w).Idle?
  {
    var pc := WorkerOf(Run(events), w);
    ExecutorHasResult(events, w, work);
    RunSnoc(events, Succeed(w, work));
    RunSnoc(events + [Succeed(w, work)], Ack(w, true));
    if pc.row.kind != BatchOfNamespaces || work.count > 0 {
      SucceedSettles(Run(events), w, work);
      SuccessRecordsTheResult(events + [Succeed(w, work)] + [Ack(w, true)], pc.id);
    }
  }

  lemma SucceedSettles(s: State, w: nat, work: Work)
    requires var pc := WorkerOf(s, w); pc.Executing? && pc.msg in s.stream && ResultOf(s.stream[pc.msg].taskType, pc.id, pc.row, work).Some?
    ensures var pc, s' := WorkerOf(s, w), SucceedStep(s, w, work);
            WorkerOf(s', w) == Acking(pc.msg) && (pc.id in s.rows ==> pc.id in s'.rows && s'.rows[pc.id].status == Success)
  {
  }

  /** What is left of a submission: the payload of a batch, then the message; or its error. */
  function Submitting(pc: Submitter, sub: nat): seq<Event> {
    match pc
    case Created(_, BatchOfNamespaces) => [WritePayload(sub, true), Enqueue(sub, true)]
    case Aborting(_) => [MarkSubmitError(sub)]
    case _ => [Enqueue(sub, true)]
  }

  ghost predicate Deliverable(s: State, id: TaskID) {
    && id in s.rows && s.rows[id].status == Pending
    && exists m :: m in s.stream && m !in s.acked && s.stream[m].taskID == Some(id)
  }

  lemma EnqueueDelivers(s: State, sub: nat, id: TaskID)
    requires Inv(s) && id in s.rows && s.rows[id].status == Pending && Unfinished(SubmitterOf(s, sub), id)
    requires var pc := SubmitterOf(s, sub); pc.Ready? || (pc.Created? && pc.kind != BatchOfNamespaces)
    ensures var s' := EnqueueStep(s, sub, true); Deliverable(s', id) && s'.workers == s.workers && s'.rows == s.rows
  {
    var s' := EnqueueStep(s, sub, true);
    assert forall m | m in s.acked :: m in s.stream && MessageInv(s, m);
    assert s.nextMsg in s'.stream && s.nextMsg !in s'.acked && s'.stream[s.nextMsg].taskID == Some(id);
  }

  lemma PayloadReadies(s: State, sub: nat, id: TaskID)
    requires SubmitterOf(s, sub) == Created(id, BatchOfNamespaces)
    ensures Next(s, WritePayload(sub, true)) == s.(submitters := s.submitters[sub := Ready(id, BatchOfNamespaces)])
  {
  }

  /** An unfinished submission of a pending row can still hand the row over, unless it is giving up. */
  lemma SubmissionCanFinish(events: seq<Event>, sub: nat, id: TaskID)
    requires var s := Run(events); id in s.rows && Unfinished(SubmitterOf(s, sub), id) && !SubmitterOf(s, sub).Aborting?
    ensures var s := Run(events);
            var s' := Run(events + Submitting(SubmitterOf(s, sub), sub));
            Deliverable(s', id) && s'.workers == s.workers && s'.rows == s.rows
  {
    RunKeepsInv(events);
    var s := Run(events);
    var pc := SubmitterOf(s, sub);
    assert SubmitterInv(s, sub, pc);
    if pc.Created? && pc.kind == BatchOfNamespaces {
      PayloadReadies(s, sub, id);
      RunSnoc(events, WritePayload(sub, true));
      var before := events + [WritePayload(sub, true)];
      RunKeepsInv(before);
      EnqueueDelivers(Run(before), sub, id);
      RunSnoc(before, Enqueue(sub, true));
      assert events + Submitting(pc, sub) == before + [Enqueue(sub, true)];
    } else {
      EnqueueDelivers(s, sub, id);
      RunSnoc(events, Enqueue(sub, true));
    }
  }

  lemma AbortingEndsInFailure(events: seq<Event>, sub: nat, id: TaskID)
    requires var s := Run(events); id in s.rows && SubmitterOf(s, sub) == Aborting(id)
    ensures var s' := Run(events + [MarkSubmitError(sub)]); id in s'.rows && s'.rows[id].status == Failed
  {
    RunSnoc(events, MarkSubmitError(sub));
  }

  ghost predicate CanBecome(events: seq<Event>, id: TaskID, status: Status) {
    exists later :: id in Run(events + later).rows && Run(events + later).rows[id].status == status
  }

  lemma BecomesLater(events: seq<Event>, first: seq<Event>, id: TaskID, status: Status)
    requires CanBecome(events + first, id, status)
    ensures CanBecome(events, id, status)
  {
    var later :| id in Run(events + first + later).rows && Run(events + first + later).rows[id].status == status;
    assert events + first + later == events + (first + later);
  }

  lemma DeliverableCanSucceed(events: seq<Event>, w: nat, id: TaskID)
    requires Deliverable(Run(events), id) && WorkerOf(Run(events), w).Idle?
    ensures CanBecome(events, id, Success)
  {
    var s, work := Run(events), Work("", "", "", 0, 1);
    var m :| m in s.stream && m !in s.acked && s.stream[m].taskID == Some(id);
    PendingTaskCanRun(events, w, m, id, work);
    var later := Taking(s, w, m) + [Succeed(w, work), Ack(w, true)];
    assert events + Taking(s, w, m) + [Succeed(w, work), Ack(w, true)] == events + later;
  }

  /**
   So no pending row is stuck: from any moment of any run at which a worker is idle, some continuation makes the
   row a success, or a failure if its submission is giving up.
   */
  lemma PendingRowCanSettle(events: seq<Event>, w: nat, id: TaskID)
    requires var s := Run(events); id in s.rows && s.rows[id].status == Pending && WorkerOf(s, w).Idle?
    ensures CanBecome(events, id, if exists sub :: SubmitterOf(Run(events), sub) == Aborting(id) then Failed else Success)
  {
    var s := Run(events);
    if sub :| SubmitterOf(s, sub) == Aborting(id) {
      AbortingEndsInFailure(events, sub, id);
    } else {
      PendingRowIsCarried(events, id);
      if Deliverable(s, id) {
        DeliverableCanSucceed(events, w, id);
      } else {
        var sub :| Unfinished(SubmitterOf(s, sub), id);
        SubmissionCanFinish(events, sub, id);
        var rest := Submitting(SubmitterOf(s, sub), sub);
        assert WorkerOf(Run(events + rest), w) == WorkerOf(s, w);
        DeliverableCanSucceed(events + rest, w, id);
        BecomesLater(events, rest, id, Success);
      }
    }
  }

  // ---- a running task can be left behind ----

  /** The row can only say running from now on, unless it is deleted: nobody is executing or failing its task. */
  ghost predicate Stuck(s: State, id: TaskID) {
    && id < s.nextID && (id in s.rows ==> s.rows[id].status == Running)
    && forall w | w in s.workers :: !Busy(s.workers[w], id)
  }

  lemma LoadKeepsStuck(s: State, w: nat, dbOk: bool, id: TaskID)
    requires Stuck(s, id)
    ensures Stuck(LoadStep(s, w, dbOk), id)
  {
  }

  lemma ReadKeepsStuck(s: State, e: Event, id: TaskID)
    requires Stuck(s, id) && (e.ReadNew? || e.AutoClaim? || e.Ack? || e.Crash? || e.DeleteRow? || e.MalformedMessage?)
    ensures Stuck(Next(s, e), id)
  {
  }

  lemma ClaimKeepsStuck(s: State, w: nat, dbOk: bool, id: TaskID)
    requires Stuck(s, id)
    ensures Stuck(ClaimStep(s, w, dbOk), id)
  {
  }

  lemma EndKeepsStuck(s: State, e: Event, id: TaskID)
    requires Stuck(s, id) && (e.Fail? || e.MarkFailed?)
    ensures Stuck(Next(s, e), id)
  {
    assert e.w in s.workers ==> !Busy(s.workers[e.w], id);
  }

  lemma SucceedKeepsStuck(s: State, w: nat, work: Work, id: TaskID)
    requires Stuck(s, id)
    ensures Stuck(SucceedStep(s, w, work), id)
  {
    assert w in s.workers ==> !Busy(s.workers[w], id);
  }

  lemma CreateKeepsStuck(s: State, e: Event, id: TaskID)
    requires Stuck(s, id) && (e.SubmitBackup? || e.SubmitRestore?)
    ensures Stuck(Next(s, e), id)
  {
  }

  lemma SubmitterKeepsStuck(s: State, e: Event, id: TaskID)
    requires Stuck(s, id) && (e.WritePayload? || e.Enqueue?)
    ensures Stuck(Next(s, e), id)
  {
  }

  /** A submission marks only a row that is still pending. */
  lemma SubmitErrorKeepsStuck(s: State, sub: nat, id: TaskID)
    requires Inv(s) && Stuck(s, id)
    ensures Stuck(SubmitError(s, sub), id)
  {
    assert sub in s.submitters ==> SubmitterInv(s, sub, s.submitters[sub]);
  }

  lemma StepKeepsStuck(s: State, e: Event, id: TaskID)
    requires Inv(s) && Stuck(s, id)
    ensures Stuck(Next(s, e), id)
  {
    match e
    case Claim(w, dbOk) => ClaimKeepsStuck(s, w, dbOk, id);
    case Load(w, dbOk) => LoadKeepsStuck(s, w, dbOk, id);
    case Succeed(w, work) => SucceedKeepsStuck(s, w, work, id);
    case Fail(_, _) => EndKeepsStuck(s, e, id);
    case MarkFailed(_, _) => EndKeepsStuck(s, e, id);
    case SubmitBackup(_, _, _) => CreateKeepsStuck(s, e, id);
    case SubmitRestore(_, _, _) => CreateKeepsStuck(s, e, id);
    case WritePayload(_, _) => SubmitterKeepsStuck(s, e, id);
    case Enqueue(_, _) => SubmitterKeepsStuck(s, e, id);
    case MarkSubmitError(sub) => SubmitErrorKeepsStuck(s, sub, id);
    case _ => ReadKeepsStuck(s, e, id);
  }

  lemma {:induction false} StuckForEver(earlier: seq<Event>, later: seq<Event>, id: TaskID)
    requires Stuck(Run(earlier), id)
    ensures Stuck(Run(earlier + later), id)
  {
    if later == [] {
      assert earlier + later == earlier;
    } else {
      var before := earlier + later[..|later| - 1];
      StuckForEver(earlier, later[..|later| - 1], id);
      RunKeepsInv(before);
      StepKeepsStuck(Run(before), later[|later| - 1], id);
      RunSnoc(before, later[|later| - 1]);
      assert before + [later[|later| - 1]] == earlier + later;
    }
  }

  lemma BusyCanFail(events: seq<Event>, w: nat, id: TaskID)
    requires id in Run(events).rows && Busy(WorkerOf(Run(events), w), id)
    ensures CanBecome(events, id, Failed)
  {
    if WorkerOf(Run(events), w).Executing? {
      RunSnoc(events, Fail(w, true));
      assert id in Run(events + [Fail(w, true)]).rows && Run(events + [Fail(w, true)]).rows[id].status == Failed;
    } else {
      RunSnoc(events, MarkFailed(w, true));
      assert id in Run(events + [MarkFailed(w, true)]).rows && Run(events + [MarkFailed(w, true)]).rows[id].status == Failed;
    }
  }

  /**
   Exactly when a running row can still be settled: while a worker is executing its task or about to record its
   failure. A crash of that worker, or a failure write that fails, leaves the row running for ever: the redelivered
   message finds a row that is not pending, and is acknowledged.
   */
  lemma RunningRowIsExact(events: seq<Event>, id: TaskID)
    requires id in Run(events).rows && Run(events).rows[id].status == Running
    ensures CanBecome(events, id, Success) || CanBecome(events, id, Failed) <==> exists w :: Busy(WorkerOf(Run(events), w), id)
  {
    if w :| Busy(WorkerOf(Run(events), w), id) {
      BusyCanFail(events, w, id);
    } else {
      RunKeepsInv(events);
      assert RowInv(Run(events), id);
      assert forall w | w in Run(events).workers :: !Busy(WorkerOf(Run(events), w), id);
      assert Stuck(Run(events), id);
      forall later ensures Stuck(Run(events + later), id) {
        StuckForEver(events, later, id);
      }
    }
  }

  lemma CrashLeavesRunning(events: seq<Event>, w: nat, later: seq<Event>)
    requires WorkerOf(Run(events), w).Executing?
    ensures var id, s' := WorkerOf(Run(events), w).id, Run(events + [Crash(w)] + later);
            id in s'.rows ==> s'.rows[id].status == Running
  {
    RunKeepsInv(events);
    var s := Run(events);
    var pc := WorkerOf(s, w);
    assert WorkerInv(s, pc);
    RunSnoc(events, Crash(w));
    assert Stuck(Run(events + [Crash(w)]), pc.id);
    StuckForEver(events + [Crash(w)], later, pc.id);
  }

  /** A worker is at work on the message. */
  predicate Handles(pc: Worker, m: MsgID) { !pc.Idle? && pc.msg == m }

  ghost predicate NotHandled(s: State, m: MsgID) {
    m in s.acked && m in s.delivered && forall w | w in s.workers :: !Handles(s.workers[w], m)
  }

  lemma LoadKeepsFinished(s: State, w: nat, ok: bool, m: MsgID)
    requires NotHandled(s, m)
    ensures NotHandled(LoadStep(s, w, ok), m)
  {
    assert w in s.workers ==> !Handles(s.workers[w], m);
  }

  lemma ClaimKeepsFinished(s: State, w: nat, ok: bool, m: MsgID)
    requires NotHandled(s, m)
    ensures NotHandled(ClaimStep(s, w, ok), m)
  {
    assert w in s.workers ==> !Handles(s.workers[w], m);
  }

  lemma SucceedKeepsFinished(s: State, w: nat, work: Work, m: MsgID)
    requires NotHandled(s, m)
    ensures NotHandled(SucceedStep(s, w, work), m)
  {
    assert w in s.workers ==> !Handles(s.workers[w], m);
  }

  lemma EndKeepsFinished(s: State, e: Event, m: MsgID)
    requires NotHandled(s, m) && (e.Fail? || e.MarkFailed? || e.Ack? || e.Crash? || e.ReadNew? || e.AutoClaim?)
    ensures NotHandled(Next(s, e), m)
  {
    assert e.w in s.workers ==> !Handles(s.workers[e.w], m);
  }

  lemma SubmitterKeepsFinished(s: State, e: Event, m: MsgID)
    requires NotHandled(s, m)
    requires e.SubmitBackup? || e.SubmitRestore? || e.WritePayload? || e.Enqueue? || e.MarkSubmitError? || e.MalformedMessage? || e.DeleteRow?
    ensures NotHandled(Next(s, e), m)
  {
  }

  lemma StepKeepsFinished(s: State, e: Event, m: MsgID)
    requires NotHandled(s, m)
    ensures NotHandled(Next(s, e), m)
  {
    match e
    case Claim(w, dbOk) => ClaimKeepsFinished(s, w, dbOk, m);
    case Load(w, dbOk) => LoadKeepsFinished(s, w, dbOk, m);
    case Succeed(w, work) => SucceedKeepsFinished(s, w, work, m);
    case Fail(_, _) => EndKeepsFinished(s, e, m);
    case MarkFailed(_, _) => EndKeepsFinished(s, e, m);
    case Ack(_, _) => EndKeepsFinished(s, e, m);
    case Crash(_) => EndKeepsFinished(s, e, m);
    case ReadNew(_, _) => EndKeepsFinished(s, e, m);
    case AutoClaim(_, _) => EndKeepsFinished(s, e, m);
    case _ => SubmitterKeepsFinished(s, e, m);
  }

  /** An acknowledged message that nobody is working on is never handled again. */
  lemma {:induction false} AckedIsFinal(earlier: seq<Event>, later: seq<Event>, m: MsgID)
    requires m in Run(earlier).acked && forall w :: !Handles(WorkerOf(Run(earlier), w), m)
    ensures m in Run(earlier + later).acked && forall w :: !Handles(WorkerOf(Run(earlier + later), w), m)
  {
    if later == [] {
      assert earlier + later == earlier;
    } else {
      var before := earlier + later[..|later| - 1];
      AckedIsFinal(earlier, later[..|later| - 1], m);
      RunKeepsInv(before);
      assert forall w | w in Run(before).workers :: !Handles(WorkerOf(Run(before), w), m);
      StepKeepsFinished(Run(before), later[|later| - 1], m);
      RunSnoc(before, later[|later| - 1]);
      assert before + [later[|later| - 1]] == earlier + later;
    }
  }
}
