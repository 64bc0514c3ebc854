/**
 What a finished backup task has recorded (backend/internal/worker/backup_worker.go), on every run of `BackupTasks`:
 which storage path and which count a success row holds, and that a restore is always given the path of one object.
 */
module BackupRecords {
  import opened Basics
  import opened Text
  import opened ObjectKeys
  import opened BatchBackup
  import opened BackupTasks

  /** The storage path of one backed-up object. */
  ghost predicate IsObjectPath(path: string) {
    exists c, d, id, k, n :: path == SingleKey(c, d, id, k, n)
  }

  /** Such a path never looks like the prefix of a batch, so a restore does not refuse it. */
  lemma ObjectPathIsNoBatch(path: string)
    requires IsObjectPath(path)
    ensures path != "" && !HasSuffix(ToSlash(path), "-")
  {
    var c, d, id, k, n :| path == SingleKey(c, d, id, k, n);
    var front := c + ['/'] + (d + ['/'] + (Decimal(id) + ['_'] + (k + "_" + SanitizeName(n))));
    assert path == front + ".yaml";
    assert path[|path| - 1] == ".yaml"[4];
    LastCharOfSuffix(ToSlash(path), "-");
  }

  /** What the row of a finished task says about its work. */
  ghost predicate Recorded(id: TaskID, row: Row) {
    match row.kind
    case SingleBackup => row.objectCount == 1 && exists d, k, n :: row.storagePath == SingleKey(row.cluster, d, id, k, n)
    case Restoration => row.objectCount == 1
    case BatchOfNamespaces =>
      exists work: Work ::
        row.objectCount == work.count > 0
        && row.storagePath == StoragePathFor(id, BatchKey(row.cluster, work.date, id, work.lastIndex, work.kind, work.name))
  }

  ghost predicate RowRecords(id: TaskID, row: Row) {
    (row.kind == Restoration ==> IsObjectPath(row.storagePath)) && (row.status == Success ==> Recorded(id, row))
  }

  /** A worker's copy of a row tells the executor what the stored row says. */
  ghost predicate CopyAgrees(s: State, pc: Worker) {
    (pc.Loaded? || pc.Executing?) ==>
      && (pc.row.kind == Restoration ==> IsObjectPath(pc.row.storagePath))
      && (pc.id in s.rows ==> s.rows[pc.id].cluster == pc.row.cluster
                              && (pc.row.kind == Restoration ==> s.rows[pc.id].storagePath == pc.row.storagePath))
  }

  ghost predicate RecordsInv(s: State) {
    && (forall id | id in s.rows :: RowRecords(id, s.rows[id]))
    && (forall w | w in s.workers :: CopyAgrees(s, s.workers[w]))
  }

  lemma SameRowsKeepRecords(s: State, s': State)
    requires RecordsInv(s) && s'.rows == s.rows && s'.workers == s.workers
    ensures RecordsInv(s')
  {
    forall w | w in s'.workers ensures CopyAgrees(s', s'.workers[w]) {
      assert CopyAgrees(s, s.workers[w]);
    }
  }

  lemma GotoKeepsRecords(s: State, w: nat, pc: Worker)
    requires RecordsInv(s) && CopyAgrees(s, pc)
    ensures RecordsInv(Goto(s, w, pc))
  {
    var s' := Goto(s, w, pc);
    forall v | v in s'.workers ensures CopyAgrees(s', s'.workers[v]) {
      assert v != w ==> CopyAgrees(s, s.workers[v]);
    }
  }

  lemma StatusKeepsRecords(s: State, id: TaskID, status: Status)
    requires RecordsInv(s) && status != Success
    ensures RecordsInv(SetStatus(s, id, status))
  {
    var s' := SetStatus(s, id, status);
    assert id in s.rows ==> RowRecords(id, s.rows[id]);
    forall w | w in s'.workers ensures CopyAgrees(s', s'.workers[w]) {
      assert CopyAgrees(s, s.workers[w]);
    }
  }

  lemma DeleteKeepsRecords(s: State, id: TaskID)
    requires RecordsInv(s)
    ensures RecordsInv(s.(rows := s.rows - {id}))
  {
    var s' := s.(rows := s.rows - {id});
    forall w | w in s'.workers ensures CopyAgrees(s', s'.workers[w]) {
      assert CopyAgrees(s, s.workers[w]);
    }
  }

  lemma CreateKeepsRecords(s: State, sub: nat, row: Row)
    requires Inv(s) && RecordsInv(s) && RowRecords(s.nextID, row)
    ensures RecordsInv(Create(s, sub, row))
  {
    var s' := Create(s, sub, row);
    forall w | w in s'.workers ensures CopyAgrees(s', s'.workers[w]) {
      assert CopyAgrees(s, s.workers[w]) && WorkerInv(s, s.workers[w]);
    }
    forall id | id in s'.rows ensures RowRecords(id, s'.rows[id]) {
      assert id in s.rows ==> RowRecords(id, s.rows[id]);
    }
  }

  lemma RestoreKeepsRecords(s: State, sub: nat, source: TaskID, cluster: string)
    requires Inv(s) && RecordsInv(s)
    ensures RecordsInv(Next(s, SubmitRestore(sub, source, cluster)))
  {
    if source in s.rows && s.rows[source].status == Success && s.rows[source].kind != BatchOfNamespaces {
      var src := s.rows[source];
      assert RowRecords(source, src);
      if src.kind == SingleBackup {
        var d, k, n :| src.storagePath == SingleKey(src.cluster, d, source, k, n);
      }
      assert IsObjectPath(src.storagePath);
      CreateKeepsRecords(s, sub, Row(Restoration, cluster, Pending, src.storagePath, 0));
    }
  }

  lemma LoadKeepsRecords(s: State, w: nat, dbOk: bool)
    requires RecordsInv(s)
    ensures RecordsInv(LoadStep(s, w, dbOk))
  {
    var pc := WorkerOf(s, w);
    if pc.Received? {
      if pc.msg !in s.stream || s.stream[pc.msg].taskID.None? {
        GotoKeepsRecords(s, w, Acking(pc.msg));
      } else {
        var id := s.stream[pc.msg].taskID.value;
        GotoKeepsRecords(s, w, Idle);
        GotoKeepsRecords(s, w, Acking(pc.msg));
        if id in s.rows {
          assert RowRecords(id, s.rows[id]);
          GotoKeepsRecords(s, w, Loaded(pc.msg, id, s.rows[id]));
        }
      }
    }
  }

  lemma ResultIsRecorded(taskType: TaskType, id: TaskID, row: Row, work: Work, stored: Row)
    requires ResultOf(taskType, id, row, work).Some? && Fits(taskType, row.kind)
    requires stored.kind == row.kind && stored.cluster == row.cluster && (row.kind == Restoration ==> IsObjectPath(row.storagePath))
    ensures var result := ResultOf(taskType, id, row, work).value;
            RowRecords(id, stored.(status := Success, storagePath := result.0, objectCount := result.1))
  {
  }

  lemma SucceedKeepsRecords(s: State, w: nat, work: Work)
    requires Inv(s) && RecordsInv(s)
    ensures RecordsInv(SucceedStep(s, w, work))
  {
    var s', pc := SucceedStep(s, w, work), WorkerOf(s, w);
    if s' != s {
      assert WorkerInv(s, pc) && CopyAgrees(s, pc);
      var taskType, id := s.stream[pc.msg].taskType, pc.id;
      if id in s.rows {
        ResultIsRecorded(taskType, id, pc.row, work, s.rows[id]);
      }
      forall k | k in s'.rows ensures RowRecords(k, s'.rows[k]) {
        assert RowRecords(k, s.rows[k]);
      }
      forall v | v in s'.workers ensures CopyAgrees(s', s'.workers[v]) {
        if v != w { SucceedLeavesCopies(s, w, v, work); }
      }
    }
  }

  /** Another worker's copy stays right: a restore writes back the path it was given. */
  lemma SucceedLeavesCopies(s: State, w: nat, v: nat, work: Work)
    requires Inv(s) && RecordsInv(s) && v in s.workers && v != w
    ensures CopyAgrees(SucceedStep(s, w, work), s.workers[v])
  {
    var pc, other := WorkerOf(s, w), s.workers[v];
    assert CopyAgrees(s, other) && WorkerInv(s, other);
    if pc.Executing? {
      assert WorkerInv(s, pc) && CopyAgrees(s, pc);
    }
  }

  lemma ReadKeepsRecords(s: State, e: Event)
    requires RecordsInv(s) && (e.ReadNew? || e.AutoClaim?)
    ensures RecordsInv(Next(s, e))
  {
    GotoKeepsRecords(s, e.w, Received(e.msg));
    SameRowsKeepRecords(Goto(s, e.w, Received(e.msg)), Goto(s, e.w, Received(e.msg)).(delivered := s.delivered + {e.msg}));
  }

  lemma AckKeepsRecords(s: State, w: nat, ok: bool)
    requires RecordsInv(s)
    ensures RecordsInv(Next(s, Ack(w, ok)))
  {
    GotoKeepsRecords(s, w, Idle);
    if WorkerOf(s, w).Acking? { SameRowsKeepRecords(Goto(s, w, Idle), Next(s, Ack(w, ok))); }
  }

  lemma ClaimKeepsRecords(s: State, w: nat, dbOk: bool)
    requires RecordsInv(s)
    ensures RecordsInv(ClaimStep(s, w, dbOk))
  {
    var pc := WorkerOf(s, w);
    if pc.Loaded? {
      assert CopyAgrees(s, pc);
      if dbOk && pc.id in s.rows && s.rows[pc.id].status == Pending {
        StatusKeepsRecords(s, pc.id, Running);
        GotoKeepsRecords(SetStatus(s, pc.id, Running), w, Executing(pc.msg, pc.id, pc.row));
        SameRowsKeepRecords(Goto(SetStatus(s, pc.id, Running), w, Executing(pc.msg, pc.id, pc.row)), ClaimStep(s, w, dbOk));
      } else {
        GotoKeepsRecords(s, w, if dbOk then Acking(pc.msg) else Idle);
      }
    }
  }

  lemma FailKeepsRecords(s: State, w: nat, id: TaskID, writes: bool, pc: Worker)
    requires RecordsInv(s) && !pc.Loaded? && !pc.Executing?
    ensures RecordsInv(Goto(if writes then SetStatus(s, id, Failed) else s, w, pc))
  {
    StatusKeepsRecords(s, id, Failed);
    GotoKeepsRecords(if writes then SetStatus(s, id, Failed) else s, w, pc);
  }

  lemma SubmitterKeepsRecords(s: State, e: Event)
    requires RecordsInv(s) && (e.WritePayload? || e.Enqueue? || e.MarkSubmitError?)
    ensures RecordsInv(Next(s, e))
  {
    var pc := SubmitterOf(s, e.sub);
    if e.MarkSubmitError? && pc.Aborting? {
      StatusKeepsRecords(s, pc.id, Failed);
      SameRowsKeepRecords(SetStatus(s, pc.id, Failed), Next(s, e));
    } else {
      SameRowsKeepRecords(s, Next(s, e));
    }
  }

  lemma StepKeepsRecords(s: State, e: Event)
    requires Inv(s) && RecordsInv(s)
    ensures RecordsInv(Next(s, e))
  {
    match e
    case SubmitBackup(sub, batch, cluster) =>
      if SubmitterOf(s, sub) == NotStarted {
        CreateKeepsRecords(s, sub, Row(if batch then BatchOfNamespaces else SingleBackup, cluster, Pending, "", 0));
      }
    case SubmitRestore(sub, source, cluster) => RestoreKeepsRecords(s, sub, source, cluster);
    case Load(w, dbOk) => LoadKeepsRecords(s, w, dbOk);
    case Succeed(w, work) => SucceedKeepsRecords(s, w, work);
    case Claim(w, dbOk) => ClaimKeepsRecords(s, w, dbOk);
    case WritePayload(_, _) => SubmitterKeepsRecords(s, e);
    case Enqueue(_, _) => SubmitterKeepsRecords(s, e);
    case MarkSubmitError(_) => SubmitterKeepsRecords(s, e);
    case Fail(w, marksRow) =>
      var pc := WorkerOf(s, w);
      if pc.Executing? { FailKeepsRecords(s, w, pc.id, marksRow, Failing(pc.msg, pc.id)); }
    case MarkFailed(w, dbOk) =>
      var pc := WorkerOf(s, w);
      if pc.Failing? { FailKeepsRecords(s, w, pc.id, dbOk, Idle); }
    case MalformedMessage => SameRowsKeepRecords(s, Next(s, e));
    case DeleteRow(id) => DeleteKeepsRecords(s, id);
    case Ack(w, ok) => AckKeepsRecords(s, w, ok);
    case Crash(w) => GotoKeepsRecords(s, w, Idle);
    case _ => ReadKeepsRecords(s, e);
  }

  lemma {:induction false} RunKeepsRecords(events: seq<Event>)
    ensures RecordsInv(Run(events))
  {
    if events != [] {
      RunKeepsRecords(events[..|events| - 1]);
      RunKeepsInv(events[..|events| - 1]);
      StepKeepsRecords(Run(events[..|events| - 1]), events[|events| - 1]);
    }
  }

  /** On every run a success row of a backup names the key of its object, or of its batch, under its own cluster and task. */
  lemma SuccessRecordsTheResult(events: seq<Event>, id: TaskID)
    ensures var s := Run(events); id in s.rows && s.rows[id].status == Success ==> Recorded(id, s.rows[id])
  {
    RunKeepsRecords(events);
    assert id in Run(events).rows ==> RowRecords(id, Run(events).rows[id]);
  }

  /**
   Exactly when an executor that runs through has a result. A restore always has one, on every run: the path it is
   given is that of a single object, so the two refusals at the head of a restore never happen.
   */
  lemma ExecutorHasResult(events: seq<Event>, w: nat, work: Work)
    ensures var s := Run(events);
            WorkerOf(s, w).Executing? ==>
              var pc := WorkerOf(s, w);
              && pc.msg in s.stream
              && (ResultOf(s.stream[pc.msg].taskType, pc.id, pc.row, work).Some? <==> pc.row.kind != BatchOfNamespaces || work.count > 0)
  {
    RunKeepsRecords(events);
    RunKeepsInv(events);
    var s := Run(events);
    if WorkerOf(s, w).Executing? {
      var pc := WorkerOf(s, w);
      assert WorkerInv(s, pc) && CopyAgrees(s, pc);
      if pc.row.kind == Restoration { ObjectPathIsNoBatch(pc.row.storagePath); }
    }
  }
}
