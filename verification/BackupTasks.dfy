/**
 The backup task protocol: task rows in the database, messages in a Redis stream with a consumer
 group, submitters (backend/internal/backup/manager.go) and workers
 (backend/internal/worker/backup_worker.go). Every step of a submitter or worker is its own event,
 so a run interleaves any number of them, with redelivery, auto-claim, failed writes and crashes.
 `starts` counts how often the executor of a task was entered.
 */
module BackupTasks {
  import opened Basics
  import opened Text
  import opened ObjectKeys
  import opened BatchBackup

  type TaskID = nat
  type MsgID = nat

  datatype Status = Pending | Running | Success | Failed

  datatype Kind = SingleBackup | BatchOfNamespaces | Restoration

  datatype Row = Row(kind: Kind, cluster: string, status: Status, storagePath: string, objectCount: nat)

  datatype TaskType = BackupTask | RestoreTask

  /** A stream message; None when its task id is missing or not a number. */
  datatype Message = Message(taskID: Option<TaskID>, taskType: TaskType)

  /** Where a worker stands in handling one message. */
  datatype Worker =
    | Idle
    | Received(msg: MsgID)
    | Loaded(msg: MsgID, id: TaskID, row: Row)
    | Executing(msg: MsgID, id: TaskID, row: Row)
    | Failing(msg: MsgID, id: TaskID)
    | Acking(msg: MsgID)

  /** Where a submission stands. */
  datatype Submitter = NotStarted | Created(id: TaskID, kind: Kind) | Ready(id: TaskID, kind: Kind) | Aborting(id: TaskID) | Finished

  datatype State = State(
    rows: map<TaskID, Row>,
    nextID: TaskID,
    stream: map<MsgID, Message>,
    nextMsg: MsgID,
    delivered: set<MsgID>,
    acked: set<MsgID>,
    workers: map<nat, Worker>,
    submitters: map<nat, Submitter>,
    starts: map<TaskID, nat>,
    // history: who submitted a task, and which message carries it
    origin: map<TaskID, nat>,
    carrier: map<TaskID, MsgID>)

  const INITIAL := State(map[], 0, map[], 0, {}, {}, map[], map[], map[], map[], map[])

  /** What a successful executor found out. */
  datatype Work = Work(date: string, kind: string, name: string, lastIndex: nat, count: nat)

  datatype Event =
    | SubmitBackup(sub: nat, batch: bool, cluster: string)
    | SubmitRestore(sub: nat, source: TaskID, cluster: string)
    | WritePayload(sub: nat, ok: bool)
    | Enqueue(sub: nat, ok: bool)
    | MarkSubmitError(sub: nat)
    | MalformedMessage
    | ReadNew(w: nat, msg: MsgID)
    | AutoClaim(w: nat, msg: MsgID)
    | Load(w: nat, dbOk: bool)
    | Claim(w: nat, dbOk: bool)
    | Succeed(w: nat, work: Work)
    | Fail(w: nat, marksRow: bool)
    | MarkFailed(w: nat, dbOk: bool)
    | Ack(w: nat, ok: bool)
    | Crash(w: nat)
    | DeleteRow(id: TaskID)

  function WorkerOf(s: State, w: nat): Worker {
    if w in s.workers then s.workers[w] else Idle
  }

  function SubmitterOf(s: State, sub: nat): Submitter {
    if sub in s.submitters then s.submitters[sub] else NotStarted
  }

  function Starts(s: State, id: TaskID): nat {
    if id in s.starts then s.starts[id] else 0
  }

  function Goto(s: State, w: nat, pc: Worker): State {
    s.(workers := s.workers[w := pc])
  }

  function Create(s: State, sub: nat, row: Row): State {
    s.(rows := s.rows[s.nextID := row], nextID := s.nextID + 1,
       submitters := s.submitters[sub := Created(s.nextID, row.kind)], origin := s.origin[s.nextID := sub])
  }

  /** `Updates` with a status on "id = ?": no effect when the row is gone. */
  function SetStatus(s: State, id: TaskID, status: Status): State {
    if id in s.rows then s.(rows := s.rows[id := s.rows[id].(status := status)]) else s
  }

  /** The successful result of the executor chosen by task type and kind; None when it must fail. */
  function ResultOf(taskType: TaskType, id: TaskID, row: Row, work: Work): Option<(string, nat)> {
    match taskType
    case BackupTask =>
      if row.kind.BatchOfNamespaces? then
        if work.count == 0 then None
        else Some((StoragePathFor(id, BatchKey(row.cluster, work.date, id, work.lastIndex, work.kind, work.name)), work.count))
      else Some((SingleKey(row.cluster, work.date, id, work.kind, work.name), 1))
    case RestoreTask =>
      if row.storagePath == "" || HasSuffix(ToSlash(row.storagePath), "-") then None
      else Some((row.storagePath, 1))
  }

  /** One step; an event that cannot happen in `s` leaves it alone. */
  function Next(s: State, e: Event): State {
    match e
    case SubmitBackup(sub, batch, cluster) =>
      if SubmitterOf(s, sub) != NotStarted then s
      else Create(s, sub, Row(if batch then BatchOfNamespaces else SingleBackup, cluster, Pending, "", 0))
    case SubmitRestore(sub, source, cluster) =>
      if SubmitterOf(s, sub) != NotStarted || source !in s.rows || s.rows[source].status != Success
         || s.rows[source].kind == BatchOfNamespaces then s
      else Create(s, sub, Row(Restoration, cluster, Pending, s.rows[source].storagePath, 0))
    case WritePayload(sub, ok) =>
      (match SubmitterOf(s, sub)
       case Created(id, BatchOfNamespaces) =>
         s.(submitters := s.submitters[sub := if ok then Ready(id, BatchOfNamespaces) else Aborting(id)])
       case _ => s)
    case Enqueue(sub, ok) => EnqueueStep(s, sub, ok)
    case MarkSubmitError(sub) => SubmitError(s, sub)
    case MalformedMessage => s.(stream := s.stream[s.nextMsg := Message(None, BackupTask)], nextMsg := s.nextMsg + 1)
    case ReadNew(w, m) =>
      if WorkerOf(s, w).Idle? && m in s.stream && m !in s.delivered
      then Goto(s, w, Received(m)).(delivered := s.delivered + {m}) else s
    case AutoClaim(w, m) =>
      if WorkerOf(s, w).Idle? && m in s.stream && m in s.delivered && m !in s.acked then Goto(s, w, Received(m)) else s
    case Load(w, dbOk) => LoadStep(s, w, dbOk)
    case Claim(w, dbOk) => ClaimStep(s, w, dbOk)
    case Succeed(w, work) => SucceedStep(s, w, work)
    case Fail(w, marksRow) =>
      (match WorkerOf(s, w)
       case Executing(m, id, _) => Goto(if marksRow then SetStatus(s, id, Failed) else s, w, Failing(m, id))
       case _ => s)
    case MarkFailed(w, dbOk) =>
      (match WorkerOf(s, w)
       case Failing(m, id) => Goto(if dbOk then SetStatus(s, id, Failed) else s, w, Idle)
       case _ => s)
    case Ack(w, ok) =>
      (match WorkerOf(s, w)
       case Acking(m) => Goto(s, w, Idle).(acked := if ok then s.acked + {m} else s.acked)
       case _ => s)
    case Crash(w) => Goto(s, w, Idle)
    case DeleteRow(id) => s.(rows := s.rows - {id})
  }

  /** `pushTaskToStream`: an error means that nothing was added. A batch needs its payload first. */
  function EnqueueStep(s: State, sub: nat, ok: bool): State {
    var pc := SubmitterOf(s, sub);
    if !(pc.Ready? || (pc.Created? && pc.kind != BatchOfNamespaces)) then s
    else if !ok then s.(submitters := s.submitters[sub := Aborting(pc.id)])
    else
      var taskType := if pc.kind == Restoration then RestoreTask else BackupTask;
      s.(submitters := s.submitters[sub := Finished],
         stream := s.stream[s.nextMsg := Message(Some(pc.id), taskType)], nextMsg := s.nextMsg + 1,
         carrier := s.carrier[pc.id := s.nextMsg])
  }

  /** `setTaskError`, after which the submission returns its error. */
  function SubmitError(s: State, sub: nat): State {
    match SubmitterOf(s, sub)
    case Aborting(id) => SetStatus(s, id, Failed).(submitters := s.submitters[sub := Finished])
    case _ => s
  }

  /** `handleStreamMsg` and the first half of `HandleTask`. */
  function LoadStep(s: State, w: nat, dbOk: bool): State {
    match WorkerOf(s, w)
    case Received(m) =>
      if m !in s.stream || s.stream[m].taskID.None? then Goto(s, w, Acking(m))
      else if !dbOk then Goto(s, w, Idle)
      else
        var id := s.stream[m].taskID.value;
        if id !in s.rows || s.rows[id].status != Pending then Goto(s, w, Acking(m))
        else Goto(s, w, Loaded(m, id, s.rows[id]))
    case _ => s
  }

  /** The compare-and-set from pending to running. */
  function ClaimStep(s: State, w: nat, dbOk: bool): State {
    match WorkerOf(s, w)
    case Loaded(m, id, row) =>
      if !dbOk then Goto(s, w, Idle)
      else if id in s.rows && s.rows[id].status == Pending then
        Goto(SetStatus(s, id, Running), w, Executing(m, id, row)).(starts := s.starts[id := Starts(s, id) + 1])
      else Goto(s, w, Acking(m))
    case _ => s
  }

  /** The executor's own success write, then nil to the loop. */
  function SucceedStep(s: State, w: nat, work: Work): State {
    match WorkerOf(s, w)
    case Executing(m, id, row) =>
      if m !in s.stream then s else
        (match ResultOf(s.stream[m].taskType, id, row, work)
         case None => s
         case Some((path, count)) =>
           Goto(if id in s.rows
                then s.(rows := s.rows[id := s.rows[id].(status := Success, storagePath := path, objectCount := count)])
                else s,
                w, Acking(m)))
    case _ => s
  }

  function Run(events: seq<Event>): State {
    if events == [] then INITIAL else Next(Run(events[..|events| - 1]), events[|events| - 1])
  }

  // ---- invariant ----

  predicate Unfinished(pc: Submitter, id: TaskID) {
    (pc.Created? || pc.Ready? || pc.Aborting?) && pc.id == id
  }

  predicate Busy(pc: Worker, id: TaskID) {
    (pc.Executing? || pc.Failing?) && pc.id == id
  }

  /** A row is not pending any more, or is gone. */
  predicate Settled(s: State, id: TaskID) {
    id in s.rows ==> s.rows[id].status != Pending
  }

  /** Which task type carries which kind. */
  predicate Fits(taskType: TaskType, kind: Kind) {
    taskType.RestoreTask? <==> kind.Restoration?
  }

  predicate RowInv(s: State, id: TaskID)
    requires id in s.rows
  {
    var row := s.rows[id];
    && id < s.nextID
    && (row.status == Success ==> row.storagePath != "" && row.objectCount >= 1)
    && (row.kind == Restoration ==> row.storagePath != "")
    && (row.status == Pending ==> Starts(s, id) == 0)
    && (row.status == Pending ==>
          || (id in s.carrier && s.carrier[id] in s.stream && s.stream[s.carrier[id]].taskID == Some(id))
          || (id in s.origin && Unfinished(SubmitterOf(s, s.origin[id]), id)))
  }

  predicate SubmitterInv(s: State, sub: nat, pc: Submitter) {
    (pc.Created? || pc.Ready? || pc.Aborting?) ==>
      && pc.id < s.nextID && pc.id in s.origin && s.origin[pc.id] == sub
      && Starts(s, pc.id) == 0
      && (pc.id in s.rows ==> s.rows[pc.id].status == Pending)
      && (pc.id in s.rows && !pc.Aborting? ==> s.rows[pc.id].kind == pc.kind)
      && (forall m | m in s.stream :: s.stream[m].taskID != Some(pc.id))
  }

  predicate MessageInv(s: State, m: MsgID)
    requires m in s.stream
  {
    && m < s.nextMsg
    && (s.stream[m].taskID.Some? ==>
          var id := s.stream[m].taskID.value;
          id < s.nextID && (id in s.rows ==> Fits(s.stream[m].taskType, s.rows[id].kind)))
    && (m in s.acked && s.stream[m].taskID.Some? ==> Settled(s, s.stream[m].taskID.value))
  }

  predicate WorkerInv(s: State, pc: Worker) {
    match pc
    case Idle => true
    case Received(m) => m in s.delivered && m in s.stream
    case Loaded(m, id, row) => HoldsTask(s, m, id, row)
    case Executing(m, id, row) =>
      && HoldsTask(s, m, id, row) && Starts(s, id) == 1
      && (id in s.rows ==> s.rows[id].status == Running)
    case Failing(m, id) =>
      && m in s.delivered && m in s.stream && Starts(s, id) == 1 && id < s.nextID
      && (id in s.rows ==> s.rows[id].status == Running || s.rows[id].status == Failed)
    case Acking(m) => m in s.delivered && m in s.stream && (s.stream[m].taskID.Some? ==> Settled(s, s.stream[m].taskID.value))
  }

  /** The row copy a worker works on belongs to its message and to the stored row. */
  predicate HoldsTask(s: State, m: MsgID, id: TaskID, row: Row) {
    && m in s.delivered && m in s.stream && s.stream[m].taskID == Some(id) && id < s.nextID
    && Fits(s.stream[m].taskType, row.kind)
    && (row.kind == Restoration ==> row.storagePath != "")
    && (id in s.rows ==> s.rows[id].kind == row.kind)
  }

  predicate RowsInv(s: State) { forall id | id in s.rows :: RowInv(s, id) }
  predicate SubmittersInv(s: State) { forall sub | sub in s.submitters :: SubmitterInv(s, sub, s.submitters[sub]) }
  predicate StreamInv(s: State) {
    && (forall m | m in s.stream :: MessageInv(s, m))
    && s.acked <= s.delivered <= s.stream.Keys
  }
  predicate WorkersInv(s: State) { forall w | w in s.workers :: WorkerInv(s, s.workers[w]) }
  ghost predicate OneExecutor(s: State) {
    forall w, w', id | w in s.workers && w' in s.workers && Busy(s.workers[w], id) && Busy(s.workers[w'], id) :: w == w'
  }
  predicate StartsInv(s: State) { forall id | id in s.starts :: s.starts[id] <= 1 && id < s.nextID }

  ghost predicate Inv(s: State) {
    RowsInv(s) && SubmittersInv(s) && StreamInv(s) && WorkersInv(s) && OneExecutor(s) && StartsInv(s)
  }

  /** The edges along which a status may move. */
  predicate Moves(a: Status, b: Status) {
    || a == b
    || (a == Pending && (b == Running || b == Failed))
    || (a == Running && (b == Success || b == Failed))
  }

  // ---- steps that only move a worker ----

  /** A worker may go where its new position is justified and no other worker is busy. */
  lemma GotoKeepsInv(s: State, w: nat, pc: Worker)
    requires Inv(s) && WorkerInv(s, pc)
    requires forall id | Busy(pc, id) :: Busy(WorkerOf(s, w), id)
    ensures Inv(Goto(s, w, pc))
  {
    var s' := Goto(s, w, pc);
    forall id | id in s'.rows
      ensures RowInv(s', id)
    {
      assert RowInv(s, id);
    }
    forall m | m in s'.stream
      ensures MessageInv(s', m)
    {
      assert MessageInv(s, m);
    }
    forall x | x in s'.workers
      ensures WorkerInv(s', s'.workers[x])
    {
      assert WorkerInv(s, s'.workers[x]);
    }
    forall x, y, id | x in s'.workers && y in s'.workers && Busy(s'.workers[x], id) && Busy(s'.workers[y], id)
      ensures x == y
    {
      assert Busy(WorkerOf(s, x), id) && Busy(WorkerOf(s, y), id);
    }
  }

  // ---- submitters ----

  lemma SubmitKeepsInv(s: State, sub: nat, row: Row)
    requires Inv(s) && SubmitterOf(s, sub) == NotStarted
    requires row.status == Pending && (row.kind == Restoration ==> row.storagePath != "")
    ensures Inv(Create(s, sub, row))
  {
    var s' := Create(s, sub, row);
    forall id | id in s'.rows
      ensures RowInv(s', id)
    {
      if id != s.nextID {
        assert RowInv(s, id);
      }
    }
    forall x | x in s'.submitters
      ensures SubmitterInv(s', x, s'.submitters[x])
    {
      assert forall m | m in s.stream :: MessageInv(s, m);
      if x != sub {
        assert SubmitterInv(s, x, s.submitters[x]);
      }
    }
    forall m | m in s'.stream
      ensures MessageInv(s', m)
    {
      assert MessageInv(s, m);
    }
    forall x | x in s'.workers
      ensures WorkerInv(s', s'.workers[x])
    {
      assert WorkerInv(s, s'.workers[x]);
    }
  }

  /** A submission moves on under the same task. */
  lemma SubmitterMoveKeepsInv(s: State, sub: nat, pc: Submitter)
    requires Inv(s) && sub in s.submitters
    requires SubmitterInv(s, sub, pc)
    requires forall id | Unfinished(s.submitters[sub], id) :: Unfinished(pc, id)
    ensures Inv(s.(submitters := s.submitters[sub := pc]))
  {
    var s' := s.(submitters := s.submitters[sub := pc]);
    forall id | id in s'.rows
      ensures RowInv(s', id)
    {
      assert RowInv(s, id);
    }
    forall x | x in s'.submitters
      ensures SubmitterInv(s', x, s'.submitters[x])
    {
      assert x != sub ==> SubmitterInv(s, x, s.submitters[x]);
    }
    forall m | m in s'.stream
      ensures MessageInv(s', m)
    {
      assert MessageInv(s, m);
    }
    forall x | x in s'.workers
      ensures WorkerInv(s', s'.workers[x])
    {
      assert WorkerInv(s, s'.workers[x]);
    }
  }

  /** A new message: malformed, or the one message of a task that is being submitted. */
  lemma AddMessageKeepsInv(s: State, msg: Message)
    requires Inv(s) && msg.taskID.None?
    ensures Inv(s.(stream := s.stream[s.nextMsg := msg], nextMsg := s.nextMsg + 1))
  {
    var s' := s.(stream := s.stream[s.nextMsg := msg], nextMsg := s.nextMsg + 1);
    assert forall m | m in s.stream :: MessageInv(s, m);
    forall id | id in s'.rows
      ensures RowInv(s', id)
    {
      assert RowInv(s, id);
    }
    forall x | x in s'.submitters
      ensures SubmitterInv(s', x, s'.submitters[x])
    {
      assert SubmitterInv(s, x, s.submitters[x]);
    }
    forall m | m in s'.stream
      ensures MessageInv(s', m)
    {
      assert m in s.stream ==> MessageInv(s, m);
    }
    forall x | x in s'.workers
      ensures WorkerInv(s', s'.workers[x])
    {
      assert WorkerInv(s, s'.workers[x]);
    }
  }

  lemma EnqueueKeepsInv(s: State, sub: nat, ok: bool)
    requires Inv(s)
    ensures Inv(EnqueueStep(s, sub, ok))
  {
    var pc, s' := SubmitterOf(s, sub), EnqueueStep(s, sub, ok);
    if s' != s && !ok {
      SubmitterMoveKeepsInv(s, sub, Aborting(pc.id));
    } else if s' != s {
      assert SubmitterInv(s, sub, pc);
      assert forall m | m in s.stream :: MessageInv(s, m);
      forall id | id in s'.rows
        ensures RowInv(s', id)
      {
        assert RowInv(s, id);
      }
      forall x | x in s'.submitters
        ensures SubmitterInv(s', x, s'.submitters[x])
      {
        assert SubmitterInv(s, x, s.submitters[x]);
      }
      forall m | m in s'.stream
        ensures MessageInv(s', m)
      {
        assert m in s.stream ==> MessageInv(s, m);
      }
      forall x | x in s'.workers
        ensures WorkerInv(s', s'.workers[x])
      {
        assert WorkerInv(s, s'.workers[x]);
      }
    }
  }

  lemma SubmitErrorKeepsRows(s: State, sub: nat, id: TaskID)
    requires Inv(s) && SubmitterOf(s, sub) == Aborting(id)
    ensures RowsInv(SubmitError(s, sub))
  {
    forall k | k in SubmitError(s, sub).rows
      ensures RowInv(SubmitError(s, sub), k)
    {
      SubmitErrorKeepsRow(s, sub, id, k);
    }
  }

  lemma SubmitErrorKeepsRow(s: State, sub: nat, id: TaskID, k: TaskID)
    requires k in s.rows && RowInv(s, k) && SubmitterOf(s, sub) == Aborting(id)
    ensures RowInv(SubmitError(s, sub), k)
  {
    assert k != id ==> SubmitError(s, sub).rows[k] == s.rows[k];
    assert k in s.origin && Unfinished(SubmitterOf(s, s.origin[k]), k) && k != id ==> s.origin[k] != sub;
  }

  lemma SubmitErrorKeepsStream(s: State, sub: nat, id: TaskID)
    requires Inv(s) && SubmitterOf(s, sub) == Aborting(id)
    ensures StreamInv(SubmitError(s, sub))
  {
    var s' := SubmitError(s, sub);
    forall m | m in s'.stream
      ensures MessageInv(s', m)
    {
      assert MessageInv(s, m);
    }
  }

  lemma SubmitErrorKeepsActors(s: State, sub: nat, id: TaskID)
    requires Inv(s) && SubmitterOf(s, sub) == Aborting(id)
    ensures SubmittersInv(SubmitError(s, sub)) && WorkersInv(SubmitError(s, sub))
  {
    var s' := SubmitError(s, sub);
    assert SubmitterInv(s, sub, Aborting(id));
    forall x | x in s'.submitters
      ensures SubmitterInv(s', x, s'.submitters[x])
    {
      assert x != sub ==> SubmitterInv(s, x, s.submitters[x]);
    }
    forall x | x in s'.workers
      ensures WorkerInv(s', s'.workers[x])
    {
      assert WorkerInv(s, s.workers[x]);
    }
  }

  lemma SubmitErrorKeepsInv(s: State, sub: nat)
    requires Inv(s)
    ensures Inv(SubmitError(s, sub))
  {
    var pc := SubmitterOf(s, sub);
    if pc.Aborting? {
      SubmitErrorKeepsRows(s, sub, pc.id);
      SubmitErrorKeepsStream(s, sub, pc.id);
      SubmitErrorKeepsActors(s, sub, pc.id);
      assert s.workers == SubmitError(s, sub).workers && s.starts == SubmitError(s, sub).starts;
    }
  }

  // ---- workers that touch rows ----

  lemma DeleteKeepsInv(s: State, gone: TaskID)
    requires Inv(s)
    ensures Inv(Next(s, DeleteRow(gone)))
  {
    var s' := Next(s, DeleteRow(gone));
    forall id | id in s'.rows
      ensures RowInv(s', id)
    {
      assert RowInv(s, id);
    }
    forall x | x in s'.submitters
      ensures SubmitterInv(s', x, s'.submitters[x])
    {
      assert SubmitterInv(s, x, s.submitters[x]);
    }
    forall m | m in s'.stream
      ensures MessageInv(s', m)
    {
      assert MessageInv(s, m);
    }
    forall x | x in s'.workers
      ensures WorkerInv(s', s'.workers[x])
    {
      assert WorkerInv(s, s'.workers[x]);
    }
  }

  /** The state after worker `w` won the compare-and-set on its task. */
  function Won(s: State, w: nat, m: MsgID, id: TaskID, row: Row): State {
    Goto(SetStatus(s, id, Running), w, Executing(m, id, row)).(starts := s.starts[id := Starts(s, id) + 1])
  }

  /** A pending row can be claimed only if no submission still owns it and no worker is busy with it. */
  ghost predicate Claimable(s: State, w: nat, m: MsgID, id: TaskID, row: Row) {
    && WorkerOf(s, w) == Loaded(m, id, row) && HoldsTask(s, m, id, row)
    && id in s.rows && s.rows[id].status == Pending && Starts(s, id) == 0
  }

  lemma WonKeepsRows(s: State, w: nat, m: MsgID, id: TaskID, row: Row)
    requires Inv(s) && Claimable(s, w, m, id, row)
    ensures RowsInv(Won(s, w, m, id, row)) && StartsInv(Won(s, w, m, id, row))
  {
    var s' := Won(s, w, m, id, row);
    forall k | k in s'.rows
      ensures RowInv(s', k)
    {
      assert RowInv(s, k);
    }
  }

  lemma WonKeepsSubmitters(s: State, w: nat, m: MsgID, id: TaskID, row: Row)
    requires Inv(s) && Claimable(s, w, m, id, row)
    ensures SubmittersInv(Won(s, w, m, id, row)) && StreamInv(Won(s, w, m, id, row))
  {
    var s' := Won(s, w, m, id, row);
    forall x | x in s'.submitters
      ensures SubmitterInv(s', x, s'.submitters[x])
    {
      assert SubmitterInv(s, x, s.submitters[x]);
    }
    forall k | k in s'.stream
      ensures MessageInv(s', k)
    {
      assert MessageInv(s, k);
    }
  }

  lemma WonKeepsWorkers(s: State, w: nat, m: MsgID, id: TaskID, row: Row)
    requires Inv(s) && Claimable(s, w, m, id, row)
    ensures WorkersInv(Won(s, w, m, id, row)) && OneExecutor(Won(s, w, m, id, row))
  {
    var s' := Won(s, w, m, id, row);
    forall x | x in s.workers
      ensures !Busy(s.workers[x], id)
    {
      assert WorkerInv(s, s.workers[x]);
    }
    forall x | x in s'.workers
      ensures WorkerInv(s', s'.workers[x])
    {
      assert x != w ==> WorkerInv(s, s.workers[x]);
    }
    forall x, y, k | x in s'.workers && y in s'.workers && Busy(s'.workers[x], k) && Busy(s'.workers[y], k)
      ensures x == y
    {
      assert x != w ==> Busy(s.workers[x], k);
      assert y != w ==> Busy(s.workers[y], k);
    }
  }

  lemma ClaimKeepsInv(s: State, w: nat, dbOk: bool)
    requires Inv(s)
    ensures Inv(ClaimStep(s, w, dbOk))
  {
    var pc := WorkerOf(s, w);
    if pc.Loaded? {
      assert WorkerInv(s, pc);
      if dbOk && pc.id in s.rows && s.rows[pc.id].status == Pending {
        assert RowInv(s, pc.id);
        WonKeepsRows(s, w, pc.msg, pc.id, pc.row);
        WonKeepsSubmitters(s, w, pc.msg, pc.id, pc.row);
        WonKeepsWorkers(s, w, pc.msg, pc.id, pc.row);
        assert ClaimStep(s, w, dbOk) == Won(s, w, pc.msg, pc.id, pc.row);
      } else {
        GotoKeepsInv(s, w, if dbOk then Acking(pc.msg) else Idle);
      }
    }
  }

  /** The executor of a task writes the row it runs on, and its worker moves on. */
  lemma SettleKeepsInv(s: State, w: nat, id: TaskID, row: Row, pc: Worker)
    requires Inv(s) && Busy(WorkerOf(s, w), id) && id in s.rows && s.rows[id].status != Pending
    requires row.kind == s.rows[id].kind && (row.status == Success || row.status == Failed)
    requires row.status == Success ==> row.storagePath != "" && row.objectCount >= 1
    requires row.kind == Restoration ==> row.storagePath != ""
    requires var s' := Goto(s.(rows := s.rows[id := row]), w, pc);
             WorkerInv(s', pc) && forall k | Busy(pc, k) :: k == id
    ensures Inv(Goto(s.(rows := s.rows[id := row]), w, pc))
  {
    var s' := Goto(s.(rows := s.rows[id := row]), w, pc);
    forall k | k in s'.rows
      ensures RowInv(s', k)
    {
      assert RowInv(s, k);
    }
    forall x | x in s'.submitters
      ensures SubmitterInv(s', x, s'.submitters[x])
    {
      assert SubmitterInv(s, x, s.submitters[x]);
    }
    forall m | m in s'.stream
      ensures MessageInv(s', m)
    {
      assert MessageInv(s, m);
    }
    forall x | x in s'.workers
      ensures WorkerInv(s', s'.workers[x])
    {
      if x != w {
        assert WorkerInv(s, s.workers[x]) && !Busy(s.workers[x], id);
      }
    }
    forall x, y, k | x in s'.workers && y in s'.workers && Busy(s'.workers[x], k) && Busy(s'.workers[y], k)
      ensures x == y
    {
      assert Busy(s.workers[x], k) && Busy(s.workers[y], k);
    }
  }

  /** A successful executor always leaves a path; only a batch counts more than one object. */
  lemma ResultHasPath(taskType: TaskType, id: TaskID, row: Row, work: Work)
    ensures var r := ResultOf(taskType, id, row, work);
            r.Some? ==> r.value.0 != "" && r.value.1 >= 1
  {
  }

  lemma SucceedKeepsInv(s: State, w: nat, work: Work)
    requires Inv(s)
    ensures Inv(SucceedStep(s, w, work))
  {
    var pc := WorkerOf(s, w);
    if pc.Executing? {
      assert WorkerInv(s, pc);
      var id := pc.id;
      var result := ResultOf(s.stream[pc.msg].taskType, id, pc.row, work);
      ResultHasPath(s.stream[pc.msg].taskType, id, pc.row, work);
      if result.Some? {
        if id in s.rows {
          var row := s.rows[id].(status := Success, storagePath := result.value.0, objectCount := result.value.1);
          SettleKeepsInv(s, w, id, row, Acking(pc.msg));
        } else {
          GotoKeepsInv(s, w, Acking(pc.msg));
        }
      }
    }
  }

  lemma FailKeepsInv(s: State, w: nat, marksRow: bool)
    requires Inv(s)
    ensures Inv(Next(s, Fail(w, marksRow)))
  {
    var pc := WorkerOf(s, w);
    if pc.Executing? {
      assert WorkerInv(s, pc);
      if marksRow && pc.id in s.rows {
        assert RowInv(s, pc.id);
        SettleKeepsInv(s, w, pc.id, s.rows[pc.id].(status := Failed), Failing(pc.msg, pc.id));
      } else {
        GotoKeepsInv(s, w, Failing(pc.msg, pc.id));
      }
    }
  }

  lemma MarkFailedKeepsInv(s: State, w: nat, dbOk: bool)
    requires Inv(s)
    ensures Inv(Next(s, MarkFailed(w, dbOk)))
  {
    var pc := WorkerOf(s, w);
    if pc.Failing? {
      assert WorkerInv(s, pc);
      if dbOk && pc.id in s.rows {
        assert RowInv(s, pc.id);
        SettleKeepsInv(s, w, pc.id, s.rows[pc.id].(status := Failed), Idle);
      } else {
        GotoKeepsInv(s, w, Idle);
      }
    }
  }

  lemma AckedKeepsInv(s: State, m: MsgID)
    requires Inv(s) && WorkerInv(s, Acking(m))
    ensures Inv(s.(acked := s.acked + {m}))
  {
    var s' := s.(acked := s.acked + {m});
    forall id | id in s'.rows
      ensures RowInv(s', id)
    {
      assert RowInv(s, id);
    }
    forall x | x in s'.submitters
      ensures SubmitterInv(s', x, s'.submitters[x])
    {
      assert SubmitterInv(s, x, s.submitters[x]);
    }
    forall k | k in s'.stream
      ensures MessageInv(s', k)
    {
      assert MessageInv(s, k);
    }
    forall x | x in s'.workers
      ensures WorkerInv(s', s'.workers[x])
    {
      assert WorkerInv(s, s'.workers[x]);
    }
  }

  lemma AckKeepsInv(s: State, w: nat, ok: bool)
    requires Inv(s)
    ensures Inv(Next(s, Ack(w, ok)))
  {
    var pc := WorkerOf(s, w);
    if pc.Acking? {
      assert WorkerInv(s, pc);
      GotoKeepsInv(s, w, Idle);
      if ok {
        AckedKeepsInv(Goto(s, w, Idle), pc.msg);
        assert Next(s, Ack(w, ok)) == Goto(s, w, Idle).(acked := s.acked + {pc.msg});
      }
    }
  }

  lemma ReceiveKeepsInv(s: State, w: nat, m: MsgID)
    requires Inv(s) && WorkerOf(s, w).Idle? && m in s.stream
    ensures Inv(Goto(s, w, Received(m)).(delivered := s.delivered + {m}))
  {
    var s' := Goto(s, w, Received(m)).(delivered := s.delivered + {m});
    forall id | id in s'.rows
      ensures RowInv(s', id)
    {
      assert RowInv(s, id);
    }
    forall k | k in s'.stream
      ensures MessageInv(s', k)
    {
      assert MessageInv(s, k);
    }
    forall x | x in s'.workers
      ensures WorkerInv(s', s'.workers[x])
    {
      assert x != w ==> WorkerInv(s, s'.workers[x]);
    }
    forall x | x in s'.submitters
      ensures SubmitterInv(s', x, s'.submitters[x])
    {
      assert SubmitterInv(s, x, s.submitters[x]);
    }
    forall x, y, id | x in s'.workers && y in s'.workers && Busy(s'.workers[x], id) && Busy(s'.workers[y], id)
      ensures x == y
    {
      assert Busy(s.workers[x], id) && Busy(s.workers[y], id);
    }
  }

  lemma LoadKeepsInv(s: State, w: nat, dbOk: bool)
    requires Inv(s)
    ensures Inv(LoadStep(s, w, dbOk))
  {
    var pc := WorkerOf(s, w);
    if pc.Received? {
      assert WorkerInv(s, pc) && MessageInv(s, pc.msg);
      var taskID := s.stream[pc.msg].taskID;
      if dbOk && taskID.Some? && taskID.value in s.rows && s.rows[taskID.value].status == Pending {
        assert RowInv(s, taskID.value);
        GotoKeepsInv(s, w, Loaded(pc.msg, taskID.value, s.rows[taskID.value]));
      } else if taskID.None? || dbOk {
        GotoKeepsInv(s, w, Acking(pc.msg));
      } else {
        GotoKeepsInv(s, w, Idle);
      }
    }
  }

  lemma PayloadKeepsInv(s: State, sub: nat, ok: bool)
    requires Inv(s)
    ensures Inv(Next(s, WritePayload(sub, ok)))
  {
    var pc := SubmitterOf(s, sub);
    if pc.Created? && pc.kind == BatchOfNamespaces {
      assert SubmitterInv(s, sub, pc);
      SubmitterMoveKeepsInv(s, sub, if ok then Ready(pc.id, BatchOfNamespaces) else Aborting(pc.id));
    }
  }

  lemma RestoreKeepsInv(s: State, sub: nat, source: TaskID, cluster: string)
    requires Inv(s)
    ensures Inv(Next(s, SubmitRestore(sub, source, cluster)))
  {
    if SubmitterOf(s, sub) == NotStarted && source in s.rows && s.rows[source].status == Success {
      assert RowInv(s, source);
      SubmitKeepsInv(s, sub, Row(Restoration, cluster, Pending, s.rows[source].storagePath, 0));
    }
  }

  /** Every step of every submitter and worker keeps the invariant, crashes included. */
  lemma StepKeepsInv(s: State, e: Event)
    requires Inv(s)
    ensures Inv(Next(s, e))
  {
    match e
    case SubmitBackup(sub, batch, cluster) =>
      if SubmitterOf(s, sub) == NotStarted {
        SubmitKeepsInv(s, sub, Row(if batch then BatchOfNamespaces else SingleBackup, cluster, Pending, "", 0));
      }
    case SubmitRestore(sub, source, cluster) => RestoreKeepsInv(s, sub, source, cluster);
    case WritePayload(sub, ok) => PayloadKeepsInv(s, sub, ok);
    case Enqueue(sub, ok) => EnqueueKeepsInv(s, sub, ok);
    case MarkSubmitError(sub) => SubmitErrorKeepsInv(s, sub);
    case MalformedMessage => AddMessageKeepsInv(s, Message(None, BackupTask));
    case ReadNew(w, m) =>
      if WorkerOf(s, w).Idle? && m in s.stream { ReceiveKeepsInv(s, w, m); }
    case AutoClaim(w, m) =>
      if WorkerOf(s, w).Idle? && m in s.stream && m in s.delivered && m !in s.acked { GotoKeepsInv(s, w, Received(m)); }
    case Load(w, dbOk) => LoadKeepsInv(s, w, dbOk);
    case Claim(w, dbOk) => ClaimKeepsInv(s, w, dbOk);
    case Succeed(w, work) => SucceedKeepsInv(s, w, work);
    case Fail(w, marksRow) => FailKeepsInv(s, w, marksRow);
    case MarkFailed(w, dbOk) => MarkFailedKeepsInv(s, w, dbOk);
    case Ack(w, ok) => AckKeepsInv(s, w, ok);
    case Crash(w) => GotoKeepsInv(s, w, Idle);
    case DeleteRow(id) => DeleteKeepsInv(s, id);
  }

  lemma {:induction false} RunKeepsInv(events: seq<Event>)
    ensures Inv(Run(events))
  {
    if events != [] {
      RunKeepsInv(events[..|events| - 1]);
      StepKeepsInv(Run(events[..|events| - 1]), events[|events| - 1]);
    }
  }

  // ---- main results ----

  /** On every run the executor of a task is entered at most once, and never by two workers at a time. */
  lemma ExecutorStartsAtMostOnce(events: seq<Event>, id: TaskID)
    ensures Starts(Run(events), id) <= 1
    ensures forall w, w' :: Busy(WorkerOf(Run(events), w), id) && Busy(WorkerOf(Run(events), w'), id) ==> w == w'
  {
    RunKeepsInv(events);
  }

  /** No message is acknowledged while the row of its task is still pending. */
  lemma AckedTaskIsNotPending(events: seq<Event>, m: MsgID, id: TaskID)
    ensures var s := Run(events);
            m in s.acked && id in s.rows && s.rows[id].status == Pending
            ==> m in s.stream && s.stream[m].taskID != Some(id)
  {
    RunKeepsInv(events);
    var s := Run(events);
    if m in s.acked && id in s.rows && s.rows[id].status == Pending {
      assert MessageInv(s, m);
    }
  }

  /** No pending row is lost: a message not yet acknowledged names it, or its submission is unfinished. */
  lemma PendingRowIsCarried(events: seq<Event>, id: TaskID)
    ensures var s := Run(events);
            id in s.rows && s.rows[id].status == Pending ==>
              || (exists m :: m in s.stream && m !in s.acked && s.stream[m].taskID == Some(id))
              || (exists sub :: Unfinished(SubmitterOf(s, sub), id))
  {
    RunKeepsInv(events);
    var s := Run(events);
    if id in s.rows && s.rows[id].status == Pending {
      assert RowInv(s, id);
      if id in s.carrier && s.carrier[id] in s.stream && s.stream[s.carrier[id]].taskID == Some(id) {
        assert MessageInv(s, s.carrier[id]);
        assert s.carrier[id] !in s.acked;
      }
    }
  }

  /** A row that says success has a storage path and counts at least one object. */
  lemma SuccessHasPathAndCount(events: seq<Event>, id: TaskID)
    ensures var s := Run(events);
            id in s.rows && s.rows[id].status == Success ==> s.rows[id].storagePath != "" && s.rows[id].objectCount >= 1
  {
    RunKeepsInv(events);
    assert id in Run(events).rows ==> RowInv(Run(events), id);
  }

  /** A step may change row `id` only along the status edges, and never what the task is. */
  predicate RowMoves(s: State, s': State, id: TaskID) {
    id in s.rows && id in s'.rows ==>
      && Moves(s.rows[id].status, s'.rows[id].status)
      && s'.rows[id].kind == s.rows[id].kind && s'.rows[id].cluster == s.rows[id].cluster
      && (s.rows[id].status == Success ==> s'.rows[id] == s.rows[id])
  }

  lemma SubmitErrorMoves(s: State, sub: nat, id: TaskID)
    requires Inv(s)
    ensures RowMoves(s, SubmitError(s, sub), id)
  {
    assert sub in s.submitters ==> SubmitterInv(s, sub, s.submitters[sub]);
  }

  lemma ClaimMoves(s: State, w: nat, dbOk: bool, id: TaskID)
    ensures RowMoves(s, ClaimStep(s, w, dbOk), id)
  {
  }

  lemma SucceedMoves(s: State, w: nat, work: Work, id: TaskID)
    requires Inv(s)
    ensures RowMoves(s, SucceedStep(s, w, work), id)
  {
    assert w in s.workers ==> WorkerInv(s, s.workers[w]);
  }

  lemma FailMoves(s: State, w: nat, task: TaskID, writes: bool, pc: Worker, id: TaskID)
    requires Inv(s) && Busy(WorkerOf(s, w), task)
    ensures RowMoves(s, Goto(if writes then SetStatus(s, task, Failed) else s, w, pc), id)
  {
    assert WorkerInv(s, s.workers[w]);
  }

  predicate WritesRow(e: Event) {
    e.MarkSubmitError? || e.Claim? || e.Succeed? || e.Fail? || e.MarkFailed?
  }

  lemma OthersMoveNoRow(s: State, e: Event, id: TaskID)
    requires Inv(s) && !WritesRow(e)
    ensures id in s.rows && id in Next(s, e).rows ==> Next(s, e).rows[id] == s.rows[id]
  {
    assert id in s.rows ==> RowInv(s, id);
  }

  /** Each step of each participant moves each row along the edges. */
  lemma StepMoves(s: State, e: Event, id: TaskID)
    requires Inv(s)
    ensures RowMoves(s, Next(s, e), id)
  {
    match e
    case MarkSubmitError(sub) => SubmitErrorMoves(s, sub, id);
    case Claim(w, dbOk) => ClaimMoves(s, w, dbOk, id);
    case Succeed(w, work) => SucceedMoves(s, w, work, id);
    case Fail(w, marksRow) =>
      var pc := WorkerOf(s, w);
      if pc.Executing? { FailMoves(s, w, pc.id, marksRow, Failing(pc.msg, pc.id), id); }
    case MarkFailed(w, dbOk) =>
      var pc := WorkerOf(s, w);
      if pc.Failing? { FailMoves(s, w, pc.id, dbOk, Idle, id); }
    case _ => OthersMoveNoRow(s, e, id);
  }

  /** No id is taken back, and a row appears only under the next id. */
  predicate Grows(s: State, s': State) {
    s.nextID <= s'.nextID && forall id | id in s'.rows && id !in s.rows :: id == s.nextID
  }

  lemma SucceedGrows(s: State, w: nat, work: Work)
    ensures Grows(s, SucceedStep(s, w, work))
  {
  }

  lemma ClaimGrows(s: State, e: Event)
    requires e.Load? || e.Claim? || e.ReadNew? || e.AutoClaim?
    ensures Grows(s, Next(s, e))
  {
  }

  lemma WorkerGrows(s: State, e: Event)
    requires e.Fail? || e.MarkFailed? || e.Ack? || e.Crash?
    ensures Grows(s, Next(s, e))
  {
  }

  lemma SubmitterGrows(s: State, e: Event)
    requires e.SubmitBackup? || e.SubmitRestore? || e.WritePayload? || e.Enqueue? || e.MarkSubmitError?
    ensures Grows(s, Next(s, e))
  {
  }

  lemma StepGrows(s: State, e: Event)
    ensures Grows(s, Next(s, e))
  {
    match e
    case Succeed(w, work) => SucceedGrows(s, w, work);
    case MalformedMessage =>
    case DeleteRow(_) =>
    case SubmitBackup(_, _, _) => SubmitterGrows(s, e);
    case SubmitRestore(_, _, _) => SubmitterGrows(s, e);
    case WritePayload(_, _) => SubmitterGrows(s, e);
    case Enqueue(_, _) => SubmitterGrows(s, e);
    case MarkSubmitError(_) => SubmitterGrows(s, e);
    case Fail(_, _) => WorkerGrows(s, e);
    case MarkFailed(_, _) => WorkerGrows(s, e);
    case Ack(_, _) => WorkerGrows(s, e);
    case Crash(_) => WorkerGrows(s, e);
    case _ => ClaimGrows(s, e);
  }

  lemma RunGrows(events: seq<Event>, e: Event)
    ensures Run(events).nextID <= Run(events + [e]).nextID
  {
    assert (events + [e])[..|events|] == events;
    StepGrows(Run(events), e);
  }

  lemma {:induction false} IDsGrow(earlier: seq<Event>, later: seq<Event>)
    ensures Run(earlier).nextID <= Run(earlier + later).nextID
  {
    if later == [] {
      assert earlier + later == earlier;
    } else {
      var before := earlier + later[..|later| - 1];
      assert earlier + later == before + [later[|later| - 1]];
      IDsGrow(earlier, later[..|later| - 1]);
      RunGrows(before, later[|later| - 1]);
    }
  }

  /** Where a row may stand later: forward only, success and failed absorb, and success freezes the row. */
  predicate Later(a: Row, b: Row) {
    && (Moves(a.status, b.status) || (a.status == Pending && b.status == Success))
    && b.kind == a.kind && b.cluster == a.cluster
    && (a.status == Success ==> b == a)
  }

  lemma LaterStill(s: State, s': State, first: Row, id: TaskID)
    requires id in s.rows && id in s'.rows && Later(first, s.rows[id]) && RowMoves(s, s', id)
    ensures Later(first, s'.rows[id])
  {
  }

  /** What one more step does to a row seen earlier. */
  lemma StepExtends(s: State, e: Event, first: Row, id: TaskID)
    requires Inv(s) && id < s.nextID && id in Next(s, e).rows
    ensures id in s.rows
    ensures Later(first, s.rows[id]) ==> Later(first, Next(s, e).rows[id])
  {
    StepGrows(s, e);
    StepMoves(s, e, id);
    if Later(first, s.rows[id]) {
      LaterStill(s, Next(s, e), first, id);
    }
  }

  /** Over any stretch of any run a row that is not deleted only moves forward. */
  lemma {:induction false} StatusMovesForward(earlier: seq<Event>, later: seq<Event>, id: TaskID)
    requires id in Run(earlier).rows && id in Run(earlier + later).rows
    ensures Later(Run(earlier).rows[id], Run(earlier + later).rows[id])
  {
    if later == [] {
      assert earlier + later == earlier;
    } else {
      var all, last := earlier + later, later[|later| - 1];
      var before := earlier + later[..|later| - 1];
      assert all[..|all| - 1] == before && all[|all| - 1] == last;
      RunKeepsInv(earlier);
      RunKeepsInv(before);
      assert RowInv(Run(earlier), id);
      IDsGrow(earlier, later[..|later| - 1]);
      StepExtends(Run(before), last, Run(earlier).rows[id], id);
      StatusMovesForward(earlier, later[..|later| - 1], id);
    }
  }
}
