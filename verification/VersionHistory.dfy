/**
 The version history of resources (backend/internal/version/manager.go): snapshots numbered per object, pruned
 to the newest ones, listed and rolled back to. The snapshot table is compared with an unbounded log per object
 that no operation ever shortens. Transactions are serialized; every database or cluster call may fail.
 A snapshot holds the object itself, since serializing to YAML and back is taken to be lossless.
 */
module VersionHistory {
  import opened Basics
  import opened Text

  datatype Key = Key(cluster: string, ns: string, apiVersion: string, kind: string, name: string)

  datatype Object = Object(apiVersion: string, kind: string, ns: string, name: string, body: string)

  datatype Row = Row(key: Key, seqNo: nat, obj: Object)

  /** `log` and `smallest` (the smallest limit in force since the first snapshot) are history. */
  datatype State = State(
    rows: seq<Row>,
    maxVersions: nat,
    objects: map<Key, Object>,
    log: map<Key, seq<Object>>,
    smallest: nat)

  const DEFAULT_MAX_VERSIONS: nat := 5

  const INITIAL := State([], DEFAULT_MAX_VERSIONS, map[], map[], DEFAULT_MAX_VERSIONS)

  const CLUSTER_SCOPED: set<string> := {
    "PersistentVolume", "StorageClass", "Namespace", "Node", "VolumeAttachment", "ClusterRole", "ClusterRoleBinding",
    "ClusterIssuer", "CustomResourceDefinition", "APIService", "PriorityClass", "RuntimeClass", "IngressClass",
    "CSIDriver", "CSINode", "MutatingWebhookConfiguration", "ValidatingWebhookConfiguration", "ComponentStatus" }

  /** The key of an object: cluster-scoped kinds share one pseudo namespace, whatever namespace was given. */
  function KeyFor(cluster: string, ns: string, apiVersion: string, kind: string, name: string): Key {
    Key(cluster, if kind in CLUSTER_SCOPED then "_cluster_" else ns, apiVersion, kind, name)
  }

  /** An object as a caller names it. */
  datatype Ref = Ref(cluster: string, ns: string, apiVersion: string, kind: string, name: string)

  function At(r: Ref): Key { KeyFor(r.cluster, r.ns, r.apiVersion, r.kind, r.name) }

  function RefOf(cluster: string, obj: Object): Ref { Ref(cluster, obj.ns, obj.apiVersion, obj.kind, obj.name) }

  function KeyOf(cluster: string, obj: Object): Key { At(RefOf(cluster, obj)) }

  /** `ParseGroupVersion` accepts at most one slash. */
  predicate ParsesAsGroupVersion(apiVersion: string) { |Split(apiVersion, '/')| <= 2 }

  predicate Acceptable(key: Key) {
    key.cluster != "" && key.apiVersion != "" && key.kind != "" && key.name != "" && ParsesAsGroupVersion(key.apiVersion)
  }

  // ---- the queries on the table ----

  /** The rows of one object, in table order. */
  function Of(rows: seq<Row>, key: Key): seq<Row> {
    if rows == [] then []
    else
      var last := rows[|rows| - 1];
      Of(rows[..|rows| - 1], key) + if last.key == key then [last] else []
  }

  /** COALESCE(MAX(version_seq), 0). */
  function MaxSeq(rows: seq<Row>): nat {
    if rows == [] then 0
    else
      var rest, last := MaxSeq(rows[..|rows| - 1]), rows[|rows| - 1].seqNo;
      if rest < last then last else rest
  }

  /** DELETE of an object's rows numbered below `keep`. */
  function Without(rows: seq<Row>, key: Key, keep: int): seq<Row> {
    if rows == [] then []
    else
      var last := rows[|rows| - 1];
      Without(rows[..|rows| - 1], key, keep) + if last.key == key && last.seqNo < keep then [] else [last]
  }

  /** ORDER BY version_seq DESC. */
  function Descending(rows: seq<Row>): seq<Row> {
    if rows == [] then [] else Insert(rows[|rows| - 1], Descending(rows[..|rows| - 1]))
  }

  function Insert(row: Row, sorted: seq<Row>): seq<Row> {
    if sorted == [] || sorted[0].seqNo <= row.seqNo then [row] + sorted else [sorted[0]] + Insert(row, sorted[1..])
  }

  function First(rows: seq<Row>, limit: nat): seq<Row> {
    if limit < |rows| then rows[..limit] else rows
  }

  function NextSeq(s: State, key: Key): nat { MaxSeq(Of(s.rows, key)) + 1 }

  function ListVersions(s: State, key: Key): seq<Row> { First(Descending(Of(s.rows, key)), s.maxVersions) }

  /** The first row with the key and number. */
  function Find(rows: seq<Row>, key: Key, seqNo: int): Option<Object> {
    if rows == [] then None
    else if rows[0].key == key && rows[0].seqNo == seqNo then Some(rows[0].obj)
    else Find(rows[1..], key, seqNo)
  }

  function LogOf(s: State, key: Key): seq<Object> {
    if key in s.log then s.log[key] else []
  }

  // ---- the operations ----

  function Append(s: State, key: Key, obj: Object): State {
    s.(rows := s.rows + [Row(key, NextSeq(s, key), obj)], log := s.log[key := LogOf(s, key) + [obj]])
  }

  /** `SnapshotBefore`: the object as it is now; no snapshot when there is none. */
  function Before(s: State, key: Key, getOk: bool, commitOk: bool): State {
    if Acceptable(key) && getOk && key in s.objects && commitOk then Append(s, key, s.objects[key]) else s
  }

  /** `SnapshotAfter`: the object as given, then the pruning, whose own failure is ignored. */
  function After(s: State, cluster: string, obj: Object, pruneOk: bool, commitOk: bool): State {
    var key := KeyOf(cluster, obj);
    if cluster == "" || !ParsesAsGroupVersion(obj.apiVersion) || !commitOk then s
    else
      var keep := NextSeq(s, key) - s.maxVersions + 1;
      var s1 := Append(s, key, obj);
      if keep > 1 && pruneOk then s1.(rows := Without(s1.rows, key, keep)) else s1
  }

  /** `ApplyResource` on a stored object: it replaces the object of its own key. */
  function Apply(s: State, cluster: string, obj: Object): State {
    s.(objects := s.objects[KeyOf(cluster, obj) := obj])
  }

  /** Which of the calls inside a rollback succeed. */
  datatype Calls = Calls(getOk: bool, beforeOk: bool, applyOk: bool, pruneOk: bool, afterOk: bool)

  /** `Rollback`: look up, snapshot, apply, snapshot; the last snapshot may fail without an error. */
  function Rollback(s: State, key: Key, seqNo: int, c: Calls): State {
    var found := Find(s.rows, key, seqNo);
    if !Acceptable(key) || found.None? || !c.getOk || (key in s.objects && !c.beforeOk) then s
    else
      var s1 := Before(s, key, true, true);
      if !c.applyOk then s1
      else After(Apply(s1, key.cluster, found.value), key.cluster, found.value, c.pruneOk, c.afterOk)
  }

  datatype Event =
    | SnapshotBefore(ref: Ref, getOk: bool, commitOk: bool)
    | SnapshotAfter(cluster: string, obj: Object, pruneOk: bool, commitOk: bool)
    | RollBack(ref: Ref, seqNo: int, calls: Calls)
    | SetMaxVersions(n: int)
    | Change(cluster: string, obj: Object)
    | Remove(ref: Ref)

  function Next(s: State, e: Event): State {
    match e
    case SnapshotBefore(ref, getOk, commitOk) => Before(s, At(ref), getOk, commitOk)
    case SnapshotAfter(cluster, obj, pruneOk, commitOk) => After(s, cluster, obj, pruneOk, commitOk)
    case RollBack(ref, seqNo, calls) => Rollback(s, At(ref), seqNo, calls)
    case SetMaxVersions(n) => if n > 0 then s.(maxVersions := n, smallest := if s.log == map[] || n < s.smallest then n else s.smallest) else s
    case Change(cluster, obj) => Apply(s, cluster, obj)
    case Remove(ref) => s.(objects := s.objects - {At(ref)})
  }

  function Run(events: seq<Event>): State {
    if events == [] then INITIAL else Next(Run(events[..|events| - 1]), events[|events| - 1])
  }

  // ---- windows of a log ----

  /** The rows for the entries of `log` after the first `from`, numbered as in the log. */
  function Window(key: Key, log: seq<Object>, from: nat): seq<Row> {
    if |log| <= from then [] else Window(key, log[..|log| - 1], from) + [Row(key, |log|, log[|log| - 1])]
  }

  lemma {:induction false} WindowAt(key: Key, log: seq<Object>, from: nat)
    requires from <= |log|
    ensures |Window(key, log, from)| == |log| - from
    ensures forall i | 0 <= i < |log| - from :: Window(key, log, from)[i] == Row(key, from + i + 1, log[from + i])
  {
    if from < |log| {
      WindowAt(key, log[..|log| - 1], from);
    }
  }

  lemma WindowLength(key: Key, log: seq<Object>, from: nat)
    requires from <= |log|
    ensures |Window(key, log, from)| == |log| - from
  {
    WindowAt(key, log, from);
  }

  lemma WindowExtends(key: Key, log: seq<Object>, from: nat, obj: Object)
    requires from <= |log|
    ensures Window(key, log + [obj], from) == Window(key, log, from) + [Row(key, |log| + 1, obj)]
  {
    assert (log + [obj])[..|log|] == log;
  }

  lemma {:induction false} WindowMax(key: Key, log: seq<Object>, from: nat)
    requires from < |log|
    ensures MaxSeq(Window(key, log, from)) == |log|
  {
    var rest := log[..|log| - 1];
    WindowAt(key, rest, from);
    assert Window(key, log, from)[..|Window(key, log, from)| - 1] == Window(key, rest, from);
    if from < |rest| { WindowMax(key, rest, from); }
  }

  lemma {:induction false} WindowWithout(key: Key, log: seq<Object>, from: nat, keep: int)
    requires from <= |log| && keep - 1 <= |log|
    ensures Without(Window(key, log, from), key, keep) == Window(key, log, if from < keep - 1 then keep - 1 else from)
  {
    if from < |log| {
      var rest := log[..|log| - 1];
      var window := Window(key, log, from);
      assert window[..|window| - 1] == Window(key, rest, from);
      if keep - 1 <= |rest| {
        WindowWithout(key, rest, from, keep);
      } else {
        WindowGone(key, rest, from, keep);
      }
    }
  }

  lemma {:induction false} WindowGone(key: Key, log: seq<Object>, from: nat, keep: int)
    requires from <= |log| < keep
    ensures Without(Window(key, log, from), key, keep) == []
  {
    if from < |log| {
      var window := Window(key, log, from);
      assert window[..|window| - 1] == Window(key, log[..|log| - 1], from);
      WindowGone(key, log[..|log| - 1], from, keep);
    }
  }

  /** The newest entry first. */
  function Reversed(rows: seq<Row>): seq<Row> {
    if rows == [] then [] else [rows[|rows| - 1]] + Reversed(rows[..|rows| - 1])
  }

  lemma {:induction false} WindowDescending(key: Key, log: seq<Object>, from: nat)
    requires from <= |log|
    ensures Descending(Window(key, log, from)) == Reversed(Window(key, log, from))
    ensures from < |log| ==> Descending(Window(key, log, from))[0].seqNo == |log|
  {
    if from < |log| {
      var rest, window := log[..|log| - 1], Window(key, log, from);
      assert window[..|window| - 1] == Window(key, rest, from);
      WindowDescending(key, rest, from);
    }
  }

  lemma {:induction false} ReversedAt(rows: seq<Row>)
    ensures |Reversed(rows)| == |rows|
    ensures forall i | 0 <= i < |rows| :: Reversed(rows)[i] == rows[|rows| - 1 - i]
  {
    if rows != [] {
      ReversedAt(rows[..|rows| - 1]);
    }
  }

  // ---- the table and its rows per object ----

  lemma OfAppend(rows: seq<Row>, row: Row, key: Key)
    ensures Of(rows + [row], key) == Of(rows, key) + if row.key == key then [row] else []
  {
    assert (rows + [row])[..|rows|] == rows;
  }

  lemma WithoutAppend(rows: seq<Row>, row: Row, key: Key, keep: int)
    ensures Without(rows + [row], key, keep) == Without(rows, key, keep) + if row.key == key && row.seqNo < keep then [] else [row]
  {
    assert (rows + [row])[..|rows|] == rows;
  }

  /** Deleting old rows of one object deletes exactly those, and nothing of any other object. */
  lemma {:induction false} OfWithout(rows: seq<Row>, pruned: Key, keep: int, key: Key)
    ensures Of(Without(rows, pruned, keep), key) == if key == pruned then Without(Of(rows, key), key, keep) else Of(rows, key)
  {
    if rows != [] {
      var rest, last := rows[..|rows| - 1], rows[|rows| - 1];
      OfWithout(rest, pruned, keep, key);
      OfAppend(Without(rest, pruned, keep), last, key);
      assert Without(rest, pruned, keep) + [] == Without(rest, pruned, keep) && Of(rest, key) + [] == Of(rest, key);
      if key == pruned && last.key == key {
        WithoutAppend(Of(rest, key), last, key, keep);
        assert Without(Of(rest, key), key, keep) + [] == Without(Of(rest, key), key, keep);
      }
    }
  }

  lemma {:induction false} FindInOf(rows: seq<Row>, key: Key, seqNo: int)
    ensures Find(rows, key, seqNo) == Find(Of(rows, key), key, seqNo)
  {
    if rows != [] {
      var rest, last := rows[..|rows| - 1], rows[|rows| - 1];
      FindInOf(rest, key, seqNo);
      assert rows == rest + [last];
      FindAppend(rest, last, key, seqNo);
      FindAppend(Of(rest, key), last, key, seqNo);
      assert Of(rest, key) + [] == Of(rest, key);
    }
  }

  lemma {:induction false} FindAppend(rows: seq<Row>, row: Row, key: Key, seqNo: int)
    ensures Find(rows + [row], key, seqNo) ==
            if Find(rows, key, seqNo).Some? then Find(rows, key, seqNo)
            else if row.key == key && row.seqNo == seqNo then Some(row.obj) else None
  {
    if rows == [] {
      assert [row][1..] == [];
    } else {
      assert (rows + [row])[1..] == rows[1..] + [row];
      FindAppend(rows[1..], row, key, seqNo);
    }
  }

  /** A window is searched by number: found exactly when the number lies in it. */
  lemma {:induction false} FindInWindow(key: Key, log: seq<Object>, from: nat, seqNo: int)
    requires from <= |log|
    ensures Find(Window(key, log, from), key, seqNo) == if from < seqNo <= |log| then Some(log[seqNo - 1]) else None
  {
    if from < |log| {
      FindInWindow(key, log[..|log| - 1], from, seqNo);
      FindAppend(Window(key, log[..|log| - 1], from), Row(key, |log|, log[|log| - 1]), key, seqNo);
    }
  }

  // ---- invariant ----

  function Min(a: nat, b: nat): nat { if a < b then a else b }

  function Live(s: State, key: Key): nat { |Of(s.rows, key)| }

  /** The rows of one object are the newest entries of its log, never none of them. */
  predicate WindowInv(s: State, key: Key) { Newest(Of(s.rows, key), key, LogOf(s, key), s.smallest) }

  /** `mine` lists the newest entries of `log`: all of them, or at least `smallest`. */
  predicate Newest(mine: seq<Row>, key: Key, log: seq<Object>, smallest: nat) {
    Min(smallest, |log|) <= |mine| <= |log| && mine == Window(key, log, |log| - |mine|)
  }

  predicate NameInv(s: State, key: Key) {
    forall i | 0 <= i < |LogOf(s, key)| :: KeyOf(key.cluster, LogOf(s, key)[i]) == key
  }

  predicate KeyInv(s: State, key: Key) { WindowInv(s, key) && NameInv(s, key) }

  ghost predicate Inv(s: State) {
    && 1 <= s.smallest <= s.maxVersions
    && (forall key :: KeyInv(s, key))
    && (forall key | key in s.objects :: KeyOf(key.cluster, s.objects[key]) == key)
  }

  lemma NextSeqContinuesLog(s: State, key: Key)
    requires Inv(s)
    ensures NextSeq(s, key) == |LogOf(s, key)| + 1
  {
    assert KeyInv(s, key);
    var log := LogOf(s, key);
    if |log| > 0 {
      WindowMax(key, log, |log| - Live(s, key));
    }
  }

  lemma NewestExtends(mine: seq<Row>, key: Key, log: seq<Object>, smallest: nat, obj: Object)
    requires Newest(mine, key, log, smallest)
    ensures Newest(mine + [Row(key, |log| + 1, obj)], key, log + [obj], smallest)
  {
    WindowExtends(key, log, |log| - |mine|, obj);
    assert |log + [obj]| - |mine + [Row(key, |log| + 1, obj)]| == |log| - |mine|;
  }

  lemma NewestPruned(mine: seq<Row>, key: Key, log: seq<Object>, smallest: nat, keep: int)
    requires Newest(mine, key, log, smallest) && 1 < keep && smallest <= |log| - keep + 1
    ensures Newest(Without(mine, key, keep), key, log, smallest)
    ensures |Without(mine, key, keep)| == Min(|mine|, |log| - keep + 1)
  {
    var from := if |log| - |mine| < keep - 1 then keep - 1 else |log| - |mine|;
    WindowWithout(key, log, |log| - |mine|, keep);
    WindowLength(key, log, from);
    var rest := Without(mine, key, keep);
    assert rest == Window(key, log, from);
    assert |log| - |rest| == from;
  }

  lemma AppendKeepsKey(s: State, key: Key, obj: Object, k: Key)
    requires Inv(s) && KeyOf(key.cluster, obj) == key
    ensures WindowInv(Append(s, key, obj), k)
    ensures k == key ==> Live(Append(s, key, obj), k) == Live(s, k) + 1
  {
    assert KeyInv(s, k);
    NextSeqContinuesLog(s, key);
    OfAppend(s.rows, Row(key, NextSeq(s, key), obj), k);
    if k == key {
      NewestExtends(Of(s.rows, k), k, LogOf(s, k), s.smallest, obj);
    }
  }

  lemma AppendKeepsInv(s: State, key: Key, obj: Object)
    requires Inv(s) && KeyOf(key.cluster, obj) == key
    ensures Inv(Append(s, key, obj))
    ensures Live(Append(s, key, obj), key) == Live(s, key) + 1
  {
    AppendKeepsKey(s, key, obj, key);
    forall k
      ensures KeyInv(Append(s, key, obj), k)
    {
      AppendKeepsKey(s, key, obj, k);
      AppendKeepsName(s, key, obj, k);
    }
  }

  lemma AppendKeepsName(s: State, key: Key, obj: Object, k: Key)
    requires Inv(s) && KeyOf(key.cluster, obj) == key
    ensures NameInv(Append(s, key, obj), k)
  {
    assert KeyInv(s, k);
    forall i | 0 <= i < |LogOf(Append(s, key, obj), k)|
      ensures KeyOf(k.cluster, LogOf(Append(s, key, obj), k)[i]) == k
    {
      if i < |LogOf(s, k)| {
        assert LogOf(Append(s, key, obj), k)[i] == LogOf(s, k)[i];
      }
    }
  }

  lemma PruneKeepsKey(s: State, key: Key, keep: int, k: Key)
    requires WindowInv(s, key) && WindowInv(s, k) && 1 < keep && s.smallest <= |LogOf(s, key)| - keep + 1
    ensures var s' := s.(rows := Without(s.rows, key, keep));
            WindowInv(s', k) && (k == key ==> Live(s', k) == Min(Live(s, k), |LogOf(s, k)| - keep + 1))
  {
    OfWithout(s.rows, key, keep, k);
    if k == key {
      NewestPruned(Of(s.rows, k), k, LogOf(s, k), s.smallest, keep);
    }
  }

  /** Pruning to the newest rows shortens only the one object's window. */
  lemma PruneKeepsInv(s: State, key: Key, keep: int)
    requires Inv(s) && 1 < keep && s.smallest <= |LogOf(s, key)| - keep + 1
    ensures var s' := s.(rows := Without(s.rows, key, keep));
            Inv(s') && Live(s', key) == Min(Live(s, key), |LogOf(s, key)| - keep + 1)
  {
    var s' := s.(rows := Without(s.rows, key, keep));
    assert KeyInv(s, key);
    PruneKeepsKey(s, key, keep, key);
    forall k
      ensures KeyInv(s', k)
    {
      assert KeyInv(s, k);
      PruneKeepsKey(s, key, keep, k);
    }
  }

  lemma BeforeKeepsInv(s: State, key: Key, getOk: bool, commitOk: bool)
    requires Inv(s)
    ensures Inv(Before(s, key, getOk, commitOk))
  {
    if key in s.objects {
      AppendKeepsInv(s, key, s.objects[key]);
    }
  }

  /** After a snapshot with pruning, an object has as many rows as the limit and its history allow. */
  lemma AfterKeepsInv(s: State, cluster: string, obj: Object, pruneOk: bool, commitOk: bool)
    requires Inv(s)
    ensures Inv(After(s, cluster, obj, pruneOk, commitOk))
    ensures var s' := After(s, cluster, obj, pruneOk, commitOk); var key := KeyOf(cluster, obj);
            cluster != "" && ParsesAsGroupVersion(obj.apiVersion) && commitOk ==>
              && s'.log == s.log[key := LogOf(s, key) + [obj]]
              && (pruneOk ==> Live(s', key) == Min(Live(s, key) + 1, s.maxVersions))
  {
    var key := KeyOf(cluster, obj);
    assert KeyInv(s, key);
    NextSeqContinuesLog(s, key);
    AppendKeepsInv(s, key, obj);
    var s1, keep := Append(s, key, obj), NextSeq(s, key) - s.maxVersions + 1;
    if keep > 1 {
      PruneKeepsInv(s1, key, keep);
    }
  }

  lemma ApplyKeepsInv(s: State, cluster: string, obj: Object)
    requires Inv(s)
    ensures Inv(Apply(s, cluster, obj))
  {
    forall key
      ensures KeyInv(Apply(s, cluster, obj), key)
    {
      assert KeyInv(s, key);
    }
  }

  lemma RollbackKeepsInv(s: State, key: Key, seqNo: int, c: Calls)
    requires Inv(s)
    ensures Inv(Rollback(s, key, seqNo, c))
  {
    var found := Find(s.rows, key, seqNo);
    if Rollback(s, key, seqNo, c) != s && found.Some? {
      BeforeKeepsInv(s, key, true, true);
      var s1 := Before(s, key, true, true);
      ApplyKeepsInv(s1, key.cluster, found.value);
      AfterKeepsInv(Apply(s1, key.cluster, found.value), key.cluster, found.value, c.pruneOk, c.afterOk);
    }
  }

  lemma StepKeepsInv(s: State, e: Event)
    requires Inv(s)
    ensures Inv(Next(s, e))
  {
    match e
    case SnapshotBefore(ref, getOk, commitOk) => BeforeKeepsInv(s, At(ref), getOk, commitOk);
    case SnapshotAfter(cluster, obj, pruneOk, commitOk) => AfterKeepsInv(s, cluster, obj, pruneOk, commitOk);
    case RollBack(ref, seqNo, calls) => RollbackKeepsInv(s, At(ref), seqNo, calls);
    case Change(cluster, obj) => ApplyKeepsInv(s, cluster, obj);
    case SetMaxVersions(_) =>
      forall key ensures KeyInv(Next(s, e), key) { assert KeyInv(s, key); }
    case Remove(_) =>
      forall key ensures KeyInv(Next(s, e), key) { assert KeyInv(s, key); }
  }

  lemma {:induction false} RunKeepsInv(events: seq<Event>)
    ensures Inv(Run(events))
  {
    if events == [] {
      forall key ensures KeyInv(INITIAL, key) { }
    } else {
      RunKeepsInv(events[..|events| - 1]);
      StepKeepsInv(Run(events[..|events| - 1]), events[|events| - 1]);
    }
  }

  // ---- main results ----

  lemma NewestAt(mine: seq<Row>, key: Key, log: seq<Object>, smallest: nat, i: nat)
    requires Newest(mine, key, log, smallest) && i < |mine|
    ensures mine[i] == Row(key, |log| - |mine| + i + 1, log[|log| - |mine| + i])
  {
    WindowAt(key, log, |log| - |mine|);
  }

  lemma NewestListed(mine: seq<Row>, key: Key, log: seq<Object>, smallest: nat, limit: nat, i: nat)
    requires Newest(mine, key, log, smallest)
    ensures var list := First(Descending(mine), limit);
            && |list| == Min(limit, |mine|)
            && (i < |list| ==> list[i] == Row(key, |log| - i, log[|log| - 1 - i]))
  {
    NewestReversed(mine, key, log, smallest);
    ReversedAt(mine);
    if i < |mine| { NewestAt(mine, key, log, smallest, |mine| - 1 - i); }
  }

  lemma NewestReversed(mine: seq<Row>, key: Key, log: seq<Object>, smallest: nat)
    requires Newest(mine, key, log, smallest)
    ensures Descending(mine) == Reversed(mine)
  {
    WindowDescending(key, log, |log| - |mine|);
  }

  /** The rows of an object are numbered without a gap up to the newest entry, and hold what the log holds. */
  lemma LiveNumbersFormAnInterval(events: seq<Event>, key: Key, i: nat)
    requires i < Live(Run(events), key)
    ensures var s := Run(events);
            var oldest := |LogOf(s, key)| - Live(s, key);
            oldest >= 0 && Of(s.rows, key)[i] == Row(key, oldest + i + 1, LogOf(s, key)[oldest + i])
  {
    RunKeepsInv(events);
    var s := Run(events);
    assert KeyInv(s, key);
    NewestAt(Of(s.rows, key), key, LogOf(s, key), s.smallest, i);
  }

  /** The listing is the newest part of the log, newest first, cut to the limit. */
  lemma ListIsNewestOfLog(events: seq<Event>, key: Key)
    ensures ListsNewest(Run(events), key)
  {
    RunKeepsInv(events);
    ListInState(Run(events), key);
  }

  predicate ListsNewest(s: State, key: Key) {
    var log, list := LogOf(s, key), ListVersions(s, key);
    && |list| == Min(s.maxVersions, Live(s, key)) <= |log|
    && (s.smallest == s.maxVersions ==> |list| == Min(s.maxVersions, |log|))
    && forall i | 0 <= i < |list| :: list[i] == Row(key, |log| - i, log[|log| - 1 - i])
  }

  lemma ListInState(s: State, key: Key)
    requires Inv(s)
    ensures ListsNewest(s, key)
  {
    assert KeyInv(s, key);
    var log, list := LogOf(s, key), ListVersions(s, key);
    NewestListed(Of(s.rows, key), key, log, s.smallest, s.maxVersions, 0);
    forall i | 0 <= i < |list|
      ensures list[i] == Row(key, |log| - i, log[|log| - 1 - i])
    {
      NewestListed(Of(s.rows, key), key, log, s.smallest, s.maxVersions, i);
    }
  }

  /** Looking a version up gives the log's entry of that number while its row is kept, and nothing otherwise. */
  lemma GetVersionIsLogEntry(events: seq<Event>, key: Key, seqNo: int)
    ensures IsLogEntry(Run(events), key, seqNo)
  {
    RunKeepsInv(events);
    FindIsLogEntry(Run(events), key, seqNo);
  }

  predicate IsLogEntry(s: State, key: Key, seqNo: int) {
    var log := LogOf(s, key);
    && Live(s, key) <= |log|
    && Find(s.rows, key, seqNo) == if |log| - Live(s, key) < seqNo <= |log| then Some(log[seqNo - 1]) else None
  }

  lemma FindIsLogEntry(s: State, key: Key, seqNo: int)
    requires Inv(s)
    ensures IsLogEntry(s, key, seqNo)
  {
    assert KeyInv(s, key);
    FindInOf(s.rows, key, seqNo);
    FindInWindow(key, LogOf(s, key), |LogOf(s, key)| - Live(s, key), seqNo);
  }

  /** While the limit has not been raised since the first snapshot, pruning leaves exactly what it allows. */
  lemma AfterLeavesTheNewest(events: seq<Event>, cluster: string, obj: Object)
    requires cluster != "" && ParsesAsGroupVersion(obj.apiVersion)
    requires Run(events).smallest == Run(events).maxVersions
    ensures var s' := After(Run(events), cluster, obj, true, true); var key := KeyOf(cluster, obj);
            Live(s', key) == Min(s'.maxVersions, |LogOf(s', key)|)
  {
    RunKeepsInv(events);
    var s, key := Run(events), KeyOf(cluster, obj);
    assert KeyInv(s, key);
    AfterKeepsInv(s, cluster, obj, true, true);
  }

  predicate Extends(s: State, s': State, key: Key, n: nat) {
    LogOf(s, key) <= LogOf(s', key) && |LogOf(s', key)| <= |LogOf(s, key)| + n
  }

  lemma AfterExtendsLog(s: State, cluster: string, obj: Object, pruneOk: bool, commitOk: bool, key: Key)
    ensures Extends(s, After(s, cluster, obj, pruneOk, commitOk), key, 1)
  {
    assert Extends(s, Append(s, KeyOf(cluster, obj), obj), key, 1);
  }

  lemma RollbackExtendsLog(s: State, at: Key, seqNo: int, c: Calls, key: Key)
    ensures Extends(s, Rollback(s, at, seqNo, c), key, 2)
  {
    var found := Find(s.rows, at, seqNo);
    var s1 := Before(s, at, true, true);
    assert Extends(s, s1, key, 1);
    if found.Some? {
      AfterExtendsLog(Apply(s1, at.cluster, found.value), at.cluster, found.value, c.pruneOk, c.afterOk, key);
    }
  }

  /** Every operation only adds to the end of a log, at most two entries. */
  lemma StepExtendsLog(s: State, e: Event, key: Key)
    ensures Extends(s, Next(s, e), key, 2)
  {
    match e
    case SnapshotAfter(cluster, obj, pruneOk, commitOk) => AfterExtendsLog(s, cluster, obj, pruneOk, commitOk, key);
    case RollBack(ref, seqNo, calls) => RollbackExtendsLog(s, At(ref), seqNo, calls, key);
    case _ =>
  }

  /** So a number, once given, keeps its content for ever: it is never reused, and only its row can go. */
  lemma {:induction false} NumbersAreNeverReused(earlier: seq<Event>, later: seq<Event>, key: Key)
    ensures LogOf(Run(earlier), key) <= LogOf(Run(earlier + later), key)
    ensures NextSeq(Run(earlier), key) <= NextSeq(Run(earlier + later), key)
  {
    RunKeepsInv(earlier);
    RunKeepsInv(earlier + later);
    NextSeqContinuesLog(Run(earlier), key);
    NextSeqContinuesLog(Run(earlier + later), key);
    if later == [] {
      assert earlier + later == earlier;
    } else {
      var all := earlier + later;
      assert all[..|all| - 1] == earlier + later[..|later| - 1];
      NumbersAreNeverReused(earlier, later[..|later| - 1], key);
      StepExtendsLog(Run(all[..|all| - 1]), all[|all| - 1], key);
    }
  }

  // ---- one object, one history ----

  /** What makes two names the same object: everything but the namespace, and that too unless the kind has none. */
  predicate SameObject(a: Ref, b: Ref) {
    && a.cluster == b.cluster && a.apiVersion == b.apiVersion && a.kind == b.kind && a.name == b.name
    && (a.kind in CLUSTER_SCOPED || a.ns == b.ns)
  }

  /** Two names share a history exactly when they are the same object. */
  lemma KeysAreExact(a: Ref, b: Ref)
    ensures At(a) == At(b) <==> SameObject(a, b)
  {
  }

  /** The object that an operation or a change of the cluster is about. */
  function Subject(e: Event): Option<Ref> {
    match e
    case SnapshotBefore(ref, _, _) => Some(ref)
    case SnapshotAfter(cluster, obj, _, _) => Some(RefOf(cluster, obj))
    case RollBack(ref, _, _) => Some(ref)
    case SetMaxVersions(_) => None
    case Change(cluster, obj) => Some(RefOf(cluster, obj))
    case Remove(ref) => Some(ref)
  }

  predicate Spares(e: Event, r: Ref) { Subject(e).Some? ==> !SameObject(Subject(e).value, r) }

  /** Nothing that is kept under the key has changed: its rows, its log, its object. */
  predicate Undisturbed(s: State, s': State, key: Key) {
    && Of(s'.rows, key) == Of(s.rows, key) && LogOf(s', key) == LogOf(s, key)
    && (key in s'.objects <==> key in s.objects) && (key in s.objects ==> s'.objects[key] == s.objects[key])
  }

  lemma AfterSpares(s: State, cluster: string, obj: Object, pruneOk: bool, commitOk: bool, key: Key)
    requires key != KeyOf(cluster, obj)
    ensures Undisturbed(s, After(s, cluster, obj, pruneOk, commitOk), key)
  {
    var own := KeyOf(cluster, obj);
    var s1 := Append(s, own, obj);
    OfAppend(s.rows, Row(own, NextSeq(s, own), obj), key);
    assert Of(s.rows, key) + [] == Of(s.rows, key);
    OfWithout(s1.rows, own, NextSeq(s, own) - s.maxVersions + 1, key);
  }

  lemma BeforeSpares(s: State, own: Key, getOk: bool, commitOk: bool, key: Key)
    requires key != own
    ensures Undisturbed(s, Before(s, own, getOk, commitOk), key)
  {
    if own in s.objects {
      OfAppend(s.rows, Row(own, NextSeq(s, own), s.objects[own]), key);
      assert Of(s.rows, key) + [] == Of(s.rows, key);
    }
  }

  lemma RollbackSpares(s: State, own: Key, seqNo: int, c: Calls, key: Key)
    requires Inv(s) && key != own
    ensures Undisturbed(s, Rollback(s, own, seqNo, c), key)
  {
    var found := Find(s.rows, own, seqNo);
    if found.Some? {
      FoundIsNamed(s, own, seqNo);
      BeforeSpares(s, own, true, true, key);
      var s1 := Before(s, own, true, true);
      AfterSpares(Apply(s1, own.cluster, found.value), own.cluster, found.value, c.pruneOk, c.afterOk, key);
    }
  }

  lemma StepSpares(s: State, e: Event, r: Ref)
    requires Inv(s) && Spares(e, r)
    ensures Undisturbed(s, Next(s, e), At(r))
  {
    if Subject(e).Some? { KeysAreExact(Subject(e).value, r); }
    match e
    case SnapshotBefore(ref, getOk, commitOk) => BeforeSpares(s, At(ref), getOk, commitOk, At(r));
    case SnapshotAfter(cluster, obj, pruneOk, commitOk) => AfterSpares(s, cluster, obj, pruneOk, commitOk, At(r));
    case RollBack(ref, seqNo, calls) => RollbackSpares(s, At(ref), seqNo, calls, At(r));
    case _ =>
  }

  /**
   Over any stretch of any run in which no step is about this object, its rows, log and object stay as they were:
   objects of the same name in other namespaces, however often they are saved, pruned and rolled back, share nothing.
   */
  lemma {:induction false} HistoriesStayApart(earlier: seq<Event>, later: seq<Event>, r: Ref)
    requires forall e | e in later :: Spares(e, r)
    ensures var s, s' := Run(earlier), Run(earlier + later);
            && Undisturbed(s, s', At(r))
            && NextSeq(s', At(r)) == NextSeq(s, At(r))
            && (forall seqNo :: Find(s'.rows, At(r), seqNo) == Find(s.rows, At(r), seqNo))
            && (s'.maxVersions == s.maxVersions ==> ListVersions(s', At(r)) == ListVersions(s, At(r)))
  {
    if later == [] {
      assert earlier + later == earlier;
    } else {
      var all, before := earlier + later, earlier + later[..|later| - 1];
      assert all[..|all| - 1] == before && all[|all| - 1] == later[|later| - 1];
      HistoriesStayApart(earlier, later[..|later| - 1], r);
      RunKeepsInv(before);
      StepSpares(Run(before), all[|all| - 1], r);
    }
    forall seqNo: int
      ensures Find(Run(earlier + later).rows, At(r), seqNo) == Find(Run(earlier).rows, At(r), seqNo)
    {
      FindInOf(Run(earlier).rows, At(r), seqNo);
      FindInOf(Run(earlier + later).rows, At(r), seqNo);
    }
  }

  const ALL_OK := Calls(true, true, true, true, true)

  lemma FoundIsNamed(s: State, key: Key, seqNo: int)
    requires Inv(s) && Find(s.rows, key, seqNo).Some?
    ensures KeyOf(key.cluster, Find(s.rows, key, seqNo).value) == key
  {
    FindIsLogEntry(s, key, seqNo);
    assert KeyInv(s, key);
  }

  /** The last two steps of a rollback whose calls succeed. */
  lemma ApplyAppends(s: State, key: Key, obj: Object)
    requires Inv(s) && Acceptable(key) && KeyOf(key.cluster, obj) == key
    ensures var s' := After(Apply(s, key.cluster, obj), key.cluster, obj, true, true);
            && Inv(s')
            && s'.objects == s.objects[key := obj] && s'.maxVersions == s.maxVersions
            && s'.log == s.log[key := LogOf(s, key) + [obj]]
            && Live(s', key) == Min(Live(s, key) + 1, s.maxVersions)
  {
    ApplyKeepsInv(s, key.cluster, obj);
    AfterKeepsInv(Apply(s, key.cluster, obj), key.cluster, obj, true, true);
  }

  function Present(s: State, key: Key): seq<Object> { if key in s.objects then [s.objects[key]] else [] }

  lemma BeforeAppends(s: State, key: Key)
    requires Inv(s) && Acceptable(key)
    ensures var s1 := Before(s, key, true, true);
            && Inv(s1) && s1.objects == s.objects && s1.maxVersions == s.maxVersions
            && LogOf(s1, key) == LogOf(s, key) + Present(s, key)
            && (forall k | k != key :: LogOf(s1, k) == LogOf(s, k))
            && Live(s1, key) == Live(s, key) + |Present(s, key)|
  {
    if key in s.objects { AppendKeepsInv(s, key, s.objects[key]); }
  }

  /** A rollback of an existing object adds exactly its present state and the restored one, to its own log only. */
  lemma RollbackAppendsTwo(s: State, key: Key, seqNo: int)
    requires Inv(s) && Acceptable(key) && Find(s.rows, key, seqNo).Some?
    ensures var s' := Rollback(s, key, seqNo, ALL_OK);
            var restored := Find(s.rows, key, seqNo).value;
            && Inv(s')
            && s'.objects == s.objects[key := restored] && s'.maxVersions == s.maxVersions
            && LogOf(s', key) == LogOf(s, key) + Present(s, key) + [restored]
            && (forall k | k != key :: LogOf(s', k) == LogOf(s, k))
            && Live(s', key) == Min(Live(s, key) + |Present(s, key)| + 1, s.maxVersions)
  {
    var obj := Find(s.rows, key, seqNo).value;
    FoundIsNamed(s, key, seqNo);
    BeforeAppends(s, key);
    ApplyAppends(Before(s, key, true, true), key, obj);
    RollbackIsThreeSteps(s, key, seqNo);
  }

  lemma RollbackIsThreeSteps(s: State, key: Key, seqNo: int)
    requires Acceptable(key) && Find(s.rows, key, seqNo).Some?
    ensures var obj := Find(s.rows, key, seqNo).value;
            Rollback(s, key, seqNo, ALL_OK) == After(Apply(Before(s, key, true, true), key.cluster, obj), key.cluster, obj, true, true)
  {
  }

  /** The number under which a rollback saves the state it replaces. */
  function SavedSeq(s: State, key: Key): nat { |LogOf(s, key)| + 1 }

  /** The replaced state can be looked up afterwards exactly when at least two versions are kept. */
  lemma SavedStateSurvives(s: State, key: Key, seqNo: int)
    requires Inv(s) && Acceptable(key) && key in s.objects && Find(s.rows, key, seqNo).Some?
    ensures var s' := Rollback(s, key, seqNo, ALL_OK);
            Find(s'.rows, key, SavedSeq(s, key)) == if s.maxVersions >= 2 then Some(s.objects[key]) else None
  {
    var s' := Rollback(s, key, seqNo, ALL_OK);
    FindIsLogEntry(s, key, seqNo);
    assert KeyInv(s, key);
    RollbackAppendsTwo(s, key, seqNo);
    FindIsLogEntry(s', key, SavedSeq(s, key));
    assert LogOf(s', key)[|LogOf(s, key)|] == s.objects[key];
  }

  /** With at least two versions kept, rolling back to the saved state undoes a rollback of the object. */
  lemma SecondRollbackRestores(events: seq<Event>, key: Key, seqNo: int)
    requires var s := Run(events);
             Acceptable(key) && key in s.objects && Find(s.rows, key, seqNo).Some? && s.maxVersions >= 2
    ensures var s := Run(events);
            Rollback(Rollback(s, key, seqNo, ALL_OK), key, SavedSeq(s, key), ALL_OK).objects == s.objects
  {
    RunKeepsInv(events);
    SecondRollback(Run(events), key, seqNo);
  }

  lemma SecondRollback(s: State, key: Key, seqNo: int)
    requires Inv(s) && Acceptable(key) && key in s.objects && Find(s.rows, key, seqNo).Some? && s.maxVersions >= 2
    ensures Rollback(Rollback(s, key, seqNo, ALL_OK), key, SavedSeq(s, key), ALL_OK).objects == s.objects
  {
    RollbackAppendsTwo(s, key, seqNo);
    SavedStateSurvives(s, key, seqNo);
    RollbackRestores(Rollback(s, key, seqNo, ALL_OK), key, SavedSeq(s, key), s.objects);
  }

  lemma RollbackRestores(s: State, key: Key, seqNo: int, objects: map<Key, Object>)
    requires Inv(s) && Acceptable(key) && key in objects && Find(s.rows, key, seqNo) == Some(objects[key])
    requires s.objects.Keys == objects.Keys && forall k | k in objects && k != key :: s.objects[k] == objects[k]
    ensures Rollback(s, key, seqNo, ALL_OK).objects == objects
  {
    RollbackObjects(s, key, seqNo);
    PutBack(s.objects, objects, key);
  }

  lemma PutBack(changed: map<Key, Object>, objects: map<Key, Object>, key: Key)
    requires key in objects && changed.Keys == objects.Keys && forall k | k in objects && k != key :: changed[k] == objects[k]
    ensures changed[key := objects[key]] == objects
  {
  }

  lemma RollbackObjects(s: State, key: Key, seqNo: int)
    requires Inv(s) && Acceptable(key) && Find(s.rows, key, seqNo).Some?
    ensures Rollback(s, key, seqNo, ALL_OK).objects == s.objects[key := Find(s.rows, key, seqNo).value]
  {
    RollbackAppendsTwo(s, key, seqNo);
  }

  lemma RollbackOfMissing(s: State, key: Key, seqNo: int)
    requires Inv(s) && Acceptable(key) && key !in s.objects && Find(s.rows, key, seqNo).Some?
    ensures var s', obj := Rollback(s, key, seqNo, ALL_OK), Find(s.rows, key, seqNo).value;
            s'.objects == s.objects[key := obj] && LogOf(s', key) == LogOf(s, key) + [obj]
  {
    RollbackAppendsTwo(s, key, seqNo);
    assert LogOf(s, key) + [] == LogOf(s, key);
  }

  function Removed(s: State, r: Ref): State { Next(s, Remove(r)) }

  lemma RemoveOnlyRemoves(s: State, r: Ref)
    requires Inv(s)
    ensures var s' := Removed(s, r);
            Inv(s') && s'.rows == s.rows && s'.log == s.log && s'.objects == s.objects - {At(r)}
  {
    StepKeepsInv(s, Remove(r));
  }

  /** A removed object is brought back by a rollback, which then appends the restored state only. */
  lemma RollbackBringsBack(events: seq<Event>, r: Ref, seqNo: int)
    requires Acceptable(At(r)) && Find(Run(events).rows, At(r), seqNo).Some?
    ensures var s, obj := Run(events), Find(Run(events).rows, At(r), seqNo).value;
            var s' := Rollback(Removed(s, r), At(r), seqNo, ALL_OK);
            && At(r) !in Removed(s, r).objects
            && s'.objects == Removed(s, r).objects[At(r) := obj] && LogOf(s', At(r)) == LogOf(s, At(r)) + [obj]
  {
    RunKeepsInv(events);
    RemoveOnlyRemoves(Run(events), r);
    RollbackOfMissing(Removed(Run(events), r), At(r), seqNo);
  }
}
