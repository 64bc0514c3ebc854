/**
 The version manager as an object (backend/internal/version/manager.go), over the snapshot table and the
 cluster's objects. Its methods are the operations of `VersionHistory`; the ghost log is never read.
 */
module VersionManager {
  import opened Basics
  import opened VersionHistory

  datatype Error = InvalidArgument | NotFound | GetFailed | DatabaseError | ApplyFailed

  class Manager {
    var rows: seq<Row>
    var maxVersions: nat
    var objects: map<Key, Object>
    ghost var log: map<Key, seq<Object>>
    ghost var smallest: nat

    ghost function View(): State
      reads this
    {
      State(rows, maxVersions, objects, log, smallest)
    }

    ghost predicate Valid()
      reads this
    {
      Inv(View())
    }

    constructor ()
      ensures View() == INITIAL && Valid()
    {
      rows, maxVersions, objects, log, smallest := [], DEFAULT_MAX_VERSIONS, map[], map[], DEFAULT_MAX_VERSIONS;
      new;
      RunKeepsInv([]);
    }

    method SetMaxVersions(n: int)
      requires Valid()
      modifies this
      ensures Valid() && View() == Next(old(View()), Event.SetMaxVersions(n))
      ensures maxVersions == if n > 0 then n else old(maxVersions)
    {
      StepKeepsInv(View(), Event.SetMaxVersions(n));
      if n > 0 {
        maxVersions := n;
        smallest := if log == map[] || n < smallest then n else smallest;
      }
    }

    /** One more than the largest number, which is one more than the whole history, pruned rows included. */
    method NextVersionSeq(key: Key) returns (next: nat)
      requires Valid()
      ensures next == NextSeq(View(), key) && next == |LogOf(View(), key)| + 1
    {
      NextSeqContinuesLog(View(), key);
      next := MaxSeq(Of(rows, key)) + 1;
    }

    /** The INSERT; the new row gets the next number. */
    method CreateSnapshot(key: Key, seqNo: nat, obj: Object)
      requires Valid() && KeyOf(key.cluster, obj) == key && seqNo == NextSeq(View(), key)
      modifies this`rows, this`log
      ensures Valid() && View() == Append(old(View()), key, obj)
    {
      AppendKeepsInv(View(), key, obj);
      rows := rows + [Row(key, seqNo, obj)];
      log := log[key := LogOf(old(View()), key) + [obj]];
    }

    method SnapshotBefore(r: Ref, getOk: bool, commitOk: bool) returns (seqNo: nat, err: Option<Error>)
      requires Valid()
      modifies this`rows, this`log
      ensures Valid() && View() == Before(old(View()), At(r), getOk, commitOk)
      ensures err.None? <==> Acceptable(At(r)) && getOk && (At(r) in objects ==> commitOk)
      ensures err.Some? || seqNo == 0 ==> View() == old(View())
      ensures err.None? && seqNo > 0 ==>
                At(r) in objects && LogOf(View(), At(r)) == LogOf(old(View()), At(r)) + [objects[At(r)]] && seqNo == |LogOf(View(), At(r))|
      ensures err.None? && seqNo == 0 ==> At(r) !in objects
      ensures forall other | !SameObject(r, other) :: Undisturbed(old(View()), View(), At(other))
    {
      var key := At(r);
      ghost var s := View();
      forall other | !SameObject(r, other) ensures Undisturbed(s, Before(s, key, getOk, commitOk), At(other)) {
        KeysAreExact(r, other);
        BeforeSpares(s, key, getOk, commitOk, At(other));
      }
      seqNo, err := 0, None;
      if !Acceptable(key) { return 0, Some(InvalidArgument); }
      if !getOk { return 0, Some(GetFailed); }
      if key !in objects { return; }
      if !commitOk { return 0, Some(DatabaseError); }
      seqNo := NextVersionSeq(key);
      CreateSnapshot(key, seqNo, objects[key]);
    }

    method SnapshotAfter(obj: Object, cluster: string, pruneOk: bool, commitOk: bool) returns (err: Option<Error>)
      requires Valid()
      modifies this`rows, this`log
      ensures Valid() && View() == After(old(View()), cluster, obj, pruneOk, commitOk)
      ensures err.None? <==> cluster != "" && ParsesAsGroupVersion(obj.apiVersion) && commitOk
      ensures err.None? ==> LogOf(View(), KeyOf(cluster, obj)) == LogOf(old(View()), KeyOf(cluster, obj)) + [obj]
      ensures err.None? && pruneOk ==>
                Live(View(), KeyOf(cluster, obj)) == Min(Live(old(View()), KeyOf(cluster, obj)) + 1, maxVersions)
      ensures err.Some? ==> View() == old(View())
      ensures forall other | !SameObject(RefOf(cluster, obj), other) :: Undisturbed(old(View()), View(), At(other))
    {
      ghost var s := View();
      AfterKeepsInv(s, cluster, obj, pruneOk, commitOk);
      forall other | !SameObject(RefOf(cluster, obj), other)
        ensures Undisturbed(s, After(s, cluster, obj, pruneOk, commitOk), At(other))
      {
        KeysAreExact(RefOf(cluster, obj), other);
        AfterSpares(s, cluster, obj, pruneOk, commitOk, At(other));
      }
      if cluster == "" || !ParsesAsGroupVersion(obj.apiVersion) { return Some(InvalidArgument); }
      if !commitOk { return Some(DatabaseError); }
      var key := KeyOf(cluster, obj);
      var seqNo := NextVersionSeq(key);
      CreateSnapshot(key, seqNo, obj);
      var keepVersion := seqNo - maxVersions + 1;
      if keepVersion > 1 && pruneOk {
        rows := Without(rows, key, keepVersion);
      }
      err := None;
    }

    method ListVersions(r: Ref) returns (items: seq<Row>, err: Option<Error>)
      requires Valid()
      ensures err.None? <==> Acceptable(At(r))
      ensures err.None? ==> items == VersionHistory.ListVersions(View(), At(r)) && ListsNewest(View(), At(r))
      ensures |items| <= maxVersions && forall i | 0 <= i < |items| :: items[i].key == At(r) && items[i].seqNo == |LogOf(View(), At(r))| - i
    {
      items, err := [], None;
      var key := At(r);
      if !Acceptable(key) { return [], Some(InvalidArgument); }
      ListInState(View(), key);
      items := First(Descending(Of(rows, key)), maxVersions);
    }

    method GetVersion(r: Ref, seqNo: int) returns (obj: Option<Object>, err: Option<Error>)
      requires Valid()
      ensures err == if !Acceptable(At(r)) then Some(InvalidArgument) else if Find(rows, At(r), seqNo).None? then Some(NotFound) else None
      ensures obj.Some? <==> err.None?
      ensures obj.Some? ==> obj == Find(rows, At(r), seqNo) && SameObject(RefOf(r.cluster, obj.value), r)
      ensures IsLogEntry(View(), At(r), seqNo)
    {
      obj, err := None, None;
      var key := At(r);
      FindIsLogEntry(View(), key, seqNo);
      if !Acceptable(key) { return None, Some(InvalidArgument); }
      obj := Find(rows, key, seqNo);
      if obj.None? { return None, Some(NotFound); }
      FoundIsNamed(View(), key, seqNo);
      KeysAreExact(RefOf(r.cluster, obj.value), r);
    }

    method Rollback(r: Ref, seqNo: int, c: Calls) returns (patched: Option<Object>, err: Option<Error>)
      requires Valid()
      modifies this
      ensures Valid() && View() == VersionHistory.Rollback(old(View()), At(r), seqNo, c)
      ensures patched.Some? <==> Acceptable(At(r)) && Find(old(rows), At(r), seqNo).Some?
                                 && c.getOk && (At(r) in old(objects) ==> c.beforeOk) && c.applyOk
      ensures patched.Some? ==> err.None? && patched == Find(old(rows), At(r), seqNo) && objects == old(objects)[At(r) := patched.value]
      ensures patched.None? ==> err.Some? && objects == old(objects)
      ensures forall other | !SameObject(r, other) :: Undisturbed(old(View()), View(), At(other))
    {
      var key := At(r);
      ghost var s := View();
      RollbackKeepsInv(s, key, seqNo, c);
      forall other | !SameObject(r, other) ensures Undisturbed(s, VersionHistory.Rollback(s, key, seqNo, c), At(other)) {
        KeysAreExact(r, other);
        RollbackSpares(s, key, seqNo, c, At(other));
      }
      patched, err := RollbackBody(r, seqNo, c);
    }

    /** The four calls of a rollback. */
    method RollbackBody(r: Ref, seqNo: int, c: Calls) returns (patched: Option<Object>, err: Option<Error>)
      requires Valid()
      modifies this
      ensures View() == VersionHistory.Rollback(old(View()), At(r), seqNo, c)
      ensures patched.Some? <==> Acceptable(At(r)) && Find(old(rows), At(r), seqNo).Some?
                                 && c.getOk && (At(r) in old(objects) ==> c.beforeOk) && c.applyOk
      ensures patched.Some? ==> err.None? && patched == Find(old(rows), At(r), seqNo) && objects == old(objects)[At(r) := patched.value]
      ensures patched.None? ==> err.Some? && objects == old(objects)
    {
      patched, err := None, None;
      var snap;
      snap, err := GetVersion(r, seqNo);
      if snap.None? { return None, err; }
      KeysAreExact(RefOf(r.cluster, snap.value), r);
      var _, before := SnapshotBefore(r, c.getOk, c.beforeOk);
      if before.Some? { return None, before; }
      assert View() == Before(old(View()), At(r), true, true);
      if !c.applyOk { return None, Some(ApplyFailed); }
      ghost var s1 := View();
      ApplyKeepsInv(View(), r.cluster, snap.value);
      objects := objects[KeyOf(r.cluster, snap.value) := snap.value];
      assert View() == Apply(s1, r.cluster, snap.value);
      var _ := SnapshotAfter(snap.value, r.cluster, c.pruneOk, c.afterOk);
      patched, err := snap, None;
    }
  }
}
