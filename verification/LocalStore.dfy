/**
 The local storage plugin as a keyed store of files (backend/internal/plugins/storage/local.go)
 and the deletion of a backup's objects (`deleteStorageObjects`, backend/internal/backup/manager.go).
 A file is named by the segments of its absolute path.
 */
module LocalStore {
  import opened Basics
  import opened Text
  import opened Paths
  import opened ObjectKeys

  type FilePath = seq<string>

  /** The key under which the listing reports a file below the base. */
  function RelKey(base: FilePath, f: FilePath): string
    requires base < f
  {
    PrintRel(f[|base|..])
  }

  /** The files whose key starts with the prefix. */
  function Matching(files: set<FilePath>, base: FilePath, prefix: string): set<FilePath> {
    set f | f in files && base < f && prefix <= RelKey(base, f)
  }

  /** A listed key leads back to the file it was listed for. */
  lemma ListedKeyLeadsBack(cwd: string, baseDir: string, f: FilePath)
    requires IsAbs(cwd) && AllPlain(f) && AbsSegments(cwd, baseDir) < f
    ensures Segments(LocalPath(cwd, baseDir, RelKey(AbsSegments(cwd, baseDir), f))) == f
  {
    var base := AbsSegments(cwd, baseDir);
    var rel := f[|base|..];
    assert f == base + rel && AllPlain(rel);
    assert forall i | 0 <= i < |rel| :: rel[i] in rel;
    SegmentsOfRel(rel);
    LocalPathIsExact(cwd, baseDir, PrintRel(rel));
    WalkPlain(true, base, rel);
    SegmentsOfAbs(f);
  }

  /** The file that local `Download` and `Delete` address. */
  lemma LocalFile(cwd: string, baseDir: string, key: string)
    requires IsAbs(cwd)
    ensures Segments(LocalPath(cwd, baseDir, key)) == if IsAbs(key) then Segments(key) else Target(cwd, baseDir, key)
  {
    LocalPathIsExact(cwd, baseDir, key);
    KeySegments(key);
    TargetIsPlain(cwd, baseDir, key);
    SegmentsOfAbs(if IsAbs(key) then Segments(key) else Target(cwd, baseDir, key));
  }

  class LocalStorage {
    const cwd: string
    const baseDir: string
    var files: map<FilePath, string>

    constructor (cwd: string, baseDir: string)
      requires IsAbs(cwd)
      ensures Valid() && files == map[] && this.cwd == cwd && this.baseDir == baseDir
    {
      this.cwd, this.baseDir, files := cwd, baseDir, map[];
    }

    ghost predicate Valid()
      reads this
    {
      IsAbs(cwd) && forall f | f in files :: AllPlain(f)
    }

    function Base(): FilePath {
      AbsSegments(cwd, baseDir)
    }

    /** Which keys `Upload` takes: all but "..", provided that the names it climbs over come back. */
    predicate Accepts(key: string) {
      Segments(key) != [".."] && ComesBack(Base(), Segments(key))
    }

    /** The stored path, as the source keeps it in the task row; None when the key is rejected. */
    method Upload(key: string, data: string) returns (storagePath: Option<string>)
      requires Valid()
      modifies this
      ensures Valid()
      ensures storagePath == if Accepts(key) then Some(key) else None
      ensures files == if Accepts(key) then old(files)[Target(cwd, baseDir, key) := data] else old(files)
      ensures Accepts(key) ==> Base() <= Target(cwd, baseDir, key)
    {
      AcceptedKeys(cwd, baseDir, key);
      SafeJoinIsExact(cwd, baseDir, key);
      TargetIsPlain(cwd, baseDir, key);
      SegmentsOfAbs(Target(cwd, baseDir, key));
      match SafeJoin(cwd, baseDir, key) {
        case Rejected => return None;
        case OutOfBase => return None;
        case Joined(path) =>
          files := files[Segments(path) := data];
          return Some(key);
      }
    }

    /** A relative key is read below the base, an absolute one where it says. */
    method Download(key: string) returns (data: Option<string>)
      requires Valid()
      ensures var f := if IsAbs(key) then Segments(key) else Target(cwd, baseDir, key);
              data == if f in files then Some(files[f]) else None
    {
      LocalFile(cwd, baseDir, key);
      var f := Segments(LocalPath(cwd, baseDir, key));
      data := if f in files then Some(files[f]) else None;
    }

    /** What is uploaded under a key is downloaded again, unless the key is absolute and the base is not the root. */
    method UploadThenDownload(key: string, data: string) returns (back: Option<string>)
      requires Valid() && Accepts(key) && (!IsAbs(key) || Base() == [])
      modifies this
      ensures Valid() && back == Some(data)
      ensures forall f | f in old(files) && f != Target(cwd, baseDir, key) :: f in files && files[f] == old(files)[f]
    {
      if IsAbs(key) {
        KeySegments(key);
        WalkPlain(true, [], Segments(key));
        assert [] + Segments(key) == Segments(key);
      }
      var _ := Upload(key, data);
      back := Download(key);
    }

    /** Deleting a file that is not there is not an error. */
    method Delete(key: string)
      requires Valid()
      modifies this
      ensures Valid() && files == old(files) - {Segments(LocalPath(cwd, baseDir, key))}
    {
      files := files - {Segments(LocalPath(cwd, baseDir, key))};
    }

    /** The walk over the base directory; the order of the result is not modelled. */
    method List(prefix: string) returns (keys: seq<string>)
      requires Valid()
      ensures forall f | f in Matching(files.Keys, Base(), prefix) :: RelKey(Base(), f) in keys
      ensures forall key | key in keys :: exists f | f in Matching(files.Keys, Base(), prefix) :: RelKey(Base(), f) == key
      ensures keys == [] <==> Matching(files.Keys, Base(), prefix) == {}
    {
      keys := [];
      var rest := files.Keys;
      while rest != {}
        invariant rest <= files.Keys
        invariant forall f | f in Matching(files.Keys - rest, Base(), prefix) :: RelKey(Base(), f) in keys
        invariant forall key | key in keys :: exists f | f in Matching(files.Keys, Base(), prefix) :: RelKey(Base(), f) == key
        decreases rest
      {
        var f :| f in rest;
        rest := rest - {f};
        if Base() < f {
          var rel := RelKey(Base(), f);
          if prefix == "" || prefix <= rel {
            ghost var before := keys;
            keys := keys + [rel];
            assert f in Matching(files.Keys, Base(), prefix);
            assert rel in keys && forall key | key in before :: key in keys;
          }
        }
      }
      assert keys != [] ==> keys[0] in keys;
    }

    /** Deleting by a listed key removes the listed file. */
    method DeleteFile(ghost f: FilePath, key: string)
      requires Valid() && AllPlain(f) && Base() < f && key == RelKey(Base(), f)
      modifies this
      ensures Valid() && files == old(files) - {f}
    {
      ListedKeyLeadsBack(cwd, baseDir, f);
      Delete(key);
    }

    /** List and delete; how many files went. */
    method DeleteListed(prefix: string) returns (deleted: nat)
      requires Valid()
      modifies this
      ensures Valid()
      ensures files == old(files) - Matching(old(files).Keys, Base(), prefix)
      ensures deleted > 0 <==> Matching(old(files).Keys, Base(), prefix) != {}
    {
      ghost var matching := Matching(files.Keys, Base(), prefix);
      var items := List(prefix);
      ghost var done: set<FilePath> := {};
      deleted := 0;
      for i := 0 to |items|
        invariant Valid() && done <= matching && files == old(files) - done
        invariant forall f | f in matching && RelKey(Base(), f) in items[..i] :: f in done
        invariant deleted == i
      {
        assert items[i] in items;
        ghost var f :| f in matching && RelKey(Base(), f) == items[i];
        DeleteFile(f, items[i]);
        done := done + {f};
        deleted := deleted + 1;
        OnlyOneListed(cwd, baseDir, f);
        assert items[..i + 1] == items[..i] + [items[i]];
      }
      assert items[..|items|] == items;
      assert done == matching;
    }

    /**
     `deleteStorageObjects`: a batch is deleted by listing its prefix; when that removes nothing,
     and for any other backup, the stored path itself is deleted.
     */
    method DeleteStorageObjects(taskID: nat, isBatch: bool, storagePath: string)
      requires Valid()
      modifies this
      ensures Valid()
      ensures var matching := Matching(old(files).Keys, Base(), BatchObjectPrefix(taskID, storagePath));
              files == if storagePath == "" then old(files)
                       else if isBatch && matching != {} then old(files) - matching
                       else old(files) - {Segments(LocalPath(cwd, baseDir, storagePath))}
    {
      if storagePath == "" {
        return;
      }
      var deleted := 0;
      if isBatch {
        var prefix := BatchObjectPrefix(taskID, storagePath);
        if prefix != "" {
          deleted := DeleteListed(prefix);
        }
        PrefixOfNonEmpty(taskID, storagePath);
      }
      if deleted == 0 {
        Delete(storagePath);
      }
    }
  }

  lemma OnlyOneListed(cwd: string, baseDir: string, f: FilePath)
    requires IsAbs(cwd) && AllPlain(f) && AbsSegments(cwd, baseDir) < f
    ensures var base := AbsSegments(cwd, baseDir);
            forall g | AllPlain(g) && base < g && RelKey(base, g) == RelKey(base, f) :: g == f
  {
    var base := AbsSegments(cwd, baseDir);
    forall g | AllPlain(g) && base < g && RelKey(base, g) == RelKey(base, f)
      ensures g == f
    {
      ListedKeyLeadsBack(cwd, baseDir, g);
      ListedKeyLeadsBack(cwd, baseDir, f);
    }
  }

  lemma PrefixOfNonEmpty(taskID: nat, storagePath: string)
    requires storagePath != ""
    ensures BatchObjectPrefix(taskID, storagePath) != ""
  {
    assert ToSlash(storagePath) != "";
  }

  // ---- what the prefix of a batch selects ----

  /** An object that some backup task uploaded. */
  datatype StoredObject =
    | Single(cluster: string, date: string, taskID: nat, kind: string, name: string)
    | Batch(cluster: string, date: string, taskID: nat, i: nat, kind: string, name: string)

  function BackupID(o: StoredObject): string {
    match o
    case Single(_, _, id, _, _) => Decimal(id)
    case Batch(_, _, id, i, _, _) => BatchID(id, i)
  }

  function Key(o: StoredObject): string {
    BuildKey(o.cluster, o.date, BackupID(o), o.kind, o.name)
  }

  function ObjectFile(o: StoredObject): string { FileName(BackupID(o), o.kind, o.name) }

  /** The directory that a cluster code names under a base; the code may climb, come back, or be absolute. */
  function Folder(base: FilePath, code: string): FilePath {
    if code == "" || IsAbs(code) then base + Walk(true, [], Split(code, '/')) else Walk(true, base, Split(code, '/'))
  }

  /** Where an object is stored. */
  function PathOf(base: FilePath, o: StoredObject): FilePath {
    Folder(base, o.cluster) + [o.date, ObjectFile(o)]
  }

  /** The source's own date and kinds, and a place inside the base. */
  predicate Uploadable(base: FilePath, o: StoredObject) {
    DateStr(o.date) && PlainSegment(o.kind) && base <= PathOf(base, o)
  }

  lemma FilePlain(o: StoredObject)
    requires DateStr(o.date) && PlainSegment(o.kind)
    ensures Plain(o.date) && Plain(ObjectFile(o)) && AllPlain([o.date, ObjectFile(o)])
    ensures PlainSegment(ObjectFile(o))
  {
    DateIsPlain(o.date);
    DecimalIsPlain(o.taskID);
    if o.Batch? {
      BatchIDIsPlain(o.taskID, o.i);
    }
    FileNameIsPlain(BackupID(o), o.kind, o.name);
    assert '_' in ObjectFile(o);
  }

  lemma FolderIsPlain(base: FilePath, code: string)
    requires AllPlain(base)
    ensures AllPlain(Folder(base, code))
  {
    SplitIsSlashFree(code);
    WalkRooted([], Split(code, '/'));
    WalkRooted(base, Split(code, '/'));
  }

  /** The path of an object is the file that its key names, and it is uploadable exactly when the key is accepted. */
  lemma KeyNamesPath(cwd: string, baseDir: string, o: StoredObject)
    requires IsAbs(cwd) && DateStr(o.date) && PlainSegment(o.kind)
    ensures Target(cwd, baseDir, Key(o)) == PathOf(AbsSegments(cwd, baseDir), o)
    ensures SafeJoin(cwd, baseDir, Key(o)).Joined? <==> Uploadable(AbsSegments(cwd, baseDir), o)
  {
    AbsPrints(cwd, baseDir);
    assert IsAbs(Key(o)) <==> o.cluster == "" || IsAbs(o.cluster);
    if IsAbs(Key(o)) {
      AbsoluteKey(AbsSegments(cwd, baseDir), o);
    } else {
      RelativeKey(AbsSegments(cwd, baseDir), o);
    }
    SafeJoinIsExact(cwd, baseDir, Key(o));
    EndsInFile(o);
  }

  lemma AbsoluteKey(base: FilePath, o: StoredObject)
    requires DateStr(o.date) && PlainSegment(o.kind) && IsAbs(Key(o))
    ensures Walk(true, base, Segments(Key(o))) == base + Walk(true, [], Split(o.cluster, '/')) + [o.date, ObjectFile(o)]
  {
    var parts, last := Split(o.cluster, '/'), [o.date, ObjectFile(o)];
    FilePlain(o);
    SplitLast(o);
    SplitIsSlashFree(o.cluster);
    WalkRooted([], parts);
    WalkConcat(true, [], parts, last);
    WalkPlain(true, Walk(true, [], parts), last);
    AllPlainConcat(Walk(true, [], parts), last);
    WalkPlain(true, base, Walk(true, [], parts) + last);
    assert base + (Walk(true, [], parts) + last) == base + Walk(true, [], parts) + last;
  }

  lemma RelativeKey(base: FilePath, o: StoredObject)
    requires AllPlain(base) && DateStr(o.date) && PlainSegment(o.kind) && !IsAbs(Key(o))
    ensures Walk(true, base, Segments(Key(o))) == Walk(true, base, Split(o.cluster, '/')) + [o.date, ObjectFile(o)]
  {
    var parts, last := Split(o.cluster, '/'), [o.date, ObjectFile(o)];
    FilePlain(o);
    SplitLast(o);
    SplitIsSlashFree(Key(o));
    WalkFromRoot(base, Split(Key(o), '/'));
    WalkConcat(true, base, parts, last);
    WalkPlain(true, Walk(true, base, parts), last);
  }

  lemma SplitLast(o: StoredObject)
    requires DateStr(o.date) && PlainSegment(o.kind)
    ensures Split(Key(o), '/') == Split(o.cluster, '/') + [o.date, ObjectFile(o)]
  {
    FilePlain(o);
    var rest := o.date + ['/'] + ObjectFile(o);
    SplitConcat(o.cluster, rest, '/');
    SplitConcat(o.date, ObjectFile(o), '/');
    SplitFree(o.date, '/');
    SplitFree(ObjectFile(o), '/');
    assert [o.date] + [ObjectFile(o)] == [o.date, ObjectFile(o)];
  }

  lemma EndsInFile(o: StoredObject)
    requires DateStr(o.date) && PlainSegment(o.kind)
    ensures Segments(Key(o)) != [".."]
  {
    FilePlain(o);
    SplitLast(o);
    var segs := Split(Key(o), '/');
    assert segs[|segs| - 1] == ObjectFile(o);
    assert Segments(Key(o))[|Segments(Key(o))| - 1] == ObjectFile(o);
  }

  // ---- what the prefix of a batch selects ----

  /** The text between the base and the date in the listed key of an object. */
  function ListedCode(base: FilePath, o: StoredObject): string {
    if base <= Folder(base, o.cluster) then Join(Folder(base, o.cluster)[|base|..], '/') else ""
  }

  /** An object of this very batch, or one whose listed code holds the whole prefix. */
  predicate Selected(base: FilePath, o: StoredObject, c: string, d: string, taskID: nat) {
    || (o.Batch? && o.taskID == taskID && ListedCode(base, o) == c && o.date == d)
    || StoredPrefix(c, d, taskID) <= ListedCode(base, o)
  }

  /** Exactly which uploaded objects a prefix selects, whatever their cluster codes look like. */
  lemma PrefixSelectsObject(base: FilePath, o: StoredObject, c: string, d: string, taskID: nat)
    requires AllPlain(base) && Uploadable(base, o) && c != "" && DateStr(d)
    ensures var f := PathOf(base, o);
            base < f && StoredPrefix(c, d, taskID) <= RelKey(base, f) <==> Selected(base, o, c, d, taskID)
  {
    var f, folder, last := PathOf(base, o), Folder(base, o.cluster), [o.date, ObjectFile(o)];
    FilePlain(o);
    TwoSlashes(c, d, taskID);
    if |f| < |base| + 3 {
      FewSlashes(base, o, c, d, taskID);
    } else {
      var code := folder[|base|..];
      assert base <= folder by {
        assert forall i | 0 <= i < |base| :: base[i] == f[i] == folder[i];
      }
      assert f[|base|..] == code + last;
      assert Join(last, '/') == o.date + ['/'] + ObjectFile(o) by { assert last[1..] == [ObjectFile(o)]; }
      JoinConcat(code, last);
      assert RelKey(base, f) == Join(code, '/') + ['/'] + (o.date + ['/'] + ObjectFile(o));
      match o
      case Single(_, d', id, kind, name) => PrefixSelectsNoSingle(c, d, taskID, Join(code, '/'), d', id, kind, name);
      case Batch(_, d', id, i, kind, name) => PrefixSelectsItsBatch(c, d, taskID, Join(code, '/'), d', id, i, kind, name);
    }
  }

  lemma TwoSlashes(c: string, d: string, taskID: nat)
    requires DateStr(d)
    ensures var p := StoredPrefix(c, d, taskID);
            |p| > |c| + 9 && p[|c|] == '/' && p[|c| + 9] == '/'
  {
  }

  /** A file directly in the base, or in a date directory there, has too few slashes for any prefix. */
  lemma FewSlashes(base: FilePath, o: StoredObject, c: string, d: string, taskID: nat)
    requires Uploadable(base, o) && c != "" && DateStr(d) && |PathOf(base, o)| < |base| + 3
    ensures var f := PathOf(base, o); base < f ==> !(StoredPrefix(c, d, taskID) <= RelKey(base, f))
    ensures !Selected(base, o, c, d, taskID)
  {
    var f, p := PathOf(base, o), StoredPrefix(c, d, taskID);
    FilePlain(o);
    TwoSlashes(c, d, taskID);
    assert ListedCode(base, o) == "";
    if |f| == |base| + 1 {
      assert f[|base|..] == [ObjectFile(o)];
      PrefixAt(p, RelKey(base, f), |c|);
      assert forall k | 0 <= k < |ObjectFile(o)| :: ObjectFile(o)[k] in ObjectFile(o);
    } else if |f| == |base| + 2 {
      assert f[|base|..] == [o.date, ObjectFile(o)];
      assert [o.date, ObjectFile(o)][1..] == [ObjectFile(o)];
      assert RelKey(base, f) == o.date + ['/'] + Join([ObjectFile(o)], '/');
      PrefixAt(p, RelKey(base, f), |c|);
      PrefixAt(p, RelKey(base, f), |c| + 9);
      OneSlash(o.date, ObjectFile(o), |c|);
      OneSlash(o.date, ObjectFile(o), |c| + 9);
    }
  }

  lemma OneSlash(d: string, file: string, n: nat)
    requires '/' !in d && '/' !in file
    ensures n < |d + ['/'] + file| && (d + ['/'] + file)[n] == '/' ==> n == |d|
  {
    var s := d + ['/'] + file;
    if n < |d| {
      assert s[n] == d[n];
    } else if |d| < n < |s| {
      assert s[n] == file[n - |d| - 1];
    }
  }

  function FilesOf(base: FilePath, objects: set<StoredObject>): set<FilePath> {
    set o | o in objects :: PathOf(base, o)
  }

  /**
   Listing by the stored prefix and deleting removes exactly these files: those of the batch, and those of other
   tasks whose listed cluster code holds the whole prefix. `c` is the batch's own code, as listed; the batch
   finished within one date.
   */
  lemma PrefixSelectsTheTask(base: FilePath, objects: set<StoredObject>, c: string, d: string, taskID: nat)
    requires AllPlain(base) && c != "" && DateStr(d) && forall o | o in objects :: Uploadable(base, o)
    requires forall o | o in objects && o.Batch? && o.taskID == taskID :: ListedCode(base, o) == c && o.date == d
    ensures var own := set o | o in objects && o.Batch? && o.taskID == taskID;
            var mixed := set o | o in objects && StoredPrefix(c, d, taskID) <= ListedCode(base, o);
            && Matching(FilesOf(base, objects), base, StoredPrefix(c, d, taskID)) == FilesOf(base, own) + FilesOf(base, mixed)
            && FilesOf(base, own) !! FilesOf(base, mixed)
  {
    var p := StoredPrefix(c, d, taskID);
    var own := set o | o in objects && o.Batch? && o.taskID == taskID;
    var mixed := set o | o in objects && p <= ListedCode(base, o);
    forall o | o in objects
      ensures PathOf(base, o) in Matching(FilesOf(base, objects), base, p) <==> o in own || o in mixed
    {
      assert PathOf(base, o) in FilesOf(base, objects);
      PrefixSelectsObject(base, o, c, d, taskID);
    }
    forall o, o' | o in own && o' in mixed
      ensures PathOf(base, o) != PathOf(base, o')
    {
      DifferentFiles(base, o, o', p);
    }
  }

  /** Two objects with different listed codes are different files. */
  lemma DifferentFiles(base: FilePath, o: StoredObject, o': StoredObject, p: string)
    requires |p| > |ListedCode(base, o)| && p <= ListedCode(base, o')
    ensures PathOf(base, o) != PathOf(base, o')
  {
    var f, f' := PathOf(base, o), PathOf(base, o');
    assert Folder(base, o.cluster) == f[..|f| - 2] && Folder(base, o'.cluster) == f'[..|f'| - 2];
  }

  /** So the prefix removes exactly the objects of its task if and only if no listed code holds it. */
  lemma PrefixSelectsExactlyTheTask(base: FilePath, objects: set<StoredObject>, c: string, d: string, taskID: nat)
    requires AllPlain(base) && c != "" && DateStr(d) && forall o | o in objects :: Uploadable(base, o)
    requires forall o | o in objects && o.Batch? && o.taskID == taskID :: ListedCode(base, o) == c && o.date == d
    ensures var own := set o | o in objects && o.Batch? && o.taskID == taskID;
            Matching(FilesOf(base, objects), base, StoredPrefix(c, d, taskID)) == FilesOf(base, own) <==>
            forall o | o in objects :: !(StoredPrefix(c, d, taskID) <= ListedCode(base, o))
  {
    PrefixSelectsTheTask(base, objects, c, d, taskID);
    var mixed := set o | o in objects && StoredPrefix(c, d, taskID) <= ListedCode(base, o);
    forall o | o in mixed
      ensures PathOf(base, o) in FilesOf(base, mixed)
    {
    }
    assert mixed == {} ==> FilesOf(base, mixed) == {};
  }

  /** Slash-free cluster codes never hold a prefix. */
  lemma SlashFreeObjectsStayApart(base: FilePath, o: StoredObject, c: string, d: string, taskID: nat)
    requires '/' !in o.cluster
    ensures !(StoredPrefix(c, d, taskID) <= ListedCode(base, o))
  {
    var folder := Folder(base, o.cluster);
    SplitFree(o.cluster, '/');
    assert [o.cluster][..0] == [];
    assert Walk(true, base, [o.cluster]) == Enter(true, base, o.cluster) && Walk(true, [], [o.cluster]) == Enter(true, [], o.cluster);
    assert o.cluster == "" ==> folder == base + [] == base;
    if base <= folder {
      assert folder[|base|..] == [] || folder[|base|..] == [o.cluster];
    }
    SlashFreeCodesNeverMix(c, d, taskID, ListedCode(base, o));
  }

  lemma AbsoluteCode(code: string)
    ensures IsAbs(code) ==> Split(code, '/')[0] == ""
  {
  }

  /** A code of ordinary names is listed as it is. */
  lemma PlainCodeIsListed(base: FilePath, o: StoredObject)
    requires AllPlain(Split(o.cluster, '/')) && DateStr(o.date) && PlainSegment(o.kind)
    ensures o.cluster != "" && ListedCode(base, o) == o.cluster && Uploadable(base, o)
  {
    var parts := Split(o.cluster, '/');
    assert Split("", '/') == [""] && "" in [""];
    assert parts[0] in parts;
    JoinSplit(o.cluster, '/');
    AbsoluteCode(o.cluster);
    WalkPlain(true, base, parts);
    assert (base + parts)[|base|..] == parts;
  }

  /**
   Exactly which cluster codes the deletion works for, over all codes, bases and objects: an uploaded batch object
   is found under the prefix of its stored path if and only if the code consists of ordinary names separated by
   slashes and holds no backslash. Any other code - ".", "a//b", ".." under a suitable base - is listed differently.
   */
  lemma PrefixFindsItsObject(cwd: string, baseDir: string, o: StoredObject)
    requires IsAbs(cwd) && o.Batch? && DateStr(o.date) && PlainSegment(o.kind)
    ensures var base, f := AbsSegments(cwd, baseDir), Target(cwd, baseDir, Key(o));
            SafeJoin(cwd, baseDir, Key(o)).Joined? && base < f && BatchObjectPrefix(o.taskID, Key(o)) <= RelKey(base, f) <==>
            AllPlain(Split(o.cluster, '/')) && '\\' !in o.cluster
  {
    var base, c, p := AbsSegments(cwd, baseDir), o.cluster, BatchObjectPrefix(o.taskID, Key(o));
    AbsPrints(cwd, baseDir);
    KeyNamesPath(cwd, baseDir, o);
    PrefixOfBatchKey(c, o.date, o.taskID, o.i, o.kind, o.name);
    assert p == StoredPrefix(ToSlash(c), o.date, o.taskID);
    if AllPlain(Split(c, '/')) && '\\' !in c {
      PlainCodeIsListed(base, o);
      ToSlashId(c);
      PrefixSelectsObject(base, o, c, o.date, o.taskID);
    } else if Uploadable(base, o) {
      OnlyPlainCodesAreFound(base, o);
    }
  }

  lemma OnlyPlainCodesAreFound(base: FilePath, o: StoredObject)
    requires AllPlain(base) && o.Batch? && Uploadable(base, o)
    ensures var f := PathOf(base, o);
            base < f && StoredPrefix(ToSlash(o.cluster), o.date, o.taskID) <= RelKey(base, f) ==>
              AllPlain(Split(o.cluster, '/')) && '\\' !in o.cluster
  {
    var c, turned, f := o.cluster, ToSlash(o.cluster), PathOf(base, o);
    var p := StoredPrefix(turned, o.date, o.taskID);
    if c == "" {
      EmptyCodeIsNotFound(base, o);
    } else if base < f && p <= RelKey(base, f) {
      PrefixSelectsObject(base, o, turned, o.date, o.taskID);
      FolderIsPlain(base, c);
      ListedPartsArePlain(base, o, turned);
      forall part | part in Split(c, '/')
        ensures Plain(part)
      {
        SplitPartsAreFree(c, '/');
        if '\\' !in part {
          EmptyPartSurvives(c, part);
        }
      }
      PlainCodeIsListed(base, o);
      assert |p| > |turned| == |c|;
      assert turned == c;
      assert forall k | 0 <= k < |c| :: turned[k] != '\\';
    }
  }

  lemma EmptyCodeIsNotFound(base: FilePath, o: StoredObject)
    requires AllPlain(base) && o.Batch? && Uploadable(base, o) && o.cluster == ""
    ensures var f := PathOf(base, o); base < f ==> !(StoredPrefix("", o.date, o.taskID) <= RelKey(base, f))
  {
    var f := PathOf(base, o);
    FilePlain(o);
    EmptyWalk([]);
    assert Folder(base, "") == base + [] == base;
    assert f[|base|..] == [o.date, ObjectFile(o)];
    assert RelKey(base, f)[0] == o.date[0] && o.date[0] in o.date;
    assert StoredPrefix("", o.date, o.taskID)[0] == '/';
  }

  /** A selected object's listed code begins with the names of the prefix's code. */
  lemma ListedPartsArePlain(base: FilePath, o: StoredObject, turned: string)
    requires AllPlain(Folder(base, o.cluster)) && turned != ""
    requires ListedCode(base, o) == turned || StoredPrefix(turned, o.date, o.taskID) <= ListedCode(base, o)
    ensures AllPlain(Split(turned, '/'))
  {
    var listed := ListedCode(base, o);
    var names := Folder(base, o.cluster)[|base|..];
    assert forall s | s in names :: s in Folder(base, o.cluster);
    assert listed != "" && names != [];
    SplitJoin(names, '/');
    if listed != turned {
      var rest := listed[|turned| + 1..];
      assert StoredPrefix(turned, o.date, o.taskID)[..|turned| + 1] == turned + ['/'];
      assert listed == turned + ['/'] + rest;
      SplitConcat(turned, rest, '/');
      assert forall s | s in Split(turned, '/') :: s in Split(turned, '/') + Split(rest, '/');
    }
  }
}
