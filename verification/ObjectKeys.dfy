/**
 Object keys of backups: `BuildKey` and `sanitizeName` (backend/internal/plugins/storage/local.go),
 the numbered keys of a batch (backend/internal/worker/backup_worker.go), and the prefix that later
 finds them (`BatchObjectPrefix`, backend/internal/backup/manager.go). A char stands for a byte.
 */
module ObjectKeys {
  import opened Text

  predicate KeepsChar(c: char) {
    'a' <= c <= 'z' || 'A' <= c <= 'Z' || '0' <= c <= '9' || c == '-' || c == '_' || c == '.'
  }

  function Mapped(s: string): string {
    seq(|s|, i requires 0 <= i < |s| => if KeepsChar(s[i]) then s[i] else '_')
  }

  function SanitizeName(s: string): string {
    if s == "" then "unnamed" else Mapped(s)
  }

  method Sanitize(s: string) returns (r: string)
    ensures r == SanitizeName(s)
    ensures r != "" && forall c | c in r :: KeepsChar(c)
    ensures s != "" ==> |r| == |s| && forall i | 0 <= i < |s| :: r[i] == if KeepsChar(s[i]) then s[i] else '_'
  {
    var b: string := "";
    for i := 0 to |s|
      invariant b == Mapped(s[..i])
    {
      var c := s[i];
      assert Mapped(s[..i + 1]) == Mapped(s[..i]) + [if KeepsChar(c) then c else '_'];
      if KeepsChar(c) {
        b := b + [c];
      } else {
        b := b + ['_'];
      }
    }
    assert s[..|s|] == s;
    if |b| == 0 {
      return "unnamed";
    }
    return b;
  }

  function ObjectTail(kind: string, name: string): string {
    kind + "_" + SanitizeName(name) + ".yaml"
  }

  /** The file name of an object: which task backs it up, and what it is. */
  function FileName(backupID: string, kind: string, name: string): string {
    backupID + ['_'] + ObjectTail(kind, name)
  }

  function BuildKey(clusterCode: string, dateStr: string, backupID: string, kind: string, name: string): string {
    clusterCode + ['/'] + (dateStr + ['/'] + FileName(backupID, kind, name))
  }

  /** A single-object backup is numbered by its task. */
  function SingleKey(clusterCode: string, dateStr: string, taskID: nat, kind: string, name: string): string {
    BuildKey(clusterCode, dateStr, Decimal(taskID), kind, name)
  }

  /** "%d-%05d": the task and the position in its plan, counted from one. */
  function BatchID(taskID: nat, i: nat): string {
    Decimal(taskID) + ['-'] + Padded(i + 1)
  }

  function BatchKey(clusterCode: string, dateStr: string, taskID: nat, i: nat, kind: string, name: string): string {
    BuildKey(clusterCode, dateStr, BatchID(taskID, i), kind, name)
  }

  // ---- BatchObjectPrefix ----

  function ToSlash(s: string): string {
    seq(|s|, i requires 0 <= i < |s| => if s[i] == '\\' then '/' else s[i])
  }

  /** `strings.LastIndex` of one character. */
  function LastIndex(s: string, c: char): (i: int)
    ensures -1 <= i < |s|
    ensures i >= 0 ==> s[i] == c
    ensures forall k | i < k < |s| :: s[k] != c
  {
    if s == "" then -1
    else if s[|s| - 1] == c then |s| - 1
    else LastIndex(s[..|s| - 1], c)
  }

  function BatchObjectPrefix(taskID: nat, storagePath: string): string {
    var p := ToSlash(storagePath);
    var idPrefix := Decimal(taskID) + "-";
    if p == "" then ""
    else if HasSuffix(p, idPrefix) then p
    else
      var i := LastIndex(p, '/');
      if i < 0 then idPrefix else p[..i + 1] + idPrefix
  }

  /** cluster/date/{taskID}- */
  function StoredPrefix(clusterCode: string, dateStr: string, taskID: nat): string {
    clusterCode + ['/'] + (dateStr + ['/'] + (Decimal(taskID) + "-"))
  }

  lemma ToSlashId(s: string)
    requires '\\' !in s
    ensures ToSlash(s) == s
  {
    assert forall i | 0 <= i < |s| :: s[i] in s;
  }

  lemma ToSlashTwice(s: string)
    ensures ToSlash(ToSlash(s)) == ToSlash(s)
  {
  }

  lemma DecimalIsPlain(n: nat)
    ensures forall c | c in Decimal(n) :: c != '-' && c != '_' && c != '/' && c != '\\'
  {
    DecimalDenotes(n);
  }

  /** Taking the prefix of a prefix changes nothing, whatever the path was. */
  lemma PrefixIsIdempotent(taskID: nat, storagePath: string)
    ensures var p := BatchObjectPrefix(taskID, storagePath);
            BatchObjectPrefix(taskID, p) == p
  {
    var q, idPrefix := ToSlash(storagePath), Decimal(taskID) + "-";
    ToSlashTwice(storagePath);
    if q != "" && !HasSuffix(q, idPrefix) {
      var i := LastIndex(q, '/');
      var p := BatchObjectPrefix(taskID, storagePath);
      DecimalIsPlain(taskID);
      var head := if i < 0 then "" else q[..i + 1];
      assert p == head + idPrefix;
      assert '\\' !in q by {
        assert forall k | 0 <= k < |q| :: q[k] != '\\';
      }
      assert forall c | c in head :: c in q;
      ToSlashId(p);
      assert p[|p| - |idPrefix|..] == idPrefix;
    }
  }

  /** A name that can be one path segment of a key. */
  predicate PlainSegment(s: string) {
    '/' !in s && '\\' !in s
  }

  predicate DateStr(s: string) {
    |s| == 8 && AllDigits(s)
  }

  lemma FileNameIsPlain(backupID: string, kind: string, name: string)
    requires PlainSegment(backupID) && PlainSegment(kind)
    ensures PlainSegment(FileName(backupID, kind, name))
    ensures HasSuffix(FileName(backupID, kind, name), ".yaml")
  {
    assert forall c | c in SanitizeName(name) :: KeepsChar(c);
    StemAndSuffix(backupID, kind, SanitizeName(name));
  }

  lemma StemAndSuffix(id: string, kind: string, name: string)
    requires PlainSegment(id) && PlainSegment(kind) && PlainSegment(name)
    ensures var file := id + ['_'] + (kind + "_" + name + ".yaml");
            PlainSegment(file) && HasSuffix(file, ".yaml")
  {
    var stem, file := id + ['_'] + (kind + "_" + name), id + ['_'] + (kind + "_" + name + ".yaml");
    assert file == stem + ".yaml";
    assert forall c | c in stem :: c in id || c == '_' || c in kind || c in name;
    assert forall c | c in file :: c in stem || c in ".yaml";
  }

  lemma BatchIDIsPlain(taskID: nat, i: nat)
    ensures PlainSegment(BatchID(taskID, i)) && '_' !in BatchID(taskID, i)
  {
    DecimalIsPlain(taskID);
    PaddedDenotes(i + 1);
  }

  /** The prefix of a key whose last slash ends `head`. */
  lemma PrefixOfKey(head: string, file: string, taskID: nat)
    requires head != "" && head[|head| - 1] == '/' && '\\' !in head
    requires PlainSegment(file) && HasSuffix(file, ".yaml")
    ensures BatchObjectPrefix(taskID, head + file) == head + (Decimal(taskID) + "-")
  {
    var key, idPrefix := head + file, Decimal(taskID) + "-";
    ToSlashId(key);
    LastCharOfSuffix(key, idPrefix);
    assert key[|key| - 1] == file[|file| - 5..][4];
    var k := LastIndex(key, '/');
    assert key[|head| - 1] == '/';
    assert forall j | |head| <= j < |key| :: key[j] == file[j - |head|] && file[j - |head|] in file;
    assert k == |head| - 1 && key[..k + 1] == head;
  }

  lemma LastCharOfSuffix(s: string, suffix: string)
    requires suffix != ""
    ensures HasSuffix(s, suffix) ==> s[|s| - 1] == suffix[|suffix| - 1]
  {
    if HasSuffix(s, suffix) {
      assert s[|s| - 1] == s[|s| - |suffix|..][|suffix| - 1];
    }
  }

  /** The prefix stored for a batch is the common head of its keys, with backslashes turned. */
  lemma PrefixOfBatchKey(clusterCode: string, dateStr: string, taskID: nat, i: nat, kind: string, name: string)
    requires DateStr(dateStr) && PlainSegment(kind)
    ensures BatchObjectPrefix(taskID, BatchKey(clusterCode, dateStr, taskID, i, kind, name)) ==
            StoredPrefix(ToSlash(clusterCode), dateStr, taskID)
  {
    var file := FileName(BatchID(taskID, i), kind, name);
    var key, turned := BatchKey(clusterCode, dateStr, taskID, i, kind, name), ToSlash(clusterCode);
    var head := turned + ['/'] + (dateStr + ['/']);
    BatchIDIsPlain(taskID, i);
    FileNameIsPlain(BatchID(taskID, i), kind, name);
    DateIsPlain(dateStr);
    Regroup(clusterCode, dateStr, file);
    Regroup(turned, dateStr, file);
    Regroup(turned, dateStr, Decimal(taskID) + "-");
    ToSlashKey(clusterCode, dateStr, file);
    ToSlashTwice(clusterCode);
    assert '\\' !in head by {
      assert forall k | 0 <= k < |turned| :: turned[k] != '\\';
    }
    PrefixOfKey(head, file, taskID);
    ToSlashId(head + file);
    assert ToSlash(key) == head + file;
  }

  lemma ToSlashKey(c: string, d: string, file: string)
    requires '\\' !in d && '\\' !in file
    ensures ToSlash(c + ['/'] + (d + ['/'] + file)) == ToSlash(c) + ['/'] + (d + ['/'] + file)
  {
    var key := c + ['/'] + (d + ['/'] + file);
    forall k | 0 <= k < |key|
      ensures ToSlash(key)[k] == (ToSlash(c) + ['/'] + (d + ['/'] + file))[k]
    {
      if |c| < k < |c| + 1 + |d| {
        assert key[k] == d[k - |c| - 1] && key[k] in d;
      } else if |c| + 1 + |d| < k {
        assert key[k] == file[k - |c| - |d| - 2] && key[k] in file;
      }
    }
  }

  /** A part of a path that is not a name stays one when backslashes are turned. */
  lemma {:induction false} EmptyPartSurvives(s: string, part: string)
    requires part in Split(s, '/') && '\\' !in part
    ensures part in Split(ToSlash(s), '/')
    decreases |s|
  {
    if '/' !in s {
      SplitFree(s, '/');
      ToSlashId(s);
      SplitFree(ToSlash(s), '/');
    } else {
      var n :| 0 <= n < |s| && s[n] == '/';
      var head, tail := s[..n], s[n + 1..];
      assert s == head + ['/'] + tail;
      SplitConcat(head, tail, '/');
      assert ToSlash(s) == ToSlash(head) + ['/'] + ToSlash(tail);
      SplitConcat(ToSlash(head), ToSlash(tail), '/');
      if part in Split(head, '/') {
        EmptyPartSurvives(head, part);
      } else {
        EmptyPartSurvives(tail, part);
      }
    }
  }

  lemma Regroup(c: string, d: string, tail: string)
    ensures c + ['/'] + (d + ['/'] + tail) == (c + ['/'] + (d + ['/'])) + tail
  {
  }

  /** Same place, same file: a key is determined by what precedes the first underscore of its file. */
  lemma SameFileName(c: string, d: string, id: string, x: string, id': string, y: string)
    requires '_' !in id && '_' !in id'
    requires c + ['/'] + (d + ['/'] + (id + ['_'] + x)) == c + ['/'] + (d + ['/'] + (id' + ['_'] + y))
    ensures id == id'
  {
    var head := c + ['/'] + (d + ['/']);
    var f, f' := id + ['_'] + x, id' + ['_'] + y;
    Regroup(c, d, f);
    Regroup(c, d, f');
    assert f == (head + f)[|head|..] && f' == (head + f')[|head|..];
    CutIsUnique(id, x, id', y, '_');
  }

  /** The keys of one batch are distinct, whatever the objects are called. */
  lemma BatchKeysDistinct(clusterCode: string, dateStr: string, taskID: nat, i: nat, j: nat,
                          kind: string, name: string, kind': string, name': string)
    requires BatchKey(clusterCode, dateStr, taskID, i, kind, name) == BatchKey(clusterCode, dateStr, taskID, j, kind', name')
    ensures i == j
  {
    BatchIDIsPlain(taskID, i);
    BatchIDIsPlain(taskID, j);
    SameFileName(clusterCode, dateStr, BatchID(taskID, i), ObjectTail(kind, name),
                 BatchID(taskID, j), ObjectTail(kind', name'));
    SamePosition(taskID, i, j);
  }

  lemma SamePosition(taskID: nat, i: nat, j: nat)
    requires BatchID(taskID, i) == BatchID(taskID, j)
    ensures i == j
  {
    SameRest(Decimal(taskID) + ['-'], Padded(i + 1), Padded(j + 1));
    PaddedInjective(i + 1, j + 1);
  }

  lemma SameRest(head: string, x: string, y: string)
    requires head + x == head + y
    ensures x == y
  {
    assert (head + x)[|head|..] == x && (head + y)[|head|..] == y;
  }

  lemma PrefixAt(p: string, s: string, n: nat)
    ensures p <= s && n < |p| ==> n < |s| && s[n] == p[n] && p[n] in p
  {
  }

  lemma DropHeads(head: string, x: string, head': string, y: string)
    requires |head| == |head'|
    ensures head + x <= head' + y ==> head == head' && x <= y
  {
    if head + x <= head' + y {
      assert (head + x)[..|head|] == head && (head' + y)[..|head'|] == head';
      assert (head + x)[|head|..] == x && (head' + y)[|head'|..] == y;
      assert (head' + y)[..|head + x|][|head|..] == y[..|x|];
    }
  }

  /**
   How a prefix c/d/tail can begin a key c'/d'/file, whatever slashes the two codes hold: they share code and
   date, or the code of the key holds the whole prefix.
   */
  lemma PrefixMeetsKey(c: string, d: string, tail: string, c': string, d': string, file: string)
    requires '/' !in d && '/' !in d' && '/' !in tail && '/' !in file && |d| == |d'|
    requires '-' in tail && '-' !in d'
    ensures c + ['/'] + (d + ['/'] + tail) <= c' + ['/'] + (d' + ['/'] + file) <==>
            (c == c' && d == d' && tail <= file) || c + ['/'] + (d + ['/'] + tail) <= c'
  {
    var p, key := c + ['/'] + (d + ['/'] + tail), c' + ['/'] + (d' + ['/'] + file);
    assert key == c' + (['/'] + (d' + ['/'] + file)) && key[|c'|] == '/';
    PrefixAt(p, key, |c'|);
    MeetAtSlash(c, d, tail, |c'|);
    LongerCode(c, d, tail, c', d', file);
    ShorterCode(c, d, tail, c', d', file);
    SameCode(c, d, tail, c', d', file);
    Regroup(c, d, tail);
    Regroup(c, d, file);
  }

  /** The slashes of c/d/tail: some in c, and the two written ones. */
  lemma MeetAtSlash(c: string, d: string, tail: string, n: nat)
    requires '/' !in d && '/' !in tail
    ensures var p := c + ['/'] + (d + ['/'] + tail);
            n < |p| && p[n] == '/' ==> n <= |c| || n == |c| + 1 + |d|
  {
    var p := c + ['/'] + (d + ['/'] + tail);
    if |c| < n < |c| + 1 + |d| {
      assert p[n] == d[n - |c| - 1];
    } else if |c| + 1 + |d| < n < |p| {
      assert p[n] == tail[n - |c| - |d| - 2];
    }
  }

  lemma SameCode(c: string, d: string, tail: string, c': string, d': string, file: string)
    requires |d| == |d'|
    ensures |c| == |c'| && c + ['/'] + (d + ['/'] + tail) <= c' + ['/'] + (d' + ['/'] + file) ==>
              c == c' && d == d' && tail <= file
  {
    if |c| == |c'| {
      DropHeads(c + ['/'], d + ['/'] + tail, c' + ['/'], d' + ['/'] + file);
      DropHeads(d + ['/'], tail, d' + ['/'], file);
      DropHeads(c, ['/'], c', ['/']);
      DropHeads(d, ['/'], d', ['/']);
    }
  }

  /** If the key's code ended where the prefix's date ends, the rest would have to be a date with a dash. */
  lemma LongerCode(c: string, d: string, tail: string, c': string, d': string, file: string)
    requires '/' !in tail && '-' in tail && '-' !in d'
    ensures |c'| == |c| + 1 + |d| ==> !(c + ['/'] + (d + ['/'] + tail) <= c' + ['/'] + (d' + ['/'] + file))
  {
    if |c'| == |c| + 1 + |d| {
      Regroup(c, d, tail);
      DropHeads(c + ['/'] + (d + ['/']), tail, c' + ['/'], d' + ['/'] + file);
      TailIsNoDate(tail, d', file);
    }
  }

  lemma TailIsNoDate(tail: string, d: string, file: string)
    requires '/' !in tail && '-' in tail && '-' !in d
    ensures !(tail <= d + ['/'] + file)
  {
    var s := d + ['/'] + file;
    var k :| 0 <= k < |tail| && tail[k] == '-';
    PrefixAt(tail, s, k);
    PrefixAt(tail, s, |d|);
    assert s[|d|] == '/';
    assert k < |d| ==> s[k] == d[k] && d[k] in d;
  }

  /** If the key's code ended inside the prefix's code, one slash would have to stand for two. */
  lemma ShorterCode(c: string, d: string, tail: string, c': string, d': string, file: string)
    requires '/' !in d' && '/' !in file && |d| == |d'|
    ensures |c'| < |c| ==> !(c + ['/'] + (d + ['/'] + tail) <= c' + ['/'] + (d' + ['/'] + file))
  {
    var p, key := c + ['/'] + (d + ['/'] + tail), c' + ['/'] + (d' + ['/'] + file);
    var second := |c| + 1 + |d|;
    assert p[second] == '/';
    PrefixAt(p, key, second);
    MeetAtSlash(c', d', file, second);
  }

  lemma DateIsPlain(d: string)
    requires DateStr(d)
    ensures PlainSegment(d)
  {
    assert forall c | c in d :: IsDigit(c);
  }

  /** Two numbered files share "number-" exactly when the numbers agree. */
  lemma SameNumber(a: string, b: string, tail: string)
    requires '-' !in a && '-' !in b
    ensures a + "-" <= b + ['-'] + tail <==> a == b
  {
    var file := b + ['-'] + tail;
    if a + "-" <= file {
      var rest := file[|a| + 1..];
      assert file == a + ['-'] + rest;
      CutIsUnique(a, rest, b, tail, '-');
    }
  }

  /** When does the key of one batch start with the stored prefix of another, for any two cluster codes? */
  lemma PrefixSelectsItsBatch(c: string, d: string, taskID: nat,
                              c': string, d': string, taskID': nat, i: nat, kind: string, name: string)
    requires DateStr(d) && DateStr(d') && PlainSegment(kind)
    ensures StoredPrefix(c, d, taskID) <= BatchKey(c', d', taskID', i, kind, name) <==>
            (c == c' && d == d' && taskID == taskID') || StoredPrefix(c, d, taskID) <= c'
  {
    DatesAndDashes(d, d', taskID);
    DecimalIsPlain(taskID);
    DecimalIsPlain(taskID');
    BatchIDIsPlain(taskID', i);
    FileNameIsPlain(BatchID(taskID', i), kind, name);
    var file := FileName(BatchID(taskID', i), kind, name);
    var tail := Padded(i + 1) + ['_'] + ObjectTail(kind, name);
    assert file == Decimal(taskID') + ['-'] + tail;
    SameNumber(Decimal(taskID), Decimal(taskID'), tail);
    PrefixMeetsKey(c, d, Decimal(taskID) + "-", c', d', file);
    if Decimal(taskID) == Decimal(taskID') { DecimalInjective(taskID, taskID'); }
  }

  /** And the key of a single object: only when the cluster code holds the whole prefix. */
  lemma PrefixSelectsNoSingle(c: string, d: string, taskID: nat,
                              c': string, d': string, taskID': nat, kind: string, name: string)
    requires DateStr(d) && DateStr(d') && PlainSegment(kind)
    ensures StoredPrefix(c, d, taskID) <= SingleKey(c', d', taskID', kind, name) <==> StoredPrefix(c, d, taskID) <= c'
  {
    DatesAndDashes(d, d', taskID);
    DecimalIsPlain(taskID);
    DecimalIsPlain(taskID');
    FileNameIsPlain(Decimal(taskID'), kind, name);
    var file := FileName(Decimal(taskID'), kind, name);
    DashMeetsUnderscore(Decimal(taskID), Decimal(taskID'), file);
    PrefixMeetsKey(c, d, Decimal(taskID) + "-", c', d', file);
  }

  lemma DatesAndDashes(d: string, d': string, taskID: nat)
    requires DateStr(d) && DateStr(d')
    ensures '/' !in d && '/' !in d' && '-' !in d'
    ensures '-' in Decimal(taskID) + "-" && '/' !in Decimal(taskID) + "-"
  {
    DateIsPlain(d);
    DateIsPlain(d');
    assert forall x | x in d' :: IsDigit(x);
    DecimalIsPlain(taskID);
    assert (Decimal(taskID) + "-")[|Decimal(taskID)|] == '-';
  }

  /** Slash-free codes never hold a prefix, so then a prefix selects exactly the batch it was made for. */
  lemma SlashFreeCodesNeverMix(c: string, d: string, taskID: nat, c': string)
    requires '/' !in c'
    ensures !(StoredPrefix(c, d, taskID) <= c')
  {
    assert StoredPrefix(c, d, taskID)[|c|] == '/';
    PrefixAt(StoredPrefix(c, d, taskID), c', |c|);
  }

  lemma DashMeetsUnderscore(a: string, b: string, file: string)
    requires '-' !in b && '_' !in a
    requires b + "_" <= file
    ensures !(a + "-" <= file)
  {
    Starts(a, '-', file);
    Starts(b, '_', file);
  }

  lemma Starts(a: string, c: char, file: string)
    ensures a + [c] <= file ==> |a| < |file| && file[|a|] == c && forall k | 0 <= k < |a| :: file[k] in a
  {
    if a + [c] <= file {
      assert forall k | 0 <= k < |a| :: file[k] == a[k];
    }
  }

  /**
   Exactly which cluster codes keep the deletion of a batch to itself: the prefix of a batch under `c` selects a
   key of another task under `c'`, for some object of it, if and only if `c'` holds that whole prefix.
   */
  lemma MixingIsExact(c: string, d: string, taskID: nat, c': string, d': string)
    requires DateStr(d) && DateStr(d')
    ensures (exists taskID', i, kind, name | PlainSegment(kind) && taskID' != taskID ::
               StoredPrefix(c, d, taskID) <= BatchKey(c', d', taskID', i, kind, name)) <==>
            StoredPrefix(c, d, taskID) <= c'
  {
    if StoredPrefix(c, d, taskID) <= c' {
      PrefixSelectsItsBatch(c, d, taskID, c', d', taskID + 1, 0, "Pod", "p");
      assert PlainSegment("Pod") && taskID + 1 != taskID;
    }
    forall taskID': nat, i: nat, kind: string, name: string
      | PlainSegment(kind) && taskID' != taskID && StoredPrefix(c, d, taskID) <= BatchKey(c', d', taskID', i, kind, name)
      ensures StoredPrefix(c, d, taskID) <= c'
    {
      PrefixSelectsItsBatch(c, d, taskID, c', d', taskID', i, kind, name);
    }
  }

  // ---- a key tells its object ----

  /** A string is cut in only one way at the last occurrence of a separator. */
  lemma LastCutIsUnique(a: string, x: string, b: string, y: string, sep: char)
    requires sep !in x && sep !in y && a + [sep] + x == b + [sep] + y
    ensures a == b && x == y
  {
    var s := a + [sep] + x;
    assert s[|a|] == sep && s[|b|] == sep;
    assert forall k | |a| < k < |s| :: s[k] == x[k - |a| - 1] && s[k] in x;
    assert forall k | |b| < k < |s| :: s[k] == y[k - |b| - 1] && s[k] in y;
    assert |a| == |b|;
    assert s[..|a|] == a && s[..|b|] == b && s[|a| + 1..] == x && s[|b| + 1..] == y;
  }

  /** A kind as Kubernetes writes it. */
  predicate KindName(kind: string) { PlainSegment(kind) && '_' !in kind }

  predicate BackupNumber(id: string) { PlainSegment(id) && '_' !in id }

  lemma SameTail(kind: string, name: string, kind': string, name': string)
    requires KindName(kind) && KindName(kind') && ObjectTail(kind, name) == ObjectTail(kind', name')
    ensures kind == kind' && SanitizeName(name) == SanitizeName(name')
  {
    var x, y := SanitizeName(name) + ".yaml", SanitizeName(name') + ".yaml";
    assert ObjectTail(kind, name) == kind + ['_'] + x && ObjectTail(kind', name') == kind' + ['_'] + y;
    CutIsUnique(kind, x, kind', y, '_');
    assert SanitizeName(name) == x[..|x| - 5] && SanitizeName(name') == y[..|y| - 5];
  }

  /** Two keys are equal exactly when everything they are made of is, names up to the characters that are replaced. */
  lemma KeysAreExact(c: string, d: string, id: string, kind: string, name: string,
                     c': string, d': string, id': string, kind': string, name': string)
    requires PlainSegment(d) && PlainSegment(d') && BackupNumber(id) && BackupNumber(id') && KindName(kind) && KindName(kind')
    ensures BuildKey(c, d, id, kind, name) == BuildKey(c', d', id', kind', name') <==>
            c == c' && d == d' && id == id' && kind == kind' && SanitizeName(name) == SanitizeName(name')
  {
    if BuildKey(c, d, id, kind, name) == BuildKey(c', d', id', kind', name') {
      var f, f' := FileName(id, kind, name), FileName(id', kind', name');
      FileNameIsPlain(id, kind, name);
      FileNameIsPlain(id', kind', name');
      assert BuildKey(c, d, id, kind, name) == (c + ['/'] + d) + ['/'] + f;
      assert BuildKey(c', d', id', kind', name') == (c' + ['/'] + d') + ['/'] + f';
      LastCutIsUnique(c + ['/'] + d, f, c' + ['/'] + d', f', '/');
      LastCutIsUnique(c, d, c', d', '/');
      CutIsUnique(id, ObjectTail(kind, name), id', ObjectTail(kind', name'), '_');
      SameTail(kind, name, kind', name');
    }
  }

  /** A name that Kubernetes gives to most objects: lower-case letters, digits, dashes and dots. */
  predicate DnsName(s: string) {
    s != "" && forall c | c in s :: 'a' <= c <= 'z' || '0' <= c <= '9' || c == '-' || c == '.'
  }

  lemma DnsNamesSurvive(s: string)
    requires DnsName(s)
    ensures SanitizeName(s) == s
  {
    assert forall i | 0 <= i < |s| :: s[i] in s;
  }

  /**
   So different objects never share a file: equal keys of two tasks, batch or single, mean the same cluster, day,
   task, position in the batch, kind and name.
   */
  lemma DifferentObjectsDifferentKeys(c: string, d: string, taskID: nat, i: nat, kind: string, name: string,
                                      c': string, d': string, taskID': nat, i': nat, kind': string, name': string)
    requires DateStr(d) && DateStr(d') && KindName(kind) && KindName(kind') && DnsName(name) && DnsName(name')
    ensures BatchKey(c, d, taskID, i, kind, name) == BatchKey(c', d', taskID', i', kind', name') <==>
            (c, d, taskID, i, kind, name) == (c', d', taskID', i', kind', name')
    ensures SingleKey(c, d, taskID, kind, name) == SingleKey(c', d', taskID', kind', name') <==>
            (c, d, taskID, kind, name) == (c', d', taskID', kind', name')
    ensures BatchKey(c, d, taskID, i, kind, name) != SingleKey(c', d', taskID', kind', name')
  {
    DateIsPlain(d);
    DateIsPlain(d');
    DnsNamesSurvive(name);
    DnsNamesSurvive(name');
    NumbersAreExact(taskID, i, taskID', i');
    KeysAreExact(c, d, BatchID(taskID, i), kind, name, c', d', BatchID(taskID', i'), kind', name');
    KeysAreExact(c, d, Decimal(taskID), kind, name, c', d', Decimal(taskID'), kind', name');
    KeysAreExact(c, d, BatchID(taskID, i), kind, name, c', d', Decimal(taskID'), kind', name');
  }

  lemma BatchNumbers(taskID: nat, i: nat, taskID': nat, i': nat)
    ensures BatchID(taskID, i) == BatchID(taskID', i') <==> taskID == taskID' && i == i'
  {
    DecimalIsPlain(taskID);
    DecimalIsPlain(taskID');
    if BatchID(taskID, i) == BatchID(taskID', i') {
      CutIsUnique(Decimal(taskID), Padded(i + 1), Decimal(taskID'), Padded(i' + 1), '-');
      DecimalInjective(taskID, taskID');
      PaddedInjective(i + 1, i' + 1);
    }
  }

  lemma BatchIsNoSingle(taskID: nat, i: nat, taskID': nat)
    ensures BatchID(taskID, i) != Decimal(taskID')
  {
    DecimalIsPlain(taskID');
    var s, n := BatchID(taskID, i), |Decimal(taskID)|;
    assert s[n] == '-' && s[n] in s;
  }

  lemma NumbersAreExact(taskID: nat, i: nat, taskID': nat, i': nat)
    ensures BackupNumber(BatchID(taskID, i)) && BackupNumber(BatchID(taskID', i')) && BackupNumber(Decimal(taskID)) && BackupNumber(Decimal(taskID'))
    ensures BatchID(taskID, i) == BatchID(taskID', i') <==> taskID == taskID' && i == i'
    ensures Decimal(taskID) == Decimal(taskID') <==> taskID == taskID'
    ensures BatchID(taskID, i) != Decimal(taskID')
  {
    BatchIDIsPlain(taskID, i);
    BatchIDIsPlain(taskID', i');
    DecimalIsPlain(taskID);
    DecimalIsPlain(taskID');
    BatchNumbers(taskID, i, taskID', i');
    BatchIsNoSingle(taskID, i, taskID');
    if Decimal(taskID) == Decimal(taskID') { DecimalInjective(taskID, taskID'); }
  }
}
