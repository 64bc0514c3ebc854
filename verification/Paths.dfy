/**
 Slash-separated paths as the storage plugins use them (Go's path/filepath on Unix) and the guarded
 join of backend/internal/plugins/storage/nfs.go. A path is resolved segment by segment; the
 functions on strings below print and split what the segment functions compute.
 */
module Paths {
  import opened Text

  /** An ordinary name: neither empty, nor a dot segment, nor holding a slash. */
  predicate Plain(seg: string) {
    seg != "" && seg != "." && seg != ".." && '/' !in seg
  }

  predicate AllPlain(segs: seq<string>) {
    forall seg | seg in segs :: Plain(seg)
  }

  predicate SlashFree(segs: seq<string>) {
    forall seg | seg in segs :: '/' !in seg
  }

  /** Resolved relative segments: climbs first, then ordinary names. */
  predicate Resolved(segs: seq<string>) {
    && (forall seg | seg in segs :: seg == ".." || Plain(seg))
    && (forall i, j | 0 <= i < j < |segs| && segs[j] == ".." :: segs[i] == "..")
  }

  /** Append one segment; ".." removes a name, stays at a root, and piles up otherwise. */
  function Enter(rooted: bool, acc: seq<string>, seg: string): seq<string> {
    if seg == "" || seg == "." then acc
    else if seg == ".." then
      if acc != [] && acc[|acc| - 1] != ".." then acc[..|acc| - 1]
      else if rooted then acc
      else acc + [".."]
    else acc + [seg]
  }

  function Walk(rooted: bool, acc: seq<string>, segs: seq<string>): seq<string> {
    if segs == [] then acc
    else Enter(rooted, Walk(rooted, acc, segs[..|segs| - 1]), segs[|segs| - 1])
  }

  predicate IsAbs(p: string) {
    p != "" && p[0] == '/'
  }

  /** The segments that `filepath.Clean` keeps. */
  function Segments(p: string): seq<string> {
    Walk(IsAbs(p), [], Split(p, '/'))
  }

  function PrintAbs(segs: seq<string>): string {
    "/" + Join(segs, '/')
  }

  function PrintRel(segs: seq<string>): string {
    if segs == [] then "." else Join(segs, '/')
  }

  /** `filepath.Clean`. */
  function Clean(p: string): string {
    if IsAbs(p) then PrintAbs(Segments(p)) else PrintRel(Segments(p))
  }

  /** `filepath.Join` of two elements. */
  function JoinPath(a: string, b: string): string {
    if a == "" then if b == "" then "" else Clean(b)
    else Clean(a + "/" + b)
  }

  /** `filepath.Abs` in the working directory `cwd`. */
  function Abs(cwd: string, p: string): string {
    if IsAbs(p) then Clean(p) else JoinPath(cwd, p)
  }

  /** The segments of `Abs(cwd, p)`. */
  function AbsSegments(cwd: string, p: string): seq<string> {
    if IsAbs(p) then Segments(p) else Walk(true, Segments(cwd), Split(p, '/'))
  }

  datatype Joined = Rejected | OutOfBase | Joined(path: string)

  /** The first test of `safeJoin`; it compares two characters with the three of "../". */
  predicate FirstTest(rel: string) {
    rel == ".." || (|rel| >= 2 && rel[..2] == ".." + "/")
  }

  /** `safeJoin`: a test on the relative text, the join, and a test that the result is inside the base. */
  function SafeJoin(cwd: string, baseDir: string, key: string): Joined {
    var cleaned := Clean(key);
    // filepath.Rel("/", cleaned) for an absolute key
    var rel := if IsAbs(cleaned) then (if cleaned == "/" then "." else cleaned[1..]) else cleaned;
    if FirstTest(rel) then Rejected
    else Contained(Abs(cwd, baseDir), Abs(cwd, JoinPath(baseDir, rel)))
  }

  /** The second test: the full path is the base, or starts with the base and a slash. */
  function Contained(baseAbs: string, fullAbs: string): Joined {
    var prefix := if HasSuffix(baseAbs, "/") then baseAbs else baseAbs + "/";
    if fullAbs != baseAbs && !(|fullAbs| > |prefix| && prefix <= fullAbs) then OutOfBase
    else Joined.Joined(fullAbs)
  }

  // ---- laws of walking ----

  lemma {:induction false} WalkConcat(rooted: bool, acc: seq<string>, a: seq<string>, b: seq<string>)
    ensures Walk(rooted, acc, a + b) == Walk(rooted, Walk(rooted, acc, a), b)
  {
    if b == [] {
      assert a + b == a;
    } else {
      WalkConcat(rooted, acc, a, b[..|b| - 1]);
      assert (a + b)[..|a + b| - 1] == a + b[..|b| - 1];
    }
  }

  lemma {:induction false} WalkPlain(rooted: bool, acc: seq<string>, segs: seq<string>)
    requires AllPlain(segs)
    ensures Walk(rooted, acc, segs) == acc + segs
  {
    if segs != [] {
      var init, last := segs[..|segs| - 1], segs[|segs| - 1];
      assert forall s | s in init :: s in segs;
      WalkPlain(rooted, acc, init);
      assert Plain(last) && acc + segs == acc + init + [last];
    }
  }

  lemma {:induction false} WalkRooted(acc: seq<string>, segs: seq<string>)
    requires AllPlain(acc) && SlashFree(segs)
    ensures AllPlain(Walk(true, acc, segs))
  {
    if segs != [] {
      WalkRooted(acc, segs[..|segs| - 1]);
    }
  }

  lemma {:induction false} WalkRelative(segs: seq<string>)
    requires SlashFree(segs)
    ensures Resolved(Walk(false, [], segs))
  {
    if segs != [] {
      WalkRelative(segs[..|segs| - 1]);
      var acc := Walk(false, [], segs[..|segs| - 1]);
      assert Walk(false, [], segs) == Enter(false, acc, segs[|segs| - 1]);
      EnterResolved(acc, segs[|segs| - 1]);
    }
  }

  lemma EnterResolved(acc: seq<string>, seg: string)
    requires Resolved(acc) && '/' !in seg
    ensures Resolved(Enter(false, acc, seg))
  {
    var acc' := Enter(false, acc, seg);
    assert forall s | s in acc' :: s in acc || s == seg;
    if seg == ".." && acc' == acc + [".."] && acc != [] {
      assert acc[|acc| - 1] == "..";
    }
  }

  /** Resolved segments are left alone by walking them again. */
  lemma {:induction false} WalkAgain(segs: seq<string>)
    requires Resolved(segs)
    ensures Walk(false, [], segs) == segs
  {
    if segs != [] {
      var init, last := segs[..|segs| - 1], segs[|segs| - 1];
      assert forall s | s in init :: s in segs;
      assert Resolved(init);
      WalkAgain(init);
      assert segs == init + [last] && last in segs;
      assert last == ".." && init != [] ==> init[|init| - 1] == "..";
    }
  }

  /** Resolving a relative walk first, or walking it directly from a root, comes to the same. */
  lemma {:induction false} WalkFromRoot(root: seq<string>, segs: seq<string>)
    requires AllPlain(root) && SlashFree(segs)
    ensures Walk(true, root, Walk(false, [], segs)) == Walk(true, root, segs)
  {
    if segs != [] {
      var init, last := segs[..|segs| - 1], segs[|segs| - 1];
      assert forall s | s in init :: s in segs;
      WalkFromRoot(root, init);
      WalkRelative(init);
      WalkRooted(root, init);
      EnterFromRoot(root, Walk(false, [], init), last);
    }
  }

  lemma EnterFromRoot(root: seq<string>, acc: seq<string>, seg: string)
    requires Resolved(acc)
    ensures Walk(true, root, Enter(false, acc, seg)) == Enter(true, Walk(true, root, acc), seg)
  {
    var acc' := Enter(false, acc, seg);
    if acc' == acc + [seg] {
      assert acc'[..|acc'| - 1] == acc;
    } else if acc' != acc {
      assert acc' == acc[..|acc| - 1] && acc[|acc| - 1] in acc;
    }
  }

  // ---- printing and splitting ----

  lemma SplitIsSlashFree(p: string)
    ensures SlashFree(Split(p, '/'))
  {
    SplitPartsAreFree(p, '/');
  }

  lemma SegmentsOfAbs(segs: seq<string>)
    requires AllPlain(segs)
    ensures IsAbs(PrintAbs(segs)) && Segments(PrintAbs(segs)) == segs
  {
    var p := PrintAbs(segs);
    SplitConcat("", Join(segs, '/'), '/');
    assert "" + ['/'] + Join(segs, '/') == p;
    WalkConcat(true, [], [""], Split(Join(segs, '/'), '/'));
    assert Walk(true, [], [""]) == [] by {
      assert [""][..0] == [];
    }
    if segs == [] {
      assert Split("", '/') == [""];
    } else {
      SplitJoin(segs, '/');
      WalkPlain(true, [], segs);
    }
  }

  lemma SegmentsOfRel(segs: seq<string>)
    requires Resolved(segs)
    ensures !IsAbs(PrintRel(segs)) && Walk(false, [], Split(PrintRel(segs), '/')) == segs
    ensures segs != [] ==> Split(PrintRel(segs), '/') == segs
  {
    if segs == [] {
      SplitFree(".", '/');
      assert ["."][..0] == [];
    } else {
      SplitJoin(segs, '/');
      WalkAgain(segs);
      assert segs[0] in segs;
      assert Join(segs, '/')[0] == segs[0][0] && segs[0][0] in segs[0];
    }
  }

  lemma AbsPrints(cwd: string, p: string)
    requires IsAbs(cwd)
    ensures Abs(cwd, p) == PrintAbs(AbsSegments(cwd, p)) && AllPlain(AbsSegments(cwd, p))
  {
    SplitIsSlashFree(cwd);
    SplitIsSlashFree(p);
    WalkRooted([], Split(cwd, '/'));
    if IsAbs(p) {
      WalkRooted([], Split(p, '/'));
    } else {
      SplitConcat(cwd, p, '/');
      assert cwd + "/" + p == cwd + ['/'] + p;
      WalkConcat(true, [], Split(cwd, '/'), Split(p, '/'));
      WalkRooted(Segments(cwd), Split(p, '/'));
    }
  }

  /** Does the cleaned key start by leaving the directory it is taken from? */
  predicate Climbs(key: string) {
    !IsAbs(key) && Segments(key) != [] && Segments(key)[0] == ".."
  }

  /** The cleaned key, relative to the base. */
  lemma KeySegments(key: string)
    ensures Resolved(Segments(key))
    ensures !Climbs(key) ==> AllPlain(Segments(key))
  {
    SplitIsSlashFree(key);
    if IsAbs(key) {
      WalkRooted([], Split(key, '/'));
      assert forall i | 0 <= i < |Segments(key)| :: Segments(key)[i] in Segments(key);
    } else {
      WalkRelative(Split(key, '/'));
      assert !Climbs(key) ==> forall i | 0 <= i < |Segments(key)| :: Segments(key)[i] != "..";
    }
  }

  /** The text that `safeJoin` tests and joins. */
  function RelText(key: string): string {
    var cleaned := Clean(key);
    if IsAbs(cleaned) then (if cleaned == "/" then "." else cleaned[1..]) else cleaned
  }

  lemma RelTextPrints(key: string)
    ensures RelText(key) == PrintRel(Segments(key))
  {
    KeySegments(key);
    var segs := Segments(key);
    if IsAbs(key) {
      SegmentsOfAbs(segs);
      assert PrintAbs(segs)[1..] == Join(segs, '/');
      if segs != [] {
        assert segs[0] in segs;
        assert Join(segs, '/') != "";
      }
    } else {
      SegmentsOfRel(segs);
    }
  }

  /** The first test can only see the text ".."; a longer climb passes it. */
  lemma FirstTestIsDotDot(key: string)
    ensures FirstTest(RelText(key)) <==> Segments(key) == [".."]
  {
    RelTextPrints(key);
    KeySegments(key);
    var segs := Segments(key);
    assert FirstTest(RelText(key)) <==> RelText(key) == "..";
    if segs != [] {
      SegmentsOfRel(segs);
      SplitFree("..", '/');
      assert RelText(key) == ".." ==> segs == Split("..", '/');
    }
  }

  lemma AllPlainConcat(a: seq<string>, b: seq<string>)
    requires AllPlain(a) && AllPlain(b)
    ensures AllPlain(a + b)
  {
  }

  lemma EmptyWalk(acc: seq<string>)
    ensures Walk(true, acc, Split("", '/')) == acc
  {
    assert Split("", '/')[..0] == [];
  }

  /** Printing resolved segments and splitting them again does not change the walk. */
  lemma RelWalk(acc: seq<string>, segs: seq<string>)
    requires Resolved(segs)
    ensures Walk(true, acc, Split(PrintRel(segs), '/')) == Walk(true, acc, segs)
  {
    SegmentsOfRel(segs);
    if segs == [] {
      SplitFree(".", '/');
      assert ["."][..0] == [];
    }
  }

  /** The absolute form of a join, segment by segment: the base first, then the text. */
  lemma JoinWalks(cwd: string, baseDir: string, text: string)
    requires IsAbs(cwd) && !IsAbs(text)
    ensures Abs(cwd, JoinPath(baseDir, text)) == PrintAbs(Walk(true, AbsSegments(cwd, baseDir), Split(text, '/')))
  {
    SplitIsSlashFree(cwd);
    WalkRooted([], Split(cwd, '/'));
    if baseDir == "" {
      EmptyWalk(Segments(cwd));
      JoinOntoDirectory(cwd, text);
    } else {
      var joined := baseDir + "/" + text;
      SplitConcat(baseDir, text, '/');
      assert joined == baseDir + ['/'] + text && IsAbs(joined) == IsAbs(baseDir);
      if IsAbs(baseDir) {
        WalkConcat(true, [], Split(baseDir, '/'), Split(text, '/'));
        AbsIsClean(cwd, joined);
      } else {
        JoinOntoDirectory(cwd, joined);
        WalkConcat(true, Segments(cwd), Split(baseDir, '/'), Split(text, '/'));
      }
    }
  }

  lemma AbsIsClean(cwd: string, p: string)
    requires IsAbs(p)
    ensures Abs(cwd, Clean(p)) == PrintAbs(Segments(p))
  {
    SplitIsSlashFree(p);
    WalkRooted([], Split(p, '/'));
    SegmentsOfAbs(Segments(p));
  }

  /** Cleaning a relative text before it is made absolute makes no difference. */
  lemma JoinOntoDirectory(cwd: string, text: string)
    requires IsAbs(cwd) && !IsAbs(text)
    ensures Abs(cwd, if text == "" then "" else Clean(text)) == PrintAbs(Walk(true, Segments(cwd), Split(text, '/')))
  {
    SplitIsSlashFree(cwd);
    WalkRooted([], Split(cwd, '/'));
    if text == "" {
      AbsPrints(cwd, "");
    } else {
      var segs := Segments(text);
      SplitIsSlashFree(text);
      WalkRelative(Split(text, '/'));
      SegmentsOfRel(segs);
      AbsPrints(cwd, Clean(text));
      RelWalk(Segments(cwd), segs);
      WalkFromRoot(Segments(cwd), Split(text, '/'));
    }
  }

  // ---- climbing and coming back ----

  /** How many of the leading segments climb. */
  function Ups(segs: seq<string>): (k: nat)
    ensures k <= |segs|
    ensures forall i | 0 <= i < k :: segs[i] == ".."
    ensures k < |segs| ==> segs[k] != ".."
  {
    if segs == [] || segs[0] != ".." then 0 else 1 + Ups(segs[1..])
  }

  function Min(a: nat, b: nat): nat { if a < b then a else b }

  lemma {:induction false} WalkUps(base: seq<string>, ups: seq<string>)
    requires AllPlain(base) && forall i | 0 <= i < |ups| :: ups[i] == ".."
    ensures Walk(true, base, ups) == base[..|base| - Min(|ups|, |base|)]
  {
    if ups != [] {
      var init := ups[..|ups| - 1];
      WalkUps(base, init);
      var above := base[..|base| - Min(|init|, |base|)];
      if above != [] {
        assert above[|above| - 1] in base;
        assert above[..|above| - 1] == base[..|base| - Min(|ups|, |base|)];
      }
    }
  }

  /** The segments after the climb are names. */
  lemma NamesAfterUps(segs: seq<string>)
    requires Resolved(segs)
    ensures AllPlain(segs[Ups(segs)..])
  {
    var k := Ups(segs);
    forall i | k <= i < |segs|
      ensures Plain(segs[i])
    {
      assert segs[i] in segs && segs[k] != "..";
    }
  }

  /** A climb from a directory drops its last names, as far as there are any; the rest is appended. */
  lemma WalkClimbs(base: seq<string>, segs: seq<string>)
    requires AllPlain(base) && Resolved(segs)
    ensures Walk(true, base, segs) == base[..|base| - Min(Ups(segs), |base|)] + segs[Ups(segs)..]
    ensures AllPlain(Walk(true, base, segs))
  {
    var k := Ups(segs);
    NamesAfterUps(segs);
    assert segs == segs[..k] + segs[k..];
    UpThenDown(base, segs[..k], segs[k..]);
  }

  lemma UpThenDown(base: seq<string>, ups: seq<string>, names: seq<string>)
    requires AllPlain(base) && AllPlain(names) && forall i | 0 <= i < |ups| :: ups[i] == ".."
    ensures var above := base[..|base| - Min(|ups|, |base|)];
            Walk(true, base, ups + names) == above + names && AllPlain(above + names)
  {
    var above := base[..|base| - Min(|ups|, |base|)];
    WalkConcat(true, base, ups, names);
    WalkUps(base, ups);
    WalkPlain(true, above, names);
    assert forall s | s in above :: s in base;
    AllPlainConcat(above, names);
  }

  // ---- main results ----

  lemma PrintedPrefix(base: seq<string>, segs: seq<string>)
    requires AllPlain(base) && AllPlain(segs) && segs != []
    ensures var b, f := PrintAbs(base), PrintAbs(base + segs);
            var prefix := if HasSuffix(b, "/") then b else b + "/";
            |f| > |prefix| && prefix <= f
  {
    var b, f := PrintAbs(base), PrintAbs(base + segs);
    assert segs[0] in segs && Join(segs, '/') != "";
    if base == [] {
      assert base + segs == segs;
      assert b == "/";
    } else {
      JoinConcat(base, segs);
      assert f == b + "/" + Join(segs, '/');
      NoTrailingSlash(base);
    }
  }

  lemma {:induction false} JoinConcat(a: seq<string>, b: seq<string>)
    requires a != [] && b != []
    ensures Join(a + b, '/') == Join(a, '/') + "/" + Join(b, '/')
  {
    if |a| == 1 {
      assert (a + b)[1..] == b;
    } else {
      JoinConcat(a[1..], b);
      assert (a + b)[1..] == a[1..] + b;
    }
  }

  lemma {:induction false} NoTrailingSlash(segs: seq<string>)
    requires AllPlain(segs) && segs != []
    ensures Join(segs, '/') != "" && Join(segs, '/')[|Join(segs, '/')| - 1] != '/'
  {
    if |segs| == 1 {
      assert segs[0] in segs && segs[0][|segs[0]| - 1] in segs[0];
    } else {
      NoTrailingSlash(segs[1..]);
    }
  }

  /** A printed path that is longer than the printed base and starts with it and a slash lies below it. */
  lemma PrintedBelow(base: seq<string>, full: seq<string>)
    requires AllPlain(base) && AllPlain(full)
    requires var b, f := PrintAbs(base), PrintAbs(full);
             var prefix := if HasSuffix(b, "/") then b else b + "/";
             |f| > |prefix| && prefix <= f
    ensures base <= full
  {
    if base != [] {
      NoTrailingSlash(base);
      var f := PrintAbs(full);
      var head := Join(base, '/');
      var rest := f[|head| + 2..];
      assert f == "/" + (head + ['/'] + rest);
      assert Join(full, '/') == head + ['/'] + rest by { assert f[1..] == Join(full, '/'); }
      SplitConcat(head, rest, '/');
      SplitJoin(base, '/');
      SplitJoin(full, '/');
    }
  }

  /** The second test decides whether the full path is the base or lies below it. */
  lemma ContainedIsExact(base: seq<string>, full: seq<string>)
    requires AllPlain(base) && AllPlain(full)
    ensures Contained(PrintAbs(base), PrintAbs(full)) == if base <= full then Joined.Joined(PrintAbs(full)) else OutOfBase
  {
    if base <= full {
      var segs := full[|base|..];
      assert full == base + segs;
      if segs == [] {
        assert full == base;
      } else {
        assert forall s | s in segs :: s in full;
        PrintedPrefix(base, segs);
      }
    } else {
      SegmentsOfAbs(base);
      SegmentsOfAbs(full);
      var b, f := PrintAbs(base), PrintAbs(full);
      var prefix := if HasSuffix(b, "/") then b else b + "/";
      if |f| > |prefix| && prefix <= f {
        PrintedBelow(base, full);
      }
    }
  }

  /** The file that a key names under a base: climb from the base, then go down. */
  function Target(cwd: string, baseDir: string, key: string): seq<string> {
    Walk(true, AbsSegments(cwd, baseDir), Segments(key))
  }

  lemma TargetIsPlain(cwd: string, baseDir: string, key: string)
    requires IsAbs(cwd)
    ensures AllPlain(AbsSegments(cwd, baseDir)) && AllPlain(Target(cwd, baseDir, key))
    ensures !Climbs(key) ==> Target(cwd, baseDir, key) == AbsSegments(cwd, baseDir) + Segments(key)
  {
    AbsPrints(cwd, baseDir);
    KeySegments(key);
    WalkClimbs(AbsSegments(cwd, baseDir), Segments(key));
    if !Climbs(key) { WalkPlain(true, AbsSegments(cwd, baseDir), Segments(key)); }
  }

  /**
   For every working directory, base and key: the key whose cleaned text is ".." is rejected by the first
   test; any other key is accepted exactly when the file it names is the base or lies below it.
   */
  lemma SafeJoinIsExact(cwd: string, baseDir: string, key: string)
    requires IsAbs(cwd)
    ensures var full := Target(cwd, baseDir, key);
            SafeJoin(cwd, baseDir, key) ==
            if Segments(key) == [".."] then Rejected
            else if AbsSegments(cwd, baseDir) <= full then Joined.Joined(PrintAbs(full))
            else OutOfBase
  {
    FirstTestIsDotDot(key);
    RelTextPrints(key);
    KeySegments(key);
    SegmentsOfRel(Segments(key));
    AbsPrints(cwd, baseDir);
    JoinWalks(cwd, baseDir, RelText(key));
    RelWalk(AbsSegments(cwd, baseDir), Segments(key));
    TargetIsPlain(cwd, baseDir, key);
    ContainedIsExact(AbsSegments(cwd, baseDir), Target(cwd, baseDir, key));
  }

  /** Whatever is accepted is the base itself or lies below it. */
  lemma JoinedStaysInside(cwd: string, baseDir: string, key: string)
    requires IsAbs(cwd) && SafeJoin(cwd, baseDir, key).Joined?
    ensures var path := SafeJoin(cwd, baseDir, key).path;
            IsAbs(path) && AllPlain(Segments(path)) && AbsSegments(cwd, baseDir) <= Segments(path)
  {
    SafeJoinIsExact(cwd, baseDir, key);
    TargetIsPlain(cwd, baseDir, key);
    SegmentsOfAbs(Target(cwd, baseDir, key));
  }

  /** Does the key, after climbing out of the base, name the directories it has left again? */
  predicate ComesBack(base: seq<string>, segs: seq<string>) {
    base[|base| - Min(Ups(segs), |base|)..] <= segs[Ups(segs)..]
  }

  /** Exactly which keys are accepted: all but "..", provided that the names it climbed over come back. */
  lemma AcceptedKeys(cwd: string, baseDir: string, key: string)
    requires IsAbs(cwd)
    ensures SafeJoin(cwd, baseDir, key).Joined? <==>
            Segments(key) != [".."] && ComesBack(AbsSegments(cwd, baseDir), Segments(key))
    ensures !Climbs(key) ==> SafeJoin(cwd, baseDir, key).Joined?
  {
    SafeJoinIsExact(cwd, baseDir, key);
    TargetComesBack(cwd, baseDir, key);
    if !Climbs(key) {
      TargetIsPlain(cwd, baseDir, key);
      KeySegments(key);
      assert ".." !in Segments(key) && ".." in [".."];
    }
  }

  lemma TargetComesBack(cwd: string, baseDir: string, key: string)
    requires IsAbs(cwd)
    ensures AbsSegments(cwd, baseDir) <= Target(cwd, baseDir, key) <==> ComesBack(AbsSegments(cwd, baseDir), Segments(key))
  {
    var base, segs := AbsSegments(cwd, baseDir), Segments(key);
    AbsPrints(cwd, baseDir);
    KeySegments(key);
    WalkClimbs(base, segs);
    BackInside(base, segs, Min(Ups(segs), |base|));
  }

  lemma BackInside(base: seq<string>, segs: seq<string>, m: nat)
    requires m <= |base|
    ensures var down := segs[Ups(segs)..];
            base <= base[..|base| - m] + down <==> base[|base| - m..] <= down
  {
    assert base == base[..|base| - m] + base[|base| - m..];
    SameHead(base[..|base| - m], base[|base| - m..], segs[Ups(segs)..]);
  }

  lemma SameHead(head: seq<string>, x: seq<string>, y: seq<string>)
    ensures head + x <= head + y <==> x <= y
  {
    assert (head + x)[|head|..] == x && (head + y)[|head|..] == y;
    if head + x <= head + y {
      assert (head + y)[..|head + x|][|head|..] == y[..|x|];
    }
    if x <= y {
      assert head + y == (head + x) + y[|x|..];
    }
  }

  /** Both kinds of climbing key: one comes back into the base, one does not and meets the second test. */
  lemma ClimbingKeys()
    ensures Climbs("../b/x") && SafeJoin("/", "/b", "../b/x") == Joined.Joined("/b/x")
    ensures Climbs("../x") && SafeJoin("/", "/b", "../x") == OutOfBase
  {
    assert Join(["x"], '/') == "x";
    assert ["b", "x"][1..] == ["x"];
    assert Join(["b", "x"], '/') == "b" + ['/'] + "x" == "b/x";
    assert "../" + "b/x" == "../b/x" && "/" + "b" == "/b" && "../" + "x" == "../x" && "/" + "b/x" == "/b/x";
    OneClimb("b", ["b", "x"]);
    OneClimb("b", ["x"]);
  }

  /** From a base that is one directory below the root. */
  lemma OneClimb(name: string, rest: seq<string>)
    requires Plain(name) && AllPlain(rest) && rest != []
    ensures var key := "../" + Join(rest, '/');
            && Climbs(key)
            && SafeJoin("/", "/" + name, key) == if rest[0] == name then Joined.Joined("/" + Join(rest, '/')) else OutOfBase
  {
    var key := "../" + Join(rest, '/');
    SegmentsOfAbs([name]);
    assert PrintAbs([name]) == "/" + name;
    assert forall i | 0 <= i < |rest| :: rest[i] in rest;
    ClimbOf(key, rest);
    UpAndDown(name, rest);
    SafeJoinIsExact("/", "/" + name, key);
  }

  lemma UpAndDown(name: string, rest: seq<string>)
    requires Plain(name) && AllPlain(rest) && rest != []
    ensures Walk(true, [name], [".."] + rest) == rest && ([name] <= rest <==> rest[0] == name)
  {
    WalkConcat(true, [name], [".."], rest);
    assert Walk(true, [name], [".."]) == [] by { assert [".."][..0] == []; }
    WalkPlain(true, [], rest);
    assert [] + rest == rest;
  }

  lemma ClimbOf(key: string, rest: seq<string>)
    requires Resolved([".."] + rest) && rest != [] && key == "../" + Join(rest, '/')
    ensures Segments(key) == [".."] + rest && Climbs(key)
  {
    assert ([".."] + rest)[1..] == rest;
    assert PrintRel([".."] + rest) == key;
    SegmentsOfRel([".."] + rest);
  }

  /** The file that local `Download` and `Delete` open. */
  function LocalPath(cwd: string, baseDir: string, key: string): string {
    Abs(cwd, if IsAbs(key) then key else JoinPath(baseDir, key))
  }

  /** A relative key, climbing or not, opens the file it names under the base; an absolute one is taken as it is. */
  lemma LocalPathIsExact(cwd: string, baseDir: string, key: string)
    requires IsAbs(cwd)
    ensures LocalPath(cwd, baseDir, key) == PrintAbs(if IsAbs(key) then Segments(key) else Target(cwd, baseDir, key))
  {
    if !IsAbs(key) {
      JoinWalks(cwd, baseDir, key);
      AbsPrints(cwd, baseDir);
      SplitIsSlashFree(key);
      WalkFromRoot(AbsSegments(cwd, baseDir), Split(key, '/'));
    }
  }

  /**
   Among the keys that local `Upload` accepts, `Download` reads the file that was written exactly when the key
   is relative or the base is the root directory.
   */
  lemma UploadAndDownloadAgree(cwd: string, baseDir: string, key: string)
    requires IsAbs(cwd) && SafeJoin(cwd, baseDir, key).Joined?
    ensures SafeJoin(cwd, baseDir, key).path == LocalPath(cwd, baseDir, key) <==>
            !IsAbs(key) || AbsSegments(cwd, baseDir) == []
  {
    SafeJoinIsExact(cwd, baseDir, key);
    LocalPathIsExact(cwd, baseDir, key);
    if IsAbs(key) {
      var base, segs := AbsSegments(cwd, baseDir), Segments(key);
      KeySegments(key);
      TargetIsPlain(cwd, baseDir, key);
      SegmentsOfAbs(segs);
      SegmentsOfAbs(base + segs);
      assert base + segs == segs <==> base == [] by {
        assert |base + segs| == |base| + |segs|;
        assert base == [] ==> base + segs == segs;
      }
    }
  }
}
