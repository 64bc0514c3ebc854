/**
 Permission trees (backend/internal/auth/service.go): the permission points and the data
 scopes of one user, the queries over them, and the fold that builds a tree from the rows
 of the role join.
 */
module Permissions {
  import opened Basics
  import opened Text

  datatype ScopeType = PlatformScope | ClusterScope | NamespaceScope

  datatype Scope = Scope(scopeType: ScopeType, clusterCode: string, namespace_: string)

  datatype PermissionTree = PermissionTree(perms: set<string>, scopes: seq<Scope>, isPlatformAdmin: bool)

  // ---- permission points ----

  /** The part of a permission code before its first colon, followed by ":*". */
  function ModuleWildcard(code: string): string {
    Split(code, ':')[0] + ":*"
  }

  /** What `HasPerm` decides: a literal, a module wildcard or the platform wildcard. */
  predicate HasPerm(pt: PermissionTree, code: string) {
    || pt.isPlatformAdmin
    || "*:*" in pt.perms
    || code in pt.perms
    || (':' in code && ModuleWildcard(code) in pt.perms)
  }

  lemma FirstColon(code: string, i: nat)
    requires i < |code| && code[i] == ':' && ':' !in code[..i]
    ensures Split(code, ':')[0] == code[..i]
  {
    FirstPart(code[..i], code[i + 1..]);
    assert code[..i] + [':'] + code[i + 1..] == code;
  }

  lemma FirstPart(head: string, tail: string)
    requires ':' !in head
    ensures Split(head + [':'] + tail, ':')[0] == head
  {
    SplitConcat(head, tail, ':');
    SplitFree(head, ':');
  }

  /** One granted code covers a permission point: it is the platform wildcard, the point, or the wildcard of its module. */
  predicate Covers(granted: string, code: string) {
    || granted == "*:*"
    || granted == code
    || exists i | 0 <= i < |code| && code[i] == ':' && ':' !in code[..i] :: granted == code[..i] + ":*"
  }

  lemma HasPermCovers(pt: PermissionTree, code: string)
    ensures HasPerm(pt, code) <==> pt.isPlatformAdmin || exists p | p in pt.perms :: Covers(p, code)
  {
    forall i | 0 <= i < |code| && code[i] == ':' && ':' !in code[..i]
      ensures ModuleWildcard(code) == code[..i] + ":*"
    {
      FirstColon(code, i);
    }
    if ':' in code {
      var i := FirstColonOf(code);
      FirstColon(code, i);
      assert Covers(ModuleWildcard(code), code);
    }
    assert Covers("*:*", code) && Covers(code, code);
  }

  lemma {:induction false} FirstColonOf(code: string) returns (i: nat)
    requires ':' in code
    ensures i < |code| && code[i] == ':' && ':' !in code[..i]
  {
    if code[0] == ':' {
      i := 0;
    } else {
      assert code == [code[0]] + code[1..];
      i := FirstColonOf(code[1..]);
      assert code[..i + 1] == [code[0]] + code[1..][..i];
      i := i + 1;
    }
  }

  method QueryPerm(pt: PermissionTree, code: string) returns (granted: bool)
    ensures granted == HasPerm(pt, code)
    ensures granted <==> pt.isPlatformAdmin || exists p | p in pt.perms :: Covers(p, code)
  {
    HasPermCovers(pt, code);
    if pt.isPlatformAdmin {
      return true;
    }
    if "*:*" in pt.perms {
      return true;
    }
    if code in pt.perms {
      return true;
    }
    for i := 0 to |code|
      invariant ':' !in code[..i]
    {
      if code[i] == ':' {
        FirstColon(code, i);
        if code[..i] + ":*" in pt.perms {
          return true;
        }
        return false;
      }
    }
    assert code[..|code|] == code;
    return false;
  }

  // ---- data scopes ----

  /** Whole-cluster scope: the platform, or this cluster. A namespace grant is not enough. */
  predicate HasClusterScope(pt: PermissionTree, clusterCode: string) {
    || pt.isPlatformAdmin
    || exists sc | sc in pt.scopes :: sc.scopeType.PlatformScope? || (sc.scopeType.ClusterScope? && sc.clusterCode == clusterCode)
  }

  /** Any scope at all on the cluster. */
  predicate HasAnyAccessToCluster(pt: PermissionTree, clusterCode: string) {
    || HasClusterScope(pt, clusterCode)
    || exists sc | sc in pt.scopes :: sc.scopeType.NamespaceScope? && sc.clusterCode == clusterCode
  }

  /** Scope on one namespace of one cluster. */
  predicate HasNamespaceScope(pt: PermissionTree, clusterCode: string, namespace_: string) {
    || pt.isPlatformAdmin
    || exists sc | sc in pt.scopes ::
         || sc.scopeType.PlatformScope?
         || (sc.clusterCode == clusterCode
             && (sc.scopeType.ClusterScope? || (sc.scopeType.NamespaceScope? && sc.namespace_ == namespace_)))
  }

  method QueryClusterScope(pt: PermissionTree, clusterCode: string) returns (granted: bool)
    ensures granted == HasClusterScope(pt, clusterCode)
  {
    if pt.isPlatformAdmin {
      return true;
    }
    for i := 0 to |pt.scopes|
      invariant forall sc | sc in pt.scopes[..i] :: !sc.scopeType.PlatformScope? && !(sc.scopeType.ClusterScope? && sc.clusterCode == clusterCode)
    {
      var sc := pt.scopes[i];
      if sc.scopeType == PlatformScope {
        return true;
      }
      if sc.scopeType == ClusterScope && sc.clusterCode == clusterCode {
        return true;
      }
    }
    return false;
  }

  method QueryAnyAccess(pt: PermissionTree, clusterCode: string) returns (granted: bool)
    ensures granted == HasAnyAccessToCluster(pt, clusterCode)
  {
    var whole := QueryClusterScope(pt, clusterCode);
    if whole {
      return true;
    }
    for i := 0 to |pt.scopes|
      invariant forall sc | sc in pt.scopes[..i] :: !(sc.scopeType.NamespaceScope? && sc.clusterCode == clusterCode)
    {
      var sc := pt.scopes[i];
      if sc.scopeType == NamespaceScope && sc.clusterCode == clusterCode {
        return true;
      }
    }
    return false;
  }

  method QueryNamespaceScope(pt: PermissionTree, clusterCode: string, namespace_: string) returns (granted: bool)
    ensures granted == HasNamespaceScope(pt, clusterCode, namespace_)
  {
    if pt.isPlatformAdmin {
      return true;
    }
    for i := 0 to |pt.scopes|
      invariant forall sc | sc in pt.scopes[..i] ::
        && !sc.scopeType.PlatformScope?
        && (sc.clusterCode == clusterCode ==> !sc.scopeType.ClusterScope? && sc.namespace_ != namespace_)
    {
      var sc := pt.scopes[i];
      if sc.scopeType == PlatformScope {
        return true;
      }
      if sc.clusterCode != clusterCode {
        continue;
      }
      match sc.scopeType {
        case ClusterScope => return true;
        case NamespaceScope =>
          if sc.namespace_ == namespace_ {
            return true;
          }
        case PlatformScope =>
      }
    }
    return false;
  }

  /** A list of names, or all of them. */
  datatype Allowed = Allowed(names: seq<string>, all: bool)

  /** The namespaces granted one by one on a cluster, in scope order. */
  function NamespacesOf(scopes: seq<Scope>, clusterCode: string): seq<string> {
    if scopes == [] then []
    else
      var init, last := scopes[..|scopes| - 1], scopes[|scopes| - 1];
      NamespacesOf(init, clusterCode)
      + if last.scopeType.NamespaceScope? && last.clusterCode == clusterCode then [last.namespace_] else []
  }

  method AllowedNamespaces(pt: PermissionTree, clusterCode: string) returns (r: Allowed)
    ensures r.all <==> HasClusterScope(pt, clusterCode)
    ensures r.names == if r.all then [] else NamespacesOf(pt.scopes, clusterCode)
  {
    if pt.isPlatformAdmin {
      return Allowed([], true);
    }
    for i := 0 to |pt.scopes|
      invariant forall sc | sc in pt.scopes[..i] :: !sc.scopeType.PlatformScope? && !(sc.scopeType.ClusterScope? && sc.clusterCode == clusterCode)
    {
      var sc := pt.scopes[i];
      if sc.scopeType == PlatformScope {
        return Allowed([], true);
      }
      if sc.clusterCode == clusterCode && sc.scopeType == ClusterScope {
        return Allowed([], true);
      }
    }
    var nsList := [];
    for i := 0 to |pt.scopes|
      invariant nsList == NamespacesOf(pt.scopes[..i], clusterCode)
    {
      var sc := pt.scopes[i];
      assert pt.scopes[..i + 1][..i] == pt.scopes[..i];
      if sc.scopeType == NamespaceScope && sc.clusterCode == clusterCode {
        nsList := nsList + [sc.namespace_];
      }
    }
    assert pt.scopes[..|pt.scopes|] == pt.scopes;
    return Allowed(nsList, false);
  }

  lemma {:induction false} NamespacesOfMembers(scopes: seq<Scope>, clusterCode: string, n: string)
    ensures n in NamespacesOf(scopes, clusterCode) <==>
            exists sc | sc in scopes :: sc.scopeType.NamespaceScope? && sc.clusterCode == clusterCode && sc.namespace_ == n
  {
    if scopes != [] {
      var init, last := scopes[..|scopes| - 1], scopes[|scopes| - 1];
      NamespacesOfMembers(init, clusterCode, n);
      assert scopes == init + [last];
    }
  }

  /**
   The scope queries never contradict each other: a namespace is granted exactly when the whole
   cluster is or the namespace is listed, and a cluster is accessible exactly when it is whole or
   the list is not empty.
   */
  lemma ScopeQueriesAgree(pt: PermissionTree, clusterCode: string, n: string)
    ensures HasNamespaceScope(pt, clusterCode, n) <==>
            HasClusterScope(pt, clusterCode) || n in NamespacesOf(pt.scopes, clusterCode)
    ensures HasAnyAccessToCluster(pt, clusterCode) <==>
            HasClusterScope(pt, clusterCode) || NamespacesOf(pt.scopes, clusterCode) != []
  {
    NamespacesOfMembers(pt.scopes, clusterCode, n);
    var names := NamespacesOf(pt.scopes, clusterCode);
    if names != [] {
      NamespacesOfMembers(pt.scopes, clusterCode, names[0]);
    }
    forall sc | sc in pt.scopes && sc.scopeType.NamespaceScope? && sc.clusterCode == clusterCode
      ensures sc.namespace_ in names
    {
      NamespacesOfMembers(pt.scopes, clusterCode, sc.namespace_);
    }
  }

  function Longest(names: seq<string>): nat {
    if names == [] then 0
    else
      var rest, last := Longest(names[..|names| - 1]), |names[|names| - 1]|;
      if rest < last then last else rest
  }

  lemma {:induction false} LongerIsNew(names: seq<string>, name: string)
    requires |name| > Longest(names)
    ensures name !in names
  {
    if names != [] {
      LongerIsNew(names[..|names| - 1], name);
      assert names == names[..|names| - 1] + [names[|names| - 1]];
    }
  }

  /** Whole-cluster scope is scope on every namespace: no list of namespaces amounts to it. */
  lemma WholeIsEveryNamespace(pt: PermissionTree, clusterCode: string)
    ensures HasClusterScope(pt, clusterCode) <==> forall n :: HasNamespaceScope(pt, clusterCode, n)
  {
    var names := NamespacesOf(pt.scopes, clusterCode);
    var fresh_ := seq(Longest(names) + 1, _ => 'n');
    LongerIsNew(names, fresh_);
    forall n: string
      ensures HasNamespaceScope(pt, clusterCode, n) <==> HasClusterScope(pt, clusterCode) || n in names
    {
      ScopeQueriesAgree(pt, clusterCode, n);
    }
    assert HasNamespaceScope(pt, clusterCode, fresh_) <==> HasClusterScope(pt, clusterCode);
  }

  method AllowedClusters(pt: PermissionTree) returns (r: Allowed)
    ensures r.all <==> pt.isPlatformAdmin || exists sc | sc in pt.scopes :: sc.scopeType.PlatformScope?
    ensures r.all ==> r.names == []
    ensures !r.all ==> NoDuplicates(r.names)
    ensures !r.all ==> forall code :: code in r.names <==> code != "" && HasAnyAccessToCluster(pt, code)
  {
    if pt.isPlatformAdmin {
      return Allowed([], true);
    }
    for i := 0 to |pt.scopes|
      invariant forall sc | sc in pt.scopes[..i] :: !sc.scopeType.PlatformScope?
    {
      if pt.scopes[i].scopeType == PlatformScope {
        return Allowed([], true);
      }
    }
    var seen: set<string> := {};
    var codes: seq<string> := [];
    for i := 0 to |pt.scopes|
      invariant forall code :: code in codes <==> code in seen
      invariant NoDuplicates(codes)
      invariant forall code :: code in seen <==>
        code != "" && exists sc | sc in pt.scopes[..i] :: !sc.scopeType.PlatformScope? && sc.clusterCode == code
    {
      var sc := pt.scopes[i];
      assert pt.scopes[..i + 1] == pt.scopes[..i] + [sc];
      if sc.scopeType != ClusterScope && sc.scopeType != NamespaceScope {
        continue;
      }
      if sc.clusterCode == "" {
        continue;
      }
      if sc.clusterCode !in seen {
        seen := seen + {sc.clusterCode};
        codes := codes + [sc.clusterCode];
      }
    }
    assert pt.scopes[..|pt.scopes|] == pt.scopes;
    return Allowed(codes, false);
  }

  // ---- building a tree ----

  datatype PermRow = PermRow(permissionCode: string, scope: Scope)

  function ScopeTypeName(t: ScopeType): string {
    match t
    case PlatformScope => "platform"
    case ClusterScope => "cluster"
    case NamespaceScope => "namespace"
  }

  /** The key under which the loader remembers a scope it has already added. */
  function ScopeKey(sc: Scope): string {
    ScopeTypeName(sc.scopeType) + ['|'] + (sc.clusterCode + ['|'] + sc.namespace_)
  }

  /** The scopes of the rows in order, without those whose key came before. */
  function DistinctScopes(rows: seq<PermRow>): seq<Scope> {
    if rows == [] then []
    else
      var kept, scope := DistinctScopes(rows[..|rows| - 1]), rows[|rows| - 1].scope;
      if ScopeKey(scope) in Keys(kept) then kept else kept + [scope]
  }

  function Keys(scopes: seq<Scope>): set<string> {
    set sc | sc in scopes :: ScopeKey(sc)
  }

  lemma KeysAppend(scopes: seq<Scope>, sc: Scope)
    ensures Keys(scopes + [sc]) == Keys(scopes) + {ScopeKey(sc)}
  {
    assert forall x :: x in scopes + [sc] <==> x in scopes || x == sc;
  }

  /** The permission points that occur in the rows; an outer join leaves some rows without. */
  function PermissionCodes(rows: seq<PermRow>): set<string> {
    set r | r in rows && r.permissionCode != "" :: r.permissionCode
  }

  predicate AnyPlatform(rows: seq<PermRow>) {
    exists r | r in rows :: r.scope.scopeType.PlatformScope?
  }

  lemma RowAppend(rows: seq<PermRow>, row: PermRow)
    ensures PermissionCodes(rows + [row]) ==
            PermissionCodes(rows) + if row.permissionCode != "" then {row.permissionCode} else {}
    ensures AnyPlatform(rows + [row]) <==> AnyPlatform(rows) || row.scope.scopeType.PlatformScope?
  {
    assert forall x :: x in rows + [row] <==> x in rows || x == row;
  }

  /** The loop over the rows. */
  method FoldRows(rows: seq<PermRow>) returns (pt: PermissionTree)
    ensures pt.perms == PermissionCodes(rows)
    ensures pt.isPlatformAdmin <==> AnyPlatform(rows)
    ensures pt.scopes == DistinctScopes(rows)
  {
    var perms: set<string>, scopes: seq<Scope>, admin := {}, [], false;
    var scopeSet: set<string> := {};
    for k := 0 to |rows|
      invariant perms == PermissionCodes(rows[..k])
      invariant admin <==> AnyPlatform(rows[..k])
      invariant scopes == DistinctScopes(rows[..k]) && scopeSet == Keys(scopes)
    {
      var row := rows[k];
      assert rows[..k + 1] == rows[..k] + [row] && rows[..k + 1][..k] == rows[..k];
      RowAppend(rows[..k], row);
      KeysAppend(scopes, row.scope);
      if row.permissionCode != "" {
        perms := perms + {row.permissionCode};
      }
      var scopeKey := ScopeKey(row.scope);
      if scopeKey !in scopeSet {
        scopeSet := scopeSet + {scopeKey};
        scopes := scopes + [row.scope];
      }
      if row.scope.scopeType == PlatformScope {
        admin := true;
      }
    }
    assert rows[..|rows|] == rows;
    pt := PermissionTree(perms, scopes, admin);
  }

  method LoadPermissionTree(rows: seq<PermRow>) returns (pt: PermissionTree)
    ensures pt.perms == PermissionCodes(rows)
    ensures pt.isPlatformAdmin <==> AnyPlatform(rows)
    ensures pt.scopes == DistinctScopes(rows)
    ensures forall code :: HasPerm(pt, code) <==> exists r | r in rows :: GrantsPoint(r, code)
    ensures KeepsRowScopes(rows) ==>
              forall c, n :: HasNamespaceScope(pt, c, n) <==> exists r | r in rows :: GrantsNamespace(r, c, n)
  {
    pt := FoldRows(rows);
    LoadedTreeAnswers(rows, pt);
  }

  /** One scope of the rows is kept for every key that occurs, and no key is kept twice. */
  lemma {:induction false} DistinctScopesByKey(rows: seq<PermRow>)
    ensures forall sc | sc in DistinctScopes(rows) :: exists r | r in rows :: r.scope == sc
    ensures forall r | r in rows :: ScopeKey(r.scope) in Keys(DistinctScopes(rows))
    ensures NoDuplicates(DistinctScopes(rows))
    ensures forall a, b | a in DistinctScopes(rows) && b in DistinctScopes(rows) && ScopeKey(a) == ScopeKey(b) :: a == b
  {
    if rows != [] {
      var init, last := rows[..|rows| - 1], rows[|rows| - 1];
      DistinctScopesByKey(init);
      assert rows == init + [last];
      KeepsOnePerKey(DistinctScopes(init), last.scope);
    }
  }

  lemma KeepsOnePerKey(kept: seq<Scope>, sc: Scope)
    requires NoDuplicates(kept)
    requires forall a, b | a in kept && b in kept && ScopeKey(a) == ScopeKey(b) :: a == b
    ensures var more := if ScopeKey(sc) in Keys(kept) then kept else kept + [sc];
            && NoDuplicates(more)
            && (forall a, b | a in more && b in more && ScopeKey(a) == ScopeKey(b) :: a == b)
            && (forall a :: a in more ==> a in kept || a == sc)
            && Keys(more) == Keys(kept) + {ScopeKey(sc)}
  {
    assert forall a :: a in kept + [sc] <==> a in kept || a == sc;
    assert forall a | a in kept :: ScopeKey(a) in Keys(kept);
  }

  /** Does the longer code continue the shorter one with a bar? */
  predicate ExtendsByBar(c1: string, c2: string) {
    c1 + "|" <= c2 || c2 + "|" <= c1
  }

  /** Two scopes that share a key have the same type, and the same code unless one extends the other by a bar. */
  lemma SameScopeKey(a: Scope, b: Scope)
    requires ScopeKey(a) == ScopeKey(b)
    ensures a.scopeType == b.scopeType
    ensures a.clusterCode == b.clusterCode ==> a == b
    ensures a.clusterCode != b.clusterCode ==> ExtendsByBar(a.clusterCode, b.clusterCode)
  {
    var x, y := a.clusterCode + ['|'] + a.namespace_, b.clusterCode + ['|'] + b.namespace_;
    CutIsUnique(ScopeTypeName(a.scopeType), x, ScopeTypeName(b.scopeType), y, '|');
    CodesMeet(a.clusterCode, a.namespace_, b.clusterCode, b.namespace_);
  }

  lemma CodesMeet(c: string, n: string, c': string, n': string)
    requires c + ['|'] + n == c' + ['|'] + n'
    ensures if c == c' then n == n' else ExtendsByBar(c, c')
  {
    var s := c + ['|'] + n;
    assert s[..|c|] == c && s[..|c'|] == c' && s[|c|] == '|' && s[|c'|] == '|';
    if |c| < |c'| {
      assert c' == s[..|c'|] && c + "|" == s[..|c| + 1] == c'[..|c| + 1];
    } else if |c'| < |c| {
      assert c == s[..|c|] && c' + "|" == s[..|c'| + 1] == c[..|c'| + 1];
    } else {
      assert n == s[|c| + 1..] && n' == s[|c'| + 1..];
    }
  }

  /** The namespaces with which a code and its extension meet. */
  lemma ExtensionCollides(t: ScopeType, c1: string, c2: string)
    requires c1 + "|" <= c2
    ensures ScopeKey(Scope(t, c1, c2[|c1| + 1..] + "|")) == ScopeKey(Scope(t, c2, ""))
  {
    assert c2 == c1 + "|" + c2[|c1| + 1..];
    assert c1 + ['|'] + (c2[|c1| + 1..] + "|") == c2 + ['|'] + "";
  }

  /** Exactly which two cluster codes can collide under some type and namespaces. */
  lemma CollisionIsExact(c1: string, c2: string)
    requires c1 != c2
    ensures (exists t, n1, n2 :: ScopeKey(Scope(t, c1, n1)) == ScopeKey(Scope(t, c2, n2))) <==> ExtendsByBar(c1, c2)
  {
    if c1 + "|" <= c2 {
      ExtensionCollides(ClusterScope, c1, c2);
    } else if c2 + "|" <= c1 {
      ExtensionCollides(ClusterScope, c2, c1);
    }
    forall t, n1, n2 | ScopeKey(Scope(t, c1, n1)) == ScopeKey(Scope(t, c2, n2))
      ensures ExtendsByBar(c1, c2)
    {
      SameScopeKey(Scope(t, c1, n1), Scope(t, c2, n2));
    }
  }

  /** The rows' scopes are kept as a set: each one once, and no other. */
  ghost predicate KeepsRowScopes(rows: seq<PermRow>) {
    && NoDuplicates(DistinctScopes(rows))
    && forall sc :: sc in DistinctScopes(rows) <==> exists r | r in rows :: r.scope == sc
  }

  /** The loader keeps the row scopes while no code in the rows extends another by a bar; so it does over bar-free codes. */
  lemma LoadedScopesAreTheRowScopes(rows: seq<PermRow>)
    requires forall r, r' | r in rows && r' in rows && r.scope.clusterCode != r'.scope.clusterCode ::
               !ExtendsByBar(r.scope.clusterCode, r'.scope.clusterCode)
    ensures KeepsRowScopes(rows)
  {
    DistinctScopesByKey(rows);
    forall r | r in rows
      ensures r.scope in DistinctScopes(rows)
    {
      var sc :| sc in DistinctScopes(rows) && ScopeKey(sc) == ScopeKey(r.scope);
      SameScopeKey(sc, r.scope);
    }
  }

  ghost predicate RowsOver(rows: seq<PermRow>, codes: set<string>) {
    forall r | r in rows :: r.scope.clusterCode in codes
  }

  /** For a set of cluster codes, the loader is right on all rows over them exactly when none extends another by a bar. */
  lemma LoaderIsExact(codes: set<string>)
    ensures (forall rows | RowsOver(rows, codes) :: KeepsRowScopes(rows)) <==>
            forall c1, c2 | c1 in codes && c2 in codes && c1 != c2 :: !ExtendsByBar(c1, c2)
  {
    if forall c1, c2 | c1 in codes && c2 in codes && c1 != c2 :: !ExtendsByBar(c1, c2) {
      forall rows | RowsOver(rows, codes)
        ensures KeepsRowScopes(rows)
      {
        LoadedScopesAreTheRowScopes(rows);
      }
    } else {
      var c1, c2 :| c1 in codes && c2 in codes && c1 != c2 && ExtendsByBar(c1, c2);
      var short, long := if c1 + "|" <= c2 then c1 else c2, if c1 + "|" <= c2 then c2 else c1;
      CollidingRows(short, long);
      assert RowsOver(TwoRows(short, long), codes);
    }
  }

  /** Two rows whose scopes share a key. */
  function TwoRows(short: string, long: string): seq<PermRow>
    requires short + "|" <= long
  {
    [PermRow("", Scope(ClusterScope, short, long[|short| + 1..] + "|")), PermRow("", Scope(ClusterScope, long, ""))]
  }

  lemma CollidingRows(short: string, long: string)
    requires short + "|" <= long
    ensures !KeepsRowScopes(TwoRows(short, long))
  {
    var rows := TwoRows(short, long);
    var first, second := rows[0], rows[1];
    ExtensionCollides(ClusterScope, short, long);
    assert rows[..1] == [first] && [first][..0] == [];
    assert DistinctScopes([first]) == [first.scope];
    assert ScopeKey(second.scope) in Keys([first.scope]) by { assert first.scope in [first.scope]; }
    assert DistinctScopes(rows) == [first.scope];
    assert second in rows && second.scope !in [first.scope];
  }

  // ---- what a loaded tree grants ----

  /** One row grants a namespace. */
  predicate GrantsNamespace(row: PermRow, clusterCode: string, n: string) {
    match row.scope.scopeType
    case PlatformScope => true
    case ClusterScope => row.scope.clusterCode == clusterCode
    case NamespaceScope => row.scope.clusterCode == clusterCode && row.scope.namespace_ == n
  }

  /** One row grants a permission point: by its code, or because its scope is the platform. */
  predicate GrantsPoint(row: PermRow, code: string) {
    row.scope.scopeType.PlatformScope? || (row.permissionCode != "" && Covers(row.permissionCode, code))
  }

  /**
   From the rows to the decision: what a loaded tree answers is what one of its rows grants, for permission points
   always, and for namespaces while no code in the rows extends another by a bar.
   */
  lemma LoadedTreeMeansItsRows(rows: seq<PermRow>, pt: PermissionTree, code: string, clusterCode: string, n: string)
    requires pt == PermissionTree(PermissionCodes(rows), DistinctScopes(rows), AnyPlatform(rows))
    ensures HasPerm(pt, code) <==> exists r | r in rows :: GrantsPoint(r, code)
    ensures KeepsRowScopes(rows) ==> (HasNamespaceScope(pt, clusterCode, n) <==> exists r | r in rows :: GrantsNamespace(r, clusterCode, n))
  {
    HasPermCovers(pt, code);
    if p :| p in pt.perms && Covers(p, code) {
      var r :| r in rows && r.permissionCode == p;
      assert GrantsPoint(r, code);
    }
    forall r | r in rows && GrantsPoint(r, code) && !r.scope.scopeType.PlatformScope?
      ensures r.permissionCode in pt.perms && Covers(r.permissionCode, code)
    {
    }
    if KeepsRowScopes(rows) {
      NamespaceMeansItsRows(rows, pt, clusterCode, n);
    }
  }

  lemma LoadedTreeAnswers(rows: seq<PermRow>, pt: PermissionTree)
    requires pt == PermissionTree(PermissionCodes(rows), DistinctScopes(rows), AnyPlatform(rows))
    ensures forall code :: HasPerm(pt, code) <==> exists r | r in rows :: GrantsPoint(r, code)
    ensures KeepsRowScopes(rows) ==>
              forall c, n :: HasNamespaceScope(pt, c, n) <==> exists r | r in rows :: GrantsNamespace(r, c, n)
  {
    forall code ensures HasPerm(pt, code) <==> exists r | r in rows :: GrantsPoint(r, code) {
      LoadedTreeMeansItsRows(rows, pt, code, "", "");
    }
    if KeepsRowScopes(rows) {
      forall c, n ensures HasNamespaceScope(pt, c, n) <==> exists r | r in rows :: GrantsNamespace(r, c, n) {
        NamespaceMeansItsRows(rows, pt, c, n);
      }
    }
  }

  lemma NamespaceMeansItsRows(rows: seq<PermRow>, pt: PermissionTree, clusterCode: string, n: string)
    requires KeepsRowScopes(rows) && pt.scopes == DistinctScopes(rows) && pt.isPlatformAdmin == AnyPlatform(rows)
    ensures HasNamespaceScope(pt, clusterCode, n) <==> exists r | r in rows :: GrantsNamespace(r, clusterCode, n)
  {
    forall r | r in rows && GrantsNamespace(r, clusterCode, n)
      ensures HasNamespaceScope(pt, clusterCode, n)
    {
      assert r.scope in DistinctScopes(rows);
    }
    if HasNamespaceScope(pt, clusterCode, n) && !pt.isPlatformAdmin {
      var sc :| sc in pt.scopes && (sc.scopeType.PlatformScope? || (sc.clusterCode == clusterCode
                && (sc.scopeType.ClusterScope? || (sc.scopeType.NamespaceScope? && sc.namespace_ == n))));
      var r :| r in rows && r.scope == sc;
      assert GrantsNamespace(r, clusterCode, n);
    }
  }
}
