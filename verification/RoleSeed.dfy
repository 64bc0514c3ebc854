/**
 Seeding of the built-in roles (backend/internal/models/seed.go): the wildcard patterns of a
 role are expanded into the permission points of the table, and the expansion is compared with
 what the permission check grants on the patterns themselves.
 */
module RoleSeed {
  import opened Text
  import opened Permissions

  datatype SysPermission = SysPermission(code: string, module_: string, action: string)

  /** A table row whose code is its module, a colon and its action. */
  predicate Coded(pp: SysPermission) {
    && pp.code == pp.module_ + ":" + pp.action
    && ':' !in pp.module_
  }

  predicate IsModuleWildcard(p: string) {
    |p| > 2 && HasSuffix(p, ":*")
  }

  /** Does one pattern of a role bind one permission point of the table? */
  predicate Binds(p: string, pp: SysPermission) {
    if p == "*:*" then true
    else if IsModuleWildcard(p) then pp.module_ == p[..|p| - 2]
    else p == pp.code
  }

  predicate BoundBy(patterns: seq<string>, pp: SysPermission) {
    exists p | p in patterns :: Binds(p, pp)
  }

  function Expanded(allPerms: seq<SysPermission>, patterns: seq<string>): set<string> {
    set pp | pp in allPerms && BoundBy(patterns, pp) :: pp.code
  }

  lemma ExpandedAppend(allPerms: seq<SysPermission>, patterns: seq<string>, p: string)
    ensures Expanded(allPerms, patterns + [p]) ==
            Expanded(allPerms, patterns) + set pp | pp in allPerms && Binds(p, pp) :: pp.code
  {
    assert forall q :: q in patterns + [p] <==> q in patterns || q == p;
  }

  lemma RowsAppend(rows: seq<SysPermission>, row: SysPermission, p: string)
    ensures (set pp | pp in rows + [row] && Binds(p, pp) :: pp.code) ==
            (set pp | pp in rows && Binds(p, pp) :: pp.code) + if Binds(p, row) then {row.code} else {}
  {
    assert forall q :: q in rows + [row] <==> q in rows || q == row;
  }

  /** The expansion loop of `seedRoles`. */
  method BindCodes(allPerms: seq<SysPermission>, patterns: seq<string>) returns (bindCodes: set<string>)
    ensures bindCodes == Expanded(allPerms, patterns)
  {
    var codes := set pp | pp in allPerms :: pp.code;
    bindCodes := {};
    for i := 0 to |patterns|
      invariant bindCodes == Expanded(allPerms, patterns[..i])
    {
      var p := patterns[i];
      assert patterns[..i + 1] == patterns[..i] + [p];
      ExpandedAppend(allPerms, patterns[..i], p);
      if p == "*:*" || IsModuleWildcard(p) {
        ghost var before := bindCodes;
        for k := 0 to |allPerms|
          invariant bindCodes == before + set pp | pp in allPerms[..k] && Binds(p, pp) :: pp.code
        {
          var pp := allPerms[k];
          assert allPerms[..k + 1] == allPerms[..k] + [pp];
          RowsAppend(allPerms[..k], pp, p);
          if p == "*:*" || pp.module_ == p[..|p| - 2] {
            bindCodes := bindCodes + {pp.code};
          }
        }
        assert allPerms[..|allPerms|] == allPerms;
        continue;
      }
      if p in codes {
        bindCodes := bindCodes + {p};
      }
    }
    assert patterns[..|patterns|] == patterns;
  }

  /** What a user would hold if the patterns were stored unexpanded. */
  function Unexpanded(patterns: seq<string>): PermissionTree {
    PermissionTree(set p | p in patterns, [], false)
  }

  lemma ModuleWildcardOf(pp: SysPermission)
    requires Coded(pp)
    ensures ':' in pp.code && ModuleWildcard(pp.code) == pp.module_ + ":*"
  {
    assert pp.code[|pp.module_|] == ':' && pp.code[..|pp.module_|] == pp.module_;
    FirstColon(pp.code, |pp.module_|);
  }

  /** A code ends like a wildcard only if its action does. */
  lemma WildcardShape(pp: SysPermission)
    requires Coded(pp)
    ensures HasSuffix(pp.code, ":*") <==> pp.action == "*" || HasSuffix(pp.action, ":*")
  {
    var n := |pp.code|;
    assert forall i | 0 <= i < |pp.action| :: pp.code[n - |pp.action| + i] == pp.action[i];
    if HasSuffix(pp.code, ":*") {
      assert pp.code[n - 1] == pp.code[n - 2..][1] && pp.code[n - 2] == pp.code[n - 2..][0];
      assert |pp.action| == 1 ==> pp.action == [pp.action[0]];
      assert |pp.action| >= 2 ==> pp.action[|pp.action| - 2..] == ":*";
    }
  }

  /** The expansion grants a permission point exactly when the permission check does on the patterns. */
  lemma ExpansionPreservesMeaning(patterns: seq<string>, pp: SysPermission)
    requires Coded(pp) && pp.module_ != "" && !HasSuffix(pp.action, ":*")
    ensures BoundBy(patterns, pp) <==> HasPerm(Unexpanded(patterns), pp.code)
  {
    ModuleWildcardOf(pp);
    var wildcard := pp.module_ + ":*";
    assert IsModuleWildcard(wildcard) && wildcard[..|wildcard| - 2] == pp.module_;
    assert Binds(wildcard, pp) && Binds("*:*", pp);
    forall p | p in patterns && Binds(p, pp)
      ensures HasPerm(Unexpanded(patterns), pp.code)
    {
      if p != "*:*" && IsModuleWildcard(p) {
        assert p == p[..|p| - 2] + p[|p| - 2..];
      }
    }
    WildcardShape(pp);
  }

  /** On the point that is itself a module wildcard the two agree, whatever the patterns and the module. */
  lemma WildcardPointAgrees(patterns: seq<string>, pp: SysPermission)
    requires Coded(pp) && pp.action == "*"
    ensures BoundBy(patterns, pp) <==> HasPerm(Unexpanded(patterns), pp.code)
  {
    ModuleWildcardOf(pp);
    assert pp.code == pp.module_ + ":*";
    forall p | p in patterns && Binds(p, pp)
      ensures HasPerm(Unexpanded(patterns), pp.code)
    {
      if p != "*:*" && IsModuleWildcard(p) {
        assert p == p[..|p| - 2] + p[|p| - 2..];
      }
    }
    assert Binds("*:*", pp) && Binds(pp.code, pp) by {
      assert pp.code[..|pp.code| - 2] == pp.module_ && pp.code[|pp.code| - 2..] == ":*";
    }
  }

  /**
   Exactly which permission points the expansion treats as the check does, whatever the patterns: those with a
   module and an action that does not end like a wildcard, and those whose action is the wildcard itself.
   */
  lemma ExpansionIsExact(pp: SysPermission)
    requires Coded(pp)
    ensures (forall patterns :: BoundBy(patterns, pp) <==> HasPerm(Unexpanded(patterns), pp.code)) <==>
            pp.action == "*" || (pp.module_ != "" && !HasSuffix(pp.action, ":*"))
  {
    if pp.action == "*" || (pp.module_ != "" && !HasSuffix(pp.action, ":*")) {
      forall patterns
        ensures BoundBy(patterns, pp) <==> HasPerm(Unexpanded(patterns), pp.code)
      {
        if pp.action == "*" {
          WildcardPointAgrees(patterns, pp);
        } else {
          ExpansionPreservesMeaning(patterns, pp);
        }
      }
    } else {
      ModuleWildcardOf(pp);
      var p := if pp.module_ == "" then ":*" else pp.code;
      assert p in Unexpanded([p]).perms;
      assert "" + ":*" == ":*";
      assert HasPerm(Unexpanded([p]), pp.code);
      if pp.module_ == "" {
        assert !Binds(p, pp);
      } else {
        WildcardShape(pp);
        assert p[..|p| - 2][|pp.module_|] == ':';
        assert !Binds(p, pp);
      }
      assert !BoundBy([p], pp);
    }
  }

  /** The table form: over a well-formed table the stored bindings are the granted codes. */
  lemma BindingsMatchGrants(allPerms: seq<SysPermission>, patterns: seq<string>, pp: SysPermission)
    requires forall q | q in allPerms :: Coded(q) && q.module_ != "" && !HasSuffix(q.action, ":*")
    requires pp in allPerms
    ensures pp.code in Expanded(allPerms, patterns) <==> HasPerm(Unexpanded(patterns), pp.code)
  {
    forall q | q in allPerms
      ensures BoundBy(patterns, q) <==> HasPerm(Unexpanded(patterns), q.code)
    {
      ExpansionPreservesMeaning(patterns, q);
    }
  }
}
