/**
 Namespace batch backups (`doBackupNamespaceBatch`, backend/internal/worker/backup_worker.go): the
 planner that lists every kind in every namespace, the loop that uploads the plan, and the counters,
 keys and progress that come out of it.
 */
module BatchBackup {
  import opened Basics
  import opened Text
  import opened ObjectKeys

  datatype Item = Item(ns: string, kind: string, name: string)

  /** Kinds that `resolveGVR` knows. */
  const KNOWN_KINDS: set<string> := {
    "Pod", "Service", "ConfigMap", "Secret", "Namespace", "Deployment", "StatefulSet", "DaemonSet",
    "ReplicaSet", "Job", "CronJob", "Ingress", "PersistentVolume", "PersistentVolumeClaim",
    "ServiceAccount", "Role", "ClusterRole", "RoleBinding", "ClusterRoleBinding"
  }

  /** The answer of the cluster to listing one kind for one namespace; None is an error. */
  type Listing = (string, string) -> Option<seq<string>>

  // ---- the batch payload ----

  /** What the worker reads back from the comma-joined field of the payload hash. */
  function ReadField(field: string): seq<string> {
    if field == "" then [] else Split(field, ',')
  }

  /** Exactly which name lists survive being stored: comma-free ones, and not the one empty name. */
  lemma PayloadRoundTrip(names: seq<string>)
    ensures ReadField(Join(names, ',')) == names <==> names != [""] && forall n | n in names :: ',' !in n
  {
    var field := Join(names, ',');
    if names != [] {
      if forall n | n in names :: ',' !in n {
        SplitJoin(names, ',');
        assert Split("", ',') == [""];
      }
      if field != "" {
        SplitPartsAreFree(field, ',');
      }
    }
  }

  // ---- the plan ----

  function Named(ns: string, kind: string, names: seq<string>): seq<Item> {
    if names == [] then []
    else Named(ns, kind, names[..|names| - 1])
         + if names[|names| - 1] != "" then [Item(ns, kind, names[|names| - 1])] else []
  }

  /** What one listing contributes. */
  function Found(listing: Listing, ns: string, kind: string): seq<Item> {
    match listing(ns, kind)
    case None => []
    case Some(names) => Named(ns, kind, names)
  }

  function FailedListings(listing: Listing, ns: string, kind: string): nat {
    if listing(ns, kind).None? then 1 else 0
  }

  /** The contribution of one namespace when its kinds are visited in this order. */
  function PlanOf(listing: Listing, ns: string, kinds: seq<string>): seq<Item> {
    if kinds == [] then []
    else PlanOf(listing, ns, kinds[..|kinds| - 1]) + Found(listing, ns, kinds[|kinds| - 1])
  }

  function FailuresOf(listing: Listing, ns: string, kinds: seq<string>): nat {
    if kinds == [] then 0
    else FailuresOf(listing, ns, kinds[..|kinds| - 1]) + FailedListings(listing, ns, kinds[|kinds| - 1])
  }

  /** The whole plan; every namespace has its own visiting order, as ranging over a Go map has. */
  function PlanAll(listing: Listing, namespaces: seq<string>, orders: seq<seq<string>>): seq<Item>
    requires |orders| == |namespaces|
  {
    if namespaces == [] then []
    else
      var n := |namespaces| - 1;
      PlanAll(listing, namespaces[..n], orders[..n]) + PlanOf(listing, namespaces[n], orders[n])
  }

  function FailuresAll(listing: Listing, namespaces: seq<string>, orders: seq<seq<string>>): nat
    requires |orders| == |namespaces|
  {
    if namespaces == [] then 0
    else
      var n := |namespaces| - 1;
      FailuresAll(listing, namespaces[..n], orders[..n]) + FailuresOf(listing, namespaces[n], orders[n])
  }

  /** The inner loop: one namespace, kinds in whatever order the map yields them, which is `order`. */
  method PlanNamespace(listing: Listing, ns: string, kinds: set<string>)
    returns (plan: seq<Item>, failed: nat, order: seq<string>)
    ensures Enumerates(order, kinds)
    ensures plan == PlanOf(listing, ns, order) && failed == FailuresOf(listing, ns, order)
  {
    plan, failed, order := [], 0, [];
    var rest := kinds;
    while rest != {}
      invariant rest <= kinds && Enumerates(order, kinds - rest)
      invariant plan == PlanOf(listing, ns, order) && failed == FailuresOf(listing, ns, order)
      decreases rest
    {
      var kind :| kind in rest;
      EnumerateOneMore(order, kinds - rest, kind);
      rest := rest - {kind};
      assert kinds - rest == kinds - (rest + {kind}) + {kind};
      var longer := order + [kind];
      assert longer[..|order|] == order;
      match listing(ns, kind) {
        case None => failed := failed + 1;
        case Some(names) =>
          var found: seq<Item> := [];
          for i := 0 to |names|
            invariant found == Named(ns, kind, names[..i])
          {
            assert names[..i + 1][..i] == names[..i];
            if names[i] == "" {
              continue;
            }
            found := found + [Item(ns, kind, names[i])];
          }
          assert names[..|names|] == names;
          plan := plan + found;
      }
      order := longer;
    }
    assert kinds - rest == kinds;
  }

  /** The kinds of the filter that can be resolved. */
  function KindsOf(kindFilter: seq<string>): set<string> { set k | k in kindFilter && k in KNOWN_KINDS }

  /** The first phase; `orders` are the orders in which the kinds of each namespace were visited. */
  method Plan(listing: Listing, namespaces: seq<string>, kindFilter: seq<string>)
    returns (plan: seq<Item>, failed: nat, orders: seq<seq<string>>)
    ensures |orders| == |namespaces|
    ensures forall order | order in orders :: Enumerates(order, KindsOf(kindFilter))
    ensures plan == PlanAll(listing, namespaces, orders) && failed == FailuresAll(listing, namespaces, orders)
    ensures forall it :: it in plan <==> Listed(listing, namespaces, KindsOf(kindFilter), it)
    ensures failed == UnlistedCount(listing, namespaces, KindsOf(kindFilter))
  {
    var kinds := KindsOf(kindFilter);
    plan, failed, orders := [], 0, [];
    for i := 0 to |namespaces|
      invariant |orders| == i && forall order | order in orders :: Enumerates(order, kinds)
      invariant plan == PlanAll(listing, namespaces[..i], orders) && failed == FailuresAll(listing, namespaces[..i], orders)
    {
      var more, errors;
      var order;
      more, errors, order := PlanNamespace(listing, namespaces[i], kinds);
      plan, failed := plan + more, failed + errors;
      assert namespaces[..i + 1][..i] == namespaces[..i] && (orders + [order])[..i] == orders;
      orders := orders + [order];
    }
    assert namespaces[..|namespaces|] == namespaces;
    forall it ensures it in plan <==> Listed(listing, namespaces, kinds, it) {
      PlanIsWhatWasListed(listing, namespaces, orders, kinds, it);
    }
    FailuresAreCounted(listing, namespaces, orders, kinds);
  }

  // ---- the plan does not depend on the iteration order ----

  function Without(s: seq<string>, i: nat): seq<string>
    requires i < |s|
  {
    s[..i] + s[i + 1..]
  }

  function Bag(listing: Listing, ns: string, kind: string): multiset<Item> {
    multiset(Found(listing, ns, kind))
  }

  /** The objects that a visiting order contributes, as a multiset. */
  ghost function BagOf(listing: Listing, ns: string, kinds: seq<string>): multiset<Item> {
    if kinds == [] then multiset{} else BagOf(listing, ns, kinds[..|kinds| - 1]) + Bag(listing, ns, kinds[|kinds| - 1])
  }

  lemma {:induction false} BagOfPlan(listing: Listing, ns: string, kinds: seq<string>)
    ensures multiset(PlanOf(listing, ns, kinds)) == BagOf(listing, ns, kinds)
  {
    if kinds != [] {
      BagOfPlan(listing, ns, kinds[..|kinds| - 1]);
    }
  }

  lemma VisitLast(listing: Listing, ns: string, kinds: seq<string>, last: string)
    ensures BagOf(listing, ns, kinds + [last]) == BagOf(listing, ns, kinds) + Bag(listing, ns, last)
    ensures FailuresOf(listing, ns, kinds + [last]) == FailuresOf(listing, ns, kinds) + FailedListings(listing, ns, last)
  {
    assert (kinds + [last])[..|kinds|] == kinds;
  }

  lemma SwapLast(all: multiset<Item>, rest: multiset<Item>, one: multiset<Item>, last: multiset<Item>)
    requires all == rest + one
    ensures all + last == rest + last + one
  {
  }

  /** Visiting one kind earlier or later contributes the same. */
  lemma {:induction false} TakeOut(listing: Listing, ns: string, kinds: seq<string>, i: nat)
    requires i < |kinds|
    ensures BagOf(listing, ns, kinds) == BagOf(listing, ns, Without(kinds, i)) + Bag(listing, ns, kinds[i])
    ensures FailuresOf(listing, ns, kinds) ==
            FailuresOf(listing, ns, Without(kinds, i)) + FailedListings(listing, ns, kinds[i])
    decreases |kinds|
  {
    var init, last := kinds[..|kinds| - 1], kinds[|kinds| - 1];
    WithoutLast(kinds, i);
    if i < |kinds| - 1 {
      TakeOut(listing, ns, init, i);
      VisitLast(listing, ns, Without(init, i), last);
      SwapLast(BagOf(listing, ns, init), BagOf(listing, ns, Without(init, i)), Bag(listing, ns, init[i]), Bag(listing, ns, last));
    }
  }

  lemma WithoutLast(kinds: seq<string>, i: nat)
    requires i < |kinds|
    ensures var init, last := kinds[..|kinds| - 1], kinds[|kinds| - 1];
            Without(kinds, i) == if i == |kinds| - 1 then init else Without(init, i) + [last]
  {
    assert i == |kinds| - 1 ==> kinds[i + 1..] == [];
  }

  lemma EnumerationWithout(order: seq<string>, s: set<string>, i: nat)
    requires Enumerates(order, s) && i < |order|
    ensures Enumerates(Without(order, i), s - {order[i]})
  {
    EnumerationMembers(order, s);
    var w := Without(order, i);
    forall x
      ensures x in w <==> x in s && x != order[i]
    {
      if x in s && x != order[i] {
        var k :| 0 <= k < |order| && order[k] == x;
        assert w[if k < i then k else k - 1] == x;
      }
    }
  }

  lemma {:induction false} NamespaceOrderIrrelevant(listing: Listing, ns: string, s: set<string>, a: seq<string>, b: seq<string>)
    requires Enumerates(a, s) && Enumerates(b, s)
    ensures BagOf(listing, ns, a) == BagOf(listing, ns, b)
    ensures FailuresOf(listing, ns, a) == FailuresOf(listing, ns, b)
    decreases |a|
  {
    EnumerationMembers(a, s);
    EnumerationMembers(b, s);
    if a != [] {
      assert a[0] in a && a[0] in b;
      var j :| 0 <= j < |b| && b[j] == a[0];
      TakeOut(listing, ns, a, 0);
      TakeOut(listing, ns, b, j);
      EnumerationWithout(a, s, 0);
      EnumerationWithout(b, s, j);
      NamespaceOrderIrrelevant(listing, ns, s - {a[0]}, Without(a, 0), Without(b, j));
    }
  }

  /** The planned objects, as a multiset, and the listing failures are the same for all iteration orders. */
  lemma {:induction false} PlanOrderIrrelevant(listing: Listing, namespaces: seq<string>, kinds: set<string>, a: seq<seq<string>>, b: seq<seq<string>>)
    requires |a| == |b| == |namespaces|
    requires forall order | order in a || order in b :: Enumerates(order, kinds)
    ensures multiset(PlanAll(listing, namespaces, a)) == multiset(PlanAll(listing, namespaces, b))
    ensures FailuresAll(listing, namespaces, a) == FailuresAll(listing, namespaces, b)
  {
    if namespaces != [] {
      var n := |namespaces| - 1;
      assert forall order | order in a[..n] || order in b[..n] :: order in a || order in b;
      PlanOrderIrrelevant(listing, namespaces[..n], kinds, a[..n], b[..n]);
      assert a[n] in a && b[n] in b;
      NamespaceOrderIrrelevant(listing, namespaces[n], kinds, a[n], b[n]);
      BagOfPlan(listing, namespaces[n], a[n]);
      BagOfPlan(listing, namespaces[n], b[n]);
    }
  }

  // ---- uploading the plan ----

  /** What happened to one planned object. */
  datatype Outcome = NotUploaded | Uploaded(size: nat)

  function UploadedCount(outcomes: seq<Outcome>): nat {
    if outcomes == [] then 0
    else UploadedCount(outcomes[..|outcomes| - 1]) + if outcomes[|outcomes| - 1].Uploaded? then 1 else 0
  }

  function UploadedSize(outcomes: seq<Outcome>): nat {
    if outcomes == [] then 0
    else UploadedSize(outcomes[..|outcomes| - 1]) + match outcomes[|outcomes| - 1] case Uploaded(size) => size case NotUploaded => 0
  }

  // ---- progress, in floating point ----

  type Rounding = real -> real

  /** The relative error of one float64 operation, and the number of objects up to which it stays harmless here. */
  const UNIT_ROUNDOFF: real := 1.0 / 9007199254740992.0
  const EXACT_TOTAL: nat := 1125899906842624

  /** What is used of rounding to float64: it keeps the order and three integers, and errs by at most one unit. */
  ghost predicate RoundsLikeFloat64(rnd: Rounding) {
    && (forall x, y | x <= y :: rnd(x) <= rnd(y))
    && rnd(0.0) == 0.0 && rnd(1.0) == 1.0 && rnd(80.0) == 80.0
    && (forall x | 0.5 <= x <= 80.0 :: rnd(x) <= x * (1.0 + UNIT_ROUNDOFF))
  }

  /** 15 + int(float64(done)/float64(total)*80); the quotient and the product are rounded. */
  function Percent(rnd: Rounding, done: nat, total: nat): int
    requires 0 < total
  {
    15 + rnd(rnd(done as real / total as real) * 80.0).Floor
  }

  lemma PercentLaws(rnd: Rounding, done: nat, total: nat)
    requires RoundsLikeFloat64(rnd) && done <= total && 0 < total
    ensures 15 <= Percent(rnd, done, total) <= 95
    ensures done == total ==> Percent(rnd, done, total) == 95
    ensures total <= EXACT_TOTAL ==> (Percent(rnd, done, total) == 95 <==> done == total)
    ensures done > 0 ==> Percent(rnd, done - 1, total) <= Percent(rnd, done, total)
  {
    var share := Share(done, total);
    ShareBounds(done, total);
    RoundedBounds(rnd, share);
    if done > 0 {
      SharesGrow(done, total);
      RoundedGrows(rnd, Share(done - 1, total), share);
    }
    if done < total <= EXACT_TOTAL {
      BelowOne(rnd, share);
    }
  }

  function Share(done: nat, total: nat): real
    requires 0 < total
  {
    done as real / total as real
  }

  lemma RoundedBounds(rnd: Rounding, share: real)
    requires RoundsLikeFloat64(rnd) && 0.0 <= share <= 1.0
    ensures 0.0 <= rnd(rnd(share) * 80.0) <= 80.0
    ensures share == 1.0 ==> rnd(rnd(share) * 80.0) == 80.0
  {
    assert rnd(0.0) <= rnd(share) <= rnd(1.0);
    assert rnd(0.0) <= rnd(rnd(share) * 80.0) <= rnd(80.0);
  }

  lemma RoundedGrows(rnd: Rounding, x: real, y: real)
    requires RoundsLikeFloat64(rnd) && x <= y
    ensures rnd(rnd(x) * 80.0) <= rnd(rnd(y) * 80.0)
  {
    assert rnd(x) <= rnd(y);
    assert rnd(x) * 80.0 <= rnd(y) * 80.0;
  }

  lemma SharesGrow(done: nat, total: nat)
    requires 0 < done && 0 < total
    ensures Share(done - 1, total) <= Share(done, total)
  {
    var n, x, y := total as real, Share(done - 1, total), Share(done, total);
    assert x * n == (done - 1) as real && y * n == done as real;
    if x > y { Scaled(x, y, n); }
  }

  lemma ShareBounds(done: nat, total: nat)
    requires done <= total && 0 < total
    ensures 0.0 <= Share(done, total) <= 1.0
    ensures done == total ==> Share(done, total) == 1.0
    ensures done < total <= EXACT_TOTAL ==> Share(done, total) <= 1.0 - 1.0 / 1125899906842624.0
  {
    var d, n := done as real, total as real;
    AtMost(d, n, 1.0);
    if done < total <= EXACT_TOTAL {
      var unit := 1.0 / 1125899906842624.0;
      assert d <= n - 1.0 && unit * n <= 1.0;
      assert (1.0 - unit) * n == n - unit * n;
      AtMost(d, n, 1.0 - unit);
    } else if done == total {
      assert n / n == 1.0;
    }
  }

  lemma AtMost(d: real, n: real, bound: real)
    requires 0.0 < n && 0.0 <= d <= bound * n
    ensures 0.0 <= d / n <= bound
  {
    var share := d / n;
    assert share * n == d;
    if share > bound {
      Scaled(share, bound, n);
    }
  }

  lemma Scaled(x: real, y: real, n: real)
    requires x > y && 0.0 < n
    ensures x * n > y * n
  {
    assert (x - y) * n > 0.0;
    assert (x - y) * n == x * n - y * n;
  }

  /** A share that misses one by more than the rounding errors is never reported as the whole. */
  lemma BelowOne(rnd: Rounding, share: real)
    requires RoundsLikeFloat64(rnd) && 0.0 <= share <= 1.0 - 1.0 / 1125899906842624.0
    ensures rnd(rnd(share) * 80.0) < 80.0
  {
    var bound := 1.0 - 1.0 / 1125899906842624.0;
    var product := bound * (1.0 + UNIT_ROUNDOFF) * 80.0;
    assert rnd(share) <= rnd(bound) <= bound * (1.0 + UNIT_ROUNDOFF);
    assert rnd(share) * 80.0 <= product && 0.5 <= product <= 80.0;
    assert rnd(rnd(share) * 80.0) <= rnd(product) <= product * (1.0 + UNIT_ROUNDOFF);
    assert product * (1.0 + UNIT_ROUNDOFF) < 80.0;
  }

  datatype BatchResult =
    | BatchFailed
    | BatchDone(objectCount: nat, sizeBytes: nat, storagePath: string)

  /** The keys of the uploaded objects, in upload order. */
  function UploadedKeys(cluster: string, date: string, taskID: nat, plan: seq<Item>, outcomes: seq<Outcome>): seq<string>
    requires |outcomes| <= |plan|
  {
    if outcomes == [] then []
    else
      var n := |outcomes| - 1;
      UploadedKeys(cluster, date, taskID, plan, outcomes[..n])
      + if outcomes[n].Uploaded? then [BatchKey(cluster, date, taskID, n, plan[n].kind, plan[n].name)] else []
  }

  /** The percents that `done` uploads out of `total` publish, one after each. */
  function Percents(rnd: Rounding, done: nat, total: nat): seq<int>
    requires 0 < total
  {
    seq(done, k requires 0 <= k < done => Percent(rnd, k + 1, total))
  }

  datatype Counters = Counters(done: nat, failed: nat, size: nat, keys: seq<string>, percents: seq<int>)

  /** One turn of the upload loop. */
  function Count(rnd: Rounding, c: Counters, key: string, outcome: Outcome, total: nat): Counters
    requires 0 < total
  {
    match outcome
    case NotUploaded => c.(failed := c.failed + 1)
    case Uploaded(size) =>
      c.(done := c.done + 1, size := c.size + size, keys := c.keys + [key],
         percents := c.percents + [Percent(rnd, c.done + 1, total)])
  }

  /** What the counters say after the first `outcomes`. */
  ghost predicate Counted(rnd: Rounding, c: Counters, cluster: string, date: string, taskID: nat, plan: seq<Item>, listFailures: nat, outcomes: seq<Outcome>)
    requires plan != [] && |outcomes| <= |plan|
  {
    && c.done == UploadedCount(outcomes) && c.size == UploadedSize(outcomes)
    && c.done + c.failed == listFailures + |outcomes|
    && c.keys == UploadedKeys(cluster, date, taskID, plan, outcomes) && |c.keys| == c.done
    && c.percents == Percents(rnd, c.done, |plan|)
  }

  lemma CountOne(rnd: Rounding, c: Counters, cluster: string, date: string, taskID: nat, plan: seq<Item>, listFailures: nat, outcomes: seq<Outcome>, o: Outcome)
    requires plan != [] && |outcomes| < |plan|
    requires Counted(rnd, c, cluster, date, taskID, plan, listFailures, outcomes)
    ensures var i := |outcomes|;
            var key := BatchKey(cluster, date, taskID, i, plan[i].kind, plan[i].name);
            Counted(rnd, Count(rnd, c, key, o, |plan|), cluster, date, taskID, plan, listFailures, outcomes + [o])
  {
    assert (outcomes + [o])[..|outcomes|] == outcomes;
    assert Percents(rnd, c.done + 1, |plan|) == Percents(rnd, c.done, |plan|) + [Percent(rnd, c.done + 1, |plan|)];
  }

  /** One turn of the upload loop, with its counters. */
  method UploadOne(rnd: Rounding, before: Counters, key: string, outcome: Outcome, total: nat) returns (c: Counters)
    requires total > 0
    ensures c == Count(rnd, before, key, outcome, total)
  {
    c := before;
    match outcome {
      case NotUploaded =>
        c := c.(failed := c.failed + 1);
      case Uploaded(size) =>
        c := c.(size := c.size + size, keys := c.keys + [key], done := c.done + 1);
        c := c.(percents := c.percents + [Percent(rnd, c.done, total)]);
    }
  }

  /** The second phase: one object after the other. */
  method UploadPlan(rnd: Rounding, cluster: string, date: string, taskID: nat, plan: seq<Item>, listFailures: nat, outcomes: seq<Outcome>)
    returns (c: Counters)
    requires plan != [] && |outcomes| == |plan|
    ensures Counted(rnd, c, cluster, date, taskID, plan, listFailures, outcomes)
  {
    c := Counters(0, listFailures, 0, [], []);
    for i := 0 to |plan|
      invariant Counted(rnd, c, cluster, date, taskID, plan, listFailures, outcomes[..i])
    {
      var key := BatchKey(cluster, date, taskID, i, plan[i].kind, plan[i].name);
      CountOne(rnd, c, cluster, date, taskID, plan, listFailures, outcomes[..i], outcomes[i]);
      assert outcomes[..i + 1] == outcomes[..i] + [outcomes[i]];
      c := UploadOne(rnd, c, key, outcomes[i], |plan|);
    }
    assert outcomes[..|plan|] == outcomes;
  }

  /** From the plan to the row, for a task that finishes within one date. */
  method FinishBatch(rnd: Rounding, cluster: string, date: string, taskID: nat, plan: seq<Item>, listFailures: nat, outcomes: seq<Outcome>)
    returns (result: BatchResult)
    requires |outcomes| == |plan|
    ensures result == if UploadedCount(outcomes) == 0 then BatchFailed else
                        var keys := UploadedKeys(cluster, date, taskID, plan, outcomes);
                        BatchDone(UploadedCount(outcomes), UploadedSize(outcomes), StoragePathFor(taskID, Last(keys)))
  {
    if |plan| == 0 {
      return BatchFailed;
    }
    var c := UploadPlan(rnd, cluster, date, taskID, plan, listFailures, outcomes);
    if c.done == 0 {
      return BatchFailed;
    }
    result := BatchDone(c.done, c.size, StoragePathFor(taskID, Last(c.keys)));
  }

  function Last(keys: seq<string>): string {
    if keys == [] then "" else keys[|keys| - 1]
  }

  /** What is stored in the row: the common prefix, or the last path if there is none. */
  function StoragePathFor(taskID: nat, lastStorage: string): string {
    var p := BatchObjectPrefix(taskID, lastStorage);
    if p == "" then lastStorage else p
  }

  // ---- what the counters, keys and percents mean ----

  lemma {:induction false} CountIsBounded(outcomes: seq<Outcome>)
    ensures UploadedCount(outcomes) <= |outcomes|
    ensures UploadedCount(outcomes) == |outcomes| <==> forall o | o in outcomes :: o.Uploaded?
  {
    if outcomes != [] {
      var init, last := outcomes[..|outcomes| - 1], outcomes[|outcomes| - 1];
      CountIsBounded(init);
      assert outcomes == init + [last];
    }
  }

  /**
   The published percents of the loop never decrease, stay within 15 to 95, and 95 is among them when every
   planned object was uploaded; up to 2^50 objects, only then.
   */
  lemma PercentsOfTheLoop(rnd: Rounding, total: nat, outcomes: seq<Outcome>)
    requires RoundsLikeFloat64(rnd) && |outcomes| == total && 0 < total
    ensures var done := UploadedCount(outcomes);
            var percents := Percents(rnd, done, total);
            var all := forall o | o in outcomes :: o.Uploaded?;
            && (forall k | 0 <= k < done :: 15 <= percents[k] <= 95)
            && (forall k | 0 < k < done :: percents[k - 1] <= percents[k])
            && (all ==> 95 in percents)
            && (total <= EXACT_TOTAL ==> (95 in percents <==> all))
  {
    CountIsBounded(outcomes);
    var done := UploadedCount(outcomes);
    var percents := Percents(rnd, done, total);
    forall k | 0 <= k < done
      ensures 15 <= percents[k] <= 95 && (k + 1 == total ==> percents[k] == 95)
      ensures total <= EXACT_TOTAL ==> (percents[k] == 95 <==> k + 1 == total)
      ensures k > 0 ==> percents[k - 1] <= percents[k]
    {
      PercentLaws(rnd, k + 1, total);
    }
    if done == total {
      assert percents[total - 1] == 95;
    }
  }

  lemma {:induction false} UploadedKeyOrigin(cluster: string, date: string, taskID: nat, plan: seq<Item>, outcomes: seq<Outcome>, k: nat)
    returns (i: nat)
    requires |outcomes| <= |plan| && k < |UploadedKeys(cluster, date, taskID, plan, outcomes)|
    ensures k <= i < |outcomes| && outcomes[i].Uploaded?
    ensures UploadedKeys(cluster, date, taskID, plan, outcomes)[k] == BatchKey(cluster, date, taskID, i, plan[i].kind, plan[i].name)
    ensures k == |UploadedKeys(cluster, date, taskID, plan, outcomes[..i])|
  {
    var n := |outcomes| - 1;
    var before := UploadedKeys(cluster, date, taskID, plan, outcomes[..n]);
    if k < |before| {
      i := UploadedKeyOrigin(cluster, date, taskID, plan, outcomes[..n], k);
      assert outcomes[..n][..i] == outcomes[..i];
    } else {
      i := n;
      KeysAreCounted(cluster, date, taskID, plan, outcomes[..n]);
    }
  }

  lemma {:induction false} KeysAreCounted(cluster: string, date: string, taskID: nat, plan: seq<Item>, outcomes: seq<Outcome>)
    requires |outcomes| <= |plan|
    ensures |UploadedKeys(cluster, date, taskID, plan, outcomes)| == UploadedCount(outcomes) <= |outcomes|
  {
    if outcomes != [] {
      KeysAreCounted(cluster, date, taskID, plan, outcomes[..|outcomes| - 1]);
    }
  }

  /**
   The uploaded keys of a task are pairwise distinct; each yields the same stored prefix, the code with its
   backslashes turned, the date and the task; and that prefix begins them exactly when the code has no backslash.
   */
  lemma BatchKeysShareTheStoredPrefix(cluster: string, date: string, taskID: nat, plan: seq<Item>, outcomes: seq<Outcome>)
    requires |outcomes| <= |plan|
    requires DateStr(date) && forall it | it in plan :: PlainSegment(it.kind)
    ensures var keys, prefix := UploadedKeys(cluster, date, taskID, plan, outcomes), StoredPrefix(ToSlash(cluster), date, taskID);
            && NoDuplicates(keys)
            && (forall key | key in keys :: StoragePathFor(taskID, key) == prefix)
            && (forall key | key in keys :: prefix <= key <==> '\\' !in cluster)
            && BatchObjectPrefix(taskID, prefix) == prefix
  {
    var keys := UploadedKeys(cluster, date, taskID, plan, outcomes);
    forall a, b | 0 <= a < b < |keys|
      ensures keys[a] != keys[b]
    {
      var i := UploadedKeyOrigin(cluster, date, taskID, plan, outcomes, a);
      var j := UploadedKeyOrigin(cluster, date, taskID, plan, outcomes, b);
      if keys[a] == keys[b] {
        BatchKeysDistinct(cluster, date, taskID, i, j, plan[i].kind, plan[i].name, plan[j].kind, plan[j].name);
        assert false;
      }
    }
    forall key | key in keys
      ensures StoragePathFor(taskID, key) == StoredPrefix(ToSlash(cluster), date, taskID)
      ensures StoredPrefix(ToSlash(cluster), date, taskID) <= key <==> '\\' !in cluster
    {
      var k :| 0 <= k < |keys| && keys[k] == key;
      var i := UploadedKeyOrigin(cluster, date, taskID, plan, outcomes, k);
      assert plan[i] in plan;
      PrefixOfBatchKey(cluster, date, taskID, i, plan[i].kind, plan[i].name);
      PrefixBeginsKey(cluster, date, taskID, i, plan[i].kind, plan[i].name);
    }
    PrefixOfBatchKey(cluster, date, taskID, 0, "Pod", "p");
    PrefixIsIdempotent(taskID, BatchKey(cluster, date, taskID, 0, "Pod", "p"));
  }

  lemma PrefixBeginsKey(c: string, d: string, taskID: nat, i: nat, kind: string, name: string)
    requires DateStr(d) && PlainSegment(kind)
    ensures StoredPrefix(ToSlash(c), d, taskID) <= BatchKey(c, d, taskID, i, kind, name) <==> '\\' !in c
  {
    PrefixSelectsItsBatch(ToSlash(c), d, taskID, c, d, taskID, i, kind, name);
    assert |StoredPrefix(ToSlash(c), d, taskID)| > |c|;
    if '\\' !in c {
      ToSlashId(c);
    } else {
      var k :| 0 <= k < |c| && c[k] == '\\';
      assert ToSlash(c)[k] != c[k];
    }
  }

  // ---- from the listing to the stored prefix ----

  lemma KnownKindsArePlain(kind: string)
    requires kind in KNOWN_KINDS
    ensures PlainSegment(kind)
  {
  }

  // ---- nothing is forgotten ----

  /** The object was listed: its namespace and kind were asked for, the listing succeeded, and it has a name. */
  ghost predicate Listed(listing: Listing, namespaces: seq<string>, kinds: set<string>, it: Item) {
    && it.ns in namespaces && it.kind in kinds && it.name != ""
    && listing(it.ns, it.kind).Some? && it.name in listing(it.ns, it.kind).value
  }

  lemma {:induction false} NamedMembers(ns: string, kind: string, names: seq<string>, it: Item)
    ensures it in Named(ns, kind, names) <==> it.ns == ns && it.kind == kind && it.name != "" && it.name in names
  {
    if names != [] {
      var init, last := names[..|names| - 1], names[|names| - 1];
      NamedMembers(ns, kind, init, it);
      assert names == init + [last];
      assert last == "" ==> Named(ns, kind, names) == Named(ns, kind, init);
    }
  }

  lemma FoundMembers(listing: Listing, ns: string, kind: string, it: Item)
    ensures it in Found(listing, ns, kind) <==>
            it.ns == ns && it.kind == kind && it.name != "" && listing(ns, kind).Some? && it.name in listing(ns, kind).value
  {
    if listing(ns, kind).Some? { NamedMembers(ns, kind, listing(ns, kind).value, it); }
  }

  lemma {:induction false} PlanOfMembers(listing: Listing, ns: string, kinds: seq<string>, it: Item)
    ensures it in PlanOf(listing, ns, kinds) <==>
            it.ns == ns && it.kind in kinds && it.name != "" && listing(ns, it.kind).Some? && it.name in listing(ns, it.kind).value
  {
    if kinds != [] {
      var init, last := kinds[..|kinds| - 1], kinds[|kinds| - 1];
      PlanOfMembers(listing, ns, init, it);
      FoundMembers(listing, ns, last, it);
      assert kinds == init + [last];
    }
  }

  /** The plan is exactly what was listed: every named object of every listing that succeeded, and nothing else. */
  lemma {:induction false} PlanIsWhatWasListed(listing: Listing, namespaces: seq<string>, orders: seq<seq<string>>, kinds: set<string>, it: Item)
    requires |orders| == |namespaces| && forall order | order in orders :: Enumerates(order, kinds)
    ensures it in PlanAll(listing, namespaces, orders) <==> Listed(listing, namespaces, kinds, it)
  {
    if namespaces != [] {
      var n := |namespaces| - 1;
      assert forall order | order in orders[..n] :: order in orders;
      PlanIsWhatWasListed(listing, namespaces[..n], orders[..n], kinds, it);
      PlanOfMembers(listing, namespaces[n], orders[n], it);
      assert orders[n] in orders;
      EnumerationMembers(orders[n], kinds);
      InLastOrBefore(namespaces, it.ns);
    }
  }

  lemma InLastOrBefore(names: seq<string>, name: string)
    requires names != []
    ensures name in names <==> name in names[..|names| - 1] || name == names[|names| - 1]
  {
    assert names == names[..|names| - 1] + [names[|names| - 1]];
  }

  /** The kinds whose listing fails in one namespace. */
  function Unlisted(listing: Listing, ns: string, kinds: set<string>): set<string> {
    set k | k in kinds && listing(ns, k).None?
  }

  lemma UnlistedOneMore(listing: Listing, ns: string, kinds: set<string>, last: string)
    requires last !in kinds
    ensures |Unlisted(listing, ns, kinds + {last})| == |Unlisted(listing, ns, kinds)| + FailedListings(listing, ns, last)
  {
    var before, after := Unlisted(listing, ns, kinds), Unlisted(listing, ns, kinds + {last});
    if listing(ns, last).None? {
      assert after == before + {last};
    } else {
      assert after == before;
    }
  }

  lemma LastOfEnumeration(order: seq<string>, kinds: set<string>)
    requires Enumerates(order, kinds) && order != []
    ensures var init, last := order[..|order| - 1], order[|order| - 1];
            last in kinds && Enumerates(init, kinds - {last}) && kinds == kinds - {last} + {last}
  {
    var init, last := order[..|order| - 1], order[|order| - 1];
    EnumerationMembers(order, kinds);
    assert order == init + [last] && last in order;
    forall k ensures k in init <==> k in kinds && k != last {
      assert k in order <==> k in init || k == last;
    }
    assert (set k | k in init) == kinds - {last};
  }

  lemma {:induction false} FailuresOfCounts(listing: Listing, ns: string, order: seq<string>, kinds: set<string>)
    requires Enumerates(order, kinds)
    ensures FailuresOf(listing, ns, order) == |Unlisted(listing, ns, kinds)|
  {
    if order == [] {
      EnumerationMembers(order, kinds);
      assert Unlisted(listing, ns, kinds) == {};
    } else {
      var init, last := order[..|order| - 1], order[|order| - 1];
      LastOfEnumeration(order, kinds);
      FailuresOfCounts(listing, ns, init, kinds - {last});
      UnlistedOneMore(listing, ns, kinds - {last}, last);
    }
  }

  /** Every failed listing is counted once, namespace by namespace. */
  function UnlistedCount(listing: Listing, namespaces: seq<string>, kinds: set<string>): nat {
    if namespaces == [] then 0
    else UnlistedCount(listing, namespaces[..|namespaces| - 1], kinds) + |Unlisted(listing, namespaces[|namespaces| - 1], kinds)|
  }

  lemma {:induction false} FailuresAreCounted(listing: Listing, namespaces: seq<string>, orders: seq<seq<string>>, kinds: set<string>)
    requires |orders| == |namespaces| && forall order | order in orders :: Enumerates(order, kinds)
    ensures FailuresAll(listing, namespaces, orders) == UnlistedCount(listing, namespaces, kinds)
  {
    if namespaces != [] {
      var n := |namespaces| - 1;
      assert forall order | order in orders[..n] :: order in orders;
      FailuresAreCounted(listing, namespaces[..n], orders[..n], kinds);
      assert orders[n] in orders;
      FailuresOfCounts(listing, namespaces[n], orders[n], kinds);
    }
  }

  /** Counts and sizes are sums: one object is one, with its size, and parts add up. */
  lemma {:induction false} UploadsAddUp(a: seq<Outcome>, b: seq<Outcome>)
    ensures UploadedCount(a + b) == UploadedCount(a) + UploadedCount(b)
    ensures UploadedSize(a + b) == UploadedSize(a) + UploadedSize(b)
    ensures forall size :: UploadedCount([Uploaded(size)]) == 1 && UploadedSize([Uploaded(size)]) == size
    ensures UploadedCount([NotUploaded]) == 0 && UploadedSize([NotUploaded]) == 0
  {
    forall o: Outcome ensures [o][..0] == [] && UploadedCount([o]) == (if o.Uploaded? then 1 else 0)
                              && UploadedSize([o]) == (if o.Uploaded? then o.size else 0) {
      assert [o][..0] == [];
    }
    if b == [] {
      assert a + b == a;
    } else {
      var init := b[..|b| - 1];
      assert (a + b)[..|a + b| - 1] == a + init;
      UploadsAddUp(a, init);
    }
  }

  /**
   The whole batch, from its two lists to the result: whatever the listings and uploads return, the objects that
   were stored have distinct keys, as many as the result says, and the stored path is their common prefix.
   */
  method BackupNamespaces(rnd: Rounding, cluster: string, date: string, taskID: nat, listing: Listing, namespaces: seq<string>,
                          kindFilter: seq<string>, upload: nat -> Outcome)
    returns (result: BatchResult, plan: seq<Item>, keys: seq<string>)
    requires DateStr(date)
    ensures forall it :: it in plan <==> Listed(listing, namespaces, KindsOf(kindFilter), it)
    ensures keys == UploadedKeys(cluster, date, taskID, plan, seq(|plan|, upload)) && NoDuplicates(keys)
    ensures result.BatchFailed? <==> keys == []
    ensures result.BatchDone? ==> result.objectCount == |keys| && result.sizeBytes == UploadedSize(seq(|plan|, upload))
    ensures result.BatchDone? ==> result.storagePath == StoredPrefix(ToSlash(cluster), date, taskID)
    ensures result.BatchDone? && '\\' !in cluster ==> forall key | key in keys :: result.storagePath <= key
  {
    var failed, orders;
    plan, failed, orders := Plan(listing, namespaces, kindFilter);
    forall it | it in plan ensures PlainSegment(it.kind) { KnownKindsArePlain(it.kind); }
    var outcomes := seq(|plan|, upload);
    BatchKeysShareTheStoredPrefix(cluster, date, taskID, plan, outcomes);
    KeysAreCounted(cluster, date, taskID, plan, outcomes);
    result := FinishBatch(rnd, cluster, date, taskID, plan, failed, outcomes);
    keys := UploadedKeys(cluster, date, taskID, plan, outcomes);
    assert keys != [] ==> Last(keys) in keys;
  }
}
