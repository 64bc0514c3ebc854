/**
 Applying a restored object to a cluster (backend/internal/worker/restore_apply.go): the search for a free
 name, and the create-new and overwrite modes. What a lookup answers is a parameter, so a probe may fail or
 be outdated by the time the write is made; `objects` is the cluster at that time.
 */
module Restore {
  import opened Basics
  import opened Text

  // ---- the free name ----

  /** The names tried, in order: the base name, then the base name with -2 to -99. */
  function Candidate(base: string, i: nat): string
    requires 1 <= i
  {
    if i == 1 then base else base + "-" + Decimal(i)
  }

  const TRIES: nat := 99

  function RestoredBase(original: string, yyyymmdd: string): string { original + "-restored-" + yyyymmdd }

  /** `chosen` is the first candidate not reported to exist, or the clock's name when all 99 are. */
  ghost predicate FirstFree(base: string, exists_: string -> bool, unix: nat, chosen: string) {
    || (exists i | 1 <= i <= TRIES :: chosen == Candidate(base, i) && !exists_(chosen)
                                      && forall j | 1 <= j < i :: exists_(Candidate(base, j)))
    || (chosen == base + "-" + Decimal(unix) && forall j | 1 <= j <= TRIES :: exists_(Candidate(base, j)))
  }

  method UniqueRestoredName(original: string, yyyymmdd: string, exists_: string -> bool, unix: nat) returns (name: string)
    ensures FirstFree(RestoredBase(original, yyyymmdd), exists_, unix, name)
  {
    var base := RestoredBase(original, yyyymmdd);
    if !exists_(base) {
      assert base == Candidate(base, 1);
      return base;
    }
    var i := 2;
    while i < 100
      invariant 2 <= i <= 100
      invariant forall j | 1 <= j < i :: exists_(Candidate(base, j))
    {
      var cand := base + "-" + Decimal(i);
      if !exists_(cand) {
        assert cand == Candidate(base, i);
        return cand;
      }
      i := i + 1;
    }
    name := base + "-" + Decimal(unix);
  }

  /** The 99 candidates are 99 names, and the clock's name is none of them once the clock has passed 99. */
  lemma CandidatesDiffer(base: string, i: nat, j: nat)
    requires 1 <= i && 1 <= j && i != j
    ensures Candidate(base, i) != Candidate(base, j)
  {
    if i == 1 {
      assert |Candidate(base, j)| > |base|;
    } else if j == 1 {
      assert |Candidate(base, i)| > |base|;
    } else {
      if Candidate(base, i) == Candidate(base, j) {
        assert Candidate(base, i)[|base| + 1..] == Decimal(i) && Candidate(base, j)[|base| + 1..] == Decimal(j);
        DecimalInjective(i, j);
      }
    }
  }

  /** The names that are tried, as they read. */
  lemma CandidatesRead(base: string, i: nat)
    requires 2 <= i <= TRIES
    ensures Candidate(base, 1) == base
    ensures var name := Candidate(base, i);
            base + "-" <= name && AllDigits(name[|base| + 1..]) && Value(name[|base| + 1..]) == i && |name| <= |base| + 3
  {
    DecimalDenotes(i);
    assert Candidate(base, i)[|base| + 1..] == Decimal(i);
    assert Decimal(i) == if i < 10 then [Digit(i)] else [Digit(i / 10)] + [Digit(i % 10)];
  }

  /** The chosen name is determined, and no reported name is ever chosen while the clock is past 99. */
  lemma FirstFreeIsUnique(base: string, exists_: string -> bool, unix: nat, x: string, y: string)
    requires FirstFree(base, exists_, unix, x) && FirstFree(base, exists_, unix, y)
    ensures x == y
    ensures unix > TRIES ==> x == Candidate(base, unix) || !exists_(x)
  {
  }

  // ---- the object and the cluster ----

  datatype Mode = Overwrite | CreateNew

  type Key = (string, string)

  datatype Content = Content(name: string, metadata: map<string, string>, status: Option<string>, body: string)

  /** An object in the cluster; every write gives it a new resource version. */
  datatype Stored = Stored(content: Content, resourceVersion: string)

  const SERVER_FIELDS: set<string> := {"resourceVersion", "uid", "creationTimestamp", "generation", "managedFields"}

  function Stripped(c: Content): Content {
    c.(metadata := c.metadata - SERVER_FIELDS, status := None)
  }

  lemma StrippedFields(was: map<string, string>, left: map<string, string>)
    requires left == was - {"resourceVersion"} - {"uid"} - {"creationTimestamp"} - {"generation"} - {"managedFields"}
    ensures left == was - SERVER_FIELDS
    ensures forall f :: f in left <==>
              f in was && f != "resourceVersion" && f != "uid" && f != "creationTimestamp" && f != "generation" && f != "managedFields"
    ensures forall f | f in left :: left[f] == was[f]
  {
  }

  class Unstructured {
    var name: string
    var metadata: map<string, string>
    var status: Option<string>
    var body: string

    constructor (c: Content)
      ensures Value() == c
    {
      name, metadata, status, body := c.name, c.metadata, c.status, c.body;
    }

    function Value(): Content
      reads this
    {
      Content(name, metadata, status, body)
    }

    method StripForCreate()
      modifies this`metadata, this`status
      ensures Value() == Stripped(old(Value()))
      ensures status == None && name == old(name) && body == old(body)
      ensures forall f :: f in metadata <==>
                f in old(metadata) && f != "resourceVersion" && f != "uid" && f != "creationTimestamp" && f != "generation" && f != "managedFields"
      ensures forall f | f in metadata :: metadata[f] == old(metadata)[f]
    {
      metadata := metadata - {"resourceVersion"};
      metadata := metadata - {"uid"};
      metadata := metadata - {"creationTimestamp"};
      metadata := metadata - {"generation"};
      metadata := metadata - {"managedFields"};
      status := None;
      StrippedFields(old(metadata), metadata);
    }
  }

  class Cluster {
    var objects: map<Key, Stored>

    constructor (objects: map<Key, Stored>)
      ensures this.objects == objects
    {
      this.objects := objects;
    }

    /** The API server creates only what does not exist. */
    method Create(ns: string, obj: Unstructured, version: string, apiOk: bool) returns (ok: bool)
      modifies this
      ensures ok <==> apiOk && old((ns, obj.name) !in objects)
      ensures objects == if ok then old(objects)[(ns, obj.name) := Stored(obj.Value(), version)] else old(objects)
    {
      ok := apiOk && (ns, obj.name) !in objects;
      if ok { objects := objects[(ns, obj.name) := Stored(obj.Value(), version)]; }
    }

    /** An update must carry the stored resource version. */
    method Update(ns: string, obj: Unstructured, version: string, apiOk: bool) returns (ok: bool)
      modifies this
      ensures ok <==> apiOk && old((ns, obj.name) in objects && "resourceVersion" in obj.metadata
                                   && obj.metadata["resourceVersion"] == objects[(ns, obj.name)].resourceVersion)
      ensures objects == if ok then old(objects)[(ns, obj.name) := Stored(obj.Value(), version)] else old(objects)
    {
      ok := apiOk && (ns, obj.name) in objects && "resourceVersion" in obj.metadata
      && obj.metadata["resourceVersion"] == objects[(ns, obj.name)].resourceVersion;
      if ok { objects := objects[(ns, obj.name) := Stored(obj.Value(), version)]; }
    }

    /**
     `existing` is what the first lookup returned, `probe` what the later lookups answer. Creating never touches an
     object that is there at the time of the write, whatever the lookups said; overwriting touches at most the one
     it names, and succeeds exactly if that is still there in the version that was looked up.
     */
    method ApplyRestoredObject(ns: string, obj: Unstructured, mode: Mode, existing: Option<Stored>, probe: string -> bool,
                               yyyymmdd: string, unix: nat, version: string, apiOk: bool) returns (ok: bool)
      modifies this, obj
      ensures mode == CreateNew ==> forall k | k in old(objects) :: k in objects && objects[k] == old(objects)[k]
      ensures forall k | k in old(objects) && k != (ns, old(obj.name)) :: k in objects && objects[k] == old(objects)[k]
      ensures mode == Overwrite && existing.Some? ==>
                && (ok <==> apiOk && (ns, old(obj.name)) in old(objects)
                            && existing.value.resourceVersion == old(objects)[(ns, old(obj.name))].resourceVersion)
                && obj.Value() == old(obj.Value()).(metadata := old(obj.metadata)["resourceVersion" := existing.value.resourceVersion])
      ensures !ok ==> objects == old(objects)
      ensures ok ==> objects == old(objects)[(ns, obj.name) := Stored(obj.Value(), version)]
      ensures mode == CreateNew && existing.Some? ==> FirstFree(RestoredBase(old(obj.name), yyyymmdd), probe, unix, obj.name)
      ensures mode == Overwrite || existing.None? ==> obj.name == old(obj.name)
      ensures mode == CreateNew || existing.None? ==>
                obj.Value() == Stripped(old(obj.Value())).(name := obj.name) && (ok <==> apiOk && (ns, obj.name) !in old(objects))
      ensures obj.body == old(obj.body)
    {
      if mode == CreateNew {
        if existing.Some? {
          obj.name := UniqueRestoredName(obj.name, yyyymmdd, probe, unix);
        }
        obj.StripForCreate();
        ok := Create(ns, obj, version, apiOk);
      } else if existing.Some? {
        obj.metadata := obj.metadata["resourceVersion" := existing.value.resourceVersion];
        ok := Update(ns, obj, version, apiOk);
      } else {
        obj.StripForCreate();
        ok := Create(ns, obj, version, apiOk);
      }
    }
  }

  /** With truthful lookups and a candidate left, a create-new restore finds a name that can be created. */
  lemma TruthfulProbesFindAFreeName(objects: map<Key, Stored>, ns: string, base: string, unix: nat, chosen: string, i: nat)
    requires FirstFree(base, n => (ns, n) in objects, unix, chosen)
    requires 1 <= i <= TRIES && (ns, Candidate(base, i)) !in objects
    ensures (ns, chosen) !in objects
    ensures exists k :: 1 <= k <= i && chosen == Candidate(base, k)
  {
    var probe := n => (ns, n) in objects;
    assert !probe(Candidate(base, i));
  }
}
