/**
 The encrypted kubeconfig (backend/pkg/crypto/aesgcm.go) and the associated data it takes from the cluster row
 (backend/internal/cluster/manager.go), which does not identify the row. The AEAD itself is a parameter with the
 usual laws (section 2 of RFC 5116); characters stand for bytes.
 */
module Envelope {
  import opened Basics
  import opened Text

  type Bytes = string
  type Key = Bytes

  datatype Aead = Aead(seal: (Key, Bytes, Bytes, Bytes) -> Bytes, open: (Key, Bytes, Bytes, Bytes) -> Option<Bytes>)

  const VERSION_BYTE := 1 as char
  const NONCE_SIZE: nat := 12
  const TAG_SIZE: nat := 16

  /** Opening undoes sealing, opens nothing else, and a sealed text is one tag longer than the plain one. */
  ghost predicate Lawful(a: Aead) {
    && (forall k, n, p, d :: a.open(k, n, a.seal(k, n, p, d), d) == Some(p))
    && (forall k, n, c, d :: a.open(k, n, c, d).Some? ==> c == a.seal(k, n, a.open(k, n, c, d).value, d))
    && (forall k, n, p, d :: |a.seal(k, n, p, d)| == |p| + TAG_SIZE)
  }

  /** What one of the two keys sealed, the other does not open. */
  ghost predicate Separate(a: Aead, k: Key, k': Key) {
    k != k' ==> forall n, p, d :: a.open(k, n, a.seal(k', n, p, d), d) == None && a.open(k', n, a.seal(k, n, p, d), d) == None
  }

  datatype Result = Plain(text: Bytes) | TooShort | UnknownVersion | AllKeysTried

  // ---- what Encrypt and Decrypt compute ----

  function Sealed(a: Aead, k: Key, nonce: Bytes, plain: Bytes, aad: Bytes): Bytes {
    [VERSION_BYTE] + nonce + a.seal(k, nonce, plain, aad)
  }

  /** The first key that opens the text decides. */
  function OpenWith(a: Aead, keys: seq<Key>, nonce: Bytes, ciphertext: Bytes, aad: Bytes): Result {
    if keys == [] then AllKeysTried
    else if a.open(keys[0], nonce, ciphertext, aad).Some? then Plain(a.open(keys[0], nonce, ciphertext, aad).value)
    else OpenWith(a, keys[1..], nonce, ciphertext, aad)
  }

  function Keyring(key: Key, previous: Option<Key>): seq<Key> {
    if previous.Some? then [key, previous.value] else [key]
  }

  function Opened(a: Aead, key: Key, previous: Option<Key>, blob: Bytes, aad: Bytes): Result {
    if |blob| < 1 + NONCE_SIZE + TAG_SIZE then TooShort
    else if blob[0] != VERSION_BYTE then UnknownVersion
    else OpenWith(a, Keyring(key, previous), blob[1..1 + NONCE_SIZE], blob[1 + NONCE_SIZE..], aad)
  }

  class AESGCM {
    const key: Key
    const previous: Option<Key>

    constructor (key: Key, previous: Option<Key>)
      ensures this.key == key && this.previous == previous
    {
      this.key, this.previous := key, previous;
    }

    /** One buffer, filled with the version byte, the nonce and the sealed text. */
    method Encrypt(a: Aead, nonce: Bytes, plain: Bytes, aad: Bytes) returns (out: array<char>)
      requires |nonce| == NONCE_SIZE
      ensures fresh(out) && out[..] == Sealed(a, key, nonce, plain, aad)
    {
      var ciphertext := a.seal(key, nonce, plain, aad);
      out := new char[1 + NONCE_SIZE + |ciphertext|];
      out[0] := VERSION_BYTE;
      Copy(out, 1, nonce);
      Copy(out, 1 + NONCE_SIZE, ciphertext);
      assert out[..] == out[..1] + out[1..1 + NONCE_SIZE] + out[1 + NONCE_SIZE..];
    }

    /** The built-in copy into a slice of the buffer. */
    method Copy(out: array<char>, start: nat, source: Bytes)
      requires start + |source| <= out.Length
      modifies out
      ensures out[start..start + |source|] == source
      ensures out[..start] == old(out[..start]) && out[start + |source|..] == old(out[start + |source|..])
    {
      var i := 0;
      while i < |source|
        invariant 0 <= i <= |source|
        invariant forall j | 0 <= j < i :: out[start + j] == source[j]
        invariant forall j | 0 <= j < out.Length && !(start <= j < start + i) :: out[j] == old(out[j])
      {
        out[start + i] := source[i];
        i := i + 1;
      }
      assert forall j | 0 <= j < |source| :: out[start..start + |source|][j] == source[j];
    }

    /** The length check, the version check, then the current key before the previous one. */
    method Decrypt(a: Aead, blob: Bytes, aad: Bytes) returns (r: Result)
      ensures r == Opened(a, key, previous, blob, aad)
    {
      if |blob| < 1 + NONCE_SIZE + TAG_SIZE { return TooShort; }
      if blob[0] != VERSION_BYTE { return UnknownVersion; }
      var nonce, ciphertext := blob[1..1 + NONCE_SIZE], blob[1 + NONCE_SIZE..];
      var keysToTry := [key];
      if previous.Some? { keysToTry := keysToTry + [previous.value]; }
      var i := 0;
      while i < |keysToTry|
        invariant 0 <= i <= |keysToTry|
        invariant OpenWith(a, keysToTry, nonce, ciphertext, aad) == OpenWith(a, keysToTry[i..], nonce, ciphertext, aad)
      {
        var plain := a.open(keysToTry[i], nonce, ciphertext, aad);
        if plain.Some? { return Plain(plain.value); }
        i := i + 1;
      }
      r := AllKeysTried;
    }
  }

  method ZeroBuffer(b: array<char>)
    modifies b
    ensures forall i | 0 <= i < b.Length :: b[i] == 0 as char
  {
    var i := 0;
    while i < b.Length
      invariant 0 <= i <= b.Length && forall j | 0 <= j < i :: b[j] == 0 as char
    {
      b[i] := 0 as char;
      i := i + 1;
    }
  }

  // ---- laws ----

  /** A text sealed under `k` opens to itself exactly while `k` is the current or the previous key. */
  lemma RoundTrip(a: Aead, k: Key, key: Key, previous: Option<Key>, nonce: Bytes, plain: Bytes, aad: Bytes)
    requires Lawful(a) && |nonce| == NONCE_SIZE
    requires Separate(a, k, key) && (previous.Some? ==> Separate(a, k, previous.value))
    ensures var r := Opened(a, key, previous, Sealed(a, k, nonce, plain, aad), aad);
            if k == key || previous == Some(k) then r == Plain(plain) else r == AllKeysTried
  {
    var ciphertext := a.seal(k, nonce, plain, aad);
    var blob := Sealed(a, k, nonce, plain, aad);
    assert blob[1..1 + NONCE_SIZE] == nonce && blob[1 + NONCE_SIZE..] == ciphertext;
    assert |ciphertext| >= TAG_SIZE;
    OpenWithUnfolds(a, key, previous, nonce, ciphertext, aad);
  }

  lemma OpenWithUnfolds(a: Aead, key: Key, previous: Option<Key>, nonce: Bytes, ciphertext: Bytes, aad: Bytes)
    ensures var first := a.open(key, nonce, ciphertext, aad);
            OpenWith(a, Keyring(key, previous), nonce, ciphertext, aad) ==
            if first.Some? then Plain(first.value)
            else if previous.Some? && a.open(previous.value, nonce, ciphertext, aad).Some?
            then Plain(a.open(previous.value, nonce, ciphertext, aad).value) else AllKeysTried
  {
    var keys := Keyring(key, previous);
    assert OpenWith(a, [], nonce, ciphertext, aad) == AllKeysTried;
    if previous.Some? {
      assert keys[1..] == [previous.value] && keys[1..][1..] == [];
    } else {
      assert keys[1..] == [];
    }
  }

  /** Whatever decrypts was sealed under one of the two keys, for the same associated data. */
  lemma OnlySealedTextsOpen(a: Aead, key: Key, previous: Option<Key>, blob: Bytes, aad: Bytes)
    requires Lawful(a)
    ensures var r := Opened(a, key, previous, blob, aad);
            r.Plain? ==> var nonce := blob[1..1 + NONCE_SIZE];
                         || blob == Sealed(a, key, nonce, r.text, aad)
                         || (previous.Some? && blob == Sealed(a, previous.value, nonce, r.text, aad))
  {
    var r := Opened(a, key, previous, blob, aad);
    if r.Plain? {
      var nonce, ciphertext := blob[1..1 + NONCE_SIZE], blob[1 + NONCE_SIZE..];
      OpenWithUnfolds(a, key, previous, nonce, ciphertext, aad);
      assert blob == [VERSION_BYTE] + nonce + ciphertext;
    }
  }

  // ---- stored kubeconfigs under concurrent writers and key rotation ----

  datatype Row = Row(blob: Bytes, creator: nat)

  /** The associated data is rebuilt from the row on every use. */
  function AadOf(code: string, creator: nat): Bytes { code + Decimal(creator) }

  /**
   Exactly when two rows share their associated data: the same row, or one code continues the other by leading
   digits of the other's creator id, as "a1" with creator 2 and "a" with creator 12 do.
   */
  lemma SharedAadIsExact(c1: string, n1: nat, c2: string, n2: nat)
    ensures AadOf(c1, n1) == AadOf(c2, n2) <==>
            || (c1 == c2 && n1 == n2)
            || (c1 < c2 && Decimal(n1) == c2[|c1|..] + Decimal(n2))
            || (c2 < c1 && Decimal(n2) == c1[|c2|..] + Decimal(n1))
  {
    if |c1| == |c2| {
      if AadOf(c1, n1) == AadOf(c2, n2) {
        assert AadOf(c1, n1)[..|c1|] == c1 && AadOf(c2, n2)[..|c2|] == c2;
        assert AadOf(c1, n1)[|c1|..] == Decimal(n1) && AadOf(c2, n2)[|c2|..] == Decimal(n2);
        DecimalInjective(n1, n2);
      }
    } else if |c1| < |c2| {
      LongerCode(c1, n1, c2, n2);
    } else {
      LongerCode(c2, n2, c1, n1);
    }
  }

  lemma LongerCode(c1: string, n1: nat, c2: string, n2: nat)
    requires |c1| < |c2|
    ensures AadOf(c1, n1) == AadOf(c2, n2) <==> c1 < c2 && Decimal(n1) == c2[|c1|..] + Decimal(n2)
  {
    var s := AadOf(c2, n2);
    assert s[|c1|..] == c2[|c1|..] + Decimal(n2) && s[..|c1|] == c2[..|c1|];
    assert AadOf(c1, n1)[..|c1|] == c1 && AadOf(c1, n1)[|c1|..] == Decimal(n1);
    if c1 < c2 && Decimal(n1) == c2[|c1|..] + Decimal(n2) {
      assert c2 == c1 + c2[|c1|..];
    }
  }

  /** A caller that has encrypted a kubeconfig and not yet written it. */
  datatype Prepared = Prepared(code: string, creator: nat, blob: Bytes, plain: Bytes, key: Key, nonce: Bytes)

  /** What was last written to a row, for the statement of the theorem. */
  datatype Written = Written(plain: Bytes, key: Key, nonce: Bytes)

  datatype State = State(
    rows: map<string, Row>,
    prepared: map<nat, Prepared>,
    key: Key,
    previous: Option<Key>,
    written: map<string, Written>,
    used: set<Key>)

  datatype Event =
    | Prepare(t: nat, code: string, creator: nat, plain: Bytes, nonce: Bytes)
    | WriteImport(t: nat)
    | WriteUpdate(t: nat)
    | DeleteRow(code: string)
    | Rotate(key: Key, previous: Option<Key>)

  function Next(a: Aead, s: State, e: Event): State {
    match e
    case Prepare(t, code, creator, plain, nonce) =>
      if |nonce| != NONCE_SIZE then s
      else s.(prepared := s.prepared[t := Prepared(code, creator, Sealed(a, s.key, nonce, plain, AadOf(code, creator)), plain, s.key, nonce)])
    case WriteImport(t) =>
      if t in s.prepared && s.prepared[t].code !in s.rows then Store(s, s.prepared[t]) else s
    case WriteUpdate(t) =>
      if t in s.prepared && s.prepared[t].code in s.rows then Store(s, s.prepared[t]) else s
    case DeleteRow(code) => s.(rows := s.rows - {code})
    case Rotate(key, previous) =>
      s.(key := key, previous := previous, used := s.used + {key} + if previous.Some? then {previous.value} else {})
  }

  /** One statement writes the ciphertext and the creator id together. */
  function Store(s: State, p: Prepared): State {
    s.(rows := s.rows[p.code := Row(p.blob, p.creator)], written := s.written[p.code := Written(p.plain, p.key, p.nonce)])
  }

  function Run(a: Aead, key: Key, events: seq<Event>): State {
    if events == [] then State(map[], map[], key, None, map[], {key})
    else Next(a, Run(a, key, events[..|events| - 1]), events[|events| - 1])
  }

  ghost predicate Inv(a: Aead, s: State) {
    && s.key in s.used && (s.previous.Some? ==> s.previous.value in s.used)
    && (forall t | t in s.prepared :: PreparedInv(a, s, s.prepared[t]))
    && (forall code | code in s.rows :: RowInv(a, s, code))
  }

  ghost predicate PreparedInv(a: Aead, s: State, p: Prepared) {
    |p.nonce| == NONCE_SIZE && p.key in s.used && p.blob == Sealed(a, p.key, p.nonce, p.plain, AadOf(p.code, p.creator))
  }

  ghost predicate RowInv(a: Aead, s: State, code: string)
    requires code in s.rows
  {
    code in s.written &&
    var w := s.written[code];
    |w.nonce| == NONCE_SIZE && w.key in s.used && s.rows[code].blob == Sealed(a, w.key, w.nonce, w.plain, AadOf(code, s.rows[code].creator))
  }

  lemma StepKeepsInv(a: Aead, s: State, e: Event)
    requires Inv(a, s)
    ensures Inv(a, Next(a, s, e))
  {
    var s' := Next(a, s, e);
    forall t | t in s'.prepared
      ensures PreparedInv(a, s', s'.prepared[t])
    {
      assert t in s.prepared ==> PreparedInv(a, s, s.prepared[t]);
    }
    forall code | code in s'.rows
      ensures RowInv(a, s', code)
    {
      assert code in s.rows ==> RowInv(a, s, code);
      assert e.WriteImport? && e.t in s.prepared ==> PreparedInv(a, s, s.prepared[e.t]);
      assert e.WriteUpdate? && e.t in s.prepared ==> PreparedInv(a, s, s.prepared[e.t]);
    }
  }

  lemma {:induction false} RunKeepsInv(a: Aead, key: Key, events: seq<Event>)
    ensures Inv(a, Run(a, key, events))
  {
    if events != [] {
      RunKeepsInv(a, key, events[..|events| - 1]);
      StepKeepsInv(a, Run(a, key, events[..|events| - 1]), events[|events| - 1]);
    }
  }

  // ---- the table of plain texts that the callers have in mind ----

  /** What a caller means to store, and the key it will be sealed under. */
  datatype Intent = Intent(code: string, plain: Bytes, key: Key)

  function KeyInUse(first: Key, events: seq<Event>): Key {
    if events == [] then first
    else
      match events[|events| - 1]
      case Rotate(key, _) => key
      case _ => KeyInUse(first, events[..|events| - 1])
  }

  function Previous(events: seq<Event>): Option<Key> {
    if events == [] then None
    else
      match events[|events| - 1]
      case Rotate(_, previous) => previous
      case _ => Previous(events[..|events| - 1])
  }

  function Intended(first: Key, events: seq<Event>, t: nat): Option<Intent> {
    if events == [] then None
    else
      var before := events[..|events| - 1];
      match events[|events| - 1]
      case Prepare(u, code, _, plain, nonce) =>
        if u == t && |nonce| == NONCE_SIZE then Some(Intent(code, plain, KeyInUse(first, before))) else Intended(first, before, t)
      case _ => Intended(first, before, t)
  }

  /** The text that should be under a code: an import fills a free code, an update replaces, a deletion frees. */
  function Expected(first: Key, events: seq<Event>, code: string): Option<Intent> {
    if events == [] then None
    else
      var before := events[..|events| - 1];
      var now := Expected(first, before, code);
      match events[|events| - 1]
      case WriteImport(t) =>
        var p := Intended(first, before, t);
        if p.Some? && p.value.code == code && now.None? then p else now
      case WriteUpdate(t) =>
        var p := Intended(first, before, t);
        if p.Some? && p.value.code == code && now.Some? then p else now
      case DeleteRow(c) => if c == code then None else now
      case _ => now
  }

  /** The encrypted table and the table of plain texts agree, entry by entry and caller by caller. */
  lemma {:induction false} TableIsAsExpected(a: Aead, first: Key, events: seq<Event>, code: string, t: nat)
    ensures var s := Run(a, first, events);
            && s.key == KeyInUse(first, events) && s.previous == Previous(events)
            && (t in s.prepared <==> Intended(first, events, t).Some?)
            && (t in s.prepared ==> var p := s.prepared[t]; Intended(first, events, t) == Some(Intent(p.code, p.plain, p.key)))
            && (code in s.rows <==> Expected(first, events, code).Some?)
            && (code in s.rows ==> code in s.written
                                   && Expected(first, events, code) == Some(Intent(code, s.written[code].plain, s.written[code].key)))
  {
    if events != [] {
      var before, e := events[..|events| - 1], events[|events| - 1];
      var writer := match e case WriteImport(u) => u case WriteUpdate(u) => u case _ => t;
      TableIsAsExpected(a, first, before, code, t);
      TableIsAsExpected(a, first, before, code, writer);
    }
  }

  /**
   In every interleaving of imports, updates, deletions and key rotations, the stored kubeconfigs are those that the
   callers' steps call for, no more and no fewer, and each decrypts, under the associated data rebuilt from its own
   row, to its text, exactly while the key it was sealed under is still the current or the previous one.
   */
  lemma StoredKubeconfigDecrypts(a: Aead, first: Key, events: seq<Event>, code: string)
    requires Lawful(a)
    requires forall k, k' | k in Run(a, first, events).used && k' in Run(a, first, events).used :: Separate(a, k, k')
    ensures var s, expected := Run(a, first, events), Expected(first, events, code);
            && (code in s.rows <==> expected.Some?)
            && (expected.Some? ==>
                  var r := Opened(a, s.key, s.previous, s.rows[code].blob, AadOf(code, s.rows[code].creator));
                  r == if expected.value.key == KeyInUse(first, events) || Previous(events) == Some(expected.value.key)
                       then Plain(expected.value.plain) else AllKeysTried)
  {
    RunKeepsInv(a, first, events);
    TableIsAsExpected(a, first, events, code, 0);
    var s := Run(a, first, events);
    if code in s.rows {
      assert RowInv(a, s, code);
      var w := s.written[code];
      RoundTrip(a, w.key, s.key, s.previous, w.nonce, w.plain, AadOf(code, s.rows[code].creator));
    }
  }
}
