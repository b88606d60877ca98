/** The sealed entries of `createFileCredentialStore` in apps/cli/src/credentials.ts. */
module CredentialStore {
  import opened FileSystem
  import opened Sequences
  import opened ProtectedFiles
  import WrappingKey

  /** A scope as `TextEncoder` gives it: both parts in UTF-8. */
  datatype Scope = Scope(service: Bytes, account: Bytes)

  const ENTRY_VERSION: byte := 1
  const NONCE_LENGTH := 12
  const TAG_BYTES := 16

  /** "DotRelay\0credential-store\0v1\0" */
  const STORE_INFO: Bytes := [
    68, 111, 116, 82, 101, 108, 97, 121, 0,
    99, 114, 101, 100, 101, 110, 116, 105, 97, 108, 45, 115, 116, 111, 114, 101, 0,
    118, 49, 0]

  function ScopeBytes(scope: Scope): Bytes {
    scope.service + [0] + scope.account
  }

  predicate NulFree(text: Bytes) {
    0 !in text
  }

  // ---------- Ideal primitives ----------

  /** SHA-256 in hexadecimal, and AES-256-GCM over (key, nonce, associated data, text). */
  datatype Crypto = Crypto(
    digest: Bytes -> string,
    seal: (WrappingKey.Key, Bytes, Bytes, Bytes) -> Bytes,
    open: (WrappingKey.Key, Bytes, Bytes, Bytes) -> Option<Bytes>)

  /** Digests do not collide, and a ciphertext opens only under the inputs that sealed it. */
  ghost predicate Ideal(c: Crypto) {
    && (forall a, b :: c.digest(a) == c.digest(b) ==> a == b)
    && (forall k, n, a, p :: |c.seal(k, n, a, p)| >= TAG_BYTES && c.open(k, n, a, c.seal(k, n, a, p)) == Some(p))
    && (forall k, n, a, t :: c.open(k, n, a, t).Some? ==> t == c.seal(k, n, a, c.open(k, n, a, t).value))
    && (forall k, n, a, p, k', n', a', p' :: c.seal(k, n, a, p) == c.seal(k', n', a', p') ==>
          k == k' && n == n' && a == a' && p == p')
  }

  // ---------- Framing ----------

  method CopyInto(output: array<byte>, source: Bytes, offset: nat)
    requires offset + |source| <= output.Length
    modifies output
    ensures output[..] == old(output[..offset]) + source + old(output[offset + |source|..])
  {
    forall i | 0 <= i < |source| {
      output[offset + i] := source[i];
    }
  }

  function AssociatedBytes(scope: Scope): Bytes {
    STORE_INFO + ScopeBytes(scope)
  }

  method AssociatedData(scope: Scope) returns (output: array<byte>)
    ensures fresh(output) && output[..] == AssociatedBytes(scope)
  {
    var bytes := ScopeBytes(scope);
    output := new byte[|STORE_INFO| + |bytes|];
    CopyInto(output, STORE_INFO, 0);
    CopyInto(output, bytes, |STORE_INFO|);
  }

  /** An entry file: the version, the nonce, the ciphertext. */
  function Framed(nonce: Bytes, ciphertext: Bytes): Bytes {
    [ENTRY_VERSION] + nonce + ciphertext
  }

  method Frame(nonce: Bytes, ciphertext: Bytes) returns (entry: array<byte>)
    requires |nonce| == NONCE_LENGTH
    ensures fresh(entry) && entry[..] == Framed(nonce, ciphertext)
  {
    entry := new byte[1 + NONCE_LENGTH + |ciphertext|];
    entry[0] := ENTRY_VERSION;
    CopyInto(entry, nonce, 1);
    CopyInto(entry, ciphertext, 1 + NONCE_LENGTH);
  }

  datatype Outcome = Secret(bytes: Bytes) | Absent | Invalid

  /** What `set` writes for a secret. */
  function Entry(c: Crypto, key: WrappingKey.Key, scope: Scope, nonce: Bytes, secret: Bytes): Bytes {
    Framed(nonce, c.seal(key, nonce, AssociatedBytes(scope), secret))
  }

  /** What `get` makes of the file it found. */
  function Unseal(c: Crypto, key: WrappingKey.Key, scope: Scope, entry: Bytes): Outcome {
    if |entry| < 1 + NONCE_LENGTH + TAG_BYTES || entry[0] != ENTRY_VERSION then Invalid
    else
      match c.open(key, entry[1..1 + NONCE_LENGTH], AssociatedBytes(scope), entry[1 + NONCE_LENGTH..])
      case Some(secret) => Secret(secret)
      case None => Invalid
  }

  lemma FramingSplits(nonce: Bytes, ciphertext: Bytes)
    requires |nonce| == NONCE_LENGTH
    ensures var entry := Framed(nonce, ciphertext);
      entry[1..1 + NONCE_LENGTH] == nonce && entry[1 + NONCE_LENGTH..] == ciphertext
  {
  }

  /** NUL-free services keep scopes apart, in the file name and in the associated data. */
  lemma {:induction false} ScopeInjective(a: Scope, b: Scope)
    requires NulFree(a.service) && NulFree(b.service)
    requires ScopeBytes(a) == ScopeBytes(b)
    ensures a == b
  {
    var text := ScopeBytes(a);
    IndexOfIs(text, 0, |a.service|) by { assert text[..|a.service|] == a.service; }
    IndexOfIs(text, 0, |b.service|) by { assert text[..|b.service|] == b.service; }
    assert a.service == text[..|a.service|] && a.account == text[|a.service| + 1..];
    assert b.account == text[|b.service| + 1..];
  }

  /**
   Two different services can share a file, for some accounts, if and only if one of them followed by NUL
   begins with the other followed by NUL.
   */
  lemma {:induction false} ServicesCollide(s: Bytes, t: Bytes)
    requires s != t
    ensures (exists a, b :: ScopeBytes(Scope(s, a)) == ScopeBytes(Scope(t, b)))
      <==> s + [0] <= t + [0] || t + [0] <= s + [0]
  {
    if s + [0] <= t + [0] {
      assert ScopeBytes(Scope(s, (t + [0])[|s| + 1..])) == ScopeBytes(Scope(t, []));
    }
    if t + [0] <= s + [0] {
      assert ScopeBytes(Scope(s, [])) == ScopeBytes(Scope(t, (s + [0])[|t| + 1..]));
    }
    if a, b :| ScopeBytes(Scope(s, a)) == ScopeBytes(Scope(t, b)) {
      var text := ScopeBytes(Scope(s, a));
      assert s + [0] == text[..|s| + 1] && t + [0] == text[..|t| + 1];
    }
  }

  /** A NUL in a service can make two scopes one: same file, same associated data. */
  lemma NulCollision()
    ensures var a, b := Scope([97, 0, 98], [99]), Scope([97], [98, 0, 99]);
      a != b && ScopeBytes(a) == ScopeBytes(b) && AssociatedBytes(a) == AssociatedBytes(b)
  {
  }

  /** `get` under a key and a scope gives a secret exactly for the entries sealed under both. */
  lemma {:induction false} UnsealExact(c: Crypto, key: WrappingKey.Key, scope: Scope, entry: Bytes, secret: Bytes)
    requires Ideal(c)
    ensures Unseal(c, key, scope, entry) == Secret(secret) <==>
      exists nonce :: |nonce| == NONCE_LENGTH && entry == Entry(c, key, scope, nonce, secret)
  {
    if Unseal(c, key, scope, entry) == Secret(secret) {
      var nonce := entry[1..1 + NONCE_LENGTH];
      assert entry == [entry[0]] + nonce + entry[1 + NONCE_LENGTH..];
      assert entry == Entry(c, key, scope, nonce, secret);
    }
    if nonce :| |nonce| == NONCE_LENGTH && entry == Entry(c, key, scope, nonce, secret) {
      FramingSplits(nonce, c.seal(key, nonce, AssociatedBytes(scope), secret));
    }
  }

  /** An entry copied to the file of another scope, or read under another key, is rejected. */
  lemma MovedEntryRejected(
    c: Crypto, key: WrappingKey.Key, scope: Scope, nonce: Bytes, secret: Bytes, key': WrappingKey.Key, scope': Scope)
    requires Ideal(c) && |nonce| == NONCE_LENGTH
    requires NulFree(scope.service) && NulFree(scope'.service)
    requires scope != scope' || key != key'
    ensures Unseal(c, key', scope', Entry(c, key, scope, nonce, secret)) == Invalid
  {
    var ciphertext := c.seal(key, nonce, AssociatedBytes(scope), secret);
    FramingSplits(nonce, ciphertext);
    var found := c.open(key', nonce, AssociatedBytes(scope'), ciphertext);
    if found.Some? {
      assert ciphertext == c.seal(key', nonce, AssociatedBytes(scope'), found.value);
      assert ScopeBytes(scope) == AssociatedBytes(scope)[|STORE_INFO|..] == ScopeBytes(scope');
      ScopeInjective(scope, scope');
      assert false;
    }
  }

  // ---------- The store over the shared directory ----------

  function FileOf(c: Crypto, scope: Scope): string {
    c.digest(ScopeBytes(scope)) + ".enc"
  }

  /** The write is a `set` of the secret under the key. */
  ghost predicate IsSet(c: Crypto, key: WrappingKey.Key, w: Write, scope: Scope, nonce: Bytes, secret: Bytes) {
    && NulFree(scope.service) && |nonce| == NONCE_LENGTH
    && w == Write(FileOf(c, scope), Entry(c, key, scope, nonce, secret))
  }

  ghost predicate SealedUnder(c: Crypto, key: WrappingKey.Key, w: Write) {
    exists scope, nonce, secret :: IsSet(c, key, w, scope, nonce, secret)
  }

  /** The key directory and the entry directory, with all the processes at work in them. */
  datatype Store = Store(keys: WrappingKey.State, files: State)

  datatype StoreEvent = OnKeys(keyEvent: WrappingKey.Event) | OnFiles(fileEvent: Event)

  ghost predicate SafeStore(st: Store) {
    WrappingKey.Safe(st.keys) && Safe(st.files)
  }

  ghost predicate InitStore(st: Store) {
    WrappingKey.Init(st.keys) && Init(st.files)
  }

  /** Files are written only by sets, and a set seals its entry under a key that some call has returned by then. */
  ghost predicate Admitted(c: Crypto, st: Store, e: Event) {
    e.action.CallWrite? ==>
      !e.action.retainPrevious
      && exists key :: key in st.keys.returned && SealedUnder(c, key, Write(e.action.path, e.action.contents))
  }

  ghost function StoreStep(c: Crypto, st: Store, e: StoreEvent): (t: Store)
    requires SafeStore(st)
    ensures SafeStore(t)
  {
    match e
    case OnKeys(e) => WrappingKey.StepSafe(st.keys, e); st.(keys := WrappingKey.Step(st.keys, e))
    case OnFiles(e) => if Admitted(c, st, e) then st.(files := SafeStep(st.files, e)) else st
  }

  ghost function StoreRun(c: Crypto, st: Store, events: seq<StoreEvent>): (t: Store)
    requires SafeStore(st)
    ensures SafeStore(t)
  {
    if events == [] then st else StoreStep(c, StoreRun(c, st, events[..|events| - 1]), Last(events))
  }

  /** What happens to the files in a run of the store. */
  ghost function FileEvents(c: Crypto, st: Store, events: seq<StoreEvent>): seq<Event>
    requires SafeStore(st)
  {
    if events == [] then []
    else
      var init, e := events[..|events| - 1], Last(events);
      FileEvents(c, st, init)
      + if e.OnFiles? && Admitted(c, StoreRun(c, st, init), e.fileEvent) then [e.fileEvent] else []
  }

  /** A run of the store is a run of its files. */
  lemma {:induction false} FilesRun(c: Crypto, st: Store, events: seq<StoreEvent>)
    requires SafeStore(st)
    ensures StoreRun(c, st, events).files == Run(st.files, FileEvents(c, st, events))
  {
    if events != [] {
      var init := events[..|events| - 1];
      FilesRun(c, st, init);
      FilesStep(c, StoreRun(c, st, init), st.files, FileEvents(c, st, init), Last(events));
    }
  }

  /** What the event does to the files that the events before it have left. */
  lemma {:induction false} FilesStep(c: Crypto, st: Store, first: State, before: seq<Event>, e: StoreEvent)
    requires SafeStore(st) && Safe(first) && st.files == Run(first, before)
    ensures StoreStep(c, st, e).files
         == Run(first, before + if e.OnFiles? && Admitted(c, st, e.fileEvent) then [e.fileEvent] else [])
  {
    if e.OnFiles? && Admitted(c, st, e.fileEvent) {
      RunConcat(first, before, [e.fileEvent]);
      RunOne(st.files, e.fileEvent);
    } else {
      assert before + [] == before;
    }
  }

  /** Every write asked for so far was a set under a returned key. */
  ghost predicate OnlySets(c: Crypto, st: Store) {
    forall w :: w in st.files.calls ==> exists key :: key in st.keys.returned && SealedUnder(c, key, w)
  }

  lemma {:induction false} OnlySetsStep(c: Crypto, st: Store, e: StoreEvent)
    requires SafeStore(st) && OnlySets(c, st)
    ensures OnlySets(c, StoreStep(c, st, e))
  {
    var t := StoreStep(c, st, e);
    match e
    case OnKeys(keyEvent) => WrappingKey.ReturnedGrows(st.keys, keyEvent);
    case OnFiles(fileEvent) =>
      if t != st {
        CallsGrow(st.files, fileEvent);
      }
  }

  lemma {:induction false} CallsGrow(s: State, e: Event)
    requires Safe(s)
    ensures Step(s, e).calls == s.calls
      || (e.action.CallWrite? && Step(s, e).calls == s.calls + {Write(e.action.path, e.action.contents)})
  {
  }

  lemma {:induction false} OnlySetsRun(c: Crypto, st: Store, events: seq<StoreEvent>)
    requires SafeStore(st) && OnlySets(c, st)
    ensures OnlySets(c, StoreRun(c, st, events))
  {
    if events != [] {
      OnlySetsRun(c, st, events[..|events| - 1]);
      OnlySetsStep(c, StoreRun(c, st, events[..|events| - 1]), Last(events));
    }
  }

  /** All sets were sealed under the one key that every call returns. */
  lemma {:induction false} OneKeySeals(c: Crypto, st: Store, key: WrappingKey.Key, w: Write)
    requires SafeStore(st) && OnlySets(c, st) && key in st.keys.returned && w in st.files.calls
    ensures SealedUnder(c, key, w)
  {
    var key' :| key' in st.keys.returned && SealedUnder(c, key', w);
    WrappingKey.ReturnedAgree(st.keys, key, key');
  }

  /** What `get` answers: nothing without a key or without a file. */
  function GetOutcome(c: Crypto, key: Option<WrappingKey.Key>, scope: Scope, found: Option<Bytes>): Outcome {
    match (key, found)
    case (Some(key), Some(entry)) => Unseal(c, key, scope, entry)
    case _ => Absent
  }

  /** A get says that there is nothing exactly if there is no key or no entry, and rejects what is not in order. */
  lemma {:induction false} AnsweredExactly(
    c: Crypto, key: Option<WrappingKey.Key>, scope: Scope, found: Option<Bytes>)
    requires Ideal(c)
    ensures var outcome := GetOutcome(c, key, scope, found);
      && (outcome == Absent <==> key == None || found == None)
      && (forall secret :: outcome == Secret(secret) <==>
            && key.Some? && found.Some?
            && exists nonce :: |nonce| == NONCE_LENGTH && found.value == Entry(c, key.value, scope, nonce, secret))
  {
    if key.Some? && found.Some? {
      forall secret
        ensures GetOutcome(c, key, scope, found) == Secret(secret) <==>
          exists nonce :: |nonce| == NONCE_LENGTH && found.value == Entry(c, key.value, scope, nonce, secret)
      {
        UnsealExact(c, key.value, scope, found.value, secret);
      }
    }
  }

  lemma {:induction false} WriteIsSet(
    c: Crypto, key: WrappingKey.Key, st: Store, path: string, contents: Bytes, scope: Scope)
    returns (nonce: Bytes, secret: Bytes)
    requires Ideal(c) && SafeStore(st) && OnlySets(c, st) && key in st.keys.returned && NulFree(scope.service)
    requires Justified(st.files, Write(path, contents)) && path == FileOf(c, scope)
    ensures IsSet(c, key, Write(path, contents), scope, nonce, secret)
  {
    NotACopy(c, scope);
    assert Write(path, contents) in st.files.calls;
    OneKeySeals(c, st, key, Write(path, contents));
    var scope' :| exists n, x :: IsSet(c, key, Write(path, contents), scope', n, x);
    nonce, secret :| IsSet(c, key, Write(path, contents), scope', nonce, secret);
    assert c.digest(ScopeBytes(scope)) == path[..|path| - 4] == c.digest(ScopeBytes(scope'));
    ScopeInjective(scope, scope');
  }

  lemma NotACopy(c: Crypto, scope: Scope)
    ensures forall other :: FileOf(c, scope) != Previous(other)
  {
    assert Last(FileOf(c, scope)) == 'c';
    forall other ensures FileOf(c, scope) != Previous(other) {
      assert Last(Previous(other)) == 's';
    }
  }

  /** The change of the scope leaves this answer: the secret that the set sealed, or nothing after a delete. */
  ghost predicate Leaves(c: Crypto, key: WrappingKey.Key, scope: Scope, change: Effect, outcome: Outcome) {
    match change
    case DidWrite(_, path, contents) =>
      exists nonce, secret :: IsSet(c, key, Write(path, contents), scope, nonce, secret) && outcome == Secret(secret)
    case DidDelete(_, path) => path == FileOf(c, scope) && outcome == Absent
    case DidRead(_, _, _) => false
  }

  lemma {:induction false} ChangeLeaves(c: Crypto, st: Store, key: WrappingKey.Key, first: State, scope: Scope, j: nat)
    requires Ideal(c) && SafeStore(st) && OnlySets(c, st) && key in st.keys.returned && NulFree(scope.service)
    requires Explained(first, st.files)
    requires j < |st.files.log| && !st.files.log[j].DidRead? && st.files.log[j].path == FileOf(c, scope)
    ensures Leaves(c, key, scope, st.files.log[j],
      GetOutcome(c, Some(key), scope, Applied(st.files.log[j], FileOf(c, scope), None)))
  {
    var change := st.files.log[j];
    if change.DidWrite? {
      assert change in st.files.log;
      var nonce, secret := WriteIsSet(c, key, st, FileOf(c, scope), change.contents, scope);
      UnsealExact(c, key, scope, change.contents, secret);
    }
  }

  /**
   In every interleaving of key calls, sets, gets and deletes by any processes, whichever returned keys the
   sets sealed under and the get holds: a get answers what the latest set or delete of its scope before the
   instant of its read left, or what the file held at first if there was none.
   */
  lemma {:induction false} GetReturnsLatestSet(
    c: Crypto, st: Store, events: seq<StoreEvent>, key: WrappingKey.Key, scope: Scope, i: nat)
    requires Ideal(c) && InitStore(st) && NulFree(scope.service) && FileOf(c, scope) in st.files.paths
    ensures var t := StoreRun(c, st, events);
      && key in t.keys.returned && i < |t.files.log| && t.files.log[i].DidRead?
         && t.files.log[i].path == FileOf(c, scope)
      ==> AnswersLatest(c, st.files, key, scope, t.files.log, i)
  {
    var t := StoreRun(c, st, events);
    BeforeCall(c, st, events);
    if && key in t.keys.returned && i < |t.files.log|
       && t.files.log[i].DidRead? && t.files.log[i].path == FileOf(c, scope)
    {
      ReadAnswers(c, st.files, t, key, scope, i);
    }
  }

  /** The read at i answers the latest change before it, or the first contents if there was none. */
  ghost predicate AnswersLatest(c: Crypto, first: State, key: WrappingKey.Key, scope: Scope, log: seq<Effect>, i: nat)
    requires i < |log| && log[i].DidRead?
  {
    var path, outcome := FileOf(c, scope), GetOutcome(c, Some(key), scope, log[i].value);
    || (NoChange(log, path, 0, i) && outcome == GetOutcome(c, Some(key), scope, first.Value(path)))
    || exists j :: LatestChange(log, path, i, j) && Leaves(c, key, scope, log[j], outcome)
  }

  lemma {:induction false} ReadAnswers(c: Crypto, first: State, t: Store, key: WrappingKey.Key, scope: Scope, i: nat)
    requires Ideal(c) && SafeStore(t) && OnlySets(c, t) && Explained(first, t.files) && NulFree(scope.service)
    requires key in t.keys.returned
    requires i < |t.files.log| && t.files.log[i].DidRead? && t.files.log[i].path == FileOf(c, scope)
    ensures AnswersLatest(c, first, key, scope, t.files.log, i)
  {
    var j := ReplayIsLatest(first.Value(FileOf(c, scope)), t.files.log, FileOf(c, scope), i);
    if j != -1 {
      ChangeLeaves(c, t, key, first, scope, j);
    }
  }

  /** While there is no key no set has begun, so a get that finds none is right to answer that nothing was set. */
  lemma {:induction false} NoKeyNoSet(c: Crypto, st: Store, events: seq<StoreEvent>, scope: Scope)
    requires InitStore(st)
    ensures var t := StoreRun(c, st, events);
      t.keys.KeyText().None? ==>
        t.files.calls == {} && forall e :: e in t.files.log && e.DidWrite? ==> e.path != FileOf(c, scope)
  {
    var t := StoreRun(c, st, events);
    BeforeCall(c, st, events);
    if t.keys.KeyText().None? {
      NothingWritten(c, st.files, t, scope);
    }
  }

  lemma {:induction false} NothingWritten(c: Crypto, first: State, t: Store, scope: Scope)
    requires SafeStore(t) && OnlySets(c, t) && Explained(first, t.files) && t.keys.KeyText().None?
    ensures t.files.calls == {}
    ensures forall e :: e in t.files.log && e.DidWrite? ==> e.path != FileOf(c, scope)
  {
    if t.keys.returned != [] {
      WrappingKey.ReturnedNeedsKey(t.keys);
    }
    assert forall w :: w !in t.files.calls;
    NotACopy(c, scope);
    forall e | e in t.files.log && e.DidWrite? ensures e.path != FileOf(c, scope) {
      assert Justified(t.files, Write(e.path, e.contents));
    }
  }

  /** A set or a delete of the scope that has returned success. */
  ghost predicate Completed(c: Crypto, st: Store, scope: Scope, done: Effect) {
    Succeeded(done) in st.files.returned && !done.DidRead? && done.path == FileOf(c, scope)
  }

  /** A get called after a set has returned finds a key. */
  lemma {:induction false} SetLeavesKey(c: Crypto, st: Store, before: seq<StoreEvent>, scope: Scope, done: Effect)
    requires InitStore(st)
    ensures Completed(c, StoreRun(c, st, before), scope, done) && done.DidWrite? ==>
      StoreRun(c, st, before).keys.KeyText().Some?
  {
    var u := StoreRun(c, st, before);
    if Completed(c, u, scope, done) && done.DidWrite? && u.keys.KeyText().None? {
      assert Succeeded(done).effect in u.files.log;
      BeforeCall(c, st, before);
      NothingWritten(c, st.files, u, scope);
    }
  }

  /**
   The read at i, after the first `called` effects, answers what the change of the scope at j left: the
   latest one before the read. It is at or after k, the latest one among the first `called` effects, and the
   completed change is at or before k.
   */
  ghost predicate AnswersAt(
    c: Crypto, key: WrappingKey.Key, scope: Scope, log: seq<Effect>, called: nat, done: Effect,
    k: int, i: int, j: int)
  {
    && LatestChange(log, FileOf(c, scope), called, k) && done in log[..k + 1]
    && k <= j && called <= i && Sees(log, FileOf(c, scope), i, j)
    && Leaves(c, key, scope, log[j], GetOutcome(c, Some(key), scope, log[i].value))
  }

  /** One read in the log is the effect, and answers like that. */
  ghost predicate AnswersSince(
    c: Crypto, key: WrappingKey.Key, scope: Scope, log: seq<Effect>, called: nat, done: Effect, effect: Effect)
  {
    exists k, i, j :: AnswersAt(c, key, scope, log, called, done, k, i, j) && log[i] == effect
  }

  /** Every get of p that has returned since u, where it was called, answers the latest change at u, or a later one. */
  ghost predicate GetsSee(c: Crypto, u: Store, t: Store, p: nat, key: WrappingKey.Key, scope: Scope, done: Effect) {
    |u.files.returned| <= |t.files.returned|
    && forall r :: r in OwnReturns(t.files.returned[|u.files.returned|..], p) && r.Succeeded? ==>
         AnswersSince(c, key, scope, t.files.log, |u.files.log|, done, r.effect)
  }

  /**
   A get called after a set or a delete of its scope has returned success answers what the latest change of
   its scope at its call left, or what a later one before its read left, under whichever returned key it
   holds.
   */
  lemma {:induction false} GetSeesCompletedSet(
    c: Crypto, st: Store, before: seq<StoreEvent>, p: nat, scope: Scope, done: Effect, after: seq<StoreEvent>,
    key: WrappingKey.Key)
    requires Ideal(c) && InitStore(st) && NulFree(scope.service) && FileOf(c, scope) in st.files.paths
    ensures var u := StoreRun(c, st, before);
      Completed(c, u, scope, done) && u.files.Phase(p).Idle? ==>
        var v := Called(u, p, FileOf(c, scope));
        var t := StoreRun(c, v, after);
        NoNewCall(FileEvents(c, v, after), p) && key in t.keys.returned ==> GetsSee(c, u, t, p, key, scope, done)
  {
    var u := StoreRun(c, st, before);
    BeforeCall(c, st, before);
    if Completed(c, u, scope, done) && u.files.Phase(p).Idle? {
      var v := Called(u, p, FileOf(c, scope));
      if NoNewCall(FileEvents(c, v, after), p) && key in StoreRun(c, v, after).keys.returned {
        AfterCall(c, st.files, u, p, FileOf(c, scope), after);
        GetAnswers(c, st.files, u, StoreRun(c, v, after), p, key, scope, done);
      }
    }
  }

  lemma {:induction false} BeforeCall(c: Crypto, st: Store, before: seq<StoreEvent>)
    requires InitStore(st)
    ensures var u := StoreRun(c, st, before);
      Explained(st.files, u.files) && OnlySets(c, u) && u.files.paths == st.files.paths
  {
    StoreExplained(c, st, before);
    OnlySetsRun(c, st, before);
  }

  lemma {:induction false} AfterCall(c: Crypto, first: State, u: Store, p: nat, path: string, after: seq<StoreEvent>)
    requires SafeStore(u) && Explained(first, u.files) && OnlySets(c, u)
    requires u.files.Phase(p).Idle? && path in u.files.paths
    ensures var t := StoreRun(c, Called(u, p, path), after);
      && Explained(first, t.files) && OnlySets(c, t) && u.files.log <= t.files.log
      && (NoNewCall(FileEvents(c, Called(u, p, path), after), p) ==> CallOutcome(u.files, t.files, p, CallRead(path)))
  {
    var v := Called(u, p, path);
    OnlySetsStep(c, u, OnFiles(Event(p, CallRead(path))));
    OnlySetsRun(c, v, after);
    FilesRun(c, v, after);
    ExplainedStep(first, u.files, Event(p, CallRead(path)));
    ExplainedRun(first, v.files, FileEvents(c, v, after));
    StepAdds(u.files, Event(p, CallRead(path)));
    if NoNewCall(FileEvents(c, v, after), p) {
      CallTakesEffect(u.files, p, CallRead(path), FileEvents(c, v, after));
    }
  }

  lemma {:induction false} GetAnswers(
    c: Crypto, first: State, u: Store, t: Store, p: nat, key: WrappingKey.Key, scope: Scope, done: Effect)
    requires Ideal(c) && SafeStore(u) && SafeStore(t) && OnlySets(c, t) && Explained(first, t.files)
    requires u.files.log <= t.files.log && CallOutcome(u.files, t.files, p, CallRead(FileOf(c, scope)))
    requires Completed(c, u, scope, done) && key in t.keys.returned && NulFree(scope.service)
    ensures GetsSee(c, u, t, p, key, scope, done)
  {
    assert Succeeded(done).effect in u.files.log;
    forall r | r in OwnReturns(t.files.returned[|u.files.returned|..], p) && r.Succeeded?
      ensures AnswersSince(c, key, scope, t.files.log, |u.files.log|, done, r.effect)
    {
      var k, i, j := ReadSeesCompleted(first, u.files, t.files, done, p, FileOf(c, scope), r);
      ChangeLeaves(c, t, key, first, scope, j);
      assert AnswersAt(c, key, scope, t.files.log, |u.files.log|, done, k, i, j);
    }
  }

  /** The store when p has just called for a read of the file. */
  ghost function Called(u: Store, p: nat, path: string): (v: Store)
    requires SafeStore(u)
    ensures SafeStore(v)
  {
    u.(files := SafeStep(u.files, Event(p, CallRead(path))))
  }

  lemma {:induction false} StoreExplained(c: Crypto, st: Store, events: seq<StoreEvent>)
    requires InitStore(st)
    ensures Explained(st.files, StoreRun(c, st, events).files) && StoreRun(c, st, events).files.paths == st.files.paths
  {
    FilesRun(c, st, events);
    Linearizable(st.files, FileEvents(c, st, events));
  }

  /** What one process seals under the key it was given, every process opens under the key it was given. */
  lemma {:induction false} SealedForEveryProcess(
    c: Crypto, s: WrappingKey.State, events: seq<WrappingKey.Event>, j: nat, k: nat,
    scope: Scope, nonce: Bytes, secret: Bytes)
    requires Ideal(c) && WrappingKey.Init(s) && |nonce| == NONCE_LENGTH
    requires var keys := WrappingKey.Run(s, events).returned; j < |keys| && k < |keys|
    ensures var keys := WrappingKey.Run(s, events).returned;
      Unseal(c, keys[k], scope, Entry(c, keys[j], scope, nonce, secret)) == Secret(secret)
  {
    var keys := WrappingKey.Run(s, events).returned;
    WrappingKey.OneKey(s, events, j, k);
    UnsealExact(c, keys[k], scope, Entry(c, keys[j], scope, nonce, secret), secret);
  }

  // ---------- Ideal primitives exist ----------

  /** A prefix code: each byte after a 1, and a 0 at the end. */
  function Escaped(text: Bytes): Bytes {
    if text == [] then [0] else [1, text[0]] + Escaped(text[1..])
  }

  lemma {:induction false} EscapedPrefix(a: Bytes, b: Bytes, x: Bytes, y: Bytes)
    requires Escaped(a) + x == Escaped(b) + y
    ensures a == b && x == y
  {
    var left, right := Escaped(a) + x, Escaped(b) + y;
    assert a == [] <==> left[0] == 0;
    assert b == [] <==> right[0] == 0;
    if a == [] {
      assert x == left[1..] && y == right[1..];
    } else {
      assert a[0] == left[1] == right[1] == b[0];
      assert left[2..] == Escaped(a[1..]) + x && right[2..] == Escaped(b[1..]) + y;
      EscapedPrefix(a[1..], b[1..], x, y);
      assert a == [a[0]] + a[1..] && b == [b[0]] + b[1..];
    }
  }

  function Letters(text: Bytes): string {
    seq(|text|, i requires 0 <= i < |text| => text[i] as char)
  }

  lemma LettersInjective(a: Bytes, b: Bytes)
    requires Letters(a) == Letters(b)
    ensures a == b
  {
    assert |Letters(a)| == |a| == |b|;
    forall i | 0 <= i < |a| ensures a[i] == b[i] {
      assert Letters(a)[i] == Letters(b)[i];
    }
  }

  function Tuple(key: WrappingKey.Key, nonce: Bytes, data: Bytes, text: Bytes): Bytes {
    seq(TAG_BYTES, _ => 0) + (Escaped(key) + (Escaped(nonce) + (Escaped(data) + Escaped(text))))
  }

  lemma TupleInjective(
    k: WrappingKey.Key, n: Bytes, a: Bytes, p: Bytes, k': WrappingKey.Key, n': Bytes, a': Bytes, p': Bytes)
    requires Tuple(k, n, a, p) == Tuple(k', n', a', p')
    ensures k == k' && n == n' && a == a' && p == p'
  {
    var rest, rest' := Escaped(n) + (Escaped(a) + Escaped(p)), Escaped(n') + (Escaped(a') + Escaped(p'));
    assert Tuple(k, n, a, p)[TAG_BYTES..] == Escaped(k) + rest;
    assert Tuple(k', n', a', p')[TAG_BYTES..] == Escaped(k') + rest';
    EscapedPrefix(k, k', rest, rest');
    EscapedPrefix(n, n', Escaped(a) + Escaped(p), Escaped(a') + Escaped(p'));
    EscapedPrefix(a, a', Escaped(p), Escaped(p'));
    assert Escaped(p) + [] == Escaped(p) && Escaped(p') + [] == Escaped(p');
    EscapedPrefix(p, p', [], []);
  }

  ghost function OpenTuple(k: WrappingKey.Key, n: Bytes, a: Bytes, t: Bytes): Option<Bytes> {
    if exists p :: t == Tuple(k, n, a, p) then
      var p :| t == Tuple(k, n, a, p);
      Some(p)
    else None
  }

  /** The ideal primitives the results above assume are not contradictory. */
  lemma IdealExists() returns (c: Crypto)
    ensures Ideal(c)
  {
    c := Crypto(Letters, Tuple, OpenTuple);
    forall a, b | c.digest(a) == c.digest(b) ensures a == b {
      LettersInjective(a, b);
    }
    forall k, n, a, p ensures |c.seal(k, n, a, p)| >= TAG_BYTES && c.open(k, n, a, c.seal(k, n, a, p)) == Some(p) {
      var found := OpenTuple(k, n, a, Tuple(k, n, a, p));
      TupleInjective(k, n, a, p, k, n, a, found.value);
    }
    forall k, n, a, p, k', n', a', p' | c.seal(k, n, a, p) == c.seal(k', n', a', p')
      ensures k == k' && n == n' && a == a' && p == p'
    {
      TupleInjective(k, n, a, p, k', n', a', p');
    }
  }
}
