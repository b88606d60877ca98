/**
 The in-memory publish service of scripts/test-cli-live.ts: staging, cancelling and finalizing revisions.
 Finalizing waits for digests between its check of the head and its append, so it is two steps here.
 */
module PublishService {
  import opened FileSystem
  import opened Sequences

  type Id = string

  const GENESIS := 1

  datatype StagedObject = StagedObject(objectId: Id, bytes: Bytes)
  datatype StoredObject = StoredObject(objectId: Id, bytes: Bytes, digest: Bytes)

  datatype Revision = Revision(
    id: Id, digest: Bytes, parentId: Option<Id>, parentHash: Option<Bytes>, mutation: int, objects: seq<StoredObject>)

  /** The fields of a staged revision object that the service reads; None when it is malformed. */
  datatype Parsed = Parsed(id: Id, mutation: int)

  /** The digest and the object parser. */
  datatype Codec = Codec(hash: Bytes -> Bytes, parse: Bytes -> Option<Parsed>)

  /** `expectedHeadId`: null, a revision id, or anything else. */
  datatype Claim = NoHead | Head(id: Id) | Malformed

  /** A finalize request between its check and its append; `base` is how long the history was then. */
  datatype Prepared = Prepared(revision: Revision, claim: Claim, base: nat)

  /** `claims` are the heads named by the requests that committed, in order. */
  datatype State = State(
    revisions: seq<Revision>, staged: seq<StagedObject>, inFlight: map<nat, Prepared>, claims: seq<Claim>)

  // ---------- Steps ----------

  /** Map.set: an object staged again keeps its place. */
  function Put(staged: seq<StagedObject>, o: StagedObject): seq<StagedObject> {
    if staged == [] then [o]
    else if staged[0].objectId == o.objectId then [o] + staged[1..]
    else [staged[0]] + Put(staged[1..], o)
  }

  function Find(staged: seq<StagedObject>, objectId: Id): Option<Bytes> {
    if staged == [] then None
    else if staged[0].objectId == objectId then Some(staged[0].bytes)
    else Find(staged[1..], objectId)
  }

  predicate Current(claim: Claim, revisions: seq<Revision>) {
    claim == if revisions == [] then NoHead else Head(Last(revisions).id)
  }

  function ParentId(revisions: seq<Revision>): Option<Id> {
    if revisions == [] then None else Some(Last(revisions).id)
  }

  function ParentHash(revisions: seq<Revision>): Option<Bytes> {
    if revisions == [] then None else Some(Last(revisions).digest)
  }

  /** `stagedRevision`: the revision is made of what is staged and where the history ends now. */
  function StagedRevision(c: Codec, s: State, objectId: Id): Option<Revision> {
    match Find(s.staged, objectId)
    case None => None
    case Some(bytes) =>
      match c.parse(bytes)
      case None => None
      case Some(parsed) => Some(Revision(
        parsed.id, c.hash(bytes), ParentId(s.revisions), ParentHash(s.revisions), parsed.mutation,
        seq(|s.staged|, i requires 0 <= i < |s.staged| =>
          StoredObject(s.staged[i].objectId, s.staged[i].bytes, c.hash(s.staged[i].bytes)))))
  }

  datatype Event =
    | Stage(admitted: bool, upload: StagedObject)
    | Cancel
    | Prepare(admitted: bool, request: nat, claim: Claim, objectId: Id)
    | Commit(request: nat)

  /** The check of a finalize request; a refused one leaves no trace. */
  function PrepareStep(c: Codec, s: State, request: nat, claim: Claim, objectId: Id): State {
    if !Current(claim, s.revisions) then s
    else
      match StagedRevision(c, s, objectId)
      case None => s
      case Some(revision) => s.(inFlight := s.inFlight[request := Prepared(revision, claim, |s.revisions|)])
  }

  /** The append looks at the history again, but only to tell a genesis from the rest. */
  predicate Appendable(revision: Revision, revisions: seq<Revision>) {
    revision.mutation == GENESIS <==> revisions == []
  }

  function CommitStep(s: State, request: nat): State {
    if request !in s.inFlight then s
    else
      var p := s.inFlight[request];
      var t := s.(inFlight := s.inFlight - {request});
      if Appendable(p.revision, s.revisions)
      then t.(revisions := s.revisions + [p.revision], staged := [], claims := s.claims + [p.claim])
      else t
  }

  function Step(c: Codec, s: State, e: Event): State {
    match e
    case Stage(admitted, upload) => if admitted then s.(staged := Put(s.staged, upload)) else s
    case Cancel => s.(staged := [])
    case Prepare(admitted, request, claim, objectId) =>
      if admitted && request !in s.inFlight then PrepareStep(c, s, request, claim, objectId) else s
    case Commit(request) => CommitStep(s, request)
  }

  function Run(c: Codec, s: State, events: seq<Event>): State {
    if events == [] then s else Step(c, Run(c, s, events[..|events| - 1]), Last(events))
  }

  const EMPTY := State([], [], map[], [])

  // ---------- The revision chain ----------

  /** Each revision names the id and the digest of the one before it. */
  ghost predicate Chained(revisions: seq<Revision>) {
    forall i :: 0 <= i < |revisions| ==>
      revisions[i].parentId == ParentId(revisions[..i]) && revisions[i].parentHash == ParentHash(revisions[..i])
  }

  ghost predicate GenesisFirst(revisions: seq<Revision>) {
    forall i :: 0 <= i < |revisions| ==> (revisions[i].mutation == GENESIS <==> i == 0)
  }

  ghost predicate DistinctIds(revisions: seq<Revision>) {
    forall i, j :: 0 <= i < j < |revisions| ==> revisions[i].id != revisions[j].id
  }

  /** A prepared request names the head and continues the history that it saw. */
  ghost predicate Consistent(s: State) {
    forall r :: r in s.inFlight ==>
      var p := s.inFlight[r];
      && p.base <= |s.revisions| && Current(p.claim, s.revisions[..p.base])
      && p.revision.parentId == ParentId(s.revisions[..p.base])
      && p.revision.parentHash == ParentHash(s.revisions[..p.base])
  }

  /** In any interleaving the history only grows, and the first revision is the only genesis. */
  lemma {:induction false} StepGrows(c: Codec, s: State, e: Event)
    requires Consistent(s) && GenesisFirst(s.revisions)
    ensures var t := Step(c, s, e);
      s.revisions <= t.revisions && Consistent(t) && GenesisFirst(t.revisions)
  {
    var t := Step(c, s, e);
    forall n | 0 <= n <= |s.revisions| ensures t.revisions[..n] == s.revisions[..n] {
    }
    assert s.revisions[..|s.revisions|] == s.revisions;
  }

  lemma {:induction false} HistoryGrows(c: Codec, s: State, events: seq<Event>)
    requires Consistent(s) && GenesisFirst(s.revisions)
    ensures var t := Run(c, s, events);
      s.revisions <= t.revisions && Consistent(t) && GenesisFirst(t.revisions)
  {
    if events != [] {
      HistoryGrows(c, s, events[..|events| - 1]);
      StepGrows(c, Run(c, s, events[..|events| - 1]), Last(events));
    }
  }

  /** A finalize request that is refused, at its check or at its append, changes neither history nor staging. */
  lemma RefusedChangesNothing(c: Codec, s: State, e: Event)
    requires e.Prepare? || e.Commit?
    ensures var t := Step(c, s, e);
      |t.claims| == |s.claims| ==> t.revisions == s.revisions && t.staged == s.staged && t.claims == s.claims
  {
  }

  /** An append keeps the chain exactly when nothing was appended since its check, or it is refused. */
  lemma AppendKeepsChain(s: State, request: nat)
    requires request in s.inFlight && Consistent(s) && Chained(s.revisions) && DistinctIds(s.revisions)
    ensures var p := s.inFlight[request];
      Chained(CommitStep(s, request).revisions) <==> p.base == |s.revisions| || !Appendable(p.revision, s.revisions)
  {
    var p, t := s.inFlight[request], CommitStep(s, request);
    if Appendable(p.revision, s.revisions) {
      assert t.revisions[..|s.revisions|] == s.revisions;
      forall i | 0 <= i < |s.revisions| ensures t.revisions[..i] == s.revisions[..i] {
      }
      if p.base == |s.revisions| {
        assert s.revisions[..p.base] == s.revisions;
      } else {
        assert t.revisions[|s.revisions|] == p.revision;
      }
    }
  }

  /** Two finalize requests that check the same head before either appends both commit, and fork the history. */
  lemma OverlappingFork(c: Codec, s: State, a: Id, b: Id)
    requires s.inFlight == map[] && s.revisions != []
    requires StagedRevision(c, s, a).Some? && StagedRevision(c, s, b).Some?
    requires StagedRevision(c, s, a).value.mutation != GENESIS && StagedRevision(c, s, b).value.mutation != GENESIS
    requires StagedRevision(c, s, a).value.id != Last(s.revisions).id
    ensures var head := Head(Last(s.revisions).id);
      var t := Run(c, s, [Prepare(true, 1, head, a), Prepare(true, 2, head, b), Commit(1), Commit(2)]);
      && t.revisions == s.revisions + [StagedRevision(c, s, a).value, StagedRevision(c, s, b).value]
      && t.claims == s.claims + [head, head] && !Chained(t.revisions)
  {
    var head := Head(Last(s.revisions).id);
    var events := [Prepare(true, 1, head, a), Prepare(true, 2, head, b), Commit(1), Commit(2)];
    var s1 := Step(c, s, events[0]);
    var s2 := Step(c, s1, events[1]);
    var s3 := Step(c, s2, events[2]);
    assert events[..4] == events && events[..3][..2] == events[..2] && events[..2][..1] == events[..1]
      && events[..1][..0] == [];
    assert Run(c, s, events[..1]) == s1;
    assert Run(c, s, events[..2]) == s2;
    assert Run(c, s, events[..3]) == s3;
    var t := Run(c, s, events);
    var n := |s.revisions| + 1;
    assert t.revisions[n].parentId == Some(Last(s.revisions).id);
    assert Last(t.revisions[..n]).id == StagedRevision(c, s, a).value.id;
  }

  // ---------- One request at a time ----------

  datatype Request =
    | StageRequest(admitted: bool, upload: StagedObject)
    | CancelRequest
    | FinalizeRequest(admitted: bool, claim: Claim, objectId: Id)

  function Serve(c: Codec, s: State, r: Request): State {
    match r
    case StageRequest(admitted, upload) => Step(c, s, Stage(admitted, upload))
    case CancelRequest => Step(c, s, Cancel)
    case FinalizeRequest(admitted, claim, objectId) =>
      Step(c, Step(c, s, Prepare(admitted, 0, claim, objectId)), Commit(0))
  }

  function ServeAll(c: Codec, s: State, requests: seq<Request>): State {
    if requests == [] then s else Serve(c, ServeAll(c, s, requests[..|requests| - 1]), Last(requests))
  }

  /** Served one at a time, the history is a chain, and each commit named the head it replaced. */
  ghost predicate Orderly(s: State) {
    && s.inFlight == map[] && Chained(s.revisions) && GenesisFirst(s.revisions)
    && |s.claims| == |s.revisions|
    && forall i :: 0 <= i < |s.claims| ==> Current(s.claims[i], s.revisions[..i])
  }

  lemma {:induction false} ServeOrderly(c: Codec, s: State, r: Request)
    requires Orderly(s)
    ensures Orderly(Serve(c, s, r)) && s.revisions <= Serve(c, s, r).revisions
  {
    if r.FinalizeRequest? {
      var mid := Step(c, s, Prepare(r.admitted, 0, r.claim, r.objectId));
      var t := Step(c, mid, Commit(0));
      forall n | 0 <= n <= |s.revisions| ensures t.revisions[..n] == s.revisions[..n] {
      }
      assert s.revisions[..|s.revisions|] == s.revisions;
      assert mid.inFlight - {0} == map[];
    }
  }

  lemma {:induction false} ServedOrderly(c: Codec, requests: seq<Request>)
    ensures Orderly(ServeAll(c, EMPTY, requests))
  {
    if requests != [] {
      ServedOrderly(c, requests[..|requests| - 1]);
      ServeOrderly(c, ServeAll(c, EMPTY, requests[..|requests| - 1]), Last(requests));
    }
  }

  /** With distinct revision ids at most one finalize naming a given head commits. */
  lemma OneCommitPerHead(c: Codec, requests: seq<Request>, i: nat, j: nat)
    requires DistinctIds(ServeAll(c, EMPTY, requests).revisions)
    requires i < |ServeAll(c, EMPTY, requests).claims| && j < |ServeAll(c, EMPTY, requests).claims|
    requires ServeAll(c, EMPTY, requests).claims[i] == ServeAll(c, EMPTY, requests).claims[j]
    ensures i == j
  {
    ServedOrderly(c, requests);
    var s := ServeAll(c, EMPTY, requests);
    assert Current(s.claims[i], s.revisions[..i]) && Current(s.claims[j], s.revisions[..j]);
    assert i > 0 ==> Last(s.revisions[..i]) == s.revisions[i - 1];
    assert j > 0 ==> Last(s.revisions[..j]) == s.revisions[j - 1];
  }

  // ---------- What a request does ----------

  /** The object staged at k is the first under its id. */
  ghost predicate StagedAt(staged: seq<StagedObject>, objectId: Id, k: int) {
    && 0 <= k < |staged| && staged[k].objectId == objectId
    && forall j :: 0 <= j < k ==> staged[j].objectId != objectId
  }

  lemma {:induction false} FoundStaged(staged: seq<StagedObject>, objectId: Id)
    ensures match Find(staged, objectId)
      case Some(bytes) => exists k :: StagedAt(staged, objectId, k) && staged[k].bytes == bytes
      case None => forall k :: 0 <= k < |staged| ==> staged[k].objectId != objectId
    ensures forall k :: StagedAt(staged, objectId, k) ==> Find(staged, objectId) == Some(staged[k].bytes)
  {
    if staged != [] {
      FoundStaged(staged[1..], objectId);
      if staged[0].objectId == objectId {
        assert StagedAt(staged, objectId, 0);
      } else {
        forall k | StagedAt(staged, objectId, k) ensures StagedAt(staged[1..], objectId, k - 1) {
        }
        if k :| StagedAt(staged[1..], objectId, k) && Find(staged[1..], objectId) == Some(staged[1..][k].bytes) {
          assert StagedAt(staged, objectId, k + 1) && staged[k + 1] == staged[1..][k];
        }
      }
    }
  }

  /** An object staged takes the place of the one under its id, or comes last, and no other changes. */
  lemma {:induction false} PutExactly(staged: seq<StagedObject>, o: StagedObject)
    ensures var t := Put(staged, o);
      if forall k :: 0 <= k < |staged| ==> staged[k].objectId != o.objectId then t == staged + [o]
      else exists k :: StagedAt(staged, o.objectId, k) && t == staged[k := o]
  {
    if staged != [] {
      PutExactly(staged[1..], o);
      assert staged == [staged[0]] + staged[1..];
      if staged[0].objectId == o.objectId {
        assert StagedAt(staged, o.objectId, 0) && Put(staged, o) == staged[0 := o];
      } else if k :| StagedAt(staged[1..], o.objectId, k) && Put(staged[1..], o) == staged[1..][k := o] {
        assert StagedAt(staged, o.objectId, k + 1) && Put(staged, o) == staged[k + 1 := o];
      }
    }
  }

  /** The digest of each stored object, and of the revision, is that of its bytes. */
  ghost predicate MadeOf(c: Codec, r: Revision, staged: seq<StagedObject>, k: int) {
    && 0 <= k < |staged| && c.parse(staged[k].bytes) == Some(Parsed(r.id, r.mutation))
    && r.digest == c.hash(staged[k].bytes) && |r.objects| == |staged|
    && forall i :: 0 <= i < |staged| ==>
         r.objects[i] == StoredObject(staged[i].objectId, staged[i].bytes, c.hash(staged[i].bytes))
  }

  /** The request names the head, and an object that is staged, well formed and a genesis exactly at first. */
  ghost predicate MayCommit(c: Codec, s: State, admitted: bool, claim: Claim, objectId: Id, k: int) {
    && admitted && StagedAt(s.staged, objectId, k) && c.parse(s.staged[k].bytes).Some?
    && (if s.revisions == [] then claim == NoHead else claim == Head(s.revisions[|s.revisions| - 1].id))
    && (c.parse(s.staged[k].bytes).value.mutation == 1 <==> s.revisions == [])
  }

  /** The history has one revision more, made of what was staged on top of the head, and nothing is staged any more. */
  ghost predicate Commits(c: Codec, s: State, t: State, claim: Claim, k: int) {
    && |t.revisions| == |s.revisions| + 1 && s.revisions <= t.revisions
    && t.staged == [] && t.claims == s.claims + [claim] && t.inFlight == map[]
    && var r := t.revisions[|s.revisions|];
       && MadeOf(c, r, s.staged, k)
       && if s.revisions == [] then r.parentId == None && r.parentHash == None
          else
            var head := s.revisions[|s.revisions| - 1];
            r.parentId == Some(head.id) && r.parentHash == Some(head.digest)
  }

  /** A finalize commits exactly if it may, and otherwise changes nothing. */
  lemma {:induction false} FinalizedExactly(c: Codec, s: State, admitted: bool, claim: Claim, objectId: Id)
    requires s.inFlight == map[]
    ensures var t := Serve(c, s, FinalizeRequest(admitted, claim, objectId));
      if k :| MayCommit(c, s, admitted, claim, objectId, k) then Commits(c, s, t, claim, k) else t == s
  {
    var mid := Step(c, s, Prepare(admitted, 0, claim, objectId));
    FoundStaged(s.staged, objectId);
    assert mid.inFlight - {0} == map[];
    if 0 in mid.inFlight {
      var bytes := Find(s.staged, objectId).value;
      var k :| StagedAt(s.staged, objectId, k) && s.staged[k].bytes == bytes;
      assert MayCommit(c, s, admitted, claim, objectId, k) <==>
        Appendable(mid.inFlight[0].revision, s.revisions);
    }
  }

  // ---------- The service ----------

  class Service {
    const codec: Codec
    var revisions: seq<Revision>
    var staged: seq<StagedObject>
    ghost var claims: seq<Claim>

    /** The state between requests: nothing is in flight. */
    ghost function Value(): State
      reads this
    {
      State(revisions, staged, map[], claims)
    }

    constructor (codec: Codec)
      ensures this.codec == codec && Value() == EMPTY
    {
      this.codec := codec;
      revisions, staged, claims := [], [], [];
    }

    method StageObject(admitted: bool, upload: StagedObject)
      modifies this`staged
      ensures Value() == Serve(codec, old(Value()), StageRequest(admitted, upload))
    {
      if admitted {
        staged := Put(staged, upload);
      }
    }

    method CancelOperation()
      modifies this`staged
      ensures Value() == Serve(codec, old(Value()), CancelRequest)
    {
      staged := [];
    }

    /** The first half of a finalize, up to the wait for the digests. */
    method Check(admitted: bool, claim: Claim, objectId: Id) returns (revision: Option<Revision>)
      ensures revision
           == if admitted && Current(claim, revisions) then StagedRevision(codec, Value(), objectId) else None
    {
      if !admitted || !Current(claim, revisions) {
        return None;
      }
      revision := StagedRevision(codec, State(revisions, staged, map[], []), objectId);
    }

    /** The second half: whatever the history is by now, only a misplaced genesis is refused. */
    method Append(revision: Revision, ghost claim: Claim, ghost base: nat) returns (committed: bool)
      modifies this`revisions, this`staged, this`claims
      ensures Value() == CommitStep(old(Value()).(inFlight := map[0 := Prepared(revision, claim, base)]), 0)
      ensures committed <==> Appendable(revision, old(revisions))
    {
      assert map[0 := Prepared(revision, claim, base)] - {0} == map[];
      if revision.mutation == GENESIS && revisions != [] {
        return false;
      }
      if revision.mutation != GENESIS && revisions == [] {
        return false;
      }
      revisions, staged, claims := revisions + [revision], [], claims + [claim];
      return true;
    }

    /** A finalize that no other request interrupts. */
    method Finalize(admitted: bool, claim: Claim, objectId: Id) returns (committed: bool)
      modifies this`revisions, this`staged, this`claims
      ensures Value() == Serve(codec, old(Value()), FinalizeRequest(admitted, claim, objectId))
      ensures committed <==> |revisions| > |old(revisions)|
    {
      var revision := Check(admitted, claim, objectId);
      if revision.None? {
        return false;
      }
      assert map[][0 := Prepared(revision.value, claim, |revisions|)]
        == map[0 := Prepared(revision.value, claim, |revisions|)];
      committed := Append(revision.value, claim, |revisions|);
    }
  }
}
