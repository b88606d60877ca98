/**
 What `atomicWriteProtectedFile` of apps/cli/src/output.ts keeps with `retainPrevious`, alone and among
 other writers.
 */
module RetainedCopies {
  import opened FileSystem
  import opened ProtectedFiles
  import opened Sequences

  // ---------- The retained copy ----------

  /** Since the log had this length no process but p changed the path. */
  ghost predicate OthersLeave(log: seq<Effect>, from: nat, p: nat, path: string) {
    from <= |log| && forall k :: from <= k < |log| && log[k].process != p ==> log[k].DidRead? || log[k].path != path
  }

  lemma {:induction false} ReplaySnoc(start: Option<Bytes>, log: seq<Effect>, e: Effect, path: string)
    ensures Replay(start, log + [e], path) == Applied(e, path, Replay(start, log, path))
  {
    assert (log + [e])[..|log|] == log;
  }

  /** Then the path shows what p's own effects made of it. */
  lemma {:induction false} OwnReplay(start: Option<Bytes>, log: seq<Effect>, from: nat, p: nat, path: string)
    requires OthersLeave(log, from, p, path)
    ensures Replay(start, log, path) == Replay(Replay(start, log[..from], path), Own(log[from..], p), path)
    decreases |log|
  {
    if from == |log| {
      assert log[..from] == log;
    } else {
      var init, e := log[..|log| - 1], log[|log| - 1];
      var prior, own := Replay(start, init[..from], path), Own(init[from..], p);
      assert log == init + [e] && init[..from] == log[..from];
      OwnReplay(start, init, from, p, path);
      OwnExtends(init, log, from, p, e.process);
      ReplaySnoc(start, init, e, path);
      if e.process == p {
        assert log[|init|..] == [e];
        ReplaySnoc(prior, own, e, path);
      }
    }
  }

  /** And p's first effect, if it is a read of the path, saw what the path showed at the start. */
  lemma {:induction false} OwnReadsPrior(first: State, log: seq<Effect>, from: nat, p: nat, path: string)
    requires Legal(first, log) && OthersLeave(log, from, p, path)
    requires var own := Own(log[from..], p); own != [] && own[0].DidRead? && own[0].path == path
    ensures Own(log[from..], p)[0].value == Replay(first.Value(path), log[..from], path)
  {
    var k := OwnIsLogged(log[from..], p, 0);
    var i := from + k;
    assert log[from..][..k] == log[..i][from..] && log[..i][..from] == log[..from];
    assert log[i].value == Replay(first.Value(path), log[..i], path);
    OwnReplay(first.Value(path), log[..i], from, p, path);
  }

  /** What a retaining write leaves on the path and its copy, after a part of its plan or all of it. */
  lemma {:induction false} RetainingPlan(
    p: nat, path: string, update: Bytes, plan: seq<Effect>, own: seq<Effect>, prior: Option<Bytes>, copy: Option<Bytes>)
    requires IsPlan(p, CallWrite(path, update, true), plan) && own <= plan && (own != [] ==> own[0].value == prior)
    ensures own != plan ==> Replay(prior, own, path) == prior
    ensures own == plan ==>
      Replay(prior, own, path) == Some(update) && (prior.Some? ==> Replay(copy, own, Previous(path)) == prior)
  {
    assert |Previous(path)| != |path|;
    var n := |own|;
    assert n >= 1 ==> own[..n] == own && own[..1][..0] == [] && own[..1][0] == plan[0];
    assert n >= 1 ==> Replay(prior, own[..1], path) == prior;
    if n >= 2 {
      assert own[..2][..1] == own[..1] && Last(own[..2]) == plan[1];
      if n == 3 {
        assert own[..3][..2] == own[..2] && Last(own[..3]) == plan[2];
      }
    }
  }

  /**
   A write with `retainPrevious` whose path and copy no other process changes: at every instant, crashes
   included, the path shows its old contents, or the new ones beside a complete copy of the old; and the
   latter once the call has returned success.
   */
  lemma {:induction false} RetainedCopy(first: State, s: State, p: nat, path: string, update: Bytes, events: seq<Event>)
    requires Safe(s) && Explained(first, s)
    requires s.Phase(p).Idle? && Admissible(s, CallWrite(path, update, true)) && NoNewCall(events, p)
    requires var t := Run(SafeStep(s, Event(p, CallWrite(path, update, true))), events);
      OthersLeave(t.log, |s.log|, p, path) && OthersLeave(t.log, |s.log|, p, Previous(path))
    ensures var t := Run(SafeStep(s, Event(p, CallWrite(path, update, true))), events);
      var done := t.Value(path) == Some(update) && (s.Value(path).Some? ==> t.Value(Previous(path)) == s.Value(path));
      && (t.Value(path) == s.Value(path) || done)
      && |s.returned| <= |t.returned|
      && forall r :: r in OwnReturns(t.returned[|s.returned|..], p) && r.Succeeded? ==> done
  {
    var call := CallWrite(path, update, true);
    var u := SafeStep(s, Event(p, call));
    CallTakesEffect(s, p, call, events);
    ExplainedStep(first, s, Event(p, call));
    StepAdds(s, Event(p, call));
    ExplainedRun(first, u, events);
    RetainedOutcome(first, s, Run(u, events), p, path, update);
  }

  lemma {:induction false} RetainedOutcome(first: State, s: State, t: State, p: nat, path: string, update: Bytes)
    requires Explained(first, s) && Explained(first, t) && s.log <= t.log
    requires Admissible(s, CallWrite(path, update, true)) && CallOutcome(s, t, p, CallWrite(path, update, true))
    requires OthersLeave(t.log, |s.log|, p, path) && OthersLeave(t.log, |s.log|, p, Previous(path))
    ensures var done := t.Value(path) == Some(update)
      && (s.Value(path).Some? ==> t.Value(Previous(path)) == s.Value(path));
      && (t.Value(path) == s.Value(path) || done)
      && forall r :: r in OwnReturns(t.returned[|s.returned|..], p) && r.Succeeded? ==> done
  {
    var own := Own(t.log[|s.log|..], p);
    assert t.log[..|s.log|] == s.log;
    OwnReplay(first.Value(path), t.log, |s.log|, p, path);
    OwnReplay(first.Value(Previous(path)), t.log, |s.log|, p, Previous(path));
    var plan :| IsPlan(p, CallWrite(path, update, true), plan) && own <= plan;
    if own != [] {
      OwnReadsPrior(first, t.log, |s.log|, p, path);
    }
    RetainingPlan(p, path, update, plan, own, s.Value(path), s.Value(Previous(path)));
    if IsPlan(p, CallWrite(path, update, true), own) {
      PlansEnd(p, CallWrite(path, update, true), own, plan[|own|..]);
      assert own + plan[|own|..] == plan;
    }
  }

  // ---------- Overlapping writers ----------

  /** What the last change of the path before the end of the log left, or its first value if there is none. */
  ghost predicate LastCarries(start: Option<Bytes>, log: seq<Effect>, path: string, value: Option<Bytes>) {
    || (NoChange(log, path, 0, |log|) && value == start)
    || exists j :: LatestChange(log, path, |log|, j) && value == Applied(log[j], path, None)
  }

  lemma {:induction false} LastCarriesReplay(start: Option<Bytes>, log: seq<Effect>, path: string, value: Option<Bytes>)
    ensures LastCarries(start, log, path, value) <==> value == Replay(start, log, path)
  {
    var j := ReplayIsLatest(start, log, path, |log|);
    assert log[..|log|] == log;
    forall a, b | LatestChange(log, path, |log|, a) && LatestChange(log, path, |log|, b) ensures a == b {
    }
  }

  /** The last rename of a retaining write: the new contents are in place, and the copy is as it was. */
  ghost predicate Replaces(s: State, p: nat, path: string, update: Bytes) {
    s.Phase(p).Renaming? && s.Phase(p).writes == [Write(path, update)]
  }

  /**
   The rename that puts the new contents in place leaves `.previous` equal to what it replaces if and only
   if the last change of `.previous` left those very contents there.
   */
  lemma {:induction false} RenameKeepsCopy(first: State, s: State, p: nat, path: string, update: Bytes)
    requires Safe(s) && Explained(first, s) && Replaces(s, p, path, update)
    requires path in s.paths && Previous(path) in s.paths
    ensures var t := SafeStep(s, Event(p, RenameTemporary));
      && t.Value(path) == Some(update)
      && (t.Value(Previous(path)) == s.Value(path) <==>
            LastCarries(first.Value(Previous(path)), s.log, Previous(path), s.Value(path)))
  {
    var e := Event(p, RenameTemporary);
    var t := SafeStep(s, e);
    assert |Previous(path)| != |path|;
    assert PhaseSafe(s, p, s.Phase(p));
    assert EffectOf(s, t, p, DidWrite(p, path, update)) by { RenameIs(s, p, path, update); }
    LastCarriesReplay(first.Value(Previous(path)), s.log, Previous(path), s.Value(path));
  }

  lemma {:induction false} RenameIs(s: State, p: nat, path: string, update: Bytes)
    requires Safe(s) && Replaces(s, p, path, update)
    ensures EffectOf(s, Step(s, Event(p, RenameTemporary)), p, DidWrite(p, path, update))
  {
    assert PhaseSafe(s, p, s.Phase(p));
  }

  /** No write to the path since the read that the copy was made of, and none to the copy since it was made. */
  ghost predicate Unmixed(log: seq<Effect>, p: nat, path: string, r: nat, k: nat, value: Bytes) {
    && r < k < |log| && log[r] == DidRead(p, path, Some(value)) && log[k] == DidWrite(p, Previous(path), value)
    && NoChange(log, path, r + 1, |log|) && NoChange(log, Previous(path), k + 1, |log|)
  }

  /** The condition a caller can keep: then the copy holds what the rename replaces. */
  lemma {:induction false} UnmixedKeepsCopy(
    first: State, s: State, p: nat, path: string, update: Bytes, r: nat, k: nat, value: Bytes)
    requires Safe(s) && Explained(first, s) && Replaces(s, p, path, update)
    requires path in s.paths && Previous(path) in s.paths && Unmixed(s.log, p, path, r, k, value)
    ensures s.Value(path) == Some(value)
    ensures var t := SafeStep(s, Event(p, RenameTemporary));
      t.Value(path) == Some(update) && t.Value(Previous(path)) == Some(value)
  {
    var log := s.log;
    var j := ReplayIsLatest(first.Value(path), log, path, |log|);
    var i := ReplayIsLatest(first.Value(path), log, path, r);
    assert log[..|log|] == log && log[r].value == Replay(first.Value(path), log[..r], path);
    assert i == j;
    assert LatestChange(log, Previous(path), |log|, k);
    RenameKeepsCopy(first, s, p, path, update);
  }

  lemma {:induction false} OwnPrefix(log: seq<Effect>, p: nat, k: nat)
    requires k <= |log|
    ensures Own(log[..k], p) <= Own(log, p)
  {
    if k < |log| {
      OwnPrefix(log[..|log| - 1], p, k);
      assert log[..|log| - 1][..k] == log[..k];
    } else {
      assert log[..k] == log;
    }
  }

  /** At its last rename a retaining write has copied what it read, unless it found no file. */
  lemma {:induction false} CopiedBefore(log: seq<Effect>, p: nat, path: string, update: Bytes) returns (r: nat, k: nat)
    requires IsPlan(p, CallWrite(path, update, true), Own(log, p) + [DidWrite(p, path, update)])
    ensures r < |log| && log[r].DidRead? && log[r].process == p && log[r].path == path
    ensures log[r].value.Some? ==> r < k < |log| && log[k] == DidWrite(p, Previous(path), log[r].value.value)
  {
    var own := Own(log, p);
    assert |own| == 1 || |own| == 2;
    if |own| == 1 {
      r := OwnIsLogged(log, p, 0);
      k := r;
      assert (own + [DidWrite(p, path, update)])[0] == own[0];
    } else {
      k := OwnIsLogged(log, p, 1);
      OwnPrefix(log, p, k);
      r := OwnIsLogged(log[..k], p, 0);
      assert (own + [DidWrite(p, path, update)])[0] == own[0] && (own + [DidWrite(p, path, update)])[1] == own[1];
    }
  }

  /** p read the path at r and, if there was a file, copied what it read at k. */
  ghost predicate CopiedAt(log: seq<Effect>, from: nat, p: nat, path: string, r: nat, k: nat) {
    && from <= r < |log| && log[r].DidRead? && log[r].process == p && log[r].path == path
    && (log[r].value.Some? ==> r < k < |log| && log[k] == DidWrite(p, Previous(path), log[r].value.value))
  }

  lemma {:induction false} CopiedSince(log: seq<Effect>, from: nat, p: nat, path: string, update: Bytes)
    returns (r: nat, k: nat)
    requires from <= |log|
    requires IsPlan(p, CallWrite(path, update, true), Own(log[from..], p) + [DidWrite(p, path, update)])
    ensures CopiedAt(log, from, p, path, r, k)
  {
    r, k := CopiedBefore(log[from..], p, path, update);
    assert log[from..][r].value.Some? ==> log[from..][k] == log[from + k];
    r, k := from + r, from + k;
  }

  lemma {:induction false} KeptSince(
    first: State, u: State, p: nat, path: string, update: Bytes, from: nat, r: nat, k: nat)
    requires Safe(u) && Explained(first, u) && Replaces(u, p, path, update) && CopiedAt(u.log, from, p, path, r, k)
    requires path in u.paths && Previous(path) in u.paths && u.log[r].value.Some?
    requires NoChange(u.log, path, r + 1, |u.log|) && NoChange(u.log, Previous(path), k + 1, |u.log|)
    ensures SafeStep(u, Event(p, RenameTemporary)).Value(Previous(path)) == u.Value(path) == u.log[r].value
  {
    assert u.log[r] == DidRead(p, path, u.log[r].value);
    UnmixedKeepsCopy(first, u, p, path, update, r, k, u.log[r].value.value);
  }

  lemma {:induction false} AtRename(s: State, p: nat, path: string, update: Bytes, events: seq<Event>)
    requires Safe(s) && s.Phase(p).Idle? && Admissible(s, CallWrite(path, update, true)) && NoNewCall(events, p)
    requires Replaces(Run(SafeStep(s, Event(p, CallWrite(path, update, true))), events), p, path, update)
    ensures var u := Run(SafeStep(s, Event(p, CallWrite(path, update, true))), events);
      && |s.log| <= |u.log| && u.paths == s.paths
      && IsPlan(p, CallWrite(path, update, true), Own(u.log[|s.log|..], p) + [DidWrite(p, path, update)])
  {
    var call := CallWrite(path, update, true);
    CallBegins(s, p, call);
    CallRun(SafeStep(s, Event(p, call)), events, p, call, |s.log|, |s.returned|);
    SamePaths(s, p, call, events);
    assert Effects(p, [Write(path, update)]) == [DidWrite(p, path, update)];
  }

  /**
   So a retaining write keeps what it replaces whenever, besides it, nothing wrote to the path between its
   read and its rename, and nothing to the copy between its own copy and its rename.
   */
  lemma {:induction false} ReplacedIsKept(
    first: State, s: State, p: nat, path: string, update: Bytes, events: seq<Event>)
    returns (r: nat, k: nat)
    requires Safe(s) && Explained(first, s)
    requires s.Phase(p).Idle? && Admissible(s, CallWrite(path, update, true)) && NoNewCall(events, p)
    requires Replaces(Run(SafeStep(s, Event(p, CallWrite(path, update, true))), events), p, path, update)
    ensures var u := Run(SafeStep(s, Event(p, CallWrite(path, update, true))), events);
      && CopiedAt(u.log, |s.log|, p, path, r, k)
      && (&& u.log[r].value.Some? && NoChange(u.log, path, r + 1, |u.log|)
          && NoChange(u.log, Previous(path), k + 1, |u.log|) ==>
            SafeStep(u, Event(p, RenameTemporary)).Value(Previous(path)) == u.Value(path) == u.log[r].value)
  {
    var call := CallWrite(path, update, true);
    var u := Run(SafeStep(s, Event(p, call)), events);
    AtRename(s, p, path, update, events);
    ExplainedStep(first, s, Event(p, call));
    ExplainedRun(first, SafeStep(s, Event(p, call)), events);
    r, k := CopiedSince(u.log, |s.log|, p, path, update);
    if && u.log[r].value.Some? && NoChange(u.log, path, r + 1, |u.log|)
       && NoChange(u.log, Previous(path), k + 1, |u.log|)
    {
      KeptSince(first, u, p, path, update, |s.log|, r, k);
    }
  }

  lemma {:induction false} SamePaths(s: State, p: nat, call: Action, events: seq<Event>)
    requires Safe(s)
    ensures Run(SafeStep(s, Event(p, call)), events).paths == s.paths
  {
    StepEffect(s, Event(p, call));
    RunPaths(SafeStep(s, Event(p, call)), events);
  }

  lemma {:induction false} RunPaths(s: State, events: seq<Event>)
    requires Safe(s)
    ensures Run(s, events).paths == s.paths
  {
    if events != [] {
      RunPaths(s, events[..|events| - 1]);
      StepEffect(Run(s, events[..|events| - 1]), Last(events));
    }
  }

  // ---------- Two retaining writers of one path ----------

  /** Process p went on from s to t alone, and the temporary names and inodes outside these stayed free. */
  ghost predicate Alone(s: State, t: State, p: nat, names: set<string>, inodes: set<Inode>) {
    && t.paths == s.paths && t.used <= s.used + names
    && t.disk.names.Keys <= s.disk.names.Keys + s.paths + names && t.disk.data.Keys <= s.disk.data.Keys + inodes
    && forall q :: q != p ==> t.Phase(q) == s.Phase(q)
  }

  function CallEvents(p: nat, path: string, update: Bytes): seq<Event> {
    [Event(p, CallWrite(path, update, true)), Event(p, Open)]
  }

  function ReadEvents(p: nat, length: nat): seq<Event> {
    [Event(p, ReadChunk(length)), Event(p, EndOfFile)]
  }

  function FillEvents(p: nat, contents: Bytes, temporary: string, inode: Inode): seq<Event> {
    [Event(p, CreateTemporary(temporary, inode)), Event(p, WriteChunk(|contents|))]
  }

  function PlaceEvents(p: nat): seq<Event> {
    [Event(p, RenameTemporary), Event(p, SetMode)]
  }

  lemma {:induction false} RunTwo(s: State, a: Event, b: Event)
    requires Safe(s)
    ensures Run(s, [a, b]) == SafeStep(SafeStep(s, a), b)
  {
    assert [a, b][..1] == [a] && [a][..0] == [];
    assert Run(s, [a]) == SafeStep(s, a);
  }

  lemma {:induction false} CallIs(s: State, p: nat, path: string, update: Bytes)
    requires Safe(s) && s.Phase(p).Idle? && Admissible(s, CallWrite(path, update, true))
    ensures SafeStep(s, Event(p, CallWrite(path, update, true)))
      == s.(calls := s.calls + {Write(path, update)}).At(p, Opening(path, Retain(update)))
  {
  }

  lemma {:induction false} OpenIs(s: State, p: nat, path: string, goal: Goal, prior: Bytes)
    requires Safe(s) && s.Phase(p) == Opening(path, goal) && s.Value(path) == Some(prior)
    ensures SafeStep(s, Event(p, Open))
      == s.Logged(DidRead(p, path, Some(prior))).At(p, Reading(path, goal, s.disk.names[path], [], prior))
  {
  }

  lemma {:induction false} ChunkReadIs(s: State, p: nat, path: string, goal: Goal, inode: Inode, data: Bytes)
    requires Safe(s) && s.Phase(p) == Reading(path, goal, inode, [], data)
    ensures SafeStep(s, Event(p, ReadChunk(|data|))) == s.At(p, Reading(path, goal, inode, data, data))
  {
    assert PhaseSafe(s, p, s.Phase(p));
    assert data[..|data|] == data;
  }

  lemma {:induction false} EndIs(s: State, p: nat, path: string, update: Bytes, inode: Inode, data: Bytes)
    requires Safe(s) && s.Phase(p) == Reading(path, Retain(update), inode, data, data)
    ensures SafeStep(s, Event(p, EndOfFile)) == s.At(p, Creating([Write(Previous(path), data), Write(path, update)]))
  {
    assert PhaseSafe(s, p, s.Phase(p));
  }

  lemma {:induction false} OpenRuns(s: State, p: nat, path: string, update: Bytes, prior: Bytes)
    requires Safe(s) && s.Phase(p).Idle? && Admissible(s, CallWrite(path, update, true)) && s.Value(path) == Some(prior)
    ensures Run(s, CallEvents(p, path, update))
      == s.(calls := s.calls + {Write(path, update)}).Logged(DidRead(p, path, Some(prior)))
         .At(p, Reading(path, Retain(update), s.disk.names[path], [], prior))
  {
    var e := CallEvents(p, path, update);
    RunTwo(s, e[0], e[1]);
    CallIs(s, p, path, update);
    OpenIs(SafeStep(s, e[0]), p, path, Retain(update), prior);
  }

  lemma {:induction false} ReadRuns(s: State, p: nat, path: string, update: Bytes, inode: Inode, data: Bytes)
    requires Safe(s) && s.Phase(p) == Reading(path, Retain(update), inode, [], data)
    ensures Run(s, ReadEvents(p, |data|)) == s.At(p, Creating([Write(Previous(path), data), Write(path, update)]))
  {
    var e := ReadEvents(p, |data|);
    RunTwo(s, e[0], e[1]);
    ChunkReadIs(s, p, path, Retain(update), inode, data);
    EndIs(SafeStep(s, e[0]), p, path, update, inode, data);
  }

  /** What a retaining write has done when it has read the whole file. */
  function Copied(s: State, p: nat, path: string, update: Bytes, prior: Bytes): State {
    s.(calls := s.calls + {Write(path, update)}).Logged(DidRead(p, path, Some(prior)))
    .At(p, Creating([Write(Previous(path), prior), Write(path, update)]))
  }

  lemma {:induction false} CopyRuns(s: State, p: nat, path: string, update: Bytes, prior: Bytes)
    requires Safe(s) && s.Phase(p).Idle? && Admissible(s, CallWrite(path, update, true)) && s.Value(path) == Some(prior)
    ensures Run(s, CallEvents(p, path, update) + ReadEvents(p, |prior|)) == Copied(s, p, path, update, prior)
  {
    RunConcat(s, CallEvents(p, path, update), ReadEvents(p, |prior|));
    OpenRuns(s, p, path, update, prior);
    ReadRuns(Run(s, CallEvents(p, path, update)), p, path, update, s.disk.names[path], prior);
  }

  lemma {:induction false} CreateIs(s: State, p: nat, writes: seq<Write>, temporary: string, inode: Inode)
    requires Safe(s) && s.Phase(p) == Creating(writes) && FreshTemporary(s, temporary, inode)
    ensures SafeStep(s, Event(p, CreateTemporary(temporary, inode)))
      == s.(disk := s.disk.Create(temporary, inode), used := s.used + {temporary})
         .At(p, Writing(writes, temporary, inode))
  {
  }

  lemma {:induction false} ChunkWriteIs(s: State, p: nat, writes: seq<Write>, temporary: string, inode: Inode)
    requires Safe(s) && s.Phase(p) == Writing(writes, temporary, inode) && writes != []
    requires inode in s.disk.data && s.disk.data[inode] == []
    ensures SafeStep(s, Event(p, WriteChunk(|writes[0].contents|)))
      == s.(disk := s.disk.Append(inode, writes[0].contents)).At(p, Renaming(writes, temporary))
  {
    assert writes[0].contents[0..] == writes[0].contents;
  }

  lemma {:induction false} PutInPlace(s: State, p: nat, writes: seq<Write>, temporary: string)
    requires Safe(s) && s.Phase(p) == Renaming(writes, temporary) && writes != []
    requires temporary in s.disk.names && temporary != writes[0].path
    ensures SafeStep(s, Event(p, RenameTemporary))
      == s.(disk := s.disk.Rename(temporary, writes[0].path)).Logged(DidWrite(p, writes[0].path, writes[0].contents))
         .At(p, Settling(writes))
  {
  }

  lemma {:induction false} SettleIs(s: State, p: nat, writes: seq<Write>)
    requires Safe(s) && s.Phase(p) == Settling(writes) && writes != []
    ensures SafeStep(s, Event(p, SetMode)) == AfterWrite(s, p, writes)
  {
  }

  function AfterWrite(s: State, p: nat, writes: seq<Write>): State
    requires writes != []
  {
    if |writes| == 1 then s.Ends(p, Succeeded(DidWrite(p, writes[0].path, writes[0].contents)))
    else s.At(p, Creating(writes[1..]))
  }

  /** A process alone puts the contents of its next write in place. */
  function Written(s: State, p: nat, writes: seq<Write>, temporary: string, inode: Inode): State
    requires writes != [] && temporary != writes[0].path
  {
    var w := writes[0];
    var disk := s.disk.Create(temporary, inode).Append(inode, w.contents).Rename(temporary, w.path);
    AfterWrite(
      s.(disk := disk, used := s.used + {temporary}, log := s.log + [DidWrite(p, w.path, w.contents)],
        phases := s.phases),
      p, writes)
  }

  lemma {:induction false} FillRuns(s: State, p: nat, writes: seq<Write>, temporary: string, inode: Inode)
    requires Safe(s) && s.Phase(p) == Creating(writes) && writes != [] && FreshTemporary(s, temporary, inode)
    ensures Run(s, FillEvents(p, writes[0].contents, temporary, inode)) == Filled(s, p, writes, temporary, inode)
  {
    var e := FillEvents(p, writes[0].contents, temporary, inode);
    RunTwo(s, e[0], e[1]);
    CreateIs(s, p, writes, temporary, inode);
    ChunkWriteIs(SafeStep(s, e[0]), p, writes, temporary, inode);
  }

  lemma {:induction false} PlaceRuns(s: State, p: nat, writes: seq<Write>, temporary: string)
    requires Safe(s) && s.Phase(p) == Renaming(writes, temporary) && writes != []
    requires temporary in s.disk.names && temporary != writes[0].path
    ensures Run(s, PlaceEvents(p)) == Placed(s, p, writes, temporary)
  {
    var e := PlaceEvents(p);
    RunTwo(s, e[0], e[1]);
    PutInPlace(s, p, writes, temporary);
    SettleIs(SafeStep(s, e[0]), p, writes);
  }

  lemma {:induction false} WriteRuns(s: State, p: nat, writes: seq<Write>, temporary: string, inode: Inode)
    requires Safe(s) && s.Phase(p) == Creating(writes) && FreshTemporary(s, temporary, inode)
    ensures writes != [] && writes[0].path in s.paths
    ensures Run(s, FillEvents(p, writes[0].contents, temporary, inode) + PlaceEvents(p))
      == Written(s, p, writes, temporary, inode)
  {
    assert PhaseSafe(s, p, s.Phase(p));
    var fill := FillEvents(p, writes[0].contents, temporary, inode);
    RunConcat(s, fill, PlaceEvents(p));
    FillRuns(s, p, writes, temporary, inode);
    PlaceRuns(Filled(s, p, writes, temporary, inode), p, writes, temporary);
    PlacedIsWritten(s, p, writes, temporary, inode);
  }

  /** The temporary file is complete. */
  function Filled(s: State, p: nat, writes: seq<Write>, temporary: string, inode: Inode): State
    requires writes != []
  {
    s.(disk := s.disk.Create(temporary, inode).Append(inode, writes[0].contents), used := s.used + {temporary})
    .At(p, Renaming(writes, temporary))
  }

  function Placed(s: State, p: nat, writes: seq<Write>, temporary: string): State
    requires writes != [] && temporary in s.disk.names && temporary != writes[0].path
  {
    AfterWrite(
      s.(disk := s.disk.Rename(temporary, writes[0].path)).Logged(DidWrite(p, writes[0].path, writes[0].contents))
      .At(p, Settling(writes)), p, writes)
  }

  lemma {:induction false} PlacedIsWritten(s: State, p: nat, writes: seq<Write>, temporary: string, inode: Inode)
    requires writes != [] && temporary != writes[0].path
    ensures Placed(Filled(s, p, writes, temporary, inode), p, writes, temporary)
      == Written(s, p, writes, temporary, inode)
  {
  }

  lemma {:induction false} WrittenShows(s: State, p: nat, writes: seq<Write>, temporary: string, inode: Inode)
    requires s.disk.Valid() && writes != [] && writes[0].path in s.paths && FreshTemporary(s, temporary, inode)
    ensures var w, t := writes[0], Written(s, p, writes, temporary, inode);
      && t.Value(w.path) == Some(w.contents) && (forall q :: q in s.paths && q != w.path ==> t.Value(q) == s.Value(q))
      && Alone(s, t, p, {temporary}, {inode})
  {
    assert [] + writes[0].contents == writes[0].contents;
  }

  lemma {:induction false} WritesAlone(s: State, p: nat, writes: seq<Write>, temporary: string, inode: Inode)
    returns (events: seq<Event>)
    requires Safe(s) && s.Phase(p) == Creating(writes) && FreshTemporary(s, temporary, inode)
    ensures writes != [] && writes[0].path in s.paths
    ensures forall k :: 0 <= k < |events| ==> events[k].process == p
    ensures var w, t := writes[0], Run(s, events);
      && t.Phase(p) == (if |writes| == 1 then Idle else Creating(writes[1..]))
      && t.returned == s.returned + (if |writes| == 1 then [Succeeded(DidWrite(p, w.path, w.contents))] else [])
      && t.Value(w.path) == Some(w.contents) && (forall q :: q in s.paths && q != w.path ==> t.Value(q) == s.Value(q))
      && Alone(s, t, p, {temporary}, {inode})
  {
    events := FillEvents(p, s.Phase(p).writes[0].contents, temporary, inode) + PlaceEvents(p) by {
      assert PhaseSafe(s, p, s.Phase(p));
    }
    WriteRuns(s, p, writes, temporary, inode);
    WrittenShows(s, p, writes, temporary, inode);
  }

  lemma {:induction false} StillFresh(
    s: State, t: State, p: nat, name: string, inode: Inode, other: string, inode': Inode)
    requires Alone(s, t, p, {name}, {inode}) && FreshTemporary(s, other, inode') && other != name && inode' != inode
    ensures FreshTemporary(t, other, inode')
  {
  }

  lemma {:induction false} AloneTwice(
    s: State, t: State, u: State, p: nat, names: (string, string), inodes: (Inode, Inode))
    requires Alone(s, t, p, {names.0}, {inodes.0}) && Alone(t, u, p, {names.1}, {inodes.1})
    ensures Alone(s, u, p, {names.0, names.1}, {inodes.0, inodes.1})
  {
  }

  /** A process alone finishes a retaining write that has read its file. */
  lemma {:induction false} FinishesAlone(
    s: State, p: nat, path: string, prior: Bytes, update: Bytes, names: (string, string), inodes: (Inode, Inode))
    returns (events: seq<Event>)
    requires Safe(s) && s.Phase(p) == Creating([Write(Previous(path), prior), Write(path, update)])
    requires FreshTemporary(s, names.0, inodes.0) && FreshTemporary(s, names.1, inodes.1)
    requires names.0 != names.1 && inodes.0 != inodes.1
    ensures forall k :: 0 <= k < |events| ==> events[k].process == p
    ensures var t := Run(s, events);
      && t.Value(Previous(path)) == Some(prior) && t.Value(path) == Some(update)
      && Alone(s, t, p, {names.0, names.1}, {inodes.0, inodes.1})
      && t.returned == s.returned + [Succeeded(DidWrite(p, path, update))]
  {
    var first := CopiesAlone(s, p, path, prior, update, names, inodes);
    var t := Run(s, first);
    var second := WritesAlone(t, p, [Write(path, update)], names.1, inodes.1);
    events := first + second;
    RunConcat(s, first, second);
    AloneTwice(s, t, Run(t, second), p, names, inodes);
  }

  /** Its first half: the copy is in place, and the new contents are still to be written. */
  lemma {:induction false} CopiesAlone(
    s: State, p: nat, path: string, prior: Bytes, update: Bytes, names: (string, string), inodes: (Inode, Inode))
    returns (events: seq<Event>)
    requires Safe(s) && s.Phase(p) == Creating([Write(Previous(path), prior), Write(path, update)])
    requires FreshTemporary(s, names.0, inodes.0) && FreshTemporary(s, names.1, inodes.1)
    requires names.0 != names.1 && inodes.0 != inodes.1
    ensures forall k :: 0 <= k < |events| ==> events[k].process == p
    ensures path in s.paths && Previous(path) in s.paths && Previous(path) != path
    ensures var t := Run(s, events);
      && t.Phase(p) == Creating([Write(path, update)]) && t.Value(Previous(path)) == Some(prior)
      && t.returned == s.returned && Alone(s, t, p, {names.0}, {inodes.0}) && FreshTemporary(t, names.1, inodes.1)
  {
    var copy := [Write(Previous(path), prior), Write(path, update)];
    assert PhaseSafe(s, p, s.Phase(p)) && |Previous(path)| != |path|;
    assert copy[1..] == [Write(path, update)] && copy[0].path in s.paths && copy[1].path in s.paths;
    events := WritesAlone(s, p, copy, names.0, inodes.0);
    StillFresh(s, Run(s, events), p, names.0, inodes.0, names.1, inodes.1);
  }

  /**
   Two overlapping retaining writers of one path: both read it, one finishes, and then the other. Both
   succeed, and the second leaves beside its own contents a copy that is not what it replaced.
   */
  lemma {:induction false} OverlappingWriters(
    s: State, p: nat, q: nat, path: string, a: Bytes, b: Bytes, c: Bytes,
    names: ((string, string), (string, string)), inodes: ((Inode, Inode), (Inode, Inode)))
    returns (before: seq<Event>, after: seq<Event>)
    requires Safe(s) && p != q && s.Phase(p).Idle? && s.Phase(q).Idle? && s.Value(path) == Some(a)
    requires path in s.paths && Previous(path) in s.paths
    requires FreshTemporary(s, names.0.0, inodes.0.0) && FreshTemporary(s, names.0.1, inodes.0.1)
    requires FreshTemporary(s, names.1.0, inodes.1.0) && FreshTemporary(s, names.1.1, inodes.1.1)
    requires Distinct([names.0.0, names.0.1, names.1.0, names.1.1])
    requires Distinct([inodes.0.0, inodes.0.1, inodes.1.0, inodes.1.1])
    ensures var u := Run(s, before);
      u.Value(path) == Some(b) && u.Value(Previous(path)) == Some(a) && Succeeded(DidWrite(p, path, b)) in u.returned
    ensures forall k :: 0 <= k < |after| ==> after[k].process == q
    ensures var t := Run(Run(s, before), after);
      t.Value(path) == Some(c) && t.Value(Previous(path)) == Some(a) && Succeeded(DidWrite(q, path, c)) in t.returned
  {
    var both := BothRead(s, p, q, path, a, b, c);
    var s2 := Run(s, both);
    DistinctFour(names.0.0, names.0.1, names.1.0, names.1.1);
    DistinctFour(inodes.0.0, inodes.0.1, inodes.1.0, inodes.1.1);
    var rest := FinishesAlone(s2, p, path, a, b, names.0, inodes.0);
    before := both + rest;
    RunConcat(s, both, rest);
    after := FinishesAlone(Run(s2, rest), q, path, a, c, names.1, inodes.1);
  }

  lemma {:induction false} BothRead(s: State, p: nat, q: nat, path: string, a: Bytes, b: Bytes, c: Bytes)
    returns (events: seq<Event>)
    requires Safe(s) && p != q && s.Phase(p).Idle? && s.Phase(q).Idle? && s.Value(path) == Some(a)
    requires path in s.paths && Previous(path) in s.paths
    ensures var t := Run(s, events);
      && t.Phase(p) == Creating([Write(Previous(path), a), Write(path, b)])
      && t.Phase(q) == Creating([Write(Previous(path), a), Write(path, c)])
      && t.disk == s.disk && t.used == s.used && t.paths == s.paths
  {
    var first, second := CallEvents(p, path, b) + ReadEvents(p, |a|), CallEvents(q, path, c) + ReadEvents(q, |a|);
    CopyRuns(s, p, path, b, a);
    CopyRuns(Run(s, first), q, path, c, a);
    events := first + second;
    RunConcat(s, first, second);
  }

  lemma DistinctFour<T>(a: T, b: T, c: T, d: T)
    requires Distinct([a, b, c, d])
    ensures a != b && a != c && a != d && b != c && b != d && c != d
  {
    var s := [a, b, c, d];
    assert s[0] != s[1] && s[0] != s[2] && s[0] != s[3] && s[1] != s[2] && s[1] != s[3] && s[2] != s[3];
  }
}
