/** `atomicWriteProtectedFile` of apps/cli/src/output.ts, with readers and deletions, run by any number of processes. */
module ProtectedFiles {
  import opened FileSystem
  import opened Sequences

  datatype Write = Write(path: string, contents: Bytes)

  /** What a read is for: its caller, or the copy that `retainPrevious` keeps before writing `contents`. */
  datatype Goal = Report | Retain(contents: Bytes)

  /** A process carries out the writes of its call in order: at most the retained copy and the new contents. */
  datatype Phase =
    | Idle
    | Opening(path: string, goal: Goal)
    | Reading(path: string, goal: Goal, inode: Inode, got: Bytes, expected: Bytes)
    | Creating(writes: seq<Write>)
    | Writing(writes: seq<Write>, temporary: string, inode: Inode)
    | Renaming(writes: seq<Write>, temporary: string)
    | Settling(writes: seq<Write>)
    | Unlinking(path: string)
    | Removing(writes: seq<Write>, temporary: string)
    | Crashed

  datatype Action =
    | CallWrite(path: string, contents: Bytes, retainPrevious: bool)
    | CallRead(path: string)
    | CallDelete(path: string)
    | Open
    | ReadChunk(length: nat)
    | EndOfFile
    | CreateTemporary(temporary: string, newInode: Inode)
    | WriteChunk(length: nat)
    | RenameTemporary
    | SetMode
    | Unlink
    | RemoveTemporary(removed: bool)
    | Fail
    | Crash

  datatype Event = Event(process: nat, action: Action)

  /** The instant at which an operation takes effect. */
  datatype Effect =
    | DidRead(process: nat, path: string, value: Option<Bytes>)
    | DidWrite(process: nat, path: string, contents: Bytes)
    | DidDelete(process: nat, path: string)

  /** How a call ended: with its last effect, or with an error. */
  datatype Return = Succeeded(effect: Effect) | Failed(process: nat) {
    function By(): nat {
      match this
      case Succeeded(effect) => effect.process
      case Failed(p) => p
    }
  }

  /** `paths` are the names callers use; temporary names lie outside and never repeat. */
  datatype State = State(
    paths: set<string>,
    disk: Disk<byte>,
    phases: map<nat, Phase>,
    used: set<string>,
    calls: set<Write>,
    log: seq<Effect>,
    returned: seq<Return>)
  {
    function Phase(p: nat): Phase {
      if p in phases then phases[p] else Idle
    }

    function At(p: nat, phase: Phase): State {
      this.(phases := phases[p := phase])
    }

    function Ends(p: nat, r: Return): State {
      this.(phases := phases[p := Idle], returned := returned + [r])
    }

    /** What a reader of the path would get now. */
    function Value(path: string): Option<Bytes> {
      if path in disk.names && disk.names[path] in disk.data then Some(disk.data[disk.names[path]]) else None
    }

    function Logged(e: Effect): State {
      this.(log := log + [e])
    }
  }

  function Previous(path: string): string {
    path + ".previous"
  }

  predicate FreshTemporary(s: State, name: string, inode: Inode) {
    name !in s.paths && name !in s.used && name !in s.disk.names && inode !in s.disk.data
  }

  /** One step of one process; an action that the process cannot take now changes nothing. */
  function Step(s: State, e: Event): State
    requires Safe(s)
  {
    var p := e.process;
    match (s.Phase(p), e.action)
    case (Crashed, _) => s
    case (_, Crash) => s.At(p, Crashed)
    case (Idle, CallWrite(path, contents, retain)) =>
      if path !in s.paths || (retain && Previous(path) !in s.paths) then s
      else
        s.(calls := s.calls + {Write(path, contents)})
        .At(p, if retain then Opening(path, Retain(contents)) else Creating([Write(path, contents)]))
    case (Idle, CallRead(path)) => if path in s.paths then s.At(p, Opening(path, Report)) else s
    case (Idle, CallDelete(path)) => if path in s.paths then s.At(p, Unlinking(path)) else s
    case (Opening(path, goal), Open) => OpenPath(s, p, path, goal)
    case (Opening(path, goal), Fail) => s.Ends(p, Failed(p))
    case (Reading(path, goal, inode, got, expected), ReadChunk(length)) =>
      if |got| + length <= |s.disk.data[inode]| then
        s.At(p, Reading(path, goal, inode, s.disk.data[inode][..|got| + length], expected))
      else s
    case (Reading(path, goal, inode, got, expected), EndOfFile) =>
      if |got| == |s.disk.data[inode]| then FinishRead(s, p, path, goal, got) else s
    case (Reading(path, goal, inode, got, expected), Fail) => s.Ends(p, Failed(p))
    case (Creating(writes), CreateTemporary(temporary, inode)) =>
      if FreshTemporary(s, temporary, inode) then
        s.(disk := s.disk.Create(temporary, inode), used := s.used + {temporary})
        .At(p, Writing(writes, temporary, inode))
      else s
    case (Creating(writes), Fail) => s.Ends(p, Failed(p))
    case (Writing(writes, temporary, inode), WriteChunk(length)) =>
      var data, written := writes[0].contents, |s.disk.data[inode]|;
      if written + length < |data| then
        s.(disk := s.disk.Append(inode, data[written..written + length]))
      else
        s.(disk := s.disk.Append(inode, data[written..])).At(p, Renaming(writes, temporary))
    case (Writing(writes, temporary, inode), Fail) => s.At(p, Removing(writes, temporary))
    case (Renaming(writes, temporary), RenameTemporary) =>
      s.(disk := s.disk.Rename(temporary, writes[0].path))
      .Logged(DidWrite(p, writes[0].path, writes[0].contents))
      .At(p, Settling(writes))
    case (Renaming(writes, temporary), Fail) => s.At(p, Removing(writes, temporary))
    case (Settling(writes), SetMode) =>
      if |writes| == 1 then s.Ends(p, Succeeded(DidWrite(p, writes[0].path, writes[0].contents)))
      else s.At(p, Creating(writes[1..]))
    case (Settling(writes), Fail) => s.Ends(p, Failed(p))
    case (Unlinking(path), Unlink) =>
      s.(disk := s.disk.Unlink(path)).Logged(DidDelete(p, path)).Ends(p, Succeeded(DidDelete(p, path)))
    case (Unlinking(path), Fail) => s.Ends(p, Failed(p))
    case (Removing(writes, temporary), RemoveTemporary(removed)) =>
      (if removed then s.(disk := s.disk.Unlink(temporary)) else s).Ends(p, Failed(p))
    case _ => s
  }

  /** Opening a missing file is how a read finds nothing, and how `retainPrevious` finds nothing to keep. */
  function OpenPath(s: State, p: nat, path: string, goal: Goal): State {
    var t := s.Logged(DidRead(p, path, s.Value(path)));
    match s.Value(path)
    case Some(value) => t.At(p, Reading(path, goal, s.disk.names[path], [], value))
    case None =>
      match goal
      case Report => t.Ends(p, Succeeded(DidRead(p, path, None)))
      case Retain(contents) => t.At(p, Creating([Write(path, contents)]))
  }

  function FinishRead(s: State, p: nat, path: string, goal: Goal, got: Bytes): State {
    match goal
    case Report => s.Ends(p, Succeeded(DidRead(p, path, Some(got))))
    case Retain(contents) => s.At(p, Creating([Write(Previous(path), got), Write(path, contents)]))
  }

  // ---------- The specification: one atomic register per path ----------

  function Applied(e: Effect, path: string, before: Option<Bytes>): Option<Bytes> {
    match e
    case DidWrite(_, written, contents) => if written == path then Some(contents) else before
    case DidDelete(_, removed) => if removed == path then None else before
    case DidRead(_, _, _) => before
  }

  /** The value of a path after the effects, one at a time, on top of its first value. */
  function Replay(start: Option<Bytes>, log: seq<Effect>, path: string): Option<Bytes> {
    if log == [] then start else Applied(Last(log), path, Replay(start, log[..|log| - 1], path))
  }

  /** Every read saw the value that the effects before it left. */
  ghost predicate Legal(first: State, log: seq<Effect>) {
    forall i :: 0 <= i < |log| && log[i].DidRead? ==>
      log[i].value == Replay(first.Value(log[i].path), log[..i], log[i].path)
  }

  /** A write puts down what some call asked for, or keeps what some read of the same file saw. */
  ghost predicate Justified(s: State, w: Write) {
    || w in s.calls
    || exists p, path :: w.path == Previous(path) && DidRead(p, path, Some(w.contents)) in s.log
  }

  // ---------- The invariant ----------

  function TemporaryOf(phase: Phase): Option<string> {
    match phase
    case Writing(_, temporary, _) => Some(temporary)
    case Renaming(_, temporary) => Some(temporary)
    case Removing(_, temporary) => Some(temporary)
    case _ => None
  }

  ghost predicate Pending(s: State, writes: seq<Write>) {
    writes != [] && forall i :: 0 <= i < |writes| ==> writes[i].path in s.paths && Justified(s, writes[i])
  }

  ghost predicate PhaseSafe(s: State, p: nat, phase: Phase)
    requires s.disk.Valid()
  {
    && (TemporaryOf(phase).Some? ==> TemporaryOf(phase).value in s.used)
    && match phase
       case Opening(path, goal) => path in s.paths && GoalSafe(s, path, goal)
       case Reading(path, goal, inode, got, expected) =>
         && path in s.paths && GoalSafe(s, path, goal)
         && inode in s.disk.data && s.disk.data[inode] == expected && got <= expected
         && DidRead(p, path, Some(expected)) in s.log
       case Creating(writes) => Pending(s, writes)
       case Writing(writes, temporary, inode) =>
         && Pending(s, writes)
         && temporary in s.disk.names && s.disk.names[temporary] == inode
         && (forall n :: n in s.disk.names && s.disk.names[n] == inode ==> n == temporary)
         && s.disk.data[inode] <= writes[0].contents
       case Renaming(writes, temporary) =>
         && Pending(s, writes)
         && temporary in s.disk.names && s.disk.Contents(temporary) == writes[0].contents
       case Settling(writes) => Pending(s, writes) && DidWrite(p, writes[0].path, writes[0].contents) in s.log
       case Unlinking(path) => path in s.paths
       case _ => true
  }

  ghost predicate GoalSafe(s: State, path: string, goal: Goal) {
    goal.Retain? ==> Previous(path) in s.paths && Write(path, goal.contents) in s.calls
  }

  /** No process writes to a file that another has open for reading. */
  ghost predicate Apart(a: Phase, b: Phase) {
    && (a.Reading? && b.Writing? ==> a.inode != b.inode)
    && (TemporaryOf(a).Some? ==> TemporaryOf(a) != TemporaryOf(b))
  }

  ghost predicate Safe(s: State) {
    && s.disk.Valid() && s.used !! s.paths
    && (forall p :: PhaseSafe(s, p, s.Phase(p)))
    && (forall p, q :: p != q ==> Apart(s.Phase(p), s.Phase(q)))
    && (forall r :: r in s.returned && r.Succeeded? ==> r.effect in s.log)
  }

  /** The disk shows exactly what the effects so far amount to, and these are a legal history. */
  ghost predicate Explained(first: State, s: State) {
    && s.paths == first.paths
    && Legal(first, s.log)
    && (forall path :: path in s.paths ==> s.Value(path) == Replay(first.Value(path), s.log, path))
    && (forall e :: e in s.log && e.DidWrite? ==> Justified(s, Write(e.path, e.contents)))
  }

  // ---------- Every step keeps it ----------

  /** What a step of a process with this phase must leave alone for the others to stay safe. */
  ghost predicate Kept(s: State, t: State, phase: Phase)
    requires s.disk.Valid() && t.disk.Valid()
  {
    var own := TemporaryOf(phase);
    && t.paths == s.paths && s.used <= t.used && s.calls <= t.calls
    && (forall e :: e in s.log ==> e in t.log)
    && (forall n :: n in s.disk.names && n in s.used && Some(n) != own ==>
          n in t.disk.names && t.disk.names[n] == s.disk.names[n] && t.disk.Contents(n) == s.disk.Contents(n))
    && (forall i :: i in s.disk.data ==>
          i in t.disk.data && (t.disk.data[i] == s.disk.data[i] || (phase.Writing? && i == phase.inode)))
    && (forall n :: n in t.disk.names && (n !in s.disk.names || s.disk.names[n] != t.disk.names[n]) ==>
          || t.disk.names[n] !in s.disk.data
          || (own.Some? && own.value in s.disk.names && t.disk.names[n] == s.disk.names[own.value]))
  }

  lemma PendingKept(s: State, t: State, writes: seq<Write>)
    requires t.paths == s.paths && s.calls <= t.calls && (forall e :: e in s.log ==> e in t.log)
    requires Pending(s, writes)
    ensures Pending(t, writes)
  {
    forall i | 0 <= i < |writes| ensures Justified(t, writes[i]) {
      assert Justified(s, writes[i]);
    }
  }

  lemma OtherPhaseKept(s: State, t: State, own: Phase, q: nat, phase: Phase)
    requires s.disk.Valid() && t.disk.Valid() && Kept(s, t, own)
    requires Apart(own, phase) && Apart(phase, own)
    requires PhaseSafe(s, q, phase)
    ensures PhaseSafe(t, q, phase)
  {
    match phase
    case Creating(writes) => PendingKept(s, t, writes);
    case Settling(writes) => PendingKept(s, t, writes);
    case Writing(writes, temporary, inode) =>
      PendingKept(s, t, writes);
      assert t.disk.Contents(temporary) == s.disk.Contents(temporary);
    case Renaming(writes, temporary) =>
      PendingKept(s, t, writes);
      assert t.disk.Contents(temporary) == s.disk.Contents(temporary);
    case _ =>
  }

  /** From a step of p that keeps the others, safety follows from p's own new phase. */
  lemma StepOfOne(s: State, t: State, p: nat)
    requires Safe(s) && t.disk.Valid() && Kept(s, t, s.Phase(p)) && t.used !! t.paths
    requires forall q :: q != p ==> t.Phase(q) == s.Phase(q)
    requires PhaseSafe(t, p, t.Phase(p))
    requires forall q :: q != p ==> Apart(t.Phase(p), s.Phase(q)) && Apart(s.Phase(q), t.Phase(p))
    requires forall r :: r in t.returned && r.Succeeded? ==> r in s.returned || r.effect in t.log
    ensures Safe(t)
  {
    forall q ensures PhaseSafe(t, q, t.Phase(q)) {
      if q != p {
        assert Apart(s.Phase(p), s.Phase(q)) && Apart(s.Phase(q), s.Phase(p));
        OtherPhaseKept(s, t, s.Phase(p), q, s.Phase(q));
      }
    }
    forall a, b | a != b ensures Apart(t.Phase(a), t.Phase(b)) {
      assert Apart(s.Phase(a), s.Phase(b));
    }
  }

  /** A step that touches no file: the new phase needs no more room than the old one had. */
  lemma QuietStep(s: State, t: State, p: nat)
    requires Safe(s) && t.disk == s.disk && t.used == s.used && t.paths == s.paths && s.calls <= t.calls
      && s.log <= t.log
    requires forall q :: q != p ==> t.Phase(q) == s.Phase(q)
    requires PhaseSafe(t, p, t.Phase(p))
    requires TemporaryOf(t.Phase(p)).None? || TemporaryOf(t.Phase(p)) == TemporaryOf(s.Phase(p))
    requires t.Phase(p).Writing? ==> t.Phase(p) == s.Phase(p)
    requires t.Phase(p).Reading? ==> forall q :: q != p && s.Phase(q).Writing? ==> s.Phase(q).inode != t.Phase(p).inode
    requires forall r :: r in t.returned && r.Succeeded? ==> r in s.returned || r.effect in t.log
    ensures Safe(t)
  {
    forall q | q != p ensures Apart(t.Phase(p), s.Phase(q)) && Apart(s.Phase(q), t.Phase(p)) {
      assert Apart(s.Phase(p), s.Phase(q)) && Apart(s.Phase(q), s.Phase(p));
    }
    StepOfOne(s, t, p);
  }

  lemma StepSafe(s: State, e: Event)
    requires Safe(s)
    ensures Safe(Step(s, e))
  {
    var phase := s.Phase(e.process);
    if phase.Idle? {
      CallSafe(s, e);
    } else if phase.Opening? {
      OpenSafe(s, e);
    } else if phase.Reading? {
      ReadSafe(s, e);
    } else if phase.Creating? {
      CreateSafe(s, e);
    } else if phase.Writing? {
      WriteSafe(s, e);
    } else if phase.Renaming? {
      RenameSafe(s, e);
    } else {
      FinishSafe(s, e);
    }
  }

  lemma CallSafe(s: State, e: Event)
    requires Safe(s) && s.Phase(e.process).Idle?
    ensures Safe(Step(s, e))
  {
    QuietStep(s, Step(s, e), e.process);
  }

  lemma OpenSafe(s: State, e: Event)
    requires Safe(s) && s.Phase(e.process).Opening?
    ensures Safe(Step(s, e))
  {
    var p, t := e.process, Step(s, e);
    var Opening(path, goal) := s.Phase(p);
    assert PhaseSafe(s, p, s.Phase(p));
    if e.action.Open? {
      assert Last(t.log) == DidRead(p, path, s.Value(path));
      forall q | q != p && s.Phase(q).Writing? && s.Value(path).Some? ensures s.Phase(q).inode != s.disk.names[path] {
        assert PhaseSafe(s, q, s.Phase(q));
      }
    }
    QuietStep(s, t, p);
  }

  lemma ReadSafe(s: State, e: Event)
    requires Safe(s) && s.Phase(e.process).Reading?
    ensures Safe(Step(s, e))
  {
    var p, t := e.process, Step(s, e);
    var Reading(path, goal, inode, got, expected) := s.Phase(p);
    assert PhaseSafe(s, p, s.Phase(p));
    assert |got| == |expected| ==> got == expected;
    forall q | q != p && s.Phase(q).Writing? ensures s.Phase(q).inode != inode {
      assert Apart(s.Phase(p), s.Phase(q));
    }
    QuietStep(s, t, p);
  }

  lemma CreateSafe(s: State, e: Event)
    requires Safe(s) && s.Phase(e.process).Creating?
    ensures Safe(Step(s, e))
  {
    var p, t := e.process, Step(s, e);
    assert PhaseSafe(s, p, s.Phase(p));
    if e.action.CreateTemporary? && t != s {
      PendingKept(s, t, s.Phase(p).writes);
      forall q | q != p ensures Apart(t.Phase(p), s.Phase(q)) && Apart(s.Phase(q), t.Phase(p)) {
        assert PhaseSafe(s, q, s.Phase(q));
      }
      StepOfOne(s, t, p);
    } else {
      QuietStep(s, t, p);
    }
  }

  lemma WriteSafe(s: State, e: Event)
    requires Safe(s) && s.Phase(e.process).Writing?
    ensures Safe(Step(s, e))
  {
    var p, t := e.process, Step(s, e);
    var Writing(writes, temporary, inode) := s.Phase(p);
    assert PhaseSafe(s, p, s.Phase(p));
    if e.action.WriteChunk? {
      assert writes[0].contents[..|s.disk.data[inode]|] == s.disk.data[inode];
      assert t.disk.data[inode] <= writes[0].contents;
      PendingKept(s, t, writes);
      forall q | q != p ensures Apart(t.Phase(p), s.Phase(q)) && Apart(s.Phase(q), t.Phase(p)) {
        assert Apart(s.Phase(p), s.Phase(q)) && Apart(s.Phase(q), s.Phase(p));
      }
      StepOfOne(s, t, p);
    } else {
      QuietStep(s, t, p);
    }
  }

  lemma RenameSafe(s: State, e: Event)
    requires Safe(s) && s.Phase(e.process).Renaming?
    ensures Safe(Step(s, e))
  {
    var p, t := e.process, Step(s, e);
    assert PhaseSafe(s, p, s.Phase(p));
    if e.action.RenameTemporary? {
      PendingKept(s, t, s.Phase(p).writes);
      StepOfOne(s, t, p);
    } else {
      QuietStep(s, t, p);
    }
  }

  lemma FinishSafe(s: State, e: Event)
    requires Safe(s)
    requires var phase := s.Phase(e.process);
             phase.Settling? || phase.Unlinking? || phase.Removing? || phase.Crashed?
    ensures Safe(Step(s, e))
  {
    match s.Phase(e.process)
    case Settling(_) => SettleSafe(s, e);
    case Unlinking(_) => UnlinkSafe(s, e);
    case Removing(_, _) => RemoveSafe(s, e);
    case _ =>
  }

  lemma SettleSafe(s: State, e: Event)
    requires Safe(s) && s.Phase(e.process).Settling?
    ensures Safe(Step(s, e))
  {
    assert PhaseSafe(s, e.process, s.Phase(e.process));
    QuietStep(s, Step(s, e), e.process);
  }

  lemma UnlinkSafe(s: State, e: Event)
    requires Safe(s) && s.Phase(e.process).Unlinking?
    ensures Safe(Step(s, e))
  {
    assert PhaseSafe(s, e.process, s.Phase(e.process));
    if e.action.Unlink? {
      StepOfOne(s, Step(s, e), e.process);
    } else {
      QuietStep(s, Step(s, e), e.process);
    }
  }

  lemma RemoveSafe(s: State, e: Event)
    requires Safe(s) && s.Phase(e.process).Removing?
    ensures Safe(Step(s, e))
  {
    assert PhaseSafe(s, e.process, s.Phase(e.process));
    if e.action.RemoveTemporary? {
      StepOfOne(s, Step(s, e), e.process);
    } else {
      QuietStep(s, Step(s, e), e.process);
    }
  }

  // ---------- Every step is an atomic effect or none ----------

  /** Nothing was logged and no path changed, or exactly one effect was logged and explains every path. */
  ghost predicate OneEffect(s: State, t: State, p: nat) {
    || (t.log == s.log && forall path :: path in s.paths ==> t.Value(path) == s.Value(path))
    || exists e :: t.log == s.log + [e] && EffectOf(s, t, p, e)
  }

  ghost predicate EffectOf(s: State, t: State, p: nat, e: Effect) {
    && e.process == p
    && (forall path :: path in s.paths ==> t.Value(path) == Applied(e, path, s.Value(path)))
    && (e.DidRead? ==> e.path in s.paths && e.value == s.Value(e.path))
    && (e.DidWrite? ==> Justified(s, Write(e.path, e.contents)))
  }

  /** A step changes what readers of a path would get only by the one effect it logs. */
  lemma {:induction false} StepEffect(s: State, e: Event)
    requires Safe(s)
    ensures OneEffect(s, Step(s, e), e.process)
    ensures Step(s, e).paths == s.paths && s.calls <= Step(s, e).calls
  {
    var phase := s.Phase(e.process);
    assert PhaseSafe(s, e.process, phase);
    if phase.Renaming? && e.action.RenameTemporary? {
      RenameEffect(s, e);
    } else if phase.Unlinking? && e.action.Unlink? {
      assert EffectOf(s, Step(s, e), e.process, DidDelete(e.process, phase.path));
    } else if phase.Opening? && e.action.Open? {
      assert EffectOf(s, Step(s, e), e.process, DidRead(e.process, phase.path, s.Value(phase.path)));
    } else {
      NoEffect(s, e);
    }
  }

  lemma RenameEffect(s: State, e: Event)
    requires Safe(s) && s.Phase(e.process).Renaming? && e.action.RenameTemporary?
    ensures OneEffect(s, Step(s, e), e.process)
  {
    var p, writes := e.process, s.Phase(e.process).writes;
    assert PhaseSafe(s, p, s.Phase(p));
    assert EffectOf(s, Step(s, e), p, DidWrite(p, writes[0].path, writes[0].contents));
  }

  /** Chunks, temporary names and modes are invisible under the callers' names. */
  lemma NoEffect(s: State, e: Event)
    requires Safe(s)
    requires !(s.Phase(e.process).Renaming? && e.action.RenameTemporary?)
    requires !(s.Phase(e.process).Unlinking? && e.action.Unlink?)
    requires !(s.Phase(e.process).Opening? && e.action.Open?)
    ensures var t := Step(s, e); t.log == s.log && forall path :: path in s.paths ==> t.Value(path) == s.Value(path)
  {
    assert PhaseSafe(s, e.process, s.Phase(e.process));
  }

  lemma {:induction false} ExplainedStep(first: State, s: State, e: Event)
    requires Safe(s) && Explained(first, s)
    ensures Explained(first, Step(s, e))
  {
    var t := Step(s, e);
    StepEffect(s, e);
    forall i | 0 <= i < |t.log| && t.log[i].DidRead?
      ensures t.log[i].value == Replay(first.Value(t.log[i].path), t.log[..i], t.log[i].path)
    {
      assert t.log[..i] == s.log[..i];
    }
    forall e' | e' in t.log && e'.DidWrite? ensures Justified(t, Write(e'.path, e'.contents)) {
      assert Justified(s, Write(e'.path, e'.contents));
    }
  }

  // ---------- Whole runs ----------

  ghost predicate Init(s: State) {
    s.disk.Valid() && s.phases == map[] && s.used == {} && s.calls == {} && s.log == [] && s.returned == []
  }

  ghost function SafeStep(s: State, e: Event): (t: State)
    requires Safe(s)
    ensures Safe(t) && t == Step(s, e)
  {
    StepSafe(s, e);
    Step(s, e)
  }

  /** The state after the events of any interleaving of any number of processes. */
  ghost function Run(s: State, events: seq<Event>): (t: State)
    requires Safe(s)
    ensures Safe(t)
  {
    if events == [] then s else SafeStep(Run(s, events[..|events| - 1]), Last(events))
  }

  /**
   In every run the disk behaves as one atomic register per path: each operation takes effect at one
   instant, every completed read returned the value its instant saw, and nothing torn is ever visible.
   */
  lemma {:induction false} Linearizable(s: State, events: seq<Event>)
    requires Init(s)
    ensures Explained(s, Run(s, events))
    ensures forall r :: r in Run(s, events).returned && r.Succeeded? ==> r.effect in Run(s, events).log
  {
    if events == [] {
    } else {
      Linearizable(s, events[..|events| - 1]);
      ExplainedStep(s, Run(s, events[..|events| - 1]), Last(events));
    }
  }

  /** A path shows its first contents, nothing, or the whole contents some write was justified to put there. */
  lemma {:induction false} NeverTorn(s: State, events: seq<Event>, path: string)
    requires Init(s) && path in s.paths
    ensures var t := Run(s, events);
      || t.Value(path) == s.Value(path)
      || t.Value(path) == None
      || Justified(t, Write(path, t.Value(path).value))
  {
    var t := Run(s, events);
    Linearizable(s, events);
    ReplayOrigin(s.Value(path), t.log, path);
  }

  lemma {:induction false} ReplayOrigin(start: Option<Bytes>, log: seq<Effect>, path: string)
    ensures var v := Replay(start, log, path);
      v == start || v == None || exists p :: DidWrite(p, path, v.value) in log
  {
    if log != [] {
      ReplayOrigin(start, log[..|log| - 1], path);
      var v := Replay(start, log, path);
      if v == Replay(start, log[..|log| - 1], path) {
        if v != start && v != None {
          var p :| DidWrite(p, path, v.value) in log[..|log| - 1];
          assert DidWrite(p, path, v.value) in log;
        }
      } else if v.Some? {
        assert Last(log) == DidWrite(Last(log).process, path, v.value);
      }
    }
  }

  // ---------- What a call does between its start and its end ----------

  predicate IsCall(a: Action) {
    a.CallWrite? || a.CallRead? || a.CallDelete?
  }

  predicate Admissible(s: State, call: Action) {
    IsCall(call) && call.path in s.paths && (call.CallWrite? && call.retainPrevious ==> Previous(call.path) in s.paths)
  }

  /** All that a successful call does, in order. A write that retains copies what it read, if there was anything. */
  predicate IsPlan(p: nat, call: Action, plan: seq<Effect>) {
    match call
    case CallRead(path) => |plan| == 1 && plan[0].DidRead? && plan[0] == DidRead(p, path, plan[0].value)
    case CallDelete(path) => plan == [DidDelete(p, path)]
    case CallWrite(path, contents, false) => plan == [DidWrite(p, path, contents)]
    case CallWrite(path, contents, true) =>
      || plan == [DidRead(p, path, None), DidWrite(p, path, contents)]
      || (|plan| == 3 && plan[0].DidRead? && plan[0].value.Some?
          && plan == [
               DidRead(p, path, plan[0].value),
               DidWrite(p, Previous(path), plan[0].value.value),
               DidWrite(p, path, contents)])
    case _ => false
  }

  function Effects(p: nat, writes: seq<Write>): (effects: seq<Effect>)
    ensures |effects| == |writes|
  {
    seq(|writes|, i requires 0 <= i < |writes| => DidWrite(p, writes[i].path, writes[i].contents))
  }

  /** The effects of one process among those of all. */
  function Own(log: seq<Effect>, p: nat): seq<Effect> {
    if log == [] then []
    else Own(log[..|log| - 1], p) + if Last(log).process == p then [Last(log)] else []
  }

  function OwnReturns(returned: seq<Return>, p: nat): seq<Return> {
    if returned == [] then []
    else OwnReturns(returned[..|returned| - 1], p) + if Last(returned).By() == p then [Last(returned)] else []
  }

  ghost predicate PartOfPlan(p: nat, call: Action, own: seq<Effect>) {
    exists plan :: IsPlan(p, call, plan) && own <= plan
  }

  /** A call that succeeded did all of its plan and reports the last effect; one that failed did part of it. */
  ghost predicate Ended(p: nat, call: Action, own: seq<Effect>, results: seq<Return>) {
    && PartOfPlan(p, call, own)
    && |results| == 1
    && (results == [Failed(p)] || (IsPlan(p, call, own) && results == [Succeeded(Last(own))]))
  }

  predicate OpensFor(call: Action, path: string, goal: Goal) {
    match goal
    case Report => call == CallRead(path)
    case Retain(contents) => call == CallWrite(path, contents, true)
  }

  /** How far p has come with its call, when it has had these effects and returned these results since. */
  ghost predicate InCall(phase: Phase, p: nat, call: Action, own: seq<Effect>, results: seq<Return>) {
    match phase
    case Opening(path, goal) => results == [] && own == [] && OpensFor(call, path, goal)
    case Reading(path, goal, _, _, expected) =>
      results == [] && own == [DidRead(p, path, Some(expected))] && OpensFor(call, path, goal)
    case Creating(writes) => results == [] && IsPlan(p, call, own + Effects(p, writes))
    case Writing(writes, _, _) => results == [] && IsPlan(p, call, own + Effects(p, writes))
    case Renaming(writes, _) => results == [] && IsPlan(p, call, own + Effects(p, writes))
    case Removing(writes, _) => results == [] && writes != [] && IsPlan(p, call, own + Effects(p, writes))
    case Settling(writes) =>
      && results == [] && writes != [] && IsPlan(p, call, own + Effects(p, writes[1..]))
      && own != [] && Last(own) == DidWrite(p, writes[0].path, writes[0].contents)
    case Unlinking(path) => results == [] && own == [] && call == CallDelete(path)
    case Idle => Ended(p, call, own, results)
    case Crashed => PartOfPlan(p, call, own) && (results == [] || Ended(p, call, own, results))
  }

  lemma InCallIsPart(phase: Phase, p: nat, call: Action, own: seq<Effect>, results: seq<Return>)
    requires IsCall(call) && InCall(phase, p, call, own, results)
    ensures PartOfPlan(p, call, own)
  {
    match phase
    case Opening(path, goal) =>
      if goal.Report? {
        assert IsPlan(p, call, [DidRead(p, path, None)]);
      } else {
        assert IsPlan(p, call, [DidRead(p, path, None), DidWrite(p, path, goal.contents)]);
      }
    case Reading(path, goal, _, _, expected) =>
      if goal.Report? {
        assert IsPlan(p, call, own);
      } else {
        assert IsPlan(p, call, own + [DidWrite(p, Previous(path), expected), DidWrite(p, path, goal.contents)]);
      }
    case Creating(writes) => assert own <= own + Effects(p, writes);
    case Writing(writes, _, _) => assert own <= own + Effects(p, writes);
    case Renaming(writes, _) => assert own <= own + Effects(p, writes);
    case Removing(writes, _) => assert own <= own + Effects(p, writes);
    case Settling(writes) => assert own <= own + Effects(p, writes[1..]);
    case Unlinking(path) => assert IsPlan(p, call, [DidDelete(p, path)]);
    case _ =>
  }

  /** The phases of the other processes stay, and the results grow at most by one of this process. */
  ghost predicate OnlyOwn(s: State, t: State, p: nat) {
    && (forall q :: q != p ==> t.Phase(q) == s.Phase(q))
    && (t.returned == s.returned
        || (|t.returned| == |s.returned| + 1 && s.returned <= t.returned && Last(t.returned).By() == p))
  }

  lemma {:induction false} StepIsOwn(s: State, e: Event)
    requires Safe(s)
    ensures OnlyOwn(s, Step(s, e), e.process)
  {
    var phase := s.Phase(e.process);
    if phase.Idle? || phase.Crashed? || e.action.Crash? {
      CallIsOwn(s, e);
    } else if phase.Opening? || phase.Reading? {
      ReadIsOwn(s, e);
    } else if phase.Creating? || phase.Writing? {
      FillIsOwn(s, e);
    } else {
      FinishIsOwn(s, e);
    }
  }

  lemma {:induction false} CallIsOwn(s: State, e: Event)
    requires Safe(s) && (s.Phase(e.process).Idle? || s.Phase(e.process).Crashed? || e.action.Crash?)
    ensures OnlyOwn(s, Step(s, e), e.process)
  {
  }

  lemma {:induction false} ReadIsOwn(s: State, e: Event)
    requires Safe(s) && (s.Phase(e.process).Opening? || s.Phase(e.process).Reading?)
    ensures OnlyOwn(s, Step(s, e), e.process)
  {
  }

  lemma {:induction false} FillIsOwn(s: State, e: Event)
    requires Safe(s) && (s.Phase(e.process).Creating? || s.Phase(e.process).Writing?)
    ensures OnlyOwn(s, Step(s, e), e.process)
  {
  }

  lemma {:induction false} FinishIsOwn(s: State, e: Event)
    requires Safe(s)
    requires var phase := s.Phase(e.process);
      phase.Renaming? || phase.Settling? || phase.Unlinking? || phase.Removing?
    ensures OnlyOwn(s, Step(s, e), e.process)
  {
  }

  lemma {:induction false} OthersStay(s: State, e: Event, q: nat)
    requires Safe(s) && q != e.process
    ensures Step(s, e).Phase(q) == s.Phase(q)
  {
    StepIsOwn(s, e);
  }

  /** The only result a step can add is one of its own process. */
  lemma {:induction false} StepReturns(s: State, e: Event)
    requires Safe(s)
    ensures var t := Step(s, e);
      t.returned == s.returned || exists r: Return :: r.By() == e.process && t.returned == s.returned + [r]
  {
    var t := Step(s, e);
    StepIsOwn(s, e);
    assert t.returned != s.returned ==>
      t.returned == s.returned + [Last(t.returned)] && Last(t.returned).By() == e.process;
  }

  /** A step adds at most one effect and one result, both of its own process. */
  lemma {:induction false} StepAdds(s: State, e: Event)
    requires Safe(s)
    ensures var t := Step(s, e);
      && s.log <= t.log && |t.log| <= |s.log| + 1 && (t.log != s.log ==> Last(t.log).process == e.process)
      && s.returned <= t.returned && |t.returned| <= |s.returned| + 1
      && (t.returned != s.returned ==> Last(t.returned).By() == e.process)
  {
    StepEffect(s, e);
    StepReturns(s, e);
  }

  /** The process itself goes on with its call. */
  lemma {:induction false} OwnStep(s: State, e: Event, call: Action, own: seq<Effect>, results: seq<Return>)
    requires Safe(s) && IsCall(call) && InCall(s.Phase(e.process), e.process, call, own, results) && !IsCall(e.action)
    ensures var t := Step(s, e);
      s.log <= t.log && s.returned <= t.returned
      && InCall(t.Phase(e.process), e.process, call, own + t.log[|s.log|..], results + t.returned[|s.returned|..])
  {
    var p, phase, t := e.process, s.Phase(e.process), Step(s, e);
    StepAdds(s, e);
    assert own + [] == own && results + [] == results;
    if e.action.Crash? {
      InCallIsPart(s.Phase(p), p, call, own, results);
    } else if phase.Opening? {
      OpenStep(s, e, call, own, results);
    } else if phase.Reading? {
      ReadStep(s, e, call, own, results);
    } else if phase.Creating? || phase.Writing? || phase.Renaming? || phase.Removing? {
      WriteStep(s, e, call, own, results);
    } else if phase.Settling? {
      SettleStep(s, e, call, own, results);
    } else if phase.Unlinking? {
      InCallIsPart(s.Phase(p), p, call, own, results);
      if e.action.Unlink? {
        assert own + t.log[|s.log|..] == [DidDelete(p, phase.path)];
        assert IsPlan(p, call, [DidDelete(p, phase.path)]);
      }
    }
  }

  lemma {:induction false} OpenStep(s: State, e: Event, call: Action, own: seq<Effect>, results: seq<Return>)
    requires Safe(s) && IsCall(call) && InCall(s.Phase(e.process), e.process, call, own, results)
    requires !IsCall(e.action) && !e.action.Crash? && s.Phase(e.process).Opening?
    requires s.log <= Step(s, e).log && s.returned <= Step(s, e).returned
    ensures var t := Step(s, e);
      InCall(t.Phase(e.process), e.process, call, own + t.log[|s.log|..], results + t.returned[|s.returned|..])
  {
    var p, phase, t := e.process, s.Phase(e.process), Step(s, e);
    InCallIsPart(phase, p, call, own, results);
    assert own + [] == own && results + [] == results;
    if e.action.Open? {
      var read := DidRead(p, phase.path, s.Value(phase.path));
      assert own + t.log[|s.log|..] == [read];
      if s.Value(phase.path).None? {
        if phase.goal.Report? {
          assert IsPlan(p, call, [read]);
        } else {
          assert [read] + Effects(p, [Write(phase.path, phase.goal.contents)])
            == [read, DidWrite(p, phase.path, phase.goal.contents)];
        }
      }
    }
  }

  lemma {:induction false} ReadStep(s: State, e: Event, call: Action, own: seq<Effect>, results: seq<Return>)
    requires Safe(s) && IsCall(call) && InCall(s.Phase(e.process), e.process, call, own, results)
    requires !IsCall(e.action) && !e.action.Crash? && s.Phase(e.process).Reading?
    requires s.log <= Step(s, e).log && s.returned <= Step(s, e).returned
    ensures var t := Step(s, e);
      InCall(t.Phase(e.process), e.process, call, own + t.log[|s.log|..], results + t.returned[|s.returned|..])
  {
    var p, phase, t := e.process, s.Phase(e.process), Step(s, e);
    assert PhaseSafe(s, p, phase);
    InCallIsPart(phase, p, call, own, results);
    assert own + [] == own && results + [] == results;
    if e.action.EndOfFile? && |phase.got| == |phase.expected| {
      assert phase.got == phase.expected;
      if phase.goal.Retain? {
        assert own + Effects(p, [Write(Previous(phase.path), phase.got), Write(phase.path, phase.goal.contents)])
            == [own[0], DidWrite(p, Previous(phase.path), phase.got), DidWrite(p, phase.path, phase.goal.contents)];
      }
    }
  }

  lemma {:induction false} WriteStep(s: State, e: Event, call: Action, own: seq<Effect>, results: seq<Return>)
    requires Safe(s) && IsCall(call) && InCall(s.Phase(e.process), e.process, call, own, results)
    requires !IsCall(e.action) && !e.action.Crash?
    requires var phase := s.Phase(e.process); phase.Creating? || phase.Writing? || phase.Renaming? || phase.Removing?
    requires s.log <= Step(s, e).log && s.returned <= Step(s, e).returned
    ensures var t := Step(s, e);
      InCall(t.Phase(e.process), e.process, call, own + t.log[|s.log|..], results + t.returned[|s.returned|..])
  {
    if s.Phase(e.process).Renaming? && e.action.RenameTemporary? {
      RenameStep(s, e, call, own, results);
    } else {
      assert PhaseSafe(s, e.process, s.Phase(e.process));
      InCallIsPart(s.Phase(e.process), e.process, call, own, results);
      assert own + [] == own && results + [] == results;
    }
  }

  lemma {:induction false} RenameStep(s: State, e: Event, call: Action, own: seq<Effect>, results: seq<Return>)
    requires Safe(s) && IsCall(call) && InCall(s.Phase(e.process), e.process, call, own, results)
    requires s.Phase(e.process).Renaming? && e.action.RenameTemporary?
    requires s.log <= Step(s, e).log && s.returned <= Step(s, e).returned
    ensures var t := Step(s, e);
      InCall(t.Phase(e.process), e.process, call, own + t.log[|s.log|..], results + t.returned[|s.returned|..])
  {
    var p, writes, t := e.process, s.Phase(e.process).writes, Step(s, e);
    assert PhaseSafe(s, p, s.Phase(p));
    assert results + t.returned[|s.returned|..] == results;
    var did := DidWrite(p, writes[0].path, writes[0].contents);
    assert own + t.log[|s.log|..] == own + [did];
    assert own + [did] + Effects(p, writes[1..]) == own + Effects(p, writes);
  }

  lemma {:induction false} SettleStep(s: State, e: Event, call: Action, own: seq<Effect>, results: seq<Return>)
    requires Safe(s) && IsCall(call) && InCall(s.Phase(e.process), e.process, call, own, results)
    requires !IsCall(e.action) && !e.action.Crash?
    requires s.Phase(e.process).Settling?
    requires s.log <= Step(s, e).log && s.returned <= Step(s, e).returned
    ensures var t := Step(s, e);
      InCall(t.Phase(e.process), e.process, call, own + t.log[|s.log|..], results + t.returned[|s.returned|..])
  {
    var p, phase := e.process, s.Phase(e.process);
    assert PartOfPlan(p, call, own);
    assert own + [] == own && results + [] == results;
    assert |phase.writes| == 1 ==> Effects(p, phase.writes[1..]) == [];
  }

  lemma {:induction false} OwnSince(log: seq<Effect>, more: seq<Effect>, from: nat, p: nat)
    requires from <= |log| && |more| <= 1
    ensures Own((log + more)[from..], p)
         == Own(log[from..], p) + if more != [] && more[0].process == p then more else []
  {
    var tail := (log + more)[from..];
    if more == [] {
      assert tail == log[from..];
    } else {
      assert tail == log[from..] + more && tail[..|tail| - 1] == log[from..];
    }
  }

  lemma {:induction false} ReturnsSince(returned: seq<Return>, more: seq<Return>, from: nat, p: nat)
    requires from <= |returned| && |more| <= 1
    ensures OwnReturns((returned + more)[from..], p)
      == OwnReturns(returned[from..], p) + if more != [] && more[0].By() == p then more else []
  {
    var tail := (returned + more)[from..];
    if more == [] {
      assert tail == returned[from..];
    } else {
      assert tail == returned[from..] + more && tail[..|tail| - 1] == returned[from..];
    }
  }

  ghost predicate NoNewCall(events: seq<Event>, p: nat) {
    forall k :: 0 <= k < |events| && events[k].process == p ==> !IsCall(events[k].action)
  }

  /** What p has done and returned since the log and the results had these lengths. */
  ghost predicate CallRuns(t: State, p: nat, call: Action, from: nat, n: nat) {
    && from <= |t.log| && n <= |t.returned|
    && InCall(t.Phase(p), p, call, Own(t.log[from..], p), OwnReturns(t.returned[n..], p))
  }

  /** A log with at most one effect more, of process q. */
  lemma {:induction false} OwnExtends(log: seq<Effect>, longer: seq<Effect>, from: nat, p: nat, q: nat)
    requires from <= |log| && log <= longer && |longer| <= |log| + 1 && (longer != log ==> Last(longer).process == q)
    ensures Own(longer[from..], p) == if p == q then Own(log[from..], p) + longer[|log|..] else Own(log[from..], p)
  {
    var more := longer[|log|..];
    assert longer == log + more;
    assert more != [] ==> more[0].process == q;
    OwnSince(log, more, from, p);
    assert Own(log[from..], p) + [] == Own(log[from..], p);
  }

  lemma {:induction false} ResultsExtend(returned: seq<Return>, longer: seq<Return>, n: nat, p: nat, q: nat)
    requires n <= |returned| && returned <= longer && |longer| <= |returned| + 1
    requires longer != returned ==> Last(longer).By() == q
    ensures OwnReturns(longer[n..], p)
      == if p == q then OwnReturns(returned[n..], p) + longer[|returned|..] else OwnReturns(returned[n..], p)
  {
    var more := longer[|returned|..];
    assert longer == returned + more;
    assert more != [] ==> more[0].By() == q;
    ReturnsSince(returned, more, n, p);
    assert OwnReturns(returned[n..], p) + [] == OwnReturns(returned[n..], p);
  }

  lemma {:induction false} CallStep(s: State, e: Event, p: nat, call: Action, from: nat, n: nat)
    requires Safe(s) && IsCall(call) && CallRuns(s, p, call, from, n) && (e.process == p ==> !IsCall(e.action))
    ensures CallRuns(Step(s, e), p, call, from, n)
  {
    StepAdds(s, e);
    OwnExtends(s.log, Step(s, e).log, from, p, e.process);
    ResultsExtend(s.returned, Step(s, e).returned, n, p, e.process);
    if e.process == p {
      OwnStep(s, e, call, Own(s.log[from..], p), OwnReturns(s.returned[n..], p));
    } else {
      OthersStay(s, e, p);
    }
  }

  lemma {:induction false} CallRun(s: State, events: seq<Event>, p: nat, call: Action, from: nat, n: nat)
    requires Safe(s) && IsCall(call) && CallRuns(s, p, call, from, n) && NoNewCall(events, p)
    ensures CallRuns(Run(s, events), p, call, from, n)
  {
    if events != [] {
      CallRun(s, events[..|events| - 1], p, call, from, n);
      CallStep(Run(s, events[..|events| - 1]), Last(events), p, call, from, n);
    }
  }

  lemma {:induction false} CallBegins(s: State, p: nat, call: Action)
    requires Safe(s) && s.Phase(p).Idle? && Admissible(s, call)
    ensures CallRuns(SafeStep(s, Event(p, call)), p, call, |s.log|, |s.returned|)
  {
    if call.CallWrite? && !call.retainPrevious {
      assert [] + Effects(p, [Write(call.path, call.contents)]) == [DidWrite(p, call.path, call.contents)];
    }
  }

  /** What p has done and returned between the states: a part of the plan, and all of it before a success. */
  ghost predicate CallOutcome(s: State, t: State, p: nat, call: Action) {
    && |s.log| <= |t.log| && |s.returned| <= |t.returned|
    && PartOfPlan(p, call, Own(t.log[|s.log|..], p))
    && var results := OwnReturns(t.returned[|s.returned|..], p);
       results == [] || Ended(p, call, Own(t.log[|s.log|..], p), results)
  }

  /**
   Whatever happens after a call began, its process does the effects of the call's plan in order, each at
   most once. If it results a success it has done them all by then, and reports the last one. So a write
   or a delete that succeeds took effect between its call and its return.
   */
  lemma {:induction false} CallTakesEffect(s: State, p: nat, call: Action, events: seq<Event>)
    requires Safe(s) && s.Phase(p).Idle? && Admissible(s, call) && NoNewCall(events, p)
    ensures CallOutcome(s, Run(SafeStep(s, Event(p, call)), events), p, call)
  {
    CallBegins(s, p, call);
    CallRun(SafeStep(s, Event(p, call)), events, p, call, |s.log|, |s.returned|);
    var t := Run(SafeStep(s, Event(p, call)), events);
    InCallIsPart(t.Phase(p), p, call, Own(t.log[|s.log|..], p), OwnReturns(t.returned[|s.returned|..], p));
  }

  // ---------- A call fails exactly if one of its operations does ----------

  ghost predicate Met(events: seq<Event>, p: nat) {
    exists k :: 0 <= k < |events| && events[k] == Event(p, Fail)
  }

  /** Only a process that removes its temporary file has met an error and not yet reported it. */
  predicate Bears(phase: Phase, met: bool) {
    match phase
    case Removing(_, _) => met
    case Idle => true
    case Crashed => true
    case _ => !met
  }

  lemma {:induction false} MetSnoc(events: seq<Event>, e: Event, p: nat)
    ensures Met(events + [e], p) <==> Met(events, p) || e == Event(p, Fail)
  {
    var all := events + [e];
    assert all[|events|] == e;
    if k :| 0 <= k < |events| && events[k] == Event(p, Fail) {
      assert all[k] == events[k];
    }
  }

  lemma {:induction false} StepBears(s: State, e: Event, met: bool)
    requires Safe(s) && !IsCall(e.action) && Bears(s.Phase(e.process), met)
    ensures var t := Step(s, e);
      && Bears(t.Phase(e.process), met || e.action == Fail)
      && (t.returned != s.returned ==> (Last(t.returned) == Failed(e.process) <==> met || e.action == Fail))
  {
    var phase := s.Phase(e.process);
    if phase.Opening? || phase.Reading? {
      ReadBears(s, e, met);
    } else if phase.Creating? || phase.Writing? {
      FillBears(s, e, met);
    } else {
      EndBears(s, e, met);
    }
  }

  lemma {:induction false} ReadBears(s: State, e: Event, met: bool)
    requires Safe(s) && !IsCall(e.action) && Bears(s.Phase(e.process), met)
    requires s.Phase(e.process).Opening? || s.Phase(e.process).Reading?
    ensures var t := Step(s, e);
      && Bears(t.Phase(e.process), met || e.action == Fail)
      && (t.returned != s.returned ==> (Last(t.returned) == Failed(e.process) <==> met || e.action == Fail))
  {
  }

  lemma {:induction false} FillBears(s: State, e: Event, met: bool)
    requires Safe(s) && !IsCall(e.action) && Bears(s.Phase(e.process), met)
    requires s.Phase(e.process).Creating? || s.Phase(e.process).Writing?
    ensures var t := Step(s, e);
      && Bears(t.Phase(e.process), met || e.action == Fail)
      && (t.returned != s.returned ==> (Last(t.returned) == Failed(e.process) <==> met || e.action == Fail))
  {
  }

  lemma {:induction false} EndBears(s: State, e: Event, met: bool)
    requires Safe(s) && !IsCall(e.action) && Bears(s.Phase(e.process), met)
    requires var phase := s.Phase(e.process);
      !phase.Opening? && !phase.Reading? && !phase.Creating? && !phase.Writing?
    ensures var t := Step(s, e);
      && Bears(t.Phase(e.process), met || e.action == Fail)
      && (t.returned != s.returned ==> (Last(t.returned) == Failed(e.process) <==> met || e.action == Fail))
  {
  }

  lemma {:induction false} RunBears(s: State, events: seq<Event>, p: nat)
    requires Safe(s) && Bears(s.Phase(p), false) && NoNewCall(events, p)
    ensures Bears(Run(s, events).Phase(p), Met(events, p))
  {
    if events != [] {
      var init, e := events[..|events| - 1], Last(events);
      assert events == init + [e];
      RunBears(s, init, p);
      MetSnoc(init, e, p);
      if e.process == p {
        StepBears(Run(s, init), e, Met(init, p));
      } else {
        OthersStay(Run(s, init), e, p);
      }
    }
  }

  /** The one result added: an error if p has met one, else the last effect of a plan that is done. */
  ghost predicate EndsRightly(t: State, v: State, p: nat, call: Action, from: nat, met: bool) {
    && from <= |v.log| && v.Phase(p) == Idle
    && (met ==> v.returned == t.returned + [Failed(p)])
    && (!met ==>
          var own := Own(v.log[from..], p);
          IsPlan(p, call, own) && own != [] && v.returned == t.returned + [Succeeded(Last(own))])
  }

  /**
   In every interleaving, the step of p that ends its call reports an error exactly if one of the call's own
   operations failed. Otherwise all of its plan is done, and it reports the last effect. A call ends once.
   */
  lemma {:induction false} CallEndsRightly(s: State, call: Action, events: seq<Event>, e: Event)
    requires Safe(s) && s.Phase(e.process).Idle? && Admissible(s, call)
    requires NoNewCall(events, e.process) && !IsCall(e.action)
    ensures var t := Run(SafeStep(s, Event(e.process, call)), events);
      var v := SafeStep(t, e);
      v.returned == t.returned
      || (|t.returned| >= |s.returned| && OwnReturns(t.returned[|s.returned|..], e.process) == []
          && EndsRightly(t, v, e.process, call, |s.log|, Met(events + [e], e.process)))
  {
    var p, u := e.process, SafeStep(s, Event(e.process, call));
    var t := Run(u, events);
    CallBegins(s, p, call);
    CallRun(u, events, p, call, |s.log|, |s.returned|);
    RunBears(u, events, p);
    MetSnoc(events, e, p);
    if SafeStep(t, e).returned != t.returned {
      ResultIsRight(t, e, call, |s.log|, |s.returned|, Met(events, p));
    }
  }

  lemma {:induction false} ResultIsRight(t: State, e: Event, call: Action, from: nat, n: nat, met: bool)
    requires Safe(t) && IsCall(call) && !IsCall(e.action) && CallRuns(t, e.process, call, from, n)
    requires Bears(t.Phase(e.process), met) && Step(t, e).returned != t.returned
    ensures OwnReturns(t.returned[n..], e.process) == []
    ensures EndsRightly(t, SafeStep(t, e), e.process, call, from, met || e.action == Fail)
  {
    var p, v := e.process, SafeStep(t, e);
    CallStep(t, e, p, call, from, n);
    EndsIdle(t, e);
    StepBears(t, e, met);
    var r := ResultAdded(t, e, n);
    OneResult(p, call, Own(v.log[from..], p), OwnReturns(t.returned[n..], p), r, met || e.action == Fail);
  }

  lemma {:induction false} ResultAdded(t: State, e: Event, n: nat) returns (r: Return)
    requires Safe(t) && n <= |t.returned| && Step(t, e).returned != t.returned
    ensures var v := Step(t, e);
      && v.returned == t.returned + [r] && n <= |v.returned|
      && OwnReturns(v.returned[n..], e.process) == OwnReturns(t.returned[n..], e.process) + [r]
  {
    var v := Step(t, e);
    StepAdds(t, e);
    ResultsExtend(t.returned, v.returned, n, e.process, e.process);
    r := Last(v.returned);
    assert v.returned == t.returned + [r] && v.returned[|t.returned|..] == [r];
  }

  lemma {:induction false} OneResult(
    p: nat, call: Action, own: seq<Effect>, before: seq<Return>, r: Return, met: bool)
    requires Ended(p, call, own, before + [r]) && (r == Failed(p) <==> met)
    ensures before == []
    ensures !met ==> IsPlan(p, call, own) && own != [] && r == Succeeded(Last(own))
  {
    assert |before + [r]| == 1;
    assert before + [r] == [r];
    if !met {
      assert (before + [r])[0] == Succeeded(Last(own));
    }
  }

  lemma {:induction false} EndsIdle(t: State, e: Event)
    requires Safe(t) && Step(t, e).returned != t.returned
    ensures Step(t, e).Phase(e.process).Idle? && !t.Phase(e.process).Idle? && !t.Phase(e.process).Crashed?
  {
    var phase := t.Phase(e.process);
    if phase.Opening? || phase.Reading? {
      ReadEndsIdle(t, e);
    }
  }

  lemma {:induction false} ReadEndsIdle(t: State, e: Event)
    requires Safe(t) && Step(t, e).returned != t.returned
    requires t.Phase(e.process).Opening? || t.Phase(e.process).Reading?
    ensures Step(t, e).Phase(e.process).Idle?
  {
  }

  // ---------- A call can always be ended ----------

  /** An upper bound for the steps that p still has to take. */
  function Rank(s: State, p: nat): nat {
    match s.Phase(p)
    case Opening(_, goal) => if goal.Report? then 3 else 11
    case Reading(_, goal, _, got, expected) =>
      (if goal.Report? then 1 else 9) + (if got == expected then 0 else 1)
    case Creating(writes) => 4 * |writes|
    case Writing(writes, _, _) => if writes == [] then 0 else 4 * |writes| - 1
    case Renaming(writes, _) => if writes == [] then 0 else 4 * |writes| - 2
    case Settling(writes) => if writes == [] then 0 else 4 * |writes| - 3
    case Unlinking(_) => 1
    case Removing(_, _) => 1
    case _ => 0
  }

  predicate Passes(a: Action) {
    !IsCall(a) && a != Fail && a != Crash
  }

  ghost predicate Nearer(s: State, t: State, p: nat) {
    if t.Phase(p).Idle? then |t.returned| == |s.returned| + 1 && Last(t.returned).By() == p
    else !t.Phase(p).Crashed? && t.returned == s.returned && Rank(t, p) < Rank(s, p)
  }

  /** Whatever the others have done, p can take a step that does not fail and brings its call nearer to its end. */
  lemma {:induction false} NextMove(s: State, p: nat) returns (a: Action)
    requires Safe(s) && !s.Phase(p).Idle? && !s.Phase(p).Crashed?
    ensures Passes(a) && Nearer(s, Step(s, Event(p, a)), p)
  {
    match s.Phase(p)
    case Opening(_, _) => a := Open;
    case Reading(_, _, _, _, _) => a := NextRead(s, p);
    case Creating(_) => a := NextCreate(s, p);
    case Writing(_, _, _) => a := NextWrite(s, p);
    case Renaming(_, _) => a := NextRename(s, p);
    case Settling(writes) =>
      assert PhaseSafe(s, p, s.Phase(p));
      a := SetMode;
    case Unlinking(_) => a := Unlink;
    case Removing(_, _) => a := RemoveTemporary(true);
  }

  lemma {:induction false} NextRead(s: State, p: nat) returns (a: Action)
    requires Safe(s) && s.Phase(p).Reading?
    ensures Passes(a) && Nearer(s, Step(s, Event(p, a)), p)
  {
    var Reading(path, goal, inode, got, expected) := s.Phase(p);
    assert PhaseSafe(s, p, s.Phase(p));
    if |got| == |expected| {
      assert got == expected;
      a := EndOfFile;
    } else {
      a := ReadChunk(|expected| - |got|);
      assert expected[..|expected|] == expected;
    }
  }

  lemma {:induction false} NextCreate(s: State, p: nat) returns (a: Action)
    requires Safe(s) && s.Phase(p).Creating?
    ensures Passes(a) && Nearer(s, Step(s, Event(p, a)), p)
  {
    assert PhaseSafe(s, p, s.Phase(p));
    var name := UnusedName(s.used + s.paths + s.disk.names.Keys);
    var inode := UnusedInode(s.disk.data.Keys);
    assert inode !in s.disk.data.Keys;
    a := CreateTemporary(name, inode);
  }

  lemma {:induction false} NextWrite(s: State, p: nat) returns (a: Action)
    requires Safe(s) && s.Phase(p).Writing?
    ensures Passes(a) && Nearer(s, Step(s, Event(p, a)), p)
  {
    assert PhaseSafe(s, p, s.Phase(p));
    a := WriteChunk(|s.Phase(p).writes[0].contents|);
  }

  lemma {:induction false} NextRename(s: State, p: nat) returns (a: Action)
    requires Safe(s) && s.Phase(p).Renaming?
    ensures Passes(a) && Nearer(s, Step(s, Event(p, a)), p)
  {
    assert PhaseSafe(s, p, s.Phase(p));
    a := RenameTemporary;
  }

  /**
   No call is ever stuck: from any state of any run, and whatever the other processes are in the middle of,
   p alone can bring its call to its end, without a further failure.
   */
  lemma {:induction false} CallCanEnd(s: State, p: nat) returns (events: seq<Event>)
    requires Safe(s) && !s.Phase(p).Idle? && !s.Phase(p).Crashed?
    ensures forall e :: e in events ==> e.process == p && Passes(e.action)
    ensures var t := Run(s, events);
      t.Phase(p).Idle? && |t.returned| == |s.returned| + 1 && Last(t.returned).By() == p
    decreases Rank(s, p)
  {
    var a := NextMove(s, p);
    var e := Event(p, a);
    var t := SafeStep(s, e);
    RunOne(s, e);
    if t.Phase(p).Idle? {
      events := [e];
    } else {
      var rest := CallCanEnd(t, p);
      events := [e] + rest;
      RunConcat(s, [e], rest);
    }
  }

  /** No proper part of a plan is a plan. */
  lemma PlansEnd(p: nat, call: Action, own: seq<Effect>, rest: seq<Effect>)
    requires IsPlan(p, call, own) && IsPlan(p, call, own + rest)
    ensures rest == []
  {
    assert own != [] && (own + rest)[0] == own[0];
  }

  /** p fails by this step: its call has done all the same if only the last mode change or the reading failed. */
  predicate FailsLate(t: State, p: nat) {
    match t.Phase(p)
    case Settling(writes) => |writes| == 1
    case Reading(_, goal, _, _, _) => goal.Report?
    case _ => false
  }

  /**
   A call that fails has done its whole plan all the same if and only if the last mode change failed after
   the new contents were in place, or a read failed after its file was open.
   */
  lemma {:induction false} FailedButDone(s: State, p: nat, call: Action, events: seq<Event>, e: Event)
    requires Safe(s) && s.Phase(p).Idle? && Admissible(s, call) && NoNewCall(events, p)
    requires e.process == p && !IsCall(e.action)
    ensures var t := Run(SafeStep(s, Event(p, call)), events);
      |s.log| <= |t.log| &&
      (SafeStep(t, e).returned == t.returned + [Failed(p)] ==>
         SafeStep(t, e).log == t.log && (IsPlan(p, call, Own(t.log[|s.log|..], p)) <==> FailsLate(t, p)))
  {
    CallBegins(s, p, call);
    CallRun(SafeStep(s, Event(p, call)), events, p, call, |s.log|, |s.returned|);
    var t := Run(SafeStep(s, Event(p, call)), events);
    if SafeStep(t, e).returned == t.returned + [Failed(p)] {
      FailedPhase(t, e, call, Own(t.log[|s.log|..], p), OwnReturns(t.returned[|s.returned|..], p));
    }
  }

  lemma {:induction false} FailedPhase(t: State, e: Event, call: Action, own: seq<Effect>, results: seq<Return>)
    requires Safe(t) && IsCall(call) && InCall(t.Phase(e.process), e.process, call, own, results) && !IsCall(e.action)
    requires Step(t, e).returned == t.returned + [Failed(e.process)]
    ensures Step(t, e).log == t.log
    ensures IsPlan(e.process, call, own) <==> FailsLate(t, e.process)
  {
    var p, phase := e.process, t.Phase(e.process);
    assert PhaseSafe(t, p, phase);
    OnlyFailures(t, e);
    if phase.Settling? && |phase.writes| == 1 {
      assert own + Effects(p, phase.writes[1..]) == own;
    } else if IsPlan(p, call, own) {
      if phase.Settling? {
        PlansEnd(p, call, own, Effects(p, phase.writes[1..]));
      } else if phase.Creating? || phase.Removing? {
        PlansEnd(p, call, own, Effects(p, phase.writes));
      }
    }
  }

  lemma OnlyFailures(t: State, e: Event)
    requires Safe(t) && Step(t, e).returned == t.returned + [Failed(e.process)]
    ensures Step(t, e).log == t.log
    ensures var phase := t.Phase(e.process);
      phase.Opening? || phase.Reading? || phase.Creating? || phase.Settling? || phase.Unlinking? || phase.Removing?
  {
    assert Last(Step(t, e).returned) == Failed(e.process);
  }

  // ---------- A read sees the writes that returned before it began ----------

  lemma {:induction false} RunConcat(s: State, a: seq<Event>, b: seq<Event>)
    requires Safe(s)
    ensures Run(s, a + b) == Run(Run(s, a), b)
  {
    if b == [] {
      assert a + b == a;
    } else {
      assert (a + b)[..|a + b| - 1] == a + b[..|b| - 1];
      RunConcat(s, a, b[..|b| - 1]);
    }
  }

  lemma {:induction false} RunOne(s: State, e: Event)
    requires Safe(s)
    ensures Run(s, [e]) == SafeStep(s, e)
  {
    assert [e][..0] == [];
  }

  lemma {:induction false} ExplainedRun(first: State, s: State, events: seq<Event>)
    requires Safe(s) && Explained(first, s)
    ensures Explained(first, Run(s, events)) && s.log <= Run(s, events).log && s.returned <= Run(s, events).returned
  {
    if events != [] {
      var before := Run(s, events[..|events| - 1]);
      ExplainedRun(first, s, events[..|events| - 1]);
      ExplainedStep(first, before, Last(events));
      StepAdds(before, Last(events));
    }
  }

  /** The last effect on the path before position i is at j. */
  ghost predicate LatestChange(log: seq<Effect>, path: string, i: int, j: int) {
    && 0 <= j < i <= |log| && !log[j].DidRead? && log[j].path == path
    && NoChange(log, path, j + 1, i)
  }

  ghost predicate NoChange(log: seq<Effect>, path: string, from: int, to: int) {
    0 <= from <= to <= |log| && forall k :: from <= k < to ==> log[k].DidRead? || log[k].path != path
  }

  lemma {:induction false} ReplayIsLatest(start: Option<Bytes>, log: seq<Effect>, path: string, i: nat)
    returns (j: int)
    requires i <= |log|
    ensures j == -1 ==> NoChange(log, path, 0, i) && Replay(start, log[..i], path) == start
    ensures j != -1 ==> LatestChange(log, path, i, j) && Replay(start, log[..i], path) == Applied(log[j], path, None)
  {
    if i == 0 {
      j := -1;
    } else {
      assert log[..i][..i - 1] == log[..i - 1] && Last(log[..i]) == log[i - 1];
      if log[i - 1].DidRead? || log[i - 1].path != path {
        j := ReplayIsLatest(start, log, path, i - 1);
      } else {
        j := i - 1;
      }
    }
  }

  lemma {:induction false} OwnIsLogged(log: seq<Effect>, p: nat, m: nat) returns (k: nat)
    requires m < |Own(log, p)|
    ensures k < |log| && log[k] == Own(log, p)[m] && log[k].process == p && |Own(log[..k], p)| == m
  {
    var init := log[..|log| - 1];
    if m < |Own(init, p)| {
      k := OwnIsLogged(init, p, m);
      assert init[..k] == log[..k];
    } else {
      k := |log| - 1;
    }
  }

  /** The effect at i is a read of the path, and the latest change before it is at j and left what it read. */
  ghost predicate Sees(log: seq<Effect>, path: string, i: int, j: int) {
    && LatestChange(log, path, i, j)
    && i < |log| && log[i].DidRead? && log[i].path == path && log[i].value == Applied(log[j], path, None)
  }

  lemma {:induction false} LegalSees(first: State, log: seq<Effect>, path: string, k: nat, i: nat) returns (j: nat)
    requires Legal(first, log) && k < i < |log| && !log[k].DidRead? && log[k].path == path
    requires log[i].DidRead? && log[i].path == path
    ensures k <= j && Sees(log, path, i, j)
  {
    var latest := ReplayIsLatest(first.Value(path), log, path, i);
    assert latest >= k;
    j := latest;
  }

  /** The result of a read is the value of one effect since its call. */
  lemma {:induction false} ReadResult(s: State, t: State, p: nat, path: string, r: Return) returns (i: nat)
    requires CallOutcome(s, t, p, CallRead(path))
    requires r.Succeeded? && r in OwnReturns(t.returned[|s.returned|..], p)
    ensures r.effect.DidRead? && r.effect.path == path && |s.log| <= i < |t.log| && t.log[i] == r.effect
  {
    var m := EndedRead(t.log[|s.log|..], p, path, OwnReturns(t.returned[|s.returned|..], p), r);
    i := |s.log| + m;
  }

  lemma {:induction false} EndedRead(
    log: seq<Effect>, p: nat, path: string, results: seq<Return>, r: Return)
    returns (m: nat)
    requires Ended(p, CallRead(path), Own(log, p), results) && r in results && r.Succeeded?
    ensures m < |log| && log[m] == r.effect && r.effect.DidRead? && r.effect.path == path
  {
    m := OwnIsLogged(log, p, 0);
  }

  /**
   A read that begins after a write or a delete of its path returned success answers the latest change at
   the moment of its call, or a later one that came before the read itself; the completed change is at or
   before that latest one. Here s is the state at the call and t any later one, which `CallTakesEffect` and
   `ExplainedRun` relate: k is the latest change at the call, i the read and j the change that it answers.
   */
  lemma {:induction false} ReadSeesCompleted(
    first: State, s: State, t: State, done: Effect, p: nat, path: string, r: Return)
    returns (k: nat, i: nat, j: nat)
    requires Explained(first, t) && s.log <= t.log && CallOutcome(s, t, p, CallRead(path))
    requires done in s.log && !done.DidRead? && done.path == path
    requires r.Succeeded? && r in OwnReturns(t.returned[|s.returned|..], p)
    ensures LatestChange(t.log, path, |s.log|, k) && done in t.log[..k + 1]
    ensures k <= j && |s.log| <= i && Sees(t.log, path, i, j) && t.log[i] == r.effect
  {
    i := ReadResult(s, t, p, path, r);
    var latest := ReplayIsLatest(first.Value(path), t.log, path, |s.log|);
    var m :| 0 <= m < |s.log| && s.log[m] == done;
    assert t.log[m] == done && m <= latest;
    assert t.log[..latest + 1][m] == done;
    k := latest;
    j := LegalSees(first, t.log, path, k, i);
  }
}
