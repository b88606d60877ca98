/** `readWrappingKey` and `ensureWrappingKey` of apps/cli/src/credentials.ts, run by any number of processes. */
module WrappingKey {
  import opened FileSystem
  import opened Sequences

  type Key = seq<byte>

  const KEY_LENGTH := 32
  const KEY_NAME := "key"

  // ---------- The text of a key file ----------

  function Digit(d: int): char
    requires 0 <= d < 16
  {
    "0123456789abcdef"[d]
  }

  predicate IsHexDigit(c: char) {
    '0' <= c <= '9' || 'a' <= c <= 'f'
  }

  function DigitValue(c: char): (d: int)
    requires IsHexDigit(c)
    ensures 0 <= d < 16
  {
    if c <= '9' then c as int - '0' as int else c as int - 'a' as int + 10
  }

  function Hex(bytes: seq<byte>): string {
    if bytes == [] then ""
    else [Digit(bytes[0] as int / 16), Digit(bytes[0] as int % 16)] + Hex(bytes[1..])
  }

  function Unhex(text: string): seq<byte>
    requires |text| % 2 == 0
    requires forall i :: 0 <= i < |text| ==> IsHexDigit(text[i])
  {
    if text == "" then []
    else [(16 * DigitValue(text[0]) + DigitValue(text[1])) as byte] + Unhex(text[2..])
  }

  /** The characters String.prototype.trim removes. */
  predicate IsSpace(c: char) {
    c in " \t\n\r" || c as int in {0x0B, 0x0C, 0xA0, 0x1680, 0x2028, 0x2029, 0x202F, 0x205F, 0x3000, 0xFEFF}
    || 0x2000 <= c as int <= 0x200A
  }

  function TrimStart(text: string): string {
    if text != "" && IsSpace(text[0]) then TrimStart(text[1..]) else text
  }

  function TrimEnd(text: string): string {
    if text != "" && IsSpace(Last(text)) then TrimEnd(text[..|text| - 1]) else text
  }

  /** A key file holds 64 hexadecimal digits; anything else is an invalid credential. */
  function Decode(text: string): Option<Key> {
    var hex := TrimEnd(TrimStart(text));
    if |hex| == 64 && forall i :: 0 <= i < |hex| ==> IsHexDigit(hex[i]) then Some(Unhex(hex)) else None
  }

  function Text(material: Key): string {
    Hex(material) + "\n"
  }

  lemma {:induction false} HexShape(bytes: seq<byte>)
    ensures |Hex(bytes)| == 2 * |bytes|
    ensures forall i :: 0 <= i < |Hex(bytes)| ==> IsHexDigit(Hex(bytes)[i])
  {
    if bytes != [] {
      HexShape(bytes[1..]);
    }
  }

  lemma DigitRoundTrip(b: byte)
    ensures var high, low := Digit(b as int / 16), Digit(b as int % 16);
            IsHexDigit(high) && IsHexDigit(low) && (16 * DigitValue(high) + DigitValue(low)) as byte == b
  {
    assert forall d :: 0 <= d < 16 ==> IsHexDigit(Digit(d)) && DigitValue(Digit(d)) == d;
  }

  lemma {:induction false} UnhexHex(bytes: seq<byte>)
    requires |Hex(bytes)| == 2 * |bytes|
    requires forall i :: 0 <= i < |Hex(bytes)| ==> IsHexDigit(Hex(bytes)[i])
    ensures Unhex(Hex(bytes)) == bytes
  {
    if bytes != [] {
      var text := Hex(bytes);
      assert text[2..] == Hex(bytes[1..]);
      HexShape(bytes[1..]);
      UnhexHex(bytes[1..]);
      DigitRoundTrip(bytes[0]);
      assert bytes == [bytes[0]] + bytes[1..];
    }
  }

  lemma DecodeText(material: Key)
    requires |material| == KEY_LENGTH
    ensures Decode(Text(material)) == Some(material)
  {
    HexShape(material);
    UnhexHex(material);
    var hex := Hex(material);
    assert !IsSpace(hex[0]) && !IsSpace(Last(hex));
    assert Text(material)[0] == hex[0] && TrimStart(Text(material)) == Text(material);
    assert Text(material)[..|hex|] == hex;
    assert TrimEnd(Text(material)) == TrimEnd(hex) == hex;
  }

  // ---------- Processes ----------

  /** Why a process reads `key`: for itself, before drawing a candidate, or after linking one. */
  datatype Purpose = JustRead | First | Winner(candidate: string)

  /** What a call gives back: a key, nothing because there is none, or one of its errors. */
  datatype Outcome = Got(key: Key) | Missing | Invalid | Unavailable | WriteFailed

  datatype Return = Return(process: nat, outcome: Outcome)

  datatype Phase =
    | Idle
    | Opening(purpose: Purpose)
    | Reading(purpose: Purpose, inode: Inode, got: string)
    | Drawing
    | Writing(material: Key, candidate: string, inode: Inode)
    | Linking(candidate: string)
    | Cleaning(candidate: string, outcome: Outcome)
    | Crashed

  datatype Action =
    | CallRead
    | CallEnsure
    | Open
    | ReadChunk(length: nat)
    | EndOfFile
    | Draw(newMaterial: Key, name: string, newInode: Inode)
    | WriteChunk(length: nat)
    | LinkCandidate
    | Clean(removed: bool)
    | Fail
    | Crash

  /**
   `used` are the candidate names drawn so far, `drawn` their keys, `returned` the keys that calls gave back,
   and `ended` how each call ended.
   */
  datatype State = State(
    disk: Disk<char>,
    phases: map<nat, Phase>,
    used: set<string>,
    drawn: set<Key>,
    returned: seq<Key>,
    ended: seq<Return>)
  {
    function Phase(p: nat): Phase {
      if p in phases then phases[p] else Idle
    }

    function At(p: nat, phase: Phase): State {
      this.(phases := phases[p := phase])
    }

    function Ends(p: nat, outcome: Outcome): State {
      this.(phases := phases[p := Idle],
            returned := if outcome.Got? then returned + [outcome.key] else returned,
            ended := ended + [Return(p, outcome)])
    }

    /** The contents a reader of `key` would get now. */
    function KeyText(): Option<string> {
      if KEY_NAME in disk.names && disk.names[KEY_NAME] in disk.data
      then Some(disk.data[disk.names[KEY_NAME]]) else None
    }
  }

  datatype Event = Event(process: nat, action: Action)

  /** A reading ends its call, but the one that holds a candidate cleans up first, and has its own error. */
  function Finish(s: State, p: nat, purpose: Purpose, outcome: Outcome): State {
    match purpose
    case Winner(candidate) => s.At(p, Cleaning(candidate, if outcome.Got? then outcome else WriteFailed))
    case _ => s.Ends(p, outcome)
  }

  /** What the text of a key file stands for. */
  function Parsed(text: string): Outcome {
    match Decode(text)
    case Some(key) => Got(key)
    case None => Invalid
  }

  /** An unused candidate name: a random UUID never repeats and is never `key`. */
  predicate FreshCandidate(s: State, name: string, inode: Inode) {
    name != KEY_NAME && name !in s.used && name !in s.disk.names && inode !in s.disk.data
  }

  /** One step of one process; an action that the process cannot take now changes nothing. */
  function Step(s: State, e: Event): State
    requires Safe(s)
  {
    var p := e.process;
    match (s.Phase(p), e.action)
    case (Crashed, _) => s
    case (_, Crash) => s.At(p, Crashed)
    case (Idle, CallRead) => s.At(p, Opening(JustRead))
    case (Idle, CallEnsure) => s.At(p, Opening(First))
    case (Opening(purpose), Open) =>
      if KEY_NAME in s.disk.names then s.At(p, Reading(purpose, s.disk.names[KEY_NAME], ""))
      else if purpose == First then s.At(p, Drawing)
      else Finish(s, p, purpose, Missing)
    case (Opening(purpose), Fail) => Finish(s, p, purpose, Unavailable)
    case (Reading(purpose, inode, got), ReadChunk(length)) =>
      var data := s.disk.data[inode];
      if |got| + length <= |data| then s.At(p, Reading(purpose, inode, data[..|got| + length])) else s
    case (Reading(purpose, inode, got), EndOfFile) =>
      if |got| == |s.disk.data[inode]| then Finish(s, p, purpose, Parsed(got)) else s
    case (Reading(purpose, inode, got), Fail) => Finish(s, p, purpose, Unavailable)
    case (Drawing, Draw(material, name, inode)) =>
      if |material| == KEY_LENGTH && FreshCandidate(s, name, inode) then
        s.(disk := s.disk.Create(name, inode), used := s.used + {name}, drawn := s.drawn + {material})
        .At(p, Writing(material, name, inode))
      else s
    case (Drawing, Fail) => s.Ends(p, WriteFailed)
    case (Writing(material, candidate, inode), WriteChunk(length)) =>
      var written := |s.disk.data[inode]|;
      if written + length < |Text(material)| then
        s.(disk := s.disk.Append(inode, Text(material)[written..written + length]))
      else
        s.(disk := s.disk.Append(inode, Text(material)[written..])).At(p, Linking(candidate))
    case (Writing(material, candidate, inode), Fail) => s.At(p, Cleaning(candidate, WriteFailed))
    case (Linking(candidate), LinkCandidate) =>
      if KEY_NAME in s.disk.names then s.At(p, Opening(Winner(candidate)))
      else s.(disk := s.disk.Link(candidate, KEY_NAME)).At(p, Opening(Winner(candidate)))
    case (Linking(candidate), Fail) => s.At(p, Cleaning(candidate, WriteFailed))
    case (Cleaning(candidate, outcome), Clean(removed)) =>
      (if removed then s.(disk := s.disk.Unlink(candidate)) else s).Ends(p, outcome)
    case _ => s
  }

  // ---------- The invariant ----------

  function CandidateOf(phase: Phase): Option<string> {
    match phase
    case Opening(Winner(candidate)) => Some(candidate)
    case Reading(Winner(candidate), _, _) => Some(candidate)
    case Writing(_, candidate, _) => Some(candidate)
    case Linking(candidate) => Some(candidate)
    case Cleaning(candidate, _) => Some(candidate)
    case _ => None
  }

  ghost predicate PhaseSafe(s: State, phase: Phase)
    requires s.disk.Valid()
  {
    && (CandidateOf(phase).Some? ==> CandidateOf(phase).value in s.used)
    && match phase
       case Opening(purpose) => purpose.Winner? ==> KEY_NAME in s.disk.names
       case Reading(_, inode, got) =>
         KEY_NAME in s.disk.names && inode == s.disk.names[KEY_NAME] && got <= s.disk.data[inode]
       case Writing(material, candidate, inode) =>
         && |material| == KEY_LENGTH && material in s.drawn
         && candidate in s.disk.names && s.disk.names[candidate] == inode
         && (forall n :: n in s.disk.names && s.disk.names[n] == inode ==> n == candidate)
         && s.disk.data[inode] <= Text(material)
       case Linking(candidate) =>
         candidate in s.disk.names && exists m :: m in s.drawn && s.disk.Contents(candidate) == Text(m)
       case Cleaning(_, outcome) => outcome.Got? ==> IsTheKey(s, outcome.key)
       case _ => true
  }

  ghost predicate IsTheKey(s: State, key: Key) {
    s.KeyText().Some? && Decode(s.KeyText().value) == Some(key)
  }

  ghost predicate Safe(s: State) {
    && s.disk.Valid()
    && KEY_NAME !in s.used
    && (forall p :: PhaseSafe(s, s.Phase(p)))
    && (forall p, q :: p != q && CandidateOf(s.Phase(p)).Some? && CandidateOf(s.Phase(q)).Some? ==>
          CandidateOf(s.Phase(p)) != CandidateOf(s.Phase(q)))
    && (forall m :: m in s.drawn ==> |m| == KEY_LENGTH)
    && (forall k :: k in s.returned ==> IsTheKey(s, k))
  }

  // ---------- Every step keeps it ----------

  /** What a step of one process must leave alone for the others to stay safe. */
  ghost predicate Kept(s: State, t: State, own: Option<string>)
    requires s.disk.Valid() && t.disk.Valid()
  {
    && s.used <= t.used && s.drawn <= t.drawn
    && (forall n :: n in s.disk.names && Some(n) != own ==>
          n in t.disk.names && t.disk.names[n] == s.disk.names[n] && t.disk.Contents(n) == s.disk.Contents(n))
    && (forall n :: n in t.disk.names && (n !in s.disk.names || s.disk.names[n] != t.disk.names[n]) ==>
          t.disk.names[n] !in s.disk.data
            || (own.Some? && own.value in s.disk.names && t.disk.names[n] == s.disk.names[own.value]))
  }

  lemma OtherPhaseKept(s: State, t: State, own: Option<string>, phase: Phase)
    requires s.disk.Valid() && t.disk.Valid() && Kept(s, t, own) && KEY_NAME !in s.used
    requires own.Some? ==> own.value in s.used && own != CandidateOf(phase)
    requires PhaseSafe(s, phase)
    ensures PhaseSafe(t, phase)
  {
    match phase
    case Writing(material, candidate, inode) =>
      assert Some(candidate) != own;
      assert t.disk.Contents(candidate) == s.disk.Contents(candidate);
    case Linking(candidate) =>
      assert t.disk.Contents(candidate) == s.disk.Contents(candidate);
    case _ =>
  }

  /** From a step of p that keeps the others, safety follows from p's own new phase. */
  lemma {:induction false} StepOfOne(s: State, t: State, p: nat)
    requires Safe(s) && t.disk.Valid()
    requires Kept(s, t, CandidateOf(s.Phase(p)))
    requires t.used == s.used || (CandidateOf(s.Phase(p)).None? && CandidateOf(t.Phase(p)).Some? &&
             CandidateOf(t.Phase(p)).value !in s.used && t.used == s.used + {CandidateOf(t.Phase(p)).value}
               && KEY_NAME !in t.used)
    requires t.used == s.used ==> CandidateOf(t.Phase(p)).None? || CandidateOf(t.Phase(p)) == CandidateOf(s.Phase(p))
    requires forall q :: q != p ==> t.Phase(q) == s.Phase(q)
    requires PhaseSafe(t, t.Phase(p))
    requires forall m :: m in t.drawn ==> |m| == KEY_LENGTH
    requires forall k :: k in t.returned ==> k in s.returned || IsTheKey(t, k)
    ensures Safe(t)
  {
    forall q ensures PhaseSafe(t, t.Phase(q)) {
      if q != p {
        OtherPhaseKept(s, t, CandidateOf(s.Phase(p)), s.Phase(q));
      }
    }
    forall q | q != p && CandidateOf(t.Phase(q)).Some? && CandidateOf(t.Phase(p)).Some?
      ensures CandidateOf(t.Phase(p)) != CandidateOf(t.Phase(q))
    {
      assert PhaseSafe(s, s.Phase(q));
    }
    forall k | k in t.returned ensures IsTheKey(t, k) {
      if k in s.returned {
        assert IsTheKey(s, k);
      }
    }
  }

  /** The steps that change the directory. */
  predicate TouchesDisk(s: State, e: Event) {
    match s.Phase(e.process)
    case Writing(_, _, _) => e.action.WriteChunk?
    case Linking(_) => e.action.LinkCandidate?
    case Drawing => e.action.Draw?
    case Cleaning(_, _) => e.action.Clean?
    case _ => false
  }

  lemma StepSafe(s: State, e: Event)
    requires Safe(s)
    ensures Safe(Step(s, e))
  {
    match s.Phase(e.process)
    case Opening(_) => OpenSafe(s, e);
    case Reading(_, _, _) => ReadSafe(s, e);
    case Writing(_, _, _) => if e.action.WriteChunk? { WriteSafe(s, e); } else { QuietSafe(s, e); }
    case Linking(_) => if e.action.LinkCandidate? { LinkSafe(s, e); } else { QuietSafe(s, e); }
    case Drawing => if e.action.Draw? { DrawSafe(s, e); } else { QuietSafe(s, e); }
    case Cleaning(_, _) => if e.action.Clean? { CleanSafe(s, e); } else { QuietSafe(s, e); }
    case _ => QuietSafe(s, e);
  }

  lemma QuietSafe(s: State, e: Event)
    requires Safe(s) && !s.Phase(e.process).Opening? && !s.Phase(e.process).Reading? && !TouchesDisk(s, e)
    ensures Safe(Step(s, e))
  {
    var p, t := e.process, Step(s, e);
    QuietPhase(s, e);
    if t != s {
      SameDiskSafe(s, t, p);
    }
  }

  lemma QuietPhase(s: State, e: Event)
    requires Safe(s) && !s.Phase(e.process).Opening? && !s.Phase(e.process).Reading? && !TouchesDisk(s, e)
    ensures var t, p := Step(s, e), e.process;
      t == s || (
        && t == s.At(p, t.Phase(p)).(ended := t.ended) && PhaseSafe(s, t.Phase(p))
        && (CandidateOf(t.Phase(p)).None? || CandidateOf(t.Phase(p)) == CandidateOf(s.Phase(p))))
  {
    assert PhaseSafe(s, s.Phase(e.process));
  }

  lemma SameDiskSafe(s: State, t: State, p: nat)
    requires Safe(s) && t.disk == s.disk && t.used == s.used && t.drawn == s.drawn
    requires CandidateOf(t.Phase(p)).None? || CandidateOf(t.Phase(p)) == CandidateOf(s.Phase(p))
    requires forall q :: q != p ==> t.Phase(q) == s.Phase(q)
    requires PhaseSafe(s, t.Phase(p))
    requires forall k :: k in t.returned ==> k in s.returned || IsTheKey(s, k)
    ensures Safe(t)
  {
    assert forall phase :: PhaseSafe(s, phase) ==> PhaseSafe(t, phase);
    StepOfOne(s, t, p);
  }

  lemma OpenSafe(s: State, e: Event)
    requires Safe(s) && s.Phase(e.process).Opening?
    ensures Safe(Step(s, e))
  {
    assert PhaseSafe(s, s.Phase(e.process));
    SameDiskSafe(s, Step(s, e), e.process);
  }

  lemma ReadSafe(s: State, e: Event)
    requires Safe(s) && s.Phase(e.process).Reading?
    ensures Safe(Step(s, e))
  {
    ReadPhase(s, e);
    forall q | q != e.process ensures Step(s, e).Phase(q) == s.Phase(q) {
      OthersStayReading(s, e, q);
    }
    SameDiskSafe(s, Step(s, e), e.process);
  }

  lemma ReadPhase(s: State, e: Event)
    requires Safe(s) && s.Phase(e.process).Reading?
    ensures var t, p := Step(s, e), e.process;
      && t.disk == s.disk && t.used == s.used && t.drawn == s.drawn && PhaseSafe(s, t.Phase(p))
      && (CandidateOf(t.Phase(p)).None? || CandidateOf(t.Phase(p)) == CandidateOf(s.Phase(p)))
      && forall k :: k in t.returned ==> k in s.returned || IsTheKey(s, k)
  {
    var Reading(purpose, inode, got) := s.Phase(e.process);
    assert PhaseSafe(s, s.Phase(e.process));
    assert |got| == |s.disk.data[inode]| ==> got == s.disk.data[inode];
  }

  lemma WriteSafe(s: State, e: Event)
    requires Safe(s) && s.Phase(e.process).Writing? && e.action.WriteChunk?
    ensures Safe(Step(s, e))
  {
    var p, t := e.process, Step(s, e);
    var Writing(material, candidate, inode) := s.Phase(p);
    assert PhaseSafe(s, s.Phase(p));
    var written := |s.disk.data[inode]|;
    assert Text(material)[..written] == s.disk.data[inode];
    assert t.disk.data[inode] <= Text(material);
    StepOfOne(s, t, p);
  }

  lemma LinkSafe(s: State, e: Event)
    requires Safe(s) && s.Phase(e.process).Linking? && e.action.LinkCandidate?
    ensures Safe(Step(s, e))
  {
    assert PhaseSafe(s, s.Phase(e.process));
    StepOfOne(s, Step(s, e), e.process);
  }

  lemma DrawSafe(s: State, e: Event)
    requires Safe(s) && s.Phase(e.process).Drawing? && e.action.Draw?
    ensures Safe(Step(s, e))
  {
    StepOfOne(s, Step(s, e), e.process);
  }

  lemma CleanSafe(s: State, e: Event)
    requires Safe(s) && s.Phase(e.process).Cleaning? && e.action.Clean?
    ensures Safe(Step(s, e))
  {
    assert PhaseSafe(s, s.Phase(e.process));
    StepOfOne(s, Step(s, e), e.process);
  }

  // ---------- Whole runs ----------

  /** A state directory before any call: `key` may be missing, valid or damaged. */
  ghost predicate Init(s: State) {
    s.disk.Valid() && s.phases == map[] && s.used == {} && s.drawn == {} && s.returned == [] && s.ended == []
  }

  /** The state after the events of any interleaving of any number of processes. */
  ghost function Run(s: State, events: seq<Event>): (t: State)
    requires Safe(s)
    ensures Safe(t)
  {
    if events == [] then s
    else
      var before := Run(s, events[..|events| - 1]);
      StepSafe(before, Last(events));
      Step(before, Last(events))
  }

  /** Any two keys that have been returned are the same. */
  lemma ReturnedAgree(s: State, a: Key, b: Key)
    requires Safe(s) && a in s.returned && b in s.returned
    ensures a == b
  {
    assert IsTheKey(s, a) && IsTheKey(s, b);
  }

  lemma ReturnedNeedsKey(s: State)
    requires Safe(s) && s.returned != []
    ensures s.KeyText().Some?
  {
    assert IsTheKey(s, s.returned[0]);
  }

  lemma {:induction false} ReturnedGrows(s: State, e: Event)
    requires Safe(s)
    ensures s.returned <= Step(s, e).returned
  {
  }

  /** All calls that return a key, by any process at any time, return the same one. */
  lemma {:induction false} OneKey(s: State, events: seq<Event>, j: nat, k: nat)
    requires Init(s)
    requires j < |Run(s, events).returned| && k < |Run(s, events).returned|
    ensures Run(s, events).returned[j] == Run(s, events).returned[k]
  {
    var t := Run(s, events);
    ReturnedAgree(t, t.returned[j], t.returned[k]);
  }

  /** A step binds `key` at most once, only to a fully written candidate, and never touches a bound one. */
  lemma {:induction false} KeyStep(s: State, e: Event)
    requires Safe(s)
    ensures s.KeyText().Some? ==> Step(s, e).KeyText() == s.KeyText()
    ensures s.KeyText().None? ==>
      Step(s, e).KeyText().None? || exists m :: m in s.drawn && Step(s, e).KeyText() == Some(Text(m))
    ensures s.drawn <= Step(s, e).drawn
  {
    assert PhaseSafe(s, s.Phase(e.process));
  }

  /** Once bound, `key` shows the same bytes after any further events. */
  lemma {:induction false} KeyNeverChanges(s: State, events: seq<Event>)
    requires Safe(s) && s.KeyText().Some?
    ensures Run(s, events).KeyText() == s.KeyText()
  {
    if events != [] {
      KeyNeverChanges(s, events[..|events| - 1]);
      KeyStep(Run(s, events[..|events| - 1]), Last(events));
    }
  }

  /** `key` holds what it held at the start or the complete text of a key some call drew. */
  lemma {:induction false} KeyIsComplete(s: State, events: seq<Event>)
    requires Safe(s)
    ensures var t := Run(s, events);
            t.KeyText() == s.KeyText() || exists m :: m in t.drawn && t.KeyText() == Some(Text(m))
  {
    if events != [] {
      KeyIsComplete(s, events[..|events| - 1]);
      KeyStep(Run(s, events[..|events| - 1]), Last(events));
    }
  }

  /** In a directory that had no key, every returned key is the one some call drew, whole. */
  lemma {:induction false} ReturnedKeyWasDrawn(s: State, events: seq<Event>, j: nat)
    requires Init(s) && s.KeyText().None?
    requires j < |Run(s, events).returned|
    ensures Run(s, events).returned[j] in Run(s, events).drawn
  {
    var t := Run(s, events);
    KeyIsComplete(s, events);
    assert IsTheKey(t, t.returned[j]);
    var m :| m in t.drawn && t.KeyText() == Some(Text(m));
    DecodeText(m);
  }

  /**
   A process that looks for the winner after its link finds a readable key, so `ensureWrappingKey`
   fails there only on an I/O error: the branch for a missing winner is never taken.
   */
  lemma {:induction false} WinnerIsFound(s: State, events: seq<Event>, p: nat)
    requires Init(s) && s.KeyText().None?
    requires var phase := Run(s, events).Phase(p); phase.Opening? && phase.purpose.Winner?
    ensures var text := Run(s, events).KeyText(); text.Some? && Decode(text.value).Some?
  {
    var t := Run(s, events);
    assert PhaseSafe(t, t.Phase(p));
    KeyIsComplete(s, events);
    var m :| m in t.drawn && t.KeyText() == Some(Text(m));
    DecodeText(m);
  }

  // ---------- How a call ends ----------

  predicate IsCall(a: Action) {
    a.CallRead? || a.CallEnsure?
  }

  ghost predicate NoNewCall(events: seq<Event>, p: nat) {
    forall k :: 0 <= k < |events| && events[k].process == p ==> !IsCall(events[k].action)
  }

  ghost function SafeStep(s: State, e: Event): (t: State)
    requires Safe(s)
    ensures Safe(t) && t == Step(s, e)
  {
    StepSafe(s, e);
    Step(s, e)
  }

  /** What `key` showed when p first opened it, once it has. */
  ghost function Saw(s: State, events: seq<Event>, p: nat): Option<Option<string>>
    requires Safe(s)
  {
    if events == [] then None
    else
      var init := events[..|events| - 1];
      if Saw(s, init, p).Some? then Saw(s, init, p)
      else if Last(events) == Event(p, Open) then Some(Run(s, init).KeyText())
      else None
  }

  /** An operation of p has failed; a failure to remove its candidate does not count. */
  ghost predicate Met(s: State, events: seq<Event>, p: nat)
    requires Safe(s)
  {
    events != []
    && (|| Met(s, events[..|events| - 1], p)
        || (Last(events) == Event(p, Fail) && !Run(s, events[..|events| - 1]).Phase(p).Cleaning?))
  }

  /**
   How a call ends that saw this at its first open, met an error or not, and leaves this text behind. A key is
   given back exactly if nothing failed, there was one to be read or the call was to make one, and its text
   is in order. Nothing is said to be there exactly if a mere read saw nothing.
   */
  ghost predicate Rightly(
    call: Action, saw: Option<Option<string>>, met: bool, text: Option<string>, outcome: Outcome)
  {
    && (forall key :: outcome == Got(key) <==>
          !met && saw.Some? && (saw.value.Some? || call == CallEnsure) && text.Some? && Decode(text.value) == Some(key))
    && (outcome == Missing <==> call == CallRead && saw == Some(None))
    && (outcome == Invalid <==> !met && saw.Some? && saw.value.Some? && Decode(saw.value.value) == None)
    && (outcome == Unavailable <==> met && saw != Some(None))
    && (outcome == WriteFailed <==> met && saw == Some(None) && call == CallEnsure)
  }

  /** The call found no key and is making one; a key that another made in the meantime is in order. */
  ghost predicate Making(t: State, call: Action, saw: Option<Option<string>>) {
    call == CallEnsure && saw == Some(None) && (t.KeyText().Some? ==> Decode(t.KeyText().value).Some?)
  }

  /** How far p has come with its call. */
  ghost predicate InCall(t: State, p: nat, call: Action, saw: Option<Option<string>>, met: bool) {
    match t.Phase(p)
    case Opening(purpose) =>
      && !met
      && (match purpose
          case JustRead => call == CallRead && saw == None
          case First => call == CallEnsure && saw == None
          case Winner(_) => Making(t, call, saw))
    case Reading(purpose, _, _) =>
      && !met
      && (match purpose
          case JustRead => call == CallRead && saw == Some(t.KeyText()) && t.KeyText().Some?
          case First => call == CallEnsure && saw == Some(t.KeyText()) && t.KeyText().Some?
          case Winner(_) => Making(t, call, saw))
    case Drawing => !met && Making(t, call, saw)
    case Writing(_, _, _) => !met && Making(t, call, saw)
    case Linking(_) => !met && Making(t, call, saw)
    case Cleaning(_, outcome) =>
      Making(t, call, saw) && if met then outcome == WriteFailed else outcome.Got? && IsTheKey(t, outcome.key)
    case _ => true
  }

  /** A key that is made in the meantime is in order. */
  lemma {:induction false} StillMaking(s: State, e: Event, call: Action, saw: Option<Option<string>>)
    requires Safe(s) && Making(s, call, saw)
    ensures Making(Step(s, e), call, saw)
  {
    KeyStep(s, e);
    var t := Step(s, e);
    if s.KeyText().None? && t.KeyText().Some? {
      var m :| m in s.drawn && t.KeyText() == Some(Text(m));
      DecodeText(m);
    }
  }

  lemma {:induction false} OthersStay(s: State, e: Event, q: nat)
    requires Safe(s) && q != e.process
    ensures Step(s, e).Phase(q) == s.Phase(q)
  {
    var phase := s.Phase(e.process);
    if phase.Opening? || phase.Reading? {
      OthersStayReading(s, e, q);
    } else if phase.Drawing? || phase.Writing? {
      OthersStayWriting(s, e, q);
    } else {
      OthersStayElse(s, e, q);
    }
  }

  lemma {:induction false} OthersStayReading(s: State, e: Event, q: nat)
    requires Safe(s) && q != e.process && (s.Phase(e.process).Opening? || s.Phase(e.process).Reading?)
    ensures Step(s, e).Phase(q) == s.Phase(q)
  {
  }

  lemma {:induction false} OthersStayWriting(s: State, e: Event, q: nat)
    requires Safe(s) && q != e.process && (s.Phase(e.process).Drawing? || s.Phase(e.process).Writing?)
    ensures Step(s, e).Phase(q) == s.Phase(q)
  {
  }

  lemma {:induction false} OthersStayElse(s: State, e: Event, q: nat)
    requires Safe(s) && q != e.process
    requires var phase := s.Phase(e.process); phase.Idle? || phase.Linking? || phase.Cleaning? || phase.Crashed?
    ensures Step(s, e).Phase(q) == s.Phase(q)
  {
  }

  lemma {:induction false} OtherInCall(s: State, e: Event, p: nat, call: Action, saw: Option<Option<string>>, met: bool)
    requires Safe(s) && e.process != p && InCall(s, p, call, saw, met)
    ensures InCall(Step(s, e), p, call, saw, met)
  {
    OthersStay(s, e, p);
    KeyStep(s, e);
    if Making(s, call, saw) {
      StillMaking(s, e, call, saw);
    }
  }

  ghost function SawBy(s: State, e: Event, saw: Option<Option<string>>): Option<Option<string>> {
    if saw.None? && e.action == Open then Some(s.KeyText()) else saw
  }

  ghost predicate MetBy(s: State, e: Event, met: bool) {
    met || (e.action == Fail && !s.Phase(e.process).Cleaning?)
  }

  /** A step of p goes on with its call, or ends it rightly. */
  lemma {:induction false} OwnInCall(s: State, e: Event, call: Action, saw: Option<Option<string>>, met: bool)
    requires Safe(s) && IsCall(call) && !IsCall(e.action) && InCall(s, e.process, call, saw, met)
    ensures GoesOn(s, e, call, SawBy(s, e, saw), MetBy(s, e, met))
  {
    match s.Phase(e.process)
    case Opening(_) => OpeningGoesOn(s, e, call, saw, met);
    case Reading(_, _, _) => ReadingGoesOn(s, e, call, saw, met);
    case Drawing => DrawingGoesOn(s, e, call, saw, met);
    case Writing(_, _, _) => WritingGoesOn(s, e, call, saw, met);
    case Linking(_) => LinkingGoesOn(s, e, call, saw, met);
    case Cleaning(_, _) => CleaningGoesOn(s, e, call, saw, met);
    case _ =>
  }

  ghost predicate GoesOn(s: State, e: Event, call: Action, saw: Option<Option<string>>, met: bool)
    requires Safe(s)
  {
    var t := Step(s, e);
    && InCall(t, e.process, call, saw, met)
    && (t.ended == s.ended || EndsRightly(s, t, e.process, call, saw, met))
  }

  lemma {:induction false} OpeningGoesOn(s: State, e: Event, call: Action, saw: Option<Option<string>>, met: bool)
    requires Safe(s) && IsCall(call) && !IsCall(e.action) && InCall(s, e.process, call, saw, met)
    requires s.Phase(e.process).Opening?
    ensures GoesOn(s, e, call, SawBy(s, e, saw), MetBy(s, e, met))
  {
    var p, t := e.process, Step(s, e);
    assert PhaseSafe(s, s.Phase(p));
    if t.ended != s.ended {
      assert t.ended == s.ended + [Return(p, Last(t.ended).outcome)];
    }
  }

  lemma {:induction false} ReadingGoesOn(s: State, e: Event, call: Action, saw: Option<Option<string>>, met: bool)
    requires Safe(s) && IsCall(call) && !IsCall(e.action) && InCall(s, e.process, call, saw, met)
    requires s.Phase(e.process).Reading?
    ensures GoesOn(s, e, call, SawBy(s, e, saw), MetBy(s, e, met))
  {
    if s.Phase(e.process).purpose.Winner? {
      WinnerGoesOn(s, e, call, saw, met);
    } else {
      ReaderGoesOn(s, e, call, saw, met);
    }
  }

  lemma {:induction false} WinnerGoesOn(s: State, e: Event, call: Action, saw: Option<Option<string>>, met: bool)
    requires Safe(s) && IsCall(call) && !IsCall(e.action) && InCall(s, e.process, call, saw, met)
    requires s.Phase(e.process).Reading? && s.Phase(e.process).purpose.Winner?
    ensures GoesOn(s, e, call, SawBy(s, e, saw), MetBy(s, e, met))
  {
    var p, t := e.process, Step(s, e);
    var Reading(purpose, inode, got) := s.Phase(p);
    assert PhaseSafe(s, s.Phase(p));
    assert |got| == |s.disk.data[inode]| ==> got == s.disk.data[inode] == s.KeyText().value;
  }

  lemma {:induction false} ReaderGoesOn(s: State, e: Event, call: Action, saw: Option<Option<string>>, met: bool)
    requires Safe(s) && IsCall(call) && !IsCall(e.action) && InCall(s, e.process, call, saw, met)
    requires s.Phase(e.process).Reading? && !s.Phase(e.process).purpose.Winner?
    ensures GoesOn(s, e, call, SawBy(s, e, saw), MetBy(s, e, met))
  {
    var p, t := e.process, Step(s, e);
    var Reading(purpose, inode, got) := s.Phase(p);
    assert PhaseSafe(s, s.Phase(p));
    assert |got| == |s.disk.data[inode]| ==> got == s.disk.data[inode] == s.KeyText().value;
    if t.ended != s.ended {
      assert t.ended == s.ended + [Return(p, Last(t.ended).outcome)];
    }
  }

  lemma {:induction false} WritingGoesOn(s: State, e: Event, call: Action, saw: Option<Option<string>>, met: bool)
    requires Safe(s) && IsCall(call) && !IsCall(e.action) && InCall(s, e.process, call, saw, met)
    requires s.Phase(e.process).Writing?
    ensures GoesOn(s, e, call, SawBy(s, e, saw), MetBy(s, e, met))
  {
    StillMaking(s, e, call, saw);
  }

  lemma {:induction false} LinkingGoesOn(s: State, e: Event, call: Action, saw: Option<Option<string>>, met: bool)
    requires Safe(s) && IsCall(call) && !IsCall(e.action) && InCall(s, e.process, call, saw, met)
    requires s.Phase(e.process).Linking?
    ensures GoesOn(s, e, call, SawBy(s, e, saw), MetBy(s, e, met))
  {
    StillMaking(s, e, call, saw);
  }

  lemma {:induction false} DrawingGoesOn(s: State, e: Event, call: Action, saw: Option<Option<string>>, met: bool)
    requires Safe(s) && IsCall(call) && !IsCall(e.action) && InCall(s, e.process, call, saw, met)
    requires s.Phase(e.process).Drawing?
    ensures GoesOn(s, e, call, SawBy(s, e, saw), MetBy(s, e, met))
  {
    var p, t := e.process, Step(s, e);
    StillMaking(s, e, call, saw);
    if t.ended != s.ended {
      assert t.ended == s.ended + [Return(p, WriteFailed)];
    }
  }

  lemma {:induction false} CleaningGoesOn(s: State, e: Event, call: Action, saw: Option<Option<string>>, met: bool)
    requires Safe(s) && IsCall(call) && !IsCall(e.action) && InCall(s, e.process, call, saw, met)
    requires s.Phase(e.process).Cleaning?
    ensures GoesOn(s, e, call, SawBy(s, e, saw), MetBy(s, e, met))
  {
    StillMaking(s, e, call, saw);
    if !met {
      KeyKept(s, e, s.Phase(e.process).outcome.key);
    }
    CleaningStep(s, e);
    assert CleaningEnds(s, Step(s, e), e.process);
  }

  lemma {:induction false} KeyKept(s: State, e: Event, key: Key)
    requires Safe(s) && IsTheKey(s, key)
    ensures IsTheKey(Step(s, e), key)
  {
    KeyStep(s, e);
  }

  /** The call goes on unchanged, is cut off, or ends with the outcome it has. */
  ghost predicate CleaningEnds(s: State, t: State, p: nat)
    requires s.Phase(p).Cleaning?
  {
    var outcome := s.Phase(p).outcome;
    || (t.ended == s.ended && (t.Phase(p) == s.Phase(p) || t.Phase(p).Crashed?))
    || (t.ended == s.ended + [Return(p, outcome)] && t.Phase(p) == Idle
        && t.returned == s.returned + if outcome.Got? then [outcome.key] else [])
  }

  lemma {:induction false} CleaningStep(s: State, e: Event)
    requires Safe(s) && s.Phase(e.process).Cleaning?
    ensures CleaningEnds(s, Step(s, e), e.process)
  {
    var outcome := s.Phase(e.process).outcome;
    assert s.returned + [] == s.returned;
  }

  /** The one result added is p's, and right; a key that it gives back is handed out. */
  ghost predicate EndsRightly(
    s: State, t: State, p: nat, call: Action, saw: Option<Option<string>>, met: bool)
  {
    exists outcome ::
      && t.ended == s.ended + [Return(p, outcome)] && t.Phase(p) == Idle
      && Rightly(call, saw, met, t.KeyText(), outcome)
      && t.returned == s.returned + (if outcome.Got? then [outcome.key] else [])
  }

  lemma {:induction false} CallGoesOn(s: State, events: seq<Event>, p: nat, call: Action)
    requires Safe(s) && s.Phase(p).Idle? && IsCall(call) && NoNewCall(events, p)
    ensures var u := SafeStep(s, Event(p, call));
      InCall(Run(u, events), p, call, Saw(u, events, p), Met(u, events, p))
  {
    var u := SafeStep(s, Event(p, call));
    if events != [] {
      var init, e := events[..|events| - 1], Last(events);
      CallGoesOn(s, init, p, call);
      if e.process == p {
        OwnInCall(Run(u, init), e, call, Saw(u, init, p), Met(u, init, p));
      } else {
        OtherInCall(Run(u, init), e, p, call, Saw(u, init, p), Met(u, init, p));
      }
    }
  }

  /**
   In every interleaving, the step of p that ends its call adds one result, which is the right one for what
   its first open saw, for the errors it met and for the text that `key` has by then.
   */
  lemma {:induction false} CallEndsRightly(s: State, events: seq<Event>, e: Event, call: Action)
    requires Safe(s) && s.Phase(e.process).Idle? && IsCall(call)
    requires NoNewCall(events, e.process) && !IsCall(e.action)
    ensures var u := SafeStep(s, Event(e.process, call));
      var t, all := Run(u, events), events + [e];
      SafeStep(t, e).ended == t.ended
      || EndsRightly(t, SafeStep(t, e), e.process, call, Saw(u, all, e.process), Met(u, all, e.process))
  {
    var u, all := SafeStep(s, Event(e.process, call)), events + [e];
    CallGoesOn(s, events, e.process, call);
    OwnInCall(Run(u, events), e, call, Saw(u, events, e.process), Met(u, events, e.process));
    assert all[..|all| - 1] == events && Last(all) == e;
  }

  // ---------- A call can always be ended ----------

  /** An upper bound for the steps that p still has to take. */
  function Rank(s: State, p: nat): nat {
    match s.Phase(p)
    case Opening(JustRead) => 3
    case Opening(First) => 9
    case Opening(Winner(_)) => 4
    case Reading(Winner(_), inode, got) => if inode in s.disk.data && got == s.disk.data[inode] then 2 else 3
    case Reading(_, inode, got) => if inode in s.disk.data && got == s.disk.data[inode] then 1 else 2
    case Drawing => 7
    case Writing(_, _, _) => 6
    case Linking(_) => 5
    case Cleaning(_, _) => 1
    case _ => 0
  }

  predicate Passes(a: Action) {
    !IsCall(a) && a != Fail && a != Crash
  }

  /** Whatever the others have done, p can take a step that does not fail and brings its call nearer to its end. */
  lemma {:induction false} NextMove(s: State, p: nat) returns (a: Action)
    requires Safe(s) && !s.Phase(p).Idle? && !s.Phase(p).Crashed?
    ensures Passes(a)
    ensures var t := Step(s, Event(p, a));
      if t.Phase(p).Idle? then |t.ended| == |s.ended| + 1 && Last(t.ended).process == p
      else !t.Phase(p).Crashed? && t.ended == s.ended && Rank(t, p) < Rank(s, p)
  {
    assert PhaseSafe(s, s.Phase(p));
    match s.Phase(p)
    case Opening(_) => a := Open;
    case Reading(_, _, _) => a := NextRead(s, p);
    case Drawing => a := NextDraw(s, p);
    case Writing(material, _, inode) => a := WriteChunk(|Text(material)|);
    case Linking(_) => a := LinkCandidate;
    case Cleaning(_, _) => a := Clean(true);
  }

  lemma {:induction false} NextRead(s: State, p: nat) returns (a: Action)
    requires Safe(s) && s.Phase(p).Reading?
    ensures Passes(a)
    ensures var t := Step(s, Event(p, a));
      if t.Phase(p).Idle? then |t.ended| == |s.ended| + 1 && Last(t.ended).process == p
      else !t.Phase(p).Crashed? && t.ended == s.ended && Rank(t, p) < Rank(s, p)
  {
    assert PhaseSafe(s, s.Phase(p));
    var Reading(_, inode, got) := s.Phase(p);
    if |got| == |s.disk.data[inode]| {
      a := EndOfFile;
    } else {
      a := ReadChunk(|s.disk.data[inode]| - |got|);
      assert s.disk.data[inode][..|s.disk.data[inode]|] == s.disk.data[inode];
    }
  }

  lemma {:induction false} NextDraw(s: State, p: nat) returns (a: Action)
    requires Safe(s) && s.Phase(p).Drawing?
    ensures Passes(a)
    ensures var t := Step(s, Event(p, a)); t.Phase(p).Writing? && t.ended == s.ended
  {
    var name := UnusedName(s.used + s.disk.names.Keys + {KEY_NAME});
    var inode := UnusedInode(s.disk.data.Keys);
    assert inode !in s.disk.data.Keys;
    a := Draw(seq(KEY_LENGTH, _ => 0), name, inode);
  }

  lemma {:induction false} RunCons(s: State, e: Event, rest: seq<Event>)
    requires Safe(s)
    ensures Run(s, [e] + rest) == Run(SafeStep(s, e), rest)
  {
    var events := [e] + rest;
    if rest == [] {
      assert events[..0] == [] && Last(events) == e;
    } else {
      assert events[..|events| - 1] == [e] + rest[..|rest| - 1] && Last(events) == Last(rest);
      RunCons(s, e, rest[..|rest| - 1]);
    }
  }

  /**
   No call is ever stuck: from any state of any run, and whatever the other processes are in the middle of,
   p alone can bring its call to its end, without a failure.
   */
  lemma {:induction false} CallCanEnd(s: State, p: nat) returns (events: seq<Event>)
    requires Safe(s) && !s.Phase(p).Idle? && !s.Phase(p).Crashed?
    ensures forall e :: e in events ==> e.process == p && Passes(e.action)
    ensures var t := Run(s, events);
      t.Phase(p).Idle? && |t.ended| == |s.ended| + 1 && Last(t.ended).process == p
    decreases Rank(s, p)
  {
    var a := NextMove(s, p);
    var e := Event(p, a);
    var t := SafeStep(s, e);
    if t.Phase(p).Idle? {
      events := [e];
      RunCons(s, e, []);
    } else {
      var rest := CallCanEnd(t, p);
      events := [e] + rest;
      RunCons(s, e, rest);
    }
    assert [e] + [] == [e];
  }
}
