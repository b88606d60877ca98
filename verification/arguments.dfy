/** `parseArguments` of apps/cli/src/args.ts: the scan over the tokens and the checks of `validateCommand`. */
module Arguments {
  import opened Sequences

  datatype Command =
    | Setup | Login | Logout | Init | Push | Pull | Diff | Status | Help
    | Profiles | Devices | Contexts | Projects | Env | History | Rollback

  datatype Setting =
    | Profile | Environment | Output | From | RecoveryCodeFile | Transfer
    | To | WrapperId | Team | Name | Remote | Limit

  datatype Switch = NoOpen | NoInput | Force | Json | Debug | Stdout | Reveal

  datatype Classification = Shared | UserDefined

  // ---------- Spelling ----------

  function CommandName(c: Command): string {
    match c
    case Setup => "setup" case Login => "login" case Logout => "logout" case Init => "init"
    case Push => "push" case Pull => "pull" case Diff => "diff" case Status => "status" case Help => "help"
    case Profiles => "profile" case Devices => "device" case Contexts => "context" case Projects => "project"
    case Env => "env" case History => "history" case Rollback => "rollback"
  }

  function SettingName(s: Setting): string {
    match s
    case Profile => "--profile" case Environment => "--environment" case Output => "--output" case From => "--from"
    case RecoveryCodeFile => "--recovery-code-file" case Transfer => "--transfer" case To => "--to"
    case WrapperId => "--wrapper-id" case Team => "--team" case Name => "--name" case Remote => "--remote"
    case Limit => "--limit"
  }

  function SwitchName(s: Switch): string {
    match s
    case NoOpen => "--no-open" case NoInput => "--no-input" case Force => "--force" case Json => "--json"
    case Debug => "--debug" case Stdout => "--stdout" case Reveal => "--reveal"
  }

  function ClassificationName(c: Classification): string {
    match c
    case Shared => "shared"
    case UserDefined => "user-defined"
  }

  const CLASSIFY := "--classify"
  const VARIABLE := "--variable"

  function ReadCommand(token: string): Option<Command> {
    match token
    case "setup" => Some(Setup) case "login" => Some(Login) case "logout" => Some(Logout) case "init" => Some(Init)
    case "push" => Some(Push) case "pull" => Some(Pull) case "diff" => Some(Diff) case "status" => Some(Status)
    case "help" => Some(Help) case "profile" => Some(Profiles) case "device" => Some(Devices)
    case "context" => Some(Contexts) case "project" => Some(Projects) case "env" => Some(Env)
    case "history" => Some(History) case "rollback" => Some(Rollback)
    case _ => None
  }

  datatype FlagKind =
    | SettingFlag(setting: Setting) | ClassifyFlag | VariableFlag | SwitchFlag(switch: Switch) | Skipped | Refused

  /** What the text before any `=` names; forbidden and unknown options are refused alike. */
  function ReadFlag(flag: string): FlagKind {
    match flag
    case "--profile" => SettingFlag(Profile)
    case "--environment" => SettingFlag(Environment)
    case "--output" => SettingFlag(Output)
    case "--from" => SettingFlag(From)
    case "--recovery-code-file" => SettingFlag(RecoveryCodeFile)
    case "--transfer" => SettingFlag(Transfer)
    case "--to" => SettingFlag(To)
    case "--wrapper-id" => SettingFlag(WrapperId)
    case "--team" => SettingFlag(Team)
    case "--name" => SettingFlag(Name)
    case "--remote" => SettingFlag(Remote)
    case "--limit" => SettingFlag(Limit)
    case "--classify" => ClassifyFlag
    case "--variable" => VariableFlag
    case "--no-open" => SwitchFlag(NoOpen)
    case "--no-input" => SwitchFlag(NoInput)
    case "--force" => SwitchFlag(Force)
    case "--json" => SwitchFlag(Json)
    case "--debug" => SwitchFlag(Debug)
    case "--stdout" => SwitchFlag(Stdout)
    case "--reveal" => SwitchFlag(Reveal)
    case "--help" => Skipped
    case "--version" => Skipped
    case _ => Refused
  }

  lemma {:induction false} CommandReads(c: Command)
    ensures ReadCommand(CommandName(c)) == Some(c)
  {
  }

  lemma {:induction false} SettingReads(s: Setting)
    ensures ReadFlag(SettingName(s)) == SettingFlag(s)
  {
  }

  lemma {:induction false} SwitchReads(s: Switch)
    ensures ReadFlag(SwitchName(s)) == SwitchFlag(s)
  {
  }

  // ---------- The parsed record ----------

  /** What the words of the command line fill in, and what its options do. */
  datatype Words = Words(command: Option<Command>, subcommand: Option<string>, positionals: seq<string>)

  datatype Options = Options(
    settings: map<Setting, string>,
    classifications: map<string, Classification>,
    variables: seq<string>,
    switches: set<Switch>)

  datatype Parsed = Parsed(words: Words, options: Options)

  const START := Parsed(Words(None, None, []), Options(map[], map[], [], {}))

  predicate IsFlag(token: string): (flag: bool)
    ensures flag <==> "--" <= token
  {
    |token| >= 2 && token[0] == '-' && token[1] == '-'
  }

  predicate TakesSubcommand(c: Command) {
    c == Profiles || c == Devices || c == Projects || c == Env || c == Contexts
  }

  /** A subcommand is still wanted; the empty string counts as none. */
  predicate WantsSubcommand(w: Words) {
    w.command.Some? && TakesSubcommand(w.command.value) && (w.subcommand.None? || w.subcommand.value == "")
  }

  function TakeWord(w: Words, token: string): Option<Words> {
    if w.command.None? then
      match ReadCommand(token)
      case Some(c) => Some(w.(command := Some(c)))
      case None => None
    else if WantsSubcommand(w) then Some(w.(subcommand := Some(token)))
    else Some(w.(positionals := w.positionals + [token]))
  }

  predicate IsNameStart(c: char) {
    'A' <= c <= 'Z' || 'a' <= c <= 'z' || c == '_'
  }

  predicate IsVariableName(name: string) {
    name != "" && IsNameStart(name[0]) && forall i :: 1 <= i < |name| ==> IsNameStart(name[i]) || '0' <= name[i] <= '9'
  }

  /** The characters of a variable name: ASCII letters, digits and the underscore, and no digit at first. */
  lemma {:induction false} VariableNames(name: string)
    ensures IsVariableName(name) <==>
      && |name| > 0 && !(48 <= name[0] as int <= 57)
      && forall i :: 0 <= i < |name| ==>
           var code := name[i] as int;
           48 <= code <= 57 || 65 <= code <= 90 || code == 95 || 97 <= code <= 122
  {
  }

  function ReadClassification(text: string): Option<Classification> {
    match text
    case "shared" => Some(Shared)
    case "user-defined" => Some(UserDefined)
    case _ => None
  }

  /** Assigning a string to `__proto__` of a plain object does nothing. */
  const PROTO := "__proto__"

  function Classify(m: map<string, Classification>, name: string, c: Classification): map<string, Classification> {
    if name == PROTO then m else m[name := c]
  }

  /** One option with its value, as the command line gives it. */
  datatype Assignment =
    | Set(setting: Setting, value: string)
    | Mark(name: string, classification: Classification)
    | Refer(variable: string)
    | Turn(switch: Switch)

  function Apply(o: Options, a: Assignment): Options {
    match a
    case Set(setting, value) => o.(settings := o.settings[setting := value])
    case Mark(name, c) => o.(classifications := Classify(o.classifications, name, c))
    case Refer(variable) => o.(variables := o.variables + [variable])
    case Turn(switch) => o.(switches := o.switches + {switch})
  }

  predicate GoodValue(value: string) {
    value != "" && !IsFlag(value)
  }

  /** `assignValue` on the value of a flag that needs one. */
  function ReadValue(kind: FlagKind, value: string): Option<Assignment>
    requires kind.SettingFlag? || kind.ClassifyFlag? || kind.VariableFlag?
  {
    if !GoodValue(value) then None
    else
      match kind
      case SettingFlag(setting) => Some(Set(setting, value))
      case VariableFlag => Some(Refer(value))
      case ClassifyFlag =>
        if '=' !in value then None
        else
          var at := IndexOf(value, '=');
          var c := ReadClassification(value[at + 1..]);
          if IsVariableName(value[..at]) && c.Some? then Some(Mark(value[..at], c.value)) else None
  }

  // ---------- The scan ----------

  function FlagOf(token: string): string {
    if '=' in token then token[..IndexOf(token, '=')] else token
  }

  /** What one option takes from the front of the tokens: nothing, or one assignment, and how many tokens. */
  datatype Taken = Bad | Taken(assignment: Option<Assignment>, length: nat)

  function TakeFlag(args: seq<string>): (t: Taken)
    requires args != []
    ensures t.Taken? ==> 1 <= t.length <= 2 && t.length <= |args|
  {
    var token := args[0];
    var kind := ReadFlag(FlagOf(token));
    match kind
    case Refused => Bad
    case Skipped => Taken(None, 1)
    case SwitchFlag(switch) => Taken(Some(Turn(switch)), 1)
    case _ =>
      if '=' in token then
        var a := ReadValue(kind, token[IndexOf(token, '=') + 1..]);
        if a.Some? then Taken(a, 1) else Bad
      else if |args| < 2 then Bad
      else
        var a := ReadValue(kind, args[1]);
        if a.Some? then Taken(a, 2) else Bad
  }

  /** The loop of `parseArguments` from one state on; None if any token is refused. */
  function Scan(p: Parsed, args: seq<string>): Option<Parsed>
    decreases |args|
  {
    if args == [] then Some(p)
    else if args[0] == "--" then Some(p.(words := p.words.(positionals := p.words.positionals + args[1..])))
    else if IsFlag(args[0]) then
      var t := TakeFlag(args);
      if t.Bad? then None
      else Scan(if t.assignment.Some? then p.(options := Apply(p.options, t.assignment.value)) else p, args[t.length..])
    else
      var words := TakeWord(p.words, args[0]);
      if words.None? then None else Scan(p.(words := words.value), args[1..])
  }

  /** The same as a loop over an index that fills the record in place. */
  method ScanTokens(args: seq<string>) returns (parsed: Option<Parsed>)
    ensures parsed == Scan(START, args)
  {
    var p, index := START, 0;
    while index < |args|
      invariant index <= |args| && Scan(p, args[index..]) == Scan(START, args)
      decreases |args| - index
    {
      var token, rest := args[index], args[index..];
      if token == "--" {
        assert rest[1..] == args[index + 1..];
        return Some(p.(words := p.words.(positionals := p.words.positionals + args[index + 1..])));
      }
      if IsFlag(token) {
        var t := TakeFlag(rest);
        if t.Bad? {
          return None;
        }
        assert rest[t.length..] == args[index + t.length..];
        if t.assignment.Some? {
          p := p.(options := Apply(p.options, t.assignment.value));
        }
        index := index + t.length;
      } else {
        var words := TakeWord(p.words, token);
        if words.None? {
          return None;
        }
        assert rest[1..] == args[index + 1..];
        p := p.(words := words.value);
        index := index + 1;
      }
    }
    return Some(p);
  }

  // ---------- What a command line means ----------

  /**
   One word, or one option: with its value joined by `=` or in the next token, a switch with a value or
   without, or `--help` and `--version`, which the scan skips.
   */
  datatype Piece =
    | Plain(token: string)
    | Joined(assignment: Assignment)
    | Split(assignment: Assignment)
    | On(switch: Switch, value: Option<string>)
    | Skip(token: string)

  /** A command line: pieces, and what follows a bare `--` if there is one. */
  datatype Line = Line(pieces: seq<Piece>, rest: Option<seq<string>>)

  function ValueText(a: Assignment): string {
    match a
    case Set(_, value) => value
    case Mark(name, c) => name + "=" + ClassificationName(c)
    case Refer(variable) => variable
    case Turn(_) => ""
  }

  function FlagText(a: Assignment): string {
    match a
    case Set(setting, _) => SettingName(setting)
    case Mark(_, _) => CLASSIFY
    case Refer(_) => VARIABLE
    case Turn(switch) => SwitchName(switch)
  }

  predicate GoodAssignment(a: Assignment) {
    match a
    case Set(_, value) => GoodValue(value)
    case Mark(name, _) => IsVariableName(name)
    case Refer(variable) => GoodValue(variable)
    case Turn(_) => true
  }

  predicate GoodPiece(piece: Piece) {
    match piece
    case Plain(token) => !IsFlag(token)
    case Joined(a) => !a.Turn? && GoodAssignment(a)
    case Split(a) => !a.Turn? && GoodAssignment(a)
    case On(_, _) => true
    case Skip(token) => ReadFlag(FlagOf(token)) == Skipped
  }

  ghost predicate GoodLine(l: Line) {
    forall i :: 0 <= i < |l.pieces| ==> GoodPiece(l.pieces[i])
  }

  function Tokens(piece: Piece): (tokens: seq<string>)
    ensures 1 <= |tokens| <= 2
  {
    match piece
    case Plain(token) => [token]
    case Joined(a) => [FlagText(a) + "=" + ValueText(a)]
    case Split(a) => [FlagText(a), ValueText(a)]
    case On(switch, None) => [SwitchName(switch)]
    case On(switch, Some(value)) => [SwitchName(switch) + "=" + value]
    case Skip(token) => [token]
  }

  function Printed(pieces: seq<Piece>): seq<string> {
    if pieces == [] then [] else Tokens(pieces[0]) + Printed(pieces[1..])
  }

  function LineTokens(l: Line): seq<string> {
    Printed(l.pieces) + match l.rest case None => [] case Some(rest) => ["--"] + rest
  }

  function AssignmentOf(piece: Piece): Option<Assignment> {
    match piece
    case Joined(a) => Some(a)
    case Split(a) => Some(a)
    case On(switch, _) => Some(Turn(switch))
    case _ => None
  }

  function PlainTokens(pieces: seq<Piece>): seq<string> {
    if pieces == [] then []
    else (if pieces[0].Plain? then [pieces[0].token] else []) + PlainTokens(pieces[1..])
  }

  function Assignments(pieces: seq<Piece>): seq<Assignment> {
    if pieces == [] then []
    else
      (match AssignmentOf(pieces[0]) case Some(a) => [a] case None => [])
      + Assignments(pieces[1..])
  }

  function TakeWords(w: Words, tokens: seq<string>): Option<Words>
    decreases |tokens|
  {
    if tokens == [] then Some(w)
    else
      var next := TakeWord(w, tokens[0]);
      if next.None? then None else TakeWords(next.value, tokens[1..])
  }

  /**
   The first word is the command. After a grouped one the first word that is not empty is its subcommand, and
   empty ones before it are dropped. All the rest are positionals.
   */
  ghost predicate WordsOf(tokens: seq<string>, w: Words) {
    if tokens == [] then w == Words(None, None, [])
    else
      w.command.Some? && tokens[0] == CommandName(w.command.value)
      && if w.command.value !in {Profiles, Devices, Projects, Env, Contexts} then
           w.subcommand == None && w.positionals == tokens[1..]
         else GroupedWords(tokens[1..], w)
  }

  ghost predicate GroupedWords(tokens: seq<string>, w: Words) {
    || (&& (forall i :: 0 <= i < |tokens| ==> tokens[i] == "") && w.positionals == []
        && w.subcommand == if tokens == [] then None else Some(""))
    || exists n :: 0 <= n < |tokens| && tokens[n] != "" && (forall i :: 0 <= i < n ==> tokens[i] == "")
                   && w.subcommand == Some(tokens[n]) && w.positionals == tokens[n + 1..]
  }

  lemma {:induction false} WordsExactly(tokens: seq<string>)
    ensures match TakeWords(START.words, tokens)
      case Some(w) => WordsOf(tokens, w)
      case None => tokens != [] && forall c :: tokens[0] != CommandName(c)
  {
    if tokens != [] {
      if ReadCommand(tokens[0]).Some? {
        var c := ReadCommand(tokens[0]).value;
        NamesCommand(tokens[0]);
        var w := START.words.(command := Some(c));
        assert TakeWord(START.words, tokens[0]) == Some(w);
        if c in {Profiles, Devices, Projects, Env, Contexts} {
          TakesGrouped(w, tokens[1..]);
        } else {
          TakesRest(w, tokens[1..]);
        }
      } else {
        forall c ensures tokens[0] != CommandName(c) {
          CommandReads(c);
        }
      }
    }
  }

  lemma {:induction false} NamesCommand(token: string)
    ensures ReadCommand(token).Some? ==> token == CommandName(ReadCommand(token).value)
  {
  }

  /** With a command that takes no subcommand, or has one, all words are positionals. */
  lemma {:induction false} TakesRest(w: Words, tokens: seq<string>)
    requires w.command.Some?
    requires w.command.value in {Profiles, Devices, Projects, Env, Contexts} ==>
      w.subcommand.Some? && w.subcommand.value != ""
    ensures TakeWords(w, tokens) == Some(w.(positionals := w.positionals + tokens))
    decreases |tokens|
  {
    if tokens == [] {
      assert w.positionals + tokens == w.positionals;
    } else {
      TakesRest(w.(positionals := w.positionals + [tokens[0]]), tokens[1..]);
      assert w.positionals + [tokens[0]] + tokens[1..] == w.positionals + tokens;
    }
  }

  lemma {:induction false} TakesGrouped(w: Words, tokens: seq<string>)
    requires w.command.Some? && w.command.value in {Profiles, Devices, Projects, Env, Contexts}
    requires w.positionals == [] && (w.subcommand.Some? ==> w.subcommand.value == "")
    ensures var r := TakeWords(w, tokens);
      && r.Some? && r.value.command == w.command
      && if tokens == [] then r == Some(w) else GroupedWords(tokens, r.value)
    decreases |tokens|
  {
    if tokens != [] {
      var next := w.(subcommand := Some(tokens[0]));
      assert TakeWord(w, tokens[0]) == Some(next);
      if tokens[0] == "" {
        TakesGrouped(next, tokens[1..]);
        var r := TakeWords(next, tokens[1..]).value;
        if n :| 0 <= n < |tokens[1..]| && tokens[1..][n] != "" && (forall i :: 0 <= i < n ==> tokens[1..][i] == "")
                && r.subcommand == Some(tokens[1..][n]) && r.positionals == tokens[1..][n + 1..]
        {
          assert tokens[n + 1] == tokens[1..][n] && tokens[n + 1 + 1..] == tokens[1..][n + 1..];
        }
      } else {
        TakesRest(next, tokens[1..]);
        assert [] + tokens[1..] == tokens[1..];
        assert tokens[0 + 1..] == tokens[1..];
      }
    }
  }

  function ApplyAll(o: Options, assignments: seq<Assignment>): Options
    decreases |assignments|
  {
    if assignments == [] then o else ApplyAll(Apply(o, assignments[0]), assignments[1..])
  }

  /** The words and the options read apart from each other, and the rest as positionals. */
  function Meaning(p: Parsed, l: Line): Option<Parsed> {
    match TakeWords(p.words, PlainTokens(l.pieces))
    case None => None
    case Some(w) =>
      Some(Parsed(
        match l.rest case None => w case Some(rest) => w.(positionals := w.positionals + rest),
        ApplyAll(p.options, Assignments(l.pieces))))
  }

  // ---------- Reading a command line into pieces ----------

  /** The first piece of the tokens, unless it is an option that is refused. */
  function TakePiece(args: seq<string>): Option<Piece>
    requires args != []
  {
    var token := args[0];
    if !IsFlag(token) then Some(Plain(token))
    else
      var kind := ReadFlag(FlagOf(token));
      match kind
      case Refused => None
      case Skipped => Some(Skip(token))
      case SwitchFlag(switch) =>
        Some(On(switch, if '=' in token then Some(token[IndexOf(token, '=') + 1..]) else None))
      case _ =>
        if '=' in token then
          match ReadValue(kind, token[IndexOf(token, '=') + 1..])
          case Some(a) => Some(Joined(a))
          case None => None
        else if |args| < 2 then None
        else
          match ReadValue(kind, args[1])
          case Some(a) => Some(Split(a))
          case None => None
  }

  function ReadLine(args: seq<string>): Option<Line>
    decreases |args|
  {
    if args == [] then Some(Line([], None))
    else if args[0] == "--" then Some(Line([], Some(args[1..])))
    else
      match TakePiece(args)
      case None => None
      case Some(piece) =>
        if |Tokens(piece)| > |args| then None
        else
          match ReadLine(args[|Tokens(piece)|..])
          case None => None
          case Some(l) => Some(Line([piece] + l.pieces, l.rest))
  }

  // ---------- The scan computes the meaning ----------

  lemma {:induction false} FlagShape(a: Assignment)
    ensures IsFlag(FlagText(a)) && |FlagText(a)| > 2 && '=' !in FlagText(a)
  {
  }

  function KindOf(a: Assignment): FlagKind {
    match a
    case Set(setting, _) => SettingFlag(setting)
    case Mark(_, _) => ClassifyFlag
    case Refer(_) => VariableFlag
    case Turn(switch) => SwitchFlag(switch)
  }

  lemma {:induction false} FlagReads(a: Assignment)
    ensures ReadFlag(FlagText(a)) == KindOf(a)
  {
    match a
    case Set(setting, _) => SettingReads(setting);
    case Turn(switch) => SwitchReads(switch);
    case _ =>
  }

  lemma {:induction false} ValueReads(a: Assignment)
    requires GoodAssignment(a) && !a.Turn?
    ensures ReadValue(KindOf(a), ValueText(a)) == Some(a)
  {
    if a.Mark? {
      var value := ValueText(a);
      assert value[..|a.name|] == a.name && value[|a.name|] == '=';
      assert '=' !in a.name;
      IndexOfIs(value, '=', |a.name|);
      assert value[|a.name| + 1..] == ClassificationName(a.classification);
      assert value[0] == a.name[0] && value[0] != '-';
    }
  }

  lemma {:induction false} JoinedShape(flag: string, value: string)
    requires IsFlag(flag) && '=' !in flag
    ensures var token := flag + "=" + value;
      IsFlag(token) && token != "--" && '=' in token && FlagOf(token) == flag
        && token[IndexOf(token, '=') + 1..] == value
  {
    var token := flag + "=" + value;
    assert token[|flag|] == '=' && token[..|flag|] == flag;
    IndexOfIs(token, '=', |flag|);
  }

  lemma {:induction false} FlagNamed(flag: string)
    ensures match ReadFlag(flag)
      case SettingFlag(setting) => flag == SettingName(setting)
      case ClassifyFlag => flag == CLASSIFY
      case VariableFlag => flag == VARIABLE
      case SwitchFlag(switch) => flag == SwitchName(switch)
      case Skipped => flag == "--help" || flag == "--version"
      case Refused => true
  {
  }

  /** A value that is read is the text of its assignment. */
  lemma {:induction false} ValueNamed(kind: FlagKind, value: string)
    requires kind.SettingFlag? || kind.ClassifyFlag? || kind.VariableFlag?
    ensures match ReadValue(kind, value)
      case Some(a) => GoodAssignment(a) && !a.Turn? && ValueText(a) == value && KindOf(a) == kind
      case None => true
  {
    if kind.ClassifyFlag? && ReadValue(kind, value).Some? {
      var at := IndexOf(value, '=');
      assert value == value[..at] + "=" + value[at + 1..];
    }
  }

  lemma {:induction false} FlagSplits(token: string)
    requires '=' in token
    ensures token == FlagOf(token) + "=" + token[IndexOf(token, '=') + 1..]
  {
  }

  /** What is read as a piece is a good one and prints as it was. */
  lemma {:induction false} PieceIsPrinted(args: seq<string>)
    requires args != [] && args[0] != "--" && TakePiece(args).Some?
    ensures GoodPiece(TakePiece(args).value) && Tokens(TakePiece(args).value) <= args
  {
    if IsFlag(args[0]) {
      if '=' in args[0] {
        JoinedIsPrinted(args);
      } else {
        SplitIsPrinted(args);
      }
    }
  }

  lemma {:induction false} JoinedIsPrinted(args: seq<string>)
    requires args != [] && IsFlag(args[0]) && '=' in args[0] && TakePiece(args).Some?
    ensures GoodPiece(TakePiece(args).value) && Tokens(TakePiece(args).value) <= args
  {
    var kind := ReadFlag(FlagOf(args[0]));
    FlagNamed(FlagOf(args[0]));
    FlagSplits(args[0]);
    if !kind.Skipped? && !kind.SwitchFlag? {
      ValueNamed(kind, args[0][IndexOf(args[0], '=') + 1..]);
    }
  }

  lemma {:induction false} SplitIsPrinted(args: seq<string>)
    requires args != [] && IsFlag(args[0]) && '=' !in args[0] && TakePiece(args).Some?
    ensures GoodPiece(TakePiece(args).value) && Tokens(TakePiece(args).value) <= args
  {
    var kind := ReadFlag(FlagOf(args[0]));
    FlagNamed(FlagOf(args[0]));
    if !kind.Skipped? && !kind.SwitchFlag? {
      ValueNamed(kind, args[1]);
      assert args[..2] == [args[0], args[1]];
    }
  }

  /** A good piece is read back from its tokens, whatever follows. */
  lemma {:induction false} PieceReads(piece: Piece, rest: seq<string>)
    requires GoodPiece(piece) && (piece.Plain? ==> piece.token != "--")
    ensures Tokens(piece)[0] != "--" && TakePiece(Tokens(piece) + rest) == Some(piece)
  {
    var args := Tokens(piece) + rest;
    match piece
    case Plain(_) =>
    case Skip(token) => SkipShape(token);
    case On(switch, value) =>
      FlagShape(Turn(switch));
      SwitchReads(switch);
      if value.Some? {
        JoinedShape(SwitchName(switch), value.value);
      }
    case _ => AssignmentReads(piece, rest);
  }

  lemma {:induction false} SkippedFlags(flag: string)
    ensures ReadFlag(flag) == Skipped <==> flag in ["--help", "--version"]
    ensures ReadFlag(flag) == Skipped ==> '=' !in flag
    ensures ReadFlag(flag) != Refused ==> IsFlag(flag) && |flag| > 2
  {
    FlagNamed(flag);
    assert ReadFlag("--help") == Skipped;
    assert ReadFlag("--version") == Skipped;
  }

  lemma {:induction false} SkipShape(token: string)
    requires ReadFlag(FlagOf(token)) == Skipped
    ensures IsFlag(token) && token != "--"
  {
    SkippedFlags(FlagOf(token));
    assert FlagOf(token) <= token;
  }

  lemma {:induction false} AssignmentReads(piece: Piece, rest: seq<string>)
    requires GoodPiece(piece) && (piece.Joined? || piece.Split?)
    ensures Tokens(piece)[0] != "--" && TakePiece(Tokens(piece) + rest) == Some(piece)
  {
    var a, args := piece.assignment, Tokens(piece) + rest;
    FlagShape(a);
    FlagReads(a);
    ValueReads(a);
    if piece.Joined? {
      JoinedShape(FlagText(a), ValueText(a));
    } else {
      assert args[0] == FlagText(a) && args[1] == ValueText(a);
    }
  }

  lemma {:induction false} LineCons(piece: Piece, l: Line)
    ensures LineTokens(Line([piece] + l.pieces, l.rest)) == Tokens(piece) + LineTokens(l)
  {
    assert ([piece] + l.pieces)[1..] == l.pieces;
  }

  lemma {:induction false} LineGrows(args: seq<string>, piece: Piece, l: Line)
    requires GoodPiece(piece) && Tokens(piece) <= args && GoodLine(l) && LineTokens(l) == args[|Tokens(piece)|..]
    ensures GoodLine(Line([piece] + l.pieces, l.rest)) && LineTokens(Line([piece] + l.pieces, l.rest)) == args
  {
    LineCons(piece, l);
    assert args == Tokens(piece) + args[|Tokens(piece)|..];
  }

  /** What is read as a command line prints as it was. */
  lemma {:induction false} LineIsPrinted(args: seq<string>)
    ensures ReadLine(args).Some? ==> GoodLine(ReadLine(args).value) && LineTokens(ReadLine(args).value) == args
    decreases |args|
  {
    if args != [] && args[0] != "--" && ReadLine(args).Some? {
      var piece := TakePiece(args).value;
      PieceIsPrinted(args);
      LineIsPrinted(args[|Tokens(piece)|..]);
      LineGrows(args, piece, ReadLine(args[|Tokens(piece)|..]).value);
    }
  }

  /** Every command line of good pieces is read back from its tokens. */
  lemma {:induction false} LineReads(l: Line)
    requires GoodLine(l)
    ensures ReadLine(LineTokens(l)) == Some(l)
    decreases |l.pieces|
  {
    if l.pieces != [] {
      var piece, more := l.pieces[0], Line(l.pieces[1..], l.rest);
      LineReads(more);
      PieceReads(piece, LineTokens(more)) by { assert !IsFlag("-") && IsFlag("--"); }
      assert l.pieces == [piece] + more.pieces;
      LineCons(piece, more);
      assert LineTokens(l)[|Tokens(piece)|..] == LineTokens(more);
    } else if l.rest.Some? {
      assert LineTokens(l) == ["--"] + l.rest.value && LineTokens(l)[1..] == l.rest.value;
    }
  }

  /** The loop takes an option exactly as the reading does. */
  lemma {:induction false} FlagIsPiece(args: seq<string>)
    requires args != [] && IsFlag(args[0])
    ensures TakeFlag(args) == match TakePiece(args)
      case None => Bad
      case Some(piece) => Taken(AssignmentOf(piece), |Tokens(piece)|)
  {
  }

  /** Words and options do not touch each other: on every list of tokens the scan gives the meaning of its pieces. */
  lemma {:induction false} ScanIsMeaning(p: Parsed, args: seq<string>)
    ensures Scan(p, args) == match ReadLine(args) case None => None case Some(l) => Meaning(p, l)
    decreases |args|
  {
    if args == [] || args[0] == "--" {
    } else if IsFlag(args[0]) {
      FlagIsPiece(args);
      if TakePiece(args).Some? {
        var piece := TakePiece(args).value;
        PieceIsPrinted(args);
        if ReadLine(args[|Tokens(piece)|..]).Some? {
          OptionFirst(p, piece, args[|Tokens(piece)|..]);
        }
        var next := if AssignmentOf(piece).Some? then p.(options := Apply(p.options, AssignmentOf(piece).value)) else p;
        ScanIsMeaning(next, args[|Tokens(piece)|..]);
      }
    } else {
      if ReadLine(args[1..]).Some? {
        WordFirst(p, args[0], args[1..]);
      }
      if TakeWord(p.words, args[0]).Some? {
        ScanIsMeaning(p.(words := TakeWord(p.words, args[0]).value), args[1..]);
      }
    }
  }

  lemma {:induction false} OptionFirst(p: Parsed, piece: Piece, left: seq<string>)
    requires !piece.Plain? && ReadLine(left).Some?
    ensures var next :=
        if AssignmentOf(piece).Some? then p.(options := Apply(p.options, AssignmentOf(piece).value)) else p;
      Meaning(p, Line([piece] + ReadLine(left).value.pieces, ReadLine(left).value.rest))
        == Meaning(next, ReadLine(left).value)
  {
    var l := ReadLine(left).value;
    var pieces := [piece] + l.pieces;
    assert pieces[1..] == l.pieces;
    assert PlainTokens(pieces) == PlainTokens(l.pieces);
    if AssignmentOf(piece).Some? {
      assert Assignments(pieces) == [AssignmentOf(piece).value] + Assignments(l.pieces);
      assert ([AssignmentOf(piece).value] + Assignments(l.pieces))[1..] == Assignments(l.pieces);
    } else {
      assert Assignments(pieces) == Assignments(l.pieces);
    }
  }

  lemma {:induction false} WordFirst(p: Parsed, token: string, left: seq<string>)
    requires ReadLine(left).Some?
    ensures Meaning(p, Line([Plain(token)] + ReadLine(left).value.pieces, ReadLine(left).value.rest)) ==
      match TakeWord(p.words, token)
      case None => None
      case Some(w) => Meaning(p.(words := w), ReadLine(left).value)
  {
    var l := ReadLine(left).value;
    var pieces := [Plain(token)] + l.pieces;
    assert pieces[1..] == l.pieces;
    assert PlainTokens(pieces) == [token] + PlainTokens(l.pieces) && Assignments(pieces) == Assignments(l.pieces);
    assert ([token] + PlainTokens(l.pieces))[1..] == PlainTokens(l.pieces);
  }

  /** A flag that needs a value takes any text, usable or not, joined by `=` just as in the next token. */
  lemma {:induction false} SpellingsAgree(p: Parsed, flag: string, value: string, rest: seq<string>)
    requires ReadFlag(flag).SettingFlag? || ReadFlag(flag).ClassifyFlag? || ReadFlag(flag).VariableFlag?
    ensures Scan(p, [flag, value] + rest) == Scan(p, [flag + "=" + value] + rest)
  {
    FlagNamed(flag);
    assert IsFlag(flag) && flag != "--" && '=' !in flag;
    JoinedShape(flag, value);
    var split, joined := [flag, value] + rest, [flag + "=" + value] + rest;
    assert split[0] == flag && split[1] == value && split[2..] == rest && joined[1..] == rest;
  }

  /** A switch is turned on even when it is given a value, which is ignored. */
  lemma {:induction false} SwitchIgnoresValue(p: Parsed, switch: Switch, value: string, rest: seq<string>)
    ensures Scan(p, [SwitchName(switch) + "=" + value] + rest) == Scan(p, [SwitchName(switch)] + rest)
    ensures Scan(p, [SwitchName(switch)] + rest) == Scan(p.(options := Apply(p.options, Turn(switch))), rest)
  {
    PieceScans(p, On(switch, Some(value)), rest);
    PieceScans(p, On(switch, None), rest);
  }

  /** The scan goes past one piece. */
  lemma {:induction false} PieceScans(p: Parsed, piece: Piece, rest: seq<string>)
    requires GoodPiece(piece) && !piece.Plain?
    ensures Scan(p, Tokens(piece) + rest) ==
      Scan(match AssignmentOf(piece) case Some(a) => p.(options := Apply(p.options, a)) case None => p, rest)
  {
    var args := Tokens(piece) + rest;
    PieceReads(piece, rest);
    PieceIsFlag(piece);
    FlagIsPiece(args);
    assert args[0] == Tokens(piece)[0] && args[|Tokens(piece)|..] == rest;
  }

  lemma {:induction false} PieceIsFlag(piece: Piece)
    requires GoodPiece(piece) && !piece.Plain?
    ensures IsFlag(Tokens(piece)[0])
  {
    match piece
    case Skip(token) => SkipShape(token);
    case On(switch, _) => FlagShape(Turn(switch));
    case Joined(a) => FlagShape(a);
    case Split(a) => FlagShape(a);
  }

  /** A bare `--` with nothing after it changes nothing. */
  lemma {:induction false} DashesOptional(p: Parsed, args: seq<string>)
    requires "--" !in args
    ensures Scan(p, args + ["--"]) == Scan(p, args)
    decreases |args|
  {
    var longer := args + ["--"];
    if args == [] {
      assert longer[1..] == [];
      assert p.words.positionals + [] == p.words.positionals;
    } else if IsFlag(args[0]) {
      var t := TakeFlag(args);
      assert TakeFlag(longer) == t;
      if t.Taken? {
        assert longer[t.length..] == args[t.length..] + ["--"];
        DashesOptional(
          if t.assignment.Some? then p.(options := Apply(p.options, t.assignment.value)) else p, args[t.length..]);
      }
    } else {
      assert longer[1..] == args[1..] + ["--"];
      var words := TakeWord(p.words, args[0]);
      if words.Some? {
        DashesOptional(p.(words := words.value), args[1..]);
      }
    }
  }

  /** The positionals that a command line forces after its `--`. */
  function Forced(l: Line): seq<string> {
    match l.rest case None => [] case Some(rest) => rest
  }

  /**
   Any two command lines whose words are the same in order, and whose options have the same effect, are
   scanned alike: options may move around the words, change their spelling, and be skipped or repeated.
   */
  lemma {:induction false} OptionsMayMove(args: seq<string>, moved: seq<string>)
    requires ReadLine(args).Some? && ReadLine(moved).Some?
    requires var a, b := ReadLine(args).value, ReadLine(moved).value;
      && PlainTokens(a.pieces) == PlainTokens(b.pieces) && Forced(a) == Forced(b)
      && SameEffect(Assignments(a.pieces), Assignments(b.pieces))
    ensures Scan(START, args) == Scan(START, moved)
  {
    ScanIsMeaning(START, args);
    ScanIsMeaning(START, moved);
    var a, b := ReadLine(args).value, ReadLine(moved).value;
    SameEffectSameOptions(Assignments(a.pieces), Assignments(b.pieces));
    assert forall w: Words :: w.positionals + [] == w.positionals;
  }

  // ---------- What the order of options means ----------

  /** The value a setting ends up with: the last one given. */
  function LastSetting(assignments: seq<Assignment>, s: Setting): Option<string> {
    if assignments == [] then None
    else
      var a := Last(assignments);
      if a.Set? && a.setting == s then Some(a.value) else LastSetting(assignments[..|assignments| - 1], s)
  }

  function LastMark(assignments: seq<Assignment>, name: string): Option<Classification> {
    if assignments == [] then None
    else
      var a := Last(assignments);
      if a.Mark? && a.name == name && name != PROTO then Some(a.classification)
      else LastMark(assignments[..|assignments| - 1], name)
  }

  function Referred(assignments: seq<Assignment>): seq<string> {
    if assignments == [] then []
    else
      var a := Last(assignments);
      Referred(assignments[..|assignments| - 1]) + if a.Refer? then [a.variable] else []
  }

  /** The same last values, the same references in the same order, the same switches. */
  ghost predicate SameEffect(a: seq<Assignment>, b: seq<Assignment>) {
    && (forall s :: LastSetting(a, s) == LastSetting(b, s))
    && (forall n :: LastMark(a, n) == LastMark(b, n))
    && Referred(a) == Referred(b)
    && (forall w :: Turn(w) in a <==> Turn(w) in b)
  }

  lemma {:induction false} ApplyAllSnoc(o: Options, assignments: seq<Assignment>, a: Assignment)
    ensures ApplyAll(o, assignments + [a]) == Apply(ApplyAll(o, assignments), a)
    decreases |assignments|
  {
    if assignments == [] {
      assert (assignments + [a])[1..] == [];
    } else {
      assert (assignments + [a])[1..] == assignments[1..] + [a];
      ApplyAllSnoc(Apply(o, assignments[0]), assignments[1..], a);
    }
  }

  /** The last value wins, references add up in order, switches stay on. */
  lemma {:induction false} OptionsAre(assignments: seq<Assignment>)
    ensures var o := ApplyAll(START.options, assignments);
      && (forall s :: (s in o.settings <==> LastSetting(assignments, s).Some?)
                      && (s in o.settings ==> LastSetting(assignments, s) == Some(o.settings[s])))
      && (forall n :: (n in o.classifications <==> LastMark(assignments, n).Some?)
                      && (n in o.classifications ==> LastMark(assignments, n) == Some(o.classifications[n])))
      && o.variables == Referred(assignments)
      && (forall w :: w in o.switches <==> Turn(w) in assignments)
  {
    if assignments != [] {
      var before, a := assignments[..|assignments| - 1], Last(assignments);
      assert assignments == before + [a];
      OptionsAre(before);
      ApplyAllSnoc(START.options, before, a);
    }
  }

  lemma {:induction false} SameEffectSameOptions(a: seq<Assignment>, b: seq<Assignment>)
    requires SameEffect(a, b)
    ensures ApplyAll(START.options, a) == ApplyAll(START.options, b)
  {
    OptionsAre(a);
    OptionsAre(b);
    var x, y := ApplyAll(START.options, a), ApplyAll(START.options, b);
    assert x.settings == y.settings;
    assert x.classifications == y.classifications;
    assert x.switches == y.switches;
  }

  // ---------- The canonical printer ----------

  const ALL_SETTINGS :=
    [Profile, Environment, Output, From, RecoveryCodeFile, Transfer, To, WrapperId, Team, Name, Remote, Limit]

  const ALL_SWITCHES := [NoOpen, NoInput, Force, Json, Debug, Stdout, Reveal]

  function SetList(order: seq<Setting>, settings: map<Setting, string>): seq<Assignment> {
    if order == [] then []
    else SetList(order[..|order| - 1], settings)
         + if Last(order) in settings then [Set(Last(order), settings[Last(order)])] else []
  }

  function MarkList(order: seq<string>, marks: map<string, Classification>): seq<Assignment> {
    if order == [] then []
    else
      MarkList(order[..|order| - 1], marks)
      + if Last(order) in marks then [Mark(Last(order), marks[Last(order)])] else []
  }

  function ReferList(variables: seq<string>): seq<Assignment> {
    if variables == [] then [] else ReferList(variables[..|variables| - 1]) + [Refer(Last(variables))]
  }

  function TurnList(order: seq<Switch>, switches: set<Switch>): seq<Assignment> {
    if order == [] then []
    else TurnList(order[..|order| - 1], switches) + if Last(order) in switches then [Turn(Last(order))] else []
  }

  /** Settings, classifications in the given order of names, references, switches. */
  function OptionList(o: Options, names: seq<string>): seq<Assignment> {
    SetList(ALL_SETTINGS, o.settings) + MarkList(names, o.classifications)
    + (ReferList(o.variables) + TurnList(ALL_SWITCHES, o.switches))
  }

  function PieceOf(a: Assignment): Piece {
    match a
    case Turn(switch) => On(switch, None)
    case _ => Joined(a)
  }

  function JoinedAll(assignments: seq<Assignment>): seq<Piece> {
    seq(|assignments|, i requires 0 <= i < |assignments| => PieceOf(assignments[i]))
  }

  function WordPieces(w: Words): seq<Piece> {
    match (w.command, w.subcommand)
    case (Some(c), Some(sub)) => [Plain(CommandName(c)), Plain(sub)]
    case (Some(c), None) => [Plain(CommandName(c))]
    case _ => []
  }

  /** Command, subcommand, `--flag=value` options, switches, `--`, positionals. */
  function Render(p: Parsed, names: seq<string>): seq<string> {
    LineTokens(Line(WordPieces(p.words) + JoinedAll(OptionList(p.options, names)), Some(p.words.positionals)))
  }

  /** What every scan that met a command leaves behind. */
  ghost predicate WellFormed(p: Parsed) {
    && p.words.command.Some?
    && (p.words.subcommand.Some? ==> TakesSubcommand(p.words.command.value) && !IsFlag(p.words.subcommand.value))
    && GoodOptions(p.options)
  }

  ghost predicate GoodOptions(o: Options) {
    && (forall s :: s in o.settings ==> GoodValue(o.settings[s]))
    && (forall n :: n in o.classifications ==> IsVariableName(n) && n != PROTO)
    && (forall v :: v in o.variables ==> GoodValue(v))
  }

  lemma {:induction false} TakenIsGood(o: Options, args: seq<string>)
    requires args != [] && GoodOptions(o) && TakeFlag(args).Taken? && TakeFlag(args).assignment.Some?
    ensures GoodOptions(Apply(o, TakeFlag(args).assignment.value))
  {
  }

  lemma {:induction false} ScanWellFormed(p: Parsed, args: seq<string>)
    requires GoodOptions(p.options)
    requires p.words.subcommand.Some? ==>
      p.words.command.Some? && TakesSubcommand(p.words.command.value) && !IsFlag(p.words.subcommand.value)
    ensures Scan(p, args).Some? && Scan(p, args).value.words.command.Some? ==> WellFormed(Scan(p, args).value)
    decreases |args|
  {
    if args != [] && args[0] != "--" {
      if IsFlag(args[0]) {
        var t := TakeFlag(args);
        if t.Taken? {
          if t.assignment.Some? {
            TakenIsGood(p.options, args);
          }
          ScanWellFormed(
            if t.assignment.Some? then p.(options := Apply(p.options, t.assignment.value)) else p, args[t.length..]);
        }
      } else {
        var words := TakeWord(p.words, args[0]);
        if words.Some? {
          ScanWellFormed(p.(words := words.value), args[1..]);
        }
      }
    }
  }

  lemma {:induction false} ApplyAllConcat(o: Options, a: seq<Assignment>, b: seq<Assignment>)
    ensures ApplyAll(o, a + b) == ApplyAll(ApplyAll(o, a), b)
    decreases |a|
  {
    if a == [] {
      assert a + b == b;
    } else {
      assert (a + b)[1..] == a[1..] + b;
      ApplyAllConcat(Apply(o, a[0]), a[1..], b);
    }
  }

  ghost predicate GoodAll(assignments: seq<Assignment>) {
    forall i :: 0 <= i < |assignments| ==> GoodAssignment(assignments[i])
  }

  lemma {:induction false} SetListDoes(o: Options, order: seq<Setting>, settings: map<Setting, string>)
    requires forall s :: s in settings ==> GoodValue(settings[s])
    ensures GoodAll(SetList(order, settings))
    ensures var r := ApplyAll(o, SetList(order, settings));
      && r == o.(settings := r.settings)
      && forall s :: if s in order && s in settings then s in r.settings && r.settings[s] == settings[s]
                     else (s in r.settings <==> s in o.settings) && (s in o.settings ==> r.settings[s] == o.settings[s])
  {
    if order != [] {
      var init, s := order[..|order| - 1], Last(order);
      SetListDoes(o, init, settings);
      assert forall x :: x in order <==> x in init || x == s;
      if s in settings {
        ApplyAllSnoc(o, SetList(init, settings), Set(s, settings[s]));
      } else {
        assert SetList(order, settings) == SetList(init, settings);
      }
    }
  }

  lemma {:induction false} MarkListDoes(o: Options, order: seq<string>, marks: map<string, Classification>)
    requires forall n :: n in marks ==> IsVariableName(n) && n != PROTO
    ensures GoodAll(MarkList(order, marks))
    ensures var r := ApplyAll(o, MarkList(order, marks));
      && r == o.(classifications := r.classifications)
      && forall n :: if n in order && n in marks then n in r.classifications && r.classifications[n] == marks[n]
                     else (n in r.classifications <==> n in o.classifications)
                          && (n in o.classifications ==> r.classifications[n] == o.classifications[n])
  {
    if order != [] {
      var init, n := order[..|order| - 1], Last(order);
      MarkListDoes(o, init, marks);
      assert forall x :: x in order <==> x in init || x == n;
      if n in marks {
        ApplyAllSnoc(o, MarkList(init, marks), Mark(n, marks[n]));
      } else {
        assert MarkList(order, marks) == MarkList(init, marks);
      }
    }
  }

  lemma {:induction false} ReferListDoes(o: Options, variables: seq<string>)
    requires forall v :: v in variables ==> GoodValue(v)
    ensures GoodAll(ReferList(variables))
    ensures ApplyAll(o, ReferList(variables)) == o.(variables := o.variables + variables)
  {
    if variables == [] {
      assert o.variables + [] == o.variables;
    } else {
      var init, v := variables[..|variables| - 1], Last(variables);
      ReferListDoes(o, init);
      ApplyAllSnoc(o, ReferList(init), Refer(v));
      assert o.variables + init + [v] == o.variables + variables;
    }
  }

  lemma {:induction false} TurnListDoes(o: Options, order: seq<Switch>, switches: set<Switch>)
    ensures GoodAll(TurnList(order, switches))
    ensures var r := ApplyAll(o, TurnList(order, switches));
      && r == o.(switches := r.switches)
      && forall w :: w in r.switches <==> w in o.switches || (w in order && w in switches)
  {
    if order != [] {
      var init, w := order[..|order| - 1], Last(order);
      TurnListDoes(o, init, switches);
      assert forall x :: x in order <==> x in init || x == w;
      if w in switches {
        ApplyAllSnoc(o, TurnList(init, switches), Turn(w));
      } else {
        assert TurnList(order, switches) == TurnList(init, switches);
      }
    }
  }

  lemma {:induction false} OptionListDoes(o: Options, names: seq<string>)
    requires GoodOptions(o) && Elements(names) == o.classifications.Keys
    ensures GoodAll(OptionList(o, names)) && ApplyAll(START.options, OptionList(o, names)) == o
  {
    var first := SetList(ALL_SETTINGS, o.settings) + MarkList(names, o.classifications);
    var second := ReferList(o.variables) + TurnList(ALL_SWITCHES, o.switches);
    MapsDo(o, names);
    ListsDo(o);
    ApplyAllConcat(START.options, first, second);
  }

  lemma {:induction false} MapsDo(o: Options, names: seq<string>)
    requires GoodOptions(o) && Elements(names) == o.classifications.Keys
    ensures var first := SetList(ALL_SETTINGS, o.settings) + MarkList(names, o.classifications);
      GoodAll(first) && ApplyAll(START.options, first) == o.(variables := [], switches := {})
  {
    var sets, marks := SetList(ALL_SETTINGS, o.settings), MarkList(names, o.classifications);
    AllSettings(o.settings);
    AllMarks(START.options.(settings := o.settings), names, o.classifications);
    ApplyAllConcat(START.options, sets, marks);
  }

  lemma {:induction false} AllSettings(settings: map<Setting, string>)
    requires forall s :: s in settings ==> GoodValue(settings[s])
    ensures GoodAll(SetList(ALL_SETTINGS, settings))
    ensures ApplyAll(START.options, SetList(ALL_SETTINGS, settings)) == START.options.(settings := settings)
  {
    AllListed();
    SetListDoes(START.options, ALL_SETTINGS, settings);
    assert ApplyAll(START.options, SetList(ALL_SETTINGS, settings)).settings == settings;
  }

  lemma {:induction false} AllMarks(o: Options, names: seq<string>, marks: map<string, Classification>)
    requires o.classifications == map[] && Elements(names) == marks.Keys
    requires forall n :: n in marks ==> IsVariableName(n) && n != PROTO
    ensures GoodAll(MarkList(names, marks))
    ensures ApplyAll(o, MarkList(names, marks)) == o.(classifications := marks)
  {
    MarkListDoes(o, names, marks);
    assert forall n :: n in names <==> n in Elements(names);
    assert ApplyAll(o, MarkList(names, marks)).classifications == marks;
  }

  lemma {:induction false} ListsDo(o: Options)
    requires GoodOptions(o)
    ensures var second := ReferList(o.variables) + TurnList(ALL_SWITCHES, o.switches);
      GoodAll(second) && ApplyAll(o.(variables := [], switches := {}), second) == o
  {
    var o0 := o.(variables := [], switches := {});
    var refers, turns := ReferList(o.variables), TurnList(ALL_SWITCHES, o.switches);
    AllListed();
    ReferListDoes(o0, o.variables);
    var o1 := ApplyAll(o0, refers);
    assert [] + o.variables == o.variables;
    TurnListDoes(o1, ALL_SWITCHES, o.switches);
    assert ApplyAll(o1, turns).switches == o.switches;
    ApplyAllConcat(o0, refers, turns);
  }

  lemma {:induction false} AllListed()
    ensures forall s: Setting :: s in ALL_SETTINGS
    ensures forall w: Switch :: w in ALL_SWITCHES
  {
    forall s: Setting ensures s in ALL_SETTINGS {
      assert ALL_SETTINGS[SettingIndex(s)] == s;
    }
    forall w: Switch ensures w in ALL_SWITCHES {
      assert ALL_SWITCHES[SwitchIndex(w)] == w;
    }
  }

  function SettingIndex(s: Setting): (i: nat)
    ensures i < |ALL_SETTINGS|
  {
    match s
    case Profile => 0 case Environment => 1 case Output => 2 case From => 3
    case RecoveryCodeFile => 4 case Transfer => 5
    case To => 6 case WrapperId => 7 case Team => 8 case Name => 9 case Remote => 10 case Limit => 11
  }

  function SwitchIndex(w: Switch): (i: nat)
    ensures i < |ALL_SWITCHES|
  {
    match w
    case NoOpen => 0 case NoInput => 1 case Force => 2 case Json => 3 case Debug => 4 case Stdout => 5 case Reveal => 6
  }

  lemma {:induction false} JoinedAllReads(assignments: seq<Assignment>)
    ensures Assignments(JoinedAll(assignments)) == assignments && PlainTokens(JoinedAll(assignments)) == []
  {
    if assignments != [] {
      var pieces := JoinedAll(assignments);
      JoinedAllReads(assignments[1..]);
      assert pieces[1..] == JoinedAll(assignments[1..]);
      assert assignments == [assignments[0]] + assignments[1..];
    }
  }

  /** Scanning what the printer wrote gives back the record. */
  lemma {:induction false} RenderReadsBack(p: Parsed, names: seq<string>)
    requires WellFormed(p) && Elements(names) == p.options.classifications.Keys
    ensures Scan(START, Render(p, names)) == Some(p)
  {
    var options := OptionList(p.options, names);
    OptionListDoes(p.options, names);
    JoinedAllReads(options);
    var words, joined := WordPieces(p.words), JoinedAll(options);
    WordsFirst(p.words, joined);
    var line := Line(words + joined, Some(p.words.positionals));
    forall i | 0 <= i < |words + joined| ensures GoodPiece((words + joined)[i]) {
      if i >= |words| {
        assert (words + joined)[i] == PieceOf(options[i - |words|]);
      }
    }
    LineReads(line);
    ScanIsMeaning(START, LineTokens(line));
    MeaningOfRendered(p, words + joined);
  }

  lemma {:induction false} MeaningOfRendered(p: Parsed, pieces: seq<Piece>)
    requires TakeWords(START.words, PlainTokens(pieces)) == Some(p.words.(positionals := []))
    requires ApplyAll(START.options, Assignments(pieces)) == p.options
    ensures Meaning(START, Line(pieces, Some(p.words.positionals))) == Some(p)
  {
    assert [] + p.words.positionals == p.words.positionals;
  }

  lemma {:induction false} WordsFirst(w: Words, options: seq<Piece>)
    requires w.command.Some? && PlainTokens(options) == []
    requires w.subcommand.Some? ==> TakesSubcommand(w.command.value) && !IsFlag(w.subcommand.value)
    ensures Assignments(WordPieces(w) + options) == Assignments(options)
    ensures forall i :: 0 <= i < |WordPieces(w)| ==> GoodPiece(WordPieces(w)[i])
    ensures TakeWords(START.words, PlainTokens(WordPieces(w) + options)) == Some(w.(positionals := []))
  {
    var name := CommandName(w.command.value);
    CommandReads(w.command.value);
    assert !IsFlag(name) by { assert name[0] != '-'; }
    var pieces := WordPieces(w) + options;
    if w.subcommand.Some? {
      var sub := w.subcommand.value;
      assert pieces[1..] == [Plain(sub)] + options && pieces[1..][1..] == options;
      assert PlainTokens(pieces[1..]) == [sub] + PlainTokens(options) == [sub];
      var tokens := PlainTokens(pieces);
      assert tokens == [name, sub] && tokens[1..] == [sub] && |tokens[1..][1..]| == 0;
      var w1 := START.words.(command := w.command);
      assert TakeWord(START.words, name) == Some(w1) && TakeWord(w1, sub) == Some(w1.(subcommand := w.subcommand));
      assert TakeWords(w1, [sub]) == Some(w1.(subcommand := w.subcommand));
    } else {
      assert pieces[1..] == options;
      assert PlainTokens(pieces) == [name] + PlainTokens(options) == [name] && |[name][1..]| == 0;
    }
  }

  // ---------- The checks of a command ----------

  datatype FlagKey = Of(setting: Setting) | OfClassify | OfVariable | OfSwitch(switch: Switch)

  /** The subcommand, with the empty string for none. */
  function Sub(w: Words): string {
    if w.subcommand.Some? then w.subcommand.value else ""
  }

  predicate SubcommandOk(c: Command, sub: string) {
    match c
    case Profiles => sub in ["add", "rebind", "use", "list"]
    case Devices =>
      sub in ["enroll", "begin", "approve", "complete", "backup", "recover", "setup", "transfer", "revoke-wrapper"]
    case Projects => sub in ["link", "rotate"]
    case Env => sub == "use"
    case Contexts => sub in ["", "reselect"]
    case _ => sub == ""
  }

  /** The flags each command consumes; `--debug` is for all and listed nowhere. */
  function Allowed(c: Command, sub: string): set<FlagKey> {
    var common := {Of(Profile), OfSwitch(Json)};
    var asking := common + {OfSwitch(NoInput)};
    var located := asking + {Of(Environment), Of(Remote)};
    match c
    case Setup => {OfSwitch(NoOpen), OfSwitch(NoInput), OfSwitch(Json)}
    case Login => asking + {OfSwitch(NoOpen)}
    case Logout => common
    case Init => located + {Of(From), Of(Team), OfSwitch(Force), Of(Limit), OfSwitch(Reveal), OfClassify}
    case Push => located + {Of(From), Of(Team), OfSwitch(Force), Of(Limit), OfSwitch(Reveal), OfClassify}
    case Pull => located + {Of(Team), Of(Output), OfSwitch(Stdout), OfSwitch(Force), Of(Limit), OfSwitch(Reveal)}
    case Diff => located + {Of(Team), Of(From), Of(Limit), OfSwitch(Reveal)}
    case Status => common
    case Contexts => if sub == "" then located else located + {OfSwitch(Force)}
    case History => located + {Of(Team), Of(Limit)}
    case Rollback => located + {Of(Team), OfVariable, Of(Limit), OfSwitch(Reveal)}
    case Help => {}
    case Profiles =>
      if sub == "add" then {OfSwitch(NoInput), OfSwitch(Json)}
      else if sub == "rebind" then {OfSwitch(NoInput), OfSwitch(Force), OfSwitch(Json)}
      else {OfSwitch(Json)}
    case Devices =>
      if sub in ["enroll", "begin"] then asking + {Of(Output)}
      else if sub in ["approve", "complete"] then asking + {Of(From)}
      else if sub == "recover" then asking + {Of(RecoveryCodeFile), Of(Transfer)}
      else if sub == "transfer" then asking + {Of(To)}
      else if sub == "revoke-wrapper" then asking + {Of(WrapperId)}
      else asking
    case Projects => if sub == "link" then asking + {Of(Team), Of(Remote)} else asking + {OfSwitch(Force)}
    case Env => common + {Of(Environment)}
  }

  predicate Present(o: Options, key: FlagKey) {
    match key
    case Of(setting) => setting in o.settings && o.settings[setting] != ""
    case OfClassify => o.classifications != map[]
    case OfVariable => o.variables != []
    case OfSwitch(switch) => switch in o.switches
  }

  predicate FlagsOk(c: Command, sub: string, o: Options) {
    && (forall s :: Present(o, Of(s)) ==> s != Name && Of(s) in Allowed(c, sub))
    && (forall w :: w != Debug && Present(o, OfSwitch(w)) ==> OfSwitch(w) in Allowed(c, sub))
    && (Present(o, OfClassify) ==> OfClassify in Allowed(c, sub))
    && (Present(o, OfVariable) ==> OfVariable in Allowed(c, sub))
  }

  /** How many positionals the command may take. */
  function Counts(c: Command, sub: string, o: Options): set<int> {
    match c
    case Profiles => if sub in ["add", "rebind"] then {2} else if sub == "use" then {1} else {0}
    case Env => if sub == "use" && Present(o, Of(Environment)) then {0} else {1}
    case Init => {0, 1}
    case Setup => {1}
    case Help => {0, 1, 2}
    case Rollback => if NoInput in o.switches then {1} else {0, 1}
    case _ => {0}
  }

  /** Which options exclude or require each other, command by command. */
  predicate CombinationOk(c: Command, sub: string, o: Options, positionals: nat) {
    match c
    case Env => !(Present(o, Of(Environment)) && positionals > 0)
    case Init => !(Present(o, Of(Environment)) && positionals == 1)
    case Pull => !(Stdout in o.switches && (Present(o, Of(Output)) || Json in o.switches))
    case Projects => sub == "link" ==> Present(o, Of(Team))
    case Devices =>
      && (sub in ["approve", "complete"] ==> Present(o, Of(From)))
      && (sub == "recover" ==> !(RecoveryCodeFile in o.settings && Transfer in o.settings))
      && (sub == "transfer" && NoInput in o.switches ==> Present(o, Of(To)))
      && (sub == "revoke-wrapper" && NoInput in o.switches ==> Present(o, Of(WrapperId)))
    case Rollback => NoInput in o.switches ==> o.variables != []
    case _ => true
  }

  /** `Number(limit)` when that is a safe integer. */
  type NumberReader = string -> Option<int>

  predicate LimitOk(o: Options, number: NumberReader) {
    Limit in o.settings ==> number(o.settings[Limit]).Some? && 1 <= number(o.settings[Limit]).value <= 256
  }

  predicate CommandOk(p: Parsed, number: NumberReader, stdoutIsTerminal: bool) {
    p.words.command.Some? && (
      var c, sub, o := p.words.command.value, Sub(p.words), p.options;
      && SubcommandOk(c, sub) && FlagsOk(c, sub, o) && LimitOk(o, number)
      && CombinationOk(c, sub, o, |p.words.positionals|) && |p.words.positionals| in Counts(c, sub, o)
      && !(Stdout in o.switches && stdoutIsTerminal && Reveal !in o.switches))
  }

  /** The result: the limit has become a number. */
  datatype Accepted = Accepted(parsed: Parsed, limit: Option<int>)

  function Accept(p: Parsed, number: NumberReader): Accepted {
    if Limit in p.options.settings then
      Accepted(p.(options := p.options.(settings := p.options.settings - {Limit})), number(p.options.settings[Limit]))
    else Accepted(p, None)
  }

  function Parse(args: seq<string>, number: NumberReader, stdoutIsTerminal: bool): Option<Accepted> {
    match Scan(START, args)
    case None => None
    case Some(p) => if CommandOk(p, number, stdoutIsTerminal) then Some(Accept(p, number)) else None
  }

  // ---------- What is accepted, seen from the options ----------

  /** Which commands consume an option. */
  predicate TakenBy(key: FlagKey, c: Command, sub: string) {
    match key
    case Of(setting) => SettingTakenBy(setting, c, sub)
    case OfClassify => c == Init || c == Push
    case OfVariable => c == Rollback
    case OfSwitch(switch) => SwitchTakenBy(switch, c, sub)
  }

  predicate SettingTakenBy(setting: Setting, c: Command, sub: string) {
    match setting
    case Profile => c !in {Setup, Help, Profiles}
    case Environment => c in {Init, Push, Pull, Diff, Contexts, History, Rollback, Env}
    case Output => c == Pull || (c == Devices && (sub == "enroll" || sub == "begin"))
    case From => c in {Init, Push, Diff} || (c == Devices && (sub == "approve" || sub == "complete"))
    case RecoveryCodeFile => c == Devices && sub == "recover"
    case Transfer => c == Devices && sub == "recover"
    case To => c == Devices && sub == "transfer"
    case WrapperId => c == Devices && sub == "revoke-wrapper"
    case Team => c in {Init, Push, Pull, Diff, History, Rollback} || (c == Projects && sub == "link")
    case Name => false
    case Remote => c in {Init, Push, Pull, Diff, Contexts, History, Rollback} || (c == Projects && sub == "link")
    case Limit => c in {Init, Push, Pull, Diff, History, Rollback}
  }

  predicate SwitchTakenBy(switch: Switch, c: Command, sub: string) {
    match switch
    case NoOpen => c == Setup || c == Login
    case NoInput =>
      || c in {Setup, Login, Init, Push, Pull, Diff, Contexts, History, Rollback, Devices, Projects}
      || (c == Profiles && (sub == "add" || sub == "rebind"))
    case Force =>
      || c in {Init, Push, Pull} || (c == Contexts && sub == "reselect")
      || (c == Profiles && sub == "rebind") || (c == Projects && sub == "rotate")
    case Json => c != Help
    case Debug => true
    case Stdout => c == Pull
    case Reveal => c in {Init, Push, Pull, Diff, Rollback}
  }

  predicate Given(o: Options, key: FlagKey) {
    match key
    case Of(setting) => setting in o.settings
    case OfClassify => o.classifications != map[]
    case OfVariable => o.variables != []
    case OfSwitch(switch) => switch in o.switches
  }

  /** A grouped command with one of its subcommands, `context` with or without, or a command that has none. */
  predicate Named(c: Command, sub: string) {
    if sub == "" then c !in {Profiles, Devices, Projects, Env}
    else
      || (c == Profiles && sub in ["add", "rebind", "use", "list"])
      || (c == Contexts && sub == "reselect") || (c == Projects && sub in ["link", "rotate"])
      || (c == Env && sub == "use")
      || (c == Devices && sub in ["enroll", "begin", "approve", "complete", "backup", "recover", "setup", "transfer",
                                  "revoke-wrapper"])
  }

  /** So many positionals are neither too few nor too many; an environment is named at most once. */
  predicate Counted(c: Command, sub: string, o: Options, n: nat) {
    && n <= 2
    && (n == 0 ==>
          && c != Setup && (c == Profiles ==> sub == "list") && (c == Env ==> Given(o, Of(Environment)))
          && (c == Rollback ==> !Given(o, OfSwitch(NoInput))))
    && (n == 1 ==>
          || c in {Setup, Help, Rollback} || (c == Profiles && sub == "use")
          || (c in {Init, Env} && !Given(o, Of(Environment))))
    && (n == 2 ==> c == Help || (c == Profiles && (sub == "add" || sub == "rebind")))
  }

  /** Values go to one place and never into JSON; whoever is not asked for something must give it. */
  predicate Combined(c: Command, sub: string, o: Options) {
    && !(Given(o, OfSwitch(Stdout)) && (Given(o, Of(Output)) || Given(o, OfSwitch(Json))))
    && !(Given(o, Of(RecoveryCodeFile)) && Given(o, Of(Transfer)))
    && (c == Projects && sub == "link" ==> Given(o, Of(Team)))
    && (c == Devices && (sub == "approve" || sub == "complete") ==> Given(o, Of(From)))
    && (Given(o, OfSwitch(NoInput)) ==>
          && (c == Rollback ==> Given(o, OfVariable))
          && (c == Devices && sub == "transfer" ==> Given(o, Of(To)))
          && (c == Devices && sub == "revoke-wrapper" ==> Given(o, Of(WrapperId))))
  }

  ghost predicate Acceptable(p: Parsed, number: NumberReader, stdoutIsTerminal: bool) {
    p.words.command.Some? && (
      var c, o := p.words.command.value, p.options;
      var sub := match p.words.subcommand case Some(name) => name case None => "";
      && Named(c, sub) && Counted(c, sub, o, |p.words.positionals|) && Combined(c, sub, o)
      && (forall key: FlagKey :: Given(o, key) ==> TakenBy(key, c, sub))
      && (Given(o, Of(Limit)) ==> exists n :: 1 <= n <= 256 && number(o.settings[Limit]) == Some(n))
      && (Given(o, OfSwitch(Stdout)) && stdoutIsTerminal ==> Given(o, OfSwitch(Reveal))))
  }

  lemma {:induction false} SettingsTakenBy(c: Command, sub: string, s: Setting)
    requires SubcommandOk(c, sub)
    ensures Of(s) in Allowed(c, sub) <==> SettingTakenBy(s, c, sub)
  {
    if TakesSubcommand(c) {
      GroupedSettings(c, sub, s);
    } else {
      PlainSettings(c, sub, s);
    }
  }

  lemma {:induction false} GroupedSettings(c: Command, sub: string, s: Setting)
    requires SubcommandOk(c, sub) && TakesSubcommand(c)
    ensures Of(s) in Allowed(c, sub) <==> SettingTakenBy(s, c, sub)
  {
  }

  lemma {:induction false} PlainSettings(c: Command, sub: string, s: Setting)
    requires SubcommandOk(c, sub) && !TakesSubcommand(c)
    ensures Of(s) in Allowed(c, sub) <==> SettingTakenBy(s, c, sub)
  {
  }

  lemma {:induction false} SwitchesTakenBy(c: Command, sub: string, w: Switch)
    requires SubcommandOk(c, sub)
    ensures w == Debug || OfSwitch(w) in Allowed(c, sub) <==> SwitchTakenBy(w, c, sub)
  {
  }

  lemma {:induction false} ListsTakenBy(c: Command, sub: string)
    requires SubcommandOk(c, sub)
    ensures OfClassify in Allowed(c, sub) <==> c == Init || c == Push
    ensures OfVariable in Allowed(c, sub) <==> c == Rollback
  {
  }

  lemma {:induction false} KeysTakenBy(c: Command, sub: string, key: FlagKey)
    requires SubcommandOk(c, sub)
    ensures key == OfSwitch(Debug) || key in Allowed(c, sub) <==> TakenBy(key, c, sub)
    ensures key == Of(Name) ==> !TakenBy(key, c, sub)
  {
    match key
    case Of(s) => SettingsTakenBy(c, sub, s);
    case OfSwitch(w) => SwitchesTakenBy(c, sub, w);
    case _ => ListsTakenBy(c, sub);
  }

  lemma {:induction false} FlagsTakenBy(c: Command, sub: string, o: Options)
    requires SubcommandOk(c, sub) && GoodOptions(o)
    ensures FlagsOk(c, sub, o) <==> forall key: FlagKey :: Given(o, key) ==> TakenBy(key, c, sub)
  {
    if FlagsOk(c, sub, o) {
      forall key: FlagKey | Given(o, key) ensures TakenBy(key, c, sub) {
        OkIsTaken(c, sub, o, key);
      }
    }
    if forall key: FlagKey :: Given(o, key) ==> TakenBy(key, c, sub) {
      TakenIsOk(c, sub, o);
    }
  }

  lemma {:induction false} OkIsTaken(c: Command, sub: string, o: Options, key: FlagKey)
    requires SubcommandOk(c, sub) && GoodOptions(o) && FlagsOk(c, sub, o) && Given(o, key)
    ensures TakenBy(key, c, sub)
  {
    KeysTakenBy(c, sub, key);
    assert Present(o, key);
  }

  lemma {:induction false} TakenIsOk(c: Command, sub: string, o: Options)
    requires SubcommandOk(c, sub) && forall key: FlagKey :: Given(o, key) ==> TakenBy(key, c, sub)
    ensures FlagsOk(c, sub, o)
  {
    forall key: FlagKey | Present(o, key)
      ensures key != Of(Name) && (key == OfSwitch(Debug) || key in Allowed(c, sub))
    {
      assert Given(o, key);
      KeysTakenBy(c, sub, key);
    }
  }

  lemma {:induction false} CombinedExactly(c: Command, sub: string, o: Options, n: nat)
    requires Named(c, sub) && GoodOptions(o) && forall key: FlagKey :: Given(o, key) ==> TakenBy(key, c, sub)
    ensures CombinationOk(c, sub, o, n) && n in Counts(c, sub, o) <==> Combined(c, sub, o) && Counted(c, sub, o, n)
  {
    assert forall s :: Present(o, Of(s)) <==> Given(o, Of(s));
    CountedExactly(c, sub, o, n);
    RequiredExactly(c, sub, o, n);
  }

  /** Of an environment as a positional and as an option, one at most; and the number of positionals. */
  lemma {:induction false} CountedExactly(c: Command, sub: string, o: Options, n: nat)
    requires Named(c, sub) && forall s :: Present(o, Of(s)) <==> Given(o, Of(s))
    ensures n in Counts(c, sub, o) && (c == Env || c == Init ==> CombinationOk(c, sub, o, n)) <==> Counted(c, sub, o, n)
  {
  }

  lemma {:induction false} RequiredExactly(c: Command, sub: string, o: Options, n: nat)
    requires forall s :: Present(o, Of(s)) <==> Given(o, Of(s))
    requires forall key: FlagKey :: Given(o, key) ==> TakenBy(key, c, sub)
    ensures c == Env || c == Init || CombinationOk(c, sub, o, n) <==> Combined(c, sub, o)
  {
    assert Given(o, OfSwitch(Stdout)) ==> TakenBy(OfSwitch(Stdout), c, sub);
    assert Given(o, Of(Transfer)) ==> TakenBy(Of(Transfer), c, sub);
  }

  /** Once scanned, a line is accepted exactly if it is acceptable, and the limit has become a number. */
  lemma {:induction false} ParsedExactly(args: seq<string>, number: NumberReader, stdoutIsTerminal: bool)
    ensures var parsed := Parse(args, number, stdoutIsTerminal);
      match Scan(START, args)
      case None => parsed == None
      case Some(p) =>
        && (parsed.Some? <==> Acceptable(p, number, stdoutIsTerminal))
        && (parsed.Some? && Limit !in p.options.settings ==> parsed == Some(Accepted(p, None)))
        && (parsed.Some? && Limit in p.options.settings ==>
              && parsed.value.limit == number(p.options.settings[Limit])
              && parsed.value.parsed.words == p.words
              && parsed.value.parsed.options == p.options.(settings := p.options.settings - {Limit}))
  {
    ScanWellFormed(START, args);
    if Scan(START, args).Some? && Scan(START, args).value.words.command.Some? {
      AcceptableExactly(Scan(START, args).value, number, stdoutIsTerminal);
    }
  }

  lemma {:induction false} AcceptableExactly(p: Parsed, number: NumberReader, stdoutIsTerminal: bool)
    requires WellFormed(p)
    ensures CommandOk(p, number, stdoutIsTerminal) <==> Acceptable(p, number, stdoutIsTerminal)
  {
    var c, sub, o := p.words.command.value, Sub(p.words), p.options;
    assert SubcommandOk(c, sub) <==> Named(c, sub);
    if Named(c, sub) {
      FlagsTakenBy(c, sub, o);
      if FlagsOk(c, sub, o) {
        CombinedExactly(c, sub, o, |p.words.positionals|);
      }
    }
  }

  // ---------- Accepted arguments print and parse back ----------

  function Decimal(n: nat): string {
    if n < 10 then ["0123456789"[n]] else Decimal(n / 10) + ["0123456789"[n % 10]]
  }

  lemma {:induction false} DecimalGood(n: nat)
    ensures Decimal(n) != "" && '0' <= Decimal(n)[0] <= '9' && GoodValue(Decimal(n))
  {
    if n >= 10 {
      DecimalGood(n / 10);
    }
  }

  /** The record to print: an accepted limit is written in decimal. */
  function Printable(a: Accepted): Parsed {
    match a.limit
    case None => a.parsed
    case Some(n) =>
      a.parsed.(options := a.parsed.options.(settings :=
        a.parsed.options.settings[Limit := Decimal(if n < 0 then 0 else n)]))
  }

  /** Printing any accepted arguments and parsing them again gives the same record. */
  lemma {:induction false} ParseInvertsPrinter(
    args: seq<string>, number: NumberReader, stdoutIsTerminal: bool, a: Accepted, names: seq<string>)
    requires Parse(args, number, stdoutIsTerminal) == Some(a)
    requires forall n :: 1 <= n <= 256 ==> number(Decimal(n)) == Some(n)
    requires Elements(names) == a.parsed.options.classifications.Keys
    ensures Parse(Render(Printable(a), names), number, stdoutIsTerminal) == Some(a)
  {
    var p := Scan(START, args).value;
    ScanWellFormed(START, args);
    PrintableIsLike(p, number);
    RenderReadsBack(Printable(a), names);
    SameChecks(p, Printable(a), number, stdoutIsTerminal);
  }

  /** The record to print differs from the scanned one at most in how the limit is written. */
  lemma {:induction false} PrintableIsLike(p: Parsed, number: NumberReader)
    requires WellFormed(p) && LimitOk(p.options, number)
    requires forall n :: 1 <= n <= 256 ==> number(Decimal(n)) == Some(n)
    ensures var q := Printable(Accept(p, number));
      && WellFormed(q) && q.words == p.words && q.options == p.options.(settings := q.options.settings)
      && q.options.settings.Keys == p.options.settings.Keys && LimitOk(q.options, number)
      && Accept(q, number) == Accept(p, number)
  {
    if Limit in p.options.settings {
      var n := number(p.options.settings[Limit]).value;
      DecimalGood(n);
      assert p.options.settings[Limit := Decimal(n)] - {Limit} == p.options.settings - {Limit};
      assert (p.options.settings - {Limit})[Limit := Decimal(n)] == p.options.settings[Limit := Decimal(n)];
    }
  }

  /** The checks read the limit only as a number. */
  lemma {:induction false} SameChecks(p: Parsed, q: Parsed, number: NumberReader, stdoutIsTerminal: bool)
    requires WellFormed(p) && WellFormed(q) && q.words == p.words && CommandOk(p, number, stdoutIsTerminal)
    requires q.options == p.options.(settings := q.options.settings)
    requires q.options.settings.Keys == p.options.settings.Keys && LimitOk(q.options, number)
    ensures CommandOk(q, number, stdoutIsTerminal)
  {
    forall key ensures Present(q.options, key) == Present(p.options, key) {
    }
    var c, sub := p.words.command.value, Sub(p.words);
    assert FlagsOk(c, sub, q.options);
    assert CombinationOk(c, sub, q.options, |q.words.positionals|);
    assert Counts(c, sub, q.options) == Counts(c, sub, p.options);
  }

  // ---------- No option is ignored ----------

  function KeyOf(a: Assignment): FlagKey {
    match a
    case Set(setting, _) => Of(setting)
    case Mark(_, _) => OfClassify
    case Refer(_) => OfVariable
    case Turn(switch) => OfSwitch(switch)
  }

  lemma {:induction false} GivenIsKept(assignments: seq<Assignment>, a: Assignment)
    requires a in assignments
    ensures match a
      case Set(setting, _) => LastSetting(assignments, setting).Some?
      case Mark(name, _) => name != PROTO ==> LastMark(assignments, name).Some?
      case Refer(_) => Referred(assignments) != []
      case Turn(_) => true
  {
    var before, last := assignments[..|assignments| - 1], Last(assignments);
    if a != last {
      assert a in before;
      GivenIsKept(before, a);
    }
  }

  lemma {:induction false} LastIsGiven(assignments: seq<Assignment>, s: Setting)
    requires LastSetting(assignments, s).Some?
    ensures Set(s, LastSetting(assignments, s).value) in assignments
  {
    var a := Last(assignments);
    if !(a.Set? && a.setting == s) {
      LastIsGiven(assignments[..|assignments| - 1], s);
    }
  }

  /** Leaving the piece out never makes a difference, whatever comes before and after it. */
  ghost predicate Ignored(piece: Piece) {
    forall p: Parsed, rest: seq<string> :: Scan(p, Tokens(piece) + rest) == Scan(p, rest)
  }

  /**
   A piece is ignored if and only if its flag is `--help` or `--version`, which the scan skips even with a
   value, or it classifies `__proto__`.
   */
  lemma {:induction false} IgnoredExactly(piece: Piece)
    requires GoodPiece(piece) && (piece.Plain? ==> piece.token != "--")
    ensures Ignored(piece) <==>
      FlagOf(Tokens(piece)[0]) in ["--help", "--version"]
        || (AssignmentOf(piece).Some? && Vanishes(AssignmentOf(piece).value))
  {
    SkippedExactly(piece);
    SkippedFlags(FlagOf(Tokens(piece)[0]));
    if piece.Skip? || (AssignmentOf(piece).Some? && Vanishes(AssignmentOf(piece).value)) {
      forall p: Parsed, rest: seq<string> ensures Scan(p, Tokens(piece) + rest) == Scan(p, rest) {
        PieceScans(p, piece, rest);
      }
    } else {
      LeavesATrace(piece);
    }
  }

  predicate Vanishes(a: Assignment) {
    a.Mark? && a.name == PROTO
  }

  lemma {:induction false} SkippedExactly(piece: Piece)
    requires GoodPiece(piece)
    ensures piece.Skip? <==> ReadFlag(FlagOf(Tokens(piece)[0])) == Skipped
  {
    match piece
    case Plain(token) =>
      SkippedFlags(FlagOf(token));
      assert FlagOf(token) <= token;
    case Skip(_) =>
    case On(switch, value) =>
      FlagShape(Turn(switch));
      SwitchReads(switch);
      if value.Some? {
        JoinedShape(SwitchName(switch), value.value);
      }
    case Joined(a) =>
      FlagShape(a);
      FlagReads(a);
      JoinedShape(FlagText(a), ValueText(a));
    case Split(a) =>
      FlagShape(a);
      FlagReads(a);
  }

  lemma {:induction false} LeavesATrace(piece: Piece)
    requires GoodPiece(piece) && !piece.Skip? && (piece.Plain? ==> piece.token != "--")
    requires AssignmentOf(piece).Some? ==> !Vanishes(AssignmentOf(piece).value)
    ensures !Ignored(piece)
  {
    assert Scan(START, []) == Some(START);
    if piece.Plain? {
      assert ([piece.token] + [])[1..] == [];
      assert Scan(START, Tokens(piece) + []) != Some(START);
    } else {
      PieceScans(START, piece, []);
      var a := AssignmentOf(piece).value;
      assert Apply(START.options, a) != START.options by {
        match a
        case Set(setting, _) => assert setting in Apply(START.options, a).settings;
        case Mark(name, _) => assert name in Apply(START.options, a).classifications;
        case Refer(variable) => assert variable in Apply(START.options, a).variables;
        case Turn(switch) => assert switch in Apply(START.options, a).switches;
      }
    }
  }

  /** The option is one that the command consumes, or `--debug`. */
  predicate Consumed(w: Words, a: Assignment) {
    w.command.Some? && (a == Turn(Debug) || KeyOf(a) in Allowed(w.command.value, Sub(w)))
  }

  /** On every accepted list of tokens, each option is consumed by the command or ignored. */
  lemma {:induction false} NoOptionIgnored(args: seq<string>, number: NumberReader, stdoutIsTerminal: bool)
    requires Parse(args, number, stdoutIsTerminal).Some?
    ensures ReadLine(args).Some? && GoodLine(ReadLine(args).value) && LineTokens(ReadLine(args).value) == args
    ensures AllConsumed(Parse(args, number, stdoutIsTerminal).value.parsed.words, ReadLine(args).value.pieces)
  {
    ScanIsMeaning(START, args);
    LineIsPrinted(args);
    LineConsumed(ReadLine(args).value, Scan(START, args).value, number, stdoutIsTerminal);
  }

  /** Each option that is not ignored is consumed. */
  ghost predicate AllConsumed(w: Words, pieces: seq<Piece>) {
    forall i :: 0 <= i < |pieces| && !pieces[i].Plain? && !Ignored(pieces[i]) ==>
      AssignmentOf(pieces[i]).Some? && Consumed(w, AssignmentOf(pieces[i]).value)
  }

  lemma {:induction false} LineConsumed(l: Line, p: Parsed, number: NumberReader, stdoutIsTerminal: bool)
    requires GoodLine(l) && Meaning(START, l) == Some(p) && CommandOk(p, number, stdoutIsTerminal)
    ensures AllConsumed(p.words, l.pieces)
  {
    forall i | 0 <= i < |l.pieces| && !l.pieces[i].Plain? && !Ignored(l.pieces[i])
      ensures AssignmentOf(l.pieces[i]).Some? && Consumed(p.words, AssignmentOf(l.pieces[i]).value)
    {
      NotIgnored(l.pieces[i]);
      AssignedBy(l.pieces, i);
      OptionPresent(l.pieces, AssignmentOf(l.pieces[i]).value);
    }
  }

  lemma {:induction false} NotIgnored(piece: Piece)
    requires GoodPiece(piece) && !piece.Plain? && !Ignored(piece)
    ensures AssignmentOf(piece).Some? && !Vanishes(AssignmentOf(piece).value)
  {
    IgnoredExactly(piece);
    SkippedExactly(piece);
    SkippedFlags(FlagOf(Tokens(piece)[0]));
  }

  lemma {:induction false} AssignedBy(pieces: seq<Piece>, i: nat)
    requires i < |pieces| && AssignmentOf(pieces[i]).Some?
    ensures AssignmentOf(pieces[i]).value in Assignments(pieces)
  {
    if i > 0 {
      AssignedBy(pieces[1..], i - 1);
    }
  }

  /** What is given and does not vanish is present in the record. */
  lemma {:induction false} OptionPresent(pieces: seq<Piece>, a: Assignment)
    requires (forall i :: 0 <= i < |pieces| ==> GoodPiece(pieces[i])) && a in Assignments(pieces) && !Vanishes(a)
    ensures Present(ApplyAll(START.options, Assignments(pieces)), KeyOf(a))
  {
    var all := Assignments(pieces);
    OptionsAre(all);
    GivenIsKept(all, a);
    GoodAssignments(pieces, a);
    if a.Set? {
      LastIsGiven(all, a.setting);
      GoodAssignments(pieces, Set(a.setting, LastSetting(all, a.setting).value));
    } else if a.Mark? {
      assert a.name in ApplyAll(START.options, all).classifications;
    }
  }

  lemma {:induction false} GoodAssignments(pieces: seq<Piece>, a: Assignment)
    requires forall i :: 0 <= i < |pieces| ==> GoodPiece(pieces[i])
    requires a in Assignments(pieces)
    ensures GoodAssignment(a)
  {
    if AssignmentOf(pieces[0]) != Some(a) {
      GoodAssignments(pieces[1..], a);
    } else if pieces[0].Joined? || pieces[0].Split? {
      assert GoodPiece(pieces[0]);
    }
  }

  // ---------- Command lines with an option that is ignored ----------

  /** The scan skips these flags with any value, although only the bare flags ask for help or the version. */
  lemma {:induction false} SkippedWithValue(flag: string, value: string, number: NumberReader, stdoutIsTerminal: bool)
    requires flag in ["--help", "--version"]
    ensures Parse(["status"], number, stdoutIsTerminal).Some?
    ensures Parse(["status"] + [flag + "=" + value], number, stdoutIsTerminal)
      == Parse(["status"], number, stdoutIsTerminal)
  {
    SkippedFlags(flag);
    JoinedShape(flag, value);
    StatusAlone();
    StatusThen(Skip(flag + "=" + value));
  }

  /** A classification of `__proto__` is accepted even by a command that takes no classifications. */
  lemma {:induction false} ProtoVanishes(c: Classification, number: NumberReader, stdoutIsTerminal: bool)
    ensures Parse(["status"], number, stdoutIsTerminal).Some?
    ensures Parse(["status"] + [CLASSIFY + "=" + (PROTO + "=" + ClassificationName(c))], number, stdoutIsTerminal)
      == Parse(["status"], number, stdoutIsTerminal)
  {
    StatusAlone();
    StatusThen(Joined(Mark(PROTO, c)));
  }

  const STATUS := START.(words := START.words.(command := Some(Status)))

  lemma {:induction false} StatusAlone()
    ensures Scan(START, ["status"]) == Some(STATUS)
    ensures forall number, terminal :: CommandOk(STATUS, number, terminal)
  {
    assert ["status"][1..] == [];
    assert Scan(START, ["status"]) == Scan(STATUS, []);
  }

  lemma {:induction false} StatusThen(piece: Piece)
    requires GoodPiece(piece) && !piece.Plain? && |Tokens(piece)| == 1
    requires piece.Skip? || (AssignmentOf(piece).Some? && Vanishes(AssignmentOf(piece).value))
    ensures Scan(START, ["status"] + Tokens(piece)) == Some(STATUS)
  {
    var args := ["status"] + Tokens(piece);
    assert args[0] == "status" && args[1..] == Tokens(piece) + [];
    PieceScans(STATUS, piece, []);
    assert Scan(STATUS, []) == Some(STATUS);
    assert Scan(START, args) == Scan(STATUS, args[1..]);
  }

  /** An empty word where a subcommand belongs is dropped by the next word. */
  lemma {:induction false} EmptySubcommandReplaced(c: Command, sub: string, rest: seq<string>)
    requires TakesSubcommand(c) && !IsFlag(sub)
    ensures Scan(START, [CommandName(c), "", sub] + rest) == Scan(START, [CommandName(c), sub] + rest)
  {
    var long, short := [CommandName(c), "", sub] + rest, [CommandName(c), sub] + rest;
    assert ReadCommand(CommandName(c)) == Some(c) && !IsFlag(CommandName(c));
    assert long[1..][1..] == [sub] + rest && short[1..] == [sub] + rest;
    assert ([sub] + rest)[1..] == rest && long[1..][0] == "";
    var one := START.(words := START.words.(command := Some(c)));
    var empty := one.(words := one.words.(subcommand := Some("")));
    assert Scan(START, long) == Scan(one, long[1..]) == Scan(empty, [sub] + rest);
    assert Scan(START, short) == Scan(one, [sub] + rest);
  }
}
