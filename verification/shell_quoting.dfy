/**
 `shellQuote` and the command lines of `runTerminal` in scripts/test-cli-live.ts, read back by a shell
 lexer after sections 2.2.1 to 2.2.3 and 2.3 of the POSIX Shell Command Language.
 */
module ShellQuoting {
  import opened Sequences

  const NUL := 0 as char
  const NEWLINE := '\n'

  // ---------- The printer ----------

  /** `value.replaceAll("'", "'\\''")` */
  function Escape(value: string): string {
    if value == "" then ""
    else (if value[0] == '\'' then "'\\''" else [value[0]]) + Escape(value[1..])
  }

  function ShellQuote(value: string): string {
    "'" + Escape(value) + "'"
  }

  function Quoted(args: seq<string>): seq<string> {
    seq(|args|, i requires 0 <= i < |args| => ShellQuote(args[i]))
  }

  function CommandLine(args: seq<string>): string {
    Join(Quoted(args), " ")
  }

  /** What `runTerminal` hands to the shell. */
  function CommandWithInput(args: seq<string>, input: string): string {
    if |input| > 0 then "printf %s " + ShellQuote(input) + " | " + CommandLine(args) else CommandLine(args)
  }

  // ---------- The lexer ----------

  datatype Token = Word(text: string) | Operator(symbol: char)

  datatype Mode = Plain | Single | Double

  predicate IsBlank(c: char) {
    c == ' ' || c == '\t'
  }

  predicate IsOperator(c: char) {
    c in "|&;<>()"
  }

  /** Characters that an unquoted word could not hold without an expansion, a comment or a line end. */
  predicate IsActive(c: char) {
    c in "$`*?[#~{}!" || c == NEWLINE
  }

  function Ended(word: Option<string>): seq<Token> {
    match word
    case Some(text) => [Word(text)]
    case None => []
  }

  function Extended(word: Option<string>, c: char): Option<string> {
    match word
    case Some(text) => Some(text + [c])
    case None => Some([c])
  }

  function Begun(word: Option<string>): Option<string> {
    match word
    case Some(_) => word
    case None => Some("")
  }

  function Prepend(tokens: seq<Token>, rest: Option<seq<Token>>): Option<seq<Token>> {
    match rest
    case Some(more) => Some(tokens + more)
    case None => None
  }

  /** The tokens of a text; None if it is not a plain list of words and operators. */
  function Lex(text: string, mode: Mode, word: Option<string>): Option<seq<Token>>
    decreases |text|
  {
    if text == "" then if mode == Plain then Some(Ended(word)) else None
    else
      var c, rest := text[0], text[1..];
      if c == NUL then None
      else
        match mode
        case Single => if c == '\'' then Lex(rest, Plain, word) else Lex(rest, Single, Extended(word, c))
        case Double =>
          if c == '"' then Lex(rest, Plain, word)
          else if c == '$' || c == '`' then None
          else if c == '\\' && rest != "" && rest[0] in "$`\"\\" then Lex(rest[1..], Double, Extended(word, rest[0]))
          else if c == '\\' && rest != "" && rest[0] == NEWLINE then Lex(rest[1..], Double, word)
          else Lex(rest, Double, Extended(word, c))
        case Plain =>
          if c == '\'' then Lex(rest, Single, Begun(word))
          else if c == '"' then Lex(rest, Double, Begun(word))
          else if c == '\\' then
            if rest == "" || rest[0] == NUL then None
            else Lex(rest[1..], Plain, if rest[0] == NEWLINE then word else Extended(word, rest[0]))
          else if IsBlank(c) then Prepend(Ended(word), Lex(rest, Plain, None))
          else if IsOperator(c) then Prepend(Ended(word) + [Operator(c)], Lex(rest, Plain, None))
          else if IsActive(c) then None
          else Lex(rest, Plain, Extended(word, c))
  }

  function Split(text: string): Option<seq<Token>> {
    Lex(text, Plain, None)
  }

  function Words(args: seq<string>): seq<Token> {
    seq(|args|, i requires 0 <= i < |args| => Word(args[i]))
  }

  ghost predicate NulFree(args: seq<string>) {
    forall i :: 0 <= i < |args| ==> NUL !in args[i]
  }

  // ---------- Reading back what was printed ----------

  lemma {:induction false} EscapedReadsBack(value: string, rest: string, word: string)
    ensures Lex(Escape(value) + "'" + rest, Single, Some(word)) ==
            if NUL in value then None else Lex(rest, Plain, Some(word + value))
    decreases |value|
  {
    var text := Escape(value) + "'" + rest;
    if value == "" {
      assert text == "'" + rest && text[1..] == rest;
      assert word + value == word;
    } else {
      var c, tail := value[0], Escape(value[1..]) + "'" + rest;
      EscapedReadsBack(value[1..], rest, word + [c]);
      assert word + value == word + [c] + value[1..];
      assert value == [c] + value[1..];
      if c == '\'' {
        assert text == "'\\''" + tail;
        assert text[1..] == "\\''" + tail;
        assert text[1..][1..] == "''" + tail && text[1..][1..][1..] == "'" + tail;
        assert text[1..][1..][1..][1..] == tail;
        assert Lex(text, Single, Some(word)) == Lex(text[1..], Plain, Some(word));
        assert Lex(text[1..], Plain, Some(word)) == Lex("'" + tail, Plain, Some(word + [c]));
      } else {
        assert text == [c] + tail && text[1..] == tail;
      }
    }
  }

  lemma QuotedReadsBack(value: string, rest: string)
    ensures Lex(ShellQuote(value) + rest, Plain, None) ==
            if NUL in value then None else Lex(rest, Plain, Some(value))
  {
    EscapedReadsBack(value, rest, "");
    var text := ShellQuote(value) + rest;
    assert text[1..] == Escape(value) + "'" + rest;
    assert "" + value == value;
  }

  lemma BlankEnds(word: string, rest: string)
    ensures Lex(" " + rest, Plain, Some(word)) == Prepend([Word(word)], Split(rest))
  {
    assert (" " + rest)[1..] == rest;
  }

  lemma PipeEnds(word: string, rest: string)
    ensures Lex(" | " + rest, Plain, Some(word)) == Prepend([Word(word), Operator('|')], Split(rest))
  {
    BlankEnds(word, "| " + rest);
    assert " | " + rest == " " + ("| " + rest);
    assert ("| " + rest)[1..] == " " + rest && (" " + rest)[1..] == rest;
    assert Split(" " + rest) == Prepend([], Split(rest));
    match Split(rest)
    case Some(more) =>
      assert [] + more == more;
      assert Ended(None) + [Operator('|')] == [Operator('|')];
      assert Split("| " + rest) == Some([Operator('|')] + more);
      assert [Word(word)] + ([Operator('|')] + more) == [Word(word), Operator('|')] + more;
    case None =>
  }

  /** Splitting the printed command gives back exactly the arguments, if and only if none of them holds a NUL. */
  lemma {:induction false} SplitCommandLine(args: seq<string>)
    ensures NulFree(args) ==> Split(CommandLine(args)) == Some(Words(args))
    ensures !NulFree(args) ==> Split(CommandLine(args)) == None
  {
    if args == [] {
      assert Words(args) == [];
    } else {
      var first, others := args[0], args[1..];
      var rest := if others == [] then "" else " " + CommandLine(others);
      assert Quoted(args)[1..] == Quoted(others);
      assert CommandLine(args) == ShellQuote(first) + rest;
      QuotedReadsBack(first, rest);
      SplitCommandLine(others);
      assert NulFree(args) <==> NUL !in first && NulFree(others);
      assert Words(args) == [Word(first)] + Words(others);
      if others != [] {
        BlankEnds(first, CommandLine(others));
      } else {
        assert Words(args) == [Word(first)];
      }
    }
  }

  /** With input the shell sees one pipe, from `printf %s` and the whole input into the command. */
  lemma SplitCommandWithInput(args: seq<string>, input: string)
    requires NulFree(args) && NUL !in input
    ensures Split(CommandWithInput(args, input)) == Some(
      (if input == "" then [] else [Word("printf"), Word("%s"), Word(input), Operator('|')]) + Words(args))
  {
    SplitCommandLine(args);
    var words := Words(args);
    if input != "" {
      var quoted := ShellQuote(input) + (" | " + CommandLine(args));
      var format := "%s" + (" " + quoted);
      assert CommandWithInput(args, input) == "printf" + (" " + format);
      CommandWord("printf", format);
      CommandWord("%s", quoted);
      SplitPiped(input, CommandLine(args));
      assert [Word("printf")] + ([Word("%s")] + ([Word(input), Operator('|')] + words))
          == [Word("printf"), Word("%s"), Word(input), Operator('|')] + words;
    } else {
      assert [] + words == words;
    }
  }

  lemma SplitPiped(input: string, command: string)
    requires NUL !in input
    ensures Split(ShellQuote(input) + (" | " + command)) == Prepend([Word(input), Operator('|')], Split(command))
  {
    QuotedReadsBack(input, " | " + command);
    PipeEnds(input, command);
  }

  predicate IsCommandWord(letters: string) {
    letters != "" && forall i :: 0 <= i < |letters| ==> 'a' <= letters[i] <= 'z' || letters[i] == '%'
  }

  lemma LettersAreOrdinary(c: char)
    requires 'a' <= c <= 'z' || c == '%'
    ensures c != NUL
    ensures c != '\'' && c != '"' && c != '\\'
    ensures !IsBlank(c)
    ensures !IsOperator(c)
    ensures !IsActive(c)
  {
  }

  lemma CommandWord(letters: string, rest: string)
    requires IsCommandWord(letters)
    ensures Split(letters + (" " + rest)) == Prepend([Word(letters)], Split(rest))
  {
    var c, others := letters[0], letters[1..];
    LettersAreOrdinary(c);
    assert (letters + (" " + rest))[1..] == others + (" " + rest);
    PlainLetters(others, " " + rest, [c]);
    assert [c] + others == letters;
    BlankEnds(letters, rest);
  }

  lemma {:induction false} PlainLetters(letters: string, rest: string, word: string)
    requires letters == "" || IsCommandWord(letters)
    ensures Lex(letters + rest, Plain, Some(word)) == Lex(rest, Plain, Some(word + letters))
    decreases |letters|
  {
    if letters == "" {
      assert letters + rest == rest && word + letters == word;
    } else {
      var text := letters + rest;
      assert text[1..] == letters[1..] + rest;
      LettersAreOrdinary(letters[0]);
      PlainLetters(letters[1..], rest, word + [letters[0]]);
      assert word + letters == word + [letters[0]] + letters[1..];
    }
  }
}
