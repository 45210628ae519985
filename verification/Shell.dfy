/** Single quoting for a POSIX shell, and the command line assembled from quoted parts. */
module Shell {
  import opened Wrappers
  import opened TextSplit

  const QUOTE: char := '\''
  const NUL: char := '\0'

  // ----- reading a command line, sections 2.2 and 2.3 of the Shell Command Language -----

  datatype Token = Word(text: string) | AndIf

  /** Unquoted characters that always stand for themselves. */
  predicate Plain(c: char) {
    'a' <= c <= 'z' || 'A' <= c <= 'Z' || '0' <= c <= '9' || c in "/._-+=,:@%"
  }

  function Flush(word: Option<string>): seq<Token> {
    if word.Some? then [Word(word.value)] else []
  }

  function Then(tokens: seq<Token>, rest: Option<seq<Token>>): Option<seq<Token>> {
    if rest.None? then None else Some(tokens + rest.value)
  }

  function Grow(word: Option<string>, more: string): Option<string> {
    Some(word.GetOr("") + more)
  }

  /** The tokens of the input with quotes removed, given the word read so far. Nothing is returned for input whose
      meaning depends on more than this: other operators, expansions, patterns, comments, newlines outside quotes. */
  function Lex(input: string, word: Option<string>): Option<seq<Token>>
    decreases |input|
  {
    if input == "" then Some(Flush(word))
    else
      var c, rest := input[0], input[1..];
      if c == ' ' || c == '\t' then Then(Flush(word), Lex(rest, None))
      else if c == QUOTE then
        var close := Find(rest, QUOTE, 0);
        if close == |rest| || NUL in rest[..close] then None else Lex(rest[close + 1..], Grow(word, rest[..close]))
      else if c == '\\' then
        if rest == "" || rest[0] == '\n' || rest[0] == NUL then None else Lex(rest[1..], Grow(word, rest[..1]))
      else if c == '&' then
        if rest == "" || rest[0] != '&' then None else Then(Flush(word) + [AndIf], Lex(rest[1..], None))
      else if Plain(c) then Lex(rest, Grow(word, [c]))
      else None
  }

  // ----- quoting -----

  function Inner(value: string): string {
    if value == "" then ""
    else (if value[0] == QUOTE then [QUOTE, '\\', QUOTE, QUOTE] else [value[0]]) + Inner(value[1..])
  }

  function Quoted(value: string): string {
    [QUOTE] + Inner(value) + [QUOTE]
  }

  method ShellSingleQuote(value: string) returns (quoted: string)
    ensures quoted == Quoted(value)
  {
    quoted := [QUOTE];
    var i := 0;
    assert value[0..] == value;
    while i < |value|
      invariant 0 <= i <= |value|
      invariant Quoted(value) == quoted + Inner(value[i..]) + [QUOTE]
    {
      assert value[i..][1..] == value[i + 1..];
      if value[i] == QUOTE { quoted := quoted + [QUOTE, '\\', QUOTE, QUOTE]; } else { quoted := quoted + [value[i]]; }
      i := i + 1;
    }
    quoted := quoted + [QUOTE];
  }

  lemma {:induction false} InnerSplit(a: string, b: string)
    ensures Inner(a + b) == Inner(a) + Inner(b)
  {
    if a == "" {
      assert a + b == b;
    } else {
      assert (a + b)[1..] == a[1..] + b;
      InnerSplit(a[1..], b);
    }
  }

  lemma {:induction false} InnerPlain(a: string)
    requires QUOTE !in a
    ensures Inner(a) == a
  {
    if a != "" {
      InnerPlain(a[1..]);
      assert a == [a[0]] + a[1..];
    }
  }

  /** An opening quote, text free of quotes, and the closing quote. */
  lemma LexQuotedRun(run: string, rest: string, word: Option<string>)
    requires QUOTE !in run
    ensures Lex([QUOTE] + run + [QUOTE] + rest, word) == if NUL in run then None else Lex(rest, Grow(word, run))
  {
    var input := [QUOTE] + run + [QUOTE] + rest;
    var after := input[1..];
    assert after == run + [QUOTE] + rest;
    FindIs(after, QUOTE, 0, |run|);
    assert after[..|run|] == run && after[|run| + 1..] == rest;
  }

  lemma LexEscapedQuote(rest: string, word: Option<string>)
    ensures Lex(['\\', QUOTE] + rest, word) == Lex(rest, Grow(word, [QUOTE]))
  {
    var input := ['\\', QUOTE] + rest;
    assert input[1..][1..] == rest && input[1..][..1] == [QUOTE];
  }

  /** A value cut at its first quote. */
  lemma QuotedAtFirst(a: string, b: string, rest: string)
    requires QUOTE !in a
    ensures Quoted(a) + rest == [QUOTE] + a + [QUOTE] + rest
    ensures Quoted(a + [QUOTE] + b) + rest == [QUOTE] + a + [QUOTE] + (['\\', QUOTE] + (Quoted(b) + rest))
  {
    hide Inner;
    InnerPlain(a);
    InnerSplit(a, [QUOTE] + b);
    InnerQuote(b);
    assert a + ([QUOTE] + b) == a + [QUOTE] + b;
  }

  lemma InnerQuote(b: string)
    ensures Inner([QUOTE] + b) == [QUOTE, '\\', QUOTE, QUOTE] + Inner(b)
  {
    assert ([QUOTE] + b)[1..] == b;
  }

  lemma GrowTwice(word: Option<string>, a: string, b: string)
    ensures Grow(Grow(word, a), b) == Grow(word, a + b)
  {
    assert word.GetOr("") + a + b == word.GetOr("") + (a + b);
  }

  /** The quoted form, followed by anything, adds exactly the value to the word being read. */
  lemma {:induction false} LexQuoted(value: string, rest: string, word: Option<string>)
    ensures Lex(Quoted(value) + rest, word) == if NUL in value then None else Lex(rest, Grow(word, value))
    decreases |value|
  {
    hide Lex, Quoted, Grow, Find;
    var at := Find(value, QUOTE, 0);
    var a := value[..at];
    if at == |value| {
      assert a == value;
      QuotedAtFirst(value, "", rest);
      LexQuotedRun(value, rest, word);
    } else {
      var b := value[at + 1..];
      assert value == a + [QUOTE] + b;
      QuotedAtFirst(a, b, rest);
      LexQuotedRun(a, ['\\', QUOTE] + (Quoted(b) + rest), word);
      LexEscapedQuote(Quoted(b) + rest, Grow(word, a));
      LexQuoted(b, rest, Grow(Grow(word, a), [QUOTE]));
      GrowTwice(word, a, [QUOTE]);
      GrowTwice(word, a + [QUOTE], b);
    }
  }

  /** Main quoting result: the shell reads the quoted form as exactly one word, equal to the value, for every value a
      shell can be given. */
  lemma QuotedIsOneWord(value: string)
    ensures Lex(Quoted(value), None) == Some([Word(value)]) <==> NUL !in value
  {
    LexQuoted(value, "", None);
    assert Quoted(value) + "" == Quoted(value);
    assert "" + value == value;
  }

  // ----- the command line -----

  datatype ExecRequest = ExecRequest(workdir: string, environment: seq<(string, string)>, command: string)

  function Assignments(environment: seq<(string, string)>): string {
    if environment == [] then ""
    else Assignments(environment[..|environment| - 1])
         + " " + environment[|environment| - 1].0 + "=" + Quoted(environment[|environment| - 1].1)
  }

  function ExecLine(request: ExecRequest): string {
    (if request.workdir != "" then "cd " + Quoted(request.workdir) + " && " else "")
    + (if request.environment != [] then "env" + Assignments(request.environment) + " /bin/sh -c " else "/bin/sh -c ")
    + Quoted(request.command)
  }

  method BuildExecLine(request: ExecRequest) returns (command: string)
    ensures command == ExecLine(request)
  {
    hide Quoted;
    command := "";
    if request.workdir != "" {
      var quoted := ShellSingleQuote(request.workdir);
      command := "cd " + quoted + " && ";
    }
    ghost var start := command;
    if request.environment != [] {
      command := command + "env";
      var i := 0;
      while i < |request.environment|
        invariant 0 <= i <= |request.environment|
        invariant command == start + "env" + Assignments(request.environment[..i])
      {
        var (key, value) := request.environment[i];
        assert request.environment[..i + 1][..i] == request.environment[..i];
        var quoted := ShellSingleQuote(value);
        command := command + " " + key + "=" + quoted;
        i := i + 1;
      }
      assert request.environment[..i] == request.environment;
      command := command + " /bin/sh -c ";
    } else {
      command := command + "/bin/sh -c ";
    }
    var quoted := ShellSingleQuote(request.command);
    command := command + quoted;
  }

  // ----- what the shell and `env` make of it -----

  /** The names policy allows. */
  const ALLOWED_NAMES: set<string> :=
    {"LANG", "LC_ALL", "LC_CTYPE", "LC_MESSAGES", "LC_TIME", "LC_NUMERIC", "LC_COLLATE", "TZ", "TERM"}

  predicate NameLike(name: string) {
    name != "" && forall i | 0 <= i < |name| :: Plain(name[i]) && name[i] != '='
  }

  lemma AllowedNamesAreNameLike(name: string)
    requires name in ALLOWED_NAMES
    ensures NameLike(name)
  {
  }

  predicate ShellSafe(request: ExecRequest) {
    && NUL !in request.workdir && NUL !in request.command
    && forall i | 0 <= i < |request.environment| ::
         NameLike(request.environment[i].0) && NUL !in request.environment[i].1
  }

  function AssignmentWords(environment: seq<(string, string)>): seq<Token> {
    if environment == [] then []
    else AssignmentWords(environment[..|environment| - 1])
         + [Word(environment[|environment| - 1].0 + "=" + environment[|environment| - 1].1)]
  }

  function ShellWords(request: ExecRequest): seq<Token> {
    [Word("/bin/sh"), Word("-c"), Word(request.command)]
  }

  function ExpectedTokens(request: ExecRequest): seq<Token> {
    (if request.workdir != "" then [Word("cd"), Word(request.workdir), AndIf] else [])
    + (if request.environment != [] then [Word("env")] + AssignmentWords(request.environment) else [])
    + ShellWords(request)
  }

  lemma LexOne(c: char, rest: string, word: Option<string>)
    requires Plain(c)
    ensures Lex([c] + rest, word) == Lex(rest, Grow(word, [c]))
  {
    assert ([c] + rest)[1..] == rest;
  }

  lemma {:induction false} LexPlain(run: string, rest: string, word: Option<string>)
    requires run != "" && forall i | 0 <= i < |run| :: Plain(run[i])
    ensures Lex(run + rest, word) == Lex(rest, Grow(word, run))
    decreases |run|
  {
    hide Lex, Plain, Grow;
    var c, more := run[0], run[1..];
    assert run + rest == [c] + (more + rest);
    LexOne(c, more + rest, word);
    if more == "" {
      assert more + rest == rest && run == [c];
    } else {
      LexPlain(more, rest, Grow(word, [c]));
      GrowTwice(word, [c], more);
      assert [c] + more == run;
    }
  }

  lemma LexBlank(rest: string, word: Option<string>)
    ensures Lex(" " + rest, word) == Then(Flush(word), Lex(rest, None))
  {
    assert (" " + rest)[1..] == rest;
  }

  lemma LexAnd(rest: string)
    ensures Lex("&& " + rest, None) == Then([AndIf], Lex(rest, None))
  {
    var input := "&& " + rest;
    assert input[1..][1..] == " " + rest;
    LexBlank(rest, None);
    if Lex(rest, None).Some? { assert [] + Lex(rest, None).value == Lex(rest, None).value; }
    assert Flush(None) + [AndIf] == [AndIf];
  }

  lemma ThenTwice(a: seq<Token>, b: seq<Token>, rest: Option<seq<Token>>)
    ensures Then(a, Then(b, rest)) == Then(a + b, rest)
  {
    if rest.Some? { assert a + (b + rest.value) == a + b + rest.value; }
  }

  /** A bare word and a blank. */
  lemma LexBareWord(run: string, rest: string)
    requires run != "" && forall i | 0 <= i < |run| :: Plain(run[i])
    ensures Lex(run + " " + rest, None) == Then([Word(run)], Lex(rest, None))
  {
    hide Lex, Plain;
    LexPlain(run, " " + rest, None);
    assert run + (" " + rest) == run + " " + rest;
    LexBlank(rest, Some(run));
    assert "" + run == run;
  }

  lemma LexQuotedWord(value: string, rest: string)
    requires NUL !in value
    ensures Lex(Quoted(value) + " " + rest, None) == Then([Word(value)], Lex(rest, None))
  {
    hide Lex, Quoted;
    LexQuoted(value, " " + rest, None);
    assert Quoted(value) + (" " + rest) == Quoted(value) + " " + rest;
    LexBlank(rest, Some(value));
    assert "" + value == value;
  }

  lemma LexDirectory(workdir: string, rest: string)
    requires NUL !in workdir
    ensures Lex("cd " + Quoted(workdir) + " && " + rest, None) == Then([Word("cd"), Word(workdir), AndIf], Lex(rest, None))
  {
    hide Lex, Quoted;
    var line := "cd " + Quoted(workdir) + " && " + rest;
    var tail := "&& " + rest;
    assert line == "cd" + " " + (Quoted(workdir) + " " + tail);
    LexBareWord("cd", Quoted(workdir) + " " + tail);
    LexQuotedWord(workdir, tail);
    LexAnd(rest);
    ThenTwice([Word(workdir)], [AndIf], Lex(rest, None));
    ThenTwice([Word("cd")], [Word(workdir)] + [AndIf], Lex(rest, None));
    assert [Word("cd")] + ([Word(workdir)] + [AndIf]) == [Word("cd"), Word(workdir), AndIf];
  }

  lemma LexShell(command: string)
    requires NUL !in command
    ensures Lex("/bin/sh -c " + Quoted(command), None) == Some([Word("/bin/sh"), Word("-c"), Word(command)])
  {
    hide Lex, Quoted;
    var tail := "-c" + " " + Quoted(command);
    assert "/bin/sh -c " + Quoted(command) == "/bin/sh" + " " + tail;
    LexBareWord("/bin/sh", tail);
    LexBareWord("-c", Quoted(command));
    QuotedIsOneWord(command);
    assert [Word("-c")] + [Word(command)] == [Word("-c"), Word(command)];
    assert [Word("/bin/sh")] + [Word("-c"), Word(command)] == [Word("/bin/sh"), Word("-c"), Word(command)];
  }

  /** Assignments follow the word `env`, each after a blank. */
  lemma {:induction false} LexAssignments(environment: seq<(string, string)>, rest: string, word: string)
    requires forall i | 0 <= i < |environment| :: NameLike(environment[i].0) && NUL !in environment[i].1
    ensures Lex(Assignments(environment) + " " + rest, Some(word))
      == Then([Word(word)] + AssignmentWords(environment), Lex(rest, None))
  {
    hide Lex, Quoted, NameLike;
    if environment == [] {
      assert Assignments(environment) + " " + rest == " " + rest;
      LexBlank(rest, Some(word));
      assert [Word(word)] + [] == [Word(word)];
    } else {
      var head, last := environment[..|environment| - 1], environment[|environment| - 1];
      var (key, value) := last;
      var tail := key + "=" + Quoted(value) + " " + rest;
      assert Assignments(environment) + " " + rest == Assignments(head) + " " + tail;
      LexAssignments(head, tail, word);
      LexAssignment(key, value, rest);
      ThenTwice([Word(word)] + AssignmentWords(head), [Word(key + "=" + value)], Lex(rest, None));
      assert [Word(word)] + AssignmentWords(environment)
          == [Word(word)] + AssignmentWords(head) + [Word(key + "=" + value)];
    }
  }

  lemma LexAssignment(key: string, value: string, rest: string)
    requires NameLike(key) && NUL !in value
    ensures Lex(key + "=" + Quoted(value) + " " + rest, None) == Then([Word(key + "=" + value)], Lex(rest, None))
  {
    hide Lex, Quoted;
    var name := key + "=";
    assert forall i | 0 <= i < |name| :: Plain(name[i]);
    var tail := Quoted(value) + (" " + rest);
    assert key + "=" + Quoted(value) + " " + rest == name + tail;
    LexPlain(name, tail, None);
    LexQuoted(value, " " + rest, Grow(None, name));
    LexBlank(rest, Grow(Grow(None, name), value));
    assert "" + name + value == key + "=" + value;
  }

  lemma LexEnvironment(environment: seq<(string, string)>, rest: string)
    requires forall i | 0 <= i < |environment| :: NameLike(environment[i].0) && NUL !in environment[i].1
    ensures Lex("env" + Assignments(environment) + " " + rest, None)
      == Then([Word("env")] + AssignmentWords(environment), Lex(rest, None))
  {
    hide Lex, NameLike;
    assert "env" + Assignments(environment) + " " + rest == "env" + (Assignments(environment) + " " + rest);
    LexPlain("env", Assignments(environment) + " " + rest, None);
    assert "" + "env" == "env";
    LexAssignments(environment, rest, "env");
  }

  /** The line and the expected words without the change of directory. */
  function CommandPart(request: ExecRequest): string {
    (if request.environment != [] then "env" + Assignments(request.environment) + " /bin/sh -c " else "/bin/sh -c ")
    + Quoted(request.command)
  }

  function CommandTokens(request: ExecRequest): seq<Token> {
    (if request.environment != [] then [Word("env")] + AssignmentWords(request.environment) else []) + ShellWords(request)
  }

  lemma CommandPartSplits(request: ExecRequest)
    requires ShellSafe(request)
    ensures Lex(CommandPart(request), None) == Some(CommandTokens(request))
  {
    hide Lex, Quoted, NameLike, Assignments, AssignmentWords;
    var shell := "/bin/sh -c " + Quoted(request.command);
    LexShell(request.command);
    if request.environment != [] {
      LexEnvironment(request.environment, shell);
      assert CommandPart(request) == "env" + Assignments(request.environment) + " " + shell;
    } else {
      assert CommandPart(request) == shell;
      assert CommandTokens(request) == ShellWords(request);
    }
  }

  /** Main command-line result: the shell splits the assembled line into exactly the intended words. */
  lemma ExecLineSplits(request: ExecRequest)
    requires ShellSafe(request)
    ensures Lex(ExecLine(request), None) == Some(ExpectedTokens(request))
  {
    hide Lex, Quoted, NameLike, Assignments, AssignmentWords, ShellWords;
    CommandPartSplits(request);
    TokensOfLine(request);
    if request.workdir != "" {
      LexDirectory(request.workdir, CommandPart(request));
      assert ExecLine(request) == "cd " + Quoted(request.workdir) + " && " + CommandPart(request);
    } else {
      assert ExecLine(request) == CommandPart(request);
    }
  }

  /** How `env` takes its operands: leading words with an equals sign are assignments, split at the first one. */
  function EnvOperands(words: seq<Token>): (seq<(string, string)>, seq<Token>) {
    if words == [] || !words[0].Word? || Find(words[0].text, '=', 0) == |words[0].text| then ([], words)
    else
      var at := Find(words[0].text, '=', 0);
      var (more, utility) := EnvOperands(words[1..]);
      ([(words[0].text[..at], words[0].text[at + 1..])] + more, utility)
  }

  function WordsOf(environment: seq<(string, string)>): seq<Token> {
    if environment == [] then [] else [Word(environment[0].0 + "=" + environment[0].1)] + WordsOf(environment[1..])
  }

  lemma {:induction false} WordsEitherWay(environment: seq<(string, string)>)
    ensures WordsOf(environment) == AssignmentWords(environment)
  {
    if |environment| == 1 {
      assert environment[1..] == [] && environment[..0] == [];
    } else if |environment| > 1 {
      var middle := environment[1..][..|environment| - 2];
      assert middle == environment[..|environment| - 1][1..];
      WordsEitherWay(environment[1..]);
      WordsEitherWay(environment[..|environment| - 1]);
      WordsEitherWay(middle);
    }
  }

  /** After the assignments, `env` finds exactly the requested variables and the shell command. */
  lemma {:induction false} EnvReadsBack(environment: seq<(string, string)>, request: ExecRequest)
    requires forall i | 0 <= i < |environment| :: NameLike(environment[i].0)
    ensures EnvOperands(WordsOf(environment) + ShellWords(request)) == (environment, ShellWords(request))
  {
    hide NameLike, ShellWords;
    var words := WordsOf(environment) + ShellWords(request);
    if environment == [] {
      assert words == ShellWords(request);
      UtilityIsNoAssignment(request);
    } else {
      var (key, value) := environment[0];
      assert words[1..] == WordsOf(environment[1..]) + ShellWords(request);
      assert words[0] == Word(key + "=" + value);
      EnvReadsBack(environment[1..], request);
      AssignmentParts(key, value);
      assert environment == [(key, value)] + environment[1..];
    }
  }

  lemma UtilityIsNoAssignment(request: ExecRequest)
    ensures EnvOperands(ShellWords(request)) == ([], ShellWords(request))
  {
    assert Find("/bin/sh", '=', 0) == 7;
  }

  lemma AssignmentParts(key: string, value: string)
    requires NameLike(key)
    ensures var text := key + "=" + value;
            Find(text, '=', 0) == |key| < |text| && text[..|key|] == key && text[|key| + 1..] == value
  {
    FindIs(key + "=" + value, '=', 0, |key|);
  }

  /** The simple commands of a line, cut at each `&&`. */
  function Commands(tokens: seq<Token>): (commands: seq<seq<Token>>)
    ensures |commands| >= 1
  {
    if tokens == [] then [[]]
    else
      var rest := Commands(tokens[1..]);
      if tokens[0].AndIf? then [[]] + rest else [[tokens[0]] + rest[0]] + rest[1..]
  }

  lemma CommandsStep(token: Token, tokens: seq<Token>)
    ensures var rest := Commands(tokens);
            Commands([token] + tokens) == if token.AndIf? then [[]] + rest else [[token] + rest[0]] + rest[1..]
  {
    assert ([token] + tokens)[1..] == tokens;
  }

  lemma {:induction false} OneCommand(tokens: seq<Token>)
    requires forall t | t in tokens :: t.Word?
    ensures Commands(tokens) == [tokens]
  {
    if tokens != [] {
      OneCommand(tokens[1..]);
      CommandsStep(tokens[0], tokens[1..]);
      assert tokens == [tokens[0]] + tokens[1..];
      assert tokens[0] in tokens && forall t | t in tokens[1..] :: t in tokens;
      assert [[tokens[0]] + tokens[1..]] + [tokens[1..]][1..] == [tokens];
    }
  }

  lemma CommandsAfterDirectory(workdir: string, tokens: seq<Token>)
    ensures Commands([Word("cd"), Word(workdir), AndIf] + tokens) == [[Word("cd"), Word(workdir)]] + Commands(tokens)
  {
    hide Commands;
    var rest := Commands(tokens);
    CommandsStep(AndIf, tokens);
    CommandsStep(Word(workdir), [AndIf] + tokens);
    CommandsStep(Word("cd"), [Word(workdir)] + ([AndIf] + tokens));
    assert ([[]] + rest)[1..] == rest && [Word(workdir)] + [] == [Word(workdir)];
    assert ([[Word(workdir)]] + rest)[1..] == rest && [Word("cd")] + [Word(workdir)] == [Word("cd"), Word(workdir)];
    assert [Word("cd")] + ([Word(workdir)] + ([AndIf] + tokens)) == [Word("cd"), Word(workdir), AndIf] + tokens;
  }

  /** What a simple command runs, and with which variables added. */
  function Runs(command: seq<Token>): (seq<(string, string)>, seq<Token>) {
    if command != [] && command[0] == Word("env") then EnvOperands(command[1..]) else ([], command)
  }

  lemma CommandRuns(request: ExecRequest)
    requires ShellSafe(request)
    ensures Commands(CommandTokens(request)) == [CommandTokens(request)]
    ensures Runs(CommandTokens(request)) == (request.environment, ShellWords(request))
  {
    hide EnvOperands, NameLike, AssignmentWords, Commands;
    var environment := request.environment;
    WordsEitherWay(environment);
    AllWords(environment);
    OneCommand(CommandTokens(request));
    if environment != [] {
      EnvReadsBack(environment, request);
      assert CommandTokens(request)[1..] == WordsOf(environment) + ShellWords(request);
    } else {
      assert CommandTokens(request) == ShellWords(request);
    }
  }

  lemma {:induction false} AllWords(environment: seq<(string, string)>)
    ensures forall t | t in AssignmentWords(environment) :: t.Word?
  {
    if environment != [] { AllWords(environment[..|environment| - 1]); }
  }

  /** Main effect result: read by the shell, the assembled line changes to the directory if one was asked for, and then
      runs the shell command with exactly the requested variables, in their order. */
  lemma ExecLineRuns(request: ExecRequest)
    requires ShellSafe(request)
    ensures Lex(ExecLine(request), None).Some?
    ensures var commands := Commands(Lex(ExecLine(request), None).value);
            && (request.workdir != "" ==> |commands| == 2 && commands[0] == [Word("cd"), Word(request.workdir)])
            && (request.workdir == "" ==> |commands| == 1)
            && Runs(commands[|commands| - 1]) == (request.environment, ShellWords(request))
  {
    hide Lex, Quoted, NameLike, Assignments, AssignmentWords, ShellWords, ExecLine, Runs, Commands, CommandTokens;
    ExecLineSplits(request);
    CommandRuns(request);
    TokensOfLine(request);
    if request.workdir != "" { CommandsAfterDirectory(request.workdir, CommandTokens(request)); }
  }

  lemma TokensOfLine(request: ExecRequest)
    ensures ExpectedTokens(request)
      == (if request.workdir != "" then [Word("cd"), Word(request.workdir), AndIf] + CommandTokens(request)
          else CommandTokens(request))
  {
    hide AssignmentWords, ShellWords;
    if request.workdir == "" {
      assert ExpectedTokens(request) == CommandTokens(request);
    } else {
      assert ExpectedTokens(request) == [Word("cd"), Word(request.workdir), AndIf] + CommandTokens(request);
    }
  }
}
