/** Command lines for Windows: how arguments are quoted, and how the target program's C
    runtime takes the line apart again. */
module WindowsQuoting {
  import opened Strings

  const BACKSLASH := '\\'
  const QUOTE := '\"'

  predicate Plain(value: string) {
    value != "" && forall c :: c in value ==> !IsSpace(c) && c != QUOTE
  }

  function Slashes(n: nat): (s: string)
    ensures |s| == n
  {
    if n == 0 then "" else [BACKSLASH] + Slashes(n - 1)
  }

  /** The inside of a quoted argument: a run of backslashes is doubled where a quote follows
      it, in the value or at its end, and left alone elsewhere. */
  function Escaped(value: string, slashes: nat): string
    decreases |value|
  {
    if value == "" then Slashes(2 * slashes)
    else if value[0] == BACKSLASH then Escaped(value[1..], slashes + 1)
    else if value[0] == QUOTE then Slashes(2 * slashes + 1) + [QUOTE] + Escaped(value[1..], 0)
    else Slashes(slashes) + [value[0]] + Escaped(value[1..], 0)
  }

  function Quoted(value: string): string {
    if Plain(value) then value else [QUOTE] + Escaped(value, 0) + [QUOTE]
  }

  method QuoteWindowsArgument(value: string) returns (result: string)
    ensures result == Quoted(value)
  {
    if Plain(value) {
      return value;
    }
    result := [QUOTE];
    var slashes := 0;
    var i := 0;
    while i < |value|
      invariant 0 <= i <= |value|
      invariant result + Escaped(value[i..], slashes) == [QUOTE] + Escaped(value, 0)
    {
      var character := value[i];
      assert value[i..][1..] == value[i + 1..];
      if character == BACKSLASH {
        slashes := slashes + 1;
        i := i + 1;
        continue;
      }
      ghost var rest := Escaped(value[i + 1..], 0);
      if character == QUOTE {
        var escape := Slashes(slashes * 2 + 1) + [QUOTE];
        assert result + (escape + rest) == (result + escape) + rest;
        result := result + escape;
      } else {
        assert result + (Slashes(slashes) + [character] + rest) == (result + (Slashes(slashes) + [character])) + rest;
        result := result + (Slashes(slashes) + [character]);
      }
      slashes := 0;
      i := i + 1;
    }
    result := result + Slashes(slashes * 2) + [QUOTE];
  }

  // ---------- the reference: how a C runtime splits a command line

  /** What a quote means that directly follows a quote inside a quoted part: the C runtime
      takes the pair as one literal quote, older splitters end the quoted part with it. */
  datatype PairRule = PairIsQuote | PairEndsPart

  predicate Blank(c: char) {
    c == ' ' || c == '\t'
  }

  function CountSlashes(s: string): (n: nat)
    ensures n <= |s|
    ensures n == |s| || s[n] != BACKSLASH
  {
    if s != "" && s[0] == BACKSLASH then 1 + CountSlashes(s[1..]) else 0
  }

  /** One argument: its characters, and what is left of the line behind it. Before a quote,
      each pair of backslashes is one backslash and an odd one makes the quote literal;
      elsewhere backslashes are ordinary. A blank outside quotes ends the argument. */
  function ReadArgument(s: string, quoted: bool, rule: PairRule): (r: (string, string))
    ensures |r.1| <= |s|
    ensures s != "" && (quoted || !Blank(s[0])) ==> |r.1| < |s|
    decreases |s|
  {
    var n := CountSlashes(s);
    if n < |s| && s[n] == QUOTE then
      if n % 2 == 1 then
        var (arg, rest) := ReadArgument(s[n + 1..], quoted, rule);
        (Slashes(n / 2) + [QUOTE] + arg, rest)
      else if quoted && rule == PairIsQuote && n + 1 < |s| && s[n + 1] == QUOTE then
        var (arg, rest) := ReadArgument(s[n + 2..], quoted, rule);
        (Slashes(n / 2) + [QUOTE] + arg, rest)
      else
        var (arg, rest) := ReadArgument(s[n + 1..], !quoted, rule);
        (Slashes(n / 2) + arg, rest)
    else if n == |s| then (s, "")
    else if !quoted && Blank(s[n]) then (s[..n], s[n..])
    else
      var (arg, rest) := ReadArgument(s[n + 1..], quoted, rule);
      (s[..n + 1] + arg, rest)
  }

  /** The arguments of a line: blanks separate them, and quotes can hold an empty one. */
  function Parse(line: string, rule: PairRule): seq<string>
    decreases |line|
  {
    if line == "" then []
    else if Blank(line[0]) then Parse(line[1..], rule)
    else
      var (arg, rest) := ReadArgument(line, false, rule);
      [arg] + Parse(rest, rule)
  }

  function Joined(args: seq<string>): string {
    if args == [] then ""
    else if |args| == 1 then Quoted(args[0])
    else Quoted(args[0]) + " " + Joined(args[1..])
  }

  // ---------- quoting and splitting are inverse

  /** What may follow an argument on the line. */
  ghost predicate EndsArgument(rest: string) {
    rest == "" || Blank(rest[0])
  }

  lemma {:induction false} SlashesCounted(n: nat, rest: string)
    requires rest == "" || rest[0] != BACKSLASH
    ensures CountSlashes(Slashes(n) + rest) == n
    ensures (Slashes(n) + rest)[..n] == Slashes(n) && (Slashes(n) + rest)[n..] == rest
  {
    if n == 0 {
      assert Slashes(n) + rest == rest;
    } else {
      SlashesCounted(n - 1, rest);
      assert (Slashes(n) + rest)[1..] == Slashes(n - 1) + rest;
    }
  }

  lemma {:induction false} SlashesAdd(m: nat, n: nat)
    ensures Slashes(m) + Slashes(n) == Slashes(m + n)
  {
    if m == 0 {
      assert Slashes(0) + Slashes(n) == Slashes(n);
    } else {
      SlashesAdd(m - 1, n);
      assert Slashes(m) + Slashes(n) == [BACKSLASH] + (Slashes(m - 1) + Slashes(n));
    }
  }

  lemma ReadAtQuote(s: string, k: nat, rule: PairRule, arg: string, rest: string)
    requires CountSlashes(s) == k < |s| && s[k] == QUOTE && k % 2 == 1
    requires ReadArgument(s[k + 1..], true, rule) == (arg, rest)
    ensures ReadArgument(s, true, rule) == (Slashes(k / 2) + [QUOTE] + arg, rest)
  {
  }

  lemma ReadEscapedQuote(n: nat, tail: string, rule: PairRule, arg: string, rest: string)
    requires ReadArgument(tail, true, rule) == (arg, rest)
    ensures ReadArgument(Slashes(2 * n + 1) + ([QUOTE] + tail), true, rule) == (Slashes(n) + [QUOTE] + arg, rest)
  {
    var k, close := 2 * n + 1, [QUOTE] + tail;
    SlashesCounted(k, close);
    assert (Slashes(k) + close)[k..] == close;
    assert (Slashes(k) + close)[k + 1..] == tail;
    ReadAtQuote(Slashes(k) + close, k, rule, arg, rest);
  }

  lemma ReadOrdinary(n: nat, c: char, tail: string, rule: PairRule, arg: string, rest: string)
    requires c != QUOTE && c != BACKSLASH && ReadArgument(tail, true, rule) == (arg, rest)
    ensures ReadArgument(Slashes(n) + ([c] + tail), true, rule) == (Slashes(n) + [c] + arg, rest)
  {
    var s := Slashes(n) + ([c] + tail);
    SlashesCounted(n, [c] + tail);
    assert s[n + 1..] == tail && s[..n + 1] == Slashes(n) + [c];
  }

  lemma ReadClosingQuote(n: nat, rest: string, rule: PairRule)
    requires EndsArgument(rest)
    ensures ReadArgument(Slashes(2 * n) + ([QUOTE] + rest), true, rule) == (Slashes(n), rest)
  {
    var s := Slashes(2 * n) + ([QUOTE] + rest);
    SlashesCounted(2 * n, [QUOTE] + rest);
    assert s[2 * n + 1..] == rest;
    assert ReadArgument(rest, false, rule) == ("", rest);
    assert Slashes(n) + "" == Slashes(n);
  }

  /** The escaped form, one character at a time, with what follows it on the line. */
  lemma EscapedThen(c: char, tail: string, n: nat, close: string)
    ensures Escaped([c] + tail, n) + close ==
      if c == BACKSLASH then Escaped(tail, n + 1) + close
      else if c == QUOTE then Slashes(2 * n + 1) + ([QUOTE] + (Escaped(tail, 0) + close))
      else Slashes(n) + ([c] + (Escaped(tail, 0) + close))
  {
    assert ([c] + tail)[1..] == tail;
    var inner := Escaped(tail, 0);
    if c == QUOTE {
      assert Slashes(2 * n + 1) + [QUOTE] + inner + close == Slashes(2 * n + 1) + ([QUOTE] + (inner + close));
    } else if c != BACKSLASH {
      assert Slashes(n) + [c] + inner + close == Slashes(n) + ([c] + (inner + close));
    }
  }

  lemma OneMoreSlash(n: nat, tail: string)
    ensures Slashes(n) + ([BACKSLASH] + tail) == Slashes(n + 1) + tail
  {
    SlashesAdd(n, 1);
    assert Slashes(1) == [BACKSLASH];
    assert Slashes(n) + ([BACKSLASH] + tail) == (Slashes(n) + [BACKSLASH]) + tail;
  }

  /** Inside the quotes the splitter reads back the value, and stops after the closing one. */
  lemma {:induction false} ReadEscaped(value: string, n: nat, rest: string, rule: PairRule)
    requires EndsArgument(rest)
    ensures ReadArgument(Escaped(value, n) + ([QUOTE] + rest), true, rule) == (Slashes(n) + value, rest)
    decreases |value|, 1
  {
    var close := [QUOTE] + rest;
    if value == "" {
      ReadClosingQuote(n, rest, rule);
      assert Slashes(n) + "" == Slashes(n);
    } else {
      ReadEscapedStep(value[0], value[1..], n, rest, rule);
      assert value == [value[0]] + value[1..];
    }
  }

  lemma {:induction false} ReadEscapedStep(c: char, tail: string, n: nat, rest: string, rule: PairRule)
    requires EndsArgument(rest)
    ensures ReadArgument(Escaped([c] + tail, n) + ([QUOTE] + rest), true, rule) == (Slashes(n) + ([c] + tail), rest)
    decreases |tail| + 1, 0
  {
    var close := [QUOTE] + rest;
    EscapedThen(c, tail, n, close);
    if c == BACKSLASH {
      ReadEscaped(tail, n + 1, rest, rule);
      OneMoreSlash(n, tail);
    } else {
      ReadEscaped(tail, 0, rest, rule);
      assert Slashes(0) + tail == tail;
      Concatenated(n, c, tail);
      if c == QUOTE {
        ReadEscapedQuote(n, Escaped(tail, 0) + close, rule, tail, rest);
      } else {
        ReadOrdinary(n, c, Escaped(tail, 0) + close, rule, tail, rest);
      }
    }
  }

  lemma Concatenated(n: nat, c: char, tail: string)
    ensures Slashes(n) + ([c] + tail) == Slashes(n) + [c] + tail
  {
  }

  /** Outside quotes a plain argument is read back as it stands. */
  lemma {:induction false} ReadPlain(value: string, rest: string, rule: PairRule)
    requires forall c :: c in value ==> !IsSpace(c) && c != QUOTE
    requires EndsArgument(rest)
    ensures ReadArgument(value + rest, false, rule) == (value, rest)
    decreases |value|
  {
    var s := value + rest;
    var n := CountSlashes(value);
    CountSlashesBefore(value, rest);
    if n == |value| {
      if rest == "" {
        assert s == value;
      } else {
        assert s[n] == rest[0] && s[..n] == value && s[n..] == rest;
      }
    } else {
      assert value[n] in value && s[n] == value[n];
      assert s[n + 1..] == value[n + 1..] + rest;
      forall c | c in value[n + 1..] ensures c in value {}
      ReadPlain(value[n + 1..], rest, rule);
      assert s[..n + 1] + value[n + 1..] == value;
    }
  }

  lemma {:induction false} CountSlashesBefore(value: string, rest: string)
    requires EndsArgument(rest)
    ensures CountSlashes(value + rest) == CountSlashes(value)
  {
    if value == "" {
      assert value + rest == rest;
    } else {
      assert (value + rest)[1..] == value[1..] + rest;
      CountSlashesBefore(value[1..], rest);
    }
  }

  /** A quote outside quotes opens a quoted part. */
  lemma OpeningQuote(inner: string, rule: PairRule)
    ensures ReadArgument([QUOTE] + inner, false, rule) == ReadArgument(inner, true, rule)
  {
    var s := [QUOTE] + inner;
    assert CountSlashes(s) == 0 && s[1..] == inner;
    var (arg, rest) := ReadArgument(inner, true, rule);
    assert Slashes(0) + arg == arg;
  }

  lemma QuotedIsRead(value: string, rest: string, rule: PairRule)
    requires EndsArgument(rest)
    ensures var s := Quoted(value) + rest;
      s != "" && !Blank(s[0]) && ReadArgument(s, false, rule) == (value, rest)
  {
    var s := Quoted(value) + rest;
    if Plain(value) {
      assert value[0] in value && s[0] == value[0];
      ReadPlain(value, rest, rule);
    } else {
      var inner := Escaped(value, 0) + ([QUOTE] + rest);
      assert s == [QUOTE] + inner;
      OpeningQuote(inner, rule);
      ReadEscaped(value, 0, rest, rule);
      assert Slashes(0) + value == value;
    }
  }

  /** Every list of arguments survives the command line, whichever rule the splitter has
      for a pair of quotes: empty arguments, quotes and trailing backslashes included. */
  lemma {:induction false} ArgumentsSurvive(args: seq<string>, rule: PairRule)
    ensures Parse(Joined(args), rule) == args
  {
    if args == [] {
    } else if |args| == 1 {
      QuotedIsRead(args[0], "", rule);
      assert Quoted(args[0]) + "" == Quoted(args[0]);
      assert [args[0]] + [] == args;
    } else {
      var rest := " " + Joined(args[1..]);
      QuotedIsRead(args[0], rest, rule);
      assert Joined(args) == Quoted(args[0]) + rest;
      assert rest[1..] == Joined(args[1..]);
      ArgumentsSurvive(args[1..], rule);
      assert [args[0]] + args[1..] == args;
    }
  }

  // ---------- the whole command line, program first

  function QuotedCommand(command: string): string {
    [QUOTE] + QuotesEscaped(command) + [QUOTE]
  }

  function QuotesEscaped(command: string): string {
    if command == "" then ""
    else (if command[0] == QUOTE then [BACKSLASH, QUOTE] else [command[0]]) + QuotesEscaped(command[1..])
  }

  function ArgumentPart(args: seq<string>): string {
    if Joined(args) != "" then " " + Joined(args) else ""
  }

  function CommandLine(command: string, args: seq<string>): string {
    QuotedCommand(command) + ArgumentPart(args)
  }

  /** The program name follows other rules: a quote only switches quoting on and off, and a
      backslash is always ordinary. */
  function ReadProgram(line: string, quoted: bool): (r: (string, string))
    ensures QUOTE !in r.0
    decreases |line|
  {
    if line == "" then ("", "")
    else if line[0] == QUOTE then ReadProgram(line[1..], !quoted)
    else if !quoted && Blank(line[0]) then ("", line[1..])
    else
      var (name, rest) := ReadProgram(line[1..], quoted);
      ([line[0]] + name, rest)
  }

  function ParseCommandLine(line: string, rule: PairRule): seq<string> {
    var (program, rest) := ReadProgram(line, false);
    [program] + Parse(rest, rule)
  }

  /** Every quote loses the backslash in front of it. */
  function QuotesUnescaped(text: string): string
    decreases |text|
  {
    if text == "" then ""
    else if |text| > 1 && text[0] == BACKSLASH && text[1] == QUOTE then [QUOTE] + QuotesUnescaped(text[2..])
    else [text[0]] + QuotesUnescaped(text[1..])
  }

  /** Escaping loses nothing of a command, and leaves no quote without a backslash. */
  lemma {:induction false} EscapingInverts(command: string)
    ensures QuotesUnescaped(QuotesEscaped(command)) == command
    ensures var e := QuotesEscaped(command);
      forall i :: 0 <= i < |e| && e[i] == QUOTE ==> i > 0 && e[i - 1] == BACKSLASH
  {
    if command != "" {
      var rest := QuotesEscaped(command[1..]);
      EscapingInverts(command[1..]);
      if command[0] == QUOTE {
        assert ([BACKSLASH, QUOTE] + rest)[2..] == rest;
      } else {
        assert ([command[0]] + rest)[1..] == rest;
        assert rest != "" ==> rest[0] != QUOTE;
      }
      assert [command[0]] + command[1..] == command;
    }
  }

  lemma {:induction false} NothingToEscape(command: string)
    requires QUOTE !in command
    ensures QuotesEscaped(command) == command
  {
    if command != "" {
      assert command[0] in command;
      NothingToEscape(command[1..]);
    }
  }

  lemma {:induction false} ProgramIsRead(command: string, rest: string)
    requires QUOTE !in command && EndsArgument(rest)
    ensures ReadProgram(command + ([QUOTE] + rest), true) == (command, if rest == "" then "" else rest[1..])
    decreases |command|
  {
    if command == "" {
      assert command + ([QUOTE] + rest) == [QUOTE] + rest;
      assert ([QUOTE] + rest)[1..] == rest;
    } else {
      assert command[0] in command;
      assert (command + ([QUOTE] + rest))[1..] == command[1..] + ([QUOTE] + rest);
      ProgramIsRead(command[1..], rest);
      assert [command[0]] + command[1..] == command;
    }
  }

  lemma LineOfPlainCommand(command: string, args: seq<string>)
    requires QUOTE !in command
    ensures CommandLine(command, args) == [QUOTE] + (command + ([QUOTE] + ArgumentPart(args)))
  {
    NothingToEscape(command);
  }

  lemma ArgumentPartIsRead(args: seq<string>, rule: PairRule)
    ensures var rest := ArgumentPart(args);
      EndsArgument(rest) && Parse(if rest == "" then "" else rest[1..], rule) == args
  {
    ArgumentsSurvive(args, rule);
    assert (" " + Joined(args))[1..] == Joined(args);
  }

  lemma CommandLineSurvives(command: string, args: seq<string>, rule: PairRule)
    requires QUOTE !in command
    ensures ParseCommandLine(CommandLine(command, args), rule) == [command] + args
  {
    var rest := ArgumentPart(args);
    var behind := command + ([QUOTE] + rest);
    LineOfPlainCommand(command, args);
    assert ([QUOTE] + behind)[1..] == behind;
    ArgumentPartIsRead(args, rule);
    ProgramIsRead(command, rest);
  }

  /** A program and its arguments survive the command line exactly when the program's name
      holds no quote, which no Windows file name does. */
  lemma CommandLineSurvivesExactlyWhen(command: string, args: seq<string>, rule: PairRule)
    ensures ParseCommandLine(CommandLine(command, args), rule) == [command] + args <==> QUOTE !in command
  {
    if QUOTE !in command {
      CommandLineSurvives(command, args, rule);
    } else {
      var line := CommandLine(command, args);
      var program := ReadProgram(line, false).0;
      assert ([command] + args)[0] == command != program == ParseCommandLine(line, rule)[0];
    }
  }
}
