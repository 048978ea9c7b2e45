/** `parse_args`, `Config::from_vec`, the `Echo` and `Help` arms of `execute`, and
    `format_help` of days/day13/cli_commands/src/lib.rs. The command word is folded to ASCII
    lower case (the same folding, for these five words, as Unicode `to_lowercase`: none of
    them contains a 'k', the only ASCII letter a non-ASCII character lower-cases to). */
module CliCommands {
  import opened Wrappers
  import opened RustText

  datatype Command =
    | Count(filename: string)
    | StatsJson(filename: string)
    | FileSize(filename: string)
    | StatsYaml(filename: string)
    | Echo(text: string)
    | Help

  /** `CliError` without the `Io` variant, which only the file commands produce. */
  datatype CliError = MissingArgument | InvalidCommand

  const HelpFlag := "--help"

  /** The lower-case command word of each command that takes an argument. */
  function Keyword(c: Command): string
    requires !c.Help?
  {
    match c
    case Count(_) => "count"
    case FileSize(_) => "size"
    case StatsJson(_) => "statsjson"
    case StatsYaml(_) => "statsyaml"
    case Echo(_) => "echo"
  }

  /** The argument a command carries. */
  function Argument(c: Command): string
    requires !c.Help?
  {
    if c.Echo? then c.text else c.filename
  }

  predicate IsKeyword(w: string) {
    w in {"count", "size", "statsjson", "statsyaml", "echo"}
  }

  /** `parse_args`: its guards, in their order, then the command word. */
  function ParseArgs(args: seq<string>): (r: Result<Command, CliError>)
    // help is exactly the program name followed by "--help"
    ensures r == Ok(Help) <==> |args| == 2 && args[1] == HelpFlag
    // every other shape than three arguments, and "--help" with an extra argument, is a
    // missing argument
    ensures !(|args| == 2 && args[1] == HelpFlag) && |args| != 3 ==> r == Err(MissingArgument)
    ensures |args| == 3 && args[1] == HelpFlag ==> r == Err(MissingArgument)
    // with three arguments the command word is matched without regard to case, and the
    // command carries the third argument unchanged
    ensures |args| == 3 && args[1] != HelpFlag ==>
      (r.Ok? <==> IsKeyword(ToLower(args[1]))) &&
      (r.Ok? ==> !r.value.Help? && Keyword(r.value) == ToLower(args[1]) && Argument(r.value) == args[2]) &&
      (r.Err? ==> r.error == InvalidCommand)
  {
    if |args| <= 1 then Err(MissingArgument)
    else if args[1] == HelpFlag && |args| <= 2 then Ok(Help)
    else if args[1] == HelpFlag && |args| > 2 then Err(MissingArgument)
    else if |args| != 3 then Err(MissingArgument)
    else
      match ToLower(args[1])
      case "count" => Ok(Count(args[2]))
      case "size" => Ok(FileSize(args[2]))
      case "statsjson" => Ok(StatsJson(args[2]))
      case "statsyaml" => Ok(StatsYaml(args[2]))
      case "echo" => Ok(Echo(args[2]))
      case _ => Err(InvalidCommand)
  }

  /** The command line that asks for a command. */
  function CommandLine(program: string, c: Command): seq<string> {
    if c.Help? then [program, HelpFlag] else [program, Keyword(c), Argument(c)]
  }

  /** Every command is parsed back from its command line. */
  lemma ParseArgsRoundTrip(program: string, c: Command)
    ensures ParseArgs(CommandLine(program, c)) == Ok(c)
  {
    if !c.Help? {
      assert ToLower(Keyword(c)) == Keyword(c);
    }
  }

  /** The command word may be written in any case. */
  lemma ParseArgsIgnoresCase(program: string, c: Command)
    requires !c.Help?
    ensures ParseArgs([program, ToUpper(Keyword(c)), Argument(c)]) == Ok(c)
  {
    assert ToLower(ToUpper(Keyword(c))) == Keyword(c);
    assert ToUpper(Keyword(c)) != HelpFlag;
  }

  datatype Config = Config(command: Command)

  /** `Config::from_vec`: the parsed command, or the same error. */
  function FromVec(args: seq<string>): (r: Result<Config, CliError>)
    ensures r.Ok? <==> ParseArgs(args).Ok?
    ensures r.Ok? ==> r.value.command == ParseArgs(args).value
    ensures r.Err? ==> r.error == ParseArgs(args).error
  {
    match ParseArgs(args)
    case Ok(c) => Ok(Config(c))
    case Err(e) => Err(e)
  }

  /** `Config::from_args_custom`: the same as `from_vec`. */
  function FromArgsCustom(args: seq<string>): (r: Result<Config, CliError>)
    ensures r == FromVec(args)
    ensures r.Ok? <==> ParseArgs(args).Ok?
  {
    FromVec(args)
  }

  /** One line of the help text as the literal lays it out: a line break, the source
      indentation of eight spaces, the usage, a tab, the description, and `\n\t`. */
  function HelpEntry(usage: string, description: string): string {
    "\n        " + usage + "\t" + description + "\n\t"
  }

  /** `format_help`: the literal help text, line breaks, tabs and indentation included. */
  function FormatHelp(): string {
    "Commands\n\t"
    + HelpEntry("count <file>", "prints line/word/char counts")
    + HelpEntry("size  <file> ", "prints size of file")
    + HelpEntry("statsjson <file>", "prints JSON analysis")
    + HelpEntry("statsyaml <file>", "prints YAML analysis")
    + HelpEntry("echo  <text>", "prints the text")
  }

  /** `execute` for the two commands that touch no file. */
  function Execute(c: Command): (r: Result<string, CliError>)
    requires c.Echo? || c.Help?
    ensures c.Echo? ==> r == Ok("Echo: " + c.text)
    ensures c.Help? ==> r == Ok(FormatHelp())
  {
    match c
    case Echo(text) => Ok("Echo: " + text)
    case Help => Ok(FormatHelp())
  }

  /** Echo hands back its text after the prefix. */
  lemma EchoReturnsText(text: string)
    ensures Execute(Echo(text)).Ok? && Execute(Echo(text)).value[6..] == text
  {
  }

  /** The expectations of the crate's tests on argument parsing. */
  lemma ParsingTests()
    ensures FromVec(["only_one"]) == Err(MissingArgument)
    ensures ParseArgs(["mycli", "count", "test_input.txt"]) == Ok(Count("test_input.txt"))
    ensures ParseArgs(["mycli", "what", "test_input.txt"]).Err?
    ensures ParseArgs(["mycli", "echo", "what is this?"]) == Ok(Echo("what is this?"))
    ensures ParseArgs(["mycli", "statsyaml", "test.txt"]) == Ok(StatsYaml("test.txt"))
    ensures ParseArgs(["mycli", "size", "test.txt"]) == Ok(FileSize("test.txt"))
    ensures FromVec(["mycli", "--help"]) == Ok(Config(Help))
    ensures ParseArgs(["mycli", "--help", "something"]) == Err(MissingArgument)
    ensures FromVec(["mycli"]).Err?
    ensures FromVec(["mycli", "count"]) == Err(MissingArgument)
  {
    ParseArgsRoundTrip("mycli", Count("test_input.txt"));
    ParseArgsRoundTrip("mycli", Echo("what is this?"));
    ParseArgsRoundTrip("mycli", StatsYaml("test.txt"));
    ParseArgsRoundTrip("mycli", FileSize("test.txt"));
    assert ToLower("what") == "what";
  }
}
