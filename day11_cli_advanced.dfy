/** `Mode::from_str` and `Config::from_vec` of days/day11/cli_advanced/src/lib.rs: a file name
    and a counting mode taken from the command line. Case folding is ASCII case folding, which
    agrees with Unicode `to_lowercase` on whether a text folds to one of the four mode names
    (no non-ASCII character lower-cases to a string of ASCII letters other than the Kelvin
    sign's 'k', and no mode name contains a 'k'). */
module CliAdvanced {
  import opened Wrappers
  import opened RustText

  datatype Mode = Lines | Words | Chars | All

  /** `CliError` without the `Io` variant, which only file analysis produces. */
  datatype CliError = MissingArgument | InvalidMode

  /** The lower-case spelling `from_str` accepts for each mode. */
  function ModeName(m: Mode): string {
    match m
    case Lines => "lines"
    case Words => "words"
    case Chars => "chars"
    case All => "all"
  }

  /** `Mode::from_str`: the mode whose name the lower-cased text is, or `InvalidMode`. */
  function ModeFromStr(s: string): (r: Result<Mode, CliError>)
    ensures r.Ok? <==> ToLower(s) in {"lines", "words", "chars", "all"}
    ensures r.Ok? ==> ModeName(r.value) == ToLower(s)
    ensures r.Err? ==> r.error == InvalidMode
  {
    match ToLower(s)
    case "lines" => Ok(Lines)
    case "words" => Ok(Words)
    case "chars" => Ok(Chars)
    case "all" => Ok(All)
    case _ => Err(InvalidMode)
  }

  /** Every mode is parsed back from its name, in lower or in upper case. */
  lemma ModeRoundTrip(m: Mode)
    ensures ModeFromStr(ModeName(m)) == Ok(m)
    ensures ModeFromStr(ToUpper(ModeName(m))) == Ok(m)
  {
    assert ToLower(ModeName(m)) == ModeName(m);
    assert ToLower(ToUpper(ModeName(m))) == ModeName(m);
  }

  datatype Config = Config(filename: string, mode: Mode)

  /** `Config::from_vec`: exactly three arguments (the program name, the file, the mode); the
      mode must parse. */
  function FromVec(args: seq<string>): (r: Result<Config, CliError>)
    ensures |args| != 3 ==> r == Err(MissingArgument)
    ensures |args| == 3 ==> (r.Ok? <==> ModeFromStr(args[2]).Ok?)
    ensures |args| == 3 && r.Ok? ==> r.value == Config(args[1], ModeFromStr(args[2]).value)
    ensures |args| == 3 && r.Err? ==> r.error == InvalidMode
  {
    if |args| != 3 then Err(MissingArgument)
    else
      match ModeFromStr(args[2])
      case Ok(mode) => Ok(Config(args[1], mode))
      case Err(e) => Err(e)
  }

  /** `Config::from_args_custom`: the same as `from_vec`. */
  function FromArgsCustom(args: seq<string>): (r: Result<Config, CliError>)
    ensures r == FromVec(args)
    ensures r.Err? && r.error == MissingArgument <==> |args| != 3
  {
    FromVec(args)
  }

  /** Any file name and any mode, written out as a command line, come back as the
      configuration. */
  lemma FromVecRoundTrip(program: string, filename: string, m: Mode)
    ensures FromVec([program, filename, ModeName(m)]) == Ok(Config(filename, m))
  {
    ModeRoundTrip(m);
  }

  /** The expectations of the crate's integration tests. */
  lemma IntegrationTests()
    ensures FromArgsCustom(["program", "input_real.txt"]).Err?
    ensures FromArgsCustom(["program", "test_input.txt", "lines"]) == Ok(Config("test_input.txt", Lines))
    ensures FromArgsCustom(["only_one"]) == Err(MissingArgument)
    ensures FromArgsCustom(["program", "test_input.txt", "bytes"]) == Err(InvalidMode)
  {
    FromVecRoundTrip("program", "test_input.txt", Lines);
    assert ToLower("bytes") == "bytes";
  }
}
