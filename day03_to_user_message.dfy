/** `parse_and_validate` and the two `DataSource`s of days/day03/to_user_message/src/main.rs.
    The generic parameter `T: FromStr` becomes a choice among the integer types the program
    instantiates it with; the environment becomes a map from variable names to values. */
module ToUserMessage {
  import opened Wrappers
  import opened RustInt
  import opened RustText

  const ParseErrorMessage := "Parse error"
  const ValidationErrorMessage := "Validation error"
  const EnvErrorMessage := "Env error"

  /** The integer types `parse_and_validate` is called with. */
  datatype IntType = AsU32 | AsUsize | AsI32

  /** `str::parse::<T>` for each of them. */
  function Parse(t: IntType, s: string): Result<int, IntErrorKind> {
    match t
    case AsU32 => ParseU32(s)
    case AsUsize => ParseUsize(s)
    case AsI32 => ParseI32(s)
  }

  /** `parse_and_validate`: a parse error is reported first; the validator decides the
      rest. */
  function ParseAndValidate(t: IntType, input: string, validator: int -> bool)
    : (r: Result<int, string>)
    ensures r == Err(ParseErrorMessage) <==> Parse(t, input).Err?
    ensures r == Err(ValidationErrorMessage) <==>
      Parse(t, input).Ok? && !validator(Parse(t, input).value)
    ensures r.Ok? <==> Parse(t, input).Ok? && validator(Parse(t, input).value)
    ensures r.Ok? ==> r.value == Parse(t, input).value
  {
    match Parse(t, input)
    case Err(_) => Err(ParseErrorMessage)
    case Ok(v) => if validator(v) then Ok(v) else Err(ValidationErrorMessage)
  }

  /** The validator is not consulted when parsing fails: any two validators give the same
      result. */
  lemma ValidatorNotConsultedOnParseError(t: IntType, input: string, v1: int -> bool,
                                          v2: int -> bool)
    requires Parse(t, input).Err?
    ensures ParseAndValidate(t, input, v1) == ParseAndValidate(t, input, v2)
  {
  }

  /** The three calls in `main`. */
  lemma MainExamples()
    ensures ParseAndValidate(AsU32, "12", v => v < 100) == Ok(12)
    ensures ParseAndValidate(AsUsize, "abc", _ => true) == Err(ParseErrorMessage)
    ensures ParseAndValidate(AsI32, "-5", v => v >= 0) == Err(ValidationErrorMessage)
  {
    assert ParseU32("12") == Ok(12) by { ParseU32Display(12); }
    assert ParseI32("-5") == Ok(-5) by { ParseI32Display(-5); }
  }

  /** `ConstSource(u32)` and `EnvSource { var }`. */
  datatype Source = ConstSource(n: U32) | EnvSource(name: string)

  /** `DataSource::read_value`, with `env` standing for the process environment. */
  function ReadValue(src: Source, env: map<string, string>): (r: Result<int, string>)
    ensures src.ConstSource? ==> r == Ok(src.n)
    ensures src.EnvSource? ==>
      (r.Ok? <==> src.name in env && ParseU32(env[src.name]).Ok?) &&
      (r.Ok? ==> r.value == ParseU32(env[src.name]).value) &&
      (r.Err? ==> r.error == EnvErrorMessage)
  {
    match src
    case ConstSource(n) => Ok(n)
    case EnvSource(name) =>
      if name !in env then Err(EnvErrorMessage)
      else
        match ParseU32(env[name])
        case Ok(v) => Ok(v)
        case Err(_) => Err(EnvErrorMessage)
  }

  /** A variable holding a `u32` in decimal is read back as that number. */
  lemma EnvSourceReadsDisplayedNumber(name: string, n: nat, env: map<string, string>)
    requires n <= U32_MAX && name in env && env[name] == NatToString(n)
    ensures ReadValue(EnvSource(name), env) == Ok(n)
  {
    ParseU32Display(n);
  }

  /** The three sources of `main`, with `TEST_NUMBER` set to "99". */
  lemma MainSources()
    ensures ReadValue(ConstSource(42), map["TEST_NUMBER" := "99"]) == Ok(42)
    ensures ReadValue(EnvSource("TEST_NUMBER"), map["TEST_NUMBER" := "99"]) == Ok(99)
    ensures ReadValue(EnvSource("MISSING_VAR"), map["TEST_NUMBER" := "99"]) == Err(EnvErrorMessage)
  {
    EnvSourceReadsDisplayedNumber("TEST_NUMBER", 99, map["TEST_NUMBER" := "99"]);
  }
}
