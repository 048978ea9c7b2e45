/** `safe_division`, `read_number` and `load_and_double` of
    days/day19/enums_result_errors/src/main.rs. The file system is replaced by the outcome of
    `fs::read_to_string`, passed in as a `FileRead`. */
module EnumsResultErrors {
  import opened Wrappers
  import opened RustInt
  import opened RustText

  datatype MathError = DivisionByZero

  /** `safe_division`: a zero divisor is an error, anything else is Rust's truncating `/`.
      `i32::MIN / -1` overflows and panics in Rust, so it is excluded. */
  function SafeDivision(a: I32, b: I32): (r: Result<I32, MathError>)
    requires !(a == I32_MIN && b == -1)
    ensures r.Err? <==> b == 0
    // the quotient leaves a remainder smaller than the divisor, with the dividend's sign
    ensures r.Ok? ==> var rem := a - r.value * b;
      Abs(rem) < Abs(b) && (rem == 0 || (rem < 0) == (a < 0))
  {
    if b == 0 then Err(DivisionByZero)
    else
      TruncDivRemainder(a, b);
      var q := TruncDiv(a, b);
      TruncDivBound(a, b);
      Ok(q)
  }

  /** The two calls of `main`. */
  lemma SafeDivisionExamples()
    ensures SafeDivision(10, 0) == Err(DivisionByZero)
    ensures SafeDivision(10, 2) == Ok(5)
  {
  }

  /** Division truncates toward zero: -7 / 2 is -3, not -4. */
  lemma SafeDivisionTruncates()
    ensures SafeDivision(-7, 2) == Ok(-3)
  {
  }

  /** What `fs::read_to_string` returned. The `io::Error` itself is not modelled. */
  datatype FileRead = Contents(text: string) | IoFailure

  datatype ReadError = Io | Parse(kind: IntErrorKind) | NoStringAfterSplit

  /** `read_number`: the first white-space separated word of the file, trimmed and parsed as
      `i32`. */
  function ReadNumber(file: FileRead): (r: Result<I32, ReadError>)
    ensures file.IoFailure? ==> r == Err(Io)
    ensures file.Contents? ==> (r == Err(NoStringAfterSplit) <==> AllWhitespace(file.text))
    // the `trim` is a no-op: a word of `split_whitespace` has no white space to remove
    ensures file.Contents? && !AllWhitespace(file.text) ==>
      var parsed := ParseI32(FirstToken(file.text).value);
      r == if parsed.Ok? then Ok(parsed.value) else Err(Parse(parsed.error))
  {
    match file
    case IoFailure => Err(Io)
    case Contents(text) =>
      match FirstToken(text)
      case None => Err(NoStringAfterSplit)
      case Some(first) =>
        TrimNoOp(first);
        var parsed := ParseI32(Trim(first));
        if parsed.Ok? then Ok(parsed.value) else Err(Parse(parsed.error))
  }

  /** A file holding a displayed `i32` after any white space, and followed by white space
      and anything at all, reads back that number. */
  lemma ReadsDisplayedNumber(n: int, before: string, after: string)
    requires InI32(n) && AllWhitespace(before)
    requires after == [] || IsWhitespace(after[0])
    ensures ReadNumber(Contents(before + IntToString(n) + after)) == Ok(n)
  {
    var t := IntToString(n);
    forall i | 0 <= i < |t|
      ensures !IsWhitespace(t[i])
    {
      if n < 0 && i > 0 {
        assert t[i] == NatToString(-n)[i - 1];
      }
    }
    FirstTokenOf(before, t, after);
    ParseI32Display(n);
  }

  datatype LoadError = Read(cause: ReadError) | Negative

  /** `load_and_double`: read errors are passed on, negative numbers are refused, anything
      else is doubled. Doubling a number above `i32::MAX / 2` overflows and panics in Rust, so
      it is excluded. */
  function LoadAndDouble(file: FileRead): (r: Result<I32, LoadError>)
    requires ReadNumber(file).Ok? && ReadNumber(file).value >= 0 ==>
      ReadNumber(file).value * 2 <= I32_MAX
    ensures ReadNumber(file).Err? <==> r.Err? && r.error.Read?
    ensures r.Err? && r.error.Read? ==> r.error.cause == ReadNumber(file).error
    ensures r == Err(Negative) <==> ReadNumber(file).Ok? && ReadNumber(file).value < 0
    ensures r.Ok? ==> r.value >= 0 && r.value == ReadNumber(file).value * 2
  {
    match ReadNumber(file)
    case Err(e) => Err(Read(e))
    case Ok(number) =>
      if number < 0 then Err(Negative) else Ok(number * 2)
  }

  /** A file holding a displayed non-negative number that fits doubled gives twice it. */
  lemma LoadsDisplayedNumber(n: int, before: string, after: string)
    requires 0 <= n <= 0x3FFF_FFFF && AllWhitespace(before)
    requires after == [] || IsWhitespace(after[0])
    ensures ReadNumber(Contents(before + IntToString(n) + after)) == Ok(n) &&
            LoadAndDouble(Contents(before + IntToString(n) + after)) == Ok(n * 2)
  {
    ReadsDisplayedNumber(n, before, after);
  }
}
