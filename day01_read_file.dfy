/** `parse_positive_number` of days/day01/read_file/src/main.rs: trim, refuse a leading
    minus sign, parse as `u32` and turn the parse error kind into a message. */
module ReadFile {
  import opened Wrappers
  import opened RustInt
  import opened RustText

  const NegativeMessage := "Negative number not allowed"
  const NotANumberMessage := "Not a number"
  const TooLargeMessage := "Number too large"
  const UnknownMessage := "Unknown numeric error"

  predicate StartsWithMinus(s: string) { s != [] && s[0] == '-' }

  /** `parse_positive_number`. */
  function ParsePositiveNumber(input: string): (r: Result<int, string>)
    // the minus check comes first and is made on the trimmed text
    ensures StartsWithMinus(Trim(input)) ==> r == Err(NegativeMessage)
    // otherwise the result is the `u32` parse of the trimmed text, with its error kind named
    ensures !StartsWithMinus(Trim(input)) ==>
      match ParseU32(Trim(input))
      case Ok(n) => r == Ok(n)
      case Err(InvalidDigit) => r == Err(NotANumberMessage)
      case Err(PosOverflow) => r == Err(TooLargeMessage)
      case Err(_) => r == Err(UnknownMessage)
    ensures r.Ok? ==> 0 <= r.value <= U32_MAX
  {
    var trimmed := Trim(input);
    if StartsWithMinus(trimmed) then Err(NegativeMessage)
    else
      match ParseU32(trimmed)
      case Ok(n) => Ok(n)
      case Err(kind) =>
        Err(match kind
            case InvalidDigit => NotANumberMessage
            case PosOverflow => TooLargeMessage
            case _ => UnknownMessage)
  }

  /** Every `u32`, written in decimal and surrounded by any white space, is accepted and
      read back. */
  lemma AcceptsDisplayedNumbers(n: nat, before: string, after: string)
    requires n <= U32_MAX && AllWhitespace(before) && AllWhitespace(after)
    ensures ParsePositiveNumber(before + NatToString(n) + after) == Ok(n)
  {
    TrimPadded(before, NatToString(n), after);
    ParseU32Display(n);
  }

  /** Only the empty trimmed input reaches the "unknown" branch: a lone `+` is an invalid
      digit, and a minus sign never gets to the parser. */
  lemma UnknownOnlyForBlank(input: string)
    ensures ParsePositiveNumber(input) == Err(UnknownMessage) <==> Trim(input) == []
  {
  }

  /** The demo input of `main`: letters are not a number. */
  lemma NotANumberExample()
    ensures ParsePositiveNumber("abc") == Err(NotANumberMessage)
  {
    assert Trim("abc") == "abc" by { TrimNoOp("abc"); }
    assert ParseU32("abc") == Err(InvalidDigit);
  }

  /** A minus sign after leading blanks is still refused before parsing. */
  lemma NegativeExample()
    ensures ParsePositiveNumber(" -5") == Err(NegativeMessage)
  {
    TrimPadded(" ", "-5", "");
    assert " " + "-5" + "" == " -5";
  }

  /** Any number above `u32::MAX`, written in decimal, is too large. */
  lemma RejectsTooLarge(n: nat)
    requires n > U32_MAX
    ensures ParsePositiveNumber(NatToString(n)) == Err(TooLargeMessage)
  {
    var s := NatToString(n);
    TrimNoOp(s);
    ScanNatToStringOverflow(n, U32_MAX, PosOverflow);
    assert IsDigit(s[0]) && !StartsWithMinus(s);
    assert ParseU32(s) == Err(PosOverflow);
  }

  /** An input of white space only is empty once trimmed. */
  lemma BlankExample()
    ensures ParsePositiveNumber("   ") == Err(UnknownMessage)
  {
    assert TrimStart("   ") == [];
  }
}
