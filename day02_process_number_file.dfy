/** `first_char_as_digit` of days/day02/process_number_file/src/main.rs: the value of the first
    character as a decimal digit. */
module ProcessNumberFile {
  import opened Wrappers
  import opened RustText

  const EmptyMessage := "Empty string"
  const NotADigitMessage := "Not a digit"

  /** `first_char_as_digit`: `chars().next()` then `to_digit(10)`, which accepts only the ASCII
      digits. */
  function FirstCharAsDigit(input: string): (r: Result<int, string>)
    ensures r == Err(EmptyMessage) <==> input == []
    ensures r == Err(NotADigitMessage) <==> input != [] && !IsDigit(input[0])
    ensures r.Ok? ==> 0 <= r.value <= 9 && input[0] == DigitChar(r.value)
  {
    if input == [] then Err(EmptyMessage)
    else if !IsDigit(input[0]) then Err(NotADigitMessage)
    else Ok(DigitValue(input[0]))
  }

  /** Only the first character matters: whatever follows it is ignored. */
  lemma IgnoresRest(first: char, rest: string)
    ensures FirstCharAsDigit([first] + rest) == FirstCharAsDigit([first])
  {
  }

  /** Every digit is read back from a text that starts with it. */
  lemma ReadsLeadingDigit(d: nat, rest: string)
    requires d < 10
    ensures FirstCharAsDigit([DigitChar(d)] + rest) == Ok(d)
  {
  }

  /** The three inputs of `main`. */
  lemma Examples()
    ensures FirstCharAsDigit("") == Err(EmptyMessage)
    ensures FirstCharAsDigit("a45") == Err(NotADigitMessage)
    ensures FirstCharAsDigit("5xyz") == Ok(5)
  {
  }
}
