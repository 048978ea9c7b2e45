/** The library of days/day09/testing/src/lib.rs: `double`, `add` and `parse_number`, with
    the expectations of its unit tests. */
module Testing {
  import opened Wrappers
  import opened RustInt
  import opened RustText

  /** `double`: `v * 2`, which must not overflow. */
  function Double(v: I32): (r: I32)
    requires InI32(v * 2)
    ensures r == Add(v, v)
  {
    v * 2
  }

  /** `add`: `a + b`, which must not overflow. */
  function Add(a: I32, b: I32): (r: I32)
    requires InI32(a + b)
    ensures r - b == a && r - a == b
  {
    a + b
  }

  /** `parse_number`: the trimmed input as an `i32`, or "Parse error". */
  function ParseNumber(input: string): (r: Result<int, string>)
    ensures r.Ok? <==> ParseI32(Trim(input)).Ok?
    ensures r.Ok? ==> r.value == ParseI32(Trim(input)).value && InI32(r.value)
    ensures r.Err? ==> r.error == "Parse error"
  {
    match ParseI32(Trim(input))
    case Ok(v) => Ok(v)
    case Err(_) => Err("Parse error")
  }

  /** Every `i32`, printed and padded with white space, parses back. */
  lemma ParsesDisplayedNumber(v: int, before: string, after: string)
    requires InI32(v) && AllWhitespace(before) && AllWhitespace(after)
    ensures ParseNumber(before + IntToString(v) + after) == Ok(v)
  {
    var s := IntToString(v);
    assert !IsWhitespace(s[0]);
    assert !IsWhitespace(s[|s| - 1]) by {
      if v < 0 { assert s[|s| - 1] == NatToString(-v)[|NatToString(-v)| - 1]; }
    }
    TrimPadded(before, s, after);
    ParseI32Display(v);
  }

  /** The unit tests of `double`. */
  lemma DoubleTests()
    ensures Double(2) == 4 && Double(-2) == -4 && Double(0) == 0
  {
  }

  /** The unit tests of `parse_number` that succeed. */
  lemma ParseNumberTests()
    ensures ParseNumber("42") == Ok(42)
    ensures ParseNumber(" 5 ") == Ok(5)
  {
    assert Trim("42") == "42" by { TrimNoOp("42"); }
    assert ParseI32("42") == Ok(42);
    TrimPadded(" ", "5", " ");
    assert " " + "5" + " " == " 5 ";
    assert ParseI32("5") == Ok(5);
  }

  /** The unit test of `parse_number` that fails. */
  lemma ParseNumberRejectsLetters()
    ensures ParseNumber("abc") == Err("Parse error")
  {
    assert Trim("abc") == "abc" by { TrimNoOp("abc"); }
    assert ParseI32("abc") == Err(InvalidDigit);
  }
}
