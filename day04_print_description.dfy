/** `Describe` and `Double` of days/day04/print_description/src/main.rs, and the generic
    `parse_and_double`, instantiated with the integer types that implement both traits. */
module PrintDescription {
  import opened Wrappers
  import opened RustInt
  import opened RustText

  /** The implementors of `Describe`. */
  datatype Describable = User(name: string) | System(id: U32)

  /** `Describe::describe`. */
  function Describe(d: Describable): (r: string)
    ensures d.User? ==> r == "User: " + d.name
    ensures d.System? ==> r == "System ID: " + NatToString(d.id)
  {
    match d
    case User(name) => "User: " + name
    case System(id) => "System ID: " + NatToString(id)
  }

  /** The two descriptions can never be confused: a user named like a system line still
      reads "User: …". */
  lemma DescriptionsDistinct(d: Describable)
    ensures d.User? <==> Describe(d)[..6] == "User: "
  {
    if d.User? {
      assert ("User: " + d.name)[..6] == "User: ";
    } else {
      assert Describe(d)[..6] == "System";
    }
  }

  /** `Double for i32`: `self + self`; the addition must not overflow. */
  function DoubleI32(v: I32): (r: I32)
    requires InI32(v + v)
    ensures r == 2 * v
  {
    v + v
  }

  /** `Double for u32`: `self * 2`; the product must fit. */
  function DoubleU32(v: U32): (r: U32)
    requires v * 2 <= U32_MAX
    ensures r == v + v
  {
    v * 2
  }

  /** The integer types `parse_and_double` can be used with. */
  datatype IntType = AsI32 | AsU32

  function Parse(t: IntType, s: string): Result<int, IntErrorKind> {
    match t
    case AsI32 => ParseI32(s)
    case AsU32 => ParseU32(s)
  }

  /** Doubling what `input` parses to does not overflow (it panics otherwise). */
  predicate CanDouble(t: IntType, input: string) {
    match Parse(t, Trim(input))
    case Err(_) => true
    case Ok(v) => if t.AsI32? then InI32(v + v) else v * 2 <= U32_MAX
  }

  /** `parse_and_double`: parse the trimmed input and double it; every parse error is reported
      as "Env error". */
  function ParseAndDouble(t: IntType, input: string): (r: Result<int, string>)
    requires CanDouble(t, input)
    ensures r.Ok? <==> Parse(t, Trim(input)).Ok?
    ensures r.Ok? ==> r.value == 2 * Parse(t, Trim(input)).value
    ensures r.Err? ==> r.error == "Env error"
  {
    match Parse(t, Trim(input))
    case Err(_) => Err("Env error")
    case Ok(v) => Ok(if t.AsI32? then DoubleI32(v) else DoubleU32(v))
  }

  /** The call in `main`. */
  lemma MainExample()
    ensures ParseAndDouble(AsI32, "5") == Ok(10)
  {
    assert Trim("5") == "5" by { TrimNoOp("5"); }
    assert ParseI32("5") == Ok(5);
  }

  /** Surrounding white space does not matter: any `i32` whose double fits comes back
      doubled. */
  lemma DoublesDisplayedNumber(v: int, before: string, after: string)
    requires InI32(v) && InI32(v + v) && AllWhitespace(before) && AllWhitespace(after)
    ensures CanDouble(AsI32, before + IntToString(v) + after)
    ensures ParseAndDouble(AsI32, before + IntToString(v) + after) == Ok(2 * v)
  {
    var s := IntToString(v);
    assert !IsWhitespace(s[0]);
    assert !IsWhitespace(s[|s| - 1]) by {
      if v < 0 { assert s[|s| - 1] == NatToString(-v)[|NatToString(-v)| - 1]; }
    }
    TrimPadded(before, s, after);
    ParseI32Display(v);
  }
}
