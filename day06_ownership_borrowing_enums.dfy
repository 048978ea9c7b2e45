/** `sum_lengths`, `consume`, `store_refs` and the `Status` arm of `describe` of
    days/day06/ownership_borrowing_enums/src/main.rs. */
module OwnershipBorrowingEnums {
  import opened RustInt
  import opened RustText

  /** `sum_lengths`: the byte lengths added, which is the byte length of the two joined. */
  function SumLengths(a: string, b: string): (r: nat)
    ensures r == Utf8Len(a + b)
  {
    Utf8LenAppend(a, b);
    Utf8Len(a) + Utf8Len(b)
  }

  /** `describe(&SensorValue::Status(s))`. The temperature and pressure arms format floats
      and are not part of this model. */
  function DescribeStatus(s: string): (r: string)
    ensures |r| == 8 + |s| && r[8..] == s && r[..8] == "Status: "
  {
    "Status: " + s
  }

  datatype Data = Number(n: I32) | Text(s: string)

  /** `consume`: the magnitude of a number (`abs` panics on `i32::MIN`), or the byte length of
      a text. */
  function Consume(data: Data): (r: nat)
    requires data.Number? ==> data.n != I32_MIN
    ensures data.Number? ==> r == Abs(data.n) && (r == data.n || r == -data.n)
    ensures data.Text? ==> r == Utf8Len(data.s)
  {
    match data
    case Number(n) => Abs(n)
    case Text(s) => Utf8Len(s)
  }

  /** `store_refs`: the two texts, unchanged and in order. */
  function StoreRefs(a: string, b: string): (r: (string, string))
    ensures r.0 == a && r.1 == b
  {
    (a, b)
  }

  /** The assertions of `main`. */
  lemma MainExamples()
    ensures SumLengths("abc", "zz") == 5
    ensures DescribeStatus("OK") == "Status: OK"
    ensures Consume(Number(-10)) == 10
    ensures Consume(Text("abc")) == 3
    ensures StoreRefs("a", "b") == ("a", "b")
  {
    assert "abc" + "zz" == "abczz";
    assert Utf8Len("abczz") == 5;
    assert Utf8Len("abc") == 3;
  }
}
