/** `longer`, `first_char` and `good_ref` of days/day05/lifetimes/src/main.rs. Lengths are
    `str::len`, the UTF-8 byte count. */
module Lifetimes {
  import opened RustText

  /** `longer`: `a` when its byte length is strictly greater, otherwise `b`. */
  function Longer(a: string, b: string): (r: string)
    ensures r == a || r == b
    ensures Utf8Len(a) > Utf8Len(b) ==> r == a
    ensures Utf8Len(a) <= Utf8Len(b) ==> r == b
    ensures Utf8Len(r) >= Utf8Len(a) && Utf8Len(r) >= Utf8Len(b)
  {
    if Utf8Len(a) > Utf8Len(b) then a else b
  }

  /** The two assertions of `main`: the umlaut makes "länger" seven bytes long, and the
      order of the arguments does not matter. */
  lemma LongerExamples()
    ensures Longer("kurz", "länger") == "länger"
    ensures Longer("länger", "kurz") == "länger"
  {
    assert Utf8Len("kurz") == 4;
    assert Utf8Len("länger") == 7;
  }

  /** Between two texts of different byte length, `longer` does not depend on the argument
      order. */
  lemma LongerSymmetric(a: string, b: string)
    requires Utf8Len(a) != Utf8Len(b)
    ensures Longer(a, b) == Longer(b, a)
  {
  }

  datatype Person = Person(name: string)

  /** `first_char`: the byte slice `[0..1]` of the name, which panics unless the name is
      non-empty and its first character is a single byte. */
  function FirstChar(p: Person): (r: string)
    requires p.name != [] && Utf8Width(p.name[0]) == 1
    ensures r == p.name[..1] && Utf8Len(r) == 1
  {
    p.name[..1]
  }

  lemma FirstCharExample()
    ensures FirstChar(Person("Peter")) == "P"
  {
  }

  /** `good_ref`: an owned "hi". */
  function GoodRef(): (r: string)
    ensures r == "hi" && Utf8Len(r) == 2
  {
    "hi"
  }
}
