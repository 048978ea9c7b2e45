/** `msg_len`, `emphasize`, `maybe_uppercase` and the `AsStr` implementations of
    days/day08/lifetimes_and_borrowing_advanced/src/main.rs. Upper case is ASCII upper
    case. */
module LifetimesAndBorrowingAdvanced {
  import opened RustInt
  import opened RustText

  /** `Message<'a>`: a borrowed or an owned text. */
  datatype Message = Borrowed(text: string) | Owned(text: string)

  /** `msg_len`: the byte length of the text, whichever way it is held. */
  function MsgLen(msg: Message): (r: nat)
    ensures r == Utf8Len(msg.text)
    ensures r >= |msg.text|
  {
    Utf8LenBounds(msg.text);
    match msg
    case Borrowed(b) => Utf8Len(b)
    case Owned(o) => Utf8Len(o)
  }

  datatype Highlight = Highlight(text: string, level: U8)

  /** `emphasize`: the same text at level 1. */
  function Emphasize(text: string): (r: Highlight)
    ensures r.text == text && r.level == 1
  {
    Highlight(text, 1)
  }

  /** `Cow<'a, str>`. */
  datatype Cow = CowBorrowed(s: string) | CowOwned(s: string)

  predicate AllUpper(s: string) {
    forall i :: 0 <= i < |s| ==> IsAsciiUpper(s[i])
  }

  /** `maybe_uppercase`: the input itself when every character is upper case (the empty text
      included), otherwise an owned upper-cased copy. */
  function MaybeUppercase(input: string): (r: Cow)
    ensures r.CowBorrowed? <==> AllUpper(input)
    ensures r.CowBorrowed? ==> r.s == input
    ensures r.CowOwned? ==> r.s == ToUpper(input)
  {
    if AllUpper(input) then CowBorrowed(input) else CowOwned(ToUpper(input))
  }

  /** `AsStr for Cow<str>`: the text of either variant (`AsStr` for `String` and `&str` is the
      text itself). */
  function CowAsStr(c: Cow): (r: string)
    ensures r == c.s
  {
    match c
    case CowBorrowed(b) => b
    case CowOwned(o) => o
  }

  /** Whichever variant `maybe_uppercase` picks, the text it holds is the upper-cased input:
      borrowing is only an optimisation. */
  lemma MaybeUppercaseIsUpper(input: string)
    ensures CowAsStr(MaybeUppercase(input)) == ToUpper(input)
  {
  }

  /** Upper-casing twice is upper-casing once, so the owned copy would be borrowed on a second
      call (unless the text has characters that are not letters). */
  lemma ToUpperIdempotent(s: string)
    ensures ToUpper(ToUpper(s)) == ToUpper(s)
    ensures AllUpper(s) ==> ToUpper(s) == s
  {
  }

  /** The assertions of `main`. */
  lemma MainExamples()
    ensures MsgLen(Borrowed("abc")) == 3 && MsgLen(Owned("abcde")) == 5
    ensures Emphasize("Hello") == Highlight("Hello", 1)
    ensures MaybeUppercase("HELLO").CowBorrowed?
    ensures MaybeUppercase("Hello") == CowOwned("HELLO")
  {
    assert Utf8Len("abc") == 3;
    assert Utf8Len("abcde") == 5;
    assert !IsAsciiUpper("Hello"[1]);
    assert ToUpper("Hello") == "HELLO";
  }
}
