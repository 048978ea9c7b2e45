/** The parts of Rust's `str`, `char` and integer `FromStr` behaviour that the modelled code
    relies on: white space, trimming, case mapping (ASCII only), UTF-8 byte length, decimal
    `Display` and decimal parsing with its error kinds. */
module RustText {
  import opened Wrappers
  import opened RustInt

  // ---------------------------------------------------------------------------------------
  // White space and trimming

  /** `char::is_whitespace`: the Unicode White_Space property, listed by code point. */
  predicate IsWhitespace(c: char) {
    var n := c as int;
    (0x09 <= n <= 0x0D) || n == 0x20 || n == 0x85 || n == 0xA0 || n == 0x1680 ||
    (0x2000 <= n <= 0x200A) || n == 0x2028 || n == 0x2029 || n == 0x202F ||
    n == 0x205F || n == 0x3000
  }

  predicate AllWhitespace(s: string) {
    forall i :: 0 <= i < |s| ==> IsWhitespace(s[i])
  }

  /** `str::trim_start`: drops the leading white space (see `TrimStartShape`). */
  function TrimStart(s: string): (r: string)
    ensures |r| <= |s|
    decreases |s|
  {
    if s != [] && IsWhitespace(s[0]) then TrimStart(s[1..]) else s
  }

  /** `str::trim_end`: drops the trailing white space (see `TrimEndShape`). */
  function TrimEnd(s: string): (r: string)
    ensures |r| <= |s|
    decreases |s|
  {
    if s != [] && IsWhitespace(s[|s| - 1]) then TrimEnd(s[..|s| - 1]) else s
  }

  /** `trim_start` keeps a suffix of its input: it cuts white space only, and all of the
      leading white space. */
  lemma {:induction false} TrimStartShape(s: string)
    ensures TrimStart(s) == s[|s| - |TrimStart(s)|..]
    ensures AllWhitespace(s[..|s| - |TrimStart(s)|])
    ensures TrimStart(s) == [] || !IsWhitespace(TrimStart(s)[0])
    decreases |s|
  {
    if s != [] && IsWhitespace(s[0]) {
      var t := s[1..];
      TrimStartShape(t);
      var n := |s| - |TrimStart(t)|;
      assert t[|t| - |TrimStart(t)|..] == s[n..];
      forall k | 0 <= k < n
        ensures IsWhitespace(s[..n][k])
      {
        if k > 0 { assert s[..n][k] == t[..|t| - |TrimStart(t)|][k - 1]; }
      }
    }
  }

  /** `trim_end` keeps a prefix of its input: it cuts white space only, and all of the
      trailing white space. */
  lemma {:induction false} TrimEndShape(s: string)
    ensures TrimEnd(s) == s[..|TrimEnd(s)|]
    ensures AllWhitespace(s[|TrimEnd(s)|..])
    ensures TrimEnd(s) == [] || !IsWhitespace(TrimEnd(s)[|TrimEnd(s)| - 1])
    decreases |s|
  {
    if s != [] && IsWhitespace(s[|s| - 1]) {
      var t := s[..|s| - 1];
      TrimEndShape(t);
      var n := |TrimEnd(t)|;
      assert t[..n] == s[..n];
      forall k | 0 <= k < |s| - n
        ensures IsWhitespace(s[n..][k])
      {
        if k < |t| - n { assert s[n..][k] == t[n..][k]; }
      }
    }
  }

  /** `str::trim`. */
  function Trim(s: string): string {
    TrimEnd(TrimStart(s))
  }

  /** What `trim` leaves: a contiguous piece of the input with only white space cut away on
      either side, and no white space at either end of it. */
  lemma TrimIsSlice(s: string)
    ensures exists i, j :: (0 <= i <= j <= |s| && Trim(s) == s[i..j] &&
                            AllWhitespace(s[..i]) && AllWhitespace(s[j..]))
    ensures Trim(s) == [] || (!IsWhitespace(Trim(s)[0]) && !IsWhitespace(Trim(s)[|Trim(s)| - 1]))
  {
    var a := TrimStart(s);
    TrimStartShape(s);
    TrimEndShape(a);
    var i := |s| - |a|;
    var j := i + |TrimEnd(a)|;
    assert s[i..j] == a[..|TrimEnd(a)|];
    assert s[j..] == a[|TrimEnd(a)|..];
  }

  /** Trimming text that has no white space at either end changes nothing. */
  lemma TrimNoOp(s: string)
    requires s == [] || (!IsWhitespace(s[0]) && !IsWhitespace(s[|s| - 1]))
    ensures Trim(s) == s
  {
  }

  /** Leading white space is exactly what `trim_start` removes. */
  lemma {:induction false} TrimStartPadded(a: string, s: string)
    requires AllWhitespace(a) && (s == [] || !IsWhitespace(s[0]))
    ensures TrimStart(a + s) == s
    decreases |a|
  {
    if a == [] {
      assert a + s == s;
    } else {
      assert (a + s)[1..] == a[1..] + s;
      TrimStartPadded(a[1..], s);
    }
  }

  /** Trailing white space is exactly what `trim_end` removes. */
  lemma {:induction false} TrimEndPadded(s: string, b: string)
    requires AllWhitespace(b) && (s == [] || !IsWhitespace(s[|s| - 1]))
    ensures TrimEnd(s + b) == s
    decreases |b|
  {
    if b == [] {
      assert s + b == s;
    } else {
      assert (s + b)[..|s + b| - 1] == s + b[..|b| - 1];
      TrimEndPadded(s, b[..|b| - 1]);
    }
  }

  /** `trim` gives back text padded on both sides with white space. */
  lemma TrimPadded(a: string, s: string, b: string)
    requires AllWhitespace(a) && AllWhitespace(b)
    requires s != [] && !IsWhitespace(s[0]) && !IsWhitespace(s[|s| - 1])
    ensures Trim(a + s + b) == s
  {
    assert a + s + b == a + (s + b);
    TrimStartPadded(a, s + b);
    TrimEndPadded(s, b);
  }

  /** The first item of `str::split_whitespace`: the first maximal run of characters that
      are not white space, or `None` when there is none. */
  function FirstToken(s: string): (r: Option<string>)
    ensures r.None? <==> AllWhitespace(s)
    ensures r.Some? ==> r.value != []
    ensures r.Some? ==> forall i :: 0 <= i < |r.value| ==> !IsWhitespace(r.value[i])
  {
    TrimStartShape(s);
    var rest := TrimStart(s);
    if rest == [] then None else Some(TokenPrefix(rest))
  }

  /** The longest prefix of `s` without white space. */
  function TokenPrefix(s: string): (r: string)
    ensures |r| <= |s| && r == s[..|r|]
    ensures forall i :: 0 <= i < |r| ==> !IsWhitespace(r[i])
    ensures |r| == |s| || IsWhitespace(s[|r|])
    decreases |s|
  {
    if s == [] || IsWhitespace(s[0]) then [] else [s[0]] + TokenPrefix(s[1..])
  }

  /** A token followed by white space (or by nothing) is read whole. */
  lemma {:induction false} TokenPrefixOf(t: string, rest: string)
    requires forall i :: 0 <= i < |t| ==> !IsWhitespace(t[i])
    requires rest == [] || IsWhitespace(rest[0])
    ensures TokenPrefix(t + rest) == t
    decreases |t|
  {
    if t == [] {
      assert t + rest == rest;
    } else {
      assert (t + rest)[1..] == t[1..] + rest;
      TokenPrefixOf(t[1..], rest);
    }
  }

  /** The first item of `split_whitespace` on text that starts, after white space, with the
      token `t`. */
  lemma FirstTokenOf(a: string, t: string, rest: string)
    requires AllWhitespace(a) && t != []
    requires forall i :: 0 <= i < |t| ==> !IsWhitespace(t[i])
    requires rest == [] || IsWhitespace(rest[0])
    ensures FirstToken(a + t + rest) == Some(t)
  {
    assert a + t + rest == a + (t + rest);
    TrimStartPadded(a, t + rest);
    TokenPrefixOf(t, rest);
  }

  // ---------------------------------------------------------------------------------------
  // Case mapping (ASCII letters only)

  predicate IsAsciiUpper(c: char) { 'A' <= c <= 'Z' }
  predicate IsAsciiLower(c: char) { 'a' <= c <= 'z' }

  function ToLowerChar(c: char): char {
    if IsAsciiUpper(c) then (c as int + 32) as char else c
  }

  function ToUpperChar(c: char): char {
    if IsAsciiLower(c) then (c as int - 32) as char else c
  }

  /** `str::to_lowercase`, restricted to ASCII letters. */
  function ToLower(s: string): (r: string)
    ensures |r| == |s| && forall i :: 0 <= i < |s| ==> r[i] == ToLowerChar(s[i])
  {
    seq(|s|, i requires 0 <= i < |s| => ToLowerChar(s[i]))
  }

  /** `str::to_uppercase`, restricted to ASCII letters. */
  function ToUpper(s: string): (r: string)
    ensures |r| == |s| && forall i :: 0 <= i < |s| ==> r[i] == ToUpperChar(s[i])
  {
    seq(|s|, i requires 0 <= i < |s| => ToUpperChar(s[i]))
  }

  // ---------------------------------------------------------------------------------------
  // UTF-8 length

  /** The number of bytes UTF-8 spends on one character. */
  function Utf8Width(c: char): (w: nat)
    ensures 1 <= w <= 4 && (w == 1 <==> (c as int) < 0x80)
  {
    var n := c as int;
    if n < 0x80 then 1 else if n < 0x800 then 2 else if n < 0x10000 then 3 else 4
  }

  /** `str::len`: the length of the UTF-8 encoding in bytes. */
  function Utf8Len(s: string): nat
    decreases |s|
  {
    if s == [] then 0 else Utf8Width(s[0]) + Utf8Len(s[1..])
  }

  predicate IsAscii(s: string) {
    forall i :: 0 <= i < |s| ==> (s[i] as int) < 0x80
  }

  /** A string has at least as many bytes as characters, and exactly as many precisely
      when it is ASCII. */
  lemma {:induction false} Utf8LenBounds(s: string)
    ensures |s| <= Utf8Len(s) <= 4 * |s|
    ensures Utf8Len(s) == |s| <==> IsAscii(s)
    decreases |s|
  {
    if s != [] {
      Utf8LenBounds(s[1..]);
      if IsAscii(s) {
        assert IsAscii(s[1..]) by {
          forall i | 0 <= i < |s[1..]| ensures (s[1..][i] as int) < 0x80 {
            assert s[1..][i] == s[i + 1];
          }
        }
      } else if Utf8Len(s) == |s| {
        assert Utf8Width(s[0]) == 1 && IsAscii(s[1..]);
        forall i | 0 <= i < |s| ensures (s[i] as int) < 0x80 {
          if i > 0 { assert s[i] == s[1..][i - 1]; }
        }
        assert false;
      }
    }
  }

  /** Byte length adds up over concatenation. */
  lemma {:induction false} Utf8LenAppend(a: string, b: string)
    ensures Utf8Len(a + b) == Utf8Len(a) + Utf8Len(b)
    decreases |a|
  {
    if a == [] {
      assert a + b == b;
    } else {
      assert (a + b)[1..] == a[1..] + b;
      Utf8LenAppend(a[1..], b);
    }
  }

  // ---------------------------------------------------------------------------------------
  // Decimal digits and `Display` for integers

  predicate IsDigit(c: char) { '0' <= c <= '9' }

  function DigitChar(d: nat): (c: char)
    requires d < 10
    ensures IsDigit(c) && DigitValue(c) == d
  {
    (48 + d) as char
  }

  /** `char::to_digit(10)` on a decimal digit. */
  function DigitValue(c: char): nat
    requires IsDigit(c)
  {
    c as int - 48
  }

  /** `Display` of an unsigned integer: its decimal digits, no sign, no leading zero. */
  function NatToString(n: nat): (r: string)
    ensures r != [] && forall i :: 0 <= i < |r| ==> IsDigit(r[i])
    ensures r[0] != '0' || n == 0
    decreases n
  {
    if n < 10 then [DigitChar(n)] else NatToString(n / 10) + [DigitChar(n % 10)]
  }

  /** `Display` of a signed integer: a leading '-' for negatives. */
  function IntToString(i: int): (r: string)
    ensures r != [] && (r[0] == '-' <==> i < 0)
  {
    if i < 0 then "-" + NatToString(-i) else NatToString(i)
  }

  // ---------------------------------------------------------------------------------------
  // `FromStr` for integers

  /** The kinds of `std::num::ParseIntError` (`Zero` only arises for non-zero types). */
  datatype IntErrorKind = Empty | InvalidDigit | PosOverflow | NegOverflow

  /** The digit loop of `from_str_radix` (radix 10): left to right, each character is first
      checked to be a digit, then folded into the magnitude; passing `limit` is `overflow`. */
  function ScanDigits(s: string, acc: nat, limit: nat, overflow: IntErrorKind)
    : (r: Result<nat, IntErrorKind>)
    requires acc <= limit
    requires overflow == PosOverflow || overflow == NegOverflow
    ensures r.Ok? ==> acc <= r.value <= limit
    ensures r.Err? ==> r.error == InvalidDigit || r.error == overflow
    decreases |s|
  {
    if s == [] then Ok(acc)
    else if !IsDigit(s[0]) then Err(InvalidDigit)
    else if acc * 10 + DigitValue(s[0]) > limit then Err(overflow)
    else ScanDigits(s[1..], acc * 10 + DigitValue(s[0]), limit, overflow)
  }

  /** `<int>::from_str` in radix 10: an optional '+' (or '-' for a signed type), then digits.
      `maxPos` is the type's maximum and `maxNeg` the magnitude of its minimum. */
  function ParseInt(s: string, signed: bool, maxPos: nat, maxNeg: nat)
    : (r: Result<int, IntErrorKind>)
    ensures r.Ok? ==> -(maxNeg as int) <= r.value <= maxPos
    ensures r.Ok? && !signed ==> r.value >= 0
    ensures r == Err(Empty) <==> s == []
  {
    if s == [] then Err(Empty)
    else if s == "+" || s == "-" then Err(InvalidDigit)
    else if s[0] == '+' then
      match ScanDigits(s[1..], 0, maxPos, PosOverflow)
      case Ok(m) => Ok(m)
      case Err(e) => Err(e)
    else if s[0] == '-' && signed then
      match ScanDigits(s[1..], 0, maxNeg, NegOverflow)
      case Ok(m) => Ok(-(m as int))
      case Err(e) => Err(e)
    else
      match ScanDigits(s, 0, maxPos, PosOverflow)
      case Ok(m) => Ok(m)
      case Err(e) => Err(e)
  }

  /** `str::parse::<u32>`. */
  function ParseU32(s: string): (r: Result<int, IntErrorKind>)
    ensures r.Ok? ==> 0 <= r.value <= U32_MAX
    ensures r.Err? ==> r.error != NegOverflow
  {
    ParseInt(s, false, U32_MAX, 0)
  }

  /** `str::parse::<usize>` on a 64-bit target. */
  function ParseUsize(s: string): (r: Result<int, IntErrorKind>)
    ensures r.Ok? ==> 0 <= r.value <= U64_MAX
    ensures r.Err? ==> r.error != NegOverflow
  {
    ParseInt(s, false, U64_MAX, 0)
  }

  /** `str::parse::<i32>`. */
  function ParseI32(s: string): (r: Result<int, IntErrorKind>)
    ensures r.Ok? ==> InI32(r.value)
  {
    ParseInt(s, true, I32_MAX, -I32_MIN)
  }

  /** Scanning digits that end in a last digit scans the rest first. */
  lemma {:induction false} ScanDigitsSnoc(s: string, c: char, acc: nat, limit: nat,
                                          overflow: IntErrorKind, v: nat)
    requires acc <= limit && (overflow == PosOverflow || overflow == NegOverflow)
    requires ScanDigits(s, acc, limit, overflow) == Ok(v)
    requires IsDigit(c) && v * 10 + DigitValue(c) <= limit
    ensures ScanDigits(s + [c], acc, limit, overflow) == Ok(v * 10 + DigitValue(c))
    decreases |s|
  {
    if s == [] {
      assert s + [c] == [c];
      assert [c][1..] == [];
    } else {
      assert (s + [c])[1..] == s[1..] + [c];
      ScanDigitsSnoc(s[1..], c, acc * 10 + DigitValue(s[0]), limit, overflow, v);
    }
  }

  /** A scan that failed on a prefix fails the same way whatever follows. */
  lemma {:induction false} ScanDigitsErrSnoc(s: string, c: char, acc: nat, limit: nat,
                                             overflow: IntErrorKind)
    requires acc <= limit && (overflow == PosOverflow || overflow == NegOverflow)
    requires ScanDigits(s, acc, limit, overflow).Err?
    ensures ScanDigits(s + [c], acc, limit, overflow) == ScanDigits(s, acc, limit, overflow)
    decreases |s|
  {
    assert (s + [c])[0] == s[0];
    if IsDigit(s[0]) && acc * 10 + DigitValue(s[0]) <= limit {
      assert (s + [c])[1..] == s[1..] + [c];
      ScanDigitsErrSnoc(s[1..], c, acc * 10 + DigitValue(s[0]), limit, overflow);
    }
  }

  /** A last digit that pushes the magnitude past the limit is an overflow. */
  lemma {:induction false} ScanDigitsSnocOverflow(s: string, c: char, acc: nat, limit: nat,
                                                  overflow: IntErrorKind, v: nat)
    requires acc <= limit && (overflow == PosOverflow || overflow == NegOverflow)
    requires ScanDigits(s, acc, limit, overflow) == Ok(v)
    requires IsDigit(c) && v * 10 + DigitValue(c) > limit
    ensures ScanDigits(s + [c], acc, limit, overflow) == Err(overflow)
    decreases |s|
  {
    if s == [] {
      assert s + [c] == [c];
    } else {
      assert (s + [c])[1..] == s[1..] + [c];
      ScanDigitsSnocOverflow(s[1..], c, acc * 10 + DigitValue(s[0]), limit, overflow, v);
    }
  }

  /** Scanning the decimal rendering of `n` gives back `n`. */
  lemma {:induction false} ScanNatToString(n: nat, limit: nat, overflow: IntErrorKind)
    requires n <= limit && (overflow == PosOverflow || overflow == NegOverflow)
    ensures ScanDigits(NatToString(n), 0, limit, overflow) == Ok(n)
    decreases n
  {
    if n < 10 {
      assert NatToString(n)[1..] == [];
    } else {
      ScanNatToString(n / 10, limit, overflow);
      ScanDigitsSnoc(NatToString(n / 10), DigitChar(n % 10), 0, limit, overflow, n / 10);
    }
  }

  /** Scanning the decimal rendering of a number above the limit overflows. */
  lemma {:induction false} ScanNatToStringOverflow(n: nat, limit: nat, overflow: IntErrorKind)
    requires n > limit && (overflow == PosOverflow || overflow == NegOverflow)
    ensures ScanDigits(NatToString(n), 0, limit, overflow) == Err(overflow)
    decreases n
  {
    if n < 10 {
      assert NatToString(n)[1..] == [];
    } else if n / 10 > limit {
      ScanNatToStringOverflow(n / 10, limit, overflow);
      ScanDigitsErrSnoc(NatToString(n / 10), DigitChar(n % 10), 0, limit, overflow);
    } else {
      ScanNatToString(n / 10, limit, overflow);
      ScanDigitsSnocOverflow(NatToString(n / 10), DigitChar(n % 10), 0, limit, overflow, n / 10);
    }
  }

  /** Parsing what `Display` prints gives back the number (u32). */
  lemma ParseU32Display(n: nat)
    requires n <= U32_MAX
    ensures ParseU32(NatToString(n)) == Ok(n)
  {
    ScanNatToString(n, U32_MAX, PosOverflow);
  }

  /** Parsing what `Display` prints gives back the number (i32). */
  lemma ParseI32Display(i: int)
    requires InI32(i)
    ensures ParseI32(IntToString(i)) == Ok(i)
  {
    if i < 0 {
      ScanNatToString(-i, -I32_MIN, NegOverflow);
      assert IntToString(i)[1..] == NatToString(-i);
    } else {
      ScanNatToString(i, I32_MAX, PosOverflow);
    }
  }
}
