/** The three state machines of days/day23/state_machines/src/main.rs: the traffic light,
    the word counter and the `Reader`. */
module StateMachines {
  import opened Wrappers
  import opened RustText

  // ---------------------------------------------------------------------------------------
  // `Light`

  datatype Light = Red | Green | Yellow

  /** `Light::next`: red, green, yellow, and back to red. */
  function Next(l: Light): (r: Light)
    ensures r != l
    ensures l == Red <==> r == Green
    ensures l == Green <==> r == Yellow
    ensures l == Yellow <==> r == Red
  {
    match l
    case Red => Green
    case Green => Yellow
    case Yellow => Red
  }

  /** `n` steps of the light. */
  function Steps(l: Light, n: nat): Light
    decreases n
  {
    if n == 0 then l else Next(Steps(l, n - 1))
  }

  /** The light cycles with period three. */
  lemma {:induction false} StepsPeriod(l: Light, n: nat)
    ensures Steps(l, n + 3) == Steps(l, n)
    decreases n
  {
    if n == 0 {
      assert Steps(l, 3) == Next(Next(Next(l)));
    } else {
      StepsPeriod(l, n - 1);
    }
  }

  // ---------------------------------------------------------------------------------------
  // `count_words`

  datatype WordState = Start | InWord | BetweenWords

  /** Whether position `i` of `s` begins a word: a character that is not white space, with
      white space (or nothing) before it. */
  predicate WordStartAt(s: string, i: int)
    requires 0 <= i < |s|
  {
    !IsWhitespace(s[i]) && (i == 0 || IsWhitespace(s[i - 1]))
  }

  /** The number of words of `s`: the positions where a word begins. */
  function WordStarts(s: string): nat
    decreases |s|
  {
    if s == [] then 0
    else WordStarts(s[..|s| - 1]) + (if WordStartAt(s, |s| - 1) then 1 else 0)
  }

  /** `count_words`: the state machine walks the characters once and counts each change from
      white space (or the start) into a word. */
  method CountWords(s: string) returns (count: nat)
    ensures count == WordStarts(s)
  {
    var state := Start;
    count := 0;
    var i := 0;
    while i < |s|
      invariant 0 <= i <= |s|
      invariant count == WordStarts(s[..i])
      invariant state == InWord <==> i > 0 && !IsWhitespace(s[i - 1])
    {
      assert s[..i + 1][..i] == s[..i];
      assert WordStartAt(s[..i + 1], i) <==> WordStartAt(s, i);
      var isWhitespace := IsWhitespace(s[i]);
      match state {
        case Start =>
          if !isWhitespace {
            state := InWord;
            count := count + 1;
          }
        case BetweenWords =>
          if !isWhitespace {
            state := InWord;
            count := count + 1;
          }
        case InWord =>
          if isWhitespace {
            state := BetweenWords;
          }
      }
      i := i + 1;
    }
    assert s[..|s|] == s;
  }

  /** There are never more words than characters. */
  lemma {:induction false} WordStartsBound(s: string)
    ensures WordStarts(s) <= |s|
    decreases |s|
  {
    if s != [] {
      WordStartsBound(s[..|s| - 1]);
    }
  }

  /** Text of white space only has no words, and any other text has at least one, which is
      exactly when `split_whitespace` yields a first word. */
  lemma {:induction false} NoWordsIffBlank(s: string)
    ensures WordStarts(s) == 0 <==> AllWhitespace(s)
    ensures WordStarts(s) == 0 <==> FirstToken(s).None?
    decreases |s|
  {
    if s != [] {
      var init := s[..|s| - 1];
      NoWordsIffBlank(init);
      if AllWhitespace(init) && !IsWhitespace(s[|s| - 1]) {
        assert WordStartAt(s, |s| - 1);
      }
      if AllWhitespace(s) {
        assert AllWhitespace(init) by {
          forall i | 0 <= i < |init| ensures IsWhitespace(init[i]) { assert init[i] == s[i]; }
        }
      }
      if AllWhitespace(init) && IsWhitespace(s[|s| - 1]) {
        forall i | 0 <= i < |s| ensures IsWhitespace(s[i]) {
          if i < |init| { assert s[i] == init[i]; }
        }
      }
    }
  }

  /** Words on either side of white space are counted separately. */
  lemma {:induction false} WordStartsJoin(a: string, b: string)
    requires b == [] || IsWhitespace(b[0])
    ensures WordStarts(a + b) == WordStarts(a) + WordStarts(b)
    decreases |b|
  {
    if b == [] {
      assert a + b == a;
    } else {
      var ab := a + b;
      var b' := b[..|b| - 1];
      assert ab[..|ab| - 1] == a + b';
      WordStartsJoin(a, b');
      if |b| == 1 {
        assert !WordStartAt(ab, |ab| - 1) && !WordStartAt(b, 0);
        assert b' == [];
      } else {
        assert ab[|ab| - 2] == b[|b| - 2];
        assert WordStartAt(ab, |ab| - 1) <==> WordStartAt(b, |b| - 1);
      }
    }
  }

  /** One word after white space is one word. */
  lemma {:induction false} OneWord(a: string, t: string)
    requires AllWhitespace(a) && t != []
    requires forall i :: 0 <= i < |t| ==> !IsWhitespace(t[i])
    ensures WordStarts(a + t) == 1
    decreases |t|
  {
    var at := a + t;
    var t' := t[..|t| - 1];
    assert at[..|at| - 1] == a + t';
    if |t| == 1 {
      assert a + t' == a;
      NoWordsIffBlank(a);
      assert WordStartAt(at, |at| - 1);
    } else {
      OneWord(a, t');
      assert at[|at| - 2] == t[|t| - 2];
    }
  }

  /** The text of `main` has four words. */
  lemma MainWordCount()
    ensures WordStarts("  this is a word") == 4
  {
    var p1, p2, p3, p4 := "  this", " is", " a", " word";
    assert "  this is a word" == p1 + p2 + p3 + p4;
    OneWord("  ", "this");
    OneWord(" ", "is");
    OneWord(" ", "a");
    OneWord(" ", "word");
    assert "  " + "this" == p1 && " " + "is" == p2 && " " + "a" == p3 && " " + "word" == p4;
    WordStartsJoin(p1, p2);
    WordStartsJoin(p1 + p2, p3);
    WordStartsJoin(p1 + p2 + p3, p4);
  }

  // ---------------------------------------------------------------------------------------
  // `Reader`

  datatype ReaderState = Closed | Open(pos: nat) | Error(message: string)

  const AlreadyOpenMessage := "already open"

  /** What one call of `read_char` does as written: the guard compares the position with
      the byte length of `content`, while the character is fetched by character index, so
      the `unwrap` fails when the position is past the last character but not past the last
      byte. */
  datatype ReadOutcome = Read(next: ReaderState, c: Option<char>) | Panicked

  /** `Reader::read_char` exactly as written. */
  function ReadCharAsWritten(st: ReaderState, content: string): (r: ReadOutcome)
    ensures r.Panicked? <==> st.Open? && |content| <= st.pos < Utf8Len(content)
    ensures r.Read? && st.Open? && st.pos < |content| ==> r == Read(Open(st.pos + 1), Some(content[st.pos]))
  {
    Utf8LenBounds(content);
    match st
    case Closed => Read(Closed, None)
    case Error(m) => Read(Error(m), None)
    case Open(i) =>
      if i < Utf8Len(content) then
        if i < |content| then Read(Open(i + 1), Some(content[i])) else Panicked
      else Read(Open(i), None)
  }

  /** A reader that has read the one character of "é" (two bytes in UTF-8) panics on the next
      call instead of returning `None`. */
  lemma ReadCharPanicsOnMultibyte()
    ensures ReadCharAsWritten(Open(0), "é") == Read(Open(1), Some('é'))
    ensures ReadCharAsWritten(Open(1), "é") == Panicked
  {
    assert Utf8Len("é") == 2 by {
      assert "é"[1..] == [];
    }
  }

  /** `read_char` with the guard counting characters: what the function evidently means. */
  function ReadStep(st: ReaderState, content: string): (r: (ReaderState, Option<char>))
    ensures r.1.Some? <==> st.Open? && st.pos < |content|
    ensures r.1.Some? ==> r == (Open(st.pos + 1), Some(content[st.pos]))
    ensures r.1.None? ==> r.0 == st
  {
    match st
    case Open(i) => if i < |content| then (Open(i + 1), Some(content[i])) else (st, None)
    case _ => (st, None)
  }

  /** On ASCII text bytes and characters coincide, so the code as written never panics and
      does what `ReadStep` does. */
  lemma AsWrittenAgreesOnAscii(st: ReaderState, content: string)
    requires IsAscii(content)
    ensures ReadCharAsWritten(st, content) == Read(ReadStep(st, content).0, ReadStep(st, content).1)
  {
    Utf8LenBounds(content);
  }

  function Min(a: nat, b: nat): nat { if a < b then a else b }

  class Reader {
    var state: ReaderState

    /** `Reader { state: ReaderState::Closed }`. */
    constructor ()
      ensures state == Closed
    {
      state := Closed;
    }

    /** `Reader::open`: a closed reader starts at position 0, opening an open reader is an
        error, and an error stays. */
    method Open()
      modifies this
      ensures old(state).Closed? ==> state == ReaderState.Open(0)
      ensures old(state).Open? ==> state == Error(AlreadyOpenMessage)
      ensures old(state).Error? ==> state == old(state)
    {
      match state {
        case Closed => state := ReaderState.Open(0);
        case Open(_) => state := Error(AlreadyOpenMessage);
        case Error(_) =>
      }
    }

    /** `Reader::close`, from any state. */
    method Close()
      modifies this
      ensures state == Closed
    {
      state := Closed;
    }

    /** `Reader::read_char`, with the guard on the character count (see
        `ReadCharAsWritten`): an open reader before the end returns the character at its
        position and moves on; every other call returns `None` and changes nothing. */
    method ReadChar(content: string) returns (r: Option<char>)
      modifies this
      ensures r.Some? <==> old(state).Open? && old(state).pos < |content|
      ensures r.Some? ==> r.value == content[old(state).pos] && state == ReaderState.Open(old(state).pos + 1)
      ensures r.None? ==> state == old(state)
    {
      match state {
        case Open(i) =>
          if i < |content| {
            state := ReaderState.Open(i + 1);
            r := Some(content[i]);
          } else {
            r := None;
          }
        case _ =>
          r := None;
      }
    }

    /** The loop of `main`: one `read_char` per character of `content`. A reader open at
        position `i` returns the characters from `i` on and then `None`; any other reader
        returns only `None`. */
    method ReadEach(content: string) returns (results: seq<Option<char>>)
      modifies this
      ensures |results| == |content|
      ensures !old(state).Open? ==> state == old(state) && forall k :: 0 <= k < |content| ==> results[k] == None
      ensures old(state).Open? ==>
        state == ReaderState.Open(if old(state).pos < |content| then |content| else old(state).pos) &&
        forall k :: 0 <= k < |content| ==>
          results[k] == if old(state).pos + k < |content| then Some(content[old(state).pos + k]) else None
    {
      results := [];
      var n := 0;
      while n < |content|
        invariant 0 <= n <= |content| && |results| == n
        invariant !old(state).Open? ==> state == old(state) && forall k :: 0 <= k < n ==> results[k] == None
        invariant old(state).Open? ==>
          state == ReaderState.Open(if old(state).pos < |content| then Min(old(state).pos + n, |content|) else old(state).pos) &&
          forall k :: 0 <= k < n ==>
            results[k] == if old(state).pos + k < |content| then Some(content[old(state).pos + k]) else None
      {
        var c := ReadChar(content);
        results := results + [c];
        n := n + 1;
      }
    }
  }

  /** `main`: four light steps, the word count, and the reader. The reader is opened twice,
      so it is in the error state before the loop and every `read_char` returns `None`; the
      final `close` leaves it closed. */
  method MainScenario() returns (lights: seq<Light>, count: nat, results: seq<Option<char>>, final: ReaderState)
    ensures lights == [Green, Yellow, Red, Green]
    ensures count == 4
    ensures |results| == 5 && forall k :: 0 <= k < 5 ==> results[k] == None
    ensures final == Closed
  {
    var state := Red;
    lights := [];
    for i := 0 to 4
      invariant |lights| == i
      invariant state == Steps(Red, i)
      invariant lights == seq(i, k requires 0 <= k < i => Steps(Red, k + 1))
    {
      state := Next(state);
      lights := lights + [state];
    }
    count := CountWords("  this is a word");
    MainWordCount();
    var reader := new Reader();
    reader.Open();
    reader.Open();
    assert reader.state == Error(AlreadyOpenMessage);
    results := reader.ReadEach("hello");
    reader.Close();
    final := reader.state;
  }
}
