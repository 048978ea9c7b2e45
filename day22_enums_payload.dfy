/** The `Event` enum of days/day22/enums_payload/src/main.rs and the functions that match on
    it: `process`, `only_click`, `filter_clicks` and `dispatch`. */
module EnumsPayload {
  import opened Wrappers
  import opened RustInt
  import opened RustText

  datatype Event =
    | Click(x: I32, y: I32)
    | Key(k: char)
    | Resize(w: U32, h: U32)
    | Quit

  /** `process`: one line of text per event; the 'q' key has its own text, 'c' and every
      other key name themselves. */
  function Process(ev: Event): (r: string)
    ensures ev.Click? ==> r == "Click at (" + IntToString(ev.x) + "," + IntToString(ev.y) + ")"
    ensures ev == Key('q') ==> r == "Quit key"
    ensures ev == Key('c') ==> r == "Key c"
    ensures ev.Key? && ev.k != 'q' && ev.k != 'c' ==> r == "Other key: " + [ev.k]
    ensures ev.Resize? ==> r == "Resized to " + NatToString(ev.w) + "x" + NatToString(ev.h)
    ensures ev.Quit? ==> r == "Program ended"
  {
    match ev
    case Click(x, y) => "Click at (" + IntToString(x) + "," + IntToString(y) + ")"
    case Key(k) =>
      if k == 'q' then "Quit key"
      else if k == 'c' then "Key " + [k]
      else "Other key: " + [k]
    case Resize(w, h) => "Resized to " + NatToString(w) + "x" + NatToString(h)
    case Quit => "Program ended"
  }

  /** The `Quit` event and the 'q' key are described differently. */
  lemma QuitKeyIsNotQuit()
    ensures Process(Key('q')) != Process(Quit)
  {
    assert Process(Key('q'))[0] != Process(Quit)[0];
  }

  /** `only_click`: the coordinates of a click, `None` for any other event. */
  function OnlyClick(ev: Event): (r: Option<(I32, I32)>)
    ensures r.Some? <==> ev.Click?
    ensures r.Some? ==> r.value == (ev.x, ev.y)
  {
    if ev.Click? then Some((ev.x, ev.y)) else None
  }

  /** The coordinates of the clicks among `events`, in order. */
  function Clicks(events: seq<Event>): seq<(I32, I32)>
    decreases |events|
  {
    if events == [] then []
    else
      var last := events[|events| - 1];
      Clicks(events[..|events| - 1]) + (if last.Click? then [(last.x, last.y)] else [])
  }

  /** The number of clicks among `events`. */
  function ClickCount(events: seq<Event>): nat
    decreases |events|
  {
    if events == [] then 0
    else ClickCount(events[..|events| - 1]) + (if events[|events| - 1].Click? then 1 else 0)
  }

  /** `filter_clicks`: walks the events once and keeps the coordinates of every click. */
  method FilterClicks(events: seq<Event>) returns (result: seq<(I32, I32)>)
    ensures result == Clicks(events)
  {
    result := [];
    var i := 0;
    while i < |events|
      invariant 0 <= i <= |events|
      invariant result == Clicks(events[..i])
    {
      assert events[..i + 1][..i] == events[..i];
      var ev := events[i];
      if ev.Click? {
        result := result + [(ev.x, ev.y)];
      }
      i := i + 1;
    }
    assert events[..|events|] == events;
  }

  /** Filtering a concatenation filters each part. */
  lemma {:induction false} ClicksAppend(a: seq<Event>, b: seq<Event>)
    ensures Clicks(a + b) == Clicks(a) + Clicks(b)
    decreases |b|
  {
    if b == [] {
      assert a + b == a;
    } else {
      assert (a + b)[..|a + b| - 1] == a + b[..|b| - 1];
      ClicksAppend(a, b[..|b| - 1]);
    }
  }

  /** One pair per click, so never more pairs than events. */
  lemma {:induction false} ClicksLength(events: seq<Event>)
    ensures |Clicks(events)| == ClickCount(events) <= |events|
    decreases |events|
  {
    if events != [] {
      ClicksLength(events[..|events| - 1]);
    }
  }

  /** Every kept pair is what `only_click` gives for some event, in the same order: the
      `k`-th pair comes from an event at or after position `k`. */
  lemma {:induction false} ClicksFromOnlyClick(events: seq<Event>, k: nat)
    requires k < |Clicks(events)|
    ensures exists i :: k <= i < |events| && OnlyClick(events[i]) == Some(Clicks(events)[k])
    decreases |events|
  {
    var init := events[..|events| - 1];
    var last := events[|events| - 1];
    ClicksLength(init);
    if k < |Clicks(init)| {
      ClicksFromOnlyClick(init, k);
      var i :| k <= i < |init| && OnlyClick(init[i]) == Some(Clicks(init)[k]);
      assert events[i] == init[i];
    } else {
      assert last.Click? && Clicks(events)[k] == (last.x, last.y);
      assert OnlyClick(events[|events| - 1]) == Some(Clicks(events)[k]);
    }
  }

  /** A sequence without clicks filters to nothing, and one of clicks only keeps them all. */
  lemma {:induction false} ClicksExtremes(events: seq<Event>)
    ensures (forall i :: 0 <= i < |events| ==> !events[i].Click?) ==> Clicks(events) == []
    ensures (forall i :: 0 <= i < |events| ==> events[i].Click?) ==> |Clicks(events)| == |events|
    decreases |events|
  {
    if events != [] {
      ClicksExtremes(events[..|events| - 1]);
    }
  }

  /** `dispatch`: the line it prints. */
  function Dispatch(ev: Event): (r: string)
    ensures ev.Key? ==> r == "Pressed key: " + [ev.k]
    ensures !ev.Key? ==> r == "not a key"
  {
    if ev.Key? then "Pressed key: " + [ev.k] else "not a key"
  }
}
