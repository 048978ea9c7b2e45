/** `handle`, `area` and `extract_click` of
    days/day24/rust_pattern_matching_deep_dive/src/main.rs. */
module PatternMatchingDeepDive {
  import opened Wrappers
  import opened RustInt
  import opened RustText

  datatype Message =
    | Quit
    | Move(x: I32, y: I32)
    | Write(text: string)
    | ChangeColor(r: U8, g: U8, b: U8)

  /** A colour is dark when every channel is at most 20. */
  predicate IsDark(r: U8, g: U8, b: U8) { r <= 20 && g <= 20 && b <= 20 }

  /** `handle`. The arms are tried top to bottom; the fixed answers belong each to exactly
      one kind of message, since every formatted answer starts with a different letter. */
  function Handle(msg: Message): (r: string)
    ensures r == "Bye" <==> msg.Quit?
    ensures r == "No movement" <==> msg == Move(0, 0)
    ensures msg.Move? && msg != Move(0, 0) ==>
      r == "Moving to (" + IntToString(msg.x) + "," + IntToString(msg.y) + ")"
    ensures r == "Empty" <==> msg == Write([])
    ensures msg.Write? && msg.text != [] ==> r == "Text: " + msg.text
    ensures r == "Dark color" <==> msg.ChangeColor? && IsDark(msg.r, msg.g, msg.b)
    ensures msg.ChangeColor? && !IsDark(msg.r, msg.g, msg.b) ==>
      r == "Color RGB(" + NatToString(msg.r) + "," + NatToString(msg.g) + "," + NatToString(msg.b) + ")"
  {
    match msg
    case Quit => "Bye"
    case Move(x, y) =>
      if x == 0 && y == 0 then "No movement"
      else "Moving to (" + IntToString(x) + "," + IntToString(y) + ")"
    case Write(s) =>
      if s == [] then "Empty"
      else
        assert ("Text: " + s)[0] == 'T';
        "Text: " + s
    case ChangeColor(r, g, b) =>
      if IsDark(r, g, b) then "Dark color"
      else "Color RGB(" + NatToString(r) + "," + NatToString(g) + "," + NatToString(b) + ")"
  }

  datatype Rectangle = Rectangle(width: U32, height: U32)

  /** `area`: `u32` multiplication, which panics on overflow in Rust. */
  function Area(rect: Rectangle): (r: U32)
    requires rect.width * rect.height <= U32_MAX
    ensures r == rect.width * rect.height
    ensures r == 0 <==> rect.width == 0 || rect.height == 0
    ensures rect.height > 0 ==> r >= rect.width
    ensures rect.width > 0 ==> r >= rect.height
  {
    MulNat(rect.width, rect.height);
    rect.width * rect.height
  }

  /** Turning a rectangle by a quarter keeps its area. */
  lemma AreaTurned(rect: Rectangle)
    requires rect.width * rect.height <= U32_MAX
    ensures Rectangle(rect.height, rect.width).width * Rectangle(rect.height, rect.width).height <= U32_MAX
    ensures Area(Rectangle(rect.height, rect.width)) == Area(rect)
  {
    assert rect.height * rect.width == rect.width * rect.height;
  }

  datatype Event = Click(x: I32, y: I32) | Key(k: char)

  datatype Action = Mouse(ev: Event) | Keyboard(ev: Event)

  /** `extract_click`: only a mouse click yields coordinates. */
  function ExtractClick(act: Action): (r: Option<(I32, I32)>)
    ensures r.Some? <==> act.Mouse? && act.ev.Click?
    ensures r.Some? ==> r.value == (act.ev.x, act.ev.y)
  {
    if act.Mouse? && act.ev.Click? then Some((act.ev.x, act.ev.y)) else None
  }
}
