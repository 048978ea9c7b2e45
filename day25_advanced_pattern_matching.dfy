/** `classify`, `describe` and `area` of days/day25/advanced_pattern_matching/src/main.rs. */
module AdvancedPatternMatching {
  import opened RustInt

  const Negative := "negative"
  const Zero := "zero"
  const Small := "small"
  const BigEven := "big even"
  const BigOdd := "big odd"

  /** `classify`: each `i32` gets exactly one of the five labels. */
  function Classify(n: I32): (r: string)
    ensures r == Negative <==> n < 0
    ensures r == Zero <==> n == 0
    ensures r == Small <==> 1 <= n <= 10
    ensures r == BigEven <==> n > 10 && n % 2 == 0
    ensures r == BigOdd <==> n > 10 && n % 2 == 1
  {
    if n <= -1 then Negative
    else if n == 0 then Zero
    else if n <= 10 then Small
    // `n` is positive here, where Rust's `%` and Dafny's agree
    else if n % 2 == 0 then BigEven
    else BigOdd
  }

  /** The five calls of `main`. */
  lemma MainExamples()
    ensures Classify(-10) == Negative && Classify(0) == Zero && Classify(2) == Small
    ensures Classify(15) == BigOdd && Classify(100) == BigEven
  {
  }

  datatype Role = Admin(level: U8) | User

  datatype Event = Login(name: string, role: Role) | Logout(name: string)

  /** `describe`: admins of level 0 to 4 are "low", every other admin "high". */
  function Describe(ev: Event): (r: string)
    ensures ev.Login? && ev.role.Admin? ==>
      r == "Admin login: " + ev.name + (if ev.role.level <= 4 then " (low)" else " (high)")
    ensures ev.Login? && ev.role.User? ==> r == "User login: " + ev.name
    ensures ev.Logout? ==> r == "Goodbye " + ev.name
  {
    match ev
    case Login(name, Admin(level)) =>
      if 0 <= level <= 4 then "Admin login: " + name + " (low)"
      else "Admin login: " + name + " (high)"
    case Login(name, User) => "User login: " + name
    case Logout(name) => "Goodbye " + name
  }

  /** Different kinds of event are never described alike, whatever the names. */
  lemma DescribeKindsDiffer(a: Event, b: Event)
    requires a.Logout? != b.Logout? || (a.Login? && b.Login? && a.role.User? != b.role.User?)
    ensures Describe(a) != Describe(b)
  {
    assert Describe(a)[0] != Describe(b)[0];
  }

  datatype Point = Point(x: I32, y: I32)

  datatype Shape = Circle(center: Point, radius: U32) | Rect(topLeft: Point, bottomRight: Point)

  /** The `i32` subtractions, `abs` calls and `u32` multiplications of `area` do not
      overflow (each would panic in Rust). */
  predicate AreaDefined(shape: Shape) {
    match shape
    case Circle(_, r) => 3 * r * r <= U32_MAX
    case Rect(p1, p2) =>
      I32_MIN < p2.x - p1.x <= I32_MAX && I32_MIN < p2.y - p1.y <= I32_MAX &&
      Abs(p2.x - p1.x) * Abs(p2.y - p1.y) <= U32_MAX
  }

  /** `area`: about three times the squared radius for a circle (the code uses 3 for pi);
      for a rectangle, the product of the distances between the corners' coordinates. */
  function Area(shape: Shape): (r: U32)
    requires AreaDefined(shape)
    ensures shape.Circle? ==> r == 3 * shape.radius * shape.radius
    ensures shape.Rect? ==>
      r == Abs(shape.bottomRight.x - shape.topLeft.x) * Abs(shape.bottomRight.y - shape.topLeft.y)
    ensures shape.Circle? ==> (r == 0 <==> shape.radius == 0)
    ensures shape.Rect? ==>
      (r == 0 <==> shape.topLeft.x == shape.bottomRight.x || shape.topLeft.y == shape.bottomRight.y)
  {
    match shape
    case Circle(_, r) =>
      MulNat(r, r);
      MulNat(3, r * r);
      3 * r * r
    case Rect(p1, p2) =>
      var width := Abs(p2.x - p1.x);
      var height := Abs(p2.y - p1.y);
      MulNat(width, height);
      width * height
  }

  /** The centre of a circle plays no part. */
  lemma CircleAreaIgnoresCenter(c1: Point, c2: Point, r: U32)
    requires 3 * r * r <= U32_MAX
    ensures Area(Circle(c1, r)) == Area(Circle(c2, r))
  {
  }

  /** A rectangle given by its other two corners, or with its corners swapped, has the
      same area. */
  lemma RectAreaCornerOrder(p1: Point, p2: Point)
    requires AreaDefined(Rect(p1, p2))
    ensures AreaDefined(Rect(p2, p1)) && Area(Rect(p2, p1)) == Area(Rect(p1, p2))
    ensures AreaDefined(Rect(Point(p1.x, p2.y), Point(p2.x, p1.y)))
    ensures Area(Rect(Point(p1.x, p2.y), Point(p2.x, p1.y))) == Area(Rect(p1, p2))
  {
  }
}
