/** The points that `_ssd1306_line` plots. */
module Lines {

  datatype Point = Point(x: int, y: int)

  function Abs(n: int): nat {
    if n < 0 then -n else n
  }

  /** The sign of a coordinate's way from a to b. */
  function Sign(a: int, b: int): int {
    if b > a then 1 else -1
  }

  /** The loop: after k turns, how often the minor coordinate has stepped, and the error term. */
  function Walk(k: nat, major: nat, minor: nat): (int, int) {
    if k == 0 then
      var e: int := 0 - major;
      (0, e)
    else
      var w := Walk(k - 1, major, minor);
      var e := w.1 + 2 * minor;
      if e >= 0 then (w.0 + 1, e - 2 * major) else (w.0, e)
  }

  /** The error term is twice the way that is missing, less one half; with p the exact minor
      way and q the one plotted, both times the major length. */
  ghost predicate Rounded(p: int, q: int, e: int, major: nat) {
    e == 2 * (p - q) - major && 2 * Abs(p - q) <= major && (major > 0 ==> e < 0)
  }

  lemma RoundStep(p: int, q: int, e: int, major: nat, minor: nat)
    requires minor <= major && Rounded(p, q, e, major)
    ensures var f := e + 2 * minor;
      if f >= 0 then Rounded(p + minor, q + major, f - 2 * major, major) else Rounded(p + minor, q, f, major)
  {
  }

  lemma OneMore(a: int, b: int)
    ensures (a + 1) * b == a * b + b
  {
  }

  /** The minor coordinate is the exact one, rounded: it is off by at most one half. */
  lemma {:induction false} WalkRounds(k: nat, major: nat, minor: nat)
    requires minor <= major
    ensures var (m, e) := Walk(k, major, minor);
      m >= 0 && Rounded(k * minor, m * major, e, major)
  {
    if k > 0 {
      WalkRounds(k - 1, major, minor);
      var (m, e) := Walk(k - 1, major, minor);
      OneMore(k - 1, minor);
      OneMore(m, major);
      RoundStep((k - 1) * minor, m * major, e, major, minor);
      hide Rounded;
    }
  }

  lemma Multiple(m: nat, d: int)
    requires d >= 1
    ensures m * d >= m
  {
  }

  lemma NoMultiple(m: nat, d: int)
    requires m > 0 && 2 * Abs(m * d) <= m
    ensures d == 0
  {
    assert m * -d == -(m * d);
    if d >= 1 {
      Multiple(m, d);
    } else if d <= -1 {
      Multiple(m, -d);
    }
  }

  /** It has come all the way when the major coordinate has. */
  lemma WalkArrives(major: nat, minor: nat)
    requires minor <= major
    ensures Walk(major, major, minor).0 == minor
  {
    WalkRounds(major, major, minor);
    if major > 0 {
      var m := Walk(major, major, minor).0;
      hide Walk;
      assert major * minor - m * major == major * (minor - m);
      NoMultiple(major, minor - m);
    }
  }

  lemma {:induction false} WalkGrows(j: nat, k: nat, major: nat, minor: nat)
    requires j <= k
    ensures Walk(j, major, minor).0 <= Walk(k, major, minor).0
    decreases k
  {
    if j < k {
      WalkGrows(j, k - 1, major, minor);
    }
  }

  // ---------------------------------------------------------------------
  // The line.

  /** Length of the way in the major coordinate, and in the minor one. */
  function Major(a: Point, b: Point): nat {
    if Abs(b.x - a.x) > Abs(b.y - a.y) then Abs(b.x - a.x) else Abs(b.y - a.y)
  }

  function Minor(a: Point, b: Point): (n: nat)
    ensures n <= Major(a, b)
  {
    if Abs(b.x - a.x) > Abs(b.y - a.y) then Abs(b.y - a.y) else Abs(b.x - a.x)
  }

  /** Point k of the line. */
  function LinePoint(a: Point, b: Point, k: nat): Point {
    var m := Walk(k, Major(a, b), Minor(a, b)).0;
    if Abs(b.x - a.x) > Abs(b.y - a.y) then Point(a.x + Sign(a.x, b.x) * k, a.y + Sign(a.y, b.y) * m)
    else Point(a.x + Sign(a.x, b.x) * m, a.y + Sign(a.y, b.y) * k)
  }

  function Line(a: Point, b: Point): (r: seq<Point>)
    ensures |r| == Major(a, b) + 1
  {
    seq(Major(a, b) + 1, k requires 0 <= k <= Major(a, b) => LinePoint(a, b, k))
  }

  /** The line runs from one end point to the other, whatever the points are. */
  lemma LineEnds(a: Point, b: Point)
    ensures Line(a, b)[0] == a && Line(a, b)[Major(a, b)] == b
  {
    WalkArrives(Major(a, b), Minor(a, b));
  }

  /** Neighbouring points touch, and the major coordinate steps by exactly one. */
  lemma LineTouches(a: Point, b: Point, k: nat)
    requires k < Major(a, b)
    ensures var p, q := Line(a, b)[k], Line(a, b)[k + 1];
      && Abs(q.x - p.x) <= 1 && Abs(q.y - p.y) <= 1
      && if Abs(b.x - a.x) > Abs(b.y - a.y) then q.x == p.x + Sign(a.x, b.x) else q.y == p.y + Sign(a.y, b.y)
  {
  }

  predicate Between(a: int, b: int, v: int) {
    a <= v <= b || b <= v <= a
  }

  /** No point is outside the box of the end points. */
  lemma LineInBox(a: Point, b: Point, k: nat)
    requires k <= Major(a, b)
    ensures Between(a.x, b.x, Line(a, b)[k].x) && Between(a.y, b.y, Line(a, b)[k].y)
  {
    WalkArrives(Major(a, b), Minor(a, b));
    WalkGrows(k, Major(a, b), Major(a, b), Minor(a, b));
    WalkRounds(k, Major(a, b), Minor(a, b));
    hide Walk;
  }

  /** Every point is at most half a pixel away from the exact line, in the minor coordinate. */
  lemma LineIsExact(a: Point, b: Point, k: nat)
    requires k <= Major(a, b)
    ensures var p := Line(a, b)[k];
      var (dx, dy) := (Abs(p.x - a.x), Abs(p.y - a.y));
      var (along, across) := if Abs(b.x - a.x) > Abs(b.y - a.y) then (dx, dy) else (dy, dx);
      along == k && 2 * Abs(k * Minor(a, b) - across * Major(a, b)) <= Major(a, b)
  {
    WalkRounds(k, Major(a, b), Minor(a, b));
    hide Walk;
  }

  /** No point is plotted twice. */
  lemma LineDistinct(a: Point, b: Point, j: nat, k: nat)
    requires j < k <= Major(a, b)
    ensures Line(a, b)[j] != Line(a, b)[k]
  {
  }
}
