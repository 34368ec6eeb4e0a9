/**
 * Board coordinates (integer internal units), the host's bounding-box test,
 * Python's floor division, and the clone grid of do_clone.
 */
module Geometry {

  datatype Point = Point(x: int, y: int)

  function Plus(a: Point, b: Point): (r: Point)
    ensures r.x - a.x == b.x && r.y - a.y == b.y
  {
    Point(a.x + b.x, a.y + b.y)
  }

  /** The host's box: an origin and a signed size. */
  datatype Rect = Rect(origin: Point, width: int, height: int)

  function Min(a: int, b: int): int { if a <= b then a else b }
  function Max(a: int, b: int): int { if a <= b then b else a }

  /** Closed-box containment; a negative size spans to the other side of the origin. */
  predicate Contains(r: Rect, p: Point)
  {
    && Min(r.origin.x, r.origin.x + r.width) <= p.x <= Max(r.origin.x, r.origin.x + r.width)
    && Min(r.origin.y, r.origin.y + r.height) <= p.y <= Max(r.origin.y, r.origin.y + r.height)
  }

  function MoveRect(r: Rect, d: Point): Rect
  {
    r.(origin := Plus(r.origin, d))
  }

  /**
   * The product a * b of two Python integers, as a repeated sum over a. The
   * proofs take its value from TimesIsProduct where they need it.
   */
  function Times(a: int, b: int): int
    decreases if a < 0 then -a else a
  {
    if a == 0 then 0
    else if a > 0 then Times(a - 1, b) + b
    else Times(a + 1, b) - b
  }

  lemma {:induction false} TimesIsProduct(a: int, b: int)
    ensures Times(a, b) == a * b
    decreases if a < 0 then -a else a
  {
    if a > 0 {
      TimesIsProduct(a - 1, b);
    } else if a < 0 {
      TimesIsProduct(a + 1, b);
    }
  }

  /**
   * Python's `a // b`: the quotient rounded towards minus infinity, counted
   * out one divisor at a time; a negative divisor divides -a by -b.
   */
  function FloorDiv(a: int, b: int): int
    requires b != 0
    decreases if b < 0 then 1 else 0, if 0 <= a < b then 0 else if a < 0 then 1 - a else a + 1
  {
    if b < 0 then FloorDiv(-a, -b)
    else if a < 0 then FloorDiv(a + b, b) - 1
    else if a < b then 0
    else FloorDiv(a - b, b) + 1
  }

  /** Python's `a % b`: the remainder that carries the sign of the divisor. */
  function FloorMod(a: int, b: int): int
    requires b != 0
  {
    a - Times(b, FloorDiv(a, b))
  }

  /** For a positive divisor, FloorDiv is the quotient of the division law with a remainder in [0, b). */
  lemma {:induction false} FloorDivPositive(a: int, b: int)
    requires b > 0
    ensures 0 <= a - b * FloorDiv(a, b) < b
    decreases if 0 <= a < b then 0 else if a < 0 then 1 - a else a + 1
  {
    if a < 0 {
      FloorDivPositive(a + b, b);
      var q := FloorDiv(a + b, b);
      assert FloorDiv(a, b) == q - 1;
      assert b * (q - 1) == b * q - b;
      assert a - b * FloorDiv(a, b) == (a + b) - b * q;
    } else if a >= b {
      FloorDivPositive(a - b, b);
      var q := FloorDiv(a - b, b);
      assert FloorDiv(a, b) == q + 1;
      assert b * (q + 1) == b * q + b;
      assert a - b * FloorDiv(a, b) == (a - b) - b * q;
    }
  }

  /** Python's division law: `a == b * (a // b) + a % b`, the remainder between 0 and b. */
  lemma FloorDivMod(a: int, b: int)
    requires b != 0
    ensures a == b * FloorDiv(a, b) + FloorMod(a, b)
    ensures b > 0 ==> 0 <= FloorMod(a, b) < b
    ensures b < 0 ==> b < FloorMod(a, b) <= 0
  {
    TimesIsProduct(b, FloorDiv(a, b));
    if b > 0 {
      FloorDivPositive(a, b);
    } else {
      FloorDivPositive(-a, -b);
      assert FloorDiv(a, b) == FloorDiv(-a, -b);
      assert (-b) * FloorDiv(-a, -b) == -(b * FloorDiv(a, b));
    }
  }

  /** The run settings of do_clone (the parameters at layout_cloner.py:50). */
  datatype Config = Config(refStart: int, refModulo: int, clonesX: int, clonesY: int, dx: int, dy: int)

  function NumberOfClones(cfg: Config): int
  {
    Times(cfg.clonesX, cfg.clonesY)
  }

  /** How many clones `range(1, numberOfClones)` visits. */
  function CloneCount(cfg: Config): (n: nat)
    ensures n == 0 <==> NumberOfClones(cfg) <= 1
    ensures n > 0 ==> n == NumberOfClones(cfg) - 1
  {
    if NumberOfClones(cfg) >= 1 then NumberOfClones(cfg) - 1 else 0
  }

  predicate IsCloneIndex(cfg: Config, i: int)
  {
    1 <= i < NumberOfClones(cfg)
  }

  lemma CloneIndexHasColumns(cfg: Config, i: int)
    requires IsCloneIndex(cfg, i)
    ensures cfg.clonesX != 0
  {
    TimesIsProduct(cfg.clonesX, cfg.clonesY);
  }

  /**
   * The displacement of clone i: column `i % clonesX` times dx and row
   * `i // clonesX` times dy. With no columns there is no clone index, and the
   * displacement is never asked for.
   */
  function Offset(cfg: Config, i: int): Point
  {
    if cfg.clonesX == 0 then Point(0, 0)
    else Point(Times(FloorMod(i, cfg.clonesX), cfg.dx), Times(FloorDiv(i, cfg.clonesX), cfg.dy))
  }

  /** Clone i sits in column `i % clonesX` and row `i // clonesX` of a grid clonesX wide. */
  lemma GridCell(cfg: Config, i: int)
    requires cfg.clonesX > 0
    ensures 0 <= FloorMod(i, cfg.clonesX) < cfg.clonesX
    ensures i == FloorDiv(i, cfg.clonesX) * cfg.clonesX + FloorMod(i, cfg.clonesX)
    ensures Offset(cfg, i) == Point(FloorMod(i, cfg.clonesX) * cfg.dx, FloorDiv(i, cfg.clonesX) * cfg.dy)
  {
    FloorDivMod(i, cfg.clonesX);
    TimesIsProduct(FloorMod(i, cfg.clonesX), cfg.dx);
    TimesIsProduct(FloorDiv(i, cfg.clonesX), cfg.dy);
  }

  /** With a non-zero spacing on both axes, two clones never land on the same offset. */
  lemma OffsetsDistinct(cfg: Config, i: int, j: int)
    requires cfg.clonesX != 0 && cfg.dx != 0 && cfg.dy != 0
    requires i != j
    ensures Offset(cfg, i) != Offset(cfg, j)
  {
    var x := cfg.clonesX;
    FloorDivMod(i, x);
    FloorDivMod(j, x);
    TimesIsProduct(FloorMod(i, x), cfg.dx);
    TimesIsProduct(FloorMod(j, x), cfg.dx);
    TimesIsProduct(FloorDiv(i, x), cfg.dy);
    TimesIsProduct(FloorDiv(j, x), cfg.dy);
    if Offset(cfg, i) == Offset(cfg, j) {
      MulCancel(FloorMod(i, x), FloorMod(j, x), cfg.dx);
      MulCancel(FloorDiv(i, x), FloorDiv(j, x), cfg.dy);
    }
  }

  lemma MulCancel(a: int, b: int, c: int)
    requires c != 0 && a * c == b * c
    ensures a == b
  {
    assert (a - b) * c == a * c - b * c;
  }

  /** The grid of four columns puts clone 5 one column right and one row down. */
  lemma FourColumnsIndexFive(cfg: Config)
    requires cfg.clonesX == 4
    ensures Offset(cfg, 5) == Point(cfg.dx, cfg.dy)
  {
    assert FloorDiv(5, 4) == 1;
  }
}
