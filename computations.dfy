// Grid helpers of the earlier revision: the clamped one-step target, the distance vector,
// the Manhattan distance and the direction(s) that lead toward a target.  The current
// revision's `_calc_target_coordinates` is the same clamped step.

module Computations {
  import opened Data

  datatype Direction = Left | Right | Down | Up

  /** The neighbouring cell in a direction, before clamping. */
  function Step(c: Coord, d: Direction): Coord {
    match d
    case Right => Coord(c.x + 1, c.y)
    case Left => Coord(c.x - 1, c.y)
    case Up => Coord(c.x, c.y + 1)
    case Down => Coord(c.x, c.y - 1)
  }

  /** The cell lies on the map border that a step in `d` would cross. */
  predicate AtEdge(c: Coord, d: Direction, mapSize: int) {
    match d
    case Right => c.x == mapSize - 1
    case Left => c.x == 0
    case Up => c.y == mapSize - 1
    case Down => c.y == 0
  }

  function Min(a: int, b: int): int {
    if a <= b then a else b
  }

  function Max(a: int, b: int): int {
    if a >= b then a else b
  }

  /** `calc_target_coordinates`: one step in `d`, clamped to the map. */
  function CalcTargetCoordinates(c: Coord, d: Direction, mapSize: int): (r: Coord)
    ensures d.Left? || d.Right? ==> r.y == c.y
    ensures d.Up? || d.Down? ==> r.x == c.x
    ensures InBounds(c, mapSize) ==> InBounds(r, mapSize)
    ensures InBounds(c, mapSize) ==> (r == c <==> AtEdge(c, d, mapSize))
    ensures InBounds(c, mapSize) && r != c ==> r == Step(c, d)
  {
    match d
    case Right => c.(x := Min(c.x + 1, mapSize - 1))
    case Left => c.(x := Max(c.x - 1, 0))
    case Up => c.(y := Min(c.y + 1, mapSize - 1))
    case Down => c.(y := Max(c.y - 1, 0))
  }

  /** The four parametrised cases of `test_calc_target_coordinates`. */
  lemma CalcTargetCoordinatesExamples()
    ensures CalcTargetCoordinates(Coord(10, 10), Up, 15) == Coord(10, 11)
    ensures CalcTargetCoordinates(Coord(4, 0), Down, 15) == Coord(4, 0)
    ensures CalcTargetCoordinates(Coord(10, 10), Left, 15) == Coord(9, 10)
    ensures CalcTargetCoordinates(Coord(14, 10), Right, 15) == Coord(14, 10)
  {
  }

  /** A clamped step never moves farther than one cell. */
  lemma CalcTargetCoordinatesMovesAtMostOne(c: Coord, d: Direction, mapSize: int)
    requires InBounds(c, mapSize)
    ensures Distance(c, CalcTargetCoordinates(c, d, mapSize)) <= 1
  {
  }

  /** `distance_vector`: target minus origin. */
  function DistanceVector(origin: Coord, target: Coord): (v: (int, int))
    ensures origin.x + v.0 == target.x && origin.y + v.1 == target.y
  {
    (target.x - origin.x, target.y - origin.y)
  }

  function Abs(n: int): nat {
    if n < 0 then -n else n
  }

  /** `distance`: the Manhattan distance. */
  function Distance(origin: Coord, target: Coord): (n: nat)
    ensures n == 0 <==> origin == target
  {
    var v := DistanceVector(origin, target);
    Abs(v.0) + Abs(v.1)
  }

  lemma DistanceSymmetric(a: Coord, b: Coord)
    ensures Distance(a, b) == Distance(b, a)
  {
  }

  lemma DistanceTriangle(a: Coord, b: Coord, c: Coord)
    ensures Distance(a, c) <= Distance(a, b) + Distance(b, c)
  {
  }

  /** The three parametrised cases of `test_distance`. */
  lemma DistanceExamples()
    ensures Distance(Coord(10, 10), Coord(4, 10)) == 6
    ensures Distance(Coord(4, 4), Coord(4, 0)) == 4
    ensures Distance(Coord(10, 6), Coord(2, 9)) == 11
  {
    assert DistanceVector(Coord(10, 10), Coord(4, 10)) == (-6, 0);
    assert DistanceVector(Coord(4, 4), Coord(4, 0)) == (0, -4);
    assert DistanceVector(Coord(10, 6), Coord(2, 9)) == (-8, 3);
  }

  /** `calc_target_coordinate_direction`, branch for branch. */
  function CalcTargetCoordinateDirection(origin: Coord, target: Coord): (r: seq<Direction>)
    ensures 1 <= |r| <= 2
  {
    var (x, y) := DistanceVector(origin, target);
    if Abs(x) == Abs(y) then
      var first :=
        if x > 0 && y > 0 then [Up, Right]
        else if x > 0 && y < 0 then [Right, Down]
        else [Up];
      if x < 0 && y > 0 then [Left, Up]
      else if x < 0 && y < 0 then [Down, Left]
      else first
    else if y > 0 then
      if Abs(y) > Abs(x) then [Up] else if x > 0 then [Right] else [Left]
    else
      if Abs(y) > Abs(x) then [Down] else if x > 0 then [Right] else [Left]
  }

  /** The direction toward a target, stated without reference to the branches: the single
      direction along the dominant axis, or both directions along a diagonal, or `up` when
      origin and target coincide. */
  lemma CalcTargetCoordinateDirectionMeaning(origin: Coord, target: Coord)
    ensures var (x, y) := DistanceVector(origin, target);
      var r := CalcTargetCoordinateDirection(origin, target);
      && (Abs(y) > Abs(x) ==> r == [if y > 0 then Up else Down])
      && (Abs(x) > Abs(y) ==> r == [if x > 0 then Right else Left])
      && (Abs(x) == Abs(y) > 0 ==>
            |r| == 2 && (if x > 0 then Right else Left) in r && (if y > 0 then Up else Down) in r)
      && (origin == target ==> r == [Up])
  {
  }

  /** Every direction offered leads one step closer to a distinct target. */
  lemma CalcTargetCoordinateDirectionApproaches(origin: Coord, target: Coord)
    requires origin != target
    ensures forall d | d in CalcTargetCoordinateDirection(origin, target) ::
      Distance(Step(origin, d), target) == Distance(origin, target) - 1
  {
  }

  function AsSet(ds: seq<Direction>): set<Direction> {
    set d | d in ds
  }

  /** The five parametrised cases of `test_calc_target_coordinate_direction`, compared as
      sets as the test does. */
  lemma CalcTargetCoordinateDirectionExamples()
    ensures AsSet(CalcTargetCoordinateDirection(Coord(10, 10), Coord(10, 11))) == {Up}
    ensures AsSet(CalcTargetCoordinateDirection(Coord(4, 1), Coord(4, 0))) == {Down}
    ensures AsSet(CalcTargetCoordinateDirection(Coord(5, 1), Coord(4, 1))) == {Left}
    ensures AsSet(CalcTargetCoordinateDirection(Coord(4, 1), Coord(5, 1))) == {Right}
    ensures AsSet(CalcTargetCoordinateDirection(Coord(4, 1), Coord(5, 2))) == {Right, Up}
  {
    assert CalcTargetCoordinateDirection(Coord(10, 10), Coord(10, 11)) == [Up];
    assert CalcTargetCoordinateDirection(Coord(4, 1), Coord(4, 0)) == [Down];
    assert CalcTargetCoordinateDirection(Coord(5, 1), Coord(4, 1)) == [Left];
    assert CalcTargetCoordinateDirection(Coord(4, 1), Coord(5, 1)) == [Right];
    assert CalcTargetCoordinateDirection(Coord(4, 1), Coord(5, 2)) == [Up, Right];
  }
}
