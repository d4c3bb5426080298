/**
 * Day 16, part 1: a beam enters the top-left tile heading east. Empty space
 * ('.') lets it pass, mirrors ('/', '\') turn it by a right angle, and
 * splitters ('|', '-') let it pass when it meets their pointy end and split
 * it in the two perpendicular directions otherwise. The answer is the
 * number of tiles the beams cross.
 *
 * `trace_beam` follows one beam in a straight line until it turns, splits
 * or leaves the grid, then recurses on the new directions; a set of
 * (position, direction) starts already traced stops the recursion.
 * Positions are (column, row).
 */
module Day16Part1 {
  import opened Text

  datatype Direction = North | South | East | West

  function Reverse(d: Direction): Direction {
    match d
    case North => South
    case South => North
    case East => West
    case West => East
  }

  predicate Vertical(d: Direction) {
    d == North || d == South
  }

  /** `new_directions`: where a beam heading `d` goes on after a tile `c`. */
  function NewDirections(c: char, d: Direction): (r: seq<Direction>)
    ensures 1 <= |r| <= 2 && Reverse(d) !in r
    ensures c != '\\' && c != '/' && c != '|' && c != '-' ==> r == [d]
    ensures c == '\\' || c == '/' ==> |r| == 1 && Vertical(r[0]) != Vertical(d)
    ensures c == '|' ==> if Vertical(d) then r == [d] else r == [North, South]
    ensures c == '-' ==> if Vertical(d) then r == [East, West] else r == [d]
  {
    match c
    case '\\' => (match d case North => [West] case West => [North] case South => [East] case East => [South])
    case '/' => (match d case North => [East] case East => [North] case South => [West] case West => [South])
    case '|' => (match d case North => [d] case South => [d] case _ => [North, South])
    case '-' => (match d case East => [d] case West => [d] case _ => [East, West])
    case _ => [d]
  }

  /** A mirror's path can be walked backwards: if it turns `d` into `e`, it turns the reverse of `e` into the reverse of `d`. */
  lemma MirrorReversible(c: char, d: Direction)
    requires c == '\\' || c == '/'
    ensures NewDirections(c, Reverse(NewDirections(c, d)[0])) == [Reverse(d)]
  {
  }

  // ---------------------------------------------------------------------------
  // Straight runs
  // ---------------------------------------------------------------------------

  /** `input.lines()` as rows of characters: at least one, the first one not empty (the source reads its length less one). */
  predicate GridOk(grid: seq<string>) {
    |grid| > 0 && |grid[0]| > 0
  }

  /** The longest row's length. */
  function Longest(grid: seq<string>): (n: nat)
    ensures forall y :: 0 <= y < |grid| ==> |grid[y]| <= n
  {
    if |grid| == 0 then 0
    else
      var rest := Longest(grid[1..]);
      assert forall y :: 1 <= y < |grid| ==> grid[y] == grid[1..][y - 1];
      if |grid[0]| > rest then |grid[0]| else rest
  }

  /** The first row's length and the row count bound the edge test. */
  predicate AtEdge(grid: seq<string>, x: nat, y: nat, d: Direction)
    requires GridOk(grid)
  {
    (x == 0 && d == West) || (x == |grid[0]| - 1 && d == East)
    || (y == 0 && d == North) || (y == |grid| - 1 && d == South)
  }

  /** How far a beam can still go before the grid ends. */
  function Room(grid: seq<string>, x: nat, y: nat, d: Direction): nat {
    match d
    case North => y
    case West => x
    case South => if y < |grid| then |grid| - y else 0
    case East => if x < Longest(grid) then Longest(grid) - x else 0
  }

  datatype Tile = Tile(x: nat, y: nat)

  predicate InGrid(grid: seq<string>, t: Tile) {
    t.y < |grid| && t.x < |grid[t.y]|
  }

  /** The tile one step in direction `d` (the edge test has ruled out stepping below 0). */
  function Step(x: nat, y: nat, d: Direction): Tile
    requires d == West ==> x > 0
    requires d == North ==> y > 0
  {
    match d
    case North => Tile(x, y - 1)
    case South => Tile(x, y + 1)
    case East => Tile(x + 1, y)
    case West => Tile(x - 1, y)
  }

  /** What the while loop of `trace_beam` leaves: the tiles it entered, where it stopped, and `next_directions`. */
  datatype Run = Run(tiles: set<Tile>, end: Tile, next: seq<Direction>)

  /** `t` lies on the line from `(x, y)` in direction `d`, after the start and up to `end`. */
  predicate Between(x: nat, y: nat, d: Direction, t: Tile, end: Tile) {
    match d
    case East => t.y == y && x < t.x <= end.x
    case West => t.y == y && end.x <= t.x < x
    case South => t.x == x && y < t.y <= end.y
    case North => t.x == x && end.y <= t.y < y
  }

  /**
   * The while loop of `trace_beam`: step in direction `d` while the beam
   * stays in the grid and every tile entered lets it pass unchanged.
   */
  function Straight(grid: seq<string>, x: nat, y: nat, d: Direction): (r: Run)
    requires GridOk(grid)
    decreases Room(grid, x, y, d)
  {
    if AtEdge(grid, x, y, d) then Run({}, Tile(x, y), [d])
    else
      var t := Step(x, y, d);
      if !InGrid(grid, t) then Run({}, Tile(x, y), [d])
      else
        var next := NewDirections(grid[t.y][t.x], d);
        if next == [d] then
          var rest := Straight(grid, t.x, t.y, d);
          Run(rest.tiles + {t}, rest.end, rest.next)
        else Run({t}, t, next)
  }

  /**
   * A run covers exactly the tiles between its start and its end, all in
   * the grid; every one but the end lets the beam pass; it stops at the
   * grid's edge with the direction unchanged, or on a tile that turns or
   * splits the beam, with that tile's new directions.
   */
  lemma {:induction false} StraightSpec(grid: seq<string>, x: nat, y: nat, d: Direction)
    requires GridOk(grid)
    ensures var r := Straight(grid, x, y, d);
      (forall t :: t in r.tiles <==> Between(x, y, d, t, r.end))
      && (forall t :: t in r.tiles ==> InGrid(grid, t))
      && (forall t :: t in r.tiles && t != r.end ==> NewDirections(grid[t.y][t.x], d) == [d])
      && (r.end == Tile(x, y) || r.end in r.tiles)
      && (r.next == [d] ==> AtEdge(grid, r.end.x, r.end.y, d) || !InGrid(grid, Step(r.end.x, r.end.y, d)))
      && (r.next != [d] ==> InGrid(grid, r.end) && r.next == NewDirections(grid[r.end.y][r.end.x], d))
    decreases Room(grid, x, y, d)
  {
    if !AtEdge(grid, x, y, d) {
      var t := Step(x, y, d);
      if InGrid(grid, t) && NewDirections(grid[t.y][t.x], d) == [d] {
        StraightSpec(grid, t.x, t.y, d);
      }
    }
  }

  // ---------------------------------------------------------------------------
  // Tracing
  // ---------------------------------------------------------------------------

  /** A beam start: the position and the direction `already_seen` records. */
  datatype Beam = Beam(x: nat, y: nat, direction: Direction)

  /** Every start a trace can reach: positions up to the longest row and one row past the last. */
  function Universe(grid: seq<string>): set<Beam> {
    set x: nat, y: nat, d: Direction | x <= Longest(grid) && y <= |grid| && d in {North, South, East, West} :: Beam(x, y, d)
  }

  predicate InUniverse(grid: seq<string>, x: nat, y: nat) {
    x <= Longest(grid) && y <= |grid|
  }

  /** The starts not yet traced: the recursion's measure. */
  function Unseen(grid: seq<string>, seen: set<Beam>): nat {
    |Universe(grid) - seen|
  }

  lemma UnseenShrinks(grid: seq<string>, seen: set<Beam>, b: Beam)
    requires InUniverse(grid, b.x, b.y) && b !in seen
    ensures Unseen(grid, seen + {b}) < Unseen(grid, seen)
  {
    var u := Universe(grid);
    assert b.direction in {North, South, East, West} by {
      match b.direction
      case North =>
      case South =>
      case East =>
      case West =>
    }
    assert b == Beam(b.x, b.y, b.direction);
    assert b in u;
    assert (u - (seen + {b})) + {b} == u - seen;
  }

  lemma UnseenMonotone(grid: seq<string>, seen: set<Beam>, more: set<Beam>)
    requires seen <= more
    ensures Unseen(grid, more) <= Unseen(grid, seen)
  {
    var u := Universe(grid);
    SubsetSize(u - more, u - seen);
  }

  lemma SubsetSize<T>(a: set<T>, b: set<T>)
    requires a <= b
    ensures |a| <= |b|
  {
    assert b == a + (b - a);
  }

  /** The run's end lies in the grid or is the start, so it stays among the traceable starts. */
  lemma RunEndInUniverse(grid: seq<string>, x: nat, y: nat, d: Direction)
    requires GridOk(grid) && InUniverse(grid, x, y)
    ensures InUniverse(grid, Straight(grid, x, y, d).end.x, Straight(grid, x, y, d).end.y)
  {
    StraightSpec(grid, x, y, d);
  }

  /** What a trace returns: the energised tiles and the starts now seen. */
  datatype Traced = Traced(energised: set<Tile>, seen: set<Beam>)

  /**
   * `trace_beam`: nothing when this start was traced before; otherwise the
   * start tile, the run's tiles, and what tracing each of the run's new
   * directions from its end adds.
   */
  function Trace(grid: seq<string>, seen: set<Beam>, x: nat, y: nat, d: Direction): (r: Traced)
    requires GridOk(grid) && InUniverse(grid, x, y)
    ensures seen <= r.seen && Beam(x, y, d) in r.seen
    decreases Unseen(grid, seen), 0
  {
    var b := Beam(x, y, d);
    if b in seen then Traced({}, seen)
    else
      var run := Straight(grid, x, y, d);
      UnseenShrinks(grid, seen, b);
      RunEndInUniverse(grid, x, y, d);
      var rest := TraceAll(grid, seen + {b}, run.end.x, run.end.y, run.next);
      Traced({Tile(x, y)} + run.tiles + rest.energised, rest.seen)
  }

  /** The `for next_direction in next_directions` loop, threading `already_seen` through. */
  function TraceAll(grid: seq<string>, seen: set<Beam>, x: nat, y: nat, directions: seq<Direction>): (r: Traced)
    requires GridOk(grid) && InUniverse(grid, x, y)
    ensures seen <= r.seen
    ensures forall d :: d in directions ==> Beam(x, y, d) in r.seen
    decreases Unseen(grid, seen), 1, |directions|
  {
    if |directions| == 0 then Traced({}, seen)
    else
      var first := Trace(grid, seen, x, y, directions[0]);
      UnseenMonotone(grid, seen, first.seen);
      var rest := TraceAll(grid, first.seen, x, y, directions[1..]);
      assert forall d :: d in directions ==> d == directions[0] || d in directions[1..];
      Traced(first.energised + rest.energised, rest.seen)
  }

  // ---------------------------------------------------------------------------
  // What a trace covers
  // ---------------------------------------------------------------------------

  /** The starts a traced start hands on to: its run's end, in each of the run's new directions. */
  function Successors(grid: seq<string>, b: Beam): set<Beam>
    requires GridOk(grid)
  {
    var run := Straight(grid, b.x, b.y, b.direction);
    set d | d in run.next :: Beam(run.end.x, run.end.y, d)
  }

  /** The tiles a traced start energises itself: its own tile and its run. */
  function Tiles(grid: seq<string>, b: Beam): set<Tile>
    requires GridOk(grid)
  {
    {Tile(b.x, b.y)} + Straight(grid, b.x, b.y, b.direction).tiles
  }

  /** The tiles a set of traced starts energises. */
  function Lit(grid: seq<string>, beams: set<Beam>): set<Tile>
    requires GridOk(grid)
  {
    set b, t | b in beams && t in Tiles(grid, b) :: t
  }

  /** Every start in `beams` has its successors in `all`. */
  predicate Closed(grid: seq<string>, beams: set<Beam>, all: set<Beam>)
    requires GridOk(grid)
  {
    forall b :: b in beams ==> Successors(grid, b) <= all
  }

  /** Every start in `beams` is one of `roots` or a successor of another start in `beams`. */
  ghost predicate Generated(grid: seq<string>, beams: set<Beam>, roots: set<Beam>)
    requires GridOk(grid)
  {
    forall b :: b in beams ==> b in roots || exists p :: p in beams && b in Successors(grid, p)
  }

  lemma LitUnion(grid: seq<string>, a: set<Beam>, b: set<Beam>)
    requires GridOk(grid)
    ensures Lit(grid, a + b) == Lit(grid, a) + Lit(grid, b)
  {
  }

  lemma LitSingle(grid: seq<string>, b: Beam)
    requires GridOk(grid)
    ensures Lit(grid, {b}) == Tiles(grid, b)
  {
  }

  /**
   * A trace energises exactly the tiles of the starts it newly records;
   * those starts hand every successor on to a recorded start, and each is
   * the trace's own start or a successor of another one.
   */
  lemma {:induction false} TraceCovers(grid: seq<string>, seen: set<Beam>, x: nat, y: nat, d: Direction)
    requires GridOk(grid) && InUniverse(grid, x, y)
    ensures var r := Trace(grid, seen, x, y, d);
      r.energised == Lit(grid, r.seen - seen)
      && Closed(grid, r.seen - seen, r.seen)
      && Generated(grid, r.seen - seen, {Beam(x, y, d)})
    decreases Unseen(grid, seen), 0
  {
    var b := Beam(x, y, d);
    if b !in seen {
      var run := Straight(grid, x, y, d);
      UnseenShrinks(grid, seen, b);
      RunEndInUniverse(grid, x, y, d);
      var rest := TraceAll(grid, seen + {b}, run.end.x, run.end.y, run.next);
      TraceAllCovers(grid, seen + {b}, run.end.x, run.end.y, run.next);
      CoverStep(grid, seen, b, rest);
    }
  }

  /** The step of `TraceCovers`: one new start in front of what tracing its successors recorded. */
  lemma CoverStep(grid: seq<string>, seen: set<Beam>, b: Beam, rest: Traced)
    requires GridOk(grid) && b !in seen && seen + {b} <= rest.seen
    requires Successors(grid, b) <= rest.seen
    requires rest.energised == Lit(grid, rest.seen - (seen + {b}))
    requires Closed(grid, rest.seen - (seen + {b}), rest.seen)
    requires Generated(grid, rest.seen - (seen + {b}), Successors(grid, b))
    ensures Tiles(grid, b) + rest.energised == Lit(grid, rest.seen - seen)
    ensures Closed(grid, rest.seen - seen, rest.seen)
    ensures Generated(grid, rest.seen - seen, {b})
  {
    var news := rest.seen - (seen + {b});
    assert rest.seen - seen == {b} + news;
    LitUnion(grid, {b}, news);
    LitSingle(grid, b);
    forall c | c in rest.seen - seen
      ensures c == b || exists p :: p in rest.seen - seen && c in Successors(grid, p)
    {
      if c != b && c !in Successors(grid, b) {
        var p :| p in news && c in Successors(grid, p);
      }
    }
  }

  /** The same for the loop over new directions, whose roots are the end tile in each direction. */
  lemma {:induction false} TraceAllCovers(grid: seq<string>, seen: set<Beam>, x: nat, y: nat, directions: seq<Direction>)
    requires GridOk(grid) && InUniverse(grid, x, y)
    ensures var r := TraceAll(grid, seen, x, y, directions);
      r.energised == Lit(grid, r.seen - seen)
      && Closed(grid, r.seen - seen, r.seen)
      && Generated(grid, r.seen - seen, set e | e in directions :: Beam(x, y, e))
    decreases Unseen(grid, seen), 1, |directions|
  {
    if |directions| > 0 {
      var first := Trace(grid, seen, x, y, directions[0]);
      TraceCovers(grid, seen, x, y, directions[0]);
      UnseenMonotone(grid, seen, first.seen);
      var rest := TraceAll(grid, first.seen, x, y, directions[1..]);
      TraceAllCovers(grid, first.seen, x, y, directions[1..]);
      var r := TraceAll(grid, seen, x, y, directions);
      assert r.seen - seen == (first.seen - seen) + (rest.seen - first.seen);
      LitUnion(grid, first.seen - seen, rest.seen - first.seen);
      var roots := set e | e in directions :: Beam(x, y, e);
      forall c | c in r.seen - seen
        ensures c in roots || exists p :: p in r.seen - seen && c in Successors(grid, p)
      {
        if c in first.seen - seen {
          if c == Beam(x, y, directions[0]) {
            assert c in roots;
          } else {
            var p :| p in first.seen - seen && c in Successors(grid, p);
          }
        } else {
          assert c in rest.seen - first.seen;
          if c in set e | e in directions[1..] :: Beam(x, y, e) {
            var e :| e in directions[1..] && c == Beam(x, y, e);
            assert e in directions;
          } else {
            var p :| p in rest.seen - first.seen && c in Successors(grid, p);
          }
        }
      }
    }
  }

  /** A trace started on a grid tile energises grid tiles only. */
  lemma {:induction false} TraceInGrid(grid: seq<string>, seen: set<Beam>, x: nat, y: nat, d: Direction)
    requires GridOk(grid) && InUniverse(grid, x, y) && InGrid(grid, Tile(x, y))
    ensures forall t :: t in Trace(grid, seen, x, y, d).energised ==> InGrid(grid, t)
    decreases Unseen(grid, seen), 0
  {
    var b := Beam(x, y, d);
    if b !in seen {
      var run := Straight(grid, x, y, d);
      StraightSpec(grid, x, y, d);
      UnseenShrinks(grid, seen, b);
      RunEndInUniverse(grid, x, y, d);
      TraceAllInGrid(grid, seen + {b}, run.end.x, run.end.y, run.next);
    }
  }

  lemma {:induction false} TraceAllInGrid(grid: seq<string>, seen: set<Beam>, x: nat, y: nat, directions: seq<Direction>)
    requires GridOk(grid) && InUniverse(grid, x, y) && InGrid(grid, Tile(x, y))
    ensures forall t :: t in TraceAll(grid, seen, x, y, directions).energised ==> InGrid(grid, t)
    decreases Unseen(grid, seen), 1, |directions|
  {
    if |directions| > 0 {
      var first := Trace(grid, seen, x, y, directions[0]);
      TraceInGrid(grid, seen, x, y, directions[0]);
      UnseenMonotone(grid, seen, first.seen);
      TraceAllInGrid(grid, first.seen, x, y, directions[1..]);
    }
  }

  // ---------------------------------------------------------------------------
  // Counting
  // ---------------------------------------------------------------------------

  /**
   * `count_energised_tiles` as written: when the top-left tile would not let
   * an eastward beam pass, it is energised and tracing starts one row down,
   * heading south; otherwise tracing starts on it, heading east. The
   * top-left tile's own character is never looked at by the trace, and
   * neither is the character below it in the first case.
   */
  function FirstStart(grid: seq<string>): Beam
    requires GridOk(grid)
  {
    var c := grid[0][0];
    if c != '.' && NewDirections(c, East) != [East] then Beam(0, 1, South) else Beam(0, 0, East)
  }

  /**
   * The tiles `count_energised_tiles` collects: the top-left tile (inserted
   * by hand in the first case, lit by the trace's start in the second) and
   * what the trace from the first start energises.
   */
  function EnergisedAsWritten(grid: seq<string>): set<Tile>
    requires GridOk(grid)
  {
    var start := FirstStart(grid);
    {Tile(0, 0)} + Trace(grid, {}, start.x, start.y, start.direction).energised
  }

  /**
   * The number `count_energised_tiles` returns: the tiles lit by the starts
   * its trace records (with the top-left tile added when it turns the beam);
   * those starts are closed under successors and all grow from the first.
   */
  function CountEnergisedTiles(input: string): (count: nat)
    requires GridOk(Lines(input))
    ensures var grid := Lines(input);
      var start := FirstStart(grid);
      var beams := Trace(grid, {}, start.x, start.y, start.direction).seen;
      count == |{Tile(0, 0)} + Lit(grid, beams)|
      && start in beams && Closed(grid, beams, beams) && Generated(grid, beams, {start})
  {
    var grid := Lines(input);
    var start := FirstStart(grid);
    var traced := Trace(grid, {}, start.x, start.y, start.direction);
    TraceCovers(grid, {}, start.x, start.y, start.direction);
    assert traced.seen - {} == traced.seen;
    |{Tile(0, 0)} + traced.energised|
  }

  /**
   * The intended start: the top-left tile is energised and the beam leaves
   * it in the directions its own character gives, like on any other tile.
   */
  function EnergisedCorrected(grid: seq<string>): set<Tile>
    requires GridOk(grid)
  {
    {Tile(0, 0)} + TraceAll(grid, {}, 0, 0, NewDirections(grid[0][0], East)).energised
  }

  /**
   * With the corrected start only grid tiles are energised, and whenever
   * the top-left tile lets the beam pass east, nothing changes from the
   * code as written.
   */
  lemma CorrectedStart(grid: seq<string>)
    requires GridOk(grid)
    ensures forall t :: t in EnergisedCorrected(grid) ==> InGrid(grid, t)
    ensures NewDirections(grid[0][0], East) == [East] ==> EnergisedCorrected(grid) == EnergisedAsWritten(grid)
  {
    TraceAllInGrid(grid, {}, 0, 0, NewDirections(grid[0][0], East));
    if NewDirections(grid[0][0], East) == [East] {
      assert TraceAll(grid, {}, 0, 0, [East]).energised == Trace(grid, {}, 0, 0, East).energised + TraceAll(grid, Trace(grid, {}, 0, 0, East).seen, 0, 0, []).energised;
    }
  }

  /**
   * A one-tile grid holding a backslash: the code as written counts the
   * tile below it, which is off the grid, and reports 2; the intended
   * count is 1, the tile itself.
   */
  lemma OneBackslash()
    ensures GridOk(["\\"])
    ensures EnergisedAsWritten(["\\"]) == {Tile(0, 0), Tile(0, 1)} && !InGrid(["\\"], Tile(0, 1))
    ensures EnergisedCorrected(["\\"]) == {Tile(0, 0)}
  {
    var grid := ["\\"];
    assert NewDirections(grid[0][0], East) == [South];
    assert FirstStart(grid) == Beam(0, 1, South);
    var below := Beam(0, 1, South);
    assert Straight(grid, 0, 1, South) == Run({}, Tile(0, 1), [South]);
    assert Trace(grid, {below}, 0, 1, South).energised == {};
    assert TraceAll(grid, {below}, 0, 1, [South]).energised == {};
    assert Trace(grid, {}, 0, 1, South).energised == {Tile(0, 1)};
    var down := Beam(0, 0, South);
    assert AtEdge(grid, 0, 0, South);
    assert Straight(grid, 0, 0, South) == Run({}, Tile(0, 0), [South]);
    assert Trace(grid, {down}, 0, 0, South).energised == {};
    assert TraceAll(grid, {down}, 0, 0, [South]).energised == {};
    assert Trace(grid, {}, 0, 0, South).energised == {Tile(0, 0)};
    assert TraceAll(grid, {}, 0, 0, [South]).energised == {Tile(0, 0)};
  }
}
