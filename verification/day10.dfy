/**
 * Day 10, part 1: a grid of pipe tiles holds one start tile `S`. The start is
 * given the pipe shape its neighbours imply, the loop through it is walked
 * tile by tile, and the answer is half the length of the walk list (which
 * holds the start at both ends): the distance to the farthest loop tile.
 */
module Day10Part1 {
  import opened Text

  datatype Direction = North | South | East | West

  /** The side across the tile. */
  function Opposite(d: Direction): (r: Direction)
    ensures r != d
    ensures Vertical(r) == Vertical(d)
  {
    match d
    case North => South
    case South => North
    case East => West
    case West => East
  }

  predicate Vertical(d: Direction) {
    d == North || d == South
  }

  lemma {:induction false} OppositeInvolution(d: Direction)
    ensures Opposite(Opposite(d)) == d
    ensures Opposite(d) != d
  {
  }

  datatype TileType =
    | PipeVertical | PipeHorizontal | BendNe | BendNw | BendSw | BendSe
    | Ground | StartingPosition

  /** The tiles that are pieces of pipe. */
  predicate Pipe(t: TileType) {
    t != Ground && t != StartingPosition
  }

  /** The character each tile is drawn with in the puzzle input. */
  function Glyph(t: TileType): char {
    match t
    case PipeVertical => '|'
    case PipeHorizontal => '-'
    case BendNe => 'L'
    case BendNw => 'J'
    case BendSw => '7'
    case BendSe => 'F'
    case Ground => '.'
    case StartingPosition => 'S'
  }

  /** `from_char`: the seven named characters, and ground for anything else. */
  function FromChar(c: char): (t: TileType)
    ensures t != Ground ==> Glyph(t) == c
    ensures t == Ground <==> c !in "|-LJ7FS"
  {
    match c
    case '|' => PipeVertical
    case '-' => PipeHorizontal
    case 'L' => BendNe
    case 'J' => BendNw
    case '7' => BendSw
    case 'F' => BendSe
    case 'S' => StartingPosition
    case _ => Ground
  }

  lemma {:induction false} FromCharGlyph(t: TileType)
    ensures FromChar(Glyph(t)) == t
  {
  }

  predicate HasNorth(t: TileType) {
    t in [PipeVertical, BendNe, BendNw]
  }

  predicate HasSouth(t: TileType) {
    t in [PipeVertical, BendSe, BendSw]
  }

  predicate HasEast(t: TileType) {
    t in [PipeHorizontal, BendNe, BendSe]
  }

  predicate HasWest(t: TileType) {
    t in [PipeHorizontal, BendNw, BendSw]
  }

  /** Whether `t` has an opening on side `d`. */
  predicate Opens(t: TileType, d: Direction) {
    match d
    case North => HasNorth(t)
    case South => HasSouth(t)
    case East => HasEast(t)
    case West => HasWest(t)
  }

  /** `next`: entering `t` from side `entry`, the side the pipe leads out of. */
  function Next(t: TileType, entry: Direction): Option<Direction> {
    match t
    case PipeVertical =>
      (match entry case South => Some(North) case North => Some(South) case _ => None)
    case PipeHorizontal =>
      (match entry case East => Some(West) case West => Some(East) case _ => None)
    case BendNe =>
      (match entry case North => Some(East) case East => Some(North) case _ => None)
    case BendNw =>
      (match entry case North => Some(West) case West => Some(North) case _ => None)
    case BendSe =>
      (match entry case South => Some(East) case East => Some(South) case _ => None)
    case BendSw =>
      (match entry case South => Some(West) case West => Some(South) case _ => None)
    case _ => None
  }

  /**
   * The transition table agrees with the opening tables: a pipe leads from
   * one of its openings to the other, either way round, and nowhere else.
   */
  lemma {:induction false} NextOpenings(t: TileType, d: Direction, e: Direction)
    ensures Next(t, d) == Some(e) <==> d != e && Opens(t, d) && Opens(t, e)
    ensures Next(t, d) == Some(e) ==> Next(t, e) == Some(d)
    ensures Next(t, d).Some? <==> Opens(t, d)
    ensures !Pipe(t) ==> Next(t, d).None?
  {
  }

  /** `initial_direction`: the side the walk enters the start tile from. */
  function InitialDirection(t: TileType): (d: Direction)
    ensures Pipe(t) ==> Opens(t, d)
  {
    match t
    case PipeVertical | BendSe | BendSw => South
    case BendNe | BendNw => North
    case _ => West
  }

  /** A neighbour on side `d` of the start whose pipe opens back toward it. */
  predicate Points(side: Option<TileType>, d: Direction) {
    side.Some? && Opens(side.value, Opposite(d))
  }

  /** Every opening of `t` faces a neighbour that points back. */
  predicate Fits(t: TileType, north: Option<TileType>, south: Option<TileType>,
                 east: Option<TileType>, west: Option<TileType>)
  {
    && (HasNorth(t) ==> Points(north, North))
    && (HasSouth(t) ==> Points(south, South))
    && (HasEast(t) ==> Points(east, East))
    && (HasWest(t) ==> Points(west, West))
  }

  /** The shapes tried for the start tile, in the order they are tried. */
  const Shapes: seq<TileType> := [PipeVertical, BendNe, BendNw, BendSe, BendSw, PipeHorizontal]

  /** Where a shape stands in `Shapes`. */
  function Rank(t: TileType): (i: nat)
    ensures Pipe(t) ==> i < |Shapes| && Shapes[i] == t
  {
    match t
    case PipeVertical => 0
    case BendNe => 1
    case BendNw => 2
    case BendSe => 3
    case BendSw => 4
    case _ => 5
  }

  /** At least two sides of the start are pointed at by their neighbours. */
  predicate TwoPointBack(north: Option<TileType>, south: Option<TileType>,
                         east: Option<TileType>, west: Option<TileType>)
  {
    var n := Points(north, North);
    var s := Points(south, South);
    var e := Points(east, East);
    var w := Points(west, West);
    (n && (s || e || w)) || (s && (e || w)) || (e && w)
  }

  /**
   * `get_starting_point_tile_type`: the first shape, in the order of
   * `Shapes`, all of whose openings face neighbours that open back; there is
   * one exactly when two sides are pointed at.
   */
  function StartShape(north: Option<TileType>, south: Option<TileType>,
                      east: Option<TileType>, west: Option<TileType>): (r: Option<TileType>)
    ensures r.Some? ==> Pipe(r.value)
    ensures r.Some? ==> Fits(r.value, north, south, east, west)
    ensures r.Some? <==> TwoPointBack(north, south, east, west)
  {
    if north.Some? && HasSouth(north.value) && south.Some? && HasNorth(south.value) then
      Some(PipeVertical)
    else if north.Some? && HasSouth(north.value) && east.Some? && HasWest(east.value) then
      Some(BendNe)
    else if north.Some? && HasSouth(north.value) && west.Some? && HasEast(west.value) then
      Some(BendNw)
    else if south.Some? && HasNorth(south.value) && east.Some? && HasWest(east.value) then
      Some(BendSe)
    else if south.Some? && HasNorth(south.value) && west.Some? && HasEast(west.value) then
      Some(BendSw)
    else if east.Some? && HasWest(east.value) && west.Some? && HasEast(west.value) then
      Some(PipeHorizontal)
    else
      None
  }

  /** No shape tried before the chosen one fits, and none fits when there is no choice. */
  lemma {:induction false} StartShapeFirst(north: Option<TileType>, south: Option<TileType>,
                                           east: Option<TileType>, west: Option<TileType>)
    ensures var r := StartShape(north, south, east, west);
      && (r.Some? ==> r.value in Shapes && forall j :: 0 <= j < Rank(r.value) ==> !Fits(Shapes[j], north, south, east, west))
      && (r.None? ==> forall i :: 0 <= i < |Shapes| ==> !Fits(Shapes[i], north, south, east, west))
  {
  }

  type Grid = seq<seq<TileType>>

  /** Row and column; the walk may step off the grid on either side. */
  type Pos = (int, int)

  /** The tile at `p`, or `None` off the grid (`grid.get(..).and_then(..)`). */
  function Get(grid: Grid, p: Pos): (r: Option<TileType>)
    ensures r.Some? <==> 0 <= p.0 < |grid| && 0 <= p.1 < |grid[p.0]|
  {
    if 0 <= p.0 < |grid| && 0 <= p.1 < |grid[p.0]| then Some(grid[p.0][p.1]) else None
  }

  function Move(p: Pos, d: Direction): (q: Pos)
    ensures q != p
  {
    match d
    case North => (p.0 - 1, p.1)
    case South => (p.0 + 1, p.1)
    case East => (p.0, p.1 + 1)
    case West => (p.0, p.1 - 1)
  }

  /** Moves in two different directions end on different tiles. */
  lemma {:induction false} MoveApart(p: Pos, d: Direction, e: Direction)
    requires d != e
    ensures Move(p, d) != Move(p, e)
  {
  }

  /** No tile opens on three different sides. */
  lemma {:induction false} TwoOpenings(t: TileType, a: Direction, b: Direction, c: Direction)
    requires Opens(t, a) && Opens(t, b) && Opens(t, c)
    ensures a == b || b == c || a == c
  {
  }

  /** The lines read as tiles, character by character. */
  function Parse(lines: seq<string>): (grid: Grid)
    ensures |grid| == |lines|
    ensures forall i :: 0 <= i < |lines| ==> |grid[i]| == |lines[i]|
  {
    seq(|lines|, i requires 0 <= i < |lines| =>
      seq(|lines[i]|, j requires 0 <= j < |lines[i]| => FromChar(lines[i][j])))
  }

  /** The column of the last start tile in a row. */
  function LastStartIn(row: seq<TileType>): (r: Option<nat>)
    ensures r.Some? ==> r.value < |row| && row[r.value] == StartingPosition
    ensures r.Some? ==> forall j :: r.value < j < |row| ==> row[j] != StartingPosition
    ensures r.None? ==> forall j :: 0 <= j < |row| ==> row[j] != StartingPosition
    decreases |row|
  {
    if |row| == 0 then None
    else if row[|row| - 1] == StartingPosition then Some(|row| - 1)
    else LastStartIn(row[..|row| - 1])
  }

  /** Position `(i, j)` comes after `p` in row-major order. */
  predicate After(i: int, j: int, p: Pos) {
    i > p.0 || (i == p.0 && j > p.1)
  }

  /**
   * The start: each start tile met in row-major order overwrites the
   * remembered position, so the last one wins.
   */
  function FindStart(grid: Grid): (r: Option<Pos>)
    ensures r.Some? ==> Get(grid, r.value) == Some(StartingPosition)
    ensures r.Some? ==> forall i, j :: 0 <= i < |grid| && 0 <= j < |grid[i]| && After(i, j, r.value) ==>
      grid[i][j] != StartingPosition
    ensures r.None? ==> forall i, j :: 0 <= i < |grid| && 0 <= j < |grid[i]| ==> grid[i][j] != StartingPosition
    decreases |grid|
  {
    if |grid| == 0 then None
    else match LastStartIn(grid[|grid| - 1])
      case Some(j) => Some((|grid| - 1, j as int))
      case None => FindStart(grid[..|grid| - 1])
  }

  /**
   * The neighbour of the start on side `d`, looked up as the source does: the
   * east neighbour only while the start's column is inside the width of the
   * first row, and otherwise whatever the grid holds there.
   */
  function Neighbour(grid: Grid, start: Pos, d: Direction): (r: Option<TileType>)
    requires |grid| > 0
    ensures r.Some? ==> r == Get(grid, Move(start, d))
  {
    match d
    case North => if start.0 > 0 then Get(grid, Move(start, North)) else None
    case South => if start.0 < |grid| then Get(grid, Move(start, South)) else None
    case West => if start.1 > 0 then Get(grid, Move(start, West)) else None
    case East => if start.1 < |grid[0]| then Get(grid, Move(start, East)) else None
  }

  /** Two sides of `p` are pointed at by the neighbours the source looks up. */
  predicate Pointed(grid: Grid, p: Pos)
    requires |grid| > 0
  {
    TwoPointBack(Neighbour(grid, p, North), Neighbour(grid, p, South),
                 Neighbour(grid, p, East), Neighbour(grid, p, West))
  }

  /** The grid with the start replaced by its shape, ready to be walked. */
  datatype Setup = Setup(grid: Grid, start: Pos, shape: TileType)

  /**
   * Reading the lines, finding the start and giving it its shape; `None`
   * when there is no start or no shape fits it.
   */
  function Prepare(lines: seq<string>): (r: Option<Setup>)
    ensures r.None? <==> (FindStart(Parse(lines)).None? || !Pointed(Parse(lines), FindStart(Parse(lines)).value))
    ensures r.Some? ==> Pipe(r.value.shape) && r.value.start == FindStart(Parse(lines)).value
    ensures r.Some? ==> Get(r.value.grid, r.value.start) == Some(r.value.shape)
    ensures r.Some? ==> |r.value.grid| == |lines|
    ensures r.Some? ==> forall i :: 0 <= i < |lines| ==> |r.value.grid[i]| == |lines[i]|
    ensures r.Some? ==> forall i, j :: 0 <= i < |lines| && 0 <= j < |lines[i]| && (i, j) != r.value.start ==>
      r.value.grid[i][j] == FromChar(lines[i][j])
  {
    var grid := Parse(lines);
    match FindStart(grid)
    case None => None
    case Some(p) =>
      var shape := StartShape(Neighbour(grid, p, North), Neighbour(grid, p, South),
                              Neighbour(grid, p, East), Neighbour(grid, p, West));
      if shape.None? then None
      else Some(Setup(grid[p.0 := grid[p.0][p.1 := shape.value]], p, shape.value))
  }

  /** The walk leaves the `i`-th tile by another side than it came in. */
  predicate Turns(walk: seq<Pos>, i: int)
    requires 0 < i < |walk| - 1
  {
    walk[i - 1] != walk[i + 1]
  }

  /** The tile at `p` has an opening that leads to `q`. */
  predicate Leads(grid: Grid, p: Pos, q: Pos) {
    Get(grid, p).Some? && exists d :: Move(p, d) == q && Opens(Get(grid, p).value, d)
  }

  function Cells(grid: Grid): nat {
    if |grid| == 0 then 0 else |grid[0]| + Cells(grid[1..])
  }

  /**
   * A step budget for the walk, which the source's loop does not have: twice
   * the number of tiles, one step per way through each tile, and one more.
   */
  function Fuel(grid: Grid): nat {
    2 * Cells(grid) + 1
  }

  /**
   * The walk loop: `nodes` is the walk list so far and `entry` the side its
   * last tile is entered from. It stops on returning to the start; it fails
   * (`None`, which the caller turns into 0) on stepping off the grid or into a
   * tile that does not open toward the tile it came from.
   */
  function Trace(grid: Grid, start: Pos, nodes: seq<Pos>, entry: Direction, fuel: nat): (r: Option<seq<Pos>>)
    requires |nodes| > 0
    requires |nodes| > 1 ==> Move(nodes[|nodes| - 1], entry) == nodes[|nodes| - 2]
    ensures r.Some? ==> nodes <= r.value && |r.value| > 1 && r.value[|r.value| - 1] == start
    ensures r.Some? ==> forall i :: |nodes| <= i < |r.value| - 1 ==> r.value[i] != start
    ensures r.Some? ==> forall i :: |nodes| - 1 <= i < |r.value| - 1 ==> Leads(grid, r.value[i], r.value[i + 1])
    ensures r.Some? ==> forall i :: |nodes| - 1 <= i < |r.value| - 1 && 0 < i ==> Leads(grid, r.value[i], r.value[i - 1])
    ensures r.Some? ==> forall i :: |nodes| - 1 <= i < |r.value| - 1 && 0 < i ==> Turns(r.value, i)
    decreases fuel
  {
    var p := nodes[|nodes| - 1];
    if |nodes| > 1 && p == start then Some(nodes)
    else if fuel == 0 then None
    else match Get(grid, p)
      case None => None
      case Some(t) =>
        match Next(t, entry)
        case None => None
        case Some(e) =>
          NextOpenings(t, entry, e);
          MoveApart(p, entry, e);
          Trace(grid, start, nodes + [Move(p, e)], Opposite(e), fuel - 1)
  }

  /** The closed walk through the start, from the side `initial_direction` picks. */
  function ClosedLoop(s: Setup): Option<seq<Pos>> {
    Trace(s.grid, s.start, [s.start], InitialDirection(s.shape), Fuel(s.grid))
  }

  /** `half_size`. */
  function HalfSize(nodes: seq<Pos>): nat {
    if |nodes| == 0 then 0 else |nodes| / 2
  }

  /** The answer for a prepared grid: 0 when the walk breaks. */
  function HalfLoop(s: Setup): nat {
    match ClosedLoop(s)
    case None => 0
    case Some(nodes) => HalfSize(nodes)
  }

  /** `compute_half_loop_size` on the lines of `text`. */
  function HalfLoopSize(text: string): (n: nat)
    ensures Prepare(Lines(text)).None? ==> n == 0
    ensures Prepare(Lines(text)).Some? && ClosedLoop(Prepare(Lines(text)).value).None? ==> n == 0
    ensures Prepare(Lines(text)).Some? && ClosedLoop(Prepare(Lines(text)).value).Some? ==>
      n * 2 + 1 == |ClosedLoop(Prepare(Lines(text)).value).value|
  {
    match Prepare(Lines(text))
    case None => 0
    case Some(s) =>
      if ClosedLoop(s).Some? then HalfLoopIsHalfTheLoop(s); HalfLoop(s)
      else HalfLoop(s)
  }

  /**
   * The closed walk visits every tile once before it comes back to the
   * start: a tile met twice would have to be entered twice from one of its
   * two openings, and tracing that back reaches the start in the middle of
   * the walk.
   */
  lemma {:induction false} LoopVisitsOnce(s: Setup, a: nat, b: nat)
    requires ClosedLoop(s).Some?
    requires a < b < |ClosedLoop(s).value| - 1
    ensures ClosedLoop(s).value[a] != ClosedLoop(s).value[b]
    decreases b
  {
    var w := ClosedLoop(s).value;
    if a == 0 {
    } else if b == a + 1 {
      assert Leads(s.grid, w[a], w[b]);
    } else if b == a + 2 {
      assert Turns(w, a + 1);
    } else if w[a] == w[b] {
      var p := w[a];
      assert Leads(s.grid, w[a], w[a + 1]) && Leads(s.grid, w[a], w[a - 1]);
      assert Leads(s.grid, w[b], w[b - 1]) && Turns(w, a);
      var t := Get(s.grid, p).value;
      var x1 :| Move(p, x1) == w[a - 1] && Opens(t, x1);
      var x2 :| Move(p, x2) == w[a + 1] && Opens(t, x2);
      var y1 :| Move(p, y1) == w[b - 1] && Opens(t, y1);
      TwoOpenings(t, x1, x2, y1);
      if y1 == x1 {
        LoopVisitsOnce(s, a - 1, b - 1);
      } else {
        LoopVisitsOnce(s, a + 1, b - 1);
      }
    }
  }

  /** Squares of the grid alternate colour like a chessboard. */
  function Colour(p: Pos): int {
    (p.0 + p.1) % 2
  }

  lemma {:induction false} LeadsAlternates(grid: Grid, p: Pos, q: Pos)
    requires Leads(grid, p, q)
    ensures Colour(q) == (Colour(p) + 1) % 2
  {
    var d :| Move(p, d) == q && Opens(Get(grid, p).value, d);
  }

  /** Along a walk of linked tiles the colour flips at every step. */
  lemma {:induction false} WalkColours(grid: Grid, walk: seq<Pos>)
    requires |walk| > 0
    requires forall i :: 0 <= i < |walk| - 1 ==> Leads(grid, walk[i], walk[i + 1])
    ensures Colour(walk[|walk| - 1]) == (Colour(walk[0]) + |walk| - 1) % 2
    decreases |walk|
  {
    if |walk| > 1 {
      var front := walk[..|walk| - 1];
      WalkColours(grid, front);
      LeadsAlternates(grid, walk[|walk| - 2], walk[|walk| - 1]);
    }
  }

  /**
   * The closed walk returns to the start through linked tiles, so it takes
   * an even number of steps, and the answer is exactly half of them: the
   * distance along the loop to the farthest tile.
   */
  lemma {:induction false} HalfLoopIsHalfTheLoop(s: Setup)
    requires ClosedLoop(s).Some?
    ensures var nodes := ClosedLoop(s).value;
      && nodes[0] == nodes[|nodes| - 1] == s.start
      && (|nodes| - 1) % 2 == 0
      && HalfLoop(s) * 2 == |nodes| - 1
  {
    var nodes := ClosedLoop(s).value;
    assert [s.start] <= nodes;
    WalkColours(s.grid, nodes);
  }
}

/**
 * Day 10, part 2: the tiles enclosed by the loop, counted row by row with a
 * flag that flips at every loop tile with a south opening (`|`, `F`, `7`).
 */
module Day10Part2 {
  import opened Text
  import opened Day10Part1

  /** `can_contain_tiles_below`. */
  function CanContainTilesBelow(t: TileType): (r: bool)
    ensures r <==> Opens(t, South)
  {
    t == PipeVertical || t == BendSe || t == BendSw
  }

  /** The loop tiles with a south opening left of column `j` in row `i`. */
  function Crossings(grid: Grid, loop: seq<Pos>, i: nat, j: nat): nat
    requires i < |grid| && j <= |grid[i]|
  {
    if j == 0 then 0
    else (if (i, j - 1) in loop && HasSouth(grid[i][j - 1]) then 1 else 0) + Crossings(grid, loop, i, j - 1)
  }

  /**
   * The tile at `(i, j)` is inside the loop: it is not on it, and an odd
   * number of crossings lie to its left.
   */
  predicate Enclosed(grid: Grid, loop: seq<Pos>, i: nat, j: nat)
    requires i < |grid| && j < |grid[i]|
  {
    (i, j) !in loop && Crossings(grid, loop, i, j) % 2 == 1
  }

  /** The enclosed tiles of row `i` left of column `j`. */
  function EnclosedInRow(grid: Grid, loop: seq<Pos>, i: nat, j: nat): nat
    requires i < |grid| && j <= |grid[i]|
  {
    if j == 0 then 0
    else EnclosedInRow(grid, loop, i, j - 1) + (if Enclosed(grid, loop, i, j - 1) then 1 else 0)
  }

  /** The enclosed tiles of the first `n` rows. */
  function EnclosedInRows(grid: Grid, loop: seq<Pos>, n: nat): nat
    requires n <= |grid|
  {
    if n == 0 then 0 else EnclosedInRows(grid, loop, n - 1) + EnclosedInRow(grid, loop, n - 1, |grid[n - 1]|)
  }

  /** The scan of one row with the `inside_tile` flag. */
  method ScanRow(grid: Grid, loop: seq<Pos>, i: nat) returns (count: nat)
    requires i < |grid|
    ensures count == EnclosedInRow(grid, loop, i, |grid[i]|)
  {
    var inside := false;
    count := 0;
    for j := 0 to |grid[i]|
      invariant inside <==> Crossings(grid, loop, i, j) % 2 == 1
      invariant count == EnclosedInRow(grid, loop, i, j)
    {
      if (i, j) in loop {
        if CanContainTilesBelow(grid[i][j]) {
          inside := !inside;
        }
      } else if inside {
        count := count + 1;
      }
    }
  }

  /** The scan of every row. */
  method ScanRows(grid: Grid, loop: seq<Pos>) returns (count: nat)
    ensures count == EnclosedInRows(grid, loop, |grid|)
  {
    count := 0;
    for i := 0 to |grid|
      invariant count == EnclosedInRows(grid, loop, i)
    {
      var inRow := ScanRow(grid, loop, i);
      count := count + inRow;
    }
  }

  /** `count_tiles_contained_within_loop` on the lines of `text`. */
  method CountTilesContainedWithinLoop(text: string) returns (count: nat)
    ensures Prepare(Lines(text)).None? ==> count == 0
    ensures Prepare(Lines(text)).Some? && ClosedLoop(Prepare(Lines(text)).value).None? ==> count == 0
    ensures Prepare(Lines(text)).Some? && ClosedLoop(Prepare(Lines(text)).value).Some? ==>
      var s := Prepare(Lines(text)).value;
      count == EnclosedInRows(s.grid, ClosedLoop(s).value, |s.grid|)
  {
    var setup := Prepare(Lines(text));
    if setup.None? {
      return 0;
    }
    var s := setup.value;
    var loop := ClosedLoop(s);
    if loop.None? {
      return 0;
    }
    count := ScanRows(s.grid, loop.value);
  }

  /** A tile is counted only if some crossing lies to its left in its row. */
  lemma {:induction false} EnclosedHasCrossing(grid: Grid, loop: seq<Pos>, i: nat, j: nat)
    requires i < |grid| && j < |grid[i]|
    requires Enclosed(grid, loop, i, j)
    ensures exists k :: 0 <= k < j && (i, k) in loop && HasSouth(grid[i][k])
  {
    CrossingsWitness(grid, loop, i, j);
  }

  lemma {:induction false} CrossingsWitness(grid: Grid, loop: seq<Pos>, i: nat, j: nat)
    requires i < |grid| && j <= |grid[i]|
    ensures Crossings(grid, loop, i, j) > 0 ==> exists k :: 0 <= k < j && (i, k) in loop && HasSouth(grid[i][k])
    decreases j
  {
    if j > 0 && Crossings(grid, loop, i, j) > 0 {
      if (i, j - 1) in loop && HasSouth(grid[i][j - 1]) {
      } else {
        CrossingsWitness(grid, loop, i, j - 1);
      }
    }
  }

  // ---------------------------------------------------------------------------
  // Every row crosses the loop an even number of times
  // ---------------------------------------------------------------------------

  /**
   * The walk comes back into the start through one of the openings of the
   * shape the start was given (the walk itself only checks that it reached
   * the start).
   */
  predicate Closes(s: Setup) {
    && ClosedLoop(s).Some?
    && Leads(s.grid, ClosedLoop(s).value[0], ClosedLoop(s).value[|ClosedLoop(s).value| - 2])
  }

  /** `p` is a tile of row `r` whose pipe opens south. */
  predicate SouthAt(grid: Grid, p: Pos, r: int) {
    p.0 == r && Get(grid, p).Some? && HasSouth(Get(grid, p).value)
  }

  /** Step `t` of the walk goes down from row `r` to row `r + 1`. */
  predicate Down(walk: seq<Pos>, r: int, t: nat)
    requires t + 1 < |walk|
  {
    walk[t].0 == r && walk[t + 1].0 == r + 1
  }

  /** Step `t` of the walk goes up from row `r + 1` to row `r`. */
  predicate Up(walk: seq<Pos>, r: int, t: nat)
    requires t + 1 < |walk|
  {
    walk[t].0 == r + 1 && walk[t + 1].0 == r
  }

  /** The downward steps among the first `k`. */
  function Downs(walk: seq<Pos>, r: int, k: nat): nat
    requires k < |walk|
  {
    if k == 0 then 0 else Downs(walk, r, k - 1) + (if Down(walk, r, k - 1) then 1 else 0)
  }

  /** The upward steps among the first `k`. */
  function Ups(walk: seq<Pos>, r: int, k: nat): nat
    requires k < |walk|
  {
    if k == 0 then 0 else Ups(walk, r, k - 1) + (if Up(walk, r, k - 1) then 1 else 0)
  }

  /** The first `k` tiles of the walk that lie in row `r` and open south. */
  function Souths(grid: Grid, walk: seq<Pos>, r: int, k: nat): nat
    requires k <= |walk|
  {
    if k == 0 then 0 else Souths(grid, walk, r, k - 1) + (if SouthAt(grid, walk[k - 1], r) then 1 else 0)
  }

  /** Of those, the ones left of column `j`. */
  function SouthsLeft(grid: Grid, walk: seq<Pos>, r: int, j: int, k: nat): nat
    requires k <= |walk|
  {
    if k == 0 then 0
    else SouthsLeft(grid, walk, r, j, k - 1) + (if SouthAt(grid, walk[k - 1], r) && walk[k - 1].1 < j then 1 else 0)
  }

  /** How often `p` occurs among the first `k` tiles of the walk. */
  function Hits(walk: seq<Pos>, p: Pos, k: nat): nat
    requires k <= |walk|
  {
    if k == 0 then 0 else Hits(walk, p, k - 1) + (if walk[k - 1] == p then 1 else 0)
  }

  /** 1 on row `r` or above it, 0 below. */
  function Above(p: Pos, r: int): int {
    if p.0 <= r then 1 else 0
  }

  /** Only a step south adds one to the row. */
  lemma {:induction false} MoveRow(p: Pos, d: Direction)
    ensures Move(p, d).0 == p.0 + 1 <==> d == South
    ensures Move(p, d).0 == p.0 - 1 <==> d == North
    ensures Move(p, d).0 != p.0 ==> Vertical(d)
  {
  }

  /**
   * A walk along linked tiles crosses the line below row `r` upward as often
   * as downward, up to where it ends relative to where it began.
   */
  lemma {:induction false} Telescope(grid: Grid, walk: seq<Pos>, r: int, k: nat)
    requires k < |walk|
    requires forall t :: 0 <= t < k ==> Leads(grid, walk[t], walk[t + 1])
    ensures Ups(walk, r, k) - Downs(walk, r, k) == Above(walk[k], r) - Above(walk[0], r)
  {
    if k > 0 {
      Telescope(grid, walk, r, k - 1);
      var p := walk[k - 1];
      assert Leads(grid, p, walk[k]);
      var d :| Move(p, d) == walk[k] && Opens(Get(grid, p).value, d);
      MoveRow(p, d);
    }
  }

  /** A closed walk has at least four entries: the start, two tiles, the start. */
  lemma {:induction false} LoopLength(s: Setup)
    requires ClosedLoop(s).Some?
    ensures |ClosedLoop(s).value| >= 4
  {
    var w := ClosedLoop(s).value;
    assert Leads(s.grid, w[0], w[1]);
    assert |w| >= 3 && Turns(w, 1);
  }

  /** The entry before the `t`-th around the loop. */
  function Prev(t: nat, m: nat): nat
    requires t < m
  {
    if t == 0 then m - 1 else t - 1
  }

  /**
   * A loop tile of row `r` opens south exactly when the walk reaches it from
   * below or leaves it downward, and never both.
   */
  lemma {:induction false} SouthStep(s: Setup, r: int, t: nat)
    requires Closes(s)
    requires t < |ClosedLoop(s).value| - 1
    ensures var w := ClosedLoop(s).value;
      var m := |w| - 1;
      && (SouthAt(s.grid, w[t], r) <==> Down(w, r, t) || Up(w, r, Prev(t, m)))
      && !(Down(w, r, t) && Up(w, r, Prev(t, m)))
  {
    var w := ClosedLoop(s).value;
    var m := |w| - 1;
    LoopLength(s);
    var p := w[t];
    var before := w[Prev(t, m)];
    assert w[Prev(t, m) + 1] == p;
    if t == 0 {
      LoopVisitsOnce(s, 1, m - 1);
    } else {
      assert Turns(w, t);
    }
    assert Leads(s.grid, p, before) && Leads(s.grid, p, w[t + 1]) && before != w[t + 1];
    var tile := Get(s.grid, p).value;
    var x :| Move(p, x) == before && Opens(tile, x);
    var y :| Move(p, y) == w[t + 1] && Opens(tile, y);
    MoveRow(p, x);
    MoveRow(p, y);
    if HasSouth(tile) {
      TwoOpenings(tile, x, y, South);
    }
  }

  /** Counting the south-opening tiles step by step around the loop. */
  lemma {:induction false} SouthsSplit(s: Setup, r: int, k: nat)
    requires Closes(s)
    requires 1 <= k < |ClosedLoop(s).value|
    ensures var w := ClosedLoop(s).value;
      var m := |w| - 1;
      Souths(s.grid, w, r, k) == Downs(w, r, k) + Ups(w, r, k - 1) + (if Up(w, r, m - 1) then 1 else 0)
  {
    var w := ClosedLoop(s).value;
    LoopLength(s);
    SouthStep(s, r, k - 1);
    if k > 1 {
      SouthsSplit(s, r, k - 1);
    }
  }

  /** Before the walk returns to the start, each tile occurs at most once. */
  lemma {:induction false} HitsOnce(s: Setup, p: Pos, k: nat)
    requires ClosedLoop(s).Some?
    requires k < |ClosedLoop(s).value|
    ensures Hits(ClosedLoop(s).value, p, k) == if p in ClosedLoop(s).value[..k] then 1 else 0
  {
    var w := ClosedLoop(s).value;
    if k > 0 {
      HitsOnce(s, p, k - 1);
      assert w[..k] == w[..k - 1] + [w[k - 1]];
      if w[k - 1] == p {
        forall a | 0 <= a < k - 1
          ensures w[a] != p
        {
          LoopVisitsOnce(s, a, k - 1);
        }
        assert p !in w[..k - 1];
      }
    }
  }

  /** Moving the column bound one to the left drops the tile in that column. */
  lemma {:induction false} SouthsLeftStep(grid: Grid, walk: seq<Pos>, r: nat, j: nat, k: nat)
    requires r < |grid| && 1 <= j <= |grid[r]| && k <= |walk|
    ensures SouthsLeft(grid, walk, r, j, k)
      == SouthsLeft(grid, walk, r, j - 1, k) + (if HasSouth(grid[r][j - 1]) then Hits(walk, (r, j - 1), k) else 0)
  {
    if k > 0 {
      SouthsLeftStep(grid, walk, r, j, k - 1);
    }
  }

  /** No loop tile lies left of column 0. */
  lemma {:induction false} SouthsLeftNone(grid: Grid, walk: seq<Pos>, r: int, k: nat)
    requires k <= |walk|
    ensures SouthsLeft(grid, walk, r, 0, k) == 0
  {
    if k > 0 {
      SouthsLeftNone(grid, walk, r, k - 1);
    }
  }

  /** Every tile of row `r` lies left of the row's end. */
  lemma {:induction false} SouthsLeftAll(grid: Grid, walk: seq<Pos>, r: nat, k: nat)
    requires r < |grid| && k <= |walk|
    ensures SouthsLeft(grid, walk, r, |grid[r]|, k) == Souths(grid, walk, r, k)
  {
    if k > 0 {
      SouthsLeftAll(grid, walk, r, k - 1);
    }
  }

  /** The crossings left of column `j` are the walk's south-opening tiles there. */
  lemma {:induction false} CrossingsAreSouths(s: Setup, r: nat, j: nat)
    requires ClosedLoop(s).Some?
    requires r < |s.grid| && j <= |s.grid[r]|
    ensures var w := ClosedLoop(s).value;
      Crossings(s.grid, w, r, j) == SouthsLeft(s.grid, w, r, j, |w| - 1)
  {
    var w := ClosedLoop(s).value;
    var m := |w| - 1;
    if j == 0 {
      SouthsLeftNone(s.grid, w, r, m);
    } else {
      CrossingsAreSouths(s, r, j - 1);
      SouthsLeftStep(s.grid, w, r, j, m);
      HitsOnce(s, (r, j - 1), m);
      assert w == w[..m] + [w[0]];
    }
  }

  /**
   * On a loop that closes through the start's shape, every row holds an
   * even number of loop tiles that open south: each one is matched with the
   * step that crosses the line below the row, and a closed walk crosses
   * that line as often downward as upward.
   */
  lemma {:induction false} CrossingsEven(s: Setup, r: nat)
    requires Closes(s)
    requires r < |s.grid|
    ensures Crossings(s.grid, ClosedLoop(s).value, r, |s.grid[r]|) % 2 == 0
  {
    var w := ClosedLoop(s).value;
    var m := |w| - 1;
    LoopLength(s);
    CrossingsAreSouths(s, r, |s.grid[r]|);
    SouthsLeftAll(s.grid, w, r, m);
    SouthsSplit(s, r, m);
    Telescope(s.grid, w, r, m);
    assert Ups(w, r, m) == Ups(w, r, m - 1) + (if Up(w, r, m - 1) then 1 else 0);
  }

  /** The loop tiles with a south opening right of column `j` in row `i`. */
  function CrossingsRight(grid: Grid, loop: seq<Pos>, i: nat, j: nat): nat
    requires i < |grid| && j < |grid[i]|
    decreases |grid[i]| - j
  {
    if j + 1 == |grid[i]| then 0
    else (if (i, j + 1) in loop && HasSouth(grid[i][j + 1]) then 1 else 0) + CrossingsRight(grid, loop, i, j + 1)
  }

  /** The crossings left of and including column `j`, and right of it, make up the row. */
  lemma {:induction false} CrossingsSides(grid: Grid, loop: seq<Pos>, i: nat, j: nat)
    requires i < |grid| && j < |grid[i]|
    ensures Crossings(grid, loop, i, j + 1) + CrossingsRight(grid, loop, i, j) == Crossings(grid, loop, i, |grid[i]|)
    decreases |grid[i]| - j
  {
    if j + 1 < |grid[i]| {
      CrossingsSides(grid, loop, i, j + 1);
    }
  }

  /**
   * The scan counts the same tiles whichever side of the row it starts
   * from: a tile off the loop has an odd number of crossings to its left
   * exactly when it has an odd number to its right.
   */
  lemma {:induction false} EnclosedFromEitherSide(s: Setup, i: nat, j: nat)
    requires Closes(s)
    requires i < |s.grid| && j < |s.grid[i]|
    ensures var loop := ClosedLoop(s).value;
      Enclosed(s.grid, loop, i, j) <==> (i, j) !in loop && CrossingsRight(s.grid, loop, i, j) % 2 == 1
  {
    var loop := ClosedLoop(s).value;
    CrossingsEven(s, i);
    CrossingsSides(s.grid, loop, i, j);
  }
}
