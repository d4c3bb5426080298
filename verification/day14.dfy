/**
 * Day 14, part 1: rounded rocks ('O') roll north until they meet a cube
 * rock ('#') or the edge; the load is each rock's distance from the south
 * edge. A line (row or column) is tilted by splitting it on '#', rewriting
 * every section as its rocks followed (or preceded) by empty space, and
 * joining the sections again.
 */
module Day14Part1 {
  import opened Text

  const ROUND: char := 'O'
  const CUBE: char := '#'
  const EMPTY: char := '.'

  /** North and west roll rocks to the start of a line, south and east to its end. */
  datatype Toward = Start | End

  /** A '#'-free section rewritten with its rocks at one end and '.' elsewhere. */
  function RollSection(section: string, toward: Toward): (r: string)
    ensures |r| == |section|
    ensures Count(r, ROUND) == Count(section, ROUND)
    ensures forall k :: 0 <= k < |r| ==> r[k] == ROUND || r[k] == EMPTY
  {
    var rocks := Count(section, ROUND);
    var r := match toward
      case Start => Repeat(ROUND, rocks) + Repeat(EMPTY, |section| - rocks)
      case End => Repeat(EMPTY, |section| - rocks) + Repeat(ROUND, rocks);
    CountRepeat(ROUND, ROUND, rocks);
    CountRepeat(EMPTY, ROUND, |section| - rocks);
    CountAppend(Repeat(ROUND, rocks), Repeat(EMPTY, |section| - rocks), ROUND);
    CountAppend(Repeat(EMPTY, |section| - rocks), Repeat(ROUND, rocks), ROUND);
    r
  }

  /** A rolled section is already at rest. */
  lemma {:induction false} RollSectionIdempotent(section: string, toward: Toward)
    ensures RollSection(RollSection(section, toward), toward) == RollSection(section, toward)
  {
  }

  /** Rocks in a rolled section are contiguous at the chosen end. */
  lemma {:induction false} RollSectionShape(section: string, toward: Toward)
    ensures var r, rocks := RollSection(section, toward), Count(section, ROUND);
      forall k :: 0 <= k < |r| ==>
        (r[k] == ROUND <==> (if toward == Start then k < rocks else k >= |r| - rocks))
  {
  }

  function RollAll(sections: seq<string>, toward: Toward): (r: seq<string>)
    ensures |r| == |sections|
    ensures forall k :: 0 <= k < |r| ==> r[k] == RollSection(sections[k], toward)
  {
    seq(|sections|, k requires 0 <= k < |sections| => RollSection(sections[k], toward))
  }

  /** The tilt of one line: split on '#', roll every section, join on '#'. */
  function TiltLine(line: string, toward: Toward): string {
    Join(RollAll(Split(line, CUBE), toward), CUBE)
  }

  predicate Settled(line: string) {
    forall k :: 0 <= k < |line| ==> line[k] == ROUND || line[k] == EMPTY || line[k] == CUBE
  }

  /** Joining pieces of the same lengths and rock counts keeps length, '#' positions and rock count. */
  lemma {:induction false} JoinLike(ps: seq<string>, qs: seq<string>)
    requires |ps| == |qs|
    requires forall k :: 0 <= k < |ps| ==>
      |ps[k]| == |qs[k]| && CUBE !in ps[k] && CUBE !in qs[k] && Count(ps[k], ROUND) == Count(qs[k], ROUND)
    ensures |Join(ps, CUBE)| == |Join(qs, CUBE)|
    ensures forall i :: 0 <= i < |Join(ps, CUBE)| ==> (Join(ps, CUBE)[i] == CUBE <==> Join(qs, CUBE)[i] == CUBE)
    ensures Count(Join(ps, CUBE), ROUND) == Count(Join(qs, CUBE), ROUND)
  {
    if |ps| > 1 {
      JoinLike(ps[1..], qs[1..]);
      var a, b := Join(ps[1..], CUBE), Join(qs[1..], CUBE);
      assert Join(ps, CUBE) == ps[0] + [CUBE] + a;
      assert Join(qs, CUBE) == qs[0] + [CUBE] + b;
      CountAppend(ps[0] + [CUBE], a, ROUND);
      CountAppend(ps[0], [CUBE], ROUND);
      CountAppend(qs[0] + [CUBE], b, ROUND);
      CountAppend(qs[0], [CUBE], ROUND);
      forall i | 0 <= i < |Join(ps, CUBE)|
        ensures Join(ps, CUBE)[i] == CUBE <==> Join(qs, CUBE)[i] == CUBE
      {
        if i < |ps[0]| {
          assert ps[0][i] in ps[0] && qs[0][i] in qs[0];
        }
      }
    }
  }

  lemma {:induction false} JoinSettled(ps: seq<string>)
    requires forall k :: 0 <= k < |ps| ==> Settled(ps[k])
    ensures Settled(Join(ps, CUBE))
  {
    if |ps| > 1 {
      JoinSettled(ps[1..]);
      assert Join(ps, CUBE) == ps[0] + [CUBE] + Join(ps[1..], CUBE);
    }
  }

  /**
   * Tilting a line keeps its length, every '#' where it was and the number
   * of rocks; every other character becomes 'O' or '.'; the sections
   * between '#'s are the original sections rolled, so each keeps its rock
   * count; and tilting again changes nothing.
   */
  lemma {:induction false} TiltLineSpec(line: string, toward: Toward)
    ensures var r := TiltLine(line, toward);
      && |r| == |line|
      && (forall i :: 0 <= i < |line| ==> (r[i] == CUBE <==> line[i] == CUBE))
      && Count(r, ROUND) == Count(line, ROUND)
      && Settled(r)
      && Split(r, CUBE) == RollAll(Split(line, CUBE), toward)
      && TiltLine(r, toward) == r
  {
    var sections := Split(line, CUBE);
    var rolled := RollAll(sections, toward);
    var r := Join(rolled, CUBE);
    JoinSplit(line, CUBE);
    JoinLike(sections, rolled);
    forall k | 0 <= k < |rolled| ensures CUBE !in rolled[k] && Settled(rolled[k]) {
    }
    JoinSettled(rolled);
    SplitJoin(rolled, CUBE);
    forall k | 0 <= k < |rolled| ensures RollSection(rolled[k], toward) == rolled[k] {
      RollSectionIdempotent(sections[k], toward);
    }
    assert RollAll(rolled, toward) == rolled;
  }

  // ---------------------------------------------------------------------------
  // Grids
  // ---------------------------------------------------------------------------

  /** North (Start) or south (End) tilt of a grid, stated column by column. */
  function TiltColumns(grid: seq<string>, toward: Toward): (r: seq<string>)
    requires Rectangular(grid)
    ensures |r| == |grid| && Rectangular(r) && |r[0]| == |grid[0]|
  {
    forall j | 0 <= j < |grid[0]| ensures |TiltLine(Column(grid, j), toward)| == |grid| {
      TiltLineSpec(Column(grid, j), toward);
    }
    seq(|grid|, i requires 0 <= i < |grid| =>
      seq(|grid[0]|, j requires 0 <= j < |grid[0]| => TiltLine(Column(grid, j), toward)[i]))
  }

  /** West (Start) or east (End) tilt of a grid: every row tilted on its own. */
  function TiltRows(grid: seq<string>, toward: Toward): (r: seq<string>)
    ensures |r| == |grid|
    ensures forall i :: 0 <= i < |grid| ==> r[i] == TiltLine(grid[i], toward)
  {
    seq(|grid|, i requires 0 <= i < |grid| => TiltLine(grid[i], toward))
  }

  /**
   * A column tilt keeps the grid's shape and every '#', and each column
   * becomes the tilt of the original column, so it keeps its rock count.
   */
  lemma {:induction false} TiltColumnsSpec(grid: seq<string>, toward: Toward)
    requires Rectangular(grid)
    ensures var r := TiltColumns(grid, toward);
      && (forall i, j :: 0 <= i < |grid| && 0 <= j < |grid[0]| ==> (r[i][j] == CUBE <==> grid[i][j] == CUBE))
      && (forall j :: 0 <= j < |grid[0]| ==> Column(r, j) == TiltLine(Column(grid, j), toward))
      && (forall j :: 0 <= j < |grid[0]| ==> Count(Column(r, j), ROUND) == Count(Column(grid, j), ROUND))
  {
    var r := TiltColumns(grid, toward);
    forall j | 0 <= j < |grid[0]| ensures Column(r, j) == TiltLine(Column(grid, j), toward) {
      TiltLineSpec(Column(grid, j), toward);
    }
    forall j | 0 <= j < |grid[0]| {
      TiltLineSpec(Column(grid, j), toward);
    }
  }

  /** Tilting the same way twice is the same as tilting once. */
  lemma {:induction false} TiltColumnsIdempotent(grid: seq<string>, toward: Toward)
    requires Rectangular(grid)
    ensures TiltColumns(TiltColumns(grid, toward), toward) == TiltColumns(grid, toward)
  {
    var r := TiltColumns(grid, toward);
    var rr := TiltColumns(r, toward);
    TiltColumnsSpec(grid, toward);
    forall j | 0 <= j < |grid[0]| ensures TiltLine(Column(r, j), toward) == Column(r, j) {
      TiltLineSpec(Column(grid, j), toward);
    }
    forall i | 0 <= i < |grid| ensures rr[i] == r[i] {
      forall j | 0 <= j < |grid[0]| ensures rr[i][j] == r[i][j] {
        assert rr[i][j] == TiltLine(Column(r, j), toward)[i];
      }
    }
  }

  lemma {:induction false} TiltRowsIdempotent(grid: seq<string>, toward: Toward)
    ensures TiltRows(TiltRows(grid, toward), toward) == TiltRows(grid, toward)
  {
    forall i | 0 <= i < |grid| {
      TiltLineSpec(grid[i], toward);
    }
  }

  // ---------------------------------------------------------------------------
  // The tilt as written: columns read from the text by stepping
  // ---------------------------------------------------------------------------

  /** Appends `column[i]` to row `i`, as the `zip`/`push` step does; extra rows are dropped. */
  function Push(rows: seq<string>, column: string): (r: seq<string>)
    ensures |r| == if |rows| <= |column| then |rows| else |column|
  {
    var n := if |rows| <= |column| then |rows| else |column|;
    seq(n, i requires 0 <= i < n => rows[i] + [column[i]])
  }

  function Rebuild(rows: seq<string>, columns: seq<string>): seq<string>
    decreases |columns|
  {
    if |columns| == 0 then rows else Rebuild(Push(rows, columns[0]), columns[1..])
  }

  /**
   * `tilt` (north, and part 2's `tilt_south`): column `n` is every
   * `width`-th character of the text without line feeds, starting at `n`;
   * each column is tilted and the rows are rebuilt by appending one
   * character per column. On ragged text a short column ends the rows it
   * does not reach, as `zip` does.
   */
  function Tilt(text: string, toward: Toward): seq<string>
    requires |Lines(text)| > 0
  {
    var rows := Lines(text);
    var width := |rows[0]|;
    var flat := Remove(text, '\n');
    var columns := seq(width, n requires 0 <= n < width => TiltLine(StepBy(Skip(flat, n), width), toward));
    Rebuild(EmptyRows(|rows|), columns)
  }

  function EmptyRows(height: nat): (r: seq<string>)
    ensures |r| == height && forall i :: 0 <= i < height ==> r[i] == ""
  {
    seq(height, _ => "")
  }

  lemma {:induction false} RebuildColumns(rows: seq<string>, columns: seq<string>, height: nat)
    requires |rows| == height
    requires forall k :: 0 <= k < |columns| ==> |columns[k]| == height
    ensures var r := Rebuild(rows, columns);
      |r| == height && forall i :: 0 <= i < height ==>
        |r[i]| == |rows[i]| + |columns| && r[i][..|rows[i]|] == rows[i]
        && forall k :: 0 <= k < |columns| ==> r[i][|rows[i]| + k] == columns[k][i]
    decreases |columns|
  {
    if |columns| > 0 {
      var pushed := Push(rows, columns[0]);
      RebuildColumns(pushed, columns[1..], height);
      var r := Rebuild(rows, columns);
      forall i | 0 <= i < height
        ensures |r[i]| == |rows[i]| + |columns| && r[i][..|rows[i]|] == rows[i]
        ensures forall k :: 0 <= k < |columns| ==> r[i][|rows[i]| + k] == columns[k][i]
      {
        assert pushed[i] == rows[i] + [columns[0][i]];
        assert r[i][..|pushed[i]|] == pushed[i];
        assert r[i][..|rows[i]|] == pushed[i][..|rows[i]|];
        forall k | 0 <= k < |columns| ensures r[i][|rows[i]| + k] == columns[k][i] {
          if k == 0 {
            assert r[i][|rows[i]|] == pushed[i][|rows[i]|];
          } else {
            assert r[i][|pushed[i]| + (k - 1)] == columns[1..][k - 1][i];
          }
        }
      }
    }
  }

  /** Rebuilding from empty rows transposes the columns. */
  lemma {:induction false} RebuildTransposes(columns: seq<string>, height: nat)
    requires forall k :: 0 <= k < |columns| ==> |columns[k]| == height
    ensures var r := Rebuild(EmptyRows(height), columns);
      |r| == height && forall i :: 0 <= i < height ==>
        |r[i]| == |columns| && forall k :: 0 <= k < |columns| ==> r[i][k] == columns[k][i]
  {
    var empty := EmptyRows(height);
    RebuildColumns(empty, columns, height);
  }

  /** Every column of the grid tilted on its own. */
  function TiltedColumns(rows: seq<string>, toward: Toward): (r: seq<string>)
    requires Rectangular(rows)
    ensures |r| == |rows[0]| && forall n :: 0 <= n < |r| ==> |r[n]| == |rows|
  {
    var width := |rows[0]|;
    forall n | 0 <= n < width ensures |TiltLine(Column(rows, n), toward)| == |rows| {
      TiltLineSpec(Column(rows, n), toward);
    }
    seq(width, n requires 0 <= n < width => TiltLine(Column(rows, n), toward))
  }

  /** Rebuilding the rows from the tilted columns gives the column-wise tilt. */
  lemma {:induction false} RebuildTilted(rows: seq<string>, toward: Toward)
    requires Rectangular(rows)
    ensures Rebuild(EmptyRows(|rows|), TiltedColumns(rows, toward)) == TiltColumns(rows, toward)
  {
    var tilted := TiltedColumns(rows, toward);
    RebuildTransposes(tilted, |rows|);
    var r := Rebuild(EmptyRows(|rows|), tilted);
    var expected := TiltColumns(rows, toward);
    forall i | 0 <= i < |rows| ensures r[i] == expected[i] {
      forall k | 0 <= k < |rows[0]| ensures r[i][k] == expected[i][k] {
      }
    }
  }

  /** `tilt` as written computes the column-wise tilt of the text's grid. */
  lemma {:induction false} TiltIsTiltColumns(text: string, toward: Toward)
    requires GridText(text)
    ensures Tilt(text, toward) == TiltColumns(Lines(text), toward)
  {
    var rows := Lines(text);
    var width := |rows[0]|;
    var flat := Remove(text, '\n');
    var columns := seq(width, n requires 0 <= n < width => TiltLine(StepBy(Skip(flat, n), width), toward));
    var tilted := TiltedColumns(rows, toward);
    forall n | 0 <= n < width ensures columns[n] == tilted[n] {
      StepColumns(text, n);
    }
    assert columns == tilted;
    RebuildTilted(rows, toward);
  }

  // ---------------------------------------------------------------------------
  // Load
  // ---------------------------------------------------------------------------

  /** Σ over rows of (rocks in row i)·(height − i). */
  function Load(grid: seq<string>): nat {
    if |grid| == 0 then 0 else Count(grid[0], ROUND) * |grid| + Load(grid[1..])
  }

  /** The load of one rock: its distance, counted in rows, from beyond the south edge. */
  function ColumnLoad(column: string): nat {
    if |column| == 0 then 0
    else (if column[0] == ROUND then |column| else 0) + ColumnLoad(column[1..])
  }

  /** The row-wise load equals the sum of the column loads: each rock counts its distance past the south edge. */
  lemma {:induction false} LoadByColumns(grid: seq<string>)
    requires Rectangular(grid)
    ensures Load(grid) == ColumnsLoad(grid, |grid[0]|)
  {
    assert grid[0][..|grid[0]|] == grid[0];
    if |grid| == 1 {
      RowLoad(grid, |grid[0]|);
      assert grid[1..] == [];
    } else {
      var rest := grid[1..];
      assert rest[0] == grid[1];
      LoadByColumns(rest);
      LoadStep(grid, |grid[0]|);
    }
  }

  /** Σ of the column loads of the first `width` columns. */
  function ColumnsLoad(grid: seq<string>, width: nat): nat
    requires Rectangular(grid) && width <= |grid[0]|
  {
    if width == 0 then 0 else ColumnsLoad(grid, width - 1) + ColumnLoad(Column(grid, width - 1))
  }

  lemma {:induction false} CountPrefix(row: string, width: nat)
    requires 0 < width <= |row|
    ensures Count(row[..width], ROUND) == Count(row[..width - 1], ROUND) + (if row[width - 1] == ROUND then 1 else 0)
  {
    assert row[..width] == row[..width - 1] + [row[width - 1]];
    CountAppend(row[..width - 1], [row[width - 1]], ROUND);
    assert [row[width - 1]][1..] == [];
  }

  lemma {:induction false} RowLoad(grid: seq<string>, width: nat)
    requires Rectangular(grid) && |grid| == 1 && width <= |grid[0]|
    ensures ColumnsLoad(grid, width) == Count(grid[0][..width], ROUND)
  {
    if width > 0 {
      RowLoad(grid, width - 1);
      CountPrefix(grid[0], width);
      var c := Column(grid, width - 1);
      assert c[1..] == [];
      assert ColumnLoad(c) == if grid[0][width - 1] == ROUND then 1 else 0;
    } else {
      assert grid[0][..0] == [];
    }
  }

  /** A column's load is its first cell's share plus the load of the column below it. */
  lemma {:induction false} ColumnStep(grid: seq<string>, j: nat)
    requires Rectangular(grid) && |grid| > 1 && j < |grid[0]|
    ensures Rectangular(grid[1..])
    ensures ColumnLoad(Column(grid, j)) == (if grid[0][j] == ROUND then |grid| else 0) + ColumnLoad(Column(grid[1..], j))
  {
    assert grid[1..][0] == grid[1];
    assert Column(grid, j)[1..] == Column(grid[1..], j);
  }

  lemma {:induction false} MulStep(before: nat, after: nat, h: nat, share: nat)
    requires (after == before + 1 && share == h) || (after == before && share == 0)
    ensures after * h == before * h + share
  {
  }

  lemma {:induction false} LoadStep(grid: seq<string>, width: nat)
    requires Rectangular(grid) && |grid| > 1 && width <= |grid[0]|
    ensures Rectangular(grid[1..])
    ensures ColumnsLoad(grid, width) == ColumnsLoad(grid[1..], width) + Count(grid[0][..width], ROUND) * |grid|
  {
    var rest := grid[1..];
    assert rest[0] == grid[1];
    if width > 0 {
      LoadStep(grid, width - 1);
      CountPrefix(grid[0], width);
      ColumnStep(grid, width - 1);
      var before := Count(grid[0][..width - 1], ROUND);
      var after := Count(grid[0][..width], ROUND);
      var h := |grid|;
      var share := if grid[0][width - 1] == ROUND then h else 0;
      MulStep(before, after, h, share);
      calc {
        ColumnsLoad(grid, width);
        ColumnsLoad(grid, width - 1) + ColumnLoad(Column(grid, width - 1));
        ColumnsLoad(rest, width - 1) + before * h + share + ColumnLoad(Column(rest, width - 1));
        ColumnsLoad(rest, width) + after * h;
      }
    } else {
      assert grid[0][..0] == [];
    }
  }

  /** `compute_load`: the load after tilting north. */
  function ComputeLoad(text: string): nat
    requires |Lines(text)| > 0
  {
    Load(Tilt(text, Start))
  }

  /** The load after tilting north is the sum over columns of the load of each column tilted on its own. */
  lemma {:induction false} ComputeLoadByColumns(text: string)
    requires GridText(text)
    ensures var grid := Lines(text);
      ComputeLoad(text) == ColumnsLoad(TiltColumns(grid, Start), |grid[0]|)
      && forall j :: 0 <= j < |grid[0]| ==>
        Column(TiltColumns(grid, Start), j) == TiltLine(Column(grid, j), Start)
  {
    TiltIsTiltColumns(text, Start);
    LoadByColumns(TiltColumns(Lines(text), Start));
    TiltColumnsSpec(Lines(text), Start);
  }
}

/**
 * Day 14, part 2: spin cycles (north, west, south, east) repeated
 * 1 000 000 000 times, shortened by detecting a repeated grid.
 */
module Day14Part2 {
  import opened Text
  import opened Day14Part1

  const CYCLES: nat := 1_000_000_000

  /** A grid whose text form survives `join("\n")` followed by `lines()`. */
  predicate Clean(grid: seq<string>) {
    Rectangular(grid) && forall i :: 0 <= i < |grid| ==> '\n' !in grid[i] && '\r' !in grid[i]
  }

  function TiltNorth(text: string): seq<string>
    requires |Lines(text)| > 0
  {
    Tilt(text, Start)
  }

  function TiltSouth(text: string): seq<string>
    requires |Lines(text)| > 0
  {
    Tilt(text, End)
  }

  function TiltWest(text: string): seq<string> {
    TiltRows(Lines(text), Start)
  }

  function TiltEast(text: string): seq<string> {
    TiltRows(Lines(text), End)
  }

  lemma {:induction false} CleanText(grid: seq<string>)
    requires Clean(grid)
    ensures GridText(Join(grid, '\n')) && Lines(Join(grid, '\n')) == grid
  {
    LinesJoin(grid);
    JoinFree(grid, '\n', '\r');
  }

  lemma {:induction false} SettledClean(grid: seq<string>)
    requires Rectangular(grid) && forall i :: 0 <= i < |grid| ==> Settled(grid[i])
    ensures Clean(grid)
  {
    forall i | 0 <= i < |grid| ensures '\n' !in grid[i] && '\r' !in grid[i] {
      assert forall k :: 0 <= k < |grid[i]| ==> grid[i][k] != '\n' && grid[i][k] != '\r';
    }
  }

  lemma {:induction false} ColumnsSettled(grid: seq<string>, toward: Toward)
    requires Rectangular(grid)
    ensures forall i :: 0 <= i < |grid| ==> Settled(TiltColumns(grid, toward)[i])
  {
    var r := TiltColumns(grid, toward);
    forall i, j | 0 <= i < |grid| && 0 <= j < |grid[0]|
      ensures r[i][j] == ROUND || r[i][j] == EMPTY || r[i][j] == CUBE
    {
      TiltLineSpec(Column(grid, j), toward);
    }
  }

  lemma {:induction false} RowsSettled(grid: seq<string>, toward: Toward)
    requires Rectangular(grid)
    ensures Rectangular(TiltRows(grid, toward)) && |TiltRows(grid, toward)[0]| == |grid[0]|
    ensures forall i :: 0 <= i < |grid| ==> Settled(TiltRows(grid, toward)[i])
  {
    forall i | 0 <= i < |grid| {
      TiltLineSpec(grid[i], toward);
    }
  }

  /** The grid-level spin cycle: north, west, south, east. */
  function SpinGrid(grid: seq<string>): (r: seq<string>)
    requires Rectangular(grid)
    ensures Clean(r) && |r| == |grid| && |r[0]| == |grid[0]|
  {
    var north := TiltColumns(grid, Start);
    RowsSettled(north, Start);
    var west := TiltRows(north, Start);
    var south := TiltColumns(west, End);
    ColumnsSettled(west, End);
    RowsSettled(south, End);
    var east := TiltRows(south, End);
    SettledClean(east);
    east
  }

  /**
   * One iteration of `compute_load`'s loop as written: each tilt is applied
   * to the previous result joined with line feeds.
   */
  method Spin(grid: seq<string>) returns (r: seq<string>)
    requires Clean(grid)
    ensures r == SpinGrid(grid)
  {
    CleanText(grid);
    var north := TiltNorth(Join(grid, '\n'));
    TiltIsTiltColumns(Join(grid, '\n'), Start);
    ColumnsSettled(grid, Start);
    SettledClean(north);
    CleanText(north);
    var west := TiltWest(Join(north, '\n'));
    RowsSettled(north, Start);
    SettledClean(west);
    CleanText(west);
    var south := TiltSouth(Join(west, '\n'));
    TiltIsTiltColumns(Join(west, '\n'), End);
    ColumnsSettled(west, End);
    SettledClean(south);
    CleanText(south);
    r := TiltEast(Join(south, '\n'));
  }

  /** The loop's step on any grid: a spin cycle on clean grids, nothing otherwise. */
  function Step(grid: seq<string>): (r: seq<string>)
    ensures Clean(grid) ==> Clean(r)
  {
    if Rectangular(grid) then SpinGrid(grid) else grid
  }

  lemma {:induction false} StepClean(grid: seq<string>)
    requires Clean(grid)
    ensures Clean(Step(grid))
  {
  }

  /** `f` applied `k` times. */
  function Iterate<T>(f: T -> T, x: T, k: nat): T {
    if k == 0 then x else f(Iterate(f, x, k - 1))
  }

  lemma {:induction false} IterateAdd<T>(f: T -> T, x: T, a: nat, b: nat)
    ensures Iterate(f, x, a + b) == Iterate(f, Iterate(f, x, a), b)
  {
    if b > 0 {
      IterateAdd(f, x, a, b - 1);
    }
  }

  /** Once iterations `m` and `m + p` agree, the sequence repeats with period `p` from `m` on. */
  lemma {:induction false} Periodic<T>(f: T -> T, x: T, m: nat, p: nat, k: nat, j: nat)
    requires m <= k
    requires Iterate(f, x, m + p) == Iterate(f, x, m)
    ensures Iterate(f, x, k + j * p) == Iterate(f, x, k)
  {
    if j > 0 {
      Periodic(f, x, m, p, k, j - 1);
      IterateAdd(f, x, m, k - m);
      IterateAdd(f, x, m + p, k - m);
      assert Iterate(f, x, k + p) == Iterate(f, x, k) by {
        assert k + p == (m + p) + (k - m);
      }
      IterateAdd(f, x, k, (j - 1) * p);
      IterateAdd(f, x, k + p, (j - 1) * p);
      assert k + p + (j - 1) * p == k + j * p;
    }
  }

  lemma {:induction false} GridTextClean(text: string)
    requires GridText(text)
    ensures Clean(Lines(text))
  {
    forall i | 0 <= i < |Lines(text)| ensures '\r' !in Lines(text)[i] {
      LinesFrom(text, i);
    }
  }

  /** Clean grids with the same text are the same grid, so the text serves as the cache key. */
  lemma {:induction false} JoinInjective(a: seq<string>, b: seq<string>)
    requires Clean(a) && Clean(b) && Join(a, '\n') == Join(b, '\n')
    ensures a == b
  {
    CleanText(a);
    CleanText(b);
  }

  /**
   * When the state after `n + 1` steps equals the state after `m + 1`, and
   * `n − m` divides the steps still to go, the state after `n` steps is the
   * state after all of them.
   */
  lemma {:induction false} CycleFound<T>(f: T -> T, x: T, m: nat, n: nat, cycles: nat)
    requires m < n <= cycles
    requires Iterate(f, x, n + 1) == Iterate(f, x, m + 1)
    requires (cycles - n) % (n - m) == 0
    ensures Iterate(f, x, n) == Iterate(f, x, cycles)
  {
    assert (m + 1) + (n - m) == n + 1;
    var j := (cycles - n) / (n - m);
    Periodic(f, x, m + 1, n - m, n, j);
    assert n + j * (n - m) == cycles;
  }

  /**
   * The loop of `compute_load`, for any step `f` and any cache key that
   * tells apart the states satisfying an invariant the step keeps: steps
   * until the state after `n + 1` steps has the key of the state after an
   * earlier `m + 1` steps and `n − m` divides the steps still to go, and
   * then returns the state after `n` steps; otherwise runs all `cycles`
   * steps. Either way the result is the state after `cycles` steps.
   */
  method SkipCycles<T>(f: T -> T, valid: T -> bool, key: T -> string, start: T, cycles: nat) returns (r: T)
    requires valid(start) && forall y :: valid(y) ==> valid(f(y))
    requires forall a, b :: valid(a) && valid(b) && key(a) == key(b) ==> a == b
    ensures r == Iterate(f, start, cycles)
  {
    var cache: map<string, nat> := map[];
    var state := start;
    var lastCycle := start;  // only read once the cache is non-empty, so never this initial value
    var n := 0;
    var done := false;
    while n < cycles && !done
      invariant n <= cycles
      invariant !done ==> state == Iterate(f, start, n) && valid(state)
      invariant done ==> state == Iterate(f, start, cycles)
      invariant !done && n > 0 ==> lastCycle == state
      invariant forall k :: k in cache ==>
        cache[k] < n && valid(Iterate(f, start, cache[k] + 1)) && k == key(Iterate(f, start, cache[k] + 1))
      decreases cycles - n, if done then 0 else 1
    {
      state := f(state);
      var k := key(state);
      if k in cache {
        var m := cache[k];
        if (cycles - n) % (n - m) == 0 {
          CycleFound(f, start, m, n, cycles);
          state := lastCycle;
          done := true;
        }
      }
      if !done {
        lastCycle := state;
        cache := cache[k := n];
        n := n + 1;
      }
    }
    r := state;
  }

  function JoinLines(grid: seq<string>): string {
    Join(grid, '\n')
  }

  /**
   * `compute_load`: spins until a grid repeats an earlier one at a distance
   * that divides the remaining cycles, then takes the previous grid. The
   * load returned is that of the grid after all 1 000 000 000 cycles.
   */
  method ComputeLoad(text: string) returns (load: nat)
    requires GridText(text)
    ensures load == Load(Iterate(Step, Lines(text), CYCLES))
  {
    var start := Lines(text);
    GridTextClean(text);
    forall y | Clean(y) ensures Clean(Step(y)) {
      StepClean(y);
    }
    forall a, b | Clean(a) && Clean(b) && JoinLines(a) == JoinLines(b) ensures a == b {
      JoinInjective(a, b);
    }
    var grid := SkipCycles(Step, Clean, JoinLines, start, CYCLES);
    load := Load(grid);
  }

  /** A carriage return inside a line comes from the text. */
  lemma {:induction false} LinesFrom(text: string, i: nat)
    requires i < |Lines(text)| && '\r' !in text
    ensures '\r' !in Lines(text)[i]
  {
    LinesClean(text);
    SplitPiecesIn(text, '\n', i);
  }
}
