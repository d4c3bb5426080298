/**
 * Day 11, part 1: an image of the sky, '#' a galaxy. Every row and every
 * column without a galaxy counts twice, and the answer sums the Manhattan
 * distances between every pair of galaxies after that expansion.
 *
 * Both binaries run the same loops; they differ only in how much an empty
 * row or column adds (1 here, `expansion_rate - 1` in part 2), so the loops
 * are modelled once, parametrised by that amount (`extra`).
 */
module Day11Part1 {
  import opened Text

  /** A galaxy's position: row, then column (`(usize, usize)` in the source). */
  datatype Galaxy = Galaxy(row: nat, column: nat)

  function Min(a: nat, b: nat): nat {
    if a <= b then a else b
  }

  function AbsDiff(a: nat, b: nat): nat {
    if a > b then a - b else b - a
  }

  // ---------------------------------------------------------------------------
  // The galaxies as drawn
  // ---------------------------------------------------------------------------

  /** `line.match_indices('#')`: the columns of the line's galaxies, left to right. */
  function GalaxyColumns(line: string): seq<nat> {
    if |line| == 0 then []
    else GalaxyColumns(line[..|line| - 1]) + (if line[|line| - 1] == '#' then [|line| - 1] else [])
  }

  /** The columns are exactly the line's '#' positions, in increasing order. */
  lemma {:induction false} GalaxyColumnsSound(line: string)
    ensures forall k :: 0 <= k < |GalaxyColumns(line)| ==>
      GalaxyColumns(line)[k] < |line| && line[GalaxyColumns(line)[k]] == '#'
    ensures forall c :: 0 <= c < |line| && line[c] == '#' ==> c in GalaxyColumns(line)
    ensures forall k, l :: 0 <= k < l < |GalaxyColumns(line)| ==> GalaxyColumns(line)[k] < GalaxyColumns(line)[l]
  {
    if |line| > 0 {
      var last := |line| - 1;
      var init := line[..last];
      GalaxyColumnsSound(init);
      var before, tail := GalaxyColumns(init), if line[last] == '#' then [last] else [];
      assert GalaxyColumns(line) == before + tail;
      assert forall k :: 0 <= k < |before| ==> before[k] < last;
      forall c | 0 <= c < |line| && line[c] == '#'
        ensures c in GalaxyColumns(line)
      {
        if c < last {
          assert init[c] == line[c];
        }
      }
      forall k | 0 <= k < |GalaxyColumns(line)|
        ensures GalaxyColumns(line)[k] < |line| && line[GalaxyColumns(line)[k]] == '#'
      {
        if k < |before| {
          assert init[before[k]] == line[before[k]];
        }
      }
    }
  }

  /** A line has no galaxy exactly when it yields no column. */
  lemma GalaxyColumnsEmpty(line: string)
    ensures GalaxyColumns(line) == [] <==> '#' !in line
  {
    GalaxyColumnsSound(line);
    if '#' in line {
      var c :| 0 <= c < |line| && line[c] == '#';
    }
  }

  /** The galaxies of one row, at their drawn columns. */
  function RowGalaxies(row: nat, columns: seq<nat>): (r: seq<Galaxy>)
    ensures |r| == |columns|
    ensures forall k :: 0 <= k < |r| ==> r[k] == Galaxy(row, columns[k])
  {
    seq(|columns|, k requires 0 <= k < |columns| => Galaxy(row, columns[k]))
  }

  /** Every galaxy of the image, row by row and left to right within a row. */
  function Sky(lines: seq<string>): seq<Galaxy> {
    if |lines| == 0 then []
    else
      var last := |lines| - 1;
      Sky(lines[..last]) + RowGalaxies(last, GalaxyColumns(lines[last]))
  }

  /** Every galaxy stands on a '#' of the image. */
  lemma {:induction false} SkySound(lines: seq<string>)
    ensures forall k :: 0 <= k < |Sky(lines)| ==>
      Sky(lines)[k].row < |lines| && Sky(lines)[k].column < |lines[Sky(lines)[k].row]|
      && lines[Sky(lines)[k].row][Sky(lines)[k].column] == '#'
  {
    if |lines| > 0 {
      var last := |lines| - 1;
      SkySound(lines[..last]);
      GalaxyColumnsSound(lines[last]);
      var init, row := Sky(lines[..last]), RowGalaxies(last, GalaxyColumns(lines[last]));
      assert Sky(lines) == init + row;
      forall k | 0 <= k < |Sky(lines)|
        ensures Sky(lines)[k].row < |lines| && Sky(lines)[k].column < |lines[Sky(lines)[k].row]|
          && lines[Sky(lines)[k].row][Sky(lines)[k].column] == '#'
      {
        if k < |init| {
          assert Sky(lines)[k] == init[k];
          assert lines[..last][init[k].row] == lines[init[k].row];
        } else {
          var columns, j := GalaxyColumns(lines[last]), k - |init|;
          assert Sky(lines)[k] == row[j] == Galaxy(last, columns[j]);
          assert columns[j] < |lines[last]| && lines[last][columns[j]] == '#';
        }
      }
    }
  }

  /** The sky of one more line adds that line's galaxies after the others. */
  lemma SkyNext(lines: seq<string>, i: nat)
    requires i < |lines|
    ensures Sky(lines[..i + 1]) == Sky(lines[..i]) + RowGalaxies(i, GalaxyColumns(lines[i]))
  {
    var prefix := lines[..i + 1];
    assert prefix[..i] == lines[..i] && prefix[i] == lines[i];
  }

  /** Every '#' of the image is one of the galaxies. */
  lemma {:induction false} SkyComplete(lines: seq<string>, row: nat, column: nat)
    requires row < |lines| && column < |lines[row]| && lines[row][column] == '#'
    ensures Galaxy(row, column) in Sky(lines)
  {
    var last := |lines| - 1;
    if row < last {
      SkyComplete(lines[..last], row, column);
    } else {
      var columns := GalaxyColumns(lines[last]);
      GalaxyColumnsSound(lines[last]);
      var k :| 0 <= k < |columns| && columns[k] == column;
      assert RowGalaxies(last, columns)[k] == Galaxy(row, column);
    }
  }

  // ---------------------------------------------------------------------------
  // Expansion
  // ---------------------------------------------------------------------------

  /** How many of the first `r` lines hold no galaxy. */
  function RowGaps(lines: seq<string>, r: nat): nat {
    if r == 0 then 0
    else RowGaps(lines, r - 1) + (if r - 1 < |lines| && '#' !in lines[r - 1] then 1 else 0)
  }

  /** `galaxies.iter().any(|galaxy| galaxy.1 == column)` */
  predicate Occupied(galaxies: seq<Galaxy>, column: nat) {
    |galaxies| > 0 && (galaxies[0].column == column || Occupied(galaxies[1..], column))
  }

  /** Some galaxy stands in a column exactly when one of them has that column. */
  lemma {:induction false} OccupiedAt(galaxies: seq<Galaxy>, column: nat)
    ensures Occupied(galaxies, column) <==> exists k :: 0 <= k < |galaxies| && galaxies[k].column == column
  {
    if |galaxies| > 0 {
      OccupiedAt(galaxies[1..], column);
      if exists k :: 0 <= k < |galaxies| && galaxies[k].column == column {
        var k :| 0 <= k < |galaxies| && galaxies[k].column == column;
        if k > 0 {
          assert galaxies[1..][k - 1].column == column;
        }
      }
    }
  }

  /** No galaxy stands in column `c`. */
  predicate ColumnEmpty(galaxies: seq<Galaxy>, c: nat) {
    !Occupied(galaxies, c)
  }

  /** How many of the columns `0 .. n - 1` hold no galaxy. */
  function ColumnGaps(galaxies: seq<Galaxy>, n: nat): nat {
    if n == 0 then 0
    else ColumnGaps(galaxies, n - 1) + (if ColumnEmpty(galaxies, n - 1) then 1 else 0)
  }

  lemma {:induction false} RowGapsMonotone(lines: seq<string>, a: nat, b: nat)
    requires a <= b
    ensures RowGaps(lines, a) <= RowGaps(lines, b)
    decreases b - a
  {
    if a < b {
      RowGapsMonotone(lines, a, b - 1);
    }
  }

  lemma {:induction false} ColumnGapsMonotone(galaxies: seq<Galaxy>, a: nat, b: nat)
    requires a <= b
    ensures ColumnGaps(galaxies, a) <= ColumnGaps(galaxies, b)
    decreases b - a
  {
    if a < b {
      ColumnGapsMonotone(galaxies, a, b - 1);
    }
  }

  /**
   * What an expansion depends on: the image's lines (for empty rows), its
   * galaxies (for empty columns), the width of the first line (only columns
   * below it are checked) and what each empty row or column adds.
   */
  datatype Expansion = Expansion(lines: seq<string>, sky: seq<Galaxy>, width: nat, extra: nat)

  /** Where a galaxy lands: moved down by every empty row above it and right by every checked empty column left of it. */
  function Expand(g: Galaxy, x: Expansion): Galaxy {
    Galaxy(g.row + x.extra * RowGaps(x.lines, g.row),
           g.column + x.extra * ColumnGaps(x.sky, Min(g.column, x.width)))
  }

  /** Every galaxy expanded, in the same order. */
  function ExpandAll(galaxies: seq<Galaxy>, x: Expansion): (r: seq<Galaxy>)
    ensures |r| == |galaxies|
  {
    if |galaxies| == 0 then [] else [Expand(galaxies[0], x)] + ExpandAll(galaxies[1..], x)
  }

  lemma {:induction false} ExpandAllAt(galaxies: seq<Galaxy>, x: Expansion, k: nat)
    requires k < |galaxies|
    ensures ExpandAll(galaxies, x)[k] == Expand(galaxies[k], x)
  {
    if k > 0 {
      ExpandAllAt(galaxies[1..], x, k - 1);
    }
  }

  /** With nothing added, expansion moves nothing. */
  lemma {:induction false} ExpandNothing(galaxies: seq<Galaxy>, x: Expansion)
    requires x.extra == 0
    ensures ExpandAll(galaxies, x) == galaxies
  {
    if |galaxies| > 0 {
      ExpandNothing(galaxies[1..], x);
    }
  }

  // ---------------------------------------------------------------------------
  // Distances
  // ---------------------------------------------------------------------------

  /** Manhattan distance. */
  function Distance(a: Galaxy, b: Galaxy): nat {
    AbsDiff(a.row, b.row) + AbsDiff(a.column, b.column)
  }

  /** The distances from `g` to each of `others`, summed. */
  function DistancesFrom(g: Galaxy, others: seq<Galaxy>): nat {
    if |others| == 0 then 0 else Distance(g, others[0]) + DistancesFrom(g, others[1..])
  }

  /** Σ over pairs i < j of the distance between galaxies i and j (the `skip(index + 1)` flat map). */
  function PairSum(galaxies: seq<Galaxy>): nat {
    if |galaxies| == 0 then 0 else DistancesFrom(galaxies[0], galaxies[1..]) + PairSum(galaxies[1..])
  }

  /** How many empty rows and checked empty columns lie between two galaxies. */
  function GapsBetween(a: Galaxy, b: Galaxy, x: Expansion): nat {
    AbsDiff(RowGaps(x.lines, a.row), RowGaps(x.lines, b.row))
    + AbsDiff(ColumnGaps(x.sky, Min(a.column, x.width)), ColumnGaps(x.sky, Min(b.column, x.width)))
  }

  function GapsFrom(g: Galaxy, others: seq<Galaxy>, x: Expansion): nat {
    if |others| == 0 then 0 else GapsBetween(g, others[0], x) + GapsFrom(g, others[1..], x)
  }

  /** Σ over pairs i < j of the gaps between galaxies i and j. */
  function PairGaps(galaxies: seq<Galaxy>, x: Expansion): nat {
    if |galaxies| == 0 then 0 else GapsFrom(galaxies[0], galaxies[1..], x) + PairGaps(galaxies[1..], x)
  }

  /** Shifting two coordinates by amounts that grow with them widens their distance by the shifts' difference. */
  lemma ShiftedDiff(a: nat, b: nat, sa: nat, sb: nat, e: nat)
    requires a <= b ==> sa <= sb
    requires b <= a ==> sb <= sa
    ensures AbsDiff(a + e * sa, b + e * sb) == AbsDiff(a, b) + e * AbsDiff(sa, sb)
  {
    if a <= b {
      assert e * sb - e * sa == e * (sb - sa);
    } else {
      assert e * sa - e * sb == e * (sa - sb);
    }
  }

  /** Expanding two galaxies stretches their distance by `extra` per gap between them. */
  lemma ExpandDistance(a: Galaxy, b: Galaxy, x: Expansion)
    ensures Distance(Expand(a, x), Expand(b, x)) == Distance(a, b) + x.extra * GapsBetween(a, b, x)
  {
    var ra, rb := RowGaps(x.lines, a.row), RowGaps(x.lines, b.row);
    var ca, cb := Min(a.column, x.width), Min(b.column, x.width);
    if a.row <= b.row { RowGapsMonotone(x.lines, a.row, b.row); }
    if b.row <= a.row { RowGapsMonotone(x.lines, b.row, a.row); }
    if ca <= cb { ColumnGapsMonotone(x.sky, ca, cb); }
    if cb <= ca { ColumnGapsMonotone(x.sky, cb, ca); }
    ShiftedDiff(a.row, b.row, ra, rb, x.extra);
    ShiftedDiff(a.column, b.column, ColumnGaps(x.sky, ca), ColumnGaps(x.sky, cb), x.extra);
    Distribute(x.extra, AbsDiff(ra, rb), AbsDiff(ColumnGaps(x.sky, ca), ColumnGaps(x.sky, cb)));
  }

  lemma {:induction false} ExpandDistancesFrom(g: Galaxy, others: seq<Galaxy>, x: Expansion)
    ensures DistancesFrom(Expand(g, x), ExpandAll(others, x)) == DistancesFrom(g, others) + x.extra * GapsFrom(g, others, x)
  {
    if |others| > 0 {
      var moved := ExpandAll(others, x);
      assert moved[0] == Expand(others[0], x) && moved[1..] == ExpandAll(others[1..], x);
      ExpandDistancesFrom(g, others[1..], x);
      ExpandDistance(g, others[0], x);
      Distribute(x.extra, GapsBetween(g, others[0], x), GapsFrom(g, others[1..], x));
    }
  }

  /** The expanded pair sum is the drawn one plus `extra` for every gap between every pair. */
  lemma {:induction false} ExpandPairSum(galaxies: seq<Galaxy>, x: Expansion)
    ensures PairSum(ExpandAll(galaxies, x)) == PairSum(galaxies) + x.extra * PairGaps(galaxies, x)
  {
    if |galaxies| > 0 {
      var moved := ExpandAll(galaxies, x);
      assert moved[0] == Expand(galaxies[0], x) && moved[1..] == ExpandAll(galaxies[1..], x);
      ExpandPairSum(galaxies[1..], x);
      ExpandDistancesFrom(galaxies[0], galaxies[1..], x);
      Distribute(x.extra, GapsFrom(galaxies[0], galaxies[1..], x), PairGaps(galaxies[1..], x));
    }
  }

  lemma Distribute(e: nat, a: nat, b: nat)
    ensures e * a + e * b == e * (a + b)
  {
  }

  // ---------------------------------------------------------------------------
  // The source's loops
  // ---------------------------------------------------------------------------

  /** The galaxies moved down by the empty rows above them, as the row loop leaves them. */
  function RowShifted(galaxies: seq<Galaxy>, lines: seq<string>, extra: nat): (r: seq<Galaxy>)
    ensures |r| == |galaxies|
  {
    seq(|galaxies|, k requires 0 <= k < |galaxies| =>
      Galaxy(galaxies[k].row + extra * RowGaps(lines, galaxies[k].row), galaxies[k].column))
  }

  /** The galaxies moved right by the empty columns below `n` that lie left of them. */
  function ColumnShifted(galaxies: seq<Galaxy>, n: nat, extra: nat): (r: seq<Galaxy>)
    ensures |r| == |galaxies|
  {
    seq(|galaxies|, k requires 0 <= k < |galaxies| =>
      Galaxy(galaxies[k].row, galaxies[k].column + extra * ColumnGaps(galaxies, Min(galaxies[k].column, n))))
  }

  /**
   * The row loop of `sum_galaxy_pair_distances`: an empty line adds `extra`
   * to the offset, every other line pushes its galaxies at the offset row.
   */
  method ScanRows(lines: seq<string>, extra: nat) returns (galaxies: seq<Galaxy>)
    ensures galaxies == RowShifted(Sky(lines), lines, extra)
  {
    galaxies := [];
    var offset := 0;
    for i := 0 to |lines|
      invariant offset == extra * RowGaps(lines, i)
      invariant galaxies == RowShifted(Sky(lines[..i]), lines, extra)
    {
      var columns := GalaxyColumns(lines[i]);
      RowStep(lines, i, extra);
      if |columns| == 0 {
        assert extra * (RowGaps(lines, i) + 1) == offset + extra;
        offset := offset + extra;
      } else {
        galaxies := PushRow(galaxies, i + offset, columns);
      }
    }
    assert lines[..|lines|] == lines;
  }

  /** Pushes a row's galaxies, left to right, after the others. */
  method PushRow(galaxies: seq<Galaxy>, row: nat, columns: seq<nat>) returns (pushed: seq<Galaxy>)
    ensures pushed == galaxies + RowGalaxies(row, columns)
  {
    pushed := galaxies;
    for j := 0 to |columns|
      invariant pushed == galaxies + RowGalaxies(row, columns[..j])
    {
      RowGalaxiesPush(row, columns, j);
      pushed := pushed + [Galaxy(row, columns[j])];
    }
    assert columns[..|columns|] == columns;
  }

  /** One more line: its galaxies are pushed at its row moved down by the empty rows above it, and an empty line is one more gap. */
  lemma RowStep(lines: seq<string>, i: nat, extra: nat)
    requires i < |lines|
    ensures RowGaps(lines, i + 1) == RowGaps(lines, i) + (if |GalaxyColumns(lines[i])| == 0 then 1 else 0)
    ensures RowShifted(Sky(lines[..i + 1]), lines, extra)
      == RowShifted(Sky(lines[..i]), lines, extra) + RowGalaxies(i + extra * RowGaps(lines, i), GalaxyColumns(lines[i]))
  {
    GalaxyColumnsEmpty(lines[i]);
    SkyNext(lines, i);
    var columns := GalaxyColumns(lines[i]);
    var a, b := Sky(lines[..i]), RowGalaxies(i, columns);
    RowShiftedAppend(a, b, lines, extra);
    RowShiftedRow(i, columns, lines, extra);
  }

  lemma RowGalaxiesPush(row: nat, columns: seq<nat>, j: nat)
    requires j < |columns|
    ensures RowGalaxies(row, columns[..j + 1]) == RowGalaxies(row, columns[..j]) + [Galaxy(row, columns[j])]
  {
    var longer, shorter := RowGalaxies(row, columns[..j + 1]), RowGalaxies(row, columns[..j]);
    assert forall k :: 0 <= k < j ==> longer[k] == shorter[k];
  }

  lemma RowShiftedAppend(a: seq<Galaxy>, b: seq<Galaxy>, lines: seq<string>, extra: nat)
    ensures RowShifted(a + b, lines, extra) == RowShifted(a, lines, extra) + RowShifted(b, lines, extra)
  {
    var whole, left, right := RowShifted(a + b, lines, extra), RowShifted(a, lines, extra), RowShifted(b, lines, extra);
    forall k | 0 <= k < |whole|
      ensures whole[k] == (left + right)[k]
    {
      if k >= |a| {
        assert (a + b)[k] == b[k - |a|];
      }
    }
  }

  lemma RowShiftedRow(row: nat, columns: seq<nat>, lines: seq<string>, extra: nat)
    ensures RowShifted(RowGalaxies(row, columns), lines, extra) == RowGalaxies(row + extra * RowGaps(lines, row), columns)
  {
  }

  /** Where the loop checks column `n`, exactly the galaxies drawn in column `n` stand; those drawn right of it stand right of it. */
  lemma ColumnAt(galaxies: seq<Galaxy>, n: nat, extra: nat, k: nat)
    requires k < |galaxies|
    ensures ColumnShifted(galaxies, n, extra)[k].column == n + extra * ColumnGaps(galaxies, n) <==> galaxies[k].column == n
    ensures ColumnShifted(galaxies, n, extra)[k].column > n + extra * ColumnGaps(galaxies, n) <==> galaxies[k].column > n
  {
    var c := galaxies[k].column;
    if c < n {
      ColumnGapsMonotone(galaxies, c, n);
      MultiplyMonotone(extra, ColumnGaps(galaxies, c), ColumnGaps(galaxies, n));
    }
  }

  /** Checking column `n` moves a galaxy by `extra` exactly when it lies right of an empty column `n`. */
  lemma ColumnNext(galaxies: seq<Galaxy>, n: nat, extra: nat, k: nat)
    requires k < |galaxies|
    ensures ColumnShifted(galaxies, n + 1, extra)[k].column
      == ColumnShifted(galaxies, n, extra)[k].column + (if galaxies[k].column > n && ColumnEmpty(galaxies, n) then extra else 0)
  {
    if galaxies[k].column > n {
      var g := ColumnGaps(galaxies, n);
      assert ColumnGaps(galaxies, n + 1) == g + (if ColumnEmpty(galaxies, n) then 1 else 0);
      assert extra * (g + 1) == extra * g + extra;
    }
  }

  lemma MultiplyMonotone(e: nat, a: nat, b: nat)
    requires a <= b
    ensures e * a <= e * b
  {
    assert e * b - e * a == e * (b - a);
  }

  /** A column the loop checks is occupied exactly when some galaxy was drawn there. */
  lemma ColumnOccupied(galaxies: seq<Galaxy>, n: nat, extra: nat, current: seq<Galaxy>, check: nat)
    requires current == ColumnShifted(galaxies, n, extra) && check == n + extra * ColumnGaps(galaxies, n)
    ensures Occupied(current, check) <==> !ColumnEmpty(galaxies, n)
  {
    OccupiedAt(current, check);
    OccupiedAt(galaxies, n);
    if Occupied(current, check) {
      var k :| 0 <= k < |current| && current[k].column == check;
      ColumnAt(galaxies, n, extra, k);
      assert galaxies[k].column == n;
    }
    if !ColumnEmpty(galaxies, n) {
      var k :| 0 <= k < |galaxies| && galaxies[k].column == n;
      ColumnAt(galaxies, n, extra, k);
      assert current[k].column == check;
    }
  }

  /** Every galaxy right of column `check` moved `extra` further right. */
  function MoveRight(galaxies: seq<Galaxy>, check: nat, extra: nat): (r: seq<Galaxy>)
    ensures |r| == |galaxies|
  {
    seq(|galaxies|, k requires 0 <= k < |galaxies| =>
      if galaxies[k].column > check then Galaxy(galaxies[k].row, galaxies[k].column + extra) else galaxies[k])
  }

  /** Past an empty column, the galaxies right of where it now stands move. */
  lemma PassEmptyColumn(galaxies: seq<Galaxy>, n: nat, extra: nat)
    requires ColumnEmpty(galaxies, n)
    ensures ColumnShifted(galaxies, n + 1, extra)
      == MoveRight(ColumnShifted(galaxies, n, extra), n + extra * ColumnGaps(galaxies, n), extra)
  {
    var next := ColumnShifted(galaxies, n + 1, extra);
    var moved := MoveRight(ColumnShifted(galaxies, n, extra), n + extra * ColumnGaps(galaxies, n), extra);
    forall k | 0 <= k < |galaxies|
      ensures next[k] == moved[k]
    {
      ColumnAt(galaxies, n, extra, k);
      ColumnNext(galaxies, n, extra, k);
    }
  }

  /** Past an occupied column, nothing moves. */
  lemma PassOccupiedColumn(galaxies: seq<Galaxy>, n: nat, extra: nat)
    requires !ColumnEmpty(galaxies, n)
    ensures ColumnShifted(galaxies, n + 1, extra) == ColumnShifted(galaxies, n, extra)
  {
    var next, current := ColumnShifted(galaxies, n + 1, extra), ColumnShifted(galaxies, n, extra);
    forall k | 0 <= k < |galaxies|
      ensures next[k] == current[k]
    {
      ColumnNext(galaxies, n, extra, k);
    }
  }

  /**
   * The column loop: for every column below the first line's width, look at
   * where that column has moved to; if no galaxy stands there, add `extra`
   * to the offset and move every galaxy right of it.
   */
  method ExpandColumns(galaxies: seq<Galaxy>, width: nat, extra: nat) returns (expanded: seq<Galaxy>)
    ensures expanded == ColumnShifted(galaxies, width, extra)
  {
    expanded := galaxies;
    var offset := 0;
    assert expanded == ColumnShifted(galaxies, 0, extra);
    for n := 0 to width
      invariant offset == extra * ColumnGaps(galaxies, n)
      invariant expanded == ColumnShifted(galaxies, n, extra)
    {
      var check := n + offset;
      ColumnOccupied(galaxies, n, extra, expanded, check);
      if !Occupied(expanded, check) {
        PassEmptyColumn(galaxies, n, extra);
        offset := offset + extra;
        expanded := MoveRight(expanded, check, extra);
      } else {
        PassOccupiedColumn(galaxies, n, extra);
      }
    }
  }

  /** Shifting rows leaves columns, and so the empty columns, as they were. */
  lemma RowShiftedColumns(sky: seq<Galaxy>, lines: seq<string>, extra: nat, n: nat)
    ensures ColumnGaps(RowShifted(sky, lines, extra), n) == ColumnGaps(sky, n)
  {
    var shifted := RowShifted(sky, lines, extra);
    if n > 0 {
      RowShiftedColumns(sky, lines, extra, n - 1);
      assert ColumnEmpty(shifted, n - 1) <==> ColumnEmpty(sky, n - 1) by {
        OccupiedAt(shifted, n - 1);
        OccupiedAt(sky, n - 1);
        assert forall k :: 0 <= k < |sky| ==> shifted[k].column == sky[k].column;
      }
    }
  }

  /** The two loops together expand every galaxy as `Expand` says. */
  lemma BothShifts(lines: seq<string>, width: nat, extra: nat)
    ensures ColumnShifted(RowShifted(Sky(lines), lines, extra), width, extra)
      == ExpandAll(Sky(lines), Expansion(lines, Sky(lines), width, extra))
  {
    var sky := Sky(lines);
    var x := Expansion(lines, sky, width, extra);
    var rows := RowShifted(sky, lines, extra);
    forall k | 0 <= k < |sky|
      ensures ColumnShifted(rows, width, extra)[k] == ExpandAll(sky, x)[k]
    {
      ExpandAllAt(sky, x, k);
      RowShiftedColumns(sky, lines, extra, Min(sky[k].column, width));
    }
  }

  // ---------------------------------------------------------------------------
  // The answer
  // ---------------------------------------------------------------------------

  /** The expansion of the image: the width is that of the text before the first line feed. */
  function ExpansionOf(input: string, extra: nat): Expansion
    requires '\n' in input
  {
    var lines := Lines(input);
    Expansion(lines, Sky(lines), |SplitOnce(input, '\n').value.0|, extra)
  }

  /** Σ over pairs of the expanded galaxies' distances; 0 when the text has no line feed. */
  function PairDistances(input: string, extra: nat): nat {
    if '\n' !in input then 0
    else PairSum(ExpandAll(Sky(Lines(input)), ExpansionOf(input, extra)))
  }

  /** The body of `sum_galaxy_pair_distances`, each empty row or column adding `extra`. */
  method SumExpandedPairDistances(input: string, extra: nat) returns (sum: nat)
    ensures '\n' !in input ==> sum == 0
    ensures '\n' in input ==> sum == PairSum(ExpandAll(Sky(Lines(input)), ExpansionOf(input, extra)))
  {
    match SplitOnce(input, '\n')
    case None =>
      return 0;
    case Some((firstLine, _)) =>
      var lines := Lines(input);
      var galaxies := ScanRows(lines, extra);
      galaxies := ExpandColumns(galaxies, |firstLine|, extra);
      BothShifts(lines, |firstLine|, extra);
      sum := PairSum(galaxies);
  }

  /** The answer is the unexpanded pair sum plus `extra` for every gap between every pair. */
  lemma PairDistancesLinear(input: string, extra: nat)
    requires '\n' in input
    ensures PairDistances(input, extra)
      == PairSum(Sky(Lines(input))) + extra * PairGaps(Sky(Lines(input)), ExpansionOf(input, extra))
  {
    ExpandPairSum(Sky(Lines(input)), ExpansionOf(input, extra));
  }

  /** How much the answer grows per unit of `extra` does not depend on `extra`. */
  lemma PairGapsFixed(input: string, e1: nat, e2: nat)
    requires '\n' in input
    ensures PairGaps(Sky(Lines(input)), ExpansionOf(input, e1)) == PairGaps(Sky(Lines(input)), ExpansionOf(input, e2))
  {
    PairGapsExtra(Sky(Lines(input)), ExpansionOf(input, e1), e2);
  }

  lemma {:induction false} PairGapsExtra(galaxies: seq<Galaxy>, x: Expansion, e: nat)
    ensures PairGaps(galaxies, x) == PairGaps(galaxies, x.(extra := e))
  {
    if |galaxies| > 0 {
      PairGapsExtra(galaxies[1..], x, e);
      GapsFromExtra(galaxies[0], galaxies[1..], x, e);
    }
  }

  lemma {:induction false} GapsFromExtra(g: Galaxy, others: seq<Galaxy>, x: Expansion, e: nat)
    ensures GapsFrom(g, others, x) == GapsFrom(g, others, x.(extra := e))
  {
    if |others| > 0 {
      GapsFromExtra(g, others[1..], x, e);
    }
  }

  /** Part 1: every empty row and column counts twice. */
  method SumGalaxyPairDistances(input: string) returns (sum: nat)
    ensures '\n' !in input ==> sum == 0
    ensures '\n' in input ==> sum == PairSum(Sky(Lines(input))) + PairGaps(Sky(Lines(input)), ExpansionOf(input, 1))
  {
    sum := SumExpandedPairDistances(input, 1);
    if '\n' in input {
      ExpandPairSum(Sky(Lines(input)), ExpansionOf(input, 1));
    }
  }
}

/**
 * Day 11, part 2: every empty row and column is replaced by
 * `expansion_rate` of them.
 */
module Day11Part2 {
  import opened Text
  import opened Day11Part1

  /**
   * `sum_galaxy_pair_distances(lines, expansion_rate)`: the rate must be at
   * least 1, since the source subtracts 1 from it in a usize. The answer is
   * the unexpanded pair sum plus `rate - 1` times a count that does not
   * depend on the rate.
   */
  method SumGalaxyPairDistances(input: string, expansionRate: nat) returns (sum: nat)
    requires expansionRate >= 1
    ensures '\n' !in input ==> sum == 0
    ensures '\n' in input ==>
      sum == PairSum(Sky(Lines(input))) + (expansionRate - 1) * PairGaps(Sky(Lines(input)), ExpansionOf(input, 1))
  {
    sum := SumExpandedPairDistances(input, expansionRate - 1);
    if '\n' in input {
      var sky, x := Sky(Lines(input)), ExpansionOf(input, expansionRate - 1);
      ExpandPairSum(sky, x);
      PairGapsExtra(sky, x, 1);
    }
  }
}
