/**
 * Day 03, part 1: an engine schematic is a grid of digits, '.' and symbols.
 * The numbers are the maximal runs of digits within a row; a number is a
 * part number when a symbol lies next to one of its digits (diagonals
 * count). The answer sums the part numbers.
 *
 * The source reads the grid character by character, keeping the number being
 * read and, for the character just read, what its neighbourhood says. That
 * scanner is modelled once, generic in what a digit's neighbourhood
 * contributes: "is there a symbol" here, "where is the gear" in part 2.
 */
module Day03Part1 {
  import opened Text

  /** A symbol is any character that is neither '.' nor a digit. */
  predicate Symbol(ch: char) {
    ch != '.' && !IsDigit(ch)
  }

  /** A number being read: its digits and what its digits' neighbourhoods said so far. */
  datatype Number<A> = Number(digits: string, note: A)

  /**
   * What each position contributes: `note(r, c)` is computed after reading
   * the character at row `r`, column `c`; `merge` folds it into the current
   * number's own note; a number starts out with `none`.
   */
  datatype Notes<!A> = Notes(none: A, merge: (A, A) -> A, note: (nat, nat) -> A)

  /** The scanner's state: the numbers pushed, the number being read, the last position's note. */
  datatype Scan<A> = Scan(parts: seq<Number<A>>, current: Option<Number<A>>, pending: A)

  /** The last position's note joins the number being read. */
  function Absorb<A>(s: Scan<A>, k: Notes<A>): Scan<A> {
    match s.current
    case None => s
    case Some(n) => s.(current := Some(n.(note := k.merge(n.note, s.pending))))
  }

  /** The number being read, if it has digits, is pushed and forgotten. */
  function Close<A>(s: Scan<A>): Scan<A> {
    match s.current
    case None => s
    case Some(n) => s.(parts := s.parts + (if |n.digits| > 0 then [n] else []), current := None)
  }

  /** One character at row `r`, column `c`: a digit extends or starts a number, anything else ends it. */
  function Step<A>(s: Scan<A>, ch: char, r: nat, c: nat, k: Notes<A>): Scan<A> {
    var t := Absorb(s, k);
    var u :=
      if IsDigit(ch) then
        t.(current := Some(match t.current
                           case Some(n) => n.(digits := n.digits + [ch])
                           case None => Number([ch], k.none)))
      else Close(t);
    u.(pending := k.note(r, c))
  }

  /** The state after the first `c` characters of row `r`. */
  function ScanRow<A>(row: string, r: nat, c: nat, start: Scan<A>, k: Notes<A>): Scan<A>
    requires c <= |row|
  {
    if c == 0 then start else Step(ScanRow(row, r, c - 1, start, k), row[c - 1], r, c - 1, k)
  }

  /** The state after the first `n` rows; a row starts by pushing the number left open, with its last note. */
  function ScanRows<A>(grid: seq<string>, n: nat, k: Notes<A>): Scan<A>
    requires n <= |grid|
  {
    if n == 0 then Scan([], None, k.none)
    else ScanRow(grid[n - 1], n - 1, |grid[n - 1]|, Close(Absorb(ScanRows(grid, n - 1, k), k)), k)
  }

  /** The numbers as the source ends: the number still open is pushed without its last digit's note. */
  function Scanned<A>(grid: seq<string>, k: Notes<A>): seq<Number<A>> {
    Close(ScanRows(grid, |grid|, k)).parts
  }

  /** The numbers when the end is treated like a row start. */
  function ScannedCorrected<A>(grid: seq<string>, k: Notes<A>): seq<Number<A>> {
    Close(Absorb(ScanRows(grid, |grid|, k), k)).parts
  }

  // ---------------------------------------------------------------------------
  // Reference: the maximal digit runs of each row
  // ---------------------------------------------------------------------------

  /** Where the run of digits that ends just before column `c` starts (`c` when there is none). */
  function RunStart(row: string, c: nat): (s: nat)
    requires c <= |row|
    ensures s <= c
    ensures forall m :: s <= m < c ==> IsDigit(row[m])
    ensures s == 0 || !IsDigit(row[s - 1])
    ensures c > 0 && IsDigit(row[c - 1]) ==> s < c
  {
    if c > 0 && IsDigit(row[c - 1]) then RunStart(row, c - 1) else c
  }

  /** The notes of the digits at columns `s .. e - 1` of row `r`, folded from the left. */
  function NoteOf<A>(k: Notes<A>, r: nat, s: nat, e: nat): A
    requires s <= e
    decreases e - s
  {
    if s == e then k.none else k.merge(NoteOf(k, r, s, e - 1), k.note(r, e - 1))
  }

  /** The number made of the digits at columns `s .. e - 1`, with all their notes. */
  function RunNumber<A>(row: string, r: nat, s: nat, e: nat, k: Notes<A>): Number<A>
    requires s <= e <= |row|
  {
    Number(row[s..e], NoteOf(k, r, s, e))
  }

  /** The numbers of row `r` that a character before column `c` ends. */
  function Closed<A>(row: string, r: nat, c: nat, k: Notes<A>): seq<Number<A>>
    requires c <= |row|
  {
    if c < 2 then []
    else
      Closed(row, r, c - 1, k)
      + (if !IsDigit(row[c - 1]) && IsDigit(row[c - 2]) then [RunNumber(row, r, RunStart(row, c - 1), c - 1, k)] else [])
  }

  /** The number still being read after `c` characters, before its last digit's note joins. */
  function Open<A>(row: string, r: nat, c: nat, k: Notes<A>): Option<Number<A>>
    requires c <= |row|
  {
    if c > 0 && IsDigit(row[c - 1]) then
      var s := RunStart(row, c);
      Some(Number(row[s..c], NoteOf(k, r, s, c - 1)))
    else None
  }

  /** All numbers of a row, left to right, each with every digit's note. */
  function RowNumbers<A>(row: string, r: nat, k: Notes<A>): seq<Number<A>> {
    Closed(row, r, |row|, k)
    + (if |row| > 0 && IsDigit(row[|row| - 1]) then [RunNumber(row, r, RunStart(row, |row|), |row|, k)] else [])
  }

  /** All numbers of the first `n` rows. */
  function Numbers<A>(grid: seq<string>, n: nat, k: Notes<A>): seq<Number<A>>
    requires n <= |grid|
  {
    if n == 0 then [] else Numbers(grid, n - 1, k) + RowNumbers(grid[n - 1], n - 1, k)
  }

  /** A maximal run of digits at columns `s .. e - 1`. */
  predicate IsRun(row: string, s: nat, e: nat) {
    s < e <= |row|
    && (forall m :: s <= m < e ==> IsDigit(row[m]))
    && (s == 0 || !IsDigit(row[s - 1]))
    && (e == |row| || !IsDigit(row[e]))
  }

  /** Every number of a row is a maximal digit run carrying the notes of all its digits. */
  lemma {:induction false} RowNumbersAreRuns<A>(row: string, r: nat, k: Notes<A>, c: nat)
    requires c <= |row|
    ensures forall n :: n in Closed(row, r, c, k) ==>
      exists s: nat, e: nat :: IsRun(row, s, e) && e < c && n == RunNumber(row, r, s, e, k)
  {
    if c >= 2 {
      RowNumbersAreRuns(row, r, k, c - 1);
      if !IsDigit(row[c - 1]) && IsDigit(row[c - 2]) {
        var s := RunStart(row, c - 1);
        assert IsRun(row, s, c - 1);
      }
    }
  }

  // ---------------------------------------------------------------------------
  // The scanner reads exactly the reference numbers
  // ---------------------------------------------------------------------------

  /** After `c` characters of a row: the numbers ended so far, the one open, the last note. */
  lemma {:induction false} ScanRowState<A>(row: string, r: nat, c: nat, start: Scan<A>, k: Notes<A>)
    requires c <= |row| && start.current.None?
    ensures ScanRow(row, r, c, start, k).parts == start.parts + Closed(row, r, c, k)
    ensures ScanRow(row, r, c, start, k).current == Open(row, r, c, k)
    ensures c > 0 ==> ScanRow(row, r, c, start, k).pending == k.note(r, c - 1)
  {
    if c > 0 {
      var p := c - 1;
      ScanRowState(row, r, p, start, k);
      var prev := ScanRow(row, r, p, start, k);
      var t := Absorb(prev, k);
      if p > 0 && IsDigit(row[p - 1]) {
        var s := RunStart(row, p);
        assert t.current == Some(Number(row[s..p], NoteOf(k, r, s, p)));
        if IsDigit(row[p]) {
          assert row[s..p] + [row[p]] == row[s..c];
        } else {
          assert Closed(row, r, c, k) == Closed(row, r, p, k) + [RunNumber(row, r, s, p, k)];
        }
      } else {
        assert t == prev;
        if IsDigit(row[p]) {
          assert RunStart(row, c) == p;
          assert row[p..c] == [row[p]];
        }
      }
    }
  }

  /** After `n` rows: the numbers of the rows before the last, those ended in the last, the one open. */
  lemma {:induction false} ScanRowsState<A>(grid: seq<string>, n: nat, k: Notes<A>)
    requires 0 < n <= |grid|
    ensures ScanRows(grid, n, k).parts == Numbers(grid, n - 1, k) + Closed(grid[n - 1], n - 1, |grid[n - 1]|, k)
    ensures ScanRows(grid, n, k).current == Open(grid[n - 1], n - 1, |grid[n - 1]|, k)
    ensures |grid[n - 1]| > 0 ==> ScanRows(grid, n, k).pending == k.note(n - 1, |grid[n - 1]| - 1)
  {
    var start := Close(Absorb(ScanRows(grid, n - 1, k), k));
    if n > 1 {
      ScanRowsState(grid, n - 1, k);
      FinishRow(grid[n - 2], n - 2, ScanRows(grid, n - 1, k), Numbers(grid, n - 2, k), k);
    }
    ScanRowState(grid[n - 1], n - 1, |grid[n - 1]|, start, k);
  }

  /** Pushing the open number with its last note completes the row's numbers. */
  lemma FinishRow<A>(row: string, r: nat, s: Scan<A>, before: seq<Number<A>>, k: Notes<A>)
    requires s.parts == before + Closed(row, r, |row|, k)
    requires s.current == Open(row, r, |row|, k)
    requires |row| > 0 ==> s.pending == k.note(r, |row| - 1)
    ensures Close(Absorb(s, k)).parts == before + RowNumbers(row, r, k)
    ensures Close(Absorb(s, k)).current.None?
  {
    if |row| > 0 && IsDigit(row[|row| - 1]) {
      var st := RunStart(row, |row|);
      assert Absorb(s, k).current == Some(RunNumber(row, r, st, |row|, k));
    }
  }

  /** With the end treated like a row start, the scanner pushes exactly the reference numbers. */
  lemma ScannedCorrectedIsNumbers<A>(grid: seq<string>, k: Notes<A>)
    ensures ScannedCorrected(grid, k) == Numbers(grid, |grid|, k)
  {
    if |grid| > 0 {
      ScanRowsState(grid, |grid|, k);
      FinishRow(grid[|grid| - 1], |grid| - 1, ScanRows(grid, |grid|, k), Numbers(grid, |grid| - 1, k), k);
    }
  }

  /** As written, the last number of the grid misses its last digit's note; every other number is exact. */
  lemma ScannedIsNumbers<A>(grid: seq<string>, k: Notes<A>)
    requires |grid| > 0
    ensures var row := grid[|grid| - 1];
      Scanned(grid, k) == Numbers(grid, |grid| - 1, k) + Closed(row, |grid| - 1, |row|, k)
        + (match Open(row, |grid| - 1, |row|, k) case Some(n) => [n] case None => [])
  {
    ScanRowsState(grid, |grid|, k);
  }

  // ---------------------------------------------------------------------------
  // Part 1's notes: is a symbol next to the digit
  // ---------------------------------------------------------------------------

  /** `lines_to_check`: the row above (if any), the row, the row below. */
  function Window(r: nat): seq<nat> {
    if r == 0 then [0, 1] else [r - 1, r, r + 1]
  }

  /** `columns_to_check` as written: it compares the row index, not the column, with the line length. */
  function ColumnsAsWritten(r: nat, c: nat, lineLength: nat): seq<nat> {
    if c == 0 then [0, 1] else if r == lineLength then [c - 1, c] else [c - 1, c, c + 1]
  }

  /** The column window the comparison evidently meant: left, same, right. */
  function Columns(c: nat): seq<nat> {
    if c == 0 then [0, 1] else [c - 1, c, c + 1]
  }

  /** The length of the first row. */
  function LineLength(grid: seq<string>): nat {
    if |grid| == 0 then 0 else |grid[0]|
  }

  /** A symbol at one of the given rows and columns that exist (`get` skips the others). */
  predicate SymbolAmong(grid: seq<string>, rows: seq<nat>, cols: seq<nat>) {
    exists i, j :: i in rows && j in cols && i < |grid| && j < |grid[i]| && Symbol(grid[i][j])
  }

  /** Within one row and one column of a position. */
  predicate Near(r: nat, c: nat, i: nat, j: nat) {
    r <= i + 1 && i <= r + 1 && c <= j + 1 && j <= c + 1
  }

  /** The corrected window finds a symbol exactly when one is next to the position, diagonals included. */
  lemma SymbolAmongNear(grid: seq<string>, r: nat, c: nat)
    ensures SymbolAmong(grid, Window(r), Columns(c))
      <==> exists i: nat, j: nat :: Near(r, c, i, j) && i < |grid| && j < |grid[i]| && Symbol(grid[i][j])
  {
    if exists i: nat, j: nat :: Near(r, c, i, j) && i < |grid| && j < |grid[i]| && Symbol(grid[i][j]) {
      var i: nat, j: nat :| Near(r, c, i, j) && i < |grid| && j < |grid[i]| && Symbol(grid[i][j]);
      assert i == r + 1 || i == r || (r > 0 && i == r - 1);
      assert j == c + 1 || j == c || (c > 0 && j == c - 1);
      assert i in Window(r) && j in Columns(c);
    }
  }

  function Either(a: bool, b: bool): bool {
    a || b
  }

  /** Part 1 as written: `number_would_be_valid`, OR-ed into the number. */
  function Validity(grid: seq<string>): Notes<bool> {
    Notes(false, Either, (r: nat, c: nat) => SymbolAmong(grid, Window(r), ColumnsAsWritten(r, c, LineLength(grid))))
  }

  /** Part 1 with the column window corrected. */
  function ValidityCorrected(grid: seq<string>): Notes<bool> {
    Notes(false, Either, (r: nat, c: nat) => SymbolAmong(grid, Window(r), Columns(c)))
  }

  /** OR-ing notes: a number is valid exactly when one of its digits' notes is. */
  lemma {:induction false} NoteOfAny(k: Notes<bool>, r: nat, s: nat, e: nat)
    requires s <= e
    requires !k.none && k.merge == Either
    ensures NoteOf(k, r, s, e) <==> exists m :: s <= m < e && k.note(r, m)
    decreases e - s
  {
    if s < e {
      NoteOfAny(k, r, s, e - 1);
    }
  }

  /** With the corrected window and end, a number is a part number exactly when a symbol is next to one of its digits. */
  lemma CorrectedValid(grid: seq<string>, r: nat, s: nat, e: nat)
    requires s <= e
    ensures NoteOf(ValidityCorrected(grid), r, s, e)
      <==> exists m: nat, i: nat, j: nat :: s <= m < e && Near(r, m, i, j) && i < |grid| && j < |grid[i]| && Symbol(grid[i][j])
  {
    var k := ValidityCorrected(grid);
    NoteOfAny(k, r, s, e);
    forall m | s <= m < e
      ensures k.note(r, m) <==> exists i: nat, j: nat :: Near(r, m, i, j) && i < |grid| && j < |grid[i]| && Symbol(grid[i][j])
    {
      SymbolAmongNear(grid, r, m);
    }
  }

  // ---------------------------------------------------------------------------
  // The answer
  // ---------------------------------------------------------------------------

  /** What a number adds: its value when it is valid and its digits parse as `u32`. */
  function PartValue(n: Number<bool>): nat {
    if n.note then (match ParseUnsigned(n.digits, U32_MAX) case Some(v) => v case None => 0) else 0
  }

  function PartSum(parts: seq<Number<bool>>): nat {
    if |parts| == 0 then 0 else PartSum(parts[..|parts| - 1]) + PartValue(parts[|parts| - 1])
  }

  lemma PartSumSnoc(parts: seq<Number<bool>>, i: nat)
    requires i < |parts|
    ensures PartSum(parts[..i + 1]) == PartSum(parts[..i]) + PartValue(parts[i])
  {
    assert parts[..i + 1][..i] == parts[..i];
  }

  lemma {:induction false} PartSumAppend(a: seq<Number<bool>>, b: seq<Number<bool>>)
    ensures PartSum(a + b) == PartSum(a) + PartSum(b)
    decreases |b|
  {
    if |b| == 0 {
      assert a + b == a;
    } else {
      assert (a + b)[..|a + b| - 1] == a + b[..|b| - 1];
      PartSumAppend(a, b[..|b| - 1]);
    }
  }

  /** `calculate_engine_part_id_sum`: the schematic is read row by row, character by character. */
  method EnginePartSum(grid: seq<string>) returns (total: nat)
    requires PartSum(Scanned(grid, Validity(grid))) <= U32_MAX
    ensures total == PartSum(Scanned(grid, Validity(grid)))
  {
    if |grid| == 0 {
      return 0;
    }
    var k := Validity(grid);
    var s: Scan<bool> := Scan([], None, false);
    for r := 0 to |grid|
      invariant s == ScanRows(grid, r, k)
    {
      s := Close(Absorb(s, k));
      ghost var start := s;
      for c := 0 to |grid[r]|
        invariant s == ScanRow(grid[r], r, c, start, k)
      {
        s := Step(s, grid[r][c], r, c, k);
      }
    }
    var parts := Close(s).parts;
    total := 0;
    for i := 0 to |parts|
      invariant total == PartSum(parts[..i])
    {
      PartSumSnoc(parts, i);
      total := total + PartValue(parts[i]);
    }
    assert parts[..|parts|] == parts;
  }

  // ---------------------------------------------------------------------------
  // Where the source departs from the puzzle
  // ---------------------------------------------------------------------------

  /** The grid's one number, 1, with a '*' to its right on the row whose index is the line length. */
  function RightOfRowThree(): seq<string> {
    ["...", "...", "...", ".1*"]
  }

  /** The digit 1 at row 3, column 1: the window as written misses the '*', the corrected one finds it. */
  lemma RowThreeNotes()
    ensures !Validity(RightOfRowThree()).note(3, 1)
    ensures ValidityCorrected(RightOfRowThree()).note(3, 1)
  {
    var grid := RightOfRowThree();
    assert LineLength(grid) == 3;
    assert ColumnsAsWritten(3, 1, 3) == [0, 1];
    assert forall i, j :: i in Window(3) && j in [0, 1] && i < |grid| && j < |grid[i]| ==> !Symbol(grid[i][j]);
    assert 3 in Window(3) && 2 in Columns(1) && Symbol(grid[3][2]);
  }

  /** The scanner, either way, finds the one number 1 of that grid and nothing else. */
  lemma RowThreeNumbers<A>(k: Notes<A>)
    ensures Scanned(RightOfRowThree(), k) == [Number("1", k.merge(k.none, k.note(3, 1)))]
    ensures ScannedCorrected(RightOfRowThree(), k) == [Number("1", k.merge(k.none, k.note(3, 1)))]
  {
    var grid := RightOfRowThree();
    NoNumbers(grid, 3, k);
    var row := grid[3];
    assert RunStart(row, 2) == 1;
    assert Closed(row, 3, 2, k) == [];
    assert Closed(row, 3, 3, k) == [RunNumber(row, 3, 1, 2, k)];
    ScannedIsNumbers(grid, k);
    ScannedCorrectedIsNumbers(grid, k);
    assert row[1..2] == "1";
  }

  /** As written, the window at row 3 of a 3-wide grid omits the right column, so 1 is not counted. */
  lemma ColumnsSkipRight()
    ensures PartSum(Scanned(RightOfRowThree(), Validity(RightOfRowThree()))) == 0
    ensures PartSum(ScannedCorrected(RightOfRowThree(), ValidityCorrected(RightOfRowThree()))) == 1
  {
    RowThreeScanned();
    PartSumOne("1", false);
    PartSumOne("1", true);
  }

  /** The number 1 as read by either scanner, with its validity. */
  lemma RowThreeScanned()
    ensures Scanned(RightOfRowThree(), Validity(RightOfRowThree())) == [Number("1", false)]
    ensures ScannedCorrected(RightOfRowThree(), ValidityCorrected(RightOfRowThree())) == [Number("1", true)]
  {
    var grid := RightOfRowThree();
    var k, kc := Validity(grid), ValidityCorrected(grid);
    RowThreeNotes();
    RowThreeNumbers(k);
    RowThreeNumbers(kc);
  }

  /** The sum over a single number "1". */
  lemma PartSumOne(digits: string, valid: bool)
    requires digits == "1"
    ensures PartSum([Number(digits, valid)]) == if valid then 1 else 0
  {
    assert Decimal(1) == "1";
    ParseDecimal(1, U32_MAX);
    assert [Number(digits, valid)][..0] == [];
  }

  /** Rows of dots hold no number. */
  lemma {:induction false} NoNumbers<A>(grid: seq<string>, n: nat, k: Notes<A>)
    requires n <= |grid|
    requires forall i :: 0 <= i < n ==> grid[i] == "..."
    ensures Numbers(grid, n, k) == []
  {
    if n > 0 {
      NoNumbers(grid, n - 1, k);
      var row := grid[n - 1];
      assert !IsDigit(row[0]) && !IsDigit(row[1]) && !IsDigit(row[2]);
      assert Closed(row, n - 1, 2, k) == [];
      assert Closed(row, n - 1, 3, k) == [];
    }
  }

  /** A symbol then a digit closing the schematic. */
  function SymbolThenDigit(): seq<string> {
    ["*1"]
  }

  /** As written, the number open at the end never takes in its last digit's note, so 1 is not counted. */
  lemma LastDigitSkipped()
    ensures PartSum(Scanned(SymbolThenDigit(), Validity(SymbolThenDigit()))) == 0
    ensures PartSum(ScannedCorrected(SymbolThenDigit(), ValidityCorrected(SymbolThenDigit()))) == 1
  {
    var grid := SymbolThenDigit();
    var k, kc := Validity(grid), ValidityCorrected(grid);
    var row := grid[0];
    assert RunStart(row, 2) == 1;
    ScannedIsNumbers(grid, k);
    ScannedCorrectedIsNumbers(grid, kc);
    assert Closed(row, 0, 2, kc) == [];
    assert 0 in Window(0) && 0 in Columns(1) && Symbol(grid[0][0]);
    assert SymbolAmong(grid, Window(0), Columns(1));
    assert row[1..2] == "1";
    assert Numbers(grid, 1, kc) == [RunNumber(row, 0, 1, 2, kc)];
    assert Scanned(grid, k) == [Number("1", false)];
    assert ScannedCorrected(grid, kc) == [Number("1", true)];
    PartSumOne("1", false);
    PartSumOne("1", true);
  }
}

/**
 * Day 03, part 2: a gear is a '*'; each number remembers the first gear found
 * next to one of its digits. A gear with exactly two numbers contributes
 * their product, the gear ratio, and the answer sums the ratios.
 */
module Day03Part2 {
  import opened Text
  import opened Day03Part1

  /** A (row, column) position in the schematic. */
  type Position = (nat, nat)

  /** Whether the schematic holds a '*' at row `i`, column `j`. */
  predicate StarAt(grid: seq<string>, i: nat, j: nat) {
    i < |grid| && j < |grid[i]| && grid[i][j] == '*'
  }

  /** The first of `cols` where row `i` holds a '*': the inner loop stops at it. */
  function StarIn(grid: seq<string>, i: nat, cols: seq<nat>): (r: Option<Position>)
    ensures r.Some? ==> r.value.0 == i && r.value.1 in cols && StarAt(grid, i, r.value.1)
    ensures r.None? <==> forall j :: j in cols ==> !StarAt(grid, i, j)
  {
    if |cols| == 0 then None
    else if StarAt(grid, i, cols[0]) then Some((i, cols[0]))
    else StarIn(grid, i, cols[1..])
  }

  /** `current_gear`: a later row overwrites an earlier one, so the last row holding a '*' wins. */
  function GearAmong(grid: seq<string>, rows: seq<nat>, cols: seq<nat>): (r: Option<Position>)
    ensures r.Some? ==> r.value.0 in rows && r.value.1 in cols && StarAt(grid, r.value.0, r.value.1)
  {
    if |rows| == 0 then None
    else
      var last := StarIn(grid, rows[|rows| - 1], cols);
      if last.Some? then last else GearAmong(grid, rows[..|rows| - 1], cols)
  }

  /** Strictly increasing, as the row and column windows are. */
  predicate Increasing(xs: seq<nat>) {
    forall a, b :: 0 <= a < b < |xs| ==> xs[a] < xs[b]
  }

  /** A '*' at the start of the window leaves no '*' before it. */
  lemma {:induction false} StarInLeftmost(grid: seq<string>, i: nat, cols: seq<nat>)
    requires Increasing(cols)
    ensures StarIn(grid, i, cols).Some? ==>
      forall j :: j in cols && j < StarIn(grid, i, cols).value.1 ==> !StarAt(grid, i, j)
  {
    if |cols| > 0 && !StarAt(grid, i, cols[0]) {
      StarInLeftmost(grid, i, cols[1..]);
      forall j | j in cols && j !in cols[1..]
        ensures j == cols[0]
      {
      }
    }
  }

  /** The gear found is the leftmost '*' of the lowest row of the window that holds one; none when the window holds none. */
  lemma {:induction false} GearAmongLowest(grid: seq<string>, rows: seq<nat>, cols: seq<nat>)
    requires Increasing(rows) && Increasing(cols)
    ensures GearAmong(grid, rows, cols).None? <==> forall i, j :: i in rows && j in cols ==> !StarAt(grid, i, j)
    ensures GearAmong(grid, rows, cols).Some? ==>
      var (gi, gj) := GearAmong(grid, rows, cols).value;
      (forall i, j :: i in rows && gi < i && j in cols ==> !StarAt(grid, i, j))
      && (forall j :: j in cols && j < gj ==> !StarAt(grid, gi, j))
  {
    if |rows| > 0 {
      var init := rows[..|rows| - 1];
      var lastRow := rows[|rows| - 1];
      StarInLeftmost(grid, lastRow, cols);
      assert forall i :: i in rows ==> i in init || i == lastRow;
      assert forall i :: i in init ==> i < lastRow;
      if StarIn(grid, lastRow, cols).None? {
        GearAmongLowest(grid, init, cols);
      }
    }
  }

  /** A gear once set is kept (`if number.gear.is_none()`). */
  function FirstOf<T>(a: Option<T>, b: Option<T>): Option<T> {
    if a.None? then b else a
  }

  /** Each number's gear: the first window gear among its digits. */
  function Gearing(grid: seq<string>): Notes<Option<Position>> {
    Notes(None, FirstOf, (r: nat, c: nat) => GearAmong(grid, Window(r), ColumnsAsWritten(r, c, LineLength(grid))))
  }

  /** The same with the column window corrected. */
  function GearingCorrected(grid: seq<string>): Notes<Option<Position>> {
    Notes(None, FirstOf, (r: nat, c: nat) => GearAmong(grid, Window(r), Columns(c)))
  }

  /** Keeping the first gear: a number's gear is that of its first digit that has one. */
  lemma {:induction false} NoteOfFirst<T>(k: Notes<Option<T>>, r: nat, s: nat, e: nat)
    requires s <= e
    requires k.none.None? && k.merge == FirstOf
    ensures NoteOf(k, r, s, e).None? <==> forall m :: s <= m < e ==> k.note(r, m).None?
    ensures NoteOf(k, r, s, e).Some? ==>
      exists m :: s <= m < e && k.note(r, m) == NoteOf(k, r, s, e)
        && forall m' :: s <= m' < m ==> k.note(r, m').None?
    decreases e - s
  {
    if s < e {
      NoteOfFirst(k, r, s, e - 1);
      var prev := NoteOf(k, r, s, e - 1);
      assert NoteOf(k, r, s, e) == k.merge(prev, k.note(r, e - 1));
      if prev.Some? {
        var m :| s <= m < e - 1 && k.note(r, m) == prev && forall m' :: s <= m' < m ==> k.note(r, m').None?;
        assert NoteOf(k, r, s, e) == prev;
      } else if k.note(r, e - 1).Some? {
        assert forall m' :: s <= m' < e - 1 ==> k.note(r, m').None?;
      }
    }
  }

  /** With the corrected window, a number has no gear exactly when no '*' is next to any of its digits, and a gear it has is next to one of them. */
  lemma CorrectedGear(grid: seq<string>, r: nat, s: nat, e: nat)
    requires s <= e
    ensures NoteOf(GearingCorrected(grid), r, s, e).None?
      <==> forall m: nat, i: nat, j: nat :: s <= m < e && Near(r, m, i, j) ==> !StarAt(grid, i, j)
    ensures NoteOf(GearingCorrected(grid), r, s, e).Some? ==>
      var (gi, gj) := NoteOf(GearingCorrected(grid), r, s, e).value;
      StarAt(grid, gi, gj) && exists m: nat :: s <= m < e && Near(r, m, gi, gj)
  {
    var k := GearingCorrected(grid);
    NoteOfFirst(k, r, s, e);
    forall m: nat | s <= m < e
      ensures k.note(r, m).None? <==> forall i: nat, j: nat :: Near(r, m, i, j) ==> !StarAt(grid, i, j)
      ensures k.note(r, m).Some? ==> Near(r, m, k.note(r, m).value.0, k.note(r, m).value.1)
    {
      GearAmongLowest(grid, Window(r), Columns(m));
      WindowNear(r, m);
    }
  }

  /** The corrected window holds exactly the positions next to (r, c). */
  lemma WindowNear(r: nat, c: nat)
    ensures forall i: nat, j: nat :: i in Window(r) && j in Columns(c) <==> Near(r, c, i, j)
  {
    forall i: nat, j: nat | Near(r, c, i, j)
      ensures i in Window(r) && j in Columns(c)
    {
      assert i == r + 1 || i == r || (r > 0 && i == r - 1);
      assert j == c + 1 || j == c || (c > 0 && j == c - 1);
    }
  }

  // ---------------------------------------------------------------------------
  // Gears and ratios
  // ---------------------------------------------------------------------------

  /** The '*' positions among the first `c` characters of row `r`, left to right. */
  function RowStars(row: string, r: nat, c: nat): seq<Position>
    requires c <= |row|
  {
    if c == 0 then [] else RowStars(row, r, c - 1) + (if row[c - 1] == '*' then [(r, c - 1)] else [])
  }

  /** `gears`: every '*' of the first `n` rows, in reading order. */
  function Stars(grid: seq<string>, n: nat): seq<Position>
    requires n <= |grid|
  {
    if n == 0 then [] else Stars(grid, n - 1) + RowStars(grid[n - 1], n - 1, |grid[n - 1]|)
  }

  lemma {:induction false} RowStarsMembers(row: string, r: nat, c: nat)
    requires c <= |row|
    ensures forall p :: p in RowStars(row, r, c) <==> p.0 == r && p.1 < c && row[p.1] == '*'
  {
    if c > 0 {
      RowStarsMembers(row, r, c - 1);
    }
  }

  /** The gears are exactly the '*' positions of the schematic. */
  lemma {:induction false} StarsMembers(grid: seq<string>, n: nat)
    requires n <= |grid|
    ensures forall p :: p in Stars(grid, n) <==> p.0 < n && StarAt(grid, p.0, p.1)
  {
    if n > 0 {
      StarsMembers(grid, n - 1);
      RowStarsMembers(grid[n - 1], n - 1, |grid[n - 1]|);
    }
  }

  /** The numbers whose gear is `g`, in order. */
  function Attached(parts: seq<Number<Option<Position>>>, g: Position): (r: seq<Number<Option<Position>>>)
    ensures |r| <= |parts|
  {
    if |parts| == 0 then []
    else Attached(parts[..|parts| - 1], g) + (if parts[|parts| - 1].note == Some(g) then [parts[|parts| - 1]] else [])
  }

  /** Exactly the numbers whose gear is `g` are gathered. */
  lemma {:induction false} AttachedMembers(parts: seq<Number<Option<Position>>>, g: Position)
    ensures forall n :: n in Attached(parts, g) <==> n in parts && n.note == Some(g)
  {
    if |parts| > 0 {
      AttachedMembers(parts[..|parts| - 1], g);
      assert parts == parts[..|parts| - 1] + [parts[|parts| - 1]];
    }
  }

  /** `digits.parse::<u32>()`, with 0 where it would fail. */
  function Value(n: Number<Option<Position>>): nat {
    match ParseUnsigned(n.digits, U32_MAX) case Some(v) => v case None => 0
  }

  /** A gear with exactly two numbers contributes their product; any other gear nothing. */
  function Ratio(parts: seq<Number<Option<Position>>>, g: Position): nat {
    var a := Attached(parts, g);
    if |a| == 2 then Value(a[0]) * Value(a[1]) else 0
  }

  function RatioSum(parts: seq<Number<Option<Position>>>, gears: seq<Position>): nat {
    if |gears| == 0 then 0 else RatioSum(parts, gears[..|gears| - 1]) + Ratio(parts, gears[|gears| - 1])
  }

  /** A gear's two numbers parse as `u32` and their product fits one (otherwise the source panics). */
  predicate RatioFits(parts: seq<Number<Option<Position>>>, g: Position) {
    var a := Attached(parts, g);
    |a| == 2 ==>
      ParseUnsigned(a[0].digits, U32_MAX).Some? && ParseUnsigned(a[1].digits, U32_MAX).Some?
      && Value(a[0]) * Value(a[1]) <= U32_MAX
  }

  /** A gear with other than two numbers has no ratio. */
  lemma RatioNeedsTwo(parts: seq<Number<Option<Position>>>, g: Position)
    ensures Ratio(parts, g) > 0 ==> |Attached(parts, g)| == 2 && (forall n :: n in Attached(parts, g) ==> n in parts && n.note == Some(g))
  {
    AttachedMembers(parts, g);
  }

  /** `calculate_engine_part_id_sum` of part 2: the scan also lists the gears, then each gear's ratio is added. */
  method GearRatioSum(grid: seq<string>) returns (total: nat)
    requires forall g :: g in Stars(grid, |grid|) ==> RatioFits(Scanned(grid, Gearing(grid)), g)
    requires RatioSum(Scanned(grid, Gearing(grid)), Stars(grid, |grid|)) <= U32_MAX
    ensures total == RatioSum(Scanned(grid, Gearing(grid)), Stars(grid, |grid|))
  {
    if |grid| == 0 {
      return 0;
    }
    var parts, gears := ScanGears(grid);
    total := 0;
    for i := 0 to |gears|
      invariant total == RatioSum(parts, gears[..i])
    {
      assert gears[..i + 1][..i] == gears[..i];
      var ratio := GearRatio(parts, gears[i]);
      total := total + ratio;
    }
    assert gears[..|gears|] == gears;
  }

  /** The scan of part 2: the numbers with their gears, and the gears in reading order. */
  method ScanGears(grid: seq<string>) returns (parts: seq<Number<Option<Position>>>, gears: seq<Position>)
    ensures parts == Scanned(grid, Gearing(grid))
    ensures gears == Stars(grid, |grid|)
  {
    var k := Gearing(grid);
    var s: Scan<Option<Position>> := Scan([], None, None);
    gears := [];
    for r := 0 to |grid|
      invariant s == ScanRows(grid, r, k)
      invariant gears == Stars(grid, r)
    {
      s, gears := ScanGearRow(grid[r], r, Close(Absorb(s, k)), gears, k);
    }
    parts := Close(s).parts;
  }

  /** One row of that scan. */
  method ScanGearRow(row: string, r: nat, start: Scan<Option<Position>>, before: seq<Position>, k: Notes<Option<Position>>)
    returns (s: Scan<Option<Position>>, gears: seq<Position>)
    ensures s == ScanRow(row, r, |row|, start, k)
    ensures gears == before + RowStars(row, r, |row|)
  {
    s, gears := start, before;
    for c := 0 to |row|
      invariant s == ScanRow(row, r, c, start, k)
      invariant gears == before + RowStars(row, r, c)
    {
      if row[c] == '*' {
        gears := gears + [(r, c)];
      }
      s := Step(s, row[c], r, c, k);
    }
  }

  /** One gear's ratio: its numbers are gathered, and two of them multiplied. */
  method GearRatio(parts: seq<Number<Option<Position>>>, g: Position) returns (ratio: nat)
    requires RatioFits(parts, g)
    ensures ratio == Ratio(parts, g)
  {
    var attached := Gather(parts, g);
    RatioOfAttached(parts, g, attached);
    ratio := 0;
    if |attached| == 2 {
      var first, second := Value(attached[0]), Value(attached[1]);
      ratio := first * second;
    }
  }

  lemma RatioOfAttached(parts: seq<Number<Option<Position>>>, g: Position, attached: seq<Number<Option<Position>>>)
    requires attached == Attached(parts, g)
    ensures |attached| == 2 ==> Ratio(parts, g) == Value(attached[0]) * Value(attached[1])
    ensures |attached| != 2 ==> Ratio(parts, g) == 0
  {
  }

  /** `filter(|number| number.gear == Some(gear))`. */
  method Gather(parts: seq<Number<Option<Position>>>, g: Position) returns (attached: seq<Number<Option<Position>>>)
    ensures attached == Attached(parts, g)
  {
    attached := [];
    for i := 0 to |parts|
      invariant attached == Attached(parts[..i], g)
    {
      assert parts[..i + 1][..i] == parts[..i];
      if parts[i].note == Some(g) {
        attached := attached + [parts[i]];
      }
    }
    assert parts[..|parts|] == parts;
  }

  // ---------------------------------------------------------------------------
  // Where the source departs from the puzzle
  // ---------------------------------------------------------------------------

  /** One gear between two ones. */
  function OneStarOne(): seq<string> {
    ["1*1"]
  }

  /** Either scanner reads the two ones; as written, the second misses its only digit's gear. */
  lemma OneStarOneNumbers<A>(k: Notes<A>)
    ensures Scanned(OneStarOne(), k) == [Number("1", k.merge(k.none, k.note(0, 0))), Number("1", k.none)]
    ensures ScannedCorrected(OneStarOne(), k)
      == [Number("1", k.merge(k.none, k.note(0, 0))), Number("1", k.merge(k.none, k.note(0, 2)))]
  {
    var grid := OneStarOne();
    var row := grid[0];
    assert RunStart(row, 1) == 0;
    assert RunStart(row, 3) == 2;
    assert Closed(row, 0, 1, k) == [];
    assert Closed(row, 0, 2, k) == [RunNumber(row, 0, 0, 1, k)];
    assert Closed(row, 0, 3, k) == Closed(row, 0, 2, k);
    assert row[0..1] == "1" && row[2..3] == "1";
    ScannedIsNumbers(grid, k);
    ScannedCorrectedIsNumbers(grid, k);
  }

  /** Both ones see the gear at (0, 1). */
  lemma OneStarOneGears()
    ensures Gearing(OneStarOne()).note(0, 0) == Some((0, 1))
    ensures GearingCorrected(OneStarOne()).note(0, 2) == Some((0, 1))
    ensures Stars(OneStarOne(), 1) == [(0, 1)]
  {
    var grid := OneStarOne();
    assert LineLength(grid) == 3;
    assert Window(0) == [0, 1];
    assert ColumnsAsWritten(0, 0, 3) == [0, 1];
    assert Columns(2) == [1, 2, 3];
    assert !StarAt(grid, 0, 0) && StarAt(grid, 0, 1);
    assert StarIn(grid, 1, [0, 1]) == None;
    assert StarIn(grid, 1, [1, 2, 3]) == None;
    assert StarIn(grid, 0, [0, 1]) == Some((0, 1));
    assert StarIn(grid, 0, [1, 2, 3]) == Some((0, 1));
    assert [0, 1][..1] == [0];
    assert RowStars(grid[0], 0, 1) == [];
    assert RowStars(grid[0], 0, 2) == [(0, 1)];
  }

  /** As written the gear at (0, 1) has one number and no ratio; read to the end, it has two and ratio 1. */
  lemma LastDigitGearSkipped()
    ensures RatioSum(Scanned(OneStarOne(), Gearing(OneStarOne())), Stars(OneStarOne(), 1)) == 0
    ensures RatioSum(ScannedCorrected(OneStarOne(), GearingCorrected(OneStarOne())), Stars(OneStarOne(), 1)) == 1
  {
    var grid := OneStarOne();
    var k, kc := Gearing(grid), GearingCorrected(grid);
    OneStarOneGears();
    OneStarOneNumbers(k);
    OneStarOneNumbers(kc);
    assert kc.note(0, 0) == Some((0, 1)) by {
      assert Columns(0) == ColumnsAsWritten(0, 0, 3);
    }
    var one := Number("1", Some((0, 1)));
    RatioOfPair(one, Number("1", None), one, one);
  }

  /** The ratios of the two scans of that grid. */
  lemma RatioOfPair(a: Number<Option<Position>>, b: Number<Option<Position>>, c: Number<Option<Position>>, d: Number<Option<Position>>)
    requires a == c == d == Number("1", Some((0, 1))) && b == Number("1", None)
    ensures RatioSum([a, b], [(0, 1)]) == 0
    ensures RatioSum([c, d], [(0, 1)]) == 1
  {
    assert [(0, 1)][..0] == [];
    assert [a, b][..1] == [a] && [a][..0] == [];
    assert Attached([a, b], (0, 1)) == [a];
    assert [c, d][..1] == [c] && [c][..0] == [];
    assert Attached([c, d], (0, 1)) == [c, d];
    assert Decimal(1) == "1";
    ParseDecimal(1, U32_MAX);
  }
}
