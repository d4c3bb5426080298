/**
 * Day 13, part 1: patterns of ash ('.') and rocks ('#'), separated by blank
 * lines. Each row and each column is read as a binary number ('#' a 1 bit);
 * a mirror lies between two adjacent equal rows (or columns) when every
 * mirrored pair on both sides that exists is equal, and it scores the
 * number of rows (or columns) before it. The summary adds the column
 * scores and 100 times the row scores.
 */
module Day13Part1 {
  import opened Text

  // ---------------------------------------------------------------------------
  // Binary codes
  // ---------------------------------------------------------------------------

  /** Only ash and rocks. */
  predicate Drawn(s: string) {
    forall k :: 0 <= k < |s| ==> s[k] == '.' || s[k] == '#'
  }

  /** A character `from_str_radix(_, 2)` reads as a digit once '.' became '0' and '#' became '1'. */
  predicate BinaryDigit(c: char) {
    c == '.' || c == '#' || c == '0' || c == '1'
  }

  function Bit(c: char): nat {
    if c == '#' || c == '1' then 1 else 0
  }

  /** The line read as binary, first character most significant. */
  function Code(s: string): nat {
    if |s| == 0 then 0 else 2 * Code(s[..|s| - 1]) + Bit(s[|s| - 1])
  }

  /** The digits `from_str_radix` reads: a leading '+' is dropped. */
  function Digits(s: string): string {
    if |s| > 0 && s[0] == '+' then s[1..] else s
  }

  /**
   * `u32::from_str_radix(&s.replace('.', "0").replace('#', "1"), 2)`
   * succeeds: after an optional '+' at least one character is left, every
   * one of them is a binary digit, and their value fits in a u32. Leading
   * zeros are allowed; a lone '+', a '-' or any other character is refused.
   */
  predicate Parses(s: string) {
    var d := Digits(s);
    |d| > 0 && (forall k :: 0 <= k < |d| ==> BinaryDigit(d[k])) && Code(d) <= U32_MAX
  }

  /** The number `from_str_radix` returns. */
  function Value(s: string): nat {
    Code(Digits(s))
  }

  /** On ash and rocks alone the parse is the plain binary reading, and it succeeds exactly when that fits. */
  lemma DrawnParses(s: string)
    requires Drawn(s) && |s| > 0
    ensures Value(s) == Code(s) && (Parses(s) <==> Code(s) <= U32_MAX)
  {
    assert s[0] != '+';
  }

  /** A code is below 2 to the power of the line's length. */
  lemma {:induction false} CodeBound(s: string)
    ensures Code(s) < Power2(|s|)
  {
    if |s| > 0 {
      CodeBound(s[..|s| - 1]);
    }
  }

  function Power2(n: nat): nat {
    if n == 0 then 1 else 2 * Power2(n - 1)
  }

  /** Lines of the same length have the same code exactly when they are the same line. */
  lemma {:induction false} CodeInjective(a: string, b: string)
    requires |a| == |b| && Drawn(a) && Drawn(b)
    ensures Code(a) == Code(b) <==> a == b
  {
    if |a| > 0 && Code(a) == Code(b) {
      var n := |a| - 1;
      assert Bit(a[n]) == Bit(b[n]);
      assert a[n] == b[n];
      assert Drawn(a[..n]) && Drawn(b[..n]) by {
        assert forall k :: 0 <= k < n ==> a[..n][k] == a[k] && b[..n][k] == b[k];
      }
      CodeInjective(a[..n], b[..n]);
      assert a == a[..n] + [a[n]] && b == b[..n] + [b[n]];
    }
  }

  // ---------------------------------------------------------------------------
  // Parsing
  // ---------------------------------------------------------------------------

  /**
   * The source can look at a pattern's first line (`lines().next().unwrap()`).
   * An empty first line is allowed: the column loop then runs zero times.
   */
  predicate HasFirstLine(grid: string) {
    |Lines(grid)| > 0
  }

  /**
   * The column strings: column `n` is every `width`-th character of the
   * pattern without its line feeds, starting at `n`, where `width` is the
   * first line's length.
   */
  function ColumnTexts(grid: string): (r: seq<string>)
    requires HasFirstLine(grid)
    ensures |r| == |Lines(grid)[0]|
  {
    var width := |Lines(grid)[0]|;
    var flat := Remove(grid, '\n');
    seq(width, n requires 0 <= n < width => StepBy(Skip(flat, n), width))
  }

  /** Every row and every column string parses as a u32, which `parse`'s two `unwrap`s demand. */
  predicate Parsable(grid: string) {
    HasFirstLine(grid)
    && (forall k :: 0 <= k < |Lines(grid)| ==> Parses(Lines(grid)[k]))
    && (forall n :: 0 <= n < |ColumnTexts(grid)| ==> Parses(ColumnTexts(grid)[n]))
  }

  /** A pattern: the codes of its rows and of its columns. */
  datatype Grid = Grid(rows: seq<nat>, columns: seq<nat>)

  function Values(lines: seq<string>): (r: seq<nat>)
    ensures |r| == |lines| && forall k :: 0 <= k < |lines| ==> r[k] == Value(lines[k])
  {
    seq(|lines|, k requires 0 <= k < |lines| => Value(lines[k]))
  }

  /** `parse`: every row and every column code fits in a u32. */
  function Parse(grid: string): (p: Grid)
    requires Parsable(grid)
    ensures |p.rows| == |Lines(grid)| && |p.columns| == |Lines(grid)[0]|
    ensures forall k :: 0 <= k < |p.rows| ==> p.rows[k] <= U32_MAX
    ensures forall n :: 0 <= n < |p.columns| ==> p.columns[n] <= U32_MAX
  {
    Grid(Values(Lines(grid)), Values(ColumnTexts(grid)))
  }

  /** Every line of the pattern is drawn in ash and rocks only. */
  predicate Drawing(grid: string) {
    forall k :: 0 <= k < |Lines(grid)| ==> Drawn(Lines(grid)[k])
  }

  /**
   * On a rectangular pattern of ash and rocks the column strings are the
   * transposed rows, and two rows (or two columns) have the same code
   * exactly when they are the same string.
   */
  lemma ParseFaithful(grid: string, i: nat, j: nat)
    requires Parsable(grid) && GridText(grid) && Drawing(grid)
    ensures i < |Lines(grid)| && j < |Lines(grid)| ==>
      (Parse(grid).rows[i] == Parse(grid).rows[j] <==> Lines(grid)[i] == Lines(grid)[j])
    ensures i < |Lines(grid)[0]| && j < |Lines(grid)[0]| ==>
      ColumnTexts(grid)[i] == Column(Lines(grid), i)
      && (Parse(grid).columns[i] == Parse(grid).columns[j] <==> Column(Lines(grid), i) == Column(Lines(grid), j))
  {
    var rows := Lines(grid);
    if i < |rows| && j < |rows| {
      DrawnParses(rows[i]);
      DrawnParses(rows[j]);
      CodeInjective(rows[i], rows[j]);
    }
    var width := |rows[0]|;
    if i < width && j < width {
      StepColumns(grid, i);
      StepColumns(grid, j);
      var texts := ColumnTexts(grid);
      assert texts[i] == StepBy(Skip(Remove(grid, '\n'), i), width);
      assert texts[j] == StepBy(Skip(Remove(grid, '\n'), j), width);
      assert Drawn(texts[i]) && Drawn(texts[j]);
      DrawnParses(texts[i]);
      DrawnParses(texts[j]);
      CodeInjective(texts[i], texts[j]);
    }
  }

  // ---------------------------------------------------------------------------
  // Mirrors
  // ---------------------------------------------------------------------------

  /** The pair `m` steps out from a mirror after `end` exists on both sides. */
  predicate InRange(count: nat, end: nat, m: nat) {
    m <= end && end + 1 + m < count
  }

  predicate MirrorEqual(xs: seq<nat>, end: nat, m: nat)
    requires InRange(|xs|, end, m)
  {
    xs[end - m] == xs[end + 1 + m]
  }

  /** Every mirrored pair that exists on both sides is equal. */
  ghost predicate Reflects(xs: seq<nat>, end: nat) {
    forall m: nat :: InRange(|xs|, end, m) ==> MirrorEqual(xs, end, m)
  }

  /** The ends `e < below` of adjacent equal pairs `(e, e + 1)`, in increasing order. */
  function Candidates(xs: seq<nat>, below: nat): (r: seq<nat>)
    ensures forall k :: 0 <= k < |r| ==> r[k] < below && r[k] + 1 < |xs|
  {
    if below == 0 then []
    else Candidates(xs, below - 1) + (if below < |xs| && xs[below - 1] == xs[below] then [below - 1] else [])
  }

  /** Exactly the adjacent equal pairs are candidates. */
  lemma {:induction false} CandidatesExact(xs: seq<nat>, below: nat, e: nat)
    ensures e in Candidates(xs, below) <==> e < below && e + 1 < |xs| && xs[e] == xs[e + 1]
  {
    if below > 0 {
      CandidatesExact(xs, below - 1, e);
    }
  }

  /**
   * The counting loop for the mirror between `end` and `end + 1`: step
   * outwards `end + 1` times; a pair that exists on both sides and differs
   * resets the count to 0 and stops.
   */
  method MirrorScore(xs: seq<nat>, end: nat) returns (count: nat)
    requires end + 1 < |xs|
    ensures count == if Reflects(xs, end) then end + 1 else 0
  {
    count := 0;
    var n := 0;
    while n <= end
      invariant n <= end + 1 && count == n
      invariant forall m: nat :: m < n && InRange(|xs|, end, m) ==> MirrorEqual(xs, end, m)
    {
      if end + 1 + n < |xs| && xs[end - n] != xs[end + 1 + n] {
        assert !MirrorEqual(xs, end, n);
        return 0;
      }
      count := count + 1;
      n := n + 1;
    }
  }

  /** What the mirror after `e` scores. */
  ghost function Scored(xs: seq<nat>, e: nat): nat {
    if e + 1 < |xs| && Reflects(xs, e) then e + 1 else 0
  }

  ghost function ScoreSum(xs: seq<nat>, ends: seq<nat>): nat {
    if |ends| == 0 then 0 else ScoreSum(xs, ends[..|ends| - 1]) + Scored(xs, ends[|ends| - 1])
  }

  /** Σ over every mirror position `e < below` of its score. */
  ghost function ReflectionSum(xs: seq<nat>, below: nat): nat {
    if below == 0 then 0 else ReflectionSum(xs, below - 1) + Scored(xs, below - 1)
  }

  lemma ScoreSumPush(xs: seq<nat>, ends: seq<nat>, e: nat)
    ensures ScoreSum(xs, ends + [e]) == ScoreSum(xs, ends) + Scored(xs, e)
  {
    assert (ends + [e])[..|ends|] == ends;
  }

  /** Scoring only the candidates loses nothing: a position whose adjacent pair differs does not reflect. */
  lemma {:induction false} CandidatesScore(xs: seq<nat>, below: nat)
    ensures ScoreSum(xs, Candidates(xs, below)) == ReflectionSum(xs, below)
  {
    if below > 0 {
      CandidatesScore(xs, below - 1);
      var e := below - 1;
      var before := Candidates(xs, e);
      if below < |xs| && xs[e] == xs[below] {
        ScoreSumPush(xs, before, e);
      } else {
        assert before + [] == before;
        if e + 1 < |xs| {
          assert !MirrorEqual(xs, e, 0);
        }
      }
    }
  }

  /** The row (or column) half of `Grid::summarise`: Σ of the non-zero candidate scores. */
  method SideScore(xs: seq<nat>) returns (total: nat)
    ensures total == ReflectionSum(xs, |xs|)
  {
    var candidates := Candidates(xs, |xs|);
    total := 0;
    for i := 0 to |candidates|
      invariant total == ScoreSum(xs, candidates[..i])
    {
      var count := MirrorScore(xs, candidates[i]);
      assert candidates[..i + 1] == candidates[..i] + [candidates[i]];
      ScoreSumPush(xs, candidates[..i], candidates[i]);
      if count != 0 {
        total := total + count;
      }
    }
    assert candidates[..|candidates|] == candidates;
    CandidatesScore(xs, |xs|);
  }

  /** What a pattern contributes: its column mirrors plus 100 times its row mirrors. */
  ghost function PatternScore(p: Grid): nat {
    ReflectionSum(p.columns, |p.columns|) + 100 * ReflectionSum(p.rows, |p.rows|)
  }

  /** `Grid::summarise`. */
  method SummariseGrid(p: Grid) returns (summary: nat)
    ensures summary == ReflectionSum(p.columns, |p.columns|) + 100 * ReflectionSum(p.rows, |p.rows|)
  {
    var columns := SideScore(p.columns);
    var rows := SideScore(p.rows);
    summary := columns + 100 * rows;
  }

  /** The patterns of the input: the text split on blank lines. */
  function Patterns(input: string): seq<string> {
    SplitOn(input, "\n\n")
  }

  predicate AllParsable(grids: seq<string>) {
    forall k :: 0 <= k < |grids| ==> Parsable(grids[k])
  }

  ghost function PatternsSum(grids: seq<string>): nat
    requires AllParsable(grids)
  {
    if |grids| == 0 then 0 else PatternsSum(grids[..|grids| - 1]) + PatternScore(Parse(grids[|grids| - 1]))
  }

  /** `summarise`: every pattern parsed and summarised, the summaries added. */
  method Summarise(input: string) returns (total: nat)
    requires AllParsable(Patterns(input))
    ensures total == PatternsSum(Patterns(input))
  {
    var grids := Patterns(input);
    total := 0;
    for i := 0 to |grids|
      invariant total == PatternsSum(grids[..i])
    {
      var summary := SummariseGrid(Parse(grids[i]));
      assert grids[..i + 1][..i] == grids[..i];
      total := total + summary;
    }
    assert grids[..|grids|] == grids;
  }
}

/**
 * Day 13, part 2: every mirror has exactly one smudge. Rows and columns are
 * kept as strings; a candidate is an adjacent pair that is equal or differs
 * in one character, and a mirror only scores when a one-character
 * difference was met on the way out.
 */
module Day13Part2 {
  import opened Text
  import Day13Part1

  /** A pattern: its lines and its column strings. */
  datatype Grid = Grid(rows: seq<string>, columns: seq<string>)

  /** `parse`: the lines, and the column strings read by stepping through the text. */
  function Parse(grid: string): (p: Grid)
    requires Day13Part1.HasFirstLine(grid)
    ensures p.rows == Lines(grid) && |p.columns| == |Lines(grid)[0]|
  {
    Grid(Lines(grid), Day13Part1.ColumnTexts(grid))
  }

  /** On a rectangular pattern the column strings are the transposed rows. */
  lemma ParseTransposes(grid: string)
    requires GridText(grid)
    ensures forall n :: 0 <= n < |Parse(grid).columns| ==> Parse(grid).columns[n] == Column(Lines(grid), n)
  {
    var columns := Parse(grid).columns;
    forall n | 0 <= n < |columns| ensures columns[n] == Column(Lines(grid), n) {
      StepColumns(grid, n);
    }
  }

  // ---------------------------------------------------------------------------
  // Differences
  // ---------------------------------------------------------------------------

  /** How many positions of the zipped strings differ (`zip` stops at the shorter one). */
  function Differences(a: string, b: string): nat {
    if |a| == 0 || |b| == 0 then 0
    else (if a[0] != b[0] then 1 else 0) + Differences(a[1..], b[1..])
  }

  /** The first position where the zipped strings differ (the shorter length when none does). */
  function FirstDifference(a: string, b: string): nat {
    if |a| == 0 || |b| == 0 || a[0] != b[0] then 0 else 1 + FirstDifference(a[1..], b[1..])
  }

  /** Strings of the same length with no difference are equal; a difference means they are not. */
  lemma {:induction false} DifferencesZero(a: string, b: string)
    ensures |a| == |b| && Differences(a, b) == 0 ==> a == b
    ensures Differences(a, b) > 0 ==> a != b
  {
    if |a| > 0 && |b| > 0 {
      DifferencesZero(a[1..], b[1..]);
      assert a == [a[0]] + a[1..] && b == [b[0]] + b[1..];
    }
  }

  /** One difference sits at `FirstDifference`, and nowhere else. */
  lemma {:induction false} SingleDifference(a: string, b: string)
    requires Differences(a, b) == 1
    ensures FirstDifference(a, b) < |a| && FirstDifference(a, b) < |b|
    ensures a[FirstDifference(a, b)] != b[FirstDifference(a, b)]
    ensures forall k :: 0 <= k < |a| && k < |b| && k != FirstDifference(a, b) ==> a[k] == b[k]
  {
    if a[0] == b[0] {
      SingleDifference(a[1..], b[1..]);
      forall k | 0 <= k < |a| && k < |b| && k != FirstDifference(a, b) ensures a[k] == b[k] {
        if k > 0 {
          assert a[k] == a[1..][k - 1] && b[k] == b[1..][k - 1];
        }
      }
    } else {
      forall k | 1 <= k < |a| && k < |b| ensures a[k] == b[k] {
        NoDifferenceAt(a[1..], b[1..], k - 1);
      }
    }
  }

  lemma {:induction false} NoDifferenceAt(a: string, b: string, k: nat)
    requires Differences(a, b) == 0 && k < |a| && k < |b|
    ensures a[k] == b[k]
  {
    if k > 0 {
      NoDifferenceAt(a[1..], b[1..], k - 1);
    }
  }

  /** Equal, or one character apart. */
  predicate Close(a: string, b: string) {
    a == b || Differences(a, b) == 1
  }

  // ---------------------------------------------------------------------------
  // Mirrors with a smudge
  // ---------------------------------------------------------------------------

  predicate InRange(count: nat, end: nat, m: nat) {
    m <= end && end + 1 + m < count
  }

  predicate CloseAt(xs: seq<string>, end: nat, m: nat)
    requires InRange(|xs|, end, m)
  {
    Close(xs[end - m], xs[end + 1 + m])
  }

  /** The mirrored pair `m` steps out differs in exactly one character. */
  predicate SmudgeAt(xs: seq<string>, end: nat, m: nat)
    requires InRange(|xs|, end, m)
  {
    Differences(xs[end - m], xs[end + 1 + m]) == 1
  }

  /** Where that pair differs. */
  function SmudgeColumn(xs: seq<string>, end: nat, m: nat): nat
    requires InRange(|xs|, end, m)
  {
    FirstDifference(xs[end - m], xs[end + 1 + m])
  }

  /**
   * The loop as written lets a mirror survive when every mirrored pair is
   * equal or one character apart, and all one-character differences sit
   * at the same position.
   */
  ghost predicate Survives(xs: seq<string>, end: nat) {
    (forall m: nat :: InRange(|xs|, end, m) ==> CloseAt(xs, end, m))
    && (forall m1: nat, m2: nat :: InRange(|xs|, end, m1) && InRange(|xs|, end, m2) && SmudgeAt(xs, end, m1) && SmudgeAt(xs, end, m2)
          ==> SmudgeColumn(xs, end, m1) == SmudgeColumn(xs, end, m2))
  }

  ghost predicate SomeSmudge(xs: seq<string>, end: nat) {
    exists m: nat :: InRange(|xs|, end, m) && SmudgeAt(xs, end, m)
  }

  /**
   * The counting loop of part 2 for the mirror after `end`: a mirrored pair
   * that differs, other than by one character at the position of the
   * smudge already spotted, resets the count and stops; a one-character
   * difference records its position. The source records the pair
   * (candidate index, position); the candidate index is the same all
   * through the loop, so only the position is kept here. Returns the count
   * and whether a smudge was spotted.
   */
  method SmudgeScore(xs: seq<string>, end: nat) returns (count: nat, spotted: bool)
    requires end + 1 < |xs|
    ensures count == if Survives(xs, end) then end + 1 else 0
    ensures spotted <==> Survives(xs, end) && SomeSmudge(xs, end)
  {
    count := 0;
    var seen: Option<nat> := None;
    ghost var smudged: nat := 0;
    var n := 0;
    while n <= end
      invariant n <= end + 1 && count == n
      invariant forall m: nat :: m < n && InRange(|xs|, end, m) ==> CloseAt(xs, end, m)
      invariant seen.None? ==> forall m: nat :: m < n && InRange(|xs|, end, m) ==> !SmudgeAt(xs, end, m)
      invariant seen.Some? ==> smudged < n && InRange(|xs|, end, smudged) && SmudgeAt(xs, end, smudged)
      invariant seen.Some? ==> forall m: nat :: m < n && InRange(|xs|, end, m) && SmudgeAt(xs, end, m) ==> SmudgeColumn(xs, end, m) == seen.value
    {
      if end + 1 + n < |xs| {
        var left, right := xs[end - n], xs[end + 1 + n];
        var differences := Differences(left, right);
        DifferencesZero(left, right);
        var column: Option<nat> := if differences == 1 then Some(FirstDifference(left, right)) else None;
        if left != right && (differences != 1 || (seen.Some? && seen.value != column.value)) {
          assert !Survives(xs, end) by {
            if differences != 1 {
              assert !CloseAt(xs, end, n);
            } else {
              assert SmudgeColumn(xs, end, smudged) != SmudgeColumn(xs, end, n);
            }
          }
          return 0, false;
        }
        if differences == 1 {
          seen := Some(column.value);
          smudged := n;
        }
      }
      count := count + 1;
      n := n + 1;
    }
    spotted := seen.Some?;
  }

  /** What the mirror after `e` scores: it survives and a smudge was spotted. */
  ghost function Scored(xs: seq<string>, e: nat): nat {
    if e + 1 < |xs| && Survives(xs, e) && SomeSmudge(xs, e) then e + 1 else 0
  }

  /** The ends `e < below` of adjacent pairs `(e, e + 1)` that are equal or one character apart. */
  function Candidates(xs: seq<string>, below: nat): (r: seq<nat>)
    ensures forall k :: 0 <= k < |r| ==> r[k] < below && r[k] + 1 < |xs|
  {
    if below == 0 then []
    else Candidates(xs, below - 1) + (if below < |xs| && Close(xs[below - 1], xs[below]) then [below - 1] else [])
  }

  /** Exactly the adjacent pairs that are equal or one character apart are candidates. */
  lemma {:induction false} CandidatesExact(xs: seq<string>, below: nat, e: nat)
    ensures e in Candidates(xs, below) <==> e < below && e + 1 < |xs| && Close(xs[e], xs[e + 1])
  {
    if below > 0 {
      CandidatesExact(xs, below - 1, e);
    }
  }

  ghost function ScoreSum(xs: seq<string>, ends: seq<nat>): nat {
    if |ends| == 0 then 0 else ScoreSum(xs, ends[..|ends| - 1]) + Scored(xs, ends[|ends| - 1])
  }

  /** Σ over every mirror position `e < below` of its score. */
  ghost function SmudgeSum(xs: seq<string>, below: nat): nat {
    if below == 0 then 0 else SmudgeSum(xs, below - 1) + Scored(xs, below - 1)
  }

  lemma ScoreSumPush(xs: seq<string>, ends: seq<nat>, e: nat)
    ensures ScoreSum(xs, ends + [e]) == ScoreSum(xs, ends) + Scored(xs, e)
  {
    assert (ends + [e])[..|ends|] == ends;
  }

  /** Scoring only the candidates loses nothing: a mirror whose innermost pair is not close does not survive. */
  lemma {:induction false} CandidatesScore(xs: seq<string>, below: nat)
    ensures ScoreSum(xs, Candidates(xs, below)) == SmudgeSum(xs, below)
  {
    if below > 0 {
      CandidatesScore(xs, below - 1);
      var e := below - 1;
      var before := Candidates(xs, e);
      if below < |xs| && Close(xs[e], xs[below]) {
        assert Candidates(xs, below) == before + [e];
        ScoreSumPush(xs, before, e);
      } else {
        assert Candidates(xs, below) == before;
        assert Scored(xs, e) == 0 by {
          if e + 1 < |xs| {
            assert !CloseAt(xs, e, 0);
          }
        }
      }
    }
  }

  /** The row (or column) half of part 2's `Grid::summarise`. */
  method SideScore(xs: seq<string>) returns (total: nat)
    ensures total == SmudgeSum(xs, |xs|)
  {
    var candidates := Candidates(xs, |xs|);
    total := 0;
    for i := 0 to |candidates|
      invariant total == ScoreSum(xs, candidates[..i])
    {
      var count, spotted := SmudgeScore(xs, candidates[i]);
      assert candidates[..i + 1] == candidates[..i] + [candidates[i]];
      ScoreSumPush(xs, candidates[..i], candidates[i]);
      if count != 0 && spotted {
        total := total + count;
      }
    }
    assert candidates[..|candidates|] == candidates;
    CandidatesScore(xs, |xs|);
  }

  ghost function PatternScore(p: Grid): nat {
    SmudgeSum(p.columns, |p.columns|) + 100 * SmudgeSum(p.rows, |p.rows|)
  }

  /** `Grid::summarise`: the column mirrors plus 100 times the row mirrors. */
  method SummariseGrid(p: Grid) returns (summary: nat)
    ensures summary == SmudgeSum(p.columns, |p.columns|) + 100 * SmudgeSum(p.rows, |p.rows|)
  {
    var columns := SideScore(p.columns);
    var rows := SideScore(p.rows);
    summary := columns + 100 * rows;
  }

  predicate AllHaveFirstLine(grids: seq<string>) {
    forall k :: 0 <= k < |grids| ==> Day13Part1.HasFirstLine(grids[k])
  }

  ghost function PatternsSum(grids: seq<string>): nat
    requires AllHaveFirstLine(grids)
  {
    if |grids| == 0 then 0 else PatternsSum(grids[..|grids| - 1]) + PatternScore(Parse(grids[|grids| - 1]))
  }

  /** `summarise`: the text split on blank lines, every pattern summarised, the summaries added. */
  method Summarise(input: string) returns (total: nat)
    requires AllHaveFirstLine(Day13Part1.Patterns(input))
    ensures total == PatternsSum(Day13Part1.Patterns(input))
  {
    var grids := Day13Part1.Patterns(input);
    total := 0;
    for i := 0 to |grids|
      invariant total == PatternsSum(grids[..i])
    {
      var summary := SummariseGrid(Parse(grids[i]));
      assert grids[..i + 1][..i] == grids[..i];
      total := total + summary;
    }
    assert grids[..|grids|] == grids;
  }

  // ---------------------------------------------------------------------------
  // Exactly one smudge
  // ---------------------------------------------------------------------------

  /** Every mirrored pair is close and at most one of them differs. */
  ghost predicate AtMostOneSmudge(xs: seq<string>, end: nat) {
    (forall m: nat :: InRange(|xs|, end, m) ==> CloseAt(xs, end, m))
    && (forall m1: nat, m2: nat :: InRange(|xs|, end, m1) && InRange(|xs|, end, m2) && SmudgeAt(xs, end, m1) && SmudgeAt(xs, end, m2)
          ==> m1 == m2)
  }

  /**
   * The loop with the evidently intended rule: any second differing pair
   * rejects the mirror, wherever it differs.
   */
  method SmudgeScoreCorrected(xs: seq<string>, end: nat) returns (count: nat, spotted: bool)
    requires end + 1 < |xs|
    ensures count == if AtMostOneSmudge(xs, end) then end + 1 else 0
    ensures spotted <==> AtMostOneSmudge(xs, end) && SomeSmudge(xs, end)
  {
    count := 0;
    var seen: Option<nat> := None;
    ghost var smudged: nat := 0;
    var n := 0;
    while n <= end
      invariant n <= end + 1 && count == n
      invariant forall m: nat :: m < n && InRange(|xs|, end, m) ==> CloseAt(xs, end, m)
      invariant seen.None? ==> forall m: nat :: m < n && InRange(|xs|, end, m) ==> !SmudgeAt(xs, end, m)
      invariant seen.Some? ==> smudged < n && InRange(|xs|, end, smudged) && SmudgeAt(xs, end, smudged)
      invariant seen.Some? ==> forall m: nat :: m < n && InRange(|xs|, end, m) && SmudgeAt(xs, end, m) ==> m == smudged
    {
      if end + 1 + n < |xs| {
        var left, right := xs[end - n], xs[end + 1 + n];
        var differences := Differences(left, right);
        DifferencesZero(left, right);
        if left != right && (differences != 1 || seen.Some?) {
          assert !AtMostOneSmudge(xs, end) by {
            if differences != 1 {
              assert !CloseAt(xs, end, n);
            } else {
              assert SmudgeAt(xs, end, smudged) && SmudgeAt(xs, end, n) && smudged != n;
            }
          }
          return 0, false;
        }
        if differences == 1 {
          seen := Some(FirstDifference(left, right));
          smudged := n;
        }
      }
      count := count + 1;
      n := n + 1;
    }
    spotted := seen.Some?;
  }

  /** A mirror that scores under the corrected rule has exactly one mirrored pair one character apart, and all others equal. */
  lemma CorrectedExactlyOne(xs: seq<string>, end: nat)
    requires AtMostOneSmudge(xs, end) && SomeSmudge(xs, end)
    ensures exists m: nat :: (InRange(|xs|, end, m) && SmudgeAt(xs, end, m)
      && forall m': nat :: InRange(|xs|, end, m') && m' != m ==> xs[end - m'] == xs[end + 1 + m'])
  {
    var m :| InRange(|xs|, end, m) && SmudgeAt(xs, end, m);
    forall m': nat | InRange(|xs|, end, m') && m' != m
      ensures xs[end - m'] == xs[end + 1 + m']
    {
      assert CloseAt(xs, end, m');
      assert !SmudgeAt(xs, end, m');
    }
  }

  /** Rows "#", "#", ".", ".": both pairs around the middle differ at position 0. */
  function TwoSmudges(): seq<string> {
    ["#", "#", ".", "."]
  }

  /**
   * The mirror between the second and third rows has two smudges: the loop
   * as written lets it score (2, so 200 for the pattern), the corrected
   * rule rejects it.
   */
  lemma TwoSmudgesSameColumn()
    ensures Survives(TwoSmudges(), 1) && SomeSmudge(TwoSmudges(), 1) && Scored(TwoSmudges(), 1) == 2
    ensures !AtMostOneSmudge(TwoSmudges(), 1)
  {
    var xs := TwoSmudges();
    assert Differences("#", ".") == 1 by {
      assert "#"[1..] == "" && "."[1..] == "";
    }
    assert FirstDifference("#", ".") == 0;
    assert xs[1 - 0] == "#" && xs[1 + 1 + 0] == "." && xs[1 - 1] == "#" && xs[1 + 1 + 1] == ".";
    assert SmudgeAt(xs, 1, 0) && SmudgeAt(xs, 1, 1);
    forall m: nat | InRange(|xs|, 1, m) ensures (m == 0 || m == 1) && CloseAt(xs, 1, m) && SmudgeColumn(xs, 1, m) == 0 {
    }
  }
}
