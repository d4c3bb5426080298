/**
 * Day 09, part 2: every line is a history of readings. Differencing is
 * repeated until a row is all zero; the value before the first reading is
 * then extrapolated back up through the rows. The answer sums the
 * extrapolated values over all lines.
 */
module Day09Part2 {
  import opened Text

  const I64_MIN: int := -I64_MAX - 1

  predicate InI64(x: int) {
    I64_MIN <= x <= I64_MAX
  }

  /** `calculate_differences`: one value fewer, each the step between neighbours. */
  function Differences(values: seq<int>): (r: seq<int>)
    ensures |values| > 0 ==> |r| == |values| - 1
    ensures |values| == 0 ==> r == []
  {
    if |values| < 2 then []
    else [values[1] - values[0]] + Differences(values[1..])
  }

  /** Each difference is the step from one value to the next. */
  lemma {:induction false} DifferencesAt(values: seq<int>, i: nat)
    requires i + 1 < |values|
    ensures Differences(values)[i] == values[i + 1] - values[i]
  {
    if i > 0 {
      DifferencesAt(values[1..], i - 1);
    }
  }

  /** The differences lose nothing but the first value: summing them rebuilds the row. */
  lemma {:induction false} DifferencesTelescope(values: seq<int>, i: nat)
    requires i < |values|
    ensures values[i] == values[0] + Sum(Differences(values)[..i])
  {
    if i > 0 {
      var d := Differences(values);
      DifferencesTelescope(values, i - 1);
      DifferencesAt(values, i - 1);
      assert d[..i] == d[..i - 1] + [d[i - 1]];
      SumAppend(d[..i - 1], [d[i - 1]]);
    }
  }

  lemma {:induction false} DifferencesCons(x: int, row: seq<int>)
    requires |row| > 0
    ensures Differences([x] + row) == [row[0] - x] + Differences(row)
  {
    var s := [x] + row;
    assert s[1..] == row;
    assert s[1] - s[0] == row[0] - x;
  }

  lemma {:induction false} DifferencesNCons(x: int, row: seq<int>, k: nat)
    requires |row| > 0
    ensures DifferencesN([x] + row, k + 1) == DifferencesN([row[0] - x] + Differences(row), k)
  {
    DifferencesCons(x, row);
  }

  predicate AllZero(row: seq<int>) {
    forall i :: 0 <= i < |row| ==> row[i] == 0
  }

  /**
   * Every row down to the first all-zero one is non-empty, so every
   * `first().unwrap()` of the extrapolation succeeds.
   */
  predicate Extrapolable(row: seq<int>)
    decreases |row|
  {
    |row| > 0 && (AllZero(row) || Extrapolable(Differences(row)))
  }

  lemma {:induction false} ExtrapolableFromDifferences(values: seq<int>)
    requires |values| > 0 && Extrapolable(Differences(values))
    ensures Extrapolable(values)
  {
  }

  lemma {:induction false} AllZeroCons(x: int, row: seq<int>)
    requires x == 0 && AllZero(row)
    ensures AllZero([x] + row)
  {
  }

  lemma {:induction false} DifferencesOfZero(row: seq<int>)
    requires AllZero(row)
    ensures AllZero(Differences(row))
  {
    forall i | 0 <= i < |Differences(row)|
      ensures Differences(row)[i] == 0
    {
      DifferencesAt(row, i);
      assert row[i] == 0 && row[i + 1] == 0;
    }
  }

  /** How many times `row` is differenced before it is all zero. */
  function Depth(row: seq<int>): (d: nat)
    requires Extrapolable(row)
    ensures d < |row|
    decreases |row|
  {
    if AllZero(row) then 0 else 1 + Depth(Differences(row))
  }

  /** `k` rounds of differencing. */
  function DifferencesN(row: seq<int>, k: nat): seq<int>
    decreases k
  {
    if k == 0 then row else DifferencesN(Differences(row), k - 1)
  }

  /** The value extrapolated before the first one: 0 for an all-zero row. */
  function Previous(row: seq<int>): int
    requires Extrapolable(row)
    decreases |row|
  {
    if AllZero(row) then 0 else row[0] - Previous(Differences(row))
  }

  /**
   * The extrapolated value extends the row without raising its degree: the
   * row with it in front is all zero after as many rounds of differencing.
   */
  lemma {:induction false} PreviousExtends(row: seq<int>)
    requires Extrapolable(row)
    ensures AllZero(DifferencesN([Previous(row)] + row, Depth(row)))
    decreases |row|
  {
    if AllZero(row) {
      assert Previous(row) == 0 && Depth(row) == 0;
      AllZeroCons(0, row);
    } else {
      var d := Differences(row);
      var k := Depth(d);
      var x := Previous(row);
      assert Depth(row) == k + 1;
      assert row[0] - x == Previous(d);
      DifferencesNCons(x, row, k);
      PreviousExtends(d);
      assert DifferencesN([x] + row, k + 1) == DifferencesN([Previous(d)] + d, k);
    }
  }

  /** ... and it is the only value that does. */
  lemma {:induction false} PreviousUnique(row: seq<int>, y: int)
    requires Extrapolable(row)
    requires AllZero(DifferencesN([y] + row, Depth(row)))
    ensures y == Previous(row)
    decreases |row|
  {
    if AllZero(row) {
      assert Depth(row) == 0;
      assert ([y] + row)[0] == y;
    } else {
      var d := Differences(row);
      var k := Depth(d);
      assert Depth(row) == k + 1;
      assert Previous(row) == row[0] - Previous(d);
      DifferencesNCons(y, row, k);
      var z := DifferencesN([row[0] - y] + d, k);
      assert z == DifferencesN([y] + row, Depth(row));
      PreviousUnique(d, row[0] - y);
    }
  }

  /**
   * No subtraction on the way overflows `i64`: every row of differences and
   * every partial extrapolation fits.
   */
  predicate NoOverflow(row: seq<int>)
    requires Extrapolable(row)
    decreases |row|
  {
    && (forall i :: 0 <= i < |row| ==> InI64(row[i]))
    && InI64(Previous(row))
    && (!AllZero(row) ==> NoOverflow(Differences(row)))
  }

  /** `extrapolate_next_value`: the difference rows, then back up from the all-zero one. */
  method ExtrapolateNextValue(values: seq<int>) returns (next: int)
    requires |values| > 0 && Extrapolable(Differences(values))
    requires NoOverflow(values)
    ensures next == Previous(values)
  {
    var differences := Differences(values);
    var rows := [differences];
    while !AllZero(differences)
      invariant |rows| > 0 && rows[0] == Differences(values) && differences == rows[|rows| - 1]
      invariant forall k :: 0 <= k < |rows| - 1 ==> !AllZero(rows[k]) && rows[k + 1] == Differences(rows[k])
      invariant forall k :: 0 <= k < |rows| ==> Extrapolable(rows[k])
      decreases |differences|
    {
      differences := Differences(differences);
      rows := rows + [differences];
    }
    var current := 0;
    var k := |rows|;
    while k > 0
      invariant 0 <= k <= |rows|
      invariant current == if k == |rows| then 0 else Previous(rows[k])
    {
      k := k - 1;
      current := rows[k][0] - current;
    }
    next := values[0] - current;
    if AllZero(values) {
      DifferencesOfZero(values);
    }
  }

  /** A history of the worked example extrapolates back to −3. */
  lemma PreviousSampleFirst()
    ensures Extrapolable([0, 3, 6, 9, 12, 15]) && Previous([0, 3, 6, 9, 12, 15]) == -3
  {
    assert Differences([0, 3, 6, 9, 12, 15]) == [3, 3, 3, 3, 3];
    assert Differences([3, 3, 3, 3, 3]) == [0, 0, 0, 0];
    assert AllZero([0, 0, 0, 0]);
    assert Previous([3, 3, 3, 3, 3]) == 3;
    assert Previous([0, 3, 6, 9, 12, 15]) == -3;
  }

  /** A history of the worked example extrapolates back to 0. */
  lemma PreviousSampleSecond()
    ensures Extrapolable([1, 3, 6, 10, 15, 21]) && Previous([1, 3, 6, 10, 15, 21]) == 0
  {
    assert Differences([1, 3, 6, 10, 15, 21]) == [2, 3, 4, 5, 6];
    assert Differences([2, 3, 4, 5, 6]) == [1, 1, 1, 1];
    assert Differences([1, 1, 1, 1]) == [0, 0, 0];
    assert AllZero([0, 0, 0]);
    assert Previous([1, 1, 1, 1]) == 1;
    assert Previous([2, 3, 4, 5, 6]) == 1;
    assert Previous([1, 3, 6, 10, 15, 21]) == 0;
  }

  /** A history of the worked example extrapolates back to 5. */
  lemma PreviousSampleThird()
    ensures Extrapolable([10, 13, 16, 21, 30, 45]) && Previous([10, 13, 16, 21, 30, 45]) == 5
  {
    assert Differences([10, 13, 16, 21, 30, 45]) == [3, 3, 5, 9, 15];
    assert Differences([3, 3, 5, 9, 15]) == [0, 2, 4, 6];
    assert Differences([0, 2, 4, 6]) == [2, 2, 2];
    assert Differences([2, 2, 2]) == [0, 0];
    assert AllZero([0, 0]);
    assert Previous([2, 2, 2]) == 2;
    assert Previous([0, 2, 4, 6]) == -2;
    assert Previous([3, 3, 5, 9, 15]) == 5;
    assert Previous([10, 13, 16, 21, 30, 45]) == 5;
  }

  /** `parse_line`: the whitespace-separated tokens that parse as `i64`. */
  function ParseLine(line: string): seq<int> {
    FilterMapInt(Words(line), I64_MAX)
  }

  /** A line whose history the source extrapolates without a panic. */
  predicate Valid(line: string) {
    var values := ParseLine(line);
    |values| > 0 && Extrapolable(Differences(values)) && NoOverflow(values)
  }

  /** The extrapolated values of the lines, summed. */
  function SumPrevious(lines: seq<string>): int
    requires forall i :: 0 <= i < |lines| ==> Valid(lines[i])
  {
    if |lines| == 0 then 0
    else
      var last := ParseLine(lines[|lines| - 1]);
      assert Valid(lines[|lines| - 1]);
      ExtrapolableFromDifferences(last);
      SumPrevious(lines[..|lines| - 1]) + Previous(last)
  }

  /** `sum_extrapolated_values` on the lines of `text`. */
  method SumExtrapolatedValues(text: string) returns (total: int)
    requires forall i :: 0 <= i < |Lines(text)| ==> Valid(Lines(text)[i])
    ensures total == SumPrevious(Lines(text))
  {
    var lines := Lines(text);
    total := 0;
    for i := 0 to |lines|
      invariant total == SumPrevious(lines[..i])
    {
      var next := ExtrapolateNextValue(ParseLine(lines[i]));
      assert lines[..i + 1][..i] == lines[..i];
      total := total + next;
    }
    assert lines[..|lines|] == lines;
  }
}
