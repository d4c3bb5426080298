/**
 * Day 01, part 1: the calibration value of a line is its first digit and
 * its last digit read as a two-digit number; lines without a digit have
 * none and are skipped by the sum.
 */
module Day01Part1 {
  import opened Text

  /** The number written by the digits `a` then `b`, through `str::parse::<u32>`. */
  lemma {:induction false} TwoDigits(a: char, b: char)
    requires IsDigit(a) && IsDigit(b)
    ensures ParseUnsigned([a, b], U32_MAX) == Some(10 * DigitValue(a) + DigitValue(b))
  {
    var s := [a, b];
    assert UnsignedBody(s) == s;
    assert DecimalValue([a]) == DigitValue(a) by {
      assert [a][..0] == [];
    }
    assert s[..1] == [a];
    assert DecimalValue(s) == 10 * DigitValue(a) + DigitValue(b);
  }

  /**
   * `number_from_string`: the first and the last of the line's digits
   * (the same one when there is only one), parsed as `u32`; a line with no
   * digit parses the empty string, which fails.
   */
  function NumberFromString(source: string): (r: Option<nat>)
    ensures var digits := Digits(source);
      r == if |digits| == 0 then None else Some(10 * DigitValue(digits[0]) + DigitValue(digits[|digits| - 1]))
    ensures r.Some? ==> r.value <= 99
  {
    var digits := Digits(source);
    var numberString := (if |digits| > 0 then [digits[0]] else "") + (if |digits| > 0 then [digits[|digits| - 1]] else "");
    if |digits| > 0 then
      TwoDigits(digits[0], digits[|digits| - 1]);
      assert numberString == [digits[0], digits[|digits| - 1]];
      ParseUnsigned(numberString, U32_MAX)
    else
      assert numberString == "";
      ParseUnsigned(numberString, U32_MAX)
  }

  /** Characters other than digits never change the value. */
  lemma {:induction false} NonDigitIgnored(a: string, c: char, b: string)
    requires !IsDigit(c)
    ensures NumberFromString(a + [c] + b) == NumberFromString(a + b)
  {
    DigitsAppend(a + [c], b);
    DigitsAppend(a, [c]);
    DigitsAppend(a, b);
    assert Digits([c]) == "" by {
      assert [c][1..] == "";
    }
  }

  /** A line with one digit reads it twice. */
  lemma {:induction false} SingleDigit(source: string, c: char)
    requires Digits(source) == [c]
    ensures IsDigit(c) && NumberFromString(source) == Some(11 * DigitValue(c))
  {
    assert Digits(source)[0] == c;
  }

  /** The values of the lines that have one, summed. */
  function CalibrationTotal(lines: seq<string>): nat {
    if |lines| == 0 then 0
    else
      CalibrationTotal(lines[..|lines| - 1])
      + match NumberFromString(lines[|lines| - 1]) case Some(v) => v case None => 0
  }

  /** No line adds more than 99. */
  lemma {:induction false} CalibrationTotalBound(lines: seq<string>)
    ensures CalibrationTotal(lines) <= 99 * |lines|
  {
    if |lines| > 0 {
      CalibrationTotalBound(lines[..|lines| - 1]);
    }
  }

  /** `calculate_calibration_values_sum`: the `u32` sum must not overflow. */
  method CalibrationValuesSum(lines: seq<string>) returns (total: nat)
    requires CalibrationTotal(lines) <= U32_MAX
    ensures total == CalibrationTotal(lines)
  {
    total := 0;
    for i := 0 to |lines|
      invariant total == CalibrationTotal(lines[..i])
    {
      assert lines[..i + 1][..i] == lines[..i];
      match NumberFromString(lines[i])
      case Some(v) =>
        total := total + v;
      case None =>
    }
    assert lines[..|lines|] == lines;
  }
}

/**
 * Day 01, part 2: spelled-out digits ("one" to "nine") count as well. The
 * line is cut at every digit; the letters in between are searched for every
 * word, and the matches are put in order of their position. The value is
 * read from the first and the last number found.
 */
module Day01Part2 {
  import opened Text
  import Day01Part1

  datatype Number = One | Two | Three | Four | Five | Six | Seven | Eight | Nine

  /** `Number::iterator`: the numbers in ascending order. */
  const NUMBERS: seq<Number> := [One, Two, Three, Four, Five, Six, Seven, Eight, Nine]

  lemma AllNumbers(n: Number)
    ensures n in NUMBERS
  {
  }

  /** `to_char`. */
  function ToChar(n: Number): (c: char)
    ensures '1' <= c <= '9'
  {
    match n
    case One => '1'
    case Two => '2'
    case Three => '3'
    case Four => '4'
    case Five => '5'
    case Six => '6'
    case Seven => '7'
    case Eight => '8'
    case Nine => '9'
  }

  /** `TryFrom<char>`: '1' to '9'; everything else, '0' included, is rejected. */
  function FromChar(c: char): (r: Option<Number>)
    ensures r.Some? <==> '1' <= c <= '9'
  {
    match c
    case '1' => Some(One)
    case '2' => Some(Two)
    case '3' => Some(Three)
    case '4' => Some(Four)
    case '5' => Some(Five)
    case '6' => Some(Six)
    case '7' => Some(Seven)
    case '8' => Some(Eight)
    case '9' => Some(Nine)
    case _ => None
  }

  /** The two conversions are inverse. */
  lemma FromCharToChar(c: char, n: Number)
    ensures FromChar(c) == Some(n) <==> ToChar(n) == c
  {
  }

  /** `Display`. */
  function Word(n: Number): (w: string)
    ensures 3 <= |w| <= 5
  {
    match n
    case One => "one"
    case Two => "two"
    case Three => "three"
    case Four => "four"
    case Five => "five"
    case Six => "six"
    case Seven => "seven"
    case Eight => "eight"
    case Nine => "nine"
  }

  /** `TryFrom<&str>`: exactly the nine words. */
  function FromWord(value: string): (r: Option<Number>) {
    match value
    case "one" => Some(One)
    case "two" => Some(Two)
    case "three" => Some(Three)
    case "four" => Some(Four)
    case "five" => Some(Five)
    case "six" => Some(Six)
    case "seven" => Some(Seven)
    case "eight" => Some(Eight)
    case "nine" => Some(Nine)
    case _ => None
  }

  /** Word and `FromWord` are inverse. */
  lemma FromWordWord(value: string, n: Number)
    ensures FromWord(value) == Some(n) <==> Word(n) == value
  {
  }

  /** Words are made of letters. */
  lemma WordLetters(n: Number, k: nat)
    requires k < |Word(n)|
    ensures !IsDigit(Word(n)[k])
  {
  }

  // ---------------------------------------------------------------------------
  // Where words occur
  // ---------------------------------------------------------------------------

  /** The first three letters already tell the words apart. */
  function Stem(n: Number): (r: string)
    ensures r == Word(n)[..3]
  {
    match n
    case One => "one"
    case Two => "two"
    case Three => "thr"
    case Four => "fou"
    case Five => "fiv"
    case Six => "six"
    case Seven => "sev"
    case Eight => "eig"
    case Nine => "nin"
  }

  lemma StemInjective(m: Number, n: Number)
    requires Stem(m) == Stem(n)
    ensures m == n
  {
  }

  /** At most one word starts at any position: no word begins another one. */
  lemma {:induction false} OneWordAt(s: string, i: nat, m: Number, n: Number)
    requires OccursAt(s, Word(m), i) && OccursAt(s, Word(n), i)
    ensures m == n
  {
    assert Stem(m) == s[i..i + 3] by {
      assert s[i..i + |Word(m)|][..3] == s[i..i + 3];
    }
    assert Stem(n) == s[i..i + 3] by {
      assert s[i..i + |Word(n)|][..3] == s[i..i + 3];
    }
    StemInjective(m, n);
  }

  /**
   * A word shifted against itself mismatches in its first or second letter,
   * so no word ends the way it starts.
   */
  lemma NoBorder(n: Number, k: nat)
    requires 0 < k < |Word(n)|
    ensures Word(n)[k] != Word(n)[0] || (k + 1 < |Word(n)| && Word(n)[k + 1] != Word(n)[1])
  {
  }

  /** Two occurrences of one word never overlap. */
  lemma {:induction false} NoOverlap(s: string, n: Number, i: nat, j: nat)
    requires OccursAt(s, Word(n), i) && OccursAt(s, Word(n), j) && i < j
    ensures i + |Word(n)| <= j
  {
    var w := Word(n);
    if j < i + |w| {
      var k := j - i;
      NoBorder(n, k);
    }
  }

  /** `token.match_indices(word)`: leftmost occurrences, each search resuming after the match. */
  function MatchIndices(s: string, w: string, from: nat): (r: seq<nat>)
    requires |w| > 0
    ensures forall k :: 0 <= k < |r| ==> from <= r[k] && OccursAt(s, w, r[k])
    ensures forall i, j :: 0 <= i < j < |r| ==> r[i] < r[j]
    decreases |s| - from
  {
    match FindFrom(s, w, from)
    case None => []
    case Some(i) => [i] + MatchIndices(s, w, i + |w|)
  }

  /** Occurrences of `w` in `s` never overlap each other. */
  ghost predicate NonOverlapping(s: string, w: string) {
    forall i: nat, j: nat :: OccursAt(s, w, i) && OccursAt(s, w, j) && i < j ==> i + |w| <= j
  }

  lemma WordNonOverlapping(s: string, n: Number)
    ensures NonOverlapping(s, Word(n))
  {
    forall i: nat, j: nat | OccursAt(s, Word(n), i) && OccursAt(s, Word(n), j) && i < j
      ensures i + |Word(n)| <= j
    {
      NoOverlap(s, n, i, j);
    }
  }

  /** When occurrences cannot overlap, the matches are all the occurrences. */
  lemma {:induction false} MatchIndicesAll(s: string, w: string, from: nat, i: nat)
    requires |w| > 0 && NonOverlapping(s, w)
    ensures i in MatchIndices(s, w, from) <==> from <= i && OccursAt(s, w, i)
    decreases |s| - from
  {
    match FindFrom(s, w, from)
    case None =>
    case Some(j) =>
      var rest := MatchIndices(s, w, j + |w|);
      assert MatchIndices(s, w, from) == [j] + rest;
      MatchIndicesAll(s, w, j + |w|, i);
  }

  // ---------------------------------------------------------------------------
  // `numbers_from_token`
  // ---------------------------------------------------------------------------

  /** Each position paired with the number found there. */
  function Tagged(indices: seq<nat>, n: Number): (r: seq<(nat, Number)>)
    ensures |r| == |indices| && forall k :: 0 <= k < |r| ==> r[k] == (indices[k], n)
  {
    seq(|indices|, k requires 0 <= k < |indices| => (indices[k], n))
  }

  lemma TaggedAll(indices: seq<nat>, n: Number, p: (nat, Number))
    ensures p in Tagged(indices, n) <==> p.1 == n && p.0 in indices
  {
    if p.1 == n && p.0 in indices {
      var k :| 0 <= k < |indices| && indices[k] == p.0;
      assert Tagged(indices, n)[k] == p;
    }
  }

  /** Every match of every word in `numbers`, word by word, tagged with its position. */
  function Occurrences(s: string, numbers: seq<Number>): seq<(nat, Number)> {
    if |numbers| == 0 then []
    else Tagged(MatchIndices(s, Word(numbers[0]), 0), numbers[0]) + Occurrences(s, numbers[1..])
  }

  lemma {:induction false} OccurrencesAll(s: string, numbers: seq<Number>, p: (nat, Number))
    ensures p in Occurrences(s, numbers) <==> p.1 in numbers && OccursAt(s, Word(p.1), p.0)
  {
    if |numbers| > 0 {
      var n := numbers[0];
      OccurrencesAll(s, numbers[1..], p);
      TaggedAll(MatchIndices(s, Word(n), 0), n, p);
      WordNonOverlapping(s, n);
      MatchIndicesAll(s, Word(n), 0, p.0);
      assert p.1 in numbers <==> p.1 == n || p.1 in numbers[1..] by {
        assert numbers == [n] + numbers[1..];
      }
    }
  }

  /** Positions strictly increase along the list. */
  predicate StrictlySorted(ps: seq<(nat, Number)>) {
    forall i, j :: 0 <= i < j < |ps| ==> ps[i].0 < ps[j].0
  }

  /** No two entries share a position. */
  predicate DistinctPositions(ps: seq<(nat, Number)>) {
    forall i, j :: 0 <= i < j < |ps| ==> ps[i].0 != ps[j].0
  }

  lemma {:induction false} AppendDistinct(a: seq<(nat, Number)>, b: seq<(nat, Number)>)
    requires DistinctPositions(a) && DistinctPositions(b)
    requires forall i, j :: 0 <= i < |a| && 0 <= j < |b| ==> a[i].0 != b[j].0
    ensures DistinctPositions(a + b)
  {
    var ab := a + b;
    forall i, j | 0 <= i < j < |ab| ensures ab[i].0 != ab[j].0 {
      if j < |a| {
        assert ab[i] == a[i] && ab[j] == a[j];
      } else if i < |a| {
        assert ab[i] == a[i] && ab[j] == b[j - |a|];
      } else {
        assert ab[i] == b[i - |a|] && ab[j] == b[j - |a|];
      }
    }
  }

  predicate NoRepeats(numbers: seq<Number>) {
    forall i, j :: 0 <= i < j < |numbers| ==> numbers[i] != numbers[j]
  }

  lemma HeadNotInTail(numbers: seq<Number>)
    requires |numbers| > 0 && NoRepeats(numbers)
    ensures numbers[0] !in numbers[1..] && NoRepeats(numbers[1..])
  {
    forall k | 0 <= k < |numbers| - 1 ensures numbers[1..][k] != numbers[0] {
      assert numbers[1..][k] == numbers[k + 1];
    }
  }

  /** Matches of different words never share a position, and one word's matches increase. */
  lemma {:induction false} OccurrencesDistinct(s: string, numbers: seq<Number>)
    requires NoRepeats(numbers)
    ensures DistinctPositions(Occurrences(s, numbers))
  {
    if |numbers| > 0 {
      var here := Tagged(MatchIndices(s, Word(numbers[0]), 0), numbers[0]);
      var rest := Occurrences(s, numbers[1..]);
      HeadNotInTail(numbers);
      OccurrencesDistinct(s, numbers[1..]);
      forall i, j | 0 <= i < |here| && 0 <= j < |rest| ensures here[i].0 != rest[j].0 {
        OccurrencesAll(s, numbers[1..], rest[j]);
        if here[i].0 == rest[j].0 {
          OneWordAt(s, here[i].0, numbers[0], rest[j].1);
        }
      }
      AppendDistinct(here, rest);
    }
  }

  /** Inserts `x` after every entry whose position is not larger (stable). */
  function InsertByPosition(sorted: seq<(nat, Number)>, x: (nat, Number)): (r: seq<(nat, Number)>)
    ensures |r| == |sorted| + 1
    ensures forall p :: p in r <==> p in sorted || p == x
  {
    if |sorted| == 0 then [x]
    else if sorted[|sorted| - 1].0 <= x.0 then sorted + [x]
    else InsertByPosition(sorted[..|sorted| - 1], x) + [sorted[|sorted| - 1]]
  }

  /** `sort_by(|a, b| a.0.cmp(&b.0))`, a stable sort on the position, as insertion sort. */
  function SortByPosition(ps: seq<(nat, Number)>): (r: seq<(nat, Number)>)
    ensures |r| == |ps|
    ensures forall p :: p in r <==> p in ps
  {
    if |ps| == 0 then [] else InsertByPosition(SortByPosition(ps[..|ps| - 1]), ps[|ps| - 1])
  }

  lemma {:induction false} InsertStrict(sorted: seq<(nat, Number)>, x: (nat, Number))
    requires StrictlySorted(sorted)
    requires forall k :: 0 <= k < |sorted| ==> sorted[k].0 != x.0
    ensures StrictlySorted(InsertByPosition(sorted, x))
  {
    if |sorted| > 0 && sorted[|sorted| - 1].0 > x.0 {
      var init := sorted[..|sorted| - 1];
      InsertStrict(init, x);
      var r := InsertByPosition(init, x);
      forall k | 0 <= k < |r| ensures r[k].0 < sorted[|sorted| - 1].0 {
        assert r[k] in init || r[k] == x;
      }
    }
  }

  lemma {:induction false} SortStrict(ps: seq<(nat, Number)>)
    requires DistinctPositions(ps)
    ensures StrictlySorted(SortByPosition(ps))
  {
    if |ps| > 0 {
      var init := ps[..|ps| - 1];
      var last := ps[|ps| - 1];
      assert DistinctPositions(init);
      SortStrict(init);
      var sorted := SortByPosition(init);
      forall k | 0 <= k < |sorted| ensures sorted[k].0 != last.0 {
        assert sorted[k] in init;
      }
      InsertStrict(sorted, last);
    }
  }

  lemma FirstIn<T>(xs: seq<T>)
    ensures |xs| > 0 ==> xs[0] in xs
  {
  }

  /** Two lists sorted strictly by position that hold the same entries are the same list. */
  lemma {:induction false} StrictlySortedUnique(xs: seq<(nat, Number)>, ys: seq<(nat, Number)>)
    requires StrictlySorted(xs) && StrictlySorted(ys)
    requires forall p :: p in xs <==> p in ys
    ensures xs == ys
    decreases |xs|
  {
    if |xs| > 0 && |ys| > 0 {
      assert xs[0] == ys[0] by {
        assert xs[0] in ys && ys[0] in xs;
      }
      forall p ensures p in xs[1..] <==> p in ys[1..] {
        if p in xs[1..] {
          assert p in ys;
          assert p != ys[0];
        }
        if p in ys[1..] {
          assert p in xs;
          assert p != xs[0];
        }
      }
      StrictlySortedUnique(xs[1..], ys[1..]);
      assert xs == [xs[0]] + xs[1..] && ys == [ys[0]] + ys[1..];
    } else {
      FirstIn(xs);
      FirstIn(ys);
    }
  }

  function Numbers(ps: seq<(nat, Number)>): (r: seq<Number>)
    ensures |r| == |ps| && forall k :: 0 <= k < |ps| ==> r[k] == ps[k].1
  {
    seq(|ps|, k requires 0 <= k < |ps| => ps[k].1)
  }

  /** Every match of every word, in order of position. */
  function MatchesInOrder(token: string): seq<Number> {
    Numbers(SortByPosition(Occurrences(token, NUMBERS)))
  }

  // ---------------------------------------------------------------------------
  // Reading left to right
  // ---------------------------------------------------------------------------

  /** The word starting at position `i`, if one does. */
  function WordAt(s: string, i: nat): (r: Option<Number>)
    ensures r.Some? ==> OccursAt(s, Word(r.value), i)
    ensures forall n :: OccursAt(s, Word(n), i) ==> r == Some(n)
  {
    var r := FindWord(s, i, NUMBERS);
    if r.Some? then
      forall n | OccursAt(s, Word(n), i) ensures n == r.value {
        OneWordAt(s, i, r.value, n);
      }
      r
    else
      forall n ensures !OccursAt(s, Word(n), i) {
        AllNumbers(n);
      }
      r
  }

  function FindWord(s: string, i: nat, numbers: seq<Number>): (r: Option<Number>)
    ensures r.Some? ==> OccursAt(s, Word(r.value), i)
    ensures r.None? ==> forall n :: n in numbers ==> !OccursAt(s, Word(n), i)
  {
    if |numbers| == 0 then None
    else if OccursAt(s, Word(numbers[0]), i) then Some(numbers[0])
    else FindWord(s, i, numbers[1..])
  }

  /** The spelled-out numbers at positions `from` onwards, each with its position. */
  function WordsFrom(s: string, from: nat): (r: seq<(nat, Number)>)
    ensures forall k :: 0 <= k < |r| ==> from <= r[k].0
    decreases |s| - from
  {
    if from >= |s| then []
    else
      var rest := WordsFrom(s, from + 1);
      match WordAt(s, from)
      case Some(n) => [(from, n)] + rest
      case None => rest
  }

  lemma {:induction false} WordsFromSorted(s: string, from: nat)
    ensures StrictlySorted(WordsFrom(s, from))
    decreases |s| - from
  {
    if from < |s| {
      WordsFromSorted(s, from + 1);
    }
  }

  lemma {:induction false} WordsFromAll(s: string, from: nat, p: (nat, Number))
    ensures p in WordsFrom(s, from) <==> from <= p.0 && OccursAt(s, Word(p.1), p.0)
    decreases |s| - from
  {
    if from < |s| {
      WordsFromAll(s, from + 1, p);
      if p.0 == from && OccursAt(s, Word(p.1), p.0) {
        assert WordAt(s, from) == Some(p.1);
      }
    }
  }

  /** The spelled-out numbers of a text, left to right; overlapping words all count. */
  function SpelledNumbers(s: string): seq<Number> {
    Numbers(WordsFrom(s, 0))
  }

  lemma NumbersNoRepeats()
    ensures NoRepeats(NUMBERS)
  {
  }

  /** The sorted matches and the left-to-right reading hold the same entries. */
  lemma SameEntries(token: string, p: (nat, Number))
    ensures p in SortByPosition(Occurrences(token, NUMBERS)) <==> p in WordsFrom(token, 0)
  {
    OccurrencesAll(token, NUMBERS, p);
    WordsFromAll(token, 0, p);
    AllNumbers(p.1);
  }

  /** Sorting the matches by position reads every spelled-out number, left to right. */
  lemma {:induction false} MatchesInOrderScan(token: string)
    ensures MatchesInOrder(token) == SpelledNumbers(token)
  {
    var occurrences := Occurrences(token, NUMBERS);
    NumbersNoRepeats();
    OccurrencesDistinct(token, NUMBERS);
    SortStrict(occurrences);
    WordsFromSorted(token, 0);
    forall p ensures p in SortByPosition(occurrences) <==> p in WordsFrom(token, 0) {
      SameEntries(token, p);
    }
    StrictlySortedUnique(SortByPosition(occurrences), WordsFrom(token, 0));
  }

  // ---------------------------------------------------------------------------
  // `number_from_string`
  // ---------------------------------------------------------------------------

  /** What a line says at position `j`: a digit other than '0', or a word starting there. */
  function ReadAt(s: string, j: nat): seq<Number>
    requires j < |s|
  {
    if IsDigit(s[j]) then
      match FromChar(s[j]) case Some(n) => [n] case None => []
    else
      match WordAt(s, j) case Some(n) => [n] case None => []
  }

  /** Everything read at positions `a` up to `b`, left to right. */
  function ReadRange(s: string, a: nat, b: nat): seq<Number>
    requires a <= b <= |s|
    decreases b - a
  {
    if a == b then [] else ReadAt(s, a) + ReadRange(s, a + 1, b)
  }

  lemma {:induction false} ReadRangeSplit(s: string, a: nat, b: nat, c: nat)
    requires a <= b <= c <= |s|
    ensures ReadRange(s, a, c) == ReadRange(s, a, b) + ReadRange(s, b, c)
    decreases b - a
  {
    if a < b {
      ReadRangeSplit(s, a + 1, b, c);
    }
  }

  /** Every number a line spells, as digits or words, left to right; overlapping words all count. */
  function LineNumbers(s: string): seq<Number> {
    ReadRange(s, 0, |s|)
  }

  /** The two-digit number from the first and the last of `numbers`; none when there is none. */
  function FirstLastValue(numbers: seq<Number>): (r: Option<nat>)
    ensures r.Some? ==> 11 <= r.value <= 99
  {
    if |numbers| == 0 then None
    else Some(10 * DigitValue(ToChar(numbers[0])) + DigitValue(ToChar(numbers[|numbers| - 1])))
  }

  /** A line's value, read from the first and the last number it spells. */
  function CalibrationValue(s: string): Option<nat> {
    FirstLastValue(LineNumbers(s))
  }

  lemma SliceOfSlice(s: string, t: nat, i: nat, a: nat, b: nat)
    requires t <= i <= |s| && a <= b <= i - t
    ensures s[t..i][a..b] == s[t + a..t + b]
  {
    forall j | 0 <= j < b - a ensures s[t..i][a..b][j] == s[t + a..t + b][j] {
      assert s[t..i][a..b][j] == s[t..i][a + j];
    }
  }

  /** Words hold no digit, so a word found in a run of letters is found in the line. */
  lemma {:induction false} WordInRun(source: string, t: nat, i: nat, k: nat, n: Number)
    requires t + k < i <= |source|
    requires i == |source| || IsDigit(source[i])
    ensures OccursAt(source[t..i], Word(n), k) <==> OccursAt(source, Word(n), t + k)
  {
    var w := Word(n);
    if OccursAt(source, w, t + k) && t + k + |w| > i {
      assert source[t + k..t + k + |w|][i - t - k] == source[i];
      WordLetters(n, i - t - k);
    } else if OccursAt(source, w, t + k) {
      SliceOfSlice(source, t, i, k, k + |w|);
    } else if OccursAt(source[t..i], w, k) {
      SliceOfSlice(source, t, i, k, k + |w|);
    }
  }

  lemma {:induction false} WordAtRun(source: string, t: nat, i: nat, k: nat)
    requires t + k < i <= |source|
    requires i == |source| || IsDigit(source[i])
    ensures WordAt(source[t..i], k) == WordAt(source, t + k)
  {
    match WordAt(source, t + k)
    case Some(n) =>
      WordInRun(source, t, i, k, n);
    case None =>
      match WordAt(source[t..i], k)
      case Some(m) =>
        WordInRun(source, t, i, k, m);
      case None =>
  }

  lemma NumbersCons(x: (nat, Number), rest: seq<(nat, Number)>)
    ensures Numbers([x] + rest) == [x.1] + Numbers(rest)
  {
  }

  /** One position of a run of letters: the word there, if any. */
  lemma {:induction false} RunStep(source: string, t: nat, i: nat, k: nat)
    requires t + k < i <= |source|
    requires i == |source| || IsDigit(source[i])
    requires !IsDigit(source[t + k])
    ensures Numbers(WordsFrom(source[t..i], k)) == ReadAt(source, t + k) + Numbers(WordsFrom(source[t..i], k + 1))
  {
    var token := source[t..i];
    WordAtRun(source, t, i, k);
    match WordAt(token, k)
    case Some(n) =>
      NumbersCons((k, n), WordsFrom(token, k + 1));
    case None =>
  }

  /** The words of a run of letters are what the line reads over the run. */
  lemma {:induction false} RunNumbers(source: string, t: nat, i: nat, k: nat)
    requires t + k <= i <= |source|
    requires i == |source| || IsDigit(source[i])
    requires forall j :: t <= j < i ==> !IsDigit(source[j])
    ensures Numbers(WordsFrom(source[t..i], k)) == ReadRange(source, t + k, i)
    decreases i - t - k
  {
    if t + k < i {
      RunNumbers(source, t, i, k + 1);
      RunStep(source, t, i, k);
    }
  }

  /**
   * `numbers_from_token`: the matches of each word in turn, tagged with
   * their positions, stably sorted by position, the positions then dropped.
   */
  method NumbersFromToken(token: string) returns (numbers: seq<Number>)
    ensures numbers == SpelledNumbers(token)
  {
    var matches := Occurrences(token, NUMBERS);
    var sorted := SortByPosition(matches);
    numbers := Numbers(sorted);
    MatchesInOrderScan(token);
  }

  /** What the line reads up to a digit, the digit included. */
  function Through(numbers: seq<Number>, token: string, c: char): seq<Number> {
    numbers + SpelledNumbers(token) + match FromChar(c) case Some(n) => [n] case None => []
  }

  /** The loop's step at a digit: the token's words, then the digit, extend the reading. */
  lemma {:induction false} DigitStep(source: string, t: nat, i: nat)
    requires t <= i < |source| && IsDigit(source[i])
    requires forall j :: t <= j < i ==> !IsDigit(source[j])
    ensures Through(ReadRange(source, 0, t), source[t..i], source[i]) == ReadRange(source, 0, i + 1)
  {
    RunNumbers(source, t, i, 0);
    ReadRangeSplit(source, 0, t, i);
    ReadRangeSplit(source, 0, i, i + 1);
  }

  /** After the loop, the trailing token's words complete the reading. */
  lemma {:induction false} LastToken(source: string, t: nat)
    requires t <= |source|
    requires forall j :: t <= j < |source| ==> !IsDigit(source[j])
    ensures ReadRange(source, 0, t) + SpelledNumbers(source[t..|source|]) == LineNumbers(source)
  {
    RunNumbers(source, t, |source|, 0);
    ReadRangeSplit(source, 0, t, |source|);
  }

  /** The first and the last number written as digits and parsed as `u32`; the empty string fails. */
  method FirstAndLast(numbers: seq<Number>) returns (r: Option<nat>)
    ensures r == FirstLastValue(numbers)
  {
    var numberString := "";
    if |numbers| > 0 {
      numberString := numberString + [ToChar(numbers[0])];
    }
    if |numbers| > 0 {
      numberString := numberString + [ToChar(numbers[|numbers| - 1])];
    }
    if |numbers| > 0 {
      Day01Part1.TwoDigits(ToChar(numbers[0]), ToChar(numbers[|numbers| - 1]));
      assert numberString == [ToChar(numbers[0]), ToChar(numbers[|numbers| - 1])];
    }
    r := ParseUnsigned(numberString, U32_MAX);
  }

  /**
   * `number_from_string`: letters gather into a token until a digit comes;
   * the token's words are read, then the digit ('0' reads nothing). The
   * first and the last number are written as digits and parsed as `u32`.
   */
  method NumberFromStringScan(source: string) returns (r: Option<nat>)
    ensures r == CalibrationValue(source)
  {
    var numbers: seq<Number> := [];
    var currentToken := "";
    ghost var t: nat := 0;
    for i := 0 to |source|
      invariant t <= i
      invariant currentToken == source[t..i]
      invariant forall j :: t <= j < i ==> !IsDigit(source[j])
      invariant numbers == ReadRange(source, 0, t)
    {
      var c := source[i];
      if IsDigit(c) {
        DigitStep(source, t, i);
        var found := NumbersFromToken(currentToken);
        numbers := numbers + found;
        currentToken := "";
        match FromChar(c) {
          case Some(n) => numbers := numbers + [n];
          case None =>
        }
        t := i + 1;
      } else {
        currentToken := currentToken + [c];
      }
    }
    if currentToken != "" {
      LastToken(source, t);
      var found := NumbersFromToken(currentToken);
      numbers := numbers + found;
    } else {
      assert t == |source|;
    }
    assert numbers == LineNumbers(source);
    r := FirstAndLast(numbers);
  }

  /** The values of the lines that have one, summed. */
  function CalibrationTotal(lines: seq<string>): nat {
    if |lines| == 0 then 0
    else
      CalibrationTotal(lines[..|lines| - 1])
      + match CalibrationValue(lines[|lines| - 1]) case Some(v) => v case None => 0
  }

  /** `calculate_calibration_values_sum`: the `u32` sum must not overflow. */
  method CalibrationValuesSum(lines: seq<string>) returns (total: nat)
    requires CalibrationTotal(lines) <= U32_MAX
    ensures total == CalibrationTotal(lines)
  {
    total := 0;
    for i := 0 to |lines|
      invariant total == CalibrationTotal(lines[..i])
    {
      assert lines[..i + 1][..i] == lines[..i];
      var value := NumberFromStringScan(lines[i]);
      match value
      case Some(v) =>
        total := total + v;
      case None =>
    }
    assert lines[..|lines|] == lines;
  }

  // ---------------------------------------------------------------------------
  // Agreement with part 1
  // ---------------------------------------------------------------------------

  /** The numbers written back as digits. */
  function Chars(numbers: seq<Number>): (r: string)
    ensures |r| == |numbers| && forall k :: 0 <= k < |r| ==> r[k] == ToChar(numbers[k])
  {
    seq(|numbers|, k requires 0 <= k < |numbers| => ToChar(numbers[k]))
  }

  /** No word is spelled anywhere in the line. */
  predicate NoWords(s: string) {
    forall j :: 0 <= j < |s| ==> WordAt(s, j).None?
  }

  lemma {:induction false} PlainRange(s: string, a: nat)
    requires a <= |s| && NoWords(s) && '0' !in s
    ensures Chars(ReadRange(s, a, |s|)) == Digits(s[a..])
    decreases |s| - a
  {
    if a < |s| {
      PlainRange(s, a + 1);
      assert s[a..][1..] == s[a + 1..];
      assert WordAt(s, a).None?;
      match FromChar(s[a]) {
        case Some(n) =>
          FromCharToChar(s[a], n);
          assert Chars([n] + ReadRange(s, a + 1, |s|)) == [s[a]] + Chars(ReadRange(s, a + 1, |s|));
        case None =>
      }
    }
  }

  /** Without spelled words and without '0', a line has the value part 1 gives it. */
  lemma {:induction false} AgreesWithPart1(s: string)
    requires NoWords(s) && '0' !in s
    ensures CalibrationValue(s) == Day01Part1.NumberFromString(s)
  {
    var numbers := LineNumbers(s);
    var digits := Digits(s);
    assert Chars(numbers) == digits by {
      PlainRange(s, 0);
      assert s[0..] == s;
    }
    if |numbers| > 0 {
      assert digits[0] == ToChar(numbers[0]);
      assert digits[|digits| - 1] == ToChar(numbers[|numbers| - 1]);
    }
  }
}
