/**
 * Day 06, part 1: a race lasts `t` milliseconds; holding the button for `x`
 * of them moves the boat `x * (t - x)` millimetres. A hold wins when it beats
 * the record distance `d`. Rather than count the winning holds, the source
 * binary-searches `1..t` for the last losing hold `m` below the peak and
 * subtracts the losing holds at both ends: ways = (t + 1) - 2 - 2m.
 */
module Day06Part1 {
  import opened Text

  /** Multiplication by repeated addition, so that the solver meets products only where a proof asks for them. */
  function Mul(a: nat, b: nat): nat {
    if a == 0 then 0 else b + Mul(a - 1, b)
  }

  lemma {:induction false} MulIsProduct(a: nat, b: nat)
    ensures Mul(a, b) == a * b
  {
    if a > 0 {
      MulIsProduct(a - 1, b);
    }
  }

  lemma {:induction false} MulSuccRight(a: nat, b: nat)
    ensures Mul(a, b + 1) == Mul(a, b) + a
  {
    if a > 0 {
      MulSuccRight(a - 1, b);
    }
  }

  lemma {:induction false} MulCommutes(a: nat, b: nat)
    ensures Mul(a, b) == Mul(b, a)
    decreases a + b
  {
    if a > 0 && b > 0 {
      MulCommutes(a - 1, b);
      MulCommutes(a, b - 1);
      MulCommutes(a - 1, b - 1);
      MulSuccRight(a - 1, b - 1);
      MulSuccRight(b - 1, a - 1);
    } else if a > 0 {
      MulCommutes(a - 1, b);
    } else if b > 0 {
      MulCommutes(a, b - 1);
    }
  }

  /** How far the boat goes when the button is held for `x` of `t` milliseconds. */
  function Distance(x: nat, t: nat): nat
    requires x <= t
  {
    Mul(x, t - x)
  }

  /** Every value of the list is at most `max`, so its distance is defined. */
  predicate AtMost(list: seq<nat>, max: nat) {
    forall k :: 0 <= k < |list| ==> list[k] <= max
  }

  /**
   * `binary_search` on the slice list[lo..hi]: halve it, keeping the upper
   * half while the middle value's distance does not beat `value`.
   */
  function Search(list: seq<nat>, lo: nat, hi: nat, value: nat, max: nat): (r: nat)
    requires lo < hi <= |list|
    requires AtMost(list, max)
    ensures exists i :: lo <= i < hi && r == list[i]
    decreases hi - lo
  {
    if hi - lo == 1 then list[lo]
    else
      var mid := lo + (hi - lo) / 2;
      if Distance(list[mid], max) <= value then Search(list, mid, hi, value, max)
      else Search(list, lo, mid, value, max)
  }

  /** When the values of the slice not beating `value` are those before `p`, the search returns the last of them, or the first value when there are none. */
  lemma {:induction false} SearchPrefix(list: seq<nat>, lo: nat, hi: nat, value: nat, max: nat, p: nat)
    requires lo < hi <= |list|
    requires AtMost(list, max)
    requires lo <= p <= hi
    requires forall k :: lo <= k < p ==> Distance(list[k], max) <= value
    requires forall k :: p <= k < hi ==> Distance(list[k], max) > value
    ensures Search(list, lo, hi, value, max) == if p == lo then list[lo] else list[p - 1]
    decreases hi - lo
  {
    if hi - lo > 1 {
      var mid := lo + (hi - lo) / 2;
      if Distance(list[mid], max) <= value {
        SearchPrefix(list, mid, hi, value, max, p);
      } else {
        SearchPrefix(list, lo, mid, value, max, p);
      }
    }
  }

  /** `(1..t).collect()`: every hold but none and all. */
  function Holds(t: nat): (r: seq<nat>)
    ensures |r| == if t == 0 then 0 else t - 1
    ensures forall k :: 0 <= k < |r| ==> r[k] == k + 1 && r[k] < t
  {
    if t == 0 then [] else seq(t - 1, k requires 0 <= k < t - 1 => k + 1)
  }

  /** `maximum_non_win`: the search over the holds; an empty list (t < 2) would panic. */
  function MaximumNonWin(t: nat, d: nat): nat
    requires t >= 2
  {
    Search(Holds(t), 0, t - 1, d, t)
  }

  /** The ways to win as the source counts them; the subtraction would underflow past zero. */
  function Ways(t: nat, d: nat): nat
    requires t >= 2 && 2 * MaximumNonWin(t, d) <= t - 1
  {
    (t + 1) - 2 - 2 * MaximumNonWin(t, d)
  }

  // ---------------------------------------------------------------------------
  // Reference: count the winning holds
  // ---------------------------------------------------------------------------

  predicate Wins(x: nat, t: nat, d: nat)
    requires x <= t
  {
    Distance(x, t) > d
  }

  /** The winning holds among 0 .. n - 1. */
  function CountWins(t: nat, d: nat, n: nat): nat
    requires n <= t + 1
  {
    if n == 0 then 0 else CountWins(t, d, n - 1) + (if Wins(n - 1, t, d) then 1 else 0)
  }

  /** Some hold wins the race. */
  ghost predicate Winnable(t: nat, d: nat) {
    exists x :: 0 <= x <= t && Wins(x, t, d)
  }

  /** The distance grows towards the middle: from x to y when x <= y and x + y <= t. */
  lemma {:induction false} DistanceRises(t: nat, x: nat, y: nat)
    requires x <= y && x + y <= t
    ensures Distance(x, t) <= Distance(y, t)
    decreases y - x
  {
    if x < y {
      if 2 * y <= t + 1 {
        DistanceRises(t, x, y - 1);
        DistanceStep(t, y - 1);
      } else {
        DistanceSymmetric(t, y);
        DistanceRises(t, x, t - y);
      }
    }
  }

  /** One step towards the middle adds t - 2y - 1. */
  lemma DistanceStep(t: nat, y: nat)
    requires 2 * y + 1 <= t
    ensures Distance(y + 1, t) == Distance(y, t) + (t - 2 * y - 1)
  {
    MulSuccRight(y, t - y - 1);
  }

  /** Holding x or t - x goes the same distance. */
  lemma DistanceSymmetric(t: nat, x: nat)
    requires x <= t
    ensures Distance(x, t) == Distance(t - x, t)
  {
    MulCommutes(x, t - x);
  }

  /** The middle hold goes furthest. */
  lemma DistancePeak(t: nat, x: nat)
    requires x <= t
    ensures Distance(x, t) <= Distance(t / 2, t)
  {
    if 2 * x <= t {
      DistanceRises(t, x, t / 2);
    } else {
      DistanceSymmetric(t, x);
      DistanceRises(t, t - x, t / 2);
    }
  }

  /** The last losing hold at or below `x`, 0 when there is none. */
  function LastLosing(t: nat, d: nat, x: nat): (p: nat)
    requires x <= t
    ensures p <= x
    ensures p > 0 ==> !Wins(p, t, d)
    ensures forall y :: p < y <= x ==> Wins(y, t, d)
  {
    if x == 0 then 0 else if !Wins(x, t, d) then x else LastLosing(t, d, x - 1)
  }

  /** The losing holds below the peak end at `Low(t, d)`. */
  function Low(t: nat, d: nat): nat {
    if t == 0 then 0 else LastLosing(t, d, (t - 1) / 2)
  }

  /** In a winnable race, a hold wins exactly when it lies strictly between Low and t - Low. */
  lemma WinsBand(t: nat, d: nat, x: nat)
    requires t >= 1 && Winnable(t, d) && x <= t
    ensures Wins(x, t, d) <==> Low(t, d) < x < t - Low(t, d)
  {
    if 2 * x <= t {
      WinsLowHalf(t, d, x);
    } else {
      DistanceSymmetric(t, x);
      WinsLowHalf(t, d, t - x);
    }
  }

  /** Below the peak, a hold wins exactly when it is above Low. */
  lemma WinsLowHalf(t: nat, d: nat, x: nat)
    requires t >= 1 && Winnable(t, d) && 2 * x <= t
    ensures Wins(x, t, d) <==> Low(t, d) < x
  {
    var p := Low(t, d);
    if x <= p {
      if p > 0 {
        DistanceRises(t, x, p);
      }
    } else if x > (t - 1) / 2 {
      var w :| 0 <= w <= t && Wins(w, t, d);
      DistancePeak(t, w);
      assert x == t / 2;
    }
  }

  /** The holds strictly between p and q among 0 .. n - 1. */
  function Band(n: nat, p: nat, q: nat): nat {
    if n <= p + 1 then 0 else if n <= q then n - p - 1 else if q <= p then 0 else q - p - 1
  }

  lemma {:induction false} CountBand(t: nat, d: nat, n: nat, p: nat, q: nat)
    requires n <= t + 1
    requires forall x :: 0 <= x < n ==> (Wins(x, t, d) <==> p < x < q)
    ensures CountWins(t, d, n) == Band(n, p, q)
  {
    if n > 0 {
      CountBand(t, d, n - 1, p, q);
    }
  }

  /** In a winnable race the winning holds number (t + 1) - 2 - 2 Low. */
  lemma WinsCount(t: nat, d: nat)
    requires t >= 1 && Winnable(t, d)
    ensures 2 * Low(t, d) <= t - 1
    ensures CountWins(t, d, t + 1) == (t + 1) - 2 - 2 * Low(t, d)
  {
    var p := Low(t, d);
    forall x | 0 <= x < t + 1
      ensures Wins(x, t, d) <==> p < x < t - p
    {
      WinsBand(t, d, x);
    }
    CountBand(t, d, t + 1, p, t - p);
  }

  /** In a winnable race the search finds Low, or 1 when no hold from 1 on loses. */
  lemma SearchFindsLow(t: nat, d: nat)
    requires t >= 2 && Winnable(t, d)
    ensures MaximumNonWin(t, d) == if Low(t, d) == 0 then 1 else Low(t, d)
  {
    var list := Holds(t);
    var p := Low(t, d);
    if |list| > 1 {
      var mid := |list| / 2;
      var w :| 0 <= w <= t && Wins(w, t, d);
      DistancePeak(t, w);
      DistanceSymmetric(t, list[mid]);
      assert t - list[mid] == t / 2;
      assert Wins(list[mid], t, d);
      forall k | 0 <= k < mid
        ensures (k < p ==> Distance(list[k], t) <= d) && (p <= k ==> Distance(list[k], t) > d)
      {
        WinsLowHalf(t, d, list[k]);
      }
      SearchPrefix(list, 0, mid, d, t, p);
    }
  }

  /** The count as meant: no losing hold from 1 on means none to subtract. */
  function WaysCorrected(t: nat, d: nat): nat
    requires t >= 1 && Winnable(t, d)
  {
    WinsCount(t, d);
    (t + 1) - 2 - 2 * Low(t, d)
  }

  /** Corrected, the ways are the winning holds of every winnable race. */
  lemma WaysCorrectedCounts(t: nat, d: nat)
    requires t >= 1 && Winnable(t, d)
    ensures WaysCorrected(t, d) == CountWins(t, d, t + 1)
  {
    WinsCount(t, d);
  }

  /** As written, the ways are the winning holds whenever holding 1 loses. */
  lemma WaysCounts(t: nat, d: nat)
    requires t >= 2 && Winnable(t, d) && !Wins(1, t, d)
    ensures 2 * MaximumNonWin(t, d) <= t - 1
    ensures Ways(t, d) == CountWins(t, d, t + 1)
  {
    SearchFindsLow(t, d);
    WinsCount(t, d);
    WinsBand(t, d, 1);
  }

  /** When even holding 1 wins, the search still returns 1: a race of 7 against a record of 0 counts 4 ways, not 6. */
  lemma FirstHoldWins()
    ensures Ways(7, 0) == 4
    ensures CountWins(7, 0, 8) == 6
    ensures WaysCorrected(7, 0) == 6
  {
    assert Wins(1, 7, 0);
    SearchFindsLow(7, 0);
    assert Low(7, 0) == 0;
    WaysCorrectedCounts(7, 0);
    WinsCount(7, 0);
  }

  // ---------------------------------------------------------------------------
  // Input and answer
  // ---------------------------------------------------------------------------

  /** No usize arithmetic of the race overflows or underflows, and the list is not empty. */
  ghost predicate RaceFits(t: nat, d: nat) {
    t >= 2 && t + 1 <= USIZE_MAX
    && (forall x :: 1 <= x < t ==> Distance(x, t) <= USIZE_MAX)
    && 2 * MaximumNonWin(t, d) <= t - 1
  }

  /** The product of the ways of the first `n` races. */
  function WaysProduct(times: seq<nat>, distances: seq<nat>, n: nat): nat
    requires n <= |times| == |distances|
    requires forall k :: 0 <= k < |times| ==> RaceFits(times[k], distances[k])
  {
    if n == 0 then 1
    else
      assert RaceFits(times[n - 1], distances[n - 1]);
      Mul(WaysProduct(times, distances, n - 1), Ways(times[n - 1], distances[n - 1]))
  }

  /** The usize numbers of a line. */
  function Numbers(line: string): seq<nat> {
    FilterMapNat(Words(line), USIZE_MAX)
  }

  /** What the source demands of its input: each race fits and no partial product overflows. */
  ghost predicate Fits(input: string) {
    match SplitOnce(input, '\n')
    case None => true
    case Some(lines) =>
      var times, distances := Numbers(lines.0), Numbers(lines.1);
      |times| == |distances| ==>
        (forall k :: 0 <= k < |times| ==> RaceFits(times[k], distances[k]))
        && forall n :: 0 <= n <= |times| ==> WaysProduct(times, distances, n) <= USIZE_MAX
  }

  /** `power_ways_to_win_races`: 0 without a second line or when the counts differ, else the product of the ways. */
  function Power(input: string): nat
    requires Fits(input)
  {
    match SplitOnce(input, '\n')
    case None => 0
    case Some(lines) =>
      var times, distances := Numbers(lines.0), Numbers(lines.1);
      if |times| != |distances| then 0 else WaysProduct(times, distances, |times|)
  }

  /** With every record beatable and holding 1 losing, the answer is the product of the winning-hold counts. */
  lemma PowerCounts(times: seq<nat>, distances: seq<nat>, n: nat)
    requires n <= |times| == |distances|
    requires forall k :: 0 <= k < |times| ==> RaceFits(times[k], distances[k])
    requires forall k :: 0 <= k < n ==> Winnable(times[k], distances[k]) && !Wins(1, times[k], distances[k])
    ensures WaysProduct(times, distances, n) == ProductOfWins(times, distances, n)
  {
    if n > 0 {
      PowerCounts(times, distances, n - 1);
      WaysCounts(times[n - 1], distances[n - 1]);
    }
  }

  /** The product of the winning-hold counts of the first `n` races. */
  function ProductOfWins(times: seq<nat>, distances: seq<nat>, n: nat): nat
    requires n <= |times| == |distances|
  {
    if n == 0 then 1 else Mul(ProductOfWins(times, distances, n - 1), CountWins(times[n - 1], distances[n - 1], times[n - 1] + 1))
  }

  /** `binary_search`, iteratively: list[lo..hi] is the slice the recursion would be given. */
  method BinarySearch(list: seq<nat>, value: nat, max: nat) returns (r: nat)
    requires |list| > 0
    requires AtMost(list, max)
    ensures r == Search(list, 0, |list|, value, max)
  {
    var lo, hi := 0, |list|;
    while hi - lo != 1
      invariant 0 <= lo < hi <= |list|
      invariant Search(list, lo, hi, value, max) == Search(list, 0, |list|, value, max)
      decreases hi - lo
    {
      var mid := lo + (hi - lo) / 2;
      var travelled := Travel(list[mid], max);
      if travelled <= value {
        lo := mid;
      } else {
        hi := mid;
      }
    }
    r := list[lo];
  }

  /** `hold * (max - hold)`. */
  method Travel(hold: nat, max: nat) returns (r: nat)
    requires hold <= max
    ensures r == Distance(hold, max)
  {
    MulIsProduct(hold, max - hold);
    r := hold * (max - hold);
  }

  /** A checked product of two counts. */
  method Times(a: nat, b: nat) returns (r: nat)
    ensures r == Mul(a, b)
  {
    MulIsProduct(a, b);
    r := a * b;
  }

  /** One race: the search over 1..t, then the subtraction. */
  method RaceWays(t: nat, d: nat) returns (ways: nat)
    requires RaceFits(t, d)
    ensures ways == Ways(t, d)
  {
    var holds: seq<nat> := [];
    for x := 1 to t
      invariant holds == Holds(t)[..x - 1]
    {
      holds := holds + [x];
    }
    assert holds == Holds(t);
    var m := BinarySearch(holds, d, t);
    ways := (t + 1) - 2 - m * 2;
  }

  method PowerWaysToWinRaces(input: string) returns (power: nat)
    requires Fits(input)
    ensures power == Power(input)
  {
    var lines := SplitOnce(input, '\n');
    if lines.None? {
      return 0;
    }
    var times, distances := Numbers(lines.value.0), Numbers(lines.value.1);
    if |times| != |distances| {
      return 0;
    }
    power := ProductOfRaces(times, distances);
  }

  /** The product over the races, one race at a time. */
  method ProductOfRaces(times: seq<nat>, distances: seq<nat>) returns (power: nat)
    requires |times| == |distances|
    requires forall k :: 0 <= k < |times| ==> RaceFits(times[k], distances[k])
    ensures power == WaysProduct(times, distances, |times|)
  {
    power := 1;
    for i := 0 to |times|
      invariant power == WaysProduct(times, distances, i)
    {
      var ways := RaceWays(times[i], distances[i]);
      power := Times(power, ways);
    }
  }
}

/**
 * Day 06, part 2: the spaces were a misprint; all digits of each line make
 * one race.
 */
module Day06Part2 {
  import opened Text
  import opened Day06Part1

  /** `filter(is_numeric)` then `parse::<usize>()`. */
  function Kerned(line: string): Option<nat> {
    ParseUnsigned(Digits(line), USIZE_MAX)
  }

  ghost predicate Fits(input: string) {
    match SplitOnce(input, '\n')
    case None => true
    case Some(lines) =>
      match Kerned(lines.0)
      case None => true
      case Some(t) =>
        match Kerned(lines.1)
        case None => true
        case Some(d) => RaceFits(t, d)
  }

  /** 0 without a second line or when either line has no usize, else the ways of the single race. */
  function Power(input: string): nat
    requires Fits(input)
  {
    match SplitOnce(input, '\n')
    case None => 0
    case Some(lines) =>
      match Kerned(lines.0)
      case None => 0
      case Some(t) =>
        match Kerned(lines.1)
        case None => 0
        case Some(d) => Ways(t, d)
  }

  /** Digits spread across a line read as one number. */
  lemma KernedDigits(a: string, b: string, n: nat)
    requires Digits(a) + Digits(b) == Decimal(n) && n <= USIZE_MAX
    ensures Kerned(a + b) == Some(n)
  {
    DigitsAppend(a, b);
    ParseDecimal(n, USIZE_MAX);
  }

  /** With the record beatable and holding 1 losing, the answer is the number of winning holds. */
  lemma PowerCounts(input: string, t: nat, d: nat)
    requires Fits(input)
    requires SplitOnce(input, '\n').Some?
    requires Kerned(SplitOnce(input, '\n').value.0) == Some(t)
    requires Kerned(SplitOnce(input, '\n').value.1) == Some(d)
    requires Winnable(t, d) && t >= 2 && !Wins(1, t, d)
    ensures Power(input) == CountWins(t, d, t + 1)
  {
    WaysCounts(t, d);
  }

  method PowerWaysToWinRace(input: string) returns (power: nat)
    requires Fits(input)
    ensures power == Power(input)
  {
    var lines := SplitOnce(input, '\n');
    if lines.None? {
      return 0;
    }
    var time := Kerned(lines.value.0);
    if time.None? {
      return 0;
    }
    var distance := Kerned(lines.value.1);
    if distance.None? {
      return 0;
    }
    power := RaceWays(time.value, distance.value);
  }
}
