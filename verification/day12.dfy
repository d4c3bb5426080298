/**
 * Day 12, part 1: every line lists springs ('.' operational, '#' damaged,
 * '?' unknown) and the lengths of the runs of damaged springs. `arrange`
 * counts the ways to resolve the unknowns: it places the first run after
 * n operational springs (n tried in turn), checks the placement against
 * the line, and recurses on what follows with the remaining runs.
 *
 * The model states that count twice: as the source computes it
 * (`Arrange`) and as the number of resolutions of the line whose runs are
 * the listed ones (`Arrangements`), and proves the two equal. The
 * source's cache is modelled as a map; lookups use the line followed by
 * the Debug rendering of the runs, inserts the line alone. Every line the
 * recursion reaches follows a spring of the original line, and no such
 * line followed by a rendering of runs is one of them, so no lookup ever
 * hits and the cache never changes the result.
 */
module Day12Part1 {
  import opened Text

  const OPERATIONAL: char := '.'
  const DAMAGED: char := '#'
  const UNKNOWN: char := '?'

  /** A line of springs as the puzzle writes them. */
  predicate Springs(line: string) {
    forall i :: 0 <= i < |line| ==> line[i] == OPERATIONAL || line[i] == DAMAGED || line[i] == UNKNOWN
  }

  /** A line with every spring known. */
  predicate Resolved(s: string) {
    forall i :: 0 <= i < |s| ==> s[i] == OPERATIONAL || s[i] == DAMAGED
  }

  predicate Positive(groups: seq<nat>) {
    forall i :: 0 <= i < |groups| ==> groups[i] > 0
  }

  // ---------------------------------------------------------------------------
  // The recursion of `arrange`
  // ---------------------------------------------------------------------------

  /** `to_test`: `n` operational springs, a run of `g` damaged ones, one operational spring. */
  function Candidate(n: nat, g: nat): (r: string)
    ensures |r| == n + g + 1
  {
    Repeat(OPERATIONAL, n) + Repeat(DAMAGED, g) + [OPERATIONAL]
  }

  /** The candidate is damaged exactly at positions `n` to `n + g - 1`. */
  lemma {:induction false} CandidateAt(n: nat, g: nat, i: nat)
    requires i < n + g + 1
    ensures Candidate(n, g)[i] == (if n <= i < n + g then DAMAGED else OPERATIONAL)
  {
  }

  /** Every known spring of `line` agrees with `test` where both have a character. */
  predicate Agrees(line: string, test: string) {
    forall i :: 0 <= i < |line| && i < |test| ==> line[i] == UNKNOWN || line[i] == test[i]
  }

  /** `difference`: pairs of the zip that differ on a known spring. */
  function Difference(line: string, test: string): (d: nat)
    ensures d == 0 <==> Agrees(line, test)
    decreases |line|
  {
    if |line| == 0 || |test| == 0 then 0
    else
      var d := Difference(line[1..], test[1..]);
      assert Agrees(line, test) <==> (line[0] == UNKNOWN || line[0] == test[0]) && Agrees(line[1..], test[1..]) by {
        if (line[0] == UNKNOWN || line[0] == test[0]) && Agrees(line[1..], test[1..]) {
          forall i | 0 <= i < |line| && i < |test| ensures line[i] == UNKNOWN || line[i] == test[i] {
            if i > 0 {
              assert line[1..][i - 1] == line[i] && test[1..][i - 1] == test[i];
            }
          }
        }
        if Agrees(line, test) {
          forall i | 0 <= i < |line[1..]| && i < |test[1..]|
            ensures line[1..][i] == UNKNOWN || line[1..][i] == test[1..][i]
          {
            assert line[1..][i] == line[i + 1] && test[1..][i] == test[i + 1];
          }
        }
      }
      (if line[0] != test[0] && line[0] != UNKNOWN then 1 else 0) + d
  }

  /** `line.get(k..)`, or the empty line when `k` is past the end. */
  function Rest(line: string, k: nat): string {
    if k <= |line| then line[k..] else ""
  }

  /** `iterations`: the positions tried for the first run (none when not positive). */
  function Slack(line: string, groups: seq<nat>): int
    requires |groups| > 0
  {
    |line| - Sum(groups[1..]) + (|groups| - 1) - groups[0] + 1
  }

  /** `arrange` without its cache. */
  function Arrange(line: string, groups: seq<nat>): nat
    decreases |groups|, 1
  {
    if |groups| == 0 then (if DAMAGED in line then 0 else 1)
    else
      var iterations := Slack(line, groups);
      if iterations <= 0 then 0 else Placements(line, groups, iterations)
  }

  /** The loop of `arrange` over its first `m` positions. */
  function Placements(line: string, groups: seq<nat>, m: nat): nat
    requires |groups| > 0
    decreases |groups|, 0, m
  {
    if m == 0 then 0
    else
      var n := m - 1;
      var test := Candidate(n, groups[0]);
      Placements(line, groups, n)
        + (if Difference(line, test) == 0 then Arrange(Rest(line, |test|), groups[1..]) else 0)
  }

  // ---------------------------------------------------------------------------
  // The reference: resolutions of the line with the listed runs
  // ---------------------------------------------------------------------------

  /** How many damaged springs `s` starts with. */
  function RunLength(s: string): (m: nat)
    ensures m <= |s|
    ensures |s| > 0 && s[0] == DAMAGED ==> m > 0
    ensures forall i :: 0 <= i < m ==> s[i] == DAMAGED
    ensures m < |s| ==> s[m] != DAMAGED
    decreases |s|
  {
    if |s| == 0 || s[0] != DAMAGED then 0
    else
      var m := 1 + RunLength(s[1..]);
      assert forall i :: 1 <= i < m ==> s[i] == s[1..][i - 1];
      m
  }

  /** The lengths of the maximal runs of damaged springs in `s`, left to right. */
  function Runs(s: string): seq<nat>
    decreases |s|
  {
    if |s| == 0 then []
    else if s[0] != DAMAGED then Runs(s[1..])
    else
      var m := RunLength(s);
      [m] + Runs(s[m..])
  }

  /** `s` resolves `line`: same length, every spring known, the known ones kept. */
  predicate Fills(s: string, line: string) {
    && |s| == |line|
    && Resolved(s)
    && forall i :: 0 <= i < |s| ==> line[i] == UNKNOWN || s[i] == line[i]
  }

  /** The springs an entry of the line may stand for. */
  function Choices(c: char): (r: seq<char>)
    ensures |r| > 0
  {
    if c == UNKNOWN then [OPERATIONAL, DAMAGED] else [c]
  }

  /** `p` in front of every string of `ts`. */
  function Prefixed(p: string, ts: seq<string>): (r: seq<string>)
    ensures |r| == |ts|
    ensures forall i :: 0 <= i < |ts| ==> r[i] == p + ts[i]
  {
    seq(|ts|, i requires 0 <= i < |ts| => p + ts[i])
  }

  /** Every resolution of `line`. */
  function Fillings(line: string): seq<string>
    decreases |line|
  {
    if |line| == 0 then [""]
    else
      var rest := Fillings(line[1..]);
      var choices := Choices(line[0]);
      Prefixed([choices[0]], rest) + (if |choices| > 1 then Prefixed([choices[1]], rest) else [])
  }

  /** The resolutions of `line` whose runs are `groups`. */
  function Arrangements(line: string, groups: seq<nat>): set<string> {
    set s | s in Fillings(line) && Runs(s) == groups
  }

  lemma {:induction false} SpringsTail(line: string)
    requires Springs(line) && |line| > 0
    ensures Springs(line[1..])
  {
    forall i | 0 <= i < |line[1..]| ensures line[1..][i] == line[i + 1] { }
  }

  /** A choice for the first spring in front of a resolution of the others resolves the line. */
  lemma {:induction false} FillsCons(c: char, t: string, line: string)
    requires Springs(line) && |line| > 0 && c in Choices(line[0]) && Fills(t, line[1..])
    ensures Fills([c] + t, line)
  {
    var s := [c] + t;
    forall i | 0 <= i < |s| ensures (s[i] == OPERATIONAL || s[i] == DAMAGED) && (line[i] == UNKNOWN || s[i] == line[i]) {
      if i > 0 {
        assert s[i] == t[i - 1] && line[i] == line[1..][i - 1];
      }
    }
  }

  /** A resolution splits into a choice for the first spring and a resolution of the others. */
  lemma {:induction false} FillsTail(s: string, line: string)
    requires Fills(s, line) && |line| > 0
    ensures s[0] in Choices(line[0]) && Fills(s[1..], line[1..]) && s == [s[0]] + s[1..]
  {
    var t := s[1..];
    forall i | 0 <= i < |t| ensures (t[i] == OPERATIONAL || t[i] == DAMAGED) && (line[1..][i] == UNKNOWN || t[i] == line[1..][i]) {
      assert t[i] == s[i + 1];
    }
  }

  /** `Fillings` lists exactly the resolutions of the line. */
  lemma {:induction false} FillingsSpec(line: string, s: string)
    requires Springs(line)
    ensures s in Fillings(line) <==> Fills(s, line)
  {
    if s in Fillings(line) {
      FillingsSound(line, s);
    }
    if Fills(s, line) {
      FillingsComplete(line, s);
    }
  }

  lemma {:induction false} FillingsSound(line: string, s: string)
    requires Springs(line) && s in Fillings(line)
    ensures Fills(s, line)
    decreases |line|
  {
    if |line| > 0 {
      var rest := Fillings(line[1..]);
      var choices := Choices(line[0]);
      SpringsTail(line);
      var k: nat, j: nat :| k < |choices| && j < |rest| && s == [choices[k]] + rest[j];
      FillingsSound(line[1..], rest[j]);
      FillsCons(choices[k], rest[j], line);
    } else {
      assert Fillings(line) == [""];
    }
  }

  lemma {:induction false} FillingsComplete(line: string, s: string)
    requires Springs(line) && Fills(s, line)
    ensures s in Fillings(line)
    decreases |line|
  {
    if |line| > 0 {
      var rest := Fillings(line[1..]);
      var choices := Choices(line[0]);
      SpringsTail(line);
      FillsTail(s, line);
      FillingsComplete(line[1..], s[1..]);
      var j :| 0 <= j < |rest| && rest[j] == s[1..];
      if s[0] == choices[0] {
        assert Prefixed([choices[0]], rest)[j] == s;
      } else {
        assert Prefixed([choices[1]], rest)[j] == s;
      }
    } else {
      assert Fillings(line) == [""];
    }
  }

  /** Operational springs in front change no run. */
  lemma {:induction false} RunsDots(n: nat, t: string)
    ensures Runs(Repeat(OPERATIONAL, n) + t) == Runs(t)
  {
    if n > 0 {
      var s := Repeat(OPERATIONAL, n) + t;
      assert s[1..] == Repeat(OPERATIONAL, n - 1) + t;
      RunsDots(n - 1, t);
    } else {
      assert Repeat(OPERATIONAL, 0) + t == t;
    }
  }

  /** A run of `g` damaged springs, closed by an operational one or by the end. */
  lemma {:induction false} RunsBlock(g: nat, t: string)
    requires g > 0
    ensures Runs(Repeat(DAMAGED, g) + [OPERATIONAL] + t) == [g] + Runs(t)
    ensures Runs(Repeat(DAMAGED, g)) == [g]
  {
    var s := Repeat(DAMAGED, g) + [OPERATIONAL] + t;
    RunLengthIs(s, g);
    assert s[g..] == [OPERATIONAL] + t;
    assert s[g..][1..] == t;
    var b := Repeat(DAMAGED, g);
    RunLengthIs(b, g);
    assert b[g..] == [];
  }

  lemma {:induction false} RunLengthIs(s: string, m: nat)
    requires m <= |s| && (forall i :: 0 <= i < m ==> s[i] == DAMAGED) && (m < |s| ==> s[m] != DAMAGED)
    ensures RunLength(s) == m
    decreases m
  {
    if m > 0 {
      RunLengthIs(s[1..], m - 1);
    }
  }

  /** Without runs, a resolved line is all operational. */
  lemma {:induction false} RunsNone(s: string)
    requires Resolved(s) && Runs(s) == []
    ensures s == Repeat(OPERATIONAL, |s|)
    decreases |s|
  {
    if |s| > 0 {
      assert s[0] == OPERATIONAL;
      assert Resolved(s[1..]) by {
        forall i | 0 <= i < |s[1..]| ensures s[1..][i] == s[i + 1] { }
      }
      RunsNone(s[1..]);
      assert s == [s[0]] + s[1..];
    }
  }

  /** Every run holds at least one damaged spring. */
  lemma {:induction false} RunsPositive(s: string)
    ensures Positive(Runs(s))
    decreases |s|
  {
    if |s| > 0 {
      if s[0] != DAMAGED {
        RunsPositive(s[1..]);
      } else {
        RunsPositive(s[RunLength(s)..]);
      }
    }
  }

  /** The runs and the springs separating them fit in the line. */
  lemma {:induction false} RunsBound(s: string)
    ensures Sum(Runs(s)) + |Runs(s)| <= |s| + 1
    decreases |s|
  {
    if |s| > 0 {
      if s[0] != DAMAGED {
        RunsBound(s[1..]);
      } else {
        var m := RunLength(s);
        var t := s[m..];
        assert Sum([m] + Runs(t)) == m + Sum(Runs(t));
        if |t| > 0 {
          assert t[0] != DAMAGED;
          RunsBound(t[1..]);
        }
      }
    }
  }

  lemma {:induction false} SumPositive(xs: seq<nat>)
    requires Positive(xs)
    ensures Sum(xs) >= |xs|
  {
    if |xs| > 0 {
      SumPositive(xs[1..]);
    }
  }

  /** `to_test` cut to the line: what a resolution starts with when its first run sits at `n`. */
  function Head(test: string, length: nat): string {
    if |test| <= length then test else test[..length]
  }

  /** Where the source tries the first run, the run and everything before it fit in the line. */
  lemma {:induction false} PlacementFits(line: string, groups: seq<nat>, n: nat)
    requires |groups| > 0 && Positive(groups) && n < Slack(line, groups)
    ensures n + groups[0] <= |line|
  {
    assert Positive(groups[1..]) by {
      forall i | 0 <= i < |groups[1..]| ensures groups[1..][i] == groups[i + 1] { }
    }
    SumPositive(groups[1..]);
  }

  /** A resolution that starts with `n` operational springs and a run of `g`, then `t`. */
  lemma {:induction false} RunsPlaced(n: nat, g: nat, length: nat, t: string)
    requires g > 0 && n + g <= length
    requires n + g < length || t == ""
    ensures Runs(Head(Candidate(n, g), length) + t) == [g] + Runs(t)
  {
    var test := Candidate(n, g);
    assert test == Repeat(OPERATIONAL, n) + (Repeat(DAMAGED, g) + [OPERATIONAL]);
    RunsBlock(g, t);
    if n + g < length {
      assert Head(test, length) + t == Repeat(OPERATIONAL, n) + (Repeat(DAMAGED, g) + [OPERATIONAL] + t);
      RunsDots(n, Repeat(DAMAGED, g) + [OPERATIONAL] + t);
    } else {
      assert Head(test, length) + t == Repeat(OPERATIONAL, n) + Repeat(DAMAGED, g);
      RunsDots(n, Repeat(DAMAGED, g));
    }
  }

  /** One more operational spring in front shifts the placement by one. */
  lemma {:induction false} HeadShift(k: nat, g: nat, length: nat)
    ensures Head(Candidate(k + 1, g), length + 1) == [OPERATIONAL] + Head(Candidate(k, g), length)
  {
    var x := Candidate(k + 1, g);
    var y := Candidate(k, g);
    assert Repeat(OPERATIONAL, k + 1) == [OPERATIONAL] + Repeat(OPERATIONAL, k);
    assert x == [OPERATIONAL] + y;
    if |x| > length + 1 {
      assert x[..length + 1] == [OPERATIONAL] + y[..length];
    }
  }

  /** A resolution that starts with its first run. */
  lemma {:induction false} DecomposeRun(s: string, g: nat, rest: seq<nat>)
    requires Resolved(s) && Runs(s) == [g] + rest && |s| > 0 && s[0] == DAMAGED
    ensures g > 0 && g <= |s| && (g < |s| || rest == [])
    ensures s == Head(Candidate(0, g), |s|) + Rest(s, g + 1)
    ensures Runs(Rest(s, g + 1)) == rest
  {
    var m := RunLength(s);
    var u := s[m..];
    assert Runs(s) == [m] + Runs(u);
    assert ([g] + rest)[0] == g && ([g] + rest)[1..] == rest;
    assert m == g && Runs(u) == rest;
    var test := Candidate(0, g);
    if g == |s| {
      assert s[g..] == [];
      assert Head(test, |s|) == s;
    } else {
      assert u[0] == OPERATIONAL;
      assert u[1..] == s[g + 1..];
      assert Runs(u) == Runs(u[1..]);
      assert Head(test, |s|) == s[..g + 1];
      assert s == s[..g + 1] + s[g + 1..];
    }
  }

  /** The placement found in the tail, shifted past one leading operational spring. */
  lemma {:induction false} DecomposeStep(s: string, k: nat, g: nat)
    requires |s| > 0 && s[0] == OPERATIONAL
    requires s[1..] == Head(Candidate(k, g), |s| - 1) + Rest(s[1..], k + g + 1)
    ensures s == Head(Candidate(k + 1, g), |s|) + Rest(s, k + 1 + g + 1)
    ensures Rest(s, k + 1 + g + 1) == Rest(s[1..], k + g + 1)
  {
    var t := s[1..];
    var h, h', r := Head(Candidate(k + 1, g), |s|), Head(Candidate(k, g), |t|), Rest(t, k + g + 1);
    assert Rest(s, k + 1 + g + 1) == r;
    HeadShift(k, g, |t|);
    assert s == [s[0]] + t;
    ConsAppend(OPERATIONAL, h', r);
  }

  lemma {:induction false} InAppend<T>(x: T, a: seq<T>, b: seq<T>)
    ensures x in a + b <==> x in a || x in b
  {
  }

  lemma {:induction false} ConsAppend(c: char, x: string, y: string)
    ensures [c] + (x + y) == ([c] + x) + y
  {
  }

  /** A resolution whose first run is `g`: where that run sits, and what follows it. */
  lemma {:induction false} Decompose(s: string, g: nat, rest: seq<nat>) returns (n: nat)
    requires Resolved(s) && Runs(s) == [g] + rest
    ensures g > 0 && n + g <= |s| && (n + g < |s| || rest == [])
    ensures s == Head(Candidate(n, g), |s|) + Rest(s, n + g + 1)
    ensures Runs(Rest(s, n + g + 1)) == rest
    decreases |s|
  {
    assert |s| > 0;
    if s[0] != DAMAGED {
      var t := s[1..];
      assert Resolved(t) by {
        forall i | 0 <= i < |t| ensures t[i] == s[i + 1] { }
      }
      assert Runs(s) == Runs(t);
      var k := Decompose(t, g, rest);
      n := k + 1;
      DecomposeStep(s, k, g);
    } else {
      n := 0;
      DecomposeRun(s, g, rest);
    }
  }

  // ---------------------------------------------------------------------------
  // The resolutions `arrange` counts
  // ---------------------------------------------------------------------------

  /** The resolutions counted by `Arrange`, listed along the same recursion. */
  function Solutions(line: string, groups: seq<nat>): seq<string>
    decreases |groups|, 1
  {
    if |groups| == 0 then (if DAMAGED in line then [] else [Repeat(OPERATIONAL, |line|)])
    else
      var iterations := Slack(line, groups);
      if iterations <= 0 then [] else SolutionsFrom(line, groups, iterations)
  }

  function SolutionsFrom(line: string, groups: seq<nat>, m: nat): seq<string>
    requires |groups| > 0
    decreases |groups|, 0, m
  {
    if m == 0 then [] else SolutionsFrom(line, groups, m - 1) + Placed(line, groups, m - 1)
  }

  /** The resolutions that put the first run at `n`: none unless the line agrees with that placement. */
  function Placed(line: string, groups: seq<nat>, n: nat): seq<string>
    requires |groups| > 0
    decreases |groups|, 0, n
  {
    var test := Candidate(n, groups[0]);
    if Difference(line, test) == 0
    then Prefixed(Head(test, |line|), Solutions(Rest(line, |test|), groups[1..]))
    else []
  }

  /** `Arrange` counts the list. */
  lemma {:induction false} SolutionsCount(line: string, groups: seq<nat>)
    ensures |Solutions(line, groups)| == Arrange(line, groups)
    decreases |groups|, 1
  {
    if |groups| > 0 && Slack(line, groups) > 0 {
      SolutionsFromCount(line, groups, Slack(line, groups));
    }
  }

  lemma {:induction false} SolutionsFromCount(line: string, groups: seq<nat>, m: nat)
    requires |groups| > 0
    ensures |SolutionsFrom(line, groups, m)| == Placements(line, groups, m)
    decreases |groups|, 0, m
  {
    if m > 0 {
      var n := m - 1;
      SolutionsFromCount(line, groups, n);
      SolutionsCount(Rest(line, |Candidate(n, groups[0])|), groups[1..]);
    }
  }

  lemma {:induction false} SpringsRest(line: string, k: nat)
    requires Springs(line)
    ensures Springs(Rest(line, k))
  {
    if k <= |line| {
      var r := line[k..];
      forall i | 0 <= i < |r| ensures r[i] == line[k + i] { }
    }
  }

  lemma {:induction false} PositiveTail(groups: seq<nat>)
    requires |groups| > 0 && Positive(groups)
    ensures Positive(groups[1..]) && groups == [groups[0]] + groups[1..]
  {
    forall i | 0 <= i < |groups[1..]| ensures groups[1..][i] == groups[i + 1] { }
  }

  /** A placement the line agrees with, followed by a resolution of the rest, resolves the line. */
  lemma {:induction false} PlaceFills(line: string, n: nat, g: nat, t: string)
    requires n + g <= |line| && Agrees(line, Candidate(n, g))
    requires Fills(t, Rest(line, n + g + 1))
    ensures Fills(Head(Candidate(n, g), |line|) + t, line)
  {
    var test := Candidate(n, g);
    var h := Head(test, |line|);
    var next := Rest(line, n + g + 1);
    var s := h + t;
    assert |h| + |next| == |line|;
    forall i | 0 <= i < |s|
      ensures (s[i] == OPERATIONAL || s[i] == DAMAGED) && (line[i] == UNKNOWN || s[i] == line[i])
    {
      if i < |h| {
        assert s[i] == test[i];
      } else {
        assert s[i] == t[i - |h|] && next[i - |h|] == line[i];
      }
    }
  }

  /** Every listed resolution resolves the line and has the listed runs. */
  lemma {:induction false} Sound(line: string, groups: seq<nat>, s: string)
    requires Springs(line) && Positive(groups) && s in Solutions(line, groups)
    ensures Fills(s, line) && Runs(s) == groups
    decreases |groups|, 1
  {
    if |groups| == 0 {
      assert s == Repeat(OPERATIONAL, |line|);
      RunsDots(|line|, "");
      assert s + "" == s;
      forall i | 0 <= i < |s| ensures line[i] == UNKNOWN || s[i] == line[i] {
        assert line[i] != DAMAGED;
      }
    } else {
      SoundFrom(line, groups, Slack(line, groups), s);
    }
  }

  lemma {:induction false} SoundFrom(line: string, groups: seq<nat>, m: nat, s: string)
    requires Springs(line) && Positive(groups) && |groups| > 0 && m <= Slack(line, groups)
    requires s in SolutionsFrom(line, groups, m)
    ensures Fills(s, line) && Runs(s) == groups
    decreases |groups|, 0, m
  {
    var n := m - 1;
    var g := groups[0];
    var test := Candidate(n, g);
    if s in SolutionsFrom(line, groups, n) {
      SoundFrom(line, groups, n, s);
    } else {
      var next := Rest(line, |test|);
      var ts := Solutions(next, groups[1..]);
      assert Difference(line, test) == 0;
      var j :| 0 <= j < |ts| && s == Head(test, |line|) + ts[j];
      var t := ts[j];
      PlacementFits(line, groups, n);
      SpringsRest(line, |test|);
      PositiveTail(groups);
      Sound(next, groups[1..], t);
      PlaceFills(line, n, g, t);
      RunsPlaced(n, g, |line|, t);
    }
  }

  lemma {:induction false} FillsRest(s: string, line: string, k: nat)
    requires Fills(s, line)
    ensures Fills(Rest(s, k), Rest(line, k))
  {
    if k <= |s| {
      var t := s[k..];
      forall i | 0 <= i < |t| ensures t[i] == s[k + i] && line[k..][i] == line[k + i] { }
    }
  }

  /** A resolution agrees with the placement it starts with, so the source keeps that placement. */
  lemma {:induction false} FillsAgree(line: string, s: string, n: nat, g: nat, t: string)
    requires Fills(s, line) && s == Head(Candidate(n, g), |line|) + t
    ensures Agrees(line, Candidate(n, g))
  {
    var test := Candidate(n, g);
    var h := Head(test, |line|);
    forall i | 0 <= i < |line| && i < |test| ensures line[i] == UNKNOWN || line[i] == test[i] {
      assert s[i] == h[i] == test[i];
    }
  }

  /** A placement among the first `m` the line agrees with keeps every resolution of the rest. */
  lemma {:induction false} CompleteFrom(line: string, groups: seq<nat>, m: nat, n: nat, t: string)
    requires |groups| > 0 && n < m
    requires Difference(line, Candidate(n, groups[0])) == 0
    requires t in Solutions(Rest(line, n + groups[0] + 1), groups[1..])
    ensures Head(Candidate(n, groups[0]), |line|) + t in SolutionsFrom(line, groups, m)
    decreases m
  {
    var s := Head(Candidate(n, groups[0]), |line|) + t;
    var before := SolutionsFrom(line, groups, m - 1);
    var added := Placed(line, groups, m - 1);
    assert SolutionsFrom(line, groups, m) == before + added;
    if n == m - 1 {
      var ts := Solutions(Rest(line, n + groups[0] + 1), groups[1..]);
      assert s in added by {
        var j :| 0 <= j < |ts| && ts[j] == t;
        assert added[j] == s;
      }
    } else {
      CompleteFrom(line, groups, m - 1, n, t);
    }
    InAppend(s, before, added);
  }

  /** The source tries every position a resolution can put the first run at. */
  lemma {:induction false} SlackCovers(line: string, groups: seq<nat>, n: nat, t: string)
    requires |groups| > 0 && Runs(t) == groups[1..]
    requires n + groups[0] <= |line| && (n + groups[0] < |line| || groups[1..] == [])
    requires |t| == |Rest(line, n + groups[0] + 1)|
    ensures n < Slack(line, groups)
  {
    RunsBound(t);
  }

  /** Without runs, the only resolution is the all-operational line, listed when nothing is damaged. */
  lemma {:induction false} CompleteNone(line: string, s: string)
    requires Fills(s, line) && Runs(s) == []
    ensures s in Solutions(line, [])
  {
    RunsNone(s);
    forall i | 0 <= i < |line| ensures line[i] != DAMAGED {
      assert s[i] == OPERATIONAL;
    }
  }

  /** A resolution with runs split into the placement of its first run and a resolution of the rest. */
  lemma {:induction false} CompletePieces(line: string, groups: seq<nat>, s: string) returns (n: nat, t: string)
    requires Springs(line) && Fills(s, line) && Runs(s) == groups && |groups| > 0
    ensures n < Slack(line, groups) && Difference(line, Candidate(n, groups[0])) == 0
    ensures var next := Rest(line, n + groups[0] + 1);
      Springs(next) && Fills(t, next) && Runs(t) == groups[1..]
    ensures s == Head(Candidate(n, groups[0]), |line|) + t
  {
    var g := groups[0];
    var rest := groups[1..];
    assert groups == [g] + rest;
    n := Decompose(s, g, rest);
    t := Rest(s, n + g + 1);
    FillsRest(s, line, n + g + 1);
    SpringsRest(line, n + g + 1);
    FillsAgree(line, s, n, g, t);
    SlackCovers(line, groups, n, t);
  }

  /** Every resolution of the line with the listed runs is listed. */
  lemma {:induction false} Complete(line: string, groups: seq<nat>, s: string)
    requires Springs(line) && Fills(s, line) && Runs(s) == groups
    ensures s in Solutions(line, groups)
    decreases |groups|, 1
  {
    if |groups| == 0 {
      CompleteNone(line, s);
    } else {
      var n, t := CompletePieces(line, groups, s);
      var next := Rest(line, n + groups[0] + 1);
      Complete(next, groups[1..], t);
      CompleteFrom(line, groups, Slack(line, groups), n, t);
    }
  }

  // ---------------------------------------------------------------------------
  // No resolution is counted twice
  // ---------------------------------------------------------------------------

  ghost predicate Distinct<T>(xs: seq<T>) {
    forall i, j :: 0 <= i < j < |xs| ==> xs[i] != xs[j]
  }

  lemma {:induction false} DistinctAppend<T>(a: seq<T>, b: seq<T>)
    requires Distinct(a) && Distinct(b)
    requires forall i, j :: 0 <= i < |a| && 0 <= j < |b| ==> a[i] != b[j]
    ensures Distinct(a + b)
  {
    var c := a + b;
    forall i, j | 0 <= i < j < |c| ensures c[i] != c[j] {
      if j < |a| {
        assert c[i] == a[i] && c[j] == a[j];
      } else if i < |a| {
        assert c[i] == a[i] && c[j] == b[j - |a|];
      } else {
        assert c[i] == b[i - |a|] && c[j] == b[j - |a|];
      }
    }
  }

  lemma {:induction false} DistinctPrefixed(p: string, ts: seq<string>)
    requires Distinct(ts)
    ensures Distinct(Prefixed(p, ts))
  {
    var r := Prefixed(p, ts);
    forall i, j | 0 <= i < j < |r| ensures r[i] != r[j] {
      assert r[i][|p|..] == ts[i] && r[j][|p|..] == ts[j];
    }
  }

  /** A list without repetitions has as many members as entries. */
  lemma {:induction false} DistinctCard<T>(xs: seq<T>)
    requires Distinct(xs)
    ensures |set x | x in xs| == |xs|
  {
    if |xs| > 0 {
      var tail := xs[1..];
      assert Distinct(tail) by {
        forall i, j | 0 <= i < j < |tail| ensures tail[i] != tail[j] {
          assert tail[i] == xs[i + 1] && tail[j] == xs[j + 1];
        }
      }
      DistinctCard(tail);
      assert xs[0] !in tail by {
        forall j | 0 <= j < |tail| ensures tail[j] != xs[0] {
          assert tail[j] == xs[j + 1];
        }
      }
      assert (set x | x in xs) == (set x | x in tail) + {xs[0]} by {
        assert xs == [xs[0]] + tail;
      }
    }
  }

  /** Where the first damaged spring of `s` is. */
  predicate FirstDamagedAt(s: string, n: nat) {
    n < |s| && s[n] == DAMAGED && forall i :: 0 <= i < n ==> s[i] != DAMAGED
  }

  lemma {:induction false} FirstDamagedPlaced(n: nat, g: nat, length: nat, t: string)
    requires g > 0 && n + g <= length
    ensures FirstDamagedAt(Head(Candidate(n, g), length) + t, n)
  {
    var test := Candidate(n, g);
    var s := Head(test, length) + t;
    CandidateAt(n, g, n);
    assert s[n] == test[n];
    forall i | 0 <= i < n ensures s[i] != DAMAGED {
      CandidateAt(n, g, i);
      assert s[i] == test[i];
    }
  }

  lemma {:induction false} FirstDamagedIndex(s: string, n: nat)
    requires FirstDamagedAt(s, n)
    ensures DAMAGED in s && IndexOf(s, DAMAGED) == n
  {
    assert DAMAGED !in s[..n] by {
      forall i | 0 <= i < n ensures s[..n][i] != DAMAGED {
        assert s[..n][i] == s[i];
      }
    }
    IndexOfUnique(s, DAMAGED, n);
  }

  /** The listed resolutions differ from each other. */
  lemma {:induction false} DistinctSolutions(line: string, groups: seq<nat>)
    requires Positive(groups)
    ensures Distinct(Solutions(line, groups))
    decreases |groups|, 1
  {
    if |groups| > 0 && Slack(line, groups) > 0 {
      DistinctFrom(line, groups, Slack(line, groups));
    }
  }

  /** Placements tried earlier put the first damaged spring earlier. */
  lemma {:induction false} DistinctFrom(line: string, groups: seq<nat>, m: nat)
    requires Positive(groups) && |groups| > 0 && m <= Slack(line, groups)
    ensures Distinct(SolutionsFrom(line, groups, m))
    ensures forall s :: s in SolutionsFrom(line, groups, m) ==> DAMAGED in s && IndexOf(s, DAMAGED) < m
    decreases |groups|, 0, m
  {
    if m > 0 {
      var n := m - 1;
      var g := groups[0];
      var test := Candidate(n, g);
      var before := SolutionsFrom(line, groups, n);
      DistinctFrom(line, groups, n);
      var added: seq<string> := [];
      if Difference(line, test) == 0 {
        var ts := Solutions(Rest(line, |test|), groups[1..]);
        added := Prefixed(Head(test, |line|), ts);
        PositiveTail(groups);
        DistinctSolutions(Rest(line, |test|), groups[1..]);
        DistinctPrefixed(Head(test, |line|), ts);
        PlacementFits(line, groups, n);
        forall j | 0 <= j < |added| ensures DAMAGED in added[j] && IndexOf(added[j], DAMAGED) == n {
          FirstDamagedPlaced(n, g, |line|, ts[j]);
          FirstDamagedIndex(added[j], n);
        }
      }
      assert SolutionsFrom(line, groups, m) == before + added;
      forall i, j | 0 <= i < |before| && 0 <= j < |added| ensures before[i] != added[j] {
        assert before[i] in before;
      }
      DistinctAppend(before, added);
      forall s | s in before + added ensures DAMAGED in s && IndexOf(s, DAMAGED) < m {
        InAppend(s, before, added);
      }
    }
  }

  /**
   * `arrange` counts exactly the resolutions of the line whose runs of
   * damaged springs are the listed ones.
   */
  lemma {:induction false} ArrangeCounts(line: string, groups: seq<nat>)
    requires Springs(line) && Positive(groups)
    ensures Arrange(line, groups) == |Arrangements(line, groups)|
  {
    var sols := Solutions(line, groups);
    assert Arrangements(line, groups) == set s | s in sols by {
      forall s ensures s in Arrangements(line, groups) <==> s in sols {
        FillingsSpec(line, s);
        if s in sols {
          Sound(line, groups, s);
        }
        if s in Fillings(line) && Runs(s) == groups {
          Complete(line, groups, s);
        }
      }
    }
    DistinctSolutions(line, groups);
    DistinctCard(sols);
    SolutionsCount(line, groups);
  }

  // ---------------------------------------------------------------------------
  // The cache, parsing and the sum
  // ---------------------------------------------------------------------------

  /** `format!("{:?}", groups)`: `[1, 1, 3]`. */
  function Debug(groups: seq<nat>): (r: string)
    ensures |r| > 0 && r[0] == '['
  {
    "[" + Items(groups) + "]"
  }

  function Items(groups: seq<nat>): string {
    if |groups| == 0 then "" else Decimal(groups[0]) + ItemsAfter(groups[1..])
  }

  function ItemsAfter(groups: seq<nat>): string {
    if |groups| == 0 then "" else ", " + Decimal(groups[0]) + ItemsAfter(groups[1..])
  }

  /** `key`: the line followed by the rendering of the runs. */
  function Key(line: string, groups: seq<nat>): (r: string)
    ensures |r| > |line| && r[|line|] == '[' && r[..|line|] == line
  {
    var r := line + Debug(groups);
    assert r[|line|] == '[';
    r
  }

  /** A character `Debug` can write: brackets, digits, commas and spaces, never a spring. */
  predicate DebugChar(c: char) {
    c == '[' || c == ']' || c == ',' || c == ' ' || IsDigit(c)
  }

  lemma {:induction false} ItemsAfterChars(groups: seq<nat>)
    ensures forall i :: 0 <= i < |ItemsAfter(groups)| ==> DebugChar(ItemsAfter(groups)[i]) && ItemsAfter(groups)[i] != '['
  {
    if |groups| > 0 {
      ItemsAfterChars(groups[1..]);
      var d, rest := Decimal(groups[0]), ItemsAfter(groups[1..]);
      assert ItemsAfter(groups) == ", " + d + rest;
      forall i | 0 <= i < |ItemsAfter(groups)|
        ensures DebugChar(ItemsAfter(groups)[i]) && ItemsAfter(groups)[i] != '['
      {
        if i >= 2 + |d| {
          assert ItemsAfter(groups)[i] == rest[i - 2 - |d|];
        } else if i >= 2 {
          assert ItemsAfter(groups)[i] == d[i - 2];
        }
      }
    }
  }

  /** The runs' rendering is made of `DebugChar`s, opens with its only '[' and closes with ']'. */
  lemma DebugChars(groups: seq<nat>)
    ensures forall i :: 0 <= i < |Debug(groups)| ==> DebugChar(Debug(groups)[i])
    ensures forall i :: 0 < i < |Debug(groups)| ==> Debug(groups)[i] != '['
    ensures Debug(groups)[|Debug(groups)| - 1] == ']'
  {
    var r := Debug(groups);
    var items := Items(groups);
    assert r == "[" + items + "]";
    if |groups| > 0 {
      ItemsAfterChars(groups[1..]);
      var d, rest := Decimal(groups[0]), ItemsAfter(groups[1..]);
      assert items == d + rest;
      forall i | 0 <= i < |items| ensures DebugChar(items[i]) && items[i] != '[' {
        if i >= |d| {
          assert items[i] == rest[i - |d|];
        } else {
          assert items[i] == d[i];
        }
      }
    }
    forall i | 0 < i < |r| - 1 ensures DebugChar(r[i]) && r[i] != '[' {
      assert r[i] == items[i - 1];
    }
  }

  /**
   * A line `arrange` can be called on when it starts from `top`: a suffix of
   * `top` that is the whole of it, or follows an operational or unknown
   * spring, or is empty after a last character that is a spring.
   */
  predicate Entered(top: string, line: string) {
    && |line| <= |top| && top[|top| - |line|..] == line
    && (|line| == |top|
        || top[|top| - |line| - 1] == OPERATIONAL || top[|top| - |line| - 1] == UNKNOWN
        || (|line| == 0 && (top[|top| - 1] == OPERATIONAL || top[|top| - 1] == DAMAGED || top[|top| - 1] == UNKNOWN)))
  }

  /** Every key in the cache is a line entered from `top`, as part 1 inserts them. */
  predicate EnteredKeys(top: string, cache: map<string, nat>) {
    forall k :: k in cache ==> Entered(top, k)
  }

  /** A tail of an entered line that starts after an operational or unknown spring is entered too. */
  lemma EnteredTail(top: string, line: string, k: nat)
    requires |line| <= |top| && top[|top| - |line|..] == line && 0 < k <= |line|
    requires line[k - 1] == OPERATIONAL || line[k - 1] == UNKNOWN
    ensures Entered(top, line[k..])
  {
    var rest := line[k..];
    assert top[|top| - |rest|..] == top[|top| - |line|..][k..];
    assert top[|top| - |rest| - 1] == line[k - 1];
  }

  /** Past the end of an entered line that ends with a spring, the empty line is entered. */
  lemma EnteredPastEnd(top: string, line: string)
    requires |line| <= |top| && top[|top| - |line|..] == line && |line| > 0
    requires line[|line| - 1] == OPERATIONAL || line[|line| - 1] == DAMAGED || line[|line| - 1] == UNKNOWN
    ensures Entered(top, "")
  {
    assert top[|top| - 1] == line[|line| - 1];
  }

  /** What follows an agreeing candidate prefix is entered too. */
  lemma EnteredRest(top: string, line: string, n: nat, g: nat)
    requires Entered(top, line) && Agrees(line, Candidate(n, g))
    ensures Entered(top, Rest(line, n + g + 1))
  {
    var k := n + g + 1;
    if k <= |line| {
      CandidateAt(n, g, k - 1);
      assert line[k - 1] == OPERATIONAL || line[k - 1] == UNKNOWN;
      EnteredTail(top, line, k);
    } else if |line| > 0 {
      CandidateAt(n, g, |line| - 1);
      assert line[|line| - 1] == OPERATIONAL || line[|line| - 1] == DAMAGED || line[|line| - 1] == UNKNOWN;
      EnteredPastEnd(top, line);
    }
  }

  /**
   * A text that is `line` followed by `d` and also ends with `line` has a
   * character of `d` just before that ending.
   */
  lemma {:induction false} BeforeRepeat(line: string, d: string)
    requires |d| > 0 && (line + d)[|d|..] == line
    ensures (line + d)[|d| - 1] in d
    decreases |line|
  {
    var s := line + d;
    if |line| < |d| {
      assert s[|d| - 1] == d[|d| - 1 - |line|];
    } else {
      var shorter := line[|d|..];
      assert line == shorter + d by {
        assert s[|d|..] == line[|d|..] + d;
      }
      assert (shorter + d)[|d|..] == shorter;
      BeforeRepeat(shorter, d);
      assert s[|d| - 1] == line[|d| - 1] == (shorter + d)[|d| - 1];
    }
  }

  /**
   * When `top` ends with `line` and also with `line` followed by `d`, the
   * character just before that `line` and the last character of `top` both
   * come from `d`.
   */
  lemma EnteredKeyBefore(top: string, line: string, d: string)
    requires |d| > 0 && |line| + |d| <= |top|
    requires top[|top| - |line|..] == line && top[|top| - |line| - |d|..] == line + d
    ensures top[|top| - |line| - 1] in d && top[|top| - 1] == d[|d| - 1]
  {
    var key := line + d;
    assert key[|d|..] == line by {
      assert key[|d|..] == top[|top| - |key|..][|d|..] == top[|top| - |line|..];
    }
    BeforeRepeat(line, d);
    assert top[|top| - |line| - 1] == key[|d| - 1];
    assert top[|top| - 1] == key[|key| - 1];
  }

  /** A lookup on an entered line never finds an entered line in the cache. */
  lemma NoHit(top: string, line: string, groups: seq<nat>, cache: map<string, nat>)
    requires Entered(top, line) && EnteredKeys(top, cache)
    ensures Key(line, groups) !in cache
  {
    var key, d := Key(line, groups), Debug(groups);
    if key in cache {
      assert Entered(top, key) && key == line + d;
      EnteredKeyBefore(top, line, d);
      DebugChars(groups);
    }
  }

  function Lookup(cache: map<string, nat>, key: string): Option<nat> {
    if key in cache then Some(cache[key]) else None
  }

  /** Every intermediate of the `i64` expression for `iterations` is in range, here and below. */
  predicate Fits(line: string, groups: seq<nat>) {
    |line| + Sum(groups) + |groups| <= I64_MAX
  }

  lemma {:induction false} FitsRest(line: string, groups: seq<nat>, k: nat)
    requires Fits(line, groups) && |groups| > 0
    ensures Fits(Rest(line, k), groups[1..])
  {
  }

  /**
   * `arrange` with its cache. Lookups use `Key(line, groups)`, inserts the
   * line alone. Starting from the springs `top`, every line reached is
   * entered from `top` and no lookup can hit, so the count is `Arrange`.
   */
  method ArrangeCached(line: string, groups: seq<nat>, cache: map<string, nat>, ghost top: string)
    returns (count: nat, cache': map<string, nat>)
    requires Fits(line, groups)
    ensures Entered(top, line) && EnteredKeys(top, cache) ==> count == Arrange(line, groups) && EnteredKeys(top, cache')
    decreases |groups|, 1
  {
    var key := Key(line, groups);
    ghost var entered := Entered(top, line) && EnteredKeys(top, cache);
    if entered {
      NoHit(top, line, groups, cache);
    }
    match Lookup(cache, key)
    case Some(v) =>
      count, cache' := v, cache;
    case None =>
      if |groups| == 0 {
        count, cache' := if DAMAGED in line then 0 else 1, cache;
      } else {
        var iterations := Slack(line, groups);
        if iterations <= 0 {
          count, cache' := 0, cache[line := 0];
        } else {
          var arrangements := 0;
          var c := cache;
          for n := 0 to iterations
            invariant entered ==> arrangements == Placements(line, groups, n) && EnteredKeys(top, c)
          {
            var sub;
            sub, c := PlaceRun(line, groups, n, c, top);
            arrangements := arrangements + sub;
          }
          count, cache' := arrangements, c[line := arrangements];
        }
      }
  }

  /** One pass of the loop of `arrange`: the first run after `n` operational springs. */
  method PlaceRun(line: string, groups: seq<nat>, n: nat, cache: map<string, nat>, ghost top: string)
    returns (sub: nat, cache': map<string, nat>)
    requires Fits(line, groups) && |groups| > 0
    ensures Entered(top, line) && EnteredKeys(top, cache) ==>
      Placements(line, groups, n + 1) == Placements(line, groups, n) + sub && EnteredKeys(top, cache')
    decreases |groups|, 0
  {
    var test := Candidate(n, groups[0]);
    sub, cache' := 0, cache;
    if Difference(line, test) == 0 {
      var next := Rest(line, |test|);
      FitsRest(line, groups, |test|);
      if Entered(top, line) {
        EnteredRest(top, line, n, groups[0]);
      }
      sub, cache' := ArrangeCached(next, groups[1..], cache, top);
    }
  }

  /** `groups.split(',').filter_map(parse::<usize>)`: the pieces that parse, in order. */
  function ParseGroups(text: string): seq<nat> {
    FilterMapNat(Split(text, ','), USIZE_MAX)
  }

  /** `possible_arrangements`: no space gives 0; otherwise the springs before it and the runs after it. */
  function PossibleArrangements(line: string): (r: nat)
    ensures ' ' !in line ==> r == 0
  {
    match SplitOnce(line, ' ')
    case None => 0
    case Some((springs, groups)) => Arrange(springs, ParseGroups(groups))
  }

  /** A line the source reads without an overflow. */
  predicate LineFits(line: string) {
    match SplitOnce(line, ' ')
    case None => true
    case Some((springs, groups)) => Fits(springs, ParseGroups(groups))
  }

  /** `possible_arrangements` with a fresh cache. */
  method PossibleArrangementsCached(line: string) returns (count: nat)
    requires LineFits(line)
    ensures count == PossibleArrangements(line)
  {
    match SplitOnce(line, ' ')
    case None =>
      count := 0;
    case Some((springs, groups)) =>
      var cache: map<string, nat> := map[];
      assert Entered(springs, springs) by {
        assert springs[|springs| - |springs|..] == springs;
      }
      count, cache := ArrangeCached(springs, ParseGroups(groups), cache, springs);
  }

  /** The arrangements of the lines, summed. */
  function SumArrangements(lines: seq<string>): nat {
    if |lines| == 0 then 0 else SumArrangements(lines[..|lines| - 1]) + PossibleArrangements(lines[|lines| - 1])
  }

  /** `sum_possible_arrangements`. */
  method SumPossibleArrangements(lines: seq<string>) returns (total: nat)
    requires forall i :: 0 <= i < |lines| ==> LineFits(lines[i])
    ensures total == SumArrangements(lines)
  {
    total := 0;
    for i := 0 to |lines|
      invariant total == SumArrangements(lines[..i])
    {
      var count := PossibleArrangementsCached(lines[i]);
      assert lines[..i + 1][..i] == lines[..i];
      total := total + count;
    }
    assert lines[..|lines|] == lines;
  }

  /** The runs rendered as the input writes them. */
  function Decimals(groups: seq<nat>): (r: seq<string>)
    ensures |r| == |groups| && forall i :: 0 <= i < |r| ==> r[i] == Decimal(groups[i])
  {
    seq(|groups|, i requires 0 <= i < |groups| => Decimal(groups[i]))
  }

  /** Parsing rendered runs gives them back. */
  lemma {:induction false} ParseDecimals(groups: seq<nat>)
    requires forall i :: 0 <= i < |groups| ==> groups[i] <= USIZE_MAX
    ensures FilterMapNat(Decimals(groups), USIZE_MAX) == groups
  {
    if |groups| > 0 {
      ParseDecimal(groups[0], USIZE_MAX);
      assert Decimals(groups)[1..] == Decimals(groups[1..]);
      ParseDecimals(groups[1..]);
    }
  }

  /** A record line: the springs, a space, the runs separated by commas. */
  function Record(springs: string, groups: seq<nat>): string {
    springs + " " + Join(Decimals(groups), ',')
  }

  /** A rendered record splits into its springs and runs again. */
  lemma {:induction false} RecordParts(springs: string, groups: seq<nat>)
    requires Springs(springs)
    requires forall i :: 0 <= i < |groups| ==> groups[i] <= USIZE_MAX
    ensures SplitOnce(Record(springs, groups), ' ') == Some((springs, Join(Decimals(groups), ',')))
    ensures ParseGroups(Join(Decimals(groups), ',')) == groups
  {
    var line := Record(springs, groups);
    var text := Join(Decimals(groups), ',');
    assert ' ' !in springs;
    assert SplitOnce(line, ' ') == Some((springs, text)) by {
      assert line[..|springs|] == springs && line[|springs| + 1..] == text;
      assert IndexOf(line, ' ') == |springs| by {
        assert line[|springs|] == ' ';
      }
    }
    assert ParseGroups(text) == groups by {
      if |groups| == 0 {
        assert Split(text, ',') == [""];
      } else {
        assert forall k :: 0 <= k < |groups| ==> ',' !in Decimals(groups)[k] by {
          forall k | 0 <= k < |groups| ensures ',' !in Decimal(groups[k]) {
            var d := Decimal(groups[k]);
            assert forall j :: 0 <= j < |d| ==> IsDigit(d[j]);
          }
        }
        SplitJoin(Decimals(groups), ',');
      }
      ParseDecimals(groups);
    }
  }

  /** A rendered record is counted as its arrangements. */
  lemma {:induction false} RecordArrangements(springs: string, groups: seq<nat>)
    requires Springs(springs) && Positive(groups)
    requires forall i :: 0 <= i < |groups| ==> groups[i] <= USIZE_MAX
    ensures PossibleArrangements(Record(springs, groups)) == |Arrangements(springs, groups)|
  {
    RecordParts(springs, groups);
    ArrangeCounts(springs, groups);
  }
}

/**
 * Day 12, part 2: every record is unfolded to five copies of its springs,
 * joined by '?', and five copies of its runs, before counting. The cache is
 * keyed on the line and the runs for both lookups and inserts, so it does
 * hit; the keys identify their line and runs, which keeps every cached
 * count equal to `Arrange`.
 */
module Day12Part2 {
  import opened Text
  import opened Day12Part1

  // ---------------------------------------------------------------------------
  // The cache
  // ---------------------------------------------------------------------------

  /** A digit string ends where the text after it starts with something else. */
  lemma {:induction false} DigitsPrefix(x: string, u: string, y: string, v: string)
    requires AllDigits(x) && AllDigits(y)
    requires |u| == 0 || !IsDigit(u[0])
    requires |v| == 0 || !IsDigit(v[0])
    requires x + u == y + v
    ensures x == y && u == v
  {
    if |x| < |y| {
      AppendAt(y, v, |x|);
      assert false;
    } else if |y| < |x| {
      AppendAt(x, u, |y|);
      assert false;
    }
    assert x == (x + u)[..|x|];
    assert y == (y + v)[..|y|];
    assert u == (x + u)[|x|..];
    assert v == (y + v)[|y|..];
  }

  lemma AppendAt<T>(a: seq<T>, b: seq<T>, i: int)
    ensures 0 <= i < |a| ==> (a + b)[i] == a[i]
  {
  }

  lemma {:induction false} ItemsAfterStart(groups: seq<nat>)
    ensures var s := ItemsAfter(groups); |s| == 0 || !IsDigit(s[0])
  {
    if |groups| > 0 {
      assert ItemsAfter(groups)[0] == ',';
    }
  }

  /** Two numbers and what follows them, rendered alike, are alike. */
  lemma {:induction false} DecimalThenAfter(a: nat, rest: seq<nat>, b: nat, other: seq<nat>)
    requires Decimal(a) + ItemsAfter(rest) == Decimal(b) + ItemsAfter(other)
    ensures a == b && ItemsAfter(rest) == ItemsAfter(other)
  {
    ItemsAfterStart(rest);
    ItemsAfterStart(other);
    DigitsPrefix(Decimal(a), ItemsAfter(rest), Decimal(b), ItemsAfter(other));
  }

  lemma {:induction false} ItemsAfterTail(groups: seq<nat>)
    requires |groups| > 0
    ensures ItemsAfter(groups)[2..] == Decimal(groups[0]) + ItemsAfter(groups[1..])
  {
  }

  lemma {:induction false} ItemsAfterInjective(groups: seq<nat>, other: seq<nat>)
    requires ItemsAfter(groups) == ItemsAfter(other)
    ensures groups == other
    decreases |groups|
  {
    if |groups| > 0 && |other| > 0 {
      ItemsAfterTail(groups);
      ItemsAfterTail(other);
      DecimalThenAfter(groups[0], groups[1..], other[0], other[1..]);
      ItemsAfterInjective(groups[1..], other[1..]);
      assert groups == [groups[0]] + groups[1..];
      assert other == [other[0]] + other[1..];
    }
  }

  /** Rendering the runs loses nothing. */
  lemma {:induction false} DebugInjective(groups: seq<nat>, other: seq<nat>)
    requires Debug(groups) == Debug(other)
    ensures groups == other
  {
    var s := Debug(groups);
    assert Items(groups) == s[1..|s| - 1];
    assert Items(other) == s[1..|s| - 1];
    if |groups| > 0 && |other| > 0 {
      DecimalThenAfter(groups[0], groups[1..], other[0], other[1..]);
      ItemsAfterInjective(groups[1..], other[1..]);
      assert groups == [groups[0]] + groups[1..];
      assert other == [other[0]] + other[1..];
    }
  }

  /**
   * A key names one line and one list of runs: the rendering of the runs
   * holds only its opening '[', so the last '[' of a key ends its line.
   */
  lemma KeyInjective(line: string, groups: seq<nat>, l: string, g: seq<nat>)
    requires Key(line, groups) == Key(l, g)
    ensures line == l && groups == g
  {
    var key := Key(line, groups);
    DebugChars(groups);
    DebugChars(g);
    assert |line| == |l|;
    assert key[|line|..] == Debug(groups);
    assert key[|l|..] == Debug(g);
    DebugInjective(groups, g);
  }

  /** Every key holds the count of its line and runs. */
  ghost predicate Consistent(cache: map<string, nat>) {
    forall l: string, g: seq<nat> :: Key(l, g) in cache ==> cache[Key(l, g)] == Arrange(l, g)
  }

  lemma {:induction false} StoreKeepsConsistent(cache: map<string, nat>, line: string, groups: seq<nat>, count: nat)
    requires Consistent(cache) && count == Arrange(line, groups)
    ensures Consistent(cache[Key(line, groups) := count])
  {
    var stored := cache[Key(line, groups) := count];
    forall l: string, g: seq<nat> | Key(l, g) in stored
      ensures stored[Key(l, g)] == Arrange(l, g)
    {
      if Key(l, g) == Key(line, groups) {
        KeyInjective(line, groups, l, g);
      }
    }
  }

  /** `arrange` with a cache that is looked up and filled under the same key. */
  method ArrangeMemo(line: string, groups: seq<nat>, cache: map<string, nat>)
    returns (count: nat, cache': map<string, nat>)
    requires Fits(line, groups)
    ensures Consistent(cache) ==> count == Arrange(line, groups) && Consistent(cache')
    decreases |groups|
  {
    var key := Key(line, groups);
    match Lookup(cache, key)
    case Some(v) =>
      count, cache' := v, cache;
    case None =>
      if |groups| == 0 {
        count, cache' := if DAMAGED in line then 0 else 1, cache;
      } else {
        var iterations := Slack(line, groups);
        if iterations <= 0 {
          count, cache' := 0, cache[key := 0];
          if Consistent(cache) {
            StoreKeepsConsistent(cache, line, groups, 0);
          }
        } else {
          var arrangements := 0;
          var c := cache;
          for n := 0 to iterations
            invariant Consistent(cache) ==> arrangements == Placements(line, groups, n) && Consistent(c)
          {
            var test := Candidate(n, groups[0]);
            if Difference(line, test) == 0 {
              var next := Rest(line, |test|);
              FitsRest(line, groups, |test|);
              var sub;
              sub, c := ArrangeMemo(next, groups[1..], c);
              arrangements := arrangements + sub;
            }
          }
          count, cache' := arrangements, c[key := arrangements];
          if Consistent(cache) {
            StoreKeepsConsistent(c, line, groups, arrangements);
          }
        }
      }
  }

  // ---------------------------------------------------------------------------
  // Unfolding
  // ---------------------------------------------------------------------------

  function Copies<T>(x: T, n: nat): (r: seq<T>)
    ensures |r| == n && forall k :: 0 <= k < n ==> r[k] == x
  {
    seq(n, _ => x)
  }

  /** Five copies of the springs, joined by '?'. */
  function UnfoldSprings(springs: string): string {
    Join(Copies(springs, 5), UNKNOWN)
  }

  /** `n` copies of the runs, one after another. */
  function Repeated(groups: seq<nat>, n: nat): (r: seq<nat>)
    ensures |r| == n * |groups|
  {
    if n == 0 then [] else Repeated(groups, n - 1) + groups
  }

  function UnfoldGroups(groups: seq<nat>): seq<nat> {
    Repeated(groups, 5)
  }

  lemma {:induction false} JoinSnoc(pieces: seq<string>, x: string, c: char)
    requires |pieces| >= 1
    ensures Join(pieces + [x], c) == Join(pieces, c) + [c] + x
    decreases |pieces|
  {
    var all := pieces + [x];
    if |pieces| > 1 {
      assert all[1..] == pieces[1..] + [x];
      JoinSnoc(pieces[1..], x, c);
    } else {
      assert all[1..] == [x];
    }
  }

  lemma {:induction false} CopiesJoin(s: string, n: nat, c: char)
    requires n >= 1
    ensures Join(Copies(s, n + 1), c) == Join(Copies(s, n), c) + [c] + s
  {
    assert Copies(s, n + 1) == Copies(s, n) + [s];
    JoinSnoc(Copies(s, n), s, c);
  }

  /** The unfolded springs are the five copies with a '?' between each two. */
  lemma {:induction false} UnfoldSpringsLayout(s: string)
    ensures UnfoldSprings(s) == s + "?" + s + "?" + s + "?" + s + "?" + s
  {
    assert Join(Copies(s, 1), UNKNOWN) == s;
    CopiesJoin(s, 1, UNKNOWN);
    CopiesJoin(s, 2, UNKNOWN);
    CopiesJoin(s, 3, UNKNOWN);
    CopiesJoin(s, 4, UNKNOWN);
  }

  /** Unfolding keeps a line of springs a line of springs. */
  lemma {:induction false} UnfoldKeepsSprings(s: string)
    ensures Springs(s) ==> Springs(UnfoldSprings(s))
  {
    UnfoldSpringsLayout(s);
  }

  /** Copy `k` of the runs starts at `k * |groups|`. */
  lemma {:induction false} RepeatedAt(groups: seq<nat>, n: nat, k: nat, i: nat)
    requires k < n && i < |groups|
    ensures k * |groups| + i < n * |groups|
    ensures Repeated(groups, n)[k * |groups| + i] == groups[i]
  {
    assert n * |groups| == (n - 1) * |groups| + |groups|;
    if k < n - 1 {
      RepeatedAt(groups, n - 1, k, i);
    } else {
      assert k * |groups| == (n - 1) * |groups|;
    }
  }

  /** Repeating the runs multiplies their total and keeps them positive. */
  lemma {:induction false} RepeatedSum(groups: seq<nat>, n: nat)
    ensures Sum(Repeated(groups, n)) == n * Sum(groups)
    ensures Positive(groups) ==> Positive(Repeated(groups, n))
  {
    if n > 0 {
      RepeatedSum(groups, n - 1);
      SumAppend(Repeated(groups, n - 1), groups);
    }
  }

  /** `possible_arrangements`'s unfolding loop. */
  method Unfold(springs: string, groups: seq<nat>) returns (unfoldedSprings: string, unfoldedGroups: seq<nat>)
    ensures unfoldedSprings == UnfoldSprings(springs)
    ensures unfoldedGroups == UnfoldGroups(groups)
  {
    unfoldedSprings := "";
    unfoldedGroups := [];
    for n := 0 to 5
      invariant n > 0 ==> unfoldedSprings == Join(Copies(springs, n), UNKNOWN)
      invariant n == 0 ==> unfoldedSprings == ""
      invariant unfoldedGroups == Repeated(groups, n)
    {
      if n > 0 {
        unfoldedSprings := unfoldedSprings + [UNKNOWN];
        CopiesJoin(springs, n, UNKNOWN);
      } else {
        assert Join(Copies(springs, 1), UNKNOWN) == springs;
      }
      unfoldedSprings := unfoldedSprings + springs;
      unfoldedGroups := unfoldedGroups + groups;
    }
  }

  // ---------------------------------------------------------------------------
  // Parsing and the sum
  // ---------------------------------------------------------------------------

  /** `possible_arrangements`: no space gives 0; otherwise the count of the unfolded record. */
  function PossibleArrangements(line: string): (r: nat)
    ensures ' ' !in line ==> r == 0
  {
    match SplitOnce(line, ' ')
    case None => 0
    case Some((springs, groups)) => Arrange(UnfoldSprings(springs), UnfoldGroups(ParseGroups(groups)))
  }

  /** A line the source reads without an overflow. */
  predicate LineFits(line: string) {
    match SplitOnce(line, ' ')
    case None => true
    case Some((springs, groups)) => Fits(UnfoldSprings(springs), UnfoldGroups(ParseGroups(groups)))
  }

  method PossibleArrangementsMemo(line: string) returns (count: nat)
    requires LineFits(line)
    ensures count == PossibleArrangements(line)
  {
    match SplitOnce(line, ' ')
    case None =>
      count := 0;
    case Some((springs, groups)) =>
      var unfoldedSprings, unfoldedGroups := Unfold(springs, ParseGroups(groups));
      var cache: map<string, nat> := map[];
      count, cache := ArrangeMemo(unfoldedSprings, unfoldedGroups, cache);
  }

  /** A rendered record is counted as the arrangements of its unfolding. */
  lemma {:induction false} RecordArrangementsUnfolded(springs: string, groups: seq<nat>)
    requires Springs(springs) && Positive(groups)
    requires forall i :: 0 <= i < |groups| ==> groups[i] <= USIZE_MAX
    ensures PossibleArrangements(Record(springs, groups))
      == |Arrangements(UnfoldSprings(springs), UnfoldGroups(groups))|
  {
    RecordParts(springs, groups);
    UnfoldKeepsSprings(springs);
    RepeatedSum(groups, 5);
    ArrangeCounts(UnfoldSprings(springs), UnfoldGroups(groups));
  }

  /** The arrangements of the lines, summed. */
  function SumArrangements(lines: seq<string>): nat {
    if |lines| == 0 then 0 else SumArrangements(lines[..|lines| - 1]) + PossibleArrangements(lines[|lines| - 1])
  }

  /** `sum_possible_arrangements`, with the lines taken in order. */
  method SumPossibleArrangements(text: string) returns (total: nat)
    requires forall i :: 0 <= i < |Lines(text)| ==> LineFits(Lines(text)[i])
    ensures total == SumArrangements(Lines(text))
  {
    var lines := Lines(text);
    total := 0;
    for i := 0 to |lines|
      invariant total == SumArrangements(lines[..i])
    {
      var count := PossibleArrangementsMemo(lines[i]);
      assert lines[..i + 1][..i] == lines[..i];
      total := total + count;
    }
    assert lines[..|lines|] == lines;
  }
}
