/**
 * Day 05, part 2: an almanac lists seed ranges and seven blocks of maps
 * (seed to soil, soil to fertiliser, ..., humidity to location). Every seed
 * is carried through the seven stages and the answer is the lowest location.
 *
 * A stage applies every map to every value it is given and keeps what
 * matched; only when nothing matched does it pass its values on unchanged.
 */
module Day05Part2 {
  import opened Text

  /** One almanac line: `range` source values from `source` on map to values from `destination` on. */
  datatype Map = Map(destination: nat, source: nat, range: nat)

  /** Which upper bound a map's source range has. */
  datatype Bound = Inclusive | Exclusive

  /** `Map::get` as written: the bound `source + range` itself is inside. */
  function Get(m: Map, v: nat): (r: Option<nat>)
    ensures r.Some? <==> m.source <= v <= m.source + m.range
  {
    if v >= m.source && v <= m.source + m.range then Some(m.destination + (v - m.source)) else None
  }

  /** The map as the almanac means it: `range` values, the bound excluded. */
  function Lookup(m: Map, v: nat): (r: Option<nat>)
    ensures r.Some? <==> m.source <= v < m.source + m.range
  {
    if m.source <= v < m.source + m.range then Some(m.destination + (v - m.source)) else None
  }

  /** The two agree everywhere except at the bound, where only `get` matches. */
  lemma GetLookup(m: Map, v: nat)
    ensures v != m.source + m.range ==> Get(m, v) == Lookup(m, v)
    ensures v == m.source + m.range ==> Lookup(m, v).None? && Get(m, v) == Some(m.destination + m.range)
  {
  }

  function Apply(m: Map, v: nat, bound: Bound): Option<nat> {
    if bound == Inclusive then Get(m, v) else Lookup(m, v)
  }

  /** The u64 arithmetic of `get` stays in range for `v`: the bound is computed once `v >= source`. */
  predicate GetFits(m: Map, v: nat) {
    (v >= m.source ==> m.source + m.range <= U64_MAX)
    && (m.source <= v <= m.source + m.range ==> m.destination + (v - m.source) <= U64_MAX)
  }

  // ---------------------------------------------------------------------------
  // Parsing
  // ---------------------------------------------------------------------------

  /** `parse_line`: the line's u64 words; fewer than three is no map, extra ones are ignored. */
  function ParseLine(line: string): (r: Option<Map>)
    ensures r.Some? <==> |FilterMapNat(Words(line), U64_MAX)| >= 3
  {
    var values := FilterMapNat(Words(line), U64_MAX);
    if |values| < 3 then None else Some(Map(values[0], values[1], values[2]))
  }

  function RenderLine(m: Map): string {
    Join(Decimals([m.destination, m.source, m.range]), ' ')
  }

  /** Parsing keeps numbers from separate space-joined parts in order. */
  lemma {:induction false} FilterMapNatAppend(a: seq<string>, b: seq<string>, max: nat)
    ensures FilterMapNat(a + b, max) == FilterMapNat(a, max) + FilterMapNat(b, max)
  {
    if |a| > 0 {
      assert (a + b)[1..] == a[1..] + b;
      FilterMapNatAppend(a[1..], b, max);
    } else {
      assert a + b == b;
    }
  }

  /** A rendered map line, followed by anything after a space, parses back to the map. */
  lemma ParseRenderLine(m: Map, rest: string)
    requires m.destination <= U64_MAX && m.source <= U64_MAX && m.range <= U64_MAX
    ensures ParseLine(RenderLine(m)) == Some(m)
    ensures ParseLine(RenderLine(m) + " " + rest) == Some(m)
  {
    var xs := [m.destination, m.source, m.range];
    DecimalsSolid(xs);
    WordsJoin(Decimals(xs));
    FilterMapNatDecimals(xs, U64_MAX);
    WordsConcat(RenderLine(m), ' ', rest);
    assert RenderLine(m) + " " + rest == RenderLine(m) + [' '] + rest;
    FilterMapNatAppend(Words(RenderLine(m)), Words(rest), U64_MAX);
  }

  /** `lines().skip(1)`: a block's heading is dropped. */
  function Skip1<T>(xs: seq<T>): seq<T> {
    if |xs| == 0 then [] else xs[1..]
  }

  /** The maps of one block. */
  function MapsOf(block: string): seq<Map> {
    FilterMap(Skip1(Lines(block)), ParseLine)
  }

  /** `chunks(2)` into (start, length) pairs; an odd count would panic at `chunk[1]`. */
  function Pairs(xs: seq<nat>): (r: seq<(nat, nat)>)
    requires |xs| % 2 == 0
    ensures 2 * |r| == |xs|
    ensures forall k :: 0 <= k < |r| ==> r[k] == (xs[2 * k], xs[2 * k + 1])
  {
    if |xs| == 0 then [] else [(xs[0], xs[1])] + Pairs(xs[2..])
  }

  /** The blocks of the almanac, separated by a blank line. */
  function Blocks(text: string): (r: seq<string>)
    ensures |r| >= 1
  {
    SplitOn(text, "\n\n")
  }

  /** The u64 numbers of the first block. */
  function SeedNumbers(text: string): seq<nat> {
    FilterMapNat(Words(Blocks(text)[0]), U64_MAX)
  }

  /** The seven blocks of maps, in order; `get(1..=7).unwrap()` demands them. */
  function Stages(text: string): (r: seq<seq<Map>>)
    requires |Blocks(text)| >= 8
    ensures |r| == 7
  {
    seq(7, i requires 0 <= i < 7 => MapsOf(Blocks(text)[i + 1]))
  }

  // ---------------------------------------------------------------------------
  // Stages
  // ---------------------------------------------------------------------------

  /** What one map makes of the values, in order. */
  function Hits(m: Map, values: seq<nat>, bound: Bound): seq<nat> {
    if |values| == 0 then []
    else (match Apply(m, values[0], bound) case Some(x) => [x] case None => []) + Hits(m, values[1..], bound)
  }

  /** Every map applied to every value, the maps outermost (`flat_map` then `flatten`). */
  function Matches(maps: seq<Map>, values: seq<nat>, bound: Bound): seq<nat> {
    if |maps| == 0 then [] else Hits(maps[0], values, bound) + Matches(maps[1..], values, bound)
  }

  /** One stage: what matched, or the values themselves when nothing did. */
  function Stage(maps: seq<Map>, values: seq<nat>, bound: Bound): seq<nat> {
    var out := Matches(maps, values, bound);
    if |out| == 0 then values else out
  }

  /** The values after every stage in turn. */
  function Pipeline(stages: seq<seq<Map>>, values: seq<nat>, bound: Bound): seq<nat> {
    if |stages| == 0 then values else Pipeline(stages[1..], Stage(stages[0], values, bound), bound)
  }

  lemma {:induction false} HitsMembers(m: Map, values: seq<nat>, bound: Bound, x: nat)
    ensures x in Hits(m, values, bound) <==> exists v :: v in values && Apply(m, v, bound) == Some(x)
  {
    if |values| > 0 {
      HitsMembers(m, values[1..], bound, x);
      assert forall v :: v in values <==> v == values[0] || v in values[1..];
    }
  }

  lemma {:induction false} MatchesMembers(maps: seq<Map>, values: seq<nat>, bound: Bound, x: nat)
    ensures x in Matches(maps, values, bound)
      <==> exists m, v :: m in maps && v in values && Apply(m, v, bound) == Some(x)
  {
    if |maps| > 0 {
      HitsMembers(maps[0], values, bound, x);
      MatchesMembers(maps[1..], values, bound, x);
      assert forall m :: m in maps <==> m == maps[0] || m in maps[1..];
    }
  }

  /** A stage yields a value exactly when some map takes some value to it, or when nothing matched and it was given. */
  lemma StageMembers(maps: seq<Map>, values: seq<nat>, bound: Bound, x: nat)
    ensures x in Stage(maps, values, bound)
      <==> (exists m, v :: m in maps && v in values && Apply(m, v, bound) == Some(x))
           || ((forall m, v :: m in maps && v in values ==> Apply(m, v, bound).None?) && x in values)
  {
    MatchesMembers(maps, values, bound, x);
    if |Matches(maps, values, bound)| > 0 {
      var y := Matches(maps, values, bound)[0];
      MatchesMembers(maps, values, bound, y);
    } else {
      forall m, v | m in maps && v in values
        ensures Apply(m, v, bound).None?
      {
        if Apply(m, v, bound).Some? {
          MatchesMembers(maps, values, bound, Apply(m, v, bound).value);
        }
      }
    }
  }

  /** A stage given values yields values: nothing is ever lost entirely. */
  lemma {:induction false} PipelineNonEmpty(stages: seq<seq<Map>>, values: seq<nat>, bound: Bound)
    requires |values| > 0
    ensures |Pipeline(stages, values, bound)| > 0
  {
    if |stages| > 0 {
      PipelineNonEmpty(stages[1..], Stage(stages[0], values, bound), bound);
    }
  }

  // ---------------------------------------------------------------------------
  // The almanac as meant: disjoint maps, each value mapped once
  // ---------------------------------------------------------------------------

  /** No two maps of a block share a source value. */
  predicate Disjoint(maps: seq<Map>) {
    forall i, j :: 0 <= i < j < |maps| ==>
      maps[i].source + maps[i].range <= maps[j].source || maps[j].source + maps[j].range <= maps[i].source
  }

  /** The puzzle's lookup: the map whose range holds `v`, or `v` itself. */
  function Translate(maps: seq<Map>, v: nat): nat {
    if |maps| == 0 then v
    else match Lookup(maps[0], v) case Some(x) => x case None => Translate(maps[1..], v)
  }

  /** A value is carried through every block in turn. */
  function Through(stages: seq<seq<Map>>, v: nat): nat {
    if |stages| == 0 then v else Through(stages[1..], Translate(stages[0], v))
  }

  lemma {:induction false} MatchesNone(maps: seq<Map>, v: nat)
    requires forall m :: m in maps ==> Lookup(m, v).None?
    ensures Matches(maps, [v], Exclusive) == []
  {
    if |maps| > 0 {
      assert maps[0] in maps;
      assert [v][1..] == [];
      assert Hits(maps[0], [v], Exclusive) == [];
      MatchesNone(maps[1..], v);
    }
  }

  /** With disjoint maps and the bound excluded, a stage maps one value to exactly its lookup. */
  lemma {:induction false} StageSingle(maps: seq<Map>, v: nat)
    requires Disjoint(maps)
    ensures Stage(maps, [v], Exclusive) == [Translate(maps, v)]
  {
    if |maps| > 0 {
      var rest := maps[1..];
      assert [v][1..] == [];
      match Lookup(maps[0], v)
      case Some(x) =>
        forall m | m in rest
          ensures Lookup(m, v).None?
        {
          var j :| 0 <= j < |rest| && rest[j] == m;
          assert maps[j + 1] == m;
        }
        MatchesNone(rest, v);
      case None =>
        assert Hits(maps[0], [v], Exclusive) == [];
        assert Matches(maps, [v], Exclusive) == Matches(rest, [v], Exclusive);
        assert Disjoint(rest) by {
          forall i, j | 0 <= i < j < |rest|
            ensures rest[i].source + rest[i].range <= rest[j].source || rest[j].source + rest[j].range <= rest[i].source
          {
            assert rest[i] == maps[i + 1] && rest[j] == maps[j + 1];
          }
        }
        StageSingle(rest, v);
    }
  }

  /** With disjoint maps and the bound excluded, a seed ends in exactly one location: the puzzle's. */
  lemma {:induction false} PipelineSingle(stages: seq<seq<Map>>, v: nat)
    requires forall i :: 0 <= i < |stages| ==> Disjoint(stages[i])
    ensures Pipeline(stages, [v], Exclusive) == [Through(stages, v)]
  {
    if |stages| > 0 {
      StageSingle(stages[0], v);
      PipelineSingle(stages[1..], Translate(stages[0], v));
    }
  }

  // ---------------------------------------------------------------------------
  // Seeds and the answer
  // ---------------------------------------------------------------------------

  /** `start..start + length`. */
  function Range(start: nat, length: nat): (r: seq<nat>)
    ensures |r| == length
    ensures forall k :: 0 <= k < length ==> r[k] == start + k
  {
    seq(length, k requires 0 <= k < length => start + k)
  }

  /** Every seed of every pair, in order. */
  function Expand(pairs: seq<(nat, nat)>): seq<nat> {
    if |pairs| == 0 then [] else Expand(pairs[..|pairs| - 1]) + Range(pairs[|pairs| - 1].0, pairs[|pairs| - 1].1)
  }

  /** The seeds are exactly the values inside some pair's range. */
  lemma {:induction false} ExpandMembers(pairs: seq<(nat, nat)>, n: nat)
    ensures n in Expand(pairs) <==> exists p :: p in pairs && p.0 <= n < p.0 + p.1
  {
    if |pairs| > 0 {
      var init, last := pairs[..|pairs| - 1], pairs[|pairs| - 1];
      ExpandMembers(init, n);
      assert forall p :: p in pairs <==> p in init || p == last;
      if last.0 <= n < last.0 + last.1 {
        assert Range(last.0, last.1)[n - last.0] == n;
      }
    }
  }

  /** The locations of the given seeds, in order. */
  function Locations(stages: seq<seq<Map>>, seeds: seq<nat>, bound: Bound): seq<nat> {
    if |seeds| == 0 then []
    else Locations(stages, seeds[..|seeds| - 1], bound) + Pipeline(stages, [seeds[|seeds| - 1]], bound)
  }

  /** Some seed gives some location. */
  lemma {:induction false} LocationsNonEmpty(stages: seq<seq<Map>>, seeds: seq<nat>, bound: Bound)
    ensures |Locations(stages, seeds, bound)| > 0 <==> |seeds| > 0
  {
    if |seeds| > 0 {
      PipelineNonEmpty(stages, [seeds[|seeds| - 1]], bound);
    }
  }

  /** With disjoint maps and the bound excluded, the locations are the seeds carried through the blocks. */
  lemma {:induction false} LocationsThrough(stages: seq<seq<Map>>, seeds: seq<nat>)
    requires forall i :: 0 <= i < |stages| ==> Disjoint(stages[i])
    ensures |Locations(stages, seeds, Exclusive)| == |seeds|
    ensures forall k :: 0 <= k < |seeds| ==> Locations(stages, seeds, Exclusive)[k] == Through(stages, seeds[k])
  {
    if |seeds| > 0 {
      LocationsThrough(stages, seeds[..|seeds| - 1]);
      PipelineSingle(stages, seeds[|seeds| - 1]);
    }
  }

  /** Nothing overflows u64 while a stage's maps are applied to its values, stage after stage. */
  ghost predicate PipelineFits(stages: seq<seq<Map>>, values: seq<nat>) {
    |stages| == 0
    || ((forall m, v :: m in stages[0] && v in values ==> GetFits(m, v))
        && PipelineFits(stages[1..], Stage(stages[0], values, Inclusive)))
  }

  /** What the source demands of the almanac: eight blocks, seed numbers in pairs whose ranges fit u64, at least one seed, and no overflow in `get`. */
  ghost predicate Almanac(text: string) {
    |Blocks(text)| >= 8
    && |SeedNumbers(text)| % 2 == 0
    && (forall p :: p in Pairs(SeedNumbers(text)) ==> p.0 + p.1 <= U64_MAX)
    && |Expand(Pairs(SeedNumbers(text)))| > 0
    && (forall n :: n in Expand(Pairs(SeedNumbers(text))) ==> PipelineFits(Stages(text), [n]))
  }

  /** Every location the source collects. */
  function AllLocations(text: string): seq<nat>
    requires |Blocks(text)| >= 8 && |SeedNumbers(text)| % 2 == 0
  {
    Locations(Stages(text), Expand(Pairs(SeedNumbers(text))), Inclusive)
  }

  /** `find_lowest_location_number`: every seed's locations are collected and the least is returned. */
  method FindLowestLocation(text: string) returns (lowest: nat)
    requires Almanac(text)
    ensures lowest in AllLocations(text)
    ensures forall x :: x in AllLocations(text) ==> lowest <= x
  {
    var stages := Stages(text);
    var pairs := Pairs(SeedNumbers(text));
    var locations := CollectLocations(stages, pairs);
    LocationsNonEmpty(stages, Expand(pairs), Inclusive);
    lowest := Lowest(locations);
  }

  /** The locations of every seed of every pair (the outer `flat_map`). */
  method CollectLocations(stages: seq<seq<Map>>, pairs: seq<(nat, nat)>) returns (locations: seq<nat>)
    ensures locations == Locations(stages, Expand(pairs), Inclusive)
  {
    locations := [];
    for i := 0 to |pairs|
      invariant locations == Locations(stages, Expand(pairs[..i]), Inclusive)
    {
      assert pairs[..i + 1][..i] == pairs[..i];
      locations := CollectRange(stages, Expand(pairs[..i]), locations, pairs[i].0, pairs[i].1);
    }
    assert pairs[..|pairs|] == pairs;
  }

  /** The locations of the seeds `start..start + length` appended (the inner `flat_map`). */
  method CollectRange(stages: seq<seq<Map>>, ghost before: seq<nat>, prefix: seq<nat>, start: nat, length: nat)
    returns (locations: seq<nat>)
    requires prefix == Locations(stages, before, Inclusive)
    ensures locations == Locations(stages, before + Range(start, length), Inclusive)
  {
    locations := prefix;
    assert before + Range(start, 0) == before;
    for n := start to start + length
      invariant locations == Locations(stages, before + Range(start, n - start), Inclusive)
    {
      RangeSnoc(before, start, n - start);
      LocationsSnoc(stages, before + Range(start, n - start), n, Inclusive);
      locations := locations + Pipeline(stages, [n], Inclusive);
    }
  }

  lemma RangeSnoc(before: seq<nat>, start: nat, k: nat)
    ensures before + Range(start, k + 1) == (before + Range(start, k)) + [start + k]
  {
    assert Range(start, k + 1) == Range(start, k) + [start + k];
  }

  lemma LocationsSnoc(stages: seq<seq<Map>>, seeds: seq<nat>, n: nat, bound: Bound)
    ensures Locations(stages, seeds + [n], bound) == Locations(stages, seeds, bound) + Pipeline(stages, [n], bound)
  {
    assert (seeds + [n])[..|seeds|] == seeds;
  }

  /** `sort_unstable` then `first`: the least location. */
  method Lowest(locations: seq<nat>) returns (lowest: nat)
    requires |locations| > 0
    ensures lowest in locations
    ensures forall x :: x in locations ==> lowest <= x
  {
    lowest := locations[0];
    for i := 1 to |locations|
      invariant lowest in locations
      invariant forall k :: 0 <= k < i ==> lowest <= locations[k]
    {
      if locations[i] < lowest {
        lowest := locations[i];
      }
    }
  }

  // ---------------------------------------------------------------------------
  // Where the source departs from the puzzle
  // ---------------------------------------------------------------------------

  /** Seed 100 against a seed-to-soil map of the two values 98 and 99; every other block empty. */
  function BoundStages(): seq<seq<Map>> {
    [[Map(50, 98, 2)], [], [], [], [], [], []]
  }

  /** Empty blocks pass every value through. */
  lemma {:induction false} EmptyStages(stages: seq<seq<Map>>, values: seq<nat>, bound: Bound)
    requires forall i :: 0 <= i < |stages| ==> stages[i] == []
    ensures Pipeline(stages, values, bound) == values
  {
    if |stages| > 0 {
      EmptyStages(stages[1..], values, bound);
    }
  }

  /** As written seed 100 lands on 52 through a map that ends at 99; as meant it stays 100. */
  lemma UpperBoundIncluded()
    ensures Locations(BoundStages(), Expand([(100, 1)]), Inclusive) == [52]
    ensures Locations(BoundStages(), Expand([(100, 1)]), Exclusive) == [100]
  {
    var stages := BoundStages();
    assert Expand([(100, 1)]) == [100] by {
      assert [(100, 1)][..0] == [];
    }
    assert Stage(stages[0], [100], Inclusive) == [52];
    assert Stage(stages[0], [100], Exclusive) == [100];
    EmptyStages(stages[1..], [52], Inclusive);
    EmptyStages(stages[1..], [100], Exclusive);
    assert [100][..0] == [];
  }
}
