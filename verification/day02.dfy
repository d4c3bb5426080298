/**
 * Day 02, part 1: a game is a list of sets of coloured cubes shown from a
 * bag. A game is possible when no set shows more than 12 red, 13 green or
 * 14 blue cubes; the answer sums the ids of the possible games.
 */
module Day02Part1 {
  import opened Text

  datatype Colour = Red | Green | Blue

  /** `Colour::max`: the bag holds 12 red, 13 green and 14 blue cubes. */
  function MaxAmount(colour: Colour): nat {
    match colour
    case Red => 12
    case Green => 13
    case Blue => 14
  }

  function Name(colour: Colour): (name: string)
    ensures |name| > 0 && Solid(name)
  {
    match colour
    case Red => "red"
    case Green => "green"
    case Blue => "blue"
  }

  /** `Colour::from_str`: exactly the three names. */
  function ParseColour(s: string): (r: Option<Colour>) {
    match s
    case "red" => Some(Red)
    case "green" => Some(Green)
    case "blue" => Some(Blue)
    case _ => None
  }

  /** A colour is parsed from its name and from nothing else. */
  lemma ParseColourName(s: string, colour: Colour)
    ensures ParseColour(s) == Some(colour) <==> s == Name(colour)
  {
  }

  /** `ColouredCube`; the amount is a `u8`. */
  datatype Cube = Cube(amount: nat, colour: Colour)

  /** `ColouredCube::is_valid`. */
  predicate CubeValid(cube: Cube) {
    cube.amount <= MaxAmount(cube.colour)
  }

  datatype CubeSet = CubeSet(cubes: seq<Cube>)

  /** How many cubes of a set are not valid. */
  function InvalidCount(cubes: seq<Cube>): (n: nat)
    ensures n <= |cubes|
  {
    if |cubes| == 0 then 0
    else (if CubeValid(cubes[0]) then 0 else 1) + InvalidCount(cubes[1..])
  }

  /** `CubeSet::is_valid`: no cube is counted as invalid. */
  predicate SetValid(cubeSet: CubeSet) {
    InvalidCount(cubeSet.cubes) == 0
  }

  /** A set is valid exactly when every one of its cubes is. */
  lemma {:induction false} SetValidAll(cubes: seq<Cube>)
    ensures InvalidCount(cubes) == 0 <==> forall k :: 0 <= k < |cubes| ==> CubeValid(cubes[k])
  {
    if |cubes| > 0 {
      SetValidAll(cubes[1..]);
      assert forall k :: 1 <= k < |cubes| ==> cubes[k] == cubes[1..][k - 1];
    }
  }

  datatype Game = Game(id: nat, sets: seq<CubeSet>)

  function InvalidSets(sets: seq<CubeSet>): (n: nat)
    ensures n <= |sets|
  {
    if |sets| == 0 then 0
    else (if SetValid(sets[0]) then 0 else 1) + InvalidSets(sets[1..])
  }

  /** `Game::is_possible`: no set is counted as invalid. */
  predicate Possible(game: Game) {
    InvalidSets(game.sets) == 0
  }

  /** A game is possible exactly when every cube of every set fits in the bag. */
  lemma {:induction false} PossibleAll(sets: seq<CubeSet>)
    ensures InvalidSets(sets) == 0 <==>
      forall i, k :: 0 <= i < |sets| && 0 <= k < |sets[i].cubes| ==> CubeValid(sets[i].cubes[k])
  {
    if |sets| > 0 {
      PossibleAll(sets[1..]);
      SetValidAll(sets[0].cubes);
      assert forall i :: 1 <= i < |sets| ==> sets[i] == sets[1..][i - 1];
    }
  }

  // ---------------------------------------------------------------------------
  // Parsing
  // ---------------------------------------------------------------------------

  /**
   * `parse_cube`: the first whitespace-separated token is a `u8` amount, the
   * second a colour; further tokens are ignored.
   */
  function ParseCube(cube: string): (r: Option<Cube>)
    ensures r.Some? ==> r.value.amount <= U8_MAX
    ensures |Words(cube)| < 2 ==> r.None?
  {
    var tokens := Words(cube);
    if |tokens| >= 2 then
      match (ParseUnsigned(tokens[0], U8_MAX), ParseColour(tokens[1]))
      case (Some(amount), Some(colour)) => Some(Cube(amount, colour))
      case _ => None
    else None
  }

  /**
   * `parse_set`: the trimmed text split on ',', the cubes of the pieces that
   * parse kept in order; none when no piece parses.
   */
  function ParseSet(text: string): (r: Option<CubeSet>)
    ensures r.Some? ==> |r.value.cubes| > 0
  {
    var cubes := FilterMap(Split(Trim(text), ','), ParseCube);
    if |cubes| == 0 then None else Some(CubeSet(cubes))
  }

  lemma NoCubes(pieces: seq<string>)
    ensures |FilterMap(pieces, ParseCube)| == 0 <==> forall k :: 0 <= k < |pieces| ==> ParseCube(pieces[k]).None?
  {
    FilterMapNone(pieces, ParseCube);
  }

  lemma ParseSetCubes(text: string)
    ensures var cubes := FilterMap(Split(Trim(text), ','), ParseCube);
      ParseSet(text) == if |cubes| == 0 then None else Some(CubeSet(cubes))
  {
  }

  /** A set fails to parse exactly when none of its pieces is a cube. */
  lemma ParseSetNone(text: string)
    ensures var pieces := Split(Trim(text), ',');
      ParseSet(text).None? <==> forall k :: 0 <= k < |pieces| ==> ParseCube(pieces[k]).None?
  {
    ParseSetCubes(text);
    NoCubes(Split(Trim(text), ','));
  }

  /** `parse_sets_string`: split on ';', the sets that parse kept in order; none when no set parses. */
  function ParseSets(sets: string): (r: Option<seq<CubeSet>>)
    ensures r.Some? ==> |r.value| > 0
  {
    var parsed := FilterMap(Split(sets, ';'), ParseSet);
    if |parsed| == 0 then None else Some(parsed)
  }

  lemma NoSets(pieces: seq<string>)
    ensures |FilterMap(pieces, ParseSet)| == 0 <==> forall k :: 0 <= k < |pieces| ==> ParseSet(pieces[k]).None?
  {
    FilterMapNone(pieces, ParseSet);
  }

  lemma ParseSetsList(sets: string)
    ensures var parsed := FilterMap(Split(sets, ';'), ParseSet);
      ParseSets(sets) == if |parsed| == 0 then None else Some(parsed)
  {
  }

  /** The sets fail to parse exactly when none of the pieces is a set. */
  lemma ParseSetsNone(sets: string)
    ensures var pieces := Split(sets, ';');
      ParseSets(sets).None? <==> forall k :: 0 <= k < |pieces| ==> ParseSet(pieces[k]).None?
  {
    ParseSetsList(sets);
    NoSets(Split(sets, ';'));
  }

  /** `parse_game_string`: the text after the first space of the trimmed prefix, as a `u32`. */
  function ParseGameId(game: string): (r: Option<nat>)
    ensures r.Some? ==> r.value <= U32_MAX
  {
    match SplitOnce(Trim(game), ' ')
    case Some((_, id)) => ParseUnsigned(id, U32_MAX)
    case None => None
  }

  /** `parse_game`: the id before the first ':', the sets after it. */
  function ParseGame(line: string): (r: Option<Game>)
    ensures r.Some? ==> r.value.id <= U32_MAX
  {
    match SplitOnce(line, ':')
    case None => None
    case Some((game, sets)) =>
      match (ParseGameId(game), ParseSets(sets))
      case (Some(id), Some(parsed)) => Some(Game(id, parsed))
      case _ => None
  }

  // ---------------------------------------------------------------------------
  // Rendering, the inverse of parsing
  // ---------------------------------------------------------------------------

  /** "3 blue". */
  function RenderCube(cube: Cube): string {
    Decimal(cube.amount) + " " + Name(cube.colour)
  }

  function RenderedCubes(cubes: seq<Cube>): (r: seq<string>)
    ensures |r| == |cubes| && forall k :: 0 <= k < |r| ==> r[k] == RenderCube(cubes[k])
  {
    seq(|cubes|, k requires 0 <= k < |cubes| => RenderCube(cubes[k]))
  }

  /** "3 blue,4 red". */
  function RenderSet(cubeSet: CubeSet): string {
    Join(RenderedCubes(cubeSet.cubes), ',')
  }

  function RenderedSets(sets: seq<CubeSet>): (r: seq<string>)
    ensures |r| == |sets| && forall k :: 0 <= k < |r| ==> r[k] == RenderSet(sets[k])
  {
    seq(|sets|, k requires 0 <= k < |sets| => RenderSet(sets[k]))
  }

  /** "Game 1:3 blue,4 red;1 red". */
  function RenderGame(game: Game): string {
    "Game " + Decimal(game.id) + [':'] + Join(RenderedSets(game.sets), ';')
  }

  /** What the puzzle's games look like: `u8` amounts, `u32` id, no empty list. */
  predicate WellFormed(game: Game) {
    game.id <= U32_MAX && |game.sets| > 0
    && forall i :: 0 <= i < |game.sets| ==>
      (|game.sets[i].cubes| > 0 && forall k :: 0 <= k < |game.sets[i].cubes| ==> game.sets[i].cubes[k].amount <= U8_MAX)
  }

  lemma DecimalSolid(n: nat)
    ensures Solid(Decimal(n)) && ':' !in Decimal(n) && ',' !in Decimal(n) && ';' !in Decimal(n)
  {
    var d := Decimal(n);
    forall k | 0 <= k < |d| ensures !IsWhitespace(d[k]) && d[k] != ':' && d[k] != ',' && d[k] != ';' {
      assert IsDigit(d[k]);
    }
  }

  lemma {:induction false} ParseRenderCube(cube: Cube)
    requires cube.amount <= U8_MAX
    ensures ParseCube(RenderCube(cube)) == Some(cube)
  {
    DecimalSolid(cube.amount);
    WordsPair(Decimal(cube.amount), Name(cube.colour));
    ParseDecimal(cube.amount, U8_MAX);
    ParseColourName(Name(cube.colour), cube.colour);
  }

  lemma {:induction false} RenderCubeFree(cube: Cube)
    ensures var r := RenderCube(cube);
      ',' !in r && ';' !in r && ':' !in r && |r| > 0 && !IsWhitespace(r[0]) && !IsWhitespace(r[|r| - 1])
  {
    DecimalSolid(cube.amount);
    var d := Decimal(cube.amount);
    var r := RenderCube(cube);
    assert r[0] == d[0];
    assert r[|r| - 1] == Name(cube.colour)[|Name(cube.colour)| - 1];
  }

  /** Well-formed cubes: `u8` amounts, at least one cube. */
  predicate CubesFit(cubes: seq<Cube>) {
    |cubes| > 0 && forall k :: 0 <= k < |cubes| ==> cubes[k].amount <= U8_MAX
  }

  lemma {:induction false} RenderedCubesFree(cubes: seq<Cube>)
    ensures forall k :: 0 <= k < |cubes| ==>
      var r := RenderedCubes(cubes)[k]; ',' !in r && ';' !in r && ':' !in r && |r| > 0
  {
    forall k | 0 <= k < |cubes| ensures var r := RenderedCubes(cubes)[k]; ',' !in r && ';' !in r && ':' !in r && |r| > 0 {
      RenderCubeFree(cubes[k]);
    }
  }

  /** A rendered set has no ';' or ':' and starts and ends with something else than whitespace. */
  lemma {:induction false} RenderSetFree(cubeSet: CubeSet)
    requires |cubeSet.cubes| > 0
    ensures var r := RenderSet(cubeSet); ';' !in r && ':' !in r && Trim(r) == r
  {
    var cubes := cubeSet.cubes;
    var pieces := RenderedCubes(cubes);
    RenderedCubesFree(cubes);
    JoinFree(pieces, ',', ';');
    JoinFree(pieces, ',', ':');
    JoinEnds(pieces, ',');
    RenderCubeFree(cubes[0]);
    RenderCubeFree(cubes[|cubes| - 1]);
    TrimSolidEnds(RenderSet(cubeSet));
  }

  lemma {:induction false} ParseRenderedCubes(cubes: seq<Cube>)
    requires CubesFit(cubes)
    ensures FilterMap(RenderedCubes(cubes), ParseCube) == cubes
  {
    var pieces := RenderedCubes(cubes);
    forall k | 0 <= k < |pieces| ensures ParseCube(pieces[k]) == Some(cubes[k]) {
      ParseRenderCube(cubes[k]);
    }
    FilterMapAll(pieces, ParseCube, cubes);
  }

  /** `parse_set` reads back every set of `u8` amounts from its text. */
  lemma {:induction false} ParseRenderSet(cubeSet: CubeSet)
    requires CubesFit(cubeSet.cubes)
    ensures ParseSet(RenderSet(cubeSet)) == Some(cubeSet)
  {
    var pieces := RenderedCubes(cubeSet.cubes);
    RenderSetFree(cubeSet);
    RenderedCubesFree(cubeSet.cubes);
    SplitJoin(pieces, ',');
    ParseRenderedCubes(cubeSet.cubes);
    ParseSetCubes(RenderSet(cubeSet));
  }

  lemma {:induction false} ParseRenderedSets(sets: seq<CubeSet>)
    requires forall i :: 0 <= i < |sets| ==> CubesFit(sets[i].cubes)
    ensures FilterMap(RenderedSets(sets), ParseSet) == sets
    ensures forall i :: 0 <= i < |sets| ==> ';' !in RenderedSets(sets)[i] && ':' !in RenderedSets(sets)[i]
  {
    var pieces := RenderedSets(sets);
    forall i | 0 <= i < |sets|
      ensures ParseSet(pieces[i]) == Some(sets[i]) && ';' !in pieces[i] && ':' !in pieces[i]
    {
      ParseRenderSet(sets[i]);
      RenderSetFree(sets[i]);
    }
    FilterMapAll(pieces, ParseSet, sets);
  }

  /** "Game 12" names game 12. */
  lemma {:induction false} ParseGameIdRendered(id: nat)
    requires id <= U32_MAX
    ensures ParseGameId("Game " + Decimal(id)) == Some(id)
  {
    var d := Decimal(id);
    var prefix := "Game " + d;
    DecimalSolid(id);
    assert prefix[0] == 'G' && prefix[|prefix| - 1] == d[|d| - 1];
    TrimSolidEnds(prefix);
    assert prefix == "Game" + [' '] + d;
    SplitOnceAt("Game", d, ' ');
    ParseDecimal(id, U32_MAX);
  }

  lemma GamePrefixFree(id: nat)
    ensures ':' !in "Game " + Decimal(id)
  {
    var d := Decimal(id);
    var prefix := "Game " + d;
    DecimalSolid(id);
    forall k | 0 <= k < |prefix| ensures prefix[k] != ':' {
      if k >= 5 {
        assert prefix[k] == d[k - 5];
      }
    }
  }

  /** `parse_game` reads back every well-formed game from its text. */
  lemma {:induction false} ParseRenderGame(game: Game)
    requires WellFormed(game)
    ensures ParseGame(RenderGame(game)) == Some(game)
  {
    var pieces := RenderedSets(game.sets);
    assert forall i :: 0 <= i < |game.sets| ==> CubesFit(game.sets[i].cubes);
    ParseRenderedSets(game.sets);
    var sets := Join(pieces, ';');
    JoinFree(pieces, ';', ':');
    SplitJoin(pieces, ';');
    ParseSetsList(sets);
    var prefix := "Game " + Decimal(game.id);
    GamePrefixFree(game.id);
    assert RenderGame(game) == prefix + [':'] + sets;
    SplitOnceAt(prefix, sets, ':');
    ParseGameIdRendered(game.id);
  }

  // ---------------------------------------------------------------------------
  // The answer
  // ---------------------------------------------------------------------------

  /** What a line adds to the answer: the id of a possible game, else nothing. */
  function LineId(line: string): nat {
    match ParseGame(line) case Some(g) => (if Possible(g) then g.id else 0) case None => 0
  }

  /** The ids of the lines that parse to a possible game, summed. */
  function IdSum(lines: seq<string>): nat {
    if |lines| == 0 then 0 else IdSum(lines[..|lines| - 1]) + LineId(lines[|lines| - 1])
  }

  lemma IdSumSnoc(lines: seq<string>, i: nat)
    requires i < |lines|
    ensures IdSum(lines[..i + 1]) == IdSum(lines[..i]) + LineId(lines[i])
  {
    assert lines[..i + 1][..i] == lines[..i];
  }

  /** `calculate_game_id_sum`: the `u32` sum must not overflow. */
  method GameIdSum(lines: seq<string>) returns (total: nat)
    requires IdSum(lines) <= U32_MAX
    ensures total == IdSum(lines)
  {
    total := 0;
    for i := 0 to |lines|
      invariant total == IdSum(lines[..i])
    {
      IdSumSnoc(lines, i);
      var id := PossibleId(lines[i]);
      total := total + id;
    }
    assert lines[..|lines|] == lines;
  }

  /** The id one line adds: a possible game's id, or nothing. */
  method PossibleId(line: string) returns (id: nat)
    ensures id == LineId(line)
  {
    id := 0;
    var parsed := ParseGame(line);
    match parsed
    case Some(game) =>
      if Possible(game) {
        id := game.id;
      }
    case None =>
  }

  /** A possible game's rendered line adds its id. */
  lemma {:induction false} IdSumRendered(lines: seq<string>, game: Game)
    requires WellFormed(game)
    ensures IdSum(lines + [RenderGame(game)]) == IdSum(lines) + (if Possible(game) then game.id else 0)
  {
    var all := lines + [RenderGame(game)];
    assert all[..|all| - 1] == lines;
    assert all[|all| - 1] == RenderGame(game);
    LineIdRendered(game);
  }

  lemma LineIdRendered(game: Game)
    requires WellFormed(game)
    ensures LineId(RenderGame(game)) == if Possible(game) then game.id else 0
  {
    ParseRenderGame(game);
  }
}

/**
 * Day 02, part 2: the smallest bag that makes a game possible holds, per
 * colour, the largest number of cubes of that colour any set shows; the
 * answer sums the powers (products of amounts) of those smallest bags.
 */
module Day02Part2 {
  import opened Text
  import opened Day02Part1

  /** The cubes of one colour, in order (the `filter` inside `flat_map`). */
  function OfColour(cubes: seq<Cube>, colour: Colour): (r: seq<Cube>)
    ensures |r| <= |cubes|
    ensures forall i :: 0 <= i < |r| ==> r[i].colour == colour
  {
    if |cubes| == 0 then []
    else (if cubes[0].colour == colour then [cubes[0]] else []) + OfColour(cubes[1..], colour)
  }

  lemma {:induction false} OfColourMembers(cubes: seq<Cube>, colour: Colour, cube: Cube)
    ensures cube in OfColour(cubes, colour) <==> cube in cubes && cube.colour == colour
  {
    if |cubes| > 0 {
      OfColourMembers(cubes[1..], colour, cube);
      assert cubes == [cubes[0]] + cubes[1..];
    }
  }

  /** Every cube has exactly one of the three colours. */
  lemma {:induction false} OfColourSplit(cubes: seq<Cube>)
    ensures |OfColour(cubes, Red)| + |OfColour(cubes, Green)| + |OfColour(cubes, Blue)| == |cubes|
  {
    if |cubes| > 0 {
      OfColourSplit(cubes[1..]);
    }
  }

  /** The cubes of one colour shown by all sets of a game, set by set. */
  function Drawn(sets: seq<CubeSet>, colour: Colour): (r: seq<Cube>)
    ensures forall cube :: cube in r ==> cube.colour == colour
  {
    if |sets| == 0 then [] else OfColour(sets[0].cubes, colour) + Drawn(sets[1..], colour)
  }

  /** Some set of the game shows this cube. */
  predicate Shown(sets: seq<CubeSet>, cube: Cube) {
    exists k :: 0 <= k < |sets| && cube in sets[k].cubes
  }

  lemma {:induction false} DrawnMembers(sets: seq<CubeSet>, colour: Colour, cube: Cube)
    ensures cube in Drawn(sets, colour) <==> Shown(sets, cube) && cube.colour == colour
  {
    if |sets| > 0 {
      DrawnMembers(sets[1..], colour, cube);
      OfColourMembers(sets[0].cubes, colour, cube);
      assert forall k :: 1 <= k < |sets| ==> sets[k] == sets[1..][k - 1];
    }
  }

  /** No set of the game shows any cube. */
  predicate NoneShown(sets: seq<CubeSet>) {
    forall k :: 0 <= k < |sets| ==> |sets[k].cubes| == 0
  }

  lemma {:induction false} DrawnNone(sets: seq<CubeSet>)
    ensures (|Drawn(sets, Red)| == 0 && |Drawn(sets, Green)| == 0 && |Drawn(sets, Blue)| == 0) <==> NoneShown(sets)
  {
    if |sets| > 0 {
      DrawnNone(sets[1..]);
      OfColourSplit(sets[0].cubes);
      assert forall k :: 1 <= k < |sets| ==> sets[k] == sets[1..][k - 1];
    }
  }

  // ---------------------------------------------------------------------------
  // `sort` and `last`: the largest cube of a colour
  // ---------------------------------------------------------------------------

  predicate Ascending(cubes: seq<Cube>) {
    forall i, j :: 0 <= i < j < |cubes| ==> cubes[i].amount <= cubes[j].amount
  }

  function Insert(cube: Cube, sorted: seq<Cube>): (r: seq<Cube>)
    requires Ascending(sorted)
    ensures Ascending(r) && |r| == |sorted| + 1
    ensures forall x :: x in r <==> x == cube || x in sorted
  {
    if |sorted| == 0 || cube.amount <= sorted[0].amount then [cube] + sorted
    else
      assert forall x :: x in sorted <==> x == sorted[0] || x in sorted[1..];
      var rest := Insert(cube, sorted[1..]);
      assert forall x :: x in sorted[1..] ==> sorted[0].amount <= x.amount;
      assert forall i :: 0 <= i < |rest| ==> rest[i] in rest;
      [sorted[0]] + rest
  }

  /** `sort`: cubes of one colour compare by amount. */
  function Sort(cubes: seq<Cube>): (r: seq<Cube>)
    ensures Ascending(r) && |r| == |cubes|
    ensures forall x :: x in r <==> x in cubes
  {
    if |cubes| == 0 then []
    else
      assert forall x :: x in cubes <==> x == cubes[0] || x in cubes[1..];
      Insert(cubes[0], Sort(cubes[1..]))
  }

  lemma {:induction false} InsertPermutes(cube: Cube, sorted: seq<Cube>)
    requires Ascending(sorted)
    ensures multiset(Insert(cube, sorted)) == multiset(sorted) + multiset{cube}
  {
    if |sorted| > 0 && sorted[0].amount < cube.amount {
      InsertPermutes(cube, sorted[1..]);
      assert sorted == [sorted[0]] + sorted[1..];
    }
  }

  /** The sorted cubes are a permutation of the cubes. */
  lemma {:induction false} SortPermutes(cubes: seq<Cube>)
    ensures multiset(Sort(cubes)) == multiset(cubes)
  {
    if |cubes| > 0 {
      SortPermutes(cubes[1..]);
      InsertPermutes(cubes[0], Sort(cubes[1..]));
      assert cubes == [cubes[0]] + cubes[1..];
    }
  }

  /** `last` of the sorted cubes: one of the cubes, if there is any. */
  function Largest(cubes: seq<Cube>): (r: Option<Cube>)
    ensures r.None? <==> |cubes| == 0
    ensures r.Some? ==> r.value in cubes
  {
    var sorted := Sort(cubes);
    if |sorted| == 0 then None else Some(sorted[|sorted| - 1])
  }

  /** The last sorted cube has the largest amount. */
  lemma LargestIsMax(cubes: seq<Cube>)
    requires |cubes| > 0
    ensures forall i :: 0 <= i < |cubes| ==> cubes[i].amount <= Largest(cubes).value.amount
  {
    var sorted := Sort(cubes);
    assert forall i :: 0 <= i < |cubes| ==> cubes[i] in sorted;
  }

  function AsCubes(cube: Option<Cube>): seq<Cube> {
    match cube case Some(c) => [c] case None => []
  }

  /** `Game::get_minimum_cube_set`: the largest red, green and blue cube shown, in that order. */
  function MinimumSet(game: Game): (r: Option<CubeSet>)
    ensures r.Some? ==> 0 < |r.value.cubes| <= 3
  {
    var red := Largest(Drawn(game.sets, Red));
    var green := Largest(Drawn(game.sets, Green));
    var blue := Largest(Drawn(game.sets, Blue));
    if red.None? && green.None? && blue.None? then None
    else Some(CubeSet(AsCubes(red) + AsCubes(green) + AsCubes(blue)))
  }

  /** There is no minimum set exactly when the game shows no cube at all. */
  lemma MinimumSetNone(game: Game)
    ensures MinimumSet(game).None? <==> NoneShown(game.sets)
  {
    DrawnNone(game.sets);
  }

  function Rank(colour: Colour): nat {
    match colour case Red => 0 case Green => 1 case Blue => 2
  }

  /** The minimum set holds at most one cube per colour, red before green before blue. */
  lemma MinimumSetColours(game: Game)
    requires MinimumSet(game).Some?
    ensures var cubes := MinimumSet(game).value.cubes;
      forall i, j :: 0 <= i < j < |cubes| ==> Rank(cubes[i].colour) < Rank(cubes[j].colour)
  {
  }

  /** A bag with `cubeSet` in it can show every cube the game shows. */
  ghost predicate Covers(cubeSet: CubeSet, sets: seq<CubeSet>) {
    forall cube :: Shown(sets, cube) ==>
      exists m :: m in cubeSet.cubes && m.colour == cube.colour && cube.amount <= m.amount
  }

  /** Each cube of the minimum set is one the game shows. */
  lemma MinimumSetShown(game: Game)
    requires MinimumSet(game).Some?
    ensures forall m :: m in MinimumSet(game).value.cubes ==> Shown(game.sets, m)
  {
    forall m | m in MinimumSet(game).value.cubes
      ensures Shown(game.sets, m)
    {
      DrawnMembers(game.sets, m.colour, m);
    }
  }

  /** The minimum set covers the game. */
  lemma MinimumSetCovers(game: Game)
    requires MinimumSet(game).Some?
    ensures Covers(MinimumSet(game).value, game.sets)
  {
    var cubes := MinimumSet(game).value.cubes;
    forall cube | Shown(game.sets, cube)
      ensures exists m :: m in cubes && m.colour == cube.colour && cube.amount <= m.amount
    {
      var drawn := Drawn(game.sets, cube.colour);
      DrawnMembers(game.sets, cube.colour, cube);
      LargestIsMax(drawn);
      var i :| 0 <= i < |drawn| && drawn[i] == cube;
      var m := Largest(drawn).value;
      assert m in cubes;
    }
  }

  /** No bag that covers the game holds fewer cubes of a colour than the minimum set. */
  lemma MinimumSetLeast(game: Game, other: CubeSet)
    requires MinimumSet(game).Some? && Covers(other, game.sets)
    ensures forall m :: m in MinimumSet(game).value.cubes ==>
      exists o :: o in other.cubes && o.colour == m.colour && m.amount <= o.amount
  {
    MinimumSetShown(game);
  }

  // ---------------------------------------------------------------------------
  // Power and the answer
  // ---------------------------------------------------------------------------

  /** `CubeSet::get_power`: the product of the amounts. */
  function Power(cubes: seq<Cube>): (p: nat)
    ensures p == 0 <==> exists i :: 0 <= i < |cubes| && cubes[i].amount == 0
  {
    if |cubes| == 0 then 1
    else
      var rest := Power(cubes[1..]);
      assert forall i :: 1 <= i < |cubes| ==> cubes[i] == cubes[1..][i - 1];
      cubes[0].amount * rest
  }

  /** Up to three `u8` amounts multiply to at most 255 cubed: `get_power` cannot overflow `u32`. */
  lemma {:induction false} PowerBound(cubes: seq<Cube>)
    requires |cubes| <= 3
    requires forall i :: 0 <= i < |cubes| ==> cubes[i].amount <= U8_MAX
    ensures Power(cubes) <= U8_MAX * U8_MAX * U8_MAX <= U32_MAX
  {
    if |cubes| > 0 {
      PowerBound(cubes[1..]);
      var a, p := cubes[0].amount, Power(cubes[1..]);
      assert p <= U8_MAX * U8_MAX by {
        if |cubes| == 3 {
          PowerBound(cubes[2..]);
          assert cubes[1..][1..] == cubes[2..];
          var q := Power(cubes[2..]);
          assert q <= U8_MAX by {
            assert cubes[2..][1..] == [];
          }
          assert p == cubes[1].amount * q;
          MultiplyAtMost(cubes[1].amount, q, U8_MAX, U8_MAX);
        } else if |cubes| == 2 {
          assert cubes[1..][1..] == [];
        }
      }
      MultiplyAtMost(a, p, U8_MAX, U8_MAX * U8_MAX);
    }
  }

  lemma MultiplyAtMost(a: nat, b: nat, x: nat, y: nat)
    requires a <= x && b <= y
    ensures a * b <= x * y
  {
  }

  /** A well-formed game shows some cube, and only `u8` amounts. */
  lemma ShownFits(game: Game, cube: Cube)
    requires WellFormed(game)
    ensures !NoneShown(game.sets)
    ensures Shown(game.sets, cube) ==> cube.amount <= U8_MAX
  {
    assert |game.sets[0].cubes| > 0;
    if Shown(game.sets, cube) {
      var k :| 0 <= k < |game.sets| && cube in game.sets[k].cubes;
      var j :| 0 <= j < |game.sets[k].cubes| && game.sets[k].cubes[j] == cube;
    }
  }

  /** In a well-formed game the minimum set's power fits `u32`. */
  lemma MinimumSetPowerFits(game: Game)
    requires WellFormed(game)
    ensures MinimumSet(game).Some?
    ensures Power(MinimumSet(game).value.cubes) <= U32_MAX
  {
    ShownFits(game, Cube(0, Red));
    MinimumSetNone(game);
    MinimumSetShown(game);
    var cubes := MinimumSet(game).value.cubes;
    forall i | 0 <= i < |cubes|
      ensures cubes[i].amount <= U8_MAX
    {
      ShownFits(game, cubes[i]);
    }
    PowerBound(cubes);
  }

  /** What a line adds: the power of its game's minimum set, else nothing. */
  function LinePower(line: string): nat {
    match ParseGame(line)
    case Some(g) => (match MinimumSet(g) case Some(s) => Power(s.cubes) case None => 0)
    case None => 0
  }

  function PowerSum(lines: seq<string>): nat {
    if |lines| == 0 then 0 else PowerSum(lines[..|lines| - 1]) + LinePower(lines[|lines| - 1])
  }

  lemma PowerSumSnoc(lines: seq<string>, i: nat)
    requires i < |lines|
    ensures PowerSum(lines[..i + 1]) == PowerSum(lines[..i]) + LinePower(lines[i])
  {
    assert lines[..i + 1][..i] == lines[..i];
  }

  /** `calculate_minimum_required_set_power_sum`: the `u32` sum must not overflow. */
  method MinimumPowerSum(lines: seq<string>) returns (total: nat)
    requires PowerSum(lines) <= U32_MAX
    ensures total == PowerSum(lines)
  {
    total := 0;
    for i := 0 to |lines|
      invariant total == PowerSum(lines[..i])
    {
      PowerSumSnoc(lines, i);
      var power := MinimumPower(lines[i]);
      total := total + power;
    }
    assert lines[..|lines|] == lines;
  }

  /** The power one line adds. */
  method MinimumPower(line: string) returns (power: nat)
    ensures power == LinePower(line)
  {
    power := 0;
    var parsed := ParseGame(line);
    match parsed
    case Some(game) =>
      var minimum := MinimumSet(game);
      if minimum.Some? {
        power := Power(minimum.value.cubes);
      }
    case None =>
  }

  /** A well-formed game's rendered line adds the power of its minimum set. */
  lemma LinePowerRendered(game: Game)
    requires WellFormed(game)
    ensures MinimumSet(game).Some?
    ensures LinePower(RenderGame(game)) == Power(MinimumSet(game).value.cubes)
  {
    ParseRenderGame(game);
    MinimumSetPowerFits(game);
  }

  lemma {:induction false} PowerSumRendered(lines: seq<string>, game: Game)
    requires WellFormed(game)
    ensures MinimumSet(game).Some?
    ensures PowerSum(lines + [RenderGame(game)]) == PowerSum(lines) + Power(MinimumSet(game).value.cubes)
  {
    var all := lines + [RenderGame(game)];
    assert all[..|all| - 1] == lines;
    assert all[|all| - 1] == RenderGame(game);
    LinePowerRendered(game);
  }
}
