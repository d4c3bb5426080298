/**
 * Day 18, part 1: a dig plan is a list of moves (a direction and a number
 * of metres). The digger starts at the origin; every move ends at a trench
 * vertex. The dug area is the shoelace area of the vertices plus half the
 * perimeter plus one (Pick's theorem counted in whole cells).
 *
 * Coordinates and sums are `i32` in the source: every intermediate value is
 * required to fit, and the result must fit in `u32`.
 */
module Day18Part1 {
  import opened Text

  datatype Direction = Up | Right | Down | Left

  datatype Instruction = Instruction(direction: Direction, count: int)

  datatype Point = Point(x: int, y: int)

  const ORIGIN: Point := Point(0, 0)

  /** -(max + 1) ..= max: the range of the signed type whose maximum is `max`. */
  predicate InWidth(v: int, max: nat) {
    -(max + 1) <= v <= max
  }

  function Abs(v: int): nat {
    if v < 0 then -v else v
  }

  // ---------------------------------------------------------------------------
  // Moves
  // ---------------------------------------------------------------------------

  /** The unit step of a direction: x grows to the right, y grows upwards. */
  function Step(d: Direction): Point {
    match d
    case Up => Point(0, 1)
    case Right => Point(1, 0)
    case Down => Point(0, -1)
    case Left => Point(-1, 0)
  }

  function Opposite(d: Direction): Direction {
    match d
    case Up => Down
    case Right => Left
    case Down => Up
    case Left => Right
  }

  /** `Point::apply`: `count` unit steps in one direction; the other coordinate is kept. */
  function Apply(p: Point, instruction: Instruction): (r: Point)
    ensures r == Point(p.x + Step(instruction.direction).x * instruction.count,
                       p.y + Step(instruction.direction).y * instruction.count)
  {
    var count := instruction.count;
    match instruction.direction
    case Up => Point(p.x, p.y + count)
    case Down => Point(p.x, p.y - count)
    case Left => Point(p.x - count, p.y)
    case Right => Point(p.x + count, p.y)
  }

  /** The move in the opposite direction takes the digger back. */
  lemma {:induction false} ApplyOpposite(p: Point, instruction: Instruction)
    ensures Apply(Apply(p, instruction), Instruction(Opposite(instruction.direction), instruction.count)) == p
  {
  }

  /** A move covers exactly `|count|` metres of grid distance. */
  lemma {:induction false} ApplyDistance(p: Point, instruction: Instruction)
    ensures var q := Apply(p, instruction); Abs(q.x - p.x) + Abs(q.y - p.y) == Abs(instruction.count)
  {
  }

  /** `Direction::from_str`: "R", "D" and "L"; anything else is Up. */
  function FromStr(value: string): (r: Direction)
    ensures r == Up <==> value != "R" && value != "D" && value != "L"
  {
    if value == "R" then Right
    else if value == "D" then Down
    else if value == "L" then Left
    else Up
  }

  /** The letter the plan writes for a direction. */
  function Letter(d: Direction): string {
    match d
    case Up => "U"
    case Right => "R"
    case Down => "D"
    case Left => "L"
  }

  lemma {:induction false} FromStrLetter(d: Direction)
    ensures FromStr(Letter(d)) == d
  {
  }

  // ---------------------------------------------------------------------------
  // Parsing
  // ---------------------------------------------------------------------------

  /** A line `parse_instruction` reads without a panic: two spaces, then an `i32` count. */
  predicate Parsable(line: string) {
    match SplitOnce(line, ' ')
    case None => false
    case Some((_, rest)) =>
      match SplitOnce(rest, ' ')
      case None => false
      case Some((count, _)) => ParseSigned(count, I32_MAX).Some?
  }

  /** `parse_instruction`: direction letter, count, and a colour that is ignored. */
  function ParseInstruction(line: string): (r: Instruction)
    requires Parsable(line)
    ensures InWidth(r.count, I32_MAX)
  {
    var (direction, rest) := SplitOnce(line, ' ').value;
    var (count, _) := SplitOnce(rest, ' ').value;
    Instruction(FromStr(direction), ParseSigned(count, I32_MAX).value)
  }

  /** A plan line: letter, count and any colour. */
  function Render(instruction: Instruction, colour: string): string
    requires instruction.count >= 0
  {
    Letter(instruction.direction) + " " + Decimal(instruction.count) + " " + colour
  }

  /** Parsing a rendered line gives the instruction back, whatever the colour. */
  lemma {:induction false} ParseRender(instruction: Instruction, colour: string)
    requires 0 <= instruction.count <= I32_MAX
    ensures Parsable(Render(instruction, colour))
    ensures ParseInstruction(Render(instruction, colour)) == instruction
  {
    var letter := Letter(instruction.direction);
    var count := Decimal(instruction.count);
    var rest := count + " " + colour;
    var line := Render(instruction, colour);
    assert line == letter + [' '] + rest;
    assert SplitOnce(line, ' ') == Some((letter, rest)) by {
      assert line[..1] == letter && line[2..] == rest;
      assert IndexOf(line, ' ') == 1;
    }
    assert ' ' !in count by {
      assert forall k :: 0 <= k < |count| ==> IsDigit(count[k]);
    }
    assert SplitOnce(rest, ' ') == Some((count, colour)) by {
      assert rest[..|count|] == count && rest[|count| + 1..] == colour;
      assert rest[|count|] == ' ';
      assert IndexOf(rest, ' ') == |count|;
    }
    assert count[0] != '-';
    ParseDecimal(instruction.count, I32_MAX);
    FromStrLetter(instruction.direction);
  }

  /** The instructions of the lines, in order (`lines().map(parse_instruction)`). */
  function Instructions(lines: seq<string>): (r: seq<Instruction>)
    requires forall i :: 0 <= i < |lines| ==> Parsable(lines[i])
    ensures |r| == |lines|
    ensures forall i :: 0 <= i < |lines| ==> r[i] == ParseInstruction(lines[i])
  {
    seq(|lines|, i requires 0 <= i < |lines| && Parsable(lines[i]) => ParseInstruction(lines[i]))
  }

  // ---------------------------------------------------------------------------
  // The trench
  // ---------------------------------------------------------------------------

  /** Where the digger stands after the first `k` moves. */
  function Position(instructions: seq<Instruction>, k: nat): Point
    requires k <= |instructions|
  {
    if k == 0 then ORIGIN else Apply(Position(instructions, k - 1), instructions[k - 1])
  }

  /** The sums of the steps taken: the position is the origin plus every move's offset. */
  function Offset(instructions: seq<Instruction>, k: nat): Point
    requires k <= |instructions|
  {
    if k == 0 then ORIGIN
    else
      var o := Offset(instructions, k - 1);
      var s := Step(instructions[k - 1].direction);
      Point(o.x + s.x * instructions[k - 1].count, o.y + s.y * instructions[k - 1].count)
  }

  lemma {:induction false} PositionIsOffset(instructions: seq<Instruction>, k: nat)
    requires k <= |instructions|
    ensures Position(instructions, k) == Offset(instructions, k)
  {
    if k > 0 {
      PositionIsOffset(instructions, k - 1);
    }
  }

  /** The trench vertices: the end of every move (the origin is not listed). */
  function Trenches(instructions: seq<Instruction>): (r: seq<Point>)
    ensures |r| == |instructions|
  {
    seq(|instructions|, k requires 0 <= k < |instructions| => Position(instructions, k + 1))
  }

  /** Each vertex is the previous one moved by its instruction. */
  lemma {:induction false} TrenchesStep(instructions: seq<Instruction>, k: nat)
    requires k < |instructions|
    ensures Trenches(instructions)[k] == Apply(if k == 0 then ORIGIN else Trenches(instructions)[k - 1], instructions[k])
  {
    assert Trenches(instructions)[k] == Apply(Position(instructions, k), instructions[k]);
    if k > 0 {
      assert Trenches(instructions)[k - 1] == Position(instructions, k);
    }
  }

  /** The perimeter after the first `k` moves: the sum of their counts. */
  function Perimeter(instructions: seq<Instruction>, k: nat): int
    requires k <= |instructions|
  {
    if k == 0 then 0 else Perimeter(instructions, k - 1) + instructions[k - 1].count
  }

  /**
   * The digger's walk stays within the width: the count negated for a move
   * left or down, the coordinates and the running perimeter.
   */
  predicate WalkFits(instructions: seq<Instruction>, max: nat) {
    && (forall k :: 0 <= k < |instructions| && (instructions[k].direction == Left || instructions[k].direction == Down)
          ==> InWidth(-instructions[k].count, max))
    && (forall k :: 0 <= k <= |instructions| ==> InWidth(Position(instructions, k).x, max))
    && (forall k :: 0 <= k <= |instructions| ==> InWidth(Position(instructions, k).y, max))
    && (forall k :: 0 <= k <= |instructions| ==> InWidth(Perimeter(instructions, k), max))
  }

  // ---------------------------------------------------------------------------
  // The shoelace formula
  // ---------------------------------------------------------------------------

  /** Twice the signed area of the triangle (origin, p, q). */
  function Cross(p: Point, q: Point): int {
    p.x * q.y - p.y * q.x
  }

  /** The cross products of the first `k` edges of the open chain. */
  function Chain(ps: seq<Point>, k: nat): int
    requires k < |ps|
  {
    if k == 0 then 0 else Chain(ps, k - 1) + Cross(ps[k - 1], ps[k])
  }

  /** Twice the signed area of the polygon: every edge, the closing one included. */
  function CrossSum(ps: seq<Point>): int
    requires |ps| > 0
  {
    Chain(ps, |ps| - 1) + Cross(ps[|ps| - 1], ps[0])
  }

  /** The dug area of a plan: the shoelace area, plus half the perimeter, plus one. */
  function Area(instructions: seq<Instruction>): int
    requires |instructions| > 0
  {
    Abs(CrossSum(Trenches(instructions))) / 2 + Quot(Perimeter(instructions, |instructions|), 2) + 1
  }

  lemma {:induction false} ChainRotate(ps: seq<Point>, k: nat)
    requires k + 1 < |ps|
    ensures Chain(ps[1..] + [ps[0]], k) == Chain(ps, k + 1) - Cross(ps[0], ps[1])
  {
    var rotated := ps[1..] + [ps[0]];
    if k > 0 {
      ChainRotate(ps, k - 1);
      assert rotated[k - 1] == ps[k] && rotated[k] == ps[k + 1];
    }
  }

  /** The polygon's area does not depend on which vertex the list starts at. */
  lemma {:induction false} CrossSumRotate(ps: seq<Point>)
    requires |ps| > 0
    ensures CrossSum(ps[1..] + [ps[0]]) == CrossSum(ps)
  {
    var rotated := ps[1..] + [ps[0]];
    var n := |ps|;
    if n == 1 {
      assert rotated == ps;
    } else {
      ChainRotate(ps, n - 2);
      assert rotated[n - 2] == ps[n - 1] && rotated[n - 1] == ps[0] && rotated[0] == ps[1];
    }
  }

  /** The sums of `x * next y` and of `y * next x` over the first `k` edges. */
  function Forward(ps: seq<Point>, k: nat): int
    requires k < |ps|
  {
    if k == 0 then 0 else Forward(ps, k - 1) + ps[k - 1].x * ps[k].y
  }

  function Backward(ps: seq<Point>, k: nat): int
    requires k < |ps|
  {
    if k == 0 then 0 else Backward(ps, k - 1) + ps[k - 1].y * ps[k].x
  }

  lemma {:induction false} ForwardBackward(ps: seq<Point>, k: nat)
    requires k < |ps|
    ensures Forward(ps, k) - Backward(ps, k) == Chain(ps, k)
  {
    if k > 0 {
      ForwardBackward(ps, k - 1);
    }
  }

  /** Every intermediate of part 1's `shoelace` fits in `i32`, and the result in `u32`. */
  predicate ShoelaceFits(ps: seq<Point>, perimeter: int)
    requires |ps| > 0
  {
    var n := |ps|;
    var last, first := ps[n - 1], ps[0];
    && (forall k :: 0 <= k < n - 1 ==> InWidth(ps[k].x * ps[k + 1].y, I32_MAX) && InWidth(ps[k].y * ps[k + 1].x, I32_MAX))
    && (forall k :: 0 <= k < n ==> InWidth(Forward(ps, k), I32_MAX) && InWidth(Backward(ps, k), I32_MAX))
    && InWidth(last.x * first.y, I32_MAX) && InWidth(first.x * last.y, I32_MAX)
    && InWidth(Forward(ps, n - 1) + last.x * first.y, I32_MAX)
    && InWidth(Backward(ps, n - 1) + first.x * last.y, I32_MAX)
    && InWidth(CrossSum(ps), I32_MAX)
    && Abs(CrossSum(ps)) / 2 + Quot(perimeter, 2) + 1 <= U32_MAX
  }

  /**
   * `shoelace`: the two running sums, closed from the last vertex to the
   * first, then half their difference plus half the perimeter plus one.
   */
  method Shoelace(trenches: seq<Point>, perimeter: int) returns (area: nat)
    requires |trenches| > 0 && perimeter >= -1
    requires ShoelaceFits(trenches, perimeter)
    ensures area == Abs(CrossSum(trenches)) / 2 + Quot(perimeter, 2) + 1
  {
    var length := |trenches|;
    var sum1 := 0;
    var sum2 := 0;
    for i := 0 to length - 1
      invariant sum1 == Forward(trenches, i) && sum2 == Backward(trenches, i)
    {
      var current := trenches[i];
      var next := trenches[i + 1];
      sum1 := sum1 + current.x * next.y;
      sum2 := sum2 + current.y * next.x;
    }
    var last := trenches[length - 1];
    var first := trenches[0];
    sum1 := sum1 + last.x * first.y;
    sum2 := sum2 + first.x * last.y;
    ForwardBackward(trenches, length - 1);
    area := Abs(sum1 - sum2) / 2 + Quot(perimeter, 2) + 1;
  }

  /** A plan `calculate_area` runs without a panic. */
  predicate PlanFits(instructions: seq<Instruction>) {
    && |instructions| > 0
    && WalkFits(instructions, I32_MAX)
    && Perimeter(instructions, |instructions|) >= -1
    && ShoelaceFits(Trenches(instructions), Perimeter(instructions, |instructions|))
  }

  /** `calculate_area`'s walk: the vertices and the perimeter of the plan. */
  method Dig(instructions: seq<Instruction>) returns (trenches: seq<Point>, perimeter: int)
    ensures trenches == Trenches(instructions)
    ensures perimeter == Perimeter(instructions, |instructions|)
  {
    var current := ORIGIN;
    trenches := [];
    perimeter := 0;
    for i := 0 to |instructions|
      invariant current == Position(instructions, i)
      invariant trenches == Trenches(instructions)[..i]
      invariant perimeter == Perimeter(instructions, i)
    {
      var next := Apply(current, instructions[i]);
      trenches := trenches + [next];
      current := next;
      perimeter := perimeter + instructions[i].count;
    }
    assert trenches == Trenches(instructions)[..|instructions|];
  }

  /** `calculate_area` on the lines of the plan. */
  method CalculateArea(text: string) returns (area: nat)
    requires forall i :: 0 <= i < |Lines(text)| ==> Parsable(Lines(text)[i])
    requires PlanFits(Instructions(Lines(text)))
    ensures area == Area(Instructions(Lines(text)))
  {
    var trenches, perimeter := Dig(Instructions(Lines(text)));
    area := Shoelace(trenches, perimeter);
  }

  /** A rectangle `width` across and `height` down, dug clockwise from its top-left corner. */
  function Rectangle(width: nat, height: nat): seq<Instruction> {
    [Instruction(Right, width), Instruction(Down, height), Instruction(Left, width), Instruction(Up, height)]
  }

  lemma {:induction false} RectangleTrenches(width: nat, height: nat)
    ensures var w, h: int := width, height;
      Trenches(Rectangle(width, height)) == [Point(w, 0), Point(w, -h), Point(0, -h), ORIGIN]
  {
    var plan := Rectangle(width, height);
    var w, h: int := width, height;
    assert Position(plan, 1) == Point(w, 0);
    assert Position(plan, 2) == Point(w, -h);
    assert Position(plan, 3) == Point(0, -h);
    assert Position(plan, 4) == ORIGIN;
  }

  lemma {:induction false} CrossSumQuad(a: Point, b: Point, c: Point, d: Point)
    ensures CrossSum([a, b, c, d]) == Cross(a, b) + Cross(b, c) + Cross(c, d) + Cross(d, a)
  {
    var ps := [a, b, c, d];
    assert Chain(ps, 1) == Cross(a, b);
    assert Chain(ps, 2) == Cross(a, b) + Cross(b, c);
  }

  lemma {:induction false} RectanglePerimeter(width: nat, height: nat)
    ensures Perimeter(Rectangle(width, height), 4) == 2 * width + 2 * height
  {
    var plan := Rectangle(width, height);
    assert Perimeter(plan, 1) == width;
    assert Perimeter(plan, 2) == width + height;
    assert Perimeter(plan, 3) == 2 * width + height;
  }

  lemma {:induction false} RectangleCrossSum(w: int, h: int)
    ensures CrossSum([Point(w, 0), Point(w, -h), Point(0, -h), ORIGIN]) == -2 * (w * h)
  {
    CrossSumQuad(Point(w, 0), Point(w, -h), Point(0, -h), ORIGIN);
    assert Cross(Point(w, 0), Point(w, -h)) == w * -h;
    assert Cross(Point(w, -h), Point(0, -h)) == w * -h;
    assert w * -h == -(w * h);
  }

  lemma {:induction false} RectangleCount(width: nat, height: nat, sum: int, perimeter: int)
    requires sum == -2 * (width * height) && perimeter == 2 * width + 2 * height
    ensures Abs(sum) / 2 + Quot(perimeter, 2) + 1 == (width + 1) * (height + 1)
  {
    var cells: nat := width * height;
    assert Abs(sum) == 2 * cells;
    assert (width + 1) * (height + 1) == cells + width + height + 1;
  }

  /** The dug rectangle holds every cell of the (width + 1) by (height + 1) block. */
  lemma {:induction false} RectangleArea(width: nat, height: nat)
    ensures Area(Rectangle(width, height)) == (width + 1) * (height + 1)
  {
    RectangleTrenches(width, height);
    RectangleCrossSum(width, height);
    RectanglePerimeter(width, height);
    RectangleCount(width, height, CrossSum(Trenches(Rectangle(width, height))), Perimeter(Rectangle(width, height), 4));
  }
}

/**
 * Day 18, part 2: the real distance and direction hide in the colour: five
 * hexadecimal digits of metres, then one digit of direction. Everything
 * else is part 1's walk and area, with `isize` arithmetic and a single
 * running sum of cross products.
 */
module Day18Part2 {
  import opened Text
  import opened Day18Part1

  /** `Direction::from_str`: "0" Right, "1" Down, "2" Left, anything else Up. */
  function FromCode(value: string): (r: Direction)
    ensures r == Up <==> value != "0" && value != "1" && value != "2"
  {
    if value == "0" then Right
    else if value == "1" then Down
    else if value == "2" then Left
    else Up
  }

  /** The digit the colour writes for a direction. */
  function Code(d: Direction): string {
    match d
    case Right => "0"
    case Down => "1"
    case Left => "2"
    case Up => "3"
  }

  lemma {:induction false} FromCodeCode(d: Direction)
    ensures FromCode(Code(d)) == d
  {
  }

  /** The colour with '#', '(' and ')' removed. */
  function Hex(colour: string): string {
    Remove(Remove(Remove(colour, '#'), '('), ')')
  }

  /** A line `parse_instruction` reads without a panic: two spaces, six or more hex characters, an `isize` distance. */
  predicate Parsable(line: string) {
    match SplitOnce(line, ' ')
    case None => false
    case Some((_, rest)) =>
      match SplitOnce(rest, ' ')
      case None => false
      case Some((_, colour)) =>
        var hex := Hex(colour);
        |hex| >= 5 && ParseSignedHex(hex[..5], I64_MAX).Some?
  }

  /** `parse_instruction`: the first five hex characters are the metres, the rest the direction. */
  function ParseInstruction(line: string): (r: Instruction)
    requires Parsable(line)
    ensures InWidth(r.count, I64_MAX)
  {
    var (_, rest) := SplitOnce(line, ' ').value;
    var (_, colour) := SplitOnce(rest, ' ').value;
    var hex := Hex(colour);
    Instruction(FromCode(hex[5..]), ParseSignedHex(hex[..5], I64_MAX).value)
  }

  function HexDigit(d: nat): (c: char)
    requires d < 16
    ensures HexValue(c) == Some(d)
  {
    if d < 10 then ('0' as int + d) as char else ('a' as int + d - 10) as char
  }

  function Pow16(k: nat): (p: nat)
    ensures p >= 1
  {
    if k == 0 then 1 else 16 * Pow16(k - 1)
  }

  /** The last `k` hexadecimal digits of `n`, most significant first, in lower case. */
  function HexDigits(n: nat, k: nat): (r: string)
    ensures |r| == k && AllHex(r)
  {
    if k == 0 then "" else HexDigits(n / 16, k - 1) + [HexDigit(n % 16)]
  }

  lemma {:induction false} DivBelow(n: nat, p: nat)
    requires n < 16 * p
    ensures n / 16 < p
  {
  }

  /** The digits give the number back when it has no more than `k` of them. */
  lemma {:induction false} HexDigitsValue(n: nat, k: nat)
    requires n < Pow16(k)
    ensures HexadecimalValue(HexDigits(n, k)) == n
  {
    if k > 0 {
      var r := HexDigits(n, k);
      DivBelow(n, Pow16(k - 1));
      HexDigitsValue(n / 16, k - 1);
      assert r[..|r| - 1] == HexDigits(n / 16, k - 1);
    }
  }

  /** A plan line: any direction and count fields, then the colour that encodes the move. */
  function Render(direction: string, count: string, instruction: Instruction): string
    requires 0 <= instruction.count < Pow16(5)
  {
    direction + " " + count + " (#" + HexDigits(instruction.count, 5) + Code(instruction.direction) + ")"
  }

  lemma {:induction false} RemoveSingle(x: char, c: char)
    ensures Remove([x], c) == if x == c then "" else [x]
  {
    assert [x][1..] == "";
  }

  lemma {:induction false} RemovePair(x: char, y: char, c: char)
    ensures Remove([x, y], c) == (if x == c then "" else [x]) + (if y == c then "" else [y])
  {
    assert [x, y][1..] == [y];
    RemoveSingle(y, c);
  }

  lemma {:induction false} RemoveHash(digits: string)
    requires '#' !in digits
    ensures Remove("(#" + digits + ")", '#') == "(" + digits + ")"
  {
    RemoveAround("(#", digits, ")", '#');
    RemoveSingle(')', '#');
    RemovePair('(', '#', '#');
  }

  lemma {:induction false} RemoveOpen(digits: string)
    requires '(' !in digits
    ensures Remove("(" + digits + ")", '(') == digits + ")"
  {
    RemoveAround("(", digits, ")", '(');
    RemoveSingle(')', '(');
    RemoveSingle('(', '(');
  }

  lemma {:induction false} RemoveClose(digits: string)
    requires ')' !in digits
    ensures Remove(digits + ")", ')') == digits
  {
    RemoveAround("", digits, ")", ')');
    assert "" + digits + ")" == digits + ")";
    RemoveSingle(')', ')');
  }

  /** Stripping the brackets and the hash leaves the hexadecimal digits. */
  lemma {:induction false} HexOfColour(digits: string)
    requires AllHex(digits)
    ensures Hex("(#" + digits + ")") == digits
  {
    assert '#' !in digits && '(' !in digits && ')' !in digits by {
      assert forall k :: 0 <= k < |digits| ==> HexValue(digits[k]).Some?;
    }
    RemoveHash(digits);
    RemoveOpen(digits);
    RemoveClose(digits);
  }

  lemma {:induction false} HexFields(instruction: Instruction)
    requires 0 <= instruction.count < Pow16(5)
    ensures var hex := HexDigits(instruction.count, 5) + Code(instruction.direction);
      && Hex("(#" + hex + ")") == hex && |hex| >= 5
      && ParseSignedHex(hex[..5], I64_MAX) == Some(instruction.count)
      && FromCode(hex[5..]) == instruction.direction
  {
    var digits := HexDigits(instruction.count, 5);
    var all := digits + Code(instruction.direction);
    assert AllHex(all) by {
      assert forall k :: 0 <= k < |all| ==> HexValue(all[k]).Some?;
    }
    HexOfColour(all);
    assert all[..5] == digits && all[5..] == Code(instruction.direction);
    assert HexValue(digits[0]).Some?;
    assert UnsignedBody(digits) == digits;
    HexDigitsValue(instruction.count, 5);
    FromCodeCode(instruction.direction);
  }

  /** Parsing a rendered line gives the instruction back, whatever the first two fields say. */
  lemma {:induction false} ParseRender(direction: string, count: string, instruction: Instruction)
    requires ' ' !in direction && ' ' !in count
    requires 0 <= instruction.count < Pow16(5)
    ensures Parsable(Render(direction, count, instruction))
    ensures ParseInstruction(Render(direction, count, instruction)) == instruction
  {
    var hex := HexDigits(instruction.count, 5) + Code(instruction.direction);
    var colour := "(#" + hex + ")";
    var rest := count + [' '] + colour;
    assert Render(direction, count, instruction) == direction + [' '] + rest;
    SplitOnceAt(direction, rest, ' ');
    SplitOnceAt(count, colour, ' ');
    HexFields(instruction);
  }

  /** The instructions of the lines, in order. */
  function Instructions(lines: seq<string>): (r: seq<Instruction>)
    requires forall i :: 0 <= i < |lines| ==> Parsable(lines[i])
    ensures |r| == |lines|
    ensures forall i :: 0 <= i < |lines| ==> r[i] == ParseInstruction(lines[i])
  {
    seq(|lines|, i requires 0 <= i < |lines| && Parsable(lines[i]) => ParseInstruction(lines[i]))
  }

  /** Every intermediate of part 2's `shoelace` fits in `isize`, and the result in `usize`. */
  predicate ShoelaceFits(ps: seq<Point>, perimeter: int)
    requires |ps| > 0
  {
    var n := |ps|;
    var last, first := ps[n - 1], ps[0];
    && (forall k :: 0 <= k < n - 1 ==>
          InWidth(ps[k].x * ps[k + 1].y, I64_MAX) && InWidth(ps[k].y * ps[k + 1].x, I64_MAX)
          && InWidth(Cross(ps[k], ps[k + 1]), I64_MAX))
    && (forall k :: 0 <= k < n ==> InWidth(Chain(ps, k), I64_MAX))
    && InWidth(last.x * first.y, I64_MAX) && InWidth(first.x * last.y, I64_MAX)
    && InWidth(Cross(last, first), I64_MAX)
    && InWidth(CrossSum(ps), I64_MAX)
    && Abs(CrossSum(ps)) / 2 + Quot(perimeter, 2) + 1 <= USIZE_MAX
  }

  /** `shoelace`: one running sum of cross products, closed from the last vertex to the first. */
  method Shoelace(trenches: seq<Point>, perimeter: int) returns (area: nat)
    requires |trenches| > 0 && perimeter >= -1
    requires ShoelaceFits(trenches, perimeter)
    ensures area == Abs(CrossSum(trenches)) / 2 + Quot(perimeter, 2) + 1
  {
    var length := |trenches|;
    var sum := 0;
    for i := 0 to length - 1
      invariant sum == Chain(trenches, i)
    {
      var current := trenches[i];
      var next := trenches[i + 1];
      sum := sum + ((current.x * next.y) - (current.y * next.x));
    }
    var last := trenches[length - 1];
    var first := trenches[0];
    sum := sum + ((last.x * first.y) - (first.x * last.y));
    area := Abs(sum) / 2 + Quot(perimeter, 2) + 1;
  }

  /** A plan `calculate_area` runs without a panic. */
  predicate PlanFits(instructions: seq<Instruction>) {
    && |instructions| > 0
    && WalkFits(instructions, I64_MAX)
    && Perimeter(instructions, |instructions|) >= -1
    && ShoelaceFits(Trenches(instructions), Perimeter(instructions, |instructions|))
  }

  /** `calculate_area` on the lines of the plan. */
  method CalculateArea(text: string) returns (area: nat)
    requires forall i :: 0 <= i < |Lines(text)| ==> Parsable(Lines(text)[i])
    requires PlanFits(Instructions(Lines(text)))
    ensures area == Area(Instructions(Lines(text)))
  {
    var trenches, perimeter := Dig(Instructions(Lines(text)));
    area := Shoelace(trenches, perimeter);
  }
}
