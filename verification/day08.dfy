// Advent of Code 2023, day 8: Haunted Wasteland.
//
// A first line of L/R instructions, a blank line, then one node per line,
// "AAA = (BBB, CCC)". A walk repeats the instructions, following the left or
// right edge of the current node.

/**
 * Day 08, part 1: the number of moves from AAA until ZZZ is first reached.
 */
module Day08Part1 {
  import opened Text

  datatype Instruction = Left | Right

  /** A node, named by `value`, with the names of the nodes its edges lead to. */
  datatype Node = Node(value: string, left: string, right: string)

  /** `Instruction::from_char`: only 'L' and 'R' are instructions. */
  function FromChar(c: char): (r: Option<Instruction>)
    ensures r == Some(Left) <==> c == 'L'
    ensures r == Some(Right) <==> c == 'R'
  {
    match c
    case 'L' => Some(Left)
    case 'R' => Some(Right)
    case _ => None
  }

  /** The instructions of a line, every other character dropped. */
  function InstructionsOf(line: string): (r: seq<Instruction>)
    ensures |r| == Count(line, 'L') + Count(line, 'R')
  {
    if |line| == 0 then []
    else
      match FromChar(line[0])
      case Some(i) => [i] + InstructionsOf(line[1..])
      case None => InstructionsOf(line[1..])
  }

  function InstructionChar(i: Instruction): char {
    match i
    case Left => 'L'
    case Right => 'R'
  }

  /** Writing instructions out as letters. */
  function RenderInstructions(instructions: seq<Instruction>): (r: string)
    ensures |r| == |instructions|
  {
    if |instructions| == 0 then "" else [InstructionChar(instructions[0])] + RenderInstructions(instructions[1..])
  }

  /** Reading written instructions gives them back, and characters other than 'L' and 'R' anywhere are ignored. */
  lemma {:induction false} InstructionsRoundTrip(instructions: seq<Instruction>, noise: string)
    requires 'L' !in noise && 'R' !in noise
    ensures InstructionsOf(noise + RenderInstructions(instructions)) == instructions
  {
    if |noise| > 0 {
      assert (noise + RenderInstructions(instructions))[1..] == noise[1..] + RenderInstructions(instructions);
      InstructionsRoundTrip(instructions, noise[1..]);
    } else if |instructions| > 0 {
      assert noise + RenderInstructions(instructions) == RenderInstructions(instructions);
      InstructionsRoundTrip(instructions[1..], "");
      assert RenderInstructions(instructions)[1..] == "" + RenderInstructions(instructions[1..]);
    } else {
      assert noise + RenderInstructions(instructions) == "";
    }
  }

  /** `replace(['(', ')', ','], "")`. */
  function Strip(s: string): (r: string)
    ensures '(' !in r && ')' !in r && ',' !in r
  {
    var once := Remove(s, '(');
    var twice := Remove(once, ')');
    RemoveKeeps(once, ')');
    RemoveKeeps(twice, ',');
    Remove(twice, ',')
  }

  lemma StripAppend(a: string, b: string)
    ensures Strip(a + b) == Strip(a) + Strip(b)
  {
    RemoveAppend(a, b, '(');
    RemoveAppend(Remove(a, '('), Remove(b, '('), ')');
    RemoveAppend(Remove(Remove(a, '('), ')'), Remove(Remove(b, '('), ')'), ',');
  }

  lemma StripFree(s: string)
    requires '(' !in s && ')' !in s && ',' !in s
    ensures Strip(s) == s
  {
    RemoveFree(s, '(');
    RemoveFree(s, ')');
    RemoveFree(s, ',');
  }

  /**
   * `parse_node`: the trimmed text before the first '=' names the node; the
   * trimmed rest, parentheses and commas removed, splits at its first space
   * into the left and the right edge.
   */
  function ParseNode(line: string): (r: Option<Node>)
    ensures r.Some? ==> '=' in line && ' ' !in r.value.left
    ensures r.Some? ==> '(' !in r.value.left + r.value.right && ')' !in r.value.left + r.value.right && ',' !in r.value.left + r.value.right
    ensures '=' !in line ==> r.None?
  {
    match SplitOnce(line, '=')
    case None => None
    case Some(halves) =>
      var edges := Strip(Trim(halves.1));
      match SplitOnce(edges, ' ')
      case None => None
      case Some(pair) =>
        assert edges == pair.0 + [' '] + pair.1;
        Some(Node(Trim(halves.0), pair.0, pair.1))
  }

  /** A name as the puzzle writes them: not empty, no whitespace, none of the punctuation of a node line. */
  predicate Name(s: string) {
    |s| > 0 && Solid(s) && '=' !in s && '(' !in s && ')' !in s && ',' !in s
  }

  function RenderNode(n: Node): string {
    n.value + " = (" + n.left + ", " + n.right + ")"
  }

  /** Trimming a name followed by a space gives the name back. */
  lemma TrimAfter(s: string)
    requires Name(s)
    ensures Trim(s + " ") == s
  {
    var t := s + " ";
    assert TrimStart(t) == t;
    assert t[..|t| - 1] == s;
    assert TrimEnd(t) == TrimEnd(s);
  }

  /** Trimming a space followed by a text without whitespace at its ends gives the text back. */
  lemma TrimBefore(s: string)
    requires |s| > 0 && !IsWhitespace(s[0]) && !IsWhitespace(s[|s| - 1])
    ensures Trim(" " + s) == s
  {
    var t := " " + s;
    assert t[1..] == s;
    assert TrimStart(t) == TrimStart(s) == s;
  }

  lemma StripOpen()
    ensures Strip("(") == ""
  {
    assert Remove("(", '(') == "";
  }

  lemma StripComma()
    ensures Strip(", ") == " "
  {
    assert Remove(", ", '(') == ", ";
    assert Remove(", ", ')') == ", ";
    assert Remove(", ", ',') == " ";
  }

  lemma StripClose()
    ensures Strip(")") == ""
  {
    assert Remove(")", '(') == ")";
    assert Remove(")", ')') == "";
  }

  /** The edges text of a rendered node, after trimming, loses exactly its punctuation. */
  lemma StripEdges(l: string, r: string)
    requires Name(l) && Name(r)
    ensures Strip("(" + l + ", " + r + ")") == l + " " + r
  {
    StripOpen();
    StripComma();
    StripClose();
    StripFree(l);
    StripFree(r);
    var s1 := "(" + l;
    StripAppend("(", l);
    assert Strip(s1) == l;
    var s2 := s1 + ", ";
    StripAppend(s1, ", ");
    var s3 := s2 + r;
    StripAppend(s2, r);
    assert Strip(s3) == l + " " + r;
    StripAppend(s3, ")");
    assert Strip(s3 + ")") == l + " " + r + "";
  }

  /** The text between a rendered node's parentheses, parentheses included. */
  function Edges(n: Node): string {
    "(" + n.left + ", " + n.right + ")"
  }

  /** The first '=' of a rendered node follows its name. */
  lemma RenderSplits(n: Node)
    requires Name(n.value)
    ensures SplitOnce(RenderNode(n), '=') == Some((n.value + " ", " " + Edges(n)))
  {
    assert RenderNode(n) == (n.value + " ") + ['='] + (" " + Edges(n));
    SplitOnceAt(n.value + " ", " " + Edges(n), '=');
  }

  /** `parse_node` from its two splits. */
  lemma ParseNodeParts(line: string, name: string, edges: string, l: string, r: string)
    requires SplitOnce(line, '=') == Some((name, edges))
    requires SplitOnce(Strip(Trim(edges)), ' ') == Some((l, r))
    ensures ParseNode(line) == Some(Node(Trim(name), l, r))
  {
  }

  /** The edges of a rendered node split at their first space after trimming and stripping. */
  lemma EdgesSplit(n: Node)
    requires Name(n.left) && Name(n.right)
    ensures SplitOnce(Strip(Trim(" " + Edges(n))), ' ') == Some((n.left, n.right))
  {
    TrimBefore(Edges(n));
    StripEdges(n.left, n.right);
    assert n.left + " " + n.right == n.left + [' '] + n.right;
    SplitOnceAt(n.left, n.right, ' ');
  }

  /** A node line as the puzzle writes it parses back to its node. */
  lemma ParseRenderNode(n: Node)
    requires Name(n.value) && Name(n.left) && Name(n.right)
    ensures ParseNode(RenderNode(n)) == Some(n)
  {
    RenderSplits(n);
    TrimAfter(n.value);
    EdgesSplit(n);
    ParseNodeParts(RenderNode(n), n.value + " ", " " + Edges(n), n.left, n.right);
  }

  /** The instructions: the letters of the first line. */
  function Instructions(input: string): seq<Instruction> {
    var lines := Lines(input);
    if |lines| == 0 then [] else InstructionsOf(lines[0])
  }

  /** The nodes: every line after the first two that parses. */
  function Nodes(input: string): (r: seq<Node>)
    ensures |r| <= |Lines(input)|
  {
    var lines := Lines(input);
    var body := if |lines| <= 2 then [] else lines[2..];
    FilterMapNone(body, ParseNode);
    FilterMap(body, ParseNode)
  }

  /** `position(|node| node.value == name)`: the first node with that name. */
  function Position(nodes: seq<Node>, name: string): (r: Option<nat>)
    ensures r.Some? ==> r.value < |nodes| && nodes[r.value].value == name
  {
    if |nodes| == 0 then None
    else if nodes[0].value == name then Some(0)
    else
      match Position(nodes[1..], name)
      case None => None
      case Some(k) => Some(k + 1)
  }

  /** `Position` finds the first node with the name, and finds none only when no node has it. */
  lemma {:induction false} PositionFirst(nodes: seq<Node>, name: string)
    ensures Position(nodes, name).Some? ==> forall k :: 0 <= k < Position(nodes, name).value ==> nodes[k].value != name
    ensures Position(nodes, name).None? ==> forall k :: 0 <= k < |nodes| ==> nodes[k].value != name
  {
    if |nodes| > 0 && nodes[0].value != name {
      PositionFirst(nodes[1..], name);
      assert forall k :: 1 <= k < |nodes| ==> nodes[k] == nodes[1..][k - 1];
    }
  }

  /** One move from node `at`: the first node named by the instructed edge, if there is one. */
  function Move(nodes: seq<Node>, at: nat, instruction: Instruction): (r: Option<nat>)
    requires at < |nodes|
    ensures r.Some? ==> r.value < |nodes|
  {
    Position(nodes, if instruction == Left then nodes[at].left else nodes[at].right)
  }

  /**
   * Where `n` moves from `start` lead: move k follows instruction k modulo
   * their count, since the instructions restart after the last one. None
   * once a move names a node that does not exist.
   */
  function Walk(nodes: seq<Node>, instructions: seq<Instruction>, start: nat, n: nat): (r: Option<nat>)
    requires start < |nodes| && (n == 0 || |instructions| > 0)
    ensures r.Some? ==> r.value < |nodes|
  {
    if n == 0 then Some(start)
    else
      match Walk(nodes, instructions, start, n - 1)
      case None => None
      case Some(at) => Move(nodes, at, instructions[(n - 1) % |instructions|])
  }

  /** A walk that lost its way stays lost. */
  lemma {:induction false} WalkLost(nodes: seq<Node>, instructions: seq<Instruction>, start: nat, m: nat, n: nat)
    requires start < |nodes| && |instructions| > 0 && m <= n
    requires Walk(nodes, instructions, start, m).None?
    ensures Walk(nodes, instructions, start, n).None?
    decreases n - m
  {
    if m < n {
      WalkLost(nodes, instructions, start, m + 1, n);
    }
  }

  /** `from` reaches `to` in `n` moves, none of which needs a missing node. */
  predicate Arrives(nodes: seq<Node>, instructions: seq<Instruction>, from: nat, to: nat, n: nat)
    requires from < |nodes|
  {
    (n == 0 || |instructions| > 0) && Walk(nodes, instructions, from, n) == Some(to)
  }

  /** No walk of fewer than `n` moves arrives. */
  ghost predicate NotBefore(nodes: seq<Node>, instructions: seq<Instruction>, from: nat, to: nat, n: nat)
    requires from < |nodes|
  {
    forall m :: 0 <= m < n ==> !Arrives(nodes, instructions, from, to, m)
  }

  /** A walk that lasts `n + 1` moves lasted `n`, and its last move followed instruction `n` modulo their count. */
  lemma WalkPrevious(nodes: seq<Node>, instructions: seq<Instruction>, start: nat, n: nat)
    requires start < |nodes| && |instructions| > 0 && Walk(nodes, instructions, start, n + 1).Some?
    ensures Walk(nodes, instructions, start, n).Some?
    ensures Walk(nodes, instructions, start, n + 1) == Move(nodes, Walk(nodes, instructions, start, n).value, instructions[n % |instructions|])
  {
    assert (n + 1) - 1 == n;
  }

  /** A walk that has not yet arrived but will within `bound` moves can make one more move. */
  lemma WalkOn(nodes: seq<Node>, instructions: seq<Instruction>, from: nat, to: nat, n: nat, bound: nat)
    requires from < |nodes| && n <= bound && Arrives(nodes, instructions, from, to, bound)
    requires NotBefore(nodes, instructions, from, to, n)
    requires (n == 0 || |instructions| > 0) && Walk(nodes, instructions, from, n).Some?
    requires Walk(nodes, instructions, from, n).value != to
    ensures n < bound && |instructions| > 0
    ensures Walk(nodes, instructions, from, n + 1).Some?
    ensures Walk(nodes, instructions, from, n + 1) == Move(nodes, Walk(nodes, instructions, from, n).value, instructions[n % |instructions|])
    ensures NotBefore(nodes, instructions, from, to, n + 1)
  {
    assert n != bound;
    if Walk(nodes, instructions, from, n + 1).None? {
      WalkLost(nodes, instructions, from, n + 1, bound);
    }
    NotBeforeNext(nodes, instructions, from, to, n);
  }

  lemma NotBeforeNext(nodes: seq<Node>, instructions: seq<Instruction>, from: nat, to: nat, n: nat)
    requires from < |nodes| && NotBefore(nodes, instructions, from, to, n)
    requires !Arrives(nodes, instructions, from, to, n)
    ensures NotBefore(nodes, instructions, from, to, n + 1)
  {
  }

  /** What the source demands: AAA and ZZZ exist, and ZZZ is reached within the u32 step counter. */
  ghost predicate Reachable(input: string) {
    var nodes, instructions := Nodes(input), Instructions(input);
    var from, to := Position(nodes, "AAA"), Position(nodes, "ZZZ");
    from.Some? && to.Some? && exists n: nat :: n <= U32_MAX && Arrives(nodes, instructions, from.value, to.value, n)
  }

  /** `compute_path_steps`: the number of moves until ZZZ is first reached from AAA. */
  method ComputePathSteps(input: string) returns (steps: nat)
    requires Reachable(input)
    ensures steps <= U32_MAX
    ensures var nodes, instructions := Nodes(input), Instructions(input);
      var from, to := Position(nodes, "AAA").value, Position(nodes, "ZZZ").value;
      Arrives(nodes, instructions, from, to, steps)
      && forall m :: 0 <= m < steps ==> !Arrives(nodes, instructions, from, to, m)
  {
    var nodes, instructions := Nodes(input), Instructions(input);
    var from, to := Position(nodes, "AAA").value, Position(nodes, "ZZZ").value;
    steps := PathSteps(nodes, instructions, from, to);
  }

  /** The walk loop: check for the final node before every move. */
  method PathSteps(nodes: seq<Node>, instructions: seq<Instruction>, from: nat, to: nat) returns (steps: nat)
    requires from < |nodes| && to < |nodes|
    requires exists n: nat :: n <= U32_MAX && Arrives(nodes, instructions, from, to, n)
    ensures steps <= U32_MAX
    ensures Arrives(nodes, instructions, from, to, steps)
    ensures forall m :: 0 <= m < steps ==> !Arrives(nodes, instructions, from, to, m)
  {
    ghost var bound: nat :| bound <= U32_MAX && Arrives(nodes, instructions, from, to, bound);
    steps := 0;
    var current := from;
    while current != to
      invariant steps <= bound
      invariant Walk(nodes, instructions, from, steps) == Some(current)
      invariant NotBefore(nodes, instructions, from, to, steps)
      decreases bound - steps
    {
      WalkOn(nodes, instructions, from, to, steps, bound);
      var next := Move(nodes, current, instructions[steps % |instructions|]);
      steps := steps + 1;
      current := next.value;
    }
  }

  /** The wrap-around example: AAA=(BBB,BBB), BBB=(AAA,ZZZ), ZZZ=(ZZZ,ZZZ) under LLR. */
  function Example(): seq<Node> {
    [Node("AAA", "BBB", "BBB"), Node("BBB", "AAA", "ZZZ"), Node("ZZZ", "ZZZ", "ZZZ")]
  }

  /** The example needs two rounds of its three instructions: six moves. */
  lemma ExampleSteps()
    ensures Arrives(Example(), [Left, Left, Right], 0, 2, 6)
    ensures forall m :: 0 <= m < 6 ==> !Arrives(Example(), [Left, Left, Right], 0, 2, m)
  {
    var nodes, instructions := Example(), [Left, Left, Right];
    assert Position(nodes, "BBB") == Some(1);
    assert Position(nodes, "AAA") == Some(0);
    assert Position(nodes, "ZZZ") == Some(2);
    assert Walk(nodes, instructions, 0, 1) == Some(1);
    assert Walk(nodes, instructions, 0, 2) == Some(0);
    assert Walk(nodes, instructions, 0, 3) == Some(1);
    assert Walk(nodes, instructions, 0, 4) == Some(0);
    assert Walk(nodes, instructions, 0, 5) == Some(1);
    assert Walk(nodes, instructions, 0, 6) == Some(2);
  }
}

/**
 * Day 08, part 2: walkers start on every node whose name ends in 'A'; each
 * is removed when it stands on a node whose name ends in 'Z', and the answer
 * is the least common multiple of the recorded step counts.
 */
module Day08Part2 {
  import opened Text
  import opened Day08Part1

  // ---------------------------------------------------------------------------
  // Greatest common divisor and least common multiple
  // ---------------------------------------------------------------------------

  /**
   * `a` times `b`, by repeated addition. Keeping products, quotients and
   * remainders behind recursive definitions keeps nonlinear arithmetic out of
   * every proof that only mentions the lcm; the lemmas below connect them to
   * the built-in operators where a proof needs them.
   */
  function Times(a: nat, b: nat): nat
    decreases b
  {
    if b == 0 then 0 else Times(a, b - 1) + a
  }

  lemma {:induction false} TimesIsProduct(a: nat, b: nat)
    ensures Times(a, b) == a * b
    decreases b
  {
    if b > 0 {
      TimesIsProduct(a, b - 1);
    }
  }

  /** `d` divides `n`: `n` is a multiple of `d` (0 divides only 0). */
  ghost predicate Divides(d: nat, n: nat) {
    exists k: nat :: Times(d, k) == n
  }

  /** Integer division of naturals, by repeated subtraction. */
  function Quotient(a: nat, b: nat): nat
    requires b > 0
    decreases a
  {
    if a < b then 0 else Quotient(a - b, b) + 1
  }

  /** The remainder left by `Quotient`. */
  function Remainder(a: nat, b: nat): (r: nat)
    requires b > 0
    ensures r < b
    decreases a
  {
    if a < b then a else Remainder(a - b, b)
  }

  /** Quotient and remainder recompose the dividend. */
  lemma {:induction false} Division(a: nat, b: nat)
    requires b > 0
    ensures Quotient(a, b) * b + Remainder(a, b) == a
    decreases a
  {
    if a >= b {
      Division(a - b, b);
    }
  }

  /** Euclid's algorithm. */
  function Gcd(a: nat, b: nat): (g: nat)
    ensures a > 0 || b > 0 ==> g > 0
    decreases b
  {
    if b == 0 then a else Gcd(b, Remainder(a, b))
  }

  /** `num::integer::lcm`: 0 when both are 0, else a * (b / gcd(a, b)). */
  function Lcm(a: nat, b: nat): nat {
    if a == 0 && b == 0 then 0 else Times(a, Quotient(b, Gcd(a, b)))
  }

  /** The gcd divides both arguments. */
  lemma {:induction false} GcdDivides(a: nat, b: nat)
    ensures Divides(Gcd(a, b), a) && Divides(Gcd(a, b), b)
    decreases b
  {
    var g := Gcd(a, b);
    if b == 0 {
      TimesIsProduct(a, 1);
      assert Times(a, 0) == 0;
    } else {
      GcdDivides(b, Remainder(a, b));
      var kb: nat :| Times(g, kb) == b;
      var kr: nat :| Times(g, kr) == Remainder(a, b);
      EuclidStep(a, b, g, kb, kr);
    }
  }

  /** A common divisor of `b` and the remainder of `a` by `b` divides `a`. */
  lemma EuclidStep(a: nat, b: nat, g: nat, kb: nat, kr: nat)
    requires b > 0 && Times(g, kb) == b && Times(g, kr) == Remainder(a, b)
    ensures Times(g, Quotient(a, b) * kb + kr) == a
  {
    var q := Quotient(a, b);
    TimesIsProduct(g, kb);
    TimesIsProduct(g, kr);
    TimesIsProduct(g, q * kb + kr);
    Division(a, b);
    Distribute(g, q, kb, kr);
  }

  lemma Distribute(g: int, q: int, kb: int, kr: int)
    ensures g * (q * kb + kr) == q * (g * kb) + g * kr
  {
  }

  /** Bezout's identity by the extended Euclidean algorithm. */
  lemma {:induction false} Bezout(a: nat, b: nat) returns (x: int, y: int)
    ensures x * a + y * b == Gcd(a, b)
    decreases b
  {
    if b == 0 {
      x, y := 1, 0;
    } else {
      var x', y' := Bezout(b, Remainder(a, b));
      var q := Quotient(a, b);
      Division(a, b);
      x, y := y', x' - y' * q;
      BezoutStep(a, b, q, Remainder(a, b), x', y', Gcd(a, b));
    }
  }

  /** Bezout coefficients for `b` and the remainder give ones for `a` and `b`. */
  lemma BezoutStep(a: int, b: int, q: int, r: int, x: int, y: int, g: int)
    requires q * b + r == a && x * b + y * r == g
    ensures y * a + (x - y * q) * b == g
  {
    assert y * a == y * (q * b) + y * r;
    assert (x - y * q) * b == x * b - y * (q * b);
  }

  lemma DividesTransitive(a: nat, b: nat, c: nat)
    requires Divides(a, b) && Divides(b, c)
    ensures Divides(a, c)
  {
    var k1: nat :| Times(a, k1) == b;
    var k2: nat :| Times(b, k2) == c;
    TimesIsProduct(a, k1);
    TimesIsProduct(b, k2);
    TimesIsProduct(a, k1 * k2);
    assert a * (k1 * k2) == (a * k1) * k2;
  }

  /** Dividing an exact multiple gives the factor back. */
  lemma {:induction false} ExactQuotient(g: nat, k: nat)
    requires g > 0
    ensures Quotient(Times(g, k), g) == k
    decreases k
  {
    if k > 0 {
      ExactQuotient(g, k - 1);
      assert Times(g, k) - g == Times(g, k - 1);
    }
  }

  /** (g * x) * y == (g * y) * x. */
  lemma SwapFactors(g: nat, x: nat, y: nat)
    ensures Times(Times(g, x), y) == Times(Times(g, y), x)
  {
    TimesIsProduct(g, x);
    TimesIsProduct(g, y);
    TimesIsProduct(Times(g, x), y);
    TimesIsProduct(Times(g, y), x);
    assert (g * x) * y == (g * y) * x;
  }

  /** The lcm is a multiple of both arguments. */
  lemma LcmMultiple(a: nat, b: nat)
    ensures Divides(a, Lcm(a, b)) && Divides(b, Lcm(a, b))
  {
    if a == 0 && b == 0 {
      assert Times(0, 0) == 0;
    } else {
      var g := Gcd(a, b);
      GcdDivides(a, b);
      var ka: nat :| Times(g, ka) == a;
      var kb: nat :| Times(g, kb) == b;
      ExactQuotient(g, kb);
      assert Times(a, kb) == Lcm(a, b);
      SwapFactors(g, ka, kb);
      assert Times(b, ka) == Lcm(a, b);
    }
  }

  /** The lcm divides every common multiple. */
  lemma LcmLeast(a: nat, b: nat, m: nat)
    requires Divides(a, m) && Divides(b, m)
    ensures Divides(Lcm(a, b), m)
  {
    if a == 0 || b == 0 {
      var p: nat :| Times(a, p) == m;
      var q: nat :| Times(b, q) == m;
      TimesIsProduct(a, p);
      TimesIsProduct(b, q);
      assert m == 0;
      assert Times(Lcm(a, b), 0) == 0;
    } else {
      LcmLeastPositive(a, b, m);
    }
  }

  lemma LcmLeastPositive(a: nat, b: nat, m: nat)
    requires a > 0 && b > 0 && Divides(a, m) && Divides(b, m)
    ensures Divides(Lcm(a, b), m)
  {
    var p: nat :| Times(a, p) == m;
    var q: nat :| Times(b, q) == m;
    var g := Gcd(a, b);
    GcdDivides(a, b);
    var kb: nat :| Times(g, kb) == b;
    ExactQuotient(g, kb);
    assert Lcm(a, b) == Times(a, kb);
    TimesIsProduct(a, p);
    TimesIsProduct(b, q);
    TimesIsProduct(g, kb);
    TimesIsProduct(a, kb);
    var l := a * kb;
    var x, y := Bezout(a, b);
    var k := x * q + y * p;
    LcmLeastStep(a, b, m, p, q, g, kb, x, y);
    FactorSign(l, k);
    TimesIsProduct(l, k);
    assert Times(Lcm(a, b), k) == m;
  }

  /** A non-negative product with a positive factor has a non-negative other factor. */
  lemma FactorSign(l: nat, k: int)
    requires l > 0 && l * k >= 0
    ensures k >= 0
  {
  }

  /** The arithmetic of LcmLeast: g * m == g * (a * kb) * (x q + y p), then cancel g. */
  lemma LcmLeastStep(a: nat, b: nat, m: nat, p: nat, q: nat, g: nat, kb: nat, x: int, y: int)
    requires a > 0 && b > 0 && g > 0 && a * p == m && b * q == m && g * kb == b && x * a + y * b == g
    ensures m == (a * kb) * (x * q + y * p) && a * kb > 0
  {
    assert kb != 0;
    assert g * m == (x * a + y * b) * m;
    assert (x * a + y * b) * m == x * a * (b * q) + y * b * (a * p);
    assert x * a * (b * q) + y * b * (a * p) == a * b * (x * q + y * p);
    assert a * b * (x * q + y * p) == g * ((a * kb) * (x * q + y * p));
    assert g * m == g * ((a * kb) * (x * q + y * p));
  }

  /** `calculate_lcm`: the single element, or lcm(first, lcm of the rest); an empty list would panic. */
  function LcmOf(lengths: seq<nat>): nat
    requires |lengths| >= 1
  {
    if |lengths| == 1 then lengths[0] else Lcm(lengths[0], LcmOf(lengths[1..]))
  }

  /** The lcm of a list is a multiple of each of its elements. */
  lemma {:induction false} LcmOfMultiple(lengths: seq<nat>)
    requires |lengths| >= 1
    ensures forall i :: 0 <= i < |lengths| ==> Divides(lengths[i], LcmOf(lengths))
  {
    if |lengths| == 1 {
      assert Times(lengths[0], 1) == lengths[0];
    } else {
      LcmOfMultiple(lengths[1..]);
      LcmMultiple(lengths[0], LcmOf(lengths[1..]));
      forall i | 1 <= i < |lengths|
        ensures Divides(lengths[i], LcmOf(lengths))
      {
        assert lengths[i] == lengths[1..][i - 1];
        DividesTransitive(lengths[i], LcmOf(lengths[1..]), LcmOf(lengths));
      }
    }
  }

  /** The lcm of a list divides every common multiple of its elements. */
  lemma {:induction false} LcmOfLeast(lengths: seq<nat>, m: nat)
    requires |lengths| >= 1
    requires forall i :: 0 <= i < |lengths| ==> Divides(lengths[i], m)
    ensures Divides(LcmOf(lengths), m)
  {
    if |lengths| > 1 {
      forall i | 0 <= i < |lengths| - 1
        ensures Divides(lengths[1..][i], m)
      {
        assert lengths[1..][i] == lengths[i + 1];
      }
      LcmOfLeast(lengths[1..], m);
      LcmLeast(lengths[0], LcmOf(lengths[1..]), m);
    }
  }

  /** Every element of `xs` divides `m`. */
  ghost predicate MultipleOfAll(xs: seq<nat>, m: nat) {
    forall i :: 0 <= i < |xs| ==> Divides(xs[i], m)
  }

  /** `m` is the least common multiple of `xs`: a multiple of each, dividing every other common multiple. */
  ghost predicate LeastMultipleOfAll(xs: seq<nat>, m: nat) {
    MultipleOfAll(xs, m) && forall other: nat :: MultipleOfAll(xs, other) ==> Divides(m, other)
  }

  /** `calculate_lcm` computes the least common multiple of its list. */
  lemma LcmOfLeastMultiple(lengths: seq<nat>)
    requires |lengths| >= 1
    ensures LeastMultipleOfAll(lengths, LcmOf(lengths))
  {
    LcmOfMultiple(lengths);
    forall other: nat | MultipleOfAll(lengths, other)
      ensures Divides(LcmOf(lengths), other)
    {
      LcmOfLeast(lengths, other);
    }
  }

  /** A common multiple of `xs` is one of every list whose values all occur in `xs`. */
  lemma MultipleSameElements(xs: seq<nat>, ys: seq<nat>, m: nat)
    requires forall y :: y in ys ==> y in xs
    requires MultipleOfAll(xs, m)
    ensures MultipleOfAll(ys, m)
  {
    forall j | 0 <= j < |ys|
      ensures Divides(ys[j], m)
    {
      assert ys[j] in xs;
      var i :| 0 <= i < |xs| && xs[i] == ys[j];
    }
  }

  /** Being the least common multiple depends only on which values occur. */
  lemma LeastMultipleSameElements(xs: seq<nat>, ys: seq<nat>, m: nat)
    requires forall x :: x in xs <==> x in ys
    requires LeastMultipleOfAll(xs, m)
    ensures LeastMultipleOfAll(ys, m)
  {
    MultipleSameElements(xs, ys, m);
    forall other: nat | MultipleOfAll(ys, other)
      ensures Divides(m, other)
    {
      MultipleSameElements(ys, xs, other);
    }
  }

  /** A positive multiple bounds each of its divisors. */
  lemma DividesBound(d: nat, m: nat)
    requires Divides(d, m) && m > 0
    ensures d <= m
  {
    var k: nat :| Times(d, k) == m;
    TimesIsProduct(d, k);
    assert k >= 1;
    assert d * k >= d * 1;
  }

  /**
   * When every element of a list divides a positive `m` that fits in a usize,
   * so does the lcm of every suffix: no lcm `calculate_lcm` multiplies out
   * overflows.
   */
  lemma {:induction false} FitsBelow(xs: seq<nat>, m: nat)
    requires MultipleOfAll(xs, m) && 0 < m <= USIZE_MAX
    ensures LcmFits(xs)
  {
    if |xs| > 0 {
      LcmOfLeast(xs, m);
      DividesBound(LcmOf(xs), m);
      forall i | 0 <= i < |xs| - 1
        ensures Divides(xs[1..][i], m)
      {
        assert xs[1..][i] == xs[i + 1];
      }
      FitsBelow(xs[1..], m);
    }
  }

  // ---------------------------------------------------------------------------
  // Walkers
  // ---------------------------------------------------------------------------

  /** `is_starting`: the name ends in 'A'. */
  predicate IsStarting(n: Node) {
    |n.value| > 0 && n.value[|n.value| - 1] == 'A'
  }

  /** `is_ending`: the name ends in 'Z'. */
  predicate IsEnding(n: Node) {
    |n.value| > 0 && n.value[|n.value| - 1] == 'Z'
  }

  /** The starting nodes from index `i` on, in order. */
  function StartsFrom(nodes: seq<Node>, i: nat): (r: seq<nat>)
    requires i <= |nodes|
    ensures forall k :: 0 <= k < |r| ==> i <= r[k] < |nodes| && IsStarting(nodes[r[k]])
    ensures forall j :: i <= j < |nodes| && IsStarting(nodes[j]) ==> j in r
    decreases |nodes| - i
  {
    if i == |nodes| then []
    else (if IsStarting(nodes[i]) then [i] else []) + StartsFrom(nodes, i + 1)
  }

  /** `filter(Node::is_starting)`: the walkers, as the indices of their nodes. */
  function Starts(nodes: seq<Node>): (r: seq<nat>)
    ensures forall k :: 0 <= k < |r| ==> r[k] < |nodes| && IsStarting(nodes[r[k]])
    ensures forall j :: 0 <= j < |nodes| && IsStarting(nodes[j]) ==> j in r
  {
    StartsFrom(nodes, 0)
  }

  /** Walker `w` stands on a node ending in 'Z' after `n` moves. */
  predicate Ends(nodes: seq<Node>, instructions: seq<Instruction>, w: nat, n: nat)
    requires w < |nodes|
  {
    (n == 0 || |instructions| > 0)
    && var at := Walk(nodes, instructions, w, n);
    at.Some? && IsEnding(nodes[at.value])
  }

  /** Walker `w` reaches an ending node some time, without losing its way before. */
  ghost predicate Finishes(nodes: seq<Node>, instructions: seq<Instruction>, w: nat)
    requires w < |nodes|
  {
    exists n: nat :: Ends(nodes, instructions, w, n)
  }

  function LeastEnd(nodes: seq<Node>, instructions: seq<Instruction>, w: nat, k: nat, bound: nat): (r: nat)
    requires w < |nodes| && k <= bound && Ends(nodes, instructions, w, bound)
    requires forall m :: 0 <= m < k ==> !Ends(nodes, instructions, w, m)
    ensures k <= r <= bound && Ends(nodes, instructions, w, r)
    ensures forall m :: 0 <= m < r ==> !Ends(nodes, instructions, w, m)
    decreases bound - k
  {
    if Ends(nodes, instructions, w, k) then k else LeastEnd(nodes, instructions, w, k + 1, bound)
  }

  /** The number of moves after which walker `w` first stands on an ending node. */
  ghost function FirstEnd(nodes: seq<Node>, instructions: seq<Instruction>, w: nat): (r: nat)
    requires w < |nodes| && Finishes(nodes, instructions, w)
    ensures Ends(nodes, instructions, w, r)
  {
    var bound: nat :| Ends(nodes, instructions, w, bound);
    LeastEnd(nodes, instructions, w, 0, bound)
  }

  /** Every walker is a node that finishes. */
  ghost predicate Walkers(nodes: seq<Node>, instructions: seq<Instruction>, ws: seq<nat>) {
    forall k :: 0 <= k < |ws| ==> ws[k] < |nodes| && Finishes(nodes, instructions, ws[k])
  }

  /** Up to its first ending a walker never loses its way. */
  lemma WalkSome(nodes: seq<Node>, instructions: seq<Instruction>, w: nat, n: nat)
    requires w < |nodes| && Finishes(nodes, instructions, w) && n <= FirstEnd(nodes, instructions, w)
    ensures n == 0 || |instructions| > 0
    ensures Walk(nodes, instructions, w, n).Some?
  {
    var b := FirstEnd(nodes, instructions, w);
    if n > 0 && Walk(nodes, instructions, w, n).None? {
      WalkLost(nodes, instructions, w, n, b);
    }
  }

  /**
   * The nodes the source holds after `n` rounds: walker by walker, in their
   * order, the node of each walker that had not ended before move `n`.
   */
  ghost function Alive(nodes: seq<Node>, instructions: seq<Instruction>, ws: seq<nat>, n: nat): (r: seq<nat>)
    requires Walkers(nodes, instructions, ws)
    ensures forall k :: 0 <= k < |r| ==> r[k] < |nodes|
  {
    if |ws| == 0 then []
    else
      var rest := Alive(nodes, instructions, ws[1..], n);
      if n <= FirstEnd(nodes, instructions, ws[0]) then
        WalkSome(nodes, instructions, ws[0], n);
        [Walk(nodes, instructions, ws[0], n).value] + rest
      else rest
  }

  /** How many walkers first end after exactly `n` moves. */
  ghost function Arrivals(nodes: seq<Node>, instructions: seq<Instruction>, ws: seq<nat>, n: nat): nat
    requires Walkers(nodes, instructions, ws)
  {
    if |ws| == 0 then 0
    else (if FirstEnd(nodes, instructions, ws[0]) == n then 1 else 0) + Arrivals(nodes, instructions, ws[1..], n)
  }

  /** The last first ending among the walkers. */
  ghost function LastEnd(nodes: seq<Node>, instructions: seq<Instruction>, ws: seq<nat>): (r: nat)
    requires Walkers(nodes, instructions, ws)
    ensures forall k :: 0 <= k < |ws| ==> FirstEnd(nodes, instructions, ws[k]) <= r
  {
    if |ws| == 0 then 0
    else
      var rest := LastEnd(nodes, instructions, ws[1..]);
      var first := FirstEnd(nodes, instructions, ws[0]);
      assert forall k :: 1 <= k < |ws| ==> ws[k] == ws[1..][k - 1];
      if first >= rest then first else rest
  }

  /** Every walker's first ending is at most `n` moves away. */
  ghost predicate AllEnded(nodes: seq<Node>, instructions: seq<Instruction>, ws: seq<nat>, n: nat)
    requires Walkers(nodes, instructions, ws)
  {
    |ws| == 0 || (FirstEnd(nodes, instructions, ws[0]) <= n && AllEnded(nodes, instructions, ws[1..], n))
  }

  /** The last ending is the least bound of the walkers' first endings. */
  lemma {:induction false} AllEndedLast(nodes: seq<Node>, instructions: seq<Instruction>, ws: seq<nat>, n: nat)
    requires Walkers(nodes, instructions, ws)
    ensures AllEnded(nodes, instructions, ws, n) <==> LastEnd(nodes, instructions, ws) <= n
  {
    if |ws| > 0 {
      AllEndedLast(nodes, instructions, ws[1..], n);
    }
  }

  /** `n` copies of `x`. */
  function Copies(x: nat, n: nat): (r: seq<nat>)
    ensures |r| == n && forall k :: 0 <= k < n ==> r[k] == x
  {
    seq(n, k => x)
  }

  /** The lengths the source records in its first `n` rounds: round m records m once per walker ending then. */
  ghost function Recorded(nodes: seq<Node>, instructions: seq<Instruction>, ws: seq<nat>, n: nat): seq<nat>
    requires Walkers(nodes, instructions, ws)
  {
    if n == 0 then [] else Recorded(nodes, instructions, ws, n - 1) + Copies(n - 1, Arrivals(nodes, instructions, ws, n - 1))
  }

  // ---------------------------------------------------------------------------
  // One round, as the source computes it
  // ---------------------------------------------------------------------------

  /** `filter(Node::is_ending)` over the current nodes. */
  function EndingOf(nodes: seq<Node>, ws: seq<nat>): (r: seq<nat>)
    requires forall k :: 0 <= k < |ws| ==> ws[k] < |nodes|
    ensures |r| <= |ws|
    ensures forall k :: 0 <= k < |r| ==> r[k] in ws && IsEnding(nodes[r[k]])
    ensures forall k :: 0 <= k < |ws| && IsEnding(nodes[ws[k]]) ==> ws[k] in r
  {
    if |ws| == 0 then []
    else
      var rest := EndingOf(nodes, ws[1..]);
      assert forall k :: 1 <= k < |ws| ==> ws[k] == ws[1..][k - 1];
      (if IsEnding(nodes[ws[0]]) then [ws[0]] else []) + rest
  }

  /** Every node of `xs` ends in 'Z'. */
  predicate AllEnding(nodes: seq<Node>, xs: seq<nat>)
    requires forall k :: 0 <= k < |xs| ==> xs[k] < |nodes|
  {
    |xs| == 0 || (IsEnding(nodes[xs[0]]) && AllEnding(nodes, xs[1..]))
  }

  /** The filter keeps every node exactly when all of them end in 'Z': the source's stopping test. */
  lemma {:induction false} EndingOfAll(nodes: seq<Node>, xs: seq<nat>)
    requires forall k :: 0 <= k < |xs| ==> xs[k] < |nodes|
    ensures |EndingOf(nodes, xs)| == |xs| <==> AllEnding(nodes, xs)
  {
    if |xs| > 0 {
      EndingOfAll(nodes, xs[1..]);
    }
  }

  /** Some ending node carries the name `name`. */
  predicate Named(nodes: seq<Node>, ending: seq<nat>, name: string)
    requires forall k :: 0 <= k < |ending| ==> ending[k] < |nodes|
  {
    exists k :: 0 <= k < |ending| && nodes[ending[k]].value == name
  }

  /** `retain`: drop every current node whose name an ending node carries. */
  function Retain(nodes: seq<Node>, ws: seq<nat>, ending: seq<nat>): (r: seq<nat>)
    requires forall k :: 0 <= k < |ws| ==> ws[k] < |nodes|
    requires forall k :: 0 <= k < |ending| ==> ending[k] < |nodes|
    ensures forall k :: 0 <= k < |r| ==> r[k] < |nodes|
  {
    if |ws| == 0 then []
    else (if Named(nodes, ending, nodes[ws[0]].value) then [] else [ws[0]]) + Retain(nodes, ws[1..], ending)
  }

  /** The current nodes that do not end in 'Z'. */
  function Unfinished(nodes: seq<Node>, ws: seq<nat>): (r: seq<nat>)
    requires forall k :: 0 <= k < |ws| ==> ws[k] < |nodes|
    ensures forall k :: 0 <= k < |r| ==> r[k] < |nodes|
  {
    if |ws| == 0 then []
    else (if IsEnding(nodes[ws[0]]) then [] else [ws[0]]) + Unfinished(nodes, ws[1..])
  }

  lemma UnfinishedCons(nodes: seq<Node>, at: nat, rest: seq<nat>)
    requires at < |nodes| && forall k :: 0 <= k < |rest| ==> rest[k] < |nodes|
    ensures Unfinished(nodes, [at] + rest) == (if IsEnding(nodes[at]) then [] else [at]) + Unfinished(nodes, rest)
  {
    assert ([at] + rest)[1..] == rest;
  }

  /** Dropping the nodes named like an ending node drops exactly the ending nodes, since whether a node ends depends on its name alone. */
  lemma {:induction false} RetainUnfinished(nodes: seq<Node>, ws: seq<nat>, ending: seq<nat>)
    requires forall k :: 0 <= k < |ws| ==> ws[k] < |nodes|
    requires forall k :: 0 <= k < |ending| ==> ending[k] < |nodes| && IsEnding(nodes[ending[k]])
    requires forall k :: 0 <= k < |ws| && IsEnding(nodes[ws[k]]) ==> ws[k] in ending
    ensures Retain(nodes, ws, ending) == Unfinished(nodes, ws)
  {
    if |ws| > 0 {
      if IsEnding(nodes[ws[0]]) {
        var k :| 0 <= k < |ending| && ending[k] == ws[0];
        assert nodes[ending[k]].value == nodes[ws[0]].value;
      } else {
        forall k | 0 <= k < |ending|
          ensures nodes[ending[k]].value != nodes[ws[0]].value
        {
          assert IsEnding(nodes[ending[k]]);
        }
      }
      RetainUnfinished(nodes, ws[1..], ending);
    }
  }

  /** Every node of `xs` has a node along the instructed edge, so the source's `unwrap` of the lookup succeeds. */
  predicate CanMove(nodes: seq<Node>, xs: seq<nat>, instruction: Instruction) {
    |xs| == 0 || (xs[0] < |nodes| && Move(nodes, xs[0], instruction).Some? && CanMove(nodes, xs[1..], instruction))
  }

  /** Every current node moves along the instructed edge. */
  function Advance(nodes: seq<Node>, ws: seq<nat>, instruction: Instruction): (r: seq<nat>)
    requires CanMove(nodes, ws, instruction)
    ensures |r| == |ws| && forall k :: 0 <= k < |r| ==> r[k] < |nodes|
  {
    if |ws| == 0 then [] else [Move(nodes, ws[0], instruction).value] + Advance(nodes, ws[1..], instruction)
  }

  // ---------------------------------------------------------------------------
  // The rounds follow the walkers
  // ---------------------------------------------------------------------------

  /** Before any move every walker is alive, on its own node. */
  lemma {:induction false} AliveStart(nodes: seq<Node>, instructions: seq<Instruction>, ws: seq<nat>)
    requires Walkers(nodes, instructions, ws)
    ensures Alive(nodes, instructions, ws, 0) == ws
  {
    if |ws| > 0 {
      AliveStart(nodes, instructions, ws[1..]);
      assert ws == [ws[0]] + ws[1..];
    }
  }

  /** Up to its first ending a walker stands on a node, and that node ends in 'Z' only at the first ending. */
  lemma HeadEnding(nodes: seq<Node>, instructions: seq<Instruction>, w: nat, n: nat)
    requires w < |nodes| && Finishes(nodes, instructions, w) && n <= FirstEnd(nodes, instructions, w)
    ensures n == 0 || |instructions| > 0
    ensures Walk(nodes, instructions, w, n).Some?
    ensures IsEnding(nodes[Walk(nodes, instructions, w, n).value]) <==> n == FirstEnd(nodes, instructions, w)
  {
    WalkSome(nodes, instructions, w, n);
    if n < FirstEnd(nodes, instructions, w) {
      assert !Ends(nodes, instructions, w, n);
    } else {
      assert Ends(nodes, instructions, w, n);
    }
  }

  /** Before its first ending a walker's next node is the one the instructed edge names. */
  lemma HeadMove(nodes: seq<Node>, instructions: seq<Instruction>, w: nat, n: nat)
    requires w < |nodes| && Finishes(nodes, instructions, w) && n < FirstEnd(nodes, instructions, w)
    ensures |instructions| > 0
    ensures Walk(nodes, instructions, w, n).Some? && Walk(nodes, instructions, w, n + 1).Some?
    ensures Move(nodes, Walk(nodes, instructions, w, n).value, instructions[n % |instructions|]) == Walk(nodes, instructions, w, n + 1)
  {
    WalkSome(nodes, instructions, w, n + 1);
    WalkPrevious(nodes, instructions, w, n);
  }

  /** The nodes ending in 'Z' in round `n` are those of the walkers whose first ending is `n`. */
  lemma {:induction false} EndingAlive(nodes: seq<Node>, instructions: seq<Instruction>, ws: seq<nat>, n: nat)
    requires Walkers(nodes, instructions, ws)
    ensures |EndingOf(nodes, Alive(nodes, instructions, ws, n))| == Arrivals(nodes, instructions, ws, n)
  {
    if |ws| > 0 {
      EndingAlive(nodes, instructions, ws[1..], n);
      if n <= FirstEnd(nodes, instructions, ws[0]) {
        HeadEnding(nodes, instructions, ws[0], n);
        var alive := Alive(nodes, instructions, ws, n);
        assert alive[1..] == Alive(nodes, instructions, ws[1..], n);
      }
    }
  }

  /** Every node of round `n` ends in 'Z' exactly when no walker's first ending comes later. */
  lemma {:induction false} AllEndingAlive(nodes: seq<Node>, instructions: seq<Instruction>, ws: seq<nat>, n: nat)
    requires Walkers(nodes, instructions, ws)
    ensures AllEnding(nodes, Alive(nodes, instructions, ws, n)) <==> AllEnded(nodes, instructions, ws, n)
  {
    if |ws| > 0 {
      AllEndingAlive(nodes, instructions, ws[1..], n);
      if n <= FirstEnd(nodes, instructions, ws[0]) {
        HeadEnding(nodes, instructions, ws[0], n);
        var alive := Alive(nodes, instructions, ws, n);
        assert alive[1..] == Alive(nodes, instructions, ws[1..], n);
      }
    }
  }

  /** Moving the unfinished nodes of round `n` gives the nodes of round `n + 1`, and no lookup fails. */
  lemma {:induction false} AdvanceAlive(nodes: seq<Node>, instructions: seq<Instruction>, ws: seq<nat>, n: nat)
    requires Walkers(nodes, instructions, ws) && |instructions| > 0
    ensures CanMove(nodes, Unfinished(nodes, Alive(nodes, instructions, ws, n)), instructions[n % |instructions|])
    ensures Advance(nodes, Unfinished(nodes, Alive(nodes, instructions, ws, n)), instructions[n % |instructions|])
      == Alive(nodes, instructions, ws, n + 1)
  {
    if |ws| > 0 {
      AdvanceAlive(nodes, instructions, ws[1..], n);
      var w, i := ws[0], instructions[n % |instructions|];
      var rest := Alive(nodes, instructions, ws[1..], n);
      var f := FirstEnd(nodes, instructions, w);
      var moved := Advance(nodes, Unfinished(nodes, rest), i);
      assert moved == Alive(nodes, instructions, ws[1..], n + 1);
      if n < f {
        HeadEnding(nodes, instructions, w, n);
        HeadMove(nodes, instructions, w, n);
        var at := Walk(nodes, instructions, w, n).value;
        assert Alive(nodes, instructions, ws, n) == [at] + rest;
        UnfinishedCons(nodes, at, rest);
        var unfinished := [at] + Unfinished(nodes, rest);
        assert unfinished[1..] == Unfinished(nodes, rest);
        assert CanMove(nodes, unfinished, i);
        assert Advance(nodes, unfinished, i) == [Walk(nodes, instructions, w, n + 1).value] + moved;
        assert Alive(nodes, instructions, ws, n + 1) == [Walk(nodes, instructions, w, n + 1).value] + moved;
        assert Unfinished(nodes, Alive(nodes, instructions, ws, n)) == unfinished;
      } else if n == f {
        HeadEnding(nodes, instructions, w, n);
        var at := Walk(nodes, instructions, w, n).value;
        assert Alive(nodes, instructions, ws, n) == [at] + rest;
        UnfinishedCons(nodes, at, rest);
        assert Alive(nodes, instructions, ws, n + 1) == moved;
        assert Unfinished(nodes, Alive(nodes, instructions, ws, n)) == Unfinished(nodes, rest);
      } else {
        assert Alive(nodes, instructions, ws, n) == rest;
        assert Alive(nodes, instructions, ws, n + 1) == moved;
      }
    } else {
      assert Alive(nodes, instructions, ws, n) == [];
      assert Alive(nodes, instructions, ws, n + 1) == [];
    }
  }

  /** How many walkers first end at `x` is positive exactly when one of them does. */
  lemma {:induction false} ArrivalsPositive(nodes: seq<Node>, instructions: seq<Instruction>, ws: seq<nat>, x: nat)
    requires Walkers(nodes, instructions, ws)
    ensures Arrivals(nodes, instructions, ws, x) > 0 <==> x in FirstEnds(nodes, instructions, ws)
  {
    if |ws| > 0 {
      ArrivalsPositive(nodes, instructions, ws[1..], x);
    }
  }

  /** No walker first ends after the last first ending. */
  lemma {:induction false} FirstEndsBelowLast(nodes: seq<Node>, instructions: seq<Instruction>, ws: seq<nat>, x: nat)
    requires Walkers(nodes, instructions, ws) && x in FirstEnds(nodes, instructions, ws)
    ensures x <= LastEnd(nodes, instructions, ws)
  {
    if x != FirstEnd(nodes, instructions, ws[0]) {
      FirstEndsBelowLast(nodes, instructions, ws[1..], x);
    }
  }

  lemma CopiesMembers(x: nat, n: nat, m: nat)
    ensures x in Copies(n, m) <==> x == n && m > 0
  {
    if x == n && m > 0 {
      assert Copies(n, m)[0] == x;
    }
  }

  /** A length is recorded in the first `n` rounds exactly when it is below `n` and some walker first ends then. */
  lemma {:induction false} RecordedMembers(nodes: seq<Node>, instructions: seq<Instruction>, ws: seq<nat>, n: nat, x: nat)
    requires Walkers(nodes, instructions, ws)
    ensures x in Recorded(nodes, instructions, ws, n) <==> x < n && Arrivals(nodes, instructions, ws, x) > 0
  {
    if n > 0 {
      RecordedMembers(nodes, instructions, ws, n - 1, x);
      CopiesMembers(x, n - 1, Arrivals(nodes, instructions, ws, n - 1));
    }
  }

  /** The recorded lengths are exactly the walkers' first endings. */
  lemma RecordedFirstEnds(nodes: seq<Node>, instructions: seq<Instruction>, ws: seq<nat>, x: nat)
    requires Walkers(nodes, instructions, ws)
    ensures x in Recorded(nodes, instructions, ws, LastEnd(nodes, instructions, ws) + 1)
      <==> x in FirstEnds(nodes, instructions, ws)
  {
    RecordedMembers(nodes, instructions, ws, LastEnd(nodes, instructions, ws) + 1, x);
    ArrivalsPositive(nodes, instructions, ws, x);
    if x in FirstEnds(nodes, instructions, ws) {
      FirstEndsBelowLast(nodes, instructions, ws, x);
    }
  }

  /**
   * One round on the walkers alive after `n` moves: the ending nodes are the
   * walkers ending now, all nodes end exactly when no walker ends later, and
   * retaining then moving gives the walkers alive after `n + 1` moves.
   */
  lemma Round(nodes: seq<Node>, instructions: seq<Instruction>, ws: seq<nat>, n: nat)
    requires Walkers(nodes, instructions, ws) && |instructions| > 0
    ensures var current := Alive(nodes, instructions, ws, n);
      var ending := EndingOf(nodes, current);
      && |ending| == Arrivals(nodes, instructions, ws, n)
      && (|ending| == |current| <==> LastEnd(nodes, instructions, ws) <= n)
      && CanMove(nodes, Retain(nodes, current, ending), instructions[n % |instructions|])
      && Advance(nodes, Retain(nodes, current, ending), instructions[n % |instructions|]) == Alive(nodes, instructions, ws, n + 1)
  {
    var current := Alive(nodes, instructions, ws, n);
    var ending := EndingOf(nodes, current);
    EndingAlive(nodes, instructions, ws, n);
    EndingOfAll(nodes, current);
    AllEndingAlive(nodes, instructions, ws, n);
    AllEndedLast(nodes, instructions, ws, n);
    RetainUnfinished(nodes, current, ending);
    AdvanceAlive(nodes, instructions, ws, n);
  }

  // ---------------------------------------------------------------------------
  // The program
  // ---------------------------------------------------------------------------

  /**
   * One pass of the inner loop: the number of ending nodes, whether they are
   * all the current nodes, and otherwise the current nodes retained and moved.
   */
  method Step(nodes: seq<Node>, instructions: seq<Instruction>, current: seq<nat>, steps: nat, ghost starts: seq<nat>)
    returns (ended: nat, done: bool, next: seq<nat>)
    requires |instructions| > 0 && Walkers(nodes, instructions, starts)
    requires current == Alive(nodes, instructions, starts, steps)
    ensures ended == Arrivals(nodes, instructions, starts, steps)
    ensures done <==> LastEnd(nodes, instructions, starts) <= steps
    ensures !done ==> next == Alive(nodes, instructions, starts, steps + 1)
  {
    Round(nodes, instructions, starts, steps);
    var ending := EndingOf(nodes, current);
    ended, done := |ending|, |ending| == |current|;
    next := current;
    if !done {
      var retained := Retain(nodes, current, ending);
      next := Advance(nodes, retained, instructions[steps % |instructions|]);
    }
  }

  /** The rounds: record the step count once per ending node, stop when all current nodes end, else retain and move. */
  method RecordLengths(nodes: seq<Node>, instructions: seq<Instruction>, starts: seq<nat>) returns (lengths: seq<nat>)
    requires |instructions| > 0 && Walkers(nodes, instructions, starts)
    ensures lengths == Recorded(nodes, instructions, starts, LastEnd(nodes, instructions, starts) + 1)
  {
    ghost var last := LastEnd(nodes, instructions, starts);
    var current := starts;
    AliveStart(nodes, instructions, starts);
    lengths := [];
    var steps := 0;
    while true
      invariant steps <= last
      invariant current == Alive(nodes, instructions, starts, steps)
      invariant lengths == Recorded(nodes, instructions, starts, steps)
      decreases last - steps
    {
      var ended, done, next := Step(nodes, instructions, current, steps, starts);
      lengths := lengths + Copies(steps, ended);
      assert lengths == Recorded(nodes, instructions, starts, steps + 1);
      if done {
        assert steps == last;
        return;
      }
      current := next;
      steps := steps + 1;
    }
  }

  /** `calculate_lcm` multiplies out the lcm of every suffix, each of which must fit in a usize. */
  predicate LcmFits(lengths: seq<nat>) {
    |lengths| == 0 || (LcmOf(lengths) <= USIZE_MAX && LcmFits(lengths[1..]))
  }

  /**
   * What the source demands of the parsed map: instructions to repeat (else
   * the rounds never end), a starting node (else `calculate_lcm` of no lengths
   * panics), every walker reaching an ending node without a failed lookup,
   * the step counter fitting in a usize, and a common multiple of the first
   * endings fitting in one, so that no lcm `calculate_lcm` multiplies out
   * overflows (see AnswerFits).
   */
  ghost predicate Solvable(nodes: seq<Node>, instructions: seq<Instruction>) {
    var starts := Starts(nodes);
    |instructions| > 0 && |starts| > 0 && Walkers(nodes, instructions, starts)
    && LastEnd(nodes, instructions, starts) <= USIZE_MAX
    && exists m: nat :: 0 < m <= USIZE_MAX && MultipleOfAll(FirstEnds(nodes, instructions, starts), m)
  }

  /** With a walker, some length is recorded. */
  lemma RecordedSome(nodes: seq<Node>, instructions: seq<Instruction>, ws: seq<nat>)
    requires Walkers(nodes, instructions, ws) && |ws| > 0
    ensures |Recorded(nodes, instructions, ws, LastEnd(nodes, instructions, ws) + 1)| >= 1
  {
    RecordedFirstEnds(nodes, instructions, ws, FirstEnd(nodes, instructions, ws[0]));
  }

  /** Some length is recorded, and their lcm, the first that `calculate_lcm` multiplies out, fits in a usize. */
  lemma AnswerFits(nodes: seq<Node>, instructions: seq<Instruction>, lengths: seq<nat>)
    requires Solvable(nodes, instructions)
    requires lengths == Recorded(nodes, instructions, Starts(nodes), LastEnd(nodes, instructions, Starts(nodes)) + 1)
    ensures |lengths| >= 1 && LcmFits(lengths) && LcmOf(lengths) <= USIZE_MAX
  {
    var starts := Starts(nodes);
    RecordedSome(nodes, instructions, starts);
    var m: nat :| 0 < m <= USIZE_MAX && MultipleOfAll(FirstEnds(nodes, instructions, starts), m);
    RecordedAreFirstEnds(nodes, instructions, starts);
    MultipleSameElements(FirstEnds(nodes, instructions, starts), lengths, m);
    FitsBelow(lengths, m);
  }

  /** The walkers' first endings, in their order. */
  ghost function FirstEnds(nodes: seq<Node>, instructions: seq<Instruction>, ws: seq<nat>): (r: seq<nat>)
    requires Walkers(nodes, instructions, ws)
    ensures |r| == |ws|
  {
    if |ws| == 0 then [] else [FirstEnd(nodes, instructions, ws[0])] + FirstEnds(nodes, instructions, ws[1..])
  }

  /** After the last first ending, the recorded lengths are exactly the walkers' first endings. */
  lemma RecordedAreFirstEnds(nodes: seq<Node>, instructions: seq<Instruction>, ws: seq<nat>)
    requires Walkers(nodes, instructions, ws)
    ensures forall x :: x in Recorded(nodes, instructions, ws, LastEnd(nodes, instructions, ws) + 1) <==> x in FirstEnds(nodes, instructions, ws)
  {
    forall x
      ensures x in Recorded(nodes, instructions, ws, LastEnd(nodes, instructions, ws) + 1) <==> x in FirstEnds(nodes, instructions, ws)
    {
      RecordedFirstEnds(nodes, instructions, ws, x);
    }
  }

  /** The walkers' rounds, then the lcm of the recorded lengths. */
  method WalkersSteps(nodes: seq<Node>, instructions: seq<Instruction>) returns (steps: nat)
    requires Solvable(nodes, instructions)
    ensures steps <= USIZE_MAX
    ensures LeastMultipleOfAll(FirstEnds(nodes, instructions, Starts(nodes)), steps)
  {
    var starts := Starts(nodes);
    var lengths := RecordLengths(nodes, instructions, starts);
    assert |lengths| >= 1 && LcmOf(lengths) <= USIZE_MAX by {
      AnswerFits(nodes, instructions, lengths);
    }
    steps := LcmOf(lengths);
    assert LeastMultipleOfAll(FirstEnds(nodes, instructions, starts), steps) by {
      LcmOfLeastMultiple(lengths);
      RecordedAreFirstEnds(nodes, instructions, starts);
      LeastMultipleSameElements(lengths, FirstEnds(nodes, instructions, starts), steps);
    }
  }

  /**
   * `compute_path_steps`: the least number of moves after which every walker
   * would stand on an ending node at once, were each to repeat its path to its
   * first ending: the lcm of the walkers' first endings.
   */
  method ComputePathSteps(input: string) returns (steps: nat)
    requires Solvable(Nodes(input), Instructions(input))
    ensures steps <= USIZE_MAX
    ensures LeastMultipleOfAll(FirstEnds(Nodes(input), Instructions(input), Starts(Nodes(input))), steps)
  {
    steps := WalkersSteps(Nodes(input), Instructions(input));
  }
}
