/**
 * Day 04, part 1: a scratchcard lists winning numbers and owned numbers; it
 * is worth nothing without a match and one point doubled for every further
 * match. The answer sums the values of the cards.
 */
module Day04Part1 {
  import opened Text

  /** `Card`: the id and both sides' `u8` numbers, in order. */
  datatype Card = Card(id: nat, winning: seq<nat>, owned: seq<nat>)

  /** One side of a card: the whitespace-separated tokens that parse as `u8`; other tokens are dropped. */
  function ParseNumbers(side: string): (r: seq<nat>)
    ensures |r| <= |Words(side)|
    ensures forall k :: 0 <= k < |r| ==> r[k] <= U8_MAX
  {
    FilterMapNat(Words(side), U8_MAX)
  }

  /**
   * `parse_card`: the id is the last word before the first ':' and must
   * parse within `idMax` (`u32` here, `usize` in part 2); the rest splits at
   * the first '|' into the winning and the owned side.
   */
  function ParseCard(line: string, idMax: nat): (r: Option<Card>)
    ensures r.Some? ==> ':' in line && r.value.id <= idMax
    ensures r.Some? ==> forall k :: 0 <= k < |r.value.winning| ==> r.value.winning[k] <= U8_MAX
    ensures r.Some? ==> forall k :: 0 <= k < |r.value.owned| ==> r.value.owned[k] <= U8_MAX
  {
    match SplitOnce(line, ':')
    case None => None
    case Some(parts) =>
      match IdOf(parts.0, idMax)
      case None => None
      case Some(id) =>
        match SplitOnce(parts.1, '|')
        case None => None
        case Some(sides) => Some(Card(id, ParseNumbers(sides.0), ParseNumbers(sides.1)))
  }

  /** The id: the last word of the text before the ':', parsed within `idMax`; none without a word. */
  function IdOf(head: string, idMax: nat): (r: Option<nat>)
    ensures r.Some? ==> r.value <= idMax
  {
    var tokens := Words(head);
    if |tokens| == 0 then None else ParseUnsigned(tokens[|tokens| - 1], idMax)
  }

  /** Without a '|' after the ':' there is no card. */
  lemma ParseCardNoBar(line: string, idMax: nat)
    requires SplitOnce(line, ':').Some? && '|' !in SplitOnce(line, ':').value.1
    ensures ParseCard(line, idMax).None?
  {
  }

  /** The puzzle's layout: `Card <id>: <winning> | <owned>`. */
  function RenderCard(card: Card): string {
    "Card " + Decimal(card.id) + ":" + " " + Join(Decimals(card.winning), ' ') + " " + "|" + " " + Join(Decimals(card.owned), ' ')
  }

  predicate CardFits(card: Card, idMax: nat) {
    card.id <= idMax
    && (forall k :: 0 <= k < |card.winning| ==> card.winning[k] <= U8_MAX)
    && (forall k :: 0 <= k < |card.owned| ==> card.owned[k] <= U8_MAX)
  }

  /** A rendered list of numbers holds neither ':' nor '|'. */
  lemma DecimalsFree(xs: seq<nat>)
    ensures ':' !in Join(Decimals(xs), ' ') && '|' !in Join(Decimals(xs), ' ')
  {
    var pieces := Decimals(xs);
    forall k | 0 <= k < |pieces|
      ensures ':' !in pieces[k] && '|' !in pieces[k]
    {
      assert AllDigits(pieces[k]);
    }
    JoinFree(pieces, ' ', ':');
    JoinFree(pieces, ' ', '|');
  }

  /** A side padded with spaces parses back to its numbers. */
  lemma SideNumbers(xs: seq<nat>)
    requires forall k :: 0 <= k < |xs| ==> xs[k] <= U8_MAX
    ensures ParseNumbers(" " + Join(Decimals(xs), ' ') + " ") == xs
    ensures ParseNumbers(" " + Join(Decimals(xs), ' ')) == xs
  {
    var j := Join(Decimals(xs), ' ');
    DecimalsSolid(xs);
    WordsJoin(Decimals(xs));
    SpacedWords(j);
    SpacedWords(" " + j);
    FilterMapNatDecimals(xs, U8_MAX);
  }

  /** The text before the ':' ends with the id's word. */
  lemma HeadWords(id: nat)
    ensures ':' !in "Card " + Decimal(id)
    ensures Words("Card " + Decimal(id)) == ["Card", Decimal(id)]
  {
    var d := Decimal(id);
    DigitsSolid(d);
    assert ':' !in d by {
      forall k | 0 <= k < |d|
        ensures d[k] != ':'
      {
        assert IsDigit(d[k]);
      }
    }
    assert "Card " + d == "Card" + [' '] + d;
    WordsConcat("Card", ' ', d);
    WordsOfWord("Card");
    WordsOfWord(d);
  }

  /** `parse_card`'s steps, once the two splits and the id are known. */
  lemma ParseCardSteps(line: string, idMax: nat, head: string, body: string, id: nat, winning: string, owned: string)
    requires SplitOnce(line, ':') == Some((head, body))
    requires IdOf(head, idMax) == Some(id)
    requires SplitOnce(body, '|') == Some((winning, owned))
    ensures ParseCard(line, idMax) == Some(Card(id, ParseNumbers(winning), ParseNumbers(owned)))
  {
  }

  lemma IdOfRendered(id: nat, idMax: nat)
    requires id <= idMax
    ensures ':' !in "Card " + Decimal(id)
    ensures IdOf("Card " + Decimal(id), idMax) == Some(id)
  {
    HeadWords(id);
    ParseDecimal(id, idMax);
  }

  /** Parsing a rendered card gives the card back. */
  lemma ParseRenderCard(card: Card, idMax: nat)
    requires CardFits(card, idMax)
    ensures ParseCard(RenderCard(card), idMax) == Some(card)
  {
    var head := "Card " + Decimal(card.id);
    var winning := " " + Join(Decimals(card.winning), ' ') + " ";
    var owned := " " + Join(Decimals(card.owned), ' ');
    var body := winning + ['|'] + owned;
    assert RenderCard(card) == head + [':'] + body;
    IdOfRendered(card.id, idMax);
    SplitOnceAt(head, body, ':');
    DecimalsFree(card.winning);
    SplitOnceAt(winning, owned, '|');
    SideNumbers(card.winning);
    SideNumbers(card.owned);
    ParseCardSteps(RenderCard(card), idMax, head, body, card.id, winning, owned);
  }

  // ---------------------------------------------------------------------------
  // Value
  // ---------------------------------------------------------------------------

  /** How many owned numbers, counted with repetition, are among the winning ones. */
  function MatchCount(winning: seq<nat>, owned: seq<nat>): (n: nat)
    ensures n <= |owned|
    ensures n == 0 <==> forall i :: 0 <= i < |owned| ==> owned[i] !in winning
    ensures n == |owned| <==> forall i :: 0 <= i < |owned| ==> owned[i] in winning
  {
    if |owned| == 0 then 0
    else
      var init := owned[..|owned| - 1];
      assert forall i :: 0 <= i < |init| ==> init[i] == owned[i];
      MatchCount(winning, init) + (if owned[|owned| - 1] in winning then 1 else 0)
  }

  /** The count of the owned numbers split anywhere is the sum of both parts' counts. */
  lemma {:induction false} MatchCountAppend(winning: seq<nat>, a: seq<nat>, b: seq<nat>)
    ensures MatchCount(winning, a + b) == MatchCount(winning, a) + MatchCount(winning, b)
  {
    if |b| > 0 {
      var init := b[..|b| - 1];
      assert (a + b)[..|a + b| - 1] == a + init;
      MatchCountAppend(winning, a, init);
    } else {
      assert a + b == a;
    }
  }

  /** `Card::calculate_value`'s filter-and-count, one owned number at a time. */
  method CountMatching(card: Card) returns (n: nat)
    ensures n == MatchCount(card.winning, card.owned)
  {
    n := 0;
    for i := 0 to |card.owned|
      invariant n == MatchCount(card.winning, card.owned[..i])
    {
      assert card.owned[..i + 1][..i] == card.owned[..i];
      if card.owned[i] in card.winning {
        n := n + 1;
      }
    }
    assert card.owned[..|card.owned|] == card.owned;
  }

  function Pow2(e: nat): (p: nat)
    ensures p >= 1
  {
    if e == 0 then 1 else 2 * Pow2(e - 1)
  }

  /** `calculate_value` for `matches` matches: nothing, else 2 to the power `matches - 1`. */
  function Points(matches: nat): nat {
    if matches > 0 then Pow2(matches - 1) else 0
  }

  /** One match is worth one point and every further match doubles the value. */
  lemma PointsDouble(matches: nat)
    ensures Points(0) == 0 && Points(1) == 1
    ensures matches >= 1 ==> Points(matches + 1) == 2 * Points(matches)
  {
  }

  lemma {:induction false} Pow2Monotone(a: nat, b: nat)
    requires a <= b
    ensures Pow2(a) <= Pow2(b)
    decreases b
  {
    if a < b {
      Pow2Monotone(a, b - 1);
    }
  }

  lemma {:induction false} Pow2Add(a: nat, b: nat)
    ensures Pow2(a + b) == Pow2(a) * Pow2(b)
    decreases a
  {
    if a > 0 {
      Pow2Add(a - 1, b);
    }
  }

  lemma Pow2Of32()
    ensures Pow2(31) == 0x8000_0000 && Pow2(32) == 0x1_0000_0000
  {
    var two := Pow2(1);
    var four := Pow2(2);
    Pow2Add(2, 2);
    var p4 := Pow2(4);
    assert p4 == 16;
    Pow2Add(4, 4);
    var p8 := Pow2(8);
    assert p8 == 256;
    Pow2Add(8, 8);
    var p16 := Pow2(16);
    assert p16 == 0x1_0000;
    Pow2Add(16, 16);
  }

  /** `2_u32.pow(matches - 1)` fits exactly when there are at most 32 matches. */
  lemma PointsFit(matches: nat)
    ensures matches <= 32 ==> Points(matches) <= U32_MAX
    ensures matches > 32 ==> Pow2(matches - 1) > U32_MAX
  {
    Pow2Of32();
    if matches > 32 {
      Pow2Monotone(32, matches - 1);
    } else if matches > 0 {
      Pow2Monotone(matches - 1, 31);
    }
  }

  /** The matches of the card a line parses to, if it parses. */
  function LineMatches(line: string): nat {
    match ParseCard(line, U32_MAX) case Some(c) => MatchCount(c.winning, c.owned) case None => 0
  }

  /** What a line adds to the answer. */
  function LineValue(line: string): nat {
    Points(LineMatches(line))
  }

  function ValueSum(lines: seq<string>): nat {
    if |lines| == 0 then 0 else ValueSum(lines[..|lines| - 1]) + LineValue(lines[|lines| - 1])
  }

  lemma ValueSumSnoc(lines: seq<string>, i: nat)
    requires i < |lines|
    ensures ValueSum(lines[..i + 1]) == ValueSum(lines[..i]) + LineValue(lines[i])
  {
    assert lines[..i + 1][..i] == lines[..i];
  }

  /** The value of one line; the `u32` power panics beyond 32 matches. */
  method CardValue(line: string) returns (value: nat)
    requires LineMatches(line) <= 32
    ensures value == LineValue(line)
    ensures value <= U32_MAX
  {
    PointsFit(LineMatches(line));
    value := 0;
    var parsed := ParseCard(line, U32_MAX);
    if parsed.Some? {
      var matches := CountMatching(parsed.value);
      if matches > 0 {
        value := Pow2(matches - 1);
      }
    }
  }

  /** `calculate_card_value`: every power and the `u32` sum must fit. */
  method CardValueSum(lines: seq<string>) returns (total: nat)
    requires forall i :: 0 <= i < |lines| ==> LineMatches(lines[i]) <= 32
    requires ValueSum(lines) <= U32_MAX
    ensures total == ValueSum(lines)
  {
    total := 0;
    for i := 0 to |lines|
      invariant total == ValueSum(lines[..i])
    {
      ValueSumSnoc(lines, i);
      var value := CardValue(lines[i]);
      total := total + value;
    }
    assert lines[..|lines|] == lines;
  }

  /** A rendered card adds the points of its matches. */
  lemma LineValueRendered(card: Card)
    requires CardFits(card, U32_MAX)
    ensures LineValue(RenderCard(card)) == Points(MatchCount(card.winning, card.owned))
  {
    ParseRenderCard(card, U32_MAX);
  }
}

/**
 * Day 04, part 2: a card with id `i` and `k` matches wins a copy of each of
 * the lines at 0-based positions `i .. i + k - 1` (the next `k` cards when
 * ids are 1-based positions); copies win copies in turn. The answer counts
 * every card processed, originals and copies.
 */
module Day04Part2 {
  import opened Text
  import opened Day04Part1

  /** The card a line holds as its id and its matches; a line that does not parse wins nothing. */
  function Won(line: string): (r: (nat, nat))
    ensures r.1 > 0 ==> ParseCard(line, USIZE_MAX).Some?
  {
    match ParseCard(line, USIZE_MAX)
    case Some(c) => (c.id, MatchCount(c.winning, c.owned))
    case None => (0, 0)
  }

  function Min(a: nat, b: nat): nat {
    if a <= b then a else b
  }

  /** The lines at positions `start .. start + count - 1` that exist (`original_lines.get`). */
  function Copies(original: seq<string>, start: nat, count: nat): (r: seq<string>)
    ensures |r| <= count
    ensures forall m :: 0 <= m < |r| ==> start + m < |original| && r[m] == original[start + m]
    ensures |r| == count || start + |r| >= |original|
  {
    if start >= |original| then [] else original[start..Min(start + count, |original|)]
  }

  lemma CopiesSnoc(original: seq<string>, start: nat, count: nat)
    ensures Copies(original, start, count + 1)
      == Copies(original, start, count) + (if start + count < |original| then [original[start + count]] else [])
  {
  }

  /** The copies one round of processing produces, line by line in order. */
  function Round(original: seq<string>, lines: seq<string>, won: string -> (nat, nat)): seq<string> {
    if |lines| == 0 then []
    else
      var last := lines[|lines| - 1];
      Round(original, lines[..|lines| - 1], won) + Copies(original, won(last).0, won(last).1)
  }

  lemma RoundSnoc(original: seq<string>, lines: seq<string>, won: string -> (nat, nat), i: nat)
    requires i < |lines|
    ensures Round(original, lines[..i + 1], won)
      == Round(original, lines[..i], won) + Copies(original, won(lines[i]).0, won(lines[i]).1)
  {
    assert lines[..i + 1][..i] == lines[..i];
  }

  /** Every card with a match wins only lines after its own position, so the copying stops. */
  ghost predicate Forward(original: seq<string>, won: string -> (nat, nat)) {
    forall p :: 0 <= p < |original| ==> won(original[p]).1 == 0 || won(original[p]).0 > p
  }

  /** Ids that are 1-based positions, as in the puzzle, make every card copy only later ones. */
  lemma NumberedForward(original: seq<string>)
    requires forall p :: 0 <= p < |original| && ParseCard(original[p], USIZE_MAX).Some? ==>
      ParseCard(original[p], USIZE_MAX).value.id == p + 1
    ensures Forward(original, Won)
  {
  }

  /** The line is the one at some position from `floor` on. */
  ghost predicate Among(original: seq<string>, line: string, floor: nat) {
    exists p :: floor <= p < |original| && original[p] == line
  }

  /** Every line is the line at some position from `floor` on. */
  ghost predicate From(original: seq<string>, lines: seq<string>, floor: nat) {
    forall k :: 0 <= k < |lines| ==> Among(original, lines[k], floor)
  }

  lemma FromAppend(original: seq<string>, a: seq<string>, b: seq<string>, floor: nat)
    requires From(original, a, floor) && From(original, b, floor)
    ensures From(original, a + b, floor)
  {
    forall k | 0 <= k < |a + b|
      ensures Among(original, (a + b)[k], floor)
    {
      if k < |a| {
        assert (a + b)[k] == a[k];
      } else {
        assert (a + b)[k] == b[k - |a|];
      }
    }
  }

  lemma FromInit(original: seq<string>, lines: seq<string>, floor: nat)
    requires |lines| > 0 && From(original, lines, floor)
    ensures From(original, lines[..|lines| - 1], floor)
    ensures Among(original, lines[|lines| - 1], floor)
  {
    var init := lines[..|lines| - 1];
    forall k | 0 <= k < |init|
      ensures Among(original, init[k], floor)
    {
      assert init[k] == lines[k];
    }
  }

  /** The copies a line at position `p` wins all lie after `p`. */
  lemma CopiesAfter(original: seq<string>, won: string -> (nat, nat), p: nat)
    requires Forward(original, won) && p < |original|
    ensures From(original, Copies(original, won(original[p]).0, won(original[p]).1), p + 1)
  {
    var copies := Copies(original, won(original[p]).0, won(original[p]).1);
    forall m | 0 <= m < |copies|
      ensures Among(original, copies[m], p + 1)
    {
      var q := won(original[p]).0 + m;
      assert p + 1 <= q < |original| && original[q] == copies[m];
    }
  }

  lemma FromLower(original: seq<string>, lines: seq<string>, floor: nat, lower: nat)
    requires From(original, lines, floor) && lower <= floor
    ensures From(original, lines, lower)
  {
  }

  /** A round of copies from lines at positions `floor` on only holds lines after `floor`. */
  lemma {:induction false} RoundFrom(original: seq<string>, lines: seq<string>, won: string -> (nat, nat), floor: nat)
    requires Forward(original, won) && From(original, lines, floor)
    ensures From(original, Round(original, lines, won), floor + 1)
    ensures |Round(original, lines, won)| > 0 ==> floor < |original|
  {
    if |lines| > 0 {
      var init := lines[..|lines| - 1];
      var last := lines[|lines| - 1];
      FromInit(original, lines, floor);
      RoundFrom(original, init, won, floor);
      var p :| floor <= p < |original| && original[p] == last;
      CopiesAfter(original, won, p);
      FromLower(original, Copies(original, won(last).0, won(last).1), p + 1, floor + 1);
      FromAppend(original, Round(original, init, won), Copies(original, won(last).0, won(last).1), floor + 1);
    }
  }

  /**
   * `count_total_cards`: every line processed counts once, then the copies
   * the round produced are processed in turn. `floor` is a position all
   * processed lines come from; it rises every round.
   */
  function TotalCards(original: seq<string>, lines: seq<string>, won: string -> (nat, nat), ghost floor: nat): (total: nat)
    requires Forward(original, won) && From(original, lines, floor)
    ensures total >= |lines|
    decreases |original| - floor
  {
    var round := Round(original, lines, won);
    RoundFrom(original, lines, won, floor);
    |lines| + (if |round| == 0 then 0 else TotalCards(original, round, won, floor + 1))
  }

  // ---------------------------------------------------------------------------
  // Reference: each card counts itself and, recursively, the cards it wins
  // ---------------------------------------------------------------------------

  /** The cards that the card at position `p` amounts to: itself and, recursively, its copies. */
  function Instances(original: seq<string>, won: string -> (nat, nat), p: nat): nat
    requires Forward(original, won) && p < |original|
    decreases |original| - p, 0, 0
  {
    var (id, count) := won(original[p]);
    1 + (if count == 0 then 0
         else RangeInstances(original, won, Min(id, |original|), Min(id + count, |original|)))
  }

  /** The cards that the cards at positions `lo .. hi - 1` amount to. */
  function RangeInstances(original: seq<string>, won: string -> (nat, nat), lo: nat, hi: nat): nat
    requires Forward(original, won) && lo <= hi <= |original|
    decreases |original| - lo, 1, hi - lo
  {
    if lo == hi then 0
    else RangeInstances(original, won, lo, hi - 1) + Instances(original, won, hi - 1)
  }

  /** The cards one line amounts to, read off its content. */
  function LineCards(original: seq<string>, won: string -> (nat, nat), line: string): nat
    requires Forward(original, won)
  {
    var (id, count) := won(line);
    1 + (if count == 0 then 0
         else RangeInstances(original, won, Min(id, |original|), Min(id + count, |original|)))
  }

  function SumCards(original: seq<string>, won: string -> (nat, nat), lines: seq<string>): nat
    requires Forward(original, won)
  {
    if |lines| == 0 then 0
    else SumCards(original, won, lines[..|lines| - 1]) + LineCards(original, won, lines[|lines| - 1])
  }

  lemma {:induction false} SumCardsAppend(original: seq<string>, won: string -> (nat, nat), a: seq<string>, b: seq<string>)
    requires Forward(original, won)
    ensures SumCards(original, won, a + b) == SumCards(original, won, a) + SumCards(original, won, b)
    decreases |b|
  {
    if |b| == 0 {
      assert a + b == a;
    } else {
      assert (a + b)[..|a + b| - 1] == a + b[..|b| - 1];
      SumCardsAppend(original, won, a, b[..|b| - 1]);
    }
  }

  /** The positions `lo .. hi - 1` amount to the cards of the lines there. */
  lemma {:induction false} RangeIsSum(original: seq<string>, won: string -> (nat, nat), lo: nat, hi: nat)
    requires Forward(original, won) && lo <= hi <= |original|
    ensures RangeInstances(original, won, lo, hi) == SumCards(original, won, original[lo..hi])
    decreases hi - lo
  {
    if lo < hi {
      RangeIsSum(original, won, lo, hi - 1);
      assert original[lo..hi][..hi - 1 - lo] == original[lo..hi - 1];
    }
  }

  /** The copies a line wins amount to its cards minus the line itself. */
  lemma CopiesCards(original: seq<string>, won: string -> (nat, nat), line: string)
    requires Forward(original, won)
    ensures LineCards(original, won, line)
      == 1 + SumCards(original, won, Copies(original, won(line).0, won(line).1))
  {
    var (id, count) := won(line);
    if count == 0 {
      assert Copies(original, id, count) == [];
    } else {
      RangeIsSum(original, won, Min(id, |original|), Min(id + count, |original|));
      if id >= |original| {
        assert original[|original|..|original|] == [];
      }
    }
  }

  /** One round's copies amount to the cards of the round's lines minus the lines themselves. */
  lemma {:induction false} RoundCards(original: seq<string>, lines: seq<string>, won: string -> (nat, nat))
    requires Forward(original, won)
    ensures SumCards(original, won, lines) == |lines| + SumCards(original, won, Round(original, lines, won))
  {
    if |lines| > 0 {
      var init := lines[..|lines| - 1];
      var last := lines[|lines| - 1];
      RoundCards(original, init, won);
      CopiesCards(original, won, last);
      SumCardsAppend(original, won, Round(original, init, won), Copies(original, won(last).0, won(last).1));
    }
  }

  /** One round: the lines themselves, then the round of copies they win. */
  lemma TotalCardsStep(original: seq<string>, lines: seq<string>, won: string -> (nat, nat), floor: nat)
    requires Forward(original, won) && From(original, lines, floor)
    ensures From(original, Round(original, lines, won), floor + 1)
    ensures |Round(original, lines, won)| > 0 ==> floor < |original|
    ensures TotalCards(original, lines, won, floor) == |lines|
      + (if |Round(original, lines, won)| == 0 then 0 else TotalCards(original, Round(original, lines, won), won, floor + 1))
  {
    RoundFrom(original, lines, won, floor);
  }

  /** Processing lines round by round counts exactly the cards they amount to. */
  lemma {:induction false} TotalIsSum(original: seq<string>, lines: seq<string>, won: string -> (nat, nat), floor: nat)
    requires Forward(original, won) && From(original, lines, floor)
    ensures TotalCards(original, lines, won, floor) == SumCards(original, won, lines)
    decreases |original| - floor
  {
    var round := Round(original, lines, won);
    TotalCardsStep(original, lines, won, floor);
    RoundCards(original, lines, won);
    if |round| > 0 {
      TotalIsSum(original, round, won, floor + 1);
    }
  }

  /** The answer is the sum, over the cards, of the cards each amounts to. */
  lemma TotalIsInstances(original: seq<string>, won: string -> (nat, nat))
    requires Forward(original, won)
    ensures From(original, original, 0)
    ensures TotalCards(original, original, won, 0) == RangeInstances(original, won, 0, |original|)
  {
    assert From(original, original, 0) by {
      forall k | 0 <= k < |original|
        ensures Among(original, original[k], 0)
      {
        var p := k;
        assert 0 <= p < |original| && original[p] == original[k];
      }
    }
    TotalIsSum(original, original, won, 0);
    RangeIsSum(original, won, 0, |original|);
    assert original[0..|original|] == original;
  }

  // ---------------------------------------------------------------------------
  // The source's loops
  // ---------------------------------------------------------------------------

  /** The id and matches of one line, as the loop body computes them. */
  method Wins(line: string) returns (id: nat, count: nat)
    ensures (id, count) == Won(line)
  {
    id, count := 0, 0;
    var parsed := ParseCard(line, USIZE_MAX);
    if parsed.Some? {
      id := parsed.value.id;
      count := CountMatching(parsed.value);
    }
  }

  /** The inner loop: push every existing line among the `count` after `start`. */
  method PushCopies(original: seq<string>, copied: seq<string>, start: nat, count: nat) returns (r: seq<string>)
    ensures r == copied + Copies(original, start, count)
  {
    r := copied;
    for n := 0 to count
      invariant r == copied + Copies(original, start, n)
    {
      CopiesSnoc(original, start, n);
      if start + n < |original| {
        r := r + [original[start + n]];
      }
    }
  }

  /** `count_total_cards` with `won` fixed to the parsed cards. */
  method CountTotalCards(original: seq<string>, lines: seq<string>, ghost floor: nat) returns (total: nat)
    requires Forward(original, Won) && From(original, lines, floor)
    ensures total == TotalCards(original, lines, Won, floor)
    decreases |original| - floor
  {
    var copied: seq<string> := [];
    total := 0;
    for i := 0 to |lines|
      invariant total == i
      invariant copied == Round(original, lines[..i], Won)
    {
      total := total + 1;
      RoundSnoc(original, lines, Won, i);
      var id, count := Wins(lines[i]);
      copied := PushCopies(original, copied, id, count);
    }
    assert lines[..|lines|] == lines;
    RoundFrom(original, lines, Won, floor);
    if |copied| > 0 {
      var more := CountTotalCards(original, copied, floor + 1);
      total := total + more;
    }
  }
}
