/**
 * Camel Cards: the hand logic shared by both parts of day 7.
 *
 * A card is represented by its rank, the position of its value in the
 * `CardValue` declaration order (the derived `Ord`), so 0 is the weakest.
 * Classification counts how many cards each of the 13 values has; ordering is
 * by hand type, then card by card; winnings weight each bid by its rank in the
 * stably sorted list.
 */
module CamelCards {
  import opened Text

  /** Number of card values; ranks are `0 .. CARD_VALUES - 1`. */
  const CARD_VALUES: nat := 13
  /** A hand is five cards. */
  const HAND_SIZE: nat := 5

  type Rank = r: nat | r < CARD_VALUES

  /** Declared weakest first, as the derived `Ord` compares them. */
  datatype HandType =
    | HighCard
    | OnePair
    | TwoPair
    | ThreeOfAKind
    | FullHouse
    | FourOfAKind
    | FiveOfAKind

  function TypeRank(t: HandType): nat {
    match t
    case HighCard => 0
    case OnePair => 1
    case TwoPair => 2
    case ThreeOfAKind => 3
    case FullHouse => 4
    case FourOfAKind => 5
    case FiveOfAKind => 6
  }

  /** The stronger of two hand types. */
  function MaxType(a: HandType, b: HandType): (r: HandType)
    ensures r == a || r == b
    ensures TypeRank(r) >= TypeRank(a) && TypeRank(r) >= TypeRank(b)
  {
    if TypeRank(b) > TypeRank(a) then b else a
  }

  datatype Hand = Hand(cards: seq<Rank>, handType: HandType, bid: nat)

  datatype Ordering = Less | Equal | Greater

  function Reverse(o: Ordering): Ordering {
    match o
    case Less => Greater
    case Equal => Equal
    case Greater => Less
  }

  // ---------------------------------------------------------------------------
  // Classification
  // ---------------------------------------------------------------------------

  /** How many cards of the hand have rank `v` (`filter(..).count()`). */
  function CountOf(cards: seq<Rank>, v: Rank): (n: nat)
    ensures n <= |cards|
  {
    if |cards| == 0 then 0 else (if cards[0] == v then 1 else 0) + CountOf(cards[1..], v)
  }

  /** The `found_cards` table: entry `v` is how many cards have rank `v`. */
  function Counts(cards: seq<Rank>): (counts: seq<nat>)
    ensures |counts| == CARD_VALUES
    ensures forall v: Rank :: counts[v] == CountOf(cards, v)
  {
    seq(CARD_VALUES, v requires 0 <= v < CARD_VALUES => CountOf(cards, v))
  }

  /** How many entries of the count table equal `k`. */
  function Tally(counts: seq<nat>, k: nat): nat {
    if |counts| == 0 then 0 else (if counts[0] == k then 1 else 0) + Tally(counts[1..], k)
  }

  function Total(counts: seq<nat>): nat {
    if |counts| == 0 then 0 else counts[0] + Total(counts[1..])
  }

  /**
   * The count-based classification: a value seen five times, four times,
   * three times with or without a pair, two pairs, one pair, or nothing.
   */
  function NaturalType(cards: seq<Rank>): HandType {
    var counts := Counts(cards);
    TypeOfTallies(Tally(counts, 2), Tally(counts, 3), Tally(counts, 4), Tally(counts, 5))
  }

  /** The decision chain of `get_hand_type` on the numbers of pairs, triples, quads and quints. */
  function TypeOfTallies(twos: nat, threes: nat, fours: nat, fives: nat): HandType {
    if fives > 0 then FiveOfAKind
    else if fours > 0 then FourOfAKind
    else if threes > 0 then (if twos > 0 then FullHouse else ThreeOfAKind)
    else if twos > 0 then (if twos == 1 then OnePair else TwoPair)
    else HighCard
  }

  /** The per-value count is the multiplicity of the value in the hand. */
  lemma {:induction false} CountOfMultiset(cards: seq<Rank>, v: Rank)
    ensures CountOf(cards, v) == multiset(cards)[v]
  {
    if |cards| > 0 {
      CountOfMultiset(cards[1..], v);
      assert cards == [cards[0]] + cards[1..];
      assert multiset(cards) == multiset{cards[0]} + multiset(cards[1..]);
    }
  }

  /** The classification depends only on the multiset of cards, not their order. */
  lemma {:induction false} NaturalTypePermutation(a: seq<Rank>, b: seq<Rank>)
    requires multiset(a) == multiset(b)
    ensures NaturalType(a) == NaturalType(b)
  {
    forall v: Rank ensures CountOf(a, v) == CountOf(b, v) {
      CountOfMultiset(a, v);
      CountOfMultiset(b, v);
    }
    assert Counts(a) == Counts(b);
  }

  /** Adding one card of rank `r` to a hand adds one to entry `r` of its table. */
  lemma {:induction false} TotalBump(counts: seq<nat>, bumped: seq<nat>, r: nat)
    requires |counts| == |bumped| && r < |counts|
    requires bumped[r] == counts[r] + 1
    requires forall v :: 0 <= v < |counts| && v != r ==> bumped[v] == counts[v]
    ensures Total(bumped) == Total(counts) + 1
  {
    if r > 0 {
      TotalBump(counts[1..], bumped[1..], r - 1);
    } else {
      assert counts[1..] == bumped[1..];
    }
  }

  lemma {:induction false} TotalZero(counts: seq<nat>)
    requires forall v :: 0 <= v < |counts| ==> counts[v] == 0
    ensures Total(counts) == 0
  {
    if |counts| > 0 {
      TotalZero(counts[1..]);
    }
  }

  /** Every card is counted under exactly one value. */
  lemma {:induction false} TotalIsSize(cards: seq<Rank>)
    ensures Total(Counts(cards)) == |cards|
  {
    if |cards| == 0 {
      TotalZero(Counts(cards));
    } else {
      TotalIsSize(cards[1..]);
      TotalBump(Counts(cards[1..]), Counts(cards), cards[0]);
    }
  }

  /** With entries at most five, the total is Σ k·(entries equal to k). */
  lemma {:induction false} TotalByTally(counts: seq<nat>)
    requires forall v :: 0 <= v < |counts| ==> counts[v] <= HAND_SIZE
    ensures Total(counts) ==
      Tally(counts, 1) + 2 * Tally(counts, 2) + 3 * Tally(counts, 3)
      + 4 * Tally(counts, 4) + 5 * Tally(counts, 5)
  {
    if |counts| > 0 {
      TotalByTally(counts[1..]);
    }
  }

  /**
   * The multiplicities of a five-card hand form a partition of 5, and the
   * hand type names that partition: 5, 4+1, 3+2, 3+1+1, 2+2+1, 2+1+1+1 or
   * 1+1+1+1+1.
   */
  lemma {:induction false} Classification(cards: seq<Rank>)
    requires |cards| == HAND_SIZE
    ensures var counts := Counts(cards);
      PartitionType(NaturalType(cards), Tally(counts, 1), Tally(counts, 2),
                    Tally(counts, 3), Tally(counts, 4), Tally(counts, 5))
  {
    var counts := Counts(cards);
    TotalIsSize(cards);
    TotalByTally(counts);
    PartitionsOfFive(Tally(counts, 1), Tally(counts, 2), Tally(counts, 3), Tally(counts, 4), Tally(counts, 5));
  }

  /** `t` is the hand type whose partition of 5 has the given numbers of 1s, 2s, 3s, 4s and 5s. */
  predicate PartitionType(t: HandType, ones: nat, twos: nat, threes: nat, fours: nat, fives: nat) {
    && (t == FiveOfAKind <==> fives == 1)
    && (t == FourOfAKind <==> fours == 1 && ones == 1)
    && (t == FullHouse <==> threes == 1 && twos == 1)
    && (t == ThreeOfAKind <==> threes == 1 && ones == 2)
    && (t == TwoPair <==> twos == 2 && ones == 1)
    && (t == OnePair <==> twos == 1 && ones == 3)
    && (t == HighCard <==> ones == 5)
  }

  lemma {:induction false} PartitionsOfFive(ones: nat, twos: nat, threes: nat, fours: nat, fives: nat)
    requires ones + 2 * twos + 3 * threes + 4 * fours + 5 * fives == HAND_SIZE
    ensures PartitionType(TypeOfTallies(twos, threes, fours, fives), ones, twos, threes, fours, fives)
  {
  }

  // ---------------------------------------------------------------------------
  // Ordering
  // ---------------------------------------------------------------------------

  /** Card-by-card comparison over the first hand's length (`Hand::cmp`'s loop). */
  function CompareCards(a: seq<Rank>, b: seq<Rank>): Ordering
    requires |a| <= |b|
  {
    if |a| == 0 then Equal
    else if a[0] == b[0] then CompareCards(a[1..], b[1..])
    else if a[0] < b[0] then Less
    else Greater
  }

  /** `Hand::cmp`: hand type first, then the cards in order; the bid plays no part. */
  function Cmp(a: Hand, b: Hand): Ordering
    requires |a.cards| <= |b.cards|
  {
    if a.handType == b.handType then CompareCards(a.cards, b.cards)
    else if TypeRank(a.handType) < TypeRank(b.handType) then Less
    else Greater
  }

  /** Lexicographic order on equal-length card sequences. */
  predicate LexLess(a: seq<Rank>, b: seq<Rank>) {
    exists i :: 0 <= i < |a| && i < |b| && a[..i] == b[..i] && a[i] < b[i]
  }

  /** Lexicographic order decided at the first position, or left to the rest. */
  lemma {:induction false} LexLessCons(a: seq<Rank>, b: seq<Rank>)
    requires |a| == |b| > 0
    ensures LexLess(a, b) <==> a[0] < b[0] || (a[0] == b[0] && LexLess(a[1..], b[1..]))
  {
    if LexLess(a, b) {
      var i :| 0 <= i < |a| && a[..i] == b[..i] && a[i] < b[i];
      if i > 0 {
        assert a[0] == a[..i][0] == b[..i][0] == b[0];
        assert a[1..][..i - 1] == a[..i][1..];
        assert b[1..][..i - 1] == b[..i][1..];
        assert a[1..][i - 1] == a[i] && b[1..][i - 1] == b[i];
      }
    }
    if a[0] < b[0] {
      assert a[..0] == b[..0];
    }
    if a[0] == b[0] && LexLess(a[1..], b[1..]) {
      var i :| 0 <= i < |a| - 1 && a[1..][..i] == b[1..][..i] && a[1..][i] < b[1..][i];
      assert a[..i + 1] == [a[0]] + a[1..][..i];
      assert b[..i + 1] == [b[0]] + b[1..][..i];
    }
  }

  lemma {:induction false} CompareCardsSpec(a: seq<Rank>, b: seq<Rank>)
    requires |a| == |b|
    ensures CompareCards(a, b) == Equal <==> a == b
    ensures CompareCards(a, b) == Less <==> LexLess(a, b)
    ensures CompareCards(a, b) == Greater <==> LexLess(b, a)
  {
    if |a| > 0 {
      CompareCardsSpec(a[1..], b[1..]);
      LexLessCons(a, b);
      LexLessCons(b, a);
      assert a == [a[0]] + a[1..];
      assert b == [b[0]] + b[1..];
    }
  }

  /**
   * `Hand::cmp` is the lexicographic order on (hand type, cards): a hand is
   * smaller when its type is weaker, or the types agree and its cards are
   * lexicographically smaller; two hands are equal exactly when type and
   * cards agree.
   */
  lemma {:induction false} CmpSpec(a: Hand, b: Hand)
    requires |a.cards| == |b.cards|
    ensures Cmp(a, b) == Equal <==> a.handType == b.handType && a.cards == b.cards
    ensures Cmp(a, b) == Less <==>
      TypeRank(a.handType) < TypeRank(b.handType)
      || (a.handType == b.handType && LexLess(a.cards, b.cards))
    ensures Cmp(b, a) == Reverse(Cmp(a, b))
  {
    CompareCardsSpec(a.cards, b.cards);
    CompareCardsSpec(b.cards, a.cards);
  }

  lemma {:induction false} LexLessTransitive(a: seq<Rank>, b: seq<Rank>, c: seq<Rank>)
    requires |a| == |b| == |c|
    requires LexLess(a, b) && LexLess(b, c)
    ensures LexLess(a, c)
  {
    var i :| 0 <= i < |a| && a[..i] == b[..i] && a[i] < b[i];
    var j :| 0 <= j < |b| && b[..j] == c[..j] && b[j] < c[j];
    var m := if i < j then i else j;
    assert a[..m] == c[..m] by {
      assert a[..m] == a[..i][..m];
      assert b[..m] == b[..i][..m];
      assert b[..m] == b[..j][..m];
      assert c[..m] == c[..j][..m];
    }
    if i < j {
      assert b[i] == b[..j][i] == c[..j][i] == c[i];
    } else if j < i {
      assert a[j] == a[..i][j] == b[..i][j] == b[j];
    }
    assert a[m] < c[m];
  }

  predicate LessOrEqual(a: Hand, b: Hand)
    requires |a.cards| == |b.cards|
  {
    Cmp(a, b) != Greater
  }

  /** `Hand::cmp` is transitive, so sorting by it is well defined. */
  lemma {:induction false} CmpTransitive(a: Hand, b: Hand, c: Hand)
    requires |a.cards| == |b.cards| == |c.cards|
    requires LessOrEqual(a, b) && LessOrEqual(b, c)
    ensures LessOrEqual(a, c)
    ensures Cmp(a, b) == Less || Cmp(b, c) == Less ==> Cmp(a, c) == Less
  {
    CmpSpec(a, b);
    CmpSpec(b, c);
    CmpSpec(a, c);
    if a.handType == b.handType == c.handType && LexLess(a.cards, b.cards) && LexLess(b.cards, c.cards) {
      LexLessTransitive(a.cards, b.cards, c.cards);
    }
  }

  // ---------------------------------------------------------------------------
  // Sorting and winnings
  // ---------------------------------------------------------------------------

  /** Hands as `parse_hand` builds them: five cards each. */
  predicate AllHands(hands: seq<Hand>) {
    forall i :: 0 <= i < |hands| ==> |hands[i].cards| == HAND_SIZE
  }

  predicate Sorted(hands: seq<Hand>)
    requires AllHands(hands)
  {
    forall i, j :: 0 <= i < j < |hands| ==> LessOrEqual(hands[i], hands[j])
  }

  /** Everything `Hand::eq` looks at. */
  function Key(h: Hand): (HandType, seq<Rank>) {
    (h.handType, h.cards)
  }

  /** Inserts `h` after every hand not greater than it. */
  function Insert(sorted: seq<Hand>, h: Hand): (r: seq<Hand>)
    requires AllHands(sorted) && |h.cards| == HAND_SIZE
    ensures AllHands(r) && |r| == |sorted| + 1
    ensures multiset(r) == multiset(sorted) + multiset{h}
  {
    if |sorted| == 0 then [h]
    else if Cmp(h, sorted[0]) == Less then [h] + sorted
    else
      var r := [sorted[0]] + Insert(sorted[1..], h);
      assert sorted == [sorted[0]] + sorted[1..];
      r
  }

  /** `slice::sort`: a stable sort by `Hand::cmp`, modelled as insertion sort. */
  function Sort(hands: seq<Hand>): (r: seq<Hand>)
    requires AllHands(hands)
    ensures AllHands(r) && |r| == |hands|
    ensures multiset(r) == multiset(hands)
  {
    if |hands| == 0 then []
    else
      var init := hands[..|hands| - 1];
      assert hands == init + [hands[|hands| - 1]];
      Insert(Sort(init), hands[|hands| - 1])
  }

  lemma {:induction false} SortedTail(hands: seq<Hand>)
    requires AllHands(hands) && Sorted(hands) && |hands| > 0
    ensures AllHands(hands[1..]) && Sorted(hands[1..])
  {
    var tail := hands[1..];
    forall i, j | 0 <= i < j < |tail| ensures LessOrEqual(tail[i], tail[j]) {
      assert tail[i] == hands[i + 1] && tail[j] == hands[j + 1];
    }
  }

  lemma {:induction false} InsertSorted(sorted: seq<Hand>, h: Hand)
    requires AllHands(sorted) && |h.cards| == HAND_SIZE && Sorted(sorted)
    ensures Sorted(Insert(sorted, h))
  {
    var r := Insert(sorted, h);
    if |sorted| == 0 {
    } else if Cmp(h, sorted[0]) == Less {
      forall j | 1 <= j < |r| ensures LessOrEqual(h, r[j]) {
        if j > 1 {
          CmpTransitive(h, sorted[0], r[j]);
        }
      }
    } else {
      CmpSpec(h, sorted[0]);
      InsertSorted(sorted[1..], h);
      var tail := Insert(sorted[1..], h);
      assert r == [sorted[0]] + tail;
      forall j | 0 <= j < |tail| ensures LessOrEqual(sorted[0], tail[j]) {
        assert tail[j] in multiset(tail);
        assert tail[j] in multiset(sorted[1..]) + multiset{h};
        if tail[j] != h {
          assert tail[j] in sorted[1..];
        }
      }
    }
  }

  /** The sorted list is ascending under `Hand::cmp`. */
  lemma {:induction false} SortSorted(hands: seq<Hand>)
    requires AllHands(hands)
    ensures Sorted(Sort(hands))
  {
    if |hands| > 0 {
      SortSorted(hands[..|hands| - 1]);
      InsertSorted(Sort(hands[..|hands| - 1]), hands[|hands| - 1]);
    }
  }

  /** The hands tying with `k` among `[h]`. */
  function Own(h: Hand, k: (HandType, seq<Rank>)): seq<Hand> {
    if Key(h) == k then [h] else []
  }

  /** The hands whose `Key` is `k`, in order. */
  function Ties(hands: seq<Hand>, k: (HandType, seq<Rank>)): seq<Hand> {
    if |hands| == 0 then []
    else Own(hands[0], k) + Ties(hands[1..], k)
  }

  lemma {:induction false} TiesAppend(a: seq<Hand>, b: seq<Hand>, k: (HandType, seq<Rank>))
    ensures Ties(a + b, k) == Ties(a, k) + Ties(b, k)
  {
    if |a| == 0 {
      assert a + b == b;
    } else {
      assert (a + b)[1..] == a[1..] + b;
      TiesAppend(a[1..], b, k);
    }
  }

  /** Putting one more hand in front of both sides keeps a tie-order equation. */
  lemma {:induction false} InsertTiesStep(x: Hand, rest: seq<Hand>, tail: seq<Hand>, h: Hand, k: (HandType, seq<Rank>))
    requires Ties(tail, k) == Ties(rest, k) + Own(h, k)
    ensures Ties([x] + tail, k) == Ties([x] + rest, k) + Own(h, k)
  {
    TiesCons(x, tail, k);
    TiesCons(x, rest, k);
    var a, b, c := Own(x, k), Ties(rest, k), Own(h, k);
    assert a + (b + c) == (a + b) + c;
  }

  lemma {:induction false} TiesCons(x: Hand, rest: seq<Hand>, k: (HandType, seq<Rank>))
    ensures Ties([x] + rest, k) == Own(x, k) + Ties(rest, k)
  {
    assert ([x] + rest)[1..] == rest;
  }

  /** Inserting `h` in front keeps the tie order when nothing after it ties with `h`. */
  lemma {:induction false} InsertTiesFront(sorted: seq<Hand>, h: Hand, k: (HandType, seq<Rank>))
    requires AllHands(sorted) && |h.cards| == HAND_SIZE && |sorted| > 0
    requires Cmp(h, sorted[0]) == Less
    requires Key(h) == k ==> Ties(sorted, k) == []
    ensures Ties(Insert(sorted, h), k) == Ties(sorted, k) + Own(h, k)
  {
    var r := [h] + sorted;
    assert Insert(sorted, h) == r;
    assert r[1..] == sorted;
  }

  lemma {:induction false} InsertTies(sorted: seq<Hand>, h: Hand, k: (HandType, seq<Rank>))
    requires AllHands(sorted) && |h.cards| == HAND_SIZE && Sorted(sorted)
    ensures Ties(Insert(sorted, h), k) == Ties(sorted, k) + Own(h, k)
  {
    if |sorted| == 0 {
      assert Ties([h], k) == Own(h, k) + Ties([h][1..], k);
    } else if Cmp(h, sorted[0]) == Less {
      if Key(h) == k {
        // every hand in `sorted` is strictly above `h`, so none ties with it
        NoTiesAbove(sorted, h);
      }
      InsertTiesFront(sorted, h, k);
    } else {
      SortedTail(sorted);
      InsertTies(sorted[1..], h, k);
      InsertTiesStep(sorted[0], sorted[1..], Insert(sorted[1..], h), h, k);
      assert sorted == [sorted[0]] + sorted[1..];
    }
  }

  lemma {:induction false} NoTiesAbove(sorted: seq<Hand>, h: Hand)
    requires AllHands(sorted) && |h.cards| == HAND_SIZE && Sorted(sorted)
    requires |sorted| > 0 && Cmp(h, sorted[0]) == Less
    ensures Ties(sorted, Key(h)) == []
    decreases |sorted|
  {
    CmpSpec(h, sorted[0]);
    if |sorted| > 1 {
      CmpTransitive(h, sorted[0], sorted[1]);
      NoTiesAbove(sorted[1..], h);
    }
  }

  /**
   * `Sort` is stable: hands that compare Equal (same type and cards, possibly
   * different bids) keep their input order.
   */
  lemma {:induction false} SortStable(hands: seq<Hand>, k: (HandType, seq<Rank>))
    requires AllHands(hands)
    ensures Ties(Sort(hands), k) == Ties(hands, k)
  {
    if |hands| > 0 {
      var init := hands[..|hands| - 1];
      var last := hands[|hands| - 1];
      assert hands == init + [last];
      TiesAppend(init, [last], k);
      var sorted := Sort(init);
      assert Sort(hands) == Insert(sorted, last);
      SortSorted(init);
      InsertTies(sorted, last, k);
      SortStable(init, k);
      assert Ties([last], k) == Own(last, k);
    }
  }

  /** Σ (rank)·bid over a list whose first hand has rank `rank`. */
  function Weighted(hands: seq<Hand>, rank: nat): nat {
    if |hands| == 0 then 0 else rank * hands[0].bid + Weighted(hands[1..], rank + 1)
  }

  lemma {:induction false} WeightedSnoc(hands: seq<Hand>, h: Hand, rank: nat)
    ensures Weighted(hands + [h], rank) == Weighted(hands, rank) + (rank + |hands|) * h.bid
  {
    if |hands| == 0 {
      assert hands + [h] == [h];
    } else {
      assert (hands + [h])[1..] == hands[1..] + [h];
      WeightedSnoc(hands[1..], h, rank + 1);
    }
  }

  /** The loop of `calculate_winnings`: Σ (index + 1)·bid over the sorted hands. */
  method Winnings(sorted: seq<Hand>) returns (value: nat)
    ensures value == Weighted(sorted, 1)
  {
    value := 0;
    var index := 0;
    while index < |sorted|
      invariant index <= |sorted|
      invariant value == Weighted(sorted[..index], 1)
    {
      WeightedSnoc(sorted[..index], sorted[index], 1);
      assert sorted[..index + 1] == sorted[..index] + [sorted[index]];
      value := value + (index + 1) * sorted[index].bid;
      index := index + 1;
    }
    assert sorted[..index] == sorted;
  }

  /** Two sorted lists with the same hands, no two of them tied, are equal. */
  lemma {:induction false} SortedUnique(a: seq<Hand>, b: seq<Hand>)
    requires AllHands(a) && AllHands(b) && Sorted(a) && Sorted(b)
    requires multiset(a) == multiset(b)
    requires forall i, j :: 0 <= i < j < |a| ==> Key(a[i]) != Key(a[j])
    ensures a == b
  {
    assert |a| == |multiset(a)| == |b|;
    if |a| > 0 {
      assert a == [a[0]] + a[1..];
      assert b == [b[0]] + b[1..];
      SortedHeads(a, b);
      MultisetTail(a, b);
      SortedUnique(a[1..], b[1..]);
    }
  }

  lemma {:induction false} MultisetTail<T>(a: seq<T>, b: seq<T>)
    requires multiset(a) == multiset(b) && |a| > 0 && |b| > 0 && a[0] == b[0]
    ensures multiset(a[1..]) == multiset(b[1..])
  {
    assert a == [a[0]] + a[1..];
    assert b == [b[0]] + b[1..];
    assert multiset(a) == multiset{a[0]} + multiset(a[1..]);
    assert multiset(b) == multiset{b[0]} + multiset(b[1..]);
    assert multiset(a[1..]) == multiset(a) - multiset{a[0]};
    assert multiset(b[1..]) == multiset(b) - multiset{b[0]};
  }

  /** The first element of a sorted list is its unique least element. */
  lemma {:induction false} SortedHeads(a: seq<Hand>, b: seq<Hand>)
    requires AllHands(a) && AllHands(b) && Sorted(a) && Sorted(b)
    requires multiset(a) == multiset(b) && |a| > 0
    requires forall i, j :: 0 <= i < j < |a| ==> Key(a[i]) != Key(a[j])
    ensures a[0] == b[0]
  {
    assert a[0] in multiset(b);
    assert b[0] in multiset(a);
    var i :| 0 <= i < |b| && b[i] == a[0];
    var j :| 0 <= j < |a| && a[j] == b[0];
    CmpSpec(a[0], a[0]);
    assert LessOrEqual(b[0], a[0]) by {
      if i > 0 { assert LessOrEqual(b[0], b[i]); }
    }
    assert LessOrEqual(a[0], b[0]) by {
      if j > 0 { assert LessOrEqual(a[0], a[j]); }
    }
    CmpSpec(a[0], b[0]);
    assert Key(a[0]) == Key(a[j]);
    assert j == 0;
  }

  /**
   * When no two hands tie, the sorted list, and with it the winnings, does
   * not depend on the order of the input lines.
   */
  lemma {:induction false} SortOrderIndependent(a: seq<Hand>, b: seq<Hand>)
    requires AllHands(a) && AllHands(b) && multiset(a) == multiset(b)
    requires forall i, j :: 0 <= i < j < |a| ==> Key(a[i]) != Key(a[j])
    ensures Sort(a) == Sort(b)
  {
    var sa, sb := Sort(a), Sort(b);
    SortSorted(a);
    SortSorted(b);
    forall i, j | 0 <= i < j < |sa| ensures Key(sa[i]) != Key(sa[j]) {
      TiesCount(a, sa, i, j);
    }
    SortedUnique(sa, sb);
  }

  lemma {:induction false} TiesCount(a: seq<Hand>, sa: seq<Hand>, i: nat, j: nat)
    requires AllHands(a) && sa == Sort(a)
    requires forall p, q :: 0 <= p < q < |a| ==> Key(a[p]) != Key(a[q])
    requires i < j < |sa|
    ensures Key(sa[i]) != Key(sa[j])
  {
    var k := Key(sa[i]);
    SortStable(a, k);
    TiesAtMostOne(a, k);
    if Key(sa[j]) == k {
      TiesHasTwo(sa, k, i, j);
    }
  }

  lemma {:induction false} TiesHasTwo(s: seq<Hand>, k: (HandType, seq<Rank>), i: nat, j: nat)
    requires i < j < |s| && Key(s[i]) == k && Key(s[j]) == k
    ensures |Ties(s, k)| >= 2
  {
    if i > 0 {
      TiesHasTwo(s[1..], k, i - 1, j - 1);
    } else {
      TiesHasOne(s[1..], k, j - 1);
    }
  }

  lemma {:induction false} TiesHasOne(s: seq<Hand>, k: (HandType, seq<Rank>), j: nat)
    requires j < |s| && Key(s[j]) == k
    ensures |Ties(s, k)| >= 1
  {
    if j > 0 {
      TiesHasOne(s[1..], k, j - 1);
    }
  }

  lemma {:induction false} TiesAtMostOne(s: seq<Hand>, k: (HandType, seq<Rank>))
    requires forall p, q :: 0 <= p < q < |s| ==> Key(s[p]) != Key(s[q])
    ensures |Ties(s, k)| <= 1
  {
    if |s| > 0 {
      TiesAtMostOne(s[1..], k);
      if Key(s[0]) == k {
        TiesNone(s[1..], k);
      }
    }
  }

  lemma {:induction false} TiesNone(s: seq<Hand>, k: (HandType, seq<Rank>))
    requires forall p :: 0 <= p < |s| ==> Key(s[p]) != k
    ensures Ties(s, k) == []
  {
    if |s| > 0 {
      TiesNone(s[1..], k);
    }
  }
}

/** Day 7, part 1: Camel Cards with 'J' as the Jack. */
module Day07Part1 {
  import opened Text
  import opened CamelCards

  datatype CardValue =
    | Two | Three | Four | Five | Six | Seven | Eight | Nine
    | Ten | Jack | Queen | King | Ace

  /** The card characters, weakest first. */
  const CARD_CHARS: string := "23456789TJQKA"

  function RankOf(v: CardValue): Rank {
    match v
    case Two => 0
    case Three => 1
    case Four => 2
    case Five => 3
    case Six => 4
    case Seven => 5
    case Eight => 6
    case Nine => 7
    case Ten => 8
    case Jack => 9
    case Queen => 10
    case King => 11
    case Ace => 12
  }

  /** `CardValue::from_char`. */
  function FromChar(c: char): Option<CardValue> {
    match c
    case '2' => Some(Two)
    case '3' => Some(Three)
    case '4' => Some(Four)
    case '5' => Some(Five)
    case '6' => Some(Six)
    case '7' => Some(Seven)
    case '8' => Some(Eight)
    case '9' => Some(Nine)
    case 'T' => Some(Ten)
    case 'J' => Some(Jack)
    case 'Q' => Some(Queen)
    case 'K' => Some(King)
    case 'A' => Some(Ace)
    case _ => None
  }

  /**
   * `from_char` accepts exactly the thirteen card characters, and the i-th
   * of them (weakest first) is the value of rank i.
   */
  lemma {:induction false} FromCharTable()
    ensures forall c :: FromChar(c).Some? <==> c in CARD_CHARS
    ensures forall i :: 0 <= i < |CARD_CHARS| ==>
      FromChar(CARD_CHARS[i]).Some? && RankOf(FromChar(CARD_CHARS[i]).value) == i
  {
  }

  function Ranks(cards: seq<CardValue>): (r: seq<Rank>)
    ensures |r| == |cards|
    ensures forall i :: 0 <= i < |cards| ==> r[i] == RankOf(cards[i])
  {
    if |cards| == 0 then [] else [RankOf(cards[0])] + Ranks(cards[1..])
  }

  /** The cards of a hand string; every character must be a card (`from_char(c).unwrap()`). */
  function ParseCards(s: string): (r: seq<CardValue>)
    requires forall i :: 0 <= i < |s| ==> FromChar(s[i]).Some?
    ensures |r| == |s|
    ensures forall i :: 0 <= i < |s| ==> r[i] == FromChar(s[i]).value
  {
    if |s| == 0 then [] else [FromChar(s[0]).value] + ParseCards(s[1..])
  }

  /** The line does not make `parse_hand` panic: every character before the first space is a card. */
  predicate KnownCards(line: string) {
    match SplitOnce(line, ' ')
    case None => true
    case Some((cards, _)) => forall i :: 0 <= i < |cards| ==> FromChar(cards[i]).Some?
  }

  /** `parse_hand`. */
  function ParseHand(line: string): (r: Option<Hand>)
    requires KnownCards(line)
    ensures r.Some? ==> |r.value.cards| == HAND_SIZE && r.value.bid <= U32_MAX
    ensures r.Some? ==> r.value.handType == NaturalType(r.value.cards)
    ensures r.None? <==>
      SplitOnce(line, ' ').None?
      || |SplitOnce(line, ' ').value.0| != HAND_SIZE
      || ParseUnsigned(SplitOnce(line, ' ').value.1, U32_MAX).None?
  {
    match SplitOnce(line, ' ')
    case None => None
    case Some((handString, bidString)) =>
      var cards := Ranks(ParseCards(handString));
      if |cards| != HAND_SIZE then None
      else match ParseUnsigned(bidString, U32_MAX)
        case None => None
        case Some(bid) => Some(Hand(cards, NaturalType(cards), bid))
  }

  function CardChar(r: Rank): (c: char)
    ensures FromChar(c).Some? && RankOf(FromChar(c).value) == r
  {
    FromCharTable();
    CARD_CHARS[r]
  }

  /** The line a hand is written as: its five card characters, a space, the bid. */
  function Render(h: Hand): (line: string)
    requires |h.cards| == HAND_SIZE
  {
    seq(HAND_SIZE, i requires 0 <= i < HAND_SIZE => CardChar(h.cards[i])) + " " + Decimal(h.bid)
  }

  /** Parsing a rendered hand gives the hand back. */
  lemma {:induction false} ParseRender(h: Hand)
    requires |h.cards| == HAND_SIZE && h.bid <= U32_MAX && h.handType == NaturalType(h.cards)
    ensures KnownCards(Render(h)) && ParseHand(Render(h)) == Some(h)
  {
    var cardString := seq(HAND_SIZE, i requires 0 <= i < HAND_SIZE => CardChar(h.cards[i]));
    var line := Render(h);
    assert ' ' !in cardString;
    assert line == cardString + [' '] + Decimal(h.bid);
    assert SplitOnce(line, ' ') == Some((cardString, Decimal(h.bid))) by {
      assert IndexOf(line, ' ') == HAND_SIZE by {
        assert line[HAND_SIZE] == ' ';
        assert line[..HAND_SIZE] == cardString;
      }
    }
    ParseDecimal(h.bid, U32_MAX);
    assert Ranks(ParseCards(cardString)) == h.cards;
  }

  /** The hands of the lines that parse, in input order (`filter_map(parse_hand)`). */
  function ParseHands(lines: seq<string>): (hands: seq<Hand>)
    requires forall i :: 0 <= i < |lines| ==> KnownCards(lines[i])
    ensures AllHands(hands) && |hands| <= |lines|
  {
    if |lines| == 0 then []
    else
      (match ParseHand(lines[0]) case Some(h) => [h] case None => [])
      + ParseHands(lines[1..])
  }

  /** `calculate_winnings`: sort the parsed hands and weight each bid by its rank. */
  method CalculateWinnings(lines: seq<string>) returns (value: nat)
    requires forall i :: 0 <= i < |lines| ==> KnownCards(lines[i])
    ensures value == Weighted(Sort(ParseHands(lines)), 1)
  {
    var hands := ParseHands(lines);
    var sorted := Sort(hands);
    value := Winnings(sorted);
  }
}

/** Day 7, part 2: 'J' is a Joker, the weakest card, and stands in for the best value. */
module Day07Part2 {
  import opened Text
  import opened CamelCards

  datatype CardValue =
    | Joker | Two | Three | Four | Five | Six | Seven | Eight | Nine
    | Ten | Queen | King | Ace

  /** The card characters, weakest first. */
  const CARD_CHARS: string := "J23456789TQKA"

  /** `CardValue::iterator()` without the Joker, the values a Joker may become. */
  const SUBSTITUTES: seq<CardValue> := [Two, Three, Four, Five, Six, Seven, Eight, Nine, Ten, Queen, King, Ace]

  function RankOf(v: CardValue): Rank {
    match v
    case Joker => 0
    case Two => 1
    case Three => 2
    case Four => 3
    case Five => 4
    case Six => 5
    case Seven => 6
    case Eight => 7
    case Nine => 8
    case Ten => 9
    case Queen => 10
    case King => 11
    case Ace => 12
  }

  /** `CardValue::from_char`. */
  function FromChar(c: char): Option<CardValue> {
    match c
    case 'J' => Some(Joker)
    case '2' => Some(Two)
    case '3' => Some(Three)
    case '4' => Some(Four)
    case '5' => Some(Five)
    case '6' => Some(Six)
    case '7' => Some(Seven)
    case '8' => Some(Eight)
    case '9' => Some(Nine)
    case 'T' => Some(Ten)
    case 'Q' => Some(Queen)
    case 'K' => Some(King)
    case 'A' => Some(Ace)
    case _ => None
  }

  /**
   * `from_char` accepts exactly the thirteen card characters; the Joker is
   * the weakest card and the other values keep their relative order.
   */
  lemma {:induction false} FromCharTable()
    ensures forall c :: FromChar(c).Some? <==> c in CARD_CHARS
    ensures forall i :: 0 <= i < |CARD_CHARS| ==>
      FromChar(CARD_CHARS[i]).Some? && RankOf(FromChar(CARD_CHARS[i]).value) == i
    ensures forall v :: v != Joker ==> RankOf(Joker) < RankOf(v)
    ensures forall i, j :: 0 <= i < j < |SUBSTITUTES| ==> RankOf(SUBSTITUTES[i]) < RankOf(SUBSTITUTES[j])
  {
  }

  function Ranks(cards: seq<CardValue>): (r: seq<Rank>)
    ensures |r| == |cards|
    ensures forall i :: 0 <= i < |cards| ==> r[i] == RankOf(cards[i])
  {
    if |cards| == 0 then [] else [RankOf(cards[0])] + Ranks(cards[1..])
  }

  /**
   * The count-based classification as part 2 writes it: start from HighCard
   * and let each later check (pairs, triples, four, five) override the
   * earlier ones.
   */
  function OverridingType(twos: nat, threes: nat, fours: nat, fives: nat): HandType {
    var t0 := HighCard;
    var t1 := if twos > 0 then (if twos == 1 then OnePair else TwoPair) else t0;
    var t2 := if threes > 0 then (if twos > 0 then FullHouse else ThreeOfAKind) else t1;
    var t3 := if fours > 0 then FourOfAKind else t2;
    if fives > 0 then FiveOfAKind else t3
  }

  /** The overriding form classifies every hand exactly as part 1's early returns do. */
  lemma {:induction false} OverridingAgrees(twos: nat, threes: nat, fours: nat, fives: nat)
    ensures OverridingType(twos, threes, fours, fives) == TypeOfTallies(twos, threes, fours, fives)
  {
  }

  function JokerCount(cards: seq<CardValue>): (n: nat)
    ensures n <= |cards|
    ensures n == 0 <==> Joker !in cards
  {
    if |cards| == 0 then 0 else (if cards[0] == Joker then 1 else 0) + JokerCount(cards[1..])
  }

  /** Every Joker replaced by `v`. */
  function ReplaceJokers(cards: seq<CardValue>, v: CardValue): (r: seq<CardValue>)
    requires v != Joker
    ensures |r| == |cards| && Joker !in r
    ensures forall i :: 0 <= i < |cards| ==> r[i] == (if cards[i] == Joker then v else cards[i])
  {
    seq(|cards|, i requires 0 <= i < |cards| => if cards[i] == Joker then v else cards[i])
  }

  function Natural(cards: seq<CardValue>): HandType {
    var counts := Counts(Ranks(cards));
    OverridingType(Tally(counts, 2), Tally(counts, 3), Tally(counts, 4), Tally(counts, 5))
  }

  /**
   * `get_hand_type`: the natural type, raised to the best type reachable by
   * turning all Jokers into one common other value. The search over the
   * substitutes stops as soon as it reaches FiveOfAKind.
   */
  function GetHandType(cards: seq<CardValue>): HandType
    decreases JokerCount(cards), |SUBSTITUTES| + 1
  {
    var natural := Natural(cards);
    if natural != FiveOfAKind && Joker in cards then BestSubstitute(cards, 0, natural)
    else natural
  }

  /** The substitution loop from the `i`-th substitute on, `best` being the type so far. */
  function BestSubstitute(cards: seq<CardValue>, i: nat, best: HandType): HandType
    requires Joker in cards && i <= |SUBSTITUTES|
    decreases JokerCount(cards), |SUBSTITUTES| - i
  {
    if i == |SUBSTITUTES| then best
    else
      var newType := GetHandType(ReplaceJokers(cards, SUBSTITUTES[i]));
      var best' := if TypeRank(newType) > TypeRank(best) then newType else best;
      if best' == FiveOfAKind then best'
      else BestSubstitute(cards, i + 1, best')
  }

  /** A hand without Jokers gets its natural type: the recursion is one level deep. */
  lemma {:induction false} JokerFree(cards: seq<CardValue>)
    requires Joker !in cards
    ensures GetHandType(cards) == NaturalType(Ranks(cards))
  {
    var counts := Counts(Ranks(cards));
    OverridingAgrees(Tally(counts, 2), Tally(counts, 3), Tally(counts, 4), Tally(counts, 5));
  }

  /** The natural type of `cards` with every Joker turned into the `i`-th substitute. */
  function SubstituteType(cards: seq<CardValue>, i: nat): HandType
    requires i < |SUBSTITUTES|
  {
    NaturalType(Ranks(ReplaceJokers(cards, SUBSTITUTES[i])))
  }

  /** The strongest of `best` and the natural types of the substitutions from the `i`-th on. */
  function MaxSubstitute(cards: seq<CardValue>, i: nat, best: HandType): HandType
    requires i <= |SUBSTITUTES|
    decreases |SUBSTITUTES| - i
  {
    if i == |SUBSTITUTES| then best
    else MaxSubstitute(cards, i + 1, MaxType(best, SubstituteType(cards, i)))
  }

  lemma {:induction false} MaxSubstituteFive(cards: seq<CardValue>, i: nat)
    requires i <= |SUBSTITUTES|
    ensures MaxSubstitute(cards, i, FiveOfAKind) == FiveOfAKind
    decreases |SUBSTITUTES| - i
  {
    if i < |SUBSTITUTES| {
      var t := SubstituteType(cards, i);
      assert MaxType(FiveOfAKind, t) == FiveOfAKind by {
        assert TypeRank(t) <= TypeRank(FiveOfAKind);
      }
      MaxSubstituteFive(cards, i + 1);
    }
  }

  /** One round of the substitution loop, which is one round of the maximum. */
  lemma {:induction false} BestSubstituteStep(cards: seq<CardValue>, i: nat, best: HandType)
    requires Joker in cards && i < |SUBSTITUTES|
    ensures var best' := MaxType(best, SubstituteType(cards, i));
      && BestSubstitute(cards, i, best) == (if best' == FiveOfAKind then best' else BestSubstitute(cards, i + 1, best'))
      && MaxSubstitute(cards, i, best) == MaxSubstitute(cards, i + 1, best')
  {
    JokerFree(ReplaceJokers(cards, SUBSTITUTES[i]));
  }

  lemma {:induction false} BestSubstituteIsMax(cards: seq<CardValue>, i: nat, best: HandType)
    requires Joker in cards && i <= |SUBSTITUTES|
    ensures BestSubstitute(cards, i, best) == MaxSubstitute(cards, i, best)
    decreases |SUBSTITUTES| - i
  {
    if i < |SUBSTITUTES| {
      BestSubstituteStep(cards, i, best);
      var best' := MaxType(best, SubstituteType(cards, i));
      if best' == FiveOfAKind {
        MaxSubstituteFive(cards, i + 1);
      } else {
        BestSubstituteIsMax(cards, i + 1, best');
      }
    }
  }

  /**
   * The type of a hand is the strongest of its natural type and the natural
   * types of all twelve substitutions of its Jokers; stopping early at
   * FiveOfAKind does not change it. Hence it is never weaker than the
   * natural type, and Joker-free hands keep their natural type.
   */
  lemma {:induction false} GetHandTypeIsMax(cards: seq<CardValue>)
    ensures var natural := NaturalType(Ranks(cards));
      GetHandType(cards) == (if Joker in cards then MaxSubstitute(cards, 0, natural) else natural)
    ensures TypeRank(GetHandType(cards)) >= TypeRank(NaturalType(Ranks(cards)))
  {
    var counts := Counts(Ranks(cards));
    OverridingAgrees(Tally(counts, 2), Tally(counts, 3), Tally(counts, 4), Tally(counts, 5));
    var natural := NaturalType(Ranks(cards));
    if Joker in cards {
      if natural == FiveOfAKind {
        MaxSubstituteFive(cards, 0);
      } else {
        BestSubstituteIsMax(cards, 0, natural);
      }
      MaxSubstituteAbove(cards, 0, natural);
    }
  }

  lemma {:induction false} MaxSubstituteAbove(cards: seq<CardValue>, i: nat, best: HandType)
    requires i <= |SUBSTITUTES|
    ensures TypeRank(MaxSubstitute(cards, i, best)) >= TypeRank(best)
    decreases |SUBSTITUTES| - i
  {
    if i < |SUBSTITUTES| {
      MaxSubstituteAbove(cards, i + 1, MaxType(best, SubstituteType(cards, i)));
    }
  }

  function ParseCards(s: string): (r: seq<CardValue>)
    requires forall i :: 0 <= i < |s| ==> FromChar(s[i]).Some?
    ensures |r| == |s|
    ensures forall i :: 0 <= i < |s| ==> r[i] == FromChar(s[i]).value
  {
    if |s| == 0 then [] else [FromChar(s[0]).value] + ParseCards(s[1..])
  }

  predicate KnownCards(line: string) {
    match SplitOnce(line, ' ')
    case None => true
    case Some((cards, _)) => forall i :: 0 <= i < |cards| ==> FromChar(cards[i]).Some?
  }

  /** `parse_hand`, classifying with Jokers. */
  function ParseHand(line: string): (r: Option<Hand>)
    requires KnownCards(line)
    ensures r.None? <==>
      SplitOnce(line, ' ').None?
      || |SplitOnce(line, ' ').value.0| != HAND_SIZE
      || ParseUnsigned(SplitOnce(line, ' ').value.1, U32_MAX).None?
    ensures r.Some? ==> |r.value.cards| == HAND_SIZE && r.value.bid <= U32_MAX
    ensures r.Some? ==> r.value.cards == Ranks(ParseCards(SplitOnce(line, ' ').value.0))
    ensures r.Some? ==> r.value.handType == GetHandType(ParseCards(SplitOnce(line, ' ').value.0))
  {
    match SplitOnce(line, ' ')
    case None => None
    case Some((handString, bidString)) =>
      var cards := ParseCards(handString);
      if |cards| != HAND_SIZE then None
      else match ParseUnsigned(bidString, U32_MAX)
        case None => None
        case Some(bid) => Some(Hand(Ranks(cards), GetHandType(cards), bid))
  }

  function ParseHands(lines: seq<string>): (hands: seq<Hand>)
    requires forall i :: 0 <= i < |lines| ==> KnownCards(lines[i])
    ensures AllHands(hands) && |hands| <= |lines|
  {
    if |lines| == 0 then []
    else
      (match ParseHand(lines[0]) case Some(h) => [h] case None => [])
      + ParseHands(lines[1..])
  }

  /** `calculate_winnings`, with Jokers weakest in tie-breaks. */
  method CalculateWinnings(lines: seq<string>) returns (value: nat)
    requires forall i :: 0 <= i < |lines| ==> KnownCards(lines[i])
    ensures value == Weighted(Sort(ParseHands(lines)), 1)
  {
    var hands := ParseHands(lines);
    var sorted := Sort(hands);
    value := Winnings(sorted);
  }
}
