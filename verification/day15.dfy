/**
 * Day 15, part 1: the HASH of a string folds every character code into a
 * running value with `((acc + code) · 17) mod 256`; the answer sums the
 * hashes of the comma-separated steps of the text without line feeds.
 */
module Day15Part1 {
  import opened Text

  /** One character folded into the running value. */
  function HashStep(acc: nat, c: char): (r: nat)
    ensures r < 256
  {
    ((acc + c as int) * 17) % 256
  }

  /** The fold of `HashStep` over `s`, starting from `acc`. */
  function HashFrom(acc: nat, s: string): (r: nat)
    ensures |s| > 0 || acc < 256 ==> r < 256
    decreases |s|
  {
    if |s| == 0 then acc else HashFrom(HashStep(acc, s[0]), s[1..])
  }

  /** `hash`: the fold from 0, so always below 256. */
  function Hash(s: string): (h: nat)
    ensures h < 256
    ensures s == "" ==> h == 0
  {
    HashFrom(0, s)
  }

  /** Folding over a concatenation folds over the second part from the value reached after the first. */
  lemma {:induction false} HashFromAppend(acc: nat, s: string, t: string)
    ensures HashFrom(acc, s + t) == HashFrom(HashFrom(acc, s), t)
    decreases |s|
  {
    if |s| == 0 {
      assert s + t == t;
    } else {
      assert (s + t)[1..] == s[1..] + t;
      HashFromAppend(HashStep(acc, s[0]), s[1..], t);
    }
  }

  /** The hash of a string and one more character is one more fold step. */
  lemma {:induction false} HashSnoc(s: string, c: char)
    ensures Hash(s + [c]) == HashStep(Hash(s), c)
  {
    HashFromAppend(0, s, [c]);
  }

  /** The comma-separated steps of the text without line feeds. */
  function Steps(input: string): (r: seq<string>)
    ensures |r| >= 1 && forall k :: 0 <= k < |r| ==> ',' !in r[k] && '\n' !in r[k]
  {
    var flat := Remove(input, '\n');
    var r := Split(flat, ',');
    forall k | 0 <= k < |r| ensures '\n' !in r[k] {
      JoinSplit(flat, ',');
      SplitPieceIn(flat, ',', k);
    }
    r
  }

  /** Every character of a piece of `Split(s, c)` occurs in `s`. */
  lemma {:induction false} SplitPieceIn(s: string, c: char, k: nat)
    requires k < |Split(s, c)|
    ensures forall x :: x in Split(s, c)[k] ==> x in s
    decreases |s|
  {
    if c in s {
      var i := IndexOf(s, c);
      if k > 0 {
        SplitPieceIn(s[i + 1..], c, k - 1);
        forall x | x in s[i + 1..] ensures x in s {
          var p :| 0 <= p < |s[i + 1..]| && s[i + 1..][p] == x;
          assert s[i + 1 + p] == x;
        }
      } else {
        forall x | x in s[..i] ensures x in s {
          var p :| 0 <= p < i && s[..i][p] == x;
          assert s[p] == x;
        }
      }
    }
  }

  /** The sum of the hashes of `steps`: at most 255 per step. */
  function SumOfHashes(steps: seq<string>): (r: nat)
    ensures r <= 255 * |steps|
  {
    if |steps| == 0 then 0 else Hash(steps[0]) + SumOfHashes(steps[1..])
  }

  lemma {:induction false} SumOfHashesAppend(a: seq<string>, b: seq<string>)
    ensures SumOfHashes(a + b) == SumOfHashes(a) + SumOfHashes(b)
  {
    if |a| == 0 {
      assert a + b == b;
    } else {
      assert (a + b)[1..] == a[1..] + b;
      SumOfHashesAppend(a[1..], b);
    }
  }

  /** `sum_hashes`. */
  function SumHashes(input: string): nat {
    SumOfHashes(Steps(input))
  }

  /** Two texts joined by a comma sum to the sum of their own hashes. */
  lemma {:induction false} SumHashesAppend(a: string, b: string)
    ensures SumHashes(a + "," + b) == SumHashes(a) + SumHashes(b)
  {
    RemoveAppend(a + ",", b, '\n');
    RemoveAppend(a, ",", '\n');
    assert Remove(",", '\n') == ",";
    SplitAppend(Remove(a, '\n'), Remove(b, '\n'), ',');
    SumOfHashesAppend(Steps(a), Steps(b));
  }

  /** A text of one step, with no comma or line feed, sums to its own hash. */
  lemma {:induction false} SumHashesSingle(s: string)
    requires ',' !in s && '\n' !in s
    ensures SumHashes(s) == Hash(s)
  {
    RemoveFree(s, '\n');
    assert Steps(s) == [s];
  }

  /** The hash of a short step, one character at a time. */
  lemma {:induction false} HashChars(s: string)
    requires 3 <= |s| <= 4
    ensures |s| == 3 ==> Hash(s) == HashStep(HashStep(HashStep(0, s[0]), s[1]), s[2])
    ensures |s| == 4 ==> Hash(s) == HashStep(HashStep(HashStep(HashStep(0, s[0]), s[1]), s[2]), s[3])
  {
    var t := s[1..];
    var u := t[1..];
    var v := u[1..];
    var a := HashStep(0, s[0]);
    var b := HashStep(a, s[1]);
    var c := HashStep(b, s[2]);
    assert t[0] == s[1] && u[0] == s[2];
    assert Hash(s) == HashFrom(a, t) == HashFrom(b, u) == HashFrom(c, v);
    if |s| == 4 {
      assert v[0] == s[3] && v[1..] == [];
      assert HashFrom(c, v) == HashFrom(HashStep(c, s[3]), []);
    }
  }

  /** The hashes of the worked example's first three steps. */
  lemma HashSamples()
    ensures Hash("rn=1") == 30 && Hash("cm-") == 253 && Hash("qp=3") == 97
  {
    assert HashStep(0, 'r') == 146;
    assert HashStep(146, 'n') == 0;
    assert HashStep(0, '=') == 13;
    assert HashStep(13, '1') == 30;
    HashChars("rn=1");
    assert HashStep(0, 'c') == 147;
    assert HashStep(147, 'm') == 0;
    assert HashStep(0, '-') == 253;
    HashChars("cm-");
    assert HashStep(0, 'q') == 129;
    assert HashStep(129, 'p') == 1;
    assert HashStep(1, '=') == 30;
    assert HashStep(30, '3') == 97;
    HashChars("qp=3");
  }

  /** The hashes of the worked example's remaining steps. */
  lemma HashSamplesRest()
    ensures Hash("cm=2") == 47 && Hash("qp-") == 14 && Hash("pc=4") == 180 && Hash("ot=9") == 9 && Hash("ab=5") == 197 && Hash("pc-") == 48 && Hash("pc=6") == 214 && Hash("ot=7") == 231
  {
    assert HashStep(0, 'c') == 147;
    assert HashStep(147, 'm') == 0;
    assert HashStep(0, '=') == 13;
    assert HashStep(13, '2') == 47;
    HashChars("cm=2");
    assert HashStep(0, 'q') == 129;
    assert HashStep(129, 'p') == 1;
    assert HashStep(1, '-') == 14;
    HashChars("qp-");
    assert HashStep(0, 'p') == 112;
    assert HashStep(112, 'c') == 3;
    assert HashStep(3, '=') == 64;
    assert HashStep(64, '4') == 180;
    HashChars("pc=4");
    assert HashStep(0, 'o') == 95;
    assert HashStep(95, 't') == 3;
    assert HashStep(3, '=') == 64;
    assert HashStep(64, '9') == 9;
    HashChars("ot=9");
    assert HashStep(0, 'a') == 113;
    assert HashStep(113, 'b') == 3;
    assert HashStep(3, '=') == 64;
    assert HashStep(64, '5') == 197;
    HashChars("ab=5");
    assert HashStep(0, 'p') == 112;
    assert HashStep(112, 'c') == 3;
    assert HashStep(3, '-') == 48;
    HashChars("pc-");
    assert HashStep(0, 'p') == 112;
    assert HashStep(112, 'c') == 3;
    assert HashStep(3, '=') == 64;
    assert HashStep(64, '6') == 214;
    HashChars("pc=6");
    assert HashStep(0, 'o') == 95;
    assert HashStep(95, 't') == 3;
    assert HashStep(3, '=') == 64;
    assert HashStep(64, '7') == 231;
    HashChars("ot=7");
  }

  /** Steps free of commas and line feeds, joined by commas, sum to their own hashes. */
  lemma {:induction false} SumHashesJoined(pieces: seq<string>)
    requires |pieces| >= 1
    requires forall k :: 0 <= k < |pieces| ==> ',' !in pieces[k] && '\n' !in pieces[k]
    ensures SumHashes(Join(pieces, ',')) == SumOfHashes(pieces)
  {
    JoinFree(pieces, ',', '\n');
    RemoveFree(Join(pieces, ','), '\n');
    SplitJoin(pieces, ',');
  }

  /** A step list sums to its head's hash plus the sum of its tail. */
  lemma SumOfHashesCons(step: string, rest: seq<string>)
    ensures SumOfHashes([step] + rest) == Hash(step) + SumOfHashes(rest)
  {
    assert ([step] + rest)[1..] == rest;
  }

  /** The first three steps of the sample sum to 380. */
  lemma SumHashesSampleHead()
    ensures SumOfHashes(["rn=1", "cm-", "qp=3"]) == 380
  {
    HashSamples();
    SumOfHashesCons("qp=3", []);
    SumOfHashesCons("cm-", ["qp=3"]);
    SumOfHashesCons("rn=1", ["cm-", "qp=3"]);
  }

  /** The middle four steps of the sample sum to 250. */
  lemma SumHashesSampleMiddle()
    ensures SumOfHashes(["cm=2", "qp-", "pc=4", "ot=9"]) == 250
  {
    HashSamplesRest();
    SumOfHashesCons("ot=9", []);
    SumOfHashesCons("pc=4", ["ot=9"]);
    SumOfHashesCons("qp-", ["pc=4", "ot=9"]);
    SumOfHashesCons("cm=2", ["qp-", "pc=4", "ot=9"]);
  }

  /** The last four steps of the sample sum to 690. */
  lemma SumHashesSampleTail()
    ensures SumOfHashes(["ab=5", "pc-", "pc=6", "ot=7"]) == 690
  {
    HashSamplesRest();
    SumOfHashesCons("ot=7", []);
    SumOfHashesCons("pc=6", ["ot=7"]);
    SumOfHashesCons("pc-", ["pc=6", "ot=7"]);
    SumOfHashesCons("ab=5", ["pc-", "pc=6", "ot=7"]);
  }

  /** The steps of the worked example sum to 1320. */
  lemma SumHashesSample()
    ensures SumOfHashes(["rn=1", "cm-", "qp=3", "cm=2", "qp-", "pc=4", "ot=9", "ab=5", "pc-", "pc=6", "ot=7"]) == 1320
  {
    var head, middle, tail := ["rn=1", "cm-", "qp=3"], ["cm=2", "qp-", "pc=4", "ot=9"], ["ab=5", "pc-", "pc=6", "ot=7"];
    assert head + middle + tail == ["rn=1", "cm-", "qp=3", "cm=2", "qp-", "pc=4", "ot=9", "ab=5", "pc-", "pc=6", "ot=7"];
    SumHashesSampleHead();
    SumHashesSampleMiddle();
    SumHashesSampleTail();
    SumOfHashesAppend(head + middle, tail);
    SumOfHashesAppend(head, middle);
  }

}

/**
 * Day 15, part 2: every step is a lens operation on box `hash(label)`. An
 * `=` step puts a lens in the box, replacing the lens with the same label
 * in place if there is one; a `-` step takes the lens with that label out,
 * closing the gap. The focusing power sums (box + 1)·(slot + 1)·focal length.
 */
module Day15Part2 {
  import opened Text
  import opened Day15Part1

  const BOX_COUNT: nat := 256

  datatype LensType = Replacement | Removal

  /** A lens operation; `name` is the lens label. */
  datatype Lens = Lens(name: string, focalLength: Option<nat>, lensType: LensType)

  /**
   * `parse_lens`: a step with '=' replaces, otherwise one with '-' removes,
   * otherwise it is dropped. The label is the text before the first
   * separator; a replacement's focal length is every digit of the step read
   * as a `u8`.
   */
  function ParseLens(step: string): (r: Option<Lens>)
    ensures r.None? <==> '=' !in step && '-' !in step
    ensures r.Some? ==> (r.value.lensType == Replacement <==> '=' in step)
    ensures r.Some? ==>
      var sep := if r.value.lensType == Replacement then '=' else '-';
      var name := r.value.name;
      |name| < |step| && step[..|name|] == name && step[|name|] == sep && sep !in name
    ensures r.Some? ==>
      r.value.focalLength == (if r.value.lensType == Replacement then ParseUnsigned(Digits(step), U8_MAX) else None)
  {
    if '=' in step then
      var name := SplitOnce(step, '=').value.0;
      assert step[..|name|] == name;
      Some(Lens(name, ParseUnsigned(Digits(step), U8_MAX), Replacement))
    else if '-' in step then
      var name := SplitOnce(step, '-').value.0;
      assert step[..|name|] == name;
      Some(Lens(name, None, Removal))
    else None
  }

  predicate DigitFree(s: string) {
    forall k :: 0 <= k < |s| ==> !IsDigit(s[k])
  }

  /** An `=` step rendered from a digit-free label and a `u8` focal length parses back. */
  lemma {:induction false} ParseReplacement(name: string, focal: nat)
    requires '=' !in name && DigitFree(name) && focal <= U8_MAX
    ensures ParseLens(name + "=" + Decimal(focal)) == Some(Lens(name, Some(focal), Replacement))
  {
    var step := name + "=" + Decimal(focal);
    assert step == name + ['='] + Decimal(focal);
    assert step[|name|] == '=';
    assert step[..|name|] == name;
    IndexOfUnique(step, '=', |name|);
    DigitsAppend(name + "=", Decimal(focal));
    DigitsAppend(name, "=");
    DigitsOf(name);
    DigitsOf(Decimal(focal));
    assert Digits("=") == "";
    assert Digits(step) == Decimal(focal);
    ParseDecimal(focal, U8_MAX);
    assert '=' in step;
    assert SplitOnce(step, '=').value.0 == name;
  }

  /** A `-` step rendered from a label without separators parses back. */
  lemma {:induction false} ParseRemoval(name: string)
    requires '=' !in name && '-' !in name
    ensures ParseLens(name + "-") == Some(Lens(name, None, Removal))
  {
    var step := name + "-";
    assert step[|name|] == '-';
    assert '=' !in step by {
      assert forall k :: 0 <= k < |step| ==> step[k] != '=' by {
        forall k | 0 <= k < |step| ensures step[k] != '=' {
          if k < |name| {
            assert step[k] == name[k];
          }
        }
      }
    }
  }

  /** The parsed lens operations, in input order; unparsable steps are skipped. */
  function ParseLenses(steps: seq<string>): (r: seq<Lens>)
    ensures |r| <= |steps|
  {
    if |steps| == 0 then []
    else (match ParseLens(steps[0]) case Some(l) => [l] case None => []) + ParseLenses(steps[1..])
  }

  // ---------------------------------------------------------------------------
  // One box
  // ---------------------------------------------------------------------------

  /** `position`: the first slot holding a lens with this label. */
  function Position(box: seq<Lens>, name: string): (r: Option<nat>)
    ensures r.None? <==> forall k :: 0 <= k < |box| ==> box[k].name != name
    ensures r.Some? ==>
      r.value < |box| && box[r.value].name == name && forall k :: 0 <= k < r.value ==> box[k].name != name
  {
    if |box| == 0 then None
    else if box[0].name == name then Some(0)
    else match Position(box[1..], name)
      case Some(i) => Some(i + 1)
      case None => None
  }

  predicate UniqueLabels(box: seq<Lens>) {
    forall i, j :: 0 <= i < j < |box| ==> box[i].name != box[j].name
  }

  /** The box without any lens of this label, order kept: the reference for both operations. */
  function Without(box: seq<Lens>, name: string): (r: seq<Lens>)
    ensures forall k :: 0 <= k < |r| ==> r[k].name != name
  {
    if |box| == 0 then []
    else (if box[0].name == name then [] else [box[0]]) + Without(box[1..], name)
  }

  /** One lens operation applied to a box. */
  function Apply(box: seq<Lens>, lens: Lens): seq<Lens> {
    match lens.lensType
    case Replacement =>
      (match Position(box, lens.name)
       case Some(i) => box[i := lens]
       case None => box + [lens])
    case Removal =>
      (match Position(box, lens.name)
       case Some(i) => box[..i] + box[i + 1..]
       case None => box)
  }

  lemma {:induction false} WithoutAppend(a: seq<Lens>, b: seq<Lens>, name: string)
    ensures Without(a + b, name) == Without(a, name) + Without(b, name)
  {
    if |a| == 0 {
      assert a + b == b;
    } else {
      assert (a + b)[1..] == a[1..] + b;
      WithoutAppend(a[1..], b, name);
    }
  }

  lemma {:induction false} WithoutAbsent(box: seq<Lens>, name: string)
    requires forall k :: 0 <= k < |box| ==> box[k].name != name
    ensures Without(box, name) == box
  {
    if |box| > 0 {
      WithoutAbsent(box[1..], name);
    }
  }

  /** When the lens at slot `i` is the only one with its label, dropping the label drops exactly that slot. */
  lemma {:induction false} WithoutSlot(box: seq<Lens>, i: nat)
    requires i < |box| && forall k :: 0 <= k < |box| && k != i ==> box[k].name != box[i].name
    ensures Without(box, box[i].name) == box[..i] + box[i + 1..]
  {
    var name := box[i].name;
    if i == 0 {
      WithoutAbsentRange(box, 1, |box|, name);
      assert box[1..|box|] == box[1..];
    } else {
      var rest := box[1..];
      assert rest[i - 1] == box[i];
      WithoutSlot(rest, i - 1);
      assert Without(box, name) == [box[0]] + Without(rest, name);
      assert [box[0]] + (rest[..i - 1] + rest[i..]) == box[..i] + box[i + 1..];
    }
  }

  lemma {:induction false} WithoutAbsentRange(box: seq<Lens>, lo: nat, hi: nat, name: string)
    requires lo <= hi <= |box|
    requires forall k :: lo <= k < hi ==> box[k].name != name
    ensures Without(box[lo..hi], name) == box[lo..hi]
    decreases hi - lo
  {
    if lo < hi {
      WithoutAbsentRange(box, lo + 1, hi, name);
      assert box[lo..hi][1..] == box[lo + 1..hi];
    }
  }

  lemma {:induction false} RemoveSlot(box: seq<Lens>, i: nat)
    requires UniqueLabels(box) && i < |box|
    ensures UniqueLabels(box[..i] + box[i + 1..])
  {
    var r := box[..i] + box[i + 1..];
    forall a, b | 0 <= a < b < |r| ensures r[a].name != r[b].name {
      var a' := if a < i then a else a + 1;
      var b' := if b < i then b else b + 1;
      assert r[a] == box[a'] && r[b] == box[b'];
    }
  }

  lemma {:induction false} ReplaceSlot(box: seq<Lens>, i: nat, lens: Lens)
    requires UniqueLabels(box) && i < |box| && box[i].name == lens.name
    ensures UniqueLabels(box[i := lens])
    ensures Without(box[i := lens], lens.name) == Without(box, lens.name)
  {
    WithoutSlot(box, i);
    WithoutSlot(box[i := lens], i);
    assert box[i := lens][..i] == box[..i];
    assert box[i := lens][i + 1..] == box[i + 1..];
  }

  lemma {:induction false} AppendNew(box: seq<Lens>, lens: Lens)
    requires UniqueLabels(box) && forall k :: 0 <= k < |box| ==> box[k].name != lens.name
    ensures UniqueLabels(box + [lens])
    ensures Without(box + [lens], lens.name) == Without(box, lens.name) == box
  {
    WithoutAbsent(box, lens.name);
    WithoutAppend(box, [lens], lens.name);
    assert Without([lens], lens.name) == [];
  }

  /**
   * On a box whose labels are unique, an operation keeps them unique. A
   * removal leaves exactly the box without that label. A replacement leaves
   * the other lenses as they were, in order, and the label's lens is the
   * new one, in the old slot when the label was there and appended
   * otherwise.
   */
  lemma {:induction false} ApplySpec(box: seq<Lens>, lens: Lens)
    requires UniqueLabels(box)
    ensures var r := Apply(box, lens);
      && UniqueLabels(r)
      && Without(r, lens.name) == Without(box, lens.name)
      && (lens.lensType == Removal ==> r == Without(box, lens.name))
      && (lens.lensType == Replacement ==>
            match Position(box, lens.name)
            case Some(i) => |r| == |box| && r[i] == lens
            case None => |r| == |box| + 1 && r[|box|] == lens)
  {
    match Position(box, lens.name)
    case Some(i) =>
      WithoutSlot(box, i);
      if lens.lensType == Replacement {
        ReplaceSlot(box, i, lens);
      } else {
        RemoveSlot(box, i);
        WithoutSlot(box, i);
        WithoutAbsentAfter(box, i);
      }
    case None =>
      WithoutAbsent(box, lens.name);
      if lens.lensType == Replacement {
        AppendNew(box, lens);
      }
  }

  /** With unique labels, removing slot `i` leaves no lens with its label. */
  lemma {:induction false} WithoutAbsentAfter(box: seq<Lens>, i: nat)
    requires UniqueLabels(box) && i < |box|
    ensures Without(box[..i] + box[i + 1..], box[i].name) == box[..i] + box[i + 1..]
  {
    var r := box[..i] + box[i + 1..];
    forall k | 0 <= k < |r| ensures r[k].name != box[i].name {
      assert r[k] == if k < i then box[k] else box[k + 1];
    }
    WithoutAbsent(r, box[i].name);
  }

  /** A box after replaying `steps` in order from empty. */
  function Fill(steps: seq<Lens>): seq<Lens> {
    if |steps| == 0 then [] else Apply(Fill(steps[..|steps| - 1]), steps[|steps| - 1])
  }

  lemma {:induction false} FillUnique(steps: seq<Lens>)
    ensures UniqueLabels(Fill(steps))
  {
    if |steps| > 0 {
      FillUnique(steps[..|steps| - 1]);
      ApplySpec(Fill(steps[..|steps| - 1]), steps[|steps| - 1]);
    }
  }

  // ---------------------------------------------------------------------------
  // All boxes
  // ---------------------------------------------------------------------------

  /** The steps, in order, whose label hashes to box `n` (the filter in `calculate_focusing_power`). */
  function InBox(lenses: seq<Lens>, n: nat): (r: seq<Lens>)
    ensures forall k :: 0 <= k < |r| ==> Hash(r[k].name) == n
  {
    if |lenses| == 0 then []
    else
      var last := lenses[|lenses| - 1];
      InBox(lenses[..|lenses| - 1], n) + (if Hash(last.name) == n then [last] else [])
  }

  function EmptyBoxes(): (r: seq<seq<Lens>>)
    ensures |r| == BOX_COUNT && forall n :: 0 <= n < BOX_COUNT ==> r[n] == []
  {
    seq(BOX_COUNT, _ => [])
  }

  /** All 256 boxes, every step applied to its own box as it comes. */
  function Boxes(lenses: seq<Lens>): (r: seq<seq<Lens>>)
    ensures |r| == BOX_COUNT
  {
    if |lenses| == 0 then EmptyBoxes()
    else
      var before := Boxes(lenses[..|lenses| - 1]);
      var last := lenses[|lenses| - 1];
      var h := Hash(last.name);
      before[h := Apply(before[h], last)]
  }

  /** Replaying each box's own steps separately gives the same boxes as applying all steps in turn. */
  lemma {:induction false} BoxesByFilter(lenses: seq<Lens>, n: nat)
    requires n < BOX_COUNT
    ensures Boxes(lenses)[n] == Fill(InBox(lenses, n))
  {
    if |lenses| > 0 {
      var init := lenses[..|lenses| - 1];
      var last := lenses[|lenses| - 1];
      BoxesByFilter(init, n);
      if Hash(last.name) == n {
        var steps := InBox(lenses, n);
        assert steps[..|steps| - 1] == InBox(init, n);
      } else {
        assert InBox(lenses, n) == InBox(init, n);
      }
    }
  }

  /** Labels stay unique in every box, and every lens sits in the box its label hashes to. */
  lemma {:induction false} BoxesSpec(lenses: seq<Lens>, n: nat)
    requires n < BOX_COUNT
    ensures UniqueLabels(Boxes(lenses)[n])
    ensures forall k :: 0 <= k < |Boxes(lenses)[n]| ==> Hash(Boxes(lenses)[n][k].name) == n
  {
    BoxesByFilter(lenses, n);
    FillUnique(InBox(lenses, n));
    FillHashed(InBox(lenses, n), n);
  }

  lemma {:induction false} FillHashed(steps: seq<Lens>, n: nat)
    requires forall k :: 0 <= k < |steps| ==> Hash(steps[k].name) == n
    ensures forall k :: 0 <= k < |Fill(steps)| ==> Hash(Fill(steps)[k].name) == n
  {
    if |steps| > 0 {
      var box := Fill(steps[..|steps| - 1]);
      var lens := steps[|steps| - 1];
      FillHashed(steps[..|steps| - 1], n);
      forall k | 0 <= k < |Apply(box, lens)| ensures Hash(Apply(box, lens)[k].name) == n {
        match Position(box, lens.name)
        case Some(i) =>
          if lens.lensType == Removal {
            assert box == box[..i] + [box[i]] + box[i + 1..];
            if k >= i {
              assert Apply(box, lens)[k] == box[k + 1];
            }
          }
        case None =>
      }
    }
  }

  // ---------------------------------------------------------------------------
  // Focusing power
  // ---------------------------------------------------------------------------

  lemma {:induction false} InBoxStep(lenses: seq<Lens>, i: nat, n: nat)
    requires i < |lenses|
    ensures InBox(lenses[..i + 1], n) == InBox(lenses[..i], n) + (if Hash(lenses[i].name) == n then [lenses[i]] else [])
  {
    var prefix := lenses[..i + 1];
    assert prefix[..i] == lenses[..i] && prefix[i] == lenses[i];
  }

  lemma {:induction false} FillSnoc(steps: seq<Lens>, lens: Lens)
    ensures Fill(steps + [lens]) == Apply(Fill(steps), lens)
  {
    assert (steps + [lens])[..|steps|] == steps;
  }

  /** One more step either goes to box `n` and is applied there, or leaves it alone. */
  lemma {:induction false} FillStep(lenses: seq<Lens>, i: nat, n: nat)
    requires i < |lenses|
    ensures Fill(InBox(lenses[..i + 1], n)) ==
      if Hash(lenses[i].name) == n then Apply(Fill(InBox(lenses[..i], n)), lenses[i])
      else Fill(InBox(lenses[..i], n))
  {
    InBoxStep(lenses, i, n);
    if Hash(lenses[i].name) == n {
      FillSnoc(InBox(lenses[..i], n), lenses[i]);
    } else {
      assert InBox(lenses[..i], n) + [] == InBox(lenses[..i], n);
    }
  }

  /** Every lens left in a box has a focal length (otherwise `unwrap` panics). */
  predicate FocalsKnown(boxes: seq<seq<Lens>>) {
    forall n, k :: 0 <= n < |boxes| && 0 <= k < |boxes[n]| ==> boxes[n][k].focalLength.Some?
  }

  predicate BoxFocalsKnown(box: seq<Lens>) {
    forall k :: 0 <= k < |box| ==> box[k].focalLength.Some?
  }

  /** Σ over slots of (n + 1)·(slot + 1)·focal length. */
  function BoxPower(box: seq<Lens>, n: nat): nat
    requires BoxFocalsKnown(box)
  {
    if |box| == 0 then 0
    else BoxPower(box[..|box| - 1], n) + SlotPower(n, |box|, box[|box| - 1].focalLength.value)
  }

  /** The power of one lens: box number plus one, times slot number, times focal length. */
  function SlotPower(n: nat, slot: nat, focal: nat): nat {
    (n + 1) * slot * focal
  }

  /** The power of the first `count` boxes. */
  function FocusingPower(boxes: seq<seq<Lens>>, count: nat): nat
    requires count <= |boxes| && FocalsKnown(boxes)
  {
    if count == 0 then 0 else FocusingPower(boxes, count - 1) + BoxPower(boxes[count - 1], count - 1)
  }

  lemma FocalsKnownBox(boxes: seq<seq<Lens>>, n: nat)
    requires FocalsKnown(boxes) && n < |boxes|
    ensures BoxFocalsKnown(boxes[n])
  {
    forall k | 0 <= k < |boxes[n]|
      ensures boxes[n][k].focalLength.Some?
    {
    }
  }

  /** The power of one box more adds that box's power. */
  lemma FocusingPowerNext(boxes: seq<seq<Lens>>, n: nat)
    requires n < |boxes| && FocalsKnown(boxes)
    ensures BoxFocalsKnown(boxes[n])
    ensures FocusingPower(boxes, n + 1) == FocusingPower(boxes, n) + BoxPower(boxes[n], n)
  {
    FocalsKnownBox(boxes, n);
  }

  /** The lens operations of the text. */
  function Lenses(input: string): seq<Lens> {
    ParseLenses(Steps(input))
  }

  /** The inner loop of `calculate_focusing_power`: box `n` rebuilt from the steps that hash to it. */
  method FillBox(lenses: seq<Lens>, n: nat) returns (box: seq<Lens>)
    requires n < BOX_COUNT
    ensures box == Boxes(lenses)[n]
  {
    box := [];
    for i := 0 to |lenses|
      invariant box == Fill(InBox(lenses[..i], n))
    {
      FillStep(lenses, i, n);
      if Hash(lenses[i].name) == n {
        box := Apply(box, lenses[i]);
      }
    }
    assert lenses[..|lenses|] == lenses;
    BoxesByFilter(lenses, n);
  }

  /** The power of one box, slot by slot. */
  method SumBox(box: seq<Lens>, n: nat) returns (boxSum: nat)
    requires BoxFocalsKnown(box)
    ensures boxSum == BoxPower(box, n)
  {
    boxSum := 0;
    for k := 0 to |box|
      invariant boxSum == BoxPower(box[..k], n)
    {
      assert box[..k + 1][..k] == box[..k];
      boxSum := boxSum + SlotPower(n, k + 1, box[k].focalLength.value);
    }
    assert box[..|box|] == box;
  }

  /**
   * `calculate_focusing_power`: for each box in turn, replays the steps that
   * hash to it and adds its power. The result is the power of the boxes
   * obtained by applying every step to its box in input order.
   */
  method CalculateFocusingPower(input: string) returns (sum: nat)
    requires FocalsKnown(Boxes(Lenses(input)))
    ensures sum == FocusingPower(Boxes(Lenses(input)), BOX_COUNT)
  {
    var lenses := Lenses(input);
    ghost var boxes := Boxes(lenses);
    sum := 0;
    for n := 0 to BOX_COUNT
      invariant sum == FocusingPower(boxes, n)
    {
      var box := FillBox(lenses, n);
      FocusingPowerNext(boxes, n);
      var boxSum := SumBox(box, n);
      sum := sum + boxSum;
    }
  }
}
