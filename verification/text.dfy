/**
 * Text: the slice of the Rust standard library the puzzle solvers lean on,
 * restated over `string` (= `seq<char>`), ASCII input assumed.
 *
 *  - `str::split(c)`, `str::split_once(c)`, `str::split_whitespace()`,
 *    `str::trim()`, `str::lines()`, `str::contains(c)`
 *  - `str::parse::<uN>()` / `str::parse::<iN>()` and `from_str_radix`, each
 *    failing (None) on an empty string, a stray character or overflow
 *  - integer widths as explicit bounds
 */
module Text {

  datatype Option<+T> = None | Some(value: T)

  const U8_MAX: nat := 0xFF
  const U32_MAX: nat := 0xFFFF_FFFF
  const U64_MAX: nat := 0xFFFF_FFFF_FFFF_FFFF
  // The solvers run on a 64-bit target: usize is u64, isize is i64.
  const USIZE_MAX: nat := U64_MAX
  const I32_MAX: int := 0x7FFF_FFFF
  const I64_MAX: int := 0x7FFF_FFFF_FFFF_FFFF

  // ---------------------------------------------------------------------------
  // Characters
  // ---------------------------------------------------------------------------

  /** `char::is_numeric`, restricted to ASCII: the ten decimal digits. */
  predicate IsDigit(c: char) {
    '0' <= c <= '9'
  }

  function DigitValue(c: char): (d: nat)
    requires IsDigit(c)
    ensures d < 10
  {
    (c as int) - ('0' as int)
  }

  function DigitChar(d: nat): (c: char)
    requires d < 10
    ensures IsDigit(c) && DigitValue(c) == d
  {
    (('0' as int) + d) as char
  }

  /** `char::is_whitespace` on ASCII: tab, line feed, vertical tab, form feed, carriage return, space. */
  predicate IsWhitespace(c: char) {
    c == ' ' || 9 <= c as int <= 13
  }

  // ---------------------------------------------------------------------------
  // Searching
  // ---------------------------------------------------------------------------

  /** Index of the first occurrence of `c` in `s`. */
  function IndexOf(s: string, c: char): (i: nat)
    requires c in s
    ensures i < |s| && s[i] == c && c !in s[..i]
  {
    if s[0] == c then 0 else 1 + IndexOf(s[1..], c)
  }

  /** Number of occurrences of `c` in `s` (`s.matches(c).count()`). */
  function Count(s: string, c: char): (n: nat)
    ensures n <= |s|
    ensures n == 0 <==> c !in s
  {
    if |s| == 0 then 0 else (if s[0] == c then 1 else 0) + Count(s[1..], c)
  }

  lemma {:induction false} CountAppend(a: string, b: string, c: char)
    ensures Count(a + b, c) == Count(a, c) + Count(b, c)
  {
    if |a| > 0 {
      assert (a + b)[1..] == a[1..] + b;
      CountAppend(a[1..], b, c);
    } else {
      assert a + b == b;
    }
  }

  /** True when `pat` occurs in `s` starting at index `i`. */
  predicate OccursAt(s: string, pat: string, i: nat) {
    i + |pat| <= |s| && s[i..i + |pat|] == pat
  }

  // ---------------------------------------------------------------------------
  // Splitting
  // ---------------------------------------------------------------------------

  /** `s.split_once(c)`: the text before and after the first `c`. */
  function SplitOnce(s: string, c: char): (r: Option<(string, string)>)
    ensures r.None? <==> c !in s
    ensures r.Some? ==> s == r.value.0 + [c] + r.value.1 && c !in r.value.0
  {
    if c in s then
      var i := IndexOf(s, c);
      assert s == s[..i] + [c] + s[i + 1..];
      Some((s[..i], s[i + 1..]))
    else None
  }

  /** `s.split(c)`: always at least one piece; no piece contains `c`. */
  function Split(s: string, c: char): (r: seq<string>)
    ensures |r| >= 1
    ensures forall k :: 0 <= k < |r| ==> c !in r[k]
    decreases |s|
  {
    if c in s then
      var i := IndexOf(s, c);
      [s[..i]] + Split(s[i + 1..], c)
    else [s]
  }

  /** `pieces.join(sep)`. */
  function Join(pieces: seq<string>, c: char): string
  {
    if |pieces| == 0 then ""
    else if |pieces| == 1 then pieces[0]
    else pieces[0] + [c] + Join(pieces[1..], c)
  }

  lemma {:induction false} JoinCons(x: string, rest: seq<string>, c: char)
    requires |rest| >= 1
    ensures Join([x] + rest, c) == x + [c] + Join(rest, c)
  {
    assert ([x] + rest)[1..] == rest;
  }

  /** The pieces joined never contain the separators. */
  lemma {:induction false} JoinFree(pieces: seq<string>, sep: char, c: char)
    requires c != sep && forall k :: 0 <= k < |pieces| ==> c !in pieces[k]
    ensures c !in Join(pieces, sep)
  {
    if |pieces| > 1 {
      JoinFree(pieces[1..], sep, c);
    }
  }

  /** A joined list of non-empty pieces starts with the first piece and ends with the last. */
  lemma {:induction false} JoinEnds(pieces: seq<string>, sep: char)
    requires |pieces| > 0 && forall k :: 0 <= k < |pieces| ==> |pieces[k]| > 0
    ensures var j := Join(pieces, sep);
      |j| > 0 && j[0] == pieces[0][0] && j[|j| - 1] == pieces[|pieces| - 1][|pieces[|pieces| - 1]| - 1]
  {
    if |pieces| > 1 {
      JoinEnds(pieces[1..], sep);
    }
  }

  /** Splitting and joining on the same separator is the identity. */
  lemma {:induction false} JoinSplit(s: string, c: char)
    ensures Join(Split(s, c), c) == s
    decreases |s|
  {
    if c in s {
      var i := IndexOf(s, c);
      var rest := Split(s[i + 1..], c);
      assert Split(s, c) == [s[..i]] + rest;
      JoinCons(s[..i], rest, c);
      JoinSplit(s[i + 1..], c);
      assert s == s[..i] + [c] + s[i + 1..];
    } else {
      assert Split(s, c) == [s];
    }
  }

  /** Joining pieces free of the separator and splitting again gives the pieces back. */
  lemma {:induction false} SplitJoin(pieces: seq<string>, c: char)
    requires |pieces| >= 1
    requires forall k :: 0 <= k < |pieces| ==> c !in pieces[k]
    ensures Split(Join(pieces, c), c) == pieces
  {
    var first := pieces[0];
    assert c !in first;
    if |pieces| > 1 {
      var rest := Join(pieces[1..], c);
      assert pieces == [first] + pieces[1..];
      JoinCons(first, pieces[1..], c);
      var s := first + [c] + rest;
      assert s[..|first|] == first;
      IndexOfUnique(s, c, |first|);
      assert s[|first| + 1..] == rest;
      assert Split(s, c) == [first] + Split(rest, c);
      SplitJoin(pieces[1..], c);
    } else {
      assert pieces == [first];
      assert Split(first, c) == [first];
    }
  }

  /** The first index of `c` is determined by the first piece: any position with `c` and none before it. */
  lemma {:induction false} IndexOfUnique(s: string, c: char, i: nat)
    requires i < |s| && s[i] == c && c !in s[..i]
    ensures IndexOf(s, c) == i
  {
  }

  /** `split_once` finds the separator after a piece that does not contain it. */
  lemma {:induction false} SplitOnceAt(a: string, b: string, c: char)
    requires c !in a
    ensures SplitOnce(a + [c] + b, c) == Some((a, b))
  {
    var s := a + [c] + b;
    assert s[..|a|] == a && s[|a| + 1..] == b;
    IndexOfUnique(s, c, |a|);
  }

  /** Removing `c` around a piece without it leaves the piece in place. */
  lemma {:induction false} RemoveAround(a: string, d: string, b: string, c: char)
    requires c !in d
    ensures Remove(a + d + b, c) == Remove(a, c) + d + Remove(b, c)
  {
    RemoveAppend(a + d, b, c);
    RemoveAppend(a, d, c);
    RemoveFree(d, c);
  }

  /** Splitting at the first separator, at index `i`. */
  lemma SplitAt(s: string, c: char, i: nat)
    requires i < |s| && s[i] == c && c !in s[..i]
    ensures Split(s, c) == [s[..i]] + Split(s[i + 1..], c)
  {
    IndexOfUnique(s, c, i);
  }

  /** The pieces of `a + [c] + b` before and after an index `i` of `a`. */
  lemma JoinedPrefix(a: string, b: string, c: char, i: nat)
    requires i < |a|
    ensures (a + [c] + b)[i] == a[i] && (a + [c] + b)[..i] == a[..i]
    ensures (a + [c] + b)[i + 1..] == a[i + 1..] + [c] + b
  {
  }

  lemma ConsAssoc<T>(x: T, p: seq<T>, q: seq<T>)
    ensures [x] + (p + q) == ([x] + p) + q
  {
  }

  /** Splitting a text made of two texts around one separator splits each of them. */
  lemma {:induction false} SplitAppend(a: string, b: string, c: char)
    ensures Split(a + [c] + b, c) == Split(a, c) + Split(b, c)
    decreases |a|
  {
    var s := a + [c] + b;
    if c in a {
      var i := IndexOf(a, c);
      JoinedPrefix(a, b, c, i);
      SplitAt(s, c, i);
      SplitAt(a, c, i);
      SplitAppend(a[i + 1..], b, c);
      ConsAssoc(a[..i], Split(a[i + 1..], c), Split(b, c));
    } else {
      assert s[..|a|] == a && s[|a| + 1..] == b;
      SplitAt(s, c, |a|);
    }
  }

  /** `c.to_string().repeat(n)`. */
  function Repeat(c: char, n: nat): (r: string)
    ensures |r| == n && forall k :: 0 <= k < n ==> r[k] == c
  {
    if n == 0 then "" else [c] + Repeat(c, n - 1)
  }

  lemma {:induction false} CountRepeat(c: char, d: char, n: nat)
    ensures Count(Repeat(c, n), d) == if c == d then n else 0
  {
    if n > 0 {
      assert Repeat(c, n)[1..] == Repeat(c, n - 1);
      CountRepeat(c, d, n - 1);
    }
  }

  /** The rows written one after another. */
  function Concat(rows: seq<string>): (r: string)
    ensures |rows| > 0 ==> |r| >= |rows[0]|
  {
    if |rows| == 0 then "" else rows[0] + Concat(rows[1..])
  }

  /** `iter.step_by(step)`: the first element, then every `step`-th one after it. */
  function StepBy(s: string, step: nat): (r: string)
    requires step > 0
    ensures |r| <= |s|
    ensures |s| > 0 ==> |r| > 0 && r[0] == s[0]
    decreases |s|
  {
    if |s| == 0 then ""
    else if |s| <= step then [s[0]]
    else [s[0]] + StepBy(s[step..], step)
  }

  /** A string of `count` strides yields `count` elements, the k-th taken at offset k·step. */
  lemma {:induction false} StepByStrides(s: string, step: nat, count: nat)
    requires step > 0 && count > 0
    requires (count - 1) * step < |s| <= count * step
    ensures |StepBy(s, step)| == count
    ensures forall k :: 0 <= k < count ==> k * step < |s| && StepBy(s, step)[k] == s[k * step]
  {
    if count == 1 {
      assert |s| <= step;
    } else {
      assert (count - 1) * step == (count - 2) * step + step;
      assert count * step == (count - 1) * step + step;
      assert |s| > step;
      StepByStrides(s[step..], step, count - 1);
      var r := StepBy(s, step);
      assert r == [s[0]] + StepBy(s[step..], step);
      forall k | 0 <= k < count ensures k * step < |s| && r[k] == s[k * step] {
        if k > 0 {
          assert (k - 1) * step + step == k * step;
        }
      }
    }
  }

  /** Index of the first occurrence of a (non-empty) pattern at or after `from`. */
  function FindFrom(s: string, pat: string, from: nat): (r: Option<nat>)
    requires |pat| > 0
    ensures r.Some? ==> from <= r.value && OccursAt(s, pat, r.value)
    ensures r.Some? ==> forall j :: from <= j < r.value ==> !OccursAt(s, pat, j)
    ensures r.None? ==> forall j :: from <= j ==> !OccursAt(s, pat, j)
    decreases |s| - from
  {
    if from + |pat| > |s| then None
    else if OccursAt(s, pat, from) then Some(from)
    else FindFrom(s, pat, from + 1)
  }

  /** `s.split(pat)` for a string pattern (used with "\n\n"). */
  function SplitOn(s: string, pat: string): (r: seq<string>)
    requires |pat| > 0
    ensures |r| >= 1
    decreases |s|
  {
    match FindFrom(s, pat, 0)
    case None => [s]
    case Some(i) => [s[..i]] + SplitOn(s[i + |pat|..], pat)
  }

  /** `s.replace(c, "")`: every `c` removed. */
  function Remove(s: string, c: char): (r: string)
    ensures c !in r
  {
    if |s| == 0 then ""
    else (if s[0] == c then "" else [s[0]]) + Remove(s[1..], c)
  }

  /** Removal keeps every other character and shortens the text by the occurrences removed. */
  lemma {:induction false} RemoveKeeps(s: string, c: char)
    ensures forall d :: d != c ==> (d in Remove(s, c) <==> d in s)
    ensures |Remove(s, c)| == |s| - Count(s, c)
  {
    if |s| > 0 {
      RemoveKeeps(s[1..], c);
      assert s == [s[0]] + s[1..];
    }
  }

  /** `s.chars().filter(char::is_numeric).collect()`. */
  function Digits(s: string): (r: string)
    ensures forall k :: 0 <= k < |r| ==> IsDigit(r[k])
    ensures |r| <= |s|
  {
    if |s| == 0 then ""
    else (if IsDigit(s[0]) then [s[0]] else "") + Digits(s[1..])
  }

  lemma {:induction false} DigitsAppend(a: string, b: string)
    ensures Digits(a + b) == Digits(a) + Digits(b)
  {
    if |a| == 0 {
      assert a + b == b;
    } else {
      assert (a + b)[1..] == a[1..] + b;
      DigitsAppend(a[1..], b);
    }
  }

  /** Filtering keeps a string of digits whole and empties one without digits. */
  lemma {:induction false} DigitsOf(s: string)
    ensures AllDigits(s) ==> Digits(s) == s
    ensures (forall k :: 0 <= k < |s| ==> !IsDigit(s[k])) ==> Digits(s) == ""
  {
    if |s| > 0 {
      DigitsOf(s[1..]);
    }
  }

  // ---------------------------------------------------------------------------
  // Whitespace
  // ---------------------------------------------------------------------------

  /** Length of the longest whitespace-free prefix. */
  function WordLength(s: string): (n: nat)
    ensures n <= |s|
    ensures forall k :: 0 <= k < n ==> !IsWhitespace(s[k])
    ensures n < |s| ==> IsWhitespace(s[n])
  {
    if |s| == 0 || IsWhitespace(s[0]) then 0 else 1 + WordLength(s[1..])
  }

  /** `s.split_whitespace()`: the maximal whitespace-free runs, left to right. */
  function Words(s: string): (r: seq<string>)
    ensures forall k :: 0 <= k < |r| ==> |r[k]| > 0
    ensures forall k, j :: 0 <= k < |r| && 0 <= j < |r[k]| ==> !IsWhitespace(r[k][j])
    decreases |s|
  {
    if |s| == 0 then []
    else if IsWhitespace(s[0]) then Words(s[1..])
    else
      var n := WordLength(s);
      [s[..n]] + Words(s[n..])
  }

  /** No whitespace anywhere in `s`. */
  predicate Solid(s: string) {
    forall k :: 0 <= k < |s| ==> !IsWhitespace(s[k])
  }

  lemma {:induction false} WordLengthRun(a: string, b: string)
    requires Solid(a) && (|b| == 0 || IsWhitespace(b[0]))
    ensures WordLength(a + b) == |a|
  {
    if |a| > 0 {
      assert (a + b)[1..] == a[1..] + b;
      WordLengthRun(a[1..], b);
    } else {
      assert a + b == b;
    }
  }

  /** A non-empty text without whitespace is one word. */
  lemma {:induction false} WordsOfWord(a: string)
    requires |a| > 0 && Solid(a)
    ensures Words(a) == [a]
  {
    WordLengthRun(a, "");
    assert a + "" == a;
    assert a[|a|..] == "";
  }

  /** Two words separated by one space split into those two words. */
  lemma {:induction false} WordsPair(a: string, b: string)
    requires |a| > 0 && Solid(a) && |b| > 0 && Solid(b)
    ensures Words(a + " " + b) == [a, b]
  {
    var s := a + " " + b;
    WordLengthRun(a, " " + b);
    assert s == a + (" " + b);
    assert s[..|a|] == a && s[|a|..] == " " + b;
    assert (" " + b)[1..] == b;
    WordsOfWord(b);
  }

  lemma {:induction false} WordLengthSpace(a: string, c: char, b: string)
    requires IsWhitespace(c)
    ensures WordLength(a + [c] + b) == WordLength(a)
  {
    if |a| > 0 && !IsWhitespace(a[0]) {
      assert (a + [c] + b)[1..] == a[1..] + [c] + b;
      WordLengthSpace(a[1..], c, b);
    }
  }

  /** A whitespace character separates words: the words of `a`, then those of `b`. */
  lemma {:induction false} WordsConcat(a: string, c: char, b: string)
    requires IsWhitespace(c)
    ensures Words(a + [c] + b) == Words(a) + Words(b)
    decreases |a|
  {
    var s := a + [c] + b;
    if |a| == 0 {
      assert s[1..] == b;
    } else if IsWhitespace(a[0]) {
      assert s[1..] == a[1..] + [c] + b;
      WordsConcat(a[1..], c, b);
    } else {
      WordLengthSpace(a, c, b);
      var n := WordLength(a);
      assert s[..n] == a[..n];
      assert s[n..] == a[n..] + [c] + b;
      WordsConcat(a[n..], c, b);
    }
  }

  /** Spaces around a text change none of its words. */
  lemma SpacedWords(s: string)
    ensures Words(" " + s) == Words(s)
    ensures Words(s + " ") == Words(s)
  {
    WordsConcat("", ' ', s);
    assert " " + s == "" + [' '] + s;
    WordsConcat(s, ' ', "");
    assert s + " " == s + [' '] + "";
  }

  /** The words of a space-separated list of words are those words. */
  lemma {:induction false} WordsJoin(pieces: seq<string>)
    requires forall k :: 0 <= k < |pieces| ==> |pieces[k]| > 0 && Solid(pieces[k])
    ensures Words(Join(pieces, ' ')) == pieces
  {
    if |pieces| == 1 {
      WordsOfWord(pieces[0]);
    } else if |pieces| > 1 {
      JoinCons(pieces[0], pieces[1..], ' ');
      assert [pieces[0]] + pieces[1..] == pieces;
      WordsJoin(pieces[1..]);
      WordsConcat(pieces[0], ' ', Join(pieces[1..], ' '));
      WordsOfWord(pieces[0]);
    }
  }

  lemma DigitsSolid(s: string)
    requires AllDigits(s)
    ensures Solid(s)
  {
    forall k | 0 <= k < |s|
      ensures !IsWhitespace(s[k])
    {
      assert IsDigit(s[k]);
    }
  }

  /** Trimming leaves a text that starts and ends with something else than whitespace. */
  lemma TrimSolidEnds(s: string)
    requires |s| > 0 && !IsWhitespace(s[0]) && !IsWhitespace(s[|s| - 1])
    ensures Trim(s) == s
  {
  }

  function TrimStart(s: string): (r: string)
    ensures |r| > 0 ==> !IsWhitespace(r[0])
    ensures |r| <= |s| && r == s[|s| - |r|..]
  {
    if |s| > 0 && IsWhitespace(s[0]) then TrimStart(s[1..]) else s
  }

  function TrimEnd(s: string): (r: string)
    ensures |r| > 0 ==> !IsWhitespace(r[|r| - 1])
    ensures |r| <= |s| && r == s[..|r|]
  {
    if |s| > 0 && IsWhitespace(s[|s| - 1]) then TrimEnd(s[..|s| - 1]) else s
  }

  /** `s.trim()`. */
  function Trim(s: string): (r: string)
    ensures |r| > 0 ==> !IsWhitespace(r[0]) && !IsWhitespace(r[|r| - 1])
  {
    TrimEnd(TrimStart(s))
  }

  // ---------------------------------------------------------------------------
  // Lines
  // ---------------------------------------------------------------------------

  function StripCarriageReturn(line: string): string {
    if |line| > 0 && line[|line| - 1] == '\r' then line[..|line| - 1] else line
  }

  /**
   * `s.lines()`: split on line feeds, a trailing carriage return dropped from
   * each line, no final empty line when `s` ends with a line feed.
   */
  function Lines(s: string): (r: seq<string>)
    ensures forall k :: 0 <= k < |r| ==> '\n' !in r[k]
  {
    if |s| == 0 then []
    else
      var pieces := Split(s, '\n');
      var kept := if s[|s| - 1] == '\n' then pieces[..|pieces| - 1] else pieces;
      seq(|kept|, k requires 0 <= k < |kept| => StripCarriageReturn(kept[k]))
  }

  /** When no line is empty or contains a line break or carriage return, `lines()` inverts joining with line feeds. */
  lemma {:induction false} LinesJoin(rows: seq<string>)
    requires |rows| >= 1
    requires forall k :: 0 <= k < |rows| ==> |rows[k]| > 0 && '\n' !in rows[k] && '\r' !in rows[k]
    ensures Lines(Join(rows, '\n')) == rows
  {
    var s := Join(rows, '\n');
    SplitJoin(rows, '\n');
    JoinLast(rows, '\n');
    var last := rows[|rows| - 1];
    assert last[|last| - 1] in last;
    assert s[|s| - 1] != '\n';
    forall k | 0 <= k < |rows| ensures StripCarriageReturn(rows[k]) == rows[k] {
      assert rows[k][|rows[k]| - 1] in rows[k];
    }
  }

  lemma {:induction false} JoinLast(pieces: seq<string>, c: char)
    requires |pieces| >= 1 && |pieces[|pieces| - 1]| > 0
    ensures var s := Join(pieces, c); |s| > 0 && s[|s| - 1] == pieces[|pieces| - 1][|pieces[|pieces| - 1]| - 1]
  {
    if |pieces| > 1 {
      JoinLast(pieces[1..], c);
    }
  }

  /** Removing the line feeds of joined lines leaves the lines written one after another. */
  lemma {:induction false} RemoveJoin(rows: seq<string>)
    requires forall k :: 0 <= k < |rows| ==> '\n' !in rows[k]
    ensures Remove(Join(rows, '\n'), '\n') == Concat(rows)
  {
    if |rows| == 1 {
      RemoveFree(rows[0], '\n');
      assert Concat(rows) == rows[0] + Concat(rows[1..]);
    } else if |rows| > 1 {
      RemoveJoin(rows[1..]);
      RemoveAppend(rows[0] + ['\n'], Join(rows[1..], '\n'), '\n');
      RemoveAppend(rows[0], ['\n'], '\n');
      RemoveFree(rows[0], '\n');
    }
  }

  lemma {:induction false} RemoveFree(s: string, c: char)
    requires c !in s
    ensures Remove(s, c) == s
  {
    if |s| > 0 {
      RemoveFree(s[1..], c);
      assert s == [s[0]] + s[1..];
    }
  }

  lemma {:induction false} RemoveAppend(a: string, b: string, c: char)
    ensures Remove(a + b, c) == Remove(a, c) + Remove(b, c)
  {
    if |a| == 0 {
      assert a + b == b;
    } else {
      assert (a + b)[1..] == a[1..] + b;
      RemoveAppend(a[1..], b, c);
    }
  }

  // ---------------------------------------------------------------------------
  // Numbers
  // ---------------------------------------------------------------------------

  predicate AllDigits(s: string) {
    forall k :: 0 <= k < |s| ==> IsDigit(s[k])
  }

  /** The value of a string of decimal digits, most significant first. */
  function DecimalValue(s: string): nat
    requires AllDigits(s)
  {
    if |s| == 0 then 0 else DecimalValue(s[..|s| - 1]) * 10 + DigitValue(s[|s| - 1])
  }

  /** Digit value of `c` in radix 16 (either case), if it is one. */
  function HexValue(c: char): (r: Option<nat>)
    ensures r.Some? ==> r.value < 16
  {
    if '0' <= c <= '9' then Some((c as int) - ('0' as int))
    else if 'a' <= c <= 'f' then Some((c as int) - ('a' as int) + 10)
    else if 'A' <= c <= 'F' then Some((c as int) - ('A' as int) + 10)
    else None
  }

  predicate AllHex(s: string) {
    forall k :: 0 <= k < |s| ==> HexValue(s[k]).Some?
  }

  function HexadecimalValue(s: string): nat
    requires AllHex(s)
  {
    if |s| == 0 then 0 else HexadecimalValue(s[..|s| - 1]) * 16 + HexValue(s[|s| - 1]).value
  }

  /** The digits after an optional leading '+' (Rust's unsigned `from_str`). */
  function UnsignedBody(s: string): string {
    if |s| > 0 && s[0] == '+' then s[1..] else s
  }

  /**
   * `s.parse::<uN>()` where `max` is the type's maximum: an optional '+',
   * then at least one decimal digit and nothing else, within range.
   */
  function ParseUnsigned(s: string, max: nat): (r: Option<nat>)
    ensures r.Some? ==> r.value <= max
    ensures r.Some? <==> (|UnsignedBody(s)| > 0 && AllDigits(UnsignedBody(s))
                          && DecimalValue(UnsignedBody(s)) <= max)
  {
    var body := UnsignedBody(s);
    if |body| > 0 && AllDigits(body) && DecimalValue(body) <= max then Some(DecimalValue(body))
    else None
  }

  /**
   * `s.parse::<iN>()` where `max` is the type's maximum: an optional sign,
   * then at least one decimal digit, within `-(max + 1) ..= max`.
   */
  function ParseSigned(s: string, max: nat): (r: Option<int>)
    ensures r.Some? ==> -(max + 1) <= r.value <= max
  {
    if |s| > 0 && s[0] == '-' then
      var body := s[1..];
      if |body| > 0 && AllDigits(body) && DecimalValue(body) <= max + 1 then
        var v: int := 0 - DecimalValue(body) as int;
        Some(v)
      else None
    else
      match ParseUnsigned(s, max)
      case Some(v) => Some(v)
      case None => None
  }

  /**
   * `iN::from_str_radix(s, 16)` where `max` is the type's maximum: an
   * optional sign, then at least one hexadecimal digit (either case),
   * within `-(max + 1) ..= max`.
   */
  function ParseSignedHex(s: string, max: nat): (r: Option<int>)
    ensures r.Some? ==> -(max + 1) <= r.value <= max
  {
    if |s| > 0 && s[0] == '-' then
      var body := s[1..];
      if |body| > 0 && AllHex(body) && HexadecimalValue(body) <= max + 1 then
        var v: int := 0 - HexadecimalValue(body) as int;
        Some(v)
      else None
    else
      var body := UnsignedBody(s);
      if |body| > 0 && AllHex(body) && HexadecimalValue(body) <= max then Some(HexadecimalValue(body))
      else None
  }

  /** Rust's `/` on signed integers by a positive divisor: the quotient truncated toward zero. */
  function Quot(a: int, b: int): (q: int)
    requires b > 0
    ensures a >= 0 ==> q >= 0 && q * b <= a < q * b + b
    ensures a <= 0 ==> q <= 0 && q * b - b < a <= q * b
  {
    if a >= 0 then a / b else -((-a) / b)
  }

  /** Decimal rendering of a natural number (`n.to_string()`). */
  function Decimal(n: nat): (s: string)
    ensures |s| > 0 && AllDigits(s)
    ensures DecimalValue(s) == n
  {
    if n < 10 then [DigitChar(n)]
    else
      var s := Decimal(n / 10) + [DigitChar(n % 10)];
      assert s[..|s| - 1] == Decimal(n / 10);
      s
  }

  /** Parsing inverts rendering for every value of the type. */
  lemma {:induction false} ParseDecimal(n: nat, max: nat)
    requires n <= max
    ensures ParseUnsigned(Decimal(n), max) == Some(n)
  {
    var s := Decimal(n);
    assert s[0] != '+';
    assert UnsignedBody(s) == s;
  }

  /** Decimal renderings, one per number. */
  function Decimals(xs: seq<nat>): (r: seq<string>)
    ensures |r| == |xs|
    ensures forall k :: 0 <= k < |r| ==> r[k] == Decimal(xs[k])
  {
    if |xs| == 0 then [] else [Decimal(xs[0])] + Decimals(xs[1..])
  }

  /** Every rendering is one word. */
  lemma DecimalsSolid(xs: seq<nat>)
    ensures forall k :: 0 <= k < |Decimals(xs)| ==> |Decimals(xs)[k]| > 0 && Solid(Decimals(xs)[k])
  {
    forall k | 0 <= k < |xs|
      ensures Solid(Decimal(xs[k]))
    {
      DigitsSolid(Decimal(xs[k]));
    }
  }

  // ---------------------------------------------------------------------------
  // Folds
  // ---------------------------------------------------------------------------

  function Sum(xs: seq<int>): int {
    if |xs| == 0 then 0 else xs[0] + Sum(xs[1..])
  }

  function Product(xs: seq<int>): int {
    if |xs| == 0 then 1 else xs[0] * Product(xs[1..])
  }

  lemma {:induction false} SumAppend(a: seq<int>, b: seq<int>)
    ensures Sum(a + b) == Sum(a) + Sum(b)
  {
    if |a| > 0 {
      assert (a + b)[1..] == a[1..] + b;
      SumAppend(a[1..], b);
    } else {
      assert a + b == b;
    }
  }

  /** `filter_map(f)`: the values of the pieces `f` accepts, in order. */
  function FilterMap<T>(pieces: seq<string>, f: string -> Option<T>): (r: seq<T>)
    ensures |r| <= |pieces|
  {
    if |pieces| == 0 then []
    else (match f(pieces[0]) case Some(v) => [v] case None => []) + FilterMap(pieces[1..], f)
  }

  /** Nothing is kept exactly when `f` rejects every piece. */
  lemma {:induction false} FilterMapNone<T>(pieces: seq<string>, f: string -> Option<T>)
    ensures |FilterMap(pieces, f)| == 0 <==> forall k :: 0 <= k < |pieces| ==> f(pieces[k]).None?
  {
    if |pieces| > 0 {
      FilterMapNone(pieces[1..], f);
      assert forall k :: 1 <= k < |pieces| ==> pieces[k] == pieces[1..][k - 1];
    }
  }

  /** When `f` accepts every piece, nothing is dropped. */
  lemma {:induction false} FilterMapAll<T>(pieces: seq<string>, f: string -> Option<T>, values: seq<T>)
    requires |values| == |pieces|
    requires forall k :: 0 <= k < |pieces| ==> f(pieces[k]) == Some(values[k])
    ensures FilterMap(pieces, f) == values
  {
    if |pieces| > 0 {
      FilterMapAll(pieces[1..], f, values[1..]);
      assert values == [values[0]] + values[1..];
    }
  }

  /** Parses every piece with `f` and keeps the successes (`filter_map(..ok())`). */
  function FilterMapNat(pieces: seq<string>, max: nat): (r: seq<nat>)
    ensures |r| <= |pieces|
    ensures forall k :: 0 <= k < |r| ==> r[k] <= max
  {
    if |pieces| == 0 then []
    else
      (match ParseUnsigned(pieces[0], max) case Some(v) => [v] case None => [])
      + FilterMapNat(pieces[1..], max)
  }

  function FilterMapInt(pieces: seq<string>, max: nat): (r: seq<int>)
    ensures |r| <= |pieces|
  {
    if |pieces| == 0 then []
    else
      (match ParseSigned(pieces[0], max) case Some(v) => [v] case None => [])
      + FilterMapInt(pieces[1..], max)
  }

  /** Parsing each rendering and keeping the successes gives the numbers back. */
  lemma {:induction false} FilterMapNatDecimals(xs: seq<nat>, max: nat)
    requires forall k :: 0 <= k < |xs| ==> xs[k] <= max
    ensures FilterMapNat(Decimals(xs), max) == xs
  {
    if |xs| > 0 {
      ParseDecimal(xs[0], max);
      FilterMapNatDecimals(xs[1..], max);
      assert Decimals(xs)[1..] == Decimals(xs[1..]);
    }
  }

  // ---------------------------------------------------------------------------
  // Grids
  // ---------------------------------------------------------------------------

  /** At least one row, a non-empty first row, every row the same width. */
  predicate Rectangular(grid: seq<string>) {
    |grid| > 0 && |grid[0]| > 0 && forall i :: 0 <= i < |grid| ==> |grid[i]| == |grid[0]|
  }

  function Column(grid: seq<string>, j: nat): (c: string)
    requires Rectangular(grid) && j < |grid[0]|
    ensures |c| == |grid| && forall i :: 0 <= i < |grid| ==> c[i] == grid[i][j]
  {
    seq(|grid|, i requires 0 <= i < |grid| => grid[i][j])
  }

  /** `iter.skip(n)`. */
  function Skip(s: string, n: nat): string {
    if n <= |s| then s[n..] else ""
  }

  /** Text whose lines form a rectangular grid, with no carriage returns. */
  predicate GridText(text: string) {
    '\r' !in text && Rectangular(Lines(text))
  }

  /** On text free of carriage returns, `lines()` is the split on line feeds without a final empty piece. */
  lemma {:induction false} LinesClean(text: string)
    requires '\r' !in text && |text| > 0
    ensures var pieces := Split(text, '\n');
      Lines(text) == if text[|text| - 1] == '\n' then pieces[..|pieces| - 1] else pieces
  {
    var pieces := Split(text, '\n');
    var kept := if text[|text| - 1] == '\n' then pieces[..|pieces| - 1] else pieces;
    forall k | 0 <= k < |kept| ensures StripCarriageReturn(kept[k]) == kept[k] {
      if |kept[k]| > 0 {
        assert kept[k] == pieces[k];
        SplitPiecesIn(text, '\n', k);
        assert kept[k][|kept[k]| - 1] in kept[k];
      }
    }
  }

  lemma {:induction false} FlatLines(text: string)
    requires '\r' !in text
    ensures Remove(text, '\n') == Concat(Lines(text))
  {
    if |text| > 0 {
      var pieces := Split(text, '\n');
      LinesClean(text);
      JoinSplit(text, '\n');
      RemoveJoin(pieces);
      if text[|text| - 1] == '\n' {
        LastPieceEmpty(text, '\n');
        ConcatDropEmpty(pieces);
      }
    }
  }

  /** Every character of a piece of `Split(s, c)` occurs in `s`. */
  lemma {:induction false} SplitPiecesIn(s: string, c: char, k: nat)
    requires k < |Split(s, c)|
    ensures forall x :: x in Split(s, c)[k] ==> x in s
    decreases |s|
  {
    if c in s {
      var i := IndexOf(s, c);
      if k > 0 {
        SplitPiecesIn(s[i + 1..], c, k - 1);
        forall x | x in s[i + 1..] ensures x in s {
          var p :| 0 <= p < |s[i + 1..]| && s[i + 1..][p] == x;
          assert s[i + 1 + p] == x;
        }
      } else {
        forall x | x in s[..i] ensures x in s {
          var p :| 0 <= p < i && s[..i][p] == x;
          assert s[p] == x;
        }
      }
    }
  }

  /** A string ending in the separator splits with an empty last piece. */
  lemma LastPieceEmpty(s: string, c: char)
    requires |s| > 0 && s[|s| - 1] == c
    ensures |Split(s, c)| >= 2 && Split(s, c)[|Split(s, c)| - 1] == ""
  {
    var a := s[..|s| - 1];
    assert s == a + [c] + "";
    SplitAppend(a, "", c);
    assert Split("", c) == [""];
  }

  lemma {:induction false} ConcatDropEmpty(pieces: seq<string>)
    requires |pieces| > 0 && pieces[|pieces| - 1] == ""
    ensures Concat(pieces[..|pieces| - 1]) == Concat(pieces)
  {
    if |pieces| > 1 {
      ConcatDropEmpty(pieces[1..]);
      assert pieces[1..][..|pieces| - 2] == pieces[..|pieces| - 1][1..];
    }
  }

  /** Stepping by the width from offset `n` through equal-width rows laid end to end reads column `n`. */
  lemma {:induction false} StepThroughRows(rows: seq<string>, width: nat, n: nat)
    requires |rows| > 0 && n < width
    requires forall i :: 0 <= i < |rows| ==> |rows[i]| == width
    ensures var r := StepBy(Concat(rows)[n..], width);
      |r| == |rows| && forall i :: 0 <= i < |rows| ==> r[i] == rows[i][n]
  {
    var rest := Concat(rows[1..]);
    assert Concat(rows) == rows[0] + rest;
    var s := Concat(rows)[n..];
    assert s == rows[0][n..] + rest;
    if |rows| > 1 {
      assert rows[1..][0] == rows[1];
      StepThroughRows(rows[1..], width, n);
      assert s[width..] == rest[n..];
    } else {
      assert rest == "";
    }
  }

  /** Stepping through the text without line feeds reads the grid's columns. */
  lemma {:induction false} StepColumns(text: string, n: nat)
    requires GridText(text) && n < |Lines(text)[0]|
    ensures StepBy(Skip(Remove(text, '\n'), n), |Lines(text)[0]|) == Column(Lines(text), n)
  {
    var rows := Lines(text);
    FlatLines(text);
    StepThroughRows(rows, |rows[0]|, n);
  }
}
