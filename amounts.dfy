/**
 * `Nutritionist.extract_amounts`: the first match of the regular expression
 * `\d+(\.\d+)?\s*(%|g|ml)` in an ingredient label, found the way
 * `re.search` finds it (leftmost start position), or `None`.
 *
 * The pattern is given twice: once as the language of words it accepts
 * (`IsAmount`), and once as the deterministic left-to-right scan that the
 * regular-expression engine ends up performing at each start position
 * (`ScanAt`). At a fixed start the engine never profits from backtracking:
 * whatever may follow a digit run, a fraction or a whitespace run is a
 * character none of these runs can contain.
 */
module Amounts {
  import opened Wrappers
  import opened Text

  // ---------------------------------------------------------------------
  // The language of the pattern, on the span s[a..b] of a label s
  // ---------------------------------------------------------------------

  /** `s[a..b]` is a word of `\d+`. */
  ghost predicate DigitsIn(s: string, a: nat, b: nat) {
    a < b <= |s| && forall k :: a <= k < b ==> IsDigit(s[k])
  }

  /** `s[a..b]` is a word of `\s*`. */
  ghost predicate BlanksIn(s: string, a: nat, b: nat) {
    a <= b <= |s| && forall k :: a <= k < b ==> IsBlank(s[k])
  }

  /** `s[a..b]` is a word of `%|g|ml`. */
  ghost predicate UnitIn(s: string, a: nat, b: nat) {
    || (b == a + 1 <= |s| && (s[a] == '%' || s[a] == 'g'))
    || (b == a + 2 <= |s| && s[a] == 'm' && s[a + 1] == 'l')
  }

  /** `s[a..b]` is a word of `\d+(\.\d+)?`. */
  ghost predicate NumberIn(s: string, a: nat, b: nat) {
    || DigitsIn(s, a, b)
    || exists k: nat :: a < k < b <= |s| && DigitsIn(s, a, k) && s[k] == '.' && DigitsIn(s, k + 1, b)
  }

  /** `s[a..b]` is a word of `\d+(\.\d+)?\s*(%|g|ml)`: a number, optional whitespace, a unit. */
  ghost predicate AmountIn(s: string, a: nat, b: nat) {
    exists p: nat, q: nat :: a <= p <= q <= b && NumberIn(s, a, p) && BlanksIn(s, p, q) && UnitIn(s, q, b)
  }

  /** The word `w` as a whole is a word of the pattern. */
  ghost predicate IsAmount(w: string) {
    AmountIn(w, 0, |w|)
  }

  /** Some match of the pattern starts at index `i` of `s`. */
  ghost predicate MatchesAt(s: string, i: nat) {
    exists j: nat :: i <= j <= |s| && AmountIn(s, i, j)
  }

  /** `s[i..j]` is the match `re.search` reports: no match starts earlier. */
  ghost predicate LeftmostMatch(s: string, i: nat, j: nat) {
    && i <= j <= |s|
    && AmountIn(s, i, j)
    && forall k: nat :: k < i ==> !MatchesAt(s, k)
  }

  // ---------------------------------------------------------------------
  // The scan
  // ---------------------------------------------------------------------

  /** The end of the longest run of digits starting at `i`. */
  function DigitRun(s: string, i: nat): (j: nat)
    requires i <= |s|
    ensures i <= j <= |s|
    ensures forall k :: i <= k < j ==> IsDigit(s[k])
    ensures j == |s| || !IsDigit(s[j])
    decreases |s| - i
  {
    if i < |s| && IsDigit(s[i]) then DigitRun(s, i + 1) else i
  }

  /** The end of the longest run of whitespace starting at `i`. */
  function BlankRun(s: string, i: nat): (j: nat)
    requires i <= |s|
    ensures i <= j <= |s|
    ensures forall k :: i <= k < j ==> IsBlank(s[k])
    ensures j == |s| || !IsBlank(s[j])
    decreases |s| - i
  {
    if i < |s| && IsBlank(s[i]) then BlankRun(s, i + 1) else i
  }

  /** The end of the unit `%`, `g` or `ml` starting at `w`, tried in that order. */
  function UnitEnd(s: string, w: nat): (r: Option<nat>)
    requires w <= |s|
    ensures r.Some? ==> w < r.value <= |s| && UnitIn(s, w, r.value)
    ensures r.None? ==> forall e: nat :: !UnitIn(s, w, e)
  {
    if w < |s| && (s[w] == '%' || s[w] == 'g') then Some(w + 1)
    else if w + 1 < |s| && s[w] == 'm' && s[w + 1] == 'l' then Some(w + 2)
    else None
  }

  /** The end of the optional `.` and digits starting at `d`; `d` when no digit follows a `.` there. */
  function FractionEnd(s: string, d: nat): (f: nat)
    requires d <= |s|
    ensures d <= f <= |s|
  {
    if d + 1 < |s| && s[d] == '.' && IsDigit(s[d + 1]) then DigitRun(s, d + 1) else d
  }

  /**
   * The end of the match starting at `i`, if there is one: the digits, then
   * `.` and digits when a digit follows the `.`, then whitespace, then a unit.
   */
  function ScanAt(s: string, i: nat): (r: Option<nat>)
    requires i <= |s|
    ensures r.Some? ==> i < r.value <= |s| && IsDigit(s[i])
  {
    var d := DigitRun(s, i);
    if d == i then None else UnitEnd(s, BlankRun(s, FractionEnd(s, d)))
  }

  /** `re.search`: try the start positions `i`, `i + 1`, ..., `|s|` in turn. */
  function SearchFrom(s: string, i: nat): (r: Option<(nat, nat)>)
    requires i <= |s|
    ensures r.Some? ==> i <= r.value.0 < r.value.1 <= |s| && IsDigit(s[r.value.0])
    decreases |s| - i
  {
    match ScanAt(s, i)
    case Some(j) => Some((i, j))
    case None => if i == |s| then None else SearchFrom(s, i + 1)
  }

  /** `extract_amounts(ingredient)`: the matched text, or `None`. */
  function ExtractAmount(ingredient: string): (r: Option<string>)
    ensures r.Some? ==> r.value != [] && IsDigit(r.value[0])
  {
    match SearchFrom(ingredient, 0)
    case None => None
    case Some((i, j)) => Some(ingredient[i..j])
  }

  // ---------------------------------------------------------------------
  // The scan decides the language
  // ---------------------------------------------------------------------

  /** What the scan reports is a word of the pattern. */
  lemma ScanAtSound(s: string, i: nat)
    requires i <= |s|
    ensures ScanAt(s, i).Some? ==> AmountIn(s, i, ScanAt(s, i).value)
  {
    var d := DigitRun(s, i);
    if d != i {
      var f := FractionEnd(s, d);
      var b := BlankRun(s, f);
      if UnitEnd(s, b).Some? {
        assert DigitsIn(s, i, d);
        if f != d {
          assert DigitsIn(s, d + 1, f);
        }
        assert NumberIn(s, i, f);
        assert BlanksIn(s, f, b);
      }
    }
  }

  /** A digit run that stops before a non-digit is the longest one. */
  lemma DigitRunEnd(s: string, i: nat, e: nat)
    requires i <= e < |s| && !IsDigit(s[e])
    requires forall k :: i <= k < e ==> IsDigit(s[k])
    ensures DigitRun(s, i) == e
  {
  }

  /** A whitespace run that stops before a non-blank is the longest one. */
  lemma BlankRunEnd(s: string, i: nat, e: nat)
    requires i <= e < |s| && !IsBlank(s[e])
    requires forall k :: i <= k < e ==> IsBlank(s[k])
    ensures BlankRun(s, i) == e
  {
  }

  /** The scan reads a number up to the first character that can not extend it. */
  lemma NumberScan(s: string, i: nat, p: nat)
    requires NumberIn(s, i, p) && p < |s| && !IsDigit(s[p]) && s[p] != '.'
    ensures DigitRun(s, i) != i && FractionEnd(s, DigitRun(s, i)) == p
  {
    if DigitsIn(s, i, p) {
      DigitRunEnd(s, i, p);
    } else {
      var k: nat :| i < k < p <= |s| && DigitsIn(s, i, k) && s[k] == '.' && DigitsIn(s, k + 1, p);
      DigitRunEnd(s, i, k);
      DigitRunEnd(s, k + 1, p);
    }
  }

  /** Every word of the pattern at `i` is found by the scan, with its end. */
  lemma ScanAtComplete(s: string, i: nat, j: nat)
    requires AmountIn(s, i, j)
    ensures ScanAt(s, i) == Some(j)
  {
    var p: nat, q: nat :| i <= p <= q <= j && NumberIn(s, i, p) && BlanksIn(s, p, q) && UnitIn(s, q, j);
    assert q < |s| && (s[q] == '%' || s[q] == 'g' || s[q] == 'm') && UnitEnd(s, q) == Some(j);
    assert p < |s| && !IsDigit(s[p]) && s[p] != '.' by {
      if p < q { assert IsBlank(s[p]); }
    }
    BlankRunEnd(s, p, q);
    NumberScan(s, i, p);
  }

  /** A start position carries at most one match: its end is determined. */
  lemma MatchEndUnique(s: string, i: nat, j1: nat, j2: nat)
    requires AmountIn(s, i, j1) && AmountIn(s, i, j2)
    ensures j1 == j2
  {
    ScanAtComplete(s, i, j1);
    ScanAtComplete(s, i, j2);
  }

  /** The scan finds nothing exactly where no match starts. */
  lemma ScanAtNone(s: string, i: nat)
    requires i <= |s|
    ensures ScanAt(s, i).None? <==> !MatchesAt(s, i)
  {
    if MatchesAt(s, i) {
      var j: nat :| i <= j <= |s| && AmountIn(s, i, j);
      ScanAtComplete(s, i, j);
    } else {
      ScanAtSound(s, i);
    }
  }

  /** The search stops at the first start position at or after `i` where the scan succeeds. */
  lemma {:induction false} SearchFromScan(s: string, i: nat)
    requires i <= |s|
    ensures SearchFrom(s, i).None? <==> forall k: nat :: i <= k <= |s| ==> ScanAt(s, k).None?
    ensures SearchFrom(s, i).Some? ==>
              && ScanAt(s, SearchFrom(s, i).value.0) == Some(SearchFrom(s, i).value.1)
              && forall k: nat :: i <= k < SearchFrom(s, i).value.0 ==> ScanAt(s, k).None?
    decreases |s| - i
  {
    if ScanAt(s, i).None? && i < |s| {
      SearchFromScan(s, i + 1);
    }
  }

  /** The search reports the first start position at or after `i` that matches. */
  lemma SearchFromSpec(s: string, i: nat)
    requires i <= |s|
    ensures SearchFrom(s, i).None? <==> forall k: nat :: i <= k <= |s| ==> !MatchesAt(s, k)
    ensures SearchFrom(s, i).Some? ==>
              && AmountIn(s, SearchFrom(s, i).value.0, SearchFrom(s, i).value.1)
              && forall k: nat :: i <= k < SearchFrom(s, i).value.0 ==> !MatchesAt(s, k)
  {
    SearchFromScan(s, i);
    forall k: nat | i <= k <= |s| ensures ScanAt(s, k).None? <==> !MatchesAt(s, k) {
      ScanAtNone(s, k);
    }
    if SearchFrom(s, i).Some? {
      ScanAtSound(s, SearchFrom(s, i).value.0);
    }
  }

  /** A span that is a word of the pattern, cut out of its label, is still one. */
  lemma AmountInSlice(s: string, i: nat, j: nat)
    requires AmountIn(s, i, j)
    ensures IsAmount(s[i..j])
  {
    var w := s[i..j];
    var p: nat, q: nat :| i <= p <= q <= j && NumberIn(s, i, p) && BlanksIn(s, p, q) && UnitIn(s, q, j);
    assert forall k :: 0 <= k < |w| ==> w[k] == s[i + k];
    assert BlanksIn(w, p - i, q - i);
    assert UnitIn(w, q - i, j - i);
    if DigitsIn(s, i, p) {
      assert DigitsIn(w, 0, p - i);
    } else {
      var k: nat :| i < k < p <= |s| && DigitsIn(s, i, k) && s[k] == '.' && DigitsIn(s, k + 1, p);
      assert DigitsIn(w, 0, k - i) && w[k - i] == '.' && DigitsIn(w, k - i + 1, p - i);
    }
    assert NumberIn(w, 0, p - i);
  }

  // ---------------------------------------------------------------------
  // What extract_amounts promises
  // ---------------------------------------------------------------------

  /**
   * `None` exactly when no index of the label starts a match; otherwise the
   * text of the leftmost match, itself a word of the pattern.
   */
  lemma ExtractAmountSpec(ingredient: string)
    ensures ExtractAmount(ingredient).None? <==>
              forall i: nat :: i <= |ingredient| ==> !MatchesAt(ingredient, i)
    ensures ExtractAmount(ingredient).Some? ==>
              && IsAmount(ExtractAmount(ingredient).value)
              && exists i: nat, j: nat :: LeftmostMatch(ingredient, i, j) && ExtractAmount(ingredient).value == ingredient[i..j]
  {
    SearchFromSpec(ingredient, 0);
    if SearchFrom(ingredient, 0).Some? {
      var (i, j) := SearchFrom(ingredient, 0).value;
      AmountInSlice(ingredient, i, j);
      assert LeftmostMatch(ingredient, i, j);
    }
  }

  /** The leftmost match is unique, so the statement above determines the result. */
  lemma LeftmostMatchUnique(s: string, i1: nat, j1: nat, i2: nat, j2: nat)
    requires LeftmostMatch(s, i1, j1) && LeftmostMatch(s, i2, j2)
    ensures i1 == i2 && j1 == j2
  {
    assert MatchesAt(s, i1) && MatchesAt(s, i2);
    MatchEndUnique(s, i1, j1, j2);
  }

  /** A digit just before a match makes a match that starts one earlier. */
  lemma MatchExtendsLeft(s: string, i: nat)
    requires 0 < i <= |s| && IsDigit(s[i - 1]) && MatchesAt(s, i)
    ensures MatchesAt(s, i - 1)
  {
    var j: nat :| i <= j <= |s| && AmountIn(s, i, j);
    ScanAtComplete(s, i, j);
    assert ScanAt(s, i - 1) == Some(j);
    ScanAtSound(s, i - 1);
  }

  /** A word of the pattern starts with a digit and ends with a unit. */
  lemma AmountInShape(s: string, i: nat, j: nat)
    requires AmountIn(s, i, j)
    ensures i < j <= |s| && IsDigit(s[i])
    ensures s[j - 1] == '%' || s[j - 1] == 'g' || (i + 2 <= j && s[j - 2] == 'm' && s[j - 1] == 'l')
  {
    var p: nat, q: nat :| i <= p <= q <= j && NumberIn(s, i, p) && BlanksIn(s, p, q) && UnitIn(s, q, j);
    assert DigitsIn(s, i, p) || exists k: nat :: i < k < p <= |s| && DigitsIn(s, i, k);
  }

  /** The leftmost match is never preceded by a digit. */
  lemma LeftmostMatchStart(s: string, i: nat, j: nat)
    requires LeftmostMatch(s, i, j)
    ensures i == 0 || !IsDigit(s[i - 1])
  {
    if i > 0 && IsDigit(s[i - 1]) {
      assert MatchesAt(s, i);
      MatchExtendsLeft(s, i);
    }
  }

  /**
   * The shape of a found amount: a span of the label, not preceded by a
   * digit, that starts with a digit and ends with `%`, `g` or `ml`.
   */
  lemma ExtractAmountShape(ingredient: string)
    requires ExtractAmount(ingredient).Some?
    ensures exists i: nat, j: nat ::
              && i < j <= |ingredient|
              && ExtractAmount(ingredient).value == ingredient[i..j]
              && IsDigit(ingredient[i])
              && (ingredient[j - 1] == '%' || ingredient[j - 1] == 'g' ||
                  (i + 2 <= j && ingredient[j - 2] == 'm' && ingredient[j - 1] == 'l'))
              && (i == 0 || !IsDigit(ingredient[i - 1]))
  {
    ExtractAmountSpec(ingredient);
    var i: nat, j: nat :| LeftmostMatch(ingredient, i, j) && ExtractAmount(ingredient).value == ingredient[i..j];
    AmountInShape(ingredient, i, j);
    LeftmostMatchStart(ingredient, i, j);
  }

  /**
   * A found amount is never the empty string, so the truthiness test
   * `if extract_amounts(ing)` keeps exactly the labels that hold a match.
   */
  lemma ExtractAmountNonEmpty(ingredient: string)
    ensures ExtractAmount(ingredient).Some? ==> ExtractAmount(ingredient).value != ""
  {
    if ExtractAmount(ingredient).Some? {
      ExtractAmountShape(ingredient);
      var i: nat, j: nat :| i < j <= |ingredient| && ExtractAmount(ingredient).value == ingredient[i..j];
      assert |ingredient[i..j]| > 0;
    }
  }

  // Worked examples, each checked by the scan's steps.

  lemma ExampleSugar()
    ensures ExtractAmount("Sugar 30g") == Some("30g")
  {
    var s := "Sugar 30g";
    assert DigitRun(s, 6) == 8 && BlankRun(s, 8) == 8;
    assert ScanAt(s, 6) == Some(9);
    assert forall k :: 0 <= k < 6 ==> DigitRun(s, k) == k;
    assert SearchFrom(s, 0) == SearchFrom(s, 6) == Some((6, 9));
    assert s[6..9] == "30g";
  }

  lemma ExampleSalt()
    ensures ExtractAmount("Salt 2.5%") == Some("2.5%")
  {
    var s := "Salt 2.5%";
    assert DigitRun(s, 5) == 6 && DigitRun(s, 7) == 8 && BlankRun(s, 8) == 8;
    assert ScanAt(s, 5) == Some(9);
    assert forall k :: 0 <= k < 5 ==> DigitRun(s, k) == k;
    assert SearchFrom(s, 0) == SearchFrom(s, 5) == Some((5, 9));
    assert s[5..9] == "2.5%";
  }

  lemma ExampleWater()
    ensures ExtractAmount("Water") == None
  {
    var s := "Water";
    assert forall k :: 0 <= k <= 5 ==> DigitRun(s, k) == k;
    assert SearchFrom(s, 5) == None;
  }

  /** `mg` is not a unit: `m` must be followed by `l`. */
  lemma ExampleMilligrams()
    ensures ExtractAmount("10mg") == None
  {
    var s := "10mg";
    assert DigitRun(s, 0) == 2 && DigitRun(s, 1) == 2 && BlankRun(s, 2) == 2;
    assert forall k :: 2 <= k <= 4 ==> DigitRun(s, k) == k;
    assert SearchFrom(s, 0) == None;
  }
}
