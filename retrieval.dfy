/** The top-1 selection of `findMostSimilarIndex`.

    The loop walks the context rows in order, keeping the best score seen so far
    (`highestSimilarity`, starting at -1) and its index (`mostSimilarIndex`,
    starting at the sentinel -1), and replaces the pair only when a score is
    strictly greater. The scores are an input here: one per context row, in row
    order.
 */
module Retrieval {
  import opened Similarity

  /** The index returned when no row is selected. */
  const NoMatch: int := -1

  /** The initial value of the best score: a row must score above it to be chosen. */
  const Floor: real := -1.0

  /** The two loop variables: the best score so far and the index that attained it. */
  datatype Scan = Scan(highest: real, index: int)

  /** One iteration of the loop body, for row `i` with score `s`. */
  function Step(acc: Scan, s: Score, i: int): Scan {
    if Exceeds(s, acc.highest) then Scan(s.value, i) else acc
  }

  /** The loop variables after the rows `[0, k)` have been visited. */
  function ScanPrefix(scores: seq<Score>, k: nat): Scan
    requires k <= |scores|
  {
    if k == 0 then Scan(Floor, NoMatch)
    else Step(ScanPrefix(scores, k - 1), scores[k - 1], k - 1)
  }

  /** The index the whole loop returns. */
  function Select(scores: seq<Score>): int {
    ScanPrefix(scores, |scores|).index
  }

  // ---------------------------------------------------------------------------
  // The selection described without the loop.

  /** No score among the first `k` is a number above `bound`. */
  ghost predicate NoneExceeds(scores: seq<Score>, k: nat, bound: real)
    requires k <= |scores|
  {
    forall j :: 0 <= j < k ==> !Exceeds(scores[j], bound)
  }

  /** Among the first `k` scores, `i` holds a number above the floor that no score
      exceeds, and every score before it is strictly smaller (or NaN). */
  ghost predicate IsFirstMaximum(scores: seq<Score>, k: nat, i: int)
    requires k <= |scores|
  {
    && 0 <= i < k
    && Exceeds(scores[i], Floor)
    && (forall j :: 0 <= j < k ==> !Exceeds(scores[j], scores[i].value))
    && (forall j :: 0 <= j < i ==> !Reaches(scores[j], scores[i].value))
  }

  /** `r` is the index the selection must return for `scores`: the sentinel when
      no score rises above the floor, otherwise the first index of the maximum. */
  ghost predicate SelectionSpec(scores: seq<Score>, r: int) {
    || (r == NoMatch && NoneExceeds(scores, |scores|, Floor))
    || IsFirstMaximum(scores, |scores|, r)
  }

  /** The loop invariant: after rows `[0, k)`, the index is the sentinel and the
      best score still the floor when nothing exceeded the floor, and otherwise the
      index is the first position of the maximum and the best score its value. */
  lemma {:induction false} ScanPrefixInvariant(scores: seq<Score>, k: nat)
    requires k <= |scores|
    ensures var st := ScanPrefix(scores, k);
      || (st.index == NoMatch && st.highest == Floor && NoneExceeds(scores, k, Floor))
      || (IsFirstMaximum(scores, k, st.index) && st.highest == scores[st.index].value)
  {
    if k > 0 {
      ScanPrefixInvariant(scores, k - 1);
    }
  }

  /** The specification admits one index at most, so it defines the selection. */
  lemma SelectionSpecUnique(scores: seq<Score>, r1: int, r2: int)
    requires SelectionSpec(scores, r1) && SelectionSpec(scores, r2)
    ensures r1 == r2
  {
  }

  /** The loop's result meets the specification. */
  lemma SelectMeetsSpec(scores: seq<Score>)
    ensures SelectionSpec(scores, Select(scores))
  {
    ScanPrefixInvariant(scores, |scores|);
  }

  /** The returned index is the sentinel or a valid row index. */
  lemma SelectInRange(scores: seq<Score>)
    ensures Select(scores) == NoMatch || 0 <= Select(scores) < |scores|
  {
    SelectMeetsSpec(scores);
  }

  /** An empty corpus never enters the loop body and yields the sentinel. */
  lemma SelectEmpty(scores: seq<Score>)
    requires |scores| == 0
    ensures Select(scores) == NoMatch
  {
  }

  /** The sentinel comes back exactly when no score is a number above -1, which
      includes a non-empty corpus whose scores are all at most -1 or NaN. */
  lemma SelectNoMatchIff(scores: seq<Score>)
    ensures Select(scores) == NoMatch <==> NoneExceeds(scores, |scores|, Floor)
  {
    SelectMeetsSpec(scores);
  }

  /** A selected row scores above -1 and at least as high as every other row. */
  lemma SelectIsMaximum(scores: seq<Score>)
    requires Select(scores) != NoMatch
    ensures 0 <= Select(scores) < |scores|
    ensures scores[Select(scores)].Num? && scores[Select(scores)].value > Floor
    ensures forall j :: 0 <= j < |scores| && scores[j].Num? ==>
      scores[j].value <= scores[Select(scores)].value
  {
    SelectMeetsSpec(scores);
    var i := Select(scores);
    forall j | 0 <= j < |scores| && scores[j].Num?
      ensures scores[j].value <= scores[i].value
    {
      assert !Exceeds(scores[j], scores[i].value);
    }
  }

  /** Ties go to the lowest index: every earlier row scores strictly less or is NaN. */
  lemma SelectIsFirst(scores: seq<Score>)
    requires Select(scores) != NoMatch
    ensures 0 <= Select(scores) < |scores| && scores[Select(scores)].Num?
    ensures forall j :: 0 <= j < Select(scores) ==>
      scores[j].NaN? || scores[j].value < scores[Select(scores)].value
  {
    SelectMeetsSpec(scores);
    var i := Select(scores);
    forall j | 0 <= j < i
      ensures scores[j].NaN? || scores[j].value < scores[i].value
    {
      assert !Reaches(scores[j], scores[i].value);
    }
  }

  /** A NaN score is never selected. */
  lemma NaNNeverSelected(scores: seq<Score>, i: int)
    requires 0 <= i < |scores| && scores[i].NaN?
    ensures Select(scores) != i
  {
    SelectMeetsSpec(scores);
  }

  /** Any index meeting the specification is the one the loop returns. */
  lemma SpecDeterminesSelect(scores: seq<Score>, r: int)
    requires SelectionSpec(scores, r)
    ensures Select(scores) == r
  {
    SelectMeetsSpec(scores);
    SelectionSpecUnique(scores, r, Select(scores));
  }

  /** Two rows with the same score: the first one wins. */
  lemma TieGoesToFirstRow(v: real)
    requires v > Floor
    ensures Select([Num(v), Num(v)]) == 0
  {
    SpecDeterminesSelect([Num(v), Num(v)], 0);
  }

  /** Rows that all score exactly -1 are never selected, however many there are. */
  lemma AllAtFloorIsNoMatch(n: nat)
    ensures Select(seq(n, _ => Num(Floor))) == NoMatch
  {
    SelectNoMatchIff(seq(n, _ => Num(Floor)));
  }

  // ---------------------------------------------------------------------------
  // The loop itself.

  /** Scan the scores of the context rows in order and return the index of the
      most similar one, or -1 when none scores above -1. */
  method FindMostSimilarIndex(scores: seq<Score>) returns (mostSimilarIndex: int)
    ensures mostSimilarIndex == Select(scores)
    ensures SelectionSpec(scores, mostSimilarIndex)
  {
    var highestSimilarity := Floor;
    mostSimilarIndex := NoMatch;
    for i := 0 to |scores|
      invariant Scan(highestSimilarity, mostSimilarIndex) == ScanPrefix(scores, i)
    {
      if Exceeds(scores[i], highestSimilarity) {
        highestSimilarity := scores[i].value;
        mostSimilarIndex := i;
      }
    }
    SelectMeetsSpec(scores);
  }
}
