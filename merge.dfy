/**
 * The three positional mergers of the scraper service. Each aligns two ranked
 * lists by index (never by label), pads the shorter with `'N/A'`, and numbers
 * the rows from 1. They differ only in the names of their fields.
 */
module Merge {
  import opened JsText
  import opened Entries

  const NotAvailable: string := "N/A"

  /** A row of the popularity table (PYPL beside TIOBE). */
  datatype PopularityRow = PopularityRow(position: int, pyplLanguage: Option<string>, tiobeLanguage: Option<string>)

  /** A row of the highest-paid table (GeeksforGeeks beside withcodeexample). */
  datatype HighestPaidRow = HighestPaidRow(ranking: int, geeksforGeeksLanguage: Option<string>, indexDevLanguage: Option<string>)

  /** A row of the learning-difficulty table (Digitalogy beside LinkedIn). */
  datatype DifficultyRow = DifficultyRow(ranking: int, easyLanguage: Option<string>, hardLanguage: Option<string>)

  /** `side[i]?.language || 'N/A'`: a missing entry, a missing label and an empty label all read as `'N/A'`. */
  function LabelOrNA(side: seq<Entry>, i: nat): string {
    if i < |side| && side[i].language.Some? && side[i].language.value != "" then side[i].language.value
    else NotAvailable
  }

  /**
   * The column shows the entry's own label exactly when the entry exists and
   * its label is non-empty; otherwise the sentinel. In particular it is never
   * empty, and it is the sentinel for every index past the end of the list.
   */
  lemma LabelOrNAShowsLabel(side: seq<Entry>, i: nat)
    ensures LabelOrNA(side, i) != ""
    ensures i < |side| && side[i].language.Some? && side[i].language.value != "" ==>
      LabelOrNA(side, i) == side[i].language.value
    ensures !(i < |side| && side[i].language.Some? && side[i].language.value != "") ==>
      LabelOrNA(side, i) == NotAvailable
    ensures i >= |side| ==> LabelOrNA(side, i) == NotAvailable
  {
  }

  /** `combined` is the index-by-index merge of `pypl` and `tiobe`. */
  predicate IsPopularityMerge(pypl: seq<Entry>, tiobe: seq<Entry>, combined: seq<PopularityRow>) {
    && |combined| == Max(|pypl|, |tiobe|)
    && forall i :: 0 <= i < |combined| ==>
         combined[i] == PopularityRow(i + 1, Some(LabelOrNA(pypl, i)), Some(LabelOrNA(tiobe, i)))
  }

  /** `combined` is the index-by-index merge of `geeksforGeeks` and `indexDev`. */
  predicate IsHighestPaidMerge(geeksforGeeks: seq<Entry>, indexDev: seq<Entry>, combined: seq<HighestPaidRow>) {
    && |combined| == Max(|geeksforGeeks|, |indexDev|)
    && forall i :: 0 <= i < |combined| ==>
         combined[i] == HighestPaidRow(i + 1, Some(LabelOrNA(geeksforGeeks, i)), Some(LabelOrNA(indexDev, i)))
  }

  /** `combined` is the index-by-index merge of `easiest` and `hardest`. */
  predicate IsDifficultyMerge(easiest: seq<Entry>, hardest: seq<Entry>, combined: seq<DifficultyRow>) {
    && |combined| == Max(|easiest|, |hardest|)
    && forall i :: 0 <= i < |combined| ==>
         combined[i] == DifficultyRow(i + 1, Some(LabelOrNA(easiest, i)), Some(LabelOrNA(hardest, i)))
  }

  method CombineLearningDifficultyRankings(easiest: seq<Entry>, hardest: seq<Entry>)
    returns (combined: seq<DifficultyRow>)
    ensures IsDifficultyMerge(easiest, hardest, combined)
  {
    var maxLength := Max(|easiest|, |hardest|);
    combined := [];
    for i := 0 to maxLength
      invariant |combined| == i
      invariant forall k :: 0 <= k < i ==>
        combined[k] == DifficultyRow(k + 1, Some(LabelOrNA(easiest, k)), Some(LabelOrNA(hardest, k)))
    {
      combined := combined + [DifficultyRow(i + 1, Some(LabelOrNA(easiest, i)), Some(LabelOrNA(hardest, i)))];
    }
  }

  method CombineRankingsByPosition(pypl: seq<Entry>, tiobe: seq<Entry>)
    returns (combined: seq<PopularityRow>)
    ensures IsPopularityMerge(pypl, tiobe, combined)
  {
    var maxLength := Max(|pypl|, |tiobe|);
    combined := [];
    for i := 0 to maxLength
      invariant |combined| == i
      invariant forall k :: 0 <= k < i ==>
        combined[k] == PopularityRow(k + 1, Some(LabelOrNA(pypl, k)), Some(LabelOrNA(tiobe, k)))
    {
      combined := combined + [PopularityRow(i + 1, Some(LabelOrNA(pypl, i)), Some(LabelOrNA(tiobe, i)))];
    }
  }

  method CombineHighestPaidRankings(geeksforGeeks: seq<Entry>, indexDev: seq<Entry>)
    returns (combined: seq<HighestPaidRow>)
    ensures IsHighestPaidMerge(geeksforGeeks, indexDev, combined)
  {
    var maxLength := Max(|geeksforGeeks|, |indexDev|);
    combined := [];
    for i := 0 to maxLength
      invariant |combined| == i
      invariant forall k :: 0 <= k < i ==>
        combined[k] == HighestPaidRow(k + 1, Some(LabelOrNA(geeksforGeeks, k)), Some(LabelOrNA(indexDev, k)))
    {
      combined := combined + [HighestPaidRow(i + 1, Some(LabelOrNA(geeksforGeeks, i)), Some(LabelOrNA(indexDev, i)))];
    }
  }

  /**
   * The merge's shape, stated once for the popularity rows (the other two
   * merges have the same definition): two empty lists give no rows, positions
   * run 1, 2, ... without gaps, a list merged with itself gives equal columns,
   * and a column is the sentinel at every index past the end of its list.
   */
  lemma PopularityMergeShape(pypl: seq<Entry>, tiobe: seq<Entry>, combined: seq<PopularityRow>)
    requires IsPopularityMerge(pypl, tiobe, combined)
    ensures pypl == [] && tiobe == [] ==> combined == []
    ensures forall i :: 0 <= i < |combined| ==> combined[i].position == i + 1
    ensures pypl == tiobe ==> forall i :: 0 <= i < |combined| ==> combined[i].pyplLanguage == combined[i].tiobeLanguage
    ensures forall i :: |pypl| <= i < |combined| ==> combined[i].pyplLanguage == Some(NotAvailable)
    ensures forall i :: |tiobe| <= i < |combined| ==> combined[i].tiobeLanguage == Some(NotAvailable)
  {
  }

  /** The end-to-end popularity example: PYPL has two entries, TIOBE three. */
  method CombineRankingsByPositionExample() {
    var pypl := [Entry(Str("1"), Some("Python")), Entry(Str("2"), Some("C++"))];
    var tiobe := [Entry(Str("1"), Some("C")), Entry(Str("2"), Some("Python")), Entry(Str("3"), Some("Java"))];
    var combined := CombineRankingsByPosition(pypl, tiobe);
    assert combined[0] == PopularityRow(1, Some("Python"), Some("C"));
    assert combined[1] == PopularityRow(2, Some("C++"), Some("Python"));
    assert combined[2] == PopularityRow(3, Some("N/A"), Some("Java"));
    assert |combined| == 3;
  }
}
