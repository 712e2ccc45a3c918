/**
 * The scraper service's run: six extractions, three merges and the report.
 * The browser is not modelled; what each page yields is a parameter, either
 * the extracted cells or captures, or a failure of navigation or reading.
 */
module Scraper {
  import opened JsText
  import opened Entries
  import opened Merge
  import opened Header
  import opened LanguageReport

  /**
   * What one page gave: its extracted text, or a failure. `ReadFailed` is a
   * failure while navigating, waiting for the page or reading it; `PageFailed`
   * is a failure to open or close the browser tab. TIOBE opens and closes its
   * tab outside the code that catches its errors; the other five open it
   * inside.
   */
  datatype Fetch<T> = Fetched(value: T) | ReadFailed | PageFailed

  /**
   * TIOBE's outcome: a read failure is caught and yields the empty list, a
   * tab failure escapes (`None`), and a read page yields its ranking.
   */
  function TiobeOutcome(page: Fetch<seq<seq<string>>>): (r: Option<seq<Entry>>)
    ensures r.None? <==> page.PageFailed?
    ensures page.ReadFailed? ==> r == Some([])
    ensures page.Fetched? ==> r == Some(TiobeRanking(page.value))
  {
    match page
    case Fetched(rows) => Some(TiobeRanking(rows))
    case ReadFailed => Some([])
    case PageFailed => None
  }

  /**
   * The part of `executeScrapes` after the extractions: the three merges, in
   * the order the service pairs the lists, and the report built from them
   * with the default title and subtitle passed explicitly.
   */
  method BuildReport(
    pyplRanking: seq<Entry>, tiobeRanking: seq<Entry>,
    geeksforGeeksRanking: seq<Entry>, indexDevRanking: seq<Entry>,
    easiestToLearnRanking: seq<Entry>, hardestToLearnRanking: seq<Entry>)
    returns (docDefinition: Report)
    ensures exists combined, highestPaid, learningDifficulty ::
      && IsPopularityMerge(pyplRanking, tiobeRanking, combined)
      && IsHighestPaidMerge(geeksforGeeksRanking, indexDevRanking, highestPaid)
      && IsDifficultyMerge(easiestToLearnRanking, hardestToLearnRanking, learningDifficulty)
      && docDefinition == GetLanguageReport(ReportOptions(
           Some(DefaultTitle), Some(DefaultSubTitle), combined, highestPaid, learningDifficulty))
    ensures docDefinition.header.Columns? && |docDefinition.header.columns| == 3
    ensures docDefinition.header.columns[1] == Stack([Text(DefaultTitle), Text(DefaultSubTitle)])
    ensures |docDefinition.content| == 12
    ensures docDefinition.content[3].Table?
      && |docDefinition.content[3].body| == 1 + Max(|pyplRanking|, |tiobeRanking|)
    ensures docDefinition.content[7].Table?
      && |docDefinition.content[7].body| == 1 + Max(|geeksforGeeksRanking|, |indexDevRanking|)
    ensures docDefinition.content[11].Table?
      && |docDefinition.content[11].body| == 1 + Max(|easiestToLearnRanking|, |hardestToLearnRanking|)
  {
    var combinedRanking := CombineRankingsByPosition(pyplRanking, tiobeRanking);
    var highestPaidRanking := CombineHighestPaidRankings(geeksforGeeksRanking, indexDevRanking);
    var learningDifficultyRanking := CombineLearningDifficultyRankings(easiestToLearnRanking, hardestToLearnRanking);
    docDefinition := GetLanguageReport(ReportOptions(
      Some(DefaultTitle), Some(DefaultSubTitle),
      combinedRanking, highestPaidRanking, learningDifficultyRanking));
  }

  /**
   * What the built report shows, from the six rankings: the default title
   * over the default subtitle, and in each table one body row per index up
   * to the longer list, numbered from 1, with each list's label at that
   * index or `'N/A'`; withcodeexample's column comes before GeeksforGeeks'.
   */
  lemma ReportTables(
    pyplRanking: seq<Entry>, tiobeRanking: seq<Entry>,
    geeksforGeeksRanking: seq<Entry>, indexDevRanking: seq<Entry>,
    easiestToLearnRanking: seq<Entry>, hardestToLearnRanking: seq<Entry>,
    combined: seq<PopularityRow>, highestPaid: seq<HighestPaidRow>, learningDifficulty: seq<DifficultyRow>,
    docDefinition: Report)
    requires IsPopularityMerge(pyplRanking, tiobeRanking, combined)
    requires IsHighestPaidMerge(geeksforGeeksRanking, indexDevRanking, highestPaid)
    requires IsDifficultyMerge(easiestToLearnRanking, hardestToLearnRanking, learningDifficulty)
    requires docDefinition == GetLanguageReport(ReportOptions(
      Some(DefaultTitle), Some(DefaultSubTitle), combined, highestPaid, learningDifficulty))
    ensures docDefinition.header.Columns? && |docDefinition.header.columns| == 3
    ensures docDefinition.header.columns[1] == Stack([Text(DefaultTitle), Text(DefaultSubTitle)])
    ensures |docDefinition.content| == 12
    ensures docDefinition.content[3].Table?
      && |docDefinition.content[3].body| == 1 + Max(|pyplRanking|, |tiobeRanking|)
      && forall k :: 0 <= k < Max(|pyplRanking|, |tiobeRanking|) ==>
           docDefinition.content[3].body[k + 1]
             == [NatToString(k + 1), LabelOrNA(pyplRanking, k), LabelOrNA(tiobeRanking, k)]
    ensures docDefinition.content[7].Table?
      && |docDefinition.content[7].body| == 1 + Max(|geeksforGeeksRanking|, |indexDevRanking|)
      && forall k :: 0 <= k < Max(|geeksforGeeksRanking|, |indexDevRanking|) ==>
           docDefinition.content[7].body[k + 1]
             == [NatToString(k + 1), LabelOrNA(indexDevRanking, k), LabelOrNA(geeksforGeeksRanking, k)]
    ensures docDefinition.content[11].Table?
      && |docDefinition.content[11].body| == 1 + Max(|easiestToLearnRanking|, |hardestToLearnRanking|)
      && forall k :: 0 <= k < Max(|easiestToLearnRanking|, |hardestToLearnRanking|) ==>
           docDefinition.content[11].body[k + 1]
             == [NatToString(k + 1), LabelOrNA(easiestToLearnRanking, k), LabelOrNA(hardestToLearnRanking, k)]
  {
    PopularityTableFromMerge(pyplRanking, tiobeRanking, combined);
    HighestPaidTableFromMerge(geeksforGeeksRanking, indexDevRanking, highestPaid);
    DifficultyTableFromMerge(easiestToLearnRanking, hardestToLearnRanking, learningDifficulty);
  }

  /**
   * `executeScrapes`: the other five extractors rethrow, so one failure among
   * them rejects the whole batch and no report is built; TIOBE rejects it
   * only when its tab fails, and a read failure only leaves its column empty.
   * Otherwise the report is the one built from the six rankings.
   */
  method ExecuteScrapes(
    pyplPage: Fetch<seq<seq<string>>>,
    tiobePage: Fetch<seq<seq<string>>>,
    geeksforGeeksPage: Fetch<seq<string>>,
    withCodeExamplePage: Fetch<seq<string>>,
    digitalogyPage: Fetch<seq<string>>,
    linkedInPage: Fetch<seq<string>>)
    returns (report: Option<Report>)
    ensures report.Some? <==>
      && pyplPage.Fetched? && !tiobePage.PageFailed? && geeksforGeeksPage.Fetched?
      && withCodeExamplePage.Fetched? && digitalogyPage.Fetched? && linkedInPage.Fetched?
    ensures report.Some? ==>
      exists indexDevRanking, combined, highestPaid, learningDifficulty ::
        && IsWithCodeExampleRanking(withCodeExamplePage.value, indexDevRanking)
        && IsPopularityMerge(PyplRanking(pyplPage.value), TiobeOutcome(tiobePage).value, combined)
        && IsHighestPaidMerge(GeeksforGeeksRanking(geeksforGeeksPage.value), indexDevRanking, highestPaid)
        && IsDifficultyMerge(
             LearningCurveRanking(digitalogyPage.value), LearningCurveRanking(linkedInPage.value), learningDifficulty)
        && report.value == GetLanguageReport(ReportOptions(
             Some(DefaultTitle), Some(DefaultSubTitle), combined, highestPaid, learningDifficulty))
  {
    if !pyplPage.Fetched? || tiobePage.PageFailed? || !geeksforGeeksPage.Fetched?
      || !withCodeExamplePage.Fetched? || !digitalogyPage.Fetched? || !linkedInPage.Fetched? {
      return None;
    }
    var pyplRanking := PyplRanking(pyplPage.value);
    var tiobeRanking := TiobeOutcome(tiobePage).value;
    var geeksforGeeksRanking := GeeksforGeeksRanking(geeksforGeeksPage.value);
    var indexDevRanking := WithCodeExampleRanking(withCodeExamplePage.value);
    var easiestToLearnRanking := LearningCurveRanking(digitalogyPage.value);
    var hardestToLearnRanking := LearningCurveRanking(linkedInPage.value);
    assert IsWithCodeExampleRanking(withCodeExamplePage.value, indexDevRanking);

    var docDefinition := BuildReport(
      pyplRanking, tiobeRanking, geeksforGeeksRanking, indexDevRanking,
      easiestToLearnRanking, hardestToLearnRanking);
    report := Some(docDefinition);
  }
}
