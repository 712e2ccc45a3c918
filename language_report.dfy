/**
 * The report's document definition: the header, then three sections in a
 * fixed order (popularity, highest paid, learning difficulty), each a heading
 * followed by a table with one header row and one row per merged row.
 */
module LanguageReport {
  import opened JsText
  import opened Entries
  import opened Merge
  import opened Header

  const DefaultTitle: string := "Reporte de Lenguajes de Programación"
  const DefaultSubTitle: string := "Popularidad, Salarios y Dificultad de Aprendizaje"

  const PopularityHeading: string := "Ranking de Popularidad"
  const HighestPaidHeading: string := "Ranking de Mejores Pagos"
  const DifficultyHeading: string := "Ranking de Dificultad de Aprendizaje"

  const PopularityColumns: seq<string> := ["Posición", "Ranking PYPL", "Ranking TIOBE"]
  const HighestPaidColumns: seq<string> := ["Posición", "Index.dev", "GeeksforGeeks"]
  const DifficultyColumns: seq<string> := ["Posición", "digitalogy", "linkedin"]

  /** Options of `getLanguageReport`; `None` is a title or subtitle left undefined or null. */
  datatype ReportOptions = ReportOptions(
    title: Option<string>,
    subTitle: Option<string>,
    combinedRanking: seq<PopularityRow>,
    highestPaidRanking: seq<HighestPaidRow>,
    learningDifficultyRanking: seq<DifficultyRow>)

  /** The document definition: page orientation, margins and styles are not modelled. */
  datatype Report = Report(header: Content, footer: string, content: seq<Content>)

  /** `value ?? fallback`. */
  function OrDefault(value: Option<string>, fallback: string): string {
    if value.Some? then value.value else fallback
  }

  /** `position ? position.toString() : 'N/A'`: zero is falsy. */
  function PositionCell(position: int): string {
    if position != 0 then IntToString(position) else NotAvailable
  }

  /** `language || 'N/A'`. */
  function LanguageCell(language: Option<string>): string {
    if Truthy(language) then language.value else NotAvailable
  }

  /** A position cell is the sentinel exactly for position zero; a positive position shows its digits. */
  lemma PositionCellSentinel(position: int)
    ensures PositionCell(position) == NotAvailable <==> position == 0
    ensures position > 0 ==> PositionCell(position) == NatToString(position)
  {
    if position > 0 {
      assert IsDigit(NatToString(position)[0]);
    }
  }

  /** A language cell is the sentinel exactly when the label is missing, empty or itself the sentinel. */
  lemma LanguageCellSentinel(language: Option<string>)
    ensures LanguageCell(language) == NotAvailable <==>
      language == None || language == Some("") || language == Some(NotAvailable)
    ensures LanguageCell(language) != ""
  {
  }

  function PopularityBody(rows: seq<PopularityRow>): (body: seq<seq<string>>)
    ensures |body| == 1 + |rows| && body[0] == PopularityColumns
    ensures forall k :: 0 <= k < |rows| ==>
      body[k + 1] == [PositionCell(rows[k].position), LanguageCell(rows[k].pyplLanguage), LanguageCell(rows[k].tiobeLanguage)]
  {
    [PopularityColumns] + seq(|rows|, k requires 0 <= k < |rows| =>
      [PositionCell(rows[k].position), LanguageCell(rows[k].pyplLanguage), LanguageCell(rows[k].tiobeLanguage)])
  }

  /** The highest-paid table shows withcodeexample (`indexDevLanguage`) before GeeksforGeeks. */
  function HighestPaidBody(rows: seq<HighestPaidRow>): (body: seq<seq<string>>)
    ensures |body| == 1 + |rows| && body[0] == HighestPaidColumns
    ensures forall k :: 0 <= k < |rows| ==>
      body[k + 1] == [PositionCell(rows[k].ranking), LanguageCell(rows[k].indexDevLanguage), LanguageCell(rows[k].geeksforGeeksLanguage)]
  {
    [HighestPaidColumns] + seq(|rows|, k requires 0 <= k < |rows| =>
      [PositionCell(rows[k].ranking), LanguageCell(rows[k].indexDevLanguage), LanguageCell(rows[k].geeksforGeeksLanguage)])
  }

  function DifficultyBody(rows: seq<DifficultyRow>): (body: seq<seq<string>>)
    ensures |body| == 1 + |rows| && body[0] == DifficultyColumns
    ensures forall k :: 0 <= k < |rows| ==>
      body[k + 1] == [PositionCell(rows[k].ranking), LanguageCell(rows[k].easyLanguage), LanguageCell(rows[k].hardLanguage)]
  {
    [DifficultyColumns] + seq(|rows|, k requires 0 <= k < |rows| =>
      [PositionCell(rows[k].ranking), LanguageCell(rows[k].easyLanguage), LanguageCell(rows[k].hardLanguage)])
  }

  /**
   * `getLanguageReport`: the header with the title and subtitle defaults and
   * logo and date shown, then the three sections in their fixed order.
   */
  function GetLanguageReport(options: ReportOptions): (r: Report)
    ensures r.header == HeaderSection(HeaderOptions(
      Some(OrDefault(options.title, DefaultTitle)), Some(OrDefault(options.subTitle, DefaultSubTitle)),
      Some(true), Some(true)))
    ensures r.footer == ""
    ensures |r.content| == 12
    ensures r.content[1] == Heading(PopularityHeading)
    ensures r.content[5] == Heading(HighestPaidHeading)
    ensures r.content[9] == Heading(DifficultyHeading)
    ensures r.content[3] == Table(1, PopularityBody(options.combinedRanking))
    ensures r.content[7] == Table(1, HighestPaidBody(options.highestPaidRanking))
    ensures r.content[11] == Table(1, DifficultyBody(options.learningDifficultyRanking))
    ensures forall i :: 0 <= i < 6 ==> r.content[2 * i] == Text("\n")
  {
    Report(
      HeaderSection(HeaderOptions(
        Some(OrDefault(options.title, DefaultTitle)),
        Some(OrDefault(options.subTitle, DefaultSubTitle)),
        Some(true), Some(true))),
      "",
      [ Text("\n"), Heading(PopularityHeading), Text("\n"), Table(1, PopularityBody(options.combinedRanking)),
        Text("\n"), Heading(HighestPaidHeading), Text("\n"), Table(1, HighestPaidBody(options.highestPaidRanking)),
        Text("\n"), Heading(DifficultyHeading), Text("\n"), Table(1, DifficultyBody(options.learningDifficultyRanking)) ])
  }

  /**
   * What the report's header shows: the logo and the date always; the
   * default title only when none is given, while an explicitly empty title
   * removes the title block and the subtitle with it; the subtitle likewise.
   */
  lemma ReportHeader(options: ReportOptions)
    ensures GetLanguageReport(options).header.columns[0] == Image(LogoPath)
    ensures GetLanguageReport(options).header.columns[2] == CurrentDate
    ensures options.title == Some("") ==> GetLanguageReport(options).header.columns[1] == Null
    ensures options.title != Some("") ==>
      GetLanguageReport(options).header.columns[1].Stack?
      && GetLanguageReport(options).header.columns[1].stack[0]
           == Text(if options.title.None? then DefaultTitle else options.title.value)
    ensures options.title != Some("") ==>
      GetLanguageReport(options).header.columns[1].stack[1]
        == if options.subTitle.None? then Text(DefaultSubTitle)
           else if options.subTitle.value == "" then Null
           else Text(options.subTitle.value)
  {
  }

  /**
   * Rendered from the merge of two lists, the popularity table shows the
   * 1-based index as position (never the sentinel) and each side's label or
   * the sentinel, row by row in merge order.
   */
  lemma PopularityTableFromMerge(pypl: seq<Entry>, tiobe: seq<Entry>, rows: seq<PopularityRow>)
    requires IsPopularityMerge(pypl, tiobe, rows)
    ensures |PopularityBody(rows)| == 1 + Max(|pypl|, |tiobe|)
    ensures forall k :: 0 <= k < |rows| ==>
      PopularityBody(rows)[k + 1] == [NatToString(k + 1), LabelOrNA(pypl, k), LabelOrNA(tiobe, k)]
  {
    forall k | 0 <= k < |rows|
      ensures PopularityBody(rows)[k + 1] == [NatToString(k + 1), LabelOrNA(pypl, k), LabelOrNA(tiobe, k)]
    {
      PositionCellSentinel(k + 1);
      LabelOrNAShowsLabel(pypl, k);
      LabelOrNAShowsLabel(tiobe, k);
    }
  }

  /**
   * Rendered from the merge of GeeksforGeeks (left) and withcodeexample
   * (right), the highest-paid table shows the right-hand list first.
   */
  lemma HighestPaidTableFromMerge(geeksforGeeks: seq<Entry>, indexDev: seq<Entry>, rows: seq<HighestPaidRow>)
    requires IsHighestPaidMerge(geeksforGeeks, indexDev, rows)
    ensures |HighestPaidBody(rows)| == 1 + Max(|geeksforGeeks|, |indexDev|)
    ensures forall k :: 0 <= k < |rows| ==>
      HighestPaidBody(rows)[k + 1] == [NatToString(k + 1), LabelOrNA(indexDev, k), LabelOrNA(geeksforGeeks, k)]
  {
    forall k | 0 <= k < |rows|
      ensures HighestPaidBody(rows)[k + 1] == [NatToString(k + 1), LabelOrNA(indexDev, k), LabelOrNA(geeksforGeeks, k)]
    {
      PositionCellSentinel(k + 1);
      LabelOrNAShowsLabel(indexDev, k);
      LabelOrNAShowsLabel(geeksforGeeks, k);
    }
  }

  /** Rendered from the merge of Digitalogy and LinkedIn, the table keeps the merge's column order. */
  lemma DifficultyTableFromMerge(easiest: seq<Entry>, hardest: seq<Entry>, rows: seq<DifficultyRow>)
    requires IsDifficultyMerge(easiest, hardest, rows)
    ensures |DifficultyBody(rows)| == 1 + Max(|easiest|, |hardest|)
    ensures forall k :: 0 <= k < |rows| ==>
      DifficultyBody(rows)[k + 1] == [NatToString(k + 1), LabelOrNA(easiest, k), LabelOrNA(hardest, k)]
  {
    forall k | 0 <= k < |rows|
      ensures DifficultyBody(rows)[k + 1] == [NatToString(k + 1), LabelOrNA(easiest, k), LabelOrNA(hardest, k)]
    {
      PositionCellSentinel(k + 1);
      LabelOrNAShowsLabel(easiest, k);
      LabelOrNAShowsLabel(hardest, k);
    }
  }
}
