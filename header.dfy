/**
 * The page header of the report: a row of three slots holding the logo, the
 * title block (title with subtitle beneath) and the date, each of which may
 * be left empty.
 */
module Header {
  import opened JsText

  /**
   * The part of the document-definition language the report builds. Styles,
   * sizes, margins and alignment are not modelled; `Heading` is a text with
   * the section-heading style, `CurrentDate` the locale-formatted date of the
   * day the report is built.
   */
  datatype Content =
    | Null
    | Image(path: string)
    | CurrentDate
    | Text(text: string)
    | Heading(text: string)
    | Stack(stack: seq<Content>)
    | Columns(columns: seq<Content>)
    | Table(headerRows: nat, body: seq<seq<string>>)

  const LogoPath: string := "src/assets/logo.png"

  /** Header options; `None` is an omitted (undefined) option. */
  datatype HeaderOptions = HeaderOptions(
    title: Option<string>,
    subTitle: Option<string>,
    showLogo: Option<bool>,
    showDate: Option<bool>)

  /** JavaScript truthiness of an optional string: undefined and `""` are falsy. */
  predicate Truthy(s: Option<string>) {
    s.Some? && s.value != ""
  }

  /**
   * `headerSection`: `showLogo` and `showDate` default to true when omitted;
   * the title slot exists only for a non-empty title and carries the subtitle
   * beneath it, or an empty slot there when the subtitle is missing or empty.
   */
  function HeaderSection(options: HeaderOptions): (r: Content)
    ensures r.Columns? && |r.columns| == 3
    ensures r.columns[0] == Null <==> options.showLogo == Some(false)
    ensures r.columns[0] != Null ==> r.columns[0] == Image(LogoPath)
    ensures r.columns[2] == Null <==> options.showDate == Some(false)
    ensures r.columns[2] != Null ==> r.columns[2] == CurrentDate
    ensures r.columns[1] == Null <==> !Truthy(options.title)
    ensures r.columns[1] != Null ==>
      && r.columns[1].Stack? && |r.columns[1].stack| == 2
      && r.columns[1].stack[0] == Text(options.title.value)
      && (r.columns[1].stack[1] == Null <==> !Truthy(options.subTitle))
      && (r.columns[1].stack[1] != Null ==> r.columns[1].stack[1] == Text(options.subTitle.value))
  {
    var showLogo := if options.showLogo.Some? then options.showLogo.value else true;
    var showDate := if options.showDate.Some? then options.showDate.value else true;
    var headerLogo := if showLogo then Image(LogoPath) else Null;
    var headerDate := if showDate then CurrentDate else Null;
    var headerSubTitle := if Truthy(options.subTitle) then Text(options.subTitle.value) else Null;
    var headerTitle := if Truthy(options.title) then Stack([Text(options.title.value), headerSubTitle]) else Null;
    Columns([headerLogo, headerTitle, headerDate])
  }
}
