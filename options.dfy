/** The accepted values of the --format and --level flags (cmd/options.go). */
module Options {
  import opened Strings

  const FormatHtml := "html"
  const FormatBadge := "badge"
  const FormatValue := "value"

  const LevelFull := "full"
  const LevelSummary := "summary"

  function AllFormats(): seq<string>
  {
    [FormatHtml, FormatBadge, FormatValue]
  }

  function AllLevels(): seq<string>
  {
    [LevelFull, LevelSummary]
  }

  /** The list of formats as shown in help and error texts. */
  function AllFormatsString(): (r: string)
    ensures r == "html, badge, value"
  {
    assert Join(AllFormats()[2..], ", ") == "value";
    assert Join(AllFormats()[1..], ", ") == "badge, value";
    Join(AllFormats(), ", ")
  }

  /** The list of levels as shown in help and error texts. */
  function AllLevelsString(): (r: string)
    ensures r == "full, summary"
  {
    assert Join(AllLevels()[1..], ", ") == "summary";
    Join(AllLevels(), ", ")
  }

  /** A format is valid exactly when it is one of the three names, compared case-sensitively. */
  predicate IsValidFormat(value: string)
    ensures IsValidFormat(value) <==> value == "html" || value == "badge" || value == "value"
  {
    value in AllFormats()
  }

  /** A level is valid exactly when it is "full" or "summary", compared case-sensitively. */
  predicate IsValidLevel(value: string)
    ensures IsValidLevel(value) <==> value == "full" || value == "summary"
  {
    value in AllLevels()
  }
}
