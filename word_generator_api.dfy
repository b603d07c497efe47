/** The database-fed Word report: text sanitising, runs added through it, the
    severity colours, the inspection date label and the choice between the
    single-unit report and the building summary. */
module WordGeneratorApi {
  import opened Wrappers
  import opened Strings
  import opened Seqs

  // ---------------------------------------------------------------------------
  // Text sanitising
  // ---------------------------------------------------------------------------

  /** The four control characters removed explicitly: null, vertical tab, form feed
      and unit separator. */
  predicate Control(c: char) {
    c == '\0' || c == '\U{000B}' || c == '\U{000C}' || c == '\U{001F}'
  }

  predicate NotControl(c: char) { !Control(c) }

  /** The characters the final pass keeps: printable ones, line breaks, carriage
      returns and tabs. */
  function Printable(isPrintable: char -> bool): char -> bool {
    c => isPrintable(c) || c in "\n\r\t"
  }

  /** `sanitize_text`: nothing for a missing or empty text; otherwise the trimmed
      text without the four control characters and without anything that is neither
      printable nor a line break, carriage return or tab. Python's Unicode
      printability table is the parameter `isPrintable`. */
  function SanitizeText(text: Option<string>, isPrintable: char -> bool): (r: string)
    ensures text.None? || text.value == [] ==> r == []
    ensures forall k :: 0 <= k < |r| ==> !Control(r[k]) && (isPrintable(r[k]) || r[k] in "\n\r\t")
  {
    if text.None? || text.value == [] then []
    else
      var stripped := Filter(Trim(text.value), NotControl);
      var r := Filter(stripped, Printable(isPrintable));
      assert forall k :: 0 <= k < |r| ==> r[k] in stripped by {
        forall k | 0 <= k < |r| ensures r[k] in stripped {
          FilterMembers(stripped, Printable(isPrintable), r[k]);
        }
      }
      r
  }

  /** The sanitised text only deletes characters of the trimmed text, and keeps every
      character that is not one of the four and is printable, a line break, a
      carriage return or a tab. */
  lemma SanitizeKeeps(t: string, isPrintable: char -> bool)
    requires t != []
    ensures IsSubsequence(SanitizeText(Some(t), isPrintable), Trim(t))
    ensures forall c :: c in Trim(t) && !Control(c) && (isPrintable(c) || c in "\n\r\t")
                        ==> c in SanitizeText(Some(t), isPrintable)
  {
    var keep := Printable(isPrintable);
    var both := c => NotControl(c) && keep(c);
    FilterFilter(Trim(t), NotControl, keep, both);
    FilterIsSubsequence(Trim(t), both);
    forall c | c in Trim(t) && !Control(c) && (isPrintable(c) || c in "\n\r\t")
      ensures c in SanitizeText(Some(t), isPrintable)
    {
      FilterMembers(Trim(t), both, c);
    }
  }

  /** Sanitising a sanitised text changes nothing when every kept character is also
      outside the whitespace `strip` removes. */
  lemma SanitizeOfCleanNoop(t: string, isPrintable: char -> bool)
    requires t != [] && Trim(t) == t
    requires forall k :: 0 <= k < |t| ==> !Control(t[k]) && isPrintable(t[k])
    ensures SanitizeText(Some(t), isPrintable) == t
  {
    var keep := Printable(isPrintable);
    FilterAll(t, NotControl);
    FilterAll(t, keep);
  }

  lemma {:induction false} FilterAll(s: string, p: char -> bool)
    requires forall k :: 0 <= k < |s| ==> p(s[k])
    ensures Filter(s, p) == s
    decreases |s|
  {
    if s != [] {
      FilterAll(s[1..], p);
      assert s == [s[0]] + s[1..];
    }
  }

  // ---------------------------------------------------------------------------
  // Runs
  // ---------------------------------------------------------------------------

  datatype Rgb = Rgb(red: nat, green: nat, blue: nat)

  /** A run with the formatting options that were passed; `None` leaves the
      document's own formatting. */
  datatype FormattedRun = FormattedRun(text: string, bold: Option<bool>, italic: Option<bool>,
                                       fontSize: Option<nat>, color: Option<Rgb>, fontName: Option<string>)

  class DocParagraph {
    var runs: seq<FormattedRun>

    constructor ()
      ensures runs == []
    {
      runs := [];
    }

    /** `safe_add_run`: appends one run carrying the sanitised text and the given
        formatting, and returns it. */
    method SafeAddRun(text: Option<string>, isPrintable: char -> bool, bold: Option<bool>, italic: Option<bool>,
                      fontSize: Option<nat>, color: Option<Rgb>, fontName: Option<string>)
      returns (run: FormattedRun)
      modifies this
      ensures run == FormattedRun(SanitizeText(text, isPrintable), bold, italic, fontSize, color, fontName)
      ensures runs == old(runs) + [run]
    {
      var clean := SanitizeText(text, isPrintable);
      run := FormattedRun(clean, bold, italic, fontSize, color, fontName);
      runs := runs + [run];
    }
  }

  // ---------------------------------------------------------------------------
  // Severity colours
  // ---------------------------------------------------------------------------

  const Urgent := Rgb(192, 0, 0)
  const High := Rgb(255, 102, 0)
  const Medium := Rgb(255, 192, 0)
  const Low := Rgb(146, 208, 80)
  const Info := Rgb(68, 114, 196)
  const Black := Rgb(0, 0, 0)

  /** The five severity levels the report knows. */
  predicate KnownSeverity(s: string) {
    s == "Urgent" || s == "High Priority" || s == "Medium Priority" || s == "Low Priority" || s == "For Information"
  }

  /** `get_severity_color`: the level's colour, black for any other text. */
  function SeverityColor(severity: string): (c: Rgb)
    ensures severity == "Urgent" ==> c == Urgent
    ensures severity == "High Priority" ==> c == High
    ensures severity == "Medium Priority" ==> c == Medium
    ensures severity == "Low Priority" ==> c == Low
    ensures severity == "For Information" ==> c == Info
    ensures !KnownSeverity(severity) ==> c == Black
  {
    if severity == "Urgent" then Urgent
    else if severity == "High Priority" then High
    else if severity == "Medium Priority" then Medium
    else if severity == "Low Priority" then Low
    else if severity == "For Information" then Info
    else Black
  }

  /** The colour tells the level apart: distinct levels get distinct colours and no
      known level is printed black. */
  lemma SeverityColorInjective(a: string, b: string)
    requires KnownSeverity(a) && KnownSeverity(b) && a != b
    ensures SeverityColor(a) != SeverityColor(b)
    ensures SeverityColor(a) != Black
  {
  }

  // ---------------------------------------------------------------------------
  // Date label and report choice
  // ---------------------------------------------------------------------------

  /** The building name of the first result row, or "Unknown Building" without one. */
  function BuildingNameOf(row: Option<string>): (r: string)
    ensures row.Some? ==> r == row.value
    ensures row.None? ==> r == "Unknown Building"
  {
    if row.Some? then row.value else "Unknown Building"
  }

  /** The inspection date label: one date when the first and last agree, "first to
      last" when they differ, and "Date not specified" when either is missing.
      `format` is the `'%d %B %Y'` formatting of a date. */
  function DateRangeLabel<D(==)>(start: Option<D>, end: Option<D>, format: D -> string): (r: string)
    ensures start.None? || end.None? ==> r == "Date not specified"
    ensures start.Some? && end.Some? && start.value == end.value ==> r == format(start.value)
    ensures start.Some? && end.Some? && start.value != end.value ==> r == format(start.value) + " to " + format(end.value)
  {
    if start.Some? && end.Some? then
      if start.value == end.value then format(start.value)
      else format(start.value) + " to " + format(end.value)
    else "Date not specified"
  }

  /** A label of distinct dates names both: it starts with the first and ends with the last. */
  lemma DateRangeNamesBoth<D>(start: D, end: D, format: D -> string)
    requires start != end
    ensures StartsWith(DateRangeLabel(Some(start), Some(end), format), format(start))
    ensures EndsWith(DateRangeLabel(Some(start), Some(end), format), format(end))
  {
    var r := DateRangeLabel(Some(start), Some(end), format);
    assert r[..|format(start)|] == format(start);
    assert r[|r| - |format(end)|..] == format(end);
  }

  /** What `create_word_report_from_database` writes. */
  datatype WordReport = NoDefects | SingleUnitReport | BuildingSummary

  /** No Not OK defect among the inspections: nothing is written and the call fails.
      Otherwise the single-unit report for the "single" type or one inspection, and the
      building summary for anything else. */
  function WordReportKind(reportType: string, inspectionIds: seq<string>, defects: nat): (r: WordReport)
    ensures r == NoDefects <==> defects == 0
    ensures r == SingleUnitReport <==> defects > 0 && (reportType == "single" || |inspectionIds| == 1)
    ensures r == BuildingSummary <==> defects > 0 && reportType != "single" && |inspectionIds| != 1
  {
    if defects == 0 then NoDefects
    else if reportType == "single" || |inspectionIds| == 1 then SingleUnitReport
    else BuildingSummary
  }

  /** One inspection always gives the single-unit report, whatever type was asked for. */
  lemma OneInspectionIsSingle(reportType: string, id: string, defects: nat)
    requires defects > 0
    ensures WordReportKind(reportType, [id], defects) == SingleUnitReport
  {
  }
}
