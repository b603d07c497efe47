/** The derivations of the Excel inspection report: the quality score and its grade
    band, the report file name, the per-component defect summary, the test that
    marks a column as a date column, and the data-sheet column width. */
module ExcelGenerator {
  import opened Wrappers
  import opened Strings
  import opened Seqs
  import opened Sorting
  import opened Groups
  import ReportUtils

  // ---------------------------------------------------------------------------
  // Quality score and grade bands
  // ---------------------------------------------------------------------------

  /** `max(0, 100 - defect_rate)`, written with the defect rate in percent. */
  function QualityScore(defectRate: real): (r: real)
    ensures r >= 0.0
    ensures defectRate <= 100.0 ==> r == 100.0 - defectRate
    ensures defectRate >= 100.0 ==> r == 0.0
    ensures defectRate >= 0.0 ==> r <= 100.0
  {
    if 100.0 - defectRate > 0.0 then 100.0 - defectRate else 0.0
  }

  datatype Grade = APlus | A | BPlus | B | C | D

  /** The grade, benchmark and recommended action shown for a band. */
  datatype Interpretation = Interpretation(grade: string, benchmark: string, action: string)

  function InterpretationOf(g: Grade): Interpretation {
    match g
    case APlus => Interpretation("Excellent (A+)", "Above Industry Standard", "Maintain current standards")
    case A => Interpretation("Very Good (A)", "Industry Leading", "Minor quality improvements")
    case BPlus => Interpretation("Good (B+)", "Above Average", "Targeted improvements")
    case B => Interpretation("Satisfactory (B)", "Industry Average", "Quality enhancement needed")
    case C => Interpretation("Below Average (C)", "Below Industry Standard", "Significant improvements required")
    case D => Interpretation("Poor (D)", "Well Below Standard", "Comprehensive quality overhaul")
  }

  /** Position of a band, worst first. */
  function Rank(g: Grade): nat {
    match g
    case D => 0
    case C => 1
    case B => 2
    case BPlus => 3
    case A => 4
    case APlus => 5
  }

  /** The least score a band admits (none for the lowest band). */
  function Floor(g: Grade): Option<real> {
    match g
    case APlus => Some(98.0)
    case A => Some(95.0)
    case BPlus => Some(90.0)
    case B => Some(85.0)
    case C => Some(75.0)
    case D => None
  }

  /** The band above `g`, whose floor bounds `g`'s scores from above. */
  function Next(g: Grade): Option<Grade> {
    match g
    case APlus => None
    case A => Some(APlus)
    case BPlus => Some(A)
    case B => Some(BPlus)
    case C => Some(B)
    case D => Some(C)
  }

  /** `score` lies in band `g`: at or above its floor, below the next band's floor. */
  predicate InBand(score: real, g: Grade) {
    (Floor(g).None? || Floor(g).value <= score) &&
    (Next(g).None? || score < Floor(Next(g).value).value)
  }

  /** The first threshold the score reaches, from the top. */
  function QualityGrade(score: real): (g: Grade)
    ensures InBand(score, g)
  {
    if score >= 98.0 then APlus
    else if score >= 95.0 then A
    else if score >= 90.0 then BPlus
    else if score >= 85.0 then B
    else if score >= 75.0 then C
    else D
  }

  /** Every score lies in exactly one band. */
  lemma BandsDisjoint(score: real, g: Grade)
    requires InBand(score, g)
    ensures g == QualityGrade(score)
  {
  }

  /** A higher score never gets a worse grade. */
  lemma QualityGradeMonotone(s1: real, s2: real)
    requires s1 <= s2
    ensures Rank(QualityGrade(s1)) <= Rank(QualityGrade(s2))
  {
  }

  // ---------------------------------------------------------------------------
  // File name
  // ---------------------------------------------------------------------------

  predicate NameChar(c: char) {
    IsAlnum(c) || c == ' ' || c == '-' || c == '_'
  }

  /** The characters the cleaning never drops: letters, digits and `-`. */
  predicate KeptChar(c: char) {
    IsAlnum(c) || c == '-'
  }

  /** Keeps letters, digits, space, `-` and `_`, strips, then turns spaces into `_`:
      each character of the stripped, filtered name is kept in place, a space becoming
      `_`; and no letter, digit or `-` of the name is lost or reordered. */
  function CleanBuildingName(name: string): (r: string)
    ensures |r| <= |name|
    ensures forall i :: 0 <= i < |r| ==> IsAlnum(r[i]) || r[i] == '-' || r[i] == '_'
    ensures |r| == |Trim(Filter(name, NameChar))|
    ensures forall i :: 0 <= i < |r| ==>
              r[i] == if Trim(Filter(name, NameChar))[i] == ' ' then '_' else Trim(Filter(name, NameChar))[i]
    ensures Filter(r, KeptChar) == Filter(name, KeptChar)
    ensures Filter(r, IsAlnum) == Filter(name, IsAlnum)
  {
    CleanShape(name);
    KeptCharsNotBlank();
    CleanKeeps(name, KeptChar);
    CleanKeeps(name, IsAlnum);
    ReplaceAll(Trim(Filter(name, NameChar)), " ", "_")
  }

  /** The cleaned name is the stripped, filtered name with its spaces turned into `_`,
      character by character. */
  lemma CleanShape(name: string)
    ensures var stripped := Trim(Filter(name, NameChar));
            var r := ReplaceAll(stripped, " ", "_");
            |r| == |stripped| <= |name|
            && (forall i :: 0 <= i < |r| ==> r[i] == if stripped[i] == ' ' then '_' else stripped[i])
            && (forall i :: 0 <= i < |r| ==> IsAlnum(r[i]) || r[i] == '-' || r[i] == '_')
  {
    var kept := Filter(name, NameChar);
    var stripped := Trim(kept);
    TrimIsInfix(kept);
    ReplaceCharGone(stripped, ' ', '_');
    var r := ReplaceAll(stripped, " ", "_");
    forall i | 0 <= i < |r| ensures IsAlnum(r[i]) || r[i] == '-' || r[i] == '_' {
      assert stripped[i] in stripped;
    }
  }

  lemma KeptCharsNotBlank()
    ensures forall c :: KeptChar(c) ==> NameChar(c) && !IsWhitespace(c)
    ensures forall c :: IsAlnum(c) ==> NameChar(c) && !IsWhitespace(c)
    ensures !KeptChar('_') && !IsAlnum('_')
  {
  }

  /** A class of characters that the filter keeps, that are never whitespace and
      that does not hold `_`, survives the cleaning in order. */
  lemma CleanKeeps(name: string, p: char -> bool)
    requires forall c :: p(c) ==> NameChar(c) && !IsWhitespace(c)
    requires !p('_')
    ensures Filter(ReplaceAll(Trim(Filter(name, NameChar)), " ", "_"), p) == Filter(name, p)
  {
    var kept := Filter(name, NameChar);
    var stripped := Trim(kept);
    var r := ReplaceAll(stripped, " ", "_");
    ReplaceCharGone(stripped, ' ', '_');
    FilterFilter(name, NameChar, p, p);
    FilterTrimLeft(kept, p);
    FilterTrimRight(TrimLeft(kept), p);
    FilterPointwise(r, stripped, p);
  }

  /** Characters that are never whitespace are all kept by `strip`. */
  lemma {:induction false} FilterTrimLeft(s: string, p: char -> bool)
    requires forall c :: p(c) ==> !IsWhitespace(c)
    ensures Filter(TrimLeft(s), p) == Filter(s, p)
    decreases |s|
  {
    if s != [] && IsWhitespace(s[0]) {
      FilterTrimLeft(s[1..], p);
    }
  }

  lemma {:induction false} FilterTrimRight(s: string, p: char -> bool)
    requires forall c :: p(c) ==> !IsWhitespace(c)
    ensures Filter(TrimRight(s), p) == Filter(s, p)
    decreases |s|
  {
    if s != [] && IsWhitespace(s[|s| - 1]) {
      var init := s[..|s| - 1];
      FilterTrimRight(init, p);
      assert s == init + [s[|s| - 1]];
      FilterAppend(init, [s[|s| - 1]], p);
    }
  }

  /** Two strings that differ only where neither has a character of the class keep the
      same characters of it. */
  lemma {:induction false} FilterPointwise(a: string, b: string, p: char -> bool)
    requires |a| == |b|
    requires forall i :: 0 <= i < |a| ==> a[i] == b[i] || (!p(a[i]) && !p(b[i]))
    ensures Filter(a, p) == Filter(b, p)
    decreases |a|
  {
    if a != [] {
      FilterPointwise(a[1..], b[1..], p);
    }
  }

  /** Cleaning an already clean name changes nothing. */
  lemma CleanBuildingNameIdempotent(name: string)
    ensures CleanBuildingName(CleanBuildingName(name)) == CleanBuildingName(name)
  {
    var c := CleanBuildingName(name);
    NoSpaceClean(c);
  }

  lemma NoSpaceClean(c: string)
    requires forall i :: 0 <= i < |c| ==> IsAlnum(c[i]) || c[i] == '-' || c[i] == '_'
    ensures CleanBuildingName(c) == c
  {
    FilterAll(c, NameChar);
    NoWhitespaceTrim(c);
    NoSpaceReplace(c);
  }

  lemma NoSpaceReplace(c: string)
    requires forall i :: 0 <= i < |c| ==> IsAlnum(c[i]) || c[i] == '-' || c[i] == '_'
    ensures ReplaceAll(c, " ", "_") == c
  {
    ReplaceCharGone(c, ' ', '_');
    var r := ReplaceAll(c, " ", "_");
    assert r == c by {
      forall i | 0 <= i < |c| ensures r[i] == c[i] {
      }
    }
  }

  lemma {:induction false} FilterAll<T>(s: seq<T>, p: T -> bool)
    requires forall i :: 0 <= i < |s| ==> p(s[i])
    ensures Filter(s, p) == s
    decreases |s|
  {
    if s != [] {
      FilterAll(s[1..], p);
    }
  }

  lemma NoWhitespaceTrim(s: string)
    requires forall i :: 0 <= i < |s| ==> IsAlnum(s[i]) || s[i] == '-' || s[i] == '_'
    ensures Trim(s) == s
  {
    assert s == [] || !IsWhitespace(s[0]);
    assert TrimLeft(s) == s;
    assert s == [] || !IsWhitespace(s[|s| - 1]);
  }

  /** `"{clean}_Inspection_Report_{type}_{timestamp}"`; the timestamp is passed in. */
  function GenerateFilename(buildingName: string, reportType: string, timestamp: string): (r: string)
    ensures StartsWith(r, CleanBuildingName(buildingName) + "_Inspection_Report_")
    ensures EndsWith(r, "_" + timestamp)
    ensures |r| == |CleanBuildingName(buildingName) + "_Inspection_Report_"| + |reportType| + 1 + |timestamp|
    ensures var p := |CleanBuildingName(buildingName) + "_Inspection_Report_"|; r[p..p + |reportType|] == reportType
  {
    var prefix := CleanBuildingName(buildingName) + "_Inspection_Report_";
    ThreeParts(prefix, reportType, "_" + timestamp);
    prefix + reportType + ("_" + timestamp)
  }

  // ---------------------------------------------------------------------------
  // Date columns and column widths
  // ---------------------------------------------------------------------------

  /** The name, lower-cased and with its underscores removed. */
  function SquashedName(colName: string): string {
    ReplaceAll(Lower(colName), "_", "")
  }

  /** A date column by name (after lower-casing and removing `_`) or by dtype. */
  predicate IsDateColumn(colName: string, isDatetimeDtype: bool) {
    var n := SquashedName(colName);
    Contains(n, "date") || Contains(n, "plannedcompletion") || Contains(n, "timestamp")
    || Contains(n, "signoff") || isDatetimeDtype
  }

  /** A lower-case word written in the column name survives the squashing. */
  lemma WordSurvivesSquash(colName: string, i: nat, w: string)
    requires MatchAt(colName, i, w)
    requires forall k :: 0 <= k < |w| ==> 'a' <= w[k] <= 'z'
    ensures Contains(SquashedName(colName), w)
  {
    var l := Lower(colName);
    var a, b := l[..i], l[i + |w|..];
    assert l[i..i + |w|] == w by {
      forall k | 0 <= k < |w| ensures l[i + k] == w[k] {
        assert colName[i + k] == w[k];
      }
    }
    assert l == a + w + b;
    SquashAround(a, w, b);
  }

  /** Removing `_` around a word without `_` leaves the word in the result. */
  lemma SquashAround(a: string, w: string, b: string)
    requires forall k :: 0 <= k < |w| ==> 'a' <= w[k] <= 'z'
    ensures Contains(ReplaceAll(a + w + b, "_", ""), w)
  {
    NoStraddleSingle(a + w, b, '_');
    ReplaceAllConcat(a + w, b, "_", "");
    NoStraddleSingle(a, w, '_');
    ReplaceAllConcat(a, w, "_", "");
    NoCharNoContains(w, "_", '_');
    ReplaceAllAbsent(w, "_", "");
    var ra, rb := ReplaceAll(a, "_", ""), ReplaceAll(b, "_", "");
    assert ReplaceAll(a + w + b, "_", "") == ra + w + rb;
    assert MatchAt(ra + w + rb, |ra|, w) by {
      assert (ra + w + rb)[|ra|..|ra| + |w|] == w;
    }
    MatchImpliesContains(ra + w + rb, |ra|, w);
  }

  /** A column whose name contains "date" in lower case is a date column. */
  lemma DateNamedColumn(colName: string, i: nat, isDatetimeDtype: bool)
    requires MatchAt(colName, i, "date")
    ensures IsDateColumn(colName, isDatetimeDtype)
  {
    assert forall k :: 0 <= k < |"date"| ==> 'a' <= "date"[k] <= 'z';
    WordSurvivesSquash(colName, i, "date");
  }

  /** `min(max(len(header), longest cell) + 2, 50)`. */
  function SheetColumnWidth(headerLength: nat, cellLengths: seq<nat>): (w: nat)
    ensures w <= ReportUtils.MaxColumnWidth
  {
    ReportUtils.ColumnWidth([headerLength] + cellLengths)
  }

  /** The data-sheet width is the shared width rule over header and cells together. */
  lemma SheetColumnWidthFormula(headerLength: nat, cellLengths: seq<nat>)
    ensures var m := if headerLength >= ReportUtils.MaxLength(cellLengths) then headerLength
                     else ReportUtils.MaxLength(cellLengths);
            SheetColumnWidth(headerLength, cellLengths) == if m + 2 < 50 then m + 2 else 50
  {
    var s := [headerLength] + cellLengths;
    assert s[1..] == cellLengths;
  }

  // ---------------------------------------------------------------------------
  // Component summary
  // ---------------------------------------------------------------------------

  /** The two columns the summary reads; a missing component is a null cell. */
  datatype SummaryInput = SummaryInput(statusClass: string, component: Option<string>)

  predicate IsNotOk(r: SummaryInput) { r.statusClass == "Not OK" }

  /** A defect row with a component: the rows `groupby("Component")` counts. */
  predicate CountedRow(r: SummaryInput) { IsNotOk(r) && r.component.Some? }

  /** The components of the defect rows, in row order; groupby drops null keys. */
  function DefectComponents(rows: seq<SummaryInput>): (r: seq<string>)
    ensures |r| == |Filter(rows, CountedRow)| <= |rows|
    ensures forall c :: c in r <==> exists k :: 0 <= k < |rows| && CountedRow(rows[k]) && rows[k].component.value == c
    decreases |rows|
  {
    if rows == [] then []
    else
      var rest := DefectComponents(rows[1..]);
      assert forall k :: 0 < k < |rows| ==> rows[k] == rows[1..][k - 1];
      assert forall c :: c in rest ==> exists k :: 0 <= k < |rows| && CountedRow(rows[k]) && rows[k].component.value == c by {
        forall c | c in rest ensures exists k :: 0 <= k < |rows| && CountedRow(rows[k]) && rows[k].component.value == c {
          var j :| 0 <= j < |rows[1..]| && CountedRow(rows[1..][j]) && rows[1..][j].component.value == c;
          assert rows[j + 1] == rows[1..][j];
        }
      }
      (if CountedRow(rows[0]) then [rows[0].component.value] else []) + rest
  }

  predicate CountDescending(a: (string, nat), b: (string, nat)) { a.1 >= b.1 }

  lemma CountDescendingPreorder()
    ensures TotalPreorder(CountDescending)
  {
  }

  /** One row per component among the defect rows, with its defect count, most
      defects first; empty when a column is missing or no row is a defect. */
  function ComponentSummary(hasColumns: bool, rows: seq<SummaryInput>): (r: seq<(string, nat)>)
    ensures !hasColumns ==> r == []
    ensures Filter(rows, IsNotOk) == [] ==> r == []
  {
    if !hasColumns || Filter(rows, IsNotOk) == [] then []
    else SortBy(Tally(DefectComponents(rows)), CountDescending)
  }

  /** The summary is the per-component tally of the defects, ordered by count
      descending: each component once, its true count, counts adding up. */
  lemma ComponentSummaryFacts(hasColumns: bool, rows: seq<SummaryInput>)
    requires hasColumns && Filter(rows, IsNotOk) != []
    ensures var r := ComponentSummary(hasColumns, rows);
      SortedBy(r, CountDescending) &&
      multiset(r) == multiset(Tally(DefectComponents(rows))) &&
      SumCounts(r) == |DefectComponents(rows)| &&
      (forall i :: 0 <= i < |r| ==> r[i].1 == multiset(DefectComponents(rows))[r[i].0] && r[i].1 >= 1) &&
      (forall c :: c in DefectComponents(rows) <==> exists i :: 0 <= i < |r| && r[i].0 == c)
  {
    var cs := DefectComponents(rows);
    assert ComponentSummary(hasColumns, rows) == SortBy(Tally(cs), CountDescending);
    SortedTallyFacts(cs);
  }

  lemma SortedTallyFacts(cs: seq<string>)
    ensures var r := SortBy(Tally(cs), CountDescending);
      SortedBy(r, CountDescending) &&
      multiset(r) == multiset(Tally(cs)) &&
      SumCounts(r) == |cs| &&
      (forall i :: 0 <= i < |r| ==> r[i].1 == multiset(cs)[r[i].0] && r[i].1 >= 1) &&
      (forall c :: c in cs <==> exists i :: 0 <= i < |r| && r[i].0 == c)
  {
    var t := Tally(cs);
    var r := SortBy(t, CountDescending);
    CountDescendingPreorder();
    SortBySorted(t, CountDescending);
    TallyFacts(cs);
    SumCountsPermutation(r, t);
    PermutationKeys(t, r);
    forall i | 0 <= i < |r| ensures r[i].1 == multiset(cs)[r[i].0] && r[i].1 >= 1 {
      var j :| 0 <= j < |t| && t[j] == r[i];
    }
    forall c ensures c in cs <==> exists i :: 0 <= i < |r| && r[i].0 == c {
      assert c in cs <==> c in Keys(r);
    }
  }
}
