/** The derivations of the Word inspection report: the `**bold**` splitter and the
    runs it adds to a paragraph, the chart colour and severity buckets beside the
    buckets its prose quotes, the truncated affected-units cell, the component
    label, the file name and the first recommended priority. */
module WordGenerator {
  import opened Wrappers
  import opened Strings
  import ExcelGenerator

  // ---------------------------------------------------------------------------
  // The `**bold**` splitter: `re.split(r'\*\*(.*?)\*\*', text)`
  // ---------------------------------------------------------------------------

  /** A `**` marker starts at index `j` of `s`. */
  predicate MarkerAt(s: string, j: int) {
    0 <= j && j + 1 < |s| && s[j] == '*' && s[j + 1] == '*'
  }

  /** The closing marker of a match whose text starts at `j`: the first `**` at or
      after `j`, provided no line break comes before it (`.` does not match `\n`). */
  function FindClose(s: string, j: nat): (k: Option<nat>)
    ensures k.Some? ==> j <= k.value && MarkerAt(s, k.value)
    decreases |s| - j
  {
    if j + 2 > |s| then None
    else if MarkerAt(s, j) then Some(j)
    else if s[j] == '\n' then None
    else FindClose(s, j + 1)
  }

  /** Between `j` and the closing marker there is no line break and no other marker. */
  lemma {:induction false} FindCloseClean(s: string, j: nat)
    requires FindClose(s, j).Some?
    ensures forall m :: j <= m < FindClose(s, j).value ==> s[m] != '\n' && !MarkerAt(s, m)
    decreases |s| - j
  {
    if !MarkerAt(s, j) {
      FindCloseClean(s, j + 1);
    }
  }

  /** The leftmost match at or after `i`: the opening marker's index and the closing
      marker's index. */
  function FirstMatch(s: string, i: nat): (m: Option<(nat, nat)>)
    ensures m.Some? ==> i <= m.value.0 && m.value.0 + 2 <= m.value.1 && m.value.1 + 2 <= |s|
    ensures m.Some? ==> MarkerAt(s, m.value.0) && FindClose(s, m.value.0 + 2) == Some(m.value.1)
    decreases |s| - i
  {
    if i + 4 > |s| then None
    else if MarkerAt(s, i) && FindClose(s, i + 2).Some? then Some((i, FindClose(s, i + 2).value))
    else FirstMatch(s, i + 1)
  }

  /** The parts `re.split` returns: the text before each match, the match's inner
      text, and the rest after the last match. */
  function SplitBold(s: string): (parts: seq<string>)
    ensures |parts| % 2 == 1
    decreases |s|
  {
    match FirstMatch(s, 0)
    case None => [s]
    case Some(m) => [s[..m.0], s[m.0 + 2..m.1]] + SplitBold(s[m.1 + 2..])
  }

  /** The parts with the markers put back around every odd-index part. */
  function Reassemble(parts: seq<string>): string
    decreases |parts|
  {
    if |parts| < 2 then (if parts == [] then [] else parts[0])
    else parts[0] + "**" + parts[1] + "**" + Reassemble(parts[2..])
  }

  /** Putting the markers back gives the input: the split loses nothing but them. */
  lemma {:induction false} SplitBoldRoundTrip(s: string)
    ensures Reassemble(SplitBold(s)) == s
    decreases |s|
  {
    match FirstMatch(s, 0)
    case None =>
    case Some(m) =>
      var rest := s[m.1 + 2..];
      SplitBoldRoundTrip(rest);
      var parts := SplitBold(s);
      assert parts == [s[..m.0], s[m.0 + 2..m.1]] + SplitBold(rest);
      assert parts[2..] == SplitBold(rest);
      assert s[m.0..m.0 + 2] == "**" && s[m.1..m.1 + 2] == "**";
      assert s == s[..m.0] + s[m.0..m.0 + 2] + s[m.0 + 2..m.1] + s[m.1..m.1 + 2] + rest;
  }

  /** A bold part holds no line break and no `**`. */
  predicate CleanBold(t: string) {
    (forall m :: 0 <= m < |t| ==> t[m] != '\n') &&
    (forall m :: 0 <= m < |t| ==> !MarkerAt(t, m))
  }

  lemma InnerClean(s: string, i: nat, k: nat)
    requires i + 2 <= k && k + 2 <= |s| && FindClose(s, i + 2) == Some(k)
    ensures CleanBold(s[i + 2..k])
  {
    var t := s[i + 2..k];
    FindCloseClean(s, i + 2);
    forall m | 0 <= m < |t| ensures t[m] != '\n' {
      assert t[m] == s[i + 2 + m];
    }
    forall m | 0 <= m < |t| ensures !MarkerAt(t, m) {
      assert t[m] == s[i + 2 + m];
      if m + 1 < |t| {
        assert t[m + 1] == s[i + 2 + m + 1];
      }
    }
  }

  /** Every odd-index part is bold text that is clean. */
  lemma {:induction false} SplitBoldBoldParts(s: string)
    ensures forall k :: 0 <= k < |SplitBold(s)| && k % 2 == 1 ==> CleanBold(SplitBold(s)[k])
    decreases |s|
  {
    var fm := FirstMatch(s, 0);
    if fm.Some? {
      var m := fm.value;
      var rest := s[m.1 + 2..];
      var tail := SplitBold(rest);
      SplitBoldBoldParts(rest);
      InnerClean(s, m.0, m.1);
      var parts := SplitBold(s);
      assert parts == [s[..m.0], s[m.0 + 2..m.1]] + tail;
      forall k | 0 <= k < |parts| && k % 2 == 1 ensures CleanBold(parts[k]) {
        if k >= 2 {
          assert parts[k] == tail[k - 2];
        }
      }
    }
  }

  /** A run of text added to a paragraph. */
  datatype Run = Run(text: string, bold: bool)

  /** The runs the loop adds for the parts: even parts as plain runs when non-empty,
      odd parts as bold runs always, even when empty. */
  function RunsOf(parts: seq<string>): seq<Run>
    decreases |parts|
  {
    if parts == [] then []
    else
      var n := |parts| - 1;
      RunsOf(parts[..n]) + (if n % 2 == 0 then (if parts[n] != [] then [Run(parts[n], false)] else [])
                            else [Run(parts[n], true)])
  }

  function Concat(parts: seq<string>): string
    decreases |parts|
  {
    if parts == [] then [] else Concat(parts[..|parts| - 1]) + parts[|parts| - 1]
  }

  function RunText(runs: seq<Run>): string
    decreases |runs|
  {
    if runs == [] then [] else RunText(runs[..|runs| - 1]) + runs[|runs| - 1].text
  }

  lemma {:induction false} RunTextAppend(a: seq<Run>, b: seq<Run>)
    ensures RunText(a + b) == RunText(a) + RunText(b)
    decreases |b|
  {
    if b == [] {
      assert a + b == a;
    } else {
      var init := b[..|b| - 1];
      assert (a + b)[..|a + b| - 1] == a + init;
      assert (a + b)[|a + b| - 1] == b[|b| - 1];
      RunTextAppend(a, init);
    }
  }

  /** The last part's runs. */
  function LastRuns(parts: seq<string>): seq<Run>
    requires parts != []
  {
    var n := |parts| - 1;
    if n % 2 == 0 then (if parts[n] != [] then [Run(parts[n], false)] else []) else [Run(parts[n], true)]
  }

  lemma RunsOfUnfold(parts: seq<string>)
    requires parts != []
    ensures RunsOf(parts) == RunsOf(parts[..|parts| - 1]) + LastRuns(parts)
    ensures Concat(parts) == Concat(parts[..|parts| - 1]) + parts[|parts| - 1]
  {
  }

  /** The runs spell the parts in order, so the paragraph reads as the text with
      the matched markers removed. */
  lemma {:induction false} RunsOfText(parts: seq<string>)
    ensures RunText(RunsOf(parts)) == Concat(parts)
    decreases |parts|
  {
    if parts != [] {
      var init := parts[..|parts| - 1];
      RunsOfUnfold(parts);
      RunsOfText(init);
      RunTextAppend(RunsOf(init), LastRuns(parts));
    }
  }

  /** Plain runs are never empty, and every bold run is an odd part. */
  lemma {:induction false} RunsOfShape(parts: seq<string>)
    ensures forall r :: r in RunsOf(parts) && !r.bold ==> r.text != []
    ensures forall r :: r in RunsOf(parts) && r.bold ==> exists k :: 0 <= k < |parts| && k % 2 == 1 && parts[k] == r.text
    decreases |parts|
  {
    if parts != [] {
      var n := |parts| - 1;
      var init := parts[..n];
      RunsOfUnfold(parts);
      RunsOfShape(init);
      forall r | r in RunsOf(parts) && r.bold
        ensures exists k :: 0 <= k < |parts| && k % 2 == 1 && parts[k] == r.text
      {
        if r in RunsOf(init) {
          var k :| 0 <= k < |init| && k % 2 == 1 && init[k] == r.text;
          assert parts[k] == init[k];
        } else {
          assert parts[n] == r.text && n % 2 == 1;
        }
      }
    }
  }

  /** The paragraph a report writes into. */
  class Paragraph {
    var runs: seq<Run>
    var style: string

    constructor ()
      ensures runs == [] && style == ""
    {
      runs := [];
      style := "";
    }

    /** `add_formatted_text_with_bold`: adds one run per part, bold for the odd
        parts, then sets the paragraph's style. */
    method AddFormattedTextWithBold(text: string, styleName: string)
      modifies this
      ensures runs == old(runs) + RunsOf(SplitBold(text))
      ensures style == styleName
    {
      var parts := SplitBold(text);
      for i := 0 to |parts|
        invariant runs == old(runs) + RunsOf(parts[..i])
      {
        assert parts[..i + 1][..i] == parts[..i];
        if i % 2 == 0 {
          if parts[i] != [] {
            runs := runs + [Run(parts[i], false)];
          }
        } else {
          runs := runs + [Run(parts[i], true)];
        }
      }
      assert parts[..|parts|] == parts;
      style := styleName;
    }
  }

  // ---------------------------------------------------------------------------
  // Unit chart colours and severity buckets
  // ---------------------------------------------------------------------------

  /** The bar colour of a unit in the top-units chart, by first matching threshold. */
  function UnitChartColor(count: nat): (c: string)
    ensures count > 25 ==> c == "#ff9999"
    ensures 15 <= count <= 25 ==> c == "#ffcc99"
    ensures 8 <= count < 15 ==> c == "#ffff99"
    ensures 3 <= count < 8 ==> c == "#99ff99"
    ensures count < 3 ==> c == "#99ccff"
  {
    if count > 25 then "#ff9999"
    else if count >= 15 then "#ffcc99"
    else if count >= 8 then "#ffff99"
    else if count >= 3 then "#99ff99"
    else "#99ccff"
  }

  /** The colour loop over the chart's units. */
  method UnitChartColors(counts: seq<nat>) returns (colors: seq<string>)
    ensures |colors| == |counts|
    ensures forall i :: 0 <= i < |counts| ==> colors[i] == UnitChartColor(counts[i])
  {
    colors := [];
    for i := 0 to |counts|
      invariant |colors| == i
      invariant forall j :: 0 <= j < i ==> colors[j] == UnitChartColor(counts[j])
    {
      colors := colors + [UnitChartColor(counts[i])];
    }
  }

  /** The severity chart's buckets: 15 or more, 8 to 14, 3 to 7, at most 2. */
  datatype Severity = Extensive | Major | Minor | Ready

  function ChartSeverity(count: nat): (b: Severity)
    ensures b == Extensive <==> count >= 15
    ensures b == Major <==> 8 <= count <= 14
    ensures b == Minor <==> 3 <= count <= 7
    ensures b == Ready <==> count <= 2
  {
    if count >= 15 then Extensive else if count >= 8 then Major else if count >= 3 then Minor else Ready
  }

  /** The buckets the units-analysis prose quotes: more than 15, 8 to 15, 3 to 7, at most 2. */
  function ProseSeverity(count: nat): (b: Severity)
    ensures b == Extensive <==> count > 15
    ensures b == Major <==> 8 <= count <= 15
    ensures b == Minor <==> 3 <= count <= 7
    ensures b == Ready <==> count <= 2
  {
    if count > 15 then Extensive else if count > 7 then Major else if count > 2 then Minor else Ready
  }

  /** The number of units a rule puts in bucket `b`. */
  function CountIn(counts: seq<nat>, b: Severity, prose: bool): nat
    decreases |counts|
  {
    if counts == [] then 0
    else (if (if prose then ProseSeverity(counts[0]) else ChartSeverity(counts[0])) == b then 1 else 0)
         + CountIn(counts[1..], b, prose)
  }

  /** Under either rule the four buckets partition the units. */
  lemma {:induction false} BucketsPartition(counts: seq<nat>, prose: bool)
    ensures CountIn(counts, Extensive, prose) + CountIn(counts, Major, prose)
            + CountIn(counts, Minor, prose) + CountIn(counts, Ready, prose) == |counts|
    decreases |counts|
  {
    if counts != [] {
      BucketsPartition(counts[1..], prose);
    }
  }

  /** The chart and the prose agree on every count except 15, which the chart calls
      extensive and the prose major. */
  lemma ChartAndProseDifferOnlyAt15(count: nat)
    ensures ChartSeverity(count) != ProseSeverity(count) <==> count == 15
    ensures ChartSeverity(15) == Extensive && ProseSeverity(15) == Major
  {
  }

  /** The chart's two warmest colours are exactly the units the severity chart calls
      extensive. */
  lemma WarmColorsAreExtensive(count: nat)
    ensures (UnitChartColor(count) == "#ff9999" || UnitChartColor(count) == "#ffcc99") <==> ChartSeverity(count) == Extensive
  {
  }

  // ---------------------------------------------------------------------------
  // Table cells, file name and recommendation
  // ---------------------------------------------------------------------------

  /** The affected-units cell: text over 50 characters keeps its first 47 and gets "...". */
  function TruncateUnits(s: string): (r: string)
    ensures |r| <= 50
    ensures |s| <= 50 ==> r == s
    ensures |s| > 50 ==> |r| == 50 && r[..47] == s[..47] && r[47..] == "..."
  {
    if |s| > 50 then s[..47] + "..." else s
  }

  /** Truncating twice is truncating once. */
  lemma TruncateIdempotent(s: string)
    ensures TruncateUnits(TruncateUnits(s)) == TruncateUnits(s)
  {
  }

  /** The component-and-location cell: the component, followed by " (room)" only when
      the room is present and not blank. */
  function ComponentLabel(component: string, room: Option<string>): (r: string)
    ensures room.Some? && Trim(room.value) != [] ==> r == component + " (" + room.value + ")"
    ensures room.None? || Trim(room.value) == [] ==> r == component
  {
    if room.Some? && Trim(room.value) != [] then component + " (" + room.value + ")" else component
  }

  /** The label always starts with the component and ends in ")" when a room is added. */
  lemma ComponentLabelShape(component: string, room: Option<string>)
    ensures StartsWith(ComponentLabel(component, room), component)
    ensures ComponentLabel(component, room) != component ==> EndsWith(ComponentLabel(component, room), ")")
  {
    var r := ComponentLabel(component, room);
    assert r[..|component|] == component;
  }

  /** The Word report's file name uses the same cleaning as the Excel report's. */
  function GenerateFilename(buildingName: string, reportType: string, timestamp: string): (r: string)
    ensures r == ExcelGenerator.GenerateFilename(buildingName, reportType, timestamp)
  {
    ExcelGenerator.CleanBuildingName(buildingName) + "_Inspection_Report_" + reportType + "_" + timestamp
  }

  datatype Priority = AcceleratedCompletion | PhasedCompletion | QualityFirst

  /** The first immediate priority, chosen by the share of ready units. */
  function FirstPriority(readyPct: real): (p: Priority)
    ensures p == AcceleratedCompletion <==> readyPct > 75.0
    ensures p == PhasedCompletion <==> 50.0 < readyPct <= 75.0
    ensures p == QualityFirst <==> readyPct <= 50.0
  {
    if readyPct > 75.0 then AcceleratedCompletion
    else if readyPct > 50.0 then PhasedCompletion
    else QualityFirst
  }

  function PriorityRank(p: Priority): nat {
    match p
    case QualityFirst => 0
    case PhasedCompletion => 1
    case AcceleratedCompletion => 2
  }

  /** More ready units never leads to a more cautious priority. */
  lemma FirstPriorityMonotone(a: real, b: real)
    requires a <= b
    ensures PriorityRank(FirstPriority(a)) <= PriorityRank(FirstPriority(b))
  {
  }
}
