/** Helpers shared by the report generators: colour lookups, the completion rate,
    guarded division, the column-width rule and the metrics summary table. */
module ReportUtils {
  import opened Strings

  // ---------------------------------------------------------------------------
  // Palette and colour lookups
  // ---------------------------------------------------------------------------

  const HeaderColor: string := "366092"
  const AccentColor: string := "4472C4"
  const SuccessColor: string := "70AD47"
  const WarningColor: string := "FFC000"
  const DangerColor: string := "C00000"
  const LightGray: string := "F2F2F2"

  predicate InPalette(c: string) {
    c == AccentColor || c == SuccessColor || c == WarningColor || c == DangerColor || c == LightGray
  }

  /** Colour of a priority, looked up on its lower-cased text; unknown ones are grey. */
  function PriorityColor(priority: string): (r: string)
    ensures InPalette(r)
    ensures Lower(priority) == "urgent" ==> r == DangerColor
    ensures Lower(priority) == "high" ==> r == WarningColor
    ensures Lower(priority) == "medium" ==> r == AccentColor
    ensures Lower(priority) == "normal" ==> r == SuccessColor
    ensures Lower(priority) !in {"urgent", "high", "medium", "normal"} ==> r == LightGray
  {
    var p := Lower(priority);
    if p == "urgent" then DangerColor
    else if p == "high" then WarningColor
    else if p == "medium" then AccentColor
    else if p == "normal" then SuccessColor
    else LightGray
  }

  /** Colour of a status; `in_progress` and `in progress` share one, and every status
      outside the table (the approval states among them) is grey. */
  function StatusColor(status: string): (r: string)
    ensures InPalette(r)
    ensures Lower(status) == "completed" ==> r == SuccessColor
    ensures Lower(status) == "in_progress" || Lower(status) == "in progress" ==> r == WarningColor
    ensures Lower(status) == "open" ==> r == DangerColor
    ensures Lower(status) == "pending" ==> r == AccentColor
    ensures Lower(status) !in {"completed", "in_progress", "in progress", "open", "pending"} ==> r == LightGray
  {
    var s := Lower(status);
    if s == "completed" then SuccessColor
    else if s == "in_progress" || s == "in progress" then WarningColor
    else if s == "open" then DangerColor
    else if s == "pending" then AccentColor
    else LightGray
  }

  /** Both lookups ignore letter case. */
  lemma ColorsIgnoreCase(a: string, b: string)
    requires Lower(a) == Lower(b)
    ensures StatusColor(a) == StatusColor(b)
    ensures PriorityColor(a) == PriorityColor(b)
  {
  }

  /** The approval states are outside the table, so they are grey. */
  lemma ApprovalStatesGray(status: string)
    requires Lower(status) == "waiting_approval" || Lower(status) == "approved"
    ensures StatusColor(status) == LightGray
  {
  }

  // ---------------------------------------------------------------------------
  // Rates and guarded division
  // ---------------------------------------------------------------------------

  /** Percentage of completed items; 0 when there are none. */
  function CompletionRate(completed: int, total: int): (r: real)
    ensures total == 0 ==> r == 0.0
    ensures total != 0 ==> r * (total as real) == (completed as real) * 100.0
    ensures 0 <= completed <= total ==> 0.0 <= r <= 100.0
  {
    if total == 0 then 0.0
    else (completed as real) / (total as real) * 100.0
  }

  /** Division that returns `default` instead of failing on a zero denominator. */
  function SafeDivision(numerator: real, denominator: real, default: real): (r: real)
    ensures denominator == 0.0 ==> r == default
    ensures denominator != 0.0 ==> r * denominator == numerator
  {
    if denominator == 0.0 then default else numerator / denominator
  }

  // ---------------------------------------------------------------------------
  // Column widths
  // ---------------------------------------------------------------------------

  /** The longest text length in a column, 0 for an empty column. */
  function MaxLength(lengths: seq<nat>): (m: nat)
    ensures forall k :: 0 <= k < |lengths| ==> lengths[k] <= m
    ensures lengths == [] ==> m == 0
    ensures lengths != [] ==> m in lengths
    decreases |lengths|
  {
    if lengths == [] then 0
    else
      var rest := MaxLength(lengths[1..]);
      if lengths[0] > rest then lengths[0] else rest
  }

  const MaxColumnWidth: nat := 50

  /** Two characters of padding over the longest cell, capped at 50. */
  function ColumnWidth(lengths: seq<nat>): (w: nat)
    ensures w <= MaxColumnWidth
    ensures forall k :: 0 <= k < |lengths| ==> lengths[k] + 2 <= w || w == MaxColumnWidth
    ensures w == MaxColumnWidth || w == 2 || exists k :: 0 <= k < |lengths| && w == lengths[k] + 2
  {
    var m := MaxLength(lengths) + 2;
    if m < MaxColumnWidth then m else MaxColumnWidth
  }

  /** Scans every column for its longest cell (each cell given by the length of its
      text) and returns the width each column receives. */
  method AutoAdjustColumnWidths(columns: seq<seq<nat>>) returns (widths: seq<nat>)
    ensures |widths| == |columns|
    ensures forall i :: 0 <= i < |columns| ==> widths[i] == ColumnWidth(columns[i])
    ensures forall i :: 0 <= i < |columns| ==> widths[i] <= MaxColumnWidth
  {
    widths := [];
    var i := 0;
    while i < |columns|
      invariant 0 <= i <= |columns|
      invariant |widths| == i
      invariant forall j :: 0 <= j < i ==> widths[j] == ColumnWidth(columns[j])
    {
      var column := columns[i];
      var maxLength := 0;
      var k := 0;
      while k < |column|
        invariant 0 <= k <= |column|
        invariant forall j :: 0 <= j < k ==> column[j] <= maxLength
        invariant (k == 0 && maxLength == 0) || (maxLength in column[..k])
      {
        if column[k] > maxLength {
          maxLength := column[k];
        }
        k := k + 1;
      }
      assert column[..k] == column;
      MaxLengthUnique(column, maxLength);
      var adjusted := if maxLength + 2 < MaxColumnWidth then maxLength + 2 else MaxColumnWidth;
      widths := widths + [adjusted];
      i := i + 1;
    }
  }

  /** The maximum is determined by being an upper bound that occurs. */
  lemma MaxLengthUnique(lengths: seq<nat>, m: nat)
    requires forall k :: 0 <= k < |lengths| ==> lengths[k] <= m
    requires (lengths == [] && m == 0) || m in lengths
    ensures MaxLength(lengths) == m
  {
    var n := MaxLength(lengths);
    if lengths != [] {
      var i :| 0 <= i < |lengths| && lengths[i] == n;
      var j :| 0 <= j < |lengths| && lengths[j] == m;
      assert n >= lengths[j] && m >= lengths[i];
    }
  }

  // ---------------------------------------------------------------------------
  // The metrics summary table
  // ---------------------------------------------------------------------------

  /** `str.title()` on ASCII: a letter is upper-cased when it starts a run of letters
      and lower-cased otherwise; other characters are kept. */
  function TitleCase(s: string): (r: string)
    ensures |r| == |s| && forall i :: 0 <= i < |s| ==> r[i] == TitleChar(s, i)
  {
    seq(|s|, i requires 0 <= i < |s| => TitleChar(s, i))
  }

  function TitleChar(s: string, i: nat): char
    requires i < |s|
  {
    if i == 0 || !IsAsciiLetter(s[i - 1]) then UpperChar(s[i]) else LowerChar(s[i])
  }

  /** Title-casing is idempotent: case changes keep letters letters. */
  lemma TitleCaseIdempotent(s: string)
    ensures TitleCase(TitleCase(s)) == TitleCase(s)
  {
    var t := TitleCase(s);
    var u := TitleCase(t);
    forall i | 0 <= i < |s| ensures u[i] == t[i] {
      TitleAt(s, t, u, i);
    }
  }

  lemma TitleAt(s: string, t: string, u: string, i: nat)
    requires t == TitleCase(s) && u == TitleCase(t) && i < |s|
    ensures u[i] == t[i]
  {
    assert t[i] == TitleChar(s, i) && u[i] == TitleChar(t, i);
    if i == 0 {
      TitleStep(s[0], s[0], s[0], true);
    } else {
      assert t[i - 1] == TitleChar(s, i - 1);
      CaseChar(s[i - 1]);
      TitleStep(s[i], t[i - 1], s[i - 1], false);
    }
  }

  lemma TitleStep(c: char, tp: char, sp: char, first: bool)
    requires IsAsciiLetter(tp) == IsAsciiLetter(sp)
    ensures var x := if first || !IsAsciiLetter(sp) then UpperChar(c) else LowerChar(c);
            (if first || !IsAsciiLetter(tp) then UpperChar(x) else LowerChar(x)) == x
  {
    CaseChar(c);
  }

  /** Case changes compose: the last one wins, and letters stay letters. */
  lemma CaseChar(c: char)
    ensures UpperChar(UpperChar(c)) == UpperChar(c) && UpperChar(LowerChar(c)) == UpperChar(c)
    ensures LowerChar(UpperChar(c)) == LowerChar(c) && LowerChar(LowerChar(c)) == LowerChar(c)
    ensures IsAsciiLetter(UpperChar(c)) == IsAsciiLetter(c) && IsAsciiLetter(LowerChar(c)) == IsAsciiLetter(c)
  {
  }

  /** The label of a metric: underscores become spaces, then title case. */
  function DisplayName(metricName: string): (r: string)
    ensures |r| == |metricName|
    ensures '_' !in r
  {
    ReplaceCharGone(metricName, '_', ' ');
    var spaced := ReplaceAll(metricName, "_", " ");
    var r := TitleCase(spaced);
    assert forall i :: 0 <= i < |r| ==> r[i] != '_' by {
      forall i | 0 <= i < |r| ensures r[i] != '_' {
        assert spaced[i] != '_';
      }
    }
    r
  }

  /** A metric's value, by the Python type the metrics dictionary holds; a `bool` is
      not a `float` but is an `int`, so it takes the integer branch. */
  datatype MetricValue = FloatValue(x: real) | IntValue(n: int) | BoolValue(b: bool) | OtherValue(text: string)

  /** The three digits of `m < 1000`, zero-padded. */
  function ThreeDigits(m: nat): (r: string)
    requires m < 1000
    ensures |r| == 3 && forall i :: 0 <= i < 3 ==> IsDigit(r[i])
  {
    [('0' as int + m / 100) as char, ('0' as int + m / 10 % 10) as char, ('0' as int + m % 10) as char]
  }

  /** `f"{n:,}"` for a natural number: decimal digits in groups of three. */
  function GroupThousands(n: nat): (r: string)
    ensures |r| > 0
    ensures forall i :: 0 <= i < |r| ==> IsDigit(r[i]) || r[i] == ','
    ensures IsDigit(r[0]) && IsDigit(r[|r| - 1])
    ensures n < 1000 <==> ',' !in r
    decreases n
  {
    if n < 1000 then NatToString(n)
    else
      var head, tail := GroupThousands(n / 1000), ThreeDigits(n % 1000);
      var r := head + "," + tail;
      assert r[|head|] == ',';
      r
  }

  /** `f"{n:,}"` for any integer. */
  function FormatInt(n: int): string {
    if n < 0 then "-" + GroupThousands(-n) else GroupThousands(n)
  }

  /** The text without its commas. */
  function StripCommas(s: string): (r: string)
    ensures |r| <= |s|
  {
    if s == [] then [] else (if s[0] == ',' then [] else [s[0]]) + StripCommas(s[1..])
  }

  /** Removing the separators and reading the digits back gives the number. */
  lemma {:induction false} GroupThousandsRoundTrip(n: nat)
    ensures forall i :: 0 <= i < |StripCommas(GroupThousands(n))| ==> IsDigit(StripCommas(GroupThousands(n))[i])
    ensures DigitsValue(StripCommas(GroupThousands(n))) == n
    decreases n
  {
    if n < 1000 {
      NoCommaStrip(NatToString(n));
      NatToStringRoundTrip(n);
    } else {
      var a := GroupThousands(n / 1000);
      var b := ThreeDigits(n % 1000);
      GroupThousandsRoundTrip(n / 1000);
      StripCommasAppend(a, "," + b);
      StripCommasAppend(",", b);
      assert StripCommas(",") == [];
      NoCommaStrip(b);
      assert StripCommas(a + "," + b) == StripCommas(a) + b by {
        assert a + "," + b == a + ("," + b);
      }
      DigitsValueThree(StripCommas(a), n % 1000);
    }
  }

  lemma {:induction false} StripCommasAppend(a: string, b: string)
    ensures StripCommas(a + b) == StripCommas(a) + StripCommas(b)
    decreases |a|
  {
    if a != [] {
      assert (a + b)[1..] == a[1..] + b;
      StripCommasAppend(a[1..], b);
    } else {
      assert a + b == b;
    }
  }

  lemma {:induction false} NoCommaStrip(s: string)
    requires forall i :: 0 <= i < |s| ==> IsDigit(s[i])
    ensures StripCommas(s) == s
    decreases |s|
  {
    if s != [] {
      NoCommaStrip(s[1..]);
    }
  }

  lemma DigitsValueThree(x: string, m: nat)
    requires m < 1000
    requires forall i :: 0 <= i < |x| ==> IsDigit(x[i])
    ensures forall i :: 0 <= i < |x + ThreeDigits(m)| ==> IsDigit((x + ThreeDigits(m))[i])
    ensures DigitsValue(x + ThreeDigits(m)) == DigitsValue(x) * 1000 + m
  {
    var t := ThreeDigits(m);
    var s1, s2, s3 := x + t[..1], x + t[..2], x + t;
    assert s1[..|s1| - 1] == x;
    assert s2[..|s2| - 1] == s1;
    assert s3[..|s3| - 1] == s2;
    var v := DigitsValue(x);
    assert DigitsValue(s1) == v * 10 + m / 100;
    assert DigitsValue(s2) == DigitsValue(s1) * 10 + m / 10 % 10;
    assert DigitsValue(s3) == DigitsValue(s2) * 10 + m % 10;
    assert m / 10 == m / 100 * 10 + m / 10 % 10;
    assert m == m / 10 * 10 + m % 10;
  }

  /** How a value is written in the summary; float formatting with two decimals is
      passed in. */
  function FormatValue(v: MetricValue, formatFloat: real -> string): string {
    match v
    case FloatValue(x) => formatFloat(x)
    case IntValue(n) => FormatInt(n)
    case BoolValue(b) => FormatInt(if b then 1 else 0)
    case OtherValue(text) => text
  }

  /** `f"{True:,}"` is "1" and `f"{False:,}"` is "0", not "True" and "False". */
  lemma BoolsWrittenAsDigits(formatFloat: real -> string)
    ensures FormatValue(BoolValue(true), formatFloat) == "1"
    ensures FormatValue(BoolValue(false), formatFloat) == "0"
  {
    assert GroupThousands(1) == "1";
    assert GroupThousands(0) == "0";
  }

  datatype SummaryRow = SummaryRow(metric: string, value: string)

  function SummaryRowOf(entry: (string, MetricValue), formatFloat: real -> string): SummaryRow {
    SummaryRow(DisplayName(entry.0), FormatValue(entry.1, formatFloat))
  }

  /** One summary row per metric, in the dictionary's insertion order. */
  method CreateSummaryDataFrame(metrics: seq<(string, MetricValue)>, formatFloat: real -> string)
    returns (rows: seq<SummaryRow>)
    ensures |rows| == |metrics|
    ensures forall i :: 0 <= i < |metrics| ==> rows[i] == SummaryRowOf(metrics[i], formatFloat)
    ensures forall i :: 0 <= i < |metrics| ==> '_' !in rows[i].metric && |rows[i].metric| == |metrics[i].0|
  {
    rows := [];
    for i := 0 to |metrics|
      invariant |rows| == i
      invariant forall j :: 0 <= j < i ==> rows[j] == SummaryRowOf(metrics[j], formatFloat)
    {
      var (name, value) := metrics[i];
      var displayName := DisplayName(name);
      var formattedValue := FormatValue(value, formatFloat);
      rows := rows + [SummaryRow(displayName, formattedValue)];
    }
  }
}
