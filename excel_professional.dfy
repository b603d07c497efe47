/** The professional Excel report built from API data: status normalisation, the
    settlement-readiness buckets, its own grade bands, the building shown for a unit,
    the workflow-sheet colouring, the per-component details sheet and the report
    built from several inspections at once. */
module ExcelProfessional {
  import opened Wrappers
  import opened Strings
  import opened Seqs
  import opened Sorting
  import opened Groups
  import ExcelGenerator

  // ---------------------------------------------------------------------------
  // StatusClass normalisation
  // ---------------------------------------------------------------------------

  const NotOk: string := "Not OK"

  /** The `StatusClass` column after normalisation. The column mapping renames a raw
      `status` column onto `StatusClass`, so `status` wins whenever it is present;
      otherwise an existing `StatusClass` is kept, and with neither every row is set to
      "Not OK". Then every non-null value is overwritten with "Not OK". `n` is the
      number of rows. */
  function StatusClassColumn(n: nat, statusClass: Option<seq<Option<string>>>,
                             status: Option<seq<Option<string>>>): (r: seq<Option<string>>)
    requires statusClass.Some? ==> |statusClass.value| == n
    requires status.Some? ==> |status.value| == n
    ensures |r| == n
    ensures forall i :: 0 <= i < n ==> r[i] == None || r[i] == Some(NotOk)
    ensures status.Some? ==> forall i :: 0 <= i < n ==> (r[i] == None <==> status.value[i] == None)
    ensures status.None? && statusClass.Some? ==> forall i :: 0 <= i < n ==> (r[i] == None <==> statusClass.value[i] == None)
    ensures status.None? && statusClass.None? ==> forall i :: 0 <= i < n ==> r[i] == Some(NotOk)
  {
    var source := if status.Some? then status.value
                  else if statusClass.Some? then statusClass.value
                  else seq(n, i => Some(NotOk));
    seq(n, i requires 0 <= i < n => if source[i].Some? then Some(NotOk) else None)
  }

  // ---------------------------------------------------------------------------
  // Settlement-readiness buckets
  // ---------------------------------------------------------------------------

  /** The two columns of a processed row the buckets read. */
  datatype MetricRow = MetricRow(unit: Option<string>, statusClass: Option<string>)

  predicate IsDefect(r: MetricRow) { r.statusClass == Some(NotOk) }

  /** `len(df[df["StatusClass"] == "Not OK"])`: the number of defect rows. */
  function TotalDefects(rows: seq<MetricRow>): (n: nat)
    ensures n <= |rows|
    ensures n == |Filter(rows, IsDefect)|
    ensures n == 0 <==> forall k :: 0 <= k < |rows| ==> !IsDefect(rows[k])
    decreases |rows|
  {
    if rows == [] then 0 else (if IsDefect(rows[0]) then 1 else 0) + TotalDefects(rows[1..])
  }

  /** The non-null units of the defect rows, one entry per row (`groupby` drops null keys). */
  function DefectUnits(rows: seq<MetricRow>): seq<string>
    decreases |rows|
  {
    if rows == [] then []
    else
      var last := rows[|rows| - 1];
      DefectUnits(rows[..|rows| - 1]) + (if IsDefect(last) && last.unit.Some? then [last.unit.value] else [])
  }

  /** `nunique()` of the unit column: the distinct non-null units. */
  function AllUnits(rows: seq<MetricRow>): set<string> {
    set r | r in rows && r.unit.Some? :: r.unit.value
  }

  datatype Band = Ready | MinorWork | MajorWork | ExtensiveWork

  /** This report's bands: at most 2, 3 to 7, 8 to 15, more than 15 defects. */
  function BandOf(defects: nat): (b: Band)
    ensures b == Ready <==> defects <= 2
    ensures b == MinorWork <==> 3 <= defects <= 7
    ensures b == MajorWork <==> 8 <= defects <= 15
    ensures b == ExtensiveWork <==> defects > 15
  {
    if defects <= 2 then Ready
    else if defects <= 7 then MinorWork
    else if defects <= 15 then MajorWork
    else ExtensiveWork
  }

  /** The number of tally entries whose count falls in band `b`. */
  function CountBand<K>(g: seq<(K, nat)>, b: Band): nat
    decreases |g|
  {
    if g == [] then 0 else (if BandOf(g[0].1) == b then 1 else 0) + CountBand(g[1..], b)
  }

  datatype Buckets = Buckets(ready: nat, minorWork: nat, majorWork: nat, extensiveWork: nat, totalUnits: nat)

  function BucketSum(b: Buckets): nat {
    b.ready + b.minorWork + b.majorWork + b.extensiveWork
  }

  /** `calculate_metrics`: with a Unit column and at least one row, each unit that has
      defects lands in the band of its defect count and `totalUnits` counts every
      distinct unit; otherwise the whole inspection is one unit banded by its total. */
  function CalculateBuckets(hasUnitColumn: bool, rows: seq<MetricRow>): Buckets {
    if hasUnitColumn && |rows| > 0 then
      var g := Tally(DefectUnits(rows));
      Buckets(CountBand(g, Ready), CountBand(g, MinorWork), CountBand(g, MajorWork),
              CountBand(g, ExtensiveWork), |AllUnits(rows)|)
    else SingleUnitBuckets(TotalDefects(rows))
  }

  /** The whole inspection as one unit: exactly one bucket holds it, chosen by the
      total number of defects. */
  function SingleUnitBuckets(totalDefects: nat): (b: Buckets)
    ensures b.totalUnits == 1
    ensures b.ready == 1 <==> totalDefects <= 2
    ensures b.minorWork == 1 <==> 3 <= totalDefects <= 7
    ensures b.majorWork == 1 <==> 8 <= totalDefects <= 15
    ensures b.extensiveWork == 1 <==> totalDefects > 15
  {
    if totalDefects <= 2 then Buckets(1, 0, 0, 0, 1)
    else if totalDefects <= 7 then Buckets(0, 1, 0, 0, 1)
    else if totalDefects <= 15 then Buckets(0, 0, 1, 0, 1)
    else Buckets(0, 0, 0, 1, 1)
  }

  /** The single unit sits in exactly one bucket. */
  lemma SingleUnitOneBucket(totalDefects: nat)
    ensures BucketSum(SingleUnitBuckets(totalDefects)) == 1
  {
    var b := SingleUnitBuckets(totalDefects);
    if totalDefects <= 2 {
      assert b == Buckets(1, 0, 0, 0, 1);
    } else if totalDefects <= 7 {
      assert b == Buckets(0, 1, 0, 0, 1);
    } else if totalDefects <= 15 {
      assert b == Buckets(0, 0, 1, 0, 1);
    } else {
      assert b == Buckets(0, 0, 0, 1, 1);
    }
  }

  lemma {:induction false} CountBandSum<K>(g: seq<(K, nat)>)
    ensures CountBand(g, Ready) + CountBand(g, MinorWork) + CountBand(g, MajorWork)
            + CountBand(g, ExtensiveWork) == |g|
    decreases |g|
  {
    if g != [] {
      CountBandSum(g[1..]);
    }
  }

  lemma {:induction false} DefectUnitsMembers(rows: seq<MetricRow>, u: string)
    ensures u in DefectUnits(rows) <==> exists r :: r in rows && IsDefect(r) && r.unit == Some(u)
    decreases |rows|
  {
    if rows != [] {
      var init := rows[..|rows| - 1];
      assert rows == init + [rows[|rows| - 1]];
      DefectUnitsMembers(init, u);
    }
  }

  /** Per unit, the buckets add up to the units that have at least one defect, and
      that can be fewer than `totalUnits`. */
  lemma BucketsCountDefectUnits(rows: seq<MetricRow>)
    requires |rows| > 0
    ensures BucketSum(CalculateBuckets(true, rows)) == |set r | r in rows && IsDefect(r) && r.unit.Some? :: r.unit.value|
    ensures BucketSum(CalculateBuckets(true, rows)) <= CalculateBuckets(true, rows).totalUnits
  {
    var g := Tally(DefectUnits(rows));
    CountBandSum(g);
    TallyFacts(DefectUnits(rows));
    DistinctKeysCard(g);
    var withDefects := set r | r in rows && IsDefect(r) && r.unit.Some? :: r.unit.value;
    forall u ensures u in Keys(g) <==> u in withDefects {
      DefectUnitsMembers(rows, u);
    }
    assert Keys(g) == withDefects;
    assert withDefects <= AllUnits(rows);
    SubsetCard(withDefects, AllUnits(rows));
  }

  lemma SubsetCard(a: set<string>, b: set<string>)
    requires a <= b
    ensures |a| <= |b|
  {
    assert b == a + (b - a);
  }

  /** A unit without defects is counted in `totalUnits` but in no bucket (the core
      processor counts such a unit as ready). */
  lemma DefectFreeUnitInNoBucket(rows: seq<MetricRow>, u: string)
    requires u in AllUnits(rows)
    requires forall r :: r in rows && r.unit == Some(u) ==> !IsDefect(r)
    ensures BucketSum(CalculateBuckets(true, rows)) < CalculateBuckets(true, rows).totalUnits
  {
    var withDefects := set r | r in rows && IsDefect(r) && r.unit.Some? :: r.unit.value;
    BucketsCountDefectUnits(rows);
    assert u !in withDefects;
    StrictSubsetCard(withDefects, AllUnits(rows), u);
  }

  lemma StrictSubsetCard(a: set<string>, b: set<string>, u: string)
    requires a <= b && u in b && u !in a
    ensures |a| < |b|
  {
    assert b == a + (b - a);
    assert u in b - a;
  }

  /** Without per-unit data the buckets are those of the single unit. */
  lemma SingleUnitMode(hasUnitColumn: bool, rows: seq<MetricRow>)
    requires !hasUnitColumn || rows == []
    ensures CalculateBuckets(hasUnitColumn, rows) == SingleUnitBuckets(TotalDefects(rows))
  {
  }

  // ---------------------------------------------------------------------------
  // Quality grade (this report stops at C)
  // ---------------------------------------------------------------------------

  function ProfessionalGrade(score: real): (g: ExcelGenerator.Grade)
    ensures g != ExcelGenerator.D
    ensures score >= 85.0 ==> g == ExcelGenerator.QualityGrade(score)
    ensures score < 85.0 ==> g == ExcelGenerator.C
  {
    if score >= 98.0 then ExcelGenerator.APlus
    else if score >= 95.0 then ExcelGenerator.A
    else if score >= 90.0 then ExcelGenerator.BPlus
    else if score >= 85.0 then ExcelGenerator.B
    else ExcelGenerator.C
  }

  /** The grade text here; for C it is "Needs Improvement (C)". */
  function ProfessionalGradeText(g: ExcelGenerator.Grade): string {
    match g
    case APlus => "Excellent (A+)"
    case A => "Very Good (A)"
    case BPlus => "Good (B+)"
    case B => "Satisfactory (B)"
    case _ => "Needs Improvement (C)"
  }

  /** The two reports agree from 75 up and differ below: a score of 70 is C here and D
      in the standard report. */
  lemma GradesDifferBelow75(score: real)
    requires score < 75.0
    ensures ProfessionalGrade(score) == ExcelGenerator.C
    ensures ExcelGenerator.QualityGrade(score) == ExcelGenerator.D
  {
    assert ExcelGenerator.InBand(score, ExcelGenerator.QualityGrade(score));
  }

  /** The grade is monotone in the score. */
  lemma ProfessionalGradeMonotone(s1: real, s2: real)
    requires s1 <= s2
    ensures ExcelGenerator.Rank(ProfessionalGrade(s1)) <= ExcelGenerator.Rank(ProfessionalGrade(s2))
  {
    if s1 >= 85.0 {
      ExcelGenerator.QualityGradeMonotone(s1, s2);
    }
  }

  // ---------------------------------------------------------------------------
  // Building display and workflow colouring
  // ---------------------------------------------------------------------------

  /** The building shown for a row: "Building G" or "Building J" when the unit's first
      character upper-cases to G or J, otherwise the row's building name. */
  function BuildingDisplay(unit: string, buildingName: string): (r: string)
    ensures unit != [] && UpperChar(unit[0]) == 'G' ==> r == "Building G"
    ensures unit != [] && UpperChar(unit[0]) == 'J' ==> r == "Building J"
    ensures (unit == [] || (UpperChar(unit[0]) != 'G' && UpperChar(unit[0]) != 'J')) ==> r == buildingName
  {
    if unit != [] && UpperChar(unit[0]) == 'G' then "Building G"
    else if unit != [] && UpperChar(unit[0]) == 'J' then "Building J"
    else buildingName
  }

  /** Only a unit starting with g, G, j or J is shown by its block letter. */
  lemma BlockLetterUnits(unit: string, buildingName: string)
    requires BuildingDisplay(unit, buildingName) != buildingName
    ensures unit != [] && unit[0] in {'g', 'G', 'j', 'J'}
  {
  }

  datatype RowFill = Green | Yellow

  /** Owner sign-off is the only completion marker the workflow sheet shows. */
  function WorkflowFill(ownerSignoff: Option<string>): (f: RowFill)
    ensures f == Green <==> ownerSignoff.Some?
  {
    if ownerSignoff.Some? then Green else Yellow
  }

  /** The photo column never carries the URL: it points to the defects sheet. */
  function PhotoCell(photoUrl: Option<string>): (r: string)
    ensures r == "See Defects Only" <==> photoUrl.Some? && photoUrl.value != []
    ensures r == "No photo" <==> !(photoUrl.Some? && photoUrl.value != [])
  {
    if photoUrl.Some? && photoUrl.value != [] then "See Defects Only" else "No photo"
  }

  // ---------------------------------------------------------------------------
  // Component details sheet
  // ---------------------------------------------------------------------------

  /** The columns of a defect row the details sheet reads; `unit` is the row's unit
      text as `str(...)` renders it. */
  datatype DetailRow = DetailRow(trade: Option<string>, room: Option<string>, component: Option<string>, unit: string)

  datatype Column = TradeCol | RoomCol | ComponentCol

  function Get(r: DetailRow, c: Column): Option<string> {
    match c
    case TradeCol => r.trade
    case RoomCol => r.room
    case ComponentCol => r.component
  }

  /** `column.dropna()`: the non-null values in row order. */
  function Values(rows: seq<DetailRow>, c: Column): (r: seq<string>)
    ensures forall k :: 0 <= k < |r| ==> exists row :: row in rows && Get(row, c) == Some(r[k])
    ensures forall row :: row in rows && Get(row, c).Some? ==> Get(row, c).value in r
    decreases |rows|
  {
    if rows == [] then []
    else
      var init, last := rows[..|rows| - 1], rows[|rows| - 1];
      assert forall row :: row in init ==> row in rows;
      assert forall row :: row in rows ==> row in init || row == last;
      Values(init, c) + (if Get(last, c).Some? then [Get(last, c).value] else [])
  }

  /** `df[df[column] == v]`: the rows holding `v`, in row order (null never matches). */
  function Matching(rows: seq<DetailRow>, c: Column, v: string): (r: seq<DetailRow>)
    ensures forall k :: 0 <= k < |r| ==> r[k] in rows && Get(r[k], c) == Some(v)
    decreases |rows|
  {
    if rows == [] then []
    else
      var init, last := rows[..|rows| - 1], rows[|rows| - 1];
      assert forall row :: row in init ==> row in rows;
      Matching(init, c, v) + (if Get(last, c) == Some(v) then [last] else [])
  }

  lemma {:induction false} MatchingKeeps(rows: seq<DetailRow>, c: Column, v: string, row: DetailRow)
    requires row in rows && Get(row, c) == Some(v)
    ensures row in Matching(rows, c, v)
    decreases |rows|
  {
    var init, last := rows[..|rows| - 1], rows[|rows| - 1];
    assert rows == init + [last];
    if row != last {
      MatchingKeeps(init, c, v, row);
    }
  }

  /** Each row's unit text, trimmed. */
  function TrimmedUnits(items: seq<DetailRow>): (r: seq<string>)
    ensures |r| == |items| && forall k :: 0 <= k < |items| ==> r[k] == Trim(items[k].unit)
  {
    seq(|items|, k requires 0 <= k < |items| => Trim(items[k].unit))
  }

  /** The values with blanks skipped and each value kept once, in order of first
      appearance. */
  function NonBlankUnique(vals: seq<string>): seq<string>
    decreases |vals|
  {
    if vals == [] then []
    else
      var u, t := NonBlankUnique(vals[..|vals| - 1]), vals[|vals| - 1];
      if t != [] && t !in u then u + [t] else u
  }

  /** The result holds each non-blank value exactly once and nothing else. */
  lemma {:induction false} NonBlankUniqueFacts(vals: seq<string>)
    ensures Distinct(NonBlankUnique(vals))
    ensures forall u :: u in NonBlankUnique(vals) <==> u != [] && u in vals
    decreases |vals|
  {
    if vals != [] {
      var init := vals[..|vals| - 1];
      assert vals == init + [vals[|vals| - 1]];
      NonBlankUniqueFacts(init);
    }
  }

  /** The units listed for a group: each row's trimmed unit, blanks skipped, each unit
      once in order of first appearance. */
  function UnitsOf(items: seq<DetailRow>): seq<string> {
    NonBlankUnique(TrimmedUnits(items))
  }

  /** One line of the details sheet. */
  datatype ComponentStat = ComponentStat(trade: string, room: string, component: string, units: string, defectCount: nat)

  /** The line for one (trade, room, component) group. */
  function StatOf(trade: string, room: string, component: string, items: seq<DetailRow>): ComponentStat {
    ComponentStat(trade, room, component, Join(SortBy(UnitsOf(items), StrLe), ", "), |items|)
  }

  /** The lines for the components of one room, blank component names skipped. */
  function ComponentLines(trade: string, room: string, roomItems: seq<DetailRow>, components: seq<string>): seq<ComponentStat>
    decreases |components|
  {
    if components == [] then []
    else
      var c := components[|components| - 1];
      ComponentLines(trade, room, roomItems, components[..|components| - 1])
        + (if c == [] then [] else [StatOf(trade, room, c, Matching(roomItems, ComponentCol, c))])
  }

  function RoomItems(tradeItems: seq<DetailRow>, room: string): seq<DetailRow> {
    Matching(tradeItems, RoomCol, room)
  }

  /** The lines for the rooms of one trade. */
  function RoomLines(trade: string, tradeItems: seq<DetailRow>, rooms: seq<string>): seq<ComponentStat>
    decreases |rooms|
  {
    if rooms == [] then []
    else
      var room := rooms[|rooms| - 1];
      var roomItems := RoomItems(tradeItems, room);
      RoomLines(trade, tradeItems, rooms[..|rooms| - 1])
        + ComponentLines(trade, room, roomItems, Unique(Values(roomItems, ComponentCol)))
  }

  /** The lines for a list of trades, in that order. */
  function TradeLines(rows: seq<DetailRow>, trades: seq<string>): seq<ComponentStat>
    decreases |trades|
  {
    if trades == [] then []
    else
      var trade := trades[|trades| - 1];
      var tradeItems := Matching(rows, TradeCol, trade);
      TradeLines(rows, trades[..|trades| - 1])
        + RoomLines(trade, tradeItems, Unique(Values(tradeItems, RoomCol)))
  }

  /** The sort key `(Trade, -DefectCount)`: trade ascending, then count descending. */
  predicate TradeThenCount(a: ComponentStat, b: ComponentStat) {
    (StrLe(a.trade, b.trade) && a.trade != b.trade) || (a.trade == b.trade && a.defectCount >= b.defectCount)
  }

  /** The details when the Component and Trade columns exist and there are rows;
      otherwise the sheet has only its headers. */
  function ComponentDetails(hasColumns: bool, rows: seq<DetailRow>): seq<ComponentStat> {
    if hasColumns && |rows| > 0 then
      SortBy(TradeLines(rows, Unique(Values(rows, TradeCol))), TradeThenCount)
    else []
  }

  /** The loop that collects the unit list of a group. */
  method CollectUnits(items: seq<DetailRow>) returns (units: seq<string>)
    ensures units == UnitsOf(items)
  {
    units := [];
    ghost var trimmed := TrimmedUnits(items);
    for n := 0 to |items|
      invariant units == NonBlankUnique(trimmed[..n])
    {
      var u := Trim(items[n].unit);
      assert u == trimmed[n];
      NonBlankUniqueStep(trimmed, n);
      if u != [] && u !in units {
        units := units + [u];
      }
    }
    assert trimmed[..|items|] == trimmed;
  }

  /** One more value extends the result by that value when it is new and not blank. */
  lemma NonBlankUniqueStep(vals: seq<string>, n: nat)
    requires n < |vals|
    ensures NonBlankUnique(vals[..n + 1])
            == if vals[n] != [] && vals[n] !in NonBlankUnique(vals[..n]) then NonBlankUnique(vals[..n]) + [vals[n]]
               else NonBlankUnique(vals[..n])
  {
    assert vals[..n + 1][..n] == vals[..n];
  }

  /** The innermost loop: one line per non-blank component of a room. */
  method ComponentLinesLoop(trade: string, room: string, roomItems: seq<DetailRow>, components: seq<string>)
    returns (lines: seq<ComponentStat>)
    ensures lines == ComponentLines(trade, room, roomItems, components)
  {
    lines := [];
    for k := 0 to |components|
      invariant lines == ComponentLines(trade, room, roomItems, components[..k])
    {
      assert components[..k + 1][..k] == components[..k];
      var component := components[k];
      if component != [] {
        var items := Matching(roomItems, ComponentCol, component);
        var units := CollectUnits(items);
        lines := lines + [ComponentStat(trade, room, component, Join(SortBy(units, StrLe), ", "), |items|)];
      }
    }
    assert components[..|components|] == components;
  }

  /** The middle loop: the rooms of one trade. */
  method RoomLinesLoop(trade: string, tradeItems: seq<DetailRow>, rooms: seq<string>) returns (lines: seq<ComponentStat>)
    ensures lines == RoomLines(trade, tradeItems, rooms)
  {
    lines := [];
    for j := 0 to |rooms|
      invariant lines == RoomLines(trade, tradeItems, rooms[..j])
    {
      assert rooms[..j + 1][..j] == rooms[..j];
      var room := rooms[j];
      var roomItems := RoomItems(tradeItems, room);
      var more := ComponentLinesLoop(trade, room, roomItems, Unique(Values(roomItems, ComponentCol)));
      lines := lines + more;
    }
    assert rooms[..|rooms|] == rooms;
  }

  /** The outer loop over the trades, then the final sort. */
  method ComponentDetailsSheet(hasColumns: bool, rows: seq<DetailRow>) returns (stats: seq<ComponentStat>)
    ensures stats == ComponentDetails(hasColumns, rows)
  {
    if !hasColumns || |rows| == 0 {
      return [];
    }
    var collected: seq<ComponentStat> := [];
    var trades := Unique(Values(rows, TradeCol));
    for i := 0 to |trades|
      invariant collected == TradeLines(rows, trades[..i])
    {
      var trade := trades[i];
      var tradeItems := Matching(rows, TradeCol, trade);
      var more := RoomLinesLoop(trade, tradeItems, Unique(Values(tradeItems, RoomCol)));
      TradeLinesStep(rows, trades, i);
      collected := collected + more;
    }
    assert trades[..|trades|] == trades;
    stats := SortBy(collected, TradeThenCount);
  }

  /** One more trade appends the lines of its rooms. */
  lemma TradeLinesStep(rows: seq<DetailRow>, trades: seq<string>, i: nat)
    requires i < |trades|
    ensures TradeLines(rows, trades[..i + 1]) == TradeLines(rows, trades[..i]) + TradeRoomLines(rows, trades[i])
  {
    assert trades[..i + 1][..i] == trades[..i];
  }

  /** The rows of one (trade, room, component) group, as the nested masks select them. */
  function Group(rows: seq<DetailRow>, trade: string, room: string, component: string): seq<DetailRow> {
    Matching(RoomItems(Matching(rows, TradeCol, trade), room), ComponentCol, component)
  }

  /** A line of the sheet describes a non-empty group under a non-blank component:
      its count is the group's size and its units are the group's unit list, sorted. */
  predicate GoodLine(rows: seq<DetailRow>, x: ComponentStat) {
    x.component != [] && Group(rows, x.trade, x.room, x.component) != [] &&
    x == StatOf(x.trade, x.room, x.component, Group(rows, x.trade, x.room, x.component))
  }

  lemma ValuesNonEmptyGroup(items: seq<DetailRow>, c: Column, v: string)
    requires v in Values(items, c)
    ensures Matching(items, c, v) != []
  {
    var k :| 0 <= k < |Values(items, c)| && Values(items, c)[k] == v;
    var row :| row in items && Get(row, c) == Some(v);
    MatchingKeeps(items, c, v, row);
  }

  lemma {:induction false} ComponentLinesGood(rows: seq<DetailRow>, trade: string, room: string, components: seq<string>)
    requires forall k :: 0 <= k < |components| ==> components[k] in Values(RoomItems(Matching(rows, TradeCol, trade), room), ComponentCol)
    ensures forall x :: x in ComponentLines(trade, room, RoomItems(Matching(rows, TradeCol, trade), room), components) ==> GoodLine(rows, x)
    decreases |components|
  {
    if components != [] {
      var roomItems := RoomItems(Matching(rows, TradeCol, trade), room);
      var c := components[|components| - 1];
      ComponentLinesGood(rows, trade, room, components[..|components| - 1]);
      if c != [] {
        ValuesNonEmptyGroup(roomItems, ComponentCol, c);
      }
    }
  }

  lemma {:induction false} RoomLinesGood(rows: seq<DetailRow>, trade: string, rooms: seq<string>)
    ensures forall x :: x in RoomLines(trade, Matching(rows, TradeCol, trade), rooms) ==> GoodLine(rows, x)
    decreases |rooms|
  {
    if rooms != [] {
      var room := rooms[|rooms| - 1];
      RoomLinesGood(rows, trade, rooms[..|rooms| - 1]);
      ComponentLinesGood(rows, trade, room, Unique(Values(RoomItems(Matching(rows, TradeCol, trade), room), ComponentCol)));
    }
  }

  lemma {:induction false} TradeLinesGood(rows: seq<DetailRow>, trades: seq<string>)
    ensures forall x :: x in TradeLines(rows, trades) ==> GoodLine(rows, x)
    decreases |trades|
  {
    if trades != [] {
      var trade := trades[|trades| - 1];
      TradeLinesGood(rows, trades[..|trades| - 1]);
      RoomLinesGood(rows, trade, Unique(Values(Matching(rows, TradeCol, trade), RoomCol)));
    }
  }

  lemma StrLePreorder()
    ensures TotalPreorder(StrLe)
  {
    forall a, b ensures StrLe(a, b) || StrLe(b, a) {
      StrLeTotal(a, b);
    }
    forall a, b, c | StrLe(a, b) && StrLe(b, c) ensures StrLe(a, c) {
      StrLeTransitive(a, b, c);
    }
  }

  lemma TradeThenCountPreorder()
    ensures TotalPreorder(TradeThenCount)
  {
    forall a, b ensures TradeThenCount(a, b) || TradeThenCount(b, a) {
      StrLeTotal(a.trade, b.trade);
    }
    forall a, b, c | TradeThenCount(a, b) && TradeThenCount(b, c) ensures TradeThenCount(a, c) {
      if a.trade != b.trade && b.trade != c.trade {
        StrLeTransitive(a.trade, b.trade, c.trade);
        if a.trade == c.trade {
          StrLeAntisymmetric(a.trade, b.trade);
        }
      }
    }
  }

  /** The lines of one room carry its trade and room and one of the listed components;
      distinct components give distinct lines, and every non-blank listed component
      gets the line of its group. */
  lemma {:induction false} ComponentLinesShape(trade: string, room: string, roomItems: seq<DetailRow>, components: seq<string>)
    ensures forall x :: x in ComponentLines(trade, room, roomItems, components) ==>
              x.trade == trade && x.room == room && x.component in components
    ensures Distinct(components) ==> Distinct(ComponentLines(trade, room, roomItems, components))
    ensures forall c :: c in components && c != [] ==>
              StatOf(trade, room, c, Matching(roomItems, ComponentCol, c)) in ComponentLines(trade, room, roomItems, components)
    decreases |components|
  {
    if components != [] {
      var init, c := components[..|components| - 1], components[|components| - 1];
      assert components == init + [c];
      ComponentLinesShape(trade, room, roomItems, init);
      var before := ComponentLines(trade, room, roomItems, init);
      var added := if c == [] then [] else [StatOf(trade, room, c, Matching(roomItems, ComponentCol, c))];
      if Distinct(components) {
        assert Distinct(init) by {
          forall i, j | 0 <= i < j < |init| ensures init[i] != init[j] {
            assert init[i] == components[i] && init[j] == components[j];
          }
        }
        assert c !in init by {
          forall i | 0 <= i < |init| ensures init[i] != c {
            assert init[i] == components[i];
          }
        }
        DistinctConcat(before, added);
      }
    }
  }

  lemma {:induction false} RoomLinesShape(trade: string, tradeItems: seq<DetailRow>, rooms: seq<string>)
    ensures forall x :: x in RoomLines(trade, tradeItems, rooms) ==> x.trade == trade && x.room in rooms
    ensures Distinct(rooms) ==> Distinct(RoomLines(trade, tradeItems, rooms))
    decreases |rooms|
  {
    if rooms != [] {
      var init, room := rooms[..|rooms| - 1], rooms[|rooms| - 1];
      assert rooms == init + [room];
      RoomLinesShape(trade, tradeItems, init);
      var roomItems := RoomItems(tradeItems, room);
      var components := Unique(Values(roomItems, ComponentCol));
      ComponentLinesShape(trade, room, roomItems, components);
      if Distinct(rooms) {
        assert Distinct(init) by {
          forall i, j | 0 <= i < j < |init| ensures init[i] != init[j] {
            assert init[i] == rooms[i] && init[j] == rooms[j];
          }
        }
        assert room !in init by {
          forall i | 0 <= i < |init| ensures init[i] != room {
            assert init[i] == rooms[i];
          }
        }
        DistinctConcat(RoomLines(trade, tradeItems, init), ComponentLines(trade, room, roomItems, components));
      }
    }
  }

  /** A room of the list with a non-blank component among its rows gets that group's line. */
  lemma {:induction false} RoomLinesHave(trade: string, tradeItems: seq<DetailRow>, rooms: seq<string>, room: string, c: string)
    requires room in rooms && c != [] && c in Values(RoomItems(tradeItems, room), ComponentCol)
    ensures StatOf(trade, room, c, Matching(RoomItems(tradeItems, room), ComponentCol, c)) in RoomLines(trade, tradeItems, rooms)
    decreases |rooms|
  {
    var init, last := rooms[..|rooms| - 1], rooms[|rooms| - 1];
    assert rooms == init + [last];
    if last == room {
      var roomItems := RoomItems(tradeItems, room);
      ComponentLinesShape(trade, room, roomItems, Unique(Values(roomItems, ComponentCol)));
    } else {
      RoomLinesHave(trade, tradeItems, init, room, c);
    }
  }

  lemma {:induction false} TradeLinesShape(rows: seq<DetailRow>, trades: seq<string>)
    ensures forall x :: x in TradeLines(rows, trades) ==> x.trade in trades
    ensures Distinct(trades) ==> Distinct(TradeLines(rows, trades))
    decreases |trades|
  {
    if trades != [] {
      var init, trade := trades[..|trades| - 1], trades[|trades| - 1];
      assert trades == init + [trade];
      TradeLinesShape(rows, init);
      var tradeItems := Matching(rows, TradeCol, trade);
      RoomLinesShape(trade, tradeItems, Unique(Values(tradeItems, RoomCol)));
      if Distinct(trades) {
        assert Distinct(init) by {
          forall i, j | 0 <= i < j < |init| ensures init[i] != init[j] {
            assert init[i] == trades[i] && init[j] == trades[j];
          }
        }
        assert trade !in init by {
          forall i | 0 <= i < |init| ensures init[i] != trade {
            assert init[i] == trades[i];
          }
        }
        DistinctConcat(TradeLines(rows, init), RoomLines(trade, tradeItems, Unique(Values(tradeItems, RoomCol))));
      }
    }
  }

  function TradeRoomLines(rows: seq<DetailRow>, trade: string): seq<ComponentStat> {
    RoomLines(trade, Matching(rows, TradeCol, trade), Unique(Values(Matching(rows, TradeCol, trade), RoomCol)))
  }

  lemma {:induction false} TradeLinesHave(rows: seq<DetailRow>, trades: seq<string>, t: string, x: ComponentStat)
    requires t in trades && x in TradeRoomLines(rows, t)
    ensures x in TradeLines(rows, trades)
    decreases |trades|
  {
    var n := |trades| - 1;
    TradeLinesStep(rows, trades, n);
    assert trades[..n + 1] == trades;
    if trades[n] == t {
      assert x in TradeRoomLines(rows, trades[n]);
    } else {
      InInit(trades, t);
      TradeLinesHave(rows, trades[..n], t, x);
    }
  }

  /** A row with a trade, a room and a non-blank component has its group's line among
      the collected lines. */
  lemma CollectedHasRow(rows: seq<DetailRow>, row: DetailRow)
    requires row in rows && row.trade.Some? && row.room.Some? && row.component.Some? && row.component.value != []
    ensures StatOf(row.trade.value, row.room.value, row.component.value, Group(rows, row.trade.value, row.room.value, row.component.value))
            in TradeLines(rows, Unique(Values(rows, TradeCol)))
  {
    var t, room, c := row.trade.value, row.room.value, row.component.value;
    var tradeItems := Matching(rows, TradeCol, t);
    MatchingKeeps(rows, TradeCol, t, row);
    assert Get(row, RoomCol) == Some(room);
    var roomItems := RoomItems(tradeItems, room);
    MatchingKeeps(tradeItems, RoomCol, room, row);
    assert Get(row, ComponentCol) == Some(c);
    RoomLinesHave(t, tradeItems, Unique(Values(tradeItems, RoomCol)), room, c);
    TradeLinesHave(rows, Unique(Values(rows, TradeCol)), t,
                   StatOf(t, room, c, Matching(roomItems, ComponentCol, c)));
  }

  /** The identifying fields of a line. */
  function Key(x: ComponentStat): (string, string, string) {
    (x.trade, x.room, x.component)
  }

  /** The details sheet: only headers without the columns or rows; otherwise ordered by
      trade and then by descending count, every line a non-empty group under a
      non-blank component with the group's size and units, no two lines for the same
      (trade, room, component), and a line for the group of every row with a trade, a
      room and a non-blank component. */
  lemma ComponentDetailsFacts(hasColumns: bool, rows: seq<DetailRow>)
    ensures !hasColumns || rows == [] ==> ComponentDetails(hasColumns, rows) == []
    ensures SortedBy(ComponentDetails(hasColumns, rows), TradeThenCount)
    ensures forall k :: 0 <= k < |ComponentDetails(hasColumns, rows)| ==> GoodLine(rows, ComponentDetails(hasColumns, rows)[k])
    ensures forall i, j :: 0 <= i < j < |ComponentDetails(hasColumns, rows)| ==>
              Key(ComponentDetails(hasColumns, rows)[i]) != Key(ComponentDetails(hasColumns, rows)[j])
    ensures hasColumns ==> forall row :: row in rows && row.trade.Some? && row.room.Some? && row.component.Some? && row.component.value != [] ==>
              StatOf(row.trade.value, row.room.value, row.component.value, Group(rows, row.trade.value, row.room.value, row.component.value))
              in ComponentDetails(hasColumns, rows)
  {
    if hasColumns && |rows| > 0 {
      var trades := Unique(Values(rows, TradeCol));
      var lines := TradeLines(rows, trades);
      TradeThenCountPreorder();
      SortBySorted(lines, TradeThenCount);
      TradeLinesGood(rows, trades);
      TradeLinesShape(rows, trades);
      var sorted := SortBy(lines, TradeThenCount);
      assert sorted == ComponentDetails(hasColumns, rows);
      forall k | 0 <= k < |sorted| ensures GoodLine(rows, sorted[k]) {
        assert sorted[k] in multiset(lines);
      }
      DistinctPermutation(lines, sorted);
      forall i, j | 0 <= i < j < |sorted| ensures Key(sorted[i]) != Key(sorted[j]) {
        assert GoodLine(rows, sorted[i]) && GoodLine(rows, sorted[j]);
      }
      forall row | row in rows && row.trade.Some? && row.room.Some? && row.component.Some? && row.component.value != []
        ensures StatOf(row.trade.value, row.room.value, row.component.value, Group(rows, row.trade.value, row.room.value, row.component.value))
                in sorted
      {
        CollectedHasRow(rows, row);
        var x := StatOf(row.trade.value, row.room.value, row.component.value, Group(rows, row.trade.value, row.room.value, row.component.value));
        assert x in multiset(lines);
      }
    }
  }

  /** The listed units are sorted, none is repeated, and they are exactly the
      non-blank values among the trimmed units of the group's rows. */
  lemma UnitListFacts(items: seq<DetailRow>)
    ensures SortedBy(SortBy(UnitsOf(items), StrLe), StrLe)
    ensures Distinct(SortBy(UnitsOf(items), StrLe))
    ensures forall u :: u in SortBy(UnitsOf(items), StrLe) <==> u != [] && u in TrimmedUnits(items)
  {
    var units := UnitsOf(items);
    StrLePreorder();
    SortBySorted(units, StrLe);
    NonBlankUniqueFacts(TrimmedUnits(items));
    DistinctPermutation(units, SortBy(units, StrLe));
    forall u ensures u in SortBy(units, StrLe) <==> u in units {
      assert u in multiset(SortBy(units, StrLe)) <==> u in multiset(units);
    }
  }

  // ---------------------------------------------------------------------------
  // Report over several inspections, and the report-type dispatch
  // ---------------------------------------------------------------------------

  /** A value read from the inspection record: the key is absent, holds null, or text. */
  datatype Cell = Missing | Null | Text(s: string)

  /** `record.get(key, default)`: an absent key gives the default, a stored null stays null. */
  function GetOr(c: Cell, default: string): (r: Option<string>)
    ensures c.Missing? ==> r == Some(default)
    ensures c.Null? ==> r == None
    ensures c.Text? ==> r == Some(c.s)
  {
    match c
    case Missing => Some(default)
    case Null => None
    case Text(s) => Some(s)
  }

  /** Python truthiness of a read value. */
  predicate Truthy(c: Cell) { c.Text? && c.s != [] }

  datatype InspectionInfo = InspectionInfo(buildingName: Cell, address: Cell, inspectionDate: Cell)

  /** The result of querying one inspection: it raised, or it gave its record and defects. */
  datatype QueryOutcome<D> = QueryFailed | Queried(info: InspectionInfo, defects: seq<D>)

  /** The combined inspection record the report is built from. */
  datatype Combined<D> = Combined(id: string, inspectionDate: string, inspectorName: string,
                                  buildingName: Option<string>, address: Option<string>,
                                  unit: string, unitType: string, defects: seq<D>, totalDefects: nat)

  /** The defects of the successful queries, concatenated in query order. */
  function AllDefects<D>(outs: seq<QueryOutcome<D>>): seq<D>
    decreases |outs|
  {
    if outs == [] then []
    else
      var last := outs[|outs| - 1];
      AllDefects(outs[..|outs| - 1]) + (if last.Queried? then last.defects else [])
  }

  /** The truthy inspection dates of the successful queries, in query order. */
  function Dates<D>(outs: seq<QueryOutcome<D>>): seq<string>
    decreases |outs|
  {
    if outs == [] then []
    else
      var last := outs[|outs| - 1];
      Dates(outs[..|outs| - 1]) + (if last.Queried? && Truthy(last.info.inspectionDate) then [last.info.inspectionDate.s] else [])
  }

  /** Building name and address: set from each successful query while the building
      name is still null, so a record whose name is null does not stop the search. */
  function Site<D>(outs: seq<QueryOutcome<D>>): (Option<string>, Option<string>)
    decreases |outs|
  {
    if outs == [] then (None, None)
    else
      var site, last := Site(outs[..|outs| - 1]), outs[|outs| - 1];
      if site.0.None? && last.Queried? then
        (GetOr(last.info.buildingName, "Building"), GetOr(last.info.address, "Address"))
      else site
  }

  /** `max(...)` over strings. */
  function MaxStr(ds: seq<string>): (m: string)
    requires ds != []
    ensures m in ds
    ensures forall k :: 0 <= k < |ds| ==> StrLe(ds[k], m)
    decreases |ds|
  {
    if |ds| == 1 then StrLeTotal(ds[0], ds[0]); ds[0]
    else
      var rest := MaxStr(ds[1..]);
      assert forall k :: 1 <= k < |ds| ==> ds[k] == ds[1..][k - 1];
      StrLeTotal(ds[0], rest);
      if StrLe(ds[0], rest) then rest
      else
        forall k | 1 <= k < |ds| ensures StrLe(ds[k], ds[0]) {
          StrLeTransitive(ds[k], rest, ds[0]);
        }
        StrLeTotal(ds[0], ds[0]);
        ds[0]
  }

  /** The combined record, or nothing when no query gave a defect. */
  function CombinedOf<D>(outs: seq<QueryOutcome<D>>): Option<Combined<D>> {
    var all, dates, site := AllDefects(outs), Dates(outs), Site(outs);
    if all == [] then None
    else Some(Combined("multi", if dates == [] then "N/A" else MaxStr(dates), "Multiple Inspectors",
                       site.0, site.1, "Multiple Units", "Mixed", all, |all|))
  }

  /** The loop over the queried inspections. */
  method CombineInspections<D>(outs: seq<QueryOutcome<D>>) returns (r: Option<Combined<D>>)
    ensures r == CombinedOf(outs)
  {
    var all: seq<D> := [];
    var building: Option<string> := None;
    var address: Option<string> := None;
    var dates: seq<string> := [];
    for n := 0 to |outs|
      invariant all == AllDefects(outs[..n])
      invariant (building, address) == Site(outs[..n])
      invariant dates == Dates(outs[..n])
    {
      assert outs[..n + 1][..n] == outs[..n];
      match outs[n]
      case QueryFailed =>
      case Queried(info, defects) =>
        if building.None? {
          building := GetOr(info.buildingName, "Building");
          address := GetOr(info.address, "Address");
        }
        if Truthy(info.inspectionDate) {
          dates := dates + [info.inspectionDate.s];
        }
        all := all + defects;
    }
    assert outs[..|outs|] == outs;
    if all == [] {
      return None;
    }
    r := Some(Combined("multi", if dates == [] then "N/A" else MaxStr(dates), "Multiple Inspectors",
                       building, address, "Multiple Units", "Mixed", all, |all|));
  }

  lemma {:induction false} AllDefectsAppend<D>(a: seq<QueryOutcome<D>>, b: seq<QueryOutcome<D>>)
    ensures AllDefects(a + b) == AllDefects(a) + AllDefects(b)
    decreases |b|
  {
    if b != [] {
      var init := b[..|b| - 1];
      assert (a + b)[..|a + b| - 1] == a + init;
      assert (a + b)[|a + b| - 1] == b[|b| - 1];
      AllDefectsAppend(a, init);
    } else {
      assert a + b == a;
    }
  }

  /** Nothing is produced iff no successful query returned a defect. */
  lemma CombinedNoneIffNoDefects<D>(outs: seq<QueryOutcome<D>>)
    ensures CombinedOf(outs).None? <==> forall k :: 0 <= k < |outs| && outs[k].Queried? ==> outs[k].defects == []
  {
    AllDefectsEmpty(outs);
  }

  lemma {:induction false} AllDefectsEmpty<D>(outs: seq<QueryOutcome<D>>)
    ensures AllDefects(outs) == [] <==> forall k :: 0 <= k < |outs| && outs[k].Queried? ==> outs[k].defects == []
    decreases |outs|
  {
    if outs != [] {
      var init := outs[..|outs| - 1];
      AllDefectsEmpty(init);
      assert forall k :: 0 <= k < |init| ==> init[k] == outs[k];
    }
  }

  lemma {:induction false} SiteStays<D>(outs: seq<QueryOutcome<D>>, n: nat)
    requires n <= |outs| && Site(outs[..n]).0.Some?
    ensures Site(outs) == Site(outs[..n])
    decreases |outs| - n
  {
    if n < |outs| {
      var init := outs[..|outs| - 1];
      assert init[..n] == outs[..n];
      SiteStays(init, n);
    } else {
      assert outs[..n] == outs;
    }
  }

  lemma {:induction false} SiteNoneBefore<D>(outs: seq<QueryOutcome<D>>)
    requires forall j :: 0 <= j < |outs| && outs[j].Queried? ==> GetOr(outs[j].info.buildingName, "Building").None?
    ensures Site(outs).0.None?
    decreases |outs|
  {
    if outs != [] {
      var init := outs[..|outs| - 1];
      assert forall j :: 0 <= j < |init| ==> init[j] == outs[j];
      SiteNoneBefore(init);
    }
  }

  /** Building and address come from the first successful query whose building name
      is not null. */
  lemma FirstSiteWins<D>(outs: seq<QueryOutcome<D>>, k: nat)
    requires k < |outs| && outs[k].Queried? && GetOr(outs[k].info.buildingName, "Building").Some?
    requires forall j :: 0 <= j < k && outs[j].Queried? ==> GetOr(outs[j].info.buildingName, "Building").None?
    ensures Site(outs) == (GetOr(outs[k].info.buildingName, "Building"), GetOr(outs[k].info.address, "Address"))
  {
    var before := outs[..k];
    assert forall j :: 0 <= j < |before| ==> before[j] == outs[j];
    SiteNoneBefore(before);
    assert outs[..k + 1][..k] == before;
    SiteStays(outs, k + 1);
  }

  /** What the entry point asks the report writer to build. */
  datatype ReportRequest<D> = SingleReport(info: InspectionInfo, defects: seq<D>) | CombinedReport(data: Combined<D>) | NoReport

  /** The entry point: "single" with exactly one id reports that inspection (a failing
      query ends in no report), "multi" combines every id, anything else is refused. */
  method CreateProfessionalReport<D>(reportType: string, ids: seq<string>, query: string -> QueryOutcome<D>)
    returns (req: ReportRequest<D>)
    ensures reportType == "single" && |ids| == 1 ==>
      req == (if query(ids[0]).Queried? then SingleReport(query(ids[0]).info, query(ids[0]).defects) else NoReport)
    ensures !(reportType == "single" && |ids| == 1) && reportType == "multi" ==>
      req == (var c := CombinedOf(seq(|ids|, k requires 0 <= k < |ids| => query(ids[k])));
              if c.Some? then CombinedReport(c.value) else NoReport)
    ensures !(reportType == "single" && |ids| == 1) && reportType != "multi" ==> req == NoReport
  {
    if reportType == "single" && |ids| == 1 {
      var out := query(ids[0]);
      if out.Queried? {
        return SingleReport(out.info, out.defects);
      }
      return NoReport;
    } else if reportType == "multi" {
      var c := CombineInspections(seq(|ids|, k requires 0 <= k < |ids| => query(ids[k])));
      if c.Some? {
        return CombinedReport(c.value);
      }
      return NoReport;
    }
    return NoReport;
  }
}
