/** The SQLite database manager: the work-order status domain, the builder's work-order
    query, the trade-mapping table, the save of a processed inspection, and the
    readiness and integrity reports. Tables are sequences of records held by the
    manager; the engine's failures are parameters. */
module Setup {
  import opened Wrappers
  import opened Strings
  import opened Seqs
  import WorkOrders
  import TradeMapper

  // ---------------------------------------------------------------------------
  // Work-order statuses
  // ---------------------------------------------------------------------------

  /** The CHECK constraint on `inspector_work_orders.status`. */
  const StatusDomain: set<string> :=
    {"pending", "in_progress", "waiting_approval", "approved", "rejected", "completed", "cancelled"}

  /** The constraint admits exactly the statuses the work-order life cycle uses. */
  lemma StatusDomainIsLifeCycle(t: string)
    ensures (exists s: WorkOrders.Status :: WorkOrders.StatusName(s) == t) <==> t in StatusDomain
    ensures t in StatusDomain ==> WorkOrders.ParseStatus(t).Some?
  {
    if t in StatusDomain {
      var s := WorkOrders.ParseStatus(t).value;
      assert WorkOrders.StatusName(s) == t;
    }
  }

  // ---------------------------------------------------------------------------
  // The builder's work-order query
  // ---------------------------------------------------------------------------

  /** The fixed part of the query (its layout whitespace written as single spaces). */
  const BaseSelect := "SELECT wo.*, i.inspection_date"
  const BaseColumns := ", b.name as building_name"
  const BaseFrom := " FROM inspector_work_orders wo"
  const BaseJoinInspections := " JOIN inspector_inspections i"
  const BaseOnInspections := " ON wo.inspection_id = i.id"
  const BaseJoinBuildings := " JOIN inspector_buildings b"
  const BaseOnBuildings := " ON i.building_id = b.id"
  const BaseWhere := " WHERE 1=1"
  const BuilderBaseQuery := BaseSelect + BaseColumns + BaseFrom + BaseJoinInspections + BaseOnInspections
                            + BaseJoinBuildings + BaseOnBuildings + BaseWhere
  const BuilderOrder := " ORDER BY wo.urgency, wo.planned_date"

  /** A column compared with a parameter. */
  datatype Condition = Condition(column: string, value: string)

  /** Python truthiness of an optional string. */
  predicate Given(s: Option<string>) {
    s.Some? && s.value != []
  }

  /** The conditions of `get_work_orders_for_builder`: the trade, then the status, each
      only when given. */
  function BuilderConditions(trade: Option<string>, status: Option<string>): seq<Condition> {
    (if Given(trade) then [Condition("wo.trade", trade.value)] else [])
    + (if Given(status) then [Condition("wo.status", status.value)] else [])
  }

  /** The text one condition adds. */
  function Clause(c: Condition): string {
    " AND " + c.column + " = ?"
  }

  function ConditionText(cs: seq<Condition>): string
    decreases |cs|
  {
    if cs == [] then [] else ConditionText(cs[..|cs| - 1]) + Clause(cs[|cs| - 1])
  }

  function ConditionValues(cs: seq<Condition>): (r: seq<string>)
    ensures |r| == |cs|
    decreases |cs|
  {
    if cs == [] then [] else ConditionValues(cs[..|cs| - 1]) + [cs[|cs| - 1].value]
  }

  /** Adding a condition adds its clause and its value. */
  lemma ConditionSnoc(cs: seq<Condition>, c: Condition)
    ensures ConditionText(cs + [c]) == ConditionText(cs) + Clause(c)
    ensures ConditionValues(cs + [c]) == ConditionValues(cs) + [c.value]
  {
    assert (cs + [c])[..|cs|] == cs;
  }

  /** The number of `?` placeholders in a statement. */
  function Placeholders(s: string): nat
    decreases |s|
  {
    if s == [] then 0 else Placeholders(s[..|s| - 1]) + (if s[|s| - 1] == '?' then 1 else 0)
  }

  lemma {:induction false} PlaceholdersAppend(a: string, b: string)
    ensures Placeholders(a + b) == Placeholders(a) + Placeholders(b)
    decreases |b|
  {
    if b == [] {
      assert a + b == a;
    } else {
      PlaceholdersAppend(a, b[..|b| - 1]);
      assert (a + b)[..|a + b| - 1] == a + b[..|b| - 1];
      assert (a + b)[|a + b| - 1] == b[|b| - 1];
    }
  }

  lemma {:induction false} NoMarkNoPlaceholders(s: string)
    requires forall k :: 0 <= k < |s| ==> s[k] != '?'
    ensures Placeholders(s) == 0
    decreases |s|
  {
    if s != [] {
      NoMarkNoPlaceholders(s[..|s| - 1]);
    }
  }

  /** A clause holds one placeholder when its column holds none. */
  lemma ClausePlaceholders(c: Condition)
    requires forall k :: 0 <= k < |c.column| ==> c.column[k] != '?'
    ensures Placeholders(Clause(c)) == 1
  {
    NoMarkNoPlaceholders(" AND ");
    NoMarkNoPlaceholders(" = ");
    NoMarkNoPlaceholders(c.column);
    PlaceholdersAppend(" AND ", c.column);
    PlaceholdersAppend(" AND " + c.column, " = ");
    PlaceholdersAppend(" AND " + c.column + " = ", "?");
    assert Placeholders("?") == 1 by {
      assert "?"[..0] == [];
    }
    assert Clause(c) == " AND " + c.column + " = " + "?";
  }

  /** `get_work_orders_for_builder`'s statement and parameters: the clauses are
      collected after the fixed part, and the ordering closes the statement. */
  method WorkOrdersForBuilderQuery(trade: Option<string>, status: Option<string>) returns (query: string, params: seq<string>)
    ensures query == BuilderBaseQuery + ConditionText(BuilderConditions(trade, status)) + BuilderOrder
    ensures params == ConditionValues(BuilderConditions(trade, status))
  {
    var clauses: string := [];
    params := [];
    ghost var cs: seq<Condition> := [];
    if Given(trade) {
      var c := Condition("wo.trade", trade.value);
      ConditionSnoc(cs, c);
      clauses := clauses + Clause(c);
      params := params + [c.value];
      cs := cs + [c];
    }
    if Given(status) {
      var c := Condition("wo.status", status.value);
      ConditionSnoc(cs, c);
      clauses := clauses + Clause(c);
      params := params + [c.value];
      cs := cs + [c];
    }
    assert cs == BuilderConditions(trade, status);
    query := BuilderBaseQuery + clauses + BuilderOrder;
  }

  /** One placeholder per condition, and none elsewhere. */
  lemma {:induction false} ConditionPlaceholders(cs: seq<Condition>)
    requires forall k :: 0 <= k < |cs| ==> (forall i :: 0 <= i < |cs[k].column| ==> cs[k].column[i] != '?')
    ensures Placeholders(ConditionText(cs)) == |cs|
    decreases |cs|
  {
    if cs != [] {
      ConditionPlaceholders(cs[..|cs| - 1]);
      ClausePlaceholders(cs[|cs| - 1]);
      PlaceholdersAppend(ConditionText(cs[..|cs| - 1]), Clause(cs[|cs| - 1]));
    }
  }

  /** The fixed parts hold no placeholder. */
  lemma FixedPartsUnmarked()
    ensures Placeholders(BuilderBaseQuery) == 0 && Placeholders(BuilderOrder) == 0
  {
    Unmarked1();
    Unmarked2();
    Unmarked3();
    Unmarked4();
    Unmarked5();
    Unmarked6();
    Unmarked7();
    Unmarked8();
    var p1 := BaseSelect + BaseColumns;
    var p2 := p1 + BaseFrom;
    var p3 := p2 + BaseJoinInspections;
    var p4 := p3 + BaseOnInspections;
    var p5 := p4 + BaseJoinBuildings;
    var p6 := p5 + BaseOnBuildings;
    PlaceholdersAppend(BaseSelect, BaseColumns);
    PlaceholdersAppend(p1, BaseFrom);
    PlaceholdersAppend(p2, BaseJoinInspections);
    PlaceholdersAppend(p3, BaseOnInspections);
    PlaceholdersAppend(p4, BaseJoinBuildings);
    PlaceholdersAppend(p5, BaseOnBuildings);
    PlaceholdersAppend(p6, BaseWhere);
    Unmarked9();
  }

  lemma Unmarked1() ensures Placeholders(BaseSelect) == 0 { NoMarkNoPlaceholders(BaseSelect); }
  lemma Unmarked2() ensures Placeholders(BaseColumns) == 0 { NoMarkNoPlaceholders(BaseColumns); }
  lemma Unmarked3() ensures Placeholders(BaseFrom) == 0 { NoMarkNoPlaceholders(BaseFrom); }
  lemma Unmarked4() ensures Placeholders(BaseJoinInspections) == 0 { NoMarkNoPlaceholders(BaseJoinInspections); }
  lemma Unmarked5() ensures Placeholders(BaseOnInspections) == 0 { NoMarkNoPlaceholders(BaseOnInspections); }
  lemma Unmarked6() ensures Placeholders(BaseJoinBuildings) == 0 { NoMarkNoPlaceholders(BaseJoinBuildings); }
  lemma Unmarked7() ensures Placeholders(BaseOnBuildings) == 0 { NoMarkNoPlaceholders(BaseOnBuildings); }
  lemma Unmarked8() ensures Placeholders(BaseWhere) == 0 { NoMarkNoPlaceholders(BaseWhere); }
  lemma Unmarked9() ensures Placeholders(BuilderOrder) == 0 { NoMarkNoPlaceholders(BuilderOrder); }

  /** The parameters match the placeholders in number, trade before status; with
      neither filter there are none. */
  lemma BuilderPlaceholdersMatch(trade: Option<string>, status: Option<string>)
    ensures Placeholders(BuilderBaseQuery + ConditionText(BuilderConditions(trade, status)) + BuilderOrder)
            == |ConditionValues(BuilderConditions(trade, status))|
    ensures ConditionValues(BuilderConditions(trade, status))
            == (if Given(trade) then [trade.value] else []) + (if Given(status) then [status.value] else [])
  {
    var cs := BuilderConditions(trade, status);
    ColumnsUnmarked(trade, status);
    ConditionPlaceholders(cs);
    FixedPartsUnmarked();
    PlaceholdersAppend(BuilderBaseQuery, ConditionText(cs));
    PlaceholdersAppend(BuilderBaseQuery + ConditionText(cs), BuilderOrder);
    BuilderValues(trade, status);
  }

  lemma ColumnsUnmarked(trade: Option<string>, status: Option<string>)
    ensures forall k :: 0 <= k < |BuilderConditions(trade, status)| ==>
              (forall i :: 0 <= i < |BuilderConditions(trade, status)[k].column| ==> BuilderConditions(trade, status)[k].column[i] != '?')
  {
    var cs := BuilderConditions(trade, status);
    forall k | 0 <= k < |cs| ensures cs[k].column == "wo.trade" || cs[k].column == "wo.status" { }
  }

  lemma BuilderValues(trade: Option<string>, status: Option<string>)
    ensures ConditionValues(BuilderConditions(trade, status))
            == (if Given(trade) then [trade.value] else []) + (if Given(status) then [status.value] else [])
  {
    var cs := BuilderConditions(trade, status);
    if |cs| == 2 {
      assert cs[..1] == [cs[0]];
      assert cs[..1][..0] == [];
    } else if |cs| == 1 {
      assert cs[..0] == [];
    }
  }

  // ---------------------------------------------------------------------------
  // The database manager
  // ---------------------------------------------------------------------------

  /** The pragmas every new connection runs. */
  const ConnectionPragmas: seq<string> := [
    "PRAGMA foreign_keys = ON", "PRAGMA journal_mode = WAL", "PRAGMA synchronous = NORMAL",
    "PRAGMA cache_size = 10000", "PRAGMA temp_store = MEMORY"]

  class Connection {
    const path: string
    const pragmas: seq<string>

    constructor (path: string)
      ensures this.path == path && pragmas == ConnectionPragmas
    {
      this.path := path;
      pragmas := ConnectionPragmas;
    }
  }

  /** An `inspector_trade_mappings` row (its random id left out). */
  datatype StoredMapping = StoredMapping(room: string, component: string, trade: string)

  /** A DataFrame: its column names and its rows, each a map from column to text. */
  datatype Frame = Frame(columns: set<string>, rows: seq<map<string, string>>)

  /** `row.get(key, default)` */
  function Get(row: map<string, string>, key: string, default: string): string {
    if key in row then row[key] else default
  }

  /** The metrics dictionary: each key the save reads, when present, and whether any
      other key is present. */
  datatype Metrics = Metrics(
    buildingName: Option<string>, address: Option<string>, inspectionDate: Option<string>,
    totalUnits: Option<int>, totalDefects: Option<int>, defectRate: Option<real>,
    readyUnits: Option<int>, readyPct: Option<real>, unitTypesStr: Option<string>,
    urgentDefects: Option<int>, highPriorityDefects: Option<int>, avgDefectsPerUnit: Option<real>,
    otherKeys: bool)

  /** `not metrics` */
  predicate EmptyMetrics(m: Metrics) {
    m.buildingName.None? && m.address.None? && m.inspectionDate.None? && m.totalUnits.None?
    && m.totalDefects.None? && m.defectRate.None? && m.readyUnits.None? && m.readyPct.None?
    && m.unitTypesStr.None? && m.urgentDefects.None? && m.highPriorityDefects.None?
    && m.avgDefectsPerUnit.None? && !m.otherKeys
  }

  datatype BuildingRecord = BuildingRecord(
    id: string, name: string, address: string, inspectionDate: string, totalUnits: int,
    totalDefects: int, defectRate: real, readyUnits: int, readyPct: real, qualityScore: real,
    unitTypes: string, status: string)

  datatype InspectionRecord = InspectionRecord(
    id: string, buildingId: string, inspectionDate: string, inspectorName: string, totalUnits: int,
    totalDefects: int, defectRate: real, readyUnits: int, readyPct: real, urgentDefects: int,
    highPriorityDefects: int, avgDefectsPerUnit: real, originalFilename: string, status: string)

  datatype ItemRecord = ItemRecord(
    id: string, inspectionId: string, unit: string, unitType: string, inspectionDate: string,
    room: string, component: string, trade: string, statusClass: string, urgency: string,
    plannedCompletion: string, ownerSignoff: Option<string>, originalStatus: string, createdAt: string)

  /** The columns a processed inspection must have. */
  const RequiredColumns: seq<string> :=
    ["Unit", "UnitType", "Room", "Component", "Trade", "StatusClass", "Urgency", "PlannedCompletion"]

  /** The required columns the frame lacks, in the order above. */
  function MissingRequired(columns: set<string>): seq<string> {
    Filter(RequiredColumns, c => c !in columns)
  }

  /** Every required column is there. */
  predicate RequiredPresent(columns: set<string>) {
    forall c :: c in RequiredColumns ==> c in columns
  }

  /** Nothing is reported missing exactly when every required column is there. */
  lemma NothingMissingIffPresent(columns: set<string>)
    ensures MissingRequired(columns) == [] <==> RequiredPresent(columns)
  {
    if MissingRequired(columns) != [] {
      var c := MissingRequired(columns)[0];
      MissingRequiredMembers(columns, c);
    } else {
      forall c | c in RequiredColumns ensures c in columns {
        MissingRequiredMembers(columns, c);
      }
    }
  }

  /** A column is reported missing exactly when it is required and absent. */
  lemma MissingRequiredMembers(columns: set<string>, c: string)
    ensures c in MissingRequired(columns) <==> c in RequiredColumns && c !in columns
  {
    FilterMembers(RequiredColumns, c => c !in columns, c);
  }

  /** The inspection date: the metrics' own, or today's. */
  function InspectionDateOf(m: Metrics, today: string): string {
    OptionOr(m.inspectionDate, today)
  }

  /** `max(0, 100 - defect_rate)`, with a missing rate read as 0. */
  function QualityScore(m: Metrics): (q: real)
    ensures q >= 0.0
    ensures m.defectRate.None? ==> q == 100.0
    ensures m.defectRate.Some? && 0.0 <= m.defectRate.value <= 100.0 ==> q == 100.0 - m.defectRate.value
    ensures m.defectRate.Some? && m.defectRate.value >= 0.0 ==> q <= 100.0
  {
    var rate := OptionOr(m.defectRate, 0.0);
    if 100.0 - rate > 0.0 then 100.0 - rate else 0.0
  }

  /** The building row of a save. */
  function BuildingOf(id: string, m: Metrics, today: string): (b: BuildingRecord)
    ensures b.id == id && b.status == "active" && b.qualityScore == QualityScore(m)
    ensures b.name == OptionOr(m.buildingName, "Unknown") && b.inspectionDate == InspectionDateOf(m, today)
  {
    BuildingRecord(id, OptionOr(m.buildingName, "Unknown"), OptionOr(m.address, ""), InspectionDateOf(m, today),
                   OptionOr(m.totalUnits, 0), OptionOr(m.totalDefects, 0), OptionOr(m.defectRate, 0.0),
                   OptionOr(m.readyUnits, 0), OptionOr(m.readyPct, 0.0), QualityScore(m),
                   OptionOr(m.unitTypesStr, ""), "active")
  }

  /** The inspection row of a save: it points at the building, and a missing or empty
      file name is recorded as "uploaded.csv". */
  function InspectionOf(id: string, buildingId: string, m: Metrics, today: string, inspectorName: string,
                        originalFilename: Option<string>): (r: InspectionRecord)
    ensures r.id == id && r.buildingId == buildingId && r.status == "active"
    ensures r.inspectionDate == InspectionDateOf(m, today) && r.inspectorName == inspectorName
    ensures r.originalFilename == if Given(originalFilename) then originalFilename.value else "uploaded.csv"
  {
    InspectionRecord(id, buildingId, InspectionDateOf(m, today), inspectorName,
                     OptionOr(m.totalUnits, 0), OptionOr(m.totalDefects, 0), OptionOr(m.defectRate, 0.0),
                     OptionOr(m.readyUnits, 0), OptionOr(m.readyPct, 0.0), OptionOr(m.urgentDefects, 0),
                     OptionOr(m.highPriorityDefects, 0), OptionOr(m.avgDefectsPerUnit, 0.0),
                     if Given(originalFilename) then originalFilename.value else "uploaded.csv", "active")
  }

  /** The item row written for one processed row; `isoTimestamp` is the parse of the
      owner's sign-off (`None` when it does not parse). */
  function ItemOf(id: string, inspectionId: string, inspectionDate: string, row: map<string, string>,
                  isoTimestamp: string -> Option<string>, now: string): ItemRecord
  {
    ItemRecord(id, inspectionId, Get(row, "Unit", ""), Get(row, "UnitType", ""),
               Get(row, "InspectionDate", inspectionDate), Get(row, "Room", ""), Get(row, "Component", ""),
               Get(row, "Trade", ""), Get(row, "StatusClass", ""), Get(row, "Urgency", ""),
               Get(row, "PlannedCompletion", ""),
               if "OwnerSignoffTimestamp" in row then isoTimestamp(row["OwnerSignoffTimestamp"]) else None,
               Get(row, "Status", ""), now)
  }

  /** The batch of item rows, one per processed row in order; `itemId(k)` is the id
      drawn for row `k`. */
  function ItemsOf(rows: seq<map<string, string>>, inspectionId: string, inspectionDate: string,
                   itemId: nat -> string, isoTimestamp: string -> Option<string>, now: string): (r: seq<ItemRecord>)
    ensures |r| == |rows|
    decreases |rows|
  {
    if rows == [] then []
    else ItemsOf(rows[..|rows| - 1], inspectionId, inspectionDate, itemId, isoTimestamp, now)
         + [ItemOf(itemId(|rows| - 1), inspectionId, inspectionDate, rows[|rows| - 1], isoTimestamp, now)]
  }

  /** Every item of the batch belongs to the inspection and carries its row's unit,
      room, component and trade. */
  lemma {:induction false} ItemsOfRows(rows: seq<map<string, string>>, inspectionId: string, inspectionDate: string,
                                       itemId: nat -> string, isoTimestamp: string -> Option<string>, now: string)
    ensures forall k :: 0 <= k < |rows| ==>
              ItemsOf(rows, inspectionId, inspectionDate, itemId, isoTimestamp, now)[k]
              == ItemOf(itemId(k), inspectionId, inspectionDate, rows[k], isoTimestamp, now)
    decreases |rows|
  {
    if rows != [] {
      var init := rows[..|rows| - 1];
      ItemsOfRows(init, inspectionId, inspectionDate, itemId, isoTimestamp, now);
      forall k | 0 <= k < |rows| - 1 ensures rows[k] == init[k] { }
    }
  }

  /** The loop of `save_inspector_data` that builds the item rows of one inspection. */
  method ItemBatch(rows: seq<map<string, string>>, inspectionId: string, inspectionDate: string,
                   itemId: nat -> string, isoTimestamp: string -> Option<string>, now: string)
    returns (batch: seq<ItemRecord>)
    ensures batch == ItemsOf(rows, inspectionId, inspectionDate, itemId, isoTimestamp, now)
  {
    batch := [];
    for i := 0 to |rows|
      invariant batch == ItemsOf(rows[..i], inspectionId, inspectionDate, itemId, isoTimestamp, now)
    {
      assert rows[..i + 1][..i] == rows[..i];
      batch := batch + [ItemOf(itemId(i), inspectionId, inspectionDate, rows[i], isoTimestamp, now)];
    }
    assert rows[..|rows|] == rows;
  }

  /** The guards of `save_inspector_data`: rows, a non-empty metrics dictionary and
      every required column (no column missing, by `NothingMissingIffPresent`). */
  predicate Saveable(data: Frame, metrics: Metrics) {
    data.rows != [] && !EmptyMetrics(metrics) && RequiredPresent(data.columns)
  }

  /** Where a save can fail: opening the connection, or one of the three inserts. */
  datatype SaveFault = NoFault | ConnectFails | BuildingInsertFails | InspectionInsertFails | ItemsInsertFails

  /** No item points at an inspection that is not stored. */
  predicate NoOrphanItems(items: seq<ItemRecord>, inspections: seq<InspectionRecord>) {
    forall k :: 0 <= k < |items| ==> InspectionStored(inspections, items[k].inspectionId)
  }

  predicate InspectionStored(inspections: seq<InspectionRecord>, id: string) {
    exists j :: 0 <= j < |inspections| && inspections[j].id == id
  }

  /** The number of items pointing at no stored inspection, which the integrity report
      counts. */
  function OrphanItemCount(items: seq<ItemRecord>, inspections: seq<InspectionRecord>): nat
    decreases |items|
  {
    if items == [] then 0
    else OrphanItemCount(items[..|items| - 1], inspections)
         + (if InspectionStored(inspections, items[|items| - 1].inspectionId) then 0 else 1)
  }

  lemma {:induction false} NoOrphansCountZero(items: seq<ItemRecord>, inspections: seq<InspectionRecord>)
    requires NoOrphanItems(items, inspections)
    ensures OrphanItemCount(items, inspections) == 0
    decreases |items|
  {
    if items != [] {
      var init := items[..|items| - 1];
      assert NoOrphanItems(init, inspections) by {
        forall k | 0 <= k < |init| ensures InspectionStored(inspections, init[k].inspectionId) {
          assert init[k] == items[k];
        }
      }
      NoOrphansCountZero(init, inspections);
      assert InspectionStored(inspections, items[|items| - 1].inspectionId);
    }
  }

  /** A save keeps the items well-founded: the new items all point at the inspection
      saved with them. */
  lemma SaveKeepsNoOrphans(items: seq<ItemRecord>, inspections: seq<InspectionRecord>,
                           batch: seq<ItemRecord>, inspection: InspectionRecord)
    requires NoOrphanItems(items, inspections)
    requires forall k :: 0 <= k < |batch| ==> batch[k].inspectionId == inspection.id
    ensures NoOrphanItems(items + batch, inspections + [inspection])
    ensures OrphanItemCount(items + batch, inspections + [inspection]) == 0
  {
    var all := inspections + [inspection];
    forall k | 0 <= k < |items + batch| ensures InspectionStored(all, (items + batch)[k].inspectionId) {
      if k < |items| {
        assert InspectionStored(inspections, items[k].inspectionId);
        var j :| 0 <= j < |inspections| && inspections[j].id == items[k].inspectionId;
        assert all[j] == inspections[j];
      } else {
        assert (items + batch)[k] == batch[k - |items|];
        assert all[|inspections|] == inspection;
      }
    }
    NoOrphansCountZero(items + batch, all);
  }

  /** The trade mapping the failed-or-not write of `save_trade_mapping` produces: `None`
      when a row lacks a field (NOT NULL) or repeats a (room, component) pair (UNIQUE). */
  function MappingTable(rows: seq<TradeMapper.MapRow>): Option<seq<StoredMapping>>
    decreases |rows|
  {
    if rows == [] then Some([])
    else
      match MappingTable(rows[..|rows| - 1])
      case None => None
      case Some(table) =>
        var r := rows[|rows| - 1];
        if r.room.None? || r.component.None? || r.trade.None? || KeyStored(table, r.room.value, r.component.value) then None
        else Some(table + [StoredMapping(r.room.value, r.component.value, r.trade.value)])
  }

  predicate KeyStored(table: seq<StoredMapping>, room: string, component: string) {
    exists k :: 0 <= k < |table| && table[k].room == room && table[k].component == component
  }

  /** Every field of every row is present. */
  predicate Complete(rows: seq<TradeMapper.MapRow>) {
    forall k :: 0 <= k < |rows| ==> rows[k].room.Some? && rows[k].component.Some? && rows[k].trade.Some?
  }

  /** `get_trade_mapping`: the table read back as mapping rows. */
  function LoadedMapping(table: seq<StoredMapping>): (r: seq<TradeMapper.MapRow>)
    ensures |r| == |table|
    decreases |table|
  {
    if table == [] then []
    else
      var m := table[|table| - 1];
      LoadedMapping(table[..|table| - 1]) + [TradeMapper.MapRow(Some(m.room), Some(m.component), Some(m.trade))]
  }

  /** The write succeeds exactly for complete rows with unique keys, and what is read
      back is then the input. */
  lemma {:induction false} MappingTableFacts(rows: seq<TradeMapper.MapRow>)
    ensures MappingTable(rows).Some? <==> Complete(rows) && TradeMapper.UniqueKeys(rows)
    ensures MappingTable(rows).Some? ==> LoadedMapping(MappingTable(rows).value) == rows
    decreases |rows|
  {
    if rows != [] {
      var init := rows[..|rows| - 1];
      var r := rows[|rows| - 1];
      MappingTableFacts(init);
      assert init + [r] == rows;
      assert Complete(rows) <==> Complete(init) && r.room.Some? && r.component.Some? && r.trade.Some?;
      if MappingTable(init).Some? && r.room.Some? && r.component.Some? && r.trade.Some? {
        var table := MappingTable(init).value;
        LoadedKeys(table, init, r.room.value, r.component.value);
        assert TradeMapper.UniqueKeys(rows) <==> TradeMapper.UniqueKeys(init) && !KeyStored(table, r.room.value, r.component.value) by {
          UniqueKeysSnoc(init, r);
        }
      } else if MappingTable(init).None? {
        assert !(Complete(init) && TradeMapper.UniqueKeys(init));
        if Complete(rows) {
          UniqueKeysPrefix(init, r);
        }
      }
    }
  }

  /** A key is stored iff a row of the (complete) rows read back has it. */
  lemma LoadedKeys(table: seq<StoredMapping>, rows: seq<TradeMapper.MapRow>, room: string, component: string)
    requires LoadedMapping(table) == rows
    ensures KeyStored(table, room, component) <==>
            exists k :: 0 <= k < |rows| && (rows[k].room, rows[k].component) == (Some(room), Some(component))
  {
    LoadedAt(table);
  }

  lemma {:induction false} LoadedAt(table: seq<StoredMapping>)
    ensures forall k :: 0 <= k < |table| ==>
              LoadedMapping(table)[k] == TradeMapper.MapRow(Some(table[k].room), Some(table[k].component), Some(table[k].trade))
    decreases |table|
  {
    if table != [] {
      LoadedAt(table[..|table| - 1]);
    }
  }

  lemma UniqueKeysSnoc(init: seq<TradeMapper.MapRow>, r: TradeMapper.MapRow)
    ensures TradeMapper.UniqueKeys(init + [r]) <==>
            TradeMapper.UniqueKeys(init) && !exists k :: 0 <= k < |init| && (init[k].room, init[k].component) == (r.room, r.component)
  {
    var rows := init + [r];
    if TradeMapper.UniqueKeys(rows) {
      forall i, j | 0 <= i < j < |init| ensures (init[i].room, init[i].component) != (init[j].room, init[j].component) {
        assert rows[i] == init[i] && rows[j] == init[j];
      }
      forall k | 0 <= k < |init| ensures (init[k].room, init[k].component) != (r.room, r.component) {
        assert rows[k] == init[k] && rows[|init|] == r;
      }
    }
  }

  lemma UniqueKeysPrefix(init: seq<TradeMapper.MapRow>, r: TradeMapper.MapRow)
    ensures TradeMapper.UniqueKeys(init + [r]) ==> TradeMapper.UniqueKeys(init)
  {
    UniqueKeysSnoc(init, r);
  }

  /** Once a prefix cannot be written, neither can the whole input. */
  lemma {:induction false} MappingFailurePersists(rows: seq<TradeMapper.MapRow>, i: nat)
    requires i <= |rows| && MappingTable(rows[..i]).None?
    ensures MappingTable(rows).None?
    decreases |rows| - i
  {
    if i < |rows| {
      assert rows[..i + 1][..i] == rows[..i];
      MappingFailurePersists(rows, i + 1);
    } else {
      assert rows[..i] == rows;
    }
  }

  /** The default trade mapping seeded into an empty table. */
  const DefaultMappings: seq<StoredMapping> := [
    StoredMapping("Apartment Entry Door", "Door Handle", "Doors"),
    StoredMapping("Apartment Entry Door", "Door Locks and Keys", "Doors"),
    StoredMapping("Apartment Entry Door", "Paint", "Painting"),
    StoredMapping("Apartment Entry Door", "Door Frame", "Carpentry & Joinery"),
    StoredMapping("Balcony", "Balustrade", "Carpentry & Joinery"),
    StoredMapping("Balcony", "Drainage Point", "Plumbing"),
    StoredMapping("Balcony", "Flooring", "Flooring - External"),
    StoredMapping("Balcony", "Waterproofing", "Waterproofing"),
    StoredMapping("Bathroom", "Bathtub (if applicable)", "Plumbing"),
    StoredMapping("Bathroom", "Ceiling", "Painting"),
    StoredMapping("Bathroom", "Exhaust Fan", "Electrical"),
    StoredMapping("Bathroom", "Tiles", "Flooring - Tiles"),
    StoredMapping("Bathroom", "Toilet", "Plumbing"),
    StoredMapping("Bathroom", "Shower", "Plumbing"),
    StoredMapping("Bathroom", "Vanity", "Carpentry & Joinery"),
    StoredMapping("Bathroom", "Tapware", "Plumbing"),
    StoredMapping("Bathroom", "Mirror", "Glazing"),
    StoredMapping("Bathroom", "Towel Rails", "Accessories"),
    StoredMapping("Bathroom", "Light Fixtures", "Electrical"),
    StoredMapping("Bathroom", "Power Outlets", "Electrical"),
    StoredMapping("Bathroom", "Walls", "Painting"),
    StoredMapping("Bathroom", "Flooring", "Flooring - Tiles"),
    StoredMapping("Kitchen Area", "Cabinets", "Carpentry & Joinery"),
    StoredMapping("Kitchen Area", "Kitchen Sink", "Plumbing"),
    StoredMapping("Kitchen Area", "Stovetop and Oven", "Appliances"),
    StoredMapping("Kitchen Area", "Rangehood", "Appliances"),
    StoredMapping("Kitchen Area", "Benchtop", "Stone Work"),
    StoredMapping("Kitchen Area", "Splashback", "Flooring - Tiles"),
    StoredMapping("Kitchen Area", "Dishwasher", "Appliances"),
    StoredMapping("Kitchen Area", "Light Fixtures", "Electrical"),
    StoredMapping("Kitchen Area", "Power Outlets", "Electrical"),
    StoredMapping("Kitchen Area", "Walls", "Painting"),
    StoredMapping("Kitchen Area", "Ceiling", "Painting"),
    StoredMapping("Kitchen Area", "Windows", "Windows"),
    StoredMapping("Bedroom", "Carpets", "Flooring - Carpets"),
    StoredMapping("Bedroom", "Windows", "Windows"),
    StoredMapping("Bedroom", "Light Fixtures", "Electrical"),
    StoredMapping("Bedroom", "Power Outlets", "Electrical"),
    StoredMapping("Bedroom", "Built-in Robes", "Carpentry & Joinery"),
    StoredMapping("Bedroom", "Ceiling", "Painting"),
    StoredMapping("Bedroom", "Walls", "Painting"),
    StoredMapping("Bedroom", "Flooring", "Flooring"),
    StoredMapping("Living Room", "Flooring", "Flooring"),
    StoredMapping("Living Room", "Windows", "Windows"),
    StoredMapping("Living Room", "Ceiling", "Painting"),
    StoredMapping("Living Room", "Walls", "Painting"),
    StoredMapping("Living Room", "Light Fixtures", "Electrical"),
    StoredMapping("Living Room", "Power Outlets", "Electrical"),
    StoredMapping("Living Room", "Air Conditioning", "HVAC"),
    StoredMapping("Laundry", "Washing Machine Taps", "Plumbing"),
    StoredMapping("Laundry", "Laundry Sink", "Plumbing"),
    StoredMapping("Laundry", "Cabinets", "Carpentry & Joinery"),
    StoredMapping("Laundry", "Flooring", "Flooring"),
    StoredMapping("Laundry", "Exhaust Fan", "Electrical"),
    StoredMapping("Laundry", "Light Fixtures", "Electrical"),
    StoredMapping("Laundry", "Walls", "Painting"),
    StoredMapping("Laundry", "Ceiling", "Painting"),
    StoredMapping("Entry", "Door", "Doors"),
    StoredMapping("Entry", "Intercom", "Electrical"),
    StoredMapping("Entry", "Flooring", "Flooring"),
    StoredMapping("Entry", "Light Fixtures", "Electrical"),
    StoredMapping("Hallway", "Light Switches", "Electrical"),
    StoredMapping("Hallway", "Smoke Detector", "Fire Safety"),
    StoredMapping("Hallway", "Flooring", "Flooring"),
    StoredMapping("Hallway", "Walls", "Painting"),
    StoredMapping("Hallway", "Ceiling", "Painting"),
    StoredMapping("External", "Hot Water System", "Plumbing"),
    StoredMapping("External", "Meter Box", "Electrical"),
    StoredMapping("Car Space", "Remote Control", "Garage Doors"),
    StoredMapping("Car Space", "Lighting", "Electrical"),
    StoredMapping("Garage", "Door", "Garage Doors"),
    StoredMapping("Garage", "Lighting", "Electrical"),
    StoredMapping("Storage", "Shelving", "Carpentry & Joinery"),
    StoredMapping("General", "Smoke Detector", "Fire Safety"),
    StoredMapping("General", "Air Conditioning", "HVAC")
  ]

  /** The database manager and the tables it writes. */
  class DatabaseManager {
    const dbPath: string
    var connection: Connection?
    var tradeMappings: seq<StoredMapping>
    var buildings: seq<BuildingRecord>
    var inspections: seq<InspectionRecord>
    var items: seq<ItemRecord>

    constructor (dbPath: string)
      ensures this.dbPath == dbPath && connection == null
      ensures tradeMappings == [] && buildings == [] && inspections == [] && items == []
    {
      this.dbPath := dbPath;
      connection := null;
      tradeMappings := [];
      buildings := [];
      inspections := [];
      items := [];
    }

    /** `connect`: opens a connection (with its pragmas) on the first call and returns
        that same one on every later call. */
    method Connect() returns (c: Connection)
      modifies this
      ensures old(connection) != null ==> c == old(connection)
      ensures old(connection) == null ==> fresh(c) && c.path == dbPath && c.pragmas == ConnectionPragmas
      ensures connection == c
      ensures tradeMappings == old(tradeMappings) && buildings == old(buildings)
      ensures inspections == old(inspections) && items == old(items)
    {
      if connection == null {
        connection := new Connection(dbPath);
      }
      c := connection;
    }

    /** `save_trade_mapping`: the table is cleared and every row inserted, all in one
        transaction; a missing field, a repeated (room, component) pair or an engine
        error rolls everything back and reports failure. */
    method SaveTradeMapping(rows: seq<TradeMapper.MapRow>, engineError: bool) returns (ok: bool)
      modifies this
      ensures ok <==> !engineError && MappingTable(rows).Some?
      ensures ok ==> tradeMappings == MappingTable(rows).value
      ensures !ok ==> tradeMappings == old(tradeMappings)
      ensures connection != null && (old(connection) != null ==> connection == old(connection))
      ensures buildings == old(buildings) && inspections == old(inspections) && items == old(items)
    {
      var c := Connect();
      if engineError {
        return false;
      }
      var staged: seq<StoredMapping> := [];
      for i := 0 to |rows|
        invariant MappingTable(rows[..i]) == Some(staged)
        invariant tradeMappings == old(tradeMappings) && connection == c
        invariant buildings == old(buildings) && inspections == old(inspections) && items == old(items)
      {
        var r := rows[i];
        assert rows[..i + 1][..i] == rows[..i];
        if r.room.None? || r.component.None? || r.trade.None? || KeyStored(staged, r.room.value, r.component.value) {
          MappingFailurePersists(rows, i + 1);
          return false;
        }
        staged := staged + [StoredMapping(r.room.value, r.component.value, r.trade.value)];
      }
      assert rows[..|rows|] == rows;
      tradeMappings := staged;
      ok := true;
    }

    /** `seed_default_trade_mapping`: the defaults are inserted only into an empty
        table. */
    method SeedDefaultTradeMapping()
      modifies this
      ensures old(tradeMappings) == [] ==> tradeMappings == DefaultMappings
      ensures old(tradeMappings) != [] ==> tradeMappings == old(tradeMappings)
      ensures connection != null && (old(connection) != null ==> connection == old(connection))
      ensures buildings == old(buildings) && inspections == old(inspections) && items == old(items)
    {
      var c := Connect();
      if |tradeMappings| == 0 {
        for i := 0 to |DefaultMappings|
          invariant tradeMappings == DefaultMappings[..i] && connection == c
          invariant buildings == old(buildings) && inspections == old(inspections) && items == old(items)
        {
          tradeMappings := tradeMappings + [DefaultMappings[i]];
        }
      }
    }

    /** `save_inspector_data`: refuses empty data, empty metrics and data missing a
        required column without writing; otherwise writes the building, the inspection
        and one item per row in one transaction and returns the inspection's id, and on
        any failure rolls back and returns `None`. */
    method SaveInspectorData(data: Frame, metrics: Metrics, inspectorName: string, originalFilename: Option<string>,
                             today: string, now: string, buildingId: string, inspectionId: string,
                             itemId: nat -> string, isoTimestamp: string -> Option<string>, fault: SaveFault)
      returns (r: Option<string>)
      modifies this
      ensures r.Some? <==> Saveable(data, metrics) && (fault == NoFault || (fault == ConnectFails && old(connection) != null))
      ensures r.Some? ==> r.value == inspectionId
      ensures r.Some? ==> buildings == old(buildings) + [BuildingOf(buildingId, metrics, today)]
      ensures r.Some? ==> inspections == old(inspections)
                           + [InspectionOf(inspectionId, buildingId, metrics, today, inspectorName, originalFilename)]
      ensures r.Some? ==> items == old(items) + ItemsOf(data.rows, inspectionId, InspectionDateOf(metrics, today),
                                                        itemId, isoTimestamp, now)
      ensures r.None? ==> buildings == old(buildings) && inspections == old(inspections) && items == old(items)
      ensures tradeMappings == old(tradeMappings)
      ensures old(connection) != null ==> connection == old(connection)
    {
      if !Saveable(data, metrics) {
        return None;
      }
      if fault == ConnectFails && connection == null {
        return None;
      }
      var c := Connect();
      var inspectionDate := InspectionDateOf(metrics, today);
      var building := BuildingOf(buildingId, metrics, today);
      if fault == BuildingInsertFails {
        return None;
      }
      var inspection := InspectionOf(inspectionId, buildingId, metrics, today, inspectorName, originalFilename);
      if fault == InspectionInsertFails {
        return None;
      }
      var batch := ItemBatch(data.rows, inspectionId, inspectionDate, itemId, isoTimestamp, now);
      if fault == ItemsInsertFails {
        return None;
      }
      buildings := buildings + [building];
      inspections := inspections + [inspection];
      items := items + batch;
      r := Some(inspectionId);
    }
  }

  /** A successful save leaves no orphaned item behind when there was none before. */
  lemma SavedItemsNeverOrphaned(items: seq<ItemRecord>, inspections: seq<InspectionRecord>, rows: seq<map<string, string>>,
                                m: Metrics, today: string, now: string, inspectorName: string, originalFilename: Option<string>,
                                buildingId: string, inspectionId: string, itemId: nat -> string,
                                isoTimestamp: string -> Option<string>)
    requires NoOrphanItems(items, inspections)
    ensures OrphanItemCount(items + ItemsOf(rows, inspectionId, InspectionDateOf(m, today), itemId, isoTimestamp, now),
                            inspections + [InspectionOf(inspectionId, buildingId, m, today, inspectorName, originalFilename)]) == 0
  {
    var batch := ItemsOf(rows, inspectionId, InspectionDateOf(m, today), itemId, isoTimestamp, now);
    ItemsOfRows(rows, inspectionId, InspectionDateOf(m, today), itemId, isoTimestamp, now);
    SaveKeepsNoOrphans(items, inspections, batch, InspectionOf(inspectionId, buildingId, m, today, inspectorName, originalFilename));
  }

  // ---------------------------------------------------------------------------
  // Readiness and integrity reports
  // ---------------------------------------------------------------------------

  const RequiredTables: set<string> :=
    {"inspector_buildings", "inspector_inspections", "inspector_inspection_items",
     "inspector_work_orders", "inspector_project_progress"}

  datatype ReadinessIssue = MissingTables(tables: set<string>) | WriteTestFailed | ConnectionError
  datatype ReadinessWarning = ForeignKeysOff

  /** Where the readiness check itself can break off: before the table check (opening
      the connection or the query), or at the foreign-key pragma. */
  datatype ReadinessFault = NoReadinessFault | FailsBeforeTables | FailsAtForeignKeys

  datatype Readiness = Readiness(ready: bool, issues: seq<ReadinessIssue>, warnings: seq<ReadinessWarning>)

  /** `check_save_readiness`, from the tables that exist, the outcome of the write test,
      the foreign-key setting and where the check broke off. */
  function CheckSaveReadiness(existing: set<string>, writeTestOk: bool, foreignKeysOn: bool, fault: ReadinessFault): (r: Readiness)
    ensures r.ready <==> r.issues == []
    ensures fault == FailsBeforeTables ==> r.issues == [ConnectionError] && r.warnings == []
    ensures fault != FailsBeforeTables ==>
              (MissingTables(RequiredTables - existing) in r.issues <==> RequiredTables - existing != {})
    ensures fault != FailsBeforeTables ==> (WriteTestFailed in r.issues <==> !writeTestOk)
    ensures ConnectionError in r.issues <==> fault != NoReadinessFault
    ensures r.warnings == (if fault == NoReadinessFault && !foreignKeysOn then [ForeignKeysOff] else [])
  {
    var missing := RequiredTables - existing;
    var issues := (if missing != {} then [MissingTables(missing)] else [])
                  + (if writeTestOk then [] else [WriteTestFailed]);
    assert ConnectionError !in issues;
    match fault
    case FailsBeforeTables => Readiness(false, [ConnectionError], [])
    case FailsAtForeignKeys => Readiness(false, issues + [ConnectionError], [])
    case NoReadinessFault => Readiness(issues == [], issues, if foreignKeysOn then [] else [ForeignKeysOff])
  }

  /** Warnings never change readiness: with every table there, a passing write test and
      no break-off the database is ready whatever the foreign-key setting. */
  lemma WarningsDoNotBlock(existing: set<string>, foreignKeysOn: bool)
    requires RequiredTables <= existing
    ensures CheckSaveReadiness(existing, true, foreignKeysOn, NoReadinessFault).ready
    ensures CheckSaveReadiness(existing, true, true, NoReadinessFault) == CheckSaveReadiness(existing, true, false, NoReadinessFault).(warnings := [])
  {
  }

  datatype IntegrityIssue = ForeignKeyViolation(violation: string) | OrphanedItems(n: nat)
                          | OrphanedWorkOrders(n: nat) | UsersWithoutProfiles(n: nat)

  datatype IntegrityReport = IntegrityReport(isValid: bool, issues: seq<IntegrityIssue>)

  function ViolationIssues(violations: seq<string>): (r: seq<IntegrityIssue>)
    ensures |r| == |violations|
    ensures forall k :: 0 <= k < |r| ==> r[k] == ForeignKeyViolation(violations[k])
    decreases |violations|
  {
    if violations == [] then [] else ViolationIssues(violations[..|violations| - 1]) + [ForeignKeyViolation(violations[|violations| - 1])]
  }

  /** `validate_database_integrity`, from the foreign-key violations and the three
      orphan counts: one issue per violation, then one per non-zero count. */
  function ValidateDatabaseIntegrity(violations: seq<string>, orphanedItems: nat, orphanedWorkOrders: nat,
                                     usersWithoutProfiles: nat): (r: IntegrityReport)
    ensures r.isValid <==> r.issues == []
    ensures r.isValid <==> violations == [] && orphanedItems == 0 && orphanedWorkOrders == 0 && usersWithoutProfiles == 0
    ensures |r.issues| == |violations| + (if orphanedItems > 0 then 1 else 0) + (if orphanedWorkOrders > 0 then 1 else 0)
                         + (if usersWithoutProfiles > 0 then 1 else 0)
    ensures r.issues[..|violations|] == ViolationIssues(violations)
  {
    var issues := ViolationIssues(violations)
                  + (if orphanedItems > 0 then [OrphanedItems(orphanedItems)] else [])
                  + (if orphanedWorkOrders > 0 then [OrphanedWorkOrders(orphanedWorkOrders)] else [])
                  + (if usersWithoutProfiles > 0 then [UsersWithoutProfiles(usersWithoutProfiles)] else []);
    assert issues[..|violations|] == ViolationIssues(violations);
    IntegrityReport(|issues| == 0, issues)
  }

  /** The orphan count the report uses stays zero across successful saves. */
  lemma SavesPassIntegrity(items: seq<ItemRecord>, inspections: seq<InspectionRecord>, batch: seq<ItemRecord>,
                           inspection: InspectionRecord)
    requires NoOrphanItems(items, inspections)
    requires forall k :: 0 <= k < |batch| ==> batch[k].inspectionId == inspection.id
    ensures ValidateDatabaseIntegrity([], OrphanItemCount(items + batch, inspections + [inspection]), 0, 0).isValid
  {
    SaveKeepsNoOrphans(items, inspections, batch, inspection);
  }
}
