/** The inspector's page: whose role and trade-mapping permissions apply, the button
    key counter, the rule that keeps a custom mapping out of the database, the
    duplicate-upload gate, the unit lookup, the enhanced report file name and the
    column check of an uploaded mapping. */
module Inspector {
  import opened Wrappers
  import opened Strings
  import opened Seqs
  import opened Sorting
  import ExcelGenerator
  import TradeMapper
  import Setup

  // ---------------------------------------------------------------------------
  // Role and permissions
  // ---------------------------------------------------------------------------

  /** A user-info dictionary: its `role` and `trade_mapping_permissions` keys, and
      whether it holds any other key (which makes it non-empty, hence truthy). */
  datatype UserInfo = UserInfo(role: Option<string>, tradeMappingPermissions: Option<seq<string>>, otherKeys: bool)

  predicate Truthy(info: Option<UserInfo>) {
    info.Some? && (info.value.role.Some? || info.value.tradeMappingPermissions.Some? || info.value.otherKeys)
  }

  /** `get_current_user_role`: the page's own user info when it is non-empty, else the
      session's user info, else the session's stored role, else "inspector"; a user
      info without a role means "inspector". */
  function CurrentUserRole(own: Option<UserInfo>, sessionInfo: Option<UserInfo>, sessionRole: Option<string>): (r: string)
    ensures Truthy(own) ==> r == OptionOr(own.value.role, "inspector")
    ensures !Truthy(own) && sessionInfo.Some? ==> r == OptionOr(sessionInfo.value.role, "inspector")
    ensures !Truthy(own) && sessionInfo.None? && sessionRole.Some? ==> r == sessionRole.value
    ensures !Truthy(own) && sessionInfo.None? && sessionRole.None? ==> r == "inspector"
  {
    if Truthy(own) then OptionOr(own.value.role, "inspector")
    else if sessionInfo.Some? then OptionOr(sessionInfo.value.role, "inspector")
    else if sessionRole.Some? then sessionRole.value
    else "inspector"
  }

  /** `get_current_user_trade_permissions`, with `['view_master']` as the default at
      every level. */
  function TradePermissions(own: Option<UserInfo>, sessionInfo: Option<UserInfo>): (r: seq<string>)
    ensures Truthy(own) ==> r == OptionOr(own.value.tradeMappingPermissions, ["view_master"])
    ensures !Truthy(own) && sessionInfo.Some? ==> r == OptionOr(sessionInfo.value.tradeMappingPermissions, ["view_master"])
    ensures !Truthy(own) && sessionInfo.None? ==> r == ["view_master"]
  {
    if Truthy(own) then OptionOr(own.value.tradeMappingPermissions, ["view_master"])
    else if sessionInfo.Some? then OptionOr(sessionInfo.value.tradeMappingPermissions, ["view_master"])
    else ["view_master"]
  }

  predicate CanSaveMasterMapping(own: Option<UserInfo>, sessionInfo: Option<UserInfo>) {
    "save_master" in TradePermissions(own, sessionInfo)
  }

  predicate CanUseCustomMapping(own: Option<UserInfo>, sessionInfo: Option<UserInfo>) {
    "use_custom" in TradePermissions(own, sessionInfo)
  }

  predicate CanManageSystemMappings(own: Option<UserInfo>, sessionInfo: Option<UserInfo>) {
    "manage_system" in TradePermissions(own, sessionInfo)
  }

  /** A user about whom nothing is known gets the default permissions, which grant
      none of the three rights; the same holds for a user info missing the key. */
  lemma DefaultGrantsNothing(own: Option<UserInfo>, sessionInfo: Option<UserInfo>)
    requires Truthy(own) ==> own.value.tradeMappingPermissions.None?
    requires !Truthy(own) && sessionInfo.Some? ==> sessionInfo.value.tradeMappingPermissions.None?
    ensures TradePermissions(own, sessionInfo) == ["view_master"]
    ensures !CanSaveMasterMapping(own, sessionInfo) && !CanUseCustomMapping(own, sessionInfo)
            && !CanManageSystemMappings(own, sessionInfo)
  {
  }

  /** A non-empty own user info decides both the role and the permissions, whatever
      the session holds. */
  lemma OwnInfoOverridesSession(info: UserInfo, s1: Option<UserInfo>, s2: Option<UserInfo>, r1: Option<string>, r2: Option<string>)
    requires Truthy(Some(info))
    ensures CurrentUserRole(Some(info), s1, r1) == CurrentUserRole(Some(info), s2, r2)
    ensures TradePermissions(Some(info), s1) == TradePermissions(Some(info), s2)
  {
  }

  // ---------------------------------------------------------------------------
  // Button keys
  // ---------------------------------------------------------------------------

  /** The key for a base and a counter value. */
  function KeyFor(base: string, n: nat): string {
    base + "_" + NatToString(n)
  }

  /** Two keys with different counter values differ, whatever their bases: the digits
      after the last underscore are the counter. */
  lemma KeysWithDifferentCountersDiffer(b1: string, b2: string, m: nat, n: nat)
    requires m != n
    ensures KeyFor(b1, m) != KeyFor(b2, n)
  {
    var d1 := NatToString(m);
    var d2 := NatToString(n);
    var k1 := KeyFor(b1, m);
    var k2 := KeyFor(b2, n);
    if |d1| < |d2| {
      assert k1[|k1| - |d1| - 1] == '_';
      assert k2[|k2| - |d1| - 1] == d2[|d2| - |d1| - 1];
    } else if |d2| < |d1| {
      assert k2[|k2| - |d2| - 1] == '_';
      assert k1[|k1| - |d2| - 1] == d1[|d1| - |d2| - 1];
    } else {
      NatToStringRoundTrip(m);
      NatToStringRoundTrip(n);
      assert k1[|k1| - |d1|..] == d1;
      assert k2[|k2| - |d2|..] == d2;
    }
  }

  /** The page's counter of generated widget keys. */
  class InspectorPage {
    var buttonCounter: nat

    constructor ()
      ensures buttonCounter == 0
    {
      buttonCounter := 0;
    }

    /** `_get_unique_key`: advances the counter by one and tags the base with it. */
    method GetUniqueKey(base: string) returns (key: string)
      modifies this
      ensures buttonCounter == old(buttonCounter) + 1
      ensures key == KeyFor(base, buttonCounter)
    {
      buttonCounter := buttonCounter + 1;
      key := base + "_" + NatToString(buttonCounter);
    }
  }

  /** Two successive calls never hand out the same key, even for different bases. */
  method TwoKeysDiffer(page: InspectorPage, a: string, b: string) returns (k1: string, k2: string)
    modifies page
    ensures k1 != k2
  {
    k1 := page.GetUniqueKey(a);
    k2 := page.GetUniqueKey(b);
    KeysWithDifferentCountersDiffer(a, b, page.buttonCounter - 1, page.buttonCounter);
  }

  // ---------------------------------------------------------------------------
  // Custom mappings and duplicate uploads
  // ---------------------------------------------------------------------------

  /** `_should_prevent_db_save`: any of the two flags, or a temporary custom mapping. */
  function ShouldPreventDbSave(preventDbSave: bool, customMappingMode: bool, mappingSource: Option<string>): (r: bool)
    ensures r <==> preventDbSave || customMappingMode || mappingSource == Some("custom_temp")
  {
    preventDbSave || customMappingMode || (mappingSource.Some? && mappingSource.value == "custom_temp")
  }

  /** `_safe_db_save_trade_mapping`: nothing is written while a custom mapping is in
      use or without a database manager; otherwise the manager's
      `save_trade_mapping` decides, and its result is returned. */
  method SafeDbSaveTradeMapping(db: Setup.DatabaseManager?, preventDbSave: bool, customMappingMode: bool,
                                mappingSource: Option<string>, rows: seq<TradeMapper.MapRow>, engineError: bool)
    returns (ok: bool)
    modifies db
    ensures ShouldPreventDbSave(preventDbSave, customMappingMode, mappingSource) || db == null ==> !ok
    ensures ShouldPreventDbSave(preventDbSave, customMappingMode, mappingSource) && db != null ==>
              db.tradeMappings == old(db.tradeMappings) && db.connection == old(db.connection)
    ensures !ShouldPreventDbSave(preventDbSave, customMappingMode, mappingSource) && db != null ==>
              (ok <==> !engineError && Setup.MappingTable(rows).Some?)
              && (ok ==> db.tradeMappings == Setup.MappingTable(rows).value)
              && (!ok ==> db.tradeMappings == old(db.tradeMappings))
    ensures db != null ==> db.buildings == old(db.buildings) && db.inspections == old(db.inspections) && db.items == old(db.items)
  {
    if ShouldPreventDbSave(preventDbSave, customMappingMode, mappingSource) {
      return false;
    }
    if db == null {
      return false;
    }
    ok := db.SaveTradeMapping(rows, engineError);
  }

  /** The status shown for an uploaded file. */
  datatype UploadStatus = JustProcessed | Duplicate | NewFile

  /** The session key that lets a duplicate through. */
  function AllowKey(hash: string): string { "allow_dup_" + hash }

  /** The database is asked about the hash only when it is not the one just processed. */
  function DuplicateLookup(hash: string, lastProcessed: Option<string>, inDatabase: string -> bool): (r: bool)
    ensures r <==> lastProcessed != Some(hash) && inDatabase(hash)
  {
    if lastProcessed == Some(hash) then false else inDatabase(hash)
  }

  function UploadStatusOf(hash: string, lastProcessed: Option<string>, inDatabase: string -> bool): (r: UploadStatus)
    ensures r == JustProcessed <==> lastProcessed == Some(hash)
    ensures r == Duplicate <==> DuplicateLookup(hash, lastProcessed, inDatabase)
  {
    if lastProcessed == Some(hash) then JustProcessed
    else if DuplicateLookup(hash, lastProcessed, inDatabase) then Duplicate
    else NewFile
  }

  /** The duplicate block is shown, and processing stops, exactly when the database has
      the hash, the hash is not the one just processed, and the session has no override
      for it. */
  function DuplicateBlocked(hash: string, lastProcessed: Option<string>, inDatabase: string -> bool,
                            session: map<string, bool>): (r: bool)
    ensures r <==> inDatabase(hash) && lastProcessed != Some(hash)
                   && !(AllowKey(hash) in session && session[AllowKey(hash)])
  {
    var dup := DuplicateLookup(hash, lastProcessed, inDatabase);
    var allowed := if AllowKey(hash) in session then session[AllowKey(hash)] else false;
    dup && lastProcessed != Some(hash) && !allowed
  }

  /** Setting the override for a hash lets it through, and the override for one hash
      never lets another through. */
  lemma OverrideIsPerHash(hash: string, other: string, lastProcessed: Option<string>, inDatabase: string -> bool,
                          session: map<string, bool>)
    requires other != hash
    ensures !DuplicateBlocked(hash, lastProcessed, inDatabase, session[AllowKey(hash) := true])
    ensures DuplicateBlocked(other, lastProcessed, inDatabase, session[AllowKey(hash) := true])
            == DuplicateBlocked(other, lastProcessed, inDatabase, session)
  {
    assert AllowKey(other) != AllowKey(hash) by {
      assert AllowKey(other)[10..] == other && AllowKey(hash)[10..] == hash;
    }
  }

  // ---------------------------------------------------------------------------
  // Unit lookup
  // ---------------------------------------------------------------------------

  datatype ProcessedRow = ProcessedRow(unit: string, statusClass: string, room: string, component: string,
                                       trade: string, urgency: string, plannedCompletion: int)

  /** A row of the lookup's answer; the completion date is already formatted. */
  datatype LookupLine = LookupLine(room: string, component: string, trade: string, urgency: string,
                                   plannedCompletion: string)

  /** No processed data or no unit asked for gives a frame without columns; otherwise a
      frame with the five columns, possibly empty. */
  datatype LookupResult = NoColumns | Frame(lines: seq<LookupLine>)

  /** The unit agrees with the one asked for, trimmed and lower-cased, and the row is a defect. */
  predicate MatchesUnit(r: ProcessedRow, unitNumber: string) {
    Lower(Trim(r.unit)) == Lower(Trim(unitNumber)) && r.statusClass == "Not OK"
  }

  /** `df[mask]` with the unit mask: the unit's defect rows, in row order. */
  function UnitRows(rows: seq<ProcessedRow>, unitNumber: string): (r: seq<ProcessedRow>)
    ensures forall k :: 0 <= k < |r| ==> r[k] in rows && MatchesUnit(r[k], unitNumber)
    ensures forall x :: x in rows && MatchesUnit(x, unitNumber) ==> x in r
    ensures forall x :: multiset(r)[x] == if MatchesUnit(x, unitNumber) then multiset(rows)[x] else 0
  {
    var p := (x: ProcessedRow) => MatchesUnit(x, unitNumber);
    forall x ensures x in Filter(rows, p) <==> x in rows && p(x)
      ensures multiset(Filter(rows, p))[x] == if p(x) then multiset(rows)[x] else 0
    {
      FilterMembers(rows, p, x);
      FilterMultiplicity(rows, p, x);
    }
    Filter(rows, p)
  }

  /** Urgent first, then High Priority, then everything else. */
  function UrgencyRank(urgency: string): (r: nat)
    ensures urgency == "Urgent" ==> r == 1
    ensures urgency == "High Priority" ==> r == 2
    ensures urgency != "Urgent" && urgency != "High Priority" ==> r == 3
  {
    if urgency == "Urgent" then 1 else if urgency == "High Priority" then 2 else 3
  }

  predicate UrgencyThenPlanned(a: ProcessedRow, b: ProcessedRow) {
    UrgencyRank(a.urgency) < UrgencyRank(b.urgency)
    || (UrgencyRank(a.urgency) == UrgencyRank(b.urgency) && a.plannedCompletion <= b.plannedCompletion)
  }

  lemma UrgencyThenPlannedPreorder()
    ensures TotalPreorder(UrgencyThenPlanned)
  {
  }

  function LineOf(r: ProcessedRow, formatDate: int -> string): LookupLine {
    LookupLine(r.room, r.component, r.trade, r.urgency, formatDate(r.plannedCompletion))
  }

  /** The unit's defects in the order the lookup lists them. */
  function SortedUnitRows(rows: seq<ProcessedRow>, unitNumber: string): seq<ProcessedRow> {
    SortBy(UnitRows(rows, unitNumber), UrgencyThenPlanned)
  }

  /** The rows projected on the five columns. */
  function Project(rows: seq<ProcessedRow>, formatDate: int -> string): (r: seq<LookupLine>)
    ensures |r| == |rows|
    ensures forall k :: 0 <= k < |r| ==> r[k] == LineOf(rows[k], formatDate)
    decreases |rows|
  {
    if rows == [] then [] else [LineOf(rows[0], formatDate)] + Project(rows[1..], formatDate)
  }

  /** The answer's lines for a unit: its defects in lookup order, projected on the
      five columns. */
  function LookupLines(rows: seq<ProcessedRow>, unitNumber: string, formatDate: int -> string): seq<LookupLine> {
    Project(SortedUnitRows(rows, unitNumber), formatDate)
  }

  /** `_lookup_unit_defects` over the processed rows. */
  function LookupUnitDefects(processed: Option<seq<ProcessedRow>>, unitNumber: Option<string>,
                             formatDate: int -> string): (r: LookupResult)
    ensures processed.None? || unitNumber.None? <==> r.NoColumns?
    ensures r.Frame? ==> r.lines == LookupLines(processed.value, unitNumber.value, formatDate)
  {
    if processed.None? || unitNumber.None? then NoColumns
    else Frame(LookupLines(processed.value, unitNumber.value, formatDate))
  }

  /** The sorted rows are exactly the unit's defects, each as often as it occurs, most
      urgent first and, within an urgency, by planned completion; so the count the page
      reports is the number of the unit's defect rows. */
  lemma SortedUnitRowsFacts(rows: seq<ProcessedRow>, unitNumber: string)
    ensures forall x :: x in SortedUnitRows(rows, unitNumber) <==> x in rows && MatchesUnit(x, unitNumber)
    ensures forall x :: multiset(SortedUnitRows(rows, unitNumber))[x] == if MatchesUnit(x, unitNumber) then multiset(rows)[x] else 0
    ensures |SortedUnitRows(rows, unitNumber)| == |Filter(rows, (x: ProcessedRow) => MatchesUnit(x, unitNumber))|
    ensures SortedBy(SortedUnitRows(rows, unitNumber), UrgencyThenPlanned)
  {
    var selected := UnitRows(rows, unitNumber);
    UrgencyThenPlannedPreorder();
    SortBySorted(selected, UrgencyThenPlanned);
    forall x ensures x in SortedUnitRows(rows, unitNumber) <==> x in selected {
      SortByMembers(selected, UrgencyThenPlanned, x);
    }
  }

  /** Every listed line is a defect of the unit asked for. */
  lemma LookupLinesSound(rows: seq<ProcessedRow>, unitNumber: string, formatDate: int -> string)
    ensures forall k :: 0 <= k < |LookupLines(rows, unitNumber, formatDate)| ==>
              exists x :: x in rows && MatchesUnit(x, unitNumber) && LookupLines(rows, unitNumber, formatDate)[k] == LineOf(x, formatDate)
  {
    var sorted := SortedUnitRows(rows, unitNumber);
    var lines := LookupLines(rows, unitNumber, formatDate);
    assert lines == Project(sorted, formatDate);
    SortedUnitRowsFacts(rows, unitNumber);
    forall k | 0 <= k < |lines|
      ensures exists x :: x in rows && MatchesUnit(x, unitNumber) && lines[k] == LineOf(x, formatDate)
    {
      assert sorted[k] in sorted;
    }
  }

  /** Every defect of the unit is listed. */
  lemma LookupLinesComplete(rows: seq<ProcessedRow>, unitNumber: string, formatDate: int -> string)
    ensures forall x :: x in rows && MatchesUnit(x, unitNumber) ==> LineOf(x, formatDate) in LookupLines(rows, unitNumber, formatDate)
  {
    var sorted := SortedUnitRows(rows, unitNumber);
    var lines := LookupLines(rows, unitNumber, formatDate);
    assert lines == Project(sorted, formatDate);
    SortedUnitRowsFacts(rows, unitNumber);
    forall x | x in rows && MatchesUnit(x, unitNumber) ensures LineOf(x, formatDate) in lines {
      var k :| 0 <= k < |sorted| && sorted[k] == x;
      assert lines[k] == LineOf(x, formatDate);
    }
  }

  /** The lines come most urgent first. */
  lemma LookupLinesByUrgency(rows: seq<ProcessedRow>, unitNumber: string, formatDate: int -> string)
    ensures forall i, j :: 0 <= i < j < |LookupLines(rows, unitNumber, formatDate)| ==>
              UrgencyRank(LookupLines(rows, unitNumber, formatDate)[i].urgency)
              <= UrgencyRank(LookupLines(rows, unitNumber, formatDate)[j].urgency)
  {
    var sorted := SortedUnitRows(rows, unitNumber);
    var lines := LookupLines(rows, unitNumber, formatDate);
    assert lines == Project(sorted, formatDate);
    SortedUnitRowsFacts(rows, unitNumber);
    forall i, j | 0 <= i < j < |lines| ensures UrgencyRank(lines[i].urgency) <= UrgencyRank(lines[j].urgency) {
      assert UrgencyThenPlanned(sorted[i], sorted[j]);
    }
  }

  // ---------------------------------------------------------------------------
  // Report file name and mapping upload check
  // ---------------------------------------------------------------------------

  /** The database reference: "_DB" and the first eight characters of the inspection
      id, when one is set. */
  function DbRef(inspectionId: Option<string>): (r: string)
    ensures inspectionId.None? || inspectionId.value == [] ==> r == []
    ensures inspectionId.Some? && |inspectionId.value| >= 8 ==> r == "_DB" + inspectionId.value[..8]
    ensures inspectionId.Some? && 0 < |inspectionId.value| < 8 ==> r == "_DB" + inspectionId.value
  {
    if inspectionId.None? || inspectionId.value == [] then []
    else if |inspectionId.value| >= 8 then "_DB" + inspectionId.value[..8]
    else "_DB" + inspectionId.value
  }

  /** `_generate_enhanced_filename`: the cleaned building name, the report type, the
      timestamp and the database reference. */
  function EnhancedFilename(buildingName: string, reportType: string, timestamp: string,
                            inspectionId: Option<string>): (r: string)
    ensures StartsWith(r, ExcelGenerator.CleanBuildingName(buildingName) + "_V3_Enhanced_Inspection_Report_")
    ensures EndsWith(r, "_" + timestamp + DbRef(inspectionId))
    ensures |r| == |ExcelGenerator.CleanBuildingName(buildingName) + "_V3_Enhanced_Inspection_Report_"|
                   + |reportType| + |"_" + timestamp + DbRef(inspectionId)|
    ensures var p := |ExcelGenerator.CleanBuildingName(buildingName) + "_V3_Enhanced_Inspection_Report_"|;
            r[p..p + |reportType|] == reportType
  {
    var prefix := ExcelGenerator.CleanBuildingName(buildingName) + "_V3_Enhanced_Inspection_Report_";
    var suffix := "_" + timestamp + DbRef(inspectionId);
    Strings.ThreeParts(prefix, reportType, suffix);
    prefix + reportType + suffix
  }

  /** The required columns an uploaded mapping lacks, in the order Room, Component, Trade. */
  function MissingColumns(columns: seq<string>): (r: seq<string>)
    ensures forall c :: c in r <==> (c == "Room" || c == "Component" || c == "Trade") && c !in columns
    ensures IsSubsequence(r, ["Room", "Component", "Trade"])
  {
    var r := (if "Room" in columns then [] else ["Room"])
             + (if "Component" in columns then [] else ["Component"])
             + (if "Trade" in columns then [] else ["Trade"]);
    assert IsSubsequence(r, ["Room", "Component", "Trade"]) by {
      MissingIsSubsequence("Room" in columns, "Component" in columns, "Trade" in columns);
    }
    r
  }

  lemma MissingIsSubsequence(room: bool, component: bool, trade: bool)
    ensures IsSubsequence((if room then [] else ["Room"]) + (if component then [] else ["Component"])
                          + (if trade then [] else ["Trade"]), ["Room", "Component", "Trade"])
  {
    var t: seq<string> := if trade then [] else ["Trade"];
    var ct: seq<string> := (if component then [] else ["Component"]) + t;
    var all: seq<string> := ["Room", "Component", "Trade"];
    assert IsSubsequence(t, all[2..]);
    assert IsSubsequence(ct, all[1..]) by {
      if !component {
        assert ct[1..] == t;
      }
    }
    if !room {
      assert (["Room"] + ct)[1..] == ct;
    }
    assert (if room then [] else ["Room"]) + ct == (if room then [] else ["Room"]) + (if component then [] else ["Component"]) + t;
  }

  /** The upload is accepted exactly when it has all three columns. */
  lemma UploadAcceptedIffComplete(columns: seq<string>)
    ensures MissingColumns(columns) == [] <==> "Room" in columns && "Component" in columns && "Trade" in columns
  {
    if MissingColumns(columns) == [] {
      assert "Room" !in MissingColumns(columns);
      assert "Component" !in MissingColumns(columns);
      assert "Trade" !in MissingColumns(columns);
    }
  }
}
