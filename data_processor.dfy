/** The normalisation rules the inspection processor applies to an uploaded CSV:
    status and urgency classification, unit and unit-type extraction, the split of
    an inspection column name into Room and Component, the planned-completion
    offsets, one work order per defect, and the settlement-readiness buckets. */
module DataProcessor {
  import opened Wrappers
  import opened Strings
  import opened Seqs

  // ---------------------------------------------------------------------------
  // Status classification
  // ---------------------------------------------------------------------------

  datatype StatusClass = Ok | NotOk | Blank

  function StatusClassName(c: StatusClass): string {
    match c
    case Ok => "OK"
    case NotOk => "Not OK"
    case Blank => "Blank"
  }

  const OkWords: seq<string> := ["✓", "✔", "ok", "pass", "passed", "good", "satisfactory"]
  const FailWords: seq<string> := ["✗", "✘", "x", "fail", "failed", "not ok", "defect", "issue"]

  /** `classify_status`; a missing cell (`NaN`) is `None`. The explicit fail list
      decides nothing: every other non-blank value is a defect as well. */
  function ClassifyStatus(val: Option<string>): (r: StatusClass)
    ensures r == Blank <==> val.None? || Trim(val.value) == []
    ensures r == Ok <==> val.Some? && Lower(Trim(val.value)) in OkWords
    ensures r == NotOk <==> val.Some? && Trim(val.value) != [] && Lower(Trim(val.value)) !in OkWords
  {
    if val.None? then Blank
    else
      var v := Lower(Trim(val.value));
      StatusWordsNonEmpty();
      assert |v| == |Trim(val.value)|;
      if v in OkWords then Ok
      // The fail list gives Not OK, and so does the last branch for every other
      // non-blank word: the list changes no outcome.
      else if v in FailWords then NotOk
      else if v == "" then Blank
      else NotOk
  }

  lemma StatusWordsNonEmpty()
    ensures [] !in OkWords && [] !in FailWords
  {
  }

  /** Only the stripped, lower-cased text matters. */
  lemma StatusIgnoresCaseAndPadding(a: string, b: string)
    requires Lower(Trim(a)) == Lower(Trim(b))
    ensures ClassifyStatus(Some(a)) == ClassifyStatus(Some(b))
  {
    assert |Trim(a)| == |Lower(Trim(a))| == |Trim(b)|;
  }

  // ---------------------------------------------------------------------------
  // Urgency classification
  // ---------------------------------------------------------------------------

  datatype Urgency = Urgent | HighPriority | Normal

  function UrgencyName(u: Urgency): string {
    match u
    case Urgent => "Urgent"
    case HighPriority => "High Priority"
    case Normal => "Normal"
  }

  const UrgentKeywords: seq<string> := ["urgent", "immediate", "safety", "hazard", "dangerous"]
  const SafetyComponents: seq<string> := ["fire", "smoke", "electrical", "gas", "water", "security"]

  /** `any(w in s for w in words)` */
  predicate MentionsAny(s: string, words: seq<string>) {
    exists k :: 0 <= k < |words| && Contains(s, words[k])
  }

  /** `classify_urgency(val, component, room)`: the room is accepted and ignored. */
  function ClassifyUrgency(val: Option<string>, component: string, room: string): (r: Urgency)
    ensures val.None? ==> r == Normal
    ensures r == Urgent <==> val.Some? && MentionsAny(Lower(Trim(val.value)), UrgentKeywords)
    ensures r == HighPriority <==> val.Some? && !MentionsAny(Lower(Trim(val.value)), UrgentKeywords)
                                   && MentionsAny(Lower(component), SafetyComponents)
  {
    if val.None? then Normal
    else if MentionsAny(Lower(Trim(val.value)), UrgentKeywords) then Urgent
    else if MentionsAny(Lower(component), SafetyComponents) then HighPriority
    else Normal
  }

  /** The room never changes the urgency. */
  lemma UrgencyIgnoresRoom(val: Option<string>, component: string, room1: string, room2: string)
    ensures ClassifyUrgency(val, component, room1) == ClassifyUrgency(val, component, room2)
  {
  }

  /** A cell that reads as a pass never carries an urgent keyword, so a passed item
      is at most High Priority (through its component). */
  lemma PassedItemNotUrgent(val: Option<string>, component: string, room: string)
    requires ClassifyStatus(val) == Ok
    ensures ClassifyUrgency(val, component, room) != Urgent
  {
    var v := Lower(Trim(val.value));
    forall k | 0 <= k < |UrgentKeywords| ensures !Contains(v, UrgentKeywords[k]) {
      OkWordAvoidsKeyword(v, UrgentKeywords[k]);
    }
  }

  lemma OkWordAvoidsKeyword(v: string, w: string)
    requires v in OkWords && w in UrgentKeywords
    ensures !Contains(v, w)
  {
    if |v| < |w| {
      ShortNoContains(v, w);
    } else if v == "passed" {
      NoCharNoContains(v, w, if w == "dangerous" then 'n' else if w == "immediate" then 'i' else if w == "hazard" then 'h' else if w == "urgent" then 'u' else 'f');
    } else {
      assert v == "satisfactory";
      NoCharNoContains(v, w, if w == "dangerous" then 'n' else if w == "immediate" then 'm' else if w == "hazard" then 'h' else if w == "urgent" then 'u' else 'e');
    }
  }

  // ---------------------------------------------------------------------------
  // Unit number and unit type
  // ---------------------------------------------------------------------------

  function UnitFallback(auditName: string, hash: string -> int): string {
    "Unit_" + NatToString(hash(auditName) % 1000)
  }

  predicate HasDigit(s: string) {
    exists i :: 0 <= i < |s| && IsDigit(s[i])
  }

  /** A short token with a digit, as the second `/`-field must be. */
  predicate IsUnitToken(t: string) {
    |t| <= 6 && HasDigit(t)
  }

  /** The trimmed second `/`-field, when there are at least three fields and it is
      a unit token. */
  function UnitCandidate(name: string): Option<string> {
    var parts := Split(name, "/");
    if |parts| >= 3 && IsUnitToken(Trim(parts[1])) then Some(Trim(parts[1])) else None
  }

  /** `extract_unit(audit_name)`: the candidate field, else a `Unit_` name built from
      `hash(audit_name) % 1000`. The process-salted hash is a parameter. */
  function ExtractUnit(auditName: Option<string>, hash: string -> int): string {
    if auditName.None? then "Unknown"
    else
      var c := UnitCandidate(auditName.value);
      if c.Some? then c.value else UnitFallback(auditName.value, hash)
  }

  /** Every extracted unit is `Unknown`, a `Unit_` name with a number below 1000, or
      a token of at most six characters with a digit and no `/`. */
  lemma ExtractUnitShape(auditName: Option<string>, hash: string -> int)
    ensures var r := ExtractUnit(auditName, hash);
            r == "Unknown"
            || (exists n: nat :: n < 1000 && r == "Unit_" + NatToString(n))
            || (IsUnitToken(r) && '/' !in r)
  {
    if auditName.Some? {
      var parts := Split(auditName.value, "/");
      var r := ExtractUnit(auditName, hash);
      if UnitCandidate(auditName.value).Some? {
        SplitPartsNoChar(auditName.value, '/');
        TrimIsInfix(parts[1]);
      } else {
        var n := hash(auditName.value) % 1000;
        assert r == "Unit_" + NatToString(n);
      }
    }
  }

  /** An audit name of the form `building/unit/rest` gives back the unit. */
  lemma ExtractUnitRoundTrip(building: string, unit: string, rest: string, hash: string -> int)
    requires '/' !in building && '/' !in unit
    requires Trim(unit) == unit && IsUnitToken(unit)
    ensures ExtractUnit(Some(building + "/" + unit + "/" + rest), hash) == unit
  {
    SlashFields(building, unit, rest);
    ExtractUnitOfFields(building + "/" + unit + "/" + rest, unit, hash);
  }

  lemma ExtractUnitOfFields(name: string, unit: string, hash: string -> int)
    requires |Split(name, "/")| >= 3 && Split(name, "/")[1] == unit
    requires Trim(unit) == unit && IsUnitToken(unit)
    ensures ExtractUnit(Some(name), hash) == unit
  {
  }

  lemma SlashFields(building: string, unit: string, rest: string)
    requires '/' !in building && '/' !in unit
    ensures var parts := Split(building + "/" + unit + "/" + rest, "/");
            |parts| >= 3 && parts[1] == unit
  {
    var sep := "/";
    SlashFieldWhole(building);
    SlashFieldWhole(unit);
    NoStraddleSingle(building, sep + (unit + sep + rest), '/');
    SplitAppend(building, unit + sep + rest, sep);
    NoStraddleSingle(unit, sep + rest, '/');
    SplitAppend(unit, rest, sep);
    assert building + sep + unit + sep + rest == building + sep + (unit + sep + rest);
  }

  lemma SlashFieldWhole(s: string)
    requires '/' !in s
    ensures Split(s, "/") == [s]
  {
    NoCharNoContains(s, "/", '/');
    SplitWithoutSeparator(s, "/");
  }

  /** `derive_unit_type(row)`: the unit-type cell as text (`str` of a missing cell,
      or `""` when the column is absent). */
  function DeriveUnitType(cell: string): (r: string)
    ensures r != []
    ensures Trim(cell) == [] ==> r == "Unknown Type"
    ensures Lower(Trim(cell)) == "apartment" ==> r == "Apartment"
    ensures Lower(Trim(cell)) == "townhouse" ==> r == "Townhouse"
    ensures Trim(cell) != [] && Lower(Trim(cell)) != "apartment" && Lower(Trim(cell)) != "townhouse" ==> r == Trim(cell)
  {
    var t := Trim(cell);
    if Lower(t) == "apartment" then "Apartment"
    else if Lower(t) == "townhouse" then "Townhouse"
    else if t != [] then t
    else "Unknown Type"
  }

  /** A custom unit type comes out stripped, so deriving it again changes nothing. */
  lemma CustomUnitTypeStable(cell: string)
    requires Trim(cell) != [] && Lower(Trim(cell)) != "apartment" && Lower(Trim(cell)) != "townhouse"
    ensures DeriveUnitType(cell) == Trim(cell)
    ensures DeriveUnitType(DeriveUnitType(cell)) == DeriveUnitType(cell)
  {
    TrimEnds(cell);
    TrimSpaceAround(Trim(cell));
  }

  /** The `Unit` column: the trimmed lot number when that column exists with a
      value, else the unit read from `auditName`, else `Unit_1`, `Unit_2`, ... */
  function UnitColumn(n: nat, lotNumbers: Option<seq<Option<string>>>, auditNames: Option<seq<Option<string>>>,
                      hash: string -> int): (r: seq<string>)
    requires lotNumbers.Some? ==> |lotNumbers.value| == n
    requires auditNames.Some? ==> |auditNames.value| == n
    ensures |r| == n
    ensures lotNumbers.Some? && (exists i :: 0 <= i < n && lotNumbers.value[i].Some?) ==>
              forall i :: 0 <= i < n ==> r[i] == Trim(OptionOr(lotNumbers.value[i], "nan"))
    ensures (lotNumbers.None? || forall i :: 0 <= i < n ==> lotNumbers.value[i].None?) && auditNames.Some? ==>
              forall i :: 0 <= i < n ==> r[i] == ExtractUnit(auditNames.value[i], hash)
    ensures (lotNumbers.None? || forall i :: 0 <= i < n ==> lotNumbers.value[i].None?) && auditNames.None? ==>
              forall i :: 0 <= i < n ==> r[i] == "Unit_" + NatToString(i + 1)
  {
    if lotNumbers.Some? && exists i :: 0 <= i < n && lotNumbers.value[i].Some? then
      seq(n, i requires 0 <= i < n => Trim(OptionOr(lotNumbers.value[i], "nan")))
    else if auditNames.Some? then
      seq(n, i requires 0 <= i < n => ExtractUnit(auditNames.value[i], hash))
    else
      seq(n, i requires 0 <= i < n => "Unit_" + NatToString(i + 1))
  }

  // ---------------------------------------------------------------------------
  // Inspection columns and the Room / Component split
  // ---------------------------------------------------------------------------

  const InspectionPrefix: string := "Pre-Settlement Inspection_"

  predicate IsInspectionColumn(c: string) {
    StartsWith(c, InspectionPrefix) && !EndsWith(c, "_notes")
  }

  /** The inspection columns in their CSV order, or the `ValueError` raised when
      there are none. */
  function InspectionColumns(columns: seq<string>): (r: Result<seq<string>>)
    ensures r.Failure? <==> forall k :: 0 <= k < |columns| ==> !IsInspectionColumn(columns[k])
    ensures r.Failure? ==> r.error == "No inspection columns found in CSV"
    ensures r.Success? ==> r.value != [] && IsSubsequence(r.value, columns)
                           && forall c :: c in r.value <==> c in columns && IsInspectionColumn(c)
  {
    var cols := Filter(columns, IsInspectionColumn);
    FilterIsSubsequence(columns, IsInspectionColumn);
    forall c ensures c in cols <==> c in columns && IsInspectionColumn(c) {
      FilterMembers(columns, IsInspectionColumn, c);
    }
    if cols == [] then Failure("No inspection columns found in CSV") else Success(cols)
  }

  /** Index of the first occurrence of `c`. */
  function IndexOf(s: string, c: char): (r: Option<nat>)
    ensures r.Some? ==> r.value < |s| && s[r.value] == c && c !in s[..r.value]
    ensures r.None? ==> c !in s
  {
    if s == [] then None
    else if s[0] == c then Some(0)
    else
      var k := IndexOf(s[1..], c);
      if k.Some? then
        assert s[..k.value + 1] == [s[0]] + s[1..][..k.value];
        Some(k.value + 1)
      else None
  }

  /** `s.split("_", 2)`: at most three fields, the last keeping any further `_`. */
  function SplitUnderscore2(s: string): (r: seq<string>)
    ensures 1 <= |r| <= 3
    ensures '_' !in r[0] && (|r| >= 2 ==> '_' !in r[1])
    ensures |r| < 3 ==> '_' !in r[|r| - 1]
  {
    match IndexOf(s, '_')
    case None => [s]
    case Some(i) =>
      var rest := s[i + 1..];
      match IndexOf(rest, '_')
      case None => [s[..i], rest]
      case Some(j) => [s[..i], rest[..j], rest[j + 1..]]
  }

  /** Joining the fields with `_` gives back the column name; fewer than three
      fields means fewer than two `_`. */
  lemma SplitUnderscore2Rejoins(s: string)
    ensures Join(SplitUnderscore2(s), "_") == s
  {
    match IndexOf(s, '_')
    case None =>
    case Some(i) =>
      var rest := s[i + 1..];
      assert s == s[..i] + "_" + rest;
      match IndexOf(rest, '_')
      case None =>
      case Some(j) =>
        assert rest == rest[..j] + "_" + rest[j + 1..];
        JoinThree(s[..i], rest[..j], rest[j + 1..]);
  }

  lemma JoinThree(a: string, b: string, c: string)
    ensures Join([a, b, c], "_") == a + "_" + (b + "_" + c)
  {
    assert [a, b, c][1..] == [b, c];
    assert [b, c][1..] == [c];
    assert Join([c], "_") == c;
    assert Join([b, c], "_") == b + "_" + c;
  }

  /** The index where a trailing `.` followed by one or more digits starts. */
  function DotDigitsStart(s: string): (r: Option<nat>)
    ensures r.Some? ==> r.value < |s| - 1 && s[r.value] == '.'
                        && forall k :: r.value < k < |s| ==> IsDigit(s[k])
  {
    var d := TrailingDigits(s);
    if 0 < d < |s| && s[|s| - d - 1] == '.' then Some(|s| - d - 1) else None
  }

  /** The length of the run of digits at the end of `s`. */
  function TrailingDigits(s: string): (r: nat)
    ensures r <= |s| && forall k :: |s| - r <= k < |s| ==> IsDigit(s[k])
    ensures r < |s| ==> !IsDigit(s[|s| - r - 1])
  {
    if s == [] || !IsDigit(s[|s| - 1]) then 0 else TrailingDigits(s[..|s| - 1]) + 1
  }

  /** `re.sub(r"\.\d+$", "", s)`: `$` also matches just before a final newline. */
  function DropDotDigits(s: string): (r: string)
    ensures |r| <= |s|
  {
    var core := if s != [] && s[|s| - 1] == '\n' then s[..|s| - 1] else s;
    var tail := s[|core|..];
    var k := DotDigitsStart(core);
    if k.Some? then core[..k.value] + tail else s
  }

  /** `x.split("_")[-1]` */
  function LastUnderscoreField(s: string): (r: string)
    ensures '_' !in r
  {
    var parts := Split(s, "_");
    SplitPartsNoChar(s, '_');
    parts[|parts| - 1]
  }

  /** Room and Component of one inspection column when some column of the upload
      has at least two `_`: a missing field is `None`. */
  function ItemFields(item: string): (r: (Option<string>, Option<string>))
    ensures r.0.Some? ==> '_' !in r.0.value
    ensures r.1.Some? ==> '_' !in r.1.value
  {
    var parts := SplitUnderscore2(item);
    (if |parts| >= 2 then Some(parts[1]) else None,
     if |parts| == 3 then Some(LastUnderscoreField(DropDotDigits(parts[2]))) else None)
  }

  /** A column named `Pre-Settlement Inspection_{room}_{component}` splits into
      exactly that room and component. */
  lemma ItemFieldsRoundTrip(room: string, component: string)
    requires '_' !in room && '_' !in component
    requires component == [] || (!IsDigit(component[|component| - 1]) && component[|component| - 1] != '\n')
    ensures ItemFields(InspectionPrefix + room + "_" + component) == (Some(room), Some(component))
  {
    var head := "Pre-Settlement Inspection";
    assert InspectionPrefix + room + "_" + component == head + "_" + room + "_" + component;
    SplitUnderscore2Of(head, room, component);
    KeepsComponent(component);
  }

  /** A component that does not end in digits survives the suffix removal and the
      last-field step unchanged. */
  lemma KeepsComponent(component: string)
    requires '_' !in component
    requires component == [] || (!IsDigit(component[|component| - 1]) && component[|component| - 1] != '\n')
    ensures LastUnderscoreField(DropDotDigits(component)) == component
  {
    NoDotDigits(component);
    NoCharNoContains(component, "_", '_');
    SplitWithoutSeparator(component, "_");
  }

  lemma NoDotDigits(s: string)
    requires s == [] || (!IsDigit(s[|s| - 1]) && s[|s| - 1] != '\n')
    ensures DropDotDigits(s) == s
  {
  }

  /** The fields of `a_b_c` when `a` and `b` hold no `_`. */
  lemma SplitUnderscore2Of(a: string, b: string, c: string)
    requires '_' !in a && '_' !in b
    ensures SplitUnderscore2(a + "_" + b + "_" + c) == [a, b, c]
  {
    var s := a + "_" + b + "_" + c;
    var rest := b + "_" + c;
    assert s == a + "_" + rest;
    IndexOfAfter(a, rest, '_');
    assert s[|a| + 1..] == rest && s[..|a|] == a;
    IndexOfAfter(b, c, '_');
    assert rest[..|b|] == b && rest[|b| + 1..] == c;
  }

  lemma {:induction false} IndexOfAfter(x: string, t: string, c: char)
    requires c !in x
    ensures IndexOf(x + [c] + t, c) == Some(|x|)
    decreases |x|
  {
    var s := x + [c] + t;
    if x != [] {
      assert s[1..] == x[1..] + [c] + t;
      IndexOfAfter(x[1..], t, c);
    }
  }

  /** The Room/Component split of the melted rows: per column when any column has
      two `_`, otherwise Room `General` and the column name without its prefix. */
  function SplitItems(items: seq<string>): (r: seq<(Option<string>, Option<string>)>)
    ensures |r| == |items|
    ensures (exists k :: 0 <= k < |items| && |SplitUnderscore2(items[k])| == 3) ==>
              forall k :: 0 <= k < |items| ==> r[k] == ItemFields(items[k])
    ensures (forall k :: 0 <= k < |items| ==> |SplitUnderscore2(items[k])| < 3) ==>
              forall k :: 0 <= k < |items| ==> r[k] == (Some("General"), Some(ReplaceAll(items[k], InspectionPrefix, "")))
  {
    if exists k :: 0 <= k < |items| && |SplitUnderscore2(items[k])| == 3 then
      seq(|items|, k requires 0 <= k < |items| => ItemFields(items[k]))
    else
      seq(|items|, k requires 0 <= k < |items| => (Some("General"), Some(ReplaceAll(items[k], InspectionPrefix, ""))))
  }

  const MetadataRooms: seq<string> := ["Unit Type", "Building Type", "Townhouse Type", "Apartment Type"]
  const MetadataComponents: seq<string> := ["Room Type"]

  /** Rows whose Room or Component names metadata rather than an inspected item;
      a missing value is never metadata. */
  predicate IsMetadata(room: Option<string>, component: Option<string>) {
    (room.Some? && room.value in MetadataRooms) || (component.Some? && component.value in MetadataComponents)
  }

  /** The melted rows' (Room, Component) pairs without the metadata rows, in order. */
  function RemoveMetadata(fields: seq<(Option<string>, Option<string>)>): seq<(Option<string>, Option<string>)> {
    Filter(fields, (f: (Option<string>, Option<string>)) => !IsMetadata(f.0, f.1))
  }

  /** A row is kept exactly when it is not metadata, and the kept rows keep their
      order. */
  lemma RemoveMetadataKeeps(fields: seq<(Option<string>, Option<string>)>, x: (Option<string>, Option<string>))
    ensures x in RemoveMetadata(fields) <==> x in fields && !IsMetadata(x.0, x.1)
    ensures IsSubsequence(RemoveMetadata(fields), fields)
  {
    FilterMembers(fields, (f: (Option<string>, Option<string>)) => !IsMetadata(f.0, f.1), x);
    FilterIsSubsequence(fields, (f: (Option<string>, Option<string>)) => !IsMetadata(f.0, f.1));
  }

  /** A "Room Type" row never survives, whatever its room; a row with no room and no
      component always does. */
  lemma RoomTypeRowsDropped(fields: seq<(Option<string>, Option<string>)>, room: Option<string>)
    ensures (room, Some("Room Type")) !in RemoveMetadata(fields)
    ensures (None, None) in fields ==> (None, None) in RemoveMetadata(fields)
  {
    RemoveMetadataKeeps(fields, (room, Some("Room Type")));
    RemoveMetadataKeeps(fields, (None, None));
  }

  // ---------------------------------------------------------------------------
  // Planned completion and the work orders created from defects
  // ---------------------------------------------------------------------------

  /** Days from the base date to planned completion. */
  function PlannedOffset(u: Urgency): (r: nat)
    ensures r in {3, 7, 14}
    ensures u == Urgent ==> r == 3
    ensures u == HighPriority ==> r == 7
    ensures u == Normal ==> r == 14
  {
    match u
    case Urgent => 3
    case HighPriority => 7
    case Normal => 14
  }

  /** `assign_planned_completion(urgency, date)` on day numbers. */
  function PlannedCompletion(u: Urgency, inspectionDay: int): (r: int)
    ensures inspectionDay < r <= inspectionDay + 14
  {
    inspectionDay + PlannedOffset(u)
  }

  /** More urgent items are planned no later than less urgent ones. */
  lemma PlannedCompletionMonotone(inspectionDay: int)
    ensures PlannedCompletion(Urgent, inspectionDay) < PlannedCompletion(HighPriority, inspectionDay)
            < PlannedCompletion(Normal, inspectionDay)
  {
  }

  /** Estimated hours of a new work order. */
  function EstimatedHours(u: Urgency): (r: real)
    ensures u == Urgent ==> r == 2.0
    ensures u == HighPriority ==> r == 4.0
    ensures u == Normal ==> r == 3.0
  {
    match u
    case Urgent => 2.0
    case HighPriority => 4.0
    case Normal => 3.0
  }

  /** One processed inspection row. Room and Component are `None` where the split
      left them missing; the inspection date is carried as text. */
  datatype ItemRow = ItemRow(unit: string, unitType: string, inspectionDate: string,
                             room: Option<string>, component: Option<string>,
                             statusClass: StatusClass, trade: string, urgency: Urgency)

  predicate IsDefect(r: ItemRow) { r.statusClass == NotOk }

  datatype NewWorkOrder = NewWorkOrder(id: string, inspectionId: string, unit: string, trade: string,
                                       component: Option<string>, room: Option<string>, urgency: Urgency,
                                       status: string, plannedDay: int, estimatedHours: real,
                                       notes: string, photosRequired: bool)

  const PhotoTrades: seq<string> := ["Flooring - Tiles", "Painting", "Waterproofing", "Concrete"]

  /** The work order written for the `k`-th defect; `today` is the day `now()` falls on. */
  function OrderFor(inspectionId: string, d: ItemRow, id: string, today: int): (w: NewWorkOrder)
    ensures w.status == "pending" && w.plannedDay == today + PlannedOffset(d.urgency)
    ensures w.photosRequired <==> d.trade in PhotoTrades
    ensures w.unit == d.unit && w.trade == d.trade && w.room == d.room && w.component == d.component
  {
    NewWorkOrder(id, inspectionId, d.unit, d.trade, d.component, d.room, d.urgency, "pending",
                 today + PlannedOffset(d.urgency), EstimatedHours(d.urgency),
                 "Defect identified during inspection on " + d.inspectionDate,
                 d.trade in PhotoTrades)
  }

  /** The work orders for the defects of `rows`, in row order. */
  function OrdersFor(inspectionId: string, rows: seq<ItemRow>, uuid: nat -> string, today: int): (r: seq<NewWorkOrder>)
  {
    var defects := Filter(rows, IsDefect);
    seq(|defects|, k requires 0 <= k < |defects| => OrderFor(inspectionId, defects[k], uuid(k), today))
  }

  /** Exactly one pending order per Not OK row, none for the other rows. */
  lemma OrdersForDefects(inspectionId: string, rows: seq<ItemRow>, uuid: nat -> string, today: int)
    ensures var r := OrdersFor(inspectionId, rows, uuid, today);
            |r| == Count(rows, IsDefect)
            && (forall k :: 0 <= k < |r| ==> r[k].status == "pending")
            && (forall k :: 0 <= k < |r| ==> (r[k].photosRequired <==> r[k].trade in PhotoTrades))
            && ((forall k :: 0 <= k < |rows| ==> !IsDefect(rows[k])) ==> r == [])
  {
    var defects := Filter(rows, IsDefect);
    var r := OrdersFor(inspectionId, rows, uuid, today);
    forall k | 0 <= k < |r|
      ensures r[k].status == "pending" && (r[k].photosRequired <==> r[k].trade in PhotoTrades)
    {
      assert r[k] == OrderFor(inspectionId, defects[k], uuid(k), today);
    }
    if forall k :: 0 <= k < |rows| ==> !IsDefect(rows[k]) {
      if defects != [] {
        assert defects[0] in rows by {
          FilterMembers(rows, IsDefect, defects[0]);
        }
        assert false;
      }
    }
  }

  /** `_create_work_orders_from_defects`: without a database nothing is written and 0
      is returned; a failing batch insert also returns 0. */
  method CreateWorkOrders(hasDb: bool, insertSucceeds: bool, inspectionId: string, rows: seq<ItemRow>,
                          uuid: nat -> string, today: int)
    returns (count: nat, written: seq<NewWorkOrder>)
    ensures !hasDb || !insertSucceeds ==> count == 0 && written == []
    ensures hasDb && insertSucceeds ==> written == OrdersFor(inspectionId, rows, uuid, today) && count == |written|
  {
    if !hasDb {
      return 0, [];
    }
    var defects := Filter(rows, IsDefect);
    if |defects| == 0 {
      return 0, [];
    }
    var orders: seq<NewWorkOrder> := [];
    var i := 0;
    while i < |defects|
      invariant 0 <= i <= |defects|
      invariant |orders| == i
      invariant forall k :: 0 <= k < i ==> orders[k] == OrderFor(inspectionId, defects[k], uuid(k), today)
    {
      orders := orders + [OrderFor(inspectionId, defects[i], uuid(i), today)];
      i := i + 1;
    }
    if !insertSucceeds {
      return 0, [];
    }
    count, written := |orders|, orders;
  }

  // ---------------------------------------------------------------------------
  // Settlement readiness
  // ---------------------------------------------------------------------------

  function DefectCount(rows: seq<ItemRow>, u: string): nat {
    Count(rows, (r: ItemRow) => r.unit == u && IsDefect(r))
  }

  /** `set(final_df["Unit"].dropna())` */
  function AllUnits(rows: seq<ItemRow>): set<string> {
    set r | r in rows :: r.unit
  }

  /** `final_df[Not OK].groupby("Unit").size()`: only units with a defect appear. */
  function DefectsPerUnit(rows: seq<ItemRow>): (m: map<string, nat>)
    ensures m.Keys <= AllUnits(rows)
    ensures forall u :: u in m ==> m[u] > 0 && m[u] == DefectCount(rows, u)
  {
    map u | u in AllUnits(rows) && DefectCount(rows, u) > 0 :: DefectCount(rows, u)
  }

  datatype Readiness = Readiness(ready: nat, minorWork: nat, majorWork: nat, extensiveWork: nat)

  function Units(m: map<string, nat>, lo: nat, hi: nat): set<string> {
    set u | u in m && lo <= m[u] <= hi
  }

  function UnitsOver(m: map<string, nat>, lo: nat): set<string> {
    set u | u in m && lo < m[u]
  }

  /** The readiness counts of `_calculate_comprehensive_metrics`: units with at most
      two defects plus the units without any are ready, then 3-7, 8-15 and over 15. */
  function ReadinessOf(rows: seq<ItemRow>): (r: Readiness)
    ensures r.ready + r.minorWork + r.majorWork + r.extensiveWork == |AllUnits(rows)|
  {
    var m := DefectsPerUnit(rows);
    BucketsPartition(m, AllUnits(rows));
    Readiness(|Units(m, 0, 2)| + |AllUnits(rows) - m.Keys|, |Units(m, 3, 7)|, |Units(m, 8, 15)|, |UnitsOver(m, 15)|)
  }

  /** A unit counts as ready exactly when it has at most two defects, none included. */
  lemma ReadyMeansFewDefects(rows: seq<ItemRow>)
    ensures ReadinessOf(rows).ready == |set u | u in AllUnits(rows) && DefectCount(rows, u) <= 2|
  {
    var m, all := DefectsPerUnit(rows), AllUnits(rows);
    var ready := set u | u in all && DefectCount(rows, u) <= 2;
    assert ready == Units(m, 0, 2) + (all - m.Keys);
    assert Units(m, 0, 2) * (all - m.Keys) == {};
    DisjointCard(Units(m, 0, 2), all - m.Keys);
  }

  lemma BucketsPartition(m: map<string, nat>, all: set<string>)
    requires m.Keys <= all
    ensures |Units(m, 0, 2)| + |all - m.Keys| + |Units(m, 3, 7)| + |Units(m, 8, 15)| + |UnitsOver(m, 15)| == |all|
  {
    KeysPartition(m);
    ComplementCard(m.Keys, all);
  }

  lemma KeysPartition(m: map<string, nat>)
    ensures |Units(m, 0, 2)| + |Units(m, 3, 7)| + |Units(m, 8, 15)| + |UnitsOver(m, 15)| == |m.Keys|
  {
    var a, b, c, e := Units(m, 0, 2), Units(m, 3, 7), Units(m, 8, 15), UnitsOver(m, 15);
    assert m.Keys == a + b + c + e;
    DisjointCard(a, b);
    DisjointCard(a + b, c);
    DisjointCard(a + b + c, e);
  }

  lemma ComplementCard<T>(k: set<T>, all: set<T>)
    requires k <= all
    ensures |k| + |all - k| == |all|
  {
    assert all == k + (all - k);
    DisjointCard(k, all - k);
  }

  lemma DisjointCard<T>(a: set<T>, b: set<T>)
    requires a * b == {}
    ensures |a + b| == |a| + |b|
  {
  }
}
