/** The work-order lifecycle shared by the developer and builder dashboards:
    status transitions, the append-only `builder_notes` history text, the tab and
    view masks that derive "rejected" from status plus notes, and the two readers
    that pull a rejection reason back out of the history text. */
module WorkOrders {
  import opened Wrappers
  import opened Strings
  import opened Seqs

  // ---------------------------------------------------------------------------
  // Data model
  // ---------------------------------------------------------------------------

  /** The values the `status` column accepts. */
  datatype Status = Pending | InProgress | WaitingApproval | Approved | Rejected | Completed | Cancelled

  function StatusName(s: Status): string {
    match s
    case Pending => "pending"
    case InProgress => "in_progress"
    case WaitingApproval => "waiting_approval"
    case Approved => "approved"
    case Rejected => "rejected"
    case Completed => "completed"
    case Cancelled => "cancelled"
  }

  /** Reads a column value back; `None` for anything outside the CHECK list. */
  function ParseStatus(t: string): (r: Option<Status>)
    ensures r.Some? ==> StatusName(r.value) == t
  {
    if t == "pending" then Some(Pending)
    else if t == "in_progress" then Some(InProgress)
    else if t == "waiting_approval" then Some(WaitingApproval)
    else if t == "approved" then Some(Approved)
    else if t == "rejected" then Some(Rejected)
    else if t == "completed" then Some(Completed)
    else if t == "cancelled" then Some(Cancelled)
    else None
  }

  /** One row of `inspector_work_orders` (the columns the dashboards use). */
  datatype WorkOrder = WorkOrder(
    building: string, unit: string, room: string, component: string,
    trade: string, urgency: string, status: Status,
    builderNotes: Option<string>, plannedDate: Option<string>,
    startedDate: Option<string>, completedDate: Option<string>, updatedAt: Option<string>)

  /** `result[0] if result and result[0] else ""`: a NULL history reads as empty. */
  function NotesText(n: Option<string>): string {
    if n.Some? then n.value else ""
  }

  const BlockSeparator: string := "\n\n---"
  const RejectedMarker: string := "REJECTED"

  // ---------------------------------------------------------------------------
  // The history text, structured
  // ---------------------------------------------------------------------------

  /** One block a transition appends to `builder_notes`. Comments and notes are
      stored already trimmed. */
  datatype Entry =
    | ApprovalEntry(ts: string, user: string, comment: string)
    | RejectionEntry(ts: string, user: string, reason: string)
    | ProgressEntry(ts: string, user: string, notes: string, files: seq<string>, planned: string)
    | CompletionEntry(ts: string, user: string, notes: string, files: seq<string>, planned: string)

  const ApprovedLine: string := "✅ APPROVED"
  const AcceptedLine: string := "📊 STATUS: APPROVED - Work Accepted"
  const RejectedLine: string := "❌ " + RejectedMarker + " - REQUIRES REWORK"
  const ReturnedLine: string := "📊 STATUS: Returned to Builder"
  const NoNotesLine: string := "(Progress update - no notes)"
  const ProgressSavedLine: string := "📊 Status: Progress Saved"
  const AwaitingLine: string := "📊 STATUS: COMPLETED - Awaiting Developer Approval"

  /** The header line of a developer block, after the separator. */
  function DeveloperHeader(ts: string, user: string): string {
    ts + " - " + user + " (Developer) ---"
  }

  /** The header line of a builder block, after the separator. */
  function BuilderHeader(ts: string, user: string): string {
    ts + " - " + user + " ---"
  }

  /** The optional attachments line. */
  function FilesLines(files: seq<string>): seq<string> {
    if files == [] then [] else ["📎 Files: " + Join(files, ", ")]
  }

  /** The lines of a block, in the order the transition writes them. */
  function EntryLines(e: Entry): seq<string> {
    match e
    case ApprovalEntry(ts, user, comment) =>
      [DeveloperHeader(ts, user), ApprovedLine]
      + (if comment != "" then ["Notes: " + comment] else [])
      + [AcceptedLine]
    case RejectionEntry(ts, user, reason) =>
      [DeveloperHeader(ts, user), RejectedLine, "Reason: " + reason, ReturnedLine]
    case ProgressEntry(ts, user, notes, files, planned) =>
      [BuilderHeader(ts, user), if notes != "" then notes else NoNotesLine]
      + FilesLines(files)
      + ["📅 Planned Completion: " + planned, ProgressSavedLine]
    case CompletionEntry(ts, user, notes, files, planned) =>
      [BuilderHeader(ts, user), notes]
      + FilesLines(files)
      + ["✓ Planned Completion: " + planned, AwaitingLine]
  }

  /** The text of a block after its leading `"\n\n---"`. */
  function Body(e: Entry): string {
    " " + Join(EntryLines(e), "\n")
  }

  function Serialize(e: Entry): string {
    BlockSeparator + Body(e)
  }

  /** The blocks of a history, oldest first, as one text. */
  function SerializeAll(es: seq<Entry>): string {
    if es == [] then "" else SerializeAll(es[..|es| - 1]) + Serialize(es[|es| - 1])
  }

  lemma SerializeAllSnoc(es: seq<Entry>, e: Entry)
    ensures SerializeAll(es + [e]) == SerializeAll(es) + Serialize(e)
  {
    assert (es + [e])[..|es|] == es;
  }

  /** A non-empty history text always starts with the block separator. */
  lemma {:induction false} SerializeAllStartsWithSeparator(es: seq<Entry>)
    ensures SerializeAll(es) == [] || StartsWith(SerializeAll(es), BlockSeparator)
    decreases |es|
  {
    if es != [] {
      var init := es[..|es| - 1];
      SerializeAllStartsWithSeparator(init);
      var a, b := SerializeAll(init), Serialize(es[|es| - 1]);
      PrefixOfConcat(a, b, BlockSeparator);
    }
  }

  // ---------------------------------------------------------------------------
  // Derived views (pure masks)
  // ---------------------------------------------------------------------------

  /** pandas `str.contains('REJECTED', na=False)` on `builder_notes`. */
  predicate MentionsRejected(o: WorkOrder) {
    o.builderNotes.Some? && Contains(o.builderNotes.value, RejectedMarker)
  }

  /** "Rejected" is derived, never stored: in progress with the marker in the notes. */
  predicate IsRejected(o: WorkOrder) {
    o.status == InProgress && MentionsRejected(o)
  }

  /** The five builder tabs. */
  datatype Tab = PendingTab | ActiveTab | RejectedTab | WaitingTab | ApprovedTab

  predicate InTab(o: WorkOrder, t: Tab) {
    match t
    case PendingTab => o.status == Pending
    case ActiveTab => o.status == InProgress && !MentionsRejected(o)
    case RejectedTab => o.status == InProgress && MentionsRejected(o)
    case WaitingTab => o.status == WaitingApproval
    case ApprovedTab => o.status == Approved
  }

  function TabRows(rows: seq<WorkOrder>, t: Tab): seq<WorkOrder> {
    Filter(rows, o => InTab(o, t))
  }

  /** The statuses some tab shows. */
  predicate OnSomeTab(o: WorkOrder) {
    o.status in {Pending, InProgress, WaitingApproval, Approved}
  }

  /** Every order sits in at most one tab, and in one exactly when its status is one
      of the four the tabs show. */
  lemma TabsDisjointAndCover(o: WorkOrder)
    ensures forall t1, t2 :: InTab(o, t1) && InTab(o, t2) ==> t1 == t2
    ensures OnSomeTab(o) <==> exists t :: InTab(o, t)
  {
    if OnSomeTab(o) {
      if o.status == Pending { assert InTab(o, PendingTab); }
      else if o.status == WaitingApproval { assert InTab(o, WaitingTab); }
      else if o.status == Approved { assert InTab(o, ApprovedTab); }
      else if MentionsRejected(o) { assert InTab(o, RejectedTab); }
      else { assert InTab(o, ActiveTab); }
    }
  }

  /** The tab sizes add up to the number of orders with a tab-shown status. */
  lemma {:induction false} TabsPartitionRows(rows: seq<WorkOrder>)
    ensures |TabRows(rows, PendingTab)| + |TabRows(rows, ActiveTab)| + |TabRows(rows, RejectedTab)|
          + |TabRows(rows, WaitingTab)| + |TabRows(rows, ApprovedTab)| == |Filter(rows, OnSomeTab)|
    decreases |rows|
  {
    if rows != [] {
      TabsPartitionRows(rows[1..]);
    }
  }

  /** pandas in the tabs and views is case-sensitive; SQLite `LIKE '%REJECTED%'` in
      the counts and the rejected list ignores ASCII case. */
  predicate SqlLikeRejected(notes: string) {
    Contains(Lower(notes), "rejected")
  }

  /** `WHERE builder_notes LIKE '%REJECTED%' AND status = 'in_progress'`. */
  predicate SqlRejected(o: WorkOrder) {
    o.status == InProgress && o.builderNotes.Some? && SqlLikeRejected(o.builderNotes.value)
  }

  /** `status = 'in_progress' AND (builder_notes NOT LIKE '%REJECTED%' OR builder_notes IS NULL)`. */
  predicate SqlInProgressNotRejected(o: WorkOrder) {
    o.status == InProgress && (o.builderNotes.None? || !SqlLikeRejected(o.builderNotes.value))
  }

  lemma LowerRejected()
    ensures Lower(RejectedMarker) == "rejected"
  {
    LowerPointwise(RejectedMarker, "rejected");
  }

  lemma ContainsLower(s: string, w: string)
    requires Contains(s, w)
    ensures Contains(Lower(s), Lower(w))
  {
    ContainsIffMatch(s, w);
    var i :| MatchAt(s, i, w);
    assert Lower(s)[i..i + |w|] == Lower(w);
    MatchImpliesContains(Lower(s), i, Lower(w));
  }

  /** Every order the tabs call rejected is also counted rejected by the SQL queries;
      the converse fails (a lower-case "rejected" in a progress note). */
  lemma TabRejectedImpliesSqlRejected(o: WorkOrder)
    ensures IsRejected(o) ==> SqlRejected(o)
  {
    if IsRejected(o) {
      ContainsLower(o.builderNotes.value, RejectedMarker);
      LowerRejected();
    }
  }

  lemma SqlAndTabDisagree()
    ensures var o := WorkOrder("B", "1", "Bathroom", "Tiles", "Flooring - Tiles", "Normal",
                               InProgress, Some("rejected"), None, None, None, None);
            SqlRejected(o) && !IsRejected(o)
  {
    var n := "rejected";
    assert Lower(n) == n;
    assert MatchAt(n, 0, "rejected");
    MatchImpliesContains(n, 0, "rejected");
    SameLengthNoContains(n, RejectedMarker);
  }

  /** The SQL building statistics split the in-progress orders between the two
      in-progress counters. */
  lemma SqlInProgressSplit(o: WorkOrder)
    ensures o.status == InProgress <==> (SqlRejected(o) != SqlInProgressNotRejected(o))
  {
  }

  /** The building view's status filter (`'rejected'`, `'in_progress'`, another
      status name, or `'All'`). */
  predicate MatchesStatusFilter(o: WorkOrder, filter: string) {
    if filter == "rejected" then o.status == InProgress && MentionsRejected(o)
    else if filter == "in_progress" then o.status == InProgress && !MentionsRejected(o)
    else filter == "All" || StatusName(o.status) == filter
  }

  /** The status column shown in the building view. */
  function DisplayStatus(o: WorkOrder): (r: string)
    ensures r == "rejected" <==> (IsRejected(o) || o.status == Rejected)
  {
    if IsRejected(o) then "rejected" else StatusName(o.status)
  }

  /** The `'rejected'` view filter picks exactly the rows displayed as rejected
      whose stored status is not the literal `'rejected'`. */
  lemma RejectedFilterMatchesDisplay(o: WorkOrder)
    ensures MatchesStatusFilter(o, "rejected") <==> (DisplayStatus(o) == "rejected" && o.status != Rejected)
  {
  }

  /** The performance report counts the marker whatever the status. */
  predicate PerformanceRejected(o: WorkOrder) {
    MentionsRejected(o)
  }

  lemma PerformanceCountsAtLeastTab(rows: seq<WorkOrder>)
    ensures |TabRows(rows, RejectedTab)| <= |Filter(rows, PerformanceRejected)|
  {
    FilterMonotone(rows, o => InTab(o, RejectedTab), PerformanceRejected);
  }

  // ---------------------------------------------------------------------------
  // Approval filter chain and the review toggle
  // ---------------------------------------------------------------------------

  /** A select box value: `'All'` keeps every row, anything else is an equality test. */
  predicate Keep(choice: string, value: string) {
    choice == "All" || value == choice
  }

  predicate MatchesFilters(o: WorkOrder, building: string, trade: string, priority: string, unit: string) {
    Keep(building, o.building) && Keep(trade, o.trade) && Keep(priority, o.urgency) && Keep(unit, o.unit)
  }

  function BuildingColumn(o: WorkOrder): string { o.building }
  function TradeColumn(o: WorkOrder): string { o.trade }
  function UrgencyColumn(o: WorkOrder): string { o.urgency }
  function UnitColumn(o: WorkOrder): string { o.unit }

  /** One `if choice != 'All': filtered = filtered[filtered[column] == choice]`. */
  function Narrow(rows: seq<WorkOrder>, choice: string, column: WorkOrder -> string): seq<WorkOrder> {
    if choice != "All" then Filter(rows, o => column(o) == choice) else rows
  }

  /** The four successive reassignments of `filtered`. */
  function ApplyFilters(rows: seq<WorkOrder>, building: string, trade: string, priority: string, unit: string): seq<WorkOrder> {
    Narrow(Narrow(Narrow(Narrow(rows, building, BuildingColumn), trade, TradeColumn), priority, UrgencyColumn), unit, UnitColumn)
  }

  lemma {:induction false} FilterAll(rows: seq<WorkOrder>, p: WorkOrder -> bool)
    requires forall o :: p(o)
    ensures Filter(rows, p) == rows
    decreases |rows|
  {
    if rows != [] {
      FilterAll(rows[1..], p);
      assert rows == [rows[0]] + rows[1..];
    }
  }

  /** One narrowing step is the filter by its own select box. */
  lemma NarrowIsKeep(rows: seq<WorkOrder>, choice: string, column: WorkOrder -> string, p: WorkOrder -> bool)
    requires forall o :: p(o) == Keep(choice, column(o))
    ensures Narrow(rows, choice, column) == Filter(rows, p)
  {
    if choice == "All" {
      FilterAll(rows, p);
    } else {
      FilterExt(rows, o => column(o) == choice, p);
    }
  }

  /** The chain is one AND mask over the rows. */
  lemma ApplyFiltersIsFilter(rows: seq<WorkOrder>, building: string, trade: string, priority: string, unit: string,
                             m: WorkOrder -> bool)
    requires forall o :: m(o) == MatchesFilters(o, building, trade, priority, unit)
    ensures ApplyFilters(rows, building, trade, priority, unit) == Filter(rows, m)
  {
    var pb := (o: WorkOrder) => Keep(building, o.building);
    var pt := (o: WorkOrder) => Keep(trade, o.trade);
    var pp := (o: WorkOrder) => Keep(priority, o.urgency);
    var pu := (o: WorkOrder) => Keep(unit, o.unit);
    var q2 := (o: WorkOrder) => Keep(building, o.building) && Keep(trade, o.trade);
    var q3 := (o: WorkOrder) => Keep(building, o.building) && Keep(trade, o.trade) && Keep(priority, o.urgency);
    var s1 := Narrow(rows, building, BuildingColumn);
    NarrowIsKeep(rows, building, BuildingColumn, pb);
    var s2 := Narrow(s1, trade, TradeColumn);
    NarrowIsKeep(s1, trade, TradeColumn, pt);
    FilterFilter(rows, pb, pt, q2);
    var s3 := Narrow(s2, priority, UrgencyColumn);
    NarrowIsKeep(s2, priority, UrgencyColumn, pp);
    FilterFilter(rows, q2, pp, q3);
    NarrowIsKeep(s3, unit, UnitColumn, pu);
    FilterFilter(rows, q3, pu, m);
  }

  /** The filtered list keeps the rows' order and holds exactly the rows that pass
      every select box. */
  lemma ApplyFiltersIsConjunction(rows: seq<WorkOrder>, building: string, trade: string, priority: string, unit: string)
    ensures IsSubsequence(ApplyFilters(rows, building, trade, priority, unit), rows)
    ensures forall o :: o in ApplyFilters(rows, building, trade, priority, unit) <==> o in rows && MatchesFilters(o, building, trade, priority, unit)
  {
    var m := (o: WorkOrder) => MatchesFilters(o, building, trade, priority, unit);
    ApplyFiltersIsFilter(rows, building, trade, priority, unit, m);
    FilterIsSubsequence(rows, m);
    forall o ensures o in Filter(rows, m) <==> o in rows && MatchesFilters(o, building, trade, priority, unit) {
      FilterMembers(rows, m, o);
    }
  }

  /** The Review/Close button: close the open item, or open this one. */
  function ToggleReview(open: Option<string>, oid: string): (r: Option<string>)
    ensures r == Some(oid) <==> open != Some(oid)
    ensures r.Some? ==> r.value == oid
  {
    if open == Some(oid) then None else Some(oid)
  }

  // ---------------------------------------------------------------------------
  // The store and its transitions
  // ---------------------------------------------------------------------------

  /** `user_info.get('name', default)` */
  function ActorName(name: Option<string>, default: string): string {
    OptionOr(name, default)
  }

  /** Every transition only appends to the history of every order. */
  ghost predicate NotesOnlyGrow(before: map<string, WorkOrder>, after: map<string, WorkOrder>) {
    before.Keys == after.Keys
    && forall id :: id in before ==> NotesText(before[id].builderNotes) <= NotesText(after[id].builderNotes)
  }

  /** The notes of `o` are the text `base` followed by the blocks `h`. */
  ghost predicate HistoryMatches(o: WorkOrder, base: string, h: seq<Entry>) {
    NotesText(o.builderNotes) == base + SerializeAll(h)
  }

  /** Appending a block to the notes appends it to the history. */
  lemma HistoryMatchesAppend(o: WorkOrder, updated: WorkOrder, base: string, h: seq<Entry>, e: Entry)
    requires HistoryMatches(o, base, h)
    requires NotesText(updated.builderNotes) == NotesText(o.builderNotes) + Serialize(e)
    ensures HistoryMatches(updated, base, h + [e])
    ensures NotesText(o.builderNotes) <= NotesText(updated.builderNotes)
  {
    SerializeAllSnoc(h, e);
    ConcatAssoc(base, SerializeAll(h), Serialize(e));
  }

  /** The work-order table. Times, the actor's name and database faults are
      parameters; `fault` stands for any exception raised inside the `try`. Each
      transition appends the block `Serialize(e)` that its f-strings spell out. */
  class WorkOrderStore {
    var orders: map<string, WorkOrder>
    /** The history text each order had before this store saw it. */
    ghost var origin: map<string, string>
    /** The blocks appended since, oldest first. */
    ghost var history: map<string, seq<Entry>>

    ghost predicate Valid()
      reads this
    {
      orders.Keys == origin.Keys && orders.Keys == history.Keys
      && forall id :: id in orders ==> HistoryMatches(orders[id], origin[id], history[id])
    }

    constructor (initial: map<string, WorkOrder>)
      ensures Valid()
      ensures orders == initial
      ensures forall id :: id in initial ==> history[id] == [] && origin[id] == NotesText(initial[id].builderNotes)
    {
      orders := initial;
      origin := map id | id in initial :: NotesText(initial[id].builderNotes);
      history := map id | id in initial :: [];
    }

    /** The `UPDATE ... SET builder_notes = ?, ...` of a transition: the row becomes
        `updated`, whose notes are the old notes followed by the block `e`. */
    method Append(oid: string, e: Entry, updated: WorkOrder)
      requires Valid() && oid in orders
      requires NotesText(updated.builderNotes) == NotesText(orders[oid].builderNotes) + Serialize(e)
      modifies this
      ensures Valid()
      ensures orders == old(orders)[oid := updated]
      ensures history == old(history)[oid := old(history)[oid] + [e]]
      ensures origin == old(origin)
      ensures NotesOnlyGrow(old(orders), orders)
    {
      HistoryMatchesAppend(orders[oid], updated, origin[oid], history[oid], e);
      orders := orders[oid := updated];
      history := history[oid := history[oid] + [e]];
    }

    /** `_approve_work`: appends an APPROVED block and sets status `approved` whatever
        the prior status; an unknown id updates no row but still reports success. */
    method Approve(oid: string, comments: string, ts: string, userName: Option<string>, now: string, fault: Option<string>)
      returns (ok: bool, message: string)
      requires Valid()
      modifies this
      ensures Valid() && origin == old(origin)
      ensures NotesOnlyGrow(old(orders), orders)
      ensures ok <==> fault.None?
      ensures fault.Some? ==> message == "Approval failed: " + fault.value
      ensures fault.None? ==> message == "Work approved successfully!"
      ensures (fault.Some? || oid !in old(orders)) ==> orders == old(orders) && history == old(history)
      ensures fault.None? && oid in old(orders) ==>
        var e := ApprovalEntry(ts, ActorName(userName, "Developer"), Trim(comments));
        var o := old(orders)[oid];
        orders == old(orders)[oid := o.(status := Approved,
                                         builderNotes := Some(NotesText(o.builderNotes) + Serialize(e)),
                                         updatedAt := Some(now))]
        && history == old(history)[oid := old(history)[oid] + [e]]
    {
      if fault.Some? {
        return false, "Approval failed: " + fault.value;
      }
      var e := ApprovalEntry(ts, ActorName(userName, "Developer"), Trim(comments));
      if oid in orders {
        var o := orders[oid];
        Append(oid, e, o.(status := Approved, builderNotes := Some(NotesText(o.builderNotes) + Serialize(e)), updatedAt := Some(now)));
      }
      return true, "Work approved successfully!";
    }

    /** `_reject_work`: appends a REJECTED block with the trimmed reason and sends the
        order back to `in_progress`; the stored status is never `rejected`. */
    method Reject(oid: string, comments: string, ts: string, userName: Option<string>, now: string, fault: Option<string>)
      returns (ok: bool, message: string)
      requires Valid()
      modifies this
      ensures Valid() && origin == old(origin)
      ensures NotesOnlyGrow(old(orders), orders)
      ensures ok <==> fault.None?
      ensures fault.Some? ==> message == "Rejection failed: " + fault.value
      ensures fault.None? ==> message == "Work rejected and returned to builder for rework"
      ensures (fault.Some? || oid !in old(orders)) ==> orders == old(orders) && history == old(history)
      ensures fault.None? && oid in old(orders) ==>
        var e := RejectionEntry(ts, ActorName(userName, "Developer"), Trim(comments));
        var o := old(orders)[oid];
        orders == old(orders)[oid := o.(status := InProgress,
                                         builderNotes := Some(NotesText(o.builderNotes) + Serialize(e)),
                                         updatedAt := Some(now))]
        && history == old(history)[oid := old(history)[oid] + [e]]
    {
      if fault.Some? {
        return false, "Rejection failed: " + fault.value;
      }
      var e := RejectionEntry(ts, ActorName(userName, "Developer"), Trim(comments));
      if oid in orders {
        var o := orders[oid];
        Append(oid, e, o.(status := InProgress, builderNotes := Some(NotesText(o.builderNotes) + Serialize(e)), updatedAt := Some(now)));
      }
      return true, "Work rejected and returned to builder for rework";
    }

    /** The Reject & Return button: a blank comment is refused before any write. */
    method RejectPressed(oid: string, comments: string, ts: string, userName: Option<string>, now: string,
                         fault: Option<string>, open: Option<string>)
      returns (ok: bool, message: string, openAfter: Option<string>)
      requires Valid()
      modifies this
      ensures Valid() && origin == old(origin)
      ensures NotesOnlyGrow(old(orders), orders)
      ensures Trim(comments) == "" ==>
        !ok && message == "❌ Rejection reason required in comments field"
        && orders == old(orders) && history == old(history) && openAfter == open
      ensures Trim(comments) != "" ==> (ok <==> fault.None?) && openAfter == (if ok then None else open)
    {
      if Trim(comments) == "" {
        return false, "❌ Rejection reason required in comments field", open;
      }
      ok, message := Reject(oid, comments, ts, userName, now, fault);
      openAfter := if ok then None else open;
    }

    /** The Approve button: calls straight through and closes the form on success. */
    method ApprovePressed(oid: string, comments: string, ts: string, userName: Option<string>, now: string,
                          fault: Option<string>, open: Option<string>)
      returns (ok: bool, message: string, openAfter: Option<string>)
      requires Valid()
      modifies this
      ensures Valid() && origin == old(origin)
      ensures NotesOnlyGrow(old(orders), orders)
      ensures (ok <==> fault.None?) && openAfter == (if ok then None else open)
    {
      ok, message := Approve(oid, comments, ts, userName, now, fault);
      openAfter := if ok then None else open;
    }

    /** `_start_work`: no guard on the prior status (the button is offered only for
        pending rows); on success the builder lands on the Active tab with this
        order's form open. */
    method StartWork(oid: string, now: string, fault: Option<string>, tab: string, openForm: Option<string>)
      returns (ok: bool, tabAfter: string, openAfter: Option<string>)
      requires Valid()
      modifies this
      ensures Valid() && origin == old(origin) && history == old(history)
      ensures NotesOnlyGrow(old(orders), orders)
      ensures ok <==> fault.None?
      ensures ok ==> tabAfter == "in_progress" && openAfter == Some(oid)
      ensures !ok ==> tabAfter == tab && openAfter == openForm && orders == old(orders)
      ensures ok ==> orders == if oid in old(orders)
                               then old(orders)[oid := old(orders)[oid].(status := InProgress, startedDate := Some(now), updatedAt := Some(now))]
                               else old(orders)
    {
      if fault.Some? {
        return false, tab, openForm;
      }
      if oid in orders {
        var o := orders[oid].(status := InProgress, startedDate := Some(now), updatedAt := Some(now));
        orders := orders[oid := o];
      }
      return true, "in_progress", Some(oid);
    }

    /** `_save`: appends a progress block and records the planned date; status is
        left alone. `files` are the uploaded names, `fileFault` a failure while
        storing them. */
    method SaveProgress(oid: string, notes: string, files: seq<string>, fileFault: Option<string>,
                        plannedRaw: string, plannedShown: string,
                        ts: string, userName: Option<string>, now: string, fault: Option<string>)
      returns (ok: bool, message: string)
      requires Valid()
      modifies this
      ensures Valid() && origin == old(origin)
      ensures NotesOnlyGrow(old(orders), orders)
      ensures files != [] && fileFault.Some? ==>
        !ok && message == "File save failed: " + fileFault.value && orders == old(orders) && history == old(history)
      ensures !(files != [] && fileFault.Some?) && fault.Some? ==>
        !ok && message == "Save failed: " + fault.value && orders == old(orders) && history == old(history)
      ensures !(files != [] && fileFault.Some?) && fault.None? && oid !in old(orders) ==>
        !ok && message == "No changes made" && orders == old(orders) && history == old(history)
      ensures !(files != [] && fileFault.Some?) && fault.None? && oid in old(orders) ==>
        ok && message == "Progress saved successfully!" &&
        var e := ProgressEntry(ts, ActorName(userName, "Builder"), Trim(notes), files, plannedShown);
        var o := old(orders)[oid];
        orders == old(orders)[oid := o.(builderNotes := Some(NotesText(o.builderNotes) + Serialize(e)),
                                         plannedDate := Some(plannedRaw), updatedAt := Some(now))]
        && history == old(history)[oid := old(history)[oid] + [e]]
    {
      if files != [] && fileFault.Some? {
        return false, "File save failed: " + fileFault.value;
      }
      if fault.Some? {
        return false, "Save failed: " + fault.value;
      }
      if oid !in orders {
        return false, "No changes made";
      }
      var e := ProgressEntry(ts, ActorName(userName, "Builder"), Trim(notes), files, plannedShown);
      var o := orders[oid];
      Append(oid, e, o.(builderNotes := Some(NotesText(o.builderNotes) + Serialize(e)), plannedDate := Some(plannedRaw), updatedAt := Some(now)));
      return true, "Progress saved successfully!";
    }

    /** `_complete`: appends a COMPLETED block and submits the order for approval. */
    method Complete(oid: string, notes: string, files: seq<string>, fileFault: Option<string>,
                    plannedRaw: string, plannedShown: string,
                    ts: string, userName: Option<string>, now: string, fault: Option<string>)
      returns (ok: bool, message: string)
      requires Valid()
      modifies this
      ensures Valid() && origin == old(origin)
      ensures NotesOnlyGrow(old(orders), orders)
      ensures files != [] && fileFault.Some? ==>
        !ok && message == "File save failed: " + fileFault.value && orders == old(orders) && history == old(history)
      ensures !(files != [] && fileFault.Some?) && fault.Some? ==>
        !ok && message == "Complete failed: " + fault.value && orders == old(orders) && history == old(history)
      ensures !(files != [] && fileFault.Some?) && fault.None? && oid !in old(orders) ==>
        !ok && message == "No changes made" && orders == old(orders) && history == old(history)
      ensures !(files != [] && fileFault.Some?) && fault.None? && oid in old(orders) ==>
        ok && message == "Work completed and submitted for approval!" &&
        var e := CompletionEntry(ts, ActorName(userName, "Builder"), Trim(notes), files, plannedShown);
        var o := old(orders)[oid];
        orders == old(orders)[oid := o.(builderNotes := Some(NotesText(o.builderNotes) + Serialize(e)),
                                         plannedDate := Some(plannedRaw), status := WaitingApproval,
                                         completedDate := Some(now), updatedAt := Some(now))]
        && history == old(history)[oid := old(history)[oid] + [e]]
    {
      if files != [] && fileFault.Some? {
        return false, "File save failed: " + fileFault.value;
      }
      if fault.Some? {
        return false, "Complete failed: " + fault.value;
      }
      if oid !in orders {
        return false, "No changes made";
      }
      var e := CompletionEntry(ts, ActorName(userName, "Builder"), Trim(notes), files, plannedShown);
      var o := orders[oid];
      Append(oid, e, o.(builderNotes := Some(NotesText(o.builderNotes) + Serialize(e)), plannedDate := Some(plannedRaw),
                        status := WaitingApproval, completedDate := Some(now), updatedAt := Some(now)));
      return true, "Work completed and submitted for approval!";
    }

    /** The Complete & Submit (or Resubmit) button: blank notes are refused before
        any write; `rework` selects the rework form's wording. */
    method CompletePressed(oid: string, notes: string, files: seq<string>, fileFault: Option<string>,
                           plannedRaw: string, plannedShown: string, ts: string, userName: Option<string>,
                           now: string, fault: Option<string>, rework: bool, openForm: Option<string>)
      returns (ok: bool, message: string, openAfter: Option<string>)
      requires Valid()
      modifies this
      ensures Valid() && origin == old(origin)
      ensures NotesOnlyGrow(old(orders), orders)
      ensures Trim(notes) == "" ==>
        !ok && message == (if rework then "Please describe what you fixed" else "Notes required to complete")
        && orders == old(orders) && history == old(history) && openAfter == openForm
      ensures ok ==> openAfter == None
    {
      if Trim(notes) == "" {
        return false, (if rework then "Please describe what you fixed" else "Notes required to complete"), openForm;
      }
      ok, message := Complete(oid, notes, files, fileFault, plannedRaw, plannedShown, ts, userName, now, fault);
      openAfter := if ok then None else openForm;
    }
  }

  /** Appending never removes the marker: an order rejected once is rejected again
      whenever it is back in progress. */
  lemma RejectedMarkerSticky(before: map<string, WorkOrder>, after: map<string, WorkOrder>, id: string)
    requires NotesOnlyGrow(before, after) && id in before && MentionsRejected(before[id])
    ensures MentionsRejected(after[id])
    ensures after[id].status == InProgress ==> IsRejected(after[id])
  {
    var a, b := NotesText(before[id].builderNotes), NotesText(after[id].builderNotes);
    assert b == a + b[|a|..];
    ContainsAppend(a, b[|a|..], RejectedMarker);
  }

  /** After a successful rejection the order is on the Rejected tab. */
  lemma RejectionLandsOnRejectedTab(o: WorkOrder, ts: string, user: string, reason: string, now: string)
    ensures IsRejected(o.(status := InProgress, builderNotes := Some(NotesText(o.builderNotes) + Serialize(RejectionEntry(ts, user, reason))), updatedAt := Some(now)))
  {
    RejectionBodyMentionsMarker(ts, user, reason);
    ContainsPrepend(NotesText(o.builderNotes) + BlockSeparator, Body(RejectionEntry(ts, user, reason)), RejectedMarker);
    assert NotesText(o.builderNotes) + Serialize(RejectionEntry(ts, user, reason))
        == NotesText(o.builderNotes) + BlockSeparator + Body(RejectionEntry(ts, user, reason));
  }

  // ---------------------------------------------------------------------------
  // Reading a rejection back
  // ---------------------------------------------------------------------------

  /** Index of the first part that contains `w`. */
  function FirstMentioning(parts: seq<string>, w: string): (r: Option<nat>)
    ensures r.Some? ==> r.value < |parts| && Contains(parts[r.value], w)
                        && forall k :: 0 <= k < r.value ==> !Contains(parts[k], w)
    ensures r.None? ==> forall k :: 0 <= k < |parts| ==> !Contains(parts[k], w)
    decreases |parts|
  {
    if parts == [] then None
    else if Contains(parts[0], w) then Some(0)
    else
      var r := FirstMentioning(parts[1..], w);
      if r.Some? then Some(r.value + 1) else None
  }

  /** Index of the first line that starts with `p`. */
  function FirstStarting(lines: seq<string>, p: string): (r: Option<nat>)
    ensures r.Some? ==> r.value < |lines| && StartsWith(lines[r.value], p)
                        && forall k :: 0 <= k < r.value ==> !StartsWith(lines[k], p)
    ensures r.None? ==> forall k :: 0 <= k < |lines| ==> !StartsWith(lines[k], p)
    decreases |lines|
  {
    if lines == [] then None
    else if StartsWith(lines[0], p) then Some(0)
    else
      var r := FirstStarting(lines[1..], p);
      if r.Some? then Some(r.value + 1) else None
  }

  /** `line.replace('Reason:', '').strip()` */
  function ReasonText(line: string): string {
    Trim(ReplaceAll(line, "Reason:", ""))
  }

  /** What the developer's rejected list shows for one work order. */
  datatype DeveloperRejection = DeveloperRejection(reason: string, rejectedBy: string, date: Option<string>)

  const NoDeveloperRejection: DeveloperRejection := DeveloperRejection("No reason provided", "Developer", None)

  /** The header fields of a block: `(rejected_by, rejection_date)`. */
  function HeaderFields(firstLine: string): (string, Option<string>) {
    var first := Trim(ReplaceAll(firstLine, "---", ""));
    if Contains(first, " - ") then
      var parts := Split(first, " - ");
      if |parts| >= 2 then (Trim(ReplaceAll(parts[1], "(Developer)", "")), Some(Trim(parts[0])))
      else ("Developer", None)
    else ("Developer", None)
  }

  /** The developer reader on one block already known to contain the marker. */
  function DeveloperEntryInfo(entry: string): DeveloperRejection {
    var lines := Split(Trim(entry), "\n");
    var (byName, date) := HeaderFields(lines[0]);
    var k := FirstStarting(lines, "Reason:");
    DeveloperRejection(if k.Some? then ReasonText(lines[k.value]) else "No reason provided", byName, date)
  }

  /** The developer reader: the first block that mentions the marker decides. */
  function DeveloperRejectionInfo(notes: Option<string>): DeveloperRejection {
    if notes.None? then NoDeveloperRejection
    else
      var entries := Split(notes.value, BlockSeparator);
      var k := FirstMentioning(entries, RejectedMarker);
      if k.Some? then DeveloperEntryInfo(entries[k.value]) else NoDeveloperRejection
  }

  /** What the builder's rejected tab shows. */
  datatype BuilderRejection = BuilderRejection(reason: string, date: string)

  function BuilderEntryInfo(entry: string): BuilderRejection {
    var lines := Split(Trim(entry), "\n");
    var first := Trim(ReplaceAll(lines[0], "---", ""));
    var date := if Contains(first, " - ") then Trim(Split(first, " - ")[0]) else "Recently";
    var k := FirstStarting(lines, "Reason:");
    BuilderRejection(if k.Some? then ReasonText(lines[k.value]) else "No reason provided", date)
  }

  function BuilderRejectionInfo(notes: Option<string>): BuilderRejection {
    if notes.None? then BuilderRejection("No reason provided", "Recently")
    else
      var entries := Split(notes.value, BlockSeparator);
      var k := FirstMentioning(entries, RejectedMarker);
      if k.Some? then BuilderEntryInfo(entries[k.value]) else BuilderRejection("No reason provided", "Recently")
  }

  /** `extract_reason` over the blocks still to scan: unlike the tab reader it moves
      on when a marked block has no `Reason:` line. */
  function ReasonAcross(entries: seq<string>): string
    decreases |entries|
  {
    if entries == [] then "No reason"
    else if Contains(entries[0], RejectedMarker) && FirstStarting(Split(entries[0], "\n"), "Reason:").Some? then
      var lines := Split(entries[0], "\n");
      ReasonText(lines[FirstStarting(lines, "Reason:").value])
    else ReasonAcross(entries[1..])
  }

  function ExtractReason(notes: Option<string>): string {
    if notes.None? then "No reason" else ReasonAcross(Split(notes.value, BlockSeparator))
  }

  /** The inner `for line in lines` loop with its `break`. */
  method FindReasonLine(lines: seq<string>) returns (k: Option<nat>)
    ensures k == FirstStarting(lines, "Reason:")
  {
    var i := 0;
    while i < |lines|
      invariant 0 <= i <= |lines|
      invariant forall j :: 0 <= j < i ==> !StartsWith(lines[j], "Reason:")
    {
      if StartsWith(lines[i], "Reason:") {
        FirstStartingAt(lines, "Reason:", i);
        return Some(i);
      }
      i := i + 1;
    }
    return None;
  }

  lemma {:induction false} FirstStartingAt(lines: seq<string>, p: string, i: nat)
    requires i < |lines| && StartsWith(lines[i], p)
    requires forall j :: 0 <= j < i ==> !StartsWith(lines[j], p)
    ensures FirstStarting(lines, p) == Some(i)
    decreases i
  {
    if i > 0 {
      FirstStartingAt(lines[1..], p, i - 1);
    }
  }

  lemma {:induction false} FirstMentioningAt(parts: seq<string>, w: string, i: nat)
    requires i < |parts| && Contains(parts[i], w)
    requires forall j :: 0 <= j < i ==> !Contains(parts[j], w)
    ensures FirstMentioning(parts, w) == Some(i)
    decreases i
  {
    if i > 0 {
      FirstMentioningAt(parts[1..], w, i - 1);
    }
  }

  /** `_render_rejected_item` in the developer dashboard: the loop over blocks with
      its two `break`s. */
  method ReadDeveloperRejection(notes: Option<string>) returns (r: DeveloperRejection)
    ensures r == DeveloperRejectionInfo(notes)
  {
    r := NoDeveloperRejection;
    if notes.None? {
      return;
    }
    var entries := Split(notes.value, BlockSeparator);
    var i := 0;
    while i < |entries|
      invariant 0 <= i <= |entries|
      invariant forall j :: 0 <= j < i ==> !Contains(entries[j], RejectedMarker)
    {
      if Contains(entries[i], RejectedMarker) {
        FirstMentioningAt(entries, RejectedMarker, i);
        var lines := Split(Trim(entries[i]), "\n");
        var reason := "No reason provided";
        var rejectedBy := "Developer";
        var date: Option<string> := None;
        var first := Trim(ReplaceAll(lines[0], "---", ""));
        if Contains(first, " - ") {
          var parts := Split(first, " - ");
          if |parts| >= 2 {
            date := Some(Trim(parts[0]));
            rejectedBy := Trim(ReplaceAll(parts[1], "(Developer)", ""));
          }
        }
        var k := FindReasonLine(lines);
        if k.Some? {
          reason := ReasonText(lines[k.value]);
        }
        return DeveloperRejection(reason, rejectedBy, date);
      }
      i := i + 1;
    }
  }

  /** `_render_rejected_item` in the builder dashboard. */
  method ReadBuilderRejection(notes: Option<string>) returns (r: BuilderRejection)
    ensures r == BuilderRejectionInfo(notes)
  {
    r := BuilderRejection("No reason provided", "Recently");
    if notes.None? {
      return;
    }
    var entries := Split(notes.value, BlockSeparator);
    var i := 0;
    while i < |entries|
      invariant 0 <= i <= |entries|
      invariant forall j :: 0 <= j < i ==> !Contains(entries[j], RejectedMarker)
    {
      if Contains(entries[i], RejectedMarker) {
        FirstMentioningAt(entries, RejectedMarker, i);
        var lines := Split(Trim(entries[i]), "\n");
        var reason := "No reason provided";
        var date := "Recently";
        var first := Trim(ReplaceAll(lines[0], "---", ""));
        if Contains(first, " - ") {
          date := Trim(Split(first, " - ")[0]);
        }
        var k := FindReasonLine(lines);
        if k.Some? {
          reason := ReasonText(lines[k.value]);
        }
        return BuilderRejection(reason, date);
      }
      i := i + 1;
    }
  }

  /** `extract_reason`: nested loops with an early return. */
  method ReadExtractReason(notes: Option<string>) returns (reason: string)
    ensures reason == ExtractReason(notes)
  {
    if notes.None? {
      return "No reason";
    }
    var entries := Split(notes.value, BlockSeparator);
    var i := 0;
    while i < |entries|
      invariant 0 <= i <= |entries|
      invariant ReasonAcross(entries[i..]) == ReasonAcross(entries)
    {
      if Contains(entries[i], RejectedMarker) {
        var lines := Split(entries[i], "\n");
        var k := FindReasonLine(lines);
        if k.Some? {
          assert entries[i..][0] == entries[i];
          return ReasonText(lines[k.value]);
        }
      }
      assert entries[i..][1..] == entries[i + 1..];
      i := i + 1;
    }
    return "No reason";
  }

  // ---------------------------------------------------------------------------
  // Round trip: a rejection block reads back as its reason
  // ---------------------------------------------------------------------------

  /** What `strftime("%d/%m/%Y %H:%M")` produces: no dash, no newline, digits at
      both ends. */
  predicate StampShape(ts: string) {
    |ts| > 0 && IsDigit(ts[0]) && IsDigit(ts[|ts| - 1]) && '-' !in ts && '\n' !in ts
  }

  lemma StampTrimmed(ts: string)
    requires StampShape(ts)
    ensures Trim(ts) == ts
  {
    TrimSpaceAround(ts);
  }

  /** An actor name the header parser can recover. */
  predicate NameShape(user: string) {
    '\n' !in user && !Contains(user, "---") && !Contains(user, "(Developer)")
    && !Contains(user + " (Developer)", " - ")
  }

  lemma RejectedLineMentionsMarker()
    ensures Contains(RejectedLine, RejectedMarker)
  {
    var tail := RejectedMarker + " - REQUIRES REWORK";
    assert tail[..|RejectedMarker|] == RejectedMarker;
    ContainsPrepend("❌ ", tail, RejectedMarker);
    assert RejectedLine == "❌ " + tail;
  }

  lemma RejectionBodyMentionsMarker(ts: string, user: string, reason: string)
    ensures Contains(Body(RejectionEntry(ts, user, reason)), RejectedMarker)
  {
    var ls := EntryLines(RejectionEntry(ts, user, reason));
    RejectedLineMentionsMarker();
    ContainsPartOfJoin(ls, "\n", 1, RejectedMarker);
    ContainsPrepend(" ", Join(ls, "\n"), RejectedMarker);
  }

  lemma DeveloperHeaderShape(ts: string, user: string)
    requires StampShape(ts) && '\n' !in user
    ensures var h := DeveloperHeader(ts, user); h != [] && h[0] == ts[0] && '\n' !in h
  {
  }

  /** The lines of a rejection block are non-empty and newline-free, and their join
      starts with the stamp's first digit and ends in the last letter of the status
      line. */
  lemma RejectionLinesFacts(ts: string, user: string, reason: string)
    requires StampShape(ts) && '\n' !in user && '\n' !in reason
    ensures var ls := EntryLines(RejectionEntry(ts, user, reason));
            |ls| == 4 && (forall k :: 0 <= k < 4 ==> ls[k] != [] && '\n' !in ls[k])
            && var j := Join(ls, "\n"); j != [] && j[0] == ts[0] && j[|j| - 1] == 'r'
  {
    var ls := EntryLines(RejectionEntry(ts, user, reason));
    DeveloperHeaderShape(ts, user);
    JoinHead(ls, "\n");
    JoinLast(ls, "\n");
    assert ReturnedLine[|ReturnedLine| - 1] == 'r';
  }

  /** A rejection block holds no block separator of its own, and its lines split
      back apart, with or without the `strip()`. */
  lemma RejectionBodyShape(ts: string, user: string, reason: string)
    requires StampShape(ts) && '\n' !in user && '\n' !in reason
    ensures var e := RejectionEntry(ts, user, reason); var ls := EntryLines(e);
            !Contains(Body(e), BlockSeparator)
            && Trim(Body(e)) == Join(ls, "\n")
            && Split(Trim(Body(e)), "\n") == ls
            && Split(Body(e), "\n") == [" " + ls[0]] + ls[1..]
  {
    var e := RejectionEntry(ts, user, reason);
    var ls := EntryLines(e);
    RejectionLinesFacts(ts, user, reason);
    var ms := [" " + ls[0]] + ls[1..];
    JoinPrefixFirst(" ", ls, "\n");
    JoinLinesNoBlank(ms);
    ContainsPrefixOfWord(Body(e), BlockSeparator, "\n\n");
    TrimSpaceAround(Join(ls, "\n"));
    SplitJoinSingle(ls, '\n');
    SplitJoinSingle(ms, '\n');
  }

  lemma HeaderNoDashes(ts: string, user: string)
    requires StampShape(ts) && NameShape(user)
    ensures !Contains(ts + " - " + user + " (Developer) ", "---")
  {
    var w := "---";
    NoCharNoContains(ts, w, '-');
    SameLengthNoContains(" - ", w);
    NoStraddleLast(ts, " - ", w);
    ContainsConcat(ts, " - ", w);
    var a1 := ts + " - ";
    assert a1[|a1| - 1] == ' ';
    NoStraddleLast(a1, user, w);
    ContainsConcat(a1, user, w);
    var a2 := a1 + user;
    NoCharNoContains(" (Developer) ", w, '-');
    NoStraddleFirst(a2, " (Developer) ", w);
    ContainsConcat(a2, " (Developer) ", w);
  }

  lemma DropTrailingDashes(a: string)
    requires !Contains(a, "---") && a != [] && a[|a| - 1] == ' '
    ensures ReplaceAll(a + "---", "---", "") == a
  {
    NoStraddleLast(a, "---", "---");
    ReplaceAllConcat(a, "---", "---", "");
    ReplaceAllAbsent(a, "---", "");
    ReplaceAllLeading("---", "", "");
    assert "---" + "" == "---";
  }

  lemma HeaderPieces(ts: string, user: string)
    ensures DeveloperHeader(ts, user) == ts + " - " + user + " (Developer) " + "---"
    ensures ts + " - " + user + " (Developer) " == ts + " - " + user + " (Developer)" + " "
  {
    assert " (Developer) ---" == " (Developer) " + "---";
    assert " (Developer) " == " (Developer)" + " ";
  }

  lemma TrimClosingParen(y: string)
    requires y != [] && !IsWhitespace(y[0]) && y[|y| - 1] == ')'
    ensures Trim(y + " ") == y
  {
    TrimSpaceAround(y);
  }

  /** `first_line.replace('---', '').strip()` on a developer header. */
  lemma HeaderWithoutDashes(ts: string, user: string)
    requires StampShape(ts) && NameShape(user)
    ensures Trim(ReplaceAll(DeveloperHeader(ts, user), "---", "")) == ts + " - " + user + " (Developer)"
  {
    var y := ts + " - " + user + " (Developer)";
    HeaderPieces(ts, user);
    HeaderNoDashes(ts, user);
    DropTrailingDashes(ts + " - " + user + " (Developer) ");
    TrimClosingParen(y);
  }

  /** `first_line.split(' - ')` on the cleaned header. */
  lemma HeaderSplit(ts: string, user: string)
    requires StampShape(ts) && NameShape(user)
    ensures var y := ts + " - " + user + " (Developer)";
            Contains(y, " - ") && Split(y, " - ") == [ts, user + " (Developer)"]
  {
    var u := user + " (Developer)";
    assert ts + " - " + user + " (Developer)" == ts + " - " + u;
    NoCharNoContains(ts, " - ", '-');
    SplitPair(ts, u, " - ");
  }

  /** `parts[1].replace('(Developer)', '').strip()` */
  lemma DropDeveloperTag(user: string)
    requires !Contains(user, "(Developer)")
    ensures Trim(ReplaceAll(user + " (Developer)", "(Developer)", "")) == Trim(user)
  {
    var t := "(Developer)";
    var d := " (Developer)";
    NoStraddleFirst(user, d, t);
    ReplaceAllConcat(user, d, t, "");
    ReplaceAllAbsent(user, t, "");
    assert d[..|t|] != t by { assert d[..|t|][0] == ' '; }
    ReplaceAllSkip(d, t, "");
    assert d[1..] == t + "";
    ReplaceAllLeading(t, "", "");
    assert ReplaceAll(d, t, "") == " ";
    TrimAppendSpace(user);
  }

  /** `HeaderFields` in terms of the cleaned line's two fields. */
  lemma HeaderFieldsOf(firstLine: string, d: string, u: string)
    requires Contains(Trim(ReplaceAll(firstLine, "---", "")), " - ")
    requires Split(Trim(ReplaceAll(firstLine, "---", "")), " - ") == [d, u]
    ensures HeaderFields(firstLine) == (Trim(ReplaceAll(u, "(Developer)", "")), Some(Trim(d)))
  {
  }

  /** The developer header reads back as `(user, ts)`, with the name trimmed, and the
      builder tab reads its date as `ts`. */
  lemma DeveloperHeaderReadBack(ts: string, user: string)
    requires StampShape(ts) && NameShape(user)
    ensures HeaderFields(DeveloperHeader(ts, user)) == (Trim(user), Some(ts))
    ensures var first := Trim(ReplaceAll(DeveloperHeader(ts, user), "---", ""));
            Contains(first, " - ") && Trim(Split(first, " - ")[0]) == ts
  {
    HeaderWithoutDashes(ts, user);
    HeaderSplit(ts, user);
    DropDeveloperTag(user);
    StampTrimmed(ts);
    HeaderReadBackParts(DeveloperHeader(ts, user), ts + " - " + user + " (Developer)", ts, user + " (Developer)", Trim(user));
  }

  lemma HeaderReadBackParts(line: string, y: string, d: string, u: string, name: string)
    requires Trim(ReplaceAll(line, "---", "")) == y
    requires Contains(y, " - ") && Split(y, " - ") == [d, u]
    requires Trim(ReplaceAll(u, "(Developer)", "")) == name && Trim(d) == d
    ensures HeaderFields(line) == (name, Some(d))
    ensures Contains(Trim(ReplaceAll(line, "---", "")), " - ")
            && Trim(Split(Trim(ReplaceAll(line, "---", "")), " - ")[0]) == d
  {
    HeaderFieldsOf(line, d, u);
  }

  lemma DropReasonLabel(x: string)
    ensures ReplaceAll("Reason: " + x, "Reason:", "") == ReplaceAll(" " + x, "Reason:", "")
  {
    assert "Reason: " + x == "Reason:" + (" " + x);
    ReplaceAllLeading("Reason:", " " + x, "");
  }

  lemma KeepLeadingSpace(x: string)
    ensures ReplaceAll(" " + x, "Reason:", "") == " " + ReplaceAll(x, "Reason:", "")
  {
    var sx := " " + x;
    assert |sx| < 7 || sx[..7] != "Reason:" by {
      if |sx| >= 7 { assert sx[..7][0] == ' '; }
    }
    ReplaceAllSkip(sx, "Reason:", "");
    assert sx[1..] == x;
  }

  /** `Reason: x` reads back as `x` with every `Reason:` inside it removed. */
  lemma ReasonTextOfLine(x: string)
    ensures ReasonText("Reason: " + x) == Trim(" " + ReplaceAll(x, "Reason:", ""))
  {
    DropReasonLabel(x);
    KeepLeadingSpace(x);
  }

  /** A trimmed comment without the word `Reason:` survives the reason line. */
  lemma ReasonReadBack(c: string)
    requires !Contains(Trim(c), "Reason:")
    ensures ReasonText("Reason: " + Trim(c)) == Trim(c)
  {
    ReasonTextOfLine(Trim(c));
    ReplaceAllAbsent(Trim(c), "Reason:", "");
    TrimEnds(c);
    TrimSpaceAround(Trim(c));
  }

  /** The reason line is the third line of the block, stripped or not. */
  lemma RejectionReasonIndex(ts: string, user: string, reason: string)
    requires StampShape(ts)
    ensures var ls := EntryLines(RejectionEntry(ts, user, reason));
            FirstStarting(ls, "Reason:") == Some(2)
            && FirstStarting([" " + ls[0]] + ls[1..], "Reason:") == Some(2)
  {
    var ls := EntryLines(RejectionEntry(ts, user, reason));
    var ms := [" " + ls[0]] + ls[1..];
    assert ls[0][0] == ts[0];
    assert !StartsWith(ls[0], "Reason:") by {
      if |ls[0]| >= 7 { assert ls[0][..7][0] == ts[0]; }
    }
    assert !StartsWith(ls[1], "Reason:") by {
      assert RejectedLine[0] == '❌';
      assert ls[1][..7][0] == '❌';
    }
    assert StartsWith(ls[2], "Reason:") by {
      assert ls[2][..7] == "Reason:";
    }
    FirstStartingAt(ls, "Reason:", 2);
    assert !StartsWith(ms[0], "Reason:") by {
      if |ms[0]| >= 7 { assert ms[0][..7][0] == ' '; }
    }
    FirstStartingAt(ms, "Reason:", 2);
  }

  /** What each reader makes of one rejection block. */
  lemma RejectionEntryReadBack(ts: string, user: string, x: string)
    requires StampShape(ts) && NameShape(user) && '\n' !in x
    ensures var b := Body(RejectionEntry(ts, user, x));
            DeveloperEntryInfo(b) == DeveloperRejection(ReasonText("Reason: " + x), Trim(user), Some(ts))
            && BuilderEntryInfo(b) == BuilderRejection(ReasonText("Reason: " + x), ts)
            && Contains(b, RejectedMarker)
            && FirstStarting(Split(b, "\n"), "Reason:") == Some(2)
            && Split(b, "\n")[2] == "Reason: " + x
  {
    RejectionBodyShape(ts, user, x);
    RejectionReasonIndex(ts, user, x);
    DeveloperHeaderReadBack(ts, user);
    RejectionBodyMentionsMarker(ts, user, x);
  }

  lemma SerializedShape(p: string, e: Entry, later: seq<Entry>)
    ensures p + Serialize(e) + SerializeAll(later) == p + BlockSeparator + (Body(e) + SerializeAll(later))
  {
    ConcatAssoc(p, BlockSeparator, Body(e));
    ConcatAssoc(p + BlockSeparator, Body(e), SerializeAll(later));
  }

  /** Notes that end in a block without a separator of its own, followed by text
      that is empty or starts with a separator, split into the old parts, the
      block, and the parts after it. */
  lemma BlockThenBlocks(p: string, b: string, s: string)
    requires !Contains(b, BlockSeparator)
    requires s == [] || StartsWith(s, BlockSeparator)
    ensures Split(p + BlockSeparator + (b + s), BlockSeparator) == Split(p, BlockSeparator) + Split(b + s, BlockSeparator)
    ensures s == [] ==> Split(b + s, BlockSeparator) == [b]
    ensures s != [] ==> Split(b + s, BlockSeparator) == [b] + Split(s[|BlockSeparator|..], BlockSeparator)
  {
    SplitAfterSeparator(p, b + s);
    if s != [] {
      BlockBeforeSeparator(b, s[|BlockSeparator|..]);
      assert s == BlockSeparator + s[|BlockSeparator|..];
    } else {
      assert b + s == b;
      SplitWithoutSeparator(b, BlockSeparator);
    }
  }

  /** Text after a block separator splits on its own. */
  lemma SplitAfterSeparator(p: string, x: string)
    ensures Split(p + BlockSeparator + x, BlockSeparator) == Split(p, BlockSeparator) + Split(x, BlockSeparator)
  {
    BlockSeparatorNoStraddle(p, x);
    SplitAppend(p, x, BlockSeparator);
  }

  /** A separator-free block followed by a separator is the first part. */
  lemma BlockBeforeSeparator(b: string, t: string)
    requires !Contains(b, BlockSeparator)
    ensures Split(b + (BlockSeparator + t), BlockSeparator) == [b] + Split(t, BlockSeparator)
  {
    SplitAfterSeparator(b, t);
    SplitWithoutSeparator(b, BlockSeparator);
    ConcatAssoc(b, BlockSeparator, t);
  }

  lemma FirstMentioningSkip(pre: seq<string>, rest: seq<string>, w: string)
    requires forall k :: 0 <= k < |pre| ==> !Contains(pre[k], w)
    requires rest != [] && Contains(rest[0], w)
    ensures FirstMentioning(pre + rest, w) == Some(|pre|)
  {
    FirstMentioningAt(pre + rest, w, |pre|);
  }

  lemma {:induction false} ExtractReasonSkips(pre: seq<string>, rest: seq<string>)
    requires forall k :: 0 <= k < |pre| ==> !Contains(pre[k], RejectedMarker)
    ensures ReasonAcross(pre + rest) == ReasonAcross(rest)
    decreases |pre|
  {
    if pre != [] {
      assert (pre + rest)[1..] == pre[1..] + rest;
      ExtractReasonSkips(pre[1..], rest);
    } else {
      assert pre + rest == rest;
    }
  }

  /** The split notes: the old parts, then the rejection block first among the rest. */
  lemma RejectionBlockParts(p: string, ts: string, user: string, x: string, later: seq<Entry>)
    requires StampShape(ts) && '\n' !in user && '\n' !in x
    ensures var e := RejectionEntry(ts, user, x);
            var rest := Split(Body(e) + SerializeAll(later), BlockSeparator);
            Split(p + Serialize(e) + SerializeAll(later), BlockSeparator) == Split(p, BlockSeparator) + rest
            && rest[0] == Body(e)
  {
    var e := RejectionEntry(ts, user, x);
    RejectionBodyShape(ts, user, x);
    SerializedShape(p, e, later);
    SerializeAllStartsWithSeparator(later);
    BlockThenBlocks(p, Body(e), SerializeAll(later));
  }

  /** The three readers on notes whose first marked part is `rest[0]`. */
  lemma ReadersOnParts(text: string, pre: seq<string>, rest: seq<string>)
    requires Split(text, BlockSeparator) == pre + rest
    requires forall k :: 0 <= k < |pre| ==> !Contains(pre[k], RejectedMarker)
    requires rest != [] && Contains(rest[0], RejectedMarker)
    ensures DeveloperRejectionInfo(Some(text)) == DeveloperEntryInfo(rest[0])
    ensures BuilderRejectionInfo(Some(text)) == BuilderEntryInfo(rest[0])
    ensures ExtractReason(Some(text)) == ReasonAcross(rest)
  {
    FirstMentioningSkip(pre, rest, RejectedMarker);
    ExtractReasonSkips(pre, rest);
    assert (pre + rest)[|pre|] == rest[0];
  }

  lemma ReasonAcrossHead(rest: seq<string>, line: string)
    requires rest != [] && Contains(rest[0], RejectedMarker)
    requires FirstStarting(Split(rest[0], "\n"), "Reason:") == Some(2) && Split(rest[0], "\n")[2] == line
    ensures ReasonAcross(rest) == ReasonText(line)
  {
  }

  /** Reading back a rejection: the developer list, the builder tab and the report's
      `extract_reason` all find the block just written, so long as the old notes
      never mentioned the marker, whatever is appended later; the reason they show
      is the comment run through `replace('Reason:', '')`. */
  lemma RejectReadBackRaw(p: string, ts: string, user: string, x: string, later: seq<Entry>)
    requires !Contains(p, RejectedMarker)
    requires StampShape(ts) && NameShape(user) && '\n' !in x
    ensures var notes := Some(p + Serialize(RejectionEntry(ts, user, x)) + SerializeAll(later));
            DeveloperRejectionInfo(notes) == DeveloperRejection(ReasonText("Reason: " + x), Trim(user), Some(ts))
            && BuilderRejectionInfo(notes) == BuilderRejection(ReasonText("Reason: " + x), ts)
            && ExtractReason(notes) == ReasonText("Reason: " + x)
  {
    var e := RejectionEntry(ts, user, x);
    var pre := Split(p, BlockSeparator);
    var rest := Split(Body(e) + SerializeAll(later), BlockSeparator);
    RejectionBlockParts(p, ts, user, x, later);
    RejectionEntryReadBack(ts, user, x);
    SplitPartsAvoid(p, BlockSeparator, RejectedMarker);
    ReadersOnParts(p + Serialize(e) + SerializeAll(later), pre, rest);
    ReasonAcrossHead(rest, "Reason: " + x);
  }

  /** The round trip of `_reject_work` through the readers for a single-line comment
      that does not itself contain `Reason:`. */
  lemma RejectReadBack(p: string, ts: string, user: string, comments: string, later: seq<Entry>)
    requires !Contains(p, RejectedMarker)
    requires StampShape(ts) && NameShape(user)
    requires '\n' !in Trim(comments) && !Contains(Trim(comments), "Reason:")
    ensures var notes := Some(p + Serialize(RejectionEntry(ts, user, Trim(comments))) + SerializeAll(later));
            DeveloperRejectionInfo(notes) == DeveloperRejection(Trim(comments), Trim(user), Some(ts))
            && BuilderRejectionInfo(notes) == BuilderRejection(Trim(comments), ts)
            && ExtractReason(notes) == Trim(comments)
  {
    RejectReadBackRaw(p, ts, user, Trim(comments), later);
    ReasonReadBack(comments);
  }

  // ---------------------------------------------------------------------------
  // Findings: the readers take the first rejection and strip every `Reason:`
  // ---------------------------------------------------------------------------

  /** Index of the last part that contains `w`. */
  function LastMentioning(parts: seq<string>, w: string): (r: Option<nat>)
    ensures r.Some? ==> r.value < |parts| && Contains(parts[r.value], w)
                        && forall k :: r.value < k < |parts| ==> !Contains(parts[k], w)
    ensures r.None? ==> forall k :: 0 <= k < |parts| ==> !Contains(parts[k], w)
    decreases |parts|
  {
    if parts == [] then None
    else if Contains(parts[|parts| - 1], w) then Some(|parts| - 1)
    else LastMentioning(parts[..|parts| - 1], w)
  }

  lemma {:induction false} LastMentioningAt(parts: seq<string>, w: string, i: nat)
    requires i < |parts| && Contains(parts[i], w)
    requires forall j :: i < j < |parts| ==> !Contains(parts[j], w)
    ensures LastMentioning(parts, w) == Some(i)
    decreases |parts|
  {
    if i < |parts| - 1 {
      LastMentioningAt(parts[..|parts| - 1], w, i);
    }
  }

  /** The reason line with only its leading label removed. */
  function ReasonLabelStripped(line: string): string
    requires StartsWith(line, "Reason:")
  {
    Trim(line[7..])
  }

  function CurrentEntryInfo(entry: string): DeveloperRejection {
    var lines := Split(Trim(entry), "\n");
    var (byName, date) := HeaderFields(lines[0]);
    var k := FirstStarting(lines, "Reason:");
    DeveloperRejection(if k.Some? then ReasonLabelStripped(lines[k.value]) else "No reason provided", byName, date)
  }

  /** The corrected reader: the most recent block that mentions the marker decides,
      and only the label is removed from its reason line. */
  function CurrentRejection(notes: Option<string>): DeveloperRejection {
    if notes.None? then NoDeveloperRejection
    else
      var entries := Split(notes.value, BlockSeparator);
      var k := LastMentioning(entries, RejectedMarker);
      if k.Some? then CurrentEntryInfo(entries[k.value]) else NoDeveloperRejection
  }

  lemma LabelStrippedReadBack(c: string)
    ensures StartsWith("Reason: " + Trim(c), "Reason:")
    ensures ReasonLabelStripped("Reason: " + Trim(c)) == Trim(c)
  {
    var line := "Reason: " + Trim(c);
    assert line[..7] == "Reason:";
    assert line[7..] == " " + Trim(c);
    TrimEnds(c);
    TrimSpaceAround(Trim(c));
  }

  /** The parts after the new block avoid the marker when the later blocks do. */
  lemma LaterPartsAvoid(b: string, s: string)
    requires !Contains(b, BlockSeparator) && !Contains(s, RejectedMarker)
    requires s == [] || StartsWith(s, BlockSeparator)
    ensures var rest := Split(b + s, BlockSeparator);
            forall k :: 1 <= k < |rest| ==> !Contains(rest[k], RejectedMarker)
  {
    BlockThenBlocks("", b, s);
    if s != [] {
      var t := s[|BlockSeparator|..];
      assert s == BlockSeparator + t;
      ContainsPrepend(BlockSeparator, t, RejectedMarker);
      SplitPartsAvoid(t, BlockSeparator, RejectedMarker);
    }
  }

  lemma CurrentOnParts(text: string, pre: seq<string>, rest: seq<string>)
    requires Split(text, BlockSeparator) == pre + rest
    requires rest != [] && Contains(rest[0], RejectedMarker)
    requires forall k :: 1 <= k < |rest| ==> !Contains(rest[k], RejectedMarker)
    ensures CurrentRejection(Some(text)) == CurrentEntryInfo(rest[0])
  {
    LastMentioningAt(pre + rest, RejectedMarker, |pre|);
    assert (pre + rest)[|pre|] == rest[0];
  }

  lemma CurrentEntryReadBack(ts: string, user: string, comments: string)
    requires StampShape(ts) && NameShape(user) && '\n' !in Trim(comments)
    ensures CurrentEntryInfo(Body(RejectionEntry(ts, user, Trim(comments))))
         == DeveloperRejection(Trim(comments), Trim(user), Some(ts))
  {
    RejectionBodyShape(ts, user, Trim(comments));
    RejectionReasonIndex(ts, user, Trim(comments));
    DeveloperHeaderReadBack(ts, user);
    LabelStrippedReadBack(comments);
  }

  /** The corrected reader shows the latest rejection whatever came before it, and
      keeps `Reason:` inside the comment. */
  lemma CurrentRejectionReadBack(p: string, ts: string, user: string, comments: string, later: seq<Entry>)
    requires StampShape(ts) && NameShape(user) && '\n' !in Trim(comments)
    requires !Contains(SerializeAll(later), RejectedMarker)
    ensures CurrentRejection(Some(p + Serialize(RejectionEntry(ts, user, Trim(comments))) + SerializeAll(later)))
         == DeveloperRejection(Trim(comments), Trim(user), Some(ts))
  {
    var x := Trim(comments);
    var e := RejectionEntry(ts, user, x);
    var pre := Split(p, BlockSeparator);
    var rest := Split(Body(e) + SerializeAll(later), BlockSeparator);
    RejectionBlockParts(p, ts, user, x, later);
    RejectionBodyShape(ts, user, x);
    RejectionBodyMentionsMarker(ts, user, x);
    SerializeAllStartsWithSeparator(later);
    LaterPartsAvoid(Body(e), SerializeAll(later));
    CurrentOnParts(p + Serialize(e) + SerializeAll(later), pre, rest);
    CurrentEntryReadBack(ts, user, comments);
  }

  /** As written, after a second rejection both tabs still show the first reason,
      while the corrected reader shows the second. */
  lemma StaleRejectionShown(ts: string, user: string, first: string, second: string)
    requires StampShape(ts) && NameShape(user)
    requires '\n' !in Trim(first) && !Contains(Trim(first), "Reason:")
    requires '\n' !in Trim(second) && Trim(first) != Trim(second)
    ensures var notes := Some(Serialize(RejectionEntry(ts, user, Trim(first)))
                              + Serialize(RejectionEntry(ts, user, Trim(second))));
            DeveloperRejectionInfo(notes).reason == Trim(first)
            && BuilderRejectionInfo(notes).reason == Trim(first)
            && CurrentRejection(notes).reason == Trim(second)
            && DeveloperRejectionInfo(notes).reason != CurrentRejection(notes).reason
  {
    var e2 := RejectionEntry(ts, user, Trim(second));
    var a := Serialize(RejectionEntry(ts, user, Trim(first)));
    NoCharNoContains("", RejectedMarker, 'R');
    SingleHistory(e2);
    RejectReadBack("", ts, user, first, [e2]);
    CurrentRejectionReadBack(a, ts, user, second, []);
    TwoEntryNotes(RejectionEntry(ts, user, Trim(first)), e2);
  }

  /** The notes of two entries: the first entry followed by the history of the
      second, or both entries followed by the empty history. A proof helper: stating
      these on whole entries keeps the rejection read-back lemmas from unfolding the
      entries' text, which keeps them within the resource limit. */
  lemma TwoEntryNotes(e1: Entry, e2: Entry)
    ensures [] + Serialize(e1) + SerializeAll([e2]) == Serialize(e1) + Serialize(e2)
    ensures Serialize(e1) + Serialize(e2) + SerializeAll([]) == Serialize(e1) + Serialize(e2)
  {
    var a, b := Serialize(e1), Serialize(e2);
    SingleHistory(e2);
    EmptyIsUnit(a, b);
  }

  /** The history text of a single entry, which holds no marker beyond its own; a
      proof helper, for the same reason as `TwoEntryNotes`. */
  lemma SingleHistory(e: Entry)
    ensures SerializeAll([e]) == Serialize(e)
    ensures SerializeAll([]) == [] && !Contains(SerializeAll([]), RejectedMarker)
    ensures [] + Serialize(e) + SerializeAll([]) == Serialize(e)
  {
    SerializeAllSnoc([], e);
    assert SerializeAll([]) == [];
    assert [] + Serialize(e) == Serialize(e);
    assert Serialize(e) + [] == Serialize(e);
    NoCharNoContains([], RejectedMarker, 'R');
  }

  /** The comment `Reason:` on its own line goes through `replace` to nothing. */
  lemma ReasonWordOnLine(x: string)
    requires x == "Reason:"
    ensures ReasonText("Reason: " + x) == "" && Trim(x) == x
  {
    ReasonLineOfWord(x);
    assert Trim(" ") == "";
    TrimSpaceAround(x);
  }

  lemma ReasonLineOfWord(x: string)
    requires x == "Reason:"
    ensures ReasonText("Reason: " + x) == Trim(" ")
  {
    ReasonTextOfLine(x);
    ReplaceAllWhole(x);
    assert " " + [] == " ";
  }

  /** As written, a comment that is just the word `Reason:` reads back empty,
      while the corrected reader keeps it. */
  lemma ReasonWordDropped(ts: string, user: string, comments: string)
    requires StampShape(ts) && NameShape(user) && Trim(comments) == "Reason:"
    ensures var notes := Some(Serialize(RejectionEntry(ts, user, Trim(comments))));
            DeveloperRejectionInfo(notes).reason == ""
            && CurrentRejection(notes).reason == "Reason:"
  {
    var x := Trim(comments);
    var e := RejectionEntry(ts, user, x);
    NoCharNoContains("", RejectedMarker, 'R');
    assert '\n' !in x;
    RejectReadBackRaw("", ts, user, x, []);
    ReasonWordOnLine(x);
    SingleHistory(e);
    CurrentRejectionReadBack("", ts, user, comments, []);
  }
}
