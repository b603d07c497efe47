/** The builder's Excel report: the last-activity column, the status order of the
    work-order query, the work-order title, the summary counts, the status filter
    options and the removal of the temporary photo files. */
module BuilderReport {
  import opened Wrappers
  import opened Strings
  import opened Seqs
  import ReportUtils

  // ---------------------------------------------------------------------------
  // Last activity
  // ---------------------------------------------------------------------------

  /** A cell of a date column: already a timestamp, or text still to be parsed. */
  datatype Cell<T> = Stamp(t: T) | Text(s: string)

  /** The date fields looked at, most telling first, for a status. */
  function ActivityFields(status: string): (r: seq<string>)
    ensures status == "waiting_approval" || status == "approved" ==> r == ["completed_at", "updated_at", "started_date", "created_at"]
    ensures status == "in_progress" ==> r == ["started_date", "updated_at", "created_at"]
    ensures status != "waiting_approval" && status != "approved" && status != "in_progress" ==> r == ["updated_at", "created_at"]
  {
    if status == "waiting_approval" || status == "approved" then ["completed_at", "updated_at", "started_date", "created_at"]
    else if status == "in_progress" then ["started_date", "updated_at", "created_at"]
    else ["updated_at", "created_at"]
  }

  /** The timestamp a cell yields: a timestamp as it is, text other than "", "None"
      and "NaT" when it parses, nothing otherwise. A missing or null cell is `None`. */
  function Activity<T>(cell: Option<Cell<T>>, parse: string -> Option<T>): Option<T> {
    match cell
    case None => None
    case Some(Stamp(t)) => Some(t)
    case Some(Text(s)) => if s == "" || s == "None" || s == "NaT" then None else parse(s)
  }

  /** The first field, in order, whose cell yields a timestamp. */
  function FirstActivity<T>(fields: seq<string>, row: string -> Option<Cell<T>>, parse: string -> Option<T>): Option<T>
    decreases |fields|
  {
    if fields == [] then None
    else if Activity(row(fields[0]), parse).Some? then Activity(row(fields[0]), parse)
    else FirstActivity(fields[1..], row, parse)
  }

  /** `get_last_activity`: the fields for the row's status, scanned in order until one
      yields a timestamp. */
  method LastActivity<T>(status: string, row: string -> Option<Cell<T>>, parse: string -> Option<T>)
    returns (r: Option<T>)
    ensures r == FirstActivity(ActivityFields(status), row, parse)
  {
    var fields := ActivityFields(status);
    var i := 0;
    while i < |fields|
      invariant 0 <= i <= |fields|
      invariant FirstActivity(fields, row, parse) == FirstActivity(fields[i..], row, parse)
    {
      var value := Activity(row(fields[i]), parse);
      if value.Some? {
        return value;
      }
      assert fields[i..][1..] == fields[i + 1..];
      i := i + 1;
    }
    return None;
  }

  /** The scan returns the value of the first yielding field, and nothing only when no
      field yields one. */
  lemma {:induction false} FirstActivityIsFirst<T>(fields: seq<string>, row: string -> Option<Cell<T>>, parse: string -> Option<T>)
    ensures FirstActivity(fields, row, parse).None? <==> forall k :: 0 <= k < |fields| ==> Activity(row(fields[k]), parse).None?
    ensures FirstActivity(fields, row, parse).Some? ==>
              exists k :: 0 <= k < |fields| && FirstActivity(fields, row, parse) == Activity(row(fields[k]), parse)
                          && forall j :: 0 <= j < k ==> Activity(row(fields[j]), parse).None?
    decreases |fields|
  {
    if fields != [] && Activity(row(fields[0]), parse).None? {
      var tail := fields[1..];
      FirstActivityIsFirst(tail, row, parse);
      assert forall k :: 1 <= k < |fields| ==> fields[k] == tail[k - 1];
      if FirstActivity(tail, row, parse).Some? {
        var k :| 0 <= k < |tail| && FirstActivity(tail, row, parse) == Activity(row(tail[k]), parse)
                 && forall j :: 0 <= j < k ==> Activity(row(tail[j]), parse).None?;
        assert FirstActivity(fields, row, parse) == Activity(row(fields[k + 1]), parse);
      }
    }
  }

  /** An approved order with a completion time reports it, whatever its other dates. */
  lemma CompletedAtWins<T>(row: string -> Option<Cell<T>>, parse: string -> Option<T>, t: T)
    requires row("completed_at") == Some(Stamp(t))
    ensures FirstActivity(ActivityFields("approved"), row, parse) == Some(t)
  {
  }

  // ---------------------------------------------------------------------------
  // Query order and title
  // ---------------------------------------------------------------------------

  /** The rank of a status in the query's `ORDER BY`. */
  function StatusRank(status: string): (r: nat)
    ensures 1 <= r <= 5
    ensures r == 1 <==> status == "pending"
    ensures r == 2 <==> status == "in_progress"
    ensures r == 3 <==> status == "waiting_approval"
    ensures r == 4 <==> status == "approved"
  {
    if status == "pending" then 1
    else if status == "in_progress" then 2
    else if status == "waiting_approval" then 3
    else if status == "approved" then 4
    else 5
  }

  datatype OrderKey = OrderKey(status: string, updatedAt: int)

  /** `a` may come before `b`: a lower status rank, or the same rank and a later update. */
  predicate OrderedBefore(a: OrderKey, b: OrderKey) {
    StatusRank(a.status) < StatusRank(b.status)
    || (StatusRank(a.status) == StatusRank(b.status) && a.updatedAt >= b.updatedAt)
  }

  /** The order is a total preorder, and every pending order comes before every order
      with any other status. */
  lemma OrderedBeforePreorder(a: OrderKey, b: OrderKey, c: OrderKey)
    ensures OrderedBefore(a, b) || OrderedBefore(b, a)
    ensures OrderedBefore(a, b) && OrderedBefore(b, c) ==> OrderedBefore(a, c)
    ensures a.status == "pending" && b.status != "pending" ==> OrderedBefore(a, b) && !OrderedBefore(b, a)
  {
  }

  /** The work-order title, present when the unit, room and component columns all are. */
  function WorkOrderTitle(unit: Option<string>, room: Option<string>, component: Option<string>): (r: Option<string>)
    ensures r.Some? <==> unit.Some? && room.Some? && component.Some?
    ensures r.Some? ==> r.value == Join(["Unit " + unit.value, room.value, component.value], " - ")
  {
    if unit.Some? && room.Some? && component.Some? then
      var parts := ["Unit " + unit.value, room.value, component.value];
      assert Join(parts[1..], " - ") == room.value + " - " + component.value by {
        assert parts[1..][1..] == [component.value];
      }
      Some("Unit " + unit.value + " - " + room.value + " - " + component.value)
    else None
  }

  // ---------------------------------------------------------------------------
  // Summary counts
  // ---------------------------------------------------------------------------

  datatype BuilderSummary = BuilderSummary(
    totalWorkOrders: nat, pending: nat, inProgress: nat, awaitingApproval: nat, approved: nat,
    completionRate: real, totalDefects: nat, urgent: nat, highPriority: nat, normalPriority: int)

  predicate IsPending(s: string) { s == "pending" }
  predicate IsInProgress(s: string) { s == "in_progress" }
  predicate IsWaiting(s: string) { s == "waiting_approval" }
  predicate IsApproved(s: string) { s == "approved" }
  predicate IsUrgent(u: string) { u == "Urgent" }
  predicate IsHigh(u: string) { u == "High Priority" }

  /** The summary sheet's figures over the work-order statuses and the defect urgencies. */
  function Summary(statuses: seq<string>, urgencies: seq<string>): (r: BuilderSummary)
    ensures r.totalWorkOrders == |statuses| && r.totalDefects == |urgencies|
    ensures r.approved == Count(statuses, IsApproved)
    ensures r.completionRate == ReportUtils.CompletionRate(r.approved, r.totalWorkOrders)
    ensures r.urgent + r.highPriority + r.normalPriority == r.totalDefects
  {
    var total := |statuses|;
    var approved := Count(statuses, IsApproved);
    var urgent := if |urgencies| > 0 then Count(urgencies, IsUrgent) else 0;
    var high := if |urgencies| > 0 then Count(urgencies, IsHigh) else 0;
    BuilderSummary(total, Count(statuses, IsPending), Count(statuses, IsInProgress), Count(statuses, IsWaiting),
                   approved, ReportUtils.CompletionRate(approved, total),
                   |urgencies|, urgent, high, |urgencies| - urgent - high)
  }

  /** Filters by two predicates that never hold together keep at most all the rows. */
  lemma {:induction false} DisjointCounts(s: seq<string>, p: string -> bool, q: string -> bool)
    requires forall x :: !(p(x) && q(x))
    ensures Count(s, p) + Count(s, q) <= |s|
    decreases |s|
  {
    if s != [] {
      DisjointCounts(s[1..], p, q);
    }
  }

  /** The normal-priority figure is never negative, and the four status counts never
      exceed the number of work orders. */
  lemma SummaryBounds(statuses: seq<string>, urgencies: seq<string>)
    ensures Summary(statuses, urgencies).normalPriority >= 0
    ensures Summary(statuses, urgencies).pending + Summary(statuses, urgencies).approved <= |statuses|
    ensures Summary(statuses, urgencies).inProgress + Summary(statuses, urgencies).awaitingApproval <= |statuses|
  {
    DisjointCounts(urgencies, IsUrgent, IsHigh);
    DisjointCounts(statuses, IsPending, IsApproved);
    DisjointCounts(statuses, IsInProgress, IsWaiting);
  }

  // ---------------------------------------------------------------------------
  // Status filter options
  // ---------------------------------------------------------------------------

  /** The SQL condition a status-filter option adds, or none for "All". */
  function StatusFilterSql(option: string): (r: Option<string>)
    ensures option == "Active Only (Exclude Pending)" ==> r == Some("wo.status != 'pending'")
    ensures option == "Non-Pending Only" ==> r == Some("wo.status IN ('in_progress', 'waiting_approval', 'approved')")
    ensures option == "Pending Only" ==> r == Some("wo.status = 'pending'")
    ensures r.None? <==> option != "Active Only (Exclude Pending)" && option != "Non-Pending Only" && option != "Pending Only"
  {
    if option == "Active Only (Exclude Pending)" then Some("wo.status != 'pending'")
    else if option == "Non-Pending Only" then Some("wo.status IN ('in_progress', 'waiting_approval', 'approved')")
    else if option == "Pending Only" then Some("wo.status = 'pending'")
    else None
  }

  /** The work orders a condition admits, by status. */
  function Admits(condition: Option<string>, status: string): bool {
    match condition
    case None => true
    case Some(c) =>
      if c == "wo.status != 'pending'" then status != "pending"
      else if c == "wo.status IN ('in_progress', 'waiting_approval', 'approved')" then
        status == "in_progress" || status == "waiting_approval" || status == "approved"
      else if c == "wo.status = 'pending'" then status == "pending"
      else true
  }

  /** "Active Only" and "Non-Pending Only" differ exactly on the statuses outside the
      four ranked ones, such as rejected: the first admits them, the second does not. */
  lemma ActiveAndNonPendingDiffer(status: string)
    ensures (Admits(StatusFilterSql("Active Only (Exclude Pending)"), status)
             != Admits(StatusFilterSql("Non-Pending Only"), status)) <==> StatusRank(status) == 5
  {
  }

  /** "Pending Only" admits exactly what "Active Only" rejects. */
  lemma PendingComplementsActive(status: string)
    ensures Admits(StatusFilterSql("Pending Only"), status) == !Admits(StatusFilterSql("Active Only (Exclude Pending)"), status)
  {
  }

  // ---------------------------------------------------------------------------
  // Temporary photo files
  // ---------------------------------------------------------------------------

  /** The names a list holds. */
  function NameSet(names: seq<string>): (r: set<string>)
    ensures forall f :: f in r <==> f in names
  {
    set f | f in names
  }

  /** The temporary directory's file names. */
  class TempDirectory {
    var files: set<string>

    constructor (initial: set<string>)
      ensures files == initial
    {
      files := initial;
    }

    /** The cleanup loop: removes every listed file that exists. */
    method RemoveAll(temp: seq<string>)
      modifies this
      ensures files == old(files) - NameSet(temp)
    {
      for i := 0 to |temp|
        invariant files == old(files) - NameSet(temp[..i])
      {
        assert NameSet(temp[..i + 1]) == NameSet(temp[..i]) + {temp[i]} by {
          assert temp[..i + 1] == temp[..i] + [temp[i]];
        }
        if temp[i] in files {
          files := files - {temp[i]};
        }
      }
      assert temp[..|temp|] == temp;
    }
  }

  /** What one photo row leaves in the temporary directory: no file (the photo is
      missing, is not an image, or fails to load or resize before a file is made), a
      file that was saved and listed for clean-up, or a file that
      `NamedTemporaryFile(delete=False)` made but whose `img.save` raised, so the
      per-photo `except` skipped the listing. */
  datatype PhotoOutcome = NoTempFile | Embedded(file: string) | SaveFailed(file: string)

  /** The files the photo rows made, listed or not. */
  function CreatedNames(photos: seq<PhotoOutcome>): (r: set<string>)
    ensures forall f :: f in r <==> exists k :: 0 <= k < |photos| && !photos[k].NoTempFile? && photos[k].file == f
    decreases |photos|
  {
    if photos == [] then {}
    else
      var init, last := photos[..|photos| - 1], photos[|photos| - 1];
      assert forall k :: 0 <= k < |init| ==> init[k] == photos[k];
      CreatedNames(init) + (if last.NoTempFile? then {} else {last.file})
  }

  /** The files the photo rows listed for clean-up, in order. */
  function ListedNames(photos: seq<PhotoOutcome>): (r: seq<string>)
    ensures forall f :: f in r <==> exists k :: 0 <= k < |photos| && photos[k].Embedded? && photos[k].file == f
    decreases |photos|
  {
    if photos == [] then []
    else
      var init, last := photos[..|photos| - 1], photos[|photos| - 1];
      assert forall k :: 0 <= k < |init| ==> init[k] == photos[k];
      ListedNames(init) + (if last.Embedded? then [last.file] else [])
  }

  /** The rows processed before an exception the per-photo `try` does not catch; `abort`
      is the number of rows done when it is raised, `None` when none is. */
  function Processed(photos: seq<PhotoOutcome>, abort: Option<nat>): (r: seq<PhotoOutcome>)
    ensures abort.None? ==> r == photos
    ensures abort.Some? ==> r == photos[..if abort.value < |photos| then abort.value else |photos|]
  {
    if abort.Some? && abort.value < |photos| then photos[..abort.value]
    else if abort.Some? then photos[..|photos|]
    else photos
  }

  /** `_create_photos_sheet`: every photo row makes its file, if any; the list of files
      to remove is returned, or `[]` when the sheet fails outside the per-photo `try`. */
  method CreatePhotosSheet(dir: TempDirectory, photos: seq<PhotoOutcome>, abort: Option<nat>)
    returns (temp: seq<string>)
    modifies dir
    ensures dir.files == old(dir.files) + CreatedNames(Processed(photos, abort))
    ensures temp == if abort.Some? then [] else ListedNames(photos)
  {
    var n := if abort.Some? && abort.value < |photos| then abort.value else |photos|;
    var listed: seq<string> := [];
    for i := 0 to n
      invariant dir.files == old(dir.files) + CreatedNames(photos[..i])
      invariant listed == ListedNames(photos[..i])
    {
      assert photos[..i + 1][..i] == photos[..i];
      match photos[i] {
        case NoTempFile =>
        case Embedded(f) =>
          dir.files := dir.files + {f};
          listed := listed + [f];
        case SaveFailed(f) =>
          dir.files := dir.files + {f};
      }
    }
    assert photos[..|photos|] == photos;
    if abort.Some? {
      return [];
    }
    temp := listed;
  }

  /** Where report generation stops: it finishes, fails before the photo sheet is
      built, or fails after it (while writing the workbook). */
  datatype Failure = NoFailure | FailsBeforePhotos | FailsAfterPhotos

  /** The files a report run leaves behind on top of the directory it started with:
      with photos requested and the sheet reached, the files the sheet made minus
      those it listed; none otherwise. */
  function Survivors(hasWorkOrders: bool, includePhotos: bool, photos: seq<PhotoOutcome>,
                     abort: Option<nat>, failure: Failure): set<string> {
    if hasWorkOrders && includePhotos && failure != FailsBeforePhotos then
      CreatedNames(Processed(photos, abort)) - NameSet(if abort.Some? then [] else ListedNames(photos))
    else {}
  }

  /** `generate_excel_report`: with photos requested, the photo sheet writes its files
      into the directory; the listed files are removed after saving, and also when
      saving fails. The report is produced exactly when there are work orders and
      nothing outside the photo sheet fails: the sheet catches its own failures. */
  method GenerateExcelReport(dir: TempDirectory, hasWorkOrders: bool, includePhotos: bool,
                             photos: seq<PhotoOutcome>, abort: Option<nat>, failure: Failure)
    returns (produced: bool)
    modifies dir
    ensures produced <==> hasWorkOrders && failure == NoFailure
    ensures dir.files == if hasWorkOrders && includePhotos && failure != FailsBeforePhotos
                         then (old(dir.files) + CreatedNames(Processed(photos, abort)))
                              - NameSet(if abort.Some? then [] else ListedNames(photos))
                         else old(dir.files)
    ensures Survivors(hasWorkOrders, includePhotos, photos, abort, failure) <= dir.files
    ensures dir.files <= old(dir.files) + Survivors(hasWorkOrders, includePhotos, photos, abort, failure)
  {
    var temp: seq<string> := [];
    if !hasWorkOrders {
      return false;
    }
    if failure == FailsBeforePhotos {
      dir.RemoveAll(temp);
      return false;
    }
    if includePhotos {
      temp := CreatePhotosSheet(dir, photos, abort);
    }
    dir.RemoveAll(temp);
    produced := failure == NoFailure;
  }

  /** Without a failed save or a sheet failure, no temporary file outlives the call. */
  lemma CleanRunLeavesNothing(hasWorkOrders: bool, includePhotos: bool, photos: seq<PhotoOutcome>,
                              failure: Failure)
    requires forall k :: 0 <= k < |photos| ==> !photos[k].SaveFailed?
    ensures Survivors(hasWorkOrders, includePhotos, photos, None, failure) == {}
  {
    var created, listed := CreatedNames(photos), NameSet(ListedNames(photos));
    forall f | f in created ensures f in listed {
      var k :| 0 <= k < |photos| && !photos[k].NoTempFile? && photos[k].file == f;
    }
  }

  /** A photo whose save raised leaves its file behind, unless another photo listed the
      same name. */
  lemma SaveFailureLeaks(photos: seq<PhotoOutcome>, k: nat, abort: Option<nat>)
    requires k < |photos| && photos[k].SaveFailed?
    requires abort.None? || k < abort.value
    requires forall j :: 0 <= j < |photos| && photos[j].Embedded? ==> photos[j].file != photos[k].file
    ensures photos[k].file in Survivors(true, true, photos, abort, NoFailure)
  {
    var done := Processed(photos, abort);
    assert done[k] == photos[k];
  }

  /** A sheet failure leaves every file made before it, listed or not. */
  lemma SheetFailureLeaksAll(photos: seq<PhotoOutcome>, k: nat, abort: nat)
    requires k < abort && k < |photos| && !photos[k].NoTempFile?
    ensures photos[k].file in Survivors(true, true, photos, Some(abort), NoFailure)
  {
    var done := Processed(photos, Some(abort));
    assert done[k] == photos[k];
  }
}
