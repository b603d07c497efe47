/** The owner's page: the photo-review pages, the fields of a new defects-liability
    (DLP) defect, the download MIME types, the stored preferences and the status icons. */
module Owner {
  import opened Wrappers
  import opened Strings

  // ---------------------------------------------------------------------------
  // Photo pagination
  // ---------------------------------------------------------------------------

  const PhotosPerPage: nat := 6

  /** `(total - 1) // 6 + 1`, which is the number of pages of six. */
  function TotalPages(total: nat): (r: nat)
    ensures total == 0 ==> r == 0
    ensures total > 0 ==> r >= 1 && (r - 1) * PhotosPerPage < total <= r * PhotosPerPage
  {
    (total - 1) / PhotosPerPage + 1
  }

  /** The first index of a page and the index after its last. */
  function PageStart(page: nat): nat
    requires page >= 1
  {
    (page - 1) * PhotosPerPage
  }

  /** `min(start + 6, total)`: the smaller of the two is the end. */
  function PageEnd(total: nat, page: nat): (r: nat)
    requires page >= 1
    ensures r <= total && r <= PageStart(page) + PhotosPerPage
    ensures r == total || r == PageStart(page) + PhotosPerPage
    ensures PageStart(page) <= total ==> PageStart(page) <= r && r - PageStart(page) <= PhotosPerPage
  {
    if PageStart(page) + PhotosPerPage < total then PageStart(page) + PhotosPerPage else total
  }

  /** The photos shown: the whole list when it fits on one page, otherwise the page the
      slider (which offers 1 to the page count) picked. */
  function PhotosSubset<T>(photos: seq<T>, page: nat): (r: seq<T>)
    requires TotalPages(|photos|) > 1 ==> 1 <= page <= TotalPages(|photos|)
    ensures TotalPages(|photos|) <= 1 ==> r == photos
    ensures TotalPages(|photos|) > 1 ==> 1 <= |r| <= PhotosPerPage
    ensures TotalPages(|photos|) > 1 ==> r == photos[PageStart(page)..PageEnd(|photos|, page)]
  {
    if TotalPages(|photos|) > 1 then photos[PageStart(page)..PageEnd(|photos|, page)] else photos
  }

  /** The photos of pages 1 to `p`, one after the other. */
  function PagesUpTo<T>(photos: seq<T>, p: nat): seq<T>
    requires p <= TotalPages(|photos|)
  {
    if p == 0 then [] else PagesUpTo(photos, p - 1) + photos[PageStart(p)..PageEnd(|photos|, p)]
  }

  lemma {:induction false} PagesUpToPrefix<T>(photos: seq<T>, p: nat)
    requires p <= TotalPages(|photos|)
    ensures p == 0 ==> PagesUpTo(photos, p) == []
    ensures p > 0 ==> PagesUpTo(photos, p) == photos[..PageEnd(|photos|, p)]
  {
    if p > 1 {
      PagesUpToPrefix(photos, p - 1);
      assert PageEnd(|photos|, p - 1) == PageStart(p);
      assert photos[..PageStart(p)] + photos[PageStart(p)..PageEnd(|photos|, p)] == photos[..PageEnd(|photos|, p)];
    }
  }

  /** The pages partition the list: read one after the other they give every photo
      once, in order. */
  lemma PagesPartition<T>(photos: seq<T>)
    ensures PagesUpTo(photos, TotalPages(|photos|)) == photos
  {
    if |photos| > 0 {
      PagesUpToPrefix(photos, TotalPages(|photos|));
      assert photos[..|photos|] == photos;
    }
  }

  // ---------------------------------------------------------------------------
  // DLP defect fields
  // ---------------------------------------------------------------------------

  /** The text before the first " - ". */
  function LeadingField(text: string): string {
    Split(text, " - ")[0]
  }

  /** Python's `int` on the leading field, for fields of decimal digits; anything else
      makes the defect creation fail. */
  function PriorityNumber(priority: string): (r: Option<nat>)
    ensures r.Some? ==> LeadingField(priority) != [] && forall i :: 0 <= i < |LeadingField(priority)| ==> IsDigit(LeadingField(priority)[i])
  {
    var f := LeadingField(priority);
    if f != [] && forall i :: 0 <= i < |f| ==> IsDigit(f[i]) then Some(DigitsValue(f)) else None
  }

  /** A field without " - " that does not end in a character of it is read back whole. */
  lemma LeadingFieldOf(d: string, rest: string)
    requires d != [] && d[|d| - 1] !in " - " && !Contains(d, " - ")
    ensures LeadingField(d + " - " + rest) == d
  {
    NoStraddleLast(d, " - " + rest, " - ");
    SplitAppend(d, rest, " - ");
    SplitWithoutSeparator(d, " - ");
  }

  /** A priority offered as "n - description" is read as n. */
  lemma PriorityRoundTrip(n: nat, description: string)
    ensures PriorityNumber(NatToString(n) + " - " + description) == Some(n)
  {
    var d := NatToString(n);
    assert d[|d| - 1] !in " - " by {
      assert IsDigit(d[|d| - 1]);
    }
    NoCharNoContains(d, " - ", ' ');
    LeadingFieldOf(d, description);
    NatToStringRoundTrip(n);
  }

  /** The fields written for a new DLP defect. */
  datatype DlpFields = DlpFields(priority: nat, severity: string, category: string, discoveryMethod: string)

  /** `create_dlp_defect`'s conversions: the priority number, the lower-cased leading
      word of the severity, and the lower-cased category and discovery method; no
      defect when the priority is not a number. */
  function DlpFieldsOf(priority: string, severity: string, category: string, discoveryMethod: string): (r: Option<DlpFields>)
    ensures r.None? <==> PriorityNumber(priority).None?
    ensures r.Some? ==> r.value.priority == PriorityNumber(priority).value
    ensures r.Some? ==> r.value.severity == Lower(LeadingField(severity))
    ensures r.Some? ==> r.value.category == Lower(category) && r.value.discoveryMethod == Lower(discoveryMethod)
  {
    var p := PriorityNumber(priority);
    if p.None? then None
    else Some(DlpFields(p.value, Lower(LeadingField(severity)), Lower(category), Lower(discoveryMethod)))
  }

  /** A severity offered as "Word - description" is stored as the lower-cased word. */
  lemma SeverityOfLabel(word: string, description: string)
    requires word != [] && word[|word| - 1] !in " - " && !Contains(word, " - ")
    ensures LeadingField(word + " - " + description) == word
    ensures forall p, c, m :: DlpFieldsOf(p, word + " - " + description, c, m).Some? ==>
              DlpFieldsOf(p, word + " - " + description, c, m).value.severity == Lower(word)
  {
    LeadingFieldOf(word, description);
  }

  // ---------------------------------------------------------------------------
  // MIME types, preferences, status icons
  // ---------------------------------------------------------------------------

  const PdfMime := "application/pdf"
  const ExcelMime := "application/vnd.openxmlformats-officedocument.spreadsheetml.sheet"
  const WordMime := "application/vnd.openxmlformats-officedocument.wordprocessingml.document"
  const GenericMime := "application/octet-stream"

  /** `get_mime_type` */
  function MimeType(format: string): (r: string)
    ensures format == "PDF" ==> r == PdfMime
    ensures format == "Excel" ==> r == ExcelMime
    ensures format == "Word" ==> r == WordMime
    ensures format != "PDF" && format != "Excel" && format != "Word" ==> r == GenericMime
  {
    if format == "PDF" then PdfMime
    else if format == "Excel" then ExcelMime
    else if format == "Word" then WordMime
    else GenericMime
  }

  /** The three known formats get three different types, none the generic one. */
  lemma MimeTypesDistinct(a: string, b: string)
    requires (a == "PDF" || a == "Excel" || a == "Word") && (b == "PDF" || b == "Excel" || b == "Word") && a != b
    ensures MimeType(a) != MimeType(b) && MimeType(a) != GenericMime
  {
    assert |PdfMime| == 15 && |ExcelMime| == 65 && |WordMime| == 71 && |GenericMime| == 24;
  }

  datatype Preferences = Preferences(
    autoApproveMinor: bool, notificationFrequency: string, approvalTimeoutDays: int,
    costApprovalThreshold: real, emailNotifications: bool, smsNotifications: bool, dashboardLayout: string)

  const DefaultPreferences := Preferences(false, "daily", 7, 1000.0, true, false, "detailed")

  /** A preferences row: how many columns it has, and the values of columns 2 to 8. */
  datatype PreferencesRow = PreferencesRow(
    width: nat, autoApproveMinor: bool, notificationFrequency: string, approvalTimeoutDays: int,
    costApprovalThreshold: real, emailNotifications: bool, smsNotifications: bool, dashboardLayout: string)

  /** `get_owner_preferences`: no row (or an empty one) gives the defaults; a row gives
      each of its columns that exists, and the default for each one it lacks. */
  function OwnerPreferences(row: Option<PreferencesRow>): (r: Preferences)
    ensures row.None? || row.value.width == 0 ==> r == DefaultPreferences
    ensures row.Some? && row.value.width > 8 ==>
              r == Preferences(row.value.autoApproveMinor, row.value.notificationFrequency, row.value.approvalTimeoutDays,
                               row.value.costApprovalThreshold, row.value.emailNotifications, row.value.smsNotifications,
                               row.value.dashboardLayout)
  {
    if row.None? || row.value.width == 0 then DefaultPreferences
    else
      var w := row.value.width;
      Preferences(
        if w > 2 then row.value.autoApproveMinor else false,
        if w > 3 then row.value.notificationFrequency else "daily",
        if w > 4 then row.value.approvalTimeoutDays else 7,
        if w > 5 then row.value.costApprovalThreshold else 1000.0,
        if w > 6 then row.value.emailNotifications else true,
        if w > 7 then row.value.smsNotifications else false,
        if w > 8 then row.value.dashboardLayout else "detailed")
  }

  /** A short row takes the default for exactly the columns it lacks: a row of three
      columns keeps only its auto-approve flag. */
  lemma ShortRowDefaults(row: PreferencesRow)
    requires row.width == 3
    ensures OwnerPreferences(Some(row)) == DefaultPreferences.(autoApproveMinor := row.autoApproveMinor)
  {
  }

  /** The icon of a DLP status; a grey circle for any other status. */
  function StatusIcon(status: string): (r: string)
    ensures KnownDlpStatus(status) <==> r != "\U{26AA}"
    ensures KnownDlpStatus(status) ==> StatusOfIcon(r) == status
  {
    if status == "reported" then "\U{1F7E1}"
    else if status == "acknowledged" then "\U{1F535}"
    else if status == "investigating" then "\U{1F7E0}"
    else if status == "approved" then "\U{1F7E2}"
    else if status == "work_scheduled" then "\U{1F7E3}"
    else if status == "in_progress" then "\U{2699}\U{FE0F}"
    else if status == "completed" then "\U{2705}"
    else if status == "closed" then "\U{26AB}"
    else if status == "rejected" then "\U{1F534}"
    else "\U{26AA}"
  }

  /** Reads the status back from its icon. */
  function StatusOfIcon(icon: string): string {
    if icon == "\U{1F7E1}" then "reported"
    else if icon == "\U{1F535}" then "acknowledged"
    else if icon == "\U{1F7E0}" then "investigating"
    else if icon == "\U{1F7E2}" then "approved"
    else if icon == "\U{1F7E3}" then "work_scheduled"
    else if icon == "\U{2699}\U{FE0F}" then "in_progress"
    else if icon == "\U{2705}" then "completed"
    else if icon == "\U{26AB}" then "closed"
    else if icon == "\U{1F534}" then "rejected"
    else ""
  }

  predicate KnownDlpStatus(status: string) {
    status == "reported" || status == "acknowledged" || status == "investigating" || status == "approved"
    || status == "work_scheduled" || status == "in_progress" || status == "completed" || status == "closed"
    || status == "rejected"
  }

  /** Every known status has its own icon. */
  lemma StatusIconsDistinct(a: string, b: string)
    requires KnownDlpStatus(a) && KnownDlpStatus(b) && a != b
    ensures StatusIcon(a) != StatusIcon(b)
  {
    assert StatusOfIcon(StatusIcon(a)) == a && StatusOfIcon(StatusIcon(b)) == b;
  }
}
