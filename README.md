# Building inspection system — a Dafny model of its core

The system turns an inspector's CSV export of a residential building inspection into
work orders, reports and dashboards. An inspector uploads the CSV; the processor
classifies every inspection cell as OK or Not OK, extracts unit and unit type,
splits column names into Room and Component, looks up the responsible trade, sets
urgency and planned-completion dates, and creates one work order per defect. The
work orders then move through a life cycle shared by the builder's and the
developer's dashboards (pending → in progress → waiting approval → approved, or
back to in progress with a rejection note), with the whole history kept as text
in `builder_notes`. Excel and Word reports summarise the defects per component,
trade and unit and classify units by settlement readiness. An owner's page, an
administrator's page, a login step and a SQLite/PostgreSQL database layer
complete the application.

The model follows the program's files. Each Dafny module is one source file or
one concern shared by several:

- `Strings`, `Seqs`, `Groups`, `Sorting` and `Wrappers` are the Python and pandas
  operations the rest relies on: `split`, `replace`, `strip`, row masks,
  `groupby(...).size()`, stable sorts, and optional values.
- `DataProcessor`, `TradeMapper`, `ExcelGenerator`, `ExcelProfessional`,
  `ReportUtils`, `BuilderReport`, `WordGenerator` and `WordGeneratorApi` model the
  processing and the report derivations as functions, with loops kept as methods.
- `WorkOrders` models the work-order store of the developer and builder dashboards
  as a class whose methods change the table the way the UPDATE statements do.
  It also has the readers that take a rejection reason back out of the notes.
- `Inspector`, `Owner`, `Admin` and `App` model the role pages and the login.
- `Setup` and `Connections` model the database manager, the query builder, the
  trade-mapping table, the save of an inspection and the integrity report. Their
  tables are sequences of records owned by a class, and the engine's failures
  are parameters.

Throughout the model, the clock, random identifiers, hashing, the printability
table and the results of calls into libraries the model cannot see are
parameters.

## Model

| member | source | states |
|---|---|---|
| Owner.TotalPages | roles/owner.py:538-540 | no pages for no photos; otherwise the least number of six-photo pages that holds them all |
| Owner.PageEnd | roles/owner.py:545 | a page ends at the smaller of six photos after its start and the photo count: never past either, and equal to one of them |
| Owner.PhotosSubset | roles/owner.py:542-548 | one page or less shows every photo; otherwise the chosen page shows between one and six photos, the slice from its start to its end |
| Owner.PagesUpToPrefix | roles/owner.py:540-546 | the first p pages read one after another are the photos up to the end of page p |
| Owner.PagesPartition | roles/owner.py:538-546 | all pages read in turn give every photo exactly once, in order |
| Owner.PriorityNumber | roles/owner.py:1367 | a priority is read only when its leading field is a non-empty run of digits |
| Owner.LeadingFieldOf | roles/owner.py:1367-1370 | the leading field of `d - rest` is d when d holds no " - " and does not end in part of it |
| Owner.PriorityRoundTrip | roles/owner.py:1367 | a priority offered as "n - description" is read as n |
| Owner.DlpFieldsOf | roles/owner.py:1357-1389 | no defect exactly when the priority is not a number; otherwise the priority number, the lower-cased leading word of the severity, and the lower-cased category and discovery method |
| Owner.SeverityOfLabel | roles/owner.py:1370 | a severity offered as "Word - description" is stored as the lower-cased word |
| Owner.MimeType | roles/owner.py:1516-1522 | PDF, Excel and Word get their MIME types, anything else `application/octet-stream` |
| Owner.MimeTypesDistinct | roles/owner.py:1517-1522 | the three formats get three different types, none the generic one |
| Owner.OwnerPreferences | roles/owner.py:1429-1459 | no row or an empty row gives the defaults; a full row gives its own values |
| Owner.ShortRowDefaults | roles/owner.py:1440-1448 | a short row takes the default for exactly the columns it lacks |
| Owner.StatusIcon | roles/owner.py:875-879 | a known DLP status gets its own icon, read back by the icon, and any other status the grey circle |
| Owner.StatusIconsDistinct | roles/owner.py:875-879 | different known statuses get different icons |
| Admin.PasswordErrors | roles/admin.py:467-482 | at most one password error: a new user needs a password, an entered password needs six characters and a matching confirmation, checked in that order; an edit without a password has none |
| Admin.UserFormErrors | roles/admin.py:460-482 | the form is clean exactly when username and email are given and the password has no error; the username and email errors appear exactly when those fields are empty |
| Admin.SubmitUserForm | roles/admin.py:458-500 | the user is saved exactly when there is no error, with the fields as entered; an edit without a password keeps the old one |
| Admin.CreatedUsersHaveGoodPasswords | roles/admin.py:467-475 | a created user always has a username, an email and a confirmed password of at least six characters |
| Admin.FullName | roles/admin.py:632 | the trimmed "first last", or the username when that is empty |
| Admin.NewRecord | roles/admin.py:620-649 | PostgreSQL stores the full name; SQLite stores the first name (the username when none) and the last name |
| Admin.NamedAfterFallback | roles/admin.py:632-645 | a user with a username always has a name to show |
| Admin.UserStore.CreateUser | roles/admin.py:611-649 | a taken username is refused and nothing is written; otherwise the new record is appended; usernames stay unique |
| Admin.FilterUsers | roles/admin.py:186-196 | exactly the users with the chosen role (any for "All") whose username, name or email contains the search term ignoring case; the result is the list filtered by that test, so it keeps list order and repeats |
| Admin.FilterUsersKeepsOrder | roles/admin.py:186-196 | the shown users are a subsequence of the user list |
| Admin.NoFilterShowsAll | roles/admin.py:188-191 | "All" with no search term shows every user |
| Admin.LoadSystemSettings | roles/admin.py:1201-1213 | the file's settings when it exists and parses, the defaults otherwise |
| Admin.ResetRoundTrip | roles/admin.py:1229-1238 | saving the defaults and loading them back gives the defaults, which hold a 10 MB file limit |
| ReportUtils.PriorityColor | reports/report_utils.py:118-127 | the colour is one of the palette's; urgent, high, medium and normal (after lower-casing) get danger, warning, accent and success; any other priority is light grey |
| ReportUtils.StatusColor | reports/report_utils.py:130-139 | completed, in_progress or "in progress", open and pending get success, warning, danger and accent; any other status is light grey |
| ReportUtils.ColorsIgnoreCase | reports/report_utils.py:127 | two texts equal up to letter case get the same priority colour and the same status colour |
| ReportUtils.ApprovalStatesGray | reports/report_utils.py:131-139 | the approval statuses waiting_approval and approved are outside the table and come out light grey |
| ReportUtils.CompletionRate | reports/report_utils.py:96-100 | 0 when the total is 0; otherwise the rate times the total is 100 times the completed count, and it lies in 0..100 when completed is in 0..total |
| ReportUtils.SafeDivision | reports/report_utils.py:142-149 | the supplied default on a zero denominator; otherwise the quotient |
| ReportUtils.MaxLength | reports/report_utils.py:44-51 | the longest length bounds every cell, is one of them, and is 0 for an empty column |
| ReportUtils.MaxLengthUnique | reports/report_utils.py:44-51 | an upper bound that occurs in the column is the longest length |
| ReportUtils.ColumnWidth | reports/report_utils.py:53 | at most 50; every cell plus two characters fits unless the cap applies; the width is the cap, 2 (an empty column) or some cell's length plus 2 |
| ReportUtils.AutoAdjustColumnWidths | reports/report_utils.py:41-54 | the nested scan gives each column exactly the width of ColumnWidth, never over 50 |
| ReportUtils.TitleCase | reports/report_utils.py:206 | same length; a letter is upper-cased when it starts a run of letters and lower-cased otherwise |
| ReportUtils.TitleCaseIdempotent | reports/report_utils.py:206 | title-casing a title-cased text changes nothing |
| ReportUtils.DisplayName | reports/report_utils.py:206 | the metric's label keeps the name's length and holds no underscore |
| ReportUtils.GroupThousands | reports/report_utils.py:212 | the grouped form is made of digits and commas, starts and ends with a digit, and has a comma exactly from 1000 on |
| ReportUtils.GroupThousandsRoundTrip | reports/report_utils.py:212 | removing the commas leaves only digits, and they read back as the number |
| ReportUtils.BoolsWrittenAsDigits | reports/report_utils.py:209-212 | a boolean metric takes the integer branch and is written "1" or "0" |
| ReportUtils.CreateSummaryDataFrame | reports/report_utils.py:191-220 | one row per metric in order, each the display name and formatted value of its metric; no label holds an underscore |
| ExcelGenerator.QualityScore | reports/excel_generator.py:257 | never negative; 100 minus the defect rate up to a rate of 100, 0 from there on, and at most 100 for a non-negative rate |
| ExcelGenerator.QualityGrade | reports/excel_generator.py:487-500 | the grade is the band whose floor the score reaches and whose upper neighbour's floor it does not (98, 95, 90, 85, 75) |
| ExcelGenerator.BandsDisjoint | reports/excel_generator.py:487-500 | a score lies in one band only: any band containing it is the computed grade |
| ExcelGenerator.QualityGradeMonotone | reports/excel_generator.py:487-500 | a higher score never gets a worse grade |
| ExcelGenerator.CleanBuildingName | reports/excel_generator.py:872-873 | no longer than the name; only letters, digits, `-` and `_` remain; position by position it is the filtered, trimmed name with each space turned into `_`; every letter, digit and `-` of the name is kept, in order |
| ExcelGenerator.CleanBuildingNameIdempotent | reports/excel_generator.py:872-873 | cleaning an already clean name changes nothing |
| ExcelGenerator.GenerateFilename | reports/excel_generator.py:870-879 | the file name starts with the cleaned building name and `_Inspection_Report_`, holds the report type right after that prefix, and ends with `_` and the timestamp, with no other characters |
| ExcelGenerator.WordSurvivesSquash | reports/excel_generator.py:531 | a lower-case word in the column name is still there after lower-casing and removing underscores |
| ExcelGenerator.DateNamedColumn | reports/excel_generator.py:530-539 | a column whose name contains "date" is a date column whatever its dtype |
| ExcelGenerator.SheetColumnWidth | reports/excel_generator.py:609 | the data-sheet width never exceeds 50 |
| ExcelGenerator.SheetColumnWidthFormula | reports/excel_generator.py:609 | the width is `min(max(header, longest cell) + 2, 50)` |
| ExcelGenerator.DefectComponents | reports/excel_generator.py:467-474 | one entry per Not OK row with a component, and a component is listed exactly when such a row holds it |
| ExcelGenerator.ComponentSummary | reports/excel_generator.py:456-485 | empty when a required column is missing or no row is a defect |
| ExcelGenerator.ComponentSummaryFacts | reports/excel_generator.py:474-477 | sorted by count descending, a permutation of the per-component tally, each defect component once with its true count, counts adding up to the defects |
| Groups.TallyFacts | reports/excel_generator.py:474 | the `groupby(...).size()` tally lists each key once with its number of occurrences, and the counts add up to the rows |
| Sorting.SortBySorted | reports/excel_generator.py:477 | the sort is ordered by the key and is a permutation of its input |
| ExcelProfessional.StatusClassColumn | reports/excel_generator_api_professional.py:130-138 | every normalised cell is null or "Not OK"; with a raw `status` column nullness follows `status` (the rename makes it win), otherwise it follows `StatusClass`, and with neither every cell is "Not OK" |
| ExcelProfessional.TotalDefects | reports/excel_generator_api_professional.py:207 | the defect count is the number of Not OK rows: at most the row count, and zero exactly when no row is a defect |
| ExcelProfessional.BandOf | reports/excel_generator_api_professional.py:219-222 | a unit is ready at 2 defects or fewer, minor work at 3 to 7, major work at 8 to 15, extensive work above 15, each as an iff |
| ExcelProfessional.SingleUnitBuckets | reports/excel_generator_api_professional.py:227-232 | without per-unit data there is one unit, in the bucket its total defect count selects, each as an iff |
| ExcelProfessional.SingleUnitOneBucket | reports/excel_generator_api_professional.py:227-232 | that single unit is in exactly one bucket |
| ExcelProfessional.SingleUnitMode | reports/excel_generator_api_professional.py:214-232 | without a unit column (or rows) the buckets are exactly the single-unit ones |
| ExcelProfessional.BucketsCountDefectUnits | reports/excel_generator_api_professional.py:216-225 | per unit, the four buckets add up to the number of distinct units with a defect, which is at most `total_units` |
| ExcelProfessional.DefectFreeUnitInNoBucket | reports/excel_generator_api_professional.py:216-225 | a unit without defects counts in `total_units` but in no bucket, so the buckets add up to less |
| ExcelProfessional.ProfessionalGrade | reports/excel_generator_api_professional.py:707-716 | never D; from 85 up the standard grade, below 85 always C |
| ExcelProfessional.GradesDifferBelow75 | reports/excel_generator_api_professional.py:707-716 | below 75 this report says C where the standard report says D |
| ExcelProfessional.ProfessionalGradeMonotone | reports/excel_generator_api_professional.py:707-716 | a higher score never gets a worse grade |
| ExcelProfessional.BuildingDisplay | reports/excel_generator_api_professional.py:833-845 | a unit whose first character upper-cases to G or J is shown as "Building G" or "Building J"; any other unit, or none, shows the building name |
| ExcelProfessional.BlockLetterUnits | reports/excel_generator_api_professional.py:836-841 | only a unit starting with g, G, j or J is shown by a block letter |
| ExcelProfessional.WorkflowFill | reports/excel_generator_api_professional.py:1163-1169 | a row is green exactly when the owner signed off |
| ExcelProfessional.PhotoCell | reports/excel_generator_api_professional.py:1218-1224 | "See Defects Only" exactly when a non-empty photo URL exists, "No photo" otherwise; the URL itself is never written |
| ExcelProfessional.Values | reports/excel_generator_api_professional.py:1022 | every listed value is the non-null value of some row, and every row's non-null value is listed |
| ExcelProfessional.Matching | reports/excel_generator_api_professional.py:1023 | every selected row is an input row holding the value |
| ExcelProfessional.MatchingKeeps | reports/excel_generator_api_professional.py:1023 | every input row holding the value is selected |
| ExcelProfessional.TrimmedUnits | reports/excel_generator_api_professional.py:1038 | one trimmed unit text per row |
| ExcelProfessional.NonBlankUniqueFacts | reports/excel_generator_api_professional.py:1036-1040 | the collected units hold no repeat and are exactly the non-blank values |
| ExcelProfessional.CollectUnits | reports/excel_generator_api_professional.py:1036-1043 | the unit loop builds the group's unit list of the specification |
| ExcelProfessional.ComponentLinesLoop | reports/excel_generator_api_professional.py:1028-1050 | the component loop builds one line per non-blank component of the room, as specified |
| ExcelProfessional.RoomLinesLoop | reports/excel_generator_api_professional.py:1025-1050 | the room loop builds the lines of every room of the trade, as specified |
| ExcelProfessional.ComponentDetailsSheet | reports/excel_generator_api_professional.py:1018-1053 | the three nested loops and the final sort give exactly the specified details |
| ExcelProfessional.ComponentDetailsFacts | reports/excel_generator_api_professional.py:1018-1053 | no lines without the columns or rows; ordered by trade and then by count descending; every line is a non-empty (trade, room, component) group with its true count and unit list; no two lines share a (trade, room, component); every row with a trade, a room and a non-empty component has its group's line |
| ExcelProfessional.UnitListFacts | reports/excel_generator_api_professional.py:1036-1043 | the unit list is sorted, repeat-free, and exactly the non-blank trimmed units of the group |
| ExcelProfessional.GetOr | reports/excel_generator_api_professional.py:1424-1425 | `dict.get` with a default: an absent key gives the default, a stored null stays null |
| ExcelProfessional.MaxStr | reports/excel_generator_api_professional.py:1446 | the latest date is one of the dates and not before any of them |
| ExcelProfessional.CombineInspections | reports/excel_generator_api_professional.py:1419-1458 | the loop over the queried inspections builds the specified combined record |
| ExcelProfessional.CombinedNoneIffNoDefects | reports/excel_generator_api_professional.py:1438-1440 | no report exactly when no successful query returned a defect |
| ExcelProfessional.FirstSiteWins | reports/excel_generator_api_professional.py:1422-1425 | building and address come from the first successful query whose building name is not null |
| ExcelProfessional.CreateProfessionalReport | reports/excel_generator_api_professional.py:1404-1464 | "single" with one id reports that inspection, or nothing if its query failed; "multi" reports the combination, or nothing without defects; any other type gives no report |
| DataProcessor.ClassifyStatus | core/data_processor.py:540-550 | Blank exactly for a missing or blank cell; OK exactly when the stripped, lower-cased text is a pass word; Not OK for every other non-blank text, listed fail word or not |
| DataProcessor.StatusWordsNonEmpty | core/data_processor.py:545-547 | no pass or fail word is empty, so a blank cell never matches either list |
| DataProcessor.StatusIgnoresCaseAndPadding | core/data_processor.py:543 | two cells equal after strip and lower-casing classify alike |
| DataProcessor.ClassifyUrgency | core/data_processor.py:552-566 | a missing cell is Normal; Urgent exactly when the status text names an urgent keyword; High Priority exactly when it does not but the component names a safety word |
| DataProcessor.UrgencyIgnoresRoom | core/data_processor.py:552-566 | the room never changes the urgency, although it is passed in |
| DataProcessor.PassedItemNotUrgent | core/data_processor.py:540-566 | an item that passed is never Urgent |
| DataProcessor.OkWordAvoidsKeyword | core/data_processor.py:545-561 | no pass word contains an urgent keyword |
| DataProcessor.ExtractUnitShape | core/data_processor.py:468-476 | the unit read from the audit name is "Unknown", `Unit_n` with n below 1000, or a short token holding a digit and no `/` |
| DataProcessor.ExtractUnitRoundTrip | core/data_processor.py:468-476 | an audit name `building/unit/rest` with a unit token gives back that unit |
| DataProcessor.ExtractUnitOfFields | core/data_processor.py:471-474 | whenever the second `/` field is a unit token, it is the unit |
| DataProcessor.SlashFields | core/data_processor.py:471 | splitting `building/unit/rest` on `/` gives at least three fields, the second being the unit |
| DataProcessor.DeriveUnitType | core/data_processor.py:482-490 | never empty; blank is "Unknown Type"; apartment and townhouse in any case are capitalised; any other text is kept stripped |
| DataProcessor.CustomUnitTypeStable | core/data_processor.py:482-490 | a custom unit type is kept as written, and deriving again changes nothing |
| DataProcessor.UnitColumn | core/data_processor.py:465-479 | a lot-number column with a value gives its stripped values; otherwise the audit names' units; otherwise `Unit_1` to `Unit_n` |
| DataProcessor.InspectionColumns | core/data_processor.py:493-500 | fails with "No inspection columns found in CSV" exactly when no column has the prefix without the `_notes` suffix; otherwise exactly those columns, in order |
| DataProcessor.IndexOf | core/data_processor.py:520 | the first position of the character, or none when it is absent |
| DataProcessor.SplitUnderscore2 | core/data_processor.py:520 | `split("_", n=2)`: one to three fields, underscores only in the last of three |
| DataProcessor.SplitUnderscore2Rejoins | core/data_processor.py:520 | joining the fields with `_` gives the text back |
| DataProcessor.SplitUnderscore2Of | core/data_processor.py:520 | `a_b_c` with no underscore in a and b splits into a, b and c |
| DataProcessor.DotDigitsStart | core/data_processor.py:523 | a found `.` is followed by digits to the end |
| DataProcessor.TrailingDigits | core/data_processor.py:523 | the run of trailing digits is maximal |
| DataProcessor.DropDotDigits | core/data_processor.py:523 | removing a `.digits` suffix never lengthens the text |
| DataProcessor.LastUnderscoreField | core/data_processor.py:524-526 | the last `_` field holds no underscore |
| DataProcessor.ItemFields | core/data_processor.py:520-526 | neither Room nor Component holds an underscore |
| DataProcessor.ItemFieldsRoundTrip | core/data_processor.py:520-526 | a column written from a room and a component splits back into them |
| DataProcessor.KeepsComponent | core/data_processor.py:523-526 | a component without `_` and not ending in a digit survives the clean-up |
| DataProcessor.SplitItems | core/data_processor.py:520-531 | one pair per column; per-column fields when some column has two underscores, else room General and the name without its prefix |
| DataProcessor.RemoveMetadataKeeps | core/data_processor.py:533-537 | a row is kept exactly when it is not metadata, and the kept rows keep their order |
| DataProcessor.RoomTypeRowsDropped | core/data_processor.py:535-537 | a "Room Type" row is always dropped, and a row with missing room and component is kept |
| DataProcessor.PlannedOffset | core/data_processor.py:581-587 | 3, 7 or 14 days for Urgent, High Priority and Normal |
| DataProcessor.PlannedCompletion | core/data_processor.py:581-587 | the planned completion is 1 to 14 days after the inspection |
| DataProcessor.PlannedCompletionMonotone | core/data_processor.py:581-587 | more urgent items are planned strictly sooner |
| DataProcessor.EstimatedHours | core/data_processor.py:374-382 | 2, 4 or 3 hours for Urgent, High Priority and Normal |
| DataProcessor.OrderFor | core/data_processor.py:370-406 | a new order is pending, planned its urgency's offset after today, needs photos exactly for the listed trades, and copies the defect's unit, trade, room and component |
| DataProcessor.OrdersForDefects | core/data_processor.py:362-406 | one pending order per Not OK row and none without defects; photos required exactly for the listed trades |
| DataProcessor.CreateWorkOrders | core/data_processor.py:353-434 | no database or a failing insert gives 0 and writes nothing; otherwise the batch is exactly the specified orders and the count is their number |
| DataProcessor.DefectsPerUnit | core/data_processor.py:1126 | only units with a defect appear, each with its true positive count |
| DataProcessor.ReadinessOf | core/data_processor.py:1126-1137 | the four buckets add up to the distinct units, with defect-free units counted as ready |
| DataProcessor.ReadyMeansFewDefects | core/data_processor.py:1128-1136 | ready counts exactly the units with at most 2 defects, none included |
| DataProcessor.BucketsPartition | core/data_processor.py:1128-1136 | the bands and the defect-free units partition all units |
| TradeMapper.Matches | core/trade_mapper.py:37 | the mapping rows found for an item are exactly the mapping rows that share its (Room, Component) key |
| TradeMapper.FillTrade | core/trade_mapper.py:38 | a present trade is kept and a missing one becomes "Unknown Trade" |
| TradeMapper.RowsFor | core/trade_mapper.py:37 | an item produces one row per matching mapping row, or one row when nothing matches |
| TradeMapper.LeftMergeSize | core/trade_mapper.py:37 | the merge has as many rows as the items' match counts add up to, and never fewer rows than items |
| TradeMapper.LeftMergeRows | core/trade_mapper.py:37-38 | every merged row comes from an input item; an item with no mapping row of its key gets "Unknown Trade", an item with one gets the filled trade of a row with that key |
| TradeMapper.LeftMergeKeepsItems | core/trade_mapper.py:37 | every input item survives the merge |
| TradeMapper.LookupTrade | core/trade_mapper.py:37-38 | "Unknown Trade" whenever no row has the item's key; when one does, the filled trade of a row with that key |
| TradeMapper.LookupFirstMatch | core/trade_mapper.py:37-38 | the lookup gives the filled trade of the first mapping row with the item's key |
| TradeMapper.LookupFindsTrade | core/trade_mapper.py:37-38 | with unique keys, an item whose key is in the mapping gets exactly that row's trade, "Unknown Trade" only when the row has none |
| TradeMapper.UniqueMatchesAtMostOne | core/trade_mapper.py:37 | with unique keys an item matches at most one mapping row, whose trade is the looked-up trade |
| TradeMapper.UniqueKeysPreserveRows | core/trade_mapper.py:37-38 | with unique keys the merge keeps the row count and row k is item k with its looked-up trade |
| TradeMapper.DuplicatedKeyDuplicatesRow | core/trade_mapper.py:37 | two mapping rows with the item's key give two rows, one per trade |
| TradeMapper.LoadMasterMapping | core/trade_mapper.py:43-61 | a CSV file is returned as read; no file gives the built-in five rows with unique keys; a read error gives an empty table |
| TradeMapper.FallbackUnique | core/trade_mapper.py:52-57 | the built-in table has no repeated (Room, Component) key |
| TradeMapper.EmptyMappingAllUnknown | core/trade_mapper.py:37-61 | merging with the empty table keeps every item, each with "Unknown Trade" |
| TradeMapper.Mapper.ApplyMapping | core/trade_mapper.py:31-40 | the mapping is loaded only when none is cached and then kept; the result is the left merge of the items with the cached mapping |
| TradeMapper.CachedAcrossCalls | core/trade_mapper.py:33-34 | a second call uses the mapping loaded by the first even if the file has changed since |
| WorkOrders.ParseStatus | database/setup.py:177-185 | a stored status text is read back only when it names a status, and then it names exactly that status |
| WorkOrders.SerializeAllSnoc | roles/developer.py:452 | writing one more block appends its text after the earlier history (also roles/builder.py:798) |
| WorkOrders.SerializeAllStartsWithSeparator | roles/developer.py:439 | a non-empty written history begins with the `"\n\n---"` block separator (also roles/builder.py:778) |
| WorkOrders.TabsDisjointAndCover | roles/builder.py:109-128 | an order is on at most one builder tab, and on one exactly when its status is pending, in progress, waiting approval or approved |
| WorkOrders.TabsPartitionRows | roles/builder.py:109-128 | the five tab sizes add up to the number of orders with a tab-shown status |
| WorkOrders.TabRejectedImpliesSqlRejected | roles/developer.py:158-168 | every order the tabs call rejected is also counted rejected by the case-insensitive `LIKE '%REJECTED%'` queries (also roles/builder.py:118-124) |
| WorkOrders.SqlAndTabDisagree | roles/developer.py:165 | an in-progress order whose notes say "rejected" in lower case is rejected for SQL and not for the tabs (also roles/builder.py:124) |
| WorkOrders.SqlInProgressSplit | roles/developer.py:1023-1024 | the two in-progress counters of the building statistics split exactly the in-progress orders, null notes counting as not rejected (also roles/builder.py:77-78) |
| WorkOrders.DisplayStatus | roles/developer.py:1139-1145 | the building view shows "rejected" exactly for a derived-rejected order or a stored "rejected" status |
| WorkOrders.RejectedFilterMatchesDisplay | roles/developer.py:1113-1145 | the "rejected" status filter keeps exactly the rows displayed as rejected whose stored status is not "rejected" |
| WorkOrders.PerformanceCountsAtLeastTab | roles/builder.py:1284-1289 | the performance report's rejected count is never below the rejected tab's size |
| WorkOrders.NarrowIsKeep | roles/developer.py:239-246 | one select-box step keeps exactly the rows whose column equals the choice, or all rows for "All" |
| WorkOrders.ApplyFiltersIsFilter | roles/developer.py:238-246 | the four chained steps equal one filter by the conjunction of the four tests |
| WorkOrders.ApplyFiltersIsConjunction | roles/developer.py:238-246 | the filtered orders are an order-preserving subsequence holding exactly the rows that pass all four tests |
| WorkOrders.ToggleReview | roles/developer.py:262-302 | pressing Review/Close opens the item exactly when it was not the open one, and closes it otherwise |
| WorkOrders.HistoryMatchesAppend | roles/developer.py:448-452 | appending a serialised block keeps notes equal to the original notes followed by the serialised history, and the old notes stay a prefix (also roles/builder.py:794-798) |
| WorkOrders.WorkOrderStore.constructor | roles/builder.py:95-107 | a store starts with the given orders and empty histories over their original notes |
| WorkOrders.WorkOrderStore.Append | roles/developer.py:448-455 | writing `old + entry` replaces only that order, appends the entry to its history and lets every note only grow |
| WorkOrders.WorkOrderStore.Approve | roles/developer.py:431-462 | on success the order becomes approved with the approval block appended (with a `Notes:` line exactly for a non-blank trimmed comment) and `updated_at` set, whatever its status; a fault or a missing id changes nothing; the messages are the source's |
| WorkOrders.WorkOrderStore.Reject | roles/developer.py:464-494 | on success the order returns to in progress (never "rejected") with the rejection block and its `Reason:` line appended; a fault or a missing id changes nothing |
| WorkOrders.WorkOrderStore.RejectPressed | roles/developer.py:388-401 | a blank comment is refused with the source's message and nothing changes; otherwise Reject runs and the form closes on success |
| WorkOrders.WorkOrderStore.ApprovePressed | roles/developer.py:370-385 | Approve runs with the comment as typed and the form closes exactly on success |
| WorkOrders.WorkOrderStore.StartWork | roles/builder.py:733-755 | on success the order becomes in progress with its start and update times set, whatever its status, and the Active tab opens its form; a fault changes nothing |
| WorkOrders.WorkOrderStore.SaveProgress | roles/builder.py:757-814 | a file fault, a database fault and a missing row each fail with their message and change nothing; otherwise the progress block is appended, the planned date set and the status kept |
| WorkOrders.WorkOrderStore.Complete | roles/builder.py:816-870 | the same failures as saving; otherwise the completion block is appended and the order is waiting approval with its completion date set |
| WorkOrders.WorkOrderStore.CompletePressed | roles/builder.py:706-718 | blank notes are refused with "Notes required to complete" (or the rework form's message) and nothing changes; a success closes the form |
| WorkOrders.RejectedMarkerSticky | roles/builder.py:798-853 | once the notes mention REJECTED they always will, so an order back in progress is rejected again (also roles/developer.py:484) |
| WorkOrders.RejectionLandsOnRejectedTab | roles/developer.py:473-487 | a rejected order is in progress with the marker, so it is on the builder's rejected tab |
| WorkOrders.FirstMentioning | roles/developer.py:802-805 | the segment found is the first one containing the word, or none contains it |
| WorkOrders.FirstStarting | roles/developer.py:814-817 | the line found is the first one starting with the prefix, or none does |
| WorkOrders.FindReasonLine | roles/builder.py:256-259 | the scan stops at the first line starting with `Reason:` |
| WorkOrders.ReadDeveloperRejection | roles/developer.py:796-817 | the developer's rejected-item reader gives the reason, rejecter and date the parsing functions specify |
| WorkOrders.ReadBuilderRejection | roles/builder.py:240-260 | the builder's rejected-item reader gives the reason and date the parsing functions specify |
| WorkOrders.ReadExtractReason | roles/builder.py:1188-1196 | `extract_reason` gives the reason the parsing functions specify, moving on past rejected segments without a Reason line |
| WorkOrders.ExtractReasonSkips | roles/builder.py:1190-1195 | segments without the marker never change what `extract_reason` finds |
| WorkOrders.RejectionEntryReadBack | roles/developer.py:796-817 | a rejection block is read back as its Reason line's text, its rejecter and its time stamp by both readers (also roles/developer.py:473-476) |
| WorkOrders.RejectReadBackRaw | roles/developer.py:796-817 | after notes without the marker, a rejection reads back its reason in all three readers, whatever is written later (also roles/developer.py:473-484; roles/builder.py:1188-1196) |
| WorkOrders.RejectReadBack | roles/developer.py:796-817 | a single-line comment without "Reason:" reads back as its trimmed text, with the trimmed rejecter name and the time stamp (also roles/developer.py:475; roles/builder.py:240-260, 1188-1196) |
| WorkOrders.LastMentioning | roles/developer.py:802-805 | the last segment containing the word, or none contains it |
| WorkOrders.CurrentRejectionReadBack | roles/developer.py:464-487 | the corrected reader gives back the latest rejection's trimmed comment, rejecter and time stamp, whatever came before |
| WorkOrders.StaleRejectionShown | roles/developer.py:804-818 | after two rejections with different reasons both readers still show the first, the corrected reader the second (also roles/builder.py:246-260) |
| WorkOrders.ReasonWordDropped | roles/developer.py:816 | a rejection whose comment is "Reason:" reads back as empty, the corrected reader gives the comment (also roles/builder.py:258) |
| Inspector.CurrentUserRole | roles/inspector.py:93-109 | the interface's own non-empty user info decides first (role or "inspector"), then the session's user info, then a stored session role, and "inspector" otherwise |
| Inspector.TradePermissions | roles/inspector.py:111-121 | the same precedence for the permissions, with `["view_master"]` wherever none is given |
| Inspector.DefaultGrantsNothing | roles/inspector.py:111-136 | a user without listed permissions gets only `view_master`, so may neither save the master mapping, use a custom one nor manage system mappings |
| Inspector.OwnInfoOverridesSession | roles/inspector.py:96-114 | with non-empty own user info, nothing in the session changes the role or the permissions |
| Inspector.KeysWithDifferentCountersDiffer | roles/inspector.py:138-141 | keys made with different counter values differ, whatever their bases |
| Inspector.InspectorPage.GetUniqueKey | roles/inspector.py:138-141 | each call raises the counter by one and returns the base with the new counter appended |
| Inspector.TwoKeysDiffer | roles/inspector.py:138-141 | two successive keys differ even for the same base |
| Inspector.SafeDbSaveTradeMapping | roles/inspector.py:657-675 | while the prevent flag, the custom-mapping flag or a `custom_temp` source is set, or without a database manager, nothing is saved and False is returned, the mapping table unchanged; otherwise the result and the new table are those of `save_trade_mapping` |
| Inspector.DuplicateLookup | roles/inspector.py:1391-1394 | the database reports a duplicate only for a hash other than the one just processed |
| Inspector.UploadStatusOf | roles/inspector.py:1391-1408 | "Just Processed" exactly for the last processed hash, "DUPLICATE" exactly when the lookup finds it, "New File" otherwise |
| Inspector.DuplicateBlocked | roles/inspector.py:1391-1415 | the upload is blocked exactly when the hash is in the database, was not just processed, and its override flag is not set |
| Inspector.OverrideIsPerHash | roles/inspector.py:1413-1415 | setting one hash's override unblocks that hash and changes nothing for any other |
| Inspector.UnitRows | roles/inspector.py:1980-1983 | exactly the Not OK rows whose unit matches the number, ignoring case and padding, each as often as it occurs in the data |
| Inspector.UrgencyRank | roles/inspector.py:1986-1987 | Urgent 1, High Priority 2, any other urgency 3 |
| Inspector.UrgencyThenPlannedPreorder | roles/inspector.py:1988 | ordering by urgency rank then planned completion is a total preorder |
| Inspector.Project | roles/inspector.py:1990-1992 | one line per row holding its room, component, trade, urgency and formatted date |
| Inspector.LookupUnitDefects | roles/inspector.py:1976-1995 | no processed data or no unit number gives the column-less frame; otherwise the sorted lines of the matching defects |
| Inspector.SortedUnitRowsFacts | roles/inspector.py:1980-1988 | the sorted rows are exactly the matching defects with their multiplicities, as many as the filter selects, ordered by urgency then date |
| Inspector.LookupLinesSound | roles/inspector.py:1980-1992 | every line shown comes from a matching defect |
| Inspector.LookupLinesComplete | roles/inspector.py:1980-1992 | every matching defect is shown |
| Inspector.LookupLinesByUrgency | roles/inspector.py:1986-1988 | the lines are in non-decreasing urgency rank |
| Inspector.DbRef | roles/inspector.py:2432 | empty without an inspection id, otherwise `_DB` and the id's first eight characters |
| Inspector.EnhancedFilename | roles/inspector.py:2424-2434 | begins with the cleaned building name and `_V3_Enhanced_Inspection_Report_`, holds the report type right after that prefix, and ends with `_`, the timestamp and the database reference, with no other characters |
| Inspector.MissingColumns | roles/inspector.py:577-581 | exactly the required columns Room, Component and Trade absent from the upload, in that order |
| Inspector.UploadAcceptedIffComplete | roles/inspector.py:577-581 | the upload is accepted exactly when it has all three columns |
| BuilderReport.ActivityFields | reports/builder_report.py:327-336 | the fields tried for waiting-approval and approved orders, for in-progress orders, and for every other status, in the source's order |
| BuilderReport.LastActivity | reports/builder_report.py:323-354 | the loop gives what the first-usable-field specification gives for the status's field order |
| BuilderReport.FirstActivityIsFirst | reports/builder_report.py:339-354 | no activity exactly when no field is usable; otherwise the value of a usable field with no usable field before it |
| BuilderReport.CompletedAtWins | reports/builder_report.py:329-330 | an approved order with a completion time stamp reports that time |
| BuilderReport.StatusRank | reports/builder_report.py:177-185 | pending 1, in progress 2, waiting approval 3, approved 4, every other status 5 |
| BuilderReport.OrderedBeforePreorder | reports/builder_report.py:177-186 | status rank then newest update is a total, transitive order that puts pending orders first |
| BuilderReport.WorkOrderTitle | reports/builder_report.py:193-197 | a title exists exactly when unit, room and component exist, and is `Unit u - room - component` |
| BuilderReport.Summary | reports/builder_report.py:255-282 | the totals are the row counts, approved counts the approved orders, the completion rate is approved over total, and the three priority figures add up to the defects |
| BuilderReport.DisjointCounts | reports/builder_report.py:258-261 | counts of two exclusive tests never exceed the rows |
| BuilderReport.SummaryBounds | reports/builder_report.py:258-282 | the normal-priority figure is never negative and the status counts never exceed the total |
| BuilderReport.StatusFilterSql | reports/builder_report.py:1279-1285 | the three options give their SQL conditions, any other option none |
| BuilderReport.ActiveAndNonPendingDiffer | reports/builder_report.py:1280-1283 | the two "active" options differ exactly on statuses outside the four known ones |
| BuilderReport.PendingComplementsActive | reports/builder_report.py:1280-1285 | "Pending Only" admits exactly what "Active Only (Exclude Pending)" refuses |
| BuilderReport.NameSet | reports/builder_report.py:97-100 | the set of the listed file names |
| BuilderReport.TempDirectory.RemoveAll | reports/builder_report.py:97-103 | every listed temporary file is gone afterwards and nothing else is removed |
| BuilderReport.CreatedNames | reports/builder_report.py:700-702 | a file is made exactly for each photo row whose temporary file was opened, whether or not its save succeeded |
| BuilderReport.ListedNames | reports/builder_report.py:705 | a file is listed for clean-up exactly for each photo row whose save succeeded |
| BuilderReport.Processed | reports/builder_report.py:654-748 | an uncaught exception after `k` rows leaves exactly the first `k` rows processed |
| BuilderReport.CreatePhotosSheet | reports/builder_report.py:563-755 | the directory gains every file the processed rows made; the clean-up list is the saved files in order, or empty after a sheet-level failure |
| BuilderReport.GenerateExcelReport | reports/builder_report.py:43-128 | a workbook is produced exactly when there are work orders and nothing outside the photo sheet fails (a sheet failure does not stop it); the directory ends as the start plus the sheet's files minus the listed ones, so exactly the unlisted files survive |
| BuilderReport.CleanRunLeavesNothing | reports/builder_report.py:91-116 | with no failed save and no sheet failure, no temporary file survives |
| BuilderReport.SaveFailureLeaks | reports/builder_report.py:700-721 | a photo whose save raised leaves its file behind |
| BuilderReport.SheetFailureLeaksAll | reports/builder_report.py:748-755 | a sheet-level failure leaves every file made before it, saved or not |
| WordGenerator.FindClose | reports/word_generator.py:414 | the closing `**` found for the non-greedy match lies at or after the start |
| WordGenerator.FindCloseClean | reports/word_generator.py:414 | nothing between the opening and the closing marker is a newline or another `**` |
| WordGenerator.FirstMatch | reports/word_generator.py:414 | a match found starts at a `**`, and its closing `**` is the first one after it, within the text |
| WordGenerator.SplitBold | reports/word_generator.py:414 | `re.split` with one group yields an odd number of parts |
| WordGenerator.SplitBoldRoundTrip | reports/word_generator.py:414 | the parts rejoined with `**` around every odd part give the text back |
| WordGenerator.InnerClean | reports/word_generator.py:414 | the captured text of a match holds neither a newline nor `**` |
| WordGenerator.SplitBoldBoldParts | reports/word_generator.py:414 | every bold (odd) part holds neither a newline nor `**` |
| WordGenerator.RunTextAppend | reports/word_generator.py:416-428 | the text of runs added one batch after another is their texts in order |
| WordGenerator.RunsOfUnfold | reports/word_generator.py:416-428 | the runs of the parts are those of all but the last part followed by the last part's run |
| WordGenerator.RunsOfText | reports/word_generator.py:416-428 | the paragraph's text is the parts concatenated, the markers removed |
| WordGenerator.RunsOfShape | reports/word_generator.py:416-428 | no plain run is empty, and every bold run is one of the odd parts, even an empty one |
| WordGenerator.Paragraph.AddFormattedTextWithBold | reports/word_generator.py:409-430 | the paragraph gains exactly the runs of the split text, in order, and takes the given style |
| WordGenerator.UnitChartColor | reports/word_generator.py:597-607 | the first band in the order >25, ≥15, ≥8, ≥3, otherwise, chooses the colour |
| WordGenerator.UnitChartColors | reports/word_generator.py:595-607 | one colour per count, each the colour of its count |
| WordGenerator.ChartSeverity | reports/word_generator.py:795-811 | the chart buckets ≥15, 8-14, 3-7 and ≤2, each exactly |
| WordGenerator.ProseSeverity | reports/word_generator.py:563-566 | the prose buckets >15, 8-15, 3-7 and ≤2, each exactly |
| WordGenerator.BucketsPartition | reports/word_generator.py:795-811 | for either set of buckets the four counts add up to the number of units (also lines 563-566) |
| WordGenerator.ChartAndProseDifferOnlyAt15 | reports/word_generator.py:795-811 | the two bucketings disagree exactly at 15 defects: extensive in the chart, major in the prose (also lines 563-566) |
| WordGenerator.WarmColorsAreExtensive | reports/word_generator.py:597-607 | the red and orange bar colours go exactly to the chart's extensive units (also line 797) |
| WordGenerator.TruncateUnits | reports/word_generator.py:1123-1125 | at most 50 characters; a short text is unchanged, a long one keeps its first 47 and ends in "..." |
| WordGenerator.TruncateIdempotent | reports/word_generator.py:1123-1125 | truncating twice is truncating once |
| WordGenerator.ComponentLabel | reports/word_generator.py:1003-1005 | the component, followed by ` (room)` exactly when the room is present and not blank |
| WordGenerator.ComponentLabelShape | reports/word_generator.py:1003-1005 | the label starts with the component and, when longer, ends with `)` |
| WordGenerator.GenerateFilename | reports/word_generator.py:1464-1473 | the Word file name is the Excel generator's name for the same building, type and time stamp, so both use the same character filter |
| WordGenerator.FirstPriority | reports/word_generator.py:1213-1218 | accelerated above 75 %, phased above 50 % up to 75 %, quality-first otherwise |
| WordGenerator.FirstPriorityMonotone | reports/word_generator.py:1213-1218 | a higher ready percentage never gives a less advanced first recommendation |
| WordGeneratorApi.SanitizeText | reports/word_generator_api.py:36-56 | a missing or empty text gives nothing; no character of the result is one of the four removed control characters, and each is printable or a line break, carriage return or tab |
| WordGeneratorApi.SanitizeKeeps | reports/word_generator_api.py:45-54 | the result is a subsequence of the trimmed text and keeps every character of it that is not one of the four control characters and is printable, a line break, a carriage return or a tab |
| WordGeneratorApi.SanitizeOfCleanNoop | reports/word_generator_api.py:45-54 | a trimmed text of printable characters only comes back unchanged |
| WordGeneratorApi.DocParagraph.SafeAddRun | reports/word_generator_api.py:59-75 | the paragraph gains exactly one run, holding the sanitised text and the formatting options given |
| WordGeneratorApi.SeverityColor | reports/word_generator_api.py:213-222 | the five known levels get their template colours and anything else black |
| WordGeneratorApi.SeverityColorInjective | reports/word_generator_api.py:215-222 | the five known levels get five different colours, none black |
| WordGeneratorApi.BuildingNameOf | reports/word_generator_api.py:660 | the building name of the row, or "Unknown Building" without one |
| WordGeneratorApi.DateRangeLabel | reports/word_generator_api.py:664-670 | one date when start and end agree, "start to end" when they differ, "Date not specified" when either is missing |
| WordGeneratorApi.DateRangeNamesBoth | reports/word_generator_api.py:668 | a range label starts with the start date and ends with the end date |
| WordGeneratorApi.WordReportKind | reports/word_generator_api.py:704-734 | no report without defects; otherwise the single-unit report exactly when the type is "single" or one id is given, the building summary otherwise |
| WordGeneratorApi.OneInspectionIsSingle | reports/word_generator_api.py:729 | one inspection id always gives the single-unit report, whatever the type |
| App.BuiltInLogin | main.py:217-236 | a built-in user logs in exactly with its own password, getting its role, id and display name |
| App.SimpleAuthenticate | main.py:178-236 | an inactive database user is refused outright; an active one with a matching salted hash logs in with its stored role and trimmed full name; a wrong hash, no row or no database falls back to the built-in users |
| App.InactiveNeverLogsIn | main.py:198-200 | an inactive database user is refused even with a built-in user's correct password |
| App.LoginNeedsCredential | main.py:178-236 | every successful login matched the database hash of an active user or a built-in password |
| App.AdminFallback | main.py:218-233 | without a database, admin/admin123 logs in as the System Administrator, user 1 |
| App.SidebarPage | main.py:600-624 | admin, inspector and builder get their fixed page; the owner's only page is the Owner Dashboard; the developer picks between two pages |
| App.Route | main.py:638-669 | admin, inspector and builder go to their interface whatever the page; any other role is routed by the page name |
| App.RouteByPageName | main.py:647-669 | for a non-fixed role the first page name the page contains decides, in the order Owner Dashboard, Developer Dashboard, Inspection Reports, and the welcome view otherwise |
| App.OwnerRouted | main.py:608-653 | an owner always reaches the owner interface |
| App.DeveloperRouted | main.py:613-664 | a developer reaches the developer dashboard or the reports, as chosen |
| App.UnknownRoleWelcomed | main.py:623-669 | any other role sees the welcome view |
| App.UsersTable.EnsureDemoUsersExist | main.py:293-332 | without a database nothing changes; otherwise each demo user whose name is not taken is added, in order, and existing users stay |
| App.SeededFacts | main.py:312-326 | seeding keeps the earlier users as a prefix, keeps usernames unique, and leaves every demo username taken |
| Connections.DetectDatabaseType | database/connection_manager.py:32-47 | PostgreSQL exactly when the driver is available and the URL is non-empty, the URL being the environment's when that variable is set and the secrets' otherwise |
| Connections.EmptyEnvironmentHidesSecrets | database/connection_manager.py:35-39 | a set but empty environment variable gives SQLite without looking at the secrets, while an unset one lets a secrets URL choose PostgreSQL |
| Connections.NoDriverMeansSqlite | database/connection_manager.py:44-47 | without the PostgreSQL driver the engine is always SQLite |
| Connections.ConvertSqlForDb | database/connection_manager.py:129-145 | SQLite text is returned unchanged; PostgreSQL text goes through the four replacements in order |
| Connections.ConvertUntouched | database/connection_manager.py:139-145 | SQL that mentions neither AUTOINCREMENT nor DATETIME is unchanged for either engine |
| Connections.AutoPrimaryKeyBecomesSerial | database/connection_manager.py:140-141 | `INTEGER PRIMARY KEY AUTOINCREMENT` becomes `SERIAL PRIMARY KEY` |
| Connections.RewriteOrderMatters | database/connection_manager.py:140-141 | removing the bare word first would leave `INTEGER PRIMARY KEY `, not the serial key |
| Connections.AutoincrementCanSurvive | database/connection_manager.py:141 | `AUTOAUTOINCREMENTINCREMENT` converts to `AUTOINCREMENT`: one pass of the removal does not remove every occurrence |
| Connections.ConnectionManager.constructor | database/connection_manager.py:28-30 | the engine is detected once, when the manager is built, and the SQLite path is `building_inspection.db` |
| Connections.Registry.GetConnectionManager | database/connection_manager.py:148-156 | the first call builds a manager for the current environment; every later call returns that same manager |
| Connections.Registry.SameInstanceTwice | database/connection_manager.py:148-156 | two calls give the same manager, whose engine the first call's environment decided |
| Connections.CommitRule | database/connection_manager.py:110-122 | a statement is committed exactly when it runs and nothing is fetched; otherwise the committed state is unchanged |
| Connections.FailureRaises | database/connection_manager.py:110-125 | the call raises exactly when the engine does, and a write returns its row count |
| Connections.Database.ExecuteQuery | database/connection_manager.py:91-127 | the committed statements grow exactly by the rule above, the result is the fetched row, rows or count, and the connection and cursor are closed in every case |
| Setup.StatusDomainIsLifeCycle | database/setup.py:177-185 | the status CHECK allows exactly the names of the seven life-cycle statuses, and each allowed text reads back as a status |
| Setup.ConditionSnoc | database/setup.py:1250-1256 | adding a filter appends its clause to the text and its value to the parameters |
| Setup.PlaceholdersAppend | database/setup.py:1238-1258 | the `?` marks of a joined text are those of its parts |
| Setup.ClausePlaceholders | database/setup.py:1250-1256 | each filter clause holds exactly one `?` |
| Setup.WorkOrdersForBuilderQuery | database/setup.py:1238-1258 | the query is the fixed base, then one `AND column = ?` per given filter (trade before status), then the fixed order; the parameters are the filter values in the same order |
| Setup.ConditionPlaceholders | database/setup.py:1250-1256 | the filter clauses hold exactly one `?` per filter |
| Setup.FixedPartsUnmarked | database/setup.py:1241-1258 | the base query and the order clause hold no `?` |
| Setup.BuilderPlaceholdersMatch | database/setup.py:1238-1258 | the query has exactly as many `?` as parameters, so the statement is well formed; with neither filter there are none |
| Setup.BuilderValues | database/setup.py:1250-1256 | the parameters are the trade, then the status, each only when given and non-empty |
| Setup.Connection.constructor | database/setup.py:36-45 | a new connection carries the database path and the five pragmas, foreign keys first |
| Setup.DatabaseManager.constructor | database/setup.py:26-30 | a manager starts without a connection |
| Setup.DatabaseManager.Connect | database/setup.py:32-47 | the first call opens one connection with the pragmas; later calls return it; no table changes |
| Setup.NothingMissingIffPresent | database/setup.py:991-998 | nothing is missing exactly when every required column is present |
| Setup.MissingRequiredMembers | database/setup.py:991-994 | a column is reported missing exactly when it is required and absent |
| Setup.QualityScore | database/setup.py:1044 | `max(0, 100 - defect_rate)`: never negative, 100 without a rate, 100 minus the rate for a rate in 0-100 |
| Setup.BuildingOf | database/setup.py:1023-1046 | the building row has the given id, the building name or "Unknown", the inspection date or today, the quality score and status "active" |
| Setup.InspectionOf | database/setup.py:1053-1079 | the inspection row has the given ids, the same date, the inspector, the file name or "uploaded.csv", and status "active" |
| Setup.ItemsOfRows | database/setup.py:1087-1117 | item k is built from processed row k with its own id and the inspection id |
| Setup.ItemBatch | database/setup.py:1087-1117 | the loop builds one item per processed row, in order |
| Setup.NoOrphansCountZero | database/setup.py:1667-1675 | when every item's inspection is stored the orphan count is zero |
| Setup.SaveKeepsNoOrphans | database/setup.py:1053-1124 | adding an inspection and a batch of items pointing at it keeps every item attached |
| Setup.DatabaseManager.SaveTradeMapping | database/setup.py:1280-1304 | success exactly when the engine does not fail and the rows are complete with unique keys (the table's UNIQUE constraint); then the table is exactly the rows, otherwise the rollback leaves it unchanged |
| Setup.MappingTableFacts | database/setup.py:1280-1304 | the mapping is stored exactly when every row is complete and no key repeats, and reading it back gives the rows (also line 163) |
| Setup.LoadedKeys | database/setup.py:1306-1309 | a key is stored exactly when it is the key of some loaded row |
| Setup.LoadedAt | database/setup.py:1306-1309 | `get_trade_mapping` gives one row per stored mapping, with its room, component and trade |
| Setup.UniqueKeysSnoc | database/setup.py:163 | adding a row keeps keys unique exactly when its key is new |
| Setup.MappingFailurePersists | database/setup.py:1290-1304 | once a prefix of rows cannot be stored, the whole save fails |
| Setup.DatabaseManager.SeedDefaultTradeMapping | database/setup.py:1435-1528 | an empty mapping table receives the default rows; a non-empty one is left as it is |
| Setup.DatabaseManager.SaveInspectorData | database/setup.py:966-1155 | the inspection id is returned exactly when the data has rows, the metrics are not empty and no required column is missing, and the save does not fail; then one building, one inspection and one item per row are added, otherwise nothing changes |
| Setup.SavedItemsNeverOrphaned | database/setup.py:1053-1124 | a save from a state without orphans leaves the orphan count at zero (also lines 1667-1675) |
| Setup.CheckSaveReadiness | database/setup.py:1157-1220 | ready exactly without issues; the missing-tables issue exactly when a required table is absent, the write-test issue exactly when it fails, a connection error exactly for a failure, and the foreign-key warning only when the check completes with keys off |
| Setup.WarningsDoNotBlock | database/setup.py:1210-1214 | with every table present and the write test passing, the database is ready whether or not foreign keys are on |
| Setup.ViolationIssues | database/setup.py:1662-1665 | one issue per foreign-key violation, in order |
| Setup.ValidateDatabaseIntegrity | database/setup.py:1654-1701 | valid exactly when there is no violation and no orphaned item, orphaned work order or user without a profile; one issue per violation first, then one per non-zero count |
| Setup.SavesPassIntegrity | database/setup.py:1654-1701 | after saves the integrity check finds no orphaned items (also lines 1053-1124) |

## Left out

- Strings.IsDigit: ASCII digits only; Python's `isdigit` and a regex `\d` also accept other Unicode digits.
- Strings.IsAlnum: ASCII letters and digits only; Python's `isalnum` is Unicode, so `é` is kept there and dropped here.
- Strings.LowerChar: ASCII lower-casing only; Python's `lower` is Unicode (the Kelvin sign U+212A lowers to `k`).
- Strings.UpperChar: ASCII upper-casing only; Python's `upper` is Unicode.
- DataProcessor.ClassifyStatus: lower-cases with ASCII rules, so `"OK"` is Not OK here while the source's Unicode `lower` reads it as "ok" (data_processor.py:540-550).
- ExcelGenerator.CleanBuildingName: keeps ASCII letters and digits only, so `"Café Tower"` becomes `Caf_Tower` where the source keeps `é` (excel_generator.py:872).
- ReportUtils.TitleCase: upper-cases only ASCII letters, so `"éa"` becomes `éA` where Python's `title` gives `Éa`.
- Inspector.MatchesUnit: compares units with ASCII lower-casing, for the reason above.
- Owner.PriorityNumber: accepts ASCII decimal digits only; Python's `int` also accepts signs, surrounding blanks and other Unicode digits.
- Admin.FilterUsers: the search term is matched as a literal substring; pandas `str.contains` reads it as a regular expression.
- ReportUtils.CompletionRate: exact real arithmetic with no `round(…, 1)`; the source gives 33.3 for one of three, the model 33.333….
- ReportUtils.SafeDivision: exact real arithmetic with no `round(…, 2)`. The model has no `except` path, which only float errors reach, and its default is a parameter where the source's is 0.
- Groups.Tally: keys come in first-appearance order. pandas `groupby` sorts its keys and `sort_values` is not stable (excel_generator.py:474-477), so among components with equal counts the source's order may differ from `ExcelGenerator.ComponentSummary`'s.
- Floating point: every rate, score and percentage is a `real`. Rounding and `NaN` arithmetic are not modelled beyond the null checks the source makes.
- `save_trade_mapping_to_database` and `load_trade_mapping_from_database` (trade_mapper.py:64-80) only log and return a constant, so they are not modelled.
- python-docx, openpyxl, matplotlib and Streamlit output is not modelled: paragraphs, cells, charts, widgets and photo downloads. The model keeps only the values the reports and pages compute.
- WordGeneratorApi.SafeAddRun: the run records the formatting asked for; `Pt()`, the colour object and the font setting of python-docx are not modelled.
- BuilderReport.TempDirectory.RemoveAll: a failure to remove a temporary file is not modelled; the source ignores such failures.
- BuilderReport.CreatePhotosSheet: loading, resizing and embedding the images and writing the sheet's cells are not modelled; what each photo row leaves in the temporary directory, and where an uncaught exception stops the sheet, are parameters.
- App.SimpleAuthenticate: `sha256` and the stored salt are parameters, not SHA-256 itself.
- The import fallbacks of `main.py` (the demo mode used when a module fails to import) are not modelled.
- The administrator's edit mode writes its UPDATE through SQL that is not modelled beyond the form's validation and the saved fields.
- Setup.WorkOrdersForBuilderQuery: the query text is modelled with its whitespace normalised to single spaces.
- Setup.DatabaseManager.SaveInspectorData: `uuid4`, the clock and `pd.to_datetime` are parameters. The metrics are typed values, so the source's conversion errors on them are not modelled.
- Setup.DatabaseManager.SeedDefaultTradeMapping: assumes the default rows satisfy the table's constraints, as they do.
- Setup.CheckSaveReadiness: the write test is a boolean parameter, not an actual write.
- Setup.ValidateDatabaseIntegrity: the foreign-key violations and the orphan counts are parameters standing for the results of the PRAGMA and the COUNT queries. The lemmas connect those counts to the modelled tables.
- The rest of `database/setup.py` (schema creation and migrations, and the queries the core does not use) is outside this model.
- Connections.Database.ExecuteQuery: the driver's I/O is a parameter that reports what the engine did; connection pooling and timeouts are not modelled.
- Connections.Database.ExecuteQuery: opening the connection always succeeds; a `get_connection()` failure (connection_manager.py:103), which raises before the `try` so nothing is rolled back or closed, is not modelled.
- Concurrency between Streamlit sessions, and session state beyond the values passed in, are not modelled.

## Findings

| source | as written | input that shows it | evidently intended | confidence | as-written member | corrected member |
|---|---|---|---|---|---|---|
| roles/developer.py:818 | the reader stops at the first block that mentions REJECTED (also roles/builder.py:260) | notes with a rejection "Reason: A" followed by a later rejection "Reason: B" | the reason of the latest rejection is shown | not executed | WorkOrders.StaleRejectionShown | WorkOrders.CurrentRejectionReadBack |
| roles/developer.py:816 | `line.replace('Reason:', '')` removes every occurrence of `Reason:` in the line (also roles/builder.py:258 and 1195) | a rejection whose comment is the text `Reason:` | the comment after the leading label is shown as written | not executed | WorkOrders.ReasonWordDropped | WorkOrders.CurrentRejectionReadBack |
