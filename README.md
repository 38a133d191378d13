# Music library: a Dafny model of the report engine and its helpers

The music library is a PHP API with a React front end for cataloguing
sheet music. This project models two parts of it and proves properties
of the models.

- **The report engine** (`api/reports.php`). A stored report request is a
  parameter map. The engine selects item IDs by intersecting the results
  of thirteen filters with the full item list. It then fills one value
  array per requested column using the column strategies (key, direct,
  person, multiple, lookup, inventory, last-performance). It turns the
  columns into rows, sorts the rows case-insensitively, and reverses them
  on request. For a workbook it names cells with spreadsheet letters and
  coerces each value before writing it.
- **The helpers around it**, covering their logic only:
  - person names and search keys;
  - item sort keys;
  - INSERT/UPDATE column and value lists, kept as data rather than SQL;
  - the printable record's blocks;
  - request-path parsing, the session and authorization rules;
  - the front end's form validation, pagination window, nested field
    names, report request, titles and legend labels.

Database queries, `sprintf`, `iconv`, PHP's string `sort()` and the URL
and phone regular expressions are parameters of the model. Each query
becomes a function from a description of the query to its rows, so the
engine's set, sequence and string logic is modelled and proved on its
own.

Modules, one per source file plus shared ones:

- shared: `Values` (PHP/JS dynamic values and truthiness), `Text` (trim,
  split/join, decimal digits, `%06d`, ASCII case folding, percent
  doubling), `Sorting` (a stable insertion sort over any total preorder),
  `Names` (the "Last, First (Dates)" rendering), `Forms` (form fields and
  nested names) and `FrontRequests` (the PUT/POST URI rule);
- `api/reports.php`: `ReportFilters`, `ReportColumns`, `ReportExcel`,
  `Reports`;
- `Tables`, `Items`, `Print`, `Utilities`, `Users` for the other API files;
- `Validation`, `ResultsDisplay`, `Catalog`, `EditForm`, `ReportForm`,
  `FormRow`, `Account`, `SearchForm` for the front-end files.

The code is followed wherever it differs from its description:

- The search key puts two spaces before the dates when a name precedes
  them.
- A column of unrecognised type reuses the previous column's values.
- The key column is sorted separately from the other columns.
- An integer value (not a numeric string) is written to a workbook as a
  float.
- Only the exact logic codes invert a filter, as well as 'no' on the
  loan filter.

## Model

| member | source | states |
|---|---|---|
| ReportExcel.ColumnRow | api/reports.php:66-75 | the while loop yields exactly the bijective base-26 letters of the column followed by the row number |
| ReportExcel.LettersOfColumn | api/reports.php:66-75 | decoding the letters of any column number gives the number back |
| ReportExcel.ColumnOfLetters | api/reports.php:66-75 | every run of capital letters is the letters of the column it decodes to, so letters and columns are in one-to-one correspondence |
| ReportExcel.ColumnLettersInjective | api/reports.php:66-75 | distinct columns get distinct letters |
| ReportExcel.ColumnLetterExamples | api/reports.php:66-75 | 1→A, 26→Z, 27→AA, 52→AZ, 702→ZZ, 703→AAA |
| ReportExcel.ColumnLetters | api/reports.php:66-75 | letters are all in 'A'..'Z', and there are none exactly for a column ≤ 0 |
| ReportExcel.LetterStep | api/reports.php:70-72 | one loop step: intval of the division equals (column-1) div 26 and strictly decreases, and it peels off the last letter |
| ReportExcel.IntegerCell | api/reports.php:480-482 | a canonical in-range integer string becomes the integer it spells, and printing that integer gives the string back |
| ReportExcel.CellCoercionCases | api/reports.php:480-487 | a non-numeric string is written trimmed; a string becomes an integer only when it is canonical and round-trips |
| ReportExcel.IntValueBecomesFloat | api/reports.php:480-484 | an integer value takes the float branch, since `(string)(int)$val === $val` never holds for an int |
| ReportExcel.OtherValuesUnchanged | api/reports.php:479-488 | null and booleans are written as they are |
| ReportExcel.WorkbookFilename | api/reports.php:430-431 | the file name always ends in ".xlsx" |
| ReportExcel.FilenameDeterminesRequest | api/reports.php:430-431 | for one title and eight-digit stamps, the file name determines the date stamp and the request id |
| ReportFilters.FilterActive | api/reports.php:78-241 | a text filter runs iff its trimmed text is neither '' nor '0'; any other filter runs iff its parameter is truthy |
| ReportFilters.OperatorChoice | api/reports.php:80-242 | the operator is the inverted one iff the logic parameter is exactly the filter's own code ('no' for loans); any other value keeps the default |
| ReportFilters.TextPattern | api/reports.php:97-247 | each placeholder of a text filter is bound to '%' + the trimmed text with '%' doubled + '%'; the pattern determines the text (a property of the doubling, not an escape LIKE undoes) |
| ReportFilters.LikePattern | api/reports.php:105 | the pattern is wrapped in '%' and is at least two characters longer than the text |
| ReportFilters.IntersectSpec | api/reports.php:270 | an element is kept iff it is in the first set and in every other set |
| ReportFilters.Results | api/reports.php:83-127 | each filter pushes the item IDs its query selects, one set per query in filter order |
| ReportFilters.IntersectNothing | api/reports.php:270 | intersecting the item list with no sets keeps the item list |
| ReportFilters.Queries | api/reports.php:256-268 | there is at most one query per filter |
| ReportFilters.QueriesEmpty | api/reports.php:256-268 | there are no queries iff no filter is active |
| ReportFilters.SelectedItemsSpec | api/reports.php:253-274 | the selected IDs are ascending, occur no more often than in the item list, and are exactly the items that every active filter returns |
| ReportFilters.NoFiltersSelectsAll | api/reports.php:255-271 | with no active filter every item is selected |
| ReportFilters.EmptyParametersNoFilters | api/reports.php:77-250 | an empty parameter map activates no filter |
| Reports.ApplyFilters | api/reports.php:253-274 | the pushed sets, intersected and sorted, are the specified selection |
| Reports.CollectSets | api/reports.php:255-268 | the filter loop yields the item list followed by one result set per active filter, in filter order |
| Reports.PushedSetsStep | api/reports.php:77-250 | running one more filter pushes its query's set exactly when the filter is active |
| Reports.ResultsSnoc | api/reports.php:77-250 | one more filter adds its query's result set, if it has a query |
| Reports.AssembleValues | api/reports.php:284-426 | the column loop and the row ordering give the specified report rows |
| Reports.WriteExcel | api/reports.php:429-503 | the workbook has the file name, the title in A1 merged up to the last column's letters, the header, and every value coerced in place |
| Reports.Report.Load | api/reports.php:25-32 | the fields hold the stored parameters, the title, the format defaulting to 'html', the column names, the selected IDs and the rows |
| Reports.Report.Get | api/reports.php:25-50 | the fields as after loading; only the exact format 'excel' writes a workbook, any other returns a success table, so a request without a format gets a table |
| Reports.ColumnStrategy | api/reports.php:295-410 | the switch on the column type computes the specified values of that column |
| Reports.AppendValues | api/reports.php:412-414 | every row gets the column's value at its index appended, null when the column is short |
| Reports.CoerceRow | api/reports.php:479-489 | each value of a row is coerced in order |
| Reports.CoercedRows | api/reports.php:477-491 | rows and columns keep their positions and every cell is the coerced value |
| Reports.ColumnNames | api/reports.php:30 | the requested column names, one per list entry |
| Reports.QueriesSnoc | api/reports.php:256-268 | adding a filter appends its query, if any, to the queries |
| ReportColumns.KeyColumnSpec | api/reports.php:297-302 | the key column holds exactly the formatted IDs, one per ID, ordered by the key order when that order is a total preorder |
| ReportColumns.DirectValues | api/reports.php:304-316 | without a format the values are unchanged; with one, falsy values become '' and the others are formatted |
| ReportColumns.PersonValues | api/reports.php:318-338 | one display string per returned person row, in order |
| ReportColumns.PersonDisplaySpec | api/reports.php:327-336 | the trimmed last name, then ", first" and " (dates)" only when those are neither '' nor '0' after trimming |
| ReportColumns.GroupedSpec | api/reports.php:347-359 | the fetch loop's map has an entry for an ID iff it has a truthy value, and the entry lists those values in query order |
| ReportColumns.MultipleValuesSpec | api/reports.php:340-373 | each ID's truthy values are joined with "; " in query order, and the cell is '' iff the ID has none |
| ReportColumns.CollectMultiple | api/reports.php:340-373 | the two loops of the multiple strategy compute the specified column |
| ReportColumns.ValuesFor | api/reports.php:355-359 | no collected value is '' or '0' |
| ReportColumns.ValuesForSnoc | api/reports.php:355-359 | a fetched pair adds its value to its ID's list iff it is that ID and the value is truthy |
| ReportColumns.AppendColumn | api/reports.php:412-414 | each row is extended by one value at its own index, or null |
| ReportColumns.FillSpec | api/reports.php:291-415 | there is one row per selected ID; row i has one value per column, in column order, holding the i-th value of that column's output |
| ReportColumns.Fill | api/reports.php:291-415 | the table has one row per selected ID |
| ReportColumns.RowLeTotalPreorder | api/reports.php:416-420 | the case-insensitive row comparison is total and transitive, whatever the transliteration |
| ReportColumns.OrderRowsSpec | api/reports.php:416-423 | the ordered rows are a permutation of the input, ascending by case-insensitive row text with equal rows in input order; for exactly 'reversed' the reverse of that list, descending with equal rows in reverse input order |
| ReportColumns.EquivalentsReverse | api/reports.php:421-423 | reversing reverses the order among equally ranked rows |
| ReportColumns.ReportRowsShape | api/reports.php:284-426 | one row per selected ID, each with exactly one value per requested column |
| ReportColumns.Reverse | api/reports.php:421-423 | element i of the result is element n-1-i of the input |
| ReportColumns.ReversePermutes | api/reports.php:421-423 | reversing keeps the rows' multiset |
| Sorting.SortBySorted | api/reports.php:416-420 | sorting by a total preorder gives an ordered sequence |
| Sorting.SortByPermutes | api/reports.php:416-420 | sorting keeps exactly the input elements |
| Sorting.SortBy | api/reports.php:416-420 | the sorted sequence has the input's length |
| Sorting.InsertSorted | api/reports.php:416-420 | inserting into an ordered sequence keeps it ordered |
| Sorting.InsertPermutes | api/reports.php:416-420 | inserting adds exactly the new element to the multiset |
| Sorting.SortByStable | api/reports.php:416-420 | the sort is stable, as PHP 8's usort is: the elements ranked equal to any x come out in their input order |
| Sorting.InsertStable | api/reports.php:416-420 | inserting an element does not move it past an element ranked equal to it |
| Sorting.EquivalentsAppend | api/reports.php:416-420 | the equally ranked elements of a concatenation are those of each part, in order |
| Names.FullName | api/reports.php:327-336 | the name starts with the last name and ends with " (dates)" when dates are shown |
| Names.FullNameParts | api/reports.php:327-336 | the first name follows ", " after the last name, the dates sit in the final parentheses, and nothing is added for a part not shown |
| Names.FullNameShownAlike | api/reports.php:327-336 | two rules for showing a part that agree on the first name and dates give the same name |
| Tables.MakePersonSearchKey | api/tables.php:315-331 | the successive appends build the specified search key from the trimmed parts |
| Tables.SearchKeyVersusName | api/tables.php:315-331 | with a last name, the key equals the displayed name except for two spaces before the dates |
| Tables.SearchKeyWithoutLastName | api/tables.php:315-331 | without a last name the key starts at the first name, or at " (" when there are only dates |
| Tables.SearchKeyExample | api/tables.php:315-331 | Bach, Johann Sebastian, 1685-1750 gives "Bach, Johann Sebastian  (1685-1750)" |
| Tables.InsertedColumns | api/tables.php:111-117 | a configured column is inserted iff its value is truthy or exactly "0", in configuration order |
| Tables.CollectInsert | api/tables.php:108-118 | the loop yields the inserted columns with one '?' each and the request value of each |
| Tables.BuildInsert | api/tables.php:107-127 | equal-length columns, placeholders ('?') and values; the inserted columns keep their request values; a person adds SearchKey as last column and returns it as the display value, any other record returns its trimmed display field |
| Tables.Post | api/tables.php:100-128 | the errors for an unknown record type or missing configuration; exactly when both are present, the INSERT that BuildInsert describes |
| Tables.Assignments | api/tables.php:180-183 | one "column = ?" per configured column, in order |
| Tables.AssignedValues | api/tables.php:180-183 | each configured column's request value, null when missing |
| Tables.CollectAssignments | api/tables.php:180-183 | the loop builds exactly those assignments and values |
| Tables.BuildUpdate | api/tables.php:171-184 | every configured column is assigned "column = ?" with its request value, null when missing, in order; a person's SearchKey assignment and key come first; the record id is the last value |
| Tables.Put | api/tables.php:160-186 | the three error cases in order; exactly when type, id and configuration are present, the UPDATE that BuildUpdate describes |
| Tables.Payload | api/tables.php:254-282 | the picklist loops give one entry per row, in row order |
| Tables.List | api/tables.php:216-312 | plain picklists are the query rows; a tag shows as "Group: Tag" from trimmed parts; a person shows as Last[, First][ (Dates)]; any other type is a 400 failure |
| Tables.PersonListExample | api/tables.php:284-292 | the picklist name is not trimmed |
| Items.PluralName | api/items.php:66 | the plural ends in 's', is longer than the name, and starts with it except for Inventory |
| Items.Ascii | api/items.php:326 | the conversion maps each character separately and keeps the length |
| Items.MultiplesPlurals | api/items.php:65-66 | the four multiples give Performances, Inventories, Parts, Loans, all distinct |
| Items.MakeItemSortKeys | api/items.php:307-338 | exactly three keys: title/last/first/row id, composer key/title/row id and arranger key/title/row id, with '' for a missing composer or arranger |
| Items.SortKeyParts | api/items.php:325-336 | splitting a sort key at its tabs gives back the converted fields and the six-digit row id, which reads as the id |
| Items.SortKeysOfRowsDiffer | api/items.php:325-336 | keys of different rows differ |
| Items.SortKeysWithoutPeople | api/items.php:323-334 | with no composer and no arranger the keys start with the title, '', '' and '', '' respectively |
| Items.AsciiJoin | api/items.php:326 | converting a tab-joined key converts each field |
| Items.SuppliedColumns | api/items.php:93-102 | a configured column is added iff its request value or default is set, in configuration order |
| Items.Names | api/items.php:99 | the column names in order |
| Items.ColumnValues | api/items.php:95-100 | each column's request value or default, in order |
| Items.SuppliedValuesSet | api/items.php:96-97 | no added value is null |
| Items.SuppliedColumnsOrdered | api/items.php:93-102 | added columns keep their configuration order |
| Items.CollectSupplied | api/items.php:93-102 | the loop yields the supplied columns, their values and one '?' each |
| Items.Post | api/items.php:84-102 | the five fixed columns come first, then the supplied ones, with equal-length columns, placeholders and values |
| Items.Put | api/items.php:133-147 | "Missing record ID" iff the id is falsy; otherwise DateModified and ModifiedBy, then every configured column, then the record id |
| Items.AppliesIffNonEmpty | api/items.php:256-262 | a trimmed term applies iff it is '0' or truthy, which is iff it is non-empty |
| Items.ConditionsBindings | api/items.php:255-266 | two bindings per condition; no conditions iff both terms are empty; each applying term adds its condition and its pattern twice |
| Items.SearchConditions | api/items.php:255-266 | the conditions and values built step by step match the specification |
| Items.AddCondition | api/items.php:256-265 | a condition and two patterns are appended iff the term is non-empty |
| Items.UnpagedWithoutParameters | api/items.php:293-300 | no limit and no offset give no paging clause |
| Items.Paging | api/items.php:293-300 | LIMIT and OFFSET are appended only for non-zero integers |
| Items.List | api/items.php:248-304 | the conditions, values and paging of the list query; there is no WHERE iff there are no conditions, otherwise they are joined with AND |
| Print.LoadMultipleValues | api/print.php:51-62 | the joined value is '' iff there are no values or a single empty one |
| Print.JoinEmpty | api/print.php:61 | a '; '-join is empty iff there is nothing to join or only one empty value |
| Print.MultipleValuesRoundTrip | api/print.php:61 | splitting the joined value at "; " gives the values back when none contains "; " |
| Print.LoadSingleValue | api/print.php:64-81 | an empty value or picklist is returned unchanged; a one-column lookup returns the looked-up value; a person lookup starts with the trimmed last name and ends with the dates when there are any |
| Print.PersonLookupAsInReports | api/print.php:72-80 | the person lookup renders exactly as the report's person column does |
| Print.FieldEntrySpec | api/print.php:96-109 | a field contributes one entry iff its value is non-empty, 0 or '0', captioned by the field, with IsCollection shown as Yes for 'Y' and No otherwise |
| Print.FieldEntriesAppend | api/print.php:94-111 | the entries of two runs of fields are those of each run, in order |
| Print.FieldEntries | api/print.php:94-111 | at most one entry per field |
| Print.FieldEntriesMembers | api/print.php:94-111 | every entry comes from one of the fields |
| Print.RecordBlocks | api/print.php:92-114 | at most one block per record, each with the block title and at least one value |
| Print.RecordBlocksPrefix | api/print.php:92-114 | the next record adds one block iff it shows some value |
| Print.AllBlocksPrefix | api/print.php:84-116 | the next fieldset appends its blocks |
| Print.SingleFieldsetBlock | api/print.php:88-113 | a single fieldset gives one block titled with its name, or none when nothing shows |
| Print.BlocksShowSomething | api/print.php:84-116 | every block has a value and a title of one of the fieldsets |
| Print.AddRowEntries | api/print.php:95-110 | the inner loop appends exactly the row's entries |
| Print.RecordValues | api/print.php:93-111 | the row loops collect the entries of all the fieldset's fields |
| Print.CollectBlocks | api/print.php:92-114 | the record loop emits the specified blocks |
| Print.CollectAllBlocks | api/print.php:84-116 | the fieldset loop emits the blocks of all fieldsets in order |
| Print.Job.LoadBlocks | api/print.php:83-116 | the blocks field is extended by all fieldsets' blocks and nothing else changes |
| Print.Job.Response | api/print.php:24-31 | success, the trimmed item title, the id and the blocks |
| Utilities.GetRequestUri | api/utilities.php:234-240 | a URI is served iff it starts with /library/api, otherwise 'unsupported URI' |
| Utilities.LoadPathSegments | api/utilities.php:254-257 | at least one segment, none containing '/' |
| Utilities.PathSegmentsRoundTrip | api/utilities.php:254-257 | a path of non-empty parts free of '/' and '?', with or without a query string, splits back into the parts |
| Utilities.Endpoint | api/utilities.php:52 | segment 2, or null for a shorter path |
| Utilities.RecordId | api/utilities.php:53 | segment 3, or null for a shorter path |
| Utilities.ParseRequest | api/utilities.php:48-54 | rejected iff the URI is outside the API; otherwise the segments, endpoint, record id and configured record type |
| Utilities.ApiRequest | api/utilities.php:48-54 | /library/api/endpoint/id?query parses to that endpoint and id |
| Utilities.ApiSegments | api/utilities.php:254-257 | /library/api/endpoint/id with a query tail splits into library, api, the endpoint and the id |
| Utilities.CollectionSegments | api/utilities.php:254-257 | /library/api/endpoint with a query tail splits into library, api and the endpoint |
| Utilities.ApiCollectionRequest | api/utilities.php:48-54 | /library/api/endpoint?query parses to that endpoint with no record id |
| Utilities.ResolveUser | api/utilities.php:267-331 | the init user before any account exists; the anonymous user without a live session; an active user only for a live session of an Active account |
| Utilities.User.constructor | api/utilities.php:267-331 | the fields set step by step equal the resolved identity |
| Utilities.SessionUpdate | api/utilities.php:293-304 | a stale session is closed iff it is open and older than two days; a live one is touched with the current time |
| Utilities.SessionLifetimeBoundary | api/utilities.php:295 | idle exactly 172800 s is live, one second more has expired |
| Utilities.AccountFlags | api/utilities.php:315-320 | readonly unless exactly 0, admin only for exactly 1, active only for 'Active' |
| Utilities.VerifyNotReadonly | api/utilities.php:191-207 | allowed iff named, active and writable; otherwise 401 'Not logged in', then 403 'Account closed', then 403 'Action forbidden', in that order |
| Utilities.VerifyIsAdmin | api/utilities.php:183-188 | allowed iff admin, otherwise 403 'Action forbidden' |
| Utilities.OnlyLiveWritersChange | api/utilities.php:191-323 | once accounts exist, passing the check needs a live session of an Active, writable, named account |
| Utilities.DefaultIdentities | api/utilities.php:269-282 | the anonymous user is refused as not logged in; the init user is an administrator but is refused as read-only |
| Utilities.Logout | api/utilities.php:71-85 | the 'Not logged in' warning iff there is no session id |
| Users.PostValues | api/users.php:47-57 | eight values: missing text fields are null, admin is 1 iff exactly true, readonly is 0 iff exactly false, and the hash is present iff the password is truthy |
| Users.PutValues | api/users.php:94-105 | "Missing record ID" iff the id is falsy; otherwise the flags by truthiness and the record id last |
| Users.PostPutAgreeOnBooleans | api/users.php:53-102 | with boolean flags post and put store the same first seven values |
| Users.MissingFlags | api/users.php:53-102 | missing flags: post stores admin 0 and readonly 1, put stores 0 and 0 |
| Users.StringFlagsDiffer | api/users.php:53-101 | a string "1" for admin is 0 in post but 1 in put |
| Validation.ValueEmptySpec | src/utils.js:28-34 | empty iff null/undefined or a whitespace-only string; numbers and booleans are never empty |
| Validation.EmailCheckIff | src/utils.js:21-26 | the email check holds iff the text is non-space/non-@ characters, '@', the same, '.', the same |
| Validation.ValidateField | src/utils.js:36-46 | "required" is checked before the type; no message iff it passes both; a non-required falsy value always passes |
| Validation.InstanceErrorsEmpty | src/utils.js:63-71 | no instance errors iff every instance passes |
| Validation.InstanceErrorAt | src/utils.js:63-71 | a failing instance j has its message under "fieldset__j__name" |
| Validation.InstanceErrorKeys | src/utils.js:68 | every instance error key is a nested name of the field |
| Validation.IndicesNameDiffer | src/utils.js:68 | instances at different indices report their errors under different names |
| Validation.FormErrorsEmpty | src/utils.js:59-86 | the error map is empty iff every field passes |
| Validation.FieldErrorsEmpty | src/utils.js:60-85 | one field adds no errors iff it passes: its instances, the report columns, or its own value |
| Validation.AddInstanceErrors | src/utils.js:63-71 | the instance loop adds exactly the instance errors |
| Validation.AddFieldErrors | src/utils.js:60-85 | one field's step adds exactly its errors |
| Validation.ValidateForm | src/utils.js:58-137 | the errors are the error map; the result is true iff the map is empty, iff every field passes |
| ResultsDisplay.NextPage | src/ResultsDisplay.jsx:18 | stays within [1, pages] and advances by one below the last page |
| ResultsDisplay.PrevPage | src/ResultsDisplay.jsx:19 | never below 1 and goes back by one above the first page |
| ResultsDisplay.NextPrevInverse | src/ResultsDisplay.jsx:18-19 | next and prev undo each other inside the range and stick at the ends |
| ResultsDisplay.Links | src/ResultsDisplay.jsx:26-60 | one link per page from first to last, active only for the current page |
| ResultsDisplay.WindowSpec | src/ResultsDisplay.jsx:38-49 | the window has five pages within [1, pages] and contains the current page |
| ResultsDisplay.GeneratePageItems | src/ResultsDisplay.jsx:22-80 | the pushes and unshifts give the specified page items |
| ResultsDisplay.FewPages | src/ResultsDisplay.jsx:25-36 | with five pages or fewer the items are exactly pages 1..pages |
| ResultsDisplay.ManyPages | src/ResultsDisplay.jsx:37-77 | 1 and an ellipsis lead iff the window starts after 1; an ellipsis and the last page trail iff it ends before the last page |
| ResultsDisplay.CurrentPageShown | src/ResultsDisplay.jsx:22-80 | the current page always appears as the active link |
| ResultsDisplay.OnlyCurrentActive | src/ResultsDisplay.jsx:30-54 | no other page is active |
| ResultsDisplay.FormatNameEmpty | src/ResultsDisplay.jsx:83-95 | the name is blank iff all three trimmed parts are |
| ResultsDisplay.FormatNameAsInReports | src/ResultsDisplay.jsx:83-95 | for string parts trimmed alike and not '0', the name equals the report's person display |
| ResultsDisplay.TitleCell | src/ResultsDisplay.jsx:98-115 | a blank title becomes '[No Title]'; a non-blank other title gives an "a.k.a." hover and no suffix; otherwise ' (collection)' appears for IsCollection 'Y' |
| ResultsDisplay.ComposerCell | src/ResultsDisplay.jsx:125-135 | the composer when there is one, with an arranger hover; "arr. X" for an arranger only; the placeholder when there is neither |
| ResultsDisplay.DeleteClasses | src/ResultsDisplay.jsx:137-141 | the delete button is invisible iff used_by > 0 |
| SearchForm.HandleChange | src/SearchForm.jsx:34-40 | only the named key changes |
| SearchForm.Submit | src/SearchForm.jsx:43-54 | the filters are forwarded unchanged iff some string value trims to three or more UTF-16 code units |
| SearchForm.ParentFilters | src/SearchForm.jsx:48-53 | a short submit leaves the parent's filters as they were |
| SearchForm.BlankFiltersTooShort | src/SearchForm.jsx:26-31 | a form whose every field is the empty string cannot be submitted |
| SearchForm.InitialFiltersTooShort | src/SearchForm.jsx:12-15 | the initial empty filters cannot be submitted |
| SearchForm.ChangeEnablesSubmit | src/SearchForm.jsx:34-50 | typing a long enough value enables the submit |
| SearchForm.ChangeKeepsOtherFilter | src/SearchForm.jsx:34-50 | changing another key keeps an existing filter |
| SearchForm.BlankIsNotAFilter | src/SearchForm.jsx:45-47 | a blank string is never long enough |
| SearchForm.PairLength | src/SearchForm.jsx:45-47 | two non-space characters beyond U+FFFF are long enough (four code units); two of the Basic Multilingual Plane are not |
| SearchForm.TrimmedPair | src/SearchForm.jsx:45-47 | two non-space characters are their own trim |
| Catalog.PageCount | src/Catalog.jsx:154 | the page count is the ceiling of total/10, so 10·(pages-1) < total ≤ 10·pages |
| Catalog.CeilDiv | src/Catalog.jsx:154 | the ceiling of a/b: b·(r-1) < a ≤ b·r |
| Catalog.PagingParams | src/Catalog.jsx:34-40 | limit 10 always, offset 10·(page-1) only after the first page, debug only when debugging |
| Catalog.TrimmedFilters | src/Catalog.jsx:30-33 | one parameter per filter key, holding the trimmed text of the filter |
| Catalog.FetchParams | src/Catalog.jsx:24-41 | no request iff no filter is long enough; otherwise the page parameters |
| Catalog.PageParamsSpec | src/Catalog.jsx:29-40 | every filter key plus limit 10, offset 10·(page-1) only for page > 1, and debug only when debugging |
| Catalog.FilterSentTrimmed | src/Catalog.jsx:30-33 | each filter is sent trimmed |
| Catalog.PageQueryPaged | src/Catalog.jsx:34-37 | the API's list query for these parameters is LIMIT 10, with OFFSET 10·(page-1) only after the first page |
| Catalog.DeleteOutcome | src/Catalog.jsx:104-111 | the page moves back iff it is past the new page count, otherwise records are refetched |
| Catalog.DeleteEmptiesLastPage | src/Catalog.jsx:104-111 | deleting the only record of the last page goes back one page |
| Catalog.DeleteOnlyRecord | src/Catalog.jsx:104-111 | deleting the last record of all sets the page to 0 |
| Catalog.SaveItem | src/Catalog.jsx:52-56 | PUT iff the record has an ItemID |
| Catalog.SavedItemRouted | src/Catalog.jsx:52-56 | the PUT URI parses on the server to the music endpoint and that item id |
| FrontRequests.SaveRequestFor | src/Account.jsx:31-38 | PUT iff the id is truthy, to a URI under the endpoint |
| FrontRequests.Debug | src/Account.jsx:34 | the debug suffix is always a well-formed query tail for the server's path parser |
| FrontRequests.NumericIdPathPart | src/Catalog.jsx:54 | a positive numeric id is truthy and prints as one path segment |
| FrontRequests.SaveUri | src/Account.jsx:33-35 | the URI is the endpoint, then "/id" only with an id, then the debug query |
| FrontRequests.UpdateRouted | src/Catalog.jsx:53-56 | an update URI parses to the endpoint and the id |
| FrontRequests.CreateRouted | src/Catalog.jsx:53-56 | a create URI parses to the endpoint without a record id |
| Forms.FieldName | src/FormRow.jsx:26-28 | the plain name outside a fieldset, otherwise the nested name |
| Forms.NestedNameRoundTrip | src/FormRow.jsx:26-28 | splitting a nested name at "__" gives the fieldset, the index and the name back |
| Forms.NestedNamesDistinct | src/FormRow.jsx:26-28 | different instances or fields get different names |
| EditForm.HandleChange | src/EditForm.jsx:70-90 | a name of three "__" parts changes one instance field and fails without such an instance; any other name sets the top-level key |
| EditForm.TopValue | src/EditForm.jsx:82-84 | IsCollection stores "Y" iff checked and "N" iff unchecked; other controls store their value |
| EditForm.InstanceAt | src/EditForm.jsx:75-78 | a position is found only when it is an index of an existing instance object |
| EditForm.SetInstanceField | src/EditForm.jsx:73-80 | only the fieldset's entry changes, and it stays a list |
| EditForm.NestedChangeRoundTrip | src/EditForm.jsx:73-78 | a change through a generated field name updates exactly that field of that instance |
| EditForm.CollectionCheckboxRoundTrip | src/EditForm.jsx:82-84 | after a change the IsCollection checkbox shows checked iff it was ticked |
| EditForm.AddNewInstance | src/EditForm.jsx:136-143 | the instances with {newInstance: true} appended, starting from [] when absent |
| EditForm.Without | src/EditForm.jsx:200-201 | index i is removed and the rest keep their order |
| EditForm.TakeOutTrash | src/EditForm.jsx:197-208 | only the instance list changes, losing exactly index i |
| EditForm.TrashUndoesAdd | src/EditForm.jsx:197-208 | removing (takeOutTrash) the instance just added by addNewInstance (lines 136-143) restores the form data |
| EditForm.MakeLegendLabel | src/EditForm.jsx:146-178 | a fieldset other than the four labelled ones gets the "incomplete" legend |
| EditForm.LegendLabelSpec | src/EditForm.jsx:146-178 | the year and subject for dated performances and inventories, the part or recipient when named, "New X" without a LibraryItem, else the fallback |
| EditForm.NewInstanceLabel | src/EditForm.jsx:136-178 | a newly added instance is labelled "New X" |
| EditForm.DatedLabel | src/EditForm.jsx:149-159 | the label starts with the first four characters of the date |
| EditForm.Year | src/EditForm.jsx:149-151 | the first four characters of the date, or all of a shorter one |
| EditForm.TaggedRows | src/EditForm.jsx:96-103 | each field of a multiple fieldset is tagged with the fieldset name |
| EditForm.TaggedFields | src/EditForm.jsx:94-105 | one field per configured field, names unchanged |
| EditForm.CollectFields | src/EditForm.jsx:94-105 | the nested loops build the tagged fields |
| EditForm.AddTaggedRows | src/EditForm.jsx:96-104 | the rows loop appends every row's fields, tagged, in order |
| EditForm.AddTaggedRow | src/EditForm.jsx:97-103 | the fields loop appends each field of the row, tagged with the fieldset name when it is repeated |
| EditForm.RepeatedFieldsTagged | src/EditForm.jsx:98-102 | every field of a multiple fieldset is validated as part of that fieldset |
| EditForm.SaveItem | src/EditForm.jsx:93-111 | the form data is saved unchanged iff every tagged field passes |
| ReportForm.DefaultsSpec | src/Reports.jsx:15-30 | a field starts with its selected value when it has one, even ''; otherwise with its truthy default; its "-logic" key starts with the logic's selected operator |
| ReportForm.DefaultEntries | src/Reports.jsx:18-27 | a field sets only its own key and its "-logic" companion |
| ReportForm.LogicNamesDiffer | src/Reports.jsx:25-27 | different fields have different "-logic" companions |
| ReportForm.AccumulateAt | src/Reports.jsx:16-30 | with separate keys each key holds the entry of the field owning it |
| ReportForm.AccumulateAppend | src/Reports.jsx:16-30 | visiting two runs of fields applies the second's entries over the first's |
| ReportForm.AccumulateKeys | src/Reports.jsx:16-30 | every key comes from some field |
| ReportForm.CollectEntries | src/Reports.jsx:16-30 | the nested loops build the accumulated map (the defaults loop here, and the same fold over the request parameters at lines 104-119) |
| ReportForm.AddFieldset | src/Reports.jsx:17-29 | one fieldset's rows add their entries in order |
| ReportForm.AddRow | src/Reports.jsx:18-28 | one row's fields add their entries in order |
| ReportForm.ParmsSpec | src/Reports.jsx:103-119 | report-columns is always the ordered column list; any other field is sent iff its value is truthy, 0 or '0', and its "-logic" companion only with it |
| ReportForm.ParmEntries | src/Reports.jsx:107-117 | a field sends only its own key and its "-logic" companion |
| ReportForm.ParmsKeys | src/Reports.jsx:103-119 | every parameter is a field name or its "-logic" companion |
| ReportForm.ColumnList | src/Reports.jsx:108-109 | the column names in order |
| ReportForm.SubmitRequest | src/Reports.jsx:94-119 | a request is made iff the form has no validation errors, carrying the user and the parameters |
| ReportForm.NoColumnsNoRequest | src/Reports.jsx:98-101 | with a report-columns field and no column chosen, no request is made |
| ReportForm.AfterSubmit | src/Reports.jsx:132-159 | the workbook is downloaded from the API iff the format is 'excel'; otherwise the report page is opened |
| ReportForm.DownloadRouted | src/Reports.jsx:133-134 | the download URL parses to the report endpoint and the request id |
| ReportForm.DownloadUrl | src/Reports.jsx:133-134 | an excel report downloads from the report endpoint's URI for the request id |
| ReportForm.ReportsScreen.constructor | src/Reports.jsx:15-32 | the form starts at the defaults and the default columns |
| ReportForm.ReportsScreen.OnChange | src/Reports.jsx:84-90 | only the named key changes |
| ReportForm.ReportsScreen.OnClear | src/Reports.jsx:78-82 | the defaults and the default columns are restored |
| ReportForm.ReportsScreen.SetColumns | src/Reports.jsx:281 | the chosen columns replace the selected ones |
| FormRow.SelectedMembers | src/FormRow.jsx:18 | the filter keeps exactly the options whose id is among the ids |
| FormRow.SelectedAppend | src/FormRow.jsx:18 | filtering keeps picklist order |
| FormRow.TypeaheadDefault | src/FormRow.jsx:13-19 | none for a falsy value; otherwise the options whose id is the value or one of its ids |
| FormRow.TypeaheadValue | src/FormRow.jsx:97-104 | all ids for Tags and Keywords, otherwise the first id or null |
| FormRow.Ids | src/FormRow.jsx:100-103 | the ids of the selected options, in order |
| FormRow.MultiSelectionRoundTrip | src/FormRow.jsx:97-104 | storing a multi-valued selection makes getTypeaheadDefault (lines 13-19) preselect exactly the chosen options |
| FormRow.SingleSelectionRoundTrip | src/FormRow.jsx:97-104 | storing a single selection makes getTypeaheadDefault (lines 13-19) preselect exactly that option |
| FormRow.ColumnWidth | src/FormRow.jsx:30 | 6 for a row of two fields, otherwise 12: the row fills the twelve columns |
| Account.MakeTitle | src/Account.jsx:54-68 | the title as written, including an empty name for an account that has only a login name |
| Account.IntendedTitle | src/Account.jsx:54-68 | the same title with the login name used when there is no full name |
| Account.IntendedTitleNamesAccount | src/Account.jsx:61-67 | an existing account's title names it by its full name, else by its login name, and ends in a name iff it has one |
| Account.TitlesDifferOnlyWithoutFullName | src/Account.jsx:64-66 | the two titles differ exactly for an account with a login name and no full name, where the written one names nobody |
| Account.LoginNameOnlyTitle | src/Account.jsx:64-66 | an existing account with a login name and an empty full name is titled exactly "Editing Account For ", while the intended title appends the login name |
| Account.HandleChange | src/Account.jsx:17-23 | a checkbox stores its checked state as a boolean, any other control its value, and nothing else changes |
| Account.CheckboxFlagsStored | src/Account.jsx:17-23 | the stored booleans make the API set admin and readonly exactly when ticked |
| Account.HandleSave | src/Account.jsx:25-52 | a request only without validation errors; PUT iff there is an account id, to a URI under /library/api/account |
| Values.TruthinessAgreement | src/Reports.jsx:110 | PHP and JS truthiness disagree on scalars only for '0' |
| Text.PercentRoundTrip | api/reports.php:105 | doubling every '%' is injective: reading pairs back gives the string (LIKE itself reads "%%" as two wildcards) |
| Text.Utf16Length | src/SearchForm.jsx:45-47 | `.length` counts between one and two code units per character |
| Text.Utf16LengthBmp | src/SearchForm.jsx:45-47 | on the Basic Multilingual Plane `.length` is the number of characters |
| Text.PercentCount | api/reports.php:105 | after doubling every '%' comes in pairs |
| Text.Pad6Spec | api/items.php:325 | `%06d` is at least six digits and reads back as the number |
| Text.Pad6 | api/items.php:325 | `%06d` prints only digits |
| Text.JoinSplit | api/utilities.php:256 | joining split parts gives the string back |
| Text.SplitJoin | api/print.php:61 | splitting joined parts free of the separator gives the parts back |
| Text.LexLeTotal | api/reports.php:419 | the byte-wise order is total |
| Text.LexLeTransitive | api/reports.php:419 | the byte-wise order is transitive |
| Text.TrimIdempotent | api/tables.php:316-318 | trimming twice is trimming once |

## Left out

- SQL text, PDO and `Session::select`: each query's result is an input of the model (a function from the query's description to its rows). The temporary tables of the lookup, inventory and last-performance columns are part of those queries.
- ReportColumns.ColumnValues: for lookup, inventory and last-performance columns the model takes the query's values as given and assumes one value per selected ID, as the code does.
- `sprintf` with a configured format, PHP 8's `sort()` on formatted key strings, and `iconv`'s transliteration are function parameters. `strcasecmp` is modelled as ASCII case folding followed by a byte-wise comparison.
- Reports.WriteExcel: PhpSpreadsheet styling, column widths, the frozen pane, HTTP headers, streaming and `exit()` are not modelled. Neither is the float branch of the coercion; the model records which value would become a float.
- ReportExcel.WorkbookFilename: the report id is an integer, where the source interpolates the record id string from the path, so a path id such as "007" is printed as 7.
- Print.FieldEntrySpec and Print.FieldEntry: values have no float, so the `$val === 0.0` inclusion and the two-decimal `number_format` of a float LatestPrice are not modelled.
- ReportFilters.ListArguments: a truthy scalar given to a list filter (arrangement, keywords, owner, season, tags) is bound as a one-element list. The source calls `count()` on it, which throws in PHP 8 and fails the request. The report form always sends lists.
- Reports.Report.Get: the elapsed-time update from `microtime` and `load_parameters`' JSON decoding are not modelled; the stored parameters are an input.
- Items: `finish_item_save`'s link and sub-record inserts and the delete statements are database writes over configuration; only the sort keys they store are modelled. `mb_convert_encoding` is a per-character map to ASCII.
- Items.Put, Tables.Put and Users.PutValues: `die()` is modelled as an error result. A table configuration is a record with its fields, so the falsy empty configuration array is not modelled.
- Utilities: `password_hash`, cookies, `time()`, the configuration and secret files, and the PDO connection are left out. The clock is a parameter.
- Utilities.User.constructor: the login-name logging for POST /session is output only.
- EditForm.Year: `substring(0, 4)` counts UTF-16 code units and the model counts characters; the two agree on dates without characters beyond U+FFFF.
- Validation: the URL and phone regular expressions are abstract predicates that accept empty input. The DOM part of `validateForm` (focus, legend clicks) is left out.
- Validation.FormErrors: `cols` defaults to `null` in `validateForm`, and a report-columns field without columns would throw. The model passes `[]` for the forms that have no such field.
- EditForm.HandleChange: React state is a value, so the in-place write through the shallow copy `newState[fieldset][position][fieldname]` is modelled as building a new record; the aliasing of the nested instance with the previous state is not captured. A name with three parts that does not address an instance object is an error result, where the browser would throw.
- EditForm.AddNewInstance: spreading a truthy non-array value (a string, say) is outside the model; the requires limits it to absent, falsy or array values.
- ReportForm: `JSON.stringify` drops a `-logic` companion whose value is undefined. The model keeps it as null.
- FrontRequests and ReportForm.AfterSubmit: `fetch`, downloads, toasts and `window.open` are left out; only the method and URL are modelled.
- Catalog.PageQueryPaged: the API's `(int)` cast is a parameter. The lemma assumes only that it reads "10", "0" and the offset's digits as those numbers.
- Rendering of every React component is left out.

## Findings

| source | as written | input that shows it | evidently intended | confidence | as-written member | corrected member |
|---|---|---|---|---|---|---|
| src/Account.jsx:64-66 | an account with a login name but no full name is titled `Editing Account For ${fullname}`, which interpolates the empty full name | a signed-in user editing account_id 7 with account_fullname "" and account_name "kline" sees "Editing Account For " | "Editing Account For kline", naming the account by its login name | not executed | Account.LoginNameOnlyTitle | Account.IntendedTitleNamesAccount |
