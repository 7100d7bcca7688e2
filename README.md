# Gate access management screens — a Dafny model

This project models the client-side logic of four screens of a gate access
management web application:

- **History report** (`HistoryReport`). It shows the entry and exit history.
  Rows pass three filters in turn: a period filter (both date bounds set,
  compared as strings), a data-display filter (`entry`, `exit`, `error`;
  anything else keeps every row), and per-column "Excel" clauses, each a list
  of accepted values. The result is shown one 1-based page at a time. Columns
  can be reordered by drag-and-drop, hidden, shown again, or reset to the
  default order.
- **Personnel list**. Persons are filtered by column clauses, sorted by a
  clicked column (ascending, then descending on a second click), paged,
  selected, bulk-deleted or marked as sent, and exported as CSV. Each person's
  gate-permission codes are tallied.
- **Data monitor** (`DataMonitor`). A live buffer of at most 500 access
  events, newest first, is fed by a refresh tick while auto-scroll is on. It
  is filtered by data type and by gate, and drawn as a table of at most 30
  rows. The table's cells and header cells follow the ticked columns.
- **Status monitor** (`StatusMonitor`). It shows 1000 gates in 100 groups of
  ten. A group's status is the worst condition among its gates. A status
  filter selects the gate cards and the group buttons. The card grid's column
  count comes from the container width, and the layout (16, 32 or 64 cards)
  shrinks on small screens.

Each screen's object (or, for the personnel list, its module-level variables)
is a Dafny `class`. Its fields are `seq` and `map` values that the methods
reassign. Every filter is specified by one generic `Seqs.Filter`. The loops of
the source (the filter passes, the push loops that rebuild lists, the row and
cell loops, the group loops) are `while` loops whose invariants tie them to
that specification. The properties are stated as lemmas about the
specification functions, and as the methods' postconditions.

Modules:

- `Seqs`: filtering, subsequences, duplicates, `indexOf`.
- `Text`: JavaScript string `<`, `toLowerCase`, `join`.
- `Paging`: page count, slice, window and label.
- `Records`: rows as maps and the column clauses.
- One module per screen: `HistoryReportView`, `PersonalListView`,
  `DataMonitorView`, `StatusMonitorView`.

## Model

| member | source | states |
|---|---|---|
| HistoryReportView.HistoryReport.constructor | resources/static/js/historyReport.js:6-22 | A new report is on page 1 with 30 rows per page. No Excel clause is set, the display mode is 'all', the columns are in their default order and none is hidden. `filteredData` is already the filter result. |
| HistoryReportView.HistoryReport.ApplyFiltersAndDisplay | resources/static/js/historyReport.js:285-324 | Applies the period stage, the display stage and one pass per non-empty Excel clause. `filteredData` ends up equal to `VisibleRows` of the current filters. The page is not clamped. |
| HistoryReportView.VisibleRowsAreTheMatchingSubsequence | resources/static/js/historyReport.js:285-321 | The shown rows are an order-preserving subsequence of `historyData`. A row is shown iff it passes the period, display and every non-empty Excel clause. |
| HistoryReportView.StagesCompose | resources/static/js/historyReport.js:288-319 | Filtering in three successive stages gives the same list as one filter by the conjunction. |
| Records.FiltersExtend | resources/static/js/historyReport.js:313-319 | Adding one more clause to the clauses already applied adds exactly one conjunct. An empty value list adds none. |
| HistoryReportView.RemovingClauseNeverShrinks | resources/static/js/historyReport.js:313-319 | Deleting a clause never hides a row that was shown, and keeps the order. |
| HistoryReportView.NoneSentinelHidesRows | resources/static/js/historyReport.js:545-547 | With the `__NONE__` clause, only rows whose value is that literal survive. If no row carries it, nothing is shown. |
| HistoryReportView.SetClause | resources/static/js/historyReport.js:545-558 | Zero ticked values store `['__NONE__']`. A ticked count equal to the number of distinct values deletes the clause. Otherwise the clause is exactly the ticked values. Other clauses are untouched. |
| HistoryReportView.ColumnValues | resources/static/js/historyReport.js:550 | The set of a column's values, with absent counted as a value, is exactly the values some row has. |
| HistoryReportView.DistinctValues | resources/static/js/historyReport.js:550 | The distinct-value count is at most the row count. It is zero exactly for an empty report. |
| HistoryReportView.HistoryReport.ApplyExcelFilter | resources/static/js/historyReport.js:539-563 | The clauses become `SetClause` of the ticked values and the distinct count, and the report invariant is kept. |
| HistoryReportView.HistoryReport.SetStartDate | resources/static/js/historyReport.js:48-51 | Stores the start bound and re-filters, keeping the invariant. |
| HistoryReportView.HistoryReport.SetEndDate | resources/static/js/historyReport.js:53-57 | Stores the end bound and re-filters, keeping the invariant. |
| HistoryReportView.HistoryReport.SetDataDisplay | resources/static/js/historyReport.js:60-63 | Stores the display mode and re-filters, keeping the invariant. |
| HistoryReportView.HistoryReport.ChangePage | resources/static/js/historyReport.js:391-398 | The page changes iff `1 <= page <= ceil(|filteredData| / itemsPerPage)`. Otherwise nothing changes. |
| HistoryReportView.HistoryReport.ChangeItemsPerPage | resources/static/js/historyReport.js:731-737 | Sets the page size and goes back to page 1. The filter result is unchanged. |
| HistoryReportView.HistoryReport.ResetAllFilters | resources/static/js/historyReport.js:746-754 | The Excel clauses are dropped and the display mode becomes 'all'. The result is exactly the period filter of `historyData`. The page is kept. |
| HistoryReportView.ReorderIsPermutation | resources/static/js/historyReport.js:606-612 | A column move is a permutation of the column order. |
| HistoryReportView.ReorderKeepsDistinct | resources/static/js/historyReport.js:606-612 | A column move never repeats a column. |
| HistoryReportView.ReorderPutsDraggedBeforeTarget | resources/static/js/historyReport.js:606-612 | After a real move, the dragged column sits immediately before the target. |
| HistoryReportView.ReorderKeepsOthersInOrder | resources/static/js/historyReport.js:606-612 | All other columns keep their relative order. |
| HistoryReportView.ReorderIdempotent | resources/static/js/historyReport.js:606-612 | Repeating the same drop changes nothing more. |
| HistoryReportView.SpliceIsReorder | resources/static/js/historyReport.js:610-612 | The two `splice` calls, with the target index shifted down when it lay after the dragged key, perform the move. |
| HistoryReportView.SpliceColumns | resources/static/js/historyReport.js:602-616 | The splice arithmetic yields `Reorder`. It is a no-op for a drop on itself or for an unknown key. |
| HistoryReportView.HistoryReport.HandleDrop | resources/static/js/historyReport.js:593-619 | The column order becomes `Reorder` of the old one, and the invariant (an arrangement of the default columns, without repeats) is kept. |
| HistoryReportView.ToggleHidden | resources/static/js/historyReport.js:636-640 | The key's membership in the hidden list flips, and no other key's membership changes. |
| HistoryReportView.ToggleHiddenKeepsDistinct | resources/static/js/historyReport.js:636-640 | Toggling never lists a hidden column twice. |
| HistoryReportView.ToggleTwiceRestores | resources/static/js/historyReport.js:636-640 | Toggling twice restores membership. Starting from a shown column, it restores the very list. |
| HistoryReportView.HistoryReport.ToggleColumnVisibility | resources/static/js/historyReport.js:633-644 | The hidden list becomes `ToggleHidden` of the old one. Hiding the last shown column is not prevented. |
| HistoryReportView.HistoryReport.ShowAllColumns | resources/static/js/historyReport.js:761-767 | Nothing is hidden afterwards. |
| HistoryReportView.DefaultColumnsAreDistinct | resources/static/js/historyReport.js:17 | The default order holds seven distinct columns. |
| HistoryReportView.HistoryReport.ResetToDefault | resources/static/js/historyReport.js:769-776 | Restores the default column order with nothing hidden. |
| HistoryReportView.HistoryReport.VisibleColumns | resources/static/js/historyReport.js:375-376 | The drawn columns are the column order without the hidden ones, in order and without repeats. |
| HistoryReportView.HistoryReport.DisplayCurrentPage | resources/static/js/historyReport.js:363-385 | Cell (i, j) of the page is the text of visible column j of row i of the page slice, with a missing value shown as ''. There are at most `itemsPerPage` rows. |
| Paging.TotalPages | resources/static/js/historyReport.js:326-328 | This is `ceil(count / size)`: the pages hold every row and there is no spare page. |
| Paging.PageSlice | resources/static/js/historyReport.js:363-366 | The page is `rows[(p-1)*size .. p*size)` clipped to the length, and is empty past the end. |
| Paging.PageBeyondEndIsEmpty | resources/static/js/historyReport.js:363-366 | A page past the last one, which an unclamped `currentPage` can be after re-filtering, shows nothing. |
| Paging.AcceptedPageIsNonEmpty | resources/static/js/historyReport.js:391-398 | Every page that `changePage` accepts shows at least one row. |
| Paging.EveryRowIsOnAPage | resources/static/js/historyReport.js:363-366 | Row `i` is at offset `i % size` of page `i / size + 1`, which is an accepted page. |
| Paging.PageWindowIsValid | resources/static/js/historyReport.js:345-354 | The window `[max(1,p-2), min(total,p+2)]` has at most five buttons and holds only accepted pages. It contains the current page when that page exists. |
| Paging.PageLabelMatchesSlice | resources/static/js/historyReport.js:330-333 | The "start-end" label counts exactly the rows the page shows. |
| Records.Lookup | resources/static/js/historyReport.js:317 | A field read yields a value iff the field is present. |
| Records.FieldText | resources/static/js/historyReport.js:379 | A cell's text is the field's text, or '' when the field is missing. |
| Text.LessTotal | resources/static/js/historyReport.js:291-292 | JavaScript string `<` orders any two different strings. |
| Text.AtMostTransitive | resources/static/js/historyReport.js:291-292 | String `<=` is transitive. |
| PersonalListView.PersonalList.constructor | resources/static/js/personalList.js:4-11 | The list starts on page 1 with 30 per page, no filter and no sort column. `filteredData` is a copy of the loaded persons. |
| PersonalListView.PersonMatches | resources/static/js/personalList.js:195-202 | The per-person loop over the filter entries, which skips empty lists, returns exactly `MatchesFilters`. |
| PersonalListView.PersonalList.ApplyFiltersAndDisplay | resources/static/js/personalList.js:194-208 | `filteredData` becomes `FilteredPersons` of the current filters. Any sort is dropped and the page is kept. |
| PersonalListView.FilteredPersonsAreTheMatchingSubsequence | resources/static/js/personalList.js:194-203 | The result is the order-preserving subsequence of persons whose non-empty clauses all hold. With no clause it is the whole list. |
| PersonalListView.PersonalList.ResetFilters | resources/static/js/personalList.js:602-605 | With the filters cleared, `filteredData` equals `personalData` in load order, whatever the sort state. |
| PersonalListView.NextSortState | resources/static/js/personalList.js:153-158 | A click makes the column active. The direction flips on the active column and is `asc` on a new one. |
| PersonalListView.SortClicks | resources/static/js/personalList.js:153-158 | Clicks on a new column give asc, desc, asc. Two clicks on the active column restore the state. |
| PersonalListView.NotBeforeTransitive | resources/static/js/personalList.js:161-182 | The comparator's "not before" relation is transitive in both directions. |
| PersonalListView.TieMeansSameKey | resources/static/js/personalList.js:161-182 | The comparator returns 0 only for equal lower-cased keys. |
| PersonalListView.SortIsSortedPermutation | resources/static/js/personalList.js:161-182 | The sort orders the list by the comparator in the chosen direction, with a missing value as '', and is a permutation of it. |
| PersonalListView.SortIsStable | resources/static/js/personalList.js:161-182 | Persons with equal keys keep their relative order. |
| Text.Lower | resources/static/js/personalList.js:171-172 | Lower-casing maps each ASCII capital to its small letter and keeps every other character. |
| PersonalListView.PersonalList.HandleSort | resources/static/js/personalList.js:149-191 | Advances the sort state. `filteredData` becomes a sorted permutation of itself, and the page becomes 1. |
| PersonalListView.PersonalList.CurrentPageRows | resources/static/js/personalList.js:211-214 | The page shows `filteredData[(p-1)*size + i]` for each `i`. It holds a full page of `size` rows, or the rest of the list on the last page, or nothing past the last page. |
| PersonalListView.PersonalList.ChangePage | resources/static/js/personalList.js:439-446 | The page changes iff it is between 1 and the page count. Otherwise nothing changes. |
| PersonalListView.PersonalList.ChangeItemsPerPage | resources/static/js/personalList.js:449-453 | Sets the size, goes to page 1 and re-filters. |
| PersonalListView.SelectFirst | resources/static/js/personalList.js:468-473 | Only the first person with the id has `selected` changed. An unknown id changes nothing, and ids are kept. |
| PersonalListView.SelectAllWithId | resources/static/js/personalList.js:468-473 | In `filteredData`, which holds the same person objects, every entry with the id gets the new selection and nothing else changes. |
| PersonalListView.FilteredSelectionFollowsThePersonList | resources/static/js/personalList.js:468-473 | When the filtered entries are persons of a list with distinct ids, every entry after the filtered update is a person of the list after `SelectFirst`. An id the list lacks leaves the filtered list unchanged. |
| PersonalListView.PersonalList.TogglePersonSelection | resources/static/js/personalList.js:468-473 | Both lists change as above. An unknown id changes nothing. The invariant that every filtered entry is one of the persons is kept, so the two lists stay in step. |
| PersonalListView.WithoutSelected | resources/static/js/personalList.js:488 | The remaining count is the old count minus the selected count. |
| PersonalListView.WithoutSelectedRemovesExactlyTheSelected | resources/static/js/personalList.js:488 | The kept persons are exactly the unselected ones, in order, and ids stay distinct. |
| PersonalListView.PersonalList.BulkDelete | resources/static/js/personalList.js:481-505 | With no selection, or when declined, nothing changes. When confirmed, exactly the selected persons are removed and the list is re-filtered. |
| PersonalListView.MarkSelectedSent | resources/static/js/personalList.js:595-597 | The marking keeps the length. |
| PersonalListView.MarkSelectedSentChangesExactlyTheSelected | resources/static/js/personalList.js:595-597 | Exactly the selected persons get `personalSend = '送信済'`, nothing else about anyone changes, and sending twice is the same as once. |
| PersonalListView.PersonalList.SendPersonalData | resources/static/js/personalList.js:587-600 | With no selection, or when declined, nothing changes. When confirmed, the loop marks exactly the selected persons and the list is re-filtered. |
| PersonalListView.CalculatePermissionStats | resources/static/js/personalList.js:297-304 | Each of the four counts is at most the list length. |
| PersonalListView.TallyCountsEachCodeOnce | resources/static/js/personalList.js:297-304 | The four counters count disjoint classes, so their sum is the number of codes counted at all. |
| PersonalListView.TallyTotal | resources/static/js/personalList.js:297-304 | The counts sum to the list length iff every code is tallied, which holds for every code the permission generator (lines 82-97) produces. |
| PersonalListView.CsvLines | resources/static/js/personalList.js:530-547 | The header line comes first, then one line per person in order. |
| PersonalListView.CsvLineHasSixFields | resources/static/js/personalList.js:536-545 | Without commas in the fields, every line has exactly five commas. |
| PersonalListView.CsvHasOneLinePerPerson | resources/static/js/personalList.js:530-547 | Without newlines in the fields, the text has exactly as many newlines as persons, so `1 + n` lines. |
| Text.JoinCount | resources/static/js/personalList.js:546 | Joining a non-empty list of `k` parts that avoid the one-character separator puts exactly `k - 1` separators in the text. |
| PersonalListView.PersonalList.GenerateCsv | resources/static/js/personalList.js:530-547 | The push loop builds `CsvLines(filteredData)` joined by newlines, one line per person. |
| DataMonitorView.DataMonitor.constructor | resources/static/js/dataMonitor.js:5-15 | Auto-scroll is on, the type is 'all', no gate is chosen and every column is visible. The table is drawn once from the initial buffer and every header is shown. |
| DataMonitorView.Pushed | resources/static/js/dataMonitor.js:149-154 | The new event is at index 0 and the length is `min(old + 1, 500)`. The rest is the old buffer's prefix, in order. |
| DataMonitorView.PushedShifts | resources/static/js/dataMonitor.js:149-154 | After `n` pushes, an event moves from index `i` to `i + n` while that is below 500. |
| DataMonitorView.DataMonitor.AddNewData | resources/static/js/dataMonitor.js:106-156 | The buffer becomes `Pushed(old, event)` and stays at most 500 long. The table is redrawn from the filtered buffer, and the headers follow the ticked columns. |
| DataMonitorView.DataMonitor.Tick | resources/static/js/dataMonitor.js:98-104 | With auto-scroll on, the tick adds the event, redraws the filtered table and updates the headers. With it off, the buffer, the table and the headers are unchanged. The buffer bound and the header invariant are kept. |
| DataMonitorView.DataMonitor.ToggleAutoScroll | resources/static/js/dataMonitor.js:159-166 | Flips auto-scroll. |
| DataMonitorView.FilteredEventsAreTheMatchingSubsequence | resources/static/js/dataMonitor.js:184-199 | The filtered events are an order-preserving subsequence of the buffer. An event is kept iff it has the chosen type (any, for 'all') and one of the chosen gates (any, when none is chosen). |
| DataMonitorView.DataMonitor.ApplyFilters | resources/static/js/dataMonitor.js:184-200 | The table body is drawn from exactly `FilteredEvents`, and the headers follow the ticked columns. |
| DataMonitorView.DataMonitor.SetDataType | resources/static/js/dataMonitor.js:30-33 | Stores the type and redraws through the filters. The headers follow the ticked columns. |
| DataMonitorView.DataMonitor.UpdateGateFilters | resources/static/js/dataMonitor.js:168-174 | The push loop makes the chosen gates exactly the ticked values, then the table is redrawn through the filters. The headers follow the ticked columns. |
| DataMonitorView.DataMonitor.UpdateColumnVisibility | resources/static/js/dataMonitor.js:176-182 | The visible columns become exactly the ticked values, and the unfiltered buffer is redrawn. Each mapped header then shows iff its column is among the new ticks, which keeps the header invariant. |
| DataMonitorView.BodyFor | resources/static/js/dataMonitor.js:206-209 | At most the first 30 events are drawn, each as its row. |
| DataMonitorView.CellsOf | resources/static/js/dataMonitor.js:218-234 | A row has one cell per drawn column. |
| DataMonitorView.CellsFollowTheColumnOrder | resources/static/js/dataMonitor.js:218-234 | The cells are exactly the ticked columns, in the fixed column order, whatever the order or repetition of the ticked list. |
| DataMonitorView.AllTickedShowsAll | resources/static/js/dataMonitor.js:218-234 | With every column ticked, every column is drawn. |
| DataMonitorView.RenderRow | resources/static/js/dataMonitor.js:213-234 | The cell loop builds exactly `RowFor` of the event and the ticked columns. |
| DataMonitorView.DataMonitor.RenderTable | resources/static/js/dataMonitor.js:202-241 | Draws the first 30 events of the data passed in, or of the buffer when none is passed, then sets the headers to `HeadersAfter` the ticked columns. |
| DataMonitorView.HeaderMatchesCells | resources/static/js/dataMonitor.js:245-260 | Header `i` is shown iff the rows have a cell for its column. |
| DataMonitorView.DataMonitor.UpdateTableHeaders | resources/static/js/dataMonitor.js:243-261 | Header `i < 7` is shown iff its mapped column is ticked. Further header cells are left alone. |
| DataMonitorView.HeadersAfter | resources/static/js/dataMonitor.js:243-261 | The header count is kept. A mapped header shows iff its column is ticked, and a header past the mapping keeps its flag. |
| DataMonitorView.HeadersAfterIsStable | resources/static/js/dataMonitor.js:243-261 | Updating the headers twice equals updating them once. The result depends only on which columns are ticked, not on their order. |
| StatusMonitorView.Any | resources/static/js/statusMonitor.js:163-165 | `some` is true iff some element passes the test. |
| StatusMonitorView.AnyInRange | resources/static/js/statusMonitor.js:159-165 | `some` over the in-range gates is true iff some gate in the inclusive range passes. |
| StatusMonitorView.GroupStatusIsTheWorstCondition | resources/static/js/statusMonitor.js:158-167 | The group status is 'error' iff some gate in range has status error. Otherwise it is 'warning' iff some gate has warning, then 'offline' iff some gate is not online, and 'normal' otherwise. |
| StatusMonitorView.OfflineStatusAloneKeepsGroupNormal | resources/static/js/statusMonitor.js:165 | A gate whose status is 'offline' but which is online does not make its group offline. |
| StatusMonitorView.Decimal | resources/static/js/statusMonitor.js:147 | `toString` gives at least one digit and no leading zero. |
| StatusMonitorView.PadStart4 | resources/static/js/statusMonitor.js:147 | `padStart(4, '0')` adds zeros in front up to four characters and keeps the string as its suffix. |
| StatusMonitorView.Pad4RoundTrip | resources/static/js/statusMonitor.js:147 | Parsing the padded digits gives the number back. |
| StatusMonitorView.Pad4Length | resources/static/js/statusMonitor.js:147 | Numbers below 10000 pad to exactly four digits. |
| StatusMonitorView.Pad4Injective | resources/static/js/statusMonitor.js:147 | Different numbers pad to different strings. |
| StatusMonitorView.GroupIdsAreDistinct | resources/static/js/statusMonitor.js:147-150 | The 100 group ids are pairwise distinct. |
| StatusMonitorView.GroupsPartitionTheGates | resources/static/js/statusMonitor.js:144-146 | The 100 ranges `[10i+1, 10i+10]` cover the ids 1 to 1000 exactly. Each id lies in the range of group `(id-1)/10` only. |
| StatusMonitorView.StatusMonitor.GenerateGateGroups | resources/static/js/statusMonitor.js:140-156 | There are exactly 100 groups. Group `i` has id `gate-` plus the 4-digit `i+1`, the range `[10i+1, 10i+10]` and that range's group status. |
| StatusMonitorView.FindGroup | resources/static/js/statusMonitor.js:264 | `find` returns the first group with the id, or none iff no group has it. |
| StatusMonitorView.ShownGatesAreTheMatchingGates | resources/static/js/statusMonitor.js:261-295 | The cards are an order-preserving subsequence of the gates. A gate is shown iff its effective status is ticked and it lies in the selected existing group, or otherwise among the gates `slice(0, layout)` keeps. These are the first `layout` gates, or for a negative layout all but the last `-layout`. |
| Seqs.SliceEnd | resources/static/js/statusMonitor.js:270-274 | The end `slice(0, end)` stops at. A non-negative end is kept, and `Take` caps it at the length. A negative end counts back from the length, stopping at 0. |
| StatusMonitorView.StatusMonitor.RenderGates | resources/static/js/statusMonitor.js:255-301 | The filter loop yields exactly `ShownGates` of the current state. |
| StatusMonitorView.ButtonsAreTheMatchingGroups | resources/static/js/statusMonitor.js:309-312 | A group is listed iff its status is ticked, in group order. |
| StatusMonitorView.StatusMonitor.RenderGateButtons | resources/static/js/statusMonitor.js:303-332 | The button loop yields exactly the groups whose status is ticked. |
| StatusMonitorView.StatusMonitor.SelectGateGroup | resources/static/js/statusMonitor.js:334-348 | Selects the group and redraws the cards. |
| StatusMonitorView.StatusMonitor.UpdateStatusFilters | resources/static/js/statusMonitor.js:228-253 | The push loop makes the filter exactly the ticked values, then cards and buttons are redrawn. |
| StatusMonitorView.ColumnRange | resources/static/js/statusMonitor.js:200-210 | Each layout's column range lies within 2 to 8 columns. |
| StatusMonitorView.GridColumns | resources/static/js/statusMonitor.js:194-210 | Columns stay in the layout's range (`[2,4]`, `[3,5]`, `[6,8]`). Within it, they are the most minimum-width cards that fit the available width, unless the range floor or cap applies. |
| StatusMonitorView.CeilDiv | resources/static/js/statusMonitor.js:212 | This is `ceil(a / b)`. |
| StatusMonitorView.GridRows | resources/static/js/statusMonitor.js:212 | `rows * cols >= layout`, with no spare row. |
| StatusMonitorView.GridHoldsTheLayout | resources/static/js/statusMonitor.js:194-212 | For every container width, the grid has room for every card of the layout. |
| StatusMonitorView.StatusMonitor.UpdateGridLayout | resources/static/js/statusMonitor.js:181-226 | Sets the grid's column and row counts, which together hold the layout. |
| StatusMonitorView.StatusMonitor.SwitchLayout | resources/static/js/statusMonitor.js:169-179 | Sets the layout, the grid, and the cards for it. |
| StatusMonitorView.RecommendedLayout | resources/static/js/statusMonitor.js:491-499 | The recommendation is 64 iff width >= 1920 and height >= 1080, and 16 iff width < 992. It is 32 otherwise. |
| StatusMonitorView.RecommendationGrowsWithTheScreen | resources/static/js/statusMonitor.js:491-499 | A larger screen never gets fewer cards. |
| StatusMonitorView.StatusMonitor.HandleResize | resources/static/js/statusMonitor.js:485-507 | The layout drops to the recommendation only when it exceeds it, and is never raised. The grid is always recomputed. |
| StatusMonitorView.IconClass | resources/static/js/statusMonitor.js:419-426 | The class always starts with `icon-`. A normal status gives `icon-` plus the type. |
| StatusMonitorView.AbnormalIconIgnoresType | resources/static/js/statusMonitor.js:420-422 | An error, warning or offline status decides the class whatever the type. |
| StatusMonitorView.AbnormalIconsAreDistinguished | resources/static/js/statusMonitor.js:419-426 | For the icon types `door`, `card` and `comm`, the three abnormal classes differ from each other and from the normal icon's class. The fourth type, `security` (statusMonitor.js:85), is excluded: its normal class collides with the warning class (see `SecurityClassIsShared`). |
| StatusMonitorView.SecurityClassIsShared | resources/static/js/statusMonitor.js:85-101 | The class is `icon-security` iff the status is `warning`, or the status is not abnormal and the type is `security`. A warning icon therefore looks like a normal security icon. |
| StatusMonitorView.ApplyChanges | resources/static/js/statusMonitor.js:463-474 | Applying gate changes keeps the gate count and every gate id. |
| StatusMonitorView.LastChangeDecides | resources/static/js/statusMonitor.js:463-474 | A gate named by some change ends with the status and online flag of the last change naming it, and keeps its id. |
| StatusMonitorView.UnnamedGatesKeepTheirState | resources/static/js/statusMonitor.js:463-474 | A gate no change names keeps its status and online flag. |
| StatusMonitorView.StatusMonitor.ApplyGateChanges | resources/static/js/statusMonitor.js:463-474 | The loop applies the changes in order, yielding `ApplyChanges`. |
| StatusMonitorView.StatusMonitor.RefreshGroupStatuses | resources/static/js/statusMonitor.js:477-479 | Every group's status is recomputed from the current gates, and nothing else about the groups changes. |
| StatusMonitorView.StatusMonitor.UpdateGateStatuses | resources/static/js/statusMonitor.js:459-483 | Gates are changed, then group statuses, buttons and cards are made consistent with the new gates. |
| StatusMonitorView.StatusMonitor.constructor | resources/static/js/statusMonitor.js:6-18 | The monitor starts with every status ticked and no group selected, over the given gates. It has the 100 groups of those gates and a button for each group with a ticked status. The layout is the smaller of 32 and the screen's recommendation. The cards are `ShownGates` for that layout, and the grid is sized for it. |
| StatusMonitorView.StatusMonitor.Init | resources/static/js/statusMonitor.js:20-28 | Builds the 100 groups, the buttons and the cards, then lowers the layout to the screen's recommendation when the recommendation is smaller, and builds the grid. |

## Left out

- DOM rendering, HTML strings, Bootstrap modals and `alert` texts are not modelled. The `confirm()` answer is a `confirmed` parameter. The state a screen draws is a field: the card list, button list, table body and header flags. The early returns taken when an element is missing (`if (!grid) return`) are not modelled.
- Values read from the page become method parameters. These include the ticked checkbox values, the select values, the window and grid-container sizes, and the drag source and target keys.
- Timers (`setInterval`) are not modelled. The data monitor's refresh is the `Tick` method, and the status monitor's refresh is `UpdateGateStatuses`.
- The random demo-data generators (`generateGateData`, `generateIconStatuses`, `getRandomStatus`, `loadHistoryData`, `generateSampleData`, `generateGatePermissions`, `generateDemoData`, the random fields of `addNewData`) are not modelled. Their output is a parameter: the initial rows, persons, gates and events, the new event, and the list of gate changes.
- StatusMonitorView.StatusMonitor.UpdateGateStatuses: the random choice of gates is the `changes` parameter. Each change is one drawn gate whose 10% state-change draw succeeded. Icons and `lastUpdated` are not part of the gate model.
- HistoryReportView.HistoryReport.constructor: the default column list is the `columns` parameter, and the page passes `DefaultColumnOrder`. The initial date bounds are parameters too, because `initializeDates` is date-library code.
- DataMonitorView.DataMonitor.constructor: the column list is the `columns` parameter, and the page passes `CanonicalColumns`. The header count is a parameter too.
- Date handling is not modelled: `initializeDates`, `updateDateInputs`, `formatDateTime`, `updateDateRange`, the calendar. Dates are opaque strings compared with JavaScript's string order.
- PersonalListView.SortIsSortedPermutation: the comparator's numeric branch (`isNaN`/`parseFloat`) is not modelled; keys are always compared as lower-cased strings. For the zero-padded digit codes of equal length the two orders agree. The branch's treatment of `''` as numeric (`parseFloat('')` is NaN, so it ties with everything) is not captured.
- Text.Lower: only ASCII letters are lower-cased. Strings are sequences of characters, not of UTF-16 code units.
- `Array.prototype.sort` is a library call. Its model is a stable insertion sort (`Sort`), whose order, permutation and stability are proved.
- PersonalListView.PersonalList.TogglePersonSelection: persons are values, not shared objects. The aliasing between `personalData` and `filteredData` is represented by updating `filteredData` through `SelectAllWithId`. `MarkSelectedSent` acts on `personalData` only; the list is re-filtered right after, as the source does.
- `bulkErase` differs from `bulkDelete` only in its messages, so both are `BulkDelete`.
- `toggleSelectAll` (personalList.js:456-466) is not modelled. It is a DOM loop over the page's checkboxes that calls `togglePersonSelection`, which is modelled.
- Page sizes come from select boxes. They are assumed positive where the arithmetic divides by them (`requires size >= 1`). Layouts carry no such assumption: any integer is accepted, and a negative one follows `slice`'s rule for a negative end.
- StatusMonitorView.StatusMonitor.SwitchLayout: the layout is an integer. A button whose `data-layout` does not parse, so that `parseInt` gives `NaN`, is not modelled.
- DataMonitorView.RenderRow: a cell's value is the event's field. The status-indicator span of the first cell is HTML and is not modelled.
- `updateGridLayout`'s `actualCardWidth` is only logged, so it is not modelled. The `layout-64` CSS class is not modelled either.
- `selectedGateGroup` is `null` or a group id. It is an `Option`, and an empty id counts as none, as JavaScript truthiness does.
- Excel filter menu interactions (`showExcelFilter`, `toggleExcelSelectAll`, `filterExcelOptions`, search), the drag CSS bookkeeping, CSV download, file upload, navigation, the context menus and the remote-operation and history modals are not modelled.
- `personalRegistration.js` is not part of this model.
