/** The entry/exit history report (`HistoryReport`): a period filter, a
    data-type filter and per-column Excel-style filters chained by
    conjunction, a 1-based page over the result, and a column order and
    hidden-column list managed by drag-and-drop and toggles. */
module HistoryReportView {
  import opened Wrappers
  import opened Seqs
  import opened Text
  import opened Paging
  import opened Records

  /** The table's columns in their default order. */
  const DefaultColumnOrder: seq<string> :=
    ["occurredDate", "personalCode", "name", "department", "gateNumber", "gateName", "historyDetail"]
  const DefaultItemsPerPage := 30
  /** The clause value stored when no value is ticked. */
  const NoneSentinel := "__NONE__"
  const EntryDetail := "入室"
  const ExitDetail := "退室"

  /** A date bound counts only when present and non-empty. */
  predicate IsSet(bound: Option<string>)
  {
    bound.Some? && bound.value != ""
  }

  /** The period filter: applies only when both bounds are set, and then keeps
      `startDate <= row.date <= endDate` as string comparisons. */
  predicate InPeriod(row: Row, startDate: Option<string>, endDate: Option<string>)
  {
    IsSet(startDate) && IsSet(endDate) ==>
      "date" in row && AtMost(startDate.value, row["date"]) && AtMost(row["date"], endDate.value)
  }

  /** The data-display filter: 'entry', 'exit' and 'error' select rows; any
      other mode, 'all' included, keeps every row. */
  predicate MatchesDisplay(row: Row, mode: string)
  {
    if mode == "entry" then Lookup(row, "historyDetail") == Some(EntryDetail)
    else if mode == "exit" then Lookup(row, "historyDetail") == Some(ExitDetail)
    else if mode == "error" then Lookup(row, "type") == Some("error")
    else true
  }

  predicate RowVisible(row: Row, startDate: Option<string>, endDate: Option<string>, mode: string,
                       filters: map<string, seq<string>>)
  {
    InPeriod(row, startDate, endDate) && MatchesDisplay(row, mode) && MatchesFilters(row, filters)
  }

  function PeriodTest(startDate: Option<string>, endDate: Option<string>): Row -> bool
  {
    row => InPeriod(row, startDate, endDate)
  }

  function DisplayTest(mode: string): Row -> bool
  {
    row => MatchesDisplay(row, mode)
  }

  function ExcelTest(filters: map<string, seq<string>>): Row -> bool
  {
    row => MatchesFilters(row, filters)
  }

  function ViewTest(startDate: Option<string>, endDate: Option<string>, mode: string,
                    filters: map<string, seq<string>>): Row -> bool
  {
    row => RowVisible(row, startDate, endDate, mode, filters)
  }

  /** What `applyFiltersAndDisplay` leaves in `filteredData`. */
  function VisibleRows(rows: seq<Row>, startDate: Option<string>, endDate: Option<string>, mode: string,
                       filters: map<string, seq<string>>): seq<Row>
  {
    Filter(rows, ViewTest(startDate, endDate, mode, filters))
  }

  /** The rows shown are exactly the rows of the report that pass all three
      filters, in the report's order. */
  lemma VisibleRowsAreTheMatchingSubsequence(rows: seq<Row>, startDate: Option<string>, endDate: Option<string>,
                                             mode: string, filters: map<string, seq<string>>)
    ensures IsSubsequence(VisibleRows(rows, startDate, endDate, mode, filters), rows)
    ensures forall row :: row in VisibleRows(rows, startDate, endDate, mode, filters) <==>
      row in rows && RowVisible(row, startDate, endDate, mode, filters)
  {
    FilterIsSubsequence(rows, ViewTest(startDate, endDate, mode, filters));
    FilterMembers(rows, ViewTest(startDate, endDate, mode, filters));
  }

  /** Filtering in three stages, as the source does, gives the conjunction. */
  lemma StagesCompose(rows: seq<Row>, startDate: Option<string>, endDate: Option<string>, mode: string,
                      filters: map<string, seq<string>>)
    ensures Filter(Filter(Filter(rows, PeriodTest(startDate, endDate)), DisplayTest(mode)), ExcelTest(filters))
         == VisibleRows(rows, startDate, endDate, mode, filters)
  {
    var pd: Row -> bool := row => InPeriod(row, startDate, endDate) && MatchesDisplay(row, mode);
    FilterCompose(rows, PeriodTest(startDate, endDate), DisplayTest(mode), pd);
    FilterCompose(rows, pd, ExcelTest(filters), ViewTest(startDate, endDate, mode, filters));
  }

  /** Deleting a clause (what ticking every value does) never hides a row that
      was shown, and keeps the order. */
  lemma RemovingClauseNeverShrinks(rows: seq<Row>, startDate: Option<string>, endDate: Option<string>,
                                   mode: string, filters: map<string, seq<string>>, key: string)
    ensures IsSubsequence(VisibleRows(rows, startDate, endDate, mode, filters),
                          VisibleRows(rows, startDate, endDate, mode, filters - {key}))
  {
    forall row | row in rows && RowVisible(row, startDate, endDate, mode, filters)
      ensures RowVisible(row, startDate, endDate, mode, filters - {key})
    {
      forall k | k in filters - {key} && |(filters - {key})[k]| > 0
        ensures ClauseHolds(row, k, (filters - {key})[k])
      {
        assert k in filters;
      }
    }
    FilterMonotone(rows, ViewTest(startDate, endDate, mode, filters), ViewTest(startDate, endDate, mode, filters - {key}));
  }

  /** The `'__NONE__'` clause keeps only rows whose value is that very literal;
      in particular it hides every row when no row carries it. */
  lemma NoneSentinelHidesRows(rows: seq<Row>, startDate: Option<string>, endDate: Option<string>,
                              mode: string, filters: map<string, seq<string>>, key: string)
    ensures forall row :: row in VisibleRows(rows, startDate, endDate, mode, filters[key := [NoneSentinel]]) ==>
      Lookup(row, key) == Some(NoneSentinel)
    ensures (forall row :: row in rows ==> Lookup(row, key) != Some(NoneSentinel)) ==>
      VisibleRows(rows, startDate, endDate, mode, filters[key := [NoneSentinel]]) == []
  {
    var m := filters[key := [NoneSentinel]];
    FilterMembers(rows, ViewTest(startDate, endDate, mode, m));
    forall row | row in VisibleRows(rows, startDate, endDate, mode, m)
      ensures Lookup(row, key) == Some(NoneSentinel)
    {
      assert MatchesFilters(row, m);
      assert ClauseHolds(row, key, m[key]);
    }
    var shown := VisibleRows(rows, startDate, endDate, mode, m);
    if shown != [] {
      assert shown[0] in shown && shown[0] in rows;
    }
  }

  /** How `applyExcelFilter` sets the clause for `key` from the ticked values,
      given the number of distinct values the column has in the report. */
  function SetClause(filters: map<string, seq<string>>, key: string, ticked: seq<string>, distinct: nat)
    : (r: map<string, seq<string>>)
    ensures |ticked| == 0 ==> key in r && r[key] == [NoneSentinel]
    ensures |ticked| == distinct > 0 ==> key !in r
    ensures 0 < |ticked| != distinct ==> key in r && r[key] == ticked
    ensures forall k :: k != key ==> (k in r <==> k in filters) && (k in r ==> r[k] == filters[k])
  {
    if |ticked| == 0 then filters[key := [NoneSentinel]]
    else if |ticked| == distinct then filters - {key}
    else filters[key := ticked]
  }

  /** The set of values column `key` takes in `rows` (absent counts as a value,
      as `undefined` does in a JavaScript `Set`). */
  function ColumnValues(rows: seq<Row>, key: string): (values: set<Option<string>>)
    ensures |values| <= |rows|
    ensures forall row :: row in rows ==> Lookup(row, key) in values
    ensures forall v :: v in values ==> exists row :: row in rows && Lookup(row, key) == v
  {
    if rows == [] then {}
    else
      var tail := ColumnValues(rows[1..], key);
      assert forall row :: row in rows[1..] ==> row in rows;
      assert forall row :: row in rows ==> row == rows[0] || row in rows[1..];
      {Lookup(rows[0], key)} + tail
  }

  /** `[...new Set(historyData.map(item => item[key]))].length`. */
  function DistinctValues(rows: seq<Row>, key: string): (n: nat)
    ensures n <= |rows|
    ensures n == 0 <==> rows == []
  {
    var values := ColumnValues(rows, key);
    assert rows != [] ==> Lookup(rows[0], key) in values;
    |values|
  }

  /** The order `handleDrop` produces: `dragged` is taken out and put back
      immediately before `target`. Dropping a column on itself, or naming a
      key that is not a column, changes nothing. */
  function Reorder<T(==)>(order: seq<T>, dragged: T, target: T): seq<T>
  {
    if dragged == target || dragged !in order || target !in order then order
    else
      var di := IndexOf(order, dragged);
      var rest := order[..di] + order[di + 1..];
      var ti := IndexOf(rest, target);
      rest[..ti] + [dragged] + rest[ti..]
  }

  /** Taking the first `dragged` out of a list without repeats splits it as
      `pre + [dragged] + post`, and `pre + post` has no repeats and no
      `dragged`. */
  lemma RemoveShape<T>(order: seq<T>, dragged: T) returns (pre: seq<T>, post: seq<T>)
    requires NoDuplicates(order) && dragged in order
    ensures var di := IndexOf(order, dragged); pre == order[..di] && post == order[di + 1..]
    ensures order == pre + [dragged] + post
    ensures NoDuplicates(pre + post) && dragged !in pre + post
  {
    var di := IndexOf(order, dragged);
    pre, post := order[..di], order[di + 1..];
    assert order == pre + [dragged] + post;
    DistinctRemove(pre, post, dragged);
  }

  /** Splitting `rest` at the first `target` leaves `target` at the head of
      the second half. */
  lemma SplitAtTarget<T>(rest: seq<T>, target: T) returns (x: seq<T>, y: seq<T>)
    requires target in rest
    ensures var ti := IndexOf(rest, target); x == rest[..ti] && y == rest[ti..]
    ensures x + y == rest && y != [] && y[0] == target
  {
    var ti := IndexOf(rest, target);
    x, y := rest[..ti], rest[ti..];
    assert x + y == rest;
  }

  /** A real move in pieces: the order is `pre + [dragged] + post`, the
      result is `x + [dragged] + y` where `x + y` is `pre + post` and `y`
      starts at the target. */
  lemma ReorderShape<T>(order: seq<T>, dragged: T, target: T)
    returns (pre: seq<T>, post: seq<T>, x: seq<T>, y: seq<T>)
    requires NoDuplicates(order) && dragged != target && dragged in order && target in order
    ensures order == pre + [dragged] + post && x + y == pre + post
    ensures NoDuplicates(x + y) && dragged !in x + y
    ensures y != [] && y[0] == target
    ensures Reorder(order, dragged, target) == x + [dragged] + y
  {
    pre, post := RemoveShape(order, dragged);
    assert target in pre + post;
    x, y := SplitAtTarget(pre + post, target);
  }

  /** Reordering is a permutation of the columns. */
  lemma ReorderIsPermutation<T>(order: seq<T>, dragged: T, target: T)
    requires NoDuplicates(order)
    ensures multiset(Reorder(order, dragged, target)) == multiset(order)
  {
    if dragged != target && dragged in order && target in order {
      var pre, post, x, y := ReorderShape(order, dragged, target);
      calc {
        multiset(Reorder(order, dragged, target));
        multiset(x + [dragged] + y);
        multiset(x) + multiset([dragged]) + multiset(y);
        multiset(x + y) + multiset([dragged]);
        multiset(pre + post) + multiset([dragged]);
        multiset(pre) + multiset([dragged]) + multiset(post);
        multiset(pre + [dragged] + post);
      }
    }
  }

  /** Reordering never introduces a repeated column. */
  lemma ReorderKeepsDistinct<T>(order: seq<T>, dragged: T, target: T)
    requires NoDuplicates(order)
    ensures NoDuplicates(Reorder(order, dragged, target))
  {
    if dragged != target && dragged in order && target in order {
      var pre, post, x, y := ReorderShape(order, dragged, target);
      DistinctInsert(x, y, dragged);
    }
  }

  /** After a real move the dragged key sits immediately before the target. */
  lemma ReorderPutsDraggedBeforeTarget<T>(order: seq<T>, dragged: T, target: T)
    requires NoDuplicates(order) && dragged != target && dragged in order && target in order
    ensures var r := Reorder(order, dragged, target);
      0 <= IndexOf(r, dragged) && IndexOf(r, target) == IndexOf(r, dragged) + 1
  {
    var pre, post, x, y := ReorderShape(order, dragged, target);
    ReorderKeepsDistinct(order, dragged, target);
    var r := x + [dragged] + y;
    assert r[|x|] == dragged && r[|x| + 1] == target;
  }

  /** Every other column keeps its relative order. */
  lemma ReorderKeepsOthersInOrder<T>(order: seq<T>, dragged: T, target: T)
    requires NoDuplicates(order)
    ensures Filter(Reorder(order, dragged, target), (k: T) => k != dragged)
         == Filter(order, (k: T) => k != dragged)
  {
    var notDragged := (k: T) => k != dragged;
    if dragged != target && dragged in order && target in order {
      var pre, post, x, y := ReorderShape(order, dragged, target);
      FilterOutOne(pre, dragged, post, notDragged);
      FilterOutOne(x, dragged, y, notDragged);
    }
  }

  /** Reordering again with the same pair changes nothing: the dragged key is
      already in front of the target. */
  lemma ReorderIdempotent<T>(order: seq<T>, dragged: T, target: T)
    requires NoDuplicates(order)
    ensures Reorder(Reorder(order, dragged, target), dragged, target) == Reorder(order, dragged, target)
  {
    if dragged != target && dragged in order && target in order {
      var pre, post, x, y := ReorderShape(order, dragged, target);
      ReorderKeepsDistinct(order, dragged, target);
      var r := x + [dragged] + y;
      assert dragged !in x;
      assert r[|x|] == dragged;
      assert IndexOf(r, dragged) == |x|;
      assert r[..|x|] == x && r[|x| + 1..] == y;
      assert IndexOf(x + y, target) == |x| by {
        assert (x + y)[|x|] == target;
        assert target !in x by {
          assert target in y;
        }
      }
      assert (x + y)[..|x|] == x && (x + y)[|x|..] == y;
    }
  }

  /** The two `splice` calls of `handleDrop`, with the target index shifted
      down when it lay after the dragged key, perform `Reorder`. */
  lemma SpliceIsReorder<T>(order: seq<T>, dragged: T, target: T, di: int, ti: int, rest: seq<T>, shifted: int)
    requires dragged != target && dragged in order && target in order
    requires di == IndexOf(order, dragged) && ti == IndexOf(order, target)
    requires rest == order[..di] + order[di + 1..]
    requires shifted == if ti > di then ti - 1 else ti
    ensures 0 <= shifted <= |rest|
    ensures rest[..shifted] + [dragged] + rest[shifted..] == Reorder(order, dragged, target)
  {
    IndexAfterRemoval(order, di, target);
    ReorderIsSplice(order, dragged, target, rest, shifted);
  }

  /** `Reorder` for a real move is the insertion before the first target in
      the list without the dragged key. */
  lemma ReorderIsSplice<T>(order: seq<T>, dragged: T, target: T, rest: seq<T>, ti: int)
    requires dragged != target && dragged in order && target in order
    requires rest == order[..IndexOf(order, dragged)] + order[IndexOf(order, dragged) + 1..]
    requires ti == IndexOf(rest, target) && 0 <= ti
    ensures Reorder(order, dragged, target) == rest[..ti] + [dragged] + rest[ti..]
  {
  }

  /** The splice arithmetic of `handleDrop`: the dragged key is removed and
      re-inserted at the target's index, shifted down by one when the target
      lay after it. */
  method SpliceColumns<T(==)>(order: seq<T>, dragged: T, target: T) returns (moved: seq<T>)
    ensures moved == Reorder(order, dragged, target)
  {
    moved := order;
    if dragged == target {
      return;
    }
    var draggedIndex := IndexOf(order, dragged);
    var targetIndex := IndexOf(order, target);
    if draggedIndex != -1 && targetIndex != -1 {
      var rest := order[..draggedIndex] + order[draggedIndex + 1..];
      var newTargetIndex := if targetIndex > draggedIndex then targetIndex - 1 else targetIndex;
      SpliceIsReorder(order, dragged, target, draggedIndex, targetIndex, rest, newTargetIndex);
      moved := rest[..newTargetIndex] + [dragged] + rest[newTargetIndex..];
    }
  }

  /** The hidden-column list after `toggleColumnVisibility(key)`: the key's
      membership flips and nothing else's does. */
  function ToggleHidden(hidden: seq<string>, key: string): (r: seq<string>)
    ensures key in r <==> key !in hidden
    ensures forall k :: k != key ==> (k in r <==> k in hidden)
  {
    var notKey := (k: string) => k != key;
    FilterMembers(hidden, notKey);
    if key in hidden then Filter(hidden, notKey) else hidden + [key]
  }

  /** Toggling never lists a hidden column twice. */
  lemma ToggleHiddenKeepsDistinct(hidden: seq<string>, key: string)
    requires NoDuplicates(hidden)
    ensures NoDuplicates(ToggleHidden(hidden, key))
  {
    if key in hidden {
      FilterKeepsDistinct(hidden, (k: string) => k != key);
    } else {
      DistinctInsert(hidden, [], key);
      assert hidden + [key] + [] == hidden + [key];
    }
  }

  /** Toggling twice restores which columns are hidden; starting from a shown
      column it restores the very list. */
  lemma ToggleTwiceRestores(hidden: seq<string>, key: string)
    ensures forall k :: k in ToggleHidden(ToggleHidden(hidden, key), key) <==> k in hidden
    ensures key !in hidden ==> ToggleHidden(ToggleHidden(hidden, key), key) == hidden
  {
    if key !in hidden {
      var notKey := (k: string) => k != key;
      FilterConcat(hidden, [key], notKey);
      FilterKeepsAll(hidden, notKey);
    }
  }

  /** The default columns are seven distinct keys. */
  lemma DefaultColumnsAreDistinct()
    ensures |DefaultColumnOrder| == 7 && NoDuplicates(DefaultColumnOrder)
  {
  }

  class HistoryReport {
    /** The column order `resetToDefault` restores. */
    const defaultOrder: seq<string>
    var startDate: Option<string>
    var endDate: Option<string>
    var dataDisplay: string
    var historyData: seq<Row>
    var filteredData: seq<Row>
    var currentPage: int
    var itemsPerPage: int
    var columnOrder: seq<string>
    var hiddenColumns: seq<string>
    var excelFilters: map<string, seq<string>>

    /** The report's invariant: page numbers are positive, the column order is
        an arrangement of the seven default columns, and `filteredData` is the
        current filter result. */
    ghost predicate Valid()
      reads this
    {
      currentPage >= 1 && itemsPerPage >= 1 &&
      multiset(columnOrder) == multiset(defaultOrder) && NoDuplicates(columnOrder) && NoDuplicates(defaultOrder) &&
      NoDuplicates(hiddenColumns) &&
      filteredData == VisibleRows(historyData, startDate, endDate, dataDisplay, excelFilters)
    }

    /** A report over `rows` (the loaded history, newest first), with the
        initial date bounds and the default column order `columns` (on the
        page always `DefaultColumnOrder`). */
    constructor (rows: seq<Row>, initialStart: Option<string>, initialEnd: Option<string>, columns: seq<string>)
      requires NoDuplicates(columns)
      ensures Valid() && defaultOrder == columns
      ensures historyData == rows && startDate == initialStart && endDate == initialEnd
      ensures dataDisplay == "all" && excelFilters == map[]
      ensures currentPage == 1 && itemsPerPage == DefaultItemsPerPage
      ensures columnOrder == columns && hiddenColumns == []
    {
      defaultOrder := columns;
      startDate, endDate, dataDisplay := initialStart, initialEnd, "all";
      historyData, filteredData := rows, [];
      currentPage, itemsPerPage := 1, DefaultItemsPerPage;
      columnOrder, hiddenColumns := columns, [];
      excelFilters := map[];
      new;
      ApplyFiltersAndDisplay();
    }

    /** Recomputes `filteredData`: the period filter, then the data-display
        filter, then one pass per Excel clause. The page is not clamped. */
    method ApplyFiltersAndDisplay()
      modifies this`filteredData
      ensures filteredData == VisibleRows(historyData, startDate, endDate, dataDisplay, excelFilters)
    {
      var data := historyData;
      if IsSet(startDate) && IsSet(endDate) {
        data := Filter(data, PeriodTest(startDate, endDate));
      } else {
        FilterKeepsAll(historyData, PeriodTest(startDate, endDate));
      }
      if dataDisplay != "all" {
        data := Filter(data, DisplayTest(dataDisplay));
      } else {
        FilterKeepsAll(data, DisplayTest(dataDisplay));
      }
      ghost var base := data;
      assert data == Filter(Filter(historyData, PeriodTest(startDate, endDate)), DisplayTest(dataDisplay));
      var pending := excelFilters.Keys;
      ghost var done: map<string, seq<string>> := map[];
      FilterKeepsAll(base, ExcelTest(done));
      while pending != {}
        invariant pending !! done.Keys && pending + done.Keys == excelFilters.Keys
        invariant forall k :: k in done ==> done[k] == excelFilters[k]
        invariant data == Filter(base, ExcelTest(done))
        decreases pending
      {
        var key :| key in pending;
        var values := excelFilters[key];
        ghost var next := done[key := values];
        forall row | row in base
          ensures ExcelTest(next)(row) == (ExcelTest(done)(row) && (|values| > 0 ==> ClauseHolds(row, key, values)))
        {
          FiltersExtend(row, done, key, values);
        }
        if |values| > 0 {
          FilterCompose(base, ExcelTest(done), (row: Row) => ClauseHolds(row, key, values), ExcelTest(next));
          data := Filter(data, (row: Row) => ClauseHolds(row, key, values));
        } else {
          FilterExt(base, ExcelTest(done), ExcelTest(next));
        }
        done := next;
        pending := pending - {key};
      }
      assert done == excelFilters;
      StagesCompose(historyData, startDate, endDate, dataDisplay, excelFilters);
      filteredData := data;
    }

    /** `changePage(page)`: accepted only for an existing page. */
    method ChangePage(page: int)
      requires Valid()
      modifies this`currentPage
      ensures Valid()
      ensures currentPage == if CanGoTo(page, |filteredData|, itemsPerPage) then page else old(currentPage)
    {
      if 1 <= page <= TotalPages(|filteredData|, itemsPerPage) {
        currentPage := page;
      }
    }

    /** `changeItemsPerPage()` with the value read from the page-size select. */
    method ChangeItemsPerPage(size: int)
      requires Valid() && size >= 1
      modifies this`itemsPerPage, this`currentPage, this`filteredData
      ensures Valid()
      ensures itemsPerPage == size && currentPage == 1
      ensures filteredData == old(filteredData)
    {
      itemsPerPage := size;
      currentPage := 1;
      ApplyFiltersAndDisplay();
    }

    /** The start-date input changed. */
    method SetStartDate(value: Option<string>)
      requires Valid()
      modifies this`startDate, this`filteredData
      ensures Valid() && startDate == value
    {
      startDate := value;
      ApplyFiltersAndDisplay();
    }

    /** The end-date input changed. */
    method SetEndDate(value: Option<string>)
      requires Valid()
      modifies this`endDate, this`filteredData
      ensures Valid() && endDate == value
    {
      endDate := value;
      ApplyFiltersAndDisplay();
    }

    /** The data-display select changed. */
    method SetDataDisplay(mode: string)
      requires Valid()
      modifies this`dataDisplay, this`filteredData
      ensures Valid() && dataDisplay == mode
    {
      dataDisplay := mode;
      ApplyFiltersAndDisplay();
    }

    /** `applyExcelFilter(key)` with the ticked values read from the menu. */
    method ApplyExcelFilter(key: string, ticked: seq<string>)
      requires Valid()
      modifies this`excelFilters, this`filteredData
      ensures Valid()
      ensures excelFilters == SetClause(old(excelFilters), key, ticked, DistinctValues(historyData, key))
    {
      if |ticked| == 0 {
        excelFilters := excelFilters[key := [NoneSentinel]];
      } else {
        var allValues := DistinctValues(historyData, key);
        if |ticked| == allValues {
          excelFilters := excelFilters - {key};
        } else {
          excelFilters := excelFilters[key := ticked];
        }
      }
      ApplyFiltersAndDisplay();
    }

    /** `resetAllFilters()`: Excel clauses dropped, data display back to 'all';
        the period and the page stay. */
    method ResetAllFilters()
      requires Valid()
      modifies this`excelFilters, this`dataDisplay, this`filteredData
      ensures Valid()
      ensures excelFilters == map[] && dataDisplay == "all"
      ensures filteredData == Filter(historyData, PeriodTest(startDate, endDate))
    {
      excelFilters := map[];
      dataDisplay := "all";
      ApplyFiltersAndDisplay();
      FilterExt(historyData, ViewTest(startDate, endDate, "all", map[]), PeriodTest(startDate, endDate));
    }

    /** `handleDrop(event)` for a drop of the `dragged` column on the `target`
        column. */
    method HandleDrop(dragged: string, target: string)
      requires Valid()
      modifies this`columnOrder
      ensures Valid()
      ensures columnOrder == Reorder(old(columnOrder), dragged, target)
    {
      ReorderIsPermutation(columnOrder, dragged, target);
      ReorderKeepsDistinct(columnOrder, dragged, target);
      columnOrder := SpliceColumns(columnOrder, dragged, target);
    }

    /** `toggleColumnVisibility(key)`; hiding the last shown column is allowed. */
    method ToggleColumnVisibility(key: string)
      requires Valid()
      modifies this`hiddenColumns
      ensures Valid()
      ensures hiddenColumns == ToggleHidden(old(hiddenColumns), key)
    {
      ToggleHiddenKeepsDistinct(hiddenColumns, key);
      var updated := ToggleHidden(hiddenColumns, key);
      hiddenColumns := updated;
    }

    /** `showAllColumns()`. */
    method ShowAllColumns()
      requires Valid()
      modifies this`hiddenColumns
      ensures Valid() && hiddenColumns == []
    {
      hiddenColumns := [];
    }

    /** `resetToDefault()`: the seven columns in their default order, none hidden. */
    method ResetToDefault()
      requires Valid()
      modifies this`columnOrder, this`hiddenColumns
      ensures Valid() && columnOrder == defaultOrder && hiddenColumns == []
    {
      columnOrder := defaultOrder;
      hiddenColumns := [];
    }

    /** The columns drawn, left to right: `columnOrder` without the hidden ones. */
    function VisibleColumns(): (cols: seq<string>)
      reads this
      requires Valid()
      ensures IsSubsequence(cols, columnOrder) && NoDuplicates(cols)
      ensures forall k :: k in cols <==> k in columnOrder && k !in hiddenColumns
    {
      var hidden := hiddenColumns;
      var shown := (k: string) => k !in hidden;
      FilterIsSubsequence(columnOrder, shown);
      FilterKeepsDistinct(columnOrder, shown);
      FilterMembers(columnOrder, shown);
      Filter(columnOrder, shown)
    }

    /** `displayCurrentPage()`: the rows of the current page, each as the texts
        of its visible cells. */
    function DisplayCurrentPage(): (table: seq<seq<string>>)
      reads this
      requires Valid()
      ensures |table| <= itemsPerPage
      ensures var page := PageSlice(filteredData, currentPage, itemsPerPage);
        |table| == |page| &&
        forall i :: 0 <= i < |table| ==>
          |table[i]| == |VisibleColumns()| &&
          (forall j :: 0 <= j < |table[i]| ==> table[i][j] == FieldText(page[i], VisibleColumns()[j]))
    {
      var page := PageSlice(filteredData, currentPage, itemsPerPage);
      var cols := VisibleColumns();
      seq(|page|, i requires 0 <= i < |page| => seq(|cols|, j requires 0 <= j < |cols| => FieldText(page[i], cols[j])))
    }
  }
}
