/** The live data monitor (`DataMonitor`): a most-recent-first buffer of at
    most 500 access events fed by a refresh tick, a data-type filter and a
    gate filter, and a table showing the first 30 events in a fixed column
    order restricted to the columns ticked as visible. */
module DataMonitorView {
  import opened Wrappers
  import opened Seqs
  import opened Records

  const MaxBufferSize := 500
  /** The table shows at most this many events. */
  const DisplayLimit := 30
  /** The table's columns, in the order of its header cells. */
  const CanonicalColumns: seq<string> :=
    ["occurredDate", "personalCode", "name", "departmentName", "gateNumber", "gateName", "remarks"]

  /** One table cell: the column and the event's value for it. */
  datatype Cell = Cell(key: string, value: Option<string>)

  /** One table row: its `row-<statusClass>` style and its cells. */
  datatype TableRow = TableRow(statusClass: Option<string>, cells: seq<Cell>)

  /* ---------- Buffer ---------- */

  /** The buffer after `unshift(event)` and the truncation to 500 entries. */
  function Pushed(buffer: seq<Row>, event: Row): (next: seq<Row>)
    ensures |next| == if |buffer| + 1 < MaxBufferSize then |buffer| + 1 else MaxBufferSize
    ensures next[0] == event
    ensures next[1..] == buffer[..|next| - 1]
  {
    var grown := [event] + buffer;
    assert grown[1..] == buffer;
    if |grown| > MaxBufferSize then grown[..MaxBufferSize] else grown
  }

  /** Events leave the buffer oldest first: after `n` more pushes the event
      at position `i` is at position `i + n`, as long as that is below 500. */
  lemma {:induction false} PushedShifts(buffer: seq<Row>, events: seq<Row>, i: nat)
    requires i < |buffer| && i + |events| < MaxBufferSize
    ensures var after := PushAll(buffer, events);
      i + |events| < |after| && after[i + |events|] == buffer[i]
  {
    if events != [] {
      PushedShifts(buffer, events[..|events| - 1], i);
      var before := PushAll(buffer, events[..|events| - 1]);
      assert events[..|events| - 1] + [events[|events| - 1]] == events;
      var after := Pushed(before, events[|events| - 1]);
      assert after[1..][i + |events| - 1] == before[i + |events| - 1];
    }
  }

  /** Pushes `events` in order. */
  function PushAll(buffer: seq<Row>, events: seq<Row>): (after: seq<Row>)
    decreases |events|
  {
    if events == [] then buffer
    else Pushed(PushAll(buffer, events[..|events| - 1]), events[|events| - 1])
  }

  /* ---------- Filters ---------- */

  predicate TypeMatches(event: Row, dataType: string)
  {
    Lookup(event, "statusClass") == Some(dataType)
  }

  predicate GateSelected(event: Row, gates: seq<string>)
  {
    "gateNumber" in event && event["gateNumber"] in gates
  }

  function TypeTest(dataType: string): Row -> bool
  {
    event => TypeMatches(event, dataType)
  }

  function GateTest(gates: seq<string>): Row -> bool
  {
    event => GateSelected(event, gates)
  }

  /** What `applyFilters` hands to `renderTable`. */
  function FilteredEvents(buffer: seq<Row>, dataType: string, gates: seq<string>): seq<Row>
  {
    var byType := if dataType != "all" then Filter(buffer, TypeTest(dataType)) else buffer;
    if |gates| > 0 then Filter(byType, GateTest(gates)) else byType
  }

  /** The filtered events are the buffer's events of the chosen type (any, for
      'all') at one of the chosen gates (any, when none is chosen), in buffer
      order. */
  lemma FilteredEventsAreTheMatchingSubsequence(buffer: seq<Row>, dataType: string, gates: seq<string>)
    ensures IsSubsequence(FilteredEvents(buffer, dataType, gates), buffer)
    ensures forall event :: event in FilteredEvents(buffer, dataType, gates) <==>
      event in buffer && (dataType == "all" || TypeMatches(event, dataType)) &&
      (gates == [] || GateSelected(event, gates))
  {
    var byType := if dataType != "all" then Filter(buffer, TypeTest(dataType)) else buffer;
    assert IsSubsequence(byType, buffer) by {
      if dataType != "all" {
        FilterIsSubsequence(buffer, TypeTest(dataType));
      } else {
        FilterKeepsAll(buffer, (event: Row) => true);
        FilterIsSubsequence(buffer, (event: Row) => true);
      }
    }
    forall event
      ensures event in byType <==> event in buffer && (dataType == "all" || TypeMatches(event, dataType))
    {
      if dataType != "all" {
        FilterMember(buffer, TypeTest(dataType), event);
      }
    }
    if |gates| > 0 {
      FilterIsSubsequence(byType, GateTest(gates));
      SubsequenceTransitive(Filter(byType, GateTest(gates)), byType, buffer);
      forall event
        ensures event in FilteredEvents(buffer, dataType, gates) <==> event in byType && GateSelected(event, gates)
      {
        FilterMember(byType, GateTest(gates), event);
      }
    }
  }

  /* ---------- Table ---------- */

  /** The columns drawn: those of `columns` (the table's column list) that
      are ticked, in the order of `columns`. */
  function ShownColumns(columns: seq<string>, visible: seq<string>): seq<string>
  {
    Filter(columns, (key: string) => key in visible)
  }

  /** The cells drawn for `event` when `shown` are the columns drawn. */
  function CellsOf(event: Row, shown: seq<string>): (cells: seq<Cell>)
    ensures |cells| == |shown|
  {
    seq(|shown|, i requires 0 <= i < |shown| => Cell(shown[i], Lookup(event, shown[i])))
  }

  function RowFor(event: Row, shown: seq<string>): TableRow
  {
    TableRow(Lookup(event, "statusClass"), CellsOf(event, shown))
  }

  /** The table body for `data`: its first 30 events. */
  function BodyFor(data: seq<Row>, shown: seq<string>): (body: seq<TableRow>)
    ensures |body| == if |data| < DisplayLimit then |data| else DisplayLimit
    ensures forall i :: 0 <= i < |body| ==> body[i] == RowFor(data[i], shown)
  {
    var first := Take(data, DisplayLimit);
    seq(|first|, i requires 0 <= i < |first| => RowFor(first[i], shown))
  }

  /** Every row has a cell for exactly the ticked columns, in the order of the
      column list, whatever the order (or repetition) of the ticked list. */
  lemma CellsFollowTheColumnOrder(event: Row, columns: seq<string>, visible: seq<string>, other: seq<string>)
    ensures IsSubsequence(ShownColumns(columns, visible), columns)
    ensures forall key :: key in ShownColumns(columns, visible) <==> key in columns && key in visible
    ensures (forall key :: key in visible <==> key in other) ==>
      CellsOf(event, ShownColumns(columns, visible)) == CellsOf(event, ShownColumns(columns, other))
  {
    var inVisible := (key: string) => key in visible;
    FilterIsSubsequence(columns, inVisible);
    FilterMembers(columns, inVisible);
    if forall key :: key in visible <==> key in other {
      FilterExt(columns, inVisible, (key: string) => key in other);
    }
  }

  /** With every column ticked, every column is drawn. */
  lemma AllTickedShowsAll(columns: seq<string>)
    ensures ShownColumns(columns, columns) == columns
  {
    FilterKeepsAll(columns, (key: string) => key in columns);
  }

  /** Header `i` is shown exactly when every drawn row has a cell for its
      column. */
  lemma HeaderMatchesCells(event: Row, columns: seq<string>, visible: seq<string>, i: nat)
    requires i < |columns|
    ensures (columns[i] in visible) <==>
      exists j :: 0 <= j < |ShownColumns(columns, visible)| &&
        CellsOf(event, ShownColumns(columns, visible))[j].key == columns[i]
  {
    var inVisible := (key: string) => key in visible;
    var shown := ShownColumns(columns, visible);
    FilterMember(columns, inVisible, columns[i]);
    if columns[i] in visible {
      var j :| 0 <= j < |shown| && shown[j] == columns[i];
      assert CellsOf(event, shown)[j].key == columns[i];
    } else {
      forall j | 0 <= j < |shown| ensures shown[j] != columns[i] {
        assert shown[j] in shown;
      }
    }
  }

  /** The header flags after `updateTableHeaders()`: header `i` is mapped to
      column `keys[i]` while `i` is below the number of columns, and then is
      shown exactly when that column is ticked; a header cell past the mapping
      keeps its flag. */
  function HeadersAfter(headers: seq<bool>, keys: seq<string>, visible: seq<string>): (shown: seq<bool>)
    ensures |shown| == |headers|
    ensures forall i :: 0 <= i < |headers| && i < |keys| ==> shown[i] == (keys[i] in visible)
    ensures forall i :: |keys| <= i < |headers| ==> shown[i] == headers[i]
  {
    seq(|headers|, i requires 0 <= i < |headers| => if i < |keys| then keys[i] in visible else headers[i])
  }

  /** Redrawing the headers twice is redrawing them once, and the result
      depends only on which columns are ticked, not on their order. */
  lemma HeadersAfterIsStable(headers: seq<bool>, keys: seq<string>, visible: seq<string>, other: seq<string>)
    ensures HeadersAfter(HeadersAfter(headers, keys, visible), keys, visible) == HeadersAfter(headers, keys, visible)
    ensures (forall key :: key in visible <==> key in other) ==>
      HeadersAfter(headers, keys, visible) == HeadersAfter(headers, keys, other)
  {
  }

  /** The cells of one event: a loop over the column list that appends the
      ticked columns. */
  method RenderRow(event: Row, columns: seq<string>, visible: seq<string>) returns (tr: TableRow)
    ensures tr == RowFor(event, ShownColumns(columns, visible))
  {
    var inVisible := (key: string) => key in visible;
    var cells: seq<Cell> := [];
    ghost var shown: seq<string> := [];
    var i := 0;
    while i < |columns|
      invariant 0 <= i <= |columns|
      invariant shown == Filter(columns[..i], inVisible)
      invariant cells == CellsOf(event, shown)
    {
      var key := columns[i];
      FilterSnoc(columns, i, inVisible);
      if key in visible {
        cells := cells + [Cell(key, Lookup(event, key))];
        shown := shown + [key];
      }
      i := i + 1;
    }
    assert columns[..i] == columns;
    tr := TableRow(Lookup(event, "statusClass"), cells);
  }

  class DataMonitor {
    /** The keys of the cells `renderTable` builds for each event, which are
        also the keys `updateTableHeaders` maps the header cells to. */
    const columnKeys: seq<string>
    var isAutoScrollEnabled: bool
    var dataBuffer: seq<Row>
    var dataType: string
    var selectedGates: seq<string>
    var visibleColumns: seq<string>
    /** The rows of the table body, as last drawn. */
    var tableBody: seq<TableRow>
    /** Whether each header cell of the table is displayed. */
    var headerShown: seq<bool>

    /** The buffer holds at most 500 events and every mapped header shows
        exactly when its column is ticked. */
    ghost predicate Valid()
      reads this
    {
      |dataBuffer| <= MaxBufferSize &&
      forall i :: 0 <= i < |headerShown| && i < |columnKeys| ==> headerShown[i] == (columnKeys[i] in visibleColumns)
    }

    /** A monitor over the demo events `initial` (newest last, as generated)
        and a table with `headerCount` header cells and the column list
        `columns` (on the page always `CanonicalColumns`), drawn once. */
    constructor (initial: seq<Row>, headerCount: nat, columns: seq<string>)
      requires |initial| <= MaxBufferSize
      ensures Valid()
      ensures isAutoScrollEnabled && dataBuffer == initial
      ensures columnKeys == columns
      ensures dataType == "all" && selectedGates == [] && visibleColumns == columnKeys
      ensures tableBody == BodyFor(initial, ShownColumns(columnKeys, visibleColumns))
      ensures |headerShown| == headerCount && forall i :: 0 <= i < headerCount ==> headerShown[i]
    {
      columnKeys := columns;
      isAutoScrollEnabled := true;
      dataBuffer := initial;
      dataType, selectedGates, visibleColumns := "all", [], columnKeys;
      tableBody := [];
      headerShown := seq(headerCount, i => true);
      new;
      RenderTable(None);
    }

    /** The refresh tick: adds `event` only while auto-scroll is on. */
    method Tick(event: Row)
      requires Valid()
      modifies this`dataBuffer, this`tableBody, this`headerShown
      ensures Valid()
      ensures isAutoScrollEnabled ==>
        dataBuffer == Pushed(old(dataBuffer), event) &&
        tableBody == BodyFor(FilteredEvents(dataBuffer, dataType, selectedGates), ShownColumns(columnKeys, visibleColumns)) &&
        headerShown == HeadersAfter(old(headerShown), columnKeys, visibleColumns)
      ensures !isAutoScrollEnabled ==>
        dataBuffer == old(dataBuffer) && tableBody == old(tableBody) && headerShown == old(headerShown)
    {
      if isAutoScrollEnabled {
        AddNewData(event);
      }
    }

    /** `addNewData()` with the generated event as `event`. */
    method AddNewData(event: Row)
      requires Valid()
      modifies this`dataBuffer, this`tableBody, this`headerShown
      ensures Valid()
      ensures dataBuffer == Pushed(old(dataBuffer), event)
      ensures tableBody == BodyFor(FilteredEvents(dataBuffer, dataType, selectedGates), ShownColumns(columnKeys, visibleColumns))
      ensures headerShown == HeadersAfter(old(headerShown), columnKeys, visibleColumns)
    {
      dataBuffer := [event] + dataBuffer;
      if |dataBuffer| > MaxBufferSize {
        dataBuffer := dataBuffer[..MaxBufferSize];
      }
      ApplyFilters();
    }

    /** `toggleAutoScroll()`. */
    method ToggleAutoScroll()
      modifies this`isAutoScrollEnabled
      ensures isAutoScrollEnabled == !old(isAutoScrollEnabled)
    {
      isAutoScrollEnabled := !isAutoScrollEnabled;
    }

    /** The data-type select changed. */
    method SetDataType(value: string)
      requires Valid()
      modifies this`dataType, this`tableBody, this`headerShown
      ensures Valid() && dataType == value
      ensures tableBody == BodyFor(FilteredEvents(dataBuffer, dataType, selectedGates), ShownColumns(columnKeys, visibleColumns))
      ensures headerShown == HeadersAfter(old(headerShown), columnKeys, visibleColumns)
    {
      dataType := value;
      ApplyFilters();
    }

    /** `updateGateFilters()` with the values of the ticked gate boxes. */
    method UpdateGateFilters(checked: seq<string>)
      requires Valid()
      modifies this`selectedGates, this`tableBody, this`headerShown
      ensures Valid() && selectedGates == checked
      ensures tableBody == BodyFor(FilteredEvents(dataBuffer, dataType, selectedGates), ShownColumns(columnKeys, visibleColumns))
      ensures headerShown == HeadersAfter(old(headerShown), columnKeys, visibleColumns)
    {
      selectedGates := [];
      var i := 0;
      while i < |checked|
        invariant 0 <= i <= |checked| && selectedGates == checked[..i]
        invariant headerShown == old(headerShown)
      {
        selectedGates := selectedGates + [checked[i]];
        i := i + 1;
      }
      assert checked[..i] == checked;
      ApplyFilters();
    }

    /** `updateColumnVisibility()` with the values of the ticked column boxes;
        it redraws the whole buffer, unfiltered. */
    method UpdateColumnVisibility(checked: seq<string>)
      requires Valid()
      modifies this`visibleColumns, this`tableBody, this`headerShown
      ensures Valid() && visibleColumns == checked
      ensures tableBody == BodyFor(dataBuffer, ShownColumns(columnKeys, visibleColumns))
      ensures headerShown == HeadersAfter(old(headerShown), columnKeys, visibleColumns)
    {
      visibleColumns := [];
      var i := 0;
      while i < |checked|
        invariant 0 <= i <= |checked| && visibleColumns == checked[..i]
        invariant headerShown == old(headerShown)
      {
        visibleColumns := visibleColumns + [checked[i]];
        i := i + 1;
      }
      assert checked[..i] == checked;
      RenderTable(None);
    }

    /** `applyFilters()`. */
    method ApplyFilters()
      modifies this`tableBody, this`headerShown
      ensures tableBody == BodyFor(FilteredEvents(dataBuffer, dataType, selectedGates), ShownColumns(columnKeys, visibleColumns))
      ensures headerShown == HeadersAfter(old(headerShown), columnKeys, visibleColumns)
    {
      var filtered := dataBuffer;
      if dataType != "all" {
        filtered := Filter(filtered, TypeTest(dataType));
      }
      if |selectedGates| > 0 {
        filtered := Filter(filtered, GateTest(selectedGates));
      }
      RenderTable(Some(filtered));
    }

    /** `renderTable(data)`: draws the first 30 events of `data`, or of the
        buffer when no data is passed, then updates the headers. */
    method RenderTable(data: Option<seq<Row>>)
      modifies this`tableBody, this`headerShown
      ensures tableBody == BodyFor(if data.Some? then data.value else dataBuffer, ShownColumns(columnKeys, visibleColumns))
      ensures headerShown == HeadersAfter(old(headerShown), columnKeys, visibleColumns)
    {
      var renderData := if data.Some? then data.value else dataBuffer;
      var displayData := Take(renderData, DisplayLimit);
      var body: seq<TableRow> := [];
      var i := 0;
      while i < |displayData|
        invariant 0 <= i <= |displayData|
        invariant |body| == i && forall k :: 0 <= k < i ==> body[k] == RowFor(displayData[k], ShownColumns(columnKeys, visibleColumns))
        invariant headerShown == old(headerShown)
      {
        var tr := RenderRow(displayData[i], columnKeys, visibleColumns);
        body := body + [tr];
        i := i + 1;
      }
      assert body == BodyFor(renderData, ShownColumns(columnKeys, visibleColumns));
      tableBody := body;
      UpdateTableHeaders();
    }

    /** `updateTableHeaders()`: header `i` below seven is shown exactly when its
        column is ticked; any further header cell is left as it is. */
    method UpdateTableHeaders()
      modifies this`headerShown
      ensures headerShown == HeadersAfter(old(headerShown), columnKeys, visibleColumns)
    {
      var i := 0;
      while i < |headerShown|
        invariant 0 <= i <= |headerShown| == old(|headerShown|)
        invariant forall k :: 0 <= k < i ==>
          headerShown[k] == if k < |columnKeys| then columnKeys[k] in visibleColumns else old(headerShown[k])
        invariant forall k :: i <= k < |headerShown| ==> headerShown[k] == old(headerShown[k])
      {
        if i < |columnKeys| {
          headerShown := headerShown[i := columnKeys[i] in visibleColumns];
        }
        i := i + 1;
      }
    }
  }
}
