/** The personnel list screen: the column filter over the loaded persons, a
    sortable and paged view of the result, selection with bulk delete and bulk
    "mark as sent", the gate-permission tally and the CSV export. The screen's
    module-level variables are the fields of one `PersonalList` object. */
module PersonalListView {
  import opened Wrappers
  import opened Seqs
  import opened Text
  import opened Paging
  import opened Records

  /** One person: the numeric id, the text fields (`personalCode`, `name`,
      `personalSend`, ...), the ten gate-permission codes and the selection
      checkbox. */
  datatype Person = Person(id: int, fields: Row, gatePermissions: seq<string>, selected: bool)

  const DefaultItemsPerPage := 30
  /** The `personalSend` value `sendPersonalData` writes. */
  const SentMark := "送信済"
  /** The CSV columns, in order, and their header texts. */
  const CsvColumns: seq<string> := ["personalCode", "name", "katakana", "departmentCode", "kubunCode", "personalSend"]
  const CsvHeaders: seq<string> := ["個人コード", "氏名", "カタカナ", "所属", "区分", "送信状態"]

  /* ---------- Column filter ---------- */

  function MatchTest(filters: map<string, seq<string>>): Person -> bool
  {
    (person: Person) => MatchesFilters(person.fields, filters)
  }

  /** What `applyFiltersAndDisplay` puts in `filteredData`. */
  function FilteredPersons(data: seq<Person>, filters: map<string, seq<string>>): seq<Person>
  {
    Filter(data, MatchTest(filters))
  }

  /** The filtered list is the order-preserving subsequence of the persons
      whose every non-empty clause holds; with no clause it is the whole list. */
  lemma FilteredPersonsAreTheMatchingSubsequence(data: seq<Person>, filters: map<string, seq<string>>)
    ensures IsSubsequence(FilteredPersons(data, filters), data)
    ensures forall person :: person in FilteredPersons(data, filters) <==>
      person in data && MatchesFilters(person.fields, filters)
    ensures filters == map[] ==> FilteredPersons(data, filters) == data
  {
    FilterIsSubsequence(data, MatchTest(filters));
    FilterMembers(data, MatchTest(filters));
    if filters == map[] {
      FilterKeepsAll(data, MatchTest(filters));
    }
  }

  /** The test the filter callback runs on one person: a loop over the filter
      entries that skips empty lists and rejects at the first clause that fails. */
  method PersonMatches(person: Person, filters: map<string, seq<string>>) returns (keep: bool)
    ensures keep == MatchesFilters(person.fields, filters)
  {
    var pending := filters.Keys;
    ghost var done: map<string, seq<string>> := map[];
    while pending != {}
      invariant pending !! done.Keys && pending + done.Keys == filters.Keys
      invariant forall k :: k in done ==> done[k] == filters[k]
      invariant MatchesFilters(person.fields, done)
      decreases pending
    {
      var key :| key in pending;
      var values := filters[key];
      FiltersExtend(person.fields, done, key, values);
      if |values| > 0 && !(key in person.fields && person.fields[key] in values) {
        assert key in filters && filters[key] == values;
        return false;
      }
      done := done[key := values];
      pending := pending - {key};
    }
    assert done == filters;
    return true;
  }

  /* ---------- Sorting ---------- */

  datatype Direction = Ascending | Descending

  /** `sortState`: the active column (`null` at first) and the direction. */
  datatype SortState = SortState(column: Option<string>, direction: Direction)

  const InitialSortState := SortState(None, Ascending)

  /** The state after a click on the header of `column`. */
  function NextSortState(state: SortState, column: string): (next: SortState)
    ensures next.column == Some(column)
    ensures state.column == Some(column) ==> next.direction != state.direction
    ensures state.column != Some(column) ==> next.direction == Ascending
  {
    if state.column == Some(column) then
      SortState(state.column, if state.direction == Ascending then Descending else Ascending)
    else
      SortState(Some(column), Ascending)
  }

  /** Clicks on a column that is not the active one: the first sorts ascending,
      the second descending, the third ascending again; two clicks on the active
      column give back the state. */
  lemma SortClicks(state: SortState, column: string)
    ensures var once := NextSortState(state, column);
      var twice := NextSortState(once, column);
      var thrice := NextSortState(twice, column);
      (state.column != Some(column) ==>
         once.direction == Ascending && twice.direction == Descending && thrice.direction == Ascending) &&
      (state.column == Some(column) ==> twice == state)
  {
  }

  /** The comparator's key: the field's text (`''` when missing), lower-cased. */
  function SortKey(person: Person, column: string): string
  {
    Lower(FieldText(person.fields, column))
  }

  /** The comparator returns a negative number: `a` goes before `b`. */
  predicate Before(a: Person, b: Person, column: string, direction: Direction)
  {
    if direction == Ascending then Less(SortKey(a, column), SortKey(b, column))
    else Less(SortKey(b, column), SortKey(a, column))
  }

  /** No person is placed after one the comparator puts after it. */
  predicate Sorted(s: seq<Person>, column: string, direction: Direction)
  {
    forall i, j :: 0 <= i < j < |s| ==> !Before(s[j], s[i], column, direction)
  }

  /** Puts `x` before the first element that does not go before it. */
  function Insert(x: Person, s: seq<Person>, column: string, direction: Direction): (r: seq<Person>)
    ensures |r| == |s| + 1
  {
    if s == [] || !Before(s[0], x, column, direction) then [x] + s
    else [s[0]] + Insert(x, s[1..], column, direction)
  }

  /** `filteredData.sort(comparator)`: a stable sort (as `Array.prototype.sort`
      is required to be), written as an insertion sort. */
  function Sort(s: seq<Person>, column: string, direction: Direction): (r: seq<Person>)
    ensures |r| == |s|
  {
    if s == [] then [] else Insert(s[0], Sort(s[1..], column, direction), column, direction)
  }

  /** "Does not go before" is transitive, in both directions. */
  lemma NotBeforeTransitive(a: Person, b: Person, c: Person, column: string, direction: Direction)
    requires !Before(b, a, column, direction) && !Before(c, b, column, direction)
    ensures !Before(c, a, column, direction)
  {
    var ka, kb, kc := SortKey(a, column), SortKey(b, column), SortKey(c, column);
    if direction == Ascending {
      AtMostTransitive(ka, kb, kc);
    } else {
      AtMostTransitive(kc, kb, ka);
    }
  }

  /** Two persons the comparator does not order have the same key. */
  lemma TieMeansSameKey(a: Person, b: Person, column: string, direction: Direction)
    requires !Before(a, b, column, direction) && !Before(b, a, column, direction)
    ensures SortKey(a, column) == SortKey(b, column)
  {
    LessTotal(SortKey(a, column), SortKey(b, column));
  }

  lemma {:induction false} InsertPermutes(x: Person, s: seq<Person>, column: string, direction: Direction)
    ensures multiset(Insert(x, s, column, direction)) == multiset(s) + multiset{x}
  {
    if s != [] && Before(s[0], x, column, direction) {
      InsertPermutes(x, s[1..], column, direction);
      assert s == [s[0]] + s[1..];
    }
  }

  lemma SortedTail(s: seq<Person>, column: string, direction: Direction)
    requires s != [] && Sorted(s, column, direction)
    ensures Sorted(s[1..], column, direction)
  {
    forall i, j | 0 <= i < j < |s| - 1 ensures !Before(s[1..][j], s[1..][i], column, direction) {
      assert s[1..][i] == s[i + 1] && s[1..][j] == s[j + 1];
    }
  }

  lemma SortedCons(y: Person, t: seq<Person>, column: string, direction: Direction)
    requires Sorted(t, column, direction)
    requires forall z :: z in t ==> !Before(z, y, column, direction)
    ensures Sorted([y] + t, column, direction)
  {
    var r := [y] + t;
    forall i, j | 0 <= i < j < |r| ensures !Before(r[j], r[i], column, direction) {
      assert r[j] == t[j - 1];
      if i > 0 {
        assert r[i] == t[i - 1];
      }
    }
  }

  lemma {:induction false} InsertKeepsSorted(x: Person, s: seq<Person>, column: string, direction: Direction)
    requires Sorted(s, column, direction)
    ensures Sorted(Insert(x, s, column, direction), column, direction)
  {
    if s == [] || !Before(s[0], x, column, direction) {
      forall z | z in s ensures !Before(z, x, column, direction) {
        var j :| 0 <= j < |s| && s[j] == z;
        if j > 0 {
          NotBeforeTransitive(x, s[0], z, column, direction);
        }
      }
      SortedCons(x, s, column, direction);
    } else {
      var tail := Insert(x, s[1..], column, direction);
      SortedTail(s, column, direction);
      InsertKeepsSorted(x, s[1..], column, direction);
      InsertPermutes(x, s[1..], column, direction);
      forall z | z in tail ensures !Before(z, s[0], column, direction) {
        assert z in multiset(tail);
        if z == x {
          LessAsymmetric(SortKey(s[0], column), SortKey(x, column));
        } else {
          assert z in multiset(s[1..]);
          var k :| 0 <= k < |s| - 1 && s[1..][k] == z;
          assert s[k + 1] == z;
        }
      }
      SortedCons(s[0], tail, column, direction);
    }
  }

  /** The sort orders the list by the comparator and is a permutation of it. */
  lemma {:induction false} SortIsSortedPermutation(s: seq<Person>, column: string, direction: Direction)
    ensures Sorted(Sort(s, column, direction), column, direction)
    ensures multiset(Sort(s, column, direction)) == multiset(s)
  {
    if s != [] {
      SortIsSortedPermutation(s[1..], column, direction);
      InsertKeepsSorted(s[0], Sort(s[1..], column, direction), column, direction);
      InsertPermutes(s[0], Sort(s[1..], column, direction), column, direction);
      assert s == [s[0]] + s[1..];
    }
  }

  function KeyIs(column: string, key: string): Person -> bool
  {
    (person: Person) => SortKey(person, column) == key
  }

  lemma {:induction false} InsertIsStable(x: Person, s: seq<Person>, column: string, direction: Direction, key: string)
    ensures Filter(Insert(x, s, column, direction), KeyIs(column, key)) == Filter([x] + s, KeyIs(column, key))
  {
    if s != [] && Before(s[0], x, column, direction) {
      var same := KeyIs(column, key);
      InsertIsStable(x, s[1..], column, direction, key);
      LessIrreflexive(SortKey(x, column));
      assert SortKey(s[0], column) != SortKey(x, column);
      assert ([s[0]] + Insert(x, s[1..], column, direction))[1..] == Insert(x, s[1..], column, direction);
      assert ([x] + s)[1..] == s && ([x] + s[1..])[1..] == s[1..];
      assert (([x] + s)[1..])[1..] == s[1..];
    }
  }

  /** Persons with equal keys keep their relative order: for every key, the
      persons carrying it appear in the sorted list as in the input. */
  lemma {:induction false} SortIsStable(s: seq<Person>, column: string, direction: Direction, key: string)
    ensures Filter(Sort(s, column, direction), KeyIs(column, key)) == Filter(s, KeyIs(column, key))
  {
    if s != [] {
      SortIsStable(s[1..], column, direction, key);
      InsertIsStable(s[0], Sort(s[1..], column, direction), column, direction, key);
      assert ([s[0]] + Sort(s[1..], column, direction))[1..] == Sort(s[1..], column, direction);
    }
  }

  /* ---------- Gate-permission tally ---------- */

  /** `/\d/.test(code)`: the code contains an ASCII digit. */
  predicate HasDigit(code: string)
  {
    exists i :: 0 <= i < |code| && '0' <= code[i] <= '9'
  }

  /** A code `generateGatePermissions` can produce: one digit, `C`, `R` or `-`. */
  predicate IsPermissionCode(code: string)
  {
    (|code| == 1 && '0' <= code[0] <= '9') || code == "C" || code == "R" || code == "-"
  }

  /** A code some counter of the tally counts. */
  predicate Tallied(code: string)
  {
    HasDigit(code) || code == "C" || code == "R" || code == "-"
  }

  datatype PermissionStats = PermissionStats(access: nat, noAccess: nat, restricted: nat, none: nat)

  function Total(stats: PermissionStats): nat
  {
    stats.access + stats.noAccess + stats.restricted + stats.none
  }

  /** `calculatePermissionStats(permissions)`. */
  function CalculatePermissionStats(permissions: seq<string>): (stats: PermissionStats)
    ensures stats.access <= |permissions| && stats.noAccess <= |permissions|
    ensures stats.restricted <= |permissions| && stats.none <= |permissions|
  {
    PermissionStats(
      |Filter(permissions, (code: string) => HasDigit(code))|,
      |Filter(permissions, (code: string) => code == "C")|,
      |Filter(permissions, (code: string) => code == "R")|,
      |Filter(permissions, (code: string) => code == "-")|)
  }

  /** The four counters count disjoint classes: their sum is the number of
      codes some counter counts. */
  lemma {:induction false} TallyCountsEachCodeOnce(permissions: seq<string>)
    ensures Total(CalculatePermissionStats(permissions)) == |Filter(permissions, (code: string) => Tallied(code))|
  {
    if permissions != [] {
      TallyCountsEachCodeOnce(permissions[1..]);
      var code := permissions[0];
      if code == "C" || code == "R" || code == "-" {
        assert !HasDigit(code);
      }
    }
  }

  /** The counts never exceed the list, and add up to its length exactly when
      every code is of one of the four kinds, as every code that
      `generateGatePermissions` produces is. */
  lemma TallyTotal(permissions: seq<string>)
    ensures Total(CalculatePermissionStats(permissions)) <= |permissions|
    ensures Total(CalculatePermissionStats(permissions)) == |permissions| <==>
      forall code :: code in permissions ==> Tallied(code)
    ensures (forall code :: code in permissions ==> IsPermissionCode(code)) ==>
      Total(CalculatePermissionStats(permissions)) == |permissions|
  {
    var tallied := (code: string) => Tallied(code);
    TallyCountsEachCodeOnce(permissions);
    FilterFullLength(permissions, tallied);
    if forall code :: code in permissions ==> Tallied(code) {
      FilterKeepsAll(permissions, tallied);
    }
    forall code | code in permissions && IsPermissionCode(code) ensures Tallied(code) {
      if |code| == 1 && '0' <= code[0] <= '9' {
        assert HasDigit(code);
      }
    }
  }

  /* ---------- Bulk operations ---------- */

  function IsSelected(person: Person): bool
  {
    person.selected
  }

  function IsNotSelected(person: Person): bool
  {
    !person.selected
  }

  function PersonId(person: Person): int
  {
    person.id
  }

  /** The ids the sample generator hands out are distinct. */
  predicate DistinctIds(data: seq<Person>)
  {
    DistinctBy(data, PersonId)
  }

  /** The list after a confirmed bulk delete: the unselected persons. */
  function WithoutSelected(data: seq<Person>): (rest: seq<Person>)
    ensures |rest| == |data| - |Filter(data, IsSelected)|
  {
    FilterSplitLength(data, IsSelected, IsNotSelected);
    Filter(data, IsNotSelected)
  }

  /** Deleting removes exactly the selected persons and keeps the others in
      order. */
  lemma WithoutSelectedRemovesExactlyTheSelected(data: seq<Person>)
    ensures IsSubsequence(WithoutSelected(data), data)
    ensures forall person :: person in WithoutSelected(data) <==> person in data && !person.selected
    ensures DistinctIds(data) ==> DistinctIds(WithoutSelected(data))
  {
    FilterIsSubsequence(data, IsNotSelected);
    FilterMembers(data, IsNotSelected);
    if DistinctIds(data) {
      FilterKeepsDistinctBy(data, IsNotSelected, PersonId);
    }
  }

  /** A person after `person.personalSend = '送信済'` when selected. */
  function MarkSentIfSelected(person: Person): Person
  {
    if person.selected then person.(fields := person.fields["personalSend" := SentMark]) else person
  }

  /** The list after a confirmed send. */
  function MarkSelectedSent(data: seq<Person>): (sent: seq<Person>)
    ensures |sent| == |data|
  {
    seq(|data|, i requires 0 <= i < |data| => MarkSentIfSelected(data[i]))
  }

  /** Sending marks exactly the selected persons as sent, changes nothing else
      about them and leaves every other person untouched; sending again
      changes nothing. */
  lemma MarkSelectedSentChangesExactlyTheSelected(data: seq<Person>)
    ensures var sent := MarkSelectedSent(data);
      (forall i :: 0 <= i < |data| && data[i].selected ==>
         FieldText(sent[i].fields, "personalSend") == SentMark &&
         sent[i].id == data[i].id && sent[i].selected &&
         sent[i].gatePermissions == data[i].gatePermissions &&
         (forall k :: k != "personalSend" ==> Lookup(sent[i].fields, k) == Lookup(data[i].fields, k))) &&
      (forall i :: 0 <= i < |data| && !data[i].selected ==> sent[i] == data[i])
    ensures MarkSelectedSent(MarkSelectedSent(data)) == MarkSelectedSent(data)
    ensures DistinctIds(data) ==> DistinctIds(MarkSelectedSent(data))
  {
    var sent := MarkSelectedSent(data);
    var twice := MarkSelectedSent(sent);
    forall i | 0 <= i < |data| ensures twice[i] == sent[i] {
      if data[i].selected {
        assert sent[i].fields["personalSend" := SentMark] == sent[i].fields;
      }
    }
  }

  /** What a bulk action ended with: nothing selected (the alert), the user
      declined the confirmation, or the action was carried out. */
  datatype Outcome = NothingSelected | Declined | Done

  function Ids(data: seq<Person>): (ids: seq<int>)
    ensures |ids| == |data| && forall i :: 0 <= i < |data| ==> ids[i] == data[i].id
  {
    seq(|data|, i requires 0 <= i < |data| => data[i].id)
  }

  /** The person list after `personalData.find(p => p.id === id)` and the
      assignment to that person's `selected`. */
  function SelectFirst(data: seq<Person>, id: int, selected: bool): (r: seq<Person>)
    ensures |r| == |data| && Ids(r) == Ids(data)
    ensures var k := IndexOf(Ids(data), id);
      (k == -1 ==> r == data) &&
      (k != -1 ==> r[k] == data[k].(selected := selected) && data[k].id == id &&
                   forall i :: 0 <= i < |data| && i != k ==> r[i] == data[i])
  {
    var k := IndexOf(Ids(data), id);
    if k == -1 then data else data[k := data[k].(selected := selected)]
  }

  /** The filtered list after the checkbox of `id` changed: it holds the very
      objects of the person list, so the person carrying the id changes there
      too. */
  function SelectAllWithId(data: seq<Person>, id: int, selected: bool): (r: seq<Person>)
    ensures |r| == |data|
    ensures forall i :: 0 <= i < |data| ==>
      r[i] == if data[i].id == id then data[i].(selected := selected) else data[i]
  {
    seq(|data|, i requires 0 <= i < |data| => if data[i].id == id then data[i].(selected := selected) else data[i])
  }

  /** When the filtered list is drawn from a person list whose ids are
      distinct, updating the filtered entries that carry the id gives exactly
      the persons the single update of the person list produces: the two
      lists stay in step, and a filtered list without that person is left
      as it was. */
  lemma {:induction false} FilteredSelectionFollowsThePersonList(data: seq<Person>, filtered: seq<Person>, id: int, selected: bool)
    requires DistinctIds(data)
    requires forall person :: person in filtered ==> person in data
    ensures forall person :: person in SelectAllWithId(filtered, id, selected) ==> person in SelectFirst(data, id, selected)
    ensures id !in Ids(data) ==> SelectAllWithId(filtered, id, selected) == filtered
  {
    var r := SelectAllWithId(filtered, id, selected);
    var after := SelectFirst(data, id, selected);
    var k := IndexOf(Ids(data), id);
    forall i | 0 <= i < |filtered| ensures r[i] in after {
      assert filtered[i] in data;
      var j :| 0 <= j < |data| && data[j] == filtered[i];
      if filtered[i].id == id {
        assert Ids(data)[j] == id && PersonId(data[j]) == PersonId(data[k]);
        assert after[j] == r[i];
      } else {
        assert after[j] == data[j];
      }
    }
    if id !in Ids(data) {
      forall i | 0 <= i < |filtered| ensures r[i] == filtered[i] {
        assert filtered[i] in data;
        var j :| 0 <= j < |data| && data[j] == filtered[i];
        assert Ids(data)[j] == data[j].id;
      }
    }
  }

  /* ---------- CSV export ---------- */

  /** One CSV line: the six fields joined by commas, a missing field empty. */
  function CsvLine(person: Person): string
  {
    Join(seq(|CsvColumns|, i requires 0 <= i < |CsvColumns| => FieldText(person.fields, CsvColumns[i])), ",")
  }

  /** The lines of the export: the header, then one line per person in order. */
  function CsvLines(data: seq<Person>): (lines: seq<string>)
    ensures |lines| == |data| + 1
    ensures lines[0] == Join(CsvHeaders, ",")
    ensures forall i :: 0 <= i < |data| ==> lines[i + 1] == CsvLine(data[i])
  {
    [Join(CsvHeaders, ",")] + seq(|data|, i requires 0 <= i < |data| => CsvLine(data[i]))
  }

  predicate FieldsAvoid(data: seq<Person>, c: char)
  {
    forall i, k :: 0 <= i < |data| && 0 <= k < |CsvColumns| ==> c !in FieldText(data[i].fields, CsvColumns[k])
  }

  /** Without commas in the fields, every line has exactly six fields. */
  lemma CsvLineHasSixFields(person: Person)
    requires forall k :: 0 <= k < |CsvColumns| ==> ',' !in FieldText(person.fields, CsvColumns[k])
    ensures Count(CsvLine(person), ',') == |CsvColumns| - 1
  {
    var parts := seq(|CsvColumns|, i requires 0 <= i < |CsvColumns| => FieldText(person.fields, CsvColumns[i]));
    JoinCount(parts, ',');
  }

  /** Without newlines in the fields, the text has `1 + |data|` lines: the
      header and one line per person. */
  lemma CsvHasOneLinePerPerson(data: seq<Person>)
    requires FieldsAvoid(data, '\n')
    ensures Count(Join(CsvLines(data), "\n"), '\n') == |data|
  {
    var lines := CsvLines(data);
    JoinAvoids(CsvHeaders, ",", '\n');
    forall i | 0 <= i < |lines| ensures '\n' !in lines[i] {
      if i > 0 {
        var person := data[i - 1];
        var parts := seq(|CsvColumns|, k requires 0 <= k < |CsvColumns| => FieldText(person.fields, CsvColumns[k]));
        JoinAvoids(parts, ",", '\n');
      }
    }
    JoinCount(lines, '\n');
  }

  class PersonalList {
    var personalData: seq<Person>
    var filteredData: seq<Person>
    var currentPage: int
    var itemsPerPage: int
    var currentFilters: map<string, seq<string>>
    var sortState: SortState

    /** Page numbers and sizes are positive, ids identify persons and every
        filtered entry is one of the persons. */
    ghost predicate Valid()
      reads this
    {
      currentPage >= 1 && itemsPerPage >= 1 && DistinctIds(personalData) &&
      forall person :: person in filteredData ==> person in personalData
    }

    /** The screen after loading `data` (`filteredData = [...personalData]`). */
    constructor (data: seq<Person>)
      requires DistinctIds(data)
      ensures Valid()
      ensures personalData == data && filteredData == data
      ensures currentPage == 1 && itemsPerPage == DefaultItemsPerPage
      ensures currentFilters == map[] && sortState == InitialSortState
    {
      personalData, filteredData := data, data;
      currentPage, itemsPerPage := 1, DefaultItemsPerPage;
      currentFilters, sortState := map[], InitialSortState;
    }

    /** `applyFiltersAndDisplay()`: re-filters from `personalData`, which drops
        any sort; the page is not reset. */
    method ApplyFiltersAndDisplay()
      modifies this`filteredData
      ensures filteredData == FilteredPersons(personalData, currentFilters)
      ensures forall person :: person in filteredData ==> person in personalData
    {
      var kept: seq<Person> := [];
      var i := 0;
      while i < |personalData|
        invariant 0 <= i <= |personalData|
        invariant kept == Filter(personalData[..i], MatchTest(currentFilters))
      {
        var keep := PersonMatches(personalData[i], currentFilters);
        FilterSnoc(personalData, i, MatchTest(currentFilters));
        if keep {
          kept := kept + [personalData[i]];
        }
        i := i + 1;
      }
      assert personalData[..i] == personalData;
      FilterMembers(personalData, MatchTest(currentFilters));
      filteredData := kept;
    }

    /** `handleSort(column)`: updates the sort state, sorts `filteredData` and
        goes to page 1. */
    method HandleSort(column: string)
      requires Valid()
      modifies this`sortState, this`filteredData, this`currentPage
      ensures Valid()
      ensures sortState == NextSortState(old(sortState), column)
      ensures filteredData == Sort(old(filteredData), column, sortState.direction)
      ensures Sorted(filteredData, column, sortState.direction)
      ensures multiset(filteredData) == multiset(old(filteredData))
      ensures currentPage == 1
    {
      sortState := NextSortState(sortState, column);
      SortIsSortedPermutation(filteredData, column, sortState.direction);
      ghost var before := filteredData;
      filteredData := Sort(filteredData, column, sortState.direction);
      currentPage := 1;
      forall person | person in filteredData ensures person in personalData {
        assert person in multiset(before);
      }
    }

    /** `displayCurrentPage()`: the persons of the current page, a full page
        of them unless it is the last one, none past the last page. */
    function CurrentPageRows(): (rows: seq<Person>)
      reads this
      requires Valid()
      ensures |rows| == if PageStart(currentPage, itemsPerPage) >= |filteredData| then 0
                        else if |filteredData| - PageStart(currentPage, itemsPerPage) < itemsPerPage
                        then |filteredData| - PageStart(currentPage, itemsPerPage)
                        else itemsPerPage
      ensures forall i :: 0 <= i < |rows| ==>
        PageStart(currentPage, itemsPerPage) + i < |filteredData| &&
        rows[i] == filteredData[PageStart(currentPage, itemsPerPage) + i]
    {
      PageSlice(filteredData, currentPage, itemsPerPage)
    }

    /** `changePage(page)`: accepted only for an existing page. */
    method ChangePage(page: int)
      requires Valid()
      modifies this`currentPage
      ensures Valid()
      ensures currentPage == if CanGoTo(page, |filteredData|, itemsPerPage) then page else old(currentPage)
    {
      var totalPages := TotalPages(|filteredData|, itemsPerPage);
      if page >= 1 && page <= totalPages {
        currentPage := page;
      }
    }

    /** `changeItemsPerPage()` with the value read from the page-size select. */
    method ChangeItemsPerPage(size: int)
      requires Valid() && size >= 1
      modifies this`itemsPerPage, this`currentPage, this`filteredData
      ensures Valid()
      ensures itemsPerPage == size && currentPage == 1
      ensures filteredData == FilteredPersons(personalData, currentFilters)
    {
      itemsPerPage := size;
      currentPage := 1;
      ApplyFiltersAndDisplay();
    }

    /** `resetFilters()`: with no clause left, the list is every person in
        loading order, whatever column was sorted. */
    method ResetFilters()
      requires Valid()
      modifies this`currentFilters, this`filteredData
      ensures Valid()
      ensures currentFilters == map[] && filteredData == personalData
    {
      currentFilters := map[];
      ApplyFiltersAndDisplay();
      FilteredPersonsAreTheMatchingSubsequence(personalData, currentFilters);
    }

    /** `togglePersonSelection(personId, selected)`. */
    method TogglePersonSelection(personId: int, selected: bool)
      requires Valid()
      modifies this`personalData, this`filteredData
      ensures Valid()
      ensures personalData == SelectFirst(old(personalData), personId, selected)
      ensures filteredData == if personId in Ids(old(personalData))
                              then SelectAllWithId(old(filteredData), personId, selected)
                              else old(filteredData)
    {
      FilteredSelectionFollowsThePersonList(personalData, filteredData, personId, selected);
      var index := IndexOf(Ids(personalData), personId);
      if index != -1 {
        filteredData := SelectAllWithId(filteredData, personId, selected);
      }
      personalData := SelectFirst(personalData, personId, selected);
    }

    /** `bulkDelete()` and `bulkErase()`, which differ only in their messages;
        `confirmed` is the answer to the confirmation dialog. */
    method BulkDelete(confirmed: bool) returns (outcome: Outcome)
      requires Valid()
      modifies this`personalData, this`filteredData
      ensures Valid()
      ensures outcome == NothingSelected <==> Filter(old(personalData), IsSelected) == []
      ensures outcome == Declined <==> Filter(old(personalData), IsSelected) != [] && !confirmed
      ensures outcome != Done ==> personalData == old(personalData) && filteredData == old(filteredData)
      ensures outcome == Done ==>
        personalData == WithoutSelected(old(personalData)) &&
        filteredData == FilteredPersons(personalData, currentFilters)
    {
      var selectedPeople := Filter(personalData, IsSelected);
      if |selectedPeople| == 0 {
        return NothingSelected;
      }
      if !confirmed {
        return Declined;
      }
      WithoutSelectedRemovesExactlyTheSelected(personalData);
      personalData := WithoutSelected(personalData);
      ApplyFiltersAndDisplay();
      return Done;
    }

    /** `sendPersonalData()`: marks every selected person as sent, then
        re-filters. */
    method SendPersonalData(confirmed: bool) returns (outcome: Outcome)
      requires Valid()
      modifies this`personalData, this`filteredData
      ensures Valid()
      ensures outcome == NothingSelected <==> Filter(old(personalData), IsSelected) == []
      ensures outcome == Declined <==> Filter(old(personalData), IsSelected) != [] && !confirmed
      ensures outcome != Done ==> personalData == old(personalData) && filteredData == old(filteredData)
      ensures outcome == Done ==>
        personalData == MarkSelectedSent(old(personalData)) &&
        filteredData == FilteredPersons(personalData, currentFilters)
    {
      var selectedPeople := Filter(personalData, IsSelected);
      if |selectedPeople| == 0 {
        return NothingSelected;
      }
      if !confirmed {
        return Declined;
      }
      MarkSelectedSentChangesExactlyTheSelected(personalData);
      var i := 0;
      var updated := personalData;
      while i < |updated|
        invariant 0 <= i <= |updated| == |personalData|
        invariant forall k :: 0 <= k < i ==> updated[k] == MarkSentIfSelected(personalData[k])
        invariant forall k :: i <= k < |updated| ==> updated[k] == personalData[k]
      {
        if updated[i].selected {
          updated := updated[i := updated[i].(fields := updated[i].fields["personalSend" := SentMark])];
        }
        i := i + 1;
      }
      personalData := updated;
      ApplyFiltersAndDisplay();
      return Done;
    }

    /** `generateCSV()`: the header line, then one line per filtered person, in
        order, joined by newlines. */
    method GenerateCsv() returns (csv: string)
      ensures csv == Join(CsvLines(filteredData), "\n")
      ensures FieldsAvoid(filteredData, '\n') ==> Count(csv, '\n') == |filteredData|
    {
      var csvRows := [Join(CsvHeaders, ",")];
      var i := 0;
      while i < |filteredData|
        invariant 0 <= i <= |filteredData|
        invariant |csvRows| == i + 1 && csvRows[0] == Join(CsvHeaders, ",")
        invariant forall k :: 0 <= k < i ==> csvRows[k + 1] == CsvLine(filteredData[k])
      {
        var person := filteredData[i];
        var row := seq(|CsvColumns|, k requires 0 <= k < |CsvColumns| => FieldText(person.fields, CsvColumns[k]));
        csvRows := csvRows + [Join(row, ",")];
        i := i + 1;
      }
      assert csvRows == CsvLines(filteredData);
      csv := Join(csvRows, "\n");
      if FieldsAvoid(filteredData, '\n') {
        CsvHasOneLinePerPerson(filteredData);
      }
    }
  }
}
