/** Records as the screens hold them: a map from field name to text, where an
    absent field is JavaScript's `undefined`, and the column filter shared by
    the history report and the personnel list. */
module Records {
  import opened Wrappers

  /** One record: field name to text. */
  type Row = map<string, string>

  /** `record[key]`: the value, or `None` for `undefined`. */
  function Lookup(row: Row, key: string): (v: Option<string>)
    ensures v.Some? <==> key in row
  {
    if key in row then Some(row[key]) else None
  }

  /** The text shown for a field: `record[key] || ''`. */
  function FieldText(row: Row, key: string): (text: string)
    ensures key in row ==> text == row[key]
    ensures key !in row ==> text == ""
  {
    if key in row then row[key] else ""
  }

  /** One column clause: the row's value for `key` is among `values`. */
  predicate ClauseHolds(row: Row, key: string, values: seq<string>)
  {
    key in row && row[key] in values
  }

  /** All column clauses at once; an empty value list imposes nothing. */
  predicate MatchesFilters(row: Row, filters: map<string, seq<string>>)
  {
    forall key :: key in filters && |filters[key]| > 0 ==> ClauseHolds(row, key, filters[key])
  }

  /** Adding the clause for a key not yet considered adds one conjunct. */
  lemma FiltersExtend(row: Row, done: map<string, seq<string>>, key: string, values: seq<string>)
    requires key !in done
    ensures MatchesFilters(row, done[key := values]) == (MatchesFilters(row, done) && (|values| > 0 ==> ClauseHolds(row, key, values)))
  {
    var next := done[key := values];
    if MatchesFilters(row, next) {
      forall k | k in done && |done[k]| > 0 ensures ClauseHolds(row, k, done[k]) {
        assert k in next && next[k] == done[k];
      }
      if |values| > 0 {
        assert key in next && next[key] == values;
      }
    }
    if MatchesFilters(row, done) && (|values| > 0 ==> ClauseHolds(row, key, values)) {
      forall k | k in next && |next[k]| > 0 ensures ClauseHolds(row, k, next[k]) {
        if k != key {
          assert k in done && next[k] == done[k];
        }
      }
    }
  }
}
