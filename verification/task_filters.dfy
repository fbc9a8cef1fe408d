/**
  The filter panel's logic (frontend/src/components/TaskFilters.jsx): when the
  "Clear All" button shows, the patches its four controls send, and the
  `sortBy-sortOrder` encoding of the sort select.
 */
module TaskFilters {
  import opened Wrappers
  import Text
  import opened TaskStore

  /** The "Clear All" button shows when any of the three filters is set or the
      sort key is something other than the date. */
  predicate HasActiveFilters(f: Filters) {
    f.status != "" || f.priority != "" || f.search != "" || f.sortBy != "date"
  }

  /** The filters count as inactive exactly when the three filters are empty and
      the sort key is the date; the sort direction alone never activates them. */
  lemma ActiveFiltersCharacterised(f: Filters, order: string)
    ensures !HasActiveFilters(f) <==> f.status == "" && f.priority == "" && f.search == "" && f.sortBy == "date"
    ensures !HasActiveFilters(InitialFilters)
    ensures !HasActiveFilters(InitialFilters.(sortOrder := order))
    ensures HasActiveFilters(f) ==> !HasActiveFilters(ClearFilters(State([], f)).filters)
  {
  }

  // ---------------------------------------------------------------- controls

  function OnSearch(v: string): FilterPatch {
    FilterPatch(None, None, Some(v), None, None)
  }

  function OnStatus(v: string): FilterPatch {
    FilterPatch(Some(v), None, None, None, None)
  }

  function OnPriority(v: string): FilterPatch {
    FilterPatch(None, Some(v), None, None, None)
  }

  const SortSeparator: char := '-'

  /** The value of the sort select for the current criteria. */
  function EncodeSort(sortBy: string, sortOrder: string): string {
    sortBy + [SortSeparator] + sortOrder
  }

  /** The select's value split at the separator into key and direction; a
      missing second piece is `None`. */
  function DecodeSort(v: string): (string, Option<string>) {
    var parts := Text.Split(v, SortSeparator);
    (parts[0], if |parts| > 1 then Some(parts[1]) else None)
  }

  /** The six options of the sort select. */
  const SortOptions: seq<string> :=
    ["date-desc", "date-asc", "priority-desc", "priority-asc", "dueDate-asc", "dueDate-desc"]

  const SortKeys: seq<string> := ["date", "priority", "dueDate"]
  const SortOrders: seq<string> := ["asc", "desc"]

  /** Encoding a key and a direction and splitting the result gives the same
      pair back, for any key and direction without a '-'. */
  lemma DecodeEncodeSort(sortBy: string, sortOrder: string)
    requires SortSeparator !in sortBy && SortSeparator !in sortOrder
    ensures DecodeSort(EncodeSort(sortBy, sortOrder)) == (sortBy, Some(sortOrder))
  {
    Text.SplitJoin([sortBy, sortOrder], SortSeparator);
    assert Text.Join([sortBy, sortOrder], SortSeparator) == EncodeSort(sortBy, sortOrder) by {
      assert Text.Join([sortBy, sortOrder][1..], SortSeparator) == sortOrder;
    }
  }

  /** A known key and direction survive the select's encoding. */
  lemma KnownSortRoundTrip(key: string, order: string)
    requires key in SortKeys && order in SortOrders
    ensures DecodeSort(EncodeSort(key, order)) == (key, Some(order))
  {
    DecodeEncodeSort(key, order);
  }

  /** Every option of the select is the encoding of a known key and direction,
      and decodes to them. */
  lemma SortOptionsRoundTrip(v: string)
    requires v in SortOptions
    ensures var (key, order) := DecodeSort(v);
      && key in SortKeys && order.Some? && order.value in SortOrders
      && EncodeSort(key, order.value) == v
  {
    var (key, order) :=
      if v == "date-desc" then ("date", "desc")
      else if v == "date-asc" then ("date", "asc")
      else if v == "priority-desc" then ("priority", "desc")
      else if v == "priority-asc" then ("priority", "asc")
      else if v == "dueDate-asc" then ("dueDate", "asc")
      else ("dueDate", "desc");
    assert EncodeSort(key, order) == v;
    KnownSortRoundTrip(key, order);
  }

  /** The patch the sort select sends for one of its options. */
  function OnSort(v: string): (p: FilterPatch)
    requires v in SortOptions
    ensures p.status.None? && p.priority.None? && p.search.None?
    ensures p.sortBy.Some? && p.sortBy.value in SortKeys
    ensures p.sortOrder.Some? && p.sortOrder.value in SortOrders
    ensures EncodeSort(p.sortBy.value, p.sortOrder.value) == v
  {
    SortOptionsRoundTrip(v);
    var (key, order) := DecodeSort(v);
    FilterPatch(None, None, None, Some(key), order)
  }

  /** Each control changes exactly its own keys; the task list is untouched. */
  lemma ControlsChangeOnlyTheirKeys(s: State, v: string, option: string)
    requires option in SortOptions
    ensures UpdateFilters(s, OnSearch(v)) == s.(filters := s.filters.(search := v))
    ensures UpdateFilters(s, OnStatus(v)) == s.(filters := s.filters.(status := v))
    ensures UpdateFilters(s, OnPriority(v)) == s.(filters := s.filters.(priority := v))
    ensures var p := OnSort(option);
      UpdateFilters(s, p) == s.(filters := s.filters.(sortBy := p.sortBy.value, sortOrder := p.sortOrder.value))
  {
  }

  /** Selecting an option and reading the select back shows the same option. */
  lemma SortSelectShowsSelection(s: State, option: string)
    requires option in SortOptions
    ensures var f := UpdateFilters(s, OnSort(option)).filters;
      EncodeSort(f.sortBy, f.sortOrder) == option
  {
  }
}
