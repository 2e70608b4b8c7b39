/**
 * The version list view: a status filter, a case-insensitive search over name,
 * version, description and tags, a sort on one of three fields, and the
 * `toggleSort` rule that flips the direction of the current field or switches to
 * another field in descending order.
 */
module FirmwareList {
  import opened Common
  import opened Text
  import opened Sorting
  import opened Catalog

  // ---------------------------------------------------------------------------
  // Filtering

  /** The search term occurs, ignoring ASCII case, in the name, version, description or a tag. */
  predicate MatchesSearch(fw: Firmware, searchLower: string) {
    || Includes(ToLower(fw.name), searchLower)
    || Includes(ToLower(fw.version), searchLower)
    || Includes(ToLower(match fw.description case Some(d) => d case None => ""), searchLower)
    || (exists i | 0 <= i < |fw.tags| :: Includes(ToLower(fw.tags[i]), searchLower))
  }

  /** The filter callback: the status must match unless the filter is "all"; then a non-empty term must match. */
  predicate Keeps(searchTerm: string, statusFilter: string, fw: Firmware) {
    if statusFilter != "all" && StatusName(fw.status) != statusFilter then false
    else if searchTerm != "" then MatchesSearch(fw, ToLower(searchTerm))
    else true
  }

  function KeepFilter(searchTerm: string, statusFilter: string): Firmware -> bool {
    fw => Keeps(searchTerm, statusFilter, fw)
  }

  // ---------------------------------------------------------------------------
  // Sorting

  /** `localeCompare`, taken as code-point order: negative, zero or positive. */
  function CompareNames(a: string, b: string): int {
    if a == b then 0 else if LexLe(a, b) then -1 else 1
  }

  /** The sort comparator for a field and a direction; any field other than the three compares equal. */
  function Compare(sortField: string, sortDirection: string, a: Firmware, b: Firmware): int {
    if sortField == "date" then
      if sortDirection == "desc" then GetTime(b.dateUploaded) - GetTime(a.dateUploaded)
      else GetTime(a.dateUploaded) - GetTime(b.dateUploaded)
    else if sortField == "name" then
      if sortDirection == "desc" then CompareNames(b.name, a.name) else CompareNames(a.name, b.name)
    else if sortField == "burnCount" then
      if sortDirection == "desc" then b.burnCount - a.burnCount else a.burnCount - b.burnCount
    else 0
  }

  /** "a may come before b" under the comparator. */
  function SortOrder(sortField: string, sortDirection: string): (Firmware, Firmware) -> bool {
    (a, b) => Compare(sortField, sortDirection, a, b) <= 0
  }

  lemma CompareNamesOrder(a: string, b: string, c: string)
    ensures CompareNames(a, b) <= 0 || CompareNames(b, a) <= 0
    ensures CompareNames(a, b) <= 0 && CompareNames(b, c) <= 0 ==> CompareNames(a, c) <= 0
  {
    LexLeTotal(a, b);
    if CompareNames(a, b) <= 0 && CompareNames(b, c) <= 0 && a != c {
      if a != b && b != c {
        LexLeTransitive(a, b, c);
      }
    }
  }

  /** Every comparator of the list is a total preorder, so the sort is well defined. */
  lemma SortOrderIsOrder(sortField: string, sortDirection: string)
    ensures Total(SortOrder(sortField, sortDirection))
    ensures Transitive(SortOrder(sortField, sortDirection))
  {
    var le := SortOrder(sortField, sortDirection);
    forall a, b
      ensures le(a, b) || le(b, a)
    {
      CompareNamesOrder(a.name, b.name, a.name);
    }
    forall a, b, c | le(a, b) && le(b, c)
      ensures le(a, c)
    {
      CompareNamesOrder(a.name, b.name, c.name);
      CompareNamesOrder(c.name, b.name, a.name);
    }
  }

  // ---------------------------------------------------------------------------
  // Filtering and sorting

  /**
   * `filteredFirmware`: nothing before the catalogue has loaded; afterwards the kept
   * records, sorted. The result holds exactly as many copies of each record as the
   * catalogue does when the record is kept, and none otherwise.
   */
  function FilteredFirmware(data: Option<seq<Firmware>>, searchTerm: string, statusFilter: string,
                            sortField: string, sortDirection: string): (r: seq<Firmware>)
    ensures data.None? ==> r == []
    ensures data.Some? ==> forall fw ::
      multiset(r)[fw] == (if Keeps(searchTerm, statusFilter, fw) then multiset(data.value)[fw] else 0)
    ensures data.Some? ==> forall fw :: fw in r <==> fw in data.value && Keeps(searchTerm, statusFilter, fw)
    ensures Sorted(r, SortOrder(sortField, sortDirection))
  {
    match data
    case None => []
    case Some(d) =>
      var kept := Filter(d, KeepFilter(searchTerm, statusFilter));
      SortOrderIsOrder(sortField, sortDirection);
      SortBySorted(kept, SortOrder(sortField, sortDirection));
      var r := SortBy(kept, SortOrder(sortField, sortDirection));
      assert forall fw :: fw in r <==> fw in multiset(r);
      r
  }

  /** With a status filter other than "all", every listed record has exactly that status. */
  lemma FilterExactStatus(data: seq<Firmware>, searchTerm: string, statusFilter: string,
                          sortField: string, sortDirection: string)
    requires statusFilter != "all"
    ensures var r := FilteredFirmware(Some(data), searchTerm, statusFilter, sortField, sortDirection);
      forall i | 0 <= i < |r| :: StatusName(r[i].status) == statusFilter
  {
    var r := FilteredFirmware(Some(data), searchTerm, statusFilter, sortField, sortDirection);
    forall i | 0 <= i < |r|
      ensures StatusName(r[i].status) == statusFilter
    {
      assert r[i] in r;
    }
  }

  /** With filter "all" and no search term the list is a reordering of the whole catalogue. */
  lemma FilterKeepsAll(data: seq<Firmware>, sortField: string, sortDirection: string)
    ensures multiset(FilteredFirmware(Some(data), "", "all", sortField, sortDirection)) == multiset(data)
  {
    var r := FilteredFirmware(Some(data), "", "all", sortField, sortDirection);
    assert forall fw :: multiset(r)[fw] == multiset(data)[fw];
  }

  /** A non-empty search keeps exactly the records whose fields contain the lower-cased term. */
  lemma SearchMatches(data: seq<Firmware>, searchTerm: string, sortField: string, sortDirection: string, fw: Firmware)
    requires searchTerm != ""
    ensures fw in FilteredFirmware(Some(data), searchTerm, "all", sortField, sortDirection)
      <==> fw in data && MatchesSearch(fw, ToLower(searchTerm))
  {
  }

  /** Sorting by burns: non-increasing when descending, non-decreasing otherwise. */
  lemma SortedByBurnCount(r: seq<Firmware>, sortDirection: string)
    requires Sorted(r, SortOrder("burnCount", sortDirection))
    ensures sortDirection == "desc" ==> forall i, j :: 0 <= i < j < |r| ==> r[i].burnCount >= r[j].burnCount
    ensures sortDirection != "desc" ==> forall i, j :: 0 <= i < j < |r| ==> r[i].burnCount <= r[j].burnCount
  {
    forall i, j | 0 <= i < j < |r|
      ensures Compare("burnCount", sortDirection, r[i], r[j]) <= 0
    {
      assert SortOrder("burnCount", sortDirection)(r[i], r[j]);
    }
  }

  /** Sorting by date: newest first when descending, oldest first otherwise. */
  lemma SortedByDate(r: seq<Firmware>, sortDirection: string)
    requires Sorted(r, SortOrder("date", sortDirection))
    ensures sortDirection == "desc" ==> forall i, j :: 0 <= i < j < |r| ==> GetTime(r[i].dateUploaded) >= GetTime(r[j].dateUploaded)
    ensures sortDirection != "desc" ==> forall i, j :: 0 <= i < j < |r| ==> GetTime(r[i].dateUploaded) <= GetTime(r[j].dateUploaded)
  {
    forall i, j | 0 <= i < j < |r|
      ensures Compare("date", sortDirection, r[i], r[j]) <= 0
    {
      assert SortOrder("date", sortDirection)(r[i], r[j]);
    }
  }

  /** Sorting by name: reverse code-point order when descending, code-point order otherwise. */
  lemma SortedByName(r: seq<Firmware>, sortDirection: string)
    requires Sorted(r, SortOrder("name", sortDirection))
    ensures sortDirection == "desc" ==> forall i, j :: 0 <= i < j < |r| ==> LexLe(r[j].name, r[i].name)
    ensures sortDirection != "desc" ==> forall i, j :: 0 <= i < j < |r| ==> LexLe(r[i].name, r[j].name)
  {
    forall i, j | 0 <= i < j < |r|
      ensures Compare("name", sortDirection, r[i], r[j]) <= 0
    {
      assert SortOrder("name", sortDirection)(r[i], r[j]);
    }
    forall s: string
      ensures LexLe(s, s)
    {
      LexLeTotal(s, s);
    }
  }

  // ---------------------------------------------------------------------------
  // The view state

  /** The sort state after `toggleSort(field)`. */
  function Toggled(sortField: string, sortDirection: string, field: string): (s: (string, string))
    ensures field == sortField ==> s.0 == sortField && s.1 == (if sortDirection == "asc" then "desc" else "asc")
    ensures field != sortField ==> s == (field, "desc")
  {
    if sortField == field then (sortField, if sortDirection == "asc" then "desc" else "asc")
    else (field, "desc")
  }

  /** Toggling the same field twice restores an "asc" or "desc" direction. */
  lemma ToggleTwice(sortField: string, sortDirection: string)
    requires sortDirection == "asc" || sortDirection == "desc"
    ensures var s := Toggled(sortField, sortDirection, sortField);
      Toggled(s.0, s.1, sortField) == (sortField, sortDirection)
  {
  }

  /** Whatever the state, the direction after a toggle is "asc" or "desc". */
  lemma ToggleDirection(sortField: string, sortDirection: string, field: string)
    ensures Toggled(sortField, sortDirection, field).1 in ["asc", "desc"]
  {
  }

  /** The hook's state: the search term, the status filter and the sort field and direction. */
  class FirmwareListView {
    var searchTerm: string
    var statusFilter: string
    var sortField: string
    var sortDirection: string

    /** The initial state: no search, every status, newest first. */
    constructor ()
      ensures searchTerm == "" && statusFilter == "all"
      ensures sortField == "date" && sortDirection == "desc"
    {
      searchTerm := "";
      statusFilter := "all";
      sortField := "date";
      sortDirection := "desc";
    }

    method SetSearchTerm(term: string)
      modifies this
      ensures searchTerm == term
      ensures statusFilter == old(statusFilter) && sortField == old(sortField) && sortDirection == old(sortDirection)
    {
      searchTerm := term;
    }

    method SetStatusFilter(filter: string)
      modifies this
      ensures statusFilter == filter
      ensures searchTerm == old(searchTerm) && sortField == old(sortField) && sortDirection == old(sortDirection)
    {
      statusFilter := filter;
    }

    /** `toggleSort`: flip the direction of the current field, or switch to `field` descending. */
    method ToggleSort(field: string)
      modifies this
      ensures (sortField, sortDirection) == Toggled(old(sortField), old(sortDirection), field)
      ensures searchTerm == old(searchTerm) && statusFilter == old(statusFilter)
    {
      if sortField == field {
        sortDirection := if sortDirection == "asc" then "desc" else "asc";
      } else {
        sortField := field;
        sortDirection := "desc";
      }
    }

    /** The list the view shows for the loaded catalogue. */
    function Visible(data: Option<seq<Firmware>>): seq<Firmware>
      reads this
    {
      FilteredFirmware(data, searchTerm, statusFilter, sortField, sortDirection)
    }
  }
}
