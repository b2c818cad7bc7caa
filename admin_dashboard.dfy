/**
 * The admin dashboard's filter state: the two filter inputs, the list the
 * last "apply" produced, and which list the table is given.
 */
module AdminDashboard {
  import opened Text
  import opened Sequences
  import opened Time
  import opened Schema
  import Storage

  /** The name step of `applyFilters`. */
  function ByName(name: string): TimeEntry -> bool {
    (e: TimeEntry) => ContainsIgnoringCase(e.name, name)
  }

  /** The date step of `applyFilters`, for the already parsed `filterDate`. */
  function ByDay(filterDate: JsDate): TimeEntry -> bool {
    (e: TimeEntry) => InHalfOpenDay(e.timestamp, filterDate)
  }

  /** What one press of "apply" keeps: an empty filter text does not restrict. */
  predicate Keeps(e: TimeEntry, nameFilter: string, dateFilter: string, parse: string -> JsDate) {
    && (nameFilter != "" ==> ContainsIgnoringCase(e.name, nameFilter))
    && (dateFilter != "" ==> InHalfOpenDay(e.timestamp, parse(dateFilter)))
  }

  function Selector(nameFilter: string, dateFilter: string, parse: string -> JsDate): TimeEntry -> bool {
    (e: TimeEntry) => Keeps(e, nameFilter, dateFilter, parse)
  }

  /** The list `applyFilters` computes, as a single selection. */
  function Filtered(entries: seq<TimeEntry>, nameFilter: string, dateFilter: string, parse: string -> JsDate): seq<TimeEntry> {
    Filter(entries, Selector(nameFilter, dateFilter, parse))
  }

  class Dashboard {
    var nameFilter: string
    var dateFilter: string
    var filteredEntries: seq<TimeEntry>

    /** Both inputs start empty and nothing has been filtered yet. */
    constructor ()
      ensures nameFilter == "" && dateFilter == "" && filteredEntries == []
    {
      nameFilter, dateFilter, filteredEntries := "", "", [];
    }

    /** The name input changed. */
    method SetNameFilter(text: string)
      modifies this
      ensures nameFilter == text
      ensures dateFilter == old(dateFilter) && filteredEntries == old(filteredEntries)
    {
      nameFilter := text;
    }

    /** The date input changed. */
    method SetDateFilter(text: string)
      modifies this
      ensures dateFilter == text
      ensures nameFilter == old(nameFilter) && filteredEntries == old(filteredEntries)
    {
      dateFilter := text;
    }

    /**
     * `applyFilters`: copy the fetched entries, narrow by name if a name is
     * given, then by day if a date is given, and store the result.
     */
    method ApplyFilters(entries: seq<TimeEntry>, parse: string -> JsDate)
      modifies this
      ensures filteredEntries == Filtered(entries, nameFilter, dateFilter, parse)
      ensures nameFilter == old(nameFilter) && dateFilter == old(dateFilter)
    {
      var name, date := nameFilter, dateFilter;
      var filtered := entries;
      if name != "" {
        filtered := Filter(filtered, ByName(name));
      }
      if date != "" {
        var filterDate := parse(date);
        filtered := Filter(filtered, ByDay(filterDate));
      }
      TwoPassesAreOne(entries, name, date, parse);
      filteredEntries := filtered;
    }

    /** `clearFilters`: both inputs and the filtered list are emptied. */
    method ClearFilters()
      modifies this
      ensures nameFilter == "" && dateFilter == "" && filteredEntries == []
    {
      nameFilter := "";
      dateFilter := "";
      filteredEntries := [];
    }

    /** `displayEntries`: the filtered list when it has entries, else every fetched entry. */
    function DisplayEntries(entries: seq<TimeEntry>): (r: seq<TimeEntry>)
      reads this
      ensures |filteredEntries| > 0 ==> r == filteredEntries
      ensures |filteredEntries| == 0 ==> r == entries
    {
      if |filteredEntries| > 0 then filteredEntries else entries
    }
  }

  /** Narrowing by name and then by day selects what `Filtered` selects in one pass. */
  lemma TwoPassesAreOne(entries: seq<TimeEntry>, name: string, date: string, parse: string -> JsDate)
    ensures
      var first := if name != "" then Filter(entries, ByName(name)) else entries;
      (if date != "" then Filter(first, ByDay(parse(date))) else first) == Filtered(entries, name, date, parse)
  {
    var keep := Selector(name, date, parse);
    if name != "" && date != "" {
      FilterTwice(entries, ByName(name), ByDay(parse(date)), keep);
    } else if name != "" {
      FilterAgrees(entries, ByName(name), keep);
    } else if date != "" {
      FilterAgrees(entries, ByDay(parse(date)), keep);
    } else {
      FilterKeepsAll(entries, keep);
    }
  }

  /**
   * What applying the filters selects: with both inputs empty an unchanged
   * copy; otherwise exactly the entries passing every non-empty filter, in
   * their original order and with their original multiplicity.
   */
  lemma FilteredSelects(entries: seq<TimeEntry>, nameFilter: string, dateFilter: string, parse: string -> JsDate)
    ensures nameFilter == "" && dateFilter == "" ==> Filtered(entries, nameFilter, dateFilter, parse) == entries
    ensures forall e :: e in Filtered(entries, nameFilter, dateFilter, parse) <==>
      && e in entries
      && (nameFilter != "" ==> ContainsIgnoringCase(e.name, nameFilter))
      && (dateFilter != "" ==> InHalfOpenDay(e.timestamp, parse(dateFilter)))
    ensures forall e ::
      multiset(Filtered(entries, nameFilter, dateFilter, parse))[e] ==
      if Keeps(e, nameFilter, dateFilter, parse) then multiset(entries)[e] else 0
    ensures IsSubsequence(Filtered(entries, nameFilter, dateFilter, parse), entries)
  {
    var keep := Selector(nameFilter, dateFilter, parse);
    if nameFilter == "" && dateFilter == "" {
      FilterKeepsAll(entries, keep);
    }
    FilterMultiset(entries, keep);
    FilterIsSubsequence(entries, keep);
  }

  /**
   * A filter that matches nothing leaves the filtered list empty, so the
   * table falls back to showing every entry.
   */
  lemma NoMatchShowsAll(d: Dashboard, entries: seq<TimeEntry>, parse: string -> JsDate)
    requires d.filteredEntries == Filtered(entries, d.nameFilter, d.dateFilter, parse)
    requires forall e :: e in entries ==> !Keeps(e, d.nameFilter, d.dateFilter, parse)
    ensures d.DisplayEntries(entries) == entries
  {
    FilterKeepsNone(entries, Selector(d.nameFilter, d.dateFilter, parse));
  }

  /**
   * With both a name and a date the dashboard's filter selects, from any
   * list, the same entries as the server's name-and-date query: its half-open
   * day and the server's closed day cover the same milliseconds.
   */
  lemma {:induction false} DashboardAgreesWithServer(entries: seq<TimeEntry>, nameFilter: string, dateFilter: string, parse: string -> JsDate)
    requires nameFilter != "" && dateFilter != ""
    ensures Filtered(entries, nameFilter, dateFilter, parse) ==
      Filter(entries, (e: TimeEntry) => Storage.NameMatches(e, nameFilter) && InClosedDay(e.timestamp, parse(dateFilter)))
  {
    forall e | e in entries
      ensures Keeps(e, nameFilter, dateFilter, parse) ==
              (Storage.NameMatches(e, nameFilter) && InClosedDay(e.timestamp, parse(dateFilter)))
    {
      WindowsAgree(e.timestamp, parse(dateFilter));
    }
    FilterAgrees(entries, Selector(nameFilter, dateFilter, parse),
                 (e: TimeEntry) => Storage.NameMatches(e, nameFilter) && InClosedDay(e.timestamp, parse(dateFilter)));
  }
}
