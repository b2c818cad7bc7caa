/**
 * The home page's "your last entries": the fetched entries of the employee
 * whose name is typed in, newest first, at most five.
 */
module Home {
  import opened Text
  import opened Sequences
  import opened Schema
  import opened Chronology

  /** How many entries the home page lists. */
  const Shown: nat := 5

  /** The employee's own entries: case-insensitive equality of the whole name. */
  function OwnEntries(data: seq<TimeEntry>, employeeName: string): seq<TimeEntry> {
    Filter(data, (e: TimeEntry) => EqualsIgnoringCase(e.name, employeeName))
  }

  /** The `select` step: filter, sort newest first, keep the first five. */
  function Select(data: seq<TimeEntry>, employeeName: string): seq<TimeEntry> {
    Take(SortNewestFirst(OwnEntries(data, employeeName)), Shown)
  }

  /**
   * The query is `enabled` only for a non-empty name; a disabled query
   * leaves the list at its default, the empty list.
   */
  function RecentEntries(data: seq<TimeEntry>, employeeName: string): (r: seq<TimeEntry>)
    ensures employeeName == "" ==> r == []
    ensures employeeName != "" ==> r == Select(data, employeeName)
  {
    if employeeName == "" then [] else Select(data, employeeName)
  }

  /** The selection holds only the employee's own fetched entries, none more often than fetched. */
  lemma SelectMembers(data: seq<TimeEntry>, employeeName: string)
    ensures forall e :: e in Select(data, employeeName) ==> e in data && EqualsIgnoringCase(e.name, employeeName)
    ensures multiset(Select(data, employeeName)) <= multiset(OwnEntries(data, employeeName)) <= multiset(data)
  {
    var own := OwnEntries(data, employeeName);
    var sorted := SortNewestFirst(own);
    var r := Select(data, employeeName);
    SortPermutes(own);
    FilterMultiset(data, (e: TimeEntry) => EqualsIgnoringCase(e.name, employeeName));
    assert sorted == r + sorted[|r|..];
    assert multiset(sorted) == multiset(r) + multiset(sorted[|r|..]);
    forall e | e in r ensures e in own {
      assert e in multiset(own);
    }
  }

  /**
   * The selection is newest first and as long as the employee's entries, up
   * to five; and no entry of the employee that was left out is newer than
   * any entry shown.
   */
  lemma SelectNewest(data: seq<TimeEntry>, employeeName: string)
    ensures var own, r := OwnEntries(data, employeeName), Select(data, employeeName);
      && NewestFirst(r)
      && |r| == (if |own| < Shown then |own| else Shown)
      && forall e, i :: 0 <= i < |r| && multiset(r)[e] < multiset(own)[e] ==> e.timestamp <= r[i].timestamp
  {
    var own := OwnEntries(data, employeeName);
    var sorted := SortNewestFirst(own);
    SortNewestFirstCorrect(own);
    PrefixOfNewestFirst(sorted, if |sorted| < Shown then |sorted| else Shown);
  }

  /**
   * Every entry the home page lists for a name is also found by the admin
   * dashboard's (substring) name filter for that name.
   */
  lemma HomeEntriesPassNameFilter(data: seq<TimeEntry>, employeeName: string)
    ensures forall e :: e in RecentEntries(data, employeeName) ==> ContainsIgnoringCase(e.name, employeeName)
  {
    if employeeName != "" {
      SelectMembers(data, employeeName);
      forall e | e in RecentEntries(data, employeeName) ensures ContainsIgnoringCase(e.name, employeeName) {
        EqualsImpliesContains(e.name, employeeName);
      }
    }
  }
}
