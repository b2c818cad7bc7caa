/**
 * The admin table: a skeleton while loading, an error text, an empty text,
 * or one row per entry, newest first, with a count line under it.
 */
module EntriesTable {
  import opened Text
  import opened Schema
  import opened Chronology
  import opened EntryType

  /** One table row; the timestamp is shown through a formatter that is not part of this model. */
  datatype Row = Row(
    id: int,
    name: string,
    shownType: string,
    clockIn: bool,
    timestamp: int,
    latitude: real,
    longitude: real,
    driver: string)

  datatype View =
    | Skeleton
    | LoadError
    | NoEntries
    | Table(rows: seq<Row>, footer: string)

  function RowOf(e: TimeEntry): (r: Row)
    ensures r.id == e.id && r.name == e.name && r.timestamp == e.timestamp
    ensures r.clockIn == IsClockIn(e.entryType) && r.shownType == DisplayLabel(e.entryType)
    ensures r.latitude == e.latitude && r.longitude == e.longitude
    ensures r.driver == if e.isDriver then "Ja" else "Nein"
  {
    Row(e.id, e.name, DisplayLabel(e.entryType), IsClockIn(e.entryType), e.timestamp,
        e.latitude, e.longitude, if e.isDriver then "Ja" else "Nein")
  }

  /** `entries.map(...)`: one row per entry, in the same order. */
  function RowsOf(s: seq<TimeEntry>): (r: seq<Row>)
    ensures |r| == |s|
    ensures forall i :: 0 <= i < |s| ==> r[i] == RowOf(s[i])
  {
    if s == [] then [] else [RowOf(s[0])] + RowsOf(s[1..])
  }

  const CountPrefix: string := "Anzeige 1-"
  const CountMiddle: string := " von "
  const CountSuffix: string := " Einträgen"

  /** "Anzeige 1-n von n Einträgen". */
  function CountText(n: nat): string {
    CountPrefix + Decimal(n) + CountMiddle + Decimal(n) + CountSuffix
  }

  /** Loading wins over error, error over empty; otherwise the sorted table. */
  function Render(entries: seq<TimeEntry>, isLoading: bool, isError: bool): (v: View)
    ensures v.Skeleton? <==> isLoading
    ensures v.LoadError? <==> !isLoading && isError
    ensures v.NoEntries? <==> !isLoading && !isError && |entries| == 0
    ensures v.Table? <==> !isLoading && !isError && |entries| > 0
  {
    if isLoading then Skeleton
    else if isError then LoadError
    else if |entries| == 0 then NoEntries
    else
      var sortedEntries := SortNewestFirst(entries);
      Table(RowsOf(sortedEntries), CountText(|sortedEntries|))
  }

  /**
   * The table's rows are the rows of a newest-first rearrangement of the
   * given entries, each entry once per occurrence, and its count line names
   * the number of entries.
   */
  lemma TableCorrect(entries: seq<TimeEntry>)
    requires |entries| > 0
    ensures var sorted := SortNewestFirst(entries);
      && Render(entries, false, false) == Table(RowsOf(sorted), CountText(|entries|))
      && multiset(sorted) == multiset(entries)
      && NewestFirst(sorted)
  {
    SortNewestFirstCorrect(entries);
  }

  /** Both numbers in the footer read back as the number of entries. */
  lemma CountReadsBack(n: nat)
    ensures var t := CountText(n);
      var d := |Decimal(n)|;
      var first := t[|CountPrefix|..|CountPrefix| + d];
      var second := t[|CountPrefix| + d + |CountMiddle|..|CountPrefix| + d + |CountMiddle| + d];
      && (forall i :: 0 <= i < |first| ==> '0' <= first[i] <= '9') && ParseDecimal(first) == n
      && (forall i :: 0 <= i < |second| ==> '0' <= second[i] <= '9') && ParseDecimal(second) == n
  {
    var t := CountText(n);
    var d := |Decimal(n)|;
    assert t[|CountPrefix|..|CountPrefix| + d] == Decimal(n);
    assert t[|CountPrefix| + d + |CountMiddle|..|CountPrefix| + d + |CountMiddle| + d] == Decimal(n);
    DecimalRoundTrip(n);
  }
}
