/**
 * The home page's list of recent entries: an empty text, or one item per
 * entry in the order given.
 */
module RecentEntries {
  import opened Schema
  import opened EntryType

  /** One list item; the timestamp is shown through a formatter that is not part of this model. */
  datatype Item = Item(id: int, shownType: string, clockIn: bool, timestamp: int)

  datatype View = EmptyMessage(text: string) | Items(items: seq<Item>)

  const NoEntriesText: string := "Keine Einträge gefunden."

  function ItemOf(e: TimeEntry): (r: Item)
    ensures r.id == e.id && r.timestamp == e.timestamp
    ensures r.shownType == DisplayLabel(e.entryType) && r.clockIn == IsClockIn(e.entryType)
  {
    Item(e.id, DisplayLabel(e.entryType), IsClockIn(e.entryType), e.timestamp)
  }

  /** `entries.map(...)`: one item per entry, in the same order. */
  function ItemsOf(s: seq<TimeEntry>): (r: seq<Item>)
    ensures |r| == |s|
    ensures forall i :: 0 <= i < |s| ==> r[i] == ItemOf(s[i])
  {
    if s == [] then [] else [ItemOf(s[0])] + ItemsOf(s[1..])
  }

  /** An empty list shows only the "no entries" text; otherwise every entry, unsorted and unfiltered. */
  function Render(entries: seq<TimeEntry>): (v: View)
    ensures v.EmptyMessage? <==> |entries| == 0
    ensures v.EmptyMessage? ==> v.text == NoEntriesText
    ensures v.Items? ==> |v.items| == |entries| &&
                         forall i :: 0 <= i < |entries| ==> v.items[i] == ItemOf(entries[i])
  {
    if |entries| == 0 then EmptyMessage(NoEntriesText) else Items(ItemsOf(entries))
  }
}
