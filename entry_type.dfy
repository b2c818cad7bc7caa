/**
 * How both entry lists present an entry's free-text `type`: the legacy
 * values "Kommen" and "Gehen" are shown under today's names, and the
 * clock-in colour and icon go to "Einstempeln" and "Kommen" only.
 */
module EntryType {

  /** The text shown for a type. */
  function DisplayLabel(entryType: string): (r: string)
    ensures entryType == "Kommen" ==> r == "Einstempeln"
    ensures entryType == "Gehen" ==> r == "Ausstempeln"
    ensures entryType != "Kommen" && entryType != "Gehen" ==> r == entryType
  {
    if entryType == "Kommen" then "Einstempeln"
    else if entryType == "Gehen" then "Ausstempeln"
    else entryType
  }

  /** Whether the type is shown as a clock-in (green tick) rather than a clock-out (red cross). */
  predicate IsClockIn(entryType: string) {
    entryType == "Einstempeln" || entryType == "Kommen"
  }

  /**
   * The icon agrees with the label: an entry is shown as a clock-in exactly
   * when its label reads "Einstempeln"; relabelling twice changes nothing more.
   */
  lemma LabelAgreesWithIcon(entryType: string)
    ensures IsClockIn(entryType) <==> DisplayLabel(entryType) == "Einstempeln"
    ensures DisplayLabel(DisplayLabel(entryType)) == DisplayLabel(entryType)
    ensures IsClockIn(DisplayLabel(entryType)) == IsClockIn(entryType)
  {
    if entryType != "Kommen" && entryType != "Gehen" {
      assert DisplayLabel(entryType) == entryType;
    }
  }
}
