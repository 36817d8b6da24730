/**
 * The older important-dates editor: it starts from two built-in dates and
 * checks only that both inputs are non-empty before adding.
 */
module LegacyEditDates {
  import opened ImportantDates

  const InitialDates: seq<DateEntry> := [
    DateEntry("1", "Doğum Günü", "2025-11-20"),
    DateEntry("2", "Proje Sunumu", "2025-12-15")
  ]

  class LegacyDatesEditor {
    var dates: seq<DateEntry>
    var newTitle: string
    var newDate: string

    constructor ()
      ensures dates == InitialDates && newTitle == "" && newDate == ""
    {
      dates := InitialDates;
      newTitle := "";
      newDate := "";
    }

    /**
     * `handleAddDate`: an empty input is refused and nothing changes; any
     * other date text is accepted as typed, and the inputs are cleared.
     */
    method AddDate(freshId: string) returns (outcome: AddOutcome)
      modifies this
      ensures outcome != InvalidFormat
      ensures old(newTitle) == "" || old(newDate) == "" ==>
        outcome == MissingInformation && unchanged(this)
      ensures old(newTitle) != "" && old(newDate) != "" ==>
        && outcome == Added
        && dates == old(dates) + [DateEntry(freshId, old(newTitle), old(newDate))]
        && newTitle == "" && newDate == ""
    {
      if newTitle == "" || newDate == "" {
        return MissingInformation;
      }
      dates := dates + [DateEntry(freshId, newTitle, newDate)];
      newTitle := "";
      newDate := "";
      outcome := Added;
    }

    /** `handleDeleteDate`: on confirmation every entry with that id goes; cancelling changes nothing. */
    method DeleteDate(id: string, confirmed: bool)
      modifies this`dates
      ensures confirmed ==> dates == WithoutId(old(dates), id)
      ensures !confirmed ==> dates == old(dates)
    {
      if confirmed {
        dates := WithoutId(dates, id);
      }
    }
  }
}
