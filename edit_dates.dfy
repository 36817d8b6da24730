/**
 * The newer important-dates editor: its list and its two text inputs, the
 * add button (presence check, then shape check), the confirmed delete and
 * the save that hands the list to the account context.
 */
module EditDates {
  import opened ImportantDates

  /** Every entry's date has the `YYYY-MM-DD` shape. */
  ghost predicate AllShaped(dates: seq<DateEntry>) {
    forall i :: 0 <= i < |dates| ==> IsDateShape(dates[i].date)
  }

  class DatesEditor {
    var dates: seq<DateEntry>
    var newTitle: string
    var newDate: string

    /** The screen opens on the account's `importantDates` (an empty list when absent) and empty inputs. */
    constructor (importantDates: seq<DateEntry>)
      ensures dates == importantDates && newTitle == "" && newDate == ""
    {
      dates := importantDates;
      newTitle := "";
      newDate := "";
    }

    /**
     * `handleAddDate`. An empty input is refused first, then a date of the
     * wrong shape; both refusals keep the list and the inputs. A success
     * appends one entry and clears both inputs.
     */
    method AddDate(freshId: string) returns (outcome: AddOutcome)
      modifies this
      ensures old(newTitle) == "" || old(newDate) == "" ==>
        outcome == MissingInformation && unchanged(this)
      ensures old(newTitle) != "" && old(newDate) != "" && !IsDateShape(old(newDate)) ==>
        outcome == InvalidFormat && unchanged(this)
      ensures old(newTitle) != "" && old(newDate) != "" && IsDateShape(old(newDate)) ==>
        && outcome == Added
        && dates == old(dates) + [DateEntry(freshId, old(newTitle), old(newDate))]
        && newTitle == "" && newDate == ""
      ensures AllShaped(old(dates)) ==> AllShaped(dates)
    {
      if newTitle == "" || newDate == "" {
        return MissingInformation;
      }
      if !IsDateShape(newDate) {
        return InvalidFormat;
      }
      dates := dates + [DateEntry(freshId, newTitle, newDate)];
      newTitle := "";
      newDate := "";
      outcome := Added;
    }

    /** `handleDeleteDate`: on confirmation every entry with that id goes; cancelling changes nothing. */
    method DeleteDate(id: string, confirmed: bool)
      modifies this`dates
      ensures confirmed ==> dates == WithoutId(old(dates), id)
      ensures !confirmed ==> dates == old(dates)
      ensures AllShaped(old(dates)) ==> AllShaped(dates)
    {
      WithoutIdMembers(dates, id);
      if confirmed {
        dates := WithoutId(dates, id);
      }
    }

    /** `handleSave`: the value passed to `updateUser` as `importantDates`. */
    method Save() returns (importantDates: seq<DateEntry>)
      ensures importantDates == dates
    {
      importantDates := dates;
    }
  }
}
