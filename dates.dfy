/** The calendar date the appointment picker yields; only its presence matters to the flow. */
module Dates {
  datatype CalendarDate = CalendarDate(year: int, month: nat, day: nat)
}
