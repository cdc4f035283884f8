/**
  Input validation for a trip request: `validate_inputs`, and the date rule
  the trip planner page applies on its own before it offers to fetch an
  itinerary.
*/
module Validation {
  import opened PyValues

  /** A calendar date as `datetime.date` holds it. */
  datatype Date = Date(year: int, month: int, day: int)

  /** `a > b` on dates: later year, or same year and later month, or same
      month and later day. */
  predicate After(a: Date, b: Date)
  {
    a.year > b.year
    || (a.year == b.year && (a.month > b.month || (a.month == b.month && a.day > b.day)))
  }

  /** A date `datetime.date` accepts as to its month and day range. */
  predicate ValidDate(d: Date)
  {
    1 <= d.month <= 12 && 1 <= d.day <= 31
  }

  /** Days counted as if every month had 31: monotone in the date, which is
      all the comparison needs. */
  function DayKey(d: Date): int
  {
    d.year * 372 + (d.month - 1) * 31 + (d.day - 1)
  }

  /** On valid dates, `>` is comparison of a single number. */
  lemma AfterIsKeyOrder(a: Date, b: Date)
    requires ValidDate(a) && ValidDate(b)
    ensures After(a, b) <==> DayKey(a) > DayKey(b)
  {
    if a.year > b.year {
      assert DayKey(a) >= (b.year + 1) * 372;
    } else if a.year < b.year {
      assert DayKey(b) >= (a.year + 1) * 372;
    }
  }

  /** `>` is a strict total order: exactly one of a > b, a == b, b > a. */
  lemma AfterTrichotomy(a: Date, b: Date)
    ensures After(a, b) || a == b || After(b, a)
    ensures !(After(a, b) && After(b, a))
    ensures !After(a, a)
  {
  }

  lemma AfterTransitive(a: Date, b: Date, c: Date)
    requires After(a, b) && After(b, c)
    ensures After(a, c)
  {
  }

  const NameRequired: string := "Name is required."
  const DestinationRequired: string := "Destination is required."
  const DateOrder: string := "Start date must be before the end date."

  /** `validate_inputs(name, destination, start_date, end_date)`: the flag and
      the first failing check's message, checked in the order name,
      destination, dates. A text field is missing when it is empty (`not
      name`). */
  function ValidateInputs(name: string, destination: string, startDate: Date, endDate: Date)
    : (r: (bool, Option<string>))
    ensures r.0 <==> name != "" && destination != "" && !After(startDate, endDate)
    ensures r.1.Some? <==> !r.0
    ensures name == "" ==> r.1 == Some(NameRequired)
    ensures name != "" && destination == "" ==> r.1 == Some(DestinationRequired)
    ensures name != "" && destination != "" && After(startDate, endDate) ==> r.1 == Some(DateOrder)
  {
    if name == "" then
      (false, Some(NameRequired))
    else if destination == "" then
      (false, Some(DestinationRequired))
    else if After(startDate, endDate) then
      (false, Some(DateOrder))
    else
      (true, None)
  }

  /** A trip may start and end on the same day. */
  lemma SameDayAccepted(name: string, destination: string, d: Date)
    requires name != "" && destination != ""
    ensures ValidateInputs(name, destination, d, d) == (true, None)
  {
  }

  /** The three messages are distinct, so the message tells which check
      failed. */
  lemma MessagesDistinct()
    ensures NameRequired != DestinationRequired
    ensures NameRequired != DateOrder && DestinationRequired != DateOrder
  {
    assert NameRequired[0] != DestinationRequired[0];
    assert NameRequired[0] != DateOrder[0];
    assert DestinationRequired[0] != DateOrder[0];
  }

  /** What the trip planner page does with its inputs on one run. */
  datatype PlannerAction = ShowError(message: string) | FetchItinerary | Wait

  /** The page's error text, "Error: Start date must be before the end
      date.", written out in full on the page. */
  const PlannerDateError: string := "Error: " + DateOrder

  /** The trip planner's own check: a start after the end shows an error and
      nothing else; otherwise a click on the button fetches the itinerary.
      It checks neither the name nor the destination. */
  function PlannerStep(startDate: Date, endDate: Date, clicked: bool): (a: PlannerAction)
    ensures a.ShowError? <==> After(startDate, endDate)
    ensures a.FetchItinerary? <==> !After(startDate, endDate) && clicked
  {
    if After(startDate, endDate) then ShowError(PlannerDateError)
    else if clicked then FetchItinerary
    else Wait
  }

  /** The page applies the same date rule as `validate_inputs`, with the same
      message behind an "Error: " prefix: for any non-empty name and
      destination, the page refuses exactly the dates `validate_inputs`
      refuses. */
  lemma PlannerAgreesWithValidation(name: string, destination: string, startDate: Date, endDate: Date, clicked: bool)
    requires name != "" && destination != ""
    ensures PlannerStep(startDate, endDate, clicked).ShowError?
        <==> !ValidateInputs(name, destination, startDate, endDate).0
    ensures PlannerStep(startDate, endDate, clicked).ShowError? ==>
              PlannerStep(startDate, endDate, clicked).message
              == "Error: " + ValidateInputs(name, destination, startDate, endDate).1.value
  {
  }
}
