/** The reservation side of src/pages/Book.jsx: the submission instant built by
    `convertToISO`, the page's state (`data`, `selectedTime`, `selectedTimeSlot`,
    `loading`) and the `bookSlot` transaction. */
module Booking {
  import opened Wrappers
  import opened Slots
  import opened Durations
  import opened Grid

  /** `selectedTime`: the empty object `{}` until a cell is clicked, then `{date, time}`. */
  datatype SelectedTime = Unset | Chosen(date: string, time: string)

  /** The JavaScript value held in `selectedTimeSlot`: a number of hours (kept here as a count of
      half hours), a string, null or undefined. */
  datatype DurationValue = Halves(n: int) | Text(s: string) | Null | Undefined

  /** The body of the booking POST. */
  datatype BookingRequest = BookingRequest(date: string, duration: DurationValue)

  /** How the booking POST ends: a response that did not throw, or a thrown error that carries an
      error response with an optional `error` field, or none at all. */
  datatype PostFailure = WithoutResponse | WithPayload(error: Option<string>)
  datatype PostOutcome = Replied(status: int) | Threw(failure: PostFailure)

  /** What the page does after the POST: reload, show the failure toast with the given text, do
      nothing, or fail inside its own error handler. */
  datatype BookingEffect = Reload | FailureToast(description: string) | NoNotice | Unhandled

  /** `convertToISO(selectedTime)`: date, "T", time and ":00" joined; the fields of `{}` print as "undefined". */
  function ConvertToISO(sel: SelectedTime): string {
    match sel
    case Unset => "undefinedTundefined:00"
    case Chosen(date, time) => date + "T" + time + ":00"
  }

  /** Splits at the first occurrence of `c`: the text before it and the text after it. */
  function SplitAtFirst(s: string, c: char): (parts: (string, string))
    ensures c !in parts.0
    ensures c in s ==> s == parts.0 + [c] + parts.1
    ensures c !in s ==> parts == (s, "")
  {
    if s == [] then ("", "")
    else if s[0] == c then ("", s[1..])
    else
      var rest := SplitAtFirst(s[1..], c);
      assert s == [s[0]] + s[1..];
      ([s[0]] + rest.0, rest.1)
  }

  lemma {:induction false} SplitAtFirstOfJoin(a: string, c: char, b: string)
    requires c !in a
    ensures SplitAtFirst(a + [c] + b, c) == (a, b)
  {
    var s := a + [c] + b;
    if a == [] {
      assert s[0] == c && s[1..] == b;
    } else {
      assert s[0] == a[0] && s[1..] == a[1..] + [c] + b;
      SplitAtFirstOfJoin(a[1..], c, b);
      assert [a[0]] + a[1..] == a;
    }
  }

  /** The instant is the date, "T", the time and ":00"; a date without "T" is recovered by
      splitting at the first "T", and the rest is the time with its seconds. */
  lemma ConvertToISORoundTrip(date: string, time: string)
    requires 'T' !in date
    ensures ConvertToISO(Chosen(date, time)) == date + "T" + time + ":00"
    ensures SplitAtFirst(ConvertToISO(Chosen(date, time)), 'T') == (date, time + ":00")
  {
    assert date + "T" + time + ":00" == date + ['T'] + (time + ":00");
    SplitAtFirstOfJoin(date, 'T', time + ":00");
  }

  lemma ConvertToISOExample()
    ensures ConvertToISO(Chosen("2024-06-03", "22:30")) == "2024-06-03T22:30:00"
  {
  }

  /** The Book trigger is disabled iff the duration is null, 0, undefined or "". */
  predicate BookTriggerDisabled(v: DurationValue) {
    v == Null || v == Halves(0) || v == Undefined || v == Text("")
  }

  /** The initial duration and every catalogue duration leave the trigger enabled; clearing the
      toggle (which yields "") disables it. */
  lemma BookTriggerOnCatalogue(d: nat)
    requires d in Catalogue
    ensures !BookTriggerDisabled(Halves(d)) && !BookTriggerDisabled(Halves(1))
    ensures BookTriggerDisabled(Text("")) && BookTriggerDisabled(Halves(0))
  {
  }

  /** The handling of the POST outcome: status 201 reloads; a thrown error with a response shows its
      `error` field verbatim (an absent field prints "undefined"); a thrown error without a response
      makes the handler itself throw; any other non-throwing status shows nothing. */
  function EffectOf(outcome: PostOutcome): (e: BookingEffect)
    ensures e == Reload <==> outcome == Replied(201)
    ensures e.FailureToast? <==> outcome.Threw? && outcome.failure.WithPayload?
    ensures outcome.Threw? && outcome.failure.WithPayload? ==>
      e.description == (if outcome.failure.error.Some? then outcome.failure.error.value else "undefined")
  {
    match outcome
    case Replied(status) => if status == 201 then Reload else NoNotice
    case Threw(WithoutResponse) => Unhandled
    case Threw(WithPayload(None)) => FailureToast("undefined")
    case Threw(WithPayload(Some(message))) => FailureToast(message)
  }

  /** The week-count request of the mount effect. */
  function WeekCountUrl(today: string): string {
    "/api/bookings/week-count?date=" + today + "&startOfWeek=true&startTime=" + BookingStartTime
      + "&endTime=" + BookingEndTime
  }

  /** The booking page's state. */
  class BookPage {
    var data: WeekCount
    var selectedTime: SelectedTime
    var selectedTimeSlot: DurationValue
    var loading: bool

    /** The state a mounted (or reloaded) page starts in. */
    ghost predicate Initial()
      reads this
    {
      data == [] && selectedTime == Unset && selectedTimeSlot == Halves(1) && !loading
    }

    constructor ()
      ensures Initial()
    {
      data := [];
      selectedTime := Unset;
      selectedTimeSlot := Halves(1);
      loading := false;
    }

    /** The mount effect: loading starts and one week-count request goes out. */
    method StartFetch(today: string) returns (url: string)
      modifies this`loading
      ensures loading
      ensures url == WeekCountUrl(today)
    {
      loading := true;
      url := WeekCountUrl(today);
    }

    /** The week-count response arrives: loading ends and the snapshot replaces the data wholesale. */
    method ReceiveWeekCount(response: WeekCount)
      requires WellFormed(response)
      modifies this`data, this`loading
      ensures !loading && data == response
    {
      loading := false;
      data := response;
    }

    /** A click on the cell (date, time). Only the loaded grid has clickable cells, and only the
        cells that pass the gate; the click records the cell and leaves the duration as it was. */
    method OpenCell(date: string, time: string) returns (shown: bool)
      modifies this`selectedTime
      ensures shown <==> (!loading && date in Dates(data) && time in TimeSlots(data)
                          && IsBookable(CellValue(data, date, time)))
      ensures selectedTime == if shown then Chosen(date, time) else old(selectedTime)
      ensures selectedTimeSlot == old(selectedTimeSlot)
    {
      shown := !loading && date in Dates(data) && time in TimeSlots(data)
        && IsBookable(CellValue(data, date, time));
      if shown {
        selectedTime := Chosen(date, time);
      }
    }

    /** The toggle group's change handler stores whatever value it is given, unchecked. */
    method ChooseDuration(v: DurationValue)
      modifies this`selectedTimeSlot
      ensures selectedTimeSlot == v
    {
      selectedTimeSlot := v;
    }

    /** `bookSlot`: exactly one POST of the selected instant and duration, never retried. On 201
        the page reloads and starts over; on any other outcome the state is kept. Its only caller
        is the Confirm button, reached through the enabled Book trigger inside the drawer of a
        clicked cell, so a cell is selected and the duration passes the trigger's check. */
    method BookSlot(outcome: PostOutcome) returns (request: BookingRequest, effect: BookingEffect)
      requires selectedTime.Chosen? && !BookTriggerDisabled(selectedTimeSlot)
      modifies this
      ensures request == BookingRequest(ConvertToISO(old(selectedTime)), old(selectedTimeSlot))
      ensures effect == EffectOf(outcome)
      ensures effect == Reload ==> Initial()
      ensures effect != Reload ==> (data == old(data) && selectedTime == old(selectedTime)
                                    && selectedTimeSlot == old(selectedTimeSlot) && loading == old(loading))
    {
      request := BookingRequest(ConvertToISO(selectedTime), selectedTimeSlot);
      effect := EffectOf(outcome);
      if effect == Reload {
        data := [];
        selectedTime := Unset;
        selectedTimeSlot := Halves(1);
        loading := false;
      }
    }
  }

  /** One day with 09:00 at two bookings and 09:30 full. */
  const ScenarioWeek: WeekCount := [("2024-06-03", [("09:00", 2), ("09:30", 5)])]

  /** Loading the example week: 09:00 opens with the whole catalogue on offer, 09:30 stays closed. */
  method OpenCellScenario() returns (early: bool, full: bool, offered: seq<nat>)
    ensures early && !full && offered == Catalogue
  {
    var page := new BookPage();
    var _ := page.StartFetch("2024-06-03");
    page.ReceiveWeekCount(ScenarioWeek);
    assert Lookup(ScenarioWeek, "2024-06-03") == Some([("09:00", 2), ("09:30", 5)]);
    assert Keys(ScenarioWeek[0].1) == ["09:00", "09:30"];
    early := page.OpenCell("2024-06-03", "09:00");
    full := page.OpenCell("2024-06-03", "09:30");
    EarlyStartFullCatalogue("09:00");
    offered := AvailableDurations("09:00");
  }

  /** Booking 22:30 for half an hour sends the instant "2024-06-03T22:30:00" and reloads on 201. */
  method BookLateSlotScenario() returns (request: BookingRequest, effect: BookingEffect)
    ensures request == BookingRequest("2024-06-03T22:30:00", Halves(1))
    ensures effect == Reload
  {
    var page := new BookPage();
    var counts := [("22:30", 0)];
    var day := [("2024-06-03", counts)];
    assert Keys(day) == ["2024-06-03"] && Keys(counts) == ["22:30"];
    assert Lookup(day, "2024-06-03") == Some(counts) && Lookup(counts, "22:30") == Some(0);
    page.ReceiveWeekCount(day);
    var shown := page.OpenCell("2024-06-03", "22:30");
    page.ChooseDuration(Halves(1));
    ConvertToISOExample();
    request, effect := page.BookSlot(Replied(201));
  }

  /** A rejected booking shows the server's text and keeps the same cell and duration selected. */
  method RejectedBookingScenario() returns (effect: BookingEffect, kept: SelectedTime, duration: DurationValue)
    ensures effect == FailureToast("Slot taken")
    ensures kept == Chosen("2024-06-03", "22:30") && duration == Halves(1)
  {
    var page := new BookPage();
    var counts := [("22:30", 0)];
    var day := [("2024-06-03", counts)];
    assert Keys(day) == ["2024-06-03"] && Keys(counts) == ["22:30"];
    assert Lookup(day, "2024-06-03") == Some(counts) && Lookup(counts, "22:30") == Some(0);
    page.ReceiveWeekCount(day);
    var shown := page.OpenCell("2024-06-03", "22:30");
    page.ChooseDuration(Halves(1));
    var request;
    request, effect := page.BookSlot(Threw(WithPayload(Some("Slot taken"))));
    kept, duration := page.selectedTime, page.selectedTimeSlot;
  }

  /** The duration chosen for an early cell survives a switch to 22:30 and is submitted there,
      although 22:30 offers only half an hour. */
  method StaleDurationScenario() returns (request: BookingRequest)
    ensures request == BookingRequest("2024-06-03T22:30:00", Halves(6))
    ensures 6 !in AvailableDurations("22:30")
  {
    var page := new BookPage();
    var counts := [("09:00", 0), ("22:30", 0)];
    var day := [("2024-06-03", counts)];
    assert Keys(day) == ["2024-06-03"] && Keys(counts) == ["09:00", "22:30"];
    assert Lookup(day, "2024-06-03") == Some(counts);
    assert Lookup(counts, "22:30") == Some(0) && Lookup(counts, "09:00") == Some(0);
    page.ReceiveWeekCount(day);
    var shown := page.OpenCell("2024-06-03", "09:00");
    page.ChooseDuration(Halves(6));
    assert page.selectedTimeSlot == Halves(6);
    shown := page.OpenCell("2024-06-03", "22:30");
    assert shown && page.selectedTime == Chosen("2024-06-03", "22:30");
    ConvertToISOExample();
    var effect;
    request, effect := page.BookSlot(Replied(201));
    LateStartExample();
  }
}
