/**
 * The reservation form (`reserveSeatModal.jsx`): the list of bookable time
 * slots, which tables are shown as available and selectable, the guest-count
 * choices, and the checks `handleReserve` makes before it posts.
 *
 * Dates are day numbers and the clock is a parameter; the browser's time
 * zones (`toISOString` in UTC, `setHours` in local time) are not modelled.
 */
module ReserveForm {
  import opened Base
  import opened Schema
  import Booking

  // ---------------------------------------------------------------------------
  // generateTimeSlots
  // ---------------------------------------------------------------------------

  datatype Slot = Slot(value: string, caption: string)

  /** The slot caption as written: hours up to 12 say AM, later hours PM. */
  function SlotLabel(hour: nat): string
  {
    if hour <= 12 then NatToString(hour) + ":00 AM" else NatToString(hour - 12) + ":00 PM"
  }

  /**
   * `generateTimeSlots`: one slot per hour from 6 to 15, valued `HH:00`, with
   * the caption the form evidently means (noon reads "12:00 PM").
   */
  method GenerateTimeSlots() returns (slots: seq<Slot>)
    ensures |slots| == Booking.LastBookableHour - Booking.OpeningHour + 1
    ensures forall i :: 0 <= i < |slots| ==>
              slots[i].value == FormatHi(Time(Booking.OpeningHour + i, 0)) && slots[i].caption == IntendedSlotLabel(Booking.OpeningHour + i)
  {
    slots := [];
    for hour := 6 to 16
      invariant |slots| == hour - 6
      invariant forall i :: 0 <= i < |slots| ==> slots[i].value == FormatHi(Time(6 + i, 0)) && slots[i].caption == IntendedSlotLabel(6 + i)
    {
      var caption := if hour < 12 then NatToString(hour) + ":00 AM"
                     else if hour == 12 then "12:00 PM"
                     else NatToString(hour - 12) + ":00 PM";
      var value := PadStart2(NatToString(hour)) + ":00";
      PadStartIsPad2(hour);
      assert value == FormatHi(Time(hour, 0));
      slots := slots + [Slot(value, caption)];
    }
  }

  /** Every slot the form offers passes the server's `H:i` rule and its opening-hours guard. */
  lemma {:induction false} SlotsPassServerHourGuard(hour: nat)
    requires Booking.OpeningHour <= hour <= Booking.LastBookableHour
    ensures ParseHi(FormatHi(Time(hour, 0))) == Some(Time(hour, 0))
    ensures Booking.OpeningHour <= LeadingHour(FormatHi(Time(hour, 0))) <= Booking.LastBookableHour
  {
    ParseFormatHi(Time(hour, 0));
    LeadingHourOfParsed(FormatHi(Time(hour, 0)));
  }

  /** The 12 o'clock slot, which is noon, is labelled "12:00 AM". */
  lemma NoonLabelledAM()
    ensures SlotLabel(12) == "12:00 AM"
  {
    assert NatToString(12) == NatToString(1) + [DigitChar(2)];
  }

  /** The caption the slot evidently means: AM before noon, "12:00 PM" at noon, PM after. */
  function IntendedSlotLabel(hour: nat): string
  {
    if hour < 12 then NatToString(hour) + ":00 AM"
    else if hour == 12 then "12:00 PM"
    else NatToString(hour - 12) + ":00 PM"
  }

  predicate SaysPM(caption: string) { |caption| >= 2 && caption[|caption| - 2..] == "PM" }

  /** The intended caption says PM exactly from noon on; the caption as written differs from it only at noon. */
  lemma {:induction false} IntendedLabelMeridiem(hour: nat)
    requires Booking.OpeningHour <= hour <= Booking.LastBookableHour
    ensures SaysPM(IntendedSlotLabel(hour)) <==> hour >= 12
    ensures SlotLabel(hour) == IntendedSlotLabel(hour) <==> hour != 12
  {
    var l := IntendedSlotLabel(hour);
    assert l[|l| - 2..] == (if hour < 12 then "AM" else "PM");
    if hour == 12 {
      NoonLabelledAM();
      assert SlotLabel(hour)[|SlotLabel(hour)| - 2..] == "AM";
    }
  }

  // ---------------------------------------------------------------------------
  // availability and selection
  // ---------------------------------------------------------------------------

  /**
   * A table is shown as available unless both date and time are chosen and the
   * availability map holds an explicit `false` for it.
   */
  predicate ShownAvailable(slotChosen: bool, availability: map<nat, bool>, tableId: nat)
  {
    slotChosen ==> !(tableId in availability && !availability[tableId])
  }

  /** `canSelect`: shown as available, with both date and time chosen. */
  predicate CanSelect(slotChosen: bool, availability: map<nat, bool>, tableId: nat)
  {
    ShownAvailable(slotChosen, availability, tableId) && slotChosen
  }

  /**
   * Given the map the server's `checkAvailability` answers, the form shows a
   * table as available exactly when the server found it free.
   */
  lemma {:induction false} FormAgreesWithServerMap(tables: seq<Table>, rs: seq<Reservation>, date: int, time: Time,
                                                   a: Booking.Availability, t: Table)
    requires a.free.Keys == Booking.TableIds(tables)
    requires forall x :: x in tables ==> a.free[x.id] == Booking.FreeAt(rs, x.id, date, time)
    requires t in tables
    ensures ShownAvailable(true, a.free, t.id) <==> Booking.FreeAt(rs, t.id, date, time)
  {
    assert t.id in Booking.TableIds(tables);
  }

  /** The form's state. */
  class Form {
    var selectedTable: Option<nat>
    var guestCount: int
    var slotChosen: bool
    var availability: map<nat, bool>

    constructor ()
      ensures selectedTable.None? && guestCount == 1 && !slotChosen && availability == map[]
    {
      selectedTable, guestCount, slotChosen, availability := None, 1, false, map[];
    }

    /** Clicking a table: selectable tables become the selection and reset the guest count to 1. */
    method ClickTable(tableId: nat)
      modifies this`selectedTable, this`guestCount
      ensures CanSelect(slotChosen, availability, tableId) ==> selectedTable == Some(tableId) && guestCount == 1
      ensures !CanSelect(slotChosen, availability, tableId) ==>
                selectedTable == old(selectedTable) && guestCount == old(guestCount)
    {
      if CanSelect(slotChosen, availability, tableId) {
        selectedTable := Some(tableId);
        guestCount := 1;
      }
    }

    /**
     * Setting the date or time input. `dateSet` and `timeSet` say whether each
     * now holds a value. With both set the effect starts a lookup, whose answer
     * arrives through `AvailabilityAnswered`; otherwise it clears the map.
     */
    method SlotChanged(dateSet: bool, timeSet: bool)
      modifies this`slotChosen, this`availability
      ensures slotChosen == (dateSet && timeSet)
      ensures availability == if slotChosen then old(availability) else map[]
    {
      slotChosen := dateSet && timeSet;
      if !slotChosen {
        availability := map[];
      }
    }

    /**
     * The answer of the availability lookup: the map on success; on any failure
     * (or with date or time unset) the map is cleared.
     */
    method AvailabilityAnswered(answer: Option<map<nat, bool>>)
      modifies this`availability
      ensures availability == if answer.Some? then answer.value else map[]
    {
      availability := if answer.Some? then answer.value else map[];
    }
  }

  /** After a failed lookup every table is shown as available and can be selected. */
  lemma {:induction false} FailedLookupShowsAllAvailable(slotChosen: bool, tableId: nat)
    ensures ShownAvailable(slotChosen, map[], tableId)
    ensures slotChosen ==> CanSelect(slotChosen, map[], tableId)
  {
  }

  /** The seats of the selected table, or 0 when nothing is selected or the id is not listed. */
  function SelectedSeats(tables: seq<Table>, selected: Option<nat>): int
  {
    if selected.Some? && FindTable(tables, selected.value).Some? then FindTable(tables, selected.value).value.seats else 0
  }

  /**
   * The guest-count choices: 1 up to the selected table's seats, or just 1 when the
   * count is 0 or missing (`|| 1`). A negative count is truthy, and `Array.from`
   * clamps the negative length to 0, so no choice at all is offered.
   */
  function GuestChoices(tables: seq<Table>, selected: Option<nat>): (r: seq<int>)
    ensures SelectedSeats(tables, selected) > 0 ==> |r| == SelectedSeats(tables, selected)
    ensures SelectedSeats(tables, selected) == 0 ==> r == [1]
    ensures r == [] <==> SelectedSeats(tables, selected) < 0
    ensures forall i :: 0 <= i < |r| ==> r[i] == i + 1
  {
    var seats := SelectedSeats(tables, selected);
    var n := if seats == 0 then 1 else if seats < 0 then 0 else seats;
    seq(n, i => i + 1)
  }

  /** Every choice offered for a stored table with seats passes the server's capacity and minimum rules. */
  lemma {:induction false} GuestChoicesFitTable(tables: seq<Table>, t: Table, g: int)
    requires Pairwise(tables, DifferentTableIds) && t in tables && t.seats >= 1
    requires g in GuestChoices(tables, Some(t.id))
    ensures 1 <= g <= t.seats
  {
    var found := FindTable(tables, t.id).value;
    PairwiseElements(tables, DifferentTableIds, found, t);
    var r := GuestChoices(tables, Some(t.id));
    var i :| 0 <= i < |r| && r[i] == g;
  }

  // ---------------------------------------------------------------------------
  // handleReserve
  // ---------------------------------------------------------------------------

  datatype FormRefusal = NotLoggedIn | NoTable | NoDate | NoTime | DateInPast | TimeInPast

  /**
   * The checks of `handleReserve`, in order: logged in, table, date, time; then
   * no day before today; and on today, a time after the current instant.
   * `date` is `None` when unset, `time` likewise.
   */
  function CheckReserve(loggedIn: bool, selected: Option<nat>, date: Option<int>, time: Option<Time>,
                        now: int): (r: Result<(nat, int, Time), FormRefusal>)
    ensures !loggedIn <==> r == Err(NotLoggedIn)
    ensures loggedIn && selected.None? <==> r == Err(NoTable)
    ensures r.Ok? <==>
      && loggedIn && selected.Some? && date.Some? && time.Some?
      && date.value >= DayOf(now)
      && (date.value == DayOf(now) ==> InstantOf(date.value, time.value) > now)
    ensures r.Ok? ==> r.value == (selected.value, date.value, time.value)
  {
    if !loggedIn then Err(NotLoggedIn)
    else if selected.None? then Err(NoTable)
    else if date.None? then Err(NoDate)
    else if time.None? then Err(NoTime)
    else if date.value < DayOf(now) then Err(DateInPast)
    else if date.value == DayOf(now) && InstantOf(date.value, time.value) <= now then Err(TimeInPast)
    else Ok((selected.value, date.value, time.value))
  }

  /**
   * What the form lets through also passes the server's date and same-day
   * time guards, so those server refusals can only come from another client.
   */
  lemma {:induction false} FormChecksImplyServerTimeGuards(loggedIn: bool, selected: Option<nat>, date: Option<int>,
                                                           time: Option<Time>, now: int)
    requires CheckReserve(loggedIn, selected, date, time, now).Ok?
    ensures date.value >= DayOf(now)
    ensures !(date.value == DayOf(now) && InstantOf(date.value, time.value) < now)
    ensures InstantOf(date.value, time.value) > now || date.value > DayOf(now)
  {
    var d := date.value;
    if d != DayOf(now) {
      assert d > DayOf(now);
    }
  }
}
