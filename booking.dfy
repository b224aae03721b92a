/**
 * The customer-facing reservation endpoints (`ReservationController`):
 * the availability map for one date and time, and `store`, which runs a
 * fixed chain of guards and then inserts one `pending` row.
 */
module Booking {
  import opened Base
  import opened Schema

  /** First and last hour at which the restaurant accepts a booking. */
  const OpeningHour: nat := 6
  const LastBookableHour: nat := 15

  // ---------------------------------------------------------------------------
  // checkAvailability
  // ---------------------------------------------------------------------------

  /** `whereIn('status', ['pending', 'confirmed'])`: the statuses that hold a table on the public map. */
  predicate HoldsTable(r: Reservation)
  {
    r.status == "pending" || r.status == "confirmed"
  }

  predicate BookedAt(date: int, time: Time, r: Reservation)
  {
    r.date == date && r.time == time && HoldsTable(r)
  }

  /** The `booked_tables` list: table ids of the holding reservations at that slot, in row order. */
  function BookedTableIds(rs: seq<Reservation>, date: int, time: Time): (ids: seq<nat>)
    ensures forall id :: id in ids <==> exists r :: r in rs && r.tableId == id && BookedAt(date, time, r)
  {
    var held := Filter(rs, r => BookedAt(date, time, r));
    FilterMembers(rs, r => BookedAt(date, time, r));
    var ids := Map(held, (r: Reservation) => r.tableId);
    assert forall id :: id in ids ==> exists r :: r in held && r.tableId == id by {
      forall id | id in ids ensures exists r :: r in held && r.tableId == id {
        var i :| 0 <= i < |ids| && ids[i] == id;
        assert held[i] in held;
      }
    }
    assert forall r :: r in held ==> r.tableId in ids by {
      forall r | r in held ensures r.tableId in ids {
        var i :| 0 <= i < |held| && held[i] == r;
        assert ids[i] == r.tableId;
      }
    }
    ids
  }

  /** The table is free at the slot: no pending or confirmed reservation holds it. */
  predicate FreeAt(rs: seq<Reservation>, tableId: nat, date: int, time: Time)
  {
    forall r :: r in rs && r.tableId == tableId ==> !BookedAt(date, time, r)
  }

  function TableIds(tables: seq<Table>): set<nat>
  {
    set t | t in tables :: t.id
  }

  /** The successful answer of `checkAvailability`. */
  datatype Availability = Availability(free: map<nat, bool>, bookedTables: seq<nat>, totalTables: nat)

  /** Why a request was refused, with the HTTP status the controller answers. */
  datatype Refusal =
    | Unauthenticated       // 401
    | ValidationFailed      // 422
    | OutsideOpeningHours   // 422
    | PastTime              // 422
    | TableNotFound         // 404
    | OverCapacity          // 422
    | ServerError           // 500

  function HttpStatus(e: Refusal): (code: nat)
    ensures 400 <= code < 600
  {
    match e
    case Unauthenticated => 401
    case TableNotFound => 404
    case ServerError => 500
    case _ => 422
  }

  /**
   * `checkAvailability`: `date` is `None` when `reservation_date` is missing or not a
   * date; `time` is the raw `reservation_time`. One entry per table of `Table::all()`,
   * whatever its `is_available` flag, built entry by entry.
   */
  method CheckAvailability(tables: seq<Table>, rs: seq<Reservation>, date: Option<int>, time: string)
    returns (r: Result<Availability, Refusal>)
    ensures (date.None? || ParseHi(time).None?) <==> r == Err(ValidationFailed)
    ensures r.Err? ==> r.error == ValidationFailed
    ensures r.Ok? ==> r.value.free.Keys == TableIds(tables)
    ensures r.Ok? ==> forall t :: t in tables ==>
              r.value.free[t.id] == FreeAt(rs, t.id, date.value, ParseHi(time).value)
    ensures r.Ok? ==> r.value.bookedTables == BookedTableIds(rs, date.value, ParseHi(time).value)
                      && r.value.totalTables == |tables|
  {
    if date.None? || ParseHi(time).None? {
      return Err(ValidationFailed);
    }
    var d, t := date.value, ParseHi(time).value;
    var booked := BookedTableIds(rs, d, t);
    var free: map<nat, bool> := map[];
    var i := 0;
    while i < |tables|
      invariant 0 <= i <= |tables|
      invariant free.Keys == TableIds(tables[..i])
      invariant forall id :: id in free ==> free[id] == FreeAt(rs, id, d, t)
    {
      var id := tables[i].id;
      free := free[id := !(id in booked)];
      assert tables[..i + 1] == tables[..i] + [tables[i]];
      i := i + 1;
    }
    assert tables[..i] == tables;
    forall x | x in tables ensures x.id in free {
    }
    return Ok(Availability(free, booked, |tables|));
  }

  /** A reservation that is neither pending nor confirmed never makes a table unavailable on the map. */
  lemma {:induction false} NonHoldingRowsNeverBlock(rs: seq<Reservation>, extra: Reservation, tableId: nat, date: int, time: Time)
    requires !HoldsTable(extra)
    ensures FreeAt(rs + [extra], tableId, date, time) == FreeAt(rs, tableId, date, time)
  {
    forall r | r in rs ensures r in rs + [extra] {
    }
    forall r | r in rs + [extra] && r.tableId == tableId ensures r == extra || r in rs {
    }
  }

  // ---------------------------------------------------------------------------
  // store
  // ---------------------------------------------------------------------------

  /**
   * A `store` request as it arrives: `None` for a field that is missing or of
   * the wrong type; `time` is the raw `reservation_time`.
   */
  datatype StoreRequest = StoreRequest(tableId: Option<nat>, guestCount: Option<int>, date: Option<int>, time: string)

  /** `$request->validate([...])`: every rule of the four fields holds. */
  predicate FieldsValid(req: StoreRequest, tables: seq<Table>, today: int)
  {
    && req.tableId.Some? && HasTable(tables, req.tableId.value)   // required|exists:tables,id
    && req.guestCount.Some? && req.guestCount.value >= 1          // required|integer|min:1
    && req.date.Some? && req.date.value >= today                   // required|date|after_or_equal:today
    && ParseHi(req.time).Some?                                     // required|date_format:H:i
  }

  /**
   * The guard chain of `store`, in the source's order; on success the row to
   * insert (its id is assigned by the insert).
   */
  function CheckStore(req: StoreRequest, caller: Option<User>, tables: seq<Table>, now: int): (r: Result<Reservation, Refusal>)
    ensures caller.None? ==> r == Err(Unauthenticated)
    ensures r.Ok? <==>
      && caller.Some?
      && FieldsValid(req, tables, DayOf(now))
      && OpeningHour <= ParseHi(req.time).value.hour <= LastBookableHour
      && !(req.date.value == DayOf(now) && InstantOf(req.date.value, ParseHi(req.time).value) < now)
      && req.guestCount.value <= FindTable(tables, req.tableId.value).value.seats
    ensures r.Ok? ==> r.value.status == DefaultReservationStatus
                      && r.value.userId == Some(caller.value.id)
                      && r.value.userName == caller.value.name && r.value.userEmail == caller.value.email
                      && r.value.tableId == req.tableId.value && r.value.guestCount == req.guestCount.value
                      && r.value.date == req.date.value && r.value.time == ParseHi(req.time).value
                      && r.value.reservedAt == now
    ensures r.Err? ==> r.error != TableNotFound && r.error != ServerError
    ensures caller.Some? && !FieldsValid(req, tables, DayOf(now)) ==> r == Err(ValidationFailed)
    ensures caller.Some? && r.Err? ==> HttpStatus(r.error) == 422
  {
    if caller.None? then Err(Unauthenticated)
    else if !FieldsValid(req, tables, DayOf(now)) then Err(ValidationFailed)
    else
      var time := ParseHi(req.time).value;
      LeadingHourOfParsed(req.time);
      var hour := LeadingHour(req.time);
      if hour < OpeningHour || hour > LastBookableHour then Err(OutsideOpeningHours)
      else if req.date.value == DayOf(now) && InstantOf(req.date.value, time) < now then Err(PastTime)
      else match FindTable(tables, req.tableId.value)
        case None => Err(TableNotFound)
        case Some(table) =>
          if req.guestCount.value > table.seats then Err(OverCapacity)
          else Ok(Reservation(0, Some(caller.value.id), caller.value.name, caller.value.email,
                              req.tableId.value, req.guestCount.value, req.date.value, time, now,
                              "pending"))
  }

  /**
   * `store`: the guards, then one insert. There is no look-up for an existing
   * booking first: an occupied slot (of any status) makes the insert fail on
   * the unique index, and the generic handler answers 500.
   */
  method Store(db: Db, req: StoreRequest, caller: Option<User>, now: int) returns (r: Result<Reservation, Refusal>)
    requires db.Valid()
    requires caller.Some? ==> HasUser(db.users, caller.value.id)   // the session's user is a stored user
    modifies db`reservations, db`nextReservationId
    ensures db.Valid()
    ensures CheckStore(req, caller, db.tables, now).Err? ==>
              r == CheckStore(req, caller, db.tables, now) && db.reservations == old(db.reservations)
    ensures CheckStore(req, caller, db.tables, now).Ok? ==>
              var draft := CheckStore(req, caller, db.tables, now).value;
              if SlotTaken(old(db.reservations), draft.tableId, draft.date, draft.time) then
                r == Err(ServerError) && db.reservations == old(db.reservations)
              else
                r == Ok(draft.(id := old(db.nextReservationId)))
                && db.reservations == old(db.reservations) + [r.value]
  {
    var check := CheckStore(req, caller, db.tables, now);
    if check.Err? {
      return check;
    }
    var row := db.InsertReservation(check.value);
    if row.None? {
      return Err(ServerError);
    }
    return Ok(row.value);
  }

  /** The hour guard reads only the two-digit hour: it admits exactly the times from 06:00 up to 15:59. */
  lemma {:induction false} HourGuardWindow(time: string)
    requires ParseHi(time).Some?
    ensures OpeningHour <= LeadingHour(time) <= LastBookableHour <==>
      OpeningHour * 3600 <= SecondOfDay(ParseHi(time).value) < (LastBookableHour + 1) * 3600
  {
    LeadingHourOfParsed(time);
    var t := ParseHi(time).value;
    assert 0 <= t.minute * 60 < 3600;
  }

  /** A booking at 15:30 on a later day, for a table large enough, passes every guard. */
  lemma HalfPastThreeAccepted(user: User, tables: seq<Table>, table: Table, now: int)
    requires Pairwise(tables, DifferentTableIds)
    requires table in tables && table.seats >= 2
    ensures CheckStore(StoreRequest(Some(table.id), Some(2), Some(DayOf(now) + 1), "15:30"),
                       Some(user), tables, now).Ok?
  {
    assert ParseHi("15:30") == Some(Time(15, 30));
    var found := FindTable(tables, table.id);
    PairwiseElements(tables, DifferentTableIds, found.value, table);
  }

  /** A reservation that passes the guards never starts before the current instant. */
  lemma {:induction false} AcceptedSlotNotPast(req: StoreRequest, caller: Option<User>, tables: seq<Table>, now: int)
    requires CheckStore(req, caller, tables, now).Ok?
    ensures var r := CheckStore(req, caller, tables, now).value; InstantOf(r.date, r.time) >= now
  {
    var r := CheckStore(req, caller, tables, now).value;
    InstantBefore(r.date, r.time, now);
  }

  /**
   * A cancelled row leaves its table free on the public map, yet the unique
   * index still counts its slot as taken, so `Store` answers 500 for it.
   */
  lemma CancelledSlotShownFreeButTaken(rs: seq<Reservation>, c: Reservation)
    requires UniqueSlots(rs) && c in rs && c.status == "cancelled"
    ensures FreeAt(rs, c.tableId, c.date, c.time)
    ensures SlotTaken(rs, c.tableId, c.date, c.time)
  {
    forall x | x in rs && x.tableId == c.tableId ensures !BookedAt(c.date, c.time, x) {
      PairwiseElements(rs, DifferentSlots, x, c);
    }
  }
}
