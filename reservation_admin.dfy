/**
 * The administrator's reservation endpoints (`Admin\ReservationController`):
 * status changes with the past-reservation lock, the deletion guard, the
 * detail look-up, the statistics counters and the free-table query.
 */
module ReservationAdmin {
  import opened Base
  import opened Schema
  import Booking

  /** `in:pending,confirmed,cancelled,completed`. */
  predicate IsReservationStatus(s: string)
  {
    s == "pending" || s == "confirmed" || s == "cancelled" || s == "completed"
  }

  datatype AdminError =
    | ValidationFailed   // 422, from the validator
    | PastReservation    // 400
    | NotDeletable       // 400
    | NotFound           // 404
    | ServerError        // 500, what the generic handler makes of a failed findOrFail

  function HttpStatus(e: AdminError): (code: nat)
    ensures 400 <= code < 600
  {
    match e
    case ValidationFailed => 422
    case PastReservation => 400
    case NotDeletable => 400
    case NotFound => 404
    case ServerError => 500
  }

  /** The instant the reservation's slot begins has passed (Carbon `isPast`). */
  predicate IsPast(r: Reservation, now: int)
  {
    InstantOf(r.date, r.time) < now
  }

  /** The past-lock: a past reservation may only be moved to `completed`. */
  predicate StatusChangeAllowed(r: Reservation, status: string, now: int)
  {
    !IsPast(r, now) || status == "completed"
  }

  /**
   * `updateStatus`: an invalid status is refused before the look-up; an unknown
   * id fails inside the handler and comes back as 500; a locked change answers
   * 400; otherwise the status, and only the status, of that row changes.
   */
  method UpdateStatus(db: Db, id: nat, status: string, now: int) returns (r: Result<Reservation, AdminError>)
    requires db.Valid()
    modifies db`reservations
    ensures db.Valid()
    ensures !IsReservationStatus(status) ==> r == Err(ValidationFailed)
    ensures IsReservationStatus(status) && ReservationIndex(old(db.reservations), id).None? ==> r == Err(ServerError)
    ensures r.Err? ==> db.reservations == old(db.reservations)
    ensures IsReservationStatus(status) && ReservationIndex(old(db.reservations), id).Some? ==>
              var k := ReservationIndex(old(db.reservations), id).value;
              var before := old(db.reservations)[k];
              if StatusChangeAllowed(before, status, now) then
                r == Ok(before.(status := status))
                && db.reservations == old(db.reservations)[k := before.(status := status)]
              else r == Err(PastReservation)
  {
    if !IsReservationStatus(status) {
      return Err(ValidationFailed);
    }
    var k := ReservationIndex(db.reservations, id);
    if k.None? {
      return Err(ServerError);
    }
    var before := db.reservations[k.value];
    if !StatusChangeAllowed(before, status, now) {
      return Err(PastReservation);
    }
    db.SetReservationStatus(k.value, status);
    return Ok(before.(status := status));
  }

  /** `show`: the row with that id, or 404. */
  function Show(rs: seq<Reservation>, id: nat): (r: Result<Reservation, AdminError>)
    ensures r.Ok? <==> exists x :: x in rs && x.id == id
    ensures r.Ok? ==> r.value in rs && r.value.id == id
    ensures r.Err? ==> r.error == NotFound
  {
    match ReservationIndex(rs, id)
    case None => Err(NotFound)
    case Some(k) => Ok(rs[k])
  }

  /** `in_array($status, ['pending', 'cancelled'])`, strict about case. */
  predicate Deletable(r: Reservation)
  {
    r.status == "pending" || r.status == "cancelled"
  }

  /**
   * `destroy`: an unknown id answers 500; a row that is not pending or
   * cancelled answers 400 and stays; otherwise exactly that row is deleted.
   */
  method Destroy(db: Db, id: nat) returns (r: Result<Reservation, AdminError>)
    requires db.Valid()
    modifies db`reservations
    ensures db.Valid()
    ensures ReservationIndex(old(db.reservations), id).None? ==> r == Err(ServerError)
    ensures r.Err? ==> db.reservations == old(db.reservations)
    ensures ReservationIndex(old(db.reservations), id).Some? ==>
              var k := ReservationIndex(old(db.reservations), id).value;
              if Deletable(old(db.reservations)[k]) then
                r == Ok(old(db.reservations)[k])
                && db.reservations == old(db.reservations)[..k] + old(db.reservations)[k + 1..]
              else r == Err(NotDeletable)
  {
    var k := ReservationIndex(db.reservations, id);
    if k.None? {
      return Err(ServerError);
    }
    var row := db.reservations[k.value];
    if !Deletable(row) {
      return Err(NotDeletable);
    }
    db.DeleteReservationAt(k.value);
    return Ok(row);
  }

  /** Deleting by id removes that row and no other: every other row is kept, in order. */
  lemma {:induction false} DeleteRemovesOnlyThatRow(rs: seq<Reservation>, k: nat)
    requires Pairwise(rs, DifferentReservationIds) && k < |rs|
    ensures forall x :: x in rs[..k] + rs[k + 1..] <==> x in rs && x.id != rs[k].id
  {
    var rest := rs[..k] + rs[k + 1..];
    RemoveAt(rs, k);
    forall x | x in rs && x.id != rs[k].id ensures x in rest {
      var i :| 0 <= i < |rs| && rs[i] == x;
      if i < k {
        assert rest[i] == x;
      } else {
        assert i != k && rest[i - 1] == x;
      }
    }
    forall x | x in rest ensures x in rs && x.id != rs[k].id {
      var i :| 0 <= i < |rest| && rest[i] == x;
      if i < k {
        assert rs[i] == x && DifferentReservationIds(rs[i], rs[k]);
      } else {
        assert rs[i + 1] == x && DifferentReservationIds(rs[k], rs[i + 1]);
      }
    }
  }

  // ---------------------------------------------------------------------------
  // statistics
  // ---------------------------------------------------------------------------

  predicate HasStatus(s: string, r: Reservation) { r.status == s }
  predicate DatedOn(day: int, r: Reservation) { r.date == day }
  predicate DatedFrom(day: int, r: Reservation) { r.date >= day }
  predicate Upcoming(today: int, r: Reservation) { r.date >= today && Booking.HoldsTable(r) }

  datatype Stats = Stats(total: nat, today: nat, pending: nat, confirmed: nat, cancelled: nat,
                         completed: nat, thisMonth: nat, upcoming: nat)

  /** `statistics`, with `today` and the first day of the month passed in. */
  function Statistics(rs: seq<Reservation>, today: int, monthStart: int): (s: Stats)
    ensures s.total == |rs|
    ensures s.upcoming <= s.pending + s.confirmed
    ensures s.pending + s.confirmed + s.cancelled + s.completed <= s.total
    ensures monthStart <= today ==> s.upcoming <= s.thisMonth
  {
    var s := Stats(
      |rs|,
      Count(rs, r => DatedOn(today, r)),
      Count(rs, r => HasStatus("pending", r)),
      Count(rs, r => HasStatus("confirmed", r)),
      Count(rs, r => HasStatus("cancelled", r)),
      Count(rs, r => HasStatus("completed", r)),
      Count(rs, r => DatedFrom(monthStart, r)),
      Count(rs, r => Upcoming(today, r)));
    StatusCountsBounded(rs);
    UpcomingBounded(rs, today);
    if monthStart <= today then
      CountMonotone(rs, r => Upcoming(today, r), r => DatedFrom(monthStart, r));
      s
    else s
  }

  /** The four status counters never add up to more than the rows (other spellings count in none). */
  lemma {:induction false} StatusCountsBounded(rs: seq<Reservation>)
    ensures Count(rs, r => HasStatus("pending", r)) + Count(rs, r => HasStatus("confirmed", r))
          + Count(rs, r => HasStatus("cancelled", r)) + Count(rs, r => HasStatus("completed", r)) <= |rs|
  {
    if rs != [] {
      StatusCountsBounded(rs[1..]);
    }
  }

  lemma {:induction false} UpcomingBounded(rs: seq<Reservation>, today: int)
    ensures Count(rs, r => Upcoming(today, r))
         <= Count(rs, r => HasStatus("pending", r)) + Count(rs, r => HasStatus("confirmed", r))
  {
    if rs != [] {
      UpcomingBounded(rs[1..], today);
    }
  }

  // ---------------------------------------------------------------------------
  // getAvailableTables
  // ---------------------------------------------------------------------------

  /** `where('status', '!=', 'cancelled')`: every other status, `completed` included, holds the table. */
  predicate BlocksAdminQuery(date: int, time: Time, r: Reservation)
  {
    r.date == date && r.time == time && r.status != "cancelled"
  }

  predicate OfferedTable(rs: seq<Reservation>, date: int, time: Time, t: Table)
  {
    t.isAvailable && forall r :: r in rs && r.tableId == t.id ==> !BlocksAdminQuery(date, time, r)
  }

  /**
   * `getAvailableTables`: after `date` (on or after today) and `time` pass
   * validation, the active tables no non-cancelled reservation holds at that slot.
   */
  function GetAvailableTables(tables: seq<Table>, rs: seq<Reservation>, date: Option<int>, time: string, today: int)
    : (r: Result<seq<Table>, AdminError>)
    ensures r.Err? <==> date.None? || date.value < today || ParseHi(time).None?
    ensures r.Err? ==> r.error == ValidationFailed
    ensures r.Ok? ==> forall t :: t in r.value <==> t in tables && OfferedTable(rs, date.value, ParseHi(time).value, t)
    ensures r.Ok? ==> |r.value| <= |tables|
  {
    if date.None? || date.value < today || ParseHi(time).None? then Err(ValidationFailed)
    else
      var d, tm := date.value, ParseHi(time).value;
      FilterMembers(tables, t => OfferedTable(rs, d, tm, t));
      Ok(Filter(tables, t => OfferedTable(rs, d, tm, t)))
  }

  /**
   * A completed reservation keeps its table out of the admin query while the
   * public availability map shows that table as free.
   */
  lemma CompletedBlocksAdminButNotPublic(tables: seq<Table>, rs: seq<Reservation>, c: Reservation, today: int)
    requires UniqueSlots(rs) && c in rs && c.status == "completed" && c.date >= today && ValidTime(c.time)
    ensures Booking.FreeAt(rs, c.tableId, c.date, c.time)
    ensures var q := GetAvailableTables(tables, rs, Some(c.date), FormatHi(c.time), today);
            q.Ok? && forall t :: t in q.value ==> t.id != c.tableId
  {
    ParseFormatHi(c.time);
    forall x | x in rs && x.tableId == c.tableId ensures !Booking.BookedAt(c.date, c.time, x) {
      PairwiseElements(rs, DifferentSlots, x, c);
    }
  }
}
