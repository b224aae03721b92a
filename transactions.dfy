/**
 * The customer's transaction history (`TransactionController`): the caller's
 * own orders and reservations as display entries, and the two cancellations,
 * each guarded by id, owner and the status `Pending`.
 */
module Transactions {
  import opened Base
  import opened Schema
  import Booking
  import ReservationAdmin

  // ---------------------------------------------------------------------------
  // index
  // ---------------------------------------------------------------------------

  /** One order line as the history shows it (the amount as a number, the date as a timestamp). */
  datatype OrderEntry = OrderEntry(id: nat, groupId: Option<string>, createdAt: int, dishName: string,
                                   quantity: nat, total: int, status: string)

  /** One reservation as the history shows it. */
  datatype ReservationEntry = ReservationEntry(id: nat, date: int, time: Time, tableName: string,
                                               guests: int, status: string)

  /** PHP `ucfirst` on ASCII: the first character upper-cased, the rest kept. */
  function Ucfirst(s: string): (r: string)
    ensures |r| == |s|
    ensures s != [] ==> r[0] == UpperChar(s[0]) && r[1..] == s[1..]
  {
    if s == [] then [] else [UpperChar(s[0])] + s[1..]
  }

  function ToOrderEntry(dishes: seq<Dish>, o: Order): (e: OrderEntry)
    ensures e.id == o.id && e.groupId == o.groupId && e.status == o.status && e.total == o.totalAmount
  {
    var name := match FindDish(dishes, o.dishId) case Some(d) => d.name case None => "Unknown Dish";
    OrderEntry(o.id, o.groupId, o.createdAt, name, o.quantity, o.totalAmount, o.status)
  }

  /** `$res->table->name ?? "Table {$res->table_id}"`. */
  function TableName(tables: seq<Table>, id: nat): string
  {
    match FindTable(tables, id)
    case Some(t) => t.name
    case None => "Table " + NatToString(id)
  }

  function ToReservationEntry(tables: seq<Table>, r: Reservation): (e: ReservationEntry)
    ensures e.id == r.id && e.date == r.date && e.time == r.time && e.status == Ucfirst(r.status)
  {
    ReservationEntry(r.id, r.date, r.time, TableName(tables, r.tableId), r.guestCount, Ucfirst(r.status))
  }

  predicate PlacedBy(uid: nat, o: Order) { o.userId == uid }
  function PlacedByOf(uid: nat): Order -> bool { o => PlacedBy(uid, o) }
  function OwnedByOf(uid: nat): Reservation -> bool { r => OwnedBy(uid, r) }

  /**
   * The `orders` half of `index`: one entry per order of the caller (in the
   * order of the rows given), and none for anyone else's.
   */
  function OrderEntries(orders: seq<Order>, dishes: seq<Dish>, uid: nat): (es: seq<OrderEntry>)
    ensures |es| == Count(orders, PlacedByOf(uid))
    ensures forall i :: 0 <= i < |es| ==> exists o :: o in orders && o.userId == uid && es[i] == ToOrderEntry(dishes, o)
    ensures forall o :: o in orders && o.userId == uid ==> ToOrderEntry(dishes, o) in es
  {
    MapFilterMembers(orders, PlacedByOf(uid), OrderEntryOf(dishes));
    Map(Filter(orders, PlacedByOf(uid)), OrderEntryOf(dishes))
  }

  function OrderEntryOf(dishes: seq<Dish>): Order -> OrderEntry { o => ToOrderEntry(dishes, o) }

  /**
   * The `reservations` half of `index`: one entry per reservation of the
   * caller, its status shown with the first letter capitalised.
   */
  function ReservationEntries(rs: seq<Reservation>, tables: seq<Table>, uid: nat): (es: seq<ReservationEntry>)
    ensures |es| == Count(rs, OwnedByOf(uid))
    ensures forall i :: 0 <= i < |es| ==> exists r :: r in rs && r.userId == Some(uid) && es[i] == ToReservationEntry(tables, r)
    ensures forall r :: r in rs && r.userId == Some(uid) ==> ToReservationEntry(tables, r) in es
  {
    MapFilterMembers(rs, OwnedByOf(uid), ReservationEntryOf(tables));
    Map(Filter(rs, OwnedByOf(uid)), ReservationEntryOf(tables))
  }

  function ReservationEntryOf(tables: seq<Table>): Reservation -> ReservationEntry { r => ToReservationEntry(tables, r) }

  // ---------------------------------------------------------------------------
  // cancelOrder and cancelReservation
  // ---------------------------------------------------------------------------

  /** The one refusal both cancellations give, whatever failed: 404 "not found or cannot be cancelled". */
  datatype CancelRefusal = NotFoundOrNotCancellable

  function HttpStatus(e: CancelRefusal): nat { 404 }

  /** `where('id', $id)->where('user_id', $user->id)->where('status', 'Pending')`. */
  predicate CancellableOrder(id: nat, uid: nat, o: Order)
  {
    o.id == id && o.userId == uid && o.status == "Pending"
  }

  function CancellableOrderOf(id: nat, uid: nat): Order -> bool { o => CancellableOrder(id, uid, o) }

  predicate CancellableReservation(id: nat, uid: nat, r: Reservation)
  {
    r.id == id && r.userId == Some(uid) && r.status == "Pending"
  }

  function CancellableReservationOf(id: nat, uid: nat): Reservation -> bool { r => CancellableReservation(id, uid, r) }

  /**
   * `cancelOrder`: the first line matching the three-part guard becomes
   * `Cancelled` (a changed model, so `updated_at` moves too); nothing else
   * changes, not even the other lines of its group.
   */
  method CancelOrder(db: Db, caller: User, id: nat, now: int) returns (r: Result<Order, CancelRefusal>)
    requires db.Valid()
    modifies db`orders
    ensures db.Valid()
    ensures r.Err? <==> forall o :: o in old(db.orders) ==> !CancellableOrder(id, caller.id, o)
    ensures match IndexWhere(old(db.orders), CancellableOrderOf(id, caller.id))
      case None => r == Err(NotFoundOrNotCancellable) && db.orders == old(db.orders)
      case Some(k) =>
        r == Ok(old(db.orders)[k].(status := "Cancelled", updatedAt := now))
        && db.orders == old(db.orders)[k := r.value]
  {
    var k := IndexWhere(db.orders, CancellableOrderOf(id, caller.id));
    if k.None? {
      return Err(NotFoundOrNotCancellable);
    }
    var row := db.orders[k.value].(status := "Cancelled", updatedAt := now);
    db.SetOrderStatus(k.value, "Cancelled", now);
    return Ok(row);
  }

  /** `cancelReservation`: the same guard, with the same capitalised `Pending`, and `Cancelled` as the new status. */
  method CancelReservation(db: Db, caller: User, id: nat) returns (r: Result<Reservation, CancelRefusal>)
    requires db.Valid()
    modifies db`reservations
    ensures db.Valid()
    ensures r.Err? <==> forall x :: x in old(db.reservations) ==> !CancellableReservation(id, caller.id, x)
    ensures match IndexWhere(old(db.reservations), CancellableReservationOf(id, caller.id))
      case None => r == Err(NotFoundOrNotCancellable) && db.reservations == old(db.reservations)
      case Some(k) =>
        r == Ok(old(db.reservations)[k].(status := "Cancelled"))
        && db.reservations == old(db.reservations)[k := r.value]
  {
    var k := IndexWhere(db.reservations, CancellableReservationOf(id, caller.id));
    if k.None? {
      return Err(NotFoundOrNotCancellable);
    }
    var row := db.reservations[k.value].(status := "Cancelled");
    db.SetReservationStatus(k.value, "Cancelled");
    return Ok(row);
  }

  /**
   * Under a case-sensitive (binary) collation: a reservation as `store` creates
   * it is listed as `Pending`, yet the cancellation guard, comparing against
   * `Pending` in the query, refuses the stored `pending`. Under a
   * case-insensitive collation the guard would accept it.
   */
  lemma {:induction false} CreatedReservationShownPendingButNotCancellable(r: Reservation, uid: nat)
    requires r.status == DefaultReservationStatus
    ensures ToReservationEntry([], r).status == "Pending"
    ensures !CancellableReservation(r.id, uid, r)
  {
    assert r.status[0] == 'p' != 'P';
  }

  /**
   * A reservation the customer cancelled carries `Cancelled`, which frees its
   * table on the public map but which the administrator's deletion guard,
   * expecting `cancelled`, refuses.
   */
  lemma {:induction false} CustomerCancelledNotDeletable(r: Reservation)
    requires r.status == "Cancelled"
    ensures !Booking.HoldsTable(r)
    ensures !ReservationAdmin.Deletable(r)
  {
    assert r.status[0] == 'C';
  }
}
