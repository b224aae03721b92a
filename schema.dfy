/**
 * The restaurant's database: the rows of its `tables`, `dishes`, `users`,
 * `reservations` and `orders` tables, the constraints its migrations declare
 * (primary keys, foreign keys, the unique slot index on reservations, the
 * unique order code), and `Db`, the in-memory store that holds the rows and
 * keeps those constraints as its invariant.
 *
 * The store's methods are the storage primitives the controllers use
 * (Eloquent `create`, `update`, `save`, `delete`): an insert that would break a
 * constraint fails and leaves the store unchanged, as the database does.
 */
module Schema {
  import opened Base

  /** A row of `tables`: seating capacity and an active flag. */
  datatype Table = Table(id: nat, name: string, seats: int, isAvailable: bool)

  /** A row of `dishes`: price in centavos and the sold-out flag. */
  datatype Dish = Dish(id: nat, name: string, price: nat, available: bool)

  /** A row of `users`. */
  datatype User = User(id: nat, name: string, email: string, role: string,
                       contactNumber: Option<string>, createdAt: int)

  /** A row of `reservations`. */
  datatype Reservation = Reservation(
    id: nat, userId: Option<nat>, userName: string, userEmail: string,
    tableId: nat, guestCount: int, date: int, time: Time, reservedAt: int,
    status: string)

  /** A row of `orders`: one line of a (possibly grouped) food order. */
  datatype Order = Order(
    id: nat, orderCode: string, userId: nat, dishId: nat, groupId: Option<string>,
    customerName: Option<string>, customerAddress: Option<string>, quantity: nat,
    notes: Option<string>, payment: string, totalAmount: int, status: string,
    createdAt: int, updatedAt: int)

  /** Column default of `reservations.status`. */
  const DefaultReservationStatus: string := "pending"
  /** Column default of `orders.status`. */
  const DefaultOrderStatus: string := "Pending"
  const AdminRole: string := "admin"

  // ---------------------------------------------------------------------------
  // Keys
  // ---------------------------------------------------------------------------

  predicate DifferentTableIds(a: Table, b: Table) { a.id != b.id }
  predicate DifferentDishIds(a: Dish, b: Dish) { a.id != b.id }
  predicate DifferentUserIds(a: User, b: User) { a.id != b.id }
  predicate DifferentReservationIds(a: Reservation, b: Reservation) { a.id != b.id }
  predicate DifferentOrderIds(a: Order, b: Order) { a.id != b.id }
  predicate DifferentOrderCodes(a: Order, b: Order) { a.orderCode != b.orderCode }

  predicate HasTable(tables: seq<Table>, id: nat) { exists t :: t in tables && t.id == id }
  predicate HasDish(dishes: seq<Dish>, id: nat) { exists d :: d in dishes && d.id == id }
  predicate HasUser(users: seq<User>, id: nat) { exists u :: u in users && u.id == id }

  predicate IsTable(id: nat, t: Table) { t.id == id }
  predicate IsDish(id: nat, d: Dish) { d.id == id }
  predicate IsUser(id: nat, u: User) { u.id == id }
  predicate IsReservation(id: nat, r: Reservation) { r.id == id }
  predicate IsOrder(id: nat, o: Order) { o.id == id }

  /** `Table::find($id)`. */
  function FindTable(tables: seq<Table>, id: nat): (r: Option<Table>)
    ensures r.Some? ==> r.value in tables && r.value.id == id
    ensures r.None? <==> !HasTable(tables, id)
  {
    match IndexWhere(tables, t => IsTable(id, t))
    case None => None
    case Some(k) => Some(tables[k])
  }

  /** `Dish::find($id)`. */
  function FindDish(dishes: seq<Dish>, id: nat): (r: Option<Dish>)
    ensures r.Some? ==> r.value in dishes && r.value.id == id
    ensures r.None? <==> !HasDish(dishes, id)
  {
    match IndexWhere(dishes, d => IsDish(id, d))
    case None => None
    case Some(k) => Some(dishes[k])
  }

  /** Position of the reservation with primary key `id` (`Reservation::find`). */
  function ReservationIndex(rs: seq<Reservation>, id: nat): (k: Option<nat>)
    ensures k.Some? ==> k.value < |rs| && rs[k.value].id == id
    ensures k.None? ==> forall r :: r in rs ==> r.id != id
  {
    IndexWhere(rs, r => IsReservation(id, r))
  }

  /** Position of the order with primary key `id` (`Order::find`). */
  function OrderIndex(os: seq<Order>, id: nat): (k: Option<nat>)
    ensures k.Some? ==> k.value < |os| && os[k.value].id == id
    ensures k.None? ==> forall o :: o in os ==> o.id != id
  {
    IndexWhere(os, o => IsOrder(id, o))
  }

  /** Position of the user with primary key `id` (`User::find`). */
  function UserIndex(us: seq<User>, id: nat): (k: Option<nat>)
    ensures k.Some? ==> k.value < |us| && us[k.value].id == id
    ensures k.None? ==> forall u :: u in us ==> u.id != id
  {
    IndexWhere(us, u => IsUser(id, u))
  }

  // ---------------------------------------------------------------------------
  // The unique slot index of `reservations`
  // ---------------------------------------------------------------------------

  predicate DifferentSlots(a: Reservation, b: Reservation)
  {
    !(a.tableId == b.tableId && a.date == b.date && a.time == b.time)
  }

  /** `unique(['table_id', 'reservation_date', 'reservation_time'])`: no two rows share a slot, whatever their status. */
  predicate UniqueSlots(rs: seq<Reservation>)
  {
    Pairwise(rs, DifferentSlots)
  }

  /** Some row, of any status, already holds the slot. */
  predicate SlotTaken(rs: seq<Reservation>, tableId: nat, date: int, time: Time)
  {
    exists r :: r in rs && r.tableId == tableId && r.date == date && r.time == time
  }

  /** Under the index, two different rows never share a slot. */
  lemma AtMostOneRowPerSlot(rs: seq<Reservation>, i: nat, j: nat)
    requires UniqueSlots(rs)
    requires i < |rs| && j < |rs| && i != j
    ensures DifferentSlots(rs[i], rs[j])
  {
    if i < j {
      assert DifferentSlots(rs[i], rs[j]);
    } else {
      assert DifferentSlots(rs[j], rs[i]);
    }
  }

  /** Appending a row keeps the index intact exactly when its slot was free. */
  lemma UniqueSlotsAppend(rs: seq<Reservation>, r: Reservation)
    requires UniqueSlots(rs)
    ensures UniqueSlots(rs + [r]) <==> !SlotTaken(rs, r.tableId, r.date, r.time)
  {
    if !SlotTaken(rs, r.tableId, r.date, r.time) {
      PairwiseAppend(rs, r, DifferentSlots);
    } else {
      var x :| x in rs && x.tableId == r.tableId && x.date == r.date && x.time == r.time;
      var k :| 0 <= k < |rs| && rs[k] == x;
      assert (rs + [r])[k] == x && (rs + [r])[|rs|] == r;
      assert !DifferentSlots((rs + [r])[k], (rs + [r])[|rs|]);
    }
  }

  // ---------------------------------------------------------------------------
  // Table invariants
  // ---------------------------------------------------------------------------

  /** Primary keys of the read-mostly tables. */
  predicate CatalogValid(tables: seq<Table>, dishes: seq<Dish>, users: seq<User>)
  {
    Pairwise(tables, DifferentTableIds) && Pairwise(dishes, DifferentDishIds) && Pairwise(users, DifferentUserIds)
  }

  /** One reservation row's foreign keys and id bound. */
  predicate ReservationRowValid(r: Reservation, tables: seq<Table>, users: seq<User>, nextId: nat)
  {
    r.id < nextId && HasTable(tables, r.tableId) && (r.userId.Some? ==> HasUser(users, r.userId.value))
  }

  predicate ReservationsValid(rs: seq<Reservation>, tables: seq<Table>, users: seq<User>, nextId: nat)
  {
    Pairwise(rs, DifferentReservationIds) && UniqueSlots(rs)
    && forall r :: r in rs ==> ReservationRowValid(r, tables, users, nextId)
  }

  /** One order row's foreign keys and id bound. */
  /** `customer_name` and `customer_address` are NOT NULL columns of `orders`. */
  predicate NotNullFilled(o: Order)
  {
    o.customerName.Some? && o.customerAddress.Some?
  }

  predicate OrderRowValid(o: Order, dishes: seq<Dish>, users: seq<User>, nextId: nat)
  {
    o.id < nextId && HasDish(dishes, o.dishId) && HasUser(users, o.userId) && NotNullFilled(o)
  }

  predicate OrdersValid(os: seq<Order>, dishes: seq<Dish>, users: seq<User>, nextId: nat)
  {
    Pairwise(os, DifferentOrderIds) && Pairwise(os, DifferentOrderCodes)
    && forall o :: o in os ==> OrderRowValid(o, dishes, users, nextId)
  }

  predicate CodeTaken(os: seq<Order>, code: string)
  {
    exists o :: o in os && o.orderCode == code
  }

  /**
   * Rows that can be inserted one after another after `stored`: consecutive
   * ids from `next`, resolving foreign keys, the NOT NULL columns filled, and each with a code that neither
   * a stored row nor an earlier one of them already uses.
   */
  predicate Insertable(stored: seq<Order>, rows: seq<Order>, dishes: seq<Dish>, users: seq<User>, next: nat)
  {
    forall i :: 0 <= i < |rows| ==>
      && rows[i].id == next + i
      && HasDish(dishes, rows[i].dishId) && HasUser(users, rows[i].userId)
      && NotNullFilled(rows[i])
      && !CodeTaken(stored + rows[..i], rows[i].orderCode)
  }

  lemma InsertableAppend(stored: seq<Order>, rows: seq<Order>, row: Order, dishes: seq<Dish>, users: seq<User>, next: nat)
    requires Insertable(stored, rows, dishes, users, next)
    requires row.id == next + |rows| && HasDish(dishes, row.dishId) && HasUser(users, row.userId)
    requires NotNullFilled(row)
    requires !CodeTaken(stored + rows, row.orderCode)
    ensures Insertable(stored, rows + [row], dishes, users, next)
  {
    assert (rows + [row])[..|rows|] == rows;
    forall i | 0 <= i < |rows| ensures (rows + [row])[..i] == rows[..i] {
    }
  }

  predicate OwnedBy(uid: nat, r: Reservation) { r.userId == Some(uid) }
  predicate NotOwnedBy(uid: nat, r: Reservation) { r.userId != Some(uid) }
  predicate NotPlacedBy(uid: nat, o: Order) { o.userId != uid }

  /**
   * The store: every table of the schema as a sequence of rows, plus the
   * auto-increment counters of the two tables the core writes.
   */
  class Db {
    var tables: seq<Table>
    var dishes: seq<Dish>
    var users: seq<User>
    var reservations: seq<Reservation>
    var orders: seq<Order>
    var nextReservationId: nat
    var nextOrderId: nat

    ghost predicate Valid()
      reads this
    {
      CatalogValid(tables, dishes, users)
      && ReservationsValid(reservations, tables, users, nextReservationId)
      && OrdersValid(orders, dishes, users, nextOrderId)
    }

    constructor (tables: seq<Table>, dishes: seq<Dish>, users: seq<User>)
      requires CatalogValid(tables, dishes, users)
      ensures Valid()
      ensures this.tables == tables && this.dishes == dishes && this.users == users
      ensures reservations == [] && orders == []
    {
      this.tables, this.dishes, this.users := tables, dishes, users;
      reservations, orders := [], [];
      nextReservationId, nextOrderId := 1, 1;
    }

    /**
     * `INSERT INTO reservations`: the row gets the next id; the insert fails,
     * changing nothing, when the slot is already held by any row or a foreign
     * key does not resolve.
     */
    method InsertReservation(draft: Reservation) returns (row: Option<Reservation>)
      requires Valid()
      modifies this`reservations, this`nextReservationId
      ensures Valid()
      ensures row.Some? <==>
        !SlotTaken(old(reservations), draft.tableId, draft.date, draft.time)
        && HasTable(tables, draft.tableId)
        && (draft.userId.Some? ==> HasUser(users, draft.userId.value))
      ensures row.Some? ==> row.value == draft.(id := old(nextReservationId))
                            && reservations == old(reservations) + [row.value]
      ensures row.None? ==> reservations == old(reservations)
    {
      var r := draft.(id := nextReservationId);
      var fkOk := FindTable(tables, r.tableId).Some? &&
                  (r.userId.Some? ==> UserIndex(users, r.userId.value).Some?);
      if r.userId.Some? && UserIndex(users, r.userId.value).Some? {
        assert users[UserIndex(users, r.userId.value).value] in users;
      }
      var taken := exists x :: x in reservations && x.tableId == r.tableId && x.date == r.date && x.time == r.time;
      if taken || !fkOk {
        row := None;
      } else {
        UniqueSlotsAppend(reservations, r);
        PairwiseAppend(reservations, r, DifferentReservationIds);
        reservations := reservations + [r];
        nextReservationId := nextReservationId + 1;
        row := Some(r);
      }
    }

    /** `UPDATE reservations SET status = ?` on the row at position `k`. */
    method SetReservationStatus(k: nat, status: string)
      requires Valid() && k < |reservations|
      modifies this`reservations
      ensures Valid()
      ensures reservations == old(reservations)[k := old(reservations)[k].(status := status)]
    {
      var rs := reservations[k := reservations[k].(status := status)];
      forall i, j | 0 <= i < j < |rs|
        ensures DifferentSlots(rs[i], rs[j]) && DifferentReservationIds(rs[i], rs[j])
      {
        assert DifferentSlots(reservations[i], reservations[j]);
        assert DifferentReservationIds(reservations[i], reservations[j]);
      }
      forall r | r in rs ensures ReservationRowValid(r, tables, users, nextReservationId) {
        var i :| 0 <= i < |rs| && rs[i] == r;
        assert ReservationRowValid(reservations[i], tables, users, nextReservationId);
      }
      reservations := rs;
    }

    /** `DELETE FROM reservations` of the row at position `k`. */
    method DeleteReservationAt(k: nat)
      requires Valid() && k < |reservations|
      modifies this`reservations
      ensures Valid()
      ensures reservations == old(reservations)[..k] + old(reservations)[k + 1..]
    {
      PairwiseRemove(reservations, k, DifferentSlots);
      PairwiseRemove(reservations, k, DifferentReservationIds);
      var rs := reservations[..k] + reservations[k + 1..];
      forall r | r in rs ensures r in reservations {
        var i :| 0 <= i < |rs| && rs[i] == r;
        assert r == reservations[if i < k then i else i + 1];
      }
      reservations := rs;
    }

    /**
     * `INSERT INTO orders`: the row gets the next id; the insert fails,
     * changing nothing, when its order code is already used, a foreign key
     * does not resolve or a NOT NULL column is null.
     */
    method InsertOrder(draft: Order) returns (row: Option<Order>)
      requires Valid()
      modifies this`orders, this`nextOrderId
      ensures Valid()
      ensures row.Some? <==>
        && !CodeTaken(old(orders), draft.orderCode) && HasDish(dishes, draft.dishId) && HasUser(users, draft.userId)
        && NotNullFilled(draft)
      ensures row.Some? ==> row.value == draft.(id := old(nextOrderId))
                            && orders == old(orders) + [row.value]
                            && nextOrderId == old(nextOrderId) + 1
      ensures row.None? ==> orders == old(orders) && nextOrderId == old(nextOrderId)
    {
      var o := draft.(id := nextOrderId);
      if UserIndex(users, o.userId).Some? {
        assert users[UserIndex(users, o.userId).value] in users;
      }
      var fkOk := FindDish(dishes, o.dishId).Some? && UserIndex(users, o.userId).Some?;
      var taken := exists x :: x in orders && x.orderCode == o.orderCode;
      if taken || !fkOk || !NotNullFilled(o) {
        row := None;
      } else {
        PairwiseAppend(orders, o, DifferentOrderIds);
        PairwiseAppend(orders, o, DifferentOrderCodes);
        orders := orders + [o];
        nextOrderId := nextOrderId + 1;
        row := Some(o);
      }
    }

    /**
     * `DB::commit()` of a transaction that wrote `rows`: they are appended
     * with the ids the counter handed out, in the order they were written.
     */
    method CommitOrders(rows: seq<Order>)
      requires Valid() && Insertable(orders, rows, dishes, users, nextOrderId)
      modifies this`orders, this`nextOrderId
      ensures Valid()
      ensures orders == old(orders) + rows && nextOrderId == old(nextOrderId) + |rows|
    {
      var all := orders + rows;
      var n := nextOrderId + |rows|;
      forall i, j | 0 <= i < j < |all| ensures DifferentOrderIds(all[i], all[j]) && DifferentOrderCodes(all[i], all[j]) {
        if j < |orders| {
          assert DifferentOrderIds(orders[i], orders[j]) && DifferentOrderCodes(orders[i], orders[j]);
        } else {
          var k := j - |orders|;
          assert all[j] == rows[k];
          assert (orders + rows[..k])[i] == all[i];
          if i < |orders| {
            assert OrderRowValid(orders[i], dishes, users, nextOrderId);
          } else {
            assert all[i] == rows[i - |orders|];
          }
        }
      }
      forall o | o in all ensures OrderRowValid(o, dishes, users, n) {
        if o in orders {
          assert OrderRowValid(o, dishes, users, nextOrderId);
        } else {
          var k :| 0 <= k < |rows| && rows[k] == o;
        }
      }
      orders, nextOrderId := all, n;
    }

    /** `UPDATE orders SET status = ?, updated_at = ?` on the row at position `k`. */
    method SetOrderStatus(k: nat, status: string, now: int)
      requires Valid() && k < |orders|
      modifies this`orders
      ensures Valid()
      ensures orders == old(orders)[k := old(orders)[k].(status := status, updatedAt := now)]
    {
      var os := orders[k := orders[k].(status := status, updatedAt := now)];
      forall i, j | 0 <= i < j < |os|
        ensures DifferentOrderIds(os[i], os[j]) && DifferentOrderCodes(os[i], os[j])
      {
        assert DifferentOrderIds(orders[i], orders[j]);
        assert DifferentOrderCodes(orders[i], orders[j]);
      }
      forall o | o in os ensures OrderRowValid(o, dishes, users, nextOrderId) {
        var i :| 0 <= i < |os| && os[i] == o;
        assert OrderRowValid(orders[i], dishes, users, nextOrderId);
      }
      orders := os;
    }

    /**
     * `DELETE FROM users` of the row at position `k`; the foreign keys'
     * `ON DELETE CASCADE` removes that user's reservations and orders too.
     */
    method DeleteUserAt(k: nat)
      requires Valid() && k < |users|
      modifies this`users, this`reservations, this`orders
      ensures Valid()
      ensures users == old(users)[..k] + old(users)[k + 1..]
      ensures var uid := old(users)[k].id;
              reservations == Filter(old(reservations), r => NotOwnedBy(uid, r))
              && orders == Filter(old(orders), o => NotPlacedBy(uid, o))
    {
      var uid := users[k].id;
      var us := users[..k] + users[k + 1..];
      PairwiseRemove(users, k, DifferentUserIds);
      // every other user survives the delete
      forall id: nat | HasUser(users, id) && id != uid ensures HasUser(us, id) {
        var u :| u in users && u.id == id;
        var i :| 0 <= i < |users| && users[i] == u;
        assert i != k;
        assert us[if i < k then i else i - 1] == u;
      }
      var rs := Filter(reservations, r => NotOwnedBy(uid, r));
      PairwiseFilter(reservations, DifferentReservationIds, r => NotOwnedBy(uid, r));
      PairwiseFilter(reservations, DifferentSlots, r => NotOwnedBy(uid, r));
      forall r | r in rs ensures ReservationRowValid(r, tables, us, nextReservationId) {
        FilterElement(reservations, r => NotOwnedBy(uid, r), r);
      }
      var os := Filter(orders, o => NotPlacedBy(uid, o));
      PairwiseFilter(orders, DifferentOrderIds, o => NotPlacedBy(uid, o));
      PairwiseFilter(orders, DifferentOrderCodes, o => NotPlacedBy(uid, o));
      forall o | o in os ensures OrderRowValid(o, dishes, us, nextOrderId) {
        FilterElement(orders, o => NotPlacedBy(uid, o), o);
      }
      users, reservations, orders := us, rs, os;
    }
  }
}
