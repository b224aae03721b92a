/**
 * The administrator's order endpoints (`Admin\OrdersController`), which work
 * on the query builder rather than on the `Order` model: the joined, filtered
 * listing grouped by the raw group id, the status update that always reports
 * success, and the detail look-up.
 */
module OrdersAdmin {
  import opened Base
  import opened Schema
  import Ordering

  /**
   * One row of the joined query: the order, its day (`DATE(created_at)`), and
   * the left-joined dish and user columns, which are null when the join finds
   * no row.
   */
  datatype AdminRow = AdminRow(day: int, order: Order, dishName: Option<string>, dishPrice: Option<nat>,
                               userName: Option<string>, userEmail: Option<string>)

  /** The user with that id, if one is stored. */
  function FindUser(users: seq<User>, id: nat): (r: Option<User>)
    ensures r.Some? <==> HasUser(users, id)
    ensures r.Some? ==> r.value in users && r.value.id == id
  {
    match UserIndex(users, id)
    case None => None
    case Some(k) => Some(users[k])
  }

  /** `leftJoin('users', …)->leftJoin('dishes', …)` for one order. */
  function JoinRow(dishes: seq<Dish>, users: seq<User>, o: Order): (r: AdminRow)
    ensures r.order == o && r.day == DayOf(o.createdAt)
    ensures r.dishName.Some? <==> HasDish(dishes, o.dishId)
    ensures r.userName.Some? <==> HasUser(users, o.userId)
    ensures r.userName.Some? <==> r.userEmail.Some?
  {
    var d := FindDish(dishes, o.dishId);
    var u := FindUser(users, o.userId);
    AdminRow(DayOf(o.createdAt), o,
             if d.Some? then Some(d.value.name) else None,
             if d.Some? then Some(d.value.price) else None,
             if u.Some? then Some(u.value.name) else None,
             if u.Some? then Some(u.value.email) else None)
  }

  function Join(orders: seq<Order>, dishes: seq<Dish>, users: seq<User>): (rows: seq<AdminRow>)
    ensures |rows| == |orders|
    ensures forall i :: 0 <= i < |orders| ==> rows[i] == JoinRow(dishes, users, orders[i])
  {
    Map(orders, o => JoinRow(dishes, users, o))
  }

  // ---------------------------------------------------------------------------
  // index
  // ---------------------------------------------------------------------------

  /** The query string: `search`, `from_date` and `to_date` when present (dates as day numbers). */
  datatype AdminQuery = AdminQuery(search: Option<string>, fromDate: Option<int>, toDate: Option<int>)

  /** PHP `empty()` on a string: "" and "0" are empty. */
  predicate PhpEmpty(s: string) { s == "" || s == "0" }

  /** The text filter applies only when `search` is present and not empty. */
  predicate SearchApplies(q: AdminQuery) { q.search.Some? && !PhpEmpty(q.search.value) }

  /** `column LIKE '%needle%'`; a null column matches nothing. */
  predicate Like(column: Option<string>, needle: string)
  {
    column.Some? && Contains(column.value, needle)
  }

  predicate MatchesSearch(row: AdminRow, needle: string)
  {
    Like(row.order.customerName, needle) || Like(row.userName, needle)
    || Like(row.userEmail, needle) || Like(row.dishName, needle)
  }

  /** The date filter: both bounds inclusive, or the one bound given, or none. */
  predicate InDateRange(day: int, from: Option<int>, to: Option<int>)
  {
    if from.Some? && to.Some? then from.value <= day <= to.value
    else if from.Some? then day >= from.value
    else if to.Some? then day <= to.value
    else true
  }

  predicate Selected(q: AdminQuery, row: AdminRow)
  {
    (SearchApplies(q) ==> MatchesSearch(row, q.search.value)) && InDateRange(row.day, q.fromDate, q.toDate)
  }

  function SelectedBy(q: AdminQuery): AdminRow -> bool { row => Selected(q, row) }

  /**
   * `groupBy('order_group_id')` on the collection: a null group id becomes the
   * key "", so every order without a group shares one bucket.
   */
  function AdminKey(row: AdminRow): string
  {
    match row.order.groupId
    case Some(g) => g
    case None => ""
  }

  /**
   * `index`: the joined rows (in the order the query returned them) that pass
   * the filters, grouped by `AdminKey`; each bucket keeps the query's order.
   */
  function AdminIndex(rows: seq<AdminRow>, q: AdminQuery): (groups: map<string, seq<AdminRow>>)
    ensures forall k :: k in groups ==> groups[k] != []
    ensures forall x :: x in rows && Selected(q, x) ==> AdminKey(x) in groups && x in groups[AdminKey(x)]
    ensures forall k, x :: k in groups && x in groups[k] ==> x in rows && Selected(q, x) && AdminKey(x) == k
  {
    var selected := Filter(rows, SelectedBy(q));
    FilterMembers(rows, SelectedBy(q));
    var groups := GroupBy(selected, AdminKey);
    BucketMembers(selected, AdminKey, groups);
    groups
  }

  /** With both bounds given, the range filter is the conjunction of the two one-bound filters. */
  lemma {:induction false} BothBoundsInclusive(day: int, from: int, to: int)
    ensures InDateRange(day, Some(from), Some(to)) <==>
            InDateRange(day, Some(from), None) && InDateRange(day, None, Some(to))
    ensures InDateRange(from, Some(from), Some(to)) <==> from <= to
  {
  }

  /**
   * Two selected orders without a group id land in the same bucket of this
   * listing, while the customer-side listing keeps them apart under
   * `single_<id>` keys.
   */
  lemma {:induction false} NullGroupsShareOneBucket(rows: seq<AdminRow>, q: AdminQuery, a: AdminRow, b: AdminRow)
    requires a in rows && b in rows && Selected(q, a) && Selected(q, b)
    requires a.order.groupId.None? && b.order.groupId.None? && a.order.id != b.order.id
    ensures var groups := AdminIndex(rows, q); "" in groups && a in groups[""] && b in groups[""]
    ensures Ordering.GroupKey(a.order) != Ordering.GroupKey(b.order)
  {
    var ka, kb := Ordering.GroupKey(a.order), Ordering.GroupKey(b.order);
    if ka == kb {
      var pa, pb := NatToString(a.order.id), NatToString(b.order.id);
      assert ka == "single_" + pa && kb == "single_" + pb;
      assert pa == ka[7..] && pb == kb[7..];
      NatToStringValue(a.order.id);
      NatToStringValue(b.order.id);
    }
  }

  // ---------------------------------------------------------------------------
  // updateStatus and show
  // ---------------------------------------------------------------------------

  /** The JSON answer of `updateStatus`. */
  datatype Reply = Reply(success: bool, message: string)

  /**
   * `updateStatus`: after validation, `UPDATE orders SET status, updated_at
   * WHERE id = ?`; the answer is a success either way, and only its message
   * tells whether a row was found.
   */
  method UpdateStatus(db: Db, id: nat, status: string, now: int) returns (r: Result<Reply, Ordering.OrderError>)
    requires db.Valid()
    modifies db`orders
    ensures db.Valid()
    ensures !Ordering.IsOrderStatus(status) <==> r == Err(Ordering.ValidationFailed)
    ensures r.Err? ==> db.orders == old(db.orders)
    ensures r.Ok? ==> r.value.success
    ensures Ordering.IsOrderStatus(status) ==>
      match OrderIndex(old(db.orders), id)
      case None => r == Ok(Reply(true, "Order not found")) && db.orders == old(db.orders)
      case Some(k) =>
        r == Ok(Reply(true, "Order updated"))
        && db.orders == old(db.orders)[k := old(db.orders)[k].(status := status, updatedAt := now)]
  {
    if !Ordering.IsOrderStatus(status) {
      return Err(Ordering.ValidationFailed);
    }
    var k := OrderIndex(db.orders, id);
    if k.None? {
      return Ok(Reply(true, "Order not found"));
    }
    db.SetOrderStatus(k.value, status, now);
    return Ok(Reply(true, "Order updated"));
  }

  /** Ids are unique, so the update by id touches at most one row: every other row keeps its status and stamp. */
  lemma {:induction false} UpdateTouchesOneRow(orders: seq<Order>, k: nat, status: string, now: int, j: nat)
    requires Pairwise(orders, DifferentOrderIds) && k < |orders| && j < |orders|
    ensures orders[j].id == orders[k].id ==> j == k
    ensures j != k ==> orders[k := orders[k].(status := status, updatedAt := now)][j] == orders[j]
  {
    if j != k {
      if j < k {
        assert DifferentOrderIds(orders[j], orders[k]);
      } else {
        assert DifferentOrderIds(orders[k], orders[j]);
      }
    }
  }

  /** `show`: the joined row with that id, or 404 "Order not found". */
  function Show(rows: seq<AdminRow>, id: nat): (r: Result<AdminRow, Ordering.OrderError>)
    ensures r.Ok? <==> exists x :: x in rows && x.order.id == id
    ensures r.Ok? ==> r.value in rows && r.value.order.id == id
    ensures r.Err? ==> r.error == Ordering.NotFound
  {
    match IndexWhere(rows, (x: AdminRow) => x.order.id == id)
    case None => Err(Ordering.NotFound)
    case Some(k) => Ok(rows[k])
  }
}
