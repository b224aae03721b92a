/**
 * The administrator's orders page (`admin/Orders.jsx`): the filter effect that
 * keeps the passing orders of each group and adds up the completed sales, the
 * local update after a status change, the group totals, and the actions each
 * status offers. The groups are the ones `Admin\OrdersController::index`
 * sends; a date picked in the filter is a day number.
 */
module OrdersView {
  import opened Base
  import opened Schema
  import Ordering
  import OrdersAdmin
  import OrderCodes

  /**
   * One order as the listing sends it: the fields the page computes with, and
   * the text of every non-null column, which is what the search looks through.
   */
  datatype ListedOrder = ListedOrder(id: nat, status: string, totalAmount: int, createdAt: int, columns: seq<string>)

  // ---------------------------------------------------------------------------
  // the filter predicates
  // ---------------------------------------------------------------------------

  /** Some non-empty column contains the search term, both lower-cased; an empty term matches everything. */
  predicate MatchesText(search: string, o: ListedOrder)
  {
    search == "" || exists i :: 0 <= i < |o.columns| && o.columns[i] != "" && Contains(Lower(o.columns[i]), Lower(search))
  }

  /**
   * The filter as written: `created_at` compared with the instants the picked
   * dates parse to, which are the midnights starting those days.
   */
  predicate PassesAsWritten(search: string, from: Option<int>, to: Option<int>, o: ListedOrder)
  {
    && MatchesText(search, o)
    && (from.Some? ==> o.createdAt >= from.value * SecondsPerDay)
    && (to.Some? ==> o.createdAt <= to.value * SecondsPerDay)
  }

  /** The filter as evidently intended: both picked days inclusive, as the server's own date filter has them. */
  predicate Passes(search: string, from: Option<int>, to: Option<int>, o: ListedOrder)
  {
    && MatchesText(search, o)
    && (from.Some? ==> DayOf(o.createdAt) >= from.value)
    && (to.Some? ==> DayOf(o.createdAt) <= to.value)
  }

  function PassesOf(search: string, from: Option<int>, to: Option<int>): ListedOrder -> bool
  {
    o => Passes(search, from, to, o)
  }

  /** The "to" bound as written hides every order placed on the "to" day after its first instant. */
  lemma {:induction false} ToDateHidesThatDay(search: string, from: Option<int>, to: int, o: ListedOrder)
    requires Passes(search, from, Some(to), o)
    requires DayOf(o.createdAt) == to && o.createdAt > to * SecondsPerDay
    ensures !PassesAsWritten(search, from, Some(to), o)
  {
  }

  /**
   * The intended filter keeps an order exactly when its text matches and the
   * server's inclusive date range, with the same bounds, holds for its day;
   * the "from" bound as written already agrees with it.
   */
  lemma {:induction false} IntendedDatesMatchServer(search: string, from: Option<int>, to: Option<int>, o: ListedOrder)
    ensures Passes(search, from, to, o)
        <==> MatchesText(search, o) && OrdersAdmin.InDateRange(DayOf(o.createdAt), from, to)
    ensures from.Some? ==> (o.createdAt >= from.value * SecondsPerDay <==> DayOf(o.createdAt) >= from.value)
  {
    if from.Some? {
      DayBound(o.createdAt, from.value);
    }
  }

  lemma DayBound(ts: int, d: int)
    ensures ts >= d * SecondsPerDay <==> DayOf(ts) >= d
  {
    var q := DayOf(ts);
    assert q * SecondsPerDay <= ts < (q + 1) * SecondsPerDay;
    if q >= d {
      assert q * SecondsPerDay >= d * SecondsPerDay;
    } else {
      assert (q + 1) * SecondsPerDay <= d * SecondsPerDay;
    }
  }

  // ---------------------------------------------------------------------------
  // the filter effect
  // ---------------------------------------------------------------------------

  predicate Completed(o: ListedOrder) { o.status == "Completed" }

  function Amount(o: ListedOrder): int { o.totalAmount }

  /** The completed sales of one group. */
  function GroupSales(group: seq<ListedOrder>): int
  {
    Sum(Filter(group, Completed), Amount)
  }

  /** The completed sales of the listed groups, group by group. */
  function SalesOver(keys: seq<string>, groups: map<string, seq<ListedOrder>>): int
  {
    if keys == [] then 0
    else
      var k := keys[|keys| - 1];
      SalesOver(keys[..|keys| - 1], groups) + (if k in groups then GroupSales(groups[k]) else 0)
  }

  /**
   * The filter effect: every group (`keys` lists them in `Object.entries`
   * order) keeps its passing orders, both picked days inclusive as intended,
   * and is dropped when none pass; the sales total adds up the completed
   * orders of all groups, whatever the filters.
   */
  method ApplyFilters(keys: seq<string>, groups: map<string, seq<ListedOrder>>, search: string,
                      from: Option<int>, to: Option<int>)
    returns (filtered: map<string, seq<ListedOrder>>, totalSales: int)
    requires Distinct(keys) && forall k :: k in keys <==> k in groups
    ensures forall k :: k in filtered <==> k in groups && Filter(groups[k], PassesOf(search, from, to)) != []
    ensures forall k :: k in filtered ==> filtered[k] == Filter(groups[k], PassesOf(search, from, to))
    ensures totalSales == SalesOver(keys, groups)
  {
    filtered, totalSales := map[], 0;
    var p := PassesOf(search, from, to);
    for i := 0 to |keys|
      invariant forall k :: k in filtered <==> k in keys[..i] && Filter(groups[k], p) != []
      invariant forall k :: k in filtered ==> filtered[k] == Filter(groups[k], p)
      invariant totalSales == SalesOver(keys[..i], groups)
    {
      var k := keys[i];
      var kept := Filter(groups[k], p);
      if kept != [] {
        filtered := filtered[k := kept];
      }
      assert keys[..i + 1][..i] == keys[..i];
      totalSales := totalSales + GroupSales(groups[k]);
    }
    assert keys[..|keys|] == keys;
  }

  /** The sales of one group, as a sum over its orders of the completed amounts. */
  function CompletedAmount(o: ListedOrder): int { if Completed(o) then o.totalAmount else 0 }

  /**
   * When the groups are the bucketing of a list of orders and every group is
   * listed once, the sales total counts every completed order exactly once.
   */
  lemma TotalSalesCountsEachCompletedOnce(rows: seq<ListedOrder>, key: ListedOrder -> string, keys: seq<string>,
                                           groups: map<string, seq<ListedOrder>>)
    requires Bucketed(rows, key, groups)
    requires Distinct(keys) && forall k :: k in keys <==> k in groups
    ensures SalesOver(keys, groups) == Sum(Filter(rows, Completed), Amount)
  {
    SalesPerKey(rows, key, keys, groups);
    forall x | x in rows ensures key(x) in keys {
      assert key(x) in KeySet(rows, key);
    }
    SumByKeys(rows, key, keys, CompletedAmount);
    SumFilter(rows, Completed, Amount, CompletedAmount);
  }

  lemma {:induction false} SalesPerKey(rows: seq<ListedOrder>, key: ListedOrder -> string, keys: seq<string>,
                                       groups: map<string, seq<ListedOrder>>)
    requires Bucketed(rows, key, groups)
    requires forall k :: k in keys ==> k in groups
    ensures SalesOver(keys, groups) == SumPerKey(rows, key, keys, CompletedAmount)
  {
    if keys != [] {
      var k := keys[|keys| - 1];
      SalesPerKey(rows, key, keys[..|keys| - 1], groups);
      SumFilter(groups[k], Completed, Amount, CompletedAmount);
    }
  }

  // ---------------------------------------------------------------------------
  // group totals and actions
  // ---------------------------------------------------------------------------

  /** The total shown on a group's header: the sum of its (filtered) orders' amounts, no fee added. */
  function GroupTotal(group: seq<ListedOrder>): int
  {
    Sum(group, Amount)
  }

  lemma {:induction false} SumOfListed(group: seq<ListedOrder>, lines: seq<Order>)
    requires |group| == |lines| && forall i :: 0 <= i < |group| ==> group[i].totalAmount == lines[i].totalAmount
    ensures GroupTotal(group) == Sum(lines, Ordering.Amount)
  {
    if group != [] {
      SumOfListed(group[1..], lines[1..]);
    }
  }

  /**
   * Listed in full, the lines one bulk order stored show the grand total the
   * server returned: price times quantity plus exactly one fee.
   */
  lemma {:induction false} BulkGroupHeaderTotal(req: Ordering.BulkRequest, dishes: seq<Dish>, groupId: string, today: OrderCodes.CivilDate,
                             uniqids: seq<string>, now: int, created: seq<Order>, group: seq<ListedOrder>)
    requires Ordering.LinesStored(req, dishes, groupId, today, uniqids, now, created) && |created| >= 1
    requires |group| == |created| && forall i :: 0 <= i < |group| ==> group[i].totalAmount == created[i].totalAmount
    ensures GroupTotal(group) == Sum(created, Ordering.BaseOf(dishes)) + Ordering.BulkFee(req)
  {
    SumOfListed(group, created);
    assert GroupTotal(group) == Sum(created, Ordering.Amount);
    Ordering.BulkGrandTotal(req, dishes, groupId, today, uniqids, now, created);
  }

  /** The buttons offered per status: Pending may complete or cancel, Processing may complete, the rest nothing. */
  function Actions(status: string): (r: seq<string>)
    ensures forall a :: a in r ==> Ordering.IsOrderStatus(a) && a != status
    ensures r == [] <==> status != "Pending" && status != "Processing"
  {
    if status == "Pending" then ["Completed", "Cancelled"]
    else if status == "Processing" then ["Completed"]
    else []
  }

  /** No action leads out of a final status, and every status an action leads to is final. */
  lemma {:induction false} FinalStatusesOfferNothing(status: string)
    ensures status == "Completed" || status == "Cancelled" ==> Actions(status) == []
    ensures forall a :: a in Actions(status) ==> Actions(a) == []
  {
  }

  // ---------------------------------------------------------------------------
  // the local update after a status change
  // ---------------------------------------------------------------------------

  /** `order.id === id ? { ...order, status } : order` over one group. */
  function MarkStatus(group: seq<ListedOrder>, id: nat, status: string): (r: seq<ListedOrder>)
    ensures |r| == |group|
    ensures forall i :: 0 <= i < |r| ==> r[i] == (if group[i].id == id then group[i].(status := status) else group[i])
  {
    Map(group, (o: ListedOrder) => if o.id == id then o.(status := status) else o)
  }

  /** The page's copy of the listing. */
  class Page {
    var groups: map<string, seq<ListedOrder>>

    constructor (groups: map<string, seq<ListedOrder>>)
      ensures this.groups == groups
    {
      this.groups := groups;
    }

    /** After the server accepts the new status, every group marks the order with that id; no group appears or goes. */
    method StatusUpdated(id: nat, status: string)
      modifies this
      ensures groups.Keys == old(groups).Keys
      ensures forall k :: k in groups ==> groups[k] == MarkStatus(old(groups)[k], id, status)
    {
      groups := map k | k in groups :: MarkStatus(groups[k], id, status);
    }
  }

  /**
   * Completing a pending order changes the sales total by exactly its amount,
   * when ids are unique across the listing.
   */
  lemma {:induction false} CompletingAddsItsAmount(group: seq<ListedOrder>, k: nat)
    requires k < |group| && group[k].status == "Pending"
    requires forall i :: 0 <= i < |group| && i != k ==> group[i].id != group[k].id
    ensures GroupSales(MarkStatus(group, group[k].id, "Completed")) == GroupSales(group) + group[k].totalAmount
  {
    var id := group[k].id;
    var after := MarkStatus(group, id, "Completed");
    assert after == group[k := group[k].(status := "Completed")];
    SumFilter(group, Completed, Amount, CompletedAmount);
    SumFilter(after, Completed, Amount, CompletedAmount);
    SumOneChanged(group, k, group[k].(status := "Completed"));
  }

  /** Replacing one order changes the sum of completed amounts by the difference at that place. */
  lemma {:induction false} SumOneChanged(group: seq<ListedOrder>, k: nat, x: ListedOrder)
    requires k < |group|
    ensures Sum(group[k := x], CompletedAmount) == Sum(group, CompletedAmount) - CompletedAmount(group[k]) + CompletedAmount(x)
  {
    if k == 0 {
      assert group[k := x][1..] == group[1..];
    } else {
      SumOneChanged(group[1..], k - 1, x);
      assert group[k := x][1..] == group[1..][k - 1 := x];
    }
  }
}
