/**
 * The customer's transaction history as the browser shows it
 * (`transactionModal.jsx`): the status and date filters, the grouping of order
 * lines for display, the group total, and the local update after a successful
 * cancellation. The entries are the ones `TransactionController::index`
 * builds; the clock is a parameter.
 */
module TransactionView {
  import opened Base
  import opened Schema
  import opened Transactions
  import Ordering
  import OrderCodes

  // ---------------------------------------------------------------------------
  // filterOrders and filterReservations
  // ---------------------------------------------------------------------------

  /** `Math.floor((now - date) / one day)`; Dafny's division by a positive divisor is that floor. */
  function DaysDiff(now: int, instant: int): int
  {
    (now - instant) / SecondsPerDay
  }

  /** The status filter: `all`, or exactly the selected status. */
  predicate StatusPasses(statusFilter: string, status: string)
  {
    statusFilter == "all" || status == statusFilter
  }

  /** The date filter: `today`, `week` and `month` bound the day difference; any other value lets everything through. */
  predicate DatePasses(dateFilter: string, daysDiff: int)
  {
    if dateFilter == "today" then daysDiff == 0
    else if dateFilter == "week" then daysDiff <= 7
    else if dateFilter == "month" then daysDiff <= 30
    else true
  }

  /** An order entry's date is shown to the minute (`Y-m-d H:i`), and that is what the filter parses back. */
  function OrderInstant(e: OrderEntry): int { e.createdAt / 60 * 60 }

  /**
   * A reservation entry's date read as its reservation date and time, as the
   * page evidently means it. The text `index` actually sends joins two full
   * timestamps (see `FilterReservationsAsWritten`).
   */
  function ReservationInstant(e: ReservationEntry): int { InstantOf(e.date, e.time) }

  predicate OrderPasses(statusFilter: string, dateFilter: string, now: int, e: OrderEntry)
  {
    StatusPasses(statusFilter, e.status) && DatePasses(dateFilter, DaysDiff(now, OrderInstant(e)))
  }

  predicate ReservationPasses(statusFilter: string, dateFilter: string, now: int, e: ReservationEntry)
  {
    StatusPasses(statusFilter, e.status) && DatePasses(dateFilter, DaysDiff(now, ReservationInstant(e)))
  }

  /** `filterOrders`: the entries that pass both filters, in their order. */
  function FilterOrders(entries: seq<OrderEntry>, statusFilter: string, dateFilter: string, now: int)
    : (r: seq<OrderEntry>)
    ensures forall e :: e in r <==> e in entries && OrderPasses(statusFilter, dateFilter, now, e)
    ensures |r| <= |entries|
  {
    FilterMembers(entries, e => OrderPasses(statusFilter, dateFilter, now, e));
    Filter(entries, e => OrderPasses(statusFilter, dateFilter, now, e))
  }

  /** `filterReservations`: the same two filters over reservation entries. */
  function FilterReservations(entries: seq<ReservationEntry>, statusFilter: string, dateFilter: string, now: int)
    : (r: seq<ReservationEntry>)
    ensures forall e :: e in r <==> e in entries && ReservationPasses(statusFilter, dateFilter, now, e)
    ensures |r| <= |entries|
  {
    FilterMembers(entries, e => ReservationPasses(statusFilter, dateFilter, now, e));
    Filter(entries, e => ReservationPasses(statusFilter, dateFilter, now, e))
  }

  /**
   * The date filter on a `NaN` day difference: every comparison is false, so
   * `today` (`daysDiff !== 0`) hides the entry and `week` and `month` keep it.
   */
  predicate DatePassesUnread(dateFilter: string)
  {
    dateFilter != "today"
  }

  predicate UnreadPasses(statusFilter: string, dateFilter: string, e: ReservationEntry)
  {
    StatusPasses(statusFilter, e.status) && DatePassesUnread(dateFilter)
  }

  /**
   * `filterReservations` on the text `index` sends as written:
   * `reservation_date . ' ' . reservation_time` joins two Carbon values, each
   * rendered `Y-m-d H:i:s` (the time cast's `H:i` applies only when
   * serialising), and `new Date` does not read that as one instant.
   */
  function FilterReservationsAsWritten(entries: seq<ReservationEntry>, statusFilter: string, dateFilter: string)
    : (r: seq<ReservationEntry>)
    ensures forall e :: e in r <==> e in entries && StatusPasses(statusFilter, e.status) && DatePassesUnread(dateFilter)
  {
    FilterMembers(entries, e => UnreadPasses(statusFilter, dateFilter, e));
    Filter(entries, e => UnreadPasses(statusFilter, dateFilter, e))
  }

  /** As written, `today` hides every reservation, and `week` and `month` hide none. */
  lemma {:induction false} TodayHidesEveryReservation(entries: seq<ReservationEntry>, statusFilter: string)
    ensures FilterReservationsAsWritten(entries, statusFilter, "today") == []
    ensures FilterReservationsAsWritten(entries, "all", "week") == entries
    ensures FilterReservationsAsWritten(entries, "all", "month") == entries
  {
    FilterNone(entries, e => UnreadPasses(statusFilter, "today", e));
    FilterAll(entries, e => UnreadPasses("all", "week", e));
    FilterAll(entries, e => UnreadPasses("all", "month", e));
  }

  /** Read as its date and time, a reservation earlier today passes `today`. */
  lemma {:induction false} EarlierTodayShownAsToday(now: int, e: ReservationEntry)
    requires DayOf(now) * SecondsPerDay <= ReservationInstant(e) <= now
    ensures ReservationPasses("all", "today", now, e)
  {
    assert 0 <= now - ReservationInstant(e) < SecondsPerDay by {
      assert now < (DayOf(now) + 1) * SecondsPerDay;
    }
  }

  /** With both filters at `all`, nothing is filtered out. */
  lemma {:induction false} NoFilterKeepsAll(orders: seq<OrderEntry>, rs: seq<ReservationEntry>, now: int)
    ensures FilterOrders(orders, "all", "all", now) == orders
    ensures FilterReservations(rs, "all", "all", now) == rs
  {
    FilterAll(orders, e => OrderPasses("all", "all", now, e));
    FilterAll(rs, e => ReservationPasses("all", "all", now, e));
  }

  /** The date filters nest: what passes `today` passes `week`, and what passes `week` passes `month`. */
  lemma {:induction false} DateFiltersNest(daysDiff: int)
    ensures DatePasses("today", daysDiff) ==> DatePasses("week", daysDiff)
    ensures DatePasses("week", daysDiff) ==> DatePasses("month", daysDiff)
  {
  }

  /**
   * A reservation later today lies in the future, so its day difference is -1
   * and the `today` filter hides it, while `week` and `month` show it.
   */
  lemma {:induction false} LaterTodayNotShownAsToday(now: int, e: ReservationEntry)
    requires now < ReservationInstant(e) < (DayOf(now) + 1) * SecondsPerDay
    ensures !ReservationPasses("all", "today", now, e)
    ensures ReservationPasses("all", "week", now, e) && ReservationPasses("all", "month", now, e)
  {
    var d := now - ReservationInstant(e);
    assert d < 0 && d + SecondsPerDay > 0 by {
      assert now >= DayOf(now) * SecondsPerDay;
    }
    assert DaysDiff(now, ReservationInstant(e)) == -1;
  }

  // ---------------------------------------------------------------------------
  // groupOrdersForDisplay
  // ---------------------------------------------------------------------------

  /** `order.order_group_id || order.id`: a missing or empty group id falls back to the line's own id. */
  function DisplayKey(e: OrderEntry): string
  {
    if e.groupId.Some? && e.groupId.value != "" then e.groupId.value else NatToString(e.id)
  }

  /**
   * `groupOrdersForDisplay`: every entry pushed, in order, onto the bucket of
   * its display key; `keys` records the buckets in order of creation.
   */
  method GroupForDisplay(entries: seq<OrderEntry>) returns (keys: seq<string>, groups: map<string, seq<OrderEntry>>)
    ensures groups == GroupBy(entries, DisplayKey) && keys == KeyOrder(entries, DisplayKey)
    ensures Bucketed(entries, DisplayKey, groups)
    ensures ListsKeys(keys, groups)
  {
    keys, groups := [], map[];
    for i := 0 to |entries|
      invariant groups == GroupBy(entries[..i], DisplayKey)
      invariant keys == KeyOrder(entries[..i], DisplayKey)
    {
      var e := entries[i];
      var key := DisplayKey(e);
      GroupByStep(entries[..i], e, DisplayKey);
      assert entries[..i + 1] == entries[..i] + [e];
      if key !in groups {
        keys := keys + [key];
      }
      groups := AddToBucket(groups, key, e);
    }
    assert entries[..|entries|] == entries;
    KeyOrderListsKeys(entries, DisplayKey);
  }

  /** Entries of one group id share a bucket; an entry without a group id is alone in its bucket when ids are distinct. */
  lemma {:induction false} DisplayBuckets(entries: seq<OrderEntry>, groups: map<string, seq<OrderEntry>>, e: OrderEntry, f: OrderEntry)
    requires Bucketed(entries, DisplayKey, groups)
    requires e in entries && f in entries
    requires forall x :: x in entries && x.groupId.Some? ==> x.groupId.value != "" && !IsNumeral(x.groupId.value)
    ensures e.groupId.Some? && e.groupId == f.groupId ==> f in groups[DisplayKey(e)]
    ensures e.groupId.None? && f in groups[DisplayKey(e)] ==> f.groupId.None? && f.id == e.id
  {
    BucketMembers(entries, DisplayKey, groups);
    if e.groupId.None? && f in groups[DisplayKey(e)] {
      if f.groupId.Some? {
        NumeralOfNat(e.id);
      } else {
        NatToStringInjective(e.id, f.id);
      }
    }
  }

  /** Only digits. */
  predicate IsNumeral(s: string) { forall i :: 0 <= i < |s| ==> IsDigit(s[i]) }

  lemma {:induction false} NumeralOfNat(n: nat)
    ensures IsNumeral(NatToString(n))
  {
    if n >= 10 {
      NumeralOfNat(n / 10);
    }
  }

  lemma NatToStringInjective(m: nat, n: nat)
    requires NatToString(m) == NatToString(n)
    ensures m == n
  {
    NatToStringValue(m);
    NatToStringValue(n);
  }

  // ---------------------------------------------------------------------------
  // calculateGroupTotal and the group-total cell
  // ---------------------------------------------------------------------------

  /** The delivery fee the view adds, in centavos (20 pesos). */
  const ViewDeliveryFee: int := 2000

  function EntryTotal(e: OrderEntry): int { e.total }

  /** `calculateGroupTotal` as written: the lines' totals plus the fee once more. */
  function GroupTotalAsWritten(group: seq<OrderEntry>): int
  {
    Sum(group, EntryTotal) + ViewDeliveryFee
  }

  /** The group total as evidently intended: the lines' totals, which already carry the fee on the first line. */
  function GroupTotal(group: seq<OrderEntry>): int
  {
    Sum(group, EntryTotal)
  }

  /** An entry's total is the stored order's total, so summing entries sums the stored totals. */
  lemma {:induction false} EntryTotalsAreStoredTotals(dishes: seq<Dish>, lines: seq<Order>)
    ensures Sum(Map(lines, o => ToOrderEntry(dishes, o)), EntryTotal) == Sum(lines, Ordering.Amount)
  {
    if lines != [] {
      EntryTotalsAreStoredTotals(dishes, lines[1..]);
      assert Map(lines, o => ToOrderEntry(dishes, o))[1..] == Map(lines[1..], o => ToOrderEntry(dishes, o));
    }
  }

  /**
   * For the lines one bulk order stored, the view's total charges the fee twice:
   * it exceeds the grand total the server returned by the 20-peso fee.
   */
  lemma BulkGroupFeeCountedTwice(req: Ordering.BulkRequest, dishes: seq<Dish>, groupId: string, today: OrderCodes.CivilDate,
                                 uniqids: seq<string>, now: int, created: seq<Order>)
    requires Ordering.LinesStored(req, dishes, groupId, today, uniqids, now, created) && |created| >= 1
    ensures var shown := Map(created, o => ToOrderEntry(dishes, o));
            GroupTotalAsWritten(shown) == Sum(created, Ordering.BaseOf(dishes)) + Ordering.BulkFee(req) + ViewDeliveryFee
  {
    EntryTotalsAreStoredTotals(dishes, created);
    Ordering.BulkGrandTotal(req, dishes, groupId, today, uniqids, now, created);
  }

  /**
   * The intended total of a bulk order's lines is the server's grand total:
   * price times quantity over the lines plus exactly one fee.
   */
  lemma BulkGroupTotalMatchesServer(req: Ordering.BulkRequest, dishes: seq<Dish>, groupId: string, today: OrderCodes.CivilDate,
                                    uniqids: seq<string>, now: int, created: seq<Order>)
    requires Ordering.LinesStored(req, dishes, groupId, today, uniqids, now, created) && |created| >= 1
    ensures var shown := Map(created, o => ToOrderEntry(dishes, o));
            GroupTotal(shown) == Sum(created, Ordering.Amount) == Sum(created, Ordering.BaseOf(dishes)) + Ordering.BulkFee(req)
  {
    EntryTotalsAreStoredTotals(dishes, created);
    Ordering.BulkGrandTotal(req, dishes, groupId, today, uniqids, now, created);
  }

  /** The group-total column: the (corrected) total on the group's first row, "same group" on the others. */
  function GroupTotalCells(group: seq<OrderEntry>): (cells: seq<Option<int>>)
    ensures |cells| == |group|
    ensures forall i :: 0 <= i < |cells| ==> (cells[i].Some? <==> i == 0)
    ensures group != [] ==> cells[0] == Some(GroupTotal(group))
  {
    seq(|group|, i => if i == 0 then Some(GroupTotal(group)) else None)
  }

  /** Each non-empty group shows its total exactly once. */
  lemma {:induction false} GroupTotalShownOnce(group: seq<OrderEntry>)
    requires group != []
    ensures Count(GroupTotalCells(group), (c: Option<int>) => c.Some?) == 1
  {
    var cells := GroupTotalCells(group);
    var p := (c: Option<int>) => c.Some?;
    FilterNone(cells[1..], p);
    assert cells == [cells[0]] + cells[1..];
  }

  // ---------------------------------------------------------------------------
  // the local update after a successful cancellation
  // ---------------------------------------------------------------------------

  /** `prev.map(o => o.id === id ? { ...o, status: "Cancelled" } : o)` on order entries. */
  function MarkOrderCancelled(entries: seq<OrderEntry>, id: nat): (r: seq<OrderEntry>)
    ensures |r| == |entries|
    ensures forall i :: 0 <= i < |r| ==>
              r[i] == (if entries[i].id == id then entries[i].(status := "Cancelled") else entries[i])
  {
    Map(entries, (e: OrderEntry) => if e.id == id then e.(status := "Cancelled") else e)
  }

  /** The same map over reservation entries. */
  function MarkReservationCancelled(entries: seq<ReservationEntry>, id: nat): (r: seq<ReservationEntry>)
    ensures |r| == |entries|
    ensures forall i :: 0 <= i < |r| ==>
              r[i] == (if entries[i].id == id then entries[i].(status := "Cancelled") else entries[i])
  {
    Map(entries, (e: ReservationEntry) => if e.id == id then e.(status := "Cancelled") else e)
  }

  /** The lists the history shows. */
  class History {
    var orders: seq<OrderEntry>
    var reservations: seq<ReservationEntry>

    constructor (orders: seq<OrderEntry>, reservations: seq<ReservationEntry>)
      ensures this.orders == orders && this.reservations == reservations
    {
      this.orders, this.reservations := orders, reservations;
    }

    /** After the server reports success, the entry with that id is shown as `Cancelled`; nothing else changes. */
    method Cancelled(isOrder: bool, id: nat)
      modifies this
      ensures isOrder ==> orders == MarkOrderCancelled(old(orders), id) && reservations == old(reservations)
      ensures !isOrder ==> reservations == MarkReservationCancelled(old(reservations), id) && orders == old(orders)
    {
      if isOrder {
        orders := MarkOrderCancelled(orders, id);
      } else {
        reservations := MarkReservationCancelled(reservations, id);
      }
    }
  }

  /**
   * After the server cancels line `k` of the caller's orders, marking the
   * shown list locally gives exactly the list a fresh `index` would show.
   */
  lemma {:induction false} LocalCancelMatchesServer(lines: seq<Order>, dishes: seq<Dish>, k: nat, now: int)
    requires k < |lines| && Pairwise(lines, DifferentOrderIds)
    ensures MarkOrderCancelled(Map(lines, o => ToOrderEntry(dishes, o)), lines[k].id)
         == Map(lines[k := lines[k].(status := "Cancelled", updatedAt := now)], o => ToOrderEntry(dishes, o))
  {
    var before := Map(lines, o => ToOrderEntry(dishes, o));
    var after := Map(lines[k := lines[k].(status := "Cancelled", updatedAt := now)], o => ToOrderEntry(dishes, o));
    var marked := MarkOrderCancelled(before, lines[k].id);
    forall i | 0 <= i < |lines| ensures marked[i] == after[i] {
      if i != k {
        PairwiseElements(lines, DifferentOrderIds, lines[i], lines[k]);
        assert lines[i].id != lines[k].id by {
          if i < k { assert DifferentOrderIds(lines[i], lines[k]); } else { assert DifferentOrderIds(lines[k], lines[i]); }
        }
      }
    }
  }
}
