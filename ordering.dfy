/**
 * The customer order endpoints (`OrderController`): a single order line,
 * a bulk order written as one group inside a transaction, the group summary,
 * the per-line status update, and the grouped listing.
 *
 * Money is integer centavos; the clock, `uniqid()` and the group id that
 * `uniqid('order_', true)` returns are parameters.
 */
module Ordering {
  import opened Base
  import opened Schema
  import opened OrderCodes

  /** `$validated['delivery_fee'] ?? 20` in `storeBulk`, in centavos. */
  const DefaultBulkFee: nat := 2000

  /** `in:Pending,Processing,Completed,Cancelled`. */
  predicate IsOrderStatus(s: string)
  {
    s == "Pending" || s == "Processing" || s == "Completed" || s == "Cancelled"
  }

  /** `in:COD,GCash`. */
  predicate IsPayment(s: string) { s == "COD" || s == "GCash" }

  /** Laravel's `required` on a string: something is left after trimming. */
  predicate Filled(s: string) { Trim(s) != [] }

  datatype OrderError =
    | ValidationFailed     // 422
    | DishSoldOut          // 400, the single line's fixed "Dish is sold out"
    | SoldOut(dish: string) // 400, the bulk order's message naming the dish
    | NotFound             // 404
    | ServerError          // 500

  function HttpStatus(e: OrderError): (code: nat)
    ensures 400 <= code < 600
  {
    match e
    case ValidationFailed => 422
    case DishSoldOut => 400
    case SoldOut(_) => 400
    case NotFound => 404
    case ServerError => 500
  }

  /** The current price of a dish; 0 for an id no stored dish has, which the foreign key rules out. */
  function Price(dishes: seq<Dish>, id: nat): nat
  {
    match FindDish(dishes, id)
    case None => 0
    case Some(d) => d.price
  }

  /** What a line costs before any delivery fee: the dish's current price times the quantity. */
  function BaseAmount(dishes: seq<Dish>, o: Order): int
  {
    Price(dishes, o.dishId) * o.quantity
  }

  /** The stored `total_amount` of a line. */
  function Amount(o: Order): int { o.totalAmount }

  /** The part of a line's total above price times quantity: the delivery fee it carries. */
  function Surcharge(dishes: seq<Dish>, o: Order): int
  {
    o.totalAmount - BaseAmount(dishes, o)
  }

  // The same three quantities as function values, so that every sum below is over the same term.
  function BaseOf(dishes: seq<Dish>): Order -> int { o => BaseAmount(dishes, o) }
  function SurchargeOf(dishes: seq<Dish>): Order -> int { o => Surcharge(dishes, o) }
  function Surcharged(dishes: seq<Dish>): Order -> bool { o => Surcharge(dishes, o) > 0 }

  // ---------------------------------------------------------------------------
  // store: one line
  // ---------------------------------------------------------------------------

  datatype SingleRequest = SingleRequest(
    userId: nat, dishId: nat, quantity: int, notes: Option<string>, payment: string,
    customerName: Option<string>, customerAddress: Option<string>,
    deliveryFee: Option<int>, itemSubtotal: Option<int>, groupId: Option<string>)

  predicate SingleValid(req: SingleRequest, dishes: seq<Dish>, users: seq<User>)
  {
    && HasUser(users, req.userId) && HasDish(dishes, req.dishId)
    && req.quantity >= 1 && IsPayment(req.payment)
    && (req.customerName.Some? ==> |req.customerName.value| <= 255)
    && (req.customerAddress.Some? ==> |req.customerAddress.value| <= 500)
    && (req.deliveryFee.Some? ==> req.deliveryFee.value >= 0)
    && (req.itemSubtotal.Some? ==> req.itemSubtotal.value >= 0)
  }

  /**
   * The row `store` asks to create: price times quantity plus the delivery fee
   * when one was sent; a sold-out dish is refused with a message that does not
   * name it. `item_subtotal` is only validated.
   */
  function SingleDraft(req: SingleRequest, dishes: seq<Dish>, users: seq<User>,
                       today: CivilDate, uniqid: string, now: int): (r: Result<Order, OrderError>)
    requires ValidDate(today)
    ensures r.Ok? <==> SingleValid(req, dishes, users) && FindDish(dishes, req.dishId).value.available
    ensures !SingleValid(req, dishes, users) <==> r == Err(ValidationFailed)
    ensures r.Err? && SingleValid(req, dishes, users) ==> r.error == DishSoldOut
    ensures r.Ok? ==>
      && r.value.totalAmount == FindDish(dishes, req.dishId).value.price * req.quantity
                                + (if req.deliveryFee.Some? then req.deliveryFee.value else 0)
      && r.value.totalAmount >= 0
      && r.value.dishId == req.dishId && r.value.userId == req.userId
      && r.value.quantity == req.quantity && r.value.groupId == req.groupId
      && r.value.customerName == req.customerName && r.value.customerAddress == req.customerAddress
      && r.value.status == DefaultOrderStatus
      && r.value.orderCode == GeneratedCode(today, uniqid)
  {
    if !SingleValid(req, dishes, users) then Err(ValidationFailed)
    else
      var dish := FindDish(dishes, req.dishId).value;
      if !dish.available then Err(DishSoldOut)
      else
        var fee := if req.deliveryFee.Some? then req.deliveryFee.value else 0;
        Ok(Order(0, CodeAfterCreating(None, today, uniqid), req.userId, req.dishId, req.groupId,
                 req.customerName, req.customerAddress, req.quantity, req.notes, req.payment,
                 dish.price * req.quantity + fee, DefaultOrderStatus, now, now))
  }

  /** The client's `item_subtotal` has no effect on what is stored. */
  lemma ItemSubtotalIgnored(req: SingleRequest, other: nat, dishes: seq<Dish>, users: seq<User>,
                            today: CivilDate, uniqid: string, now: int)
    requires ValidDate(today)
    ensures var req2 := req.(itemSubtotal := Some(other));
            SingleValid(req, dishes, users) ==>
              SingleDraft(req2, dishes, users, today, uniqid, now) == SingleDraft(req, dishes, users, today, uniqid, now)
  {
  }

  /**
   * `store`: the draft, then `Order::create`. A clash of generated order codes
   * is an uncaught database error (500); so is a missing `customer_name` or
   * `customer_address`, which the rules allow to be null but the columns do
   * not. Nothing is written then.
   */
  method Store(db: Db, req: SingleRequest, today: CivilDate, uniqid: string, now: int)
    returns (r: Result<Order, OrderError>)
    requires db.Valid() && ValidDate(today)
    modifies db`orders, db`nextOrderId
    ensures db.Valid()
    ensures r.Err? ==> db.orders == old(db.orders)
    ensures SingleDraft(req, db.dishes, db.users, today, uniqid, now).Err? ==>
              r == SingleDraft(req, db.dishes, db.users, today, uniqid, now)
    ensures SingleDraft(req, db.dishes, db.users, today, uniqid, now).Ok? ==>
              var draft := SingleDraft(req, db.dishes, db.users, today, uniqid, now).value;
              if CodeTaken(old(db.orders), draft.orderCode) || !NotNullFilled(draft) then r == Err(ServerError)
              else r == Ok(draft.(id := old(db.nextOrderId))) && db.orders == old(db.orders) + [r.value]
  {
    var draft := SingleDraft(req, db.dishes, db.users, today, uniqid, now);
    if draft.Err? {
      return draft;
    }
    var row := db.InsertOrder(draft.value);
    if row.None? {
      return Err(ServerError);
    }
    return Ok(row.value);
  }

  /**
   * The rules let `customer_name` be missing, yet the draft then carries a null
   * for a NOT NULL column, so `Store` answers 500 for an otherwise valid request.
   */
  lemma NameOptionalButColumnRequired(req: SingleRequest, dishes: seq<Dish>, users: seq<User>,
                                      today: CivilDate, uniqid: string, now: int)
    requires ValidDate(today)
    requires SingleValid(req, dishes, users) && FindDish(dishes, req.dishId).value.available
    requires req.customerName.None?
    ensures SingleDraft(req, dishes, users, today, uniqid, now).Ok?
    ensures !NotNullFilled(SingleDraft(req, dishes, users, today, uniqid, now).value)
  {
  }

  // ---------------------------------------------------------------------------
  // storeBulk: one group, all or nothing
  // ---------------------------------------------------------------------------

  datatype Item = Item(dishId: nat, quantity: int)

  datatype BulkRequest = BulkRequest(
    userId: nat, customerName: string, customerAddress: string, payment: string,
    notes: Option<string>, items: seq<Item>, deliveryFee: Option<int>)

  predicate ItemValid(dishes: seq<Dish>, it: Item)
  {
    HasDish(dishes, it.dishId) && it.quantity >= 1
  }

  predicate ItemsValid(items: seq<Item>, dishes: seq<Dish>)
  {
    |items| >= 1 && forall it :: it in items ==> ItemValid(dishes, it)
  }

  predicate BulkValid(req: BulkRequest, dishes: seq<Dish>, users: seq<User>)
  {
    && HasUser(users, req.userId)
    && Filled(req.customerName) && |req.customerName| <= 255
    && Filled(req.customerAddress) && |req.customerAddress| <= 500
    && IsPayment(req.payment)
    && ItemsValid(req.items, dishes)
    && (req.deliveryFee.Some? ==> req.deliveryFee.value >= 0)
  }

  /** The fee charged on the group: the one sent, or the default. */
  function BulkFee(req: BulkRequest): int
  {
    if req.deliveryFee.Some? then req.deliveryFee.value else DefaultBulkFee
  }

  /** The item names a stored dish that is marked unavailable. */
  predicate SoldOutItem(dishes: seq<Dish>, it: Item)
  {
    match FindDish(dishes, it.dishId)
    case None => false
    case Some(d) => !d.available
  }

  /** The stored line for item `i` of a bulk request, before the store gives it an id. */
  function BulkLine(req: BulkRequest, dishes: seq<Dish>, i: nat, groupId: string,
                    today: CivilDate, uniqid: string, now: int): (o: Order)
    requires i < |req.items| && ItemValid(dishes, req.items[i]) && ValidDate(today)
    ensures o.groupId == Some(groupId) && o.dishId == req.items[i].dishId && o.quantity == req.items[i].quantity
    ensures o.totalAmount == BaseAmount(dishes, o) + (if i == 0 then BulkFee(req) else 0)
  {
    var it := req.items[i];
    var base := Price(dishes, it.dishId) * it.quantity;
    Order(0, CodeAfterCreating(None, today, uniqid), req.userId, it.dishId, Some(groupId),
          Some(req.customerName), Some(req.customerAddress), it.quantity, req.notes, req.payment,
          base + (if i == 0 then BulkFee(req) else 0), DefaultOrderStatus, now, now)
  }

  /** Generated codes that clash neither with stored codes nor with one another. */
  predicate FreshCodes(stored: seq<Order>, codes: seq<string>)
  {
    (forall c :: c in codes ==> !CodeTaken(stored, c))
    && forall i, j :: 0 <= i < j < |codes| ==> codes[i] != codes[j]
  }

  function BulkCodes(today: CivilDate, uniqids: seq<string>): (codes: seq<string>)
    requires ValidDate(today)
    ensures |codes| == |uniqids|
    ensures forall i :: 0 <= i < |uniqids| ==> codes[i] == GeneratedCode(today, uniqids[i])
  {
    Map(uniqids, u => GeneratedCode(today, u))
  }

  datatype BulkResult = BulkResult(orders: seq<Order>, grandTotal: int, itemsCount: nat, groupId: string)

  /** `line` is the stored form of item `i`, whatever id the store gave it. */
  predicate StoredLine(req: BulkRequest, dishes: seq<Dish>, groupId: string, today: CivilDate,
                       uniqids: seq<string>, now: int, line: Order, i: nat)
    requires ItemsValid(req.items, dishes) && ValidDate(today)
    requires i < |req.items| && i < |uniqids|
  {
    line == BulkLine(req, dishes, i, groupId, today, uniqids[i], now).(id := line.id)
  }

  /** Every line of `created` is the stored form of the item at the same position. */
  predicate LinesStored(req: BulkRequest, dishes: seq<Dish>, groupId: string, today: CivilDate,
                        uniqids: seq<string>, now: int, created: seq<Order>)
  {
    && ItemsValid(req.items, dishes) && ValidDate(today)
    && |created| <= |req.items| == |uniqids|
    && forall i :: 0 <= i < |created| ==> StoredLine(req, dishes, groupId, today, uniqids, now, created[i], i)
  }

  lemma LinesStoredAppend(req: BulkRequest, dishes: seq<Dish>, groupId: string, today: CivilDate,
                          uniqids: seq<string>, now: int, created: seq<Order>, row: Order)
    requires LinesStored(req, dishes, groupId, today, uniqids, now, created) && |created| < |req.items|
    requires req.items[|created|] in req.items
    requires StoredLine(req, dishes, groupId, today, uniqids, now, row, |created|)
    ensures LinesStored(req, dishes, groupId, today, uniqids, now, created + [row])
  {
    var next := created + [row];
    forall i | 0 <= i < |next| ensures StoredLine(req, dishes, groupId, today, uniqids, now, next[i], i) {
      if i < |created| {
        assert next[i] == created[i];
      } else {
        assert next[i] == row;
      }
    }
  }

  /** The first item, in request order, whose stored dish is marked unavailable is a dish called `name`. */
  predicate FirstSoldOutNamed(dishes: seq<Dish>, items: seq<Item>, name: string)
  {
    exists i :: 0 <= i < |items| && FirstSoldOutAt(dishes, items, i) && FindDish(dishes, items[i].dishId).value.name == name
  }

  predicate FirstSoldOutAt(dishes: seq<Dish>, items: seq<Item>, i: nat)
    requires i < |items|
  {
    SoldOutItem(dishes, items[i]) && NoneSoldOut(dishes, items[..i])
  }

  /** At most one position is the first sold-out one, so the refusal names a single dish. */
  lemma FirstSoldOutUnique(dishes: seq<Dish>, items: seq<Item>, i: nat, j: nat)
    requires i < |items| && j < |items|
    requires FirstSoldOutAt(dishes, items, i) && FirstSoldOutAt(dishes, items, j)
    ensures i == j
  {
  }

  predicate NoneSoldOut(dishes: seq<Dish>, items: seq<Item>)
  {
    forall it :: it in items ==> !SoldOutItem(dishes, it)
  }

  lemma NoneSoldOutExtend(dishes: seq<Dish>, items: seq<Item>, i: nat)
    requires i <= |items| && NoneSoldOut(dishes, items[..i])
    ensures i < |items| && !SoldOutItem(dishes, items[i]) ==> NoneSoldOut(dishes, items[..i + 1])
    ensures i == |items| ==> NoneSoldOut(dishes, items)
  {
    if i < |items| {
      assert items[..i + 1] == items[..i] + [items[i]];
    } else {
      assert items[..i] == items;
    }
  }

  /** The order code of line `j` is the `j`-th generated code. */
  predicate CodesUsed(created: seq<Order>, codes: seq<string>)
  {
    |created| <= |codes| && forall j :: 0 <= j < |created| ==> created[j].orderCode == codes[j]
  }

  /**
   * `storeBulk`: validation first; then, inside one transaction, one line per
   * item carrying the shared group id, the fee on line 0 only. A sold-out dish
   * or a failed insert rolls back every line written by the call; otherwise
   * the commit stores them all.
   */
  method StoreBulk(db: Db, req: BulkRequest, groupId: string, today: CivilDate, uniqids: seq<string>, now: int)
    returns (r: Result<BulkResult, OrderError>)
    requires db.Valid() && ValidDate(today) && |uniqids| == |req.items|
    modifies db`orders, db`nextOrderId
    ensures db.Valid()
    ensures !BulkValid(req, db.dishes, db.users) <==> r == Err(ValidationFailed)
    ensures r.Err? ==> db.orders == old(db.orders)
    ensures r.Err? && r.error.SoldOut? ==> FirstSoldOutNamed(db.dishes, req.items, r.error.dish)
    ensures r == Err(ServerError) ==> !FreshCodes(old(db.orders), BulkCodes(today, uniqids))
    ensures (BulkValid(req, db.dishes, db.users) && FreshCodes(old(db.orders), BulkCodes(today, uniqids))
             && NoneSoldOut(db.dishes, req.items)) ==> r.Ok?
    ensures r.Ok? ==>
      && BulkValid(req, db.dishes, db.users)
      && NoneSoldOut(db.dishes, req.items)
      && db.orders == old(db.orders) + r.value.orders
      && |r.value.orders| == |req.items| == r.value.itemsCount
      && r.value.groupId == groupId
      && LinesStored(req, db.dishes, groupId, today, uniqids, now, r.value.orders)
      && r.value.grandTotal == Sum(r.value.orders, Amount)
  {
    if !BulkValid(req, db.dishes, db.users) {
      return Err(ValidationFailed);
    }
    var dishes, users := db.dishes, db.users;
    var written := WriteLines(req, dishes, users, db.orders, db.nextOrderId, groupId, today, uniqids, now);
    match written
    case Err(e) =>
      return Err(e);  // DB::rollBack(): nothing written reaches the store
    case Ok((created, grandTotal)) =>
      db.CommitOrders(created);
      assert db.dishes == dishes && db.users == users;
      return Ok(BulkResult(created, grandTotal, |created|, groupId));
  }

  /**
   * The loop of `storeBulk`, inside its transaction: `stored` and `next` are the
   * orders table and its counter when the transaction began. Each insert sees
   * the stored rows and the lines written before it; the first sold-out dish or
   * clashing order code stops the loop.
   */
  method WriteLines(req: BulkRequest, dishes: seq<Dish>, users: seq<User>, stored: seq<Order>, next: nat,
                    groupId: string, today: CivilDate, uniqids: seq<string>, now: int)
    returns (r: Result<(seq<Order>, int), OrderError>)
    requires ValidDate(today) && |uniqids| == |req.items|
    requires ItemsValid(req.items, dishes) && HasUser(users, req.userId)
    ensures r.Err? ==> r.error.SoldOut? || r.error == ServerError
    ensures r.Err? && r.error.SoldOut? ==> FirstSoldOutNamed(dishes, req.items, r.error.dish)
    ensures r == Err(ServerError) ==> !FreshCodes(stored, BulkCodes(today, uniqids))
    ensures FreshCodes(stored, BulkCodes(today, uniqids)) && NoneSoldOut(dishes, req.items) ==> r.Ok?
    ensures r.Ok? ==>
      && NoneSoldOut(dishes, req.items)
      && |r.value.0| == |req.items|
      && LinesStored(req, dishes, groupId, today, uniqids, now, r.value.0)
      && Insertable(stored, r.value.0, dishes, users, next)
      && r.value.1 == Sum(r.value.0, Amount)
  {
    var codes := BulkCodes(today, uniqids);
    var created: seq<Order> := [];
    var grandTotal := 0;
    var i := 0;
    while i < |req.items|
      invariant 0 <= i <= |req.items| && |created| == i
      invariant NoneSoldOut(dishes, req.items[..i])
      invariant LinesStored(req, dishes, groupId, today, uniqids, now, created)
      invariant CodesUsed(created, codes)
      invariant Insertable(stored, created, dishes, users, next)
      invariant grandTotal == Sum(created, Amount)
    {
      var it := req.items[i];
      assert it in req.items;
      var dish := FindDish(dishes, it.dishId).value;
      if !dish.available {
        assert FirstSoldOutAt(dishes, req.items, i);
        return Err(SoldOut(dish.name));
      }
      var line := BulkLine(req, dishes, i, groupId, today, uniqids[i], now).(id := next + i);
      if CodeTaken(stored + created, line.orderCode) {
        CodeClashNotFresh(stored, created, codes, i);
        return Err(ServerError);
      }
      InsertableAppend(stored, created, line, dishes, users, next);
      LinesStoredAppend(req, dishes, groupId, today, uniqids, now, created, line);
      SumAppend(created, [line], Amount);
      NoneSoldOutExtend(dishes, req.items, i);
      grandTotal := grandTotal + line.totalAmount;
      created := created + [line];
      i := i + 1;
    }
    NoneSoldOutExtend(dishes, req.items, i);
    return Ok((created, grandTotal));
  }

  /** If line `i`'s code is already stored, the codes of the call were not fresh. */
  lemma CodeClashNotFresh(saved: seq<Order>, created: seq<Order>, codes: seq<string>, i: nat)
    requires i < |codes| && |created| == i
    requires CodesUsed(created, codes)
    requires CodeTaken(saved + created, codes[i])
    ensures !FreshCodes(saved, codes)
  {
    var o :| o in saved + created && o.orderCode == codes[i];
    if o !in saved {
      var j :| 0 <= j < |created| && created[j] == o;
      assert codes[j] == codes[i] && j < i;
    }
    assert codes[i] in codes;
  }

  // ---------------------------------------------------------------------------
  // getOrderGroup: the totals of a stored group
  // ---------------------------------------------------------------------------

  predicate InGroup(groupId: string, o: Order) { o.groupId == Some(groupId) }
  function InGroupOf(groupId: string): Order -> bool { o => InGroup(groupId, o) }

  /** Only line 0 of a bulk group carries a surcharge, and it is the group's fee. */
  lemma BulkSurcharges(req: BulkRequest, dishes: seq<Dish>, groupId: string, today: CivilDate,
                       uniqids: seq<string>, now: int, created: seq<Order>, i: nat)
    requires LinesStored(req, dishes, groupId, today, uniqids, now, created) && i < |created|
    ensures InGroup(groupId, created[i]) && HasDish(dishes, created[i].dishId)
    ensures Surcharge(dishes, created[i]) == (if i == 0 then BulkFee(req) else 0)
  {
    assert StoredLine(req, dishes, groupId, today, uniqids, now, created[i], i);
    assert req.items[i] in req.items;
  }

  /** The grand total `storeBulk` returns is the sum of price times quantity plus exactly one fee. */
  lemma BulkGrandTotal(req: BulkRequest, dishes: seq<Dish>, groupId: string, today: CivilDate,
                       uniqids: seq<string>, now: int, created: seq<Order>)
    requires LinesStored(req, dishes, groupId, today, uniqids, now, created) && |created| >= 1
    ensures Sum(created, SurchargeOf(dishes)) == BulkFee(req)
    ensures Sum(created, Amount) == Sum(created, BaseOf(dishes)) + BulkFee(req)
  {
    SumAdd(created, BaseOf(dishes), SurchargeOf(dishes), Amount);
    forall o | o in created[1..] ensures SurchargeOf(dishes)(o) == 0 {
      var k :| 0 <= k < |created[1..]| && created[1..][k] == o;
      BulkSurcharges(req, dishes, groupId, today, uniqids, now, created, k + 1);
    }
    SumZero(created[1..], SurchargeOf(dishes));
    BulkSurcharges(req, dishes, groupId, today, uniqids, now, created, 0);
  }

  /** The answer of `getOrderGroup`. */
  datatype GroupSummary = GroupSummary(orders: seq<Order>, subtotal: int, deliveryFee: int, grandTotal: int, groupId: string)

  /**
   * `getOrderGroup`: the lines of the group, in stored order, or 404 when there
   * are none; the subtotal prices each line at its dish's current price; the fee
   * is what lines charge above price times quantity; the grand total sums the
   * stored totals. Every line's dish must exist, as the source reads its price.
   */
  function GetOrderGroup(orders: seq<Order>, dishes: seq<Dish>, groupId: string): (r: Result<GroupSummary, OrderError>)
    requires forall o :: o in orders && InGroup(groupId, o) ==> HasDish(dishes, o.dishId)
    ensures r.Err? <==> forall o :: o in orders ==> !InGroup(groupId, o)
    ensures r.Err? ==> r.error == NotFound
    ensures r.Ok? ==> r.value.groupId == groupId
                      && forall o :: o in r.value.orders <==> o in orders && InGroup(groupId, o)
    ensures r.Ok? ==> r.value.deliveryFee >= 0 && r.value.grandTotal <= r.value.subtotal + r.value.deliveryFee
  {
    var lines := Filter(orders, InGroupOf(groupId));
    FilterMembers(orders, InGroupOf(groupId));
    if lines == [] then Err(NotFound)
    else
      assert lines[0] in lines;
      FeeBounds(lines, dishes);
      Ok(GroupSummary(lines, Sum(lines, BaseOf(dishes)),
                      Sum(Filter(lines, Surcharged(dishes)), SurchargeOf(dishes)),
                      Sum(lines, Amount), groupId))
  }

  /** The fee of a group is never negative, and the stored totals never exceed subtotal plus fee. */
  lemma {:induction false} FeeBounds(lines: seq<Order>, dishes: seq<Dish>)
    ensures Sum(Filter(lines, Surcharged(dishes)), SurchargeOf(dishes)) >= 0
    ensures Sum(lines, Amount) <= Sum(lines, BaseOf(dishes)) + Sum(Filter(lines, Surcharged(dishes)), SurchargeOf(dishes))
  {
    if lines != [] {
      var p, f := Surcharged(dishes), SurchargeOf(dishes);
      FeeBounds(lines[1..], dishes);
      var head := if p(lines[0]) then [lines[0]] else [];
      assert Filter(lines, p) == head + Filter(lines[1..], p);
      SumAppend(head, Filter(lines[1..], p), f);
    }
  }

  /**
   * Reading back a group that `storeBulk` wrote under a group id no earlier row
   * carries gives exactly its lines, their price-times-quantity subtotal, the one
   * fee, and a grand total of subtotal plus fee: the total `storeBulk` returned.
   */
  lemma BulkGroupReadBack(req: BulkRequest, dishes: seq<Dish>, groupId: string, today: CivilDate,
                          uniqids: seq<string>, now: int, before: seq<Order>, created: seq<Order>)
    requires LinesStored(req, dishes, groupId, today, uniqids, now, created) && |created| == |req.items|
    requires BulkFee(req) >= 0
    requires forall o :: o in before ==> !InGroup(groupId, o)
    ensures (forall o :: o in before + created && InGroup(groupId, o) ==> HasDish(dishes, o.dishId))
            && var s := GetOrderGroup(before + created, dishes, groupId);
               && s.Ok? && s.value.orders == created
               && s.value.subtotal == Sum(created, BaseOf(dishes))
               && s.value.deliveryFee == BulkFee(req)
               && s.value.grandTotal == Sum(created, Amount) == s.value.subtotal + s.value.deliveryFee
  {
    var p := InGroupOf(groupId);
    forall i | 0 <= i < |created| ensures p(created[i]) && HasDish(dishes, created[i].dishId)
                                       && Surcharge(dishes, created[i]) >= 0 {
      BulkSurcharges(req, dishes, groupId, today, uniqids, now, created, i);
    }
    FilterAppend(before, created, p);
    FilterNone(before, p);
    FilterAll(created, p);
    assert Filter(before + created, p) == created;
    BulkGrandTotal(req, dishes, groupId, today, uniqids, now, created);
    SumFilter(created, Surcharged(dishes), SurchargeOf(dishes), SurchargeOf(dishes));
  }

  // ---------------------------------------------------------------------------
  // show and updateStatus
  // ---------------------------------------------------------------------------

  /** `show`: the line with that id, or 404 from `findOrFail`. */
  function Show(orders: seq<Order>, id: nat): (r: Result<Order, OrderError>)
    ensures r.Ok? <==> exists o :: o in orders && o.id == id
    ensures r.Ok? ==> r.value in orders && r.value.id == id
    ensures r.Err? ==> r.error == NotFound
  {
    match OrderIndex(orders, id)
    case None => Err(NotFound)
    case Some(k) => Ok(orders[k])
  }

  /** The row Eloquent saves: the new status, and a new `updated_at` only when the status changed. */
  function WithStatus(o: Order, status: string, now: int): (r: Order)
    ensures r.status == status && r == o.(status := r.status, updatedAt := r.updatedAt)
    ensures r.updatedAt == (if o.status == status then o.updatedAt else now)
  {
    o.(status := status, updatedAt := if o.status == status then o.updatedAt else now)
  }

  /**
   * `updateStatus`: a status outside the four is refused before the look-up; an
   * unknown id answers 404; otherwise only that line changes, and only in its
   * status and, when the status is new, its `updated_at`.
   */
  method UpdateStatus(db: Db, id: nat, status: string, now: int) returns (r: Result<Order, OrderError>)
    requires db.Valid()
    modifies db`orders
    ensures db.Valid()
    ensures !IsOrderStatus(status) ==> r == Err(ValidationFailed)
    ensures IsOrderStatus(status) && OrderIndex(old(db.orders), id).None? ==> r == Err(NotFound)
    ensures r.Err? ==> db.orders == old(db.orders)
    ensures IsOrderStatus(status) && OrderIndex(old(db.orders), id).Some? ==>
              var k := OrderIndex(old(db.orders), id).value;
              var after := WithStatus(old(db.orders)[k], status, now);
              r == Ok(after) && db.orders == old(db.orders)[k := after]
  {
    if !IsOrderStatus(status) {
      return Err(ValidationFailed);
    }
    var k := OrderIndex(db.orders, id);
    if k.None? {
      return Err(NotFound);
    }
    var after := WithStatus(db.orders[k.value], status, now);
    db.SetOrderStatus(k.value, status, after.updatedAt);
    return Ok(after);
  }

  // ---------------------------------------------------------------------------
  // index: the grouped listing
  // ---------------------------------------------------------------------------

  /** `$order->order_group_id ?? 'single_' . $order->id`. */
  function GroupKey(o: Order): string
  {
    match o.groupId
    case Some(g) => g
    case None => "single_" + NatToString(o.id)
  }

  /**
   * The loop of `index`: the orders, in the order the query returned them, put
   * into buckets by group key; each bucket keeps that order, and `keys` lists
   * the buckets in order of first appearance.
   */
  method Index(orders: seq<Order>) returns (keys: seq<string>, groups: map<string, seq<Order>>)
    ensures groups == GroupBy(orders, GroupKey) && keys == KeyOrder(orders, GroupKey)
    ensures Bucketed(orders, GroupKey, groups)
    ensures ListsKeys(keys, groups)
  {
    keys, groups := [], map[];
    for i := 0 to |orders|
      invariant groups == GroupBy(orders[..i], GroupKey)
      invariant keys == KeyOrder(orders[..i], GroupKey)
    {
      var o := orders[i];
      var key := GroupKey(o);
      GroupByStep(orders[..i], o, GroupKey);
      assert orders[..i + 1] == orders[..i] + [o];
      if key !in groups {
        keys := keys + [key];
      }
      groups := AddToBucket(groups, key, o);
    }
    assert orders[..|orders|] == orders;
    KeyOrderListsKeys(orders, GroupKey);
  }

  /** Every order of the listing sits in exactly one bucket, the one under its own key, and no bucket is empty. */
  lemma IndexPartitions(orders: seq<Order>, groups: map<string, seq<Order>>, o: Order)
    requires Bucketed(orders, GroupKey, groups) && o in orders
    ensures GroupKey(o) in groups
    ensures forall k :: k in groups ==> groups[k] != [] && (o in groups[k] <==> k == GroupKey(o))
  {
    BucketMembers(orders, GroupKey, groups);
  }
}
