/**
 * The customer's cart in the order form (`orderModal.jsx`): adding, removing
 * and re-counting dishes, the rice add-on, the subtotal and total, and the
 * order lines the form posts on submit, one request per line.
 *
 * Money is integer centavos: the form's fixed rice price of 15 and delivery
 * fee of 20 are 1500 and 2000. The group id built from `Date.now()` and
 * `Math.random()` is a parameter.
 */
module OrderCart {
  import opened Base
  import opened Schema

  const RicePrice: nat := 1500
  const FormDeliveryFee: nat := 2000

  /** One cart entry: the dish, its price when it was added, and how many. */
  datatype CartItem = CartItem(dishId: nat, name: string, price: int, quantity: int)

  predicate DifferentDishes(a: CartItem, b: CartItem) { a.dishId != b.dishId }

  predicate HoldsDish(dishId: nat, it: CartItem) { it.dishId == dishId }
  function HoldsDishOf(dishId: nat): CartItem -> bool { it => HoldsDish(dishId, it) }
  function LacksDishOf(dishId: nat): CartItem -> bool { it => !HoldsDish(dishId, it) }

  /** The cart's invariant: each dish at most once, and every quantity at least 1. */
  predicate WellFormed(items: seq<CartItem>)
  {
    Pairwise(items, DifferentDishes) && forall it :: it in items ==> it.quantity >= 1
  }

  /** `prev.map(item => item.dish_id === dishId ? { ...item, quantity: q(item) } : item)`. */
  function Requantify(items: seq<CartItem>, dishId: nat, add: bool, q: int): (r: seq<CartItem>)
    ensures |r| == |items|
    ensures forall i :: 0 <= i < |items| ==>
      r[i] == if items[i].dishId == dishId then items[i].(quantity := if add then items[i].quantity + 1 else q) else items[i]
  {
    Map(items, (it: CartItem) => if it.dishId == dishId then it.(quantity := if add then it.quantity + 1 else q) else it)
  }

  /** On a cart without duplicates, the `map` changes only the one entry of that dish. */
  lemma RequantifyOne(items: seq<CartItem>, k: nat, add: bool, q: int)
    requires Pairwise(items, DifferentDishes) && k < |items|
    ensures var it := items[k];
            Requantify(items, it.dishId, add, q) == items[k := it.(quantity := if add then it.quantity + 1 else q)]
  {
    var it := items[k];
    var r := Requantify(items, it.dishId, add, q);
    forall i | 0 <= i < |items| && i != k ensures items[i].dishId != it.dishId {
      if i < k {
        assert DifferentDishes(items[i], items[k]);
      } else {
        assert DifferentDishes(items[k], items[i]);
      }
    }
  }

  /** `dishesTotal + riceQuantity * 15`. */
  function CartSubtotal(items: seq<CartItem>, rice: int): int
  {
    Sum(items, LineCost) + rice * RicePrice
  }

  function LineCost(it: CartItem): int { it.price * it.quantity }

  class Cart {
    var items: seq<CartItem>
    var riceQuantity: int

    ghost predicate Valid()
      reads this
    {
      WellFormed(items) && riceQuantity >= 0
    }

    /** The form opens empty, or with the dish it was opened from, once. */
    constructor (defaultItem: Option<Dish>)
      ensures Valid()
      ensures riceQuantity == 0
      ensures defaultItem.None? ==> items == []
      ensures defaultItem.Some? ==>
                items == [CartItem(defaultItem.value.id, defaultItem.value.name, defaultItem.value.price, 1)]
    {
      items := if defaultItem.Some? then [CartItem(defaultItem.value.id, defaultItem.value.name, defaultItem.value.price, 1)] else [];
      riceQuantity := 0;
    }

    /** `addDishToOrder`: one more of a dish already in the cart, otherwise a new entry with quantity 1 at the end. */
    method AddDish(d: Dish)
      requires Valid()
      modifies this`items
      ensures Valid()
      ensures match IndexWhere(old(items), HoldsDishOf(d.id))
        case Some(k) => items == old(items)[k := old(items)[k].(quantity := old(items)[k].quantity + 1)]
        case None => items == old(items) + [CartItem(d.id, d.name, d.price, 1)]
    {
      var k := IndexWhere(items, HoldsDishOf(d.id));
      if k.Some? {
        RequantifyOne(items, k.value, true, 0);
        var before := items;
        items := Requantify(items, d.id, true, 0);
        assert forall i :: 0 <= i < |items| ==> items[i].dishId == before[i].dishId;
      } else {
        var entry := CartItem(d.id, d.name, d.price, 1);
        PairwiseAppend(items, entry, DifferentDishes);
        items := items + [entry];
      }
    }

    /** `removeItemFromOrder`: every entry of that dish goes; the rest stay, in order. */
    method RemoveDish(dishId: nat)
      requires Valid()
      modifies this`items
      ensures Valid()
      ensures items == Filter(old(items), LacksDishOf(dishId))
    {
      PairwiseFilter(items, DifferentDishes, LacksDishOf(dishId));
      FilterMembers(items, LacksDishOf(dishId));
      items := Filter(items, LacksDishOf(dishId));
    }

    /** `updateItemQuantity`: a quantity of 0 or less removes the dish; otherwise that dish's quantity is set. */
    method UpdateQuantity(dishId: nat, q: int)
      requires Valid()
      modifies this`items
      ensures Valid()
      ensures q <= 0 ==> items == Filter(old(items), LacksDishOf(dishId))
      ensures q > 0 ==> items == Requantify(old(items), dishId, false, q)
    {
      if q <= 0 {
        RemoveDish(dishId);
      } else {
        var before := items;
        items := Requantify(items, dishId, false, q);
        assert forall i :: 0 <= i < |items| ==> items[i].dishId == before[i].dishId;
        forall it | it in items ensures it.quantity >= 1 {
          var i :| 0 <= i < |items| && items[i] == it;
          assert before[i] in before;
        }
      }
    }

    /** The rice stepper's minus button: `Math.max(0, riceQuantity - 1)`. */
    method LessRice()
      requires Valid()
      modifies this`riceQuantity
      ensures Valid()
      ensures riceQuantity == if old(riceQuantity) > 0 then old(riceQuantity) - 1 else 0
    {
      riceQuantity := if riceQuantity - 1 > 0 then riceQuantity - 1 else 0;
    }

    /** The rice stepper's plus button. */
    method MoreRice()
      requires Valid()
      modifies this`riceQuantity
      ensures Valid()
      ensures riceQuantity == old(riceQuantity) + 1
    {
      riceQuantity := riceQuantity + 1;
    }

    /** `calculateSubtotal`. */
    function Subtotal(): int
      reads this
    {
      CartSubtotal(items, riceQuantity)
    }

    /** `calculateTotal`: the subtotal plus the fixed delivery fee. */
    function Total(): int
      reads this
    {
      Subtotal() + FormDeliveryFee
    }
  }

  /** Changing one entry's quantity changes the subtotal by its price times the difference, and nothing else. */
  lemma {:induction false} SubtotalAfterRequantify(items: seq<CartItem>, k: nat, q: int, rice: int)
    requires k < |items|
    ensures CartSubtotal(items[k := items[k].(quantity := q)], rice)
         == CartSubtotal(items, rice) + items[k].price * (q - items[k].quantity)
  {
    SumUpdate(items, k, items[k].(quantity := q));
  }

  lemma {:induction false} SumUpdate(items: seq<CartItem>, k: nat, x: CartItem)
    requires k < |items|
    ensures Sum(items[k := x], LineCost) == Sum(items, LineCost) - LineCost(items[k]) + LineCost(x)
  {
    if k > 0 {
      SumUpdate(items[1..], k - 1, x);
      assert items[k := x][1..] == items[1..][k - 1 := x];
    } else {
      assert items[k := x][1..] == items[1..];
    }
  }

  /** Removing a dish takes exactly its cost out of the subtotal. */
  lemma {:induction false} SubtotalAfterRemove(items: seq<CartItem>, k: nat, rice: int)
    requires WellFormed(items) && k < |items|
    ensures CartSubtotal(Filter(items, LacksDishOf(items[k].dishId)), rice)
         == CartSubtotal(items, rice) - LineCost(items[k])
  {
    RemoveKeepsOthers(items, k);
    SumWithout(items, k, LineCost);
  }

  /** In a cart holding each dish once, filtering out one line's dish drops exactly that line. */
  lemma {:induction false} RemoveKeepsOthers(items: seq<CartItem>, k: nat)
    requires Pairwise(items, DifferentDishes) && k < |items|
    ensures Filter(items, LacksDishOf(items[k].dishId)) == items[..k] + items[k + 1..]
  {
    OthersLackDish(items, k);
    FilterDropsOne(items, k, LacksDishOf(items[k].dishId));
  }

  lemma {:induction false} OthersLackDish(items: seq<CartItem>, k: nat)
    requires Pairwise(items, DifferentDishes) && k < |items|
    ensures forall i :: 0 <= i < |items| && i != k ==> items[i].dishId != items[k].dishId
  {
    forall i | 0 <= i < |items| && i != k ensures items[i].dishId != items[k].dishId {
      if i < k {
        assert DifferentDishes(items[i], items[k]);
      } else {
        assert DifferentDishes(items[k], items[i]);
      }
    }
  }

  /** Filtering with a test that fails only at index `k` removes just that element. */
  lemma {:induction false} FilterDropsOne<T>(s: seq<T>, k: nat, p: T -> bool)
    requires k < |s| && !p(s[k])
    requires forall i :: 0 <= i < |s| && i != k ==> p(s[i])
    ensures Filter(s, p) == s[..k] + s[k + 1..]
  {
    if k == 0 {
      FilterKeepsSlice(s, 1, |s|, p);
      assert s[1..|s|] == s[1..];
    } else {
      var t := s[1..];
      forall i | 0 <= i < |t| && i != k - 1 ensures p(t[i]) {
        assert t[i] == s[i + 1];
      }
      FilterDropsOne(t, k - 1, p);
      assert s[..k] == [s[0]] + t[..k - 1];
      assert s[k + 1..] == t[k..];
    }
  }

  lemma {:induction false} FilterKeepsSlice<T>(s: seq<T>, lo: nat, hi: nat, p: T -> bool)
    requires lo <= hi <= |s|
    requires forall i :: lo <= i < hi ==> p(s[i])
    ensures Filter(s[lo..hi], p) == s[lo..hi]
  {
    var t := s[lo..hi];
    forall it | it in t ensures p(it) {
      var i :| 0 <= i < |t| && t[i] == it;
      assert t[i] == s[lo + i];
    }
    FilterAll(t, p);
  }

  lemma {:induction false} SumWithout<T>(s: seq<T>, k: nat, f: T -> int)
    requires k < |s|
    ensures Sum(s, f) == Sum(s[..k] + s[k + 1..], f) + f(s[k])
  {
    var a, x, b := s[..k], s[k], s[k + 1..];
    assert s == (a + [x]) + b;
    SumAppend(a + [x], b, f);
    SumAppend(a, [x], f);
    SumAppend(a, b, f);
  }

  // ---------------------------------------------------------------------------
  // handleSubmit: the lines posted
  // ---------------------------------------------------------------------------

  /** One `POST /orders` body, as far as amounts, grouping and dish go. */
  datatype Line = Line(dishId: nat, quantity: int, itemSubtotal: int, deliveryFee: int, groupId: string)

  /** The cart entries, then the rice line when rice was asked for and a dish named rice exists. */
  function Entries(items: seq<CartItem>, rice: int, riceDish: Option<Dish>): (all: seq<CartItem>)
    ensures |all| == |items| + (if rice > 0 && riceDish.Some? then 1 else 0)
    ensures all[..|items|] == items
    ensures rice > 0 && riceDish.Some? ==> all[|items|] == CartItem(riceDish.value.id, "Rice", RicePrice, rice)
  {
    if rice > 0 && riceDish.Some? then items + [CartItem(riceDish.value.id, "Rice", RicePrice, rice)] else items
  }

  function ToLine(all: seq<CartItem>, groupId: string, i: nat): Line
    requires i < |all|
  {
    Line(all[i].dishId, all[i].quantity, all[i].price * all[i].quantity,
         if i == 0 then FormDeliveryFee else 0, groupId)
  }

  /**
   * `handleSubmit`: nothing is sent for an empty cart; otherwise one line per
   * entry, rice last, all under one group id, the fee only on line 0.
   */
  function SubmitLines(items: seq<CartItem>, rice: int, riceDish: Option<Dish>, groupId: string): (r: Option<seq<Line>>)
    ensures items == [] <==> r.None?
    ensures r.Some? ==>
      && |r.value| == |items| + (if rice > 0 && riceDish.Some? then 1 else 0)
      && (forall i :: 0 <= i < |r.value| ==> r.value[i].groupId == groupId)
      && (forall i :: 0 <= i < |r.value| ==> r.value[i].deliveryFee == (if i == 0 then FormDeliveryFee else 0))
      && (forall i :: 0 <= i < |items| ==> r.value[i].dishId == items[i].dishId && r.value[i].quantity == items[i].quantity)
      && (rice > 0 && riceDish.Some? ==> r.value[|items|].dishId == riceDish.value.id && r.value[|items|].quantity == rice)
  {
    if items == [] then None
    else
      var all := Entries(items, rice, riceDish);
      Some(seq(|all|, i requires 0 <= i < |all| => ToLine(all, groupId, i)))
  }

  function LineFee(l: Line): int { l.deliveryFee }
  function LineSubtotal(l: Line): int { l.itemSubtotal }

  /**
   * The posted lines carry the fee once, and their item subtotals and fees add
   * up to the total the form shows, whenever the rice it charged for is posted.
   */
  lemma SubmittedLinesAddUpToTotal(items: seq<CartItem>, rice: int, riceDish: Option<Dish>, groupId: string)
    requires items != [] && (rice > 0 ==> riceDish.Some?) && rice >= 0
    ensures var lines := SubmitLines(items, rice, riceDish, groupId).value;
            && Sum(lines, LineFee) == FormDeliveryFee
            && Sum(lines, LineSubtotal) + Sum(lines, LineFee) == CartSubtotal(items, rice) + FormDeliveryFee
  {
    var lines := SubmitLines(items, rice, riceDish, groupId).value;
    var all := Entries(items, rice, riceDish);
    forall l | l in lines[1..] ensures LineFee(l) == 0 {
      var i :| 0 <= i < |lines[1..]| && lines[1..][i] == l;
      assert lines[i + 1].deliveryFee == 0;
    }
    SumZero(lines[1..], LineFee);
    SubtotalsMatch(all, lines, groupId);
    if rice > 0 {
      assert all == items + [all[|items|]];
      SumAppend(items, [all[|items|]], LineCost);
    } else {
      assert all == items;
    }
  }

  lemma {:induction false} SubtotalsMatch(all: seq<CartItem>, lines: seq<Line>, groupId: string)
    requires |lines| == |all|
    requires forall i :: 0 <= i < |all| ==> lines[i].itemSubtotal == all[i].price * all[i].quantity
    ensures Sum(lines, LineSubtotal) == Sum(all, LineCost)
  {
    if all != [] {
      SubtotalsMatch(all[1..], lines[1..], groupId);
    }
  }
}
