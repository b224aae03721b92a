/**
 * The administrator's menu page (`admin/MenuItems.jsx`): which dishes the
 * search and availability filter keep, the three summary counts, and the
 * dish form that editing fills and resetting clears. A dish is as the `/dishes`
 * listing sends it, its price as the text the form shows.
 */
module MenuItems {
  import opened Base

  datatype ListedDish = ListedDish(id: nat, name: string, priceText: string, available: bool)

  /** The lower-cased name contains the lower-cased search term. */
  predicate NameMatches(term: string, d: ListedDish)
  {
    Contains(Lower(d.name), Lower(term))
  }

  /** `all`, or `available`/`unavailable` matching the flag; any other filter value keeps nothing. */
  predicate AvailabilityMatches(filter: string, d: ListedDish)
  {
    filter == "all" || (filter == "available" && d.available) || (filter == "unavailable" && !d.available)
  }

  predicate Kept(term: string, filter: string, d: ListedDish)
  {
    NameMatches(term, d) && AvailabilityMatches(filter, d)
  }

  /** `filteredDishes`: the dishes, in order, whose name matches and whose availability fits the filter. */
  function FilteredDishes(dishes: seq<ListedDish>, term: string, filter: string): (r: seq<ListedDish>)
    ensures forall d :: d in r <==> d in dishes && NameMatches(term, d) && AvailabilityMatches(filter, d)
    ensures |r| <= |dishes|
  {
    FilterMembers(dishes, d => Kept(term, filter, d));
    Filter(dishes, d => Kept(term, filter, d))
  }

  /** With the filter at `all` and an empty search, every dish is kept, in order. */
  lemma {:induction false} NoFilterKeepsAll(dishes: seq<ListedDish>)
    ensures FilteredDishes(dishes, "", "all") == dishes
  {
    FilterAll(dishes, d => Kept("", "all", d));
  }

  /** For one search, `available` and `unavailable` split what `all` keeps. */
  lemma {:induction false} AvailabilityFiltersSplit(dishes: seq<ListedDish>, term: string)
    ensures |FilteredDishes(dishes, term, "available")| + |FilteredDishes(dishes, term, "unavailable")|
         == |FilteredDishes(dishes, term, "all")|
  {
    if dishes != [] {
      AvailabilityFiltersSplit(dishes[1..], term);
    }
  }

  predicate IsAvailable(d: ListedDish) { d.available }
  predicate IsUnavailable(d: ListedDish) { !d.available }

  datatype Summary = Summary(total: nat, available: nat, unavailable: nat)

  /** The summary cards: all dishes, the available ones and the unavailable ones, whatever the filters. */
  function Summarize(dishes: seq<ListedDish>): (s: Summary)
    ensures s.available + s.unavailable == s.total == |dishes|
    ensures s.available == |FilteredDishes(dishes, "", "available")|
  {
    CountSplit(dishes, IsAvailable, IsUnavailable);
    AvailableCount(dishes);
    Summary(|dishes|, Count(dishes, IsAvailable), Count(dishes, IsUnavailable))
  }

  lemma {:induction false} AvailableCount(dishes: seq<ListedDish>)
    ensures Count(dishes, IsAvailable) == |FilteredDishes(dishes, "", "available")|
  {
    if dishes != [] {
      AvailableCount(dishes[1..]);
    }
  }

  // ---------------------------------------------------------------------------
  // the dish form
  // ---------------------------------------------------------------------------

  /** The form's state: its three fields, the dish being edited (none when adding), visibility and errors. */
  datatype FormState = FormState(name: string, price: string, available: bool, editing: Option<ListedDish>,
                                 shown: bool, errors: map<string, seq<string>>)

  /** `resetForm`: empty fields, available by default, not editing, hidden, no errors. */
  function ResetForm(): (f: FormState)
    ensures f.name == "" && f.price == "" && f.available
    ensures f.editing.None? && !f.shown && f.errors == map[]
  {
    FormState("", "", true, None, false, map[])
  }

  /** `startEdit`: the dish's name, price and availability in the fields, the dish as the one edited, shown, no errors. */
  function StartEdit(d: ListedDish): (f: FormState)
    ensures f.name == d.name && f.price == d.priceText && f.available == d.available
    ensures f.editing == Some(d) && f.shown && f.errors == map[]
  {
    FormState(d.name, d.priceText, d.available, Some(d), true, map[])
  }

  datatype DishRequest = Create | Update(id: nat)

  /** What `handleSubmit` sends: `PUT /dishes/{id}` while editing, else `POST /dishes`; the body is the three fields. */
  function Submit(f: FormState): (r: (DishRequest, (string, string, bool)))
    ensures r.0 == (if f.editing.Some? then Update(f.editing.value.id) else Create)
    ensures r.1 == (f.name, f.price, f.available)
  {
    (if f.editing.Some? then Update(f.editing.value.id) else Create, (f.name, f.price, f.available))
  }

  /**
   * Saving an edit unchanged sends the dish's own values back to that dish;
   * after a reset the next save creates a new dish.
   */
  lemma {:induction false} EditThenSaveTargetsTheDish(d: ListedDish)
    ensures Submit(StartEdit(d)) == (Update(d.id), (d.name, d.priceText, d.available))
    ensures Submit(ResetForm()).0 == Create
  {
  }
}
