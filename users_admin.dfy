/**
 * The administrator's user endpoints (`Admin\UserController`): the listing
 * and counters that leave administrators out, and the deletion that refuses
 * administrators and otherwise cascades to the user's reservations and orders.
 */
module UsersAdmin {
  import opened Base
  import opened Schema

  predicate NotAdmin(u: User) { u.role != AdminRole }

  /** `name`, `email` or `contact_number` `LIKE '%term%'`; a null contact number matches nothing. */
  predicate UserMatches(u: User, term: string)
  {
    Contains(u.name, term) || Contains(u.email, term)
    || (u.contactNumber.Some? && Contains(u.contactNumber.value, term))
  }

  /** The search applies when `search` is present and not PHP-empty ("" or "0"). */
  predicate Listed(search: Option<string>, u: User)
  {
    NotAdmin(u) && (search.Some? && search.value != "" && search.value != "0" ==> UserMatches(u, search.value))
  }

  function ListedBy(search: Option<string>): User -> bool { u => Listed(search, u) }

  /** `index` before pagination: the non-administrators that match the search, in the query's order. */
  function Index(users: seq<User>, search: Option<string>): (r: seq<User>)
    ensures forall u :: u in r <==> u in users && Listed(search, u)
    ensures forall u :: u in r ==> NotAdmin(u)
    ensures |r| <= |users|
  {
    FilterMembers(users, ListedBy(search));
    Filter(users, ListedBy(search))
  }

  predicate RecentCustomer(since: int, u: User) { NotAdmin(u) && u.createdAt >= since }

  datatype UserStats = UserStats(totalUsers: nat, recentUsers: nat)

  /** `stats`, with `now()->subDays(7)` passed in as `since`. */
  function Stats(users: seq<User>, since: int): (s: UserStats)
    ensures s.recentUsers <= s.totalUsers <= |users|
    ensures s.totalUsers == |users| - Count(users, u => !NotAdmin(u))
  {
    CountMonotone(users, u => RecentCustomer(since, u), NotAdmin);
    CountSplit(users, NotAdmin, u => !NotAdmin(u));
    UserStats(Count(users, NotAdmin), Count(users, u => RecentCustomer(since, u)))
  }

  datatype DestroyError =
    | AdminProtected   // 403
    | ServerError      // 500, what the handler makes of a failed findOrFail

  /**
   * `destroy`: an unknown id answers 500; an administrator answers 403 and
   * stays; any other user is deleted, the cascade removing their reservations
   * and orders, and the answer carries their name.
   */
  method Destroy(db: Db, id: nat) returns (r: Result<string, DestroyError>)
    requires db.Valid()
    modifies db`users, db`reservations, db`orders
    ensures db.Valid()
    ensures r.Err? ==> db.users == old(db.users) && db.reservations == old(db.reservations) && db.orders == old(db.orders)
    ensures match UserIndex(old(db.users), id)
      case None => r == Err(ServerError)
      case Some(k) =>
        if old(db.users)[k].role == AdminRole then r == Err(AdminProtected)
        else
          && r == Ok(old(db.users)[k].name)
          && db.users == old(db.users)[..k] + old(db.users)[k + 1..]
          && db.reservations == Filter(old(db.reservations), x => NotOwnedBy(id, x))
          && db.orders == Filter(old(db.orders), o => NotPlacedBy(id, o))
  {
    var k := UserIndex(db.users, id);
    if k.None? {
      return Err(ServerError);
    }
    var user := db.users[k.value];
    if user.role == AdminRole {
      return Err(AdminProtected);
    }
    db.DeleteUserAt(k.value);
    return Ok(user.name);
  }

  /** After the cascade no reservation or order of the deleted user is left, and every other one is. */
  lemma {:induction false} CascadeRemovesExactlyTheirRows(rs: seq<Reservation>, os: seq<Order>, uid: nat)
    ensures forall x :: x in Filter(rs, r => NotOwnedBy(uid, r)) <==> x in rs && x.userId != Some(uid)
    ensures forall o :: o in Filter(os, o => NotPlacedBy(uid, o)) <==> o in os && o.userId != uid
  {
    FilterMembers(rs, r => NotOwnedBy(uid, r));
    FilterMembers(os, o => NotPlacedBy(uid, o));
  }
}
