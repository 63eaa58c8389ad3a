/** `GET /api/admin/stats`: four counters of the admin dashboard. */
module Stats {
  import opened Domain
  import Seqs
  import Cart
  import Orders
  import Rentals
  import Store

  datatype Stats = Stats(totalBooks: nat, totalUsers: nat, activeRentals: nat, ordersThisMonth: nat)

  predicate IsActive(r: Rental)
  {
    !r.isReturned
  }

  /** `status: "PAID", createdAt: { gte: startOfMonth(now) }`. */
  predicate PaidSince(o: Order, monthStart: int)
  {
    o.status == Paid && o.createdAt >= monthStart
  }

  function ActiveRentals(rentals: seq<Rental>): (n: nat)
    ensures n <= |rentals|
  {
    Seqs.Count(rentals, IsActive)
  }

  function OrdersSince(orders: seq<Order>, monthStart: int): (n: nat)
    ensures n <= |orders|
  {
    Seqs.Count(orders, (o: Order) => PaidSince(o, monthStart))
  }

  /** The reply; `monthStart` is the first instant of the current month. */
  function StatsStep(books: seq<Book>, users: seq<User>, orders: seq<Order>, rentals: seq<Rental>,
                     caller: Option<Caller>, monthStart: int): (r: Reply<Stats>)
    ensures !IsAdmin(caller) ==> r == Err(Forbidden)
    ensures IsAdmin(caller) ==> (r.Ok?
      && r.value.totalBooks == |books| && r.value.totalUsers == |users|
      && r.value.activeRentals == ActiveRentals(rentals) && r.value.ordersThisMonth == OrdersSince(orders, monthStart)
      && r.value.activeRentals <= |rentals| && r.value.ordersThisMonth <= |orders|)
  {
    if !IsAdmin(caller) then Err(Forbidden)
    else Ok(Stats(|books|, |users|, ActiveRentals(rentals), OrdersSince(orders, monthStart)))
  }

  /** Active and returned rentals together make up the whole table. */
  lemma ActivePlusReturned(rentals: seq<Rental>)
    ensures ActiveRentals(rentals) + Seqs.Count(rentals, (r: Rental) => r.isReturned) == |rentals|
  {
    Seqs.FilterPartition(rentals, IsActive, (r: Rental) => r.isReturned);
  }

  /** A successful checkout adds one to `ordersThisMonth` when the order was
      created this month; any other checkout request leaves it alone. */
  lemma CheckoutCountsOnce(orders: seq<Order>, caller: Option<Caller>, orderId: Option<Id>, monthStart: int)
    ensures var r := Orders.CheckoutStep(orders, caller, orderId);
      OrdersSince(r.orders, monthStart)
        == OrdersSince(orders, monthStart) + (if r.reply.Ok? && r.reply.value.createdAt >= monthStart then 1 else 0)
  {
    var r := Orders.CheckoutStep(orders, caller, orderId);
    if r.reply.Ok? {
      var k := Orders.FindOwnPending(orders, orderId.value, caller.value.userId).value;
      Seqs.CountUpdate(orders, k, orders[k].(status := Paid), (o: Order) => PaidSince(o, monthStart));
    }
  }

  /** Adding to the cart touches only PENDING orders, so `ordersThisMonth`
      is unchanged. */
  lemma AddToCartKeepsOrderCount(books: seq<Book>, orders: seq<Order>, nextId: nat, caller: Option<Caller>,
                                 bookId: Option<Id>, quantity: Option<int>, now: int, monthStart: int)
    ensures OrdersSince(Cart.AddToCartStep(books, orders, nextId, caller, bookId, quantity, now).orders, monthStart)
      == OrdersSince(orders, monthStart)
  {
    var r := Cart.AddToCartStep(books, orders, nextId, caller, bookId, quantity, now);
    var p := (o: Order) => PaidSince(o, monthStart);
    if r.reply.Ok? {
      var book := FindAvailableBook(books, bookId.value).value;
      match Cart.FindPending(orders, caller.value.userId)
      case None =>
        Seqs.CountAppend(orders, r.orders[|orders|], p);
        assert r.orders == orders + [r.orders[|orders|]];
      case Some(k) =>
        var items := Cart.MergeLine(orders[k].items, book, quantity.value, nextId);
        Seqs.CountUpdate(orders, k, orders[k].(items := items, totalAmount := Total(items)), p);
    }
  }

  /** A successful rent adds one active rental; a failed one adds none. */
  lemma RentCountsOnce(books: seq<Book>, rentals: seq<Rental>, nextId: nat, caller: Option<Caller>,
                       bookId: Option<Id>, period: Option<string>, now: int)
    ensures var r := Rentals.RentStep(books, rentals, nextId, caller, bookId, period, now);
      ActiveRentals(r.rentals) == ActiveRentals(rentals) + (if r.reply.Ok? then 1 else 0)
  {
    var r := Rentals.RentStep(books, rentals, nextId, caller, bookId, period, now);
    if r.reply.Ok? {
      Seqs.CountAppend(rentals, r.rentals[|rentals|], IsActive);
      assert r.rentals == rentals + [r.rentals[|rentals|]];
    }
  }

  /** Flagging reminders does not change the number of active rentals. */
  lemma RemindersKeepActiveCount(rentals: seq<Rental>, ids: set<Id>)
    ensures ActiveRentals(Store.WithReminderSent(rentals, ids)) == ActiveRentals(rentals)
  {
    Seqs.CountPointwise(Store.WithReminderSent(rentals, ids), rentals, IsActive);
  }
}
