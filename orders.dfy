/** `GET /api/orders` (the caller's finished orders, newest first) and
    `POST /api/orders` (checkout: the caller's non-empty PENDING order
    becomes PAID). */
module Orders {
  import opened Domain
  import opened Store
  import opened Sorting
  import Seqs
  import Cart

  predicate IsHistoryOf(o: Order, userId: Id)
  {
    o.userId == userId && o.status != Pending
  }

  function OrderCreatedAt(o: Order): int
  {
    o.createdAt
  }

  /** `where: { userId, status: { not: "PENDING" } }`, in table order. */
  function History(orders: seq<Order>, userId: Id): (r: seq<Order>)
    ensures forall o :: o in r <==> o in orders && IsHistoryOf(o, userId)
  {
    Seqs.Filter(orders, (o: Order) => IsHistoryOf(o, userId))
  }

  /** The `GET` reply: exactly the caller's non-PENDING orders, ordered by
      creation time, newest first. */
  function ListOrders(orders: seq<Order>, caller: Option<Caller>): (r: Reply<seq<Order>>)
    ensures caller.None? ==> r == Err(Unauthorized)
    ensures caller.Some? ==> (r.Ok?
      && multiset(r.value) == multiset(History(orders, caller.value.userId))
      && SortedDescBy(r.value, OrderCreatedAt))
    ensures r.Ok? ==> forall o :: o in r.value <==> o in orders && IsHistoryOf(o, caller.value.userId)
  {
    if caller.None? then Err(Unauthorized)
    else
      var h := History(orders, caller.value.userId);
      var sorted := SortDescBy(h, OrderCreatedAt);
      PermutationMembers(sorted, h);
      Ok(sorted)
  }

  /** `order.findUnique({ where: { id: orderId, userId, status: "PENDING" } })`. */
  function FindOwnPending(orders: seq<Order>, orderId: Id, userId: Id): (k: Option<nat>)
    ensures k.Some? ==> (k.value < |orders| && orders[k.value].id == orderId && Cart.IsPendingOf(orders[k.value], userId))
    ensures k.None? ==> forall i :: 0 <= i < |orders| ==> !(orders[i].id == orderId && Cart.IsPendingOf(orders[i], userId))
    decreases |orders|
  {
    if orders == [] then None
    else
      var last := |orders| - 1;
      if orders[last].id == orderId && Cart.IsPendingOf(orders[last], userId) then Some(last)
      else FindOwnPending(orders[..last], orderId, userId)
  }

  datatype CheckoutOutcome = CheckoutOutcome(reply: Reply<Order>, orders: seq<Order>)

  /** What checkout does to the order table. */
  function CheckoutStep(orders: seq<Order>, caller: Option<Caller>, orderId: Option<Id>): (r: CheckoutOutcome)
    ensures caller.None? ==> r == CheckoutOutcome(Err(Unauthorized), orders)
    ensures caller.Some? && orderId.None? ==> r == CheckoutOutcome(Err(BadRequest), orders)
    ensures (caller.Some? && orderId.Some?
             && forall i :: 0 <= i < |orders| ==> !(orders[i].id == orderId.value && Cart.IsPendingOf(orders[i], caller.value.userId))) ==>
      r == CheckoutOutcome(Err(NotFound), orders)
    ensures r.reply.Err? ==> r.orders == orders
    ensures r.reply.Ok? ==> (caller.Some? && orderId.Some? &&
      exists k :: 0 <= k < |orders| && orders[k].id == orderId.value && Cart.IsPendingOf(orders[k], caller.value.userId)
        && |orders[k].items| > 0
        && r.orders == orders[k := orders[k].(status := Paid)]
        && r.reply.value == r.orders[k])
    ensures (caller.Some? && orderId.Some?
             && (exists k :: 0 <= k < |orders| && orders[k].id == orderId.value && Cart.IsPendingOf(orders[k], caller.value.userId))
             && forall i :: 0 <= i < |orders| && orders[i].id == orderId.value && Cart.IsPendingOf(orders[i], caller.value.userId) ==>
                  |orders[i].items| > 0) ==>
      r.reply.Ok?
  {
    if caller.None? then CheckoutOutcome(Err(Unauthorized), orders)
    else if orderId.None? then CheckoutOutcome(Err(BadRequest), orders)
    else
      match FindOwnPending(orders, orderId.value, caller.value.userId)
      case None => CheckoutOutcome(Err(NotFound), orders)
      case Some(k) =>
        if |orders[k].items| == 0 then CheckoutOutcome(Err(BadRequest), orders)
        else
          var paid := orders[k].(status := Paid);
          CheckoutOutcome(Ok(paid), orders[k := paid])
  }

  /** With distinct order ids, an id names one position of the table. */
  lemma UniqueIdsIndex(orders: seq<Order>, n: nat, i: nat, j: nat)
    requires OrderIdsValid(orders, n)
    requires i < |orders| && j < |orders| && orders[i].id == orders[j].id
    ensures i == j
  {
  }

  /** Checking out an order with no lines answers 400 and the order stays
      PENDING. */
  lemma CheckoutRejectsEmptyOrder(orders: seq<Order>, n: nat, caller: Caller, k: nat)
    requires OrderIdsValid(orders, n)
    requires k < |orders| && Cart.IsPendingOf(orders[k], caller.userId) && orders[k].items == []
    ensures CheckoutStep(orders, Some(caller), Some(orders[k].id)) == CheckoutOutcome(Err(BadRequest), orders)
  {
    var f := FindOwnPending(orders, orders[k].id, caller.userId);
    UniqueIdsIndex(orders, n, f.value, k);
  }

  /** Checking out an own PENDING order with lines answers that order, now
      PAID, and writes exactly that status change. */
  lemma CheckoutPaysOwnPendingOrder(orders: seq<Order>, n: nat, caller: Caller, k: nat)
    requires OrderIdsValid(orders, n)
    requires k < |orders| && Cart.IsPendingOf(orders[k], caller.userId) && |orders[k].items| > 0
    ensures CheckoutStep(orders, Some(caller), Some(orders[k].id)) ==
      CheckoutOutcome(Ok(orders[k].(status := Paid)), orders[k := orders[k].(status := Paid)])
  {
    var f := FindOwnPending(orders, orders[k].id, caller.userId);
    UniqueIdsIndex(orders, n, f.value, k);
  }

  /** Checkout changes the status of the one order to PAID and nothing
      else, so its lines and total are those it had. */
  lemma CheckoutOnlyPays(orders: seq<Order>, caller: Option<Caller>, orderId: Option<Id>)
    ensures var r := CheckoutStep(orders, caller, orderId);
      && |r.orders| == |orders|
      && forall i :: 0 <= i < |orders| ==>
           r.orders[i] == orders[i]
           || (r.reply.Ok? && orders[i].status == Pending && r.orders[i] == orders[i].(status := Paid))
  {
  }

  /** Repeating a successful checkout fails with 404 and changes nothing:
      the order is no longer PENDING. */
  lemma SecondCheckoutFails(orders: seq<Order>, n: nat, caller: Option<Caller>, orderId: Option<Id>)
    requires OrderIdsValid(orders, n)
    ensures var r1 := CheckoutStep(orders, caller, orderId);
      r1.reply.Ok? ==> CheckoutStep(r1.orders, caller, orderId) == CheckoutOutcome(Err(NotFound), r1.orders)
  {
    var r1 := CheckoutStep(orders, caller, orderId);
    if r1.reply.Ok? {
      var k := FindOwnPending(orders, orderId.value, caller.value.userId).value;
      assert forall i :: 0 <= i < |r1.orders| && i != k ==> r1.orders[i] == orders[i];
    }
  }

  /** Checkout keeps both order-table invariants of the cart. */
  lemma CheckoutPreservesInvariants(orders: seq<Order>, caller: Option<Caller>, orderId: Option<Id>)
    requires Cart.OnePendingPerUser(orders) && Cart.TotalsConsistent(orders)
    ensures var r := CheckoutStep(orders, caller, orderId);
      Cart.OnePendingPerUser(r.orders) && Cart.TotalsConsistent(r.orders)
  {
    var r := CheckoutStep(orders, caller, orderId);
    if r.reply.Ok? {
      var k := FindOwnPending(orders, orderId.value, caller.value.userId).value;
      forall i, j | 0 <= i < j < |r.orders| && r.orders[i].status == Pending && r.orders[j].status == Pending
        ensures r.orders[i].userId != r.orders[j].userId
      {
        assert i != k && j != k;
        assert r.orders[i] == orders[i] && r.orders[j] == orders[j];
      }
    }
  }

  /** The checkout handler against the store. */
  method Checkout(db: Database, caller: Option<Caller>, orderId: Option<Id>) returns (r: Reply<Order>)
    requires db.Valid()
    modifies db
    ensures db.Valid()
    ensures var s := CheckoutStep(old(db.orders), caller, orderId);
      r == s.reply && db.orders == s.orders
    ensures db.books == old(db.books) && db.users == old(db.users) && db.rentals == old(db.rentals)
    ensures db.nextId == old(db.nextId)
  {
    if caller.None? {
      return Err(Unauthorized);
    }
    if orderId.None? {
      return Err(BadRequest);
    }
    var found := FindOwnPending(db.orders, orderId.value, caller.value.userId);
    if found.None? {
      return Err(NotFound);
    }
    var k := found.value;
    if |db.orders[k].items| == 0 {
      return Err(BadRequest);
    }
    db.SetStatus(k, Paid);
    r := Ok(db.orders[k]);
  }
}
