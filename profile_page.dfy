/** The profile page (`/profile`): with a session, the first three active
    rentals of `GET /api/rentals` and the first three orders of
    `GET /api/orders`, plus the order status labels. A failed request is a
    `None` reply. */
module ProfilePage {
  import opened Domain
  import Seqs
  import Sorting
  import Orders

  /** The first at most three un-returned rentals, in the order received. */
  function ShownRentals(rentals: seq<Rental>): (r: seq<Rental>)
    ensures |r| <= 3
    ensures forall x :: x in r ==> x in rentals && !x.isReturned
    ensures r == Seqs.Take(Seqs.Filter(rentals, (x: Rental) => !x.isReturned), 3)
    ensures Seqs.Subsequence(r, rentals)
    ensures var n := Seqs.Count(rentals, (x: Rental) => !x.isReturned); |r| == if n < 3 then n else 3
  {
    var active := Seqs.Filter(rentals, (x: Rental) => !x.isReturned);
    var shown := Seqs.Take(active, 3);
    assert forall i :: 0 <= i < |shown| ==> shown[i] in active;
    Seqs.FilterIsSubsequence(rentals, (x: Rental) => !x.isReturned);
    Seqs.PrefixIsSubsequence(active, rentals, |shown|);
    assert shown == active[..|shown|];
    shown
  }

  /** The first at most three orders, in the order received. */
  function ShownOrders(orders: seq<Order>): (r: seq<Order>)
    ensures |r| <= 3 && |r| == if |orders| < 3 then |orders| else 3
    ensures forall i :: 0 <= i < |r| ==> r[i] == orders[i]
  {
    Seqs.Take(orders, 3)
  }

  /** Since the order history is sorted newest first, the three orders shown
      are the caller's most recent finished ones. */
  lemma ShownOrdersAreNewest(orders: seq<Order>, caller: Caller)
    ensures var h := Orders.ListOrders(orders, Some(caller));
      var shown := ShownOrders(h.value);
      forall i, o :: 0 <= i < |shown| && o in h.value && o !in shown ==> shown[i].createdAt >= o.createdAt
  {
    var h := Orders.ListOrders(orders, Some(caller)).value;
    var shown := ShownOrders(h);
    forall i, o | 0 <= i < |shown| && o in h && o !in shown ensures shown[i].createdAt >= o.createdAt {
      var j :| 0 <= j < |h| && h[j] == o;
      assert j >= |shown|;
      assert Orders.OrderCreatedAt(h[i]) >= Orders.OrderCreatedAt(h[j]);
    }
  }

  /** `getOrderStatusText`: the three statuses in words; any other value is
      shown as it is. */
  function OrderStatusText(status: string): (t: string)
    ensures status == "PENDING" ==> t == "В обработке"
    ensures status == "PAID" ==> t == "Оплачен"
    ensures status == "CANCELLED" ==> t == "Отменен"
    ensures t == status <==> status !in ["PENDING", "PAID", "CANCELLED"]
  {
    match status
    case "PENDING" => "В обработке"
    case "PAID" => "Оплачен"
    case "CANCELLED" => "Отменен"
    case _ => status
  }

  /** The status as it travels in JSON. */
  function StatusName(s: OrderStatus): string
  {
    match s
    case Pending => "PENDING"
    case Paid => "PAID"
    case Cancelled => "CANCELLED"
  }

  /** Distinct statuses get distinct labels, and none is shown raw. */
  lemma StatusLabelsDistinct(a: OrderStatus, b: OrderStatus)
    ensures OrderStatusText(StatusName(a)) == OrderStatusText(StatusName(b)) <==> a == b
    ensures OrderStatusText(StatusName(a)) != StatusName(a)
  {
  }

  class ProfilePageState {
    var activeRentals: seq<Rental>
    var recentOrders: seq<Order>
    var isLoading: bool
    var error: bool
    var fetched: seq<string>

    constructor ()
      ensures activeRentals == [] && recentOrders == [] && isLoading && !error && fetched == []
    {
      activeRentals := [];
      recentOrders := [];
      isLoading := true;
      error := false;
      fetched := [];
    }

    /** The effect of `fetchProfileData`, run only with a session. The
        rentals are requested first; if that fails the orders are not
        requested. A failed orders request keeps the rentals already set. */
    method Load(hasSession: bool, rentalsReply: Option<seq<Rental>>, ordersReply: Option<seq<Order>>)
      modifies this
      ensures !hasSession ==> (activeRentals == old(activeRentals) && recentOrders == old(recentOrders)
        && isLoading == old(isLoading) && error == old(error) && fetched == old(fetched))
      ensures hasSession ==> !isLoading
      ensures hasSession && rentalsReply.None? ==>
        fetched == old(fetched) + ["/api/rentals"] && error
        && activeRentals == old(activeRentals) && recentOrders == old(recentOrders)
      ensures hasSession && rentalsReply.Some? ==>
        fetched == old(fetched) + ["/api/rentals", "/api/orders"]
        && activeRentals == ShownRentals(rentalsReply.value)
        && recentOrders == (if ordersReply.Some? then ShownOrders(ordersReply.value) else old(recentOrders))
        && error == (ordersReply.None? || old(error))
    {
      if !hasSession {
        return;
      }
      fetched := fetched + ["/api/rentals"];
      if rentalsReply.None? {
        error := true;
        isLoading := false;
        return;
      }
      activeRentals := ShownRentals(rentalsReply.value);
      fetched := fetched + ["/api/orders"];
      if ordersReply.None? {
        error := true;
        isLoading := false;
        return;
      }
      recentOrders := ShownOrders(ordersReply.value);
      isLoading := false;
    }
  }
}
