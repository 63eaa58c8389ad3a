/** `GET /api/cart` and `POST /api/cart`: the cart is the caller's PENDING
    order. Adding a book finds that order or creates it, merges a repeated
    book into its existing line, snapshots the book's price on a new line
    and recomputes the order total. */
module Cart {
  import opened Domain
  import opened Store

  predicate IsPendingOf(o: Order, userId: Id)
  {
    o.userId == userId && o.status == Pending
  }

  /** At most one PENDING order per user: the store's "cart" invariant. */
  ghost predicate OnePendingPerUser(orders: seq<Order>)
  {
    forall i, j :: 0 <= i < j < |orders| && orders[i].status == Pending && orders[j].status == Pending ==>
      orders[i].userId != orders[j].userId
  }

  /** Every order's stored total is Σ price × quantity over its lines. */
  ghost predicate TotalsConsistent(orders: seq<Order>)
  {
    forall i :: 0 <= i < |orders| ==> orders[i].totalAmount == Total(orders[i].items)
  }

  function FindPendingFrom(orders: seq<Order>, userId: Id, from: nat): (k: Option<nat>)
    requires from <= |orders|
    ensures k.Some? ==> (from <= k.value < |orders| && IsPendingOf(orders[k.value], userId)
      && forall i :: from <= i < k.value ==> !IsPendingOf(orders[i], userId))
    ensures k.None? ==> forall i :: from <= i < |orders| ==> !IsPendingOf(orders[i], userId)
    decreases |orders| - from
  {
    if from == |orders| then None
    else if IsPendingOf(orders[from], userId) then Some(from)
    else FindPendingFrom(orders, userId, from + 1)
  }

  /** `order.findFirst({ where: { userId, status: "PENDING" } })`: the index of
      the first PENDING order of the user. */
  function FindPending(orders: seq<Order>, userId: Id): (k: Option<nat>)
    ensures k.Some? ==> (k.value < |orders| && IsPendingOf(orders[k.value], userId)
      && forall i :: 0 <= i < k.value ==> !IsPendingOf(orders[i], userId))
    ensures k.None? ==> forall i :: 0 <= i < |orders| ==> !IsPendingOf(orders[i], userId)
  {
    FindPendingFrom(orders, userId, 0)
  }

  function FindLineFrom(items: seq<OrderItem>, bookId: Id, from: nat): (j: Option<nat>)
    requires from <= |items|
    ensures j.Some? ==> (from <= j.value < |items| && items[j.value].bookId == bookId
      && forall i :: from <= i < j.value ==> items[i].bookId != bookId)
    ensures j.None? ==> forall i :: from <= i < |items| ==> items[i].bookId != bookId
    decreases |items| - from
  {
    if from == |items| then None
    else if items[from].bookId == bookId then Some(from)
    else FindLineFrom(items, bookId, from + 1)
  }

  /** `order.orderItems.find((item) => item.bookId === book.id)`. */
  function FindLine(items: seq<OrderItem>, bookId: Id): (j: Option<nat>)
    ensures j.Some? ==> (j.value < |items| && items[j.value].bookId == bookId
      && forall i :: 0 <= i < j.value ==> items[i].bookId != bookId)
    ensures j.None? ==> forall i :: 0 <= i < |items| ==> items[i].bookId != bookId
  {
    FindLineFrom(items, bookId, 0)
  }

  /** The lines of the pending order after adding `quantity` of `book`: the
      existing line of that book grows, or a new line with the book's current
      price and id `newItemId` is appended. */
  function MergeLine(items: seq<OrderItem>, book: Book, quantity: int, newItemId: Id): (r: seq<OrderItem>)
    ensures |items| <= |r| <= |items| + 1
    ensures forall i :: 0 <= i < |items| && items[i].bookId != book.id ==> r[i] == items[i]
  {
    match FindLine(items, book.id)
    case Some(j) => items[j := items[j].(quantity := items[j].quantity + quantity)]
    case None => items + [OrderItem(newItemId, book.id, quantity, book.price)]
  }

  /** Merging never re-prices or re-labels an existing line, adds at most one
      line, and grows the book's line by exactly `quantity`. */
  lemma MergeLineShape(items: seq<OrderItem>, book: Book, quantity: int, newItemId: Id)
    ensures var r := MergeLine(items, book, quantity, newItemId);
      && |items| <= |r| <= |items| + 1
      && (forall i :: 0 <= i < |items| ==>
            r[i].id == items[i].id && r[i].bookId == items[i].bookId && r[i].price == items[i].price)
      && (forall i :: 0 <= i < |items| && items[i].bookId != book.id ==> r[i] == items[i])
      && (|r| == |items| <==> exists i :: 0 <= i < |items| && items[i].bookId == book.id)
      && (|r| == |items| + 1 ==> r[|items|] == OrderItem(newItemId, book.id, quantity, book.price))
  {
    match FindLine(items, book.id)
    case Some(j) =>
    case None =>
  }

  /** The new total is the old one plus `quantity` times the price of the
      book's line: the snapshot price of an existing line, else the book's
      current price. */
  lemma MergeLineTotal(items: seq<OrderItem>, book: Book, quantity: int, newItemId: Id)
    ensures Total(MergeLine(items, book, quantity, newItemId)) ==
      Total(items) + quantity * (match FindLine(items, book.id)
                                 case Some(j) => items[j].price
                                 case None => book.price)
  {
    match FindLine(items, book.id)
    case Some(j) =>
      var x := items[j].(quantity := items[j].quantity + quantity);
      TotalUpdate(items, j, x);
      assert LineAmount(x) == LineAmount(items[j]) + quantity * items[j].price;
    case None =>
      var x := OrderItem(newItemId, book.id, quantity, book.price);
      TotalConcat(items, [x]);
      TotalSingle(x);
  }

  /** `reduce((sum, item) => sum + item.price * item.quantity, 0)` over the
      re-read lines of the order. */
  method SumLines(items: seq<OrderItem>) returns (sum: int)
    ensures sum == Total(items)
  {
    sum := 0;
    for i := 0 to |items|
      invariant sum == Total(items[..i])
    {
      assert items[..i + 1][..i] == items[..i];
      sum := sum + items[i].price * items[i].quantity;
    }
    assert items[..|items|] == items;
  }

  /** The body of the `GET /api/cart` reply: the pending order's id, total and
      lines, or the synthetic empty cart `{ id: null, totalAmount: 0,
      orderItems: [] }`. */
  datatype CartView = CartView(id: Option<Id>, totalAmount: int, items: seq<OrderItem>)

  function GetCart(orders: seq<Order>, caller: Option<Caller>): (r: Reply<CartView>)
    ensures caller.None? ==> r == Err(Unauthorized)
    ensures caller.Some? ==> r.Ok?
    ensures r.Ok? && r.value.id.None? ==>
      r.value == CartView(None, 0, []) && forall o :: o in orders ==> !IsPendingOf(o, caller.value.userId)
    ensures r.Ok? && r.value.id.Some? ==>
      exists o :: o in orders && IsPendingOf(o, caller.value.userId)
        && r.value == CartView(Some(o.id), o.totalAmount, o.items)
  {
    if caller.None? then Err(Unauthorized)
    else
      match FindPending(orders, caller.value.userId)
      case None => Ok(CartView(None, 0, []))
      case Some(k) => Ok(CartView(Some(orders[k].id), orders[k].totalAmount, orders[k].items))
  }

  /** Under the one-pending invariant the cart shown is THE pending order. */
  lemma GetCartIsThePendingOrder(orders: seq<Order>, caller: Caller, k: nat)
    requires OnePendingPerUser(orders)
    requires k < |orders| && IsPendingOf(orders[k], caller.userId)
    ensures GetCart(orders, Some(caller)) == Ok(CartView(Some(orders[k].id), orders[k].totalAmount, orders[k].items))
  {
    var f := FindPending(orders, caller.userId);
    assert f == Some(k);
  }

  /** What `POST /api/cart` does to the order table and the id generator. */
  datatype AddOutcome = AddOutcome(reply: Reply<Id>, orders: seq<Order>, nextId: nat)

  function AddToCartStep(books: seq<Book>, orders: seq<Order>, nextId: nat, caller: Option<Caller>,
                         bookId: Option<Id>, quantity: Option<int>, now: int): (r: AddOutcome)
    ensures caller.None? ==> r == AddOutcome(Err(Unauthorized), orders, nextId)
    ensures caller.Some? && (bookId.None? || quantity.None? || quantity.value < 1) ==>
      r == AddOutcome(Err(BadRequest), orders, nextId)
    ensures (caller.Some? && bookId.Some? && quantity.Some? && quantity.value >= 1
             && forall b :: b in books ==> !(b.id == bookId.value && b.isAvailable)) ==>
      r == AddOutcome(Err(NotFound), orders, nextId)
    ensures r.reply.Err? ==> r.orders == orders && r.nextId == nextId
    ensures r.reply.Ok? ==> (caller.Some? && quantity.Some? && quantity.value >= 1 && bookId.Some?
      && exists b :: b in books && b.id == bookId.value && b.isAvailable)
  {
    if caller.None? then AddOutcome(Err(Unauthorized), orders, nextId)
    else if bookId.None? || quantity.None? || quantity.value < 1 then AddOutcome(Err(BadRequest), orders, nextId)
    else
      var userId, q := caller.value.userId, quantity.value;
      match FindAvailableBook(books, bookId.value)
      case None => AddOutcome(Err(NotFound), orders, nextId)
      case Some(book) =>
        match FindPending(orders, userId)
        case None =>
          var o := Order(nextId, userId, Pending, book.price * q, now, [OrderItem(nextId + 1, book.id, q, book.price)]);
          AddOutcome(Ok(nextId), orders + [o], nextId + 2)
        case Some(k) =>
          var items := MergeLine(orders[k].items, book, q, nextId);
          var next := if FindLine(orders[k].items, book.id).Some? then nextId else nextId + 1;
          AddOutcome(Ok(orders[k].id), orders[k := orders[k].(items := items, totalAmount := Total(items))], next)
  }

  /** A successful add with no pending order creates one PENDING order owned
      by the caller with exactly one line at the book's current price, and
      a total of price × quantity; nothing else in the table changes. */
  lemma AddToCartCreatesOrder(books: seq<Book>, orders: seq<Order>, nextId: nat, caller: Caller,
                              bookId: Id, quantity: int, now: int, book: Book)
    requires quantity >= 1 && book in books && book.id == bookId && book.isAvailable
    requires BookIdsValid(books, nextId)
    requires forall o :: o in orders ==> !IsPendingOf(o, caller.userId)
    ensures var r := AddToCartStep(books, orders, nextId, Some(caller), Some(bookId), Some(quantity), now);
      && r.reply == Ok(nextId)
      && r.orders[..|orders|] == orders
      && |r.orders| == |orders| + 1
      && var o := r.orders[|orders|];
         o.id == nextId && o.userId == caller.userId && o.status == Pending
         && o.items == [OrderItem(nextId + 1, bookId, quantity, book.price)]
         && o.totalAmount == book.price * quantity == Total(o.items)
  {
    var f := FindAvailableBook(books, bookId);
    assert f == Some(book) by {
      var b := f.value;
      var i :| 0 <= i < |books| && books[i] == b;
      var j :| 0 <= j < |books| && books[j] == book;
      assert i == j;
    }
    var p := FindPending(orders, caller.userId);
    assert p.None? by {
      assert forall i :: 0 <= i < |orders| ==> orders[i] in orders;
    }
    var r := AddToCartStep(books, orders, nextId, Some(caller), Some(bookId), Some(quantity), now);
    assert (orders + [r.orders[|orders|]])[..|orders|] == orders;
    TotalSingle(OrderItem(nextId + 1, bookId, quantity, book.price));
  }

  /** Adding a book that already has a line in the pending order grows that
      line by `quantity`, adds no line, keeps every price, allocates no id,
      and sets the total to the old total plus snapshot price × quantity. */
  lemma AddToCartMergesLine(books: seq<Book>, orders: seq<Order>, nextId: nat, caller: Caller,
                            bookId: Id, quantity: int, now: int, k: nat, j: nat)
    requires quantity >= 1 && exists b :: b in books && b.id == bookId && b.isAvailable
    requires OnePendingPerUser(orders) && TotalsConsistent(orders)
    requires k < |orders| && IsPendingOf(orders[k], caller.userId)
    requires j < |orders[k].items| && orders[k].items[j].bookId == bookId
    requires forall i :: 0 <= i < j ==> orders[k].items[i].bookId != bookId
    ensures var r := AddToCartStep(books, orders, nextId, Some(caller), Some(bookId), Some(quantity), now);
      var old_items := orders[k].items;
      && r.reply == Ok(orders[k].id)
      && r.nextId == nextId
      && |r.orders| == |orders|
      && (forall i :: 0 <= i < |orders| && i != k ==> r.orders[i] == orders[i])
      && r.orders[k].items == old_items[j := old_items[j].(quantity := old_items[j].quantity + quantity)]
      && r.orders[k].totalAmount == orders[k].totalAmount + old_items[j].price * quantity
      && r.orders[k] == orders[k].(items := r.orders[k].items, totalAmount := r.orders[k].totalAmount)
  {
    var p := FindPending(orders, caller.userId);
    assert p == Some(k);
    var book := FindAvailableBook(books, bookId).value;
    assert FindLine(orders[k].items, book.id) == Some(j);
    MergeLineTotal(orders[k].items, book, quantity, nextId);
  }

  /** Adding a book that has no line in the pending order appends one line
      with a fresh id at the book's current price, keeps every other line
      and order, and adds price × quantity to the total. */
  lemma AddToCartAppendsLine(books: seq<Book>, orders: seq<Order>, nextId: nat, caller: Caller,
                             bookId: Id, quantity: int, now: int, k: nat, book: Book)
    requires quantity >= 1 && book in books && book.id == bookId && book.isAvailable
    requires BookIdsValid(books, nextId)
    requires OnePendingPerUser(orders) && TotalsConsistent(orders)
    requires k < |orders| && IsPendingOf(orders[k], caller.userId)
    requires forall i :: 0 <= i < |orders[k].items| ==> orders[k].items[i].bookId != bookId
    ensures var r := AddToCartStep(books, orders, nextId, Some(caller), Some(bookId), Some(quantity), now);
      var old_items := orders[k].items;
      && r.reply == Ok(orders[k].id)
      && r.nextId == nextId + 1
      && |r.orders| == |orders|
      && (forall i :: 0 <= i < |orders| && i != k ==> r.orders[i] == orders[i])
      && r.orders[k].items == old_items + [OrderItem(nextId, bookId, quantity, book.price)]
      && r.orders[k].totalAmount == Total(old_items) + book.price * quantity
      && r.orders[k].totalAmount == orders[k].totalAmount + book.price * quantity
      && r.orders[k] == orders[k].(items := r.orders[k].items, totalAmount := r.orders[k].totalAmount)
  {
    var f := FindAvailableBook(books, bookId);
    assert f == Some(book) by {
      var b := f.value;
      var i :| 0 <= i < |books| && books[i] == b;
      var j :| 0 <= j < |books| && books[j] == book;
      assert i == j;
    }
    var p := FindPending(orders, caller.userId);
    assert p == Some(k);
    assert FindLine(orders[k].items, book.id).None?;
    MergeLineTotal(orders[k].items, book, quantity, nextId);
  }

  /** A successful add keeps every existing line's id, book and snapshot
      price: quantities are the only thing it updates on existing lines. */
  lemma AddToCartKeepsSnapshots(books: seq<Book>, orders: seq<Order>, nextId: nat, caller: Option<Caller>,
                                bookId: Option<Id>, quantity: Option<int>, now: int)
    ensures var r := AddToCartStep(books, orders, nextId, caller, bookId, quantity, now);
      && |orders| <= |r.orders|
      && forall i, j :: 0 <= i < |orders| && 0 <= j < |orders[i].items| ==>
           j < |r.orders[i].items|
           && r.orders[i].items[j].id == orders[i].items[j].id
           && r.orders[i].items[j].bookId == orders[i].items[j].bookId
           && r.orders[i].items[j].price == orders[i].items[j].price
  {
    var r := AddToCartStep(books, orders, nextId, caller, bookId, quantity, now);
    if r.reply.Ok? {
      var book := FindAvailableBook(books, bookId.value).value;
      match FindPending(orders, caller.value.userId)
      case None =>
        assert forall i :: 0 <= i < |orders| ==> r.orders[i] == orders[i];
      case Some(k) =>
        MergeLineShape(orders[k].items, book, quantity.value, nextId);
    }
  }

  /** Adding to the cart never gives a user a second PENDING order, and it
      preserves "every total is Σ price × quantity". */
  lemma AddToCartPreservesInvariants(books: seq<Book>, orders: seq<Order>, nextId: nat, caller: Option<Caller>,
                                     bookId: Option<Id>, quantity: Option<int>, now: int)
    requires OnePendingPerUser(orders) && TotalsConsistent(orders)
    ensures var r := AddToCartStep(books, orders, nextId, caller, bookId, quantity, now);
      OnePendingPerUser(r.orders) && TotalsConsistent(r.orders)
  {
    var r := AddToCartStep(books, orders, nextId, caller, bookId, quantity, now);
    if r.reply.Ok? {
      var userId, q := caller.value.userId, quantity.value;
      var book := FindAvailableBook(books, bookId.value).value;
      match FindPending(orders, userId)
      case None =>
        var o := r.orders[|orders|];
        TotalSingle(o.items[0]);
        assert o.items == [o.items[0]];
        forall i, j | 0 <= i < j < |r.orders| && r.orders[i].status == Pending && r.orders[j].status == Pending
          ensures r.orders[i].userId != r.orders[j].userId
        {
          if j == |orders| {
            assert r.orders[i] == orders[i];
            assert !IsPendingOf(orders[i], userId);
          } else {
            assert r.orders[i] == orders[i] && r.orders[j] == orders[j];
          }
        }
        forall i | 0 <= i < |r.orders| ensures r.orders[i].totalAmount == Total(r.orders[i].items) {
          if i < |orders| { assert r.orders[i] == orders[i]; }
        }
      case Some(k) =>
        forall i, j | 0 <= i < j < |r.orders| && r.orders[i].status == Pending && r.orders[j].status == Pending
          ensures r.orders[i].userId != r.orders[j].userId
        {
          assert r.orders[i].status == orders[i].status && r.orders[i].userId == orders[i].userId;
          assert r.orders[j].status == orders[j].status && r.orders[j].userId == orders[j].userId;
        }
    }
  }

  /** The add-to-cart handler of the source, step by step against the store:
      validation, book lookup, find-or-create of the pending order, line
      update or insertion, a re-read of the lines and the total update. */
  method AddToCart(db: Database, caller: Option<Caller>, bookId: Option<Id>, quantity: Option<int>, now: int)
    returns (r: Reply<Id>)
    requires db.Valid()
    modifies db
    ensures db.Valid()
    ensures var s := AddToCartStep(old(db.books), old(db.orders), old(db.nextId), caller, bookId, quantity, now);
      r == s.reply && db.orders == s.orders && db.nextId == s.nextId
    ensures db.books == old(db.books) && db.users == old(db.users) && db.rentals == old(db.rentals)
  {
    if caller.None? {
      return Err(Unauthorized);
    }
    if bookId.None? || quantity.None? || quantity.value < 1 {
      return Err(BadRequest);
    }
    var userId, q := caller.value.userId, quantity.value;
    var found := FindAvailableBook(db.books, bookId.value);
    if found.None? {
      return Err(NotFound);
    }
    var book := found.value;
    var pending := FindPending(db.orders, userId);
    if pending.None? {
      var orderId := db.CreateOrder(userId, book.price * q, now, book.id, q, book.price);
      r := Ok(orderId);
    } else {
      var k := pending.value;
      r := Ok(db.orders[k].id);
      AddToPendingOrder(db, k, book, q);
    }
  }

  /** The branch of the handler for an existing pending order `k`: update or
      insert the book's line, re-read the lines, sum them, store the total. */
  method AddToPendingOrder(db: Database, k: nat, book: Book, q: int)
    requires db.Valid() && k < |db.orders|
    modifies db
    ensures db.Valid()
    ensures var items := MergeLine(old(db.orders[k].items), book, q, old(db.nextId));
      db.orders == old(db.orders[k := db.orders[k].(items := items, totalAmount := Total(items))])
    ensures db.nextId == if FindLine(old(db.orders[k].items), book.id).Some? then old(db.nextId) else old(db.nextId) + 1
    ensures db.books == old(db.books) && db.users == old(db.users) && db.rentals == old(db.rentals)
  {
    var order := db.orders[k];
    var existing := FindLine(order.items, book.id);
    if existing.Some? {
      var j := existing.value;
      db.UpdateItemQuantity(k, j, order.items[j].quantity + q);
    } else {
      var _ := db.CreateItem(k, book.id, q, book.price);
    }
    ghost var items := MergeLine(order.items, book, q, old(db.nextId));
    assert db.orders == old(db.orders)[k := order.(items := items)];
    var newTotal := SumLines(db.orders[k].items);
    db.SetTotal(k, newTotal);
  }

  /** Book A at price 100: adding 1 and then 2 leaves a single line of
      quantity 3 and a total of 300. */
  lemma AddTwiceScenario(caller: Caller, now: int)
    ensures var a := Book(1, "A", "X", "C", 2000, "", 100, 10, None, true);
      var r1 := AddToCartStep([a], [], 2, Some(caller), Some(1), Some(1), now);
      var r2 := AddToCartStep([a], r1.orders, r1.nextId, Some(caller), Some(1), Some(2), now);
      && |r2.orders| == 1
      && r2.orders[0].items == [OrderItem(3, 1, 3, 100)]
      && r2.orders[0].totalAmount == 300
  {
    var a := Book(1, "A", "X", "C", 2000, "", 100, 10, None, true);
    var r1 := AddToCartStep([a], [], 2, Some(caller), Some(1), Some(1), now);
    assert FindAvailableBook([a], 1) == Some(a);
    assert r1.orders == [Order(2, caller.userId, Pending, 100, now, [OrderItem(3, 1, 1, 100)])];
    assert FindPending(r1.orders, caller.userId) == Some(0);
    var items := [OrderItem(3, 1, 1, 100)];
    assert FindLine(items, 1) == Some(0);
    assert MergeLine(items, a, 2, 4) == [OrderItem(3, 1, 3, 100)];
    TotalSingle(OrderItem(3, 1, 3, 100));
  }
}
