/** The database as an in-memory store. Each table is a sequence of rows;
    `nextId` stands for the id generator, so a created row always gets an id
    that no row has yet. The methods are the handful of ORM calls the route
    handlers issue; each changes exactly what its `ensures` says. */
module Store {
  import opened Domain

  /** `rental.updateMany({ where: { id: { in: ids } }, data: { reminderSent: true } })`. */
  function WithReminderSent(rentals: seq<Rental>, ids: set<Id>): (r: seq<Rental>)
    ensures |r| == |rentals|
    ensures forall i :: 0 <= i < |r| ==>
      r[i] == if rentals[i].id in ids then rentals[i].(reminderSent := true) else rentals[i]
  {
    seq(|rentals|, i requires 0 <= i < |rentals| =>
      if rentals[i].id in ids then rentals[i].(reminderSent := true) else rentals[i])
  }

  class Database {
    var books: seq<Book>
    var users: seq<User>
    var orders: seq<Order>
    var rentals: seq<Rental>
    var nextId: nat

    ghost predicate Valid()
      reads this
    {
      && BookIdsValid(books, nextId)
      && OrderIdsValid(orders, nextId)
      && RentalIdsValid(rentals, nextId)
    }

    /** A database holding the given catalog and users and no orders or rentals. */
    constructor (books: seq<Book>, users: seq<User>, nextId: nat)
      requires BookIdsValid(books, nextId)
      ensures Valid()
      ensures this.books == books && this.users == users && this.nextId == nextId
      ensures orders == [] && rentals == []
    {
      this.books := books;
      this.users := users;
      this.nextId := nextId;
      orders := [];
      rentals := [];
    }

    /** `order.create` with one nested `orderItems.create`. */
    method CreateOrder(userId: Id, totalAmount: int, createdAt: int, bookId: Id, quantity: int, price: int)
      returns (id: Id)
      requires Valid()
      modifies this
      ensures Valid()
      ensures id == old(nextId) && nextId == old(nextId) + 2
      ensures orders == old(orders) +
        [Order(id, userId, Pending, totalAmount, createdAt, [OrderItem(id + 1, bookId, quantity, price)])]
      ensures books == old(books) && users == old(users) && rentals == old(rentals)
    {
      id := nextId;
      orders := orders + [Order(id, userId, Pending, totalAmount, createdAt, [OrderItem(id + 1, bookId, quantity, price)])];
      nextId := nextId + 2;
    }

    /** `orderItem.update({ where: { id }, data: { quantity } })` on line `j`
        of order `k`. */
    method UpdateItemQuantity(k: nat, j: nat, quantity: int)
      requires Valid() && k < |orders| && j < |orders[k].items|
      modifies this
      ensures Valid()
      ensures orders == old(orders[k := orders[k].(items := orders[k].items[j := orders[k].items[j].(quantity := quantity)])])
      ensures books == old(books) && users == old(users) && rentals == old(rentals) && nextId == old(nextId)
    {
      var o := orders[k];
      orders := orders[k := o.(items := o.items[j := o.items[j].(quantity := quantity)])];
    }

    /** `orderItem.create` appending a line to order `k`. */
    method CreateItem(k: nat, bookId: Id, quantity: int, price: int) returns (itemId: Id)
      requires Valid() && k < |orders|
      modifies this
      ensures Valid()
      ensures itemId == old(nextId) && nextId == old(nextId) + 1
      ensures orders == old(orders[k := orders[k].(items := orders[k].items + [OrderItem(nextId, bookId, quantity, price)])])
      ensures books == old(books) && users == old(users) && rentals == old(rentals)
    {
      itemId := nextId;
      var o := orders[k];
      orders := orders[k := o.(items := o.items + [OrderItem(itemId, bookId, quantity, price)])];
      nextId := nextId + 1;
    }

    /** `order.update({ data: { totalAmount } })` on order `k`. */
    method SetTotal(k: nat, totalAmount: int)
      requires Valid() && k < |orders|
      modifies this
      ensures Valid()
      ensures orders == old(orders[k := orders[k].(totalAmount := totalAmount)])
      ensures books == old(books) && users == old(users) && rentals == old(rentals) && nextId == old(nextId)
    {
      orders := orders[k := orders[k].(totalAmount := totalAmount)];
    }

    /** `order.update({ data: { status } })` on order `k`. */
    method SetStatus(k: nat, status: OrderStatus)
      requires Valid() && k < |orders|
      modifies this
      ensures Valid()
      ensures orders == old(orders[k := orders[k].(status := status)])
      ensures books == old(books) && users == old(users) && rentals == old(rentals) && nextId == old(nextId)
    {
      orders := orders[k := orders[k].(status := status)];
    }

    /** `rental.create`; the start and creation times are the current instant. */
    method CreateRental(userId: Id, bookId: Id, now: int, endDate: int, period: string)
      returns (id: Id)
      requires Valid()
      modifies this
      ensures Valid()
      ensures id == old(nextId) && nextId == old(nextId) + 1
      ensures rentals == old(rentals) + [Rental(id, userId, bookId, now, endDate, period, false, false, now)]
      ensures books == old(books) && users == old(users) && orders == old(orders)
    {
      id := nextId;
      rentals := rentals + [Rental(id, userId, bookId, now, endDate, period, false, false, now)];
      nextId := nextId + 1;
    }

    /** `rental.updateMany` setting `reminderSent` on the rentals with the given ids. */
    method MarkReminded(ids: set<Id>)
      requires Valid()
      modifies this
      ensures Valid()
      ensures rentals == WithReminderSent(old(rentals), ids)
      ensures books == old(books) && users == old(users) && orders == old(orders) && nextId == old(nextId)
    {
      rentals := WithReminderSent(rentals, ids);
    }

    /** `book.create`; the row gets a fresh id. */
    method CreateBook(b: Book) returns (created: Book)
      requires Valid()
      modifies this
      ensures Valid()
      ensures created == b.(id := old(nextId)) && nextId == old(nextId) + 1
      ensures books == old(books) + [created]
      ensures users == old(users) && orders == old(orders) && rentals == old(rentals)
    {
      created := b.(id := nextId);
      books := books + [created];
      nextId := nextId + 1;
    }
  }
}
