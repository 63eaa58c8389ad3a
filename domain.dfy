/** The bookstore's entities (books, users, orders with their line items,
    rentals), the caller identity that the session provides, and the error
    statuses the route handlers answer with. Money is an integer amount, as
    in the seed data; time is an integer number of milliseconds. */
module Domain {

  type Id = nat

  datatype Option<T> = None | Some(value: T)

  /** The role carried by the session token (`"ADMIN"` or `"USER"`). */
  datatype Role = Admin | Customer

  /** The signed-in user as the session gives it. A handler sees
      `Option<Caller>`: `None` is "no session". */
  datatype Caller = Caller(userId: Id, role: Role)

  /** `session && session.user.role === "ADMIN"`. */
  predicate IsAdmin(caller: Option<Caller>)
  {
    caller.Some? && caller.value.role == Admin
  }

  /** Error replies of the handlers; `HttpStatus` gives their codes. */
  datatype ErrorCode = BadRequest | Unauthorized | Forbidden | NotFound

  function HttpStatus(e: ErrorCode): (code: int)
    ensures 400 <= code < 500
  {
    match e
    case BadRequest => 400
    case Unauthorized => 401
    case Forbidden => 403
    case NotFound => 404
  }

  /** A JSON reply: a success body or an error status. */
  datatype Reply<T> = Ok(value: T) | Err(code: ErrorCode)

  /** One day in milliseconds: `addDays(t, n)` is `t + n * DayMs`. */
  const DayMs: int := 86_400_000

  function AddDays(t: int, n: int): (r: int)
    ensures n > 0 ==> r > t
  {
    t + n * DayMs
  }

  datatype Book = Book(
    id: Id,
    title: string,
    author: string,
    category: string,
    year: int,
    description: string,
    price: int,
    rentalPrice: int,
    imageUrl: Option<string>,
    isAvailable: bool)

  datatype User = User(id: Id, name: string, email: string, role: Role)

  datatype OrderStatus = Pending | Paid | Cancelled

  /** A line of an order; `price` is the book's price when the line was
      created, not the book's current price. */
  datatype OrderItem = OrderItem(id: Id, bookId: Id, quantity: int, price: int)

  datatype Order = Order(
    id: Id,
    userId: Id,
    status: OrderStatus,
    totalAmount: int,
    createdAt: int,
    items: seq<OrderItem>)

  datatype Rental = Rental(
    id: Id,
    userId: Id,
    bookId: Id,
    startDate: int,
    endDate: int,
    rentalPeriod: string,
    isReturned: bool,
    reminderSent: bool,
    createdAt: int)

  function LineAmount(item: OrderItem): int
  {
    item.price * item.quantity
  }

  /** No line has a negative price or quantity. */
  predicate NonNegativeLines(items: seq<OrderItem>)
  {
    forall i :: 0 <= i < |items| ==> items[i].price >= 0 && items[i].quantity >= 0
  }

  /** Σ price × quantity over the lines, the `reduce` the handlers and the
      cart page run from the left starting at 0. */
  function Total(items: seq<OrderItem>): (t: int)
    ensures items == [] ==> t == 0
  {
    if items == [] then 0
    else Total(items[..|items| - 1]) + LineAmount(items[|items| - 1])
  }

  lemma {:induction false} TotalConcat(a: seq<OrderItem>, b: seq<OrderItem>)
    ensures Total(a + b) == Total(a) + Total(b)
    decreases |b|
  {
    if b == [] {
      assert a + b == a;
    } else {
      var b' := b[..|b| - 1];
      assert (a + b)[..|a + b| - 1] == a + b';
      TotalConcat(a, b');
    }
  }

  /** Replacing one line changes the total by the difference of the two
      line amounts and by nothing else. */
  lemma TotalUpdate(items: seq<OrderItem>, j: nat, x: OrderItem)
    requires j < |items|
    ensures Total(items[j := x]) == Total(items) - LineAmount(items[j]) + LineAmount(x)
  {
    var pre, post := items[..j], items[j + 1..];
    assert items == pre + [items[j]] + post;
    assert items[j := x] == pre + [x] + post;
    TotalConcat(pre + [items[j]], post);
    TotalConcat(pre + [x], post);
    TotalConcat(pre, [items[j]]);
    TotalConcat(pre, [x]);
    assert Total([x]) == LineAmount(x) by { assert [x][..0] == []; }
    assert Total([items[j]]) == LineAmount(items[j]) by { assert [items[j]][..0] == []; }
  }

  /** With no negative price or quantity, the total is not negative. */
  lemma {:induction false} TotalNonNegative(items: seq<OrderItem>)
    requires NonNegativeLines(items)
    ensures Total(items) >= 0
  {
    if items != [] {
      var init := items[..|items| - 1];
      assert NonNegativeLines(init) by {
        assert forall i :: 0 <= i < |init| ==> init[i] == items[i];
      }
      TotalNonNegative(init);
      var x := items[|items| - 1];
      assert x.price >= 0 && x.quantity >= 0;
      assert LineAmount(x) >= 0;
    }
  }

  /** A single line's total is its amount. */
  lemma TotalSingle(x: OrderItem)
    ensures Total([x]) == x.price * x.quantity
  {
    assert [x][..0] == [];
  }

  /** `findUnique({ where: { id, isAvailable: true } })` on the book table.
      With distinct book ids, the answer is the book itself. */
  function FindAvailableBook(books: seq<Book>, id: Id): (r: Option<Book>)
    ensures r.Some? ==> r.value in books && r.value.id == id && r.value.isAvailable
    ensures r.None? ==> forall b :: b in books ==> !(b.id == id && b.isAvailable)
  {
    if books == [] then None
    else if books[0].id == id && books[0].isAvailable then Some(books[0])
    else
      assert forall b :: b in books ==> b == books[0] || b in books[1..];
      FindAvailableBook(books[1..], id)
  }

  /** The sort key of every title-ordered listing. */
  function BookTitle(b: Book): string
  {
    b.title
  }

  /** JavaScript truthiness of an optional string: present and non-empty. */
  predicate TruthyStr(v: Option<string>)
  {
    v.Some? && v.value != ""
  }

  /** Ids of one table: all below `next` (so `next` is fresh) and distinct. */
  ghost predicate BookIdsValid(books: seq<Book>, next: nat)
  {
    && (forall i :: 0 <= i < |books| ==> books[i].id < next)
    && (forall i, j :: 0 <= i < j < |books| ==> books[i].id != books[j].id)
  }

  ghost predicate OrderIdsValid(orders: seq<Order>, next: nat)
  {
    && (forall i :: 0 <= i < |orders| ==> orders[i].id < next)
    && (forall i, j :: 0 <= i < j < |orders| ==> orders[i].id != orders[j].id)
    && (forall i, j :: 0 <= i < |orders| && 0 <= j < |orders[i].items| ==> orders[i].items[j].id < next)
  }

  ghost predicate RentalIdsValid(rentals: seq<Rental>, next: nat)
  {
    && (forall i :: 0 <= i < |rentals| ==> rentals[i].id < next)
    && (forall i, j :: 0 <= i < j < |rentals| ==> rentals[i].id != rentals[j].id)
  }
}
