/** `GET /api/rentals` (the caller's rentals, newest first) and
    `POST /api/rentals` (rent an available book for a period, at most one
    un-returned rental per user and book). */
module Rentals {
  import opened Domain
  import opened Store
  import opened Sorting
  import Seqs

  /** The day offset of `getEndDate`'s `switch`; any other value falls back
      to two weeks. */
  function PeriodDays(period: string): (d: int)
    ensures period == "ONE_MONTH" ==> d == 30
    ensures period == "THREE_MONTHS" ==> d == 90
    ensures period != "ONE_MONTH" && period != "THREE_MONTHS" ==> d == 14
  {
    match period
    case "TWO_WEEKS" => 14
    case "ONE_MONTH" => 30
    case "THREE_MONTHS" => 90
    case _ => 14
  }

  /** `getEndDate(period)` evaluated at the instant `now`. Whatever the
      period, the rental ends at least two weeks after it starts. */
  function EndDate(period: string, now: int): (end: int)
    ensures end >= now + 14 * DayMs > now
    ensures end == now + 14 * DayMs || end == now + 30 * DayMs || end == now + 90 * DayMs
  {
    AddDays(now, PeriodDays(period))
  }

  predicate IsActiveFor(r: Rental, userId: Id, bookId: Id)
  {
    r.userId == userId && r.bookId == bookId && !r.isReturned
  }

  /** At most one un-returned rental per (user, book). */
  ghost predicate OneActivePerPair(rentals: seq<Rental>)
  {
    forall i, j :: 0 <= i < j < |rentals| && !rentals[i].isReturned && !rentals[j].isReturned ==>
      rentals[i].userId != rentals[j].userId || rentals[i].bookId != rentals[j].bookId
  }

  /** `rental.findFirst({ where: { userId, bookId, isReturned: false } })`. */
  function FindActive(rentals: seq<Rental>, userId: Id, bookId: Id): (k: Option<nat>)
    ensures k.Some? ==> k.value < |rentals| && IsActiveFor(rentals[k.value], userId, bookId)
    ensures k.None? ==> forall i :: 0 <= i < |rentals| ==> !IsActiveFor(rentals[i], userId, bookId)
    decreases |rentals|
  {
    if rentals == [] then None
    else
      var last := |rentals| - 1;
      if IsActiveFor(rentals[last], userId, bookId) then Some(last)
      else FindActive(rentals[..last], userId, bookId)
  }

  datatype RentOutcome = RentOutcome(reply: Reply<Id>, rentals: seq<Rental>, nextId: nat)

  /** What `POST /api/rentals` does to the rental table. */
  function RentStep(books: seq<Book>, rentals: seq<Rental>, nextId: nat, caller: Option<Caller>,
                    bookId: Option<Id>, period: Option<string>, now: int): (r: RentOutcome)
    ensures caller.None? ==> r == RentOutcome(Err(Unauthorized), rentals, nextId)
    ensures caller.Some? && (bookId.None? || period.None? || period.value == "") ==>
      r == RentOutcome(Err(BadRequest), rentals, nextId)
    ensures (caller.Some? && bookId.Some? && period.Some? && period.value != ""
             && forall b :: b in books ==> !(b.id == bookId.value && b.isAvailable)) ==>
      r == RentOutcome(Err(NotFound), rentals, nextId)
    ensures r.reply.Err? ==> r.rentals == rentals && r.nextId == nextId
    ensures r.reply.Ok? ==> (caller.Some? && bookId.Some? && period.Some?
      && (exists b :: b in books && b.id == bookId.value && b.isAvailable)
      && (forall i :: 0 <= i < |rentals| ==> !IsActiveFor(rentals[i], caller.value.userId, bookId.value))
      && r.reply.value == nextId && r.nextId == nextId + 1
      && r.rentals == rentals + [Rental(nextId, caller.value.userId, bookId.value, now,
                                        EndDate(period.value, now), period.value, false, false, now)])
    ensures (caller.Some? && bookId.Some? && period.Some? && period.value != ""
             && (exists b :: b in books && b.id == bookId.value && b.isAvailable)
             && forall i :: 0 <= i < |rentals| ==> !IsActiveFor(rentals[i], caller.value.userId, bookId.value)) ==>
      r.reply == Ok(nextId)
  {
    if caller.None? then RentOutcome(Err(Unauthorized), rentals, nextId)
    else if bookId.None? || period.None? || period.value == "" then RentOutcome(Err(BadRequest), rentals, nextId)
    else
      var userId := caller.value.userId;
      match FindAvailableBook(books, bookId.value)
      case None => RentOutcome(Err(NotFound), rentals, nextId)
      case Some(book) =>
        if FindActive(rentals, userId, book.id).Some? then RentOutcome(Err(BadRequest), rentals, nextId)
        else
          var rental := Rental(nextId, userId, book.id, now, EndDate(period.value, now), period.value, false, false, now);
          RentOutcome(Ok(nextId), rentals + [rental], nextId + 1)
  }

  /** Renting the same book again before returning it answers 400. */
  lemma RentRejectsDuplicate(books: seq<Book>, rentals: seq<Rental>, nextId: nat, caller: Caller,
                             bookId: Id, period: string, now: int, i: nat)
    requires period != "" && exists b :: b in books && b.id == bookId && b.isAvailable
    requires i < |rentals| && IsActiveFor(rentals[i], caller.userId, bookId)
    ensures RentStep(books, rentals, nextId, Some(caller), Some(bookId), Some(period), now)
      == RentOutcome(Err(BadRequest), rentals, nextId)
  {
    var f := FindAvailableBook(books, bookId);
    assert f.Some?;
  }

  /** Successful or not, a rent request keeps "at most one active rental per
      (user, book)". */
  lemma RentPreservesOneActive(books: seq<Book>, rentals: seq<Rental>, nextId: nat, caller: Option<Caller>,
                               bookId: Option<Id>, period: Option<string>, now: int)
    requires OneActivePerPair(rentals)
    ensures OneActivePerPair(RentStep(books, rentals, nextId, caller, bookId, period, now).rentals)
  {
    var r := RentStep(books, rentals, nextId, caller, bookId, period, now);
    if r.reply.Ok? {
      var n := |rentals|;
      forall i, j | 0 <= i < j < |r.rentals| && !r.rentals[i].isReturned && !r.rentals[j].isReturned
        ensures r.rentals[i].userId != r.rentals[j].userId || r.rentals[i].bookId != r.rentals[j].bookId
      {
        assert r.rentals[i] == rentals[i];
        if j < n {
          assert r.rentals[j] == rentals[j];
        } else {
          assert !IsActiveFor(rentals[i], caller.value.userId, bookId.value);
        }
      }
    }
  }

  /** Renting for ONE_MONTH at `now` ends 30 days later; a second request for
      the same book by the same user is refused and adds nothing. */
  lemma RentOneMonthScenario(caller: Caller, now: int)
    ensures var b := Book(7, "B", "Y", "C", 1999, "", 500, 50, None, true);
      var r1 := RentStep([b], [], 8, Some(caller), Some(7), Some("ONE_MONTH"), now);
      var r2 := RentStep([b], r1.rentals, r1.nextId, Some(caller), Some(7), Some("ONE_MONTH"), now);
      && r1.reply == Ok(8)
      && r1.rentals[0].endDate == now + 30 * DayMs
      && r2 == RentOutcome(Err(BadRequest), r1.rentals, r1.nextId)
  {
    var b := Book(7, "B", "Y", "C", 1999, "", 500, 50, None, true);
    assert FindAvailableBook([b], 7) == Some(b);
    var r1 := RentStep([b], [], 8, Some(caller), Some(7), Some("ONE_MONTH"), now);
    RentRejectsDuplicate([b], r1.rentals, r1.nextId, caller, 7, "ONE_MONTH", now, 0);
  }

  function RentalCreatedAt(r: Rental): int
  {
    r.createdAt
  }

  /** The caller's rentals in table order (`where: { userId }`). */
  function RentalsOf(rentals: seq<Rental>, userId: Id): (r: seq<Rental>)
    ensures forall x :: x in r <==> x in rentals && x.userId == userId
  {
    Seqs.Filter(rentals, (x: Rental) => x.userId == userId)
  }

  /** The `GET` reply: exactly the caller's rentals, newest first. */
  function ListRentals(rentals: seq<Rental>, caller: Option<Caller>): (r: Reply<seq<Rental>>)
    ensures caller.None? ==> r == Err(Unauthorized)
    ensures caller.Some? ==> (r.Ok?
      && multiset(r.value) == multiset(RentalsOf(rentals, caller.value.userId))
      && SortedDescBy(r.value, RentalCreatedAt))
    ensures r.Ok? ==> forall x :: x in r.value <==> x in rentals && x.userId == caller.value.userId
  {
    if caller.None? then Err(Unauthorized)
    else
      var mine := RentalsOf(rentals, caller.value.userId);
      var sorted := SortDescBy(mine, RentalCreatedAt);
      PermutationMembers(sorted, mine);
      Ok(sorted)
  }

  /** The rent handler against the store. */
  method Rent(db: Database, caller: Option<Caller>, bookId: Option<Id>, period: Option<string>, now: int)
    returns (r: Reply<Id>)
    requires db.Valid()
    modifies db
    ensures db.Valid()
    ensures var s := RentStep(old(db.books), old(db.rentals), old(db.nextId), caller, bookId, period, now);
      r == s.reply && db.rentals == s.rentals && db.nextId == s.nextId
    ensures db.books == old(db.books) && db.users == old(db.users) && db.orders == old(db.orders)
  {
    if caller.None? {
      return Err(Unauthorized);
    }
    if bookId.None? || period.None? || period.value == "" {
      return Err(BadRequest);
    }
    var userId := caller.value.userId;
    var found := FindAvailableBook(db.books, bookId.value);
    if found.None? {
      return Err(NotFound);
    }
    var book := found.value;
    var existing := FindActive(db.rentals, userId, book.id);
    if existing.Some? {
      return Err(BadRequest);
    }
    var endDate := EndDate(period.value, now);
    var id := db.CreateRental(userId, book.id, now, endDate, period.value);
    r := Ok(id);
  }
}
