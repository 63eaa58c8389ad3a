/** `GET /api/admin/books` (the whole catalog by title) and
    `POST /api/admin/books` (create a book from a JSON body once every
    required field is truthy). Both are for administrators only. */
module AdminBooks {
  import opened Domain
  import opened Store
  import opened Sorting

  /** The request body. A field is `None` when it is absent or `null`. */
  datatype BookInput = BookInput(
    title: Option<string>,
    author: Option<string>,
    category: Option<string>,
    year: Option<int>,
    description: Option<string>,
    price: Option<int>,
    rentalPrice: Option<int>,
    imageUrl: Option<string>,
    isAvailable: Option<bool>)

  /** The checked fields, in the order the handler checks them. */
  const RequiredFields: seq<string> := ["title", "author", "category", "year", "description", "price", "rentalPrice"]

  predicate TruthyInt(v: Option<int>)
  {
    v.Some? && v.value != 0
  }

  /** `!!bookData[field]` for a required field; any other name is absent. */
  predicate Present(input: BookInput, field: string)
  {
    match field
    case "title" => TruthyStr(input.title)
    case "author" => TruthyStr(input.author)
    case "category" => TruthyStr(input.category)
    case "year" => TruthyInt(input.year)
    case "description" => TruthyStr(input.description)
    case "price" => TruthyInt(input.price)
    case "rentalPrice" => TruthyInt(input.rentalPrice)
    case _ => false
  }

  /** Every required field is truthy. */
  predicate AllPresent(input: BookInput)
  {
    && TruthyStr(input.title) && TruthyStr(input.author) && TruthyStr(input.category)
    && TruthyInt(input.year) && TruthyStr(input.description)
    && TruthyInt(input.price) && TruthyInt(input.rentalPrice)
  }

  /** The first of `fields` that is not present, if any. */
  function FirstMissing(input: BookInput, fields: seq<string>): (r: Option<string>)
    ensures r.None? <==> forall i :: 0 <= i < |fields| ==> Present(input, fields[i])
    ensures r.Some? ==> exists k :: (0 <= k < |fields| && fields[k] == r.value && !Present(input, r.value)
      && forall i :: 0 <= i < k ==> Present(input, fields[i]))
  {
    if fields == [] then None
    else if !Present(input, fields[0]) then Some(fields[0])
    else
      var rest := FirstMissing(input, fields[1..]);
      assert rest.Some? ==> exists k :: (0 <= k < |fields| && fields[k] == rest.value && !Present(input, rest.value)
        && forall i :: 0 <= i < k ==> Present(input, fields[i])) by {
        if rest.Some? {
          var k :| 0 <= k < |fields[1..]| && fields[1..][k] == rest.value && !Present(input, rest.value)
            && forall i :: 0 <= i < k ==> Present(input, fields[1..][i]);
          assert fields[k + 1] == rest.value && forall i :: 0 <= i < k + 1 ==> Present(input, fields[i]);
        }
      }
      rest
  }

  /** The `for (const field of requiredFields)` loop. */
  method FindMissingField(input: BookInput) returns (r: Option<string>)
    ensures r == FirstMissing(input, RequiredFields)
  {
    var i := 0;
    while i < |RequiredFields|
      invariant 0 <= i <= |RequiredFields|
      invariant FirstMissing(input, RequiredFields) == FirstMissing(input, RequiredFields[i..])
    {
      var field := RequiredFields[i];
      if !Present(input, field) {
        return Some(field);
      }
      assert RequiredFields[i..][1..] == RequiredFields[i + 1..];
      i := i + 1;
    }
    return None;
  }

  /** Checking the list of required fields one by one is checking all seven. */
  lemma CheckedFieldsAreAll(input: BookInput)
    ensures FirstMissing(input, RequiredFields).None? <==> AllPresent(input)
  {
    var f := RequiredFields;
    assert f[0] == "title" && f[1] == "author" && f[2] == "category" && f[3] == "year";
    assert f[4] == "description" && f[5] == "price" && f[6] == "rentalPrice";
  }

  /** The row `book.create` receives: `imageUrl || null` and
      `isAvailable ?? true`. The id is filled in by the store. */
  function NewBook(input: BookInput): (b: Book)
    requires AllPresent(input)
    ensures b.title == input.title.value && b.author == input.author.value && b.category == input.category.value
    ensures b.year == input.year.value && b.description == input.description.value
    ensures b.price == input.price.value && b.rentalPrice == input.rentalPrice.value
    ensures b.imageUrl.Some? <==> TruthyStr(input.imageUrl)
    ensures b.imageUrl.Some? ==> b.imageUrl == input.imageUrl
    ensures b.isAvailable <==> input.isAvailable != Some(false)
  {
    Book(0, input.title.value, input.author.value, input.category.value, input.year.value,
         input.description.value, input.price.value, input.rentalPrice.value,
         if TruthyStr(input.imageUrl) then input.imageUrl else None,
         if input.isAvailable.Some? then input.isAvailable.value else true)
  }

  /** The reply of `POST`: 201 with the row, 403, or 400 naming a field. */
  datatype CreateReply = Created(book: Book) | Denied | MissingField(field: string)

  function CreateStatus(r: CreateReply): (code: int)
    ensures r.Created? <==> code == 201
  {
    match r
    case Created(_) => 201
    case Denied => HttpStatus(Forbidden)
    case MissingField(_) => HttpStatus(BadRequest)
  }

  datatype CreateOutcome = CreateOutcome(reply: CreateReply, books: seq<Book>, nextId: nat)

  /** What `POST /api/admin/books` does to the catalog. */
  function CreateBookStep(books: seq<Book>, nextId: nat, caller: Option<Caller>, input: BookInput): (r: CreateOutcome)
    ensures !IsAdmin(caller) ==> r == CreateOutcome(Denied, books, nextId)
    ensures r.reply.MissingField? ==> (IsAdmin(caller) && r.reply.field in RequiredFields
      && !Present(input, r.reply.field) && r.books == books && r.nextId == nextId)
    ensures r.reply.Created? ==> (IsAdmin(caller)
      && AllPresent(input)
      && r.reply.book == NewBook(input).(id := nextId)
      && r.books == books + [r.reply.book] && r.nextId == nextId + 1)
    ensures IsAdmin(caller) && AllPresent(input) ==> r.reply.Created?
    ensures r.reply.MissingField? ==> FirstMissing(input, RequiredFields) == Some(r.reply.field)
    ensures IsAdmin(caller) && !AllPresent(input) ==> r.reply.MissingField?
  {
    CheckedFieldsAreAll(input);
    if !IsAdmin(caller) then CreateOutcome(Denied, books, nextId)
    else match FirstMissing(input, RequiredFields)
      case Some(field) => CreateOutcome(MissingField(field), books, nextId)
      case None =>
        var b := NewBook(input).(id := nextId);
        CreateOutcome(Created(b), books + [b], nextId + 1)
  }

  /** Creating a book keeps every id distinct and below the generator, and
      the new row is the only change to the catalog. */
  lemma CreatePreservesIds(books: seq<Book>, nextId: nat, caller: Option<Caller>, input: BookInput)
    requires BookIdsValid(books, nextId)
    ensures var r := CreateBookStep(books, nextId, caller, input);
      BookIdsValid(r.books, r.nextId) && r.books[..|books|] == books
  {
    var r := CreateBookStep(books, nextId, caller, input);
    assert r.books[..|books|] == books;
  }

  /** A body without a title is refused with the title named, whatever else
      it holds; a body whose only falsy field is the price names the price. */
  lemma MissingFieldScenario(caller: Caller, input: BookInput)
    requires caller.role == Admin
    ensures input.title.None? ==> CreateBookStep([], 0, Some(caller), input).reply == MissingField("title")
    ensures (TruthyStr(input.title) && TruthyStr(input.author) && TruthyStr(input.category)
             && TruthyInt(input.year) && TruthyStr(input.description) && input.price == Some(0))
      ==> CreateBookStep([], 0, Some(caller), input).reply == MissingField("price")
  {
    var f := RequiredFields;
    assert f[0] == "title" && f[1] == "author" && f[2] == "category" && f[3] == "year";
    assert f[4] == "description" && f[5] == "price";
  }

  /** The `GET` reply: the whole catalog, by title. */
  function ListAllBooks(books: seq<Book>, caller: Option<Caller>): (r: Reply<seq<Book>>)
    ensures !IsAdmin(caller) ==> r == Err(Forbidden)
    ensures IsAdmin(caller) ==> (r.Ok? && multiset(r.value) == multiset(books) && SortedAscByStr(r.value, BookTitle))
  {
    if !IsAdmin(caller) then Err(Forbidden) else Ok(SortAscByStr(books, BookTitle))
  }

  /** The create handler against the store. */
  method CreateBook(db: Database, caller: Option<Caller>, input: BookInput) returns (r: CreateReply)
    requires db.Valid()
    modifies db
    ensures db.Valid()
    ensures var s := CreateBookStep(old(db.books), old(db.nextId), caller, input);
      r == s.reply && db.books == s.books && db.nextId == s.nextId
    ensures db.users == old(db.users) && db.orders == old(db.orders) && db.rentals == old(db.rentals)
  {
    if !IsAdmin(caller) {
      return Denied;
    }
    var missing := FindMissingField(input);
    if missing.Some? {
      return MissingField(missing.value);
    }
    CheckedFieldsAreAll(input);
    var created := db.CreateBook(NewBook(input));
    r := Created(created);
  }
}
