/** The admin catalog page (`/admin/books`): the list from
    `GET /api/admin/books`, the availability toggle and the delete button,
    each mirrored in the local list after a successful request. The
    server's answer is a parameter `ok`, the confirmation dialog's answer a
    parameter `confirmed`. */
module AdminBooksPage {
  import opened Domain
  import Seqs

  datatype Request = PatchAvailability(bookId: Id, isAvailable: bool) | DeleteBook(bookId: Id)

  /** `books.map(book => book.id === id ? { ...book, isAvailable } : book)`. */
  function WithAvailability(books: seq<Book>, id: Id, isAvailable: bool): (r: seq<Book>)
    ensures |r| == |books|
    ensures forall i :: 0 <= i < |r| ==>
      r[i] == if books[i].id == id then books[i].(isAvailable := isAvailable) else books[i]
  {
    seq(|books|, i requires 0 <= i < |books| =>
      if books[i].id == id then books[i].(isAvailable := isAvailable) else books[i])
  }

  /** `books.filter(book => book.id !== id)`. */
  function WithoutBook(books: seq<Book>, id: Id): (r: seq<Book>)
    ensures forall b :: b in r <==> b in books && b.id != id
  {
    Seqs.Filter(books, (b: Book) => b.id != id)
  }

  /** Toggling twice, each time from the value the list shows, gives back
      the list. */
  lemma ToggleTwiceRestores(books: seq<Book>, id: Id, current: bool)
    requires forall i :: 0 <= i < |books| && books[i].id == id ==> books[i].isAvailable == current
    ensures WithAvailability(WithAvailability(books, id, !current), id, current) == books
  {
    var twice := WithAvailability(WithAvailability(books, id, !current), id, current);
    assert forall i :: 0 <= i < |books| ==> twice[i] == books[i];
  }

  /** A delete keeps every other book, in order, and only those. */
  lemma DeleteKeepsOthers(books: seq<Book>, id: Id)
    ensures Seqs.Subsequence(WithoutBook(books, id), books)
    ensures |WithoutBook(books, id)| + Seqs.Count(books, (b: Book) => b.id == id) == |books|
  {
    Seqs.FilterIsSubsequence(books, (b: Book) => b.id != id);
    Seqs.FilterPartition(books, (b: Book) => b.id != id, (b: Book) => b.id == id);
  }

  class AdminBooksPageState {
    var books: seq<Book>
    var error: bool
    var sent: seq<Request>

    /** The effect of `fetchBooks`; `loaded` is `None` when it failed. */
    constructor (loaded: Option<seq<Book>>)
      ensures books == (if loaded.Some? then loaded.value else [])
      ensures error == loaded.None? && sent == []
    {
      books := if loaded.Some? then loaded.value else [];
      error := loaded.None?;
      sent := [];
    }

    /** `handleToggleAvailability(id, currentStatus)`: the new value is the
        negation of the one passed in. */
    method ToggleAvailability(id: Id, currentStatus: bool, ok: bool)
      modifies this
      ensures sent == old(sent) + [PatchAvailability(id, !currentStatus)]
      ensures books == if ok then WithAvailability(old(books), id, !currentStatus) else old(books)
      ensures error == old(error)
    {
      sent := sent + [PatchAvailability(id, !currentStatus)];
      if ok {
        books := WithAvailability(books, id, !currentStatus);
      }
    }

    /** `handleDeleteBook(id)`: nothing happens unless confirmed. */
    method DeleteBook(id: Id, confirmed: bool, ok: bool)
      modifies this
      ensures !confirmed ==> sent == old(sent) && books == old(books)
      ensures confirmed ==> (sent == old(sent) + [Request.DeleteBook(id)]
        && books == if ok then WithoutBook(old(books), id) else old(books))
      ensures error == old(error)
    {
      if !confirmed {
        return;
      }
      sent := sent + [Request.DeleteBook(id)];
      if ok {
        books := WithoutBook(books, id);
      }
    }
  }
}
