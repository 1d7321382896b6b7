/**
 * The handlers of the reading-list service acting on the book collection,
 * with the file replaced by a sequence held in memory. Each method is one
 * handler: it scans, checks the request and changes the collection only on
 * success.
 */
module Store {
  import opened Wrappers
  import opened Books
  import opened Requests

  /** A handler's answer: the record it returns, or why it refused. */
  datatype Response =
    | Created(book: Book)
    | Found(book: Book)
    | Updated(book: Book)
    | Deleted(book: Book)
    | Failed(error: Error)
  {
    function HttpStatus(): (code: int)
      ensures code == 201 <==> Created?
      ensures code == 200 <==> Found? || Updated? || Deleted?
      ensures Failed? ==> code == error.HttpStatus()
    {
      match this
      case Created(_) => 201
      case Failed(e) => e.HttpStatus()
      case _ => 200
    }
  }

  /**
   * The field assignments `update_book` makes on its copy of a record, in
   * the source's order; the first failing step abandons the copy.
   */
  method ApplyChanges(book: Book, data: map<Key, Json>, now: string) returns (r: Result<Book, Error>)
    ensures r == Merge(book, data, now)
  {
    var updated := book;
    if Title in data {
      var title := StripField(data[Title]);
      if title.Err? {
        return Err(title.error);
      }
      updated := updated.(title := title.value);
    }
    if Author in data {
      var author := StripField(data[Author]);
      if author.Err? {
        return Err(author.error);
      }
      updated := updated.(author := author.value);
    }
    if Rate in data {
      var rate := CheckRate(data[Rate]);
      if rate.Err? {
        return Err(rate.error);
      }
      updated := updated.(rate := rate.value);
    }
    if Status in data {
      var status := StripField(data[Status]);
      if status.Err? {
        return Err(status.error);
      }
      updated := updated.(status := status.value);
    }
    return Ok(updated.(updatedAt := Some(now)));
  }

  class BookStore {
    /** The collection, in insertion order. */
    var books: seq<Book>

    /** A store holding what `load_books` read. */
    constructor (initial: seq<Book>)
      ensures books == initial
    {
      books := initial;
    }

    /** `find_book_by_id`: the first record carrying `id`. */
    method FindById(id: int) returns (r: Option<Book>)
      ensures r.None? <==> !HasId(books, id)
      ensures r.Some? ==> r == Some(books[FirstIndex(books, id).value])
    {
      var i := 0;
      while i < |books|
        invariant 0 <= i <= |books|
        invariant forall k :: 0 <= k < i ==> books[k].id != id
      {
        if books[i].id == id {
          return Some(books[i]);
        }
        i := i + 1;
      }
      return None;
    }

    /** The `enumerate` scan with `break` of `update_book` and `delete_book`. */
    method IndexOf(id: int) returns (idx: Option<nat>)
      ensures idx == FirstIndex(books, id)
    {
      idx := None;
      var i := 0;
      while i < |books|
        invariant 0 <= i <= |books|
        invariant forall k :: 0 <= k < i ==> books[k].id != id
      {
        if books[i].id == id {
          idx := Some(i);
          break;
        }
        i := i + 1;
      }
    }

    /** `GET /books/<id>`: the record, or 404. */
    method GetBook(id: int) returns (resp: Response)
      ensures resp.Found? <==> HasId(books, id)
      ensures resp.Found? ==> resp.book.id == id && resp.book == books[FirstIndex(books, id).value]
      ensures !HasId(books, id) ==> resp == Failed(NotFound(id)) && resp.HttpStatus() == 404
    {
      var found := FindById(id);
      if found.None? {
        return Failed(NotFound(id));
      }
      return Found(found.value);
    }

    /**
     * `POST /books`: a refused request leaves the collection as it was; an
     * accepted one appends exactly one record, with an id above every id
     * present, the stripped text fields, the parsed rate and `now` as its
     * creation time.
     */
    method AddBook(body: Body, now: string) returns (resp: Response)
      modifies this
      ensures match ValidateCreate(body)
        case Err(e) => resp == Failed(e) && books == old(books)
        case Ok(d) =>
          resp == Created(Book(NewId(old(books)), d.title, d.author, d.rate, d.status, now, None)) &&
          books == old(books) + [resp.book]
      ensures resp.Created? ==> forall k :: 0 <= k < |old(books)| ==> old(books)[k].id < resp.book.id
      ensures UniqueIds(old(books)) ==> UniqueIds(books)
    {
      var draft := ValidateCreate(body);
      if draft.Err? {
        return Failed(draft.error);
      }
      var book := Book(NewId(books), draft.value.title, draft.value.author, draft.value.rate,
                       draft.value.status, now, None);
      if UniqueIds(books) {
        AppendFreshUnique(books, book);
      }
      books := books + [book];
      return Created(book);
    }

    /**
     * `PUT /books/<id>`: 404 for an unknown id, then 400 for a missing body,
     * then the merge on a working copy; only a successful merge replaces the
     * record at the first matching position, and nothing else changes.
     */
    method UpdateBook(id: int, body: Body, now: string) returns (resp: Response)
      modifies this
      ensures resp.Updated? || resp.Failed?
      ensures resp.Failed? ==> books == old(books)
      ensures !HasId(old(books), id) ==> resp == Failed(NotFound(id))
      ensures HasId(old(books), id) && !HasData(body) ==> resp == Failed(NoJson)
      ensures HasId(old(books), id) && HasData(body) ==>
        var k := FirstIndex(old(books), id).value;
        match Merge(old(books)[k], body.value, now)
        case Err(e) => resp == Failed(e)
        case Ok(b) => resp == Updated(b) && books == old(books)[k := b]
      ensures |books| == |old(books)|
      ensures UniqueIds(old(books)) ==> UniqueIds(books)
    {
      var idx := IndexOf(id);
      if idx.None? {
        return Failed(NotFound(id));
      }
      if !HasData(body) {
        return Failed(NoJson);
      }
      var k := idx.value;
      var merged := ApplyChanges(books[k], body.value, now);
      if merged.Err? {
        return Failed(merged.error);
      }
      var updated := merged.value;
      if UniqueIds(books) {
        ReplaceUnique(books, k, updated);
      }
      books := books[k := updated];
      return Updated(updated);
    }

    /**
     * `DELETE /books/<id>`: 404 with the collection untouched for an unknown
     * id; otherwise the first record carrying `id` is removed and returned,
     * the others keep their order.
     */
    method DeleteBook(id: int) returns (resp: Response)
      modifies this
      ensures resp.Deleted? || resp.Failed?
      ensures resp.Failed? <==> !HasId(old(books), id)
      ensures resp.Failed? ==> resp == Failed(NotFound(id)) && books == old(books)
      ensures resp.Deleted? ==>
        var k := FirstIndex(old(books), id).value;
        resp.book == old(books)[k] && books == RemoveAt(old(books), k)
      ensures UniqueIds(old(books)) ==> UniqueIds(books) && !HasId(books, id)
    {
      var idx := IndexOf(id);
      if idx.None? {
        return Failed(NotFound(id));
      }
      var k := idx.value;
      var gone := books[k];
      if UniqueIds(books) {
        RemoveAtUnique(books, k);
        RemoveFound(books, id);
      }
      books := books[..k] + books[k + 1..];
      return Deleted(gone);
    }
  }
}
