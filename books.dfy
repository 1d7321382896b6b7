/**
 * The book record and the pure functions the handlers of the reading-list
 * service use on the collection: lookup by id and id allocation.
 */
module Books {
  import opened Wrappers

  /** One stored book; `updatedAt` is absent until the first update. */
  datatype Book = Book(
    id: int,
    title: string,
    author: string,
    rate: real,
    status: string,
    createdAt: string,
    updatedAt: Option<string>)

  predicate HasId(books: seq<Book>, id: int)
  {
    exists k :: 0 <= k < |books| && books[k].id == id
  }

  /** No two records share an id. */
  predicate UniqueIds(books: seq<Book>)
  {
    forall i, j :: 0 <= i < j < |books| ==> books[i].id != books[j].id
  }

  /** Position of the first record carrying `id`, if any. */
  function FirstIndex(books: seq<Book>, id: int): (r: Option<nat>)
    ensures r.None? <==> !HasId(books, id)
    ensures r.Some? ==> r.value < |books| && books[r.value].id == id
    ensures r.Some? ==> forall k :: 0 <= k < r.value ==> books[k].id != id
  {
    if books == [] then None
    else if books[0].id == id then Some(0)
    else
      match FirstIndex(books[1..], id)
      case None => None
      case Some(k) => Some(k + 1)
  }

  /** The largest id in a non-empty collection. */
  function MaxId(books: seq<Book>): (m: int)
    requires books != []
    ensures forall k :: 0 <= k < |books| ==> books[k].id <= m
    ensures HasId(books, m)
  {
    if |books| == 1 then books[0].id
    else
      var rest := MaxId(books[1..]);
      if books[0].id >= rest then books[0].id else rest
  }

  /**
   * `generate_new_id`: one more than the largest id, or 1 for an empty
   * collection. The result exceeds every id present, and the id just below
   * it is present unless the collection is empty.
   */
  function NewId(books: seq<Book>): (r: int)
    ensures forall k :: 0 <= k < |books| ==> books[k].id < r
    ensures books == [] ==> r == 1
    ensures books != [] ==> HasId(books, r - 1)
  {
    if books == [] then 1 else MaxId(books) + 1
  }

  /** A fresh id is never taken, so looking it up finds nothing. */
  lemma NewIdAbsent(books: seq<Book>)
    ensures FirstIndex(books, NewId(books)) == None
  {
  }

  /** Appending a record with a fresh id keeps ids unique. */
  lemma AppendFreshUnique(books: seq<Book>, b: Book)
    requires UniqueIds(books) && b.id == NewId(books)
    ensures UniqueIds(books + [b])
  {
  }

  /** After appending a record with a fresh id, looking that id up finds the new record. */
  lemma FindAppended(books: seq<Book>, b: Book)
    requires b.id == NewId(books)
    ensures FirstIndex(books + [b], b.id) == Some(|books|)
  {
    var s := books + [b];
    assert s[|books|].id == b.id;
    assert HasId(s, b.id);
  }

  /** The collection with the record at `k` removed (`list.pop(k)`). */
  function RemoveAt(books: seq<Book>, k: nat): (r: seq<Book>)
    requires k < |books|
    ensures |r| == |books| - 1
    ensures forall i :: 0 <= i < k ==> r[i] == books[i]
    ensures forall i :: k <= i < |r| ==> r[i] == books[i + 1]
    ensures multiset(r) + multiset{books[k]} == multiset(books)
  {
    assert books == books[..k] + [books[k]] + books[k + 1..];
    books[..k] + books[k + 1..]
  }

  /** Removal keeps the records that stay in their relative order. */
  lemma RemoveAtOrder(books: seq<Book>, k: nat, i: nat, j: nat)
    requires k < |books| && i < j < |books| - 1
    ensures var i', j' := (if i < k then i else i + 1), (if j < k then j else j + 1);
      i' < j' < |books| && i' != k && j' != k &&
      RemoveAt(books, k)[i] == books[i'] && RemoveAt(books, k)[j] == books[j']
  {
  }

  /** Removal keeps ids unique. */
  lemma RemoveAtUnique(books: seq<Book>, k: nat)
    requires k < |books| && UniqueIds(books)
    ensures UniqueIds(RemoveAt(books, k))
  {
  }

  /** With unique ids, once the record carrying `id` is removed, `id` is not found. */
  lemma RemoveFound(books: seq<Book>, id: int)
    requires UniqueIds(books) && HasId(books, id)
    ensures FirstIndex(RemoveAt(books, FirstIndex(books, id).value), id) == None
  {
  }

  /** Replacing one record by another with the same id keeps ids unique. */
  lemma ReplaceUnique(books: seq<Book>, k: nat, b: Book)
    requires k < |books| && UniqueIds(books) && b.id == books[k].id
    ensures UniqueIds(books[k := b])
  {
  }
}
