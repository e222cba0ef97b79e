/**
 * The book entity: one row of `books_table`, its foreign key to
 * `sellers_table`, and the cascade that the seller's `books` relationship
 * declares.
 */
module BookModel {
  import opened SellerModel

  /** Declared VARCHAR lengths of the columns of `books_table`. */
  const TitleMaxLength := 50
  const AuthorMaxLength := 100

  /** A stored book; `sellerId` is the non-null foreign key to its owner. */
  datatype Book = Book(id: int, title: string, author: string, year: int, pages: int, sellerId: int)
  {
    /** Title and author fit the lengths their columns declare. */
    predicate FitsColumns() {
      |title| <= TitleMaxLength && |author| <= AuthorMaxLength
    }
  }

  /** `books_table`, from primary key to row. */
  type BookTable = map<int, Book>

  /** The primary key: each row is stored under its own id. */
  ghost predicate BooksKeyedById(t: BookTable) {
    forall id :: id in t ==> t[id].id == id
  }

  /** The foreign key `seller_id -> sellers_table.id`: every book names a stored seller. */
  ghost predicate ForeignKeyHolds(sellers: SellerTable, books: BookTable) {
    forall id :: id in books ==> books[id].sellerId in sellers
  }

  /** The ids of the books of seller `sid`: the rows behind `Seller.books`. */
  function OwnedBy(books: BookTable, sid: int): set<int> {
    set id | id in books && books[id].sellerId == sid
  }

  /** The book table once seller `sid` is deleted with `cascade="all, delete-orphan"`. */
  function CascadeDelete(books: BookTable, sid: int): BookTable {
    books - OwnedBy(books, sid)
  }

  /** Because of the primary key, two stored rows that are equal are the same row. */
  lemma BookIdsUnique(t: BookTable, i: int, j: int)
    requires BooksKeyedById(t)
    requires i in t && j in t && i != j
    ensures t[i] != t[j]
  {
  }

  /** Under the foreign key every book belongs to exactly one stored seller. */
  lemma ExactlyOneOwner(sellers: SellerTable, books: BookTable, bid: int)
    requires ForeignKeyHolds(sellers, books)
    requires bid in books
    ensures books[bid].sellerId in sellers && bid in OwnedBy(books, books[bid].sellerId)
    ensures forall sid :: bid in OwnedBy(books, sid) ==> sid == books[bid].sellerId
  {
  }

  /**
   * The cascade removes exactly the seller's books: every other book stays,
   * with its row unchanged.
   */
  lemma CascadeKeepsOthers(books: BookTable, sid: int)
    ensures forall id :: id in CascadeDelete(books, sid) <==> id in books && books[id].sellerId != sid
    ensures forall id :: id in CascadeDelete(books, sid) ==> CascadeDelete(books, sid)[id] == books[id]
  {
  }

  /**
   * Deleting a seller together with its books leaves no orphan: the foreign
   * key still holds and the deleted seller owns nothing.
   */
  lemma CascadeLeavesNoOrphans(sellers: SellerTable, books: BookTable, sid: int)
    requires ForeignKeyHolds(sellers, books)
    ensures ForeignKeyHolds(sellers - {sid}, CascadeDelete(books, sid))
    ensures OwnedBy(CascadeDelete(books, sid), sid) == {}
  {
  }

  /** A seller owning N books loses exactly N books in the cascade, for every N. */
  lemma CascadeCount(books: BookTable, sid: int)
    ensures |CascadeDelete(books, sid)| == |books| - |OwnedBy(books, sid)|
  {
    var owned := OwnedBy(books, sid);
    var kept := CascadeDelete(books, sid).Keys;
    assert kept == books.Keys - owned;
    assert books.Keys == kept + owned;
    assert kept * owned == {};
  }
}
