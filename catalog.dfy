/**
 * The catalog store: the seller and book tables and the ten request
 * handlers that read and change them. Each handler is one atomic unit of
 * work; a failure leaves both tables as they were.
 */
module Catalog {
  import opened Outcomes
  import opened SellerModel
  import opened BookModel
  import opened BookSchemas
  import opened SellerSchemas
  import Tables

  /** The row a book creation stores under the id the table assigns. */
  function NewBook(id: int, b: IncomingBook): Book {
    Book(id, b.title, b.author, b.year, b.pages, b.sellerId)
  }

  class Store {
    var sellers: SellerTable
    var books: BookTable
    /** The next values of the two tables' id sequences. */
    var nextSellerId: int
    var nextBookId: int

    /**
     * Both primary keys hold, every book names a stored seller, and the id
     * sequences are ahead of every stored id, so the next id is fresh.
     */
    ghost predicate Valid()
      reads this
    {
      SellersKeyedById(sellers) && BooksKeyedById(books) &&
      ForeignKeyHolds(sellers, books) &&
      1 <= nextSellerId && 1 <= nextBookId &&
      (forall id :: id in sellers ==> 1 <= id < nextSellerId) &&
      (forall id :: id in books ==> 1 <= id < nextBookId)
    }

    /** Every stored string fits its declared column length. */
    ghost predicate ColumnsFit()
      reads this
    {
      (forall id :: id in sellers ==> sellers[id].FitsColumns()) &&
      (forall id :: id in books ==> books[id].FitsColumns())
    }

    /** An empty catalog whose id sequences start at 1. */
    constructor ()
      ensures Valid() && ColumnsFit()
      ensures sellers == map[] && books == map[]
      ensures nextSellerId == 1 && nextBookId == 1
    {
      sellers, books := map[], map[];
      nextSellerId, nextBookId := 1, 1;
    }

    // ----- books -----

    /**
     * POST /books. The body is validated first (year rule, page default);
     * then the owner must exist; then one row is added under a fresh id.
     */
    method CreateBook(payload: BookPayload) returns (r: Outcome<ReturnedBook>)
      requires Valid()
      modifies this
      ensures Valid()
      ensures sellers == old(sellers) && nextSellerId == old(nextSellerId)
      ensures payload.year < MinYear ==>
        r == Invalid && books == old(books) && nextBookId == old(nextBookId)
      ensures MinYear <= payload.year && payload.sellerId !in sellers ==>
        r == NotFound && books == old(books) && nextBookId == old(nextBookId)
      ensures MinYear <= payload.year && payload.sellerId in sellers ==>
        r.Ok? && r.value.id == old(nextBookId) && r.value.id !in old(books) &&
        nextBookId == old(nextBookId) + 1 &&
        r.value == ReturnedBook(r.value.id, payload.title, payload.author, payload.year,
                                payload.countPages.GetOr(DefaultPages), payload.sellerId) &&
        books == old(books)[r.value.id := ReturnedToBook(r.value)]
      ensures (old(ColumnsFit()) && |payload.title| <= TitleMaxLength &&
               |payload.author| <= AuthorMaxLength) ==> ColumnsFit()
    {
      match ParseIncomingBook(payload)
      case Ok(incoming) =>
        if incoming.sellerId !in sellers {
          r := NotFound;
        } else {
          var id := nextBookId;
          var row := NewBook(id, incoming);
          books := books[id := row];
          nextBookId := nextBookId + 1;
          r := Ok(ToReturnedBook(row));
        }
      case _ =>
        r := Invalid;
    }

    /** GET /books: every stored book once, in an order the store chooses. */
    method GetAllBooks() returns (r: ReturnedAllBooks)
      requires Valid()
      ensures |r.books| == |books|
      ensures forall i :: 0 <= i < |r.books| ==>
        r.books[i].id in books && r.books[i] == ToReturnedBook(books[r.books[i].id])
      ensures forall id :: id in books ==> exists i :: 0 <= i < |r.books| && r.books[i].id == id
      ensures forall i, j :: 0 <= i < j < |r.books| ==> r.books[i].id != r.books[j].id
    {
      var t := books;
      var ids := Tables.Enumerate(t.Keys);
      r := ReturnedAllBooks(seq(|ids|, i requires 0 <= i < |ids| => ToReturnedBook(t[ids[i]])));
      forall id | id in t
        ensures exists i :: 0 <= i < |r.books| && r.books[i].id == id
      {
        var i :| 0 <= i < |ids| && ids[i] == id;
        assert r.books[i].id == id;
      }
    }

    /** GET /books/{id}: the stored book, or NotFound. */
    method GetBook(id: int) returns (r: Outcome<ReturnedBook>)
      ensures r.Ok? <==> id in books
      ensures r.Ok? ==> r.value == ToReturnedBook(books[id])
      ensures !r.Ok? ==> r == NotFound
    {
      if id in books {
        r := Ok(ToReturnedBook(books[id]));
      } else {
        r := NotFound;
      }
    }

    /** PUT /books/{id}: overwrite the four mutable fields; the owner stays. */
    method UpdateBook(id: int, u: BookUpdate) returns (r: Outcome<ReturnedBook>)
      requires Valid()
      modifies this
      ensures Valid()
      ensures sellers == old(sellers)
      ensures nextSellerId == old(nextSellerId) && nextBookId == old(nextBookId)
      ensures id !in old(books) ==> r == NotFound && books == old(books)
      ensures id in old(books) ==>
        books == old(books)[id := ApplyBookUpdate(old(books)[id], u)] &&
        r == Ok(ToReturnedBook(books[id]))
      ensures (old(ColumnsFit()) && |u.title| <= TitleMaxLength &&
               |u.author| <= AuthorMaxLength) ==> ColumnsFit()
    {
      if id in books {
        books := books[id := ApplyBookUpdate(books[id], u)];
        r := Ok(ToReturnedBook(books[id]));
      } else {
        r := NotFound;
      }
    }

    /** DELETE /books/{id}: remove that one row, or NotFound. */
    method DeleteBook(id: int) returns (r: Outcome<()>)
      requires Valid()
      modifies this
      ensures Valid()
      ensures sellers == old(sellers)
      ensures nextSellerId == old(nextSellerId) && nextBookId == old(nextBookId)
      ensures id in old(books) ==> r == Ok(()) && books == old(books) - {id}
      ensures id !in old(books) ==> r == NotFound && books == old(books)
      ensures old(ColumnsFit()) ==> ColumnsFit()
    {
      if id in books {
        books := books - {id};
        r := Ok(());
      } else {
        r := NotFound;
      }
    }

    // ----- sellers -----

    /**
     * POST /seller: refused with Conflict when some seller already has the
     * same e-mail; otherwise one row is added under a fresh id.
     */
    method CreateSeller(c: SellerCreate) returns (r: Outcome<SellerRead>)
      requires Valid()
      modifies this
      ensures Valid()
      ensures books == old(books) && nextBookId == old(nextBookId)
      ensures EmailTaken(old(sellers), c.email) ==>
        r == Conflict && sellers == old(sellers) && nextSellerId == old(nextSellerId)
      ensures !EmailTaken(old(sellers), c.email) ==>
        r.Ok? && r.value.id == old(nextSellerId) && r.value.id !in old(sellers) &&
        nextSellerId == old(nextSellerId) + 1 &&
        r.value == SellerRead(r.value.id, c.firstName, c.lastName, c.email) &&
        sellers == old(sellers)[r.value.id := NewSeller(r.value.id, c)]
      ensures EmailsUnique(old(sellers)) ==> EmailsUnique(sellers)
      ensures old(ColumnsFit()) && NewSeller(0, c).FitsColumns() ==> ColumnsFit()
    {
      if EmailTaken(sellers, c.email) {
        r := Conflict;
      } else {
        var id := nextSellerId;
        var row := NewSeller(id, c);
        sellers := sellers[id := row];
        nextSellerId := nextSellerId + 1;
        r := Ok(ToSellerRead(row));
      }
    }

    /** GET /seller: every stored seller once, without passwords, in an order the store chooses. */
    method GetAllSellers() returns (r: ReturnedAllSellers)
      requires Valid()
      ensures |r.sellers| == |sellers|
      ensures forall i :: 0 <= i < |r.sellers| ==>
        r.sellers[i].id in sellers && r.sellers[i] == ToSellerRead(sellers[r.sellers[i].id])
      ensures forall id :: id in sellers ==> exists i :: 0 <= i < |r.sellers| && r.sellers[i].id == id
      ensures forall i, j :: 0 <= i < j < |r.sellers| ==> r.sellers[i].id != r.sellers[j].id
    {
      var t := sellers;
      var ids := Tables.Enumerate(t.Keys);
      var rows := seq(|ids|, i requires 0 <= i < |ids| => t[ids[i]]);
      r := ToAllSellers(rows);
      forall id | id in t
        ensures exists i :: 0 <= i < |r.sellers| && r.sellers[i].id == id
      {
        var i :| 0 <= i < |ids| && ids[i] == id;
        assert r.sellers[i].id == id;
      }
    }

    /**
     * GET /seller/{id}: the seller without its password, with every book it
     * owns (each without the owner's id), or NotFound.
     */
    method GetSeller(sid: int) returns (r: Outcome<SellerDetail>)
      requires Valid()
      ensures r.Ok? <==> sid in sellers
      ensures !r.Ok? ==> r == NotFound
      ensures r.Ok? ==> DetailHeader(r.value) == ToSellerRead(sellers[sid])
      ensures r.Ok? ==> |r.value.books| == |OwnedBy(books, sid)|
      ensures r.Ok? ==> forall i :: 0 <= i < |r.value.books| ==>
        r.value.books[i].id in OwnedBy(books, sid) &&
        r.value.books[i] == ToNoSellerId(books[r.value.books[i].id])
      ensures r.Ok? ==> forall bid :: bid in OwnedBy(books, sid) ==>
        exists i :: 0 <= i < |r.value.books| && r.value.books[i].id == bid
      ensures r.Ok? ==> forall i, j :: 0 <= i < j < |r.value.books| ==>
        r.value.books[i].id != r.value.books[j].id
    {
      if sid !in sellers {
        return NotFound;
      }
      var t := books;
      var ids := Tables.Enumerate(OwnedBy(t, sid));
      var owned := seq(|ids|, i requires 0 <= i < |ids| => ToNoSellerId(t[ids[i]]));
      r := Ok(ToSellerDetail(sellers[sid], owned));
      forall bid | bid in OwnedBy(t, sid)
        ensures exists i :: 0 <= i < |owned| && owned[i].id == bid
      {
        var i :| 0 <= i < |ids| && ids[i] == bid;
        assert owned[i].id == bid;
      }
    }

    /**
     * PUT /seller/{id}: overwrite the names and the e-mail. The password and
     * the seller's books stay; other sellers' e-mails are not consulted.
     */
    method UpdateSeller(sid: int, u: SellerUpdate) returns (r: Outcome<SellerRead>)
      requires Valid()
      modifies this
      ensures Valid()
      ensures books == old(books)
      ensures nextSellerId == old(nextSellerId) && nextBookId == old(nextBookId)
      ensures sid !in old(sellers) ==> r == NotFound && sellers == old(sellers)
      ensures sid in old(sellers) ==>
        sellers == old(sellers)[sid := ApplySellerUpdate(old(sellers)[sid], u)] &&
        r == Ok(SellerRead(sid, u.firstName, u.lastName, u.email))
      ensures (old(ColumnsFit()) && |u.firstName| <= FirstNameMaxLength &&
               |u.lastName| <= LastNameMaxLength && |u.email| <= EmailMaxLength) ==> ColumnsFit()
    {
      if sid in sellers {
        var row := ApplySellerUpdate(sellers[sid], u);
        sellers := sellers[sid := row];
        r := Ok(ToSellerRead(row));
      } else {
        r := NotFound;
      }
    }

    /**
     * DELETE /seller/{id}: remove the seller and, in the same unit of work,
     * every book it owns; or NotFound.
     */
    method DeleteSeller(sid: int) returns (r: Outcome<()>)
      requires Valid()
      modifies this
      ensures Valid()
      ensures nextSellerId == old(nextSellerId) && nextBookId == old(nextBookId)
      ensures sid !in old(sellers) ==> r == NotFound && sellers == old(sellers) && books == old(books)
      ensures sid in old(sellers) ==>
        r == Ok(()) && sellers == old(sellers) - {sid} &&
        books == CascadeDelete(old(books), sid)
      ensures old(ColumnsFit()) ==> ColumnsFit()
    {
      if sid in sellers {
        CascadeLeavesNoOrphans(sellers, books, sid);
        books := CascadeDelete(books, sid);
        sellers := sellers - {sid};
        r := Ok(());
      } else {
        r := NotFound;
      }
    }
  }
}
