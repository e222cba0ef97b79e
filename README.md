# Bookstore catalog: a Dafny model of its store and handlers

The service keeps two related tables, sellers and books. Every book belongs to
exactly one seller through a non-null foreign key. Deleting a seller deletes its
books (`cascade="all, delete-orphan"`). Ten request handlers create, list, read,
update and delete rows of the two tables.

This project models that core as a class, `Catalog.Store`, that holds both tables
as maps from primary key to row. Each handler is a method that updates the maps
in place as one atomic step. The method returns an `Outcome`: `Ok` with the
response body, or `NotFound` (404), `Conflict` (400, e-mail already registered)
or `Invalid` (422, year before 2020). The store's invariant `Valid()` says:

- both primary keys hold;
- every book's `seller_id` names a stored seller (referential integrity);
- the id sequences are ahead of every stored id.

Every handler is proved to preserve this invariant, cascade delete included. Each
handler's `ensures` also gives the exact new contents of both tables and the
response.

Files:

- `outcomes.dfy`: `Option` and `Outcome`.
- `seller_model.dfy`: the `Seller` row, declared column lengths, primary key, and
  the e-mail predicates.
- `book_model.dfy`: the `Book` row, column lengths, primary key, foreign key, the
  books a seller owns, and the cascade, with lemmas about them.
- `book_schemas.dfy`: the year validator, the 150-page default, and the request
  and response shapes for books with their projections.
- `seller_schemas.dfy`: the request and response shapes for sellers with their
  projections. The password never reaches a response.
- `tables.dfy`: the row scan behind a `SELECT`. It lists every key once, in an
  order the store chooses.
- `catalog.dfy`: the store and the ten handlers.
- `clients.dfy`: client methods that drive the handlers through documented
  scenarios. They use only the handlers' contracts:
  - register a seller, add a book, delete the seller, and the book is gone;
  - a duplicate registration is refused;
  - an update can make two sellers share an e-mail;
  - the year rule applies on creation only;
  - the cascade removes exactly the seller's books.

Seller e-mails are meant to be unique across all sellers, but the code checks
this only on registration, and `update_seller` can give a seller an e-mail that
another seller already has. So e-mail uniqueness is not part of `Valid()`.
`CreateSeller` only keeps it when it already held, and `Clients.UpdateCanDuplicateEmail`
shows it being broken. In the same way, the year rule is not an invariant:
`BookUpdate` has no validator, and stored books may have any year.

Field names follow Dafny's camel case: `e_mail` is `email`, `seller_id` is
`sellerId`, and the request field `count_pages` is `countPages`.

## Model

| member | source | states |
|---|---|---|
| `SellerModel.SellerIdsUnique` | src/models/sellers.py:9 | with the primary key, two distinct stored sellers are distinct rows |
| `SellerModel.DuplicateEmailsAdmitted` | src/models/sellers.py:12 | the e-mail column has no unique constraint: a keyed seller table with two equal e-mails exists |
| `BookModel.BookIdsUnique` | src/models/books.py:10 | with the primary key, two distinct stored books are distinct rows |
| `BookModel.ExactlyOneOwner` | src/models/books.py:17-26 | under the foreign key, each stored book's seller is stored, and the book is among that seller's books and no other's |
| `BookModel.CascadeKeepsOthers` | src/models/sellers.py:16-20 | the cascade keeps a book if and only if another seller owns it, and its row is unchanged |
| `BookModel.CascadeLeavesNoOrphans` | src/models/sellers.py:16-20 | after deleting a seller with its books, the foreign key still holds and the deleted seller owns no book |
| `BookModel.CascadeCount` | src/models/sellers.py:16-20 | a seller owning N books loses exactly N books, for every N |
| `BookSchemas.ValidateYear` | src/schemas/books.py:20-25 | a year is refused if and only if it is before 2020; an accepted year is returned unchanged |
| `BookSchemas.ParseIncomingBook` | src/schemas/books.py:16-25 | a create body is accepted if and only if its year is at least 2020; otherwise it is Invalid. Title, author, year and seller id pass through. Pages are the given count, or 150 when absent |
| `BookSchemas.ParseRoundTrip` | src/schemas/books.py:15-18 | every validated book with an allowed year is accepted back from its payload unchanged |
| `BookSchemas.YearBoundary` | src/schemas/books.py:23-25 | whatever the other fields are, 2019 is refused and 2020 accepted |
| `BookSchemas.ReturnedBookRoundTrip` | src/schemas/books.py:28-31 | the book response keeps id, title, author, year, pages and seller id: the row is recovered from it |
| `BookSchemas.NoSellerIdDropsOnlyOwner` | src/schemas/books.py:40-45 | the detail-list view plus the owner's id gives the full response, and it does not depend on the owner |
| `BookSchemas.ApplyBookUpdate` | src/routers/v1/books.py:78-83 | an update sets title, author, year and pages from the request and keeps the id and the seller id |
| `BookSchemas.UpdateIdempotent` | src/routers/v1/books.py:78-83 | repeating an update changes nothing more, and the owner is never changed |
| `BookSchemas.UpdateSkipsYearRule` | src/schemas/books.py:50-54 | an update can store a year that creation refuses |
| `SellerSchemas.ReadHidesPassword` | src/schemas/sellers.py:18-20 | the seller response does not depend on the password |
| `SellerSchemas.CreateIsReadPlusPassword` | src/schemas/sellers.py:14-16 | the stored row shows the registration's public fields under its id and keeps its password |
| `SellerSchemas.DetailExtendsRead` | src/schemas/sellers.py:22-24 | a detail response is the plain response plus the given book list, which defaults to empty |
| `SellerSchemas.ToAllSellers` | src/schemas/sellers.py:35-36 | the list response projects each seller in order and has the same length |
| `SellerSchemas.ApplySellerUpdate` | src/routers/v1/sellers.py:61-64 | an update sets first name, last name and e-mail, and keeps the id and password |
| `SellerSchemas.SellerUpdateReadsBack` | src/schemas/sellers.py:26-30 | after an update the response shows exactly the update's fields under the seller's id; repeating it changes nothing |
| `Tables.Enumerate` | src/routers/v1/books.py:49-51 | the row scan lists every key of the table exactly once: same count, no repeats, nothing else |
| `Catalog.Store.CreateBook` | src/routers/v1/books.py:19-41 | with year before 2020: Invalid, checked before the seller lookup. With an unknown seller: NotFound. Both leave the tables unchanged. Otherwise exactly one book is added, under a fresh id, with the request's fields and the default page count. Sellers are unchanged and integrity holds |
| `Catalog.Store.GetAllBooks` | src/routers/v1/books.py:44-52 | returns each stored book's full response exactly once and nothing else; the store is not modified |
| `Catalog.Store.GetBook` | src/routers/v1/books.py:55-61 | returns the stored book's response if the id is stored, otherwise NotFound; the store is not modified |
| `Catalog.Store.UpdateBook` | src/routers/v1/books.py:75-88 | a missing id gives NotFound and no change. Otherwise only that book changes, through `ApplyBookUpdate`, so its id and seller id stay |
| `Catalog.Store.DeleteBook` | src/routers/v1/books.py:64-72 | an existing id removes exactly that book, and every other book and all sellers are unchanged; a missing id gives NotFound and no change |
| `Catalog.Store.CreateSeller` | src/routers/v1/sellers.py:16-33 | an e-mail equal to a stored one gives Conflict and inserts nothing. Otherwise one seller is added, under a fresh id, with the request's fields, and the books are unchanged. E-mail uniqueness is kept when it held before |
| `Catalog.Store.GetAllSellers` | src/routers/v1/sellers.py:36-41 | returns each stored seller's response, without the password, exactly once and nothing else |
| `Catalog.Store.GetSeller` | src/routers/v1/sellers.py:43-51 | a missing id gives NotFound. Otherwise it returns the seller's response with exactly the books whose seller id is this seller, each once and without its seller id |
| `Catalog.Store.UpdateSeller` | src/routers/v1/sellers.py:54-68 | a missing id gives NotFound and no change. Otherwise only the names and e-mail change; the password, id and books stay, and other sellers' e-mails are not consulted |
| `Catalog.Store.DeleteSeller` | src/routers/v1/sellers.py:71-81 | an existing id removes the seller and exactly the books it owns (the cascade), and integrity holds; a missing id gives NotFound and no change |

## Left out

- HTTP routing, dependency injection, `Response` objects and status codes. Outcomes stand for them.
- Session mechanics: `flush`, `refresh`, `execute`, async/await, and `selectinload` batching. Each handler is one atomic step. The commit or rollback of the unit of work happens in `src/configurations`, which is not part of this model.
- E-mail format validation (`EmailStr`), and pydantic's coercion and alias handling beyond the `count_pages` field. An e-mail is an opaque string and is compared exactly.
- Extra fields in an update body (a client may send `id` or `seller_id`) are dropped by pydantic before the handler runs. `BookUpdate` cannot carry them, so the model shows that the seller id is never changed, not that the extra fields are parsed.
- Column length limits are declared (`FitsColumns`, `ColumnsFit`), but the store does not refuse over-long strings. Whether an over-long value fails at flush depends on the database engine, which is not part of this model. The handlers are proved to keep `ColumnsFit` whenever the request fits.
- Integer width: ids, years and page counts are unbounded integers. Overflow of the database's integer columns is not modelled.
- Id allocation is modelled as per-table counters that start at 1 and never reuse an id. The actual sequence behaviour belongs to the database engine.
- List order: list results come in an order the store chooses, and the contracts fix only their contents.
- CreateSeller: when two or more stored sellers already share the e-mail (possible after `update_seller`), the source's single-row lookup raises an error instead of answering 400. The model answers Conflict. Either way nothing is inserted.
- Password hashing: the source stores the password as given, and so does the model.
- Debug logging (`ic`).
