/**
 * Request and response shapes for books, and the one validation rule they
 * carry: a book cannot be created with a publication year before 2020.
 */
module BookSchemas {
  import opened Outcomes
  import opened BookModel

  /** The earliest publication year a new book may have. */
  const MinYear := 2020
  /** The page count a new book gets when the request leaves it out. */
  const DefaultPages := 150

  /** The year validator of an incoming book: a year before MinYear is refused, any other passes unchanged. */
  function ValidateYear(val: int): (r: Outcome<int>)
    ensures r == Invalid || r == Ok(val)
    ensures r.Ok? <==> MinYear <= val
  {
    if val < MinYear then Invalid else Ok(val)
  }

  /**
   * The body of a create request before validation. The page count travels
   * under the name `count_pages` and may be absent; the seller id is required.
   */
  datatype BookPayload = BookPayload(title: string, author: string, year: int, countPages: Option<int>, sellerId: int)

  /** A validated create request: every field present, the year checked. */
  datatype IncomingBook = IncomingBook(title: string, author: string, year: int, pages: int, sellerId: int)

  /** The full response for one book: every column of the row. */
  datatype ReturnedBook = ReturnedBook(id: int, title: string, author: string, year: int, pages: int, sellerId: int)

  /** The list response of all books. */
  datatype ReturnedAllBooks = ReturnedAllBooks(books: seq<ReturnedBook>)

  /** A book as listed inside its seller's detail: the owner's id is left out. */
  datatype ReturnedBookNoSellerId = ReturnedBookNoSellerId(id: int, title: string, author: string, year: int, pages: int)

  /** The body of an update request: the four mutable fields, and no year check. */
  datatype BookUpdate = BookUpdate(title: string, author: string, year: int, pages: int)

  /** Validates a create request and fills in the default page count. */
  function ParseIncomingBook(p: BookPayload): (r: Outcome<IncomingBook>)
    ensures r.Ok? <==> MinYear <= p.year
    ensures !r.Ok? ==> r == Invalid
    ensures r.Ok? ==> r.value.title == p.title && r.value.author == p.author &&
                      r.value.year == p.year && r.value.sellerId == p.sellerId
    ensures r.Ok? && p.countPages.None? ==> r.value.pages == DefaultPages
    ensures r.Ok? && p.countPages.Some? ==> r.value.pages == p.countPages.value
  {
    match ValidateYear(p.year)
    case Ok(year) => Ok(IncomingBook(p.title, p.author, year, p.countPages.GetOr(DefaultPages), p.sellerId))
    case _ => Invalid
  }

  /** The payload a client sends for a validated book, naming the page count explicitly. */
  function ToPayload(b: IncomingBook): BookPayload {
    BookPayload(b.title, b.author, b.year, Some(b.pages), b.sellerId)
  }

  /** Parsing accepts every book whose year passes the rule and loses nothing of it. */
  lemma ParseRoundTrip(b: IncomingBook)
    requires MinYear <= b.year
    ensures ParseIncomingBook(ToPayload(b)) == Ok(b)
  {
  }

  /** 2019 is refused and 2020 accepted, whatever the other fields are. */
  lemma YearBoundary(p: BookPayload)
    ensures p.year == MinYear - 1 ==> ParseIncomingBook(p) == Invalid
    ensures p.year == MinYear ==> ParseIncomingBook(p).Ok?
  {
  }

  /** The full response of a stored book. */
  function ToReturnedBook(b: Book): ReturnedBook {
    ReturnedBook(b.id, b.title, b.author, b.year, b.pages, b.sellerId)
  }

  /** The row a full response describes. */
  function ReturnedToBook(r: ReturnedBook): Book {
    Book(r.id, r.title, r.author, r.year, r.pages, r.sellerId)
  }

  /** The full response preserves every column: the row can be read back from it. */
  lemma ReturnedBookRoundTrip(b: Book)
    ensures ReturnedToBook(ToReturnedBook(b)) == b
  {
  }

  /** The detail-list view of a stored book. */
  function ToNoSellerId(b: Book): ReturnedBookNoSellerId {
    ReturnedBookNoSellerId(b.id, b.title, b.author, b.year, b.pages)
  }

  /** The full response rebuilt from the detail-list view and the owner's id. */
  function WithSellerId(v: ReturnedBookNoSellerId, sellerId: int): ReturnedBook {
    ReturnedBook(v.id, v.title, v.author, v.year, v.pages, sellerId)
  }

  /**
   * The detail-list view drops the owner's id and nothing else: adding it
   * back gives the full response, and books that differ only in their owner
   * look the same.
   */
  lemma NoSellerIdDropsOnlyOwner(b: Book, other: int)
    ensures WithSellerId(ToNoSellerId(b), b.sellerId) == ToReturnedBook(b)
    ensures ToNoSellerId(b.(sellerId := other)) == ToNoSellerId(b)
  {
  }

  /**
   * An update overwrites title, author, year and pages with the request's
   * values and keeps the id and the owner. The year is not validated.
   */
  function ApplyBookUpdate(b: Book, u: BookUpdate): (r: Book)
    ensures r.id == b.id && r.sellerId == b.sellerId
    ensures r.title == u.title && r.author == u.author && r.year == u.year && r.pages == u.pages
  {
    b.(title := u.title, author := u.author, year := u.year, pages := u.pages)
  }

  /** Repeating an update changes nothing more, and the owner never moves. */
  lemma UpdateIdempotent(b: Book, u: BookUpdate, owner: int)
    ensures ApplyBookUpdate(ApplyBookUpdate(b, u), u) == ApplyBookUpdate(b, u)
    ensures ApplyBookUpdate(b.(sellerId := owner), u).sellerId == owner
  {
  }

  /** An update can give a stored book a year that creation would refuse. */
  lemma UpdateSkipsYearRule(b: Book)
    ensures ApplyBookUpdate(b, BookUpdate(b.title, b.author, MinYear - 1, b.pages)).year < MinYear
    ensures ValidateYear(MinYear - 1) == Invalid
  {
  }
}
