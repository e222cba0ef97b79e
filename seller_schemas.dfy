/**
 * Request and response shapes for sellers. Every response leaves the
 * password out; the detail response embeds the seller's books without
 * their owner's id.
 */
module SellerSchemas {
  import opened SellerModel
  import opened BookModel
  import opened BookSchemas

  /** The body of a registration request: the three public fields and the password. */
  datatype SellerCreate = SellerCreate(firstName: string, lastName: string, email: string, password: string)

  /** The response for one seller: the public fields and the id. */
  datatype SellerRead = SellerRead(id: int, firstName: string, lastName: string, email: string)

  /** The detail response: the public fields, the id, and the seller's books. */
  datatype SellerDetail = SellerDetail(id: int, firstName: string, lastName: string, email: string,
                                       books: seq<ReturnedBookNoSellerId>)

  /** The body of an update request: the public fields only. */
  datatype SellerUpdate = SellerUpdate(firstName: string, lastName: string, email: string)

  /** The list response of all sellers. */
  datatype ReturnedAllSellers = ReturnedAllSellers(sellers: seq<SellerRead>)

  /** The row registration stores under the id the table assigns. */
  function NewSeller(id: int, c: SellerCreate): Seller {
    Seller(id, c.firstName, c.lastName, c.email, c.password)
  }

  /** The response for a stored seller. */
  function ToSellerRead(s: Seller): SellerRead {
    SellerRead(s.id, s.firstName, s.lastName, s.email)
  }

  /**
   * The response never depends on the password: sellers that differ only in
   * their password give the same response.
   */
  lemma ReadHidesPassword(s: Seller, other: string)
    ensures ToSellerRead(s.(password := other)) == ToSellerRead(s)
  {
  }

  /**
   * A registration request is exactly the response fields plus the password:
   * the stored row shows the request's public fields under its id, and keeps
   * the password the request carried.
   */
  lemma CreateIsReadPlusPassword(id: int, c: SellerCreate)
    ensures ToSellerRead(NewSeller(id, c)) == SellerRead(id, c.firstName, c.lastName, c.email)
    ensures NewSeller(id, c).password == c.password
  {
  }

  /** The detail response of a stored seller; the book list is empty unless given. */
  function ToSellerDetail(s: Seller, books: seq<ReturnedBookNoSellerId> := []): SellerDetail {
    SellerDetail(s.id, s.firstName, s.lastName, s.email, books)
  }

  /** The plain response contained in a detail response. */
  function DetailHeader(d: SellerDetail): SellerRead {
    SellerRead(d.id, d.firstName, d.lastName, d.email)
  }

  /** A detail response is the plain response plus the book list, which defaults to empty. */
  lemma DetailExtendsRead(s: Seller, books: seq<ReturnedBookNoSellerId>)
    ensures DetailHeader(ToSellerDetail(s, books)) == ToSellerRead(s)
    ensures ToSellerDetail(s, books).books == books
    ensures ToSellerDetail(s).books == []
  {
  }

  /** The list response: each stored seller's response, in the order given. */
  function ToAllSellers(rows: seq<Seller>): (r: ReturnedAllSellers)
    ensures |r.sellers| == |rows|
    ensures forall i :: 0 <= i < |rows| ==> r.sellers[i] == ToSellerRead(rows[i])
  {
    ReturnedAllSellers(seq(|rows|, i requires 0 <= i < |rows| => ToSellerRead(rows[i])))
  }

  /**
   * An update overwrites the first name, last name and e-mail and keeps the
   * id and the password. It does not look at other sellers' e-mails.
   */
  function ApplySellerUpdate(s: Seller, u: SellerUpdate): (r: Seller)
    ensures r.id == s.id && r.password == s.password
    ensures r.firstName == u.firstName && r.lastName == u.lastName && r.email == u.email
  {
    s.(firstName := u.firstName, lastName := u.lastName, email := u.email)
  }

  /**
   * The response after an update shows exactly the request's fields under
   * the seller's id, and repeating the update changes nothing more.
   */
  lemma SellerUpdateReadsBack(s: Seller, u: SellerUpdate)
    ensures ToSellerRead(ApplySellerUpdate(s, u)) == SellerRead(s.id, u.firstName, u.lastName, u.email)
    ensures ApplySellerUpdate(ApplySellerUpdate(s, u), u) == ApplySellerUpdate(s, u)
  {
  }
}
