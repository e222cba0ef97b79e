/**
 * The seller entity: one row of `sellers_table`.
 */
module SellerModel {

  /** Declared VARCHAR lengths of the columns of `sellers_table`. */
  const FirstNameMaxLength := 50
  const LastNameMaxLength := 50
  const EmailMaxLength := 100
  const PasswordMaxLength := 128

  /** A stored seller. The password is kept as the plain string the client sent. */
  datatype Seller = Seller(id: int, firstName: string, lastName: string, email: string, password: string)
  {
    /** Every string fits the length its column declares. */
    predicate FitsColumns() {
      |firstName| <= FirstNameMaxLength && |lastName| <= LastNameMaxLength &&
      |email| <= EmailMaxLength && |password| <= PasswordMaxLength
    }
  }

  /** `sellers_table`, from primary key to row. */
  type SellerTable = map<int, Seller>

  /** The primary key: each row is stored under its own id. */
  ghost predicate SellersKeyedById(t: SellerTable) {
    forall id :: id in t ==> t[id].id == id
  }

  /** Some stored seller already has exactly this e-mail (no case folding). */
  predicate EmailTaken(t: SellerTable, email: string) {
    exists id :: id in t && t[id].email == email
  }

  /**
   * No two sellers share an e-mail. This is not an invariant of the catalog:
   * the column carries no unique constraint, and only registration checks it.
   */
  ghost predicate EmailsUnique(t: SellerTable) {
    forall i, j :: i in t && j in t && t[i].email == t[j].email ==> i == j
  }

  /** Because of the primary key, two stored rows that are equal are the same row. */
  lemma SellerIdsUnique(t: SellerTable, i: int, j: int)
    requires SellersKeyedById(t)
    requires i in t && j in t && i != j
    ensures t[i] != t[j]
  {
  }

  /** The table model admits two sellers with one e-mail, as the schema does. */
  lemma DuplicateEmailsAdmitted()
    ensures exists t :: SellersKeyedById(t) && !EmailsUnique(t)
  {
    var t := map[1 := Seller(1, "Ann", "Lee", "ann@example.com", "p1"),
                 2 := Seller(2, "Bob", "Ray", "ann@example.com", "p2")];
    assert t[1].email == t[2].email;
    assert SellersKeyedById(t) && !EmailsUnique(t);
  }
}
