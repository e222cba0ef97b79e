/**
 * Client methods that drive the catalog through its handlers and check,
 * from the handlers' contracts alone, the behaviour the service documents.
 */
module Clients {
  import opened Outcomes
  import opened SellerModel
  import opened BookModel
  import opened BookSchemas
  import opened SellerSchemas
  import opened Catalog

  /**
   * Register a seller, add a book for it, delete the seller: the book is
   * gone with it.
   */
  method EndToEnd() {
    var store := new Store();
    var s := store.CreateSeller(SellerCreate("John", "Doe", "john.doe@example.com", "secret"));
    assert s == Ok(SellerRead(1, "John", "Doe", "john.doe@example.com"));
    var b := store.CreateBook(BookPayload("Clean Architecture", "Robert Martin", 2025, Some(300), 1));
    assert b == Ok(ReturnedBook(1, "Clean Architecture", "Robert Martin", 2025, 300, 1));
    var g := store.GetBook(1);
    assert g == b;
    var d := store.DeleteSeller(1);
    assert d == Ok(());
    g := store.GetBook(1);
    assert g == NotFound;
  }

  /**
   * A second registration with the same e-mail is refused and changes
   * nothing; an address differing only in letter case is a different one.
   */
  method DuplicateRegistration() {
    var store := new Store();
    var first := store.CreateSeller(SellerCreate("Alice", "Smith", "alice@example.com", "secret"));
    assert first.Ok? && store.sellers == map[1 := Seller(1, "Alice", "Smith", "alice@example.com", "secret")];
    var second := store.CreateSeller(SellerCreate("Alicia", "Smith", "alice@example.com", "other"));
    assert EmailTaken(map[1 := Seller(1, "Alice", "Smith", "alice@example.com", "secret")], "alice@example.com");
    assert second == Conflict;
    assert store.sellers == map[1 := Seller(1, "Alice", "Smith", "alice@example.com", "secret")];
    var third := store.CreateSeller(SellerCreate("Alice", "Smith", "Alice@example.com", "secret"));
    assert "Alice@example.com" != "alice@example.com";
    assert third.Ok? && third.value.id == 2;
  }

  /**
   * Updating a seller does not check e-mails, so two sellers can end up
   * sharing one; registration then refuses that address.
   */
  method UpdateCanDuplicateEmail() {
    var store := new Store();
    var a := store.CreateSeller(SellerCreate("Alice", "Smith", "alice@example.com", "secret"));
    var b := store.CreateSeller(SellerCreate("Bob", "Jones", "bob@example.com", "secret"));
    assert a.Ok? && b.Ok? && a.value.id == 1 && b.value.id == 2;
    var u := store.UpdateSeller(2, SellerUpdate("Bob", "Jones", "alice@example.com"));
    assert u == Ok(SellerRead(2, "Bob", "Jones", "alice@example.com"));
    assert store.sellers[2].password == "secret";
    assert store.sellers[1].email == store.sellers[2].email;
    assert !EmailsUnique(store.sellers);
  }

  /**
   * The year rule applies on creation only, and before the owner is looked
   * up; an update may store an older year.
   */
  method YearRuleOnCreateOnly() {
    var store := new Store();
    var early := store.CreateBook(BookPayload("Mtsyri", "Lermontov", 2019, None, 7));
    assert early == Invalid;
    var orphan := store.CreateBook(BookPayload("Mtsyri", "Lermontov", 2020, None, 7));
    assert orphan == NotFound && store.books == map[];
    var s := store.CreateSeller(SellerCreate("Mikhail", "Lermontov", "ml@example.com", "secret"));
    assert s.Ok? && s.value.id == 1;
    var b := store.CreateBook(BookPayload("Mtsyri", "Lermontov", 2020, None, 1));
    assert b == Ok(ReturnedBook(1, "Mtsyri", "Lermontov", 2020, DefaultPages, 1));
    var u := store.UpdateBook(1, BookUpdate("Eugene Onegin", "Pushkin", 2001, 104));
    assert u == Ok(ReturnedBook(1, "Eugene Onegin", "Pushkin", 2001, 104, 1));
    assert store.books[1].year < MinYear;
  }

  /**
   * Deleting a seller removes all of its books and no other; a missing id
   * is NotFound.
   */
  method CascadeDeletion() {
    var store := new Store();
    var s1 := store.CreateSeller(SellerCreate("Eve", "Black", "eve@example.com", "secret"));
    var s2 := store.CreateSeller(SellerCreate("Carol", "White", "carol@example.com", "secret"));
    assert s1.Ok? && s2.Ok? && s1.value.id == 1 && s2.value.id == 2;
    var b1 := store.CreateBook(BookPayload("One", "Eve", 2021, Some(10), 1));
    var b2 := store.CreateBook(BookPayload("Two", "Eve", 2022, Some(20), 1));
    var b3 := store.CreateBook(BookPayload("Three", "Carol", 2023, Some(30), 2));
    assert b1.Ok? && b2.Ok? && b3.Ok?;
    assert store.books.Keys == {1, 2, 3};
    var d := store.DeleteSeller(1);
    assert d == Ok(());
    assert store.books == map[3 := Book(3, "Three", "Carol", 2023, 30, 2)];
    var g := store.GetBook(2);
    assert g == NotFound;
    var again := store.DeleteSeller(1);
    assert again == NotFound;
    var missing := store.DeleteBook(1);
    assert missing == NotFound;
  }
}
