/**
 * Scenarios of the two services, taken from the unit tests (plus a
 * one-book "Dune" catalog and a user "alice" registered twice), and the
 * witnesses for the two profile-update discrepancies listed under Findings
 * in README.md.
 */
module Scenarios {
  import opened Domain
  import opened Catalog
  import opened Accounts

  /** A one-book catalog: a title search finds the book, an unknown keyword nothing, "" everything. */
  method SearchDune() returns (byTitle: seq<Book>, unknown: seq<Book>, everything: seq<Book>, dune: Book)
    ensures byTitle == [dune] && unknown == [] && everything == [dune]
  {
    dune := new Book("Dune", "Herbert", "SciFi", 999, []);
    var svc := new BookService.WithBooks([dune]);
    assert "Dune" <= dune.title[0..];
    byTitle := svc.SearchBook("Dune");
    FilterNoMatch([dune], "Nonexistent");
    unknown := svc.SearchBook("Nonexistent");
    everything := svc.SearchBook("");
  }

  /** Purchase is a presence check: a catalog book yes, a value-different book no. */
  method PurchasePresence() returns (inCatalog: bool, notInCatalog: bool)
    ensures inCatalog && !notInCatalog
  {
    var book1 := new Book("Title1", "Author1", "Genre1", 999, []);
    var book2 := new Book("Title2", "Author2", "Genre2", 1299, []);
    var user := new User("username", "password", "email");
    var svc := new BookService.WithBooks([book1]);
    inCatalog := svc.PurchaseBook(user, book1);
    notInCatalog := svc.PurchaseBook(user, book2);
  }

  /**
   * A review by a user who bought the book is appended, the empty review
   * too, and is seen through the catalog that shares the book; a user who
   * did not buy it is refused.
   */
  method ReviewThroughSharedBook() returns (bought: bool, empty: bool, notBought: bool, seen: seq<string>)
    ensures bought && empty && !notBought
    ensures seen == ["Great book!", ""]
  {
    var book1 := new Book("Title1", "Author1", "Genre1", 999, []);
    var svc := new BookService.WithBooks([book1]);
    var buyer := new User.WithPurchases("username", "password", "email", [book1]);
    var other := new User("other", "password", "email");
    bought := svc.AddBookReview(buyer, book1, "Great book!");
    empty := svc.AddBookReview(buyer, book1, "");
    notBought := svc.AddBookReview(other, book1, "Great book!");
    seen := svc.db[0].reviews;
  }

  /** Adding a book twice: the second add is refused. Removing it twice: the second remove is refused. */
  method AddRemoveTwice() returns (add1: bool, add2: bool, remove1: bool, remove2: bool)
    ensures add1 && !add2 && remove1 && !remove2
  {
    var book1 := new Book("Title1", "Author1", "Genre1", 999, []);
    var svc := new BookService();
    add1 := svc.AddBook(book1);
    add2 := svc.AddBook(book1);
    assert NoDuplicates([]);
    remove1 := svc.RemoveBook(book1);
    remove2 := svc.RemoveBook(book1);
  }

  /**
   * Duplicates are refused only when a book is added: a review can make two
   * catalog books value-equal afterwards.
   */
  method ReviewCanDuplicate() returns (svc: BookService)
    ensures |svc.db| == 2 && SameBook(svc.db[0], svc.db[1])
  {
    var plain := new Book("Title1", "Author1", "Genre1", 999, []);
    var reviewed := new Book("Title1", "Author1", "Genre1", 999, ["x"]);
    svc := new BookService();
    var ok := svc.AddBook(plain);
    ok := svc.AddBook(reviewed);
    var user := new User.WithPurchases("username", "password", "email", [plain]);
    ok := svc.AddBookReview(user, plain, "x");
  }

  /** Registering "alice" twice and logging in with the right and the wrong password. */
  method RegisterAlice() returns (first: bool, second: bool, right: Option<User>, wrong: Option<User>, alice: User)
    ensures first && !second && right == Some(alice) && wrong == None
  {
    alice := new User("alice", "pw1", "a@x.com");
    var alice2 := new User("alice", "pw2", "b@x.com");
    var svc := new UserService();
    first := svc.RegisterUser(alice);
    second := svc.RegisterUser(alice2);
    right := svc.LoginUser("alice", "pw1");
    wrong := svc.LoginUser("alice", "pw2");
  }

  /** An empty username is accepted like any other. */
  method RegisterEmptyUsername() returns (ok: bool)
    ensures ok
  {
    var user := new User("", "password123", "joblow@example.com");
    var svc := new UserService();
    ok := svc.RegisterUser(user);
  }

  /** As written: a registered user cannot keep their username while changing the password. */
  method OwnNameRejected() returns (ok: bool)
    ensures !ok
  {
    var alice := new User("alice", "pw1", "a@x.com");
    var svc := new UserService();
    var registered := svc.RegisterUser(alice);
    ok := svc.UpdateUserProfile(alice, "alice", "pw2", "a@x.com");
  }

  /** As intended: keeping one's own username is allowed. */
  method OwnNameAccepted() returns (ok: bool, login: Option<User>, alice: User)
    ensures ok && login == Some(alice)
  {
    alice := new User("alice", "pw1", "a@x.com");
    var svc := new UserService();
    var registered := svc.RegisterUser(alice);
    ok := svc.UpdateUserProfileRekeyed(alice, "alice", "pw2", "a@x.com");
    login := svc.LoginUser("alice", "pw2");
  }

  /**
   * As written: after renaming "alice" to "alice2" the old key still maps to
   * the renamed user, who can log in under the old name with the new password.
   */
  method StaleKeyKept() returns (svc: UserService, alice: User)
    ensures "alice" in svc.db && svc.db["alice"] == alice && alice.username == "alice2"
    ensures !svc.Keyed()
    ensures svc.LoginUser("alice", "pw2") == Some(alice)
  {
    alice := new User("alice", "pw1", "a@x.com");
    svc := new UserService();
    var registered := svc.RegisterUser(alice);
    var ok := svc.UpdateUserProfile(alice, "alice2", "pw2", "a@x.com");
  }

  /** As intended: after the rename the old name is free and every key names its user. */
  method StaleKeyDropped() returns (svc: UserService, alice: User)
    ensures "alice" !in svc.db && svc.db == map["alice2" := alice] && svc.Keyed()
    ensures alice.username == "alice2"
  {
    alice := new User("alice", "pw1", "a@x.com");
    svc := new UserService();
    var registered := svc.RegisterUser(alice);
    var ok := svc.UpdateUserProfileRekeyed(alice, "alice2", "pw2", "a@x.com");
  }
}
