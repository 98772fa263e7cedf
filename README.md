# Bookstore services in Dafny

A model of the two in-memory services of a small bookstore domain, with
their contracts proved:

- **BookService** keeps an ordered catalog of books (`bookDatabase`). It
  offers keyword search, a purchase presence check, reviews restricted to
  buyers, duplicate-rejecting add, and first-occurrence remove.
- **UserService** keeps a map from username to user (`userDatabase`). It
  offers registration, login and in-place profile update.

Layout:

- `domain.dfy` (module `Domain`): the entities. `Book` and `User` are
  classes because the services share and mutate them in place. A review
  appended to a book is seen through the catalog and through every user's
  purchased list that holds the same object. `SameBook` is the value
  equality (`Book.equals`) that `contains` and `remove` use. It compares
  title, author, genre, price and the reviews as they are at the moment of
  the check.
- `catalog.dfy` (module `Catalog`): the search filter (`Filter`, `Matches`,
  `Occurs` for `String.contains`), `IndexOf` for `List.indexOf`, the
  duplicate-free predicate `NoDuplicates`, lemmas about them, and the class
  `BookService`. The class has a `seq<Book>` field and methods that
  reassign it.
- `accounts.dfy` (module `Accounts`): the class `UserService`. It has a
  `map<string, User>` field. `Keyed()` says that every key names the user it
  maps to. Registration keeps that invariant. The update as written does
  not (see Findings).
- `scenarios.dfy` (module `Scenarios`): scenarios taken from the unit
  tests, a one-book "Dune" catalog searched by title, by an unknown keyword
  and by "", and a user "alice" registered twice, plus the witnesses for the
  findings.

Where the comments or tests and the code differ, the model follows the code:

- The comment at `src/main/java/org/example/UserService.java:53` says the
  new name is refused only when it is "taken by another user". The check at
  :54 refuses any existing key, the user's own name included.
- The unit test at `src/test/java/org/example/UserServiceTest.java:35-40`
  expects an empty username to be refused. The code accepts it, and so does
  the model (`Scenarios.RegisterEmptyUsername`).

## Model

| member | source | states |
|---|---|---|
| `Domain.Book.constructor` | src/test/java/org/example/BookServiceTest.java:33 | a new book holds exactly the given title, author, genre, price and reviews |
| `Domain.User.constructor` | src/test/java/org/example/UserServiceTest.java:20 | a new user holds the given username, password and email and has no purchased books |
| `Domain.User.WithPurchases` | src/test/java/org/example/BookServiceTest.java:109 | a new user holds the given credentials and the given purchased books (the same objects, not copies) |
| `Domain.SameBook` | src/main/java/org/example/BookService.java:31 | the `Book.equals` that `contains` and `remove` use (also at :36, :46, :56): all five fields equal, reviews compared as they are now; every book equals itself; equal books have the same title and reviews |
| `Catalog.Occurs` | src/main/java/org/example/BookService.java:23 | `String.contains`: the keyword starts at some position of the text; a prefix of the text occurs in it; an occurring keyword is no longer than the text |
| `Catalog.Matches` | src/main/java/org/example/BookService.java:23-25 | the filter lambda: the keyword occurs in title, author or genre; a prefix of the title matches; a matching keyword fits in one of the three fields |
| `Catalog.ContainsBook` | src/main/java/org/example/BookService.java:36 | `List.contains`: some entry is value-equal to the book; a list holding the very object contains it; an empty list contains nothing |
| `Catalog.Filter` | src/main/java/org/example/BookService.java:22-26 | the search result is a subsequence of the catalog (order kept); every element matches the keyword in title, author or genre; every matching catalog book keeps all its occurrences |
| `Catalog.EmptyKeywordOccurs` | src/main/java/org/example/BookService.java:23-25 | the empty keyword is contained in every string, as with `String.contains` |
| `Catalog.FilterEmptyKeyword` | src/test/java/org/example/BookServiceTest.java:54-64 | searching with "" returns the whole catalog in its order |
| `Catalog.FilterNoMatch` | src/test/java/org/example/BookServiceTest.java:44-51 | a keyword that no title, author or genre contains yields the empty list |
| `Catalog.IndexOf` | src/main/java/org/example/BookService.java:46 | the first position of a value-equal entry, or -1; it is non-negative exactly when the list contains the book by value |
| `Catalog.AppendedIsPresent` | src/main/java/org/example/BookService.java:45-52 | after an append the list contains the book, so adding it again is refused |
| `Catalog.AppendAbsentKeepsDistinct` | src/main/java/org/example/BookService.java:46-50 | appending a book that is absent keeps a duplicate-free catalog duplicate-free |
| `Catalog.RemoveAtKeepsDistinct` | src/main/java/org/example/BookService.java:55-57 | deleting one entry keeps a duplicate-free catalog duplicate-free |
| `Catalog.RemoveFirstLeavesNone` | src/main/java/org/example/BookService.java:55-57 | in a duplicate-free catalog, deleting the first match leaves no value-equal entry |
| `Catalog.BookService.constructor` | src/main/java/org/example/BookService.java:11-13 | a default service starts with an empty catalog |
| `Catalog.BookService.WithBooks` | src/main/java/org/example/BookService.java:16-18 | a seeded service starts with exactly the given catalog |
| `Catalog.BookService.SearchBook` | src/main/java/org/example/BookService.java:21-27 | the result is a subsequence of the catalog, no longer than it; each element is a catalog book that matches; each matching catalog book is in it with all its occurrences; "" returns the catalog |
| `Catalog.BookService.PurchaseBook` | src/main/java/org/example/BookService.java:30-32 | true iff some catalog book is value-equal to the argument; a function, so nothing changes |
| `Catalog.BookService.AddBookReview` | src/main/java/org/example/BookService.java:35-42 | true iff the user's purchased books hold a value-equal book; then the book's reviews are the old ones plus the review at the end, otherwise unchanged; catalog and user untouched |
| `Catalog.BookService.AddBook` | src/main/java/org/example/BookService.java:45-52 | refused (catalog unchanged) iff a value-equal book is present; otherwise the catalog is the old one plus the book; the book is present afterwards; duplicate-freedom is preserved |
| `Catalog.BookService.RemoveBook` | src/main/java/org/example/BookService.java:55-57 | true iff a value-equal book was present; then exactly the first match is deleted and the rest keep their order; on false nothing changes; duplicate-freedom is preserved and the book is then absent |
| `Accounts.UserService.constructor` | src/main/java/org/example/UserService.java:12-14 | a default service starts with no accounts |
| `Accounts.UserService.WithUsers` | src/main/java/org/example/UserService.java:17-19 | a seeded service starts with exactly the given map |
| `Accounts.UserService.RegisterUser` | src/main/java/org/example/UserService.java:22-31 | refused (map unchanged) iff the username is a key; otherwise exactly that entry is added and logging in with the user's credentials returns the user; keeps every key naming its user |
| `Accounts.UserService.LoginUser` | src/main/java/org/example/UserService.java:34-49 | returns the stored user iff the username is a key and the stored password equals the given one, otherwise none; a function, so nothing changes |
| `Accounts.UserService.UpdateUserProfile` | src/main/java/org/example/UserService.java:52-66 | refused (user and map unchanged) iff the new name is any key, the user's own included; otherwise the user carries the new username, password and email, the new name maps to the user, every old key keeps its object, and login with the new credentials returns the user |
| `Accounts.UserService.UpdateUserProfileRekeyed` | src/main/java/org/example/UserService.java:8-9 | the update with the check the comment at :53 describes (refused only when the new name belongs to another user), and with the user's old entry dropped so that each key stays its user's username, as the field comment at :8 says; the map afterwards is exactly the old one without the user's entries, plus the new name |
| `Scenarios.SearchDune` | src/test/java/org/example/BookServiceTest.java:31-64 | a one-book catalog: a title search finds the book, an unknown keyword finds nothing, "" finds everything |
| `Scenarios.PurchasePresence` | src/test/java/org/example/BookServiceTest.java:69-90 | purchase is true for a catalog book and false for one not in the catalog |
| `Scenarios.ReviewThroughSharedBook` | src/test/java/org/example/BookServiceTest.java:105-142 | a buyer's review and an empty review are appended and seen through the catalog; a non-buyer is refused |
| `Scenarios.AddRemoveTwice` | src/test/java/org/example/BookServiceTest.java:147-202 | the second add of a book and the second remove of it are refused |
| `Scenarios.ReviewCanDuplicate` | src/main/java/org/example/BookService.java:40 | a review can make two catalog entries value-equal: duplicates are refused only when a book is added |
| `Scenarios.RegisterAlice` | src/test/java/org/example/UserServiceTest.java:26-33 | a second registration of a name is refused; login succeeds with the first password and fails with another |
| `Scenarios.RegisterEmptyUsername` | src/main/java/org/example/UserService.java:24-30 | an empty username is registered like any other |
| `Scenarios.OwnNameRejected` | src/main/java/org/example/UserService.java:54-56 | as written, a user cannot keep their own username while changing the password |
| `Scenarios.OwnNameAccepted` | src/main/java/org/example/UserService.java:53 | with the intended check, keeping one's own username succeeds and login uses the new password |
| `Scenarios.StaleKeyKept` | src/main/java/org/example/UserService.java:59-64 | as written, after a rename the old key still maps to the renamed user, who can log in under the old name |
| `Scenarios.StaleKeyDropped` | src/main/java/org/example/UserService.java:59-64 | with the intended update, the old name is no longer a key and every key names its user |

## Left out

- Null arguments. Books and users are non-null references. The unit tests
  that pass `null` to purchase, add or remove are not modelled; the code
  has no null guard for them.
- Aliasing through the constructors. The seeded constructors copy the
  initial catalog or map into the service. A list or map injected by the
  caller and mutated later, outside the service, is not shared.
- Price. It is a Java `double`. Here it is an `int` that only takes part in
  book equality; no floating-point behaviour is modelled.
- Book and user equality and accessors. `Book.java` and `User.java` are
  not part of this model. `SameBook` assumes `Book.equals` compares all five
  fields by value. User getters and setters are direct field reads and
  writes.
- Java library internals: `HashMap` hashing and iteration order, and the
  `Stream` pipeline (modelled by its result, `Filter`).
- The mock and spy scaffolding of the unit tests. `UserServiceTest.java:30`
  does not compile, because the email literal is unquoted.
- Concurrency. There is none; the services are single-threaded.

## Findings

| source | as written | input that shows it | evidently intended | confidence | as-written member | corrected member |
|---|---|---|---|---|---|---|
| src/main/java/org/example/UserService.java:54-56 | refuses the new username whenever it is already a key, including the user's own current name | register "alice"; update "alice" to username "alice", password "pw2": returns false | the comment at :53 refuses only a name taken by another user | medium, not executed | `Scenarios.OwnNameRejected` | `Accounts.UserService.UpdateUserProfileRekeyed` |
| src/main/java/org/example/UserService.java:59-64 | puts the user under the new name and leaves the old key mapped to the renamed user | register "alice"; update to "alice2", "pw2": `db["alice"]` is the renamed user, and login("alice", "pw2") succeeds | the old key is removed so that each key is its user's username, as the field comment at :8 says | medium, not executed | `Scenarios.StaleKeyKept` | `Accounts.UserService.UpdateUserProfileRekeyed` |
