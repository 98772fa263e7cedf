/**
 * The two entities the bookstore services operate on, `Book` and `User`,
 * and the value equality the catalog uses to compare books.
 *
 * Both are reference types: a book placed in the catalog and in a user's
 * purchased books is one object, so a review added through one holder is
 * seen through every other.
 */
module Domain {

  /** The result of a lookup that may find nothing (a Java `null`). */
  datatype Option<T> = None | Some(value: T)

  /**
   * A catalog entry. Title, author, genre and price never change after
   * construction; the list of reviews grows in place.
   * The price is a Java `double`; here it is an integer that only takes
   * part in book equality.
   */
  class Book {
    const title: string
    const author: string
    const genre: string
    const price: int
    var reviews: seq<string>

    constructor (title: string, author: string, genre: string, price: int, reviews: seq<string>)
      ensures this.title == title && this.author == author && this.genre == genre
      ensures this.price == price && this.reviews == reviews
    {
      this.title := title;
      this.author := author;
      this.genre := genre;
      this.price := price;
      this.reviews := reviews;
    }
  }

  /**
   * `a.equals(b)`: two books are the same book when all their fields,
   * including the reviews as they are at the moment of the comparison,
   * are equal.
   */
  predicate SameBook(a: Book, b: Book)
    reads a, b
    ensures a == b ==> SameBook(a, b)
    ensures SameBook(a, b) ==> a.title == b.title && a.reviews == b.reviews
  {
    && a.title == b.title
    && a.author == b.author
    && a.genre == b.genre
    && a.price == b.price
    && a.reviews == b.reviews
  }

  /** An account. Username, password and email are changed in place by a profile update. */
  class User {
    var username: string
    var password: string
    var email: string
    var purchasedBooks: seq<Book>

    /** A user who has not purchased anything yet. */
    constructor (username: string, password: string, email: string)
      ensures this.username == username && this.password == password && this.email == email
      ensures purchasedBooks == []
    {
      this.username := username;
      this.password := password;
      this.email := email;
      this.purchasedBooks := [];
    }

    /** A user who already holds the given books (the same objects, not copies). */
    constructor WithPurchases(username: string, password: string, email: string, purchasedBooks: seq<Book>)
      ensures this.username == username && this.password == password && this.email == email
      ensures this.purchasedBooks == purchasedBooks
    {
      this.username := username;
      this.password := password;
      this.email := email;
      this.purchasedBooks := purchasedBooks;
    }
  }
}
