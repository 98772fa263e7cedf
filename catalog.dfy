/**
 * The book catalog service: an ordered, in-place list of books with keyword
 * search, a presence check, review attachment, and add/remove of entries.
 * Membership is decided by value equality (`SameBook`), evaluated on the
 * books' state at the moment of the check.
 */
module Catalog {
  import opened Domain

  // ---------------------------------------------------------------------
  // Keyword search
  // ---------------------------------------------------------------------

  /** `text.contains(keyword)`: the keyword starts at some position of the text. */
  predicate Occurs(keyword: string, text: string)
    ensures keyword <= text ==> Occurs(keyword, text)
    ensures Occurs(keyword, text) ==> |keyword| <= |text|
  {
    assert text[0..] == text;
    exists i | 0 <= i <= |text| :: keyword <= text[i..]
  }

  /** The search filter: the keyword occurs in the title, the author or the genre. */
  predicate Matches(b: Book, keyword: string)
    ensures keyword <= b.title ==> Matches(b, keyword)
    ensures Matches(b, keyword) ==> |keyword| <= |b.title| || |keyword| <= |b.author| || |keyword| <= |b.genre|
  {
    Occurs(keyword, b.title) || Occurs(keyword, b.author) || Occurs(keyword, b.genre)
  }

  /** `a` is obtained from `b` by deleting elements, keeping the order of the rest. */
  ghost predicate Subsequence<T>(a: seq<T>, b: seq<T>)
    decreases |b|
  {
    if a == [] then true
    else if b == [] then false
    else (a[0] == b[0] && Subsequence(a[1..], b[1..])) || Subsequence(a, b[1..])
  }

  /**
   * The stream filter of the search: the books of `books`, in their order,
   * that match `keyword`. Each matching book keeps all its occurrences and
   * no other book appears, so together with order this is exactly the filter.
   */
  function Filter(books: seq<Book>, keyword: string): (r: seq<Book>)
    ensures Subsequence(r, books) && multiset(r) <= multiset(books) && |r| <= |books|
    ensures forall i :: 0 <= i < |r| ==> r[i] in books && Matches(r[i], keyword)
    ensures forall i :: 0 <= i < |books| && Matches(books[i], keyword) ==>
              multiset(r)[books[i]] == multiset(books)[books[i]]
  {
    if books == [] then []
    else
      var b0, tail := books[0], books[1..];
      var rest := Filter(tail, keyword);
      assert books == [b0] + tail;
      assert multiset(books) == multiset{b0} + multiset(tail);
      assert forall i :: 0 < i < |books| ==> books[i] == tail[i - 1];
      if Matches(b0, keyword) then
        assert multiset([b0] + rest) == multiset{b0} + multiset(rest);
        assert forall i :: 0 < i <= |rest| ==> ([b0] + rest)[i] == rest[i - 1];
        [b0] + rest
      else
        rest
  }

  /** The empty keyword occurs in every text. */
  lemma EmptyKeywordOccurs(text: string)
    ensures Occurs("", text)
  {
  }

  /** Searching with the empty keyword returns the whole catalog, in order. */
  lemma {:induction false} FilterEmptyKeyword(books: seq<Book>)
    ensures Filter(books, "") == books
  {
    if books != [] {
      EmptyKeywordOccurs(books[0].title);
      FilterEmptyKeyword(books[1..]);
    }
  }

  /** A keyword that no book's title, author or genre contains finds nothing. */
  lemma FilterNoMatch(books: seq<Book>, keyword: string)
    requires forall i :: 0 <= i < |books| ==> !Matches(books[i], keyword)
    ensures Filter(books, keyword) == []
  {
  }

  // ---------------------------------------------------------------------
  // Membership by value
  // ---------------------------------------------------------------------

  /** `books.contains(b)`: some entry is value-equal to `b`. */
  ghost predicate ContainsBook(books: seq<Book>, b: Book)
    reads books, b
    ensures b in books ==> ContainsBook(books, b)
    ensures ContainsBook(books, b) ==> books != []
  {
    exists i :: 0 <= i < |books| && SameBook(b, books[i])
  }

  /**
   * `books.indexOf(b)`: the position of the first entry value-equal to `b`,
   * or -1 when there is none.
   */
  function IndexOf(books: seq<Book>, b: Book): (r: int)
    reads books, b
    ensures -1 <= r < |books|
    ensures r >= 0 ==> SameBook(b, books[r])
    ensures forall j :: 0 <= j < |books| && (r < 0 || j < r) ==> !SameBook(b, books[j])
    ensures r >= 0 <==> ContainsBook(books, b)
  {
    if books == [] then -1
    else if SameBook(b, books[0]) then 0
    else
      var k := IndexOf(books[1..], b);
      if k < 0 then -1 else k + 1
  }

  /** No two entries are value-equal: the catalog's duplicate-free invariant. */
  ghost predicate NoDuplicates(books: seq<Book>)
    reads books
  {
    forall i, j :: 0 <= i < j < |books| ==> !SameBook(books[i], books[j])
  }

  /** After appending `b`, the list contains `b`: a second add of it is rejected. */
  lemma AppendedIsPresent(books: seq<Book>, b: Book)
    ensures ContainsBook(books + [b], b)
  {
    assert SameBook(b, (books + [b])[|books|]);
  }

  /** Appending a book that is not present keeps a duplicate-free list duplicate-free. */
  lemma AppendAbsentKeepsDistinct(books: seq<Book>, b: Book)
    requires NoDuplicates(books) && !ContainsBook(books, b)
    ensures NoDuplicates(books + [b])
  {
    var s := books + [b];
    forall i, j | 0 <= i < j < |s|
      ensures !SameBook(s[i], s[j])
    {
      if j == |books| {
        assert !SameBook(b, books[i]);
      } else {
        assert s[i] == books[i] && s[j] == books[j];
      }
    }
  }

  /** Deleting one entry keeps a duplicate-free list duplicate-free. */
  lemma RemoveAtKeepsDistinct(books: seq<Book>, k: nat)
    requires k < |books| && NoDuplicates(books)
    ensures NoDuplicates(books[..k] + books[k + 1..])
  {
    var s := books[..k] + books[k + 1..];
    forall i, j | 0 <= i < j < |s|
      ensures !SameBook(s[i], s[j])
    {
      var i', j' := if i < k then i else i + 1, if j < k then j else j + 1;
      assert s[i] == books[i'] && s[j] == books[j'];
    }
  }

  /** In a duplicate-free list, removing the first match of `b` leaves no match of `b`. */
  lemma RemoveFirstLeavesNone(books: seq<Book>, b: Book)
    requires NoDuplicates(books) && ContainsBook(books, b)
    ensures var k := IndexOf(books, b); !ContainsBook(books[..k] + books[k + 1..], b)
  {
    var k := IndexOf(books, b);
    var s := books[..k] + books[k + 1..];
    forall i | 0 <= i < |s|
      ensures !SameBook(b, s[i])
    {
      if i < k {
        assert s[i] == books[i];
      } else {
        assert s[i] == books[i + 1];
        assert !SameBook(books[k], books[i + 1]);
      }
    }
  }

  // ---------------------------------------------------------------------
  // The service
  // ---------------------------------------------------------------------

  class BookService {
    /** `bookDatabase`: the catalog, in insertion order. */
    var db: seq<Book>

    /** A service with an empty catalog. */
    constructor ()
      ensures db == []
    {
      db := [];
    }

    /** A service seeded with an initial catalog. */
    constructor WithBooks(books: seq<Book>)
      ensures db == books
    {
      db := books;
    }

    /**
     * `searchBook`: the catalog books, in catalog order, whose title, author
     * or genre contains `keyword`. Reads only; changes nothing.
     */
    function SearchBook(keyword: string): (r: seq<Book>)
      reads this
      ensures Subsequence(r, db) && |r| <= |db|
      ensures forall i :: 0 <= i < |r| ==> r[i] in db && Matches(r[i], keyword)
      ensures forall i :: 0 <= i < |db| && Matches(db[i], keyword) ==>
                multiset(r)[db[i]] == multiset(db)[db[i]] && db[i] in r
      ensures keyword == "" ==> r == db
    {
      var r := Filter(db, keyword);
      if keyword == "" then FilterEmptyKeyword(db); r else r
    }

    /**
     * `purchaseBook`: a presence check only. True exactly when the catalog
     * holds a book value-equal to `book`; the user takes no part.
     */
    function PurchaseBook(user: User, book: Book): (r: bool)
      reads this, db, book
      ensures r <==> ContainsBook(db, book)
    {
      IndexOf(db, book) >= 0
    }

    /**
     * `addBookReview`: when `user` has purchased a book value-equal to
     * `book`, appends `review` (the empty one too) to `book`'s own reviews
     * in place; otherwise changes nothing. The catalog is untouched.
     */
    method AddBookReview(user: User, book: Book, review: string) returns (ok: bool)
      modifies book`reviews
      ensures ok <==> old(ContainsBook(user.purchasedBooks, book))
      ensures book.reviews == if ok then old(book.reviews) + [review] else old(book.reviews)
      ensures unchanged(this) && unchanged(user)
    {
      if IndexOf(user.purchasedBooks, book) < 0 {
        return false;
      }
      book.reviews := book.reviews + [review];
      return true;
    }

    /**
     * `addBook`: rejects a book value-equal to one already in the catalog;
     * otherwise appends it. Either way the book is in the catalog afterwards,
     * and a duplicate-free catalog stays duplicate-free.
     */
    method AddBook(book: Book) returns (ok: bool)
      modifies this
      ensures ok <==> !old(ContainsBook(db, book))
      ensures db == if ok then old(db) + [book] else old(db)
      ensures ContainsBook(db, book)
      ensures old(NoDuplicates(db)) ==> NoDuplicates(db)
    {
      if IndexOf(db, book) >= 0 {
        return false;
      }
      if NoDuplicates(db) {
        AppendAbsentKeepsDistinct(db, book);
      }
      AppendedIsPresent(db, book);
      db := db + [book];
      return true;
    }

    /**
     * `removeBook` (`List.remove(Object)`): deletes the first entry
     * value-equal to `book` and keeps the others in order; false, and no
     * change, when there is none. In a duplicate-free catalog the book is
     * then absent.
     */
    method RemoveBook(book: Book) returns (ok: bool)
      modifies this
      ensures ok <==> old(ContainsBook(db, book))
      ensures !ok ==> db == old(db)
      ensures ok ==> var k := old(IndexOf(db, book));
                     db == old(db[..k] + db[k + 1..]) && |db| == |old(db)| - 1
      ensures old(NoDuplicates(db)) ==> NoDuplicates(db) && !ContainsBook(db, book)
    {
      var k := IndexOf(db, book);
      if k < 0 {
        return false;
      }
      if NoDuplicates(db) {
        RemoveAtKeepsDistinct(db, k);
        RemoveFirstLeavesNone(db, book);
      }
      db := db[..k] + db[k + 1..];
      return true;
    }
  }
}
