/** The `Book` functions of days/day07/library_book/src/main.rs. A book is an object: it is
    lent (`&Book`), changed through `&mut Book`, and shared by the `Library` of references. */
module LibraryBook {
  import opened RustInt

  class Book {
    var title: string
    var pages: Usize

    constructor (title: string, pages: Usize)
      ensures this.title == title && this.pages == pages
    {
      this.title := title;
      this.pages := pages;
    }
  }

  /** `Library<'a>`: two references, not copies. */
  datatype Library = Library(book1: Book, book2: Book)

  /** `take_ownership` and `borrow_book` read the same field: how the book is passed makes no
      difference to the result. */
  function TakeOwnership(book: Book): (r: Usize)
    reads book
    ensures r == BorrowBook(book)
  {
    book.pages
  }

  function BorrowBook(book: Book): (r: Usize)
    reads book
    ensures r == book.pages
  {
    book.pages
  }

  /** `make_library`: the two books, by reference, in argument order. */
  function MakeLibrary(b1: Book, b2: Book): (r: Library)
    ensures r.book1 == b1 && r.book2 == b2
  {
    Library(b1, b2)
  }

  /** `add_pages_existing_book`: adds to the page count in place (the `usize` addition must
      not overflow); the title is untouched. */
  method AddPagesExistingBook(book: Book, extra: Usize)
    requires book.pages + extra <= U64_MAX
    modifies book
    ensures book.pages == old(book.pages) + extra && book.title == old(book.title)
  {
    book.pages := book.pages + extra;
  }

  /** `add_pages`: takes the book by value, adds to it and hands the same book back. */
  method AddPages(book: Book, extra: Usize) returns (r: Book)
    requires book.pages + extra <= U64_MAX
    modifies book
    ensures r == book && r.pages == old(book.pages) + extra && r.title == old(book.title)
  {
    book.pages := book.pages + extra;
    r := book;
  }

  /** `main`: the page counts and titles it asserts. */
  method MainScenario() returns (p1: nat, p: nat, lib1Pages: nat, lib2Title: string,
                                 b3Pages: nat, b4Pages: nat)
    ensures p1 == 500 && p == 500 && lib1Pages == 10 && lib2Title == "B"
    ensures b3Pages == 150 && b4Pages == 200
  {
    var b := new Book("Rust", 500);
    p1 := BorrowBook(b);
    p := TakeOwnership(b);
    var b1 := new Book("A", 10);
    var b2 := new Book("B", 20);
    var lib := MakeLibrary(b1, b2);
    lib1Pages := lib.book1.pages;
    lib2Title := lib.book2.title;
    var b3 := new Book("Test", 100);
    AddPagesExistingBook(b3, 50);
    b3Pages := b3.pages;
    var b4 := AddPages(b3, 50);
    b4Pages := b4.pages;
  }
}
