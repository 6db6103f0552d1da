/**
 * The book table behind the application and the request handlers on it:
 * the JSON resources for one book (get, delete) and for the collection
 * (list, create), and the page handlers (index, add, delete).
 */
module Catalog {
  import opened Wrappers
  import opened BookStore
  import opened BookParser

  const BookNotFound: string := "Book not found"
  const BookDeleted: string := "Book deleted"

  /** A JSON response body. */
  datatype Body =
    | BookObject(book: BookJson)           // {'id': …, 'title': …, 'author': …}
    | BookArray(books: seq<BookJson>)      // [{…}, …]
    | Message(text: string)                // {'message': text}
    | ArgumentMessage(name: string, help: string)  // {'message': {name: help}}

  /** A JSON response: HTTP status and body. */
  datatype ApiResponse = ApiResponse(status: int, body: Body)

  /** A page-handler response: a redirect to the index page, or a 400 for a missing form key. */
  datatype PageResponse = RedirectToIndex | BadRequest {
    function Status(): int {
      if RedirectToIndex? then 302 else 400
    }
  }

  /** The session over the `Book` table; `rows` is the committed content of the table. */
  class BookDb {
    var rows: Table

    /** A fresh, empty table. */
    constructor ()
      ensures rows == map[]
    {
      rows := map[];
    }

    /** Adds a row and commits; the storage engine assigns a primary key not in use. */
    method Insert(rec: Record) returns (id: int)
      modifies this
      ensures id !in old(rows)
      ensures rows == old(rows)[id := rec]
    {
      id := NextRowId(rows);
      rows := rows[id := rec];
    }

    /** Deletes the row stored under `id` and commits. */
    method Remove(id: int)
      requires id in rows
      modifies this
      ensures rows == old(rows) - {id}
      ensures |rows| == |old(rows)| - 1
    {
      rows := rows - {id};
    }

    /** `GET /api/books/<id>`: the stored book, or 404 when there is none. */
    function Get(id: int): (r: ApiResponse)
      reads this
      ensures r.status == 200 <==> id in rows
      ensures id in rows ==> r.body.BookObject? && r.body.book.id == id
                             && Record(r.body.book.title, r.body.book.author) == rows[id]
      ensures id !in rows ==> r.body == Message(BookNotFound) && r.status == 404
    {
      if id !in rows then ApiResponse(404, Message(BookNotFound))
      else ApiResponse(200, BookObject(Serialise(rows, id)))
    }

    /** `DELETE /api/books/<id>`: removes that one book, or answers 404 and changes nothing. */
    method Delete(id: int) returns (r: ApiResponse)
      modifies this
      ensures id in old(rows) ==> r == ApiResponse(200, Message(BookDeleted)) && rows == old(rows) - {id}
      ensures id !in old(rows) ==> r == ApiResponse(404, Message(BookNotFound)) && rows == old(rows)
    {
      if id !in rows {
        return ApiResponse(404, Message(BookNotFound));
      }
      Remove(id);
      r := ApiResponse(200, Message(BookDeleted));
    }

    /** Every row of the table, serialised, in no promised order. */
    method QueryAll() returns (books: seq<BookJson>)
      ensures Lists(books, rows)
    {
      books := [];
      var pending := rows.Keys;
      while pending != {}
        invariant pending <= rows.Keys
        invariant forall i :: 0 <= i < |books| ==> Stored(books[i], rows) && books[i].id !in pending
        invariant DistinctIds(books)
        invariant forall id :: id in rows && id !in pending ==> exists i :: 0 <= i < |books| && books[i].id == id
        decreases pending
      {
        // Turns `pending != {}` into an element for the pick below.
        if forall k :: k !in pending {
          assert false;
        }
        var id :| id in pending;
        ghost var before := books;
        books := books + [Serialise(rows, id)];
        pending := pending - {id};
        forall k | k in rows && k !in pending
          ensures exists i :: 0 <= i < |books| && books[i].id == k
        {
          if k == id {
            assert books[|before|].id == k;
          } else {
            var i :| 0 <= i < |before| && before[i].id == k;
            assert books[i].id == k;
          }
        }
      }
    }

    /** `GET /api/books`: 200 with one entry per stored book. */
    method List() returns (r: ApiResponse)
      ensures r.status == 200 && r.body.BookArray?
      ensures Lists(r.body.books, rows)
    {
      var books := QueryAll();
      r := ApiResponse(200, BookArray(books));
    }

    /** `POST /api/books`: parses both arguments before touching the table, then inserts. */
    method Post(args: Args) returns (r: ApiResponse)
      modifies this
      ensures ParseBookArgs(args).Failure? ==>
                var e := ParseBookArgs(args).error;
                r == ApiResponse(400, ArgumentMessage(e.name, e.help)) && rows == old(rows)
      ensures ParseBookArgs(args).Success? ==>
                && r.status == 201 && r.body.BookObject?
                && r.body.book.id !in old(rows)
                && rows == old(rows)[r.body.book.id := ParseBookArgs(args).value]
                && Stored(r.body.book, rows)
    {
      var parsed := ParseBookArgs(args);
      if parsed.Failure? {
        return ApiResponse(400, ArgumentMessage(parsed.error.name, parsed.error.help));
      }
      var id := Insert(parsed.value);
      r := ApiResponse(201, BookObject(Serialise(rows, id)));
    }

    /** `GET /`: the books handed to the page template. */
    method Index() returns (books: seq<BookJson>)
      ensures Lists(books, rows)
    {
      books := QueryAll();
    }

    /** `POST /add`: inserts the form's title and author as given, then redirects. */
    method AddBookPage(form: Args) returns (r: PageResponse)
      modifies this
      ensures ("title" !in form || "author" !in form) ==> r == BadRequest && r.Status() == 400 && rows == old(rows)
      ensures ("title" in form && "author" in form) ==>
                && r == RedirectToIndex && r.Status() == 302
                && exists id :: id !in old(rows) && rows == old(rows)[id := Record(form["title"], form["author"])]
    {
      if "title" !in form || "author" !in form {
        return BadRequest;
      }
      var id := Insert(Record(form["title"], form["author"]));
      r := RedirectToIndex;
    }

    /** `GET /delete/<id>`: removes the book if there is one, and redirects either way. */
    method DeleteBookPage(id: int) returns (r: PageResponse)
      modifies this
      ensures r == RedirectToIndex && r.Status() == 302
      ensures id in old(rows) ==> rows == old(rows) - {id}
      ensures id !in old(rows) ==> rows == old(rows)
    {
      if id in rows {
        Remove(id);
      }
      r := RedirectToIndex;
    }
  }
}
