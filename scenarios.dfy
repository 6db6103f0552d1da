/**
 * Request sequences against one table, proved from the handlers' contracts
 * alone: what a create, get and delete promise about each other.
 */
module Scenarios {
  import opened BookStore
  import opened BookParser
  import opened Catalog

  /** A book created through the API is what a following get returns. */
  method CreateThenGet(db: BookDb, args: Args) returns (created: ApiResponse, fetched: ApiResponse)
    requires "title" in args && "author" in args
    modifies db
    ensures created.status == 201 && fetched.status == 200
    ensures fetched.body == created.body && fetched.body.BookObject?
    ensures fetched.body.book.title == args["title"] && fetched.body.book.author == args["author"]
    ensures fetched.body.book.id !in old(db.rows)
  {
    created := db.Post(args);
    fetched := db.Get(created.body.book.id);
  }

  /** After a delete, the book is gone, and a second delete of the same id answers 404. */
  method DeleteTwice(db: BookDb, id: int) returns (first: ApiResponse, second: ApiResponse, fetched: ApiResponse)
    modifies db
    ensures first.status == 200 <==> id in old(db.rows)
    ensures second == ApiResponse(404, Message(BookNotFound))
    ensures fetched == ApiResponse(404, Message(BookNotFound))
    ensures db.rows == old(db.rows) - {id}
  {
    first := db.Delete(id);
    second := db.Delete(id);
    fetched := db.Get(id);
  }

  /** The page delete leaves the table exactly as the API delete does. */
  method PageDeleteLikeApiDelete(api: BookDb, page: BookDb, id: int)
      returns (r: ApiResponse, p: PageResponse)
    requires api != page && api.rows == page.rows
    modifies api, page
    ensures api.rows == page.rows
    ensures p == RedirectToIndex && (r.status == 200 <==> id in old(api.rows))
  {
    r := api.Delete(id);
    p := page.DeleteBookPage(id);
  }

  /** Create, get, delete, get on a new table. */
  method CreateGetDeleteGet() returns (created: ApiResponse, fetched: ApiResponse, deleted: ApiResponse, missing: ApiResponse)
    ensures created.status == 201 && created.body.BookObject?
    ensures created.body.book.title == "Dune" && created.body.book.author == "Herbert"
    ensures fetched == ApiResponse(200, created.body)
    ensures deleted == ApiResponse(200, Message(BookDeleted))
    ensures missing == ApiResponse(404, Message(BookNotFound))
  {
    var db := new BookDb();
    created := db.Post(map["title" := "Dune", "author" := "Herbert"]);
    var id := created.body.book.id;
    fetched := db.Get(id);
    deleted := db.Delete(id);
    missing := db.Get(id);
  }

  /** A create without a title is refused with the title's message and stores nothing. */
  method CreateWithoutTitle() returns (created: ApiResponse, listed: ApiResponse)
    ensures created == ApiResponse(400, ArgumentMessage("title", TitleHelp))
    ensures listed == ApiResponse(200, BookArray([]))
  {
    var db := new BookDb();
    created := db.Post(map["author" := "X"]);
    listed := db.List();
    ListingLength(listed.body.books, db.rows);
  }

  /** An empty title is present, so the create succeeds and the book is listed. */
  method CreateWithEmptyTitle() returns (created: ApiResponse, listed: ApiResponse)
    ensures created.status == 201 && created.body.BookObject? && created.body.book.title == ""
    ensures listed.status == 200 && listed.body.BookArray? && listed.body.books == [created.body.book]
  {
    var db := new BookDb();
    created := db.Post(map["title" := "", "author" := "X"]);
    listed := db.List();
    ListingLength(listed.body.books, db.rows);
    assert |db.rows| == 1 by {
      assert db.rows.Keys == {created.body.book.id};
    }
    assert Stored(listed.body.books[0], db.rows);
  }
}
