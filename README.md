# Book catalog: a verified model of the table and its request handlers

The application keeps one table of books (`Book`: an integer primary key
`id`, and `title` and `author` strings) and serves it two ways: a JSON
API (`/api/books` to list and create, `/api/books/<id>` to get and delete)
and an HTML page (`/` lists, `/add` creates from a form, `/delete/<id>`
deletes). This project models the table and the six handlers in Dafny and
proves what each handler does to the table and what it answers.

- `wrappers.dfy`: module `Wrappers`, the `Result` datatype.
- `store.dfy`: module `BookStore`. A row is a `Record(title, author)`, the
  table is a `map<int, Record>` from primary key to row, and `BookJson` is the
  `{'id', 'title', 'author'}` dictionary the handlers return (the source's
  `Book` model is a key of the table together with its `Record`). `NextRowId` is
  how the storage engine picks the key of a new row: one more than the
  largest key, or 1 for an empty table. `Lists(books, t)` says what a listing
  of the table is: every entry is a stored row, no id twice, every row
  present, in no particular order. The lemmas prove that a listing has one
  entry per row, that its entries are exactly the table's rows, and that
  two listings of the same table are permutations of each other.
- `parser.dfy`: module `BookParser`, the request parser of the create
  endpoint. `title` and then `author` must be present. The first missing one
  fails with its help text. Any present string is accepted, the empty one
  included.
- `catalog.dfy`: module `Catalog`. Class `BookDb` holds the committed
  table in its field `rows`. The handlers are its members:
  - `Get`: a read-only function.
  - `QueryAll`, `List`, `Index`: read-only methods. `QueryAll` takes the
    rows in an arbitrary order, like a query without `order_by`.
  - `Delete`, `Post`, `AddBookPage`, `DeleteBookPage`: methods that change
    `rows`, each ending in one atomic commit through `Insert` or `Remove`.
- `scenarios.dfy`: module `Scenarios`, request sequences proved from the
  handlers' contracts alone. They cover create-then-get, delete twice,
  page delete against API delete, create/get/delete/get on a new table, a
  create without a title, and a create with an empty title.

Three points where the code promises less than its messages or its
storage might suggest, and the model keeps to the code:
- The help texts say "cannot be blank", but `required=True`
  (app/main.py:34-35) only checks that the field is present, so an empty
  title is stored (`BookParser.EmptyTitleAccepted`,
  `Scenarios.CreateWithEmptyTitle`).
- Whether a deleted id is given out again is up to SQLite, so handler
  contracts state only that a new id is not already in the table.
- `Book.query.all()` (app/main.py:54) has no `order_by`, so a listing is
  promised complete and duplicate-free, in no particular order.

## Model

| member | source | states |
|---|---|---|
| `BookStore.NextRowId` | app/main.py:20 | the key given to a new row is not in the table and is larger than every key in it; it is 1 for an empty table and otherwise one more than a key in the table |
| `BookStore.ListingLength` | app/main.py:54-55 | a listing of the table has exactly as many entries as the table has rows |
| `BookStore.ListingEntries` | app/main.py:54-55 | a book is in a listing if and only if it is the serialised form of a stored row |
| `BookStore.ListingsArePermutations` | app/main.py:54 | any two listings of the same table hold the same entries (equal multisets), so only the order is left open |
| `BookParser.ParseBookArgs` | app/main.py:33-35 | parsing succeeds if and only if both `title` and `author` are present, and yields those two values; a missing `title` fails with `'Title cannot be blank!'` whatever `author` is; a present `title` with `author` missing fails with `'Author cannot be blank!'` |
| `BookParser.EmptyTitleAccepted` | app/main.py:34 | an empty title is accepted: presence is the only check |
| `Catalog.BookDb.constructor` | app/main.py:28-30 | a new database file starts with an empty table; every handler's contract holds for any table, so a restart over an existing file is covered too |
| `Catalog.BookDb.Insert` | app/main.py:60-61 | add-and-commit stores the record under a key not previously in the table and leaves every other row as it was |
| `Catalog.BookDb.Remove` | app/main.py:48-49 | delete-and-commit of a stored row removes that key only, so the table shrinks by one |
| `Catalog.BookDb.Get` | app/main.py:38-42 | status is 200 exactly when the id is stored, and the body is that row's id, title and author; otherwise status is 404 with message `'Book not found'`; reading has no effect on the table |
| `Catalog.BookDb.Delete` | app/main.py:44-50 | a stored id is removed, with no other row touched, and the answer is 200 `'Book deleted'`; an absent id answers 404 `'Book not found'` and leaves the table unchanged |
| `Catalog.BookDb.QueryAll` | app/main.py:54-55 | the result lists the table: each entry is a stored row with its id, title and author; no id appears twice; every row appears |
| `Catalog.BookDb.List` | app/main.py:53-55 | the answer is 200 with an array that lists the table |
| `Catalog.BookDb.Post` | app/main.py:57-62 | if parsing fails, the answer is 400 with the failing field's name and help text and nothing is stored; otherwise exactly one row is added under an id not previously in the table, the old rows are untouched, and the answer is 201 with the stored row |
| `Catalog.BookDb.Index` | app/main.py:69-73 | the books given to the page are a listing of the table |
| `Catalog.BookDb.AddBookPage` | app/main.py:75-82 | with both form keys present, the form's title and author are stored exactly as given under an id not previously in the table, and the answer is a redirect (302) to the index; with a key missing the answer is 400 and nothing is stored |
| `Catalog.BookDb.DeleteBookPage` | app/main.py:84-90 | the answer is always a redirect (302) to the index; a stored id is removed, and an absent id leaves the table unchanged |
| `Scenarios.CreateThenGet` | app/main.py:57-62 | after a successful create, a get of the new id answers 200 with the same body as the create, holding the given title and author |
| `Scenarios.DeleteTwice` | app/main.py:44-50 | the first delete answers 200 exactly when the id was stored; the second delete and a following get answer 404 `'Book not found'`; only that id is gone |
| `Scenarios.PageDeleteLikeApiDelete` | app/main.py:84-90 | the page delete and the API delete leave two equal tables equal; the page always redirects |
| `Scenarios.CreateGetDeleteGet` | app/main.py:37-62 | on a new table: create answers 201 with the given book, get answers 200 with the same body, delete answers 200 `'Book deleted'`, and a second get answers 404 `'Book not found'` |
| `Scenarios.CreateWithoutTitle` | app/main.py:57-58 | a create without `title` answers 400 with `{'message': {'title': 'Title cannot be blank!'}}`, and the list that follows is empty |
| `Scenarios.CreateWithEmptyTitle` | app/main.py:33-35 | a create with an empty title answers 201 and the list that follows holds exactly that book |

## Left out

- Flask and REST plumbing: app construction, route registration, `url_for`
  and `redirect` URL building, template rendering and `app.run`. The page
  handlers return `RedirectToIndex` (status 302 to `/`) or `BadRequest`.
  `Index` returns the books handed to the template.
- Routing: the `<int:...>` converter only matches non-negative integers, and
  other paths never reach a handler. The handlers take any `int`.
- Catalog.BookDb.Get, Catalog.BookDb.Delete and Catalog.BookDb.DeleteBookPage:
  the converter has no upper bound, and a lookup id of 2^63 or more cannot be
  bound by the SQLite driver, so in the source such a request is a server
  error (500) and `/delete/<id>` does not redirect. The model answers 404 or
  redirects as for any other absent id.
- Database setup: the SQLite URI, `create_all` and the tracking flag. The
  table is an abstract map, and `commit` is the end of one atomic update.
  `create_all` only creates a missing table, so a restart keeps the rows of
  an existing file; the constructor models a new file only.
- Storage-engine details:
  - The `String(100)` length, which SQLite does not enforce.
  - The 64-bit bound on row ids, and the engine's random choice once the
    largest id is in use.
  - The physical row order returned by an unordered query.
  - Storage and transaction failures.
- A JSON `null` or a scalar non-string value for `title`/`author`. Such a
  value passes the parser. `null` then fails the NOT NULL constraint at
  commit, which is a storage failure; a scalar is converted with `str`. JSON
  lists are not modelled either. The model takes the arguments as strings.
- Catalog.BookDb.Post: promises only that the new id was not in the table.
  It does not say which id the engine picks, and so says nothing about
  reuse of deleted ids.
- Catalog.BookDb.AddBookPage: promises only that the new id was not in the
  table, for the same reason.
- Concurrency between requests: the code does not handle it.
- `__repr__`: a debugging string only.
- The browser tests and their fixtures: they drive a running server and a
  template that is not part of this model, including its search,
  pagination and `required` form attributes.
