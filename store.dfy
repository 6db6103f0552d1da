/**
 * The book table: the stored rows keyed by their integer primary key, the
 * primary-key assignment of the storage engine, and what it means for a
 * sequence of serialised books to list the table.
 */
module BookStore {

  /** The columns of a `Book` row besides its primary key. */
  datatype Record = Record(title: string, author: string)

  /** The table: primary key to row. */
  type Table = map<int, Record>

  /**
   * A row as the handlers serialise it: `{'id': …, 'title': …, 'author': …}`.
   * The row itself, the source's `Book` model, is the key of a `Table` with its `Record`.
   */
  datatype BookJson = BookJson(id: int, title: string, author: string)

  /** The serialised form of the row stored under `id`. */
  function Serialise(t: Table, id: int): (b: BookJson)
    requires id in t
    ensures b.id == id && Record(b.title, b.author) == t[id]
  {
    BookJson(id, t[id].title, t[id].author)
  }

  /** `m` is the largest of `keys`. */
  predicate IsLargest(m: int, keys: set<int>) {
    m in keys && forall k :: k in keys ==> k <= m
  }

  /** Every finite non-empty set of keys has a largest element. */
  lemma {:induction false} LargestKeyExists(keys: set<int>)
    requires keys != {}
    ensures exists m :: IsLargest(m, keys)
  {
    // Turns `keys != {}` into an element for the pick below.
    if forall y :: y !in keys {
      assert false;
    }
    var x :| x in keys;
    var rest := keys - {x};
    if rest == {} {
      assert keys == {x};
      assert IsLargest(x, keys);
    } else {
      LargestKeyExists(rest);
      var m :| IsLargest(m, rest);
      assert keys == rest + {x};
      if x <= m {
        assert IsLargest(m, keys);
      } else {
        assert IsLargest(x, keys);
      }
    }
  }

  /**
   * The primary key the storage engine gives a new row when the insert does
   * not name one: one more than the largest key in the table, or 1 when the
   * table is empty. The key is never one already in use.
   */
  function NextRowId(t: Table): (id: int)
    ensures id !in t
    ensures forall k :: k in t ==> k < id
    ensures t == map[] ==> id == 1
    ensures t != map[] ==> id - 1 in t
  {
    if t == map[] then 1
    else
      LargestKeyExists(t.Keys);
      var m :| IsLargest(m, t.Keys);
      m + 1
  }

  /** `b` is the serialised form of a row that is in `t`. */
  ghost predicate Stored(b: BookJson, t: Table) {
    b.id in t && t[b.id] == Record(b.title, b.author)
  }

  /** No two entries of `books` carry the same id. */
  ghost predicate DistinctIds(books: seq<BookJson>) {
    forall i, j :: 0 <= i < j < |books| ==> books[i].id != books[j].id
  }

  /**
   * `books` lists the table: every entry is a stored row, no row appears
   * twice, and every row appears. No order is implied.
   */
  ghost predicate Lists(books: seq<BookJson>, t: Table) {
    && (forall i :: 0 <= i < |books| ==> Stored(books[i], t))
    && DistinctIds(books)
    && (forall id :: id in t ==> exists i :: 0 <= i < |books| && books[i].id == id)
  }

  /** The rows of the table as a set of serialised books. */
  ghost function Entries(t: Table): set<BookJson> {
    set id | id in t :: Serialise(t, id)
  }

  /** The ids carried by the entries of `books`. */
  ghost function Ids(books: seq<BookJson>): set<int> {
    if books == [] then {} else {books[0].id} + Ids(books[1..])
  }

  lemma {:induction false} IdsMembership(books: seq<BookJson>, id: int)
    ensures id in Ids(books) <==> exists i :: 0 <= i < |books| && books[i].id == id
  {
    if books != [] {
      IdsMembership(books[1..], id);
      if id in Ids(books[1..]) {
        var i :| 0 <= i < |books[1..]| && books[1..][i].id == id;
        assert books[i + 1].id == id;
      }
      if exists i :: 0 <= i < |books| && books[i].id == id {
        var i :| 0 <= i < |books| && books[i].id == id;
        if i > 0 {
          assert books[1..][i - 1].id == id;
        }
      }
    }
  }

  /** A sequence with distinct ids carries as many ids as it has entries. */
  lemma {:induction false} DistinctIdsCount(books: seq<BookJson>)
    requires DistinctIds(books)
    ensures |Ids(books)| == |books|
  {
    if books != [] {
      var rest := books[1..];
      assert DistinctIds(rest) by {
        forall i, j | 0 <= i < j < |rest| ensures rest[i].id != rest[j].id {
          assert rest[i] == books[i + 1] && rest[j] == books[j + 1];
        }
      }
      DistinctIdsCount(rest);
      forall i | 0 <= i < |rest| ensures rest[i].id != books[0].id {
        assert rest[i] == books[i + 1];
      }
      IdsMembership(rest, books[0].id);
    }
  }

  /** A listing of the table has exactly one entry per stored row. */
  lemma ListingLength(books: seq<BookJson>, t: Table)
    requires Lists(books, t)
    ensures |books| == |t|
  {
    forall id | true ensures id in Ids(books) <==> id in t {
      IdsMembership(books, id);
    }
    assert Ids(books) == t.Keys;
    DistinctIdsCount(books);
  }

  /** The entries of a listing are exactly the rows of the table. */
  lemma ListingEntries(books: seq<BookJson>, t: Table)
    requires Lists(books, t)
    ensures forall b :: b in books <==> b in Entries(t)
  {
    forall b | b in Entries(t) ensures b in books {
      var id :| id in t && b == Serialise(t, id);
      var i :| 0 <= i < |books| && books[i].id == id;
      assert Stored(books[i], t);
    }
  }

  /** In a sequence with distinct ids no entry occurs twice. */
  lemma {:induction false} DistinctOccursOnce(books: seq<BookJson>, b: BookJson)
    requires DistinctIds(books)
    ensures multiset(books)[b] <= 1
  {
    if books != [] {
      var rest := books[1..];
      assert books == [books[0]] + rest;
      assert DistinctIds(rest) by {
        forall i, j | 0 <= i < j < |rest| ensures rest[i].id != rest[j].id {
          assert rest[i] == books[i + 1] && rest[j] == books[j + 1];
        }
      }
      DistinctOccursOnce(rest, b);
      forall i | 0 <= i < |rest| ensures rest[i] != books[0] {
        assert rest[i] == books[i + 1];
      }
      assert books[0] !in rest;
    }
  }

  /** Any two listings of the same table hold the same entries: they differ at most in order. */
  lemma ListingsArePermutations(a: seq<BookJson>, b: seq<BookJson>, t: Table)
    requires Lists(a, t) && Lists(b, t)
    ensures multiset(a) == multiset(b)
  {
    ListingEntries(a, t);
    ListingEntries(b, t);
    forall x ensures multiset(a)[x] == multiset(b)[x] {
      DistinctOccursOnce(a, x);
      DistinctOccursOnce(b, x);
      assert x in a <==> x in b;
    }
  }
}
