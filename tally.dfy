/** The session table of the counting pages (app.js and app1.js): a JavaScript
    object `books` from ISBN to the stored record and its scan count. A scan
    whose lookup finds a titled book adds one to that ISBN's count, or inserts
    it with count 1; "End session" exports one row per ISBN and empties the
    table. The object's key order is kept explicitly as `order`, the order in
    which ISBNs were first inserted. */
module Tally {
  import opened Js
  import opened Books
  import opened BookLookup
  import opened Worksheet

  /** `{ ...bookData, count }`: the stored record and how often it was scanned. */
  datatype Entry = Entry(book: BookData, count: nat)

  /** The value of `books`, with its keys in insertion order. */
  datatype Table = Table(books: map<string, Entry>, order: seq<string>)

  const EmptyTable: Table := Table(map[], [])

  /** `order` lists the keys of `books` once each, and every stored count is at
      least 1. */
  ghost predicate WellFormed(t: Table) {
    && Distinct(t.order)
    && (forall k :: k in t.books <==> k in t.order)
    && (forall k :: k in t.books ==> t.books[k].count >= 1)
  }

  /** How many times `isbn` has been recorded (0 when it is not in the table). */
  function Count(t: Table, isbn: string): nat {
    if isbn in t.books then t.books[isbn].count else 0
  }

  /** The table update at the end of `fetchBookData(isbn)`, given the lookup's
      outcome `data`. */
  function AddScan(t: Table, isbn: string, data: Option<BookData>): (r: Table)
    requires WellFormed(t)
    ensures WellFormed(r)
    // A found book adds exactly one to its ISBN's count; anything else adds nothing.
    ensures Count(r, isbn) == Count(t, isbn) + (if Found(data) then 1 else 0)
    ensures !Found(data) ==> r == t
    // Every other ISBN keeps its entry, and its place in the key order.
    ensures forall k :: k != isbn ==> (k in r.books <==> k in t.books)
    ensures forall k :: k != isbn && k in t.books ==> r.books[k] == t.books[k]
    ensures r.order == t.order || r.order == t.order + [isbn]
    // A new ISBN stores the looked-up record; a known one keeps its first record.
    ensures Found(data) && isbn !in t.books ==> r.books[isbn].book == data.value
    ensures isbn in t.books ==> r.books[isbn].book == t.books[isbn].book
  {
    if !Found(data) then t
    else if isbn in t.books then
      var e := t.books[isbn];
      Table(t.books[isbn := e.(count := e.count + 1)], t.order)
    else
      Table(t.books[isbn := Entry(data.value, 1)], t.order + [isbn])
  }

  /** One detection whose lookup settled with `data`. */
  datatype Scan = Scan(isbn: string, data: Option<BookData>)

  /** The table after the scans settle, in this order. */
  function Replay(t: Table, scans: seq<Scan>): (r: Table)
    requires WellFormed(t)
    ensures WellFormed(r)
    decreases |scans|
  {
    if |scans| == 0 then t
    else Replay(AddScan(t, scans[0].isbn, scans[0].data), scans[1..])
  }

  /** How many of `scans` found a book for `isbn`. */
  function Successes(scans: seq<Scan>, isbn: string): nat
  {
    if |scans| == 0 then 0
    else (if scans[0].isbn == isbn && Found(scans[0].data) then 1 else 0) + Successes(scans[1..], isbn)
  }

  /** The table counts scans: after any sequence of settled scans, each ISBN's
      count has grown by the number of those scans that found it. */
  lemma {:induction false} ReplayCounts(t: Table, scans: seq<Scan>, isbn: string)
    requires WellFormed(t)
    ensures Count(Replay(t, scans), isbn) == Count(t, isbn) + Successes(scans, isbn)
    decreases |scans|
  {
    if |scans| > 0 {
      var t' := AddScan(t, scans[0].isbn, scans[0].data);
      ReplayCounts(t', scans[1..], isbn);
    }
  }

  /** app1.js looks up every detection, without a gate: n detections of one
      ISBN that each find the book leave that ISBN with count n. */
  lemma RepeatedDetections(isbn: string, data: Option<BookData>, n: nat)
    requires Found(data)
    ensures Count(Replay(EmptyTable, seq(n, _ => Scan(isbn, data))), isbn) == n
  {
    var scans := seq(n, _ => Scan(isbn, data));
    ReplayCounts(EmptyTable, scans, isbn);
    AllSucceed(scans, isbn, data);
  }

  /** Scans that all find the same book for `isbn` all count. */
  lemma {:induction false} AllSucceed(scans: seq<Scan>, isbn: string, data: Option<BookData>)
    requires Found(data)
    requires forall i :: 0 <= i < |scans| ==> scans[i] == Scan(isbn, data)
    ensures Successes(scans, isbn) == |scans|
    decreases |scans|
  {
    if |scans| > 0 {
      AllSucceed(scans[1..], isbn, data);
    }
  }

  /** `[isbn, book.title, book.authors, book.publisher, book.count]`. */
  function RowOf(isbn: string, e: Entry): Row {
    [Text(isbn), CellOf(e.book.title), Text(e.book.authors), CellOf(e.book.publisher), Number(e.count)]
  }

  /** The array of rows written to `books.xlsx`: the header, then a row for
      each entry of the table. */
  function Export(t: Table): (sheet: seq<Row>)
    requires WellFormed(t)
    ensures |sheet| == |t.order| + 1 && sheet[0] == Header
    // The data rows follow the table's key order, each with its record and count.
    ensures forall i :: 1 <= i < |sheet| ==> sheet[i] == RowOf(t.order[i - 1], t.books[t.order[i - 1]])
    // Exactly one row for each ISBN in the table, and none for any other string.
    ensures forall k :: RowsFor(sheet[1..], k) == (if k in t.books then 1 else 0)
    ensures |sheet| == |t.books| + 1
  {
    RowsOnePerKey(t.order, t.books, RowOf);
    var rows := Rows(t.order, t.books, RowOf);
    var sheet := [Header] + rows;
    assert sheet[1..] == rows;
    sheet
  }

  /** The page's `books` object, updated in place by each settled lookup and
      emptied by "End session". `displayed` is the record last shown. */
  class Session {
    var books: map<string, Entry>
    var order: seq<string>
    var displayed: Option<BookData>

    function Snapshot(): Table
      reads this
    {
      Table(books, order)
    }

    ghost predicate Valid()
      reads this
    {
      WellFormed(Snapshot())
    }

    /** `let books = {};` */
    constructor ()
      ensures Valid() && Snapshot() == EmptyTable && displayed == None
    {
      books := map[];
      order := [];
      displayed := None;
    }

    /** `fetchBookData(isbn)` after both requests have settled: a found book is
        displayed and counted, anything else ("Book not found.") changes
        nothing. */
    method RecordScan(isbn: string, google: GoogleResponse, openLibrary: OpenLibraryResponse)
      requires Valid()
      modifies this
      ensures Valid()
      ensures Snapshot() == AddScan(old(Snapshot()), isbn, FetchBookData(isbn, google, openLibrary))
      ensures displayed == (if Found(FetchBookData(isbn, google, openLibrary))
                            then FetchBookData(isbn, google, openLibrary) else old(displayed))
    {
      var data := FetchBookData(isbn, google, openLibrary);
      if data.Some? && Truthy(data.value.title) {
        displayed := data;
        if isbn in books {
          books := books[isbn := books[isbn].(count := books[isbn].count + 1)];
        } else {
          books := books[isbn := Entry(data.value, 1)];
          order := order + [isbn];
        }
      }
    }

    /** The "End session" handler: push one row per entry after the header,
        hand the rows over, and reset the table. */
    method EndSession() returns (sheet: seq<Row>)
      requires Valid()
      modifies this
      ensures sheet == Export(old(Snapshot()))
      ensures Valid() && Snapshot() == EmptyTable && displayed == old(displayed)
    {
      sheet := [Header];
      var i := 0;
      while i < |order|
        invariant 0 <= i <= |order|
        invariant |sheet| == i + 1 && sheet[0] == Header
        invariant forall j :: 1 <= j <= i ==> sheet[j] == RowOf(order[j - 1], books[order[j - 1]])
      {
        sheet := sheet + [RowOf(order[i], books[order[i]])];
        i := i + 1;
      }
      ghost var expected := Export(Snapshot());
      assert |sheet| == |expected|;
      assert forall j :: 0 <= j < |sheet| ==> sheet[j] == expected[j];
      books := map[];
      order := [];
    }
  }
}
