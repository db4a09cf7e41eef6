/** The single-lookup scanner page (app3.js). Two module-level variables gate
    the barcode callback: `isProcessing`, set while a detection is handled, and
    the `books` cache from ISBN to record. A detection is ignored while a
    lookup is in progress; a cached ISBN is shown again without a request; a
    successful lookup caches and shows the record and reopens the gate; a
    failed one shows the Continue button and keeps the gate closed until
    Continue is clicked. `fetchBookData` is asynchronous: its start is part of
    the detection, and the code after its `await` is the separate step
    `Settle`, which receives Google's response as input. */
module Gate {
  import opened Js
  import opened Books
  import opened Worksheet

  /** The page's state: the cache (with its keys in insertion order), the
      flag, whether the Continue button is shown, and the record on display. */
  datatype GateState = GateState(
    books: map<string, BookData>,
    order: seq<string>,
    isProcessing: bool,
    continueVisible: bool,
    displayed: Option<BookData>)

  /** `order` lists the cached ISBNs once each. */
  ghost predicate WellFormed(s: GateState) {
    && Distinct(s.order)
    && (forall k :: k in s.books <==> k in s.order)
  }

  /** At load: nothing cached, no lookup running, nothing shown. */
  const Initial: GateState := GateState(map[], [], false, false, None)

  /** The record literal of this page: the title is copied as it is, while
      authors and publisher default to 'N/A'. */
  function ScannerRecord(isbn: string, v: VolumeInfo): (b: BookData)
    ensures b.isbn == isbn
    ensures b.title == v.title
    ensures v.authors.Some? ==> b.authors == Join(v.authors.value, AuthorSeparator)
    ensures v.authors.None? ==> b.authors == NotAvailable
    // The publisher is never blank: a falsy one becomes 'N/A'.
    ensures Truthy(b.publisher)
    ensures Truthy(v.publisher) ==> b.publisher == v.publisher
    ensures !Truthy(v.publisher) ==> b.publisher == Some(NotAvailable)
    ensures Truthy(v.thumbnail) ==> b.cover == v.thumbnail.value
    ensures !Truthy(v.thumbnail) ==> b.cover == ""
  {
    BookData(
      isbn,
      v.title,
      if v.authors.Some? then Join(v.authors.value, AuthorSeparator) else NotAvailable,
      Some(Or(v.publisher, NotAvailable)),
      Or(v.thumbnail, ""))
  }

  /** A detection of `isbn` in state `s` starts a Google lookup. */
  predicate StartsLookup(s: GateState, isbn: string) {
    !s.isProcessing && isbn !in s.books
  }

  /** `onDetectedHandler` for a barcode read as `isbn`. */
  function Detect(s: GateState, isbn: string): (r: GateState)
    requires WellFormed(s)
    ensures WellFormed(r)
    // A detection never touches the cache or the Continue button.
    ensures r.books == s.books && r.order == s.order && r.continueVisible == s.continueVisible
    // While a lookup is in progress, a detection changes nothing.
    ensures s.isProcessing ==> r == s
    // The gate is closed afterwards exactly when it was, or a lookup started.
    ensures r.isProcessing <==> s.isProcessing || StartsLookup(s, isbn)
    // A cache hit shows the cached record; a started lookup shows nothing yet.
    ensures !s.isProcessing && isbn in s.books ==> r.displayed == Some(s.books[isbn])
    ensures StartsLookup(s, isbn) ==> r.displayed == s.displayed
  {
    if s.isProcessing then s
    else if isbn in s.books then s.(displayed := Some(s.books[isbn]))
    else s.(isProcessing := true)
  }

  /** The lookup found a volume to show: `totalItems > 0` and an item to read. */
  predicate LookupSucceeds(response: GoogleResponse) {
    HasItems(response) && |response.items| > 0
  }

  /** The rest of `fetchBookData(isbn)` once Google's response has arrived. */
  function Settle(s: GateState, isbn: string, response: GoogleResponse): (r: GateState)
    requires WellFormed(s)
    ensures WellFormed(r)
    // Success caches and shows the record and reopens the gate.
    ensures LookupSucceeds(response) ==>
      && r.books == s.books[isbn := ScannerRecord(isbn, response.items[0])]
      && r.displayed == Some(ScannerRecord(isbn, response.items[0]))
      && !r.isProcessing
      && r.continueVisible == s.continueVisible
    // "Book not found" or an error leaves the cache and the flag as they were
    // and shows the Continue button.
    ensures !LookupSucceeds(response) ==>
      && r.books == s.books && r.order == s.order
      && r.isProcessing == s.isProcessing
      && r.continueVisible
      && r.displayed == s.displayed
    // A cached ISBN keeps its place in the key order.
    ensures r.order == s.order || (isbn !in s.books && r.order == s.order + [isbn])
  {
    if LookupSucceeds(response) then
      var b := ScannerRecord(isbn, response.items[0]);
      s.(books := s.books[isbn := b],
         order := if isbn in s.books then s.order else s.order + [isbn],
         displayed := Some(b),
         isProcessing := false)
    else
      s.(continueVisible := true)
  }

  /** `hideContinueButton`, run by the Continue button: hide it and reopen the
      gate. */
  function Continue(s: GateState): (r: GateState)
    requires WellFormed(s)
    ensures WellFormed(r)
    ensures !r.isProcessing && !r.continueVisible
    ensures r.books == s.books && r.order == s.order && r.displayed == s.displayed
  {
    s.(isProcessing := false, continueVisible := false)
  }

  /** What happens on the page, one callback at a time. */
  datatype Event =
    | Detected(isbn: string)
    | Settled(isbn: string, response: GoogleResponse)
    | ContinueClicked
    | SessionEnded

  function Step(s: GateState, e: Event): (r: GateState)
    requires WellFormed(s)
    ensures WellFormed(r)
  {
    match e
    case Detected(isbn) => Detect(s, isbn)
    case Settled(isbn, response) => Settle(s, isbn, response)
    case ContinueClicked => Continue(s)
    case SessionEnded => ResetCache(s)
  }

  function Run(s: GateState, events: seq<Event>): (r: GateState)
    requires WellFormed(s)
    ensures WellFormed(r)
    decreases |events|
  {
    if |events| == 0 then s else Run(Step(s, events[0]), events[1..])
  }

  /** The ISBNs whose lookups a run starts, in order. */
  function LookupsStarted(s: GateState, events: seq<Event>): seq<string>
    requires WellFormed(s)
    decreases |events|
  {
    if |events| == 0 then []
    else
      var e := events[0];
      (if e.Detected? && StartsLookup(s, e.isbn) then [e.isbn] else [])
      + LookupsStarted(Step(s, e), events[1..])
  }

  /** Barcode detections only. */
  function Detections(isbns: seq<string>): seq<Event>
  {
    seq(|isbns|, i requires 0 <= i < |isbns| => Detected(isbns[i]))
  }

  /** The gate blocks re-entry: while a lookup is in progress, any number of
      detections leaves the page exactly as it was. */
  lemma {:induction false} GateHolds(s: GateState, isbns: seq<string>)
    requires WellFormed(s) && s.isProcessing
    ensures Run(s, Detections(isbns)) == s
    ensures LookupsStarted(s, Detections(isbns)) == []
    decreases |isbns|
  {
    if |isbns| > 0 {
      assert Detections(isbns)[1..] == Detections(isbns[1..]);
      GateHolds(s, isbns[1..]);
    }
  }

  /** Neither a detection nor "End session" clears `isProcessing` or hides the
      Continue button: with the gate closed, such events start no lookup and
      leave the display as it is. Detections alone change nothing at all. */
  lemma {:induction false} StaysClosed(s: GateState, events: seq<Event>)
    requires WellFormed(s) && s.isProcessing
    requires forall i :: 0 <= i < |events| ==> events[i].Detected? || events[i].SessionEnded?
    ensures Run(s, events).isProcessing
    ensures Run(s, events).continueVisible == s.continueVisible
    ensures Run(s, events).displayed == s.displayed
    ensures Run(s, events).books == s.books || Run(s, events).books == map[]
    ensures LookupsStarted(s, events) == []
    ensures (forall i :: 0 <= i < |events| ==> events[i].Detected?) ==> Run(s, events) == s
    decreases |events|
  {
    if |events| > 0 {
      StaysClosed(Step(s, events[0]), events[1..]);
    }
  }

  /** After a lookup that fails, the cache is unchanged and the gate stays
      closed, with the Continue button shown, whatever detections and "End
      session" clicks follow. */
  lemma FailureWaitsForContinue(s: GateState, isbn: string, response: GoogleResponse, later: seq<Event>)
    requires WellFormed(s) && StartsLookup(s, isbn) && !LookupSucceeds(response)
    requires forall i :: 0 <= i < |later| ==> later[i].Detected? || later[i].SessionEnded?
    ensures var t := Settle(Detect(s, isbn), isbn, response);
      && t.books == s.books && t.isProcessing && t.continueVisible
      && Run(t, later).isProcessing && Run(t, later).continueVisible
      && LookupsStarted(t, later) == []
  {
    StaysClosed(Settle(Detect(s, isbn), isbn, response), later);
  }

  /** A cached ISBN stays cached and is never looked up again, whatever
      detections, lookups and Continue clicks follow, until the session ends. */
  lemma {:induction false} CachedNeverRefetched(s: GateState, events: seq<Event>, isbn: string)
    requires WellFormed(s) && isbn in s.books
    requires forall i :: 0 <= i < |events| ==> !events[i].SessionEnded?
    ensures isbn in Run(s, events).books
    ensures isbn !in LookupsStarted(s, events)
    decreases |events|
  {
    if |events| > 0 {
      CachedNeverRefetched(Step(s, events[0]), events[1..], isbn);
    }
  }

  /** `[isbn, book.title, book.authors, book.publisher, 1]`: the count column
      of this page is always 1. */
  function RowOf(isbn: string, b: BookData): Row {
    [Text(isbn), CellOf(b.title), Text(b.authors), CellOf(b.publisher), Number(1)]
  }

  /** The array of rows written to `books.xlsx`: the header, then a row for
      each cached ISBN. */
  function Export(s: GateState): (sheet: seq<Row>)
    requires WellFormed(s)
    ensures |sheet| == |s.order| + 1 && sheet[0] == Header
    // The data rows follow the cache's key order, and each has count 1.
    ensures forall i :: 1 <= i < |sheet| ==> sheet[i] == RowOf(s.order[i - 1], s.books[s.order[i - 1]])
    ensures forall i :: 1 <= i < |sheet| ==> |sheet[i]| == 5 && sheet[i][4] == Number(1)
    // Exactly one row for each cached ISBN, and none for any other string.
    ensures forall k :: RowsFor(sheet[1..], k) == (if k in s.books then 1 else 0)
    ensures |sheet| == |s.books| + 1
  {
    RowsOnePerKey(s.order, s.books, RowOf);
    var rows := Rows(s.order, s.books, RowOf);
    var sheet := [Header] + rows;
    assert sheet[1..] == rows;
    sheet
  }

  /** "End session": the cache is emptied; the flag, the Continue button and
      the display are left as they are. */
  function ResetCache(s: GateState): (r: GateState)
    requires WellFormed(s)
    ensures WellFormed(r)
    ensures r.books == map[] && r.order == []
    ensures r.isProcessing == s.isProcessing && r.continueVisible == s.continueVisible && r.displayed == s.displayed
  {
    s.(books := map[], order := [])
  }

  /** The page itself, whose handlers update the module-level variables in
      place. */
  class Scanner {
    var books: map<string, BookData>
    var order: seq<string>
    var isProcessing: bool
    var continueVisible: bool
    var displayed: Option<BookData>

    function State(): GateState
      reads this
    {
      GateState(books, order, isProcessing, continueVisible, displayed)
    }

    ghost predicate Valid()
      reads this
    {
      WellFormed(State())
    }

    constructor ()
      ensures Valid() && State() == Initial
    {
      books, order := map[], [];
      isProcessing, continueVisible := false, false;
      displayed := None;
    }

    /** `onDetectedHandler`; `lookupStarted` says whether it called
        `fetchBookData(isbn)`. */
    method OnDetected(isbn: string) returns (lookupStarted: bool)
      requires Valid()
      modifies this
      ensures Valid()
      ensures State() == Detect(old(State()), isbn)
      ensures lookupStarted == StartsLookup(old(State()), isbn)
    {
      lookupStarted := false;
      if isProcessing {
        return;
      }
      isProcessing := true;
      if isbn in books {
        displayed := Some(books[isbn]);
        isProcessing := false;
        return;
      }
      lookupStarted := true;
    }

    /** `fetchBookData(isbn)` from its `await` on. */
    method FetchBookData(isbn: string, response: GoogleResponse)
      requires Valid()
      modifies this
      ensures Valid()
      ensures State() == Settle(old(State()), isbn, response)
    {
      if response.GoogleAnswer? && response.totalItems > 0 && |response.items| > 0 {
        var bookData := ScannerRecord(isbn, response.items[0]);
        if isbn !in books {
          order := order + [isbn];
        }
        books := books[isbn := bookData];
        displayed := Some(bookData);
        isProcessing := false;
      } else {
        continueVisible := true;
      }
    }

    /** `hideContinueButton`. */
    method HideContinueButton()
      requires Valid()
      modifies this
      ensures Valid()
      ensures State() == Continue(old(State()))
    {
      continueVisible := false;
      isProcessing := false;
    }

    /** The "End session" handler. */
    method EndSession() returns (sheet: seq<Row>)
      requires Valid()
      modifies this
      ensures sheet == Export(old(State()))
      ensures Valid() && State() == ResetCache(old(State()))
    {
      sheet := [Header];
      var i := 0;
      while i < |order|
        invariant 0 <= i <= |order|
        invariant |sheet| == i + 1 && sheet[0] == Header
        invariant forall j :: 1 <= j <= i ==> sheet[j] == RowOf(order[j - 1], books[order[j - 1]])
      {
        sheet := sheet + [RowOf(order[i], books[order[i]])];
        i := i + 1;
      }
      ghost var expected := Export(State());
      assert |sheet| == |expected|;
      assert forall j :: 0 <= j < |sheet| ==> sheet[j] == expected[j];
      books, order := map[], [];
    }
  }
}
