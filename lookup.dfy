/** The lookup inside `fetchBookData` of the counting pages (app.js and app1.js,
    whose two copies are identical): ask Google Books first and, only when it
    reports no match, Open Library. Any exception inside the `try` — a failed
    request, or a `TypeError` from a missing field — is caught and leaves the
    record empty (`{}`), which is `None` here. */
module BookLookup {
  import opened Js
  import opened Books

  /** The record built from a Google `volumeInfo`; title and publisher are
      copied without defaults. `None` when `book.authors.join` throws because
      the volume has no authors. */
  function GoogleRecord(isbn: string, v: VolumeInfo): (r: Option<BookData>)
    ensures r.Some? <==> v.authors.Some?
    ensures r.Some? ==> r.value.isbn == isbn && r.value.title == v.title && r.value.publisher == v.publisher
    ensures r.Some? ==> r.value.authors == Join(v.authors.value, AuthorSeparator)
    ensures r.Some? && Truthy(v.thumbnail) ==> r.value.cover == v.thumbnail.value
    ensures r.Some? && !Truthy(v.thumbnail) ==> r.value.cover == ""
  {
    if v.authors.None? then None
    else Some(BookData(isbn, v.title, Join(v.authors.value, AuthorSeparator), v.publisher, Or(v.thumbnail, "")))
  }

  /** The record built from the Open Library entry for `isbn`, if there is one.
      Author and publisher names are joined like Google's authors; `None` when
      the entry is missing (`book` is undefined) or when it lacks the authors
      or publishers list, on which `.map` throws. */
  function OpenLibraryRecord(isbn: string, entries: map<string, OpenLibraryBook>): (r: Option<BookData>)
    ensures r.Some? <==> OpenLibraryKey(isbn) in entries
                         && entries[OpenLibraryKey(isbn)].authors.Some?
                         && entries[OpenLibraryKey(isbn)].publishers.Some?
    ensures r.Some? ==>
      var b := entries[OpenLibraryKey(isbn)];
      && r.value.isbn == isbn
      && r.value.title == b.title
      && r.value.authors == Join(Names(b.authors.value), AuthorSeparator)
      && r.value.publisher == Some(Join(Names(b.publishers.value), AuthorSeparator))
      && (Truthy(b.coverMedium) ==> r.value.cover == b.coverMedium.value)
      && (!Truthy(b.coverMedium) ==> r.value.cover == "")
  {
    var key := OpenLibraryKey(isbn);
    if key !in entries then None
    else
      var b := entries[key];
      if b.authors.None? || b.publishers.None? then None
      else
        Some(BookData(
          isbn,
          b.title,
          Join(Names(b.authors.value), AuthorSeparator),
          Some(Join(Names(b.publishers.value), AuthorSeparator)),
          Or(b.coverMedium, "")))
  }

  /** `bookData` at the end of the `try`/`catch` of `fetchBookData(isbn)`, given
      both services' responses (Open Library's is only read on the fallback
      path). */
  function FetchBookData(isbn: string, google: GoogleResponse, openLibrary: OpenLibraryResponse): (r: Option<BookData>)
    ensures r.Some? ==> r.value.isbn == isbn
    // A failed Google request ends the lookup: the fallback is never reached.
    ensures google.GoogleFailed? ==> r.None?
    // With a Google match, the record is the first item's.
    ensures HasItems(google) && |google.items| > 0 ==> r == GoogleRecord(isbn, google.items[0])
    ensures HasItems(google) && |google.items| == 0 ==> r.None?
    // Without one, it is Open Library's, if that request succeeds.
    ensures google.GoogleAnswer? && !HasItems(google) ==>
      r == (if openLibrary.OpenLibraryAnswer? then OpenLibraryRecord(isbn, openLibrary.entries) else None)
  {
    match google
    case GoogleFailed(_) => None
    case GoogleAnswer(totalItems, items) =>
      if totalItems > 0 then
        if |items| == 0 then None else GoogleRecord(isbn, items[0])
      else
        match openLibrary
        case OpenLibraryFailed(_) => None
        case OpenLibraryAnswer(entries) => OpenLibraryRecord(isbn, entries)
  }

  /** Open Library is consulted only when Google answered without a match:
      otherwise its response cannot change the outcome. */
  lemma OpenLibraryOnlyAsFallback(isbn: string, google: GoogleResponse, ol1: OpenLibraryResponse, ol2: OpenLibraryResponse)
    requires !(google.GoogleAnswer? && !HasItems(google))
    ensures FetchBookData(isbn, google, ol1) == FetchBookData(isbn, google, ol2)
  {
  }

  /** The lookup found a book: a record whose title is truthy
      (`if (bookData.title)`). */
  predicate Found(data: Option<BookData>) {
    data.Some? && Truthy(data.value.title)
  }

  /** When a scan is counted: Google lists a match whose first volume has
      authors and a truthy title, or Google answered without a match and Open
      Library's entry has both name lists and a truthy title. */
  lemma FoundExactlyWhen(isbn: string, google: GoogleResponse, openLibrary: OpenLibraryResponse)
    ensures Found(FetchBookData(isbn, google, openLibrary)) <==>
      if google.GoogleFailed? then false
      else if HasItems(google) then
        |google.items| > 0 && google.items[0].authors.Some? && Truthy(google.items[0].title)
      else
        && openLibrary.OpenLibraryAnswer?
        && OpenLibraryKey(isbn) in openLibrary.entries
        && var b := openLibrary.entries[OpenLibraryKey(isbn)];
           b.authors.Some? && b.publishers.Some? && Truthy(b.title)
  {
  }
}
