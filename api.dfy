/** The stand-alone Google Books client (api.js): it turns the first volume of a
    response into a record with `'N/A'` defaults, and fails with
    "Book not found" when Google reports no match. Every failure, its own or
    the request's, reaches the caller. */
module Api {
  import opened Js
  import opened Books

  /** What `fetchBookData` can throw: the request's own error, re-thrown
      unchanged; its "Book not found" error; or the `TypeError` of reading
      `items[0].volumeInfo` when `items` is empty. */
  datatype ApiError =
    | FetchError(reason: string)
    | BookNotFound
    | MissingItem

  /** The record built from one `volumeInfo`. */
  function ApiRecord(isbn: string, v: VolumeInfo): (b: BookData)
    ensures b.isbn == isbn
    // Title and publisher fall back to 'N/A' when falsy, so they are never blank.
    ensures Truthy(b.title) && Truthy(b.publisher)
    ensures Truthy(v.title) ==> b.title == v.title
    ensures !Truthy(v.title) ==> b.title == Some(NotAvailable)
    ensures Truthy(v.publisher) ==> b.publisher == v.publisher
    ensures !Truthy(v.publisher) ==> b.publisher == Some(NotAvailable)
    // An authors array, even an empty one, is truthy: only an absent one gives 'N/A'.
    ensures v.authors.Some? ==> b.authors == Join(v.authors.value, AuthorSeparator)
    ensures v.authors.None? ==> b.authors == NotAvailable
    ensures Truthy(v.thumbnail) ==> b.cover == v.thumbnail.value
    ensures !Truthy(v.thumbnail) ==> b.cover == ""
  {
    BookData(
      isbn,
      Some(Or(v.title, NotAvailable)),
      if v.authors.Some? then Join(v.authors.value, AuthorSeparator) else NotAvailable,
      Some(Or(v.publisher, NotAvailable)),
      Or(v.thumbnail, ""))
  }

  /** `fetchBookData(isbn)` once the response is known. */
  function FetchBookData(isbn: string, response: GoogleResponse): (r: Result<BookData, ApiError>)
    // A record is returned exactly when Google reports a match and lists it.
    ensures r.Ok? <==> HasItems(response) && |response.items| > 0
    ensures r.Ok? ==> r.value == ApiRecord(isbn, response.items[0])
    // No match is an error, never an empty record.
    ensures response.GoogleAnswer? && response.totalItems <= 0 ==> r == Err(BookNotFound)
    // A match with no item to read throws on `items[0].volumeInfo`.
    ensures HasItems(response) && |response.items| == 0 ==> r == Err(MissingItem)
    // A failed request is re-thrown as it is, never swallowed.
    ensures response.GoogleFailed? ==> r == Err(FetchError(response.reason))
  {
    match response
    case GoogleFailed(reason) => Err(FetchError(reason))
    case GoogleAnswer(totalItems, items) =>
      if totalItems > 0 then
        if |items| == 0 then Err(MissingItem) else Ok(ApiRecord(isbn, items[0]))
      else
        Err(BookNotFound)
  }
}
