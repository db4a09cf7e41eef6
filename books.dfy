/** The data the page receives from the two public book-metadata services, and
    the book record it builds from them. A response is an input value: the
    request itself (`fetch` and `.json()`) is outside the model, and a request
    or parse failure is the `...Failed` alternative. */
module Books {
  import opened Js

  /** The fields of a Google Books `volumeInfo` the page reads. `thumbnail`
      stands for `imageLinks?.thumbnail`: absent when either level is. */
  datatype VolumeInfo = VolumeInfo(
    title: JsString,
    authors: Option<seq<string>>,
    publisher: JsString,
    thumbnail: JsString)

  /** A Google Books volumes query: failed, or its `totalItems` and `items`
      (each item given by its `volumeInfo`). */
  datatype GoogleResponse =
    | GoogleFailed(reason: string)
    | GoogleAnswer(totalItems: int, items: seq<VolumeInfo>)

  /** One Open Library `jscmd=data` entry: authors and publishers are lists of
      objects of which only `name` is read; `coverMedium` is `cover?.medium`. */
  datatype OpenLibraryBook = OpenLibraryBook(
    title: JsString,
    authors: Option<seq<JsString>>,
    publishers: Option<seq<JsString>>,
    coverMedium: JsString)

  /** An Open Library books query: failed, or the returned object keyed by
      `"ISBN:<isbn>"`. */
  datatype OpenLibraryResponse =
    | OpenLibraryFailed(reason: string)
    | OpenLibraryAnswer(entries: map<string, OpenLibraryBook>)

  /** The record the page displays and stores. Title and publisher may be
      `undefined` in some variants of the page; authors and cover are always
      strings. */
  datatype BookData = BookData(
    isbn: string,
    title: JsString,
    authors: string,
    publisher: JsString,
    cover: string)

  const AuthorSeparator: string := ", "
  const NotAvailable: string := "N/A"

  /** Google reports at least one match (`totalItems > 0`). */
  predicate HasItems(response: GoogleResponse) {
    response.GoogleAnswer? && response.totalItems > 0
  }

  /** The key under which Open Library returns the book for `isbn`. */
  function OpenLibraryKey(isbn: string): string {
    "ISBN:" + isbn
  }
}
