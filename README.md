# Book scanner: session logic

A browser page scans a book's barcode with the device camera. It looks the
ISBN up in public book-metadata services, shows the book, and collects the
scanned books in an in-memory session. "End session" exports that session as
a spreadsheet. This project models in Dafny the logic under the page's
browser glue, in its four variants:

- **api.js**: a Google Books client. It maps the first volume of a response
  to a record with `'N/A'` defaults, and it fails with "Book not found" when
  Google has no match. Every error reaches the caller (module `Api`).
- **app.js / app1.js**: the counting pages. Google Books is asked first. Open
  Library is asked only when Google reports no match. Any exception is caught
  and leaves the record empty (module `BookLookup`). A record with a truthy
  title is displayed and counted in the `books` table: ISBN to record and
  count. End session exports a header and one row per ISBN, then empties the
  table (module `Tally`, class `Tally.Session`). The two files' `fetchBookData`
  and end-session handlers are identical (app.js:30-101, app1.js:70-141), so
  they are modelled once. app1.js also picks the camera and looks up every
  detection, with no gate.
- **app3.js**: the single-lookup page. An `isProcessing` flag and a `books`
  cache gate the barcode callback. A lookup failure shows a Continue button,
  and the gate stays closed until that button is clicked. Every export row has
  count 1 (module `Gate`, class `Gate.Scanner`).
- **app1.js / app3.js**: camera choice (module `Camera`). The page takes the
  first video input whose label contains "USB", else the default rear camera.
  Then it builds the exact-match `getUserMedia` constraints.

The service responses, the device list and the barcode reads are inputs
(`Books.GoogleResponse`, `Books.OpenLibraryResponse`, `Camera.MediaDevice`,
ISBN strings). The spreadsheet is the array of rows given to the writer
(`Worksheet`). A JSON field that may be missing is `Js.JsString`
(`Option<string>`). "Truthy" for such a field means present and non-empty.

`fetchBookData` is asynchronous. Its code after the `await` is a separate
step that receives the response: `Tally.Session.RecordScan` in the counting
pages, and `Gate.Settle` / `Gate.Scanner.FetchBookData` in app3.js. So app3's
gate is visible: detections that arrive while a lookup is in flight go through
`Gate.Detect` with `isProcessing` set.

The JavaScript object `books` keeps its keys in insertion order. The model
keeps that order explicitly as `order`, and each export lists rows in it.

Some behaviour follows the code, not a plain reading of the page:

- In app.js/app1.js, a Google volume without `authors` makes
  `book.authors.join` throw. The page catches that error and reports "Book not
  found." It does not fall back to Open Library.
- app3.js stores a found volume even when it has no title.
- A device id that is the empty string does not pin a device (`if (deviceId)`).

## Model

| member | source | states |
|---|---|---|
| `Api.ApiRecord` | api.js:9-16 | The record keeps the ISBN. Title and publisher default to 'N/A' when falsy, so they are never blank. Authors are the list joined with ", ", or 'N/A' only when the list is absent. Cover is the thumbnail, or "" when that is falsy |
| `Api.FetchBookData` | api.js:1-24 | Returns a record exactly when `totalItems > 0` and there is a first item, and the record is built from that item. No match fails with BookNotFound, and a match with no item to read fails with MissingItem. A failed request is re-thrown unchanged |
| `BookLookup.GoogleRecord` | app.js:41-48 | Record from `items[0].volumeInfo`: title and publisher copied without defaults, authors joined with ", ", cover the thumbnail or "". No record when authors are absent, because the TypeError is caught |
| `BookLookup.OpenLibraryRecord` | app.js:52-62 | Record from the `ISBN:<isbn>` entry: author and publisher names joined with ", ", cover `cover.medium` or "". No record when the entry is missing or has no authors or publishers list |
| `BookLookup.FetchBookData` | app.js:34-66 | A failed Google request gives no record. A Google match gives the first item's record. Open Library's record is used only when Google answered with `totalItems` not > 0. Any record carries the scanned ISBN |
| `BookLookup.OpenLibraryOnlyAsFallback` | app.js:40-50 | Unless Google answered without a match, the Open Library response cannot change the outcome |
| `Tally.AddScan` | app.js:68-77 | A found book (truthy title) adds exactly 1 to its ISBN's count, and otherwise the table is unchanged. A new ISBN is stored with the looked-up record. Every other entry and its key position are unchanged. Counts stay ≥ 1 and keys stay listed once |
| `Tally.Replay` | app1.js:108-117 | Any sequence of settled lookups keeps the table well formed: every key is listed once and every count is ≥ 1 |
| `Tally.ReplayCounts` | app1.js:108-114 | After any sequence of settled lookups, each ISBN's count has grown by the number of those lookups that found it |
| `Tally.RepeatedDetections` | app1.js:60-63 | Detections are not gated, so n detections of one ISBN that each find the book give it count n |
| `Tally.Export` | app.js:90-93 | The export is the 5-column header and then one row per table entry, in the table's key order. Each ISBN in the table has exactly one row `[isbn, title, authors, publisher, count]`, and no other string has a row |
| `Tally.Session.constructor` | app.js:10 | The session starts with an empty table |
| `Tally.Session.RecordScan` | app1.js:70-118 | The table becomes `AddScan` of the lookup's outcome. A found book becomes the displayed record, and the display is otherwise unchanged |
| `Tally.Session.EndSession` | app1.js:128-141 | The loop returns exactly the export rows of the table as it was, and then the table is empty |
| `Worksheet.Rows` | app.js:91-93 | The loop over `Object.entries(books)` pushes one row per key, and row i is the row of the i-th key |
| `Worksheet.OneRowPerKey` | app.js:91-93 | Rows led by distinct keys hold exactly one row per key and none for any other string |
| `Worksheet.RowsOnePerKey` | app3.js:145-147 | When every row is led by its key, the pushed rows hold exactly one row per key of the object and none for any other string |
| `BookLookup.FoundExactlyWhen` | app.js:68 | A scan is counted (`bookData.title` is truthy) exactly when Google lists a match whose first volume has authors and a truthy title, or when Google answered with no match and Open Library's entry has both name lists and a truthy title |
| `Js.Join` | app.js:45 | `join` gives "" for no parts and the part itself for one part. The result starts with the first part and ends with the last one |
| `Js.JoinAppend` | app.js:58-59 | Joining one more part appends the separator and that part, which is the left-to-right definition of `Array.prototype.join` |
| `Js.Names` | app.js:58-59 | `.map(x => x.name)` keeps one entry per element, in order. A present name is kept, and an absent one is rendered by `join` as "" |
| `Js.Or` | api.js:12 | `x \|\| fallback` is the field's own value when that is truthy and the fallback otherwise, so it is never blank when the fallback is not blank |
| `Js.Includes` | app1.js:16 | `includes` is true exactly when the substring occurs at some position |
| `Camera.VideoInputs` | app1.js:15 | The filter keeps exactly the devices of kind "videoinput" |
| `Camera.FindUsb` | app1.js:16 | `find` returns a listed device whose label contains "USB", and returns nothing exactly when no device qualifies |
| `Camera.ChooseCamera` | app1.js:18-23 | The default camera (no deviceId) is used exactly when no video input has "USB" in its label |
| `Camera.ChooseCameraTakesFirst` | app3.js:17-21 | The chosen deviceId is that of the first video input whose label contains "USB", whatever follows it |
| `Camera.CameraConstraints` | app1.js:29-37 | The constraints always ask for `facingMode` exactly "environment". They carry an exact `deviceId` only when a truthy id is passed, and then it is that id |
| `Camera.StartupConstraints` | app3.js:15-39 | The startup constraints pin no device when there is no USB video input. Any device they pin is a listed USB video input |
| `Camera.StartupPinsFirstUsb` | app1.js:15-36 | When a USB video input is listed, the startup constraints pin the first one's id, or no device when that id is the empty string, whatever devices follow it |
| `Gate.ScannerRecord` | app3.js:97-104 | The title is copied with no default. Authors default to 'N/A' when absent. The publisher is never blank, because a falsy one becomes 'N/A'. Cover is the thumbnail or "" |
| `Gate.Detect` | app3.js:72-85 | A detection never changes the cache or the Continue button. While a lookup is in progress it changes nothing. A cached ISBN is redisplayed and the gate stays open. Otherwise the gate closes and a lookup starts |
| `Gate.Settle` | app3.js:87-117 | Success caches the record under the ISBN, displays it and clears `isProcessing`. Not found or an error leaves the cache, the flag and the display unchanged and shows Continue |
| `Gate.Continue` | app3.js:123-126 | Continue hides the button and clears `isProcessing`, and leaves the cache unchanged |
| `Gate.GateHolds` | app3.js:73 | While `isProcessing` is set, any number of detections leaves the state unchanged and starts no lookup |
| `Gate.StaysClosed` | app3.js:72-85 | While `isProcessing` is set, any run of detections and End-session clicks keeps the flag set, leaves the Continue button and the display as they were, starts no lookup, and either keeps the cache or empties it. A run of detections alone changes nothing |
| `Gate.FailureWaitsForContinue` | app3.js:109-116 | After a failed lookup the cache is unchanged and the Continue button is shown. The gate then stays closed and the button stays shown through any later detections and End-session clicks, and no lookup starts |
| `Gate.CachedNeverRefetched` | app3.js:78-84 | A cached ISBN stays cached and is never looked up again, whatever detections, lookups and Continue clicks follow, until End session |
| `Gate.ResetCache` | app3.js:152-153 | End session empties the cache and leaves `isProcessing`, the Continue button and the display unchanged |
| `Gate.Export` | app3.js:144-147 | The export is the header and then one row per cached ISBN, in the cache's key order. Each cached ISBN has exactly one row, no other string has a row, and every row's count column is 1 |
| `Gate.Scanner.constructor` | app3.js:11-12 | The page starts with an empty cache and `isProcessing` false |
| `Gate.Scanner.OnDetected` | app3.js:72-85 | The handler's effect on the page is `Detect`. It starts a lookup exactly when the gate is open and the ISBN is not cached |
| `Gate.Scanner.FetchBookData` | app3.js:96-116 | The state after the awaited response is `Settle` of the state before |
| `Gate.Scanner.HideContinueButton` | app3.js:123-126 | The new state is `Continue` of the old one |
| `Gate.Scanner.EndSession` | app3.js:142-155 | The loop returns exactly the export rows of the cache as it was. Then the cache is empty and nothing else changes |

## Left out

- Camera and barcode I/O (`getUserMedia`, `enumerateDevices`, the Quagga init, start and `onDetected` wiring, `Quagga.start` in the Continue handler): browser and library calls. Devices and detected ISBNs are inputs.
- `fetch` and `.json()`: network I/O. Each response is an input value: failed, or its parsed fields. JSON values of unexpected types (a non-string title, a `null` list element) are not modelled. Every Google item is assumed to carry a `volumeInfo`.
- The spreadsheet library (`book_new`, `aoa_to_sheet`, `book_append_sheet`, `writeFile`): a foreign library. Only the array of rows passed to it is modelled. The library calls are assumed to return normally. If one of them threw, the page would keep the table, whereas `Tally.Session.EndSession` and `Gate.Scanner.EndSession` always empty it.
- DOM updates, `alert` and `console`: UI side effects. Only the record last displayed and the Continue button's visibility are kept.
- Async scheduling: a lookup's completion is a separate step. The model does not tie a completion to the detection that started it, so `Gate.Settle` may be applied to any ISBN.
- The Continue button's initial visibility is set by the page's HTML, which is not part of this model. The initial state assumes it is hidden.
- Gate.FailureWaitsForContinue: covers later detections and End-session clicks, not completions of other lookups. The model does not record which lookup is pending, so `Gate.Settle` with a found book for any ISBN clears `isProcessing`. In app3.js no lookup is pending after a failure, because the failed one was the only one started.
- ISBNs are assumed not to be names of properties inherited from `Object.prototype` ("constructor", "toString", "__proto__", ...). For such a name, `books[isbn]` on a plain `{}` is truthy even when nothing is stored. The barcode reader yields only digit strings, so this does not arise.
- The hard-coded ISBN in app.js's snap handler (app.js:22-28): a placeholder, not logic.
- `Object.entries` order: keys are listed in insertion order. JavaScript lists integer-like keys first, in numeric order. ISBN-13 strings are too large to be integer-like.
