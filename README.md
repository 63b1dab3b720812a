# Airline booking server, modelled in Dafny

The system is a small Node.js HTTP server for airline passenger bookings.
It serves a few static pages and has three form handlers over one MongoDB
collection of passenger documents:

- register (`POST /signup`) creates a booking under a generated reservation code (PNR);
- cancel (`POST /cancel`) deletes a booking by its PNR;
- view (`POST /view`) looks a booking up by its PNR.

This project models the parts of `Airlinedata_management/server.js` that make decisions:

- the dispatch chain that maps (url, method) to a handler (`http.dfy`, module `Http`);
- the buffering of a request body from its `data` chunks (`chunks.dfy`, module `Chunks`), over the in-order join of strings in `strings.dfy` (module `Strings`), which the details page also uses;
- the PNR derivation (`pnr.dfy`, module `Pnr`);
- the passenger collection and the three handlers (`bookings.dfy`, module `Bookings`);
- the request callback that puts these together (`server.dfy`, module `Server`).

`option.dfy` holds the `Option` type.

The collection is a `map` from pnr to document inside the class
`Bookings.PassengerStore`. Its invariant `Valid()` says that every document
is stored under its own pnr. That is how the model keeps the schema's unique
index on `pnr`. Each handler has two forms:

- a pure step function on the table (`RegisterStep`, `CancelStep`, `ViewReply`), which says what the handler does and which the lemmas are about;
- a method of `PassengerStore` that updates `records` in place and writes the response, proved equal to that step.

Body buffering mirrors the `rawdata += data` callbacks. `Chunks.ReadBody` is
a loop over the chunks, proved to yield `Concat(chunks)`.

Inputs the model takes as parameters:

- `now` stands for `Date.now()`;
- `upper` stands for `toUpperCase`;
- `parse` stands for `URLSearchParams`;
- `formats` stands for the printing of numbers and of locale dates;
- `storeOk` stands for whether the store accepts the operation.

Behaviour worth noting in the source:

- `/styles.css` is served for any method. Its test comes first and looks only at the url.
- The PNR puts a `-` between the name prefix and the timestamp.
- Urls are compared exactly. A url with a query string, such as `/view?x=1`, gets 404.
- A registration fails not only on a PNR collision but also when `name` is empty, or `departure` or `arrival` is empty or missing. The schema declares these String paths required, and the store's required check on a String rejects both null and the empty string. A missing `name` does not reach the store: it crashes at line 61 (see "## Left out").

## Model

| member | source | states |
|---|---|---|
| Http.Route | Airlinedata_management/server.js:30-167 | Each handler is chosen by exactly its (url, method) pairs. `/styles.css` is chosen for any method. Every other pair gives NotFound, in both directions. |
| Http.StaticResponse | Airlinedata_management/server.js:32-167 | Handlers without a form answer 200 with a static file. The stylesheet is `text/css`, the others `text/html`. NotFound answers 404 `text/html` with the body "404 Not Found". |
| Http.StylesheetAnyMethod | Airlinedata_management/server.js:32-37 | `/styles.css` gets the stylesheet whatever the method. |
| Http.UnknownIsNotFound | Airlinedata_management/server.js:162-167 | Any request outside the route table gets 404 with the body "404 Not Found". |
| Chunks.ReadBody | Airlinedata_management/server.js:53-56 | The buffered body equals the in-order concatenation of all chunks. |
| Strings.ConcatAppend | Airlinedata_management/server.js:53-58 | Buffering two runs of chunks gives their bodies one after the other. |
| Strings.PartInPlace | Airlinedata_management/server.js:53-58 | Chunk i sits between the earlier chunks and the later ones, at the offset given by the length of the earlier chunks. |
| Strings.ConcatLength | Airlinedata_management/server.js:53-58 | The body is exactly as long as all chunks together. |
| Pnr.Prefix | Airlinedata_management/server.js:61 | `slice(0, 3)` is a prefix of the name whose length is 3, or the length of the name when that is shorter. A name of at most three characters is kept whole. |
| Pnr.Decimal | Airlinedata_management/server.js:61 | The printed timestamp is non-empty, all digits, with no leading zero except for 0. |
| Pnr.DecimalRoundTrip | Airlinedata_management/server.js:61 | Reading the printed timestamp back gives the timestamp. |
| Pnr.Derive | Airlinedata_management/server.js:61 | PNR = upper(name) + "-" + decimal(now) when the name has at most 3 characters, and upper(name[..3]) + "-" + decimal(now) otherwise. |
| Pnr.PnrTimestamp | Airlinedata_management/server.js:61 | For every name and case mapping, the digits after the PNR's last dash read back as the creation time. |
| Pnr.DistinctTimesDistinctCodes | Airlinedata_management/server.js:61 | Codes created in different milliseconds differ, whatever the names. |
| Bookings.RegisterStep | Airlinedata_management/server.js:63-84 | Success with status 200 if and only if save succeeds: no document has the pnr, the required String fields are present and the store accepts. On success the table gains exactly the new pnr, holds the submitted fields under it and leaves every other entry alone, and the text is "Passenger registered successfully! Your PNR is: " + pnr. Otherwise the table is unchanged and the reply is 500 with the registration error text. The unique-key invariant is kept. |
| Bookings.CancelStep | Airlinedata_management/server.js:101-117 | At most one document is removed, the one keyed by the pnr, and every remaining one is unchanged. A removal gives 200 with "Booking cancelled successfully!". No match, or a missing pnr, gives 200 with "No booking found with the provided PNR." and an unchanged table. A store failure gives 500 with the cancellation error text and no change. |
| Bookings.ViewReply | Airlinedata_management/server.js:134-159 | A found pnr gives 200 with that document's details page. Otherwise the reply is 200 "No passenger found with the provided PNR.", or 500 with the request error text when the store fails. |
| Bookings.NewDocument | Airlinedata_management/server.js:16-71 | The document is built if and only if `name` is non-empty and `departure` and `arrival` are present and non-empty, the schema's required String paths. When built, it carries the given pnr and copies name, age, departure, arrival, startDate and endDate from the form. |
| Bookings.DetailsPage | Airlinedata_management/server.js:140-148 | The page starts with the "Passenger Details" heading and contains every one of its field paragraphs. |
| Bookings.DetailsShowFields | Airlinedata_management/server.js:140-148 | The details page contains the name, age, departure, arrival, start date, end date and pnr paragraphs of the document. |
| Bookings.RegisterThenView | Airlinedata_management/server.js:63-151 | After a successful registration, view on the generated pnr finds the document, and the page shows the submitted name and the pnr. |
| Bookings.SameMillisecondCollides | Airlinedata_management/server.js:23 | Two registrations in the same millisecond with the same first three name characters: the second fails with 500, and the first document is neither overwritten nor lost. |
| Bookings.CancelUndoesRegister | Airlinedata_management/server.js:102-110 | Cancelling the pnr just registered restores the table exactly and reports "Booking cancelled successfully!". |
| Bookings.CancelThenView | Airlinedata_management/server.js:102-151 | After a successful cancel, view on that pnr answers "No passenger found with the provided PNR.". |
| Bookings.FoundCarriesCode | Airlinedata_management/server.js:136-147 | With the unique index, the page view shows for a found code carries that same code in its PNR paragraph: the lookup by key finds the document whose pnr field matches. |
| Bookings.CancelLeavesNoCode | Airlinedata_management/server.js:102-110 | With the unique index, after cancel no remaining document has the given code in its pnr field. |
| Bookings.PassengerStore.constructor | Airlinedata_management/server.js:27 | The store is bound to the existing collection: it holds exactly the given bookings, which must already be keyed by their own pnr, and satisfies the unique-key invariant. |
| Bookings.PassengerStore.Register | Airlinedata_management/server.js:57-85 | The new table and the response are exactly RegisterStep of the old table. The invariant is kept. |
| Bookings.PassengerStore.Cancel | Airlinedata_management/server.js:99-118 | The new table and the response are exactly CancelStep of the old table on the form's pnr. The invariant is kept. |
| Bookings.PassengerStore.View | Airlinedata_management/server.js:132-160 | The response is ViewReply of the current table. The method has no modifies clause, so it changes nothing. |
| Server.Handle | Airlinedata_management/server.js:30-167 | Routes the request. Form handlers parse the concatenation of the body chunks and then behave as their step function says. Every other route leaves the collection unchanged and answers StaticResponse. |

## Left out

- The MongoDB connection, its logging, `server.listen` and all console output are process and I/O plumbing.
- The contents of the static files are opaque assets. The model keeps only the file name, the status and the content type.
- `URLSearchParams` decoding is a library call. The parsed form is a map from field name to its first value, produced by a supplied `parse` function.
- `Number(age)`, `new Date(...)` and `toLocaleDateString()` are floating point and locale libraries. The model keeps the raw field text, and the page prints it through the supplied `Formats` functions.
- Casting failures of age and dates, connectivity errors and every other store failure apart from the unique index and the required String checks are folded into the `storeOk` parameter.
- Mongoose's persistence, its write concurrency behind the unique index, the event loop and interleaving of concurrent requests are outside the model. Each handler runs as one atomic step.
- `Pnr.Derive`: `now` is a `nat`. `Date.now()` is negative only for a clock set before 1970. Exponent notation, which JavaScript uses for integers of 10^21 and above, is not modelled.
- `Pnr.Derive`: `toUpperCase` is an abstract `upper: string -> string`. Characters are Dafny's Unicode scalar values, not the UTF-16 code units that `slice` counts.
- `Bookings.PassengerStore.Register`: the crash when the form has no `name` field (`.slice` on null) is excluded by the precondition `"name" in form`.
- `Bookings.DetailsPage`: the whitespace and newlines between the tags of the details template are dropped.
- `Chunks.ReadBody`: chunks are modelled as already-decoded strings. In the source no encoding is set, so each `data` chunk is a Buffer that `+=` decodes as UTF-8 on its own, and a multi-byte character split across two chunks becomes replacement characters. Form bodies that browsers send are percent-encoded ASCII, where this cannot happen.
- `Chunks.ReadBody`: only request streams that end are modelled. A request aborted before its `end` event gets no response and leaves the collection alone, whereas `Server.Handle` always answers.
