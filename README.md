# Folio sequencing and idempotent payment registration

A Dafny model of the payment core of a funeral-home collection service
(Express + MySQL). Collectors register payments against clients; the server
hands out ticket folios in series `A` from a counter row, inserts the
payment in the same transaction, and deduplicates retries by the
`Idempotency-Key` header. The model also covers the two companion pieces
around it: the ticket routes that find a payment by its folio and serve its
PDF and print page, and a stand-alone payments router that numbers folios as
"largest stored number plus one" without a transaction.

Modules, one per concern:

- `Wrappers`: `Option`.
- `Numerals`: decimal digit strings, `String(n)` of a natural number, `padStart`.
- `JsValues`: the JavaScript values a JSON body can carry (`undefined`,
  `null`, booleans, numbers as exact decimals, strings); truthiness,
  `Number()`, `String()`, `trim()` over the ECMAScript whitespace set and
  `replaceAll('\\n', '\n')`.
- `Db`: the tables the registration reads and writes (`tickets_config`,
  `payments`, the read-only clients joined to their collectors), the key
  lookup and the unique keys of `payments`.
- `Links`: the folio `"<series>-<number>"`, the ticket locators
  `/api/v1/tickets/folio/<series>/<number>/<pdf|print>` and the router's
  matching of those paths.
- `Server`: `paymentSchema`, the registration as a specification function
  `Register`, the handler as the class `PaymentsDb` whose method works on
  copies of the two tables and commits them or drops them, the HTTP reply,
  and the SQL builder of `GET /api/v1/clients`.
- `ServerProperties`: what holds across calls: the folio invariant, replay
  of a known key, no conflict in a consistent database, the happy path,
  gap-free increasing folios over a run of requests, and a run of four
  requests from counter 5: key k1 gets A-6, its retry replays A-6, and
  keys k2 and k3 then get A-7 and A-8.
- `Tickets`: `pick`, `norm`, the six-digit folio, the ticket record, the
  404 rule of the PDF route and the print page.
- `PaymentsRouter`: the stand-alone `payments.js` router, as the class
  `PaymentsTable` over its rows and the specification function
  `PostPayment`.
- `Locator`: end to end, the links a created payment is answered with lead
  to a PDF route that draws exactly that payment.

Database failures are a parameter: `fault` names the awaited call that
throws a non-duplicate error (`Begin`, `LockSeries`, `CreateSeries`, ...),
or is `None`. The payment uuid the handler mints is a parameter too. A
duplicate entry is modelled through unique keys assumed on `payments`: the
idempotency key (which the handler's duplicate-entry branch relies on), and
also the uuid and the series and number pair, which the schema (not part
of this model) is assumed to declare.

The model follows the handlers' code in three places where one might
expect otherwise: a first registration answers 200 (the handler calls `res.json` without a
status), not 201; a lock timeout or deadlock is not a separate transient
error but ends in `INTERNAL_ERROR`; and the handler only ever numbers
series `A`. The stand-alone router builds its print URL on port
`PORT || 3000`, while the server listens on `PORT || 8080`; the model keeps
3000. That router is not mounted by the server.

## Model

| member | source | states |
|---|---|---|
| Server.ParsePayment | backend/src/server.js:80-85 | the body is accepted exactly when client_uuid is a uuid string, the (coerced) amount is a number greater than zero, notes is absent or a string and device_local_ts is a string; the payload carries client_uuid, the coerced amount and device_local_ts as sent, and a note exactly when notes is a string, that string |
| Server.CoercedAmount | backend/src/server.js:122-125 | a number amount is passed on as it is, anything else is `Number()` of it; the result is a number or NaN |
| Server.Register | backend/src/server.js:118-196 | a missing or empty key gives VALIDATION_ERROR with nothing changed; an invalid body gives VALIDATION_ERROR; every reply but Created leaves all tables as they were (the created series row and the increment roll back); Created needs a valid key and body and a resolving client, advances the series-A counter by exactly one and changes nothing else of the series-A row (a row created because it was missing carries the header name 'FUNERALES CÁRDENAS'), changes no other series, and appends exactly the row the insert binds: the new uuid, the client and its collector, the amount, the stored note, series A, the new number and the key, colliding with no unique key; Replayed reports the stored payment of the key; NotFound means the client does not resolve; Conflict means no payment has the key; Internal needs a failing call |
| Server.PaymentsDb.RegisterPayment | backend/src/server.js:118-196 | the handler, working on copies of the two tables and committing them only on success, ends in the state and reply `Register` gives for the state before the call |
| Server.StoredNotes | backend/src/server.js:160 | `notes \|\| null`: NULL exactly when the note is absent or empty, otherwise the note itself |
| Server.Respond | backend/src/server.js:120-192 | Created and Replayed both answer 200 and exactly they carry the links body, built from the reply's uuid, series and number (folio, PDF and print locators); validation errors answer 400 with VALIDATION_ERROR and the message the validation set, NotFound 404 with NOT_FOUND and 'Client not found', Conflict 409 with CONFLICT and 'Duplicate request', Internal 500 with INTERNAL_ERROR and 'Unexpected error' |
| Server.ClientsQuery | backend/src/server.js:105-115 | without `mine=true` the statement is the plain select with no parameter; with it the collector join and exactly one slot bound to the caller's subject; slots always match parameters |
| Db.ResolveClient | backend/src/server.js:146-154 | the client resolves exactly when its uuid is known and its collector is an existing user, and then it is that client |
| Db.FindByKey | backend/src/server.js:177-178 | none exactly when no payment has the key; otherwise the first payment in table order with that key |
| Db.FindByKeyAppended | backend/src/server.js:158-163 | a payment appended under a fresh key is the one the key lookup finds |
| Links.FolioInjective | backend/src/server.js:170 | within a series the folio string determines the number |
| Links.TicketUrlRoutes | backend/src/server.js:171-172 | a PDF or print locator built from a series and number is matched by the ticket route to exactly those parameters |
| Links.RouteParamsHaveNoSlash | backend/src/routes/tickets.js:42 | route parameters are non-empty and slash-free |
| ServerProperties.RegisterPreservesConsistency | backend/src/server.js:141-161 | every call keeps series-A folios pairwise distinct and no greater than the counter, and keys pairwise distinct; a created folio is greater than every folio of the series |
| ServerProperties.KnownKeyReplays | backend/src/server.js:175-188 | in a consistent database, a valid request whose key is stored, whose client still resolves and whose calls do not fail before the insert replays that payment's uuid and folio and changes nothing (a retry whose client no longer resolves answers NOT_FOUND instead, by UnknownClientIsNotFound) |
| ServerProperties.RetryReplaysOriginal | backend/src/server.js:175-188 | a retry of a created request replays the first uuid and folio and leaves one row and one increment |
| ServerProperties.NoConflictWhenConsistent | backend/src/server.js:189 | in a consistent database with an unused payment uuid no request ends in CONFLICT |
| ServerProperties.FailingCallIsInternal | backend/src/server.js:130-192 | for a valid request, any call it makes that throws (begin, the locks, the series creation, the counter update, the client lookup, the rollback before the 404, the insert, the commit) gives INTERNAL_ERROR and leaves every table as it was |
| ServerProperties.UnknownClientIsNotFound | backend/src/server.js:146-153 | a valid request whose client the join does not find, with no call it makes failing, gives NOT_FOUND and leaves every table as it was |
| ServerProperties.UnknownKeyCollisionIsConflict | backend/src/server.js:175-189 | a duplicate entry on insert while no stored payment has the key gives CONFLICT and leaves every table as it was |
| ServerProperties.KnownKeyCollisionReplays | backend/src/server.js:175-188 | a duplicate entry on insert while a stored payment has the key replays that payment's uuid and folio and leaves every table as it was |
| ServerProperties.InsertWithoutCollisionCreates | backend/src/server.js:156-173 | a valid request with a resolving client whose row collides with no unique key, with no call it makes failing, answers the new uuid with folio counter+1 and appends exactly that row |
| ServerProperties.AppendKeepsConsistent | backend/src/server.js:141-161 | appending a non-colliding series-A row under the advanced counter keeps the database consistent, and the row's folio exceeds every stored folio of the series |
| ServerProperties.FreshRequestCreates | backend/src/server.js:134-173 | a valid request with a fresh key and uuid, a resolving client and no failure creates folio counter+1 and keeps the database consistent |
| ServerProperties.UnusedAfterCreate | backend/src/server.js:158-161 | a creation stores only its own key and uuid |
| ServerProperties.FolioScenario | backend/src/server.js:118-196 | counter 5: key k1 gets A-6, its retry replays A-6 with nothing stored, k2 and k3 then get A-7 and A-8 |
| ServerProperties.TwoFreshRequests | backend/src/server.js:134-173 | from a consistent database, two requests in a row under different fresh keys and uuids, with resolving clients and no failure, are created with folios counter+1 and counter+2 |
| ServerProperties.Serve | backend/src/server.js:118-196 | requests served one after another give one reply each |
| ServerProperties.CreatedFoliosIncrease | backend/src/server.js:141-144 | over a run of requests the counter never decreases, created folios lie between the counters before and after, and strictly increase in request order |
| ServerProperties.ConsecutiveFolios | backend/src/server.js:141-144 | when every request of a run creates, the folios are exactly k+1 … k+N and the counter ends at k+N |
| Tickets.Pick | backend/src/routes/tickets.js:25-32 | the value of the first key in list order that is an own property neither null, undefined nor empty; the fallback when the row is missing or no key qualifies |
| Tickets.Norm | backend/src/routes/tickets.js:35-37 | a falsy value gives the empty string; the result neither starts nor ends with whitespace (NormOfText below, with the contracts of Trim, ExpandNewlinesAt and ExpandNewlinesIdempotent, fixes the result on every text) |
| Tickets.NormOfText | backend/src/routes/tickets.js:35-37 | a non-empty string is normalised as `trim()` of its `replaceAll('\\n', '\n')` |
| Tickets.NormHasNoEscape | backend/src/routes/tickets.js:36 | the result of norm holds no literal backslash-n |
| Tickets.NormIdempotent | backend/src/routes/tickets.js:35-37 | normalising a normalised text changes nothing |
| Tickets.NormOfPadded | backend/src/routes/tickets.js:35-37 | whitespace around a text that starts and ends visibly and holds no literal backslash-n is removed, and nothing else changes |
| Tickets.NormJoinsLines | backend/src/routes/tickets.js:35-37 | a literal backslash-n between two clean lines becomes one newline, with both lines kept as they are |
| Tickets.PadFolio | backend/src/routes/tickets.js:85 | the folio has length max(6, digits of n), ends with the digits of n, is zero before them, and reads back through `Number()` as n |
| Tickets.TicketFor | backend/src/routes/tickets.js:72-95 | the ticket of a payment has its series and padded folio, one concept 'Abono' for the amount, subtotal = sum of concepts = total = amount, no tax; collector and client names are picked with their fallbacks; the client RFC is empty and the payment form is 'Efectivo' |
| Tickets.FindByFolio | backend/src/routes/tickets.js:50-53 | none exactly when no payment has that series and numeric folio; otherwise the first such payment in table order |
| Tickets.PdfRoute | backend/src/routes/tickets.js:42-99 | a number parameter that is not a number fails the query; a folio no payment has gives 404 and draws nothing; otherwise the first matching payment in table order is drawn: its ticket built from its client's and its collector's rows, the header of its series' configuration, and the file name ticket-<series>-<padded folio>.pdf |
| Tickets.RenderedFor | backend/src/routes/tickets.js:59-99 | a found payment is drawn with the ticket of its client and collector rows, the header of its series' configuration and the file name ticket-<series>-<padded folio>.pdf |
| Tickets.HeaderFor | backend/src/routes/tickets.js:63-80 | each header line is the normalised configured column when it is usable, otherwise its default: 'FUNERALES CÁRDENAS' for the name, 'Gracias por su preferencia' for the footer, empty for the web, address and phone lines |
| Tickets.HeaderLine | backend/src/routes/tickets.js:76-80 | `norm(pick(cfg, [k], fallback))` is the normalised column when usable, otherwise the fallback, for a fallback that is already normal |
| Tickets.DefaultHeaderNameIsNormal | backend/src/routes/tickets.js:76 | the default header name is left as it is by norm |
| Tickets.DefaultFooterIsNormal | backend/src/routes/tickets.js:80 | the default footer is left as it is by norm |
| Tickets.NormOfClean | backend/src/routes/tickets.js:35-37 | a text that starts and ends visibly and holds no literal backslash-n is its own normal form |
| Tickets.PrintRoute | backend/src/routes/tickets.js:180-196 | the print route answers exactly the paths the router matches; its title is 'Imprimiendo ticket <series>-<number>' and its iframe source is exactly the PDF locator of the same series and number, which the router matches back to them |
| PaymentsRouter.MaxNumber | backend/src/routes/payments.js:23-28 | the maximum ticket number of the series, 0 when it has none: no smaller than any number of the series and attained when positive |
| PaymentsRouter.NextFolio | backend/src/routes/payments.js:29 | the next folio is greater than every number of the series, and either 1 or one past a stored number |
| PaymentsRouter.PostPayment | backend/src/routes/payments.js:11-59 | a falsy ticket_series, client_id, collector_id or amount answers 400 with nothing stored; a failing MAX query or insert stores nothing; otherwise exactly one row is appended with the series, the next folio, client, collector and amount, other rows unchanged; it stays when the browser launch fails; 201 carries the body's series, that folio and the print URL of that series and folio |
| PaymentsRouter.PaymentsTable.Post | backend/src/routes/payments.js:11-59 | the handler leaves the rows and reply `PostPayment` gives for the rows before the call |
| PaymentsRouter.OtherSeriesIgnored | backend/src/routes/payments.js:24-27 | payments of other series do not affect the next folio |
| PaymentsRouter.MaxNumberOfSeries | backend/src/routes/payments.js:24-27 | the maximum over the table is the maximum over the rows of the series |
| PaymentsRouter.PostKeepsFoliosDistinct | backend/src/routes/payments.js:23-37 | sequential requests keep folios distinct within each series |
| PaymentsRouter.MaxNumberAppended | backend/src/routes/payments.js:23-37 | a stored row above every number of its series becomes the series maximum |
| PaymentsRouter.SuccessiveFolios | backend/src/routes/payments.js:23-37 | two successful requests in a row for the same series get consecutive folios |
| PaymentsRouter.PrintUrlLocates | backend/src/routes/payments.js:40-41 | for a slash-free series the print URL is the base URL followed by a path the print route matches to that series and folio |
| Locator.CreatedTicketIsServed | backend/src/server.js:166-173 | from a consistent database, a created payment is answered with folio A-n, a print locator whose page frames the PDF locator, a PDF locator naming A and n, and the PDF route on the committed tables draws that payment's ticket with folio n padded to six digits and the amount as total |
| Locator.CreatedLinksRoute | backend/src/server.js:166-173 | the links answered for folio n of series A carry the payment uuid and the folio A-n; the PDF locator is routed to A and n, and the print locator's page frames that PDF locator |
| Locator.StoredTicketIsDrawn | backend/src/routes/tickets.js:42-96 | when no other series-A row repeats a row's folio, the PDF route for A and that folio draws exactly that row's ticket: its padded folio and its amount as total |
| Locator.CreatedSeriesHeader | backend/src/server.js:136-144 | when the PDF route reads the committed series-A header name, a created payment's PDF carries 'FUNERALES CÁRDENAS' if the series row was missing or its name empty, and otherwise the normalised stored name |
| Locator.SeriesHeaderDrawn | backend/src/routes/tickets.js:63-76 | for a stored series-A folio, the drawn header name is the default when the configured name is empty, otherwise its normal form |
| Locator.DrawnHeaderIsSeriesConfig | backend/src/routes/tickets.js:63-80 | the PDF of a stored series-A folio carries the header of series A's configuration |
| Locator.HeaderNameOf | backend/src/routes/tickets.js:76 | an empty configured name falls back to the default, any other is normalised |
| Locator.OnlyMatch | backend/src/routes/tickets.js:50-53 | in a consistent database only one series-A payment matches a folio |
| JsValues.ToNumber | backend/src/server.js:124 | `Number()` of a body value gives a number or NaN: a number as it is, null, false and "" as 0, undefined as NaN (with the literal lemmas below, what a numeric text gives) |
| JsValues.Trim | backend/src/routes/tickets.js:36 | `trim()` is a slice of its input with only whitespace before and after it, neither starts nor ends with whitespace, and leaves text already so unchanged |
| JsValues.ExpandNewlines | backend/src/routes/tickets.js:36 | `replaceAll('\\n', '\n')` leaves no literal backslash-n, never lengthens the text and keeps or replaces its first character (with ExpandNewlinesAt and ExpandNewlinesIdempotent, the result on every text) |
| JsValues.ExpandNewlinesIdempotent | backend/src/routes/tickets.js:36 | text without a literal backslash-n is left as it is |
| JsValues.ExpandNewlinesAt | backend/src/routes/tickets.js:36 | the text before the first backslash-n is kept, the pair becomes a newline, and the rest is replaced in turn |
| JsValues.TrimPadded | backend/src/routes/tickets.js:36 | `trim()` of a text that starts and ends visibly, with whitespace around it, is that text |
| JsValues.NumberOfDecimalLiteral | backend/src/server.js:124 | `Number()` of an optionally signed decimal literal with surrounding whitespace is its signed digits over ten to the number of fraction digits |
| JsValues.NumberOfIntegerLiteral | backend/src/server.js:124 | `Number()` of an optionally signed integer literal with surrounding whitespace is its signed digit value |
| JsValues.StripZeros | backend/src/routes/tickets.js:36 | dropping trailing fraction zeros keeps the value and the sign, never raises the scale, and leaves no trailing zero |
| JsValues.NumberOfDecimalText | backend/src/routes/tickets.js:36 | `String()` of a number read back by `Number()` is a number of the same value |
| JsValues.ToText | backend/src/routes/payments.js:41 | `String()` (the template text of the series, and norm's text) of a string is that string; of a number, a non-empty text that starts with a minus sign exactly when the number is negative (its digits by DecimalTextForm; the other values by TextOfNonNumbers) |
| JsValues.TextOfNonNumbers | backend/src/routes/payments.js:41 | `String()` of true and false is "true" and "false", of null, undefined and NaN "null", "undefined" and "NaN" |
| JsValues.DecimalText | backend/src/routes/tickets.js:36 | `String()` of a number is non-empty and starts with a minus sign exactly when the number is negative (its exact text by DecimalTextForm, the same text for equal values by DecimalTextOfValue, and the same value read back by NumberOfDecimalText) |
| JsValues.DecimalTextForm | backend/src/routes/tickets.js:36 | `String()` of a number is a minus sign exactly when it is negative, then the shortest numeral of its absolute value: whole digits without leading zero (a lone 0 allowed), and, only for a non-integer, a point and fraction digits whose last is not 0 |
| JsValues.DecimalTextOfValue | backend/src/routes/tickets.js:36 | two decimals of equal value, one JavaScript number, are written as the same text |
| JsValues.MinimalDecimalsEqual | backend/src/routes/tickets.js:36 | two decimals without a trailing fraction zero and of equal value are the same decimal |
| JsValues.UnsignedTextStartsWithDigit | backend/src/routes/tickets.js:36 | the text of a magnitude starts with a digit |
| JsValues.NumberOfNumeral | backend/src/routes/tickets.js:47 | a zero-padded numeral reads back through `Number()` as its value |
| Numerals.NatText | backend/src/routes/tickets.js:85 | `String(n)`: decimal digits without leading zero whose value is n |
| Numerals.PadStart | backend/src/routes/tickets.js:85 | `padStart`: length max(width, length), the text at the end, the pad before it |
| Numerals.LeadingZeros | backend/src/routes/tickets.js:85 | leading zeros do not change a numeral's value |

## Left out

- Concurrency: the `FOR UPDATE` row locks, the connection pool and `conn.release()`. Each request is one atomic step over the state left by the previous one.
- Login, JWT signing and checking, bcrypt and the auth middleware; the caller's subject is a parameter of the clients query.
- The uuid the handler and the lazily created series row mint (`uuidv4`): the payment uuid is a parameter, the series row's uuid is not modelled.
- Timestamps: `device_local_ts` is stored as the string sent, `server_ts`, `created_at`, `updated_at` and `NOW()` are not modelled.
- A failure of `pool.getConnection()`, which comes before the `try` block (backend/src/server.js:129), and a failure of the replay lookup after a duplicate entry, or of the rollback that precedes that lookup (backend/src/server.js:176): the handler then rejects its promise without answering, which the model does not represent.
- PDF drawing, the logo file, layout constants, `toFixed(2)`, the payment date on the ticket and the `Content-Type` and `Content-Encoding` headers (the file name of `Content-Disposition` is modelled); console logging; the `open()` browser launch is only a call that may fail.
- The frontend and its API client.
- JsValues.DecimalText: only plain notation; JavaScript's `String()` writes numbers below 1e-6 and from 1e21 up in exponent form (`1e-7`, `1e+21`), which the model does not.
- Db.Tables: of `tickets_config` the registration's tables hold only `current_number` and `header_name`; the other header columns come from the PDF route's configuration parameter, which Locator.CreatedSeriesHeader ties to the registration's header name.
- JsValues.ToNumber: numbers are exact finite decimals; exponent, hexadecimal, binary, octal and `Infinity` texts give NaN in the model, and rounding to a double is not modelled.
- Server.ParsePayment: the uuid check is the 8-4-4-4-12 hexadecimal shape; the version and variant rules of the schema library are not modelled. Arrays and objects in a body are not modelled.
- Tickets.PdfRoute: MySQL compares the text parameters under its collation (case and trailing spaces); the model compares exactly, so a series `a` does not find a payment of series `A` here. Percent-decoding of route parameters is not modelled.
- Tickets.PdfRoute: a failing payments, client, user or header query, which the route passes to `next(err)` (a 500 from the framework), is not modelled; only a number parameter that is not a number fails.
- Db.FindByKey, Db.Collides and Db.ResolveClient: keys, idempotency keys and uuids compare exactly; under a case-insensitive MySQL collation `K1` and `k1` would be the same key, which the model does not capture.
- PaymentsRouter.MaxNumber: the series comparison is exact, not under the column's collation.
- Links.MatchTicketRoute and Tickets.PrintRoute: Express percent-decodes route parameters (`A%2F1` is the series `A/1`), matches paths case-insensitively by default and ignores the query string; the model matches the raw path exactly and has no query string.
- Db.Collides: the unique keys are assumed; only the key on idempotency_key follows from the handler's duplicate-entry branch.
- PaymentsRouter.PostPayment: a non-string series is stored and compared as its JavaScript text; MySQL's own conversion of numbers and booleans to the column is not modelled.
