# A verified model of a small HTTP key/value and notes server

The server accepts connections on one thread, hands them to a fixed pool of workers through a bounded
queue, reads one HTTP/1.1 request per connection, and answers it from a store with a key/value table and a
notes table. This project models that behaviour in Dafny 4.11 and proves properties of the model.
`dafny verify dfyconfig.toml` checks all of it.

## How the model is built

* A byte is a `char`, a C string is a `CString` (a string without NUL), and what C string functions see of a
  buffer is `CStr`. Buffers that the source fills at an advancing position are arrays here too.
* Code that loops or changes state is a method, proved against a specification: a function of its inputs or
  a declarative predicate. What the source promises is then proved about that specification.
* The pool is a transition system. One action is one critical section, one system call or one atomic counter
  bump; spurious wakeups and calls to `server_stop` may happen at any time.
* Sockets follow scripts: `recv` may split the stream in any way, be interrupted or fail, and `send` may take
  any part of the buffer, be interrupted or fail. When `recv` fails, all that can happen instead of the answer to the
  stream is the answer 400; everything else is stated for every script.
* SQLite is a map from keys to values, a table of notes by id and an id counter. A flag says that a call fails,
  in which case it changes nothing.

| file | models |
|---|---|
| `ConnQueue.dfy` | the ring buffer and the FIFO it stands for |
| `Pool.dfy`, `PoolSafety.dfy`, `PoolDrain.dfy`, `PoolShutdown.dfy` | acceptor, workers, shutdown: steps, invariant, termination, when it begins |
| `CText.dfy`, `Numbers.dfy` | C strings, positions in text, `strtol` and decimal printing |
| `Json.dfy`, `JsonObject.dfy`, `JsonGrammar.dfy`, `JsonReply.dfy` | the JSON codec, its parser, its exact language, replies read back |
| `HttpParse.dfy`, `HttpRead.dfy`, `HttpRoundTrip.dfy`, `HttpQuery.dfy`, `HttpSend.dfy` | requests and responses |
| `Auth.dfy`, `Store.dfy`, `Listing.dfy`, `NotePages.dfy`, `Api.dfy` | key check, store, list texts, pages of notes, router and handlers as a sequential model |
| `ApiFacts.dfy`, `ApiRuns.dfy`, `Linear.dfy` | single requests, runs of requests, concurrent requests |
| `Handlers.dfy`, `NoteHandlers.dfy`, `Serving.dfy` | handlers, `api_dispatch` and `handle_client` as code over buffers, store and socket |
| `Answers.dfy` | what particular requests get, in the paths, numbers and texts that clients see |
| `EndToEnd.dfy`, `NoteRuns.dfy` | from one client's bytes to another client's answer: entries and notes |
| `SharedBuffer.dfy` | what the shared static buffers of the list and note handlers do to concurrent replies |

## Main results

* In every reachable state of every interleaving no wakeup is lost, every open client descriptor has exactly one
  owner, and the counters account for every connection; after the queue is closed a bound on the remaining work
  falls at every step of every thread, nothing can get stuck, and `server_run` returns with everything closed
  (`NoLostWakeup`, `NothingLeaks`, `CleanShutdown`, `DrainIsBounded`, `DrainFinishes`).
* Shutdown begins exactly when `server_stop` is called or poll or pthread_create fails, and then it comes; until then the
  server goes on accepting and serving, and idle workers sleep (`EndsExactlyWhenAsked`, `AskedEndComes`, `KeepsServing`,
  `NobodySpins`).
* `json_get_string` accepts exactly the texts of a grammar that does not mention the parser (`FoundExactly`,
  `MissingExactly`, `TooLargeExactly`).
* `http_read_request` returns the same result for every way the stream is split (`ReadRequest`,
  `SplittingDoesNotMatter`), and a printed request arrives whole (`StreamRoundTrip`).
* Concurrent key/value requests, the key check included, are linearisable: every reply is the one that `api_dispatch` gives when
  the requests run one at a time in one order that respects real time (`Linearisable`), and the one that a plain map gives
  on which put sets, get reads and delete removes (`LinearisableAsMap`).
* The code of every handler, of `api_dispatch` and of `handle_client` leaves on store and wire exactly what the sequential
  model says (`ApiDispatch`, `HandleClient`); what a client observes depends on the bytes it sent, the store and the
  environment alone, however `recv` and `send` split them (`SameStreamSameAnswer`).
* A value that one client puts, in any JSON notation, is read back by every client, with or without a key, across both codecs,
  the key check, the store and any run of requests that do not write the entry (`PutThenGet`). The header fields of both
  clients may stand in any order, with names in any case and any fields that the server does not know among them.
* A deleted entry is gone (`DeleteThenAsk`); created and updated notes are read back as they were sent, deleted ones are gone
  for good (`CreateThenGet`, `UpdateThenGet`, `DeleteNoteThenGet`).
* On the wire there is exactly one response, and its status line, type, length and allowed methods tell the truth
  (`BytesTell`, `TruthfulOnWire`).
* Successive pages of notes show every note exactly once, in the order of the ids (`PagesListEverything`); the notes that some
  accepted page shows are exactly the first 1000100 (`ListableExactly`).
* Requests without the key have no effect over whole runs (`UnauthorisedHaveNoEffect`), every request gets exactly one
  truthful response (`OneTruthfulResponse`), and every reachable store can be shown unless a value holds a
  control byte without an escape (`ReachableIsGood`, `KvGetReply`, `NoteGetReply`).

## Where the code differs from its documentation

The model follows the code.

* Values and note bodies that arrive over HTTP have at most 8191 bytes, because `json_get_string` decodes every value into a
  local of 8192 bytes (src/json.c:125), although include/store.h:9-11 allows more (`FieldSane`, `ReachableIsGood`). A value comes
  through exactly if it has at most 8191 bytes (`ValueLimit`); a longer one is answered with 400 (`LongPutRefused`).
* `parse_quoted` accepts raw control bytes but `json_escape` refuses most of them, so a PUT can be committed and then
  answered with 500. `PutCommits` says exactly when, `CommittedButFailed` gives an input.
* The parser accepts a trailing comma and knows only five escapes; its language is the grammar of `JsonGrammar.dfy`, not the
  one of RFC 8259. A value that does not fit ends the search at once, whatever follows (`TooLargeExactly`).
* The table of endpoints (README.md:180-195) leaves out 500, 401 and 403 for echo in protected mode, and 413 for listings;
  apart from these every status is a documented one (`StatusesAreDocumented`).
* With a header buffer of 16384 bytes the 413 answer for long headers cannot occur; over-long headers give 400 (`ReadHeader`).
* The list and note handlers keep their texts in `static` buffers that all workers share (src/api.c:283, 328, 347, 361), although
  include/api.h:14 promises per-connection state only. A client can then get another client's note, or a mixture of two
  (`ForeignReply`, `TornReply`, `TornNote`). All replies are right in all runs exactly if one worker is configured
  (`RightExactlyForOneWorker`); the default is eight.
* The overflow branches of the error reply and of the key/value reply cannot be taken (`ErrorBodyFits`, `EntryFits`).

## Model

| member | source | states |
|---|---|---|
| `ConnQueue.Ring.Init` | src/server.c:70-103 | a queue is made exactly for a positive capacity, and it is empty and open |
| `ConnQueue.Ring.CloseQueue` | src/server.c:116-122 | closing keeps the contents and sets the flag |
| `ConnQueue.Ring.TryPush` | src/server.c:124-141 | appends to the FIFO, or returns -1 and changes nothing exactly when closed or full |
| `ConnQueue.Ring.TakeOrExit` | src/server.c:143-158 | after the wait loop: takes the oldest entry, or -1 when closed and empty |
| `ConnQueue.RunInOrder` | src/server.c:116-158 | over any calls the order is kept, and after closing nothing enters |
| `ConnQueue.FirstInFirstOut` | src/server.c:70-158 | over every run from an empty queue: what left plus what is queued is what entered, in order, never above the capacity |
| `ConnQueue.TakenExactly` | src/server.c:116-158 | over every run: a push is taken iff nobody closed the queue and fewer are in it than it has slots; a pop gives the oldest |
| `PoolSafety.ClosesOpen` | src/server.c:283-292 | whoever closes a client descriptor closes an open one: no double close |
| `PoolSafety.InvStep` | src/server.c:463-541 | every step of acceptor, workers, environment and `server_stop` keeps the whole invariant |
| `PoolSafety.ReachableInv` | src/server.c:463-541 | the invariant holds after every interleaving of any number of threads |
| `PoolSafety.NoLostWakeup` | src/server.c:116-158 | if someone sleeps, at most as many connections are queued as workers were notified; whenever a connection is queued some worker can step; nobody sleeps on a closed queue |
| `PoolSafety.NothingLeaks` | src/server.c:495-530 | accepted = dropped + queued + held + handled; opened = open + closed; service in arrival order; one owner per open descriptor |
| `PoolSafety.CleanShutdown` | src/server.c:532-540 | when `server_run` returns 0 the queue is empty, all workers ended, no client descriptor is open, and accepted = handled + dropped |
| `PoolSafety.ExitsWhenDrained` | src/server.c:276-282 | a worker has ended only if the queue is closed and empty |
| `PoolDrain.StepWorks` | src/server.c:116-158 | after closing no step grows the queue and every own step lowers the work left |
| `PoolDrain.DrainIsBounded` | src/server.c:532-536 | after closing, all threads together take a bounded number of steps under every scheduler |
| `PoolDrain.DrainNeverSticks` | src/server.c:532-536 | until `server_run` has returned some thread can step |
| `PoolDrain.DrainFinishes` | src/server.c:532-540 | from any closed state the threads bring `server_run` to its end, and a run that cannot go on has done so |
| `PoolShutdown.EndsExactlyWhenAsked` | src/server.c:479-530 | over every run: the server is in its loop, with an open queue and no ended worker, iff nobody called `server_stop` and neither poll nor pthread_create failed; a failing accept, a timeout or a full queue never end it |
| `PoolShutdown.EndIsBounded` | src/server.c:495-540 | once the end was asked for, the acceptor takes a bounded number of steps in every run |
| `PoolShutdown.AskedEndComes` | src/server.c:495-540 | from every such state `server_run` can and must return |
| `PoolShutdown.NobodySpins` | src/server.c:143-158 | workers take no more steps than connections, wakeups and broadcasts give them: idle workers sleep |
| `PoolShutdown.KeepsAccepting` | src/server.c:495-523 | while the server runs, acceptor steps alone lead to a further accepted connection |
| `PoolShutdown.KeepsServing` | src/server.c:276-293 | while it runs, its own steps lead to a further handled connection |
| `PoolShutdown.DropsExactlyWhenFull` | src/server.c:124-141 | a connection is refused iff the queue is closed or full |
| `Json.EscapableAre` | src/json.c:40-42 | what can be escaped: control bytes only tab, line feed and carriage return |
| `Json.EscapedIsPrintable` | src/json.c:9-51 | nothing that is written is a control byte |
| `Json.OneByteReads` | src/json.c:78-108 | every single byte but quote and backslash is read as itself, control bytes included |
| `Json.OneEscapeReads` | src/json.c:79-102 | five escapes are read as their bytes, every other one is refused |
| `Json.JsonEscape` | src/json.c:9-51 | succeeds exactly when every byte can be escaped and text and terminator fit; the buffer then holds the escaped text |
| `Json.EscapeInjective` | src/json.c:9-51 | different strings escape to different texts |
| `Json.ReadQuoted` | src/json.c:60-111 | NULL or the position after the closing quote with the decoded bytes in the buffer, as the specification says |
| `Json.ReadTokens` | src/json.c:65-110 | the loop after the opening quote against the same specification |
| `Json.UnquoteSound` | src/json.c:67-110 | what is read is the text of valid characters and escapes and a closing quote |
| `Json.UnquoteComplete` | src/json.c:67-110 | every such text is read as just those characters |
| `Json.QuotedRoundTrip` | src/json.c:9-111 | reading back an escaped string gives the original exactly when it fits with its terminator |
| `JsonObject.SkipSpaces` | src/json.c:53-58 | stops at the first byte that is no space |
| `JsonObject.ReadMember` | src/json.c:139-155 | name, colon and string value, or failure |
| `JsonObject.TakeMember` | src/json.c:139-167 | stores the wanted field once, refuses a repetition and a value that does not fit |
| `JsonObject.TakeTurn` | src/json.c:126-183 | one turn of the loop: result or next position |
| `JsonObject.SearchFrom` | src/json.c:126-184 | the whole loop, which ends, against the specification |
| `JsonObject.JsonGetString` | src/json.c:113-185 | the return value, and on success the value with its terminator in the buffer |
| `JsonGrammar.SearchComplete` | src/json.c:126-184 | every text of the grammar yields the verdict of its list of values |
| `JsonGrammar.SearchSound` | src/json.c:126-184 | a well-formed result means that the body is a text of the grammar |
| `JsonGrammar.FoundExactly` | src/json.c:113-185 | OK with v iff the body is a flat all-string object with the field exactly once, decoding to v, and v fits |
| `JsonGrammar.MissingExactly` | src/json.c:113-185 | missing field iff the body is such an object without the field |
| `JsonGrammar.TooLargeExactly` | src/json.c:156-163 | payload too large iff the first value of the field does not fit, whatever follows it |
| `JsonReply.OneReads` | src/api.c:177-188 | a one-entry object that the server writes is read back entry by entry |
| `JsonReply.TwoRead` | src/api.c:211-218 | the same for a two-entry object |
| `JsonReply.SpacedReads` | src/json.c:53-185 | an entry with any of the four white-space bytes between its parts and an escaped value is read as that value, iff it fits |
| `HttpQuery.PrintedLookup` | src/http.c:436-465 | in a printed list of name=value pairs: the value of the first pair with the name, '+' as space, absent iff no pair has it, too long iff it does not fit |
| `HttpQuery.QueryGet` | src/http.c:436-465 | the value of the first piece with that name, '+' as space; -2 iff it does not fit; -1 iff no piece has the name |
| `HttpQuery.FindFromIsFirst` | src/http.c:441-464 | the search as a function finds the first match exactly |
| `HttpQuery.Query` | src/http.c:436-465 | the three answers with a local buffer, as a value |
| `Numbers.StrTolDecimal` | src/http.c:197-211 | `strtol` undoes decimal printing, whatever is no digit follows |
| `Numbers.StrTolNegative` | src/http.c:197-203 | a minus sign is read as the sign |
| `Numbers.StrTolTooLarge` | src/http.c:197-203 | a number beyond long is clamped and reported |
| `Numbers.StrTolSkips` | src/http.c:197-203 | leading spaces and a plus sign are skipped |
| `Numbers.SpacesAre` | src/http.c:144-157 | the bytes that sscanf and strtol skip |
| `HttpParse.LowersTheAlphabet` | src/http.c:138-142 | the alphabet is lowered letter by letter, every other byte stays |
| `HttpParse.FindBlank` | src/http.c:233-243 | the first CRLFCRLF, or none |
| `HttpParse.LowerInPlace` | src/http.c:138-142 | every byte of the C string in the buffer is lower-cased, the terminator stays |
| `HttpParse.ReadLength` | src/http.c:197-211 | a Content-Length value sets the length exactly when it is a number in range with only blanks after it |
| `HttpParse.ReadHeaderLine` | src/http.c:180-225 | a header line has exactly the effect that its lower-case name and its value determine |
| `HttpParse.RunLines` | src/http.c:255-278 | the `strtok` loop over the lines against its specification |
| `HttpParse.LinesClean` | src/http.c:144-286 | every text in a parsed request is a C string |
| `HttpParse.ParseRequest` | src/http.c:227-286 | no CRLFCRLF gives 400; otherwise only the block before the first one counts |
| `HttpRead.Socket.RecvOne` | src/http.c:288-294 | retries interruptions; hands over the next bytes of the stream; 0 exactly at its end |
| `HttpRead.ReadHeader` | src/http.c:304-334 | finds the end of the header block iff it lies in the buffer; 413 only with a larger buffer than deployed |
| `HttpRead.ReadBody` | src/http.c:351-365 | the body is exactly the requested bytes after the header block, or the stream was too short |
| `HttpRead.FinishRequest` | src/http.c:339-368 | lengths, early bytes and body against the outcome; if `recv` fails it may be 400 instead |
| `HttpRead.ReadRequest` | src/http.c:296-369 | with deployable buffers the result is the outcome determined by the stream alone; if `recv` fails it may be 400 instead, never another request |
| `HttpRead.SplittingDoesNotMatter` | src/http.c:296-369 | that outcome is unique, so every way of splitting the stream gives the same result |
| `HttpRoundTrip.ParseBlock` | src/http.c:248-271 | a printed block is parsed line by line, for any line parser |
| `HttpRoundTrip.BlockEnds` | src/http.c:233-243 | the first CRLFCRLF of a printed request is the one after its header block |
| `HttpRoundTrip.RequestLineParses` | src/http.c:144-157 | `sscanf` recovers method, target and version of a printed request line |
| `HttpRoundTrip.SplitTargetIs` | src/http.c:163-176 | path and query are split at the first question mark |
| `HttpRoundTrip.FieldLineEffect` | src/http.c:180-225 | a printed header line acts by its lower-case name and its value only |
| `HttpRoundTrip.OrderDoesNotMatter` | src/http.c:197-224 | accepted effects without clashes give the same request in any order |
| `HttpRoundTrip.PrintedParses` | src/http.c:227-286 | parsing a printed request gives its request line and the effects of its fields |
| `HttpRoundTrip.HeaderOrderAndCase` | src/http.c:180-286 | for accepted requests with distinct names, order and case of the header names change nothing |
| `HttpRoundTrip.SpelledFold` | src/http.c:197-224 | fields that spell the headers set just what they name, in any order and case, repeated, and with unknown fields among them |
| `HttpRoundTrip.RequestRoundTrip` | src/http.c:144-286 | every request within the limits is recovered: each of the four methods by its name, path, query, and length, type and key, each if it is there, whatever the order of the fields, the case of their names, the blanks after the colon and the other fields |
| `HttpRoundTrip.OtherMethodRefused` | src/http.c:89-103 | any other word in the place of the method is 405 |
| `HttpRoundTrip.BadOpeningRefused` | src/http.c:152-157 | a version that is not HTTP/1.x or a target that is no path is 400 |
| `HttpRoundTrip.LengthEffects` | src/http.c:197-211 | Content-Length for every number: kept up to 65536, 413 beyond, 400 for a sign, nothing or junk |
| `HttpRoundTrip.LengthThenBlanks` | src/http.c:204-207 | blanks after the number do no harm |
| `HttpRoundTrip.LargeLengthRefused` | src/http.c:197-203 | a request that announces more than 65536 bytes is 413 |
| `HttpRoundTrip.ChunkedRefused` | src/http.c:216-223 | a chunked request is 501 |
| `HttpRoundTrip.StreamRoundTrip` | src/http.c:296-369 | over a socket it arrives with the body it announces, if any, however split and whatever follows |
| `HttpSend.DeliveredIs` | src/server.c:203-218 | for every schedule: interruptions never matter; without a failing or empty call everything is delivered, else what the calls before it took |
| `HttpSend.StatusNumbers` | src/http.c:21-51 | which errors have which status number |
| `HttpSend.ErrorCodes` | src/http.c:53-87 | the codes that clients see |
| `HttpSend.ReasonPhrases` | src/http.c:105-136 | the reason phrases of the statuses |
| `HttpSend.SendAll` | src/server.c:193-220 | the bytes delivered are the first ones in order; 0 exactly when all were |
| `HttpSend.Respond` | src/http.c:371-405 | header then body on success, a proper prefix on failure, nothing if the header overflows |
| `HttpSend.HeadFits` | src/http.c:381-397 | the header fits its buffer for the types and sizes of this server |
| `HttpSend.Framing` | src/http.c:383-403 | read from the bytes: the status that was given, lines for type, length and allowed methods, the header up to the first CRLFCRLF, and as body all that follows |
| `HttpSend.CopyDetail` | src/http.c:417-426 | the escaped prefix of the detail that the loop copies, within its buffer |
| `HttpSend.CutIsWhole` | src/http.c:420-425 | the whole detail is copied iff what precedes its last byte leaves room |
| `HttpSend.ErrorBodyFits` | src/http.c:427-431 | the error body always fits: the fallback is unreachable |
| `HttpSend.ErrorParsesBack` | src/http.c:407-434 | the body parses back to the right code and to a prefix of the detail, the whole of it exactly in the stated case |
| `HttpSend.ShortDetailIsWhole` | src/http.c:417-426 | a detail of at most 510 escaped bytes is shown whole |
| `HttpSend.RespondError` | src/http.c:407-434 | the error text goes out, or a proper prefix of it |
| `Auth.KeyMatches` | src/server.c:436-448 | the XOR/OR fold returns 1 iff the two keys are equal |
| `Auth.AuthCheck` | src/server.c:450-461 | open without a key; 401 without, 403 with a wrong, OK with the right key |
| `Store.ValidateKey` | src/store_sqlite.c:94-111 | OK exactly for 1 to 128 bytes of the allowed set |
| `Store.Connection.Put` | src/store_sqlite.c:138-167 | checks, then one map update |
| `Store.Connection.Get` | src/store_sqlite.c:169-204 | the stored value in the buffer, or why not |
| `Store.Connection.Del` | src/store_sqlite.c:206-229 | removes the key, or reports that it is absent |
| `Store.Connection.CreateNote` | src/store_sqlite.c:299-330 | a new row under a fresh id |
| `Store.Connection.UpdateNote` | src/store_sqlite.c:459-489 | replaces title and body, keeps the creation time |
| `Store.Connection.DeleteNote` | src/store_sqlite.c:491-513 | removes the row, or reports that it is absent |
| `Listing.RenderKv` | src/store_sqlite.c:261-281 | one row: escape both fields, write the row after its comma, or the error |
| `Listing.RenderKvRows` | src/store_sqlite.c:251-282 | the loop: error code, position below capacity, text written |
| `Listing.RenderNote` | src/store_sqlite.c:332-356 | one note at the position: its text and a terminator, or the error |
| `Listing.RenderNoteRows` | src/store_sqlite.c:400-415 | the loop, which looks for room for the comma first |
| `Listing.RowsSucceed` | src/store_sqlite.c:260-282 | the loop succeeds iff all rows can be escaped and all fit |
| `Listing.KvList` | src/store_sqlite.c:251-296 | the key/value listing against its specification |
| `Listing.KvListAllOrNothing` | src/store_sqlite.c:231-297 | success iff all rows escape and the full text plus terminator fits |
| `Listing.NoteList` | src/store_sqlite.c:387-428 | the note listing against its specification |
| `Listing.NoteListAllOrNothing` | src/store_sqlite.c:332-429 | success iff all rows escape and the full text plus terminator fits |
| `Listing.KvListInjective` | src/store_sqlite.c:259-294 | different key/value lists never have the same text |
| `Listing.NoteListInjective` | src/store_sqlite.c:332-429 | different note lists or totals never have the same text |
| `NotePages.ListIsComplete` | src/store_sqlite.c:368-386 | the list has every note exactly once, ascending by id, and `COUNT(*)` is its length |
| `NotePages.PagesArePrefix` | src/store_sqlite.c:378-386 | the first pages together are the first notes |
| `NotePages.PagesListEverything` | src/store_sqlite.c:378-386 | pages that reach past the total show every note exactly once and in order |
| `NotePages.ListableExactly` | src/api.c:64-100 | some accepted limit and offset shows the k-th note iff k < 1000100 |
| `NotePages.SelectNotes` | src/store_sqlite.c:366-386 | the page of the rows ordered by id, and the number of rows |
| `ApiFacts.FieldSane` | src/json.c:124-166 | every value handed out is a C string of at most 8191 bytes that fits |
| `ApiFacts.OneTruthfulResponse` | src/api.c:480-534 | exactly one response; an error with its own status, success with 200, 201 or 204, every 405 with Allow; `Serving.TruthfulOnWire` says it of the bytes |
| `ApiFacts.GetKeeps` | src/api.c:407-471 | reads change nothing |
| `ApiFacts.WritableIsUnderApi` | src/api.c:492-528 | every route that can write lies under the guarded prefix |
| `ApiFacts.UnauthorisedKeeps` | src/api.c:492-501 | in protected mode a request without the key leaves the store as it was |
| `ApiFacts.UnauthorisedHaveNoEffect` | src/api.c:480-534 | in protected mode the store after any run is the store after its authorised writes alone |
| `ApiRuns.ReachableIsGood` | src/api.c:194-405 | every run keeps: valid keys, values and bodies of at most 8191 bytes, titles of 1 to 200 bytes |
| `ApiRuns.ReachableFromEmpty` | src/api.c:194-405 | so every store reached from the empty one is such a store |
| `ApiRuns.EntryEncodes` | src/api.c:211-225 | a key/value reply never overflows; it is 500 exactly for a control byte without an escape |
| `ApiRuns.EntryParsesBack` | src/api.c:236-248 | a key/value reply parses back to key and value |
| `ApiRuns.KvGetReply` | src/api.c:229-252 | the reply to a GET of a stored key, exactly |
| `ApiRuns.PutCommits` | src/api.c:206-216 | a PUT that reaches the store is committed; it answers 200 iff the value can be escaped |
| `ApiRuns.CommittedButFailed` | src/api.c:206-216 | a concrete value that is committed and answered with 500 |
| `ApiRuns.ReadYourWrite` | src/api.c:194-252 | a GET after a PUT gives the same reply |
| `ApiRuns.ValueLimit` | src/json.c:124-166 | a value is found iff it has at most 8191 bytes, however large the caller's buffer is; a longer one is a bad request |
| `ApiRuns.LongPutRefused` | src/api.c:200-205 | a PUT of 8192 to 60000 bytes is answered with 400 and changes nothing |
| `ApiRuns.NoteListReply` | src/store_sqlite.c:358-429 | a listing shows the page and the total iff all its texts can be escaped and it fits |
| `ApiRuns.NoteGetReply` | src/store_sqlite.c:332-356 | the reply about a stored note never overflows |
| `ApiRuns.EchoParsesBack` | src/api.c:164-192 | every successful echo parses back to the data received |
| `Answers.FixedRoutes` | src/api.c:407-528 | the fixed paths and both collections |
| `Answers.KvRoutes` | src/api.c:416-425 | /api/kv/<key> is that entry iff the key is valid |
| `Answers.NoteRoutes` | src/api.c:102-118 | /api/notes/<id> is that note for every positive long; zero or anything after the number is none |
| `Answers.NoteSlash` | src/api.c:108-110 | a further slash leads nowhere |
| `Answers.OtherRoutes` | src/api.c:417-534 | paths that begin like an entry but are none, and all others |
| `Answers.LimitIs` | src/api.c:64-81 | a limit is taken iff it is 1 to 100, and is 50 if there is none |
| `Answers.OffsetIs` | src/api.c:83-100 | an offset is taken iff it is at most 1000000, and is 0 if there is none |
| `Answers.KeyNeeded` | src/api.c:494-501 | in protected mode every write under /api/ without the key: 401 without a key, 403 with another one, no effect |
| `Answers.KeyNotNeeded` | src/api.c:492-501 | in open mode, with the key, for reads and outside /api/ it plays no role |
| `Answers.MethodsAre` | src/api.c:407-522 | a method that a route does not have is 405 with the list of those that it has |
| `Answers.NamesNothing` | src/api.c:417-534 | a path that names nothing is 404 or 400 whatever the method |
| `Answers.BodyNeeded` | src/api.c:25-44 | 411 without a length, 400 without a body, 415 without application/json in any case |
| `Answers.KvListReply` | src/api.c:266-299 | a key/value listing: 400 for bad parameters, else the rows iff all can be escaped and fit |
| `Answers.StatusesAreDocumented` | README.md:182-195 | in every good store every error of a documented endpoint has a documented status, or one of the listed exceptions |
| `Answers.SuccessesAre` | src/api.c:120-405 | success is 201 for a created note, 204 for a deletion, 200 otherwise |
| `Answers.PlainPages` | src/api.c:120-162 | page, health and metrics are shown as they are |
| `Answers.StoreFailures` | src/store_sqlite.c:138-513 | a failing store call is 500 and changes nothing |
| `Answers.EntriesAre` | src/api.c:183-218 | one and two strings under their names, as JSON text |
| `Answers.ObjectsAre` | src/api.c:164-218 | the names in key/value and error objects, and what stands under them |
| `Answers.NoteIs` | src/store_sqlite.c:347-350 | the text of a note, names and values in their places |
| `Answers.ListsAre` | src/store_sqlite.c:259-294 | list texts are the rows with commas between them |
| `Answers.KeysAre` | src/store_sqlite.c:94-111 | keys are 1 to 128 bytes of the documented alphabet |
| `Answers.RefusalParsesBack` | src/api.c:55-62 | the body of a 405 parses back to its code and the list of methods |
| `Linear.StepSequential` | src/api.c:194-264 | every step of every worker keeps the agreement with the sequential handler |
| `Linear.DispatchIsPlan` | src/api.c:407-501 | for a request about a key, `api_dispatch` is the key check, then the plan, the store call and the answer |
| `Linear.StoreAtIsFinal` | src/api.c:480-534 | the ordered requests leave the store that serving them one at a time leaves |
| `Linear.Linearisable` | src/store_sqlite.c:138-229 | one order of all requests, in which `api_dispatch` gives every reply (401 and 403 included) and leaves the store, which respects real time and whose places all belong to a reply or to a worker about to give it; in protected mode only authorised writes have an effect |
| `Linear.PlanIsPlain` | src/store_sqlite.c:138-229 | put sets, get reads, delete removes; 404 for an absent key, and nothing else in the store changes |
| `Linear.LinearisableAsMap` | src/store_sqlite.c:138-229 | every reply of every interleaving is the one of a plain map, one request at a time |
| `Handlers.BytesTell` | src/http.c:371-434 | the bytes of every reply tell a client its status, type, length, allowed methods and body |
| `Handlers.Report` | src/http.c:407-434 | the whole error text goes out, or a proper prefix; the header never overflows |
| `Handlers.CheckJson` | src/api.c:25-44 | 411, 400, 415 or OK, as the sequential check says |
| `Handlers.TakeField` | src/api.c:171-176 | the field through a local buffer: a C string that fits, or the error |
| `Handlers.DoEcho` | src/api.c:164-192 | does on the wire what the sequential handler says |
| `Handlers.SendEntry` | src/api.c:211-226 | escapes into its buffers and sends the entry, or the 500 |
| `Handlers.DoGet` | src/api.c:229-252 | does on store and wire what the sequential handler says |
| `Handlers.DoDel` | src/api.c:254-264 | does on store and wire what the sequential handler says |
| `Handlers.DoPut` | src/api.c:194-227 | does on store and wire what the sequential handler says |
| `Handlers.DoItem` | src/api.c:426-436 | the requests on one key, 405 included |
| `Handlers.DoKvList` | src/api.c:266-299 | parameter errors, listing and wrapping as the sequential handler says |
| `NoteHandlers.ReadNote` | src/store_sqlite.c:431-457 | the note's text in the buffer, or why not |
| `NoteHandlers.DoNoteCreate` | src/api.c:301-338 | two store calls, and the reply that the second one allows |
| `NoteHandlers.DoNoteList` | src/api.c:340-358 | does on the wire what the sequential handler says |
| `NoteHandlers.DoNoteGet` | src/api.c:360-371 | does on the wire what the sequential handler says |
| `NoteHandlers.DoNoteUpdate` | src/api.c:373-393 | does on store and wire what the sequential handler says |
| `NoteHandlers.DoNoteDel` | src/api.c:395-405 | does on store and wire what the sequential handler says |
| `Serving.DoDispatchKv` | src/api.c:407-437 | every key/value route |
| `Serving.DoDispatchNotes` | src/api.c:439-471 | every note route |
| `Serving.ApiDispatch` | src/api.c:480-534 | for every request the store is the model's, and exactly one response is on the wire, or a proper prefix of it when sending fails |
| `Serving.ServeParsed` | src/server.c:263-273 | a request that could not be read is answered with its error; the counters move accordingly |
| `Serving.HandleClient` | src/server.c:249-274 | the request is the one that the stream determines, or 400 if `recv` fails; store, wire and counters follow from it |
| `Serving.TruthfulOnWire` | src/server.c:256-274 | after every connection the wire holds the first bytes of exactly one response, whose status line is the number of the returned error, or 200, 201 or 204 with all of it if OK is returned; a 405 names the methods |
| `Serving.SameStreamSameAnswer` | src/server.c:256-274 | two connections with the same bytes leave the same store and get prefixes of the same response |
| `EndToEnd.RunSpares` | src/api.c:480-534 | no run of requests that do not write an entry changes it: reads, requests about other things, refused, malformed or failing ones |
| `EndToEnd.AskingArrives` | src/http.c:144-369 | a request about an entry, with its fields in any order and case and any unknown ones, any query and body, is read as it was meant, however the stream is split |
| `EndToEnd.CarriedIsFound` | src/json.c:113-185 | a value that the body carries in any notation of the grammar is found, and is a C string below 8192 bytes |
| `EndToEnd.PutThenGet` | src/api.c:194-252 | a put value is stored, and a later GET by any client, with or without the key, returns it: same response, body parses back to the value; 500 for both iff it has a control byte without an escape |
| `EndToEnd.DeleteIsServed` | src/api.c:254-264 | a deletion answers 204, removes the entry and leaves everything else |
| `EndToEnd.DeleteThenAsk` | src/api.c:229-264 | a deleted entry stays gone: a later GET by any client, or a further DELETE, is 404 |
| `NoteRuns.RunSparesNote` | src/api.c:301-405 | no run of requests that do not write a note changes it, and a deleted one never comes back |
| `NoteRuns.CreateIsServed` | src/api.c:301-338 | exactly one new note with the title and body that were sent, shown with 201; 400 for an empty title, 413 for one above 200 bytes |
| `NoteRuns.CreateThenGet` | src/api.c:301-371 | a created note is read back by any client |
| `NoteRuns.UpdateIsServed` | src/api.c:373-393 | title and body are replaced, the creation time stays, nothing else changes; 404 if it is absent |
| `NoteRuns.UpdateThenGet` | src/api.c:360-393 | an updated note is read back as it was updated |
| `NoteRuns.DeleteNoteIsServed` | src/api.c:395-405 | 204 and just that note is removed, or 404 |
| `NoteRuns.DeleteNoteThenGet` | src/api.c:360-405 | a deleted note is gone for good |
| `EndToEnd.PlainClients` | src/api.c:194-252 | every valid key and value of up to 8191 bytes has such requests |
| `SharedBuffer.RunInv` | src/api.c:360-371 | every interleaving of single bytes written under the mutex with unlocked reads keeps: the buffer stays terminated, and the text of a worker that nobody disturbed is in it and is what it sends |
| `SharedBuffer.UndisturbedRepliesAreOwn` | src/api.c:360-371 | `strlen` never leaves the buffer, a reply has as many bytes as it announces, and it is the worker's own text if no other worker began to write from the moment that text was complete |
| `SharedBuffer.RightExactlyForOneWorker` | src/api.c:283-371 | every reply of every run is the worker's own text iff at most one worker is configured (or the buffer holds only the empty text) |
| `SharedBuffer.ForeignReply` | src/api.c:360-371 | for any two different notes that fit, an interleaving in which a client asks for one and gets the other |
| `SharedBuffer.TornReply` | src/api.c:360-371 | an interleaving in which a reply is the start of one text and the end of another, which is the worker's own text only if the ends are the same |
| `SharedBuffer.TornNote` | src/api.c:360-371 | an interleaving in which a client gets a note with the title of one note and the body of another |

## Left out

- SQLite itself, the write-ahead log, busy timeouts and statement handling: each locked call is one step on the tables.
- The selection of rows in key/value listings (LIKE pattern, order, limit): the rows that such a listing renders are a parameter.
- Update times of key/value rows: no reply shows them.
- Header fields are written as name, colon, blanks and value, request lines with single spaces; other layouts that the parser accepts have no round trip here.
- Concurrent requests other than key/value get, put and delete are not linearised: the list and note handlers share static buffers between workers, and only the effect of that on their replies is stated.
- The texts of health, metrics and the page are parameters; only their buffers' limits are modelled.
- The static buffers of the list and note handlers are local buffers here, which is what they are when requests run one at a time.
- Failing `setsockopt` in `handle_client`: the connection is then closed without an answer.
- `server_stop` inside a signal handler: it is a step of another thread here.
- The memory order of the stop flag: it is read and written relaxed (src/server.c:495), but a read sees the newest value at once here, so the step bound of DrainIsBounded does not count stale reads.
- The mutex of the queue is not a separate object: a critical section is one step.
- Listener setup, socket timeouts, peer names, logging, configuration and command line: system calls and single checks.
- The terminal console, the web pages and the build scripts: user interface and glue.
- Timing of the key comparison: only its result is stated.
- Allocation failures of `malloc` and `calloc`: not modelled.
- NothingLeaks: counters are unbounded here, the 64-bit wrap-around of the atomic counters is not modelled.
