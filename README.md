# go-connect messaging core in Dafny

A model of the record service of `finest08/go-connect`: RPC handlers for
message threads and users (`handler/messaging.go`) over a document store with
two collections, "messages" and "users" (`store/messaging.go`, `store/cnn.go`).

- `records.dfy` (module `Records`): the protocol records. Documents
  (`ThreadDoc`, `UserDoc`, `Message`) are values. The request objects stamped
  in place by the handlers are the classes `MessageThread` and `User`. A
  thread's messages are an `array` whose entries are assigned in place.
- `collection.dfy` (module `Collection`): a collection is a sequence of
  documents in insertion order, addressed by the `id` field. Insert never
  checks that ids are unique. So find-one, replace-one and delete-one act on
  the first matching document (`FirstMatch`). Lemmas cover what holds when ids
  are unique, and one lemma shows what breaks when they are not.
- `search.dfy` (module `Search`): the query path. It builds the filter
  (`{}` or a `$text` phrase search on `"` + text + `"`), selects the matching
  documents, counts them, sorts by `date` descending, and applies a skip/limit
  window.
- `storage.dfy` (module `Storage`): class `Store` with the two collections as
  `seq` fields. It has the eight store operations. Mutating ones are methods;
  read-only ones are functions of the current contents.
- `handler.dfy` (module `Handler`): the search-text check for
  `^[a-zA-Z@. ]+$`, id/date stamping, the mapping of every store error to
  `Aborted`, and class `MessagingServer` with the seven handlers.

Modelling choices:
- The clock (`time.Now().Unix()`) is the parameter `now`.
- `uuid.NewString()` is the parameter `newId`. Its uniqueness appears only as
  a hypothesis: `Absent(store, newId)` for the "created record is found"
  postconditions.
- A failing driver call is the parameter `fault` (the driver's error text).
  A query has three fault points (`QueryFaults`): find, cursor decode, count.
- Insert and replace call `log.Fatal` when the driver fails. That ends the
  process, so `CreateMsg`, `UpdateMsg` and `CreateUser` never return an error.
  The model gives such a call the outcome `Exited`. A handler then gives
  `Halted`, meaning no response is sent. So the `Aborted` branches in
  `Create`, `Update` and `CreateUser` are dead. The model keeps those branches
  and proves `!r.Failed?`.
- Ids and timestamps are assigned in the handlers, not in the store. The
  store writes documents exactly as given.
- A lookup that finds no document gives the driver's no-documents error
  (`NoDocuments`). The declared `ErrNotFound` (store/messaging.go:17) is never
  used. Handlers turn that error into `Aborted`, like every other store error.
- A replace with no matching document changes nothing and is not an error.
  The replacement is written as given, so the stored `id` becomes the sent
  thread's `id` even when that differs from the key.
- A delete of an absent id is not an error.
- The `$text` index is not modelled. The parameter
  `textMatches(thread, phrase)` decides which threads match a phrase.
- A limit of 0 keeps every remaining document. That is how MongoDB reads
  `limit: 0`.

## Model

| member | source | states |
|---|---|---|
| Collection.FirstMatch | store/messaging.go:102 | the index picked by a filter on `id` is the first one whose key matches; no index means no document has the key |
| Collection.FindOne | store/messaging.go:42 | a find-one on `id` gives a document with that key at its first match, and gives nothing exactly when the key is absent |
| Collection.ReplaceOne | store/messaging.go:113 | replace-one changes only the first match, to the given document, leaves every other position as it was, and changes nothing when no key matches |
| Collection.DeleteOne | store/messaging.go:123 | delete-one removes exactly the first match and keeps the others in order (size drops by one); with no match nothing changes |
| Collection.DeleteRemovesKey | store/messaging.go:122-127 | with unique ids, no document has the id after the delete (a later get is not-found) |
| Collection.DeleteTwice | store/messaging.go:52-57 | with unique ids, deleting the same id twice leaves what one delete left |
| Collection.DuplicateSurvivesDelete | store/messaging.go:60-66 | inserts do not check uniqueness; with two documents of one id, a delete leaves the second one findable |
| Collection.DeleteKeepsUnique | store/messaging.go:122-127 | delete preserves unique ids |
| Collection.InsertFresh | store/messaging.go:60-66 | after appending a document with a fresh id, a lookup of that id finds it, and unique ids stay unique |
| Collection.InsertOtherKey | store/messaging.go:60-66 | appending a document does not change lookups of any other id |
| Collection.ReplaceSameKey | store/messaging.go:112-120 | a replace that keeps the id preserves unique ids, and a lookup then finds the new document |
| Collection.ReplaceRekeys | store/messaging.go:112-120 | a replace whose document has a different id leaves no document under the old id (with unique ids) |
| Search.BuildFilter | store/messaging.go:70-73 | empty text means the match-all filter; otherwise the filter is a phrase search whose phrase is the text wrapped in double quotes |
| Search.Satisfies | store/messaging.go:70-73 | every document satisfies the empty filter; a document satisfies a phrase search exactly when the text index finds the phrase in it |
| Search.FilterMeaning | store/messaging.go:70-73 | a document satisfies the filter built from a search text exactly when the text is empty or the text index finds the quoted text in it |
| Search.Select | store/messaging.go:81 | the find keeps every copy of each document that satisfies the filter and no copy of one that does not, so it has as many copies of each matching document as the collection |
| Search.CountMatching | store/messaging.go:91 | the count, one per satisfying document in the collection, is never more than the collection size; its value is tied to the selection by `Search.CountIsSelectionSize` |
| Search.CountIsSelectionSize | store/messaging.go:81-94 | the count over the filter equals the size of the find's selection |
| Search.MatchAllSelectsEverything | store/messaging.go:70-73 | with no filter the find selects every document in order, and the count is the collection size |
| Search.InsertByDate | store/messaging.go:78 | insertion adds exactly the given thread to the sequence, which is one longer, and puts at its head either that thread or the old head |
| Search.InsertKeepsSorted | store/messaging.go:78 | inserting a thread into a newest-first sequence keeps it newest-first |
| Search.SortByDateDesc | store/messaging.go:78 | `sort: {date: -1}` yields a permutation of its input ordered by date, newest first |
| Search.Window | store/messaging.go:75-77 | skip/limit drops the first `Offset` elements and keeps at most `Limit` (all of them for limit 0); element k of the window is element `Offset`+k of the input |
| Search.WindowOfSorted | store/messaging.go:75-81 | a window of a newest-first sequence is newest-first and holds only elements of it |
| Search.PagesTile | store/messaging.go:75-77 | the page at an offset, followed by the page one limit later, is the double-size page at that offset |
| Search.Page | store/messaging.go:75-89 | the find with sort, skip/limit and cursor decode gives a newest-first page made only of matching documents of the collection, no longer than a non-zero limit |
| Search.PageProperties | store/messaging.go:68-96 | the page is sorted newest first, holds only matching documents of the collection, is no longer than the count or a non-zero limit, has length count minus `Offset` capped by a non-zero `Limit` (0 past the end), and is the ordered matches from `Offset` on |
| Storage.Store.constructor | store/cnn.go:11-14 | a store holds the two collections, with whatever documents they already contain |
| Storage.Store.CreateUser | store/messaging.go:31-37 | appends the user as given and returns nil; a driver fault exits the process and leaves the collection unchanged |
| Storage.Store.GetUser | store/messaging.go:39-50 | a driver fault is returned as is; without one, it returns the first user with that id, or the no-documents error exactly when no user has it |
| Storage.Store.DeleteUser | store/messaging.go:52-57 | removes the first user with the id and returns nil, also when the id is absent; a fault is returned and nothing changes; with unique ids a later get is not-found |
| Storage.Store.CreateMsg | store/messaging.go:60-66 | appends the thread as given and returns nil; a driver fault exits the process |
| Storage.Store.QueryMsg | store/messaging.go:68-97 | find, decode and count faults fail the whole query, in that order, with no partial result; otherwise the page is the windowed newest-first matches and the count is over the same filter without the window (sorted, matching only, page length no more than the count or a non-zero limit) |
| Storage.Store.GetMsg | store/messaging.go:99-110 | a driver fault is returned as is; without one, it returns the first thread with that id, or the no-documents error exactly when no thread has it |
| Storage.Store.UpdateMsg | store/messaging.go:112-120 | replaces the first thread with the key wholesale by the given thread and returns nil; no match changes nothing; a fault exits the process |
| Storage.Store.DeleteMsg | store/messaging.go:122-127 | removes the first thread with the id and returns nil, also when the id is absent; a fault is returned and nothing changes; with unique ids a later get is not-found |
| Storage.EmptySearchCountsAll | store/messaging.go:70-73 | an empty search text gives a window of all threads newest first, with the collection size as the count |
| Storage.CountIgnoresWindow | store/messaging.go:91 | the count does not depend on offset or limit |
| Handler.CheckSearchText | handler/messaging.go:42-50 | empty text is not checked; non-empty text passes exactly when every character is a letter, `@`, `.` or space, and fails with InvalidArgument when any other character is present |
| Handler.SearchTextExamples | handler/messaging.go:43-47 | `hello@world` and `John Smith.` pass; `hello<script>`, `room42` and `snake_case` are rejected |
| Handler.StampCreated | handler/messaging.go:26-27 | a created thread gets the fresh id and a first message dated now; the message count, the other messages and the other fields are unchanged |
| Handler.StampUpdated | handler/messaging.go:83 | an updated thread gets its last message dated now; its id, the earlier messages and the message count are unchanged |
| Handler.StampUser | handler/messaging.go:99-100 | a created user gets the fresh id and the date now; profile fields pass through |
| Handler.CreatedThreadIsFound | handler/messaging.go:26-30 | a thread stored under a fresh id is what a lookup of that id then finds |
| Handler.CreateThenUpdate | handler/messaging.go:26-83 | for a thread of any length, after create, appending a reply and update: the id is the created one, the first message keeps its creation date, the messages in between are as sent, and the reply carries the update date |
| Handler.MessagingServer.constructor | handler/messaging.go:17-20 | the server holds the given store |
| Handler.MessagingServer.Create | handler/messaging.go:22-37 | stamps the thread in place, inserts exactly the stamped thread and answers with it; a fault exits; it never answers Aborted; with a fresh id a later get returns the stored thread |
| Handler.MessagingServer.Query | handler/messaging.go:39-63 | rejected text gives InvalidArgument; otherwise the store's page and count come back unchanged, and a store error comes back as Aborted |
| Handler.RejectionIgnoresStore | handler/messaging.go:42-53 | a rejected search text gives the same InvalidArgument whatever the store holds or its calls would do: the store is never consulted |
| Handler.MessagingServer.Get | handler/messaging.go:65-77 | answers with the first stored thread of that id, exactly what the store returned, when one exists and there is no fault; not-found and any fault come back as Aborted |
| Handler.MessagingServer.Update | handler/messaging.go:79-93 | dates only the last message, replaces the document keyed by `MessageId` (not the thread's id) with the sent thread, and echoes it; with unique ids, a different thread id makes the key unfindable afterwards |
| Handler.MessagingServer.CreateUser | handler/messaging.go:95-110 | stamps id and date in place, inserts exactly that user and answers with it; a fault exits; with a fresh id a later get returns the user |
| Handler.MessagingServer.GetUser | handler/messaging.go:112-124 | answers with the first stored user of that id, exactly what the store returned, when one exists and there is no fault; not-found and any fault come back as Aborted |
| Handler.MessagingServer.DeleteUser | handler/messaging.go:126-138 | answers empty after deleting, also for an absent id; a fault comes back as Aborted; with unique ids a later get is not-found |

## Left out

- HTTP/2 server, CORS and route wiring (`main.go`): transport only.
- `Connect` (store/cnn.go:17-30): the network connection and database names. Only the two-collection shape is modelled.
- BSON encoding and decoding, `$text` tokenising, stemming and index setup. The text match is the `textMatches` parameter.
- `context` cancellation and deadlines, and the use of `context.Background()` in the get and delete calls. They are not sequential behaviour.
- Concurrency. The find and the count of a query run on one state here; in the service they read two states.
- The error branch of `regexp.Compile` (handler/messaging.go:44-46). It cannot fire for a constant pattern.
- The `fmt.Printf` logging in `UpdateMsg` and the message written by `log.Fatal`.
- The randomness of UUIDs and the true clock. They are parameters; a UUID's uniqueness is a hypothesis.
- Negative `Offset`/`Limit` values (`int64` in the protocol) and how the driver treats them: offset and limit are `nat`.
- Search.SortByDateDesc: threads with equal dates keep collection order. MongoDB promises no order among equal sort keys, so this is one of the orders it may return. Consecutive pages come from separate queries in the service, so they can overlap or skip threads that tie on `date`; `Search.PagesTile` holds only for the one fixed order of the model.
- Storage.Store.GetMsg: on an error the Go code also returns a pointer to an empty or partly decoded thread. The model returns only the error; the handler discards that pointer anyway. The same holds for `Storage.Store.GetUser`.
- Handler.MessagingServer.Create: thread with no messages. The Go code panics on an index out of range; the model requires at least one message. The same holds for `Handler.MessagingServer.Update`.
- Nil request pointers (a missing `MessageThread` or `User`). The Go code also panics there; the model always receives an object.
- Aliasing between message entries. The Go slice holds pointers, so one entry listed twice would take the new date at both places. Model entries are values.
- The protocol's field list is not part of this model. `sender`, `text`, `name` and `email` stand for the passed-through fields. A thread-level `date` is the sort key; the handlers never assign it.
