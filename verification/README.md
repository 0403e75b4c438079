# Short-link directory: management handler and redirect resolver

This project models the two request handlers of a URL shortener. Both run
as Spin HTTP components and share one flat key-value store. Each key is a
short code, and each value is the JSON text of a `Link` record with a
`name`, a `short_url` and a `url`.

- The **management handler** (`api/src/lib.rs`) dispatches on the request
  method:
  - POST stores the record in the body under its `short_url`. When the body
    has no `short_url`, the handler generates an 8-character alphanumeric
    one.
  - GET with a query string returns the stored value. GET without one lists
    every record.
  - DELETE with a query string removes that key.
  - Any other method answers 405.
- The **redirect resolver** (`redirect/src/lib.rs`) looks up the short code
  in the query string and answers with a status and a `Location` header:
  - 307 to the stored url, or 404 when the key is missing;
  - with no query, 404 for `/favicon.ico` and 307 to `/admin/` for any
    other path;
  - 405 for any method other than GET.

Modules:

- `Json` (json.dfy) is the JSON that serde_json writes and reads for these
  records:
  - objects whose member values are strings, and arrays of such objects;
  - the encoder is serde_json's compact writer, escapes included;
  - the decoder accepts whitespace and every JSON string escape.
- `Links` (links.dfy) covers:
  - the `Link` record and `rand_string`;
  - the record's JSON form;
  - its two decoders: the management handler's, where a missing
    `short_url` defaults to `rand_string`, and the resolver's, where every
    field is required.
- `KeyValue` (keyvalue.dfy) is the store as the handlers see it:
  - a `Snapshot` value and the functions `Lookup`, `Put` and `Remove` on it;
  - the `Store` class, whose methods update its entries in place.
- `Http` (http.dfy) holds the request's method, path, query string and body,
  and the status codes.
- `Api` (api.dfy) holds:
  - `Step`, the management handler as a pure function from store state and
    request to outcome and new state;
  - `HandleRequest`, the handler as a method on a `Store` that is proved to
    agree with `Step`.
- `ApiProperties` (api.dfy) holds the lemmas about `Step`.
- `Redirect` (redirect.dfy) holds `Resolve`, the resolver as a pure
  function, with its lemmas.
- `Scenarios` (scenarios.dfy) holds the properties of the two handlers
  working on one store.

How sources of nondeterminism are modelled:

- The random generator is a parameter `rng: nat -> nat`. The i-th character
  of a generated code is `Alphabet()[rng(at + i) % 62]`.
- The order in which the store lists its keys is a parameter `order`.
  `HandleRequest` returns it as a ghost out-parameter and ensures it lists
  every key exactly once.
- Store failures other than "no such key" are given by the snapshot: the
  store may be unavailable, or a set of keys may fail on access.

How a call ends:

- An `Err` returned by a handler is the outcome `Failed`. The host turns it
  into a 500 response.
- A panic of an `unwrap` is the outcome `Panicked`.

The handlers neither sort nor filter the listing. They reserve no keys and
check no credentials. A DELETE with a query answers whatever the store
answers; the store reports success for a missing key, so that request
answers 200.

## Model

| member | source | states |
|---|---|---|
| Json.EscapeChar | api/src/lib.rs:43 | each character is written either as itself or as a backslash escape, and never as a bare quote or a raw control character |
| Json.StringParses | api/src/lib.rs:43 | reading a written string literal gives back the original string and leaves the text after it untouched, for every string including quotes, backslashes, control characters and non-ASCII text |
| Json.ObjectParses | api/src/lib.rs:43 | reading a written object gives back its members in order and leaves the text after it untouched |
| Json.DecodeEncodedObject | api/src/lib.rs:43 | decoding an encoded object gives back exactly its members |
| Json.DecodeEncodedArray | api/src/lib.rs:65 | decoding an encoded array of objects gives back exactly those objects |
| Links.Encode | api/src/lib.rs:43 | serde_json::to_vec of a record; DecodeWithDefaultEncoded, DecodeStrictEncoded and EncodeInjective show that both handlers read it back as the same record and that distinct records have distinct JSON |
| Links.EncodeList | api/src/lib.rs:65 | serde_json::to_vec of the listing; DecodeListEncoded shows that it reads back as exactly the list of records, in order |
| Links.RandString | api/src/lib.rs:20-26 | a generated code has exactly 8 characters and each is an ASCII letter or digit |
| Links.RandStringReachesEveryCode | api/src/lib.rs:20-26 | every 8-character alphanumeric code is what some sequence of draws generates, so the model does not narrow the generator's range |
| Links.AlphabetIsAlphanumeric | api/src/lib.rs:22 | the generator's alphabet holds exactly the ASCII letters and digits |
| Links.CollectFields | api/src/lib.rs:12-18 | reading a record's fields from an object succeeds exactly when no known field is repeated; unknown keys are ignored; each field found holds the value of a member with that key |
| Links.DecodeWithDefault | api/src/lib.rs:15-16 | the management handler's decode succeeds exactly when the text is an object with a name and a url; the record keeps the given name, url and short_url; a missing short_url is replaced by a generated 8-character alphanumeric code that uses 8 draws, and no draws are used otherwise |
| Links.DecodeStrict | redirect/src/lib.rs:13-18 | the resolver's decode succeeds exactly when the text is an object with all three fields, and the record holds exactly those fields |
| Links.DecodeWithDefaultEncoded | api/src/lib.rs:41-44 | a stored record reads back as itself in the management handler, without drawing from the generator |
| Links.DecodeStrictEncoded | redirect/src/lib.rs:37 | a record stored by the management handler reads back as itself in the resolver |
| Links.DecodeListEncoded | api/src/lib.rs:65 | the listing body reads back as the list of records it was written from |
| Links.EncodeInjective | api/src/lib.rs:43 | two records with the same JSON form are the same record |
| KeyValue.EnumerationLength | api/src/lib.rs:59 | a listing of the keys that names each key exactly once has one position per stored key |
| KeyValue.Store.Open | api/src/lib.rs:31 | opening the default store succeeds exactly when it is available |
| KeyValue.Store.Get | api/src/lib.rs:51 | get returns the stored value, NoSuchKey for a missing key, or a fault |
| KeyValue.Store.Set | api/src/lib.rs:41-44 | set overwrites the value under the key and changes nothing else, or fails and changes nothing |
| KeyValue.Store.Delete | api/src/lib.rs:69 | delete removes the key and changes nothing else, or fails and changes nothing; deleting a missing key succeeds |
| KeyValue.Store.GetKeys | api/src/lib.rs:58-60 | get_keys lists every stored key exactly once |
| Api.ListRecords | api/src/lib.rs:58-64 | the listing pipeline (get and unwrap, decode and unwrap, collect) has one record per key when it does not panic; ListRecordsSucceeds and ListRecordsContents say when it panics and what each record holds |
| Api.Step | api/src/lib.rs:30-79 | the management handler on a store snapshot: it never changes whether the store is available or which keys fail, and answers only 200, 201, 404 or 405; the ApiProperties lemmas give its answer and new store for each method and query case |
| Api.ListRecordsSucceeds | api/src/lib.rs:58-64 | the listing pipeline panics exactly when reading or decoding the value of some listed key fails |
| Api.ListRecordsContents | api/src/lib.rs:58-64 | a listing that does not panic has one record per listed key, in order, each decoded from that key's value |
| Api.ListingReadsEveryKey | api/src/lib.rs:58-64 | with the handler's decoder, the listing panics exactly when some key's value is not a record with a name and a url; otherwise each record keeps the fields stored under its key |
| Api.HandleRequest | api/src/lib.rs:29-79 | the handler's response and the store it leaves are exactly what `Step` gives for the store it found, with the store's own key order |
| ApiProperties.UnavailableFails | api/src/lib.rs:31 | when the store cannot be opened, every request fails and the store is unchanged |
| ApiProperties.OnlyTargetChanges | api/src/lib.rs:33-76 | no request changes any entry other than the one under its target key (the record's short_url for a POST, the queried key for a DELETE) |
| ApiProperties.RepliesUseKnownStatuses | api/src/lib.rs:33-76 | every response is 200, 201, 404 or 405, and only 200 and 201 carry a body |
| ApiProperties.PostWithoutBodyPanics | api/src/lib.rs:35 | a POST without a body panics and changes nothing |
| ApiProperties.PostRejectsIncompleteRecord | api/src/lib.rs:36 | a POST whose body is not an object with a name and a url fails with a decode error and changes nothing |
| ApiProperties.PostStoresRecord | api/src/lib.rs:34-48 | a POST of a complete record stores the record's JSON under its short_url, answers 201 with that same JSON, and keeps the given fields; a missing short_url becomes a generated 8-character alphanumeric code; only a failing key leaves the store unchanged |
| ApiProperties.PostOverwrites | api/src/lib.rs:41-44 | a POST to an existing short_url replaces the old value without any uniqueness check, and the number of records stays the same |
| ApiProperties.GetAnswersStoredValue | api/src/lib.rs:50-55 | a GET with a query answers 200 with the raw stored value, or 404 with no body for a missing key, and never changes the store |
| ApiProperties.ListingAnswersEveryRecord | api/src/lib.rs:56-66 | a GET without a query panics exactly when some stored value cannot be read as a record; otherwise it answers 200 with a JSON array holding one record per stored key, in the store's key order, each read from that key's value; the store is unchanged |
| ApiProperties.DeleteRemovesKey | api/src/lib.rs:68-72 | a DELETE with a query answers 200 with no body and removes exactly that key, whether or not it was present; a failing key gives an error and no change |
| ApiProperties.DeleteWithoutQueryNotFound | api/src/lib.rs:73 | a DELETE without a query answers 404 and changes nothing |
| ApiProperties.OtherMethodNotAllowed | api/src/lib.rs:75 | any other method answers 405 with no body and changes nothing |
| ApiProperties.ReadOnlyMethods | api/src/lib.rs:50-67 | GET and any method other than POST and DELETE leave the store exactly as it was |
| Redirect.Resolve | redirect/src/lib.rs:22-63 | the resolver on a store snapshot: every response is 307, 404 or 405 with a Location that is a valid header value; the Redirect lemmas give its answer for each method, query and path case |
| Redirect.StoredCodeRedirects | redirect/src/lib.rs:34-39 | a GET whose query names a stored record answers 307 with the record's url as Location |
| Redirect.InvalidUrlPanics | redirect/src/lib.rs:56-60 | a stored url that is not a valid header value (a control character other than tab, or DEL) makes building the response panic |
| Redirect.LookupOutcome | redirect/src/lib.rs:35-43 | a GET with a query answers 307 exactly when the stored value is a complete record with a valid url, and then with that url; a missing key answers 404 with an empty Location; a value that is not a complete record fails with its decode error, and a failing key fails with the store's error |
| Redirect.NoQueryOutcome | redirect/src/lib.rs:44-51 | a GET without a query answers 404 with an empty Location for `/favicon.ico`, and 307 to `/admin/` for any other path |
| Redirect.OtherMethodNotAllowed | redirect/src/lib.rs:53 | any method other than GET answers 405 with an empty Location |
| Redirect.LocationOnlyOnRedirect | redirect/src/lib.rs:31-60 | every response is 307, 404 or 405, and when stored urls are non-empty the Location is non-empty exactly on a 307 |
| Redirect.DependsOnlyOnQueriedKey | redirect/src/lib.rs:29-54 | the answer depends on the store only through the lookup of the queried key, so the resolver reads nothing else |
| Scenarios.CreatedLinkRedirects | redirect/src/lib.rs:34-39 | a record created through the management handler is what the resolver then redirects its short_url to |
| Scenarios.CreateThenRead | api/src/lib.rs:34-55 | POSTing a name and url without a short_url answers 201 with a record under a fresh 8-character code; a GET of that code answers 200 with the same record; the resolver redirects the code to the url |
| Scenarios.DeleteThenRead | api/src/lib.rs:50-74 | after a DELETE of a code answers 200, a GET of it answers 404, and the resolver answers 404 with an empty Location |

## Left out

- Logging is not modelled: the `println!` of the record, and the logger setup and request logging of the resolver. The resolver's logger initialisation panics when a logger is already installed; that is a property of the host process and is left out too.
- The response builder is modelled only as the pair of status and body, or status and Location. Building the management handler's response cannot fail, because it sets no headers.
- The store engine is reduced to how get, set, delete and get_keys answer. Concurrency is not modelled: the engine is reached through the `Store` class, and no two requests interleave.
- KeyValue.Store.GetKeys: get_keys never fails in the model. The `unwrap` on its result (api/src/lib.rs:60) therefore cannot panic here.
- Links.RandString: uses one draw per character, reduced modulo 62. The rejection sampling of `rand`'s `Alphanumeric` distribution and the uniformity of `thread_rng` are not modelled. RandStringReachesEveryCode shows that every code is still reachable.
- Json.DecodeObject accepts only JSON objects whose values are all strings. serde_json also skips unknown members of any JSON type and accepts a record written as a three-element array; the model rejects both.
- Request and stored bodies are modelled as strings of characters, not bytes. The UTF-8 validation of `serde_json::from_slice` is not modelled.
- Serialising a record with `serde_json::to_vec` cannot fail for these records, so the `?` on it (api/src/lib.rs:43, 47, 65) has no error path in the model.
- The mapping of a handler's `Err` to an HTTP 500 response is done by the host and is not modelled.
- client/script.js is not part of this model: it is browser code with no logic of the handlers.
