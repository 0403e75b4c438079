/**
 * The management handler: creates, lists, reads and deletes short-link
 * records in the shared store, dispatching on the request method.
 */
module Api {
  import opened Wrappers
  import opened Http
  import opened KeyValue
  import opened Links

  /** Why the handler returned an error instead of a response; the host then answers 500. */
  datatype HandlerError = StoreFailure(error: StoreError) | BadBody(cause: DecodeError)

  /** How one call of the handler ends: a response, an error, or a panic (an unwrap on a None or an Err). */
  datatype Outcome = Reply(status: int, body: Option<string>) | Failed(failure: HandlerError) | Panicked

  /** The request asks for the whole listing: a GET without a query string. */
  predicate ListsAll(req: Request) {
    req.verb == Get && req.query.None?
  }

  /**
   * How the listing reads one stored value: the record it holds and the
   * generator cursor after it, given the cursor before it.
   */
  type Decoder = (string, nat) -> Result<(Link, nat), DecodeError>

  /** serde_json::from_slice into the handler's record, drawing from `rng`. */
  function HandlerDecoder(rng: Rng): Decoder {
    (text, at) => DecodeWithDefault(text, rng, at)
  }

  /** Whether `decode` accepts a value does not depend on the cursor. */
  ghost predicate CursorFree(decode: Decoder) {
    forall text, at :: decode(text, at).Success? == decode(text, 0).Success?
  }

  /** Every record `decode` yields from a value stands in the relation `ok` to that value. */
  ghost predicate Yields(decode: Decoder, ok: (string, Link) -> bool) {
    forall text, at | decode(text, at).Success? :: ok(text, decode(text, at).value.0)
  }

  /**
   * The records of the listing, key by key in the order `keys`: None when
   * reading or decoding some value panics. The cursor `at` is threaded
   * through the decoding of the values in turn.
   */
  function ListRecords(s: Snapshot, keys: seq<string>, decode: Decoder, at: nat): (r: Option<seq<Link>>)
    ensures r.Some? ==> |r.value| == |keys|
    decreases |keys|
  {
    if keys == [] then Some([])
    else
      match Lookup(s, keys[0])
      case Failure(_) => None
      case Success(v) =>
        match decode(v, at)
        case Failure(_) => None
        case Success((l, next)) =>
          match ListRecords(s, keys[1..], decode, next)
          case None => None
          case Some(ls) => Some([l] + ls)
  }

  /** The listing panics exactly when some listed key cannot be read or decoded. */
  lemma {:induction false} ListRecordsSucceeds(s: Snapshot, keys: seq<string>, decode: Decoder, at: nat)
    requires CursorFree(decode)
    ensures ListRecords(s, keys, decode, at).Some? <==>
              forall i | 0 <= i < |keys| :: Lookup(s, keys[i]).Success? && decode(Lookup(s, keys[i]).value, 0).Success?
    decreases |keys|
  {
    if keys != [] && Lookup(s, keys[0]).Success? && decode(Lookup(s, keys[0]).value, at).Success? {
      ListRecordsSucceeds(s, keys[1..], decode, decode(Lookup(s, keys[0]).value, at).value.1);
      forall i | 1 <= i < |keys| ensures keys[i] == keys[1..][i - 1] { }
    }
  }

  /**
   * A listing that does not panic has one record per key, in order, each
   * standing in the relation `ok` to the value stored under its key.
   */
  lemma {:induction false} ListRecordsContents(s: Snapshot, keys: seq<string>, decode: Decoder, at: nat, ok: (string, Link) -> bool)
    requires Yields(decode, ok)
    requires ListRecords(s, keys, decode, at).Some?
    ensures |ListRecords(s, keys, decode, at).value| == |keys|
    ensures forall i | 0 <= i < |keys| ::
              keys[i] in s.entries && ok(s.entries[keys[i]], ListRecords(s, keys, decode, at).value[i])
    decreases |keys|
  {
    if keys != [] {
      var d := decode(s.entries[keys[0]], at).value;
      var tail := ListRecords(s, keys[1..], decode, d.1);
      ListRecordsContents(s, keys[1..], decode, d.1, ok);
      var r := ListRecords(s, keys, decode, at).value;
      assert r == [d.0] + tail.value;
      forall i | 1 <= i < |keys|
        ensures keys[i] in s.entries && ok(s.entries[keys[i]], r[i])
      {
        assert keys[i] == keys[1..][i - 1] && r[i] == tail.value[i - 1];
      }
    }
  }

  /** The listing can read the value under `key` back as a record. */
  predicate Listable(s: Snapshot, key: string) {
    Lookup(s, key).Success? && HasNameAndUrl(Lookup(s, key).value)
  }

  /**
   * The handler's listing panics exactly when some key cannot be read back
   * as a record; otherwise it has one record per key, in order, each read
   * from the value stored under that key.
   */
  lemma ListingReadsEveryKey(s: Snapshot, keys: seq<string>, rng: Rng)
    ensures ListRecords(s, keys, HandlerDecoder(rng), 0).Some? <==> forall i | 0 <= i < |keys| :: Listable(s, keys[i])
    ensures ListRecords(s, keys, HandlerDecoder(rng), 0).Some? ==>
              && |ListRecords(s, keys, HandlerDecoder(rng), 0).value| == |keys|
              && forall i | 0 <= i < |keys| ::
                   keys[i] in s.entries && ReadsAs(s.entries[keys[i]], ListRecords(s, keys, HandlerDecoder(rng), 0).value[i])
  {
    var decode := HandlerDecoder(rng);
    ListRecordsSucceeds(s, keys, decode, 0);
    forall i | 0 <= i < |keys| && Lookup(s, keys[i]).Success?
      ensures decode(Lookup(s, keys[i]).value, 0).Success? == HasNameAndUrl(Lookup(s, keys[i]).value)
    { }
    if ListRecords(s, keys, decode, 0).Some? {
      ListRecordsContents(s, keys, decode, 0, ReadsAs);
    }
  }

  /** POST: store the record the body describes under its short_url and echo it back. */
  function Create(s: Snapshot, body: Option<string>, rng: Rng): (Outcome, Snapshot) {
    if body.None? then (Panicked, s)
    else
      match DecodeWithDefault(body.value, rng, 0)
      case Failure(e) => (Failed(BadBody(e)), s)
      case Success((link, _)) =>
        var (r, s') := Put(s, link.shortUrl, Encode(link));
        if r.Failure? then (Failed(StoreFailure(r.error)), s')
        else (Reply(StatusCreated, Some(Encode(link))), s')
  }

  /** GET: the stored value under the queried key, or without a query the listing of every record. */
  function Read(s: Snapshot, query: Option<string>, rng: Rng, order: seq<string>): Outcome {
    if query.Some? then
      match Lookup(s, query.value)
      case Success(v) => Reply(StatusOk, Some(v))
      case Failure(NoSuchKey) => Reply(StatusNotFound, None)
      case Failure(e) => Failed(StoreFailure(e))
    else
      match ListRecords(s, order, HandlerDecoder(rng), 0)
      case None => Panicked
      case Some(records) => Reply(StatusOk, Some(EncodeList(records)))
  }

  /** DELETE: remove the queried key; without a query, 404. */
  function Erase(s: Snapshot, query: Option<string>): (Outcome, Snapshot) {
    if query.Some? then
      var (r, s') := Remove(s, query.value);
      if r.Failure? then (Failed(StoreFailure(r.error)), s')
      else (Reply(StatusOk, None), s')
    else (Reply(StatusNotFound, None), s)
  }

  /**
   * One call of the handler on a store in state `s`: the outcome and the
   * new state. `rng` supplies the random draws (from cursor 0) and
   * `order` is the order in which the store lists its keys.
   */
  function Step(s: Snapshot, req: Request, rng: Rng, order: seq<string>): (r: (Outcome, Snapshot))
    ensures r.1.available == s.available && r.1.broken == s.broken
    ensures r.0.Reply? ==> r.0.status in {StatusOk, StatusCreated, StatusNotFound, StatusMethodNotAllowed}
  {
    if !s.available then (Failed(StoreFailure(StoreFault)), s)
    else
      match req.verb
      case Post => Create(s, req.body, rng)
      case Get => (Read(s, req.query, rng, order), s)
      case Delete => Erase(s, req.query)
      case Other => (Reply(StatusMethodNotAllowed, None), s)
  }

  /**
   * The handler itself, on the store it opens. `order` is the order in
   * which the store listed its keys, when the request is a listing.
   */
  method HandleRequest(store: Store, req: Request, rng: Rng) returns (out: Outcome, ghost order: seq<string>)
    modifies store
    ensures ListsAll(req) && store.available ==> Enumerates(order, old(store.entries))
    ensures (out, store.View()) == Step(old(store.View()), req, rng, order)
  {
    order := [];
    var ok := store.Open();
    if !ok {
      out := Failed(StoreFailure(StoreFault));
      return;
    }
    match req.verb {
      case Post =>
        if req.body.None? {
          out := Panicked;
          return;
        }
        var decoded := DecodeWithDefault(req.body.value, rng, 0);
        if decoded.Failure? {
          out := Failed(BadBody(decoded.error));
          return;
        }
        var link := decoded.value.0;
        var r := store.Set(link.shortUrl, Encode(link));
        if r.Failure? {
          out := Failed(StoreFailure(r.error));
        } else {
          out := Reply(StatusCreated, Some(Encode(link)));
        }
      case Get =>
        if req.query.Some? {
          var r := store.Get(req.query.value);
          if r.Success? {
            out := Reply(StatusOk, Some(r.value));
          } else if r.error == NoSuchKey {
            out := Reply(StatusNotFound, None);
          } else {
            out := Failed(StoreFailure(r.error));
          }
        } else {
          var keys := store.GetKeys();
          order := keys;
          var records := ListRecords(store.View(), keys, HandlerDecoder(rng), 0);
          if records.None? {
            out := Panicked;
          } else {
            out := Reply(StatusOk, Some(EncodeList(records.value)));
          }
        }
      case Delete =>
        if req.query.Some? {
          var r := store.Delete(req.query.value);
          if r.Failure? {
            out := Failed(StoreFailure(r.error));
          } else {
            out := Reply(StatusOk, None);
          }
        } else {
          out := Reply(StatusNotFound, None);
        }
      case Other =>
        out := Reply(StatusMethodNotAllowed, None);
    }
  }
}

/** What one call of the management handler does to the store and answers. */
module ApiProperties {
  import opened Wrappers
  import opened Http
  import opened KeyValue
  import opened Links
  import opened Api

  /** The key a request may change: the record's short_url for a POST, the queried key for a DELETE. */
  function Target(req: Request, rng: Rng): Option<string> {
    if req.verb == Post && req.body.Some? && HasNameAndUrl(req.body.value) then
      Some(DecodeWithDefault(req.body.value, rng, 0).value.0.shortUrl)
    else if req.verb == Delete then req.query
    else None
  }

  /**
   * No request changes whether the store is available or which keys fail,
   * nor any entry other than the one under its target key.
   */
  lemma OnlyTargetChanges(s: Snapshot, req: Request, rng: Rng, order: seq<string>, k: string)
    requires Target(req, rng) != Some(k)
    ensures Step(s, req, rng, order).1.available == s.available
    ensures Step(s, req, rng, order).1.broken == s.broken
    ensures k in Step(s, req, rng, order).1.entries <==> k in s.entries
    ensures k in s.entries ==> Step(s, req, rng, order).1.entries[k] == s.entries[k]
  {
  }

  /** A store that cannot be opened fails every request and is left as it was. */
  lemma UnavailableFails(s: Snapshot, req: Request, rng: Rng, order: seq<string>)
    requires !s.available
    ensures Step(s, req, rng, order) == (Failed(StoreFailure(StoreFault)), s)
  {
  }

  /** Every response the handler gives has one of the five statuses it uses, and only 200 and 201 carry a body. */
  lemma RepliesUseKnownStatuses(s: Snapshot, req: Request, rng: Rng, order: seq<string>)
    ensures var out := Step(s, req, rng, order).0;
            out.Reply? ==>
              && out.status in {StatusOk, StatusCreated, StatusNotFound, StatusMethodNotAllowed}
              && (out.body.Some? ==> out.status in {StatusOk, StatusCreated})
  {
  }

  /** A POST without a body panics on the unwrap and changes nothing. */
  lemma PostWithoutBodyPanics(s: Snapshot, req: Request, rng: Rng, order: seq<string>)
    requires s.available && req.verb == Post && req.body.None?
    ensures Step(s, req, rng, order) == (Panicked, s)
  {
  }

  /** A POST whose body is not a JSON object with a name and a url is refused and changes nothing. */
  lemma PostRejectsIncompleteRecord(s: Snapshot, req: Request, rng: Rng, order: seq<string>)
    requires s.available && req.verb == Post && req.body.Some? && !HasNameAndUrl(req.body.value)
    ensures Step(s, req, rng, order).0.Failed?
    ensures Step(s, req, rng, order).0.failure.BadBody?
    ensures Step(s, req, rng, order).1 == s
  {
  }

  /**
   * A POST of a complete record stores its JSON form under its short_url,
   * overwriting any earlier value there, and answers 201 with the same
   * JSON; the record keeps the fields the body gave, and a missing
   * short_url becomes an eight-character alphanumeric code drawn from the
   * generator. Only a key whose access fails leaves the store as it was.
   */
  lemma PostStoresRecord(s: Snapshot, req: Request, rng: Rng, order: seq<string>)
    requires s.available && req.verb == Post && req.body.Some? && HasNameAndUrl(req.body.value)
    ensures var f := ParseFields(req.body.value).value;
            var l := Link(f.name.value, if f.shortUrl.Some? then f.shortUrl.value else RandString(rng, 0), f.url.value);
            var (out, s') := Step(s, req, rng, order);
            && ReadsAs(req.body.value, l)
            && (l.shortUrl in s.broken ==> out == Failed(StoreFailure(StoreFault)) && s' == s)
            && (l.shortUrl !in s.broken ==>
                  && out == Reply(StatusCreated, Some(Encode(l)))
                  && s' == s.(entries := s.entries[l.shortUrl := Encode(l)]))
  {
  }

  /** Storing over an existing short_url replaces its value and keeps the number of records. */
  lemma PostOverwrites(s: Snapshot, req: Request, rng: Rng, order: seq<string>)
    requires s.available && req.verb == Post && req.body.Some? && HasNameAndUrl(req.body.value)
    requires Target(req, rng).value in s.entries && Target(req, rng).value !in s.broken
    ensures var (out, s') := Step(s, req, rng, order);
            && out.Reply? && out.status == StatusCreated
            && s'.entries[Target(req, rng).value] == out.body.value
            && |s'.entries| == |s.entries|
  {
    assert s.entries.Keys == s.entries[Target(req, rng).value := Encode(DecodeWithDefault(req.body.value, rng, 0).value.0)].Keys;
  }

  /** A GET with a query answers the stored value unchanged, 404 for a missing key, and changes nothing. */
  lemma GetAnswersStoredValue(s: Snapshot, req: Request, rng: Rng, order: seq<string>)
    requires s.available && req.verb == Get && req.query.Some?
    ensures var (out, s') := Step(s, req, rng, order);
            var k := req.query.value;
            && s' == s
            && (k in s.broken ==> out == Failed(StoreFailure(StoreFault)))
            && (k !in s.broken && k in s.entries ==> out == Reply(StatusOk, Some(s.entries[k])))
            && (k !in s.broken && k !in s.entries ==> out == Reply(StatusNotFound, None))
  {
  }

  /**
   * A GET without a query, with the keys listed in `order`, panics exactly
   * when some stored value cannot be read back as a record; otherwise it
   * answers 200 with a JSON array holding one record per stored key, in
   * that order, each read from the value under its key. It changes nothing.
   */
  lemma ListingAnswersEveryRecord(s: Snapshot, req: Request, rng: Rng, order: seq<string>)
    requires s.available && ListsAll(req) && Enumerates(order, s.entries)
    ensures Step(s, req, rng, order).1 == s
    ensures Step(s, req, rng, order).0 == Panicked <==> exists k | k in s.entries :: !Listable(s, k)
    ensures var out := Step(s, req, rng, order).0;
            out != Panicked ==>
              && out.Reply? && out.status == StatusOk && out.body.Some?
              && DecodeList(out.body.value).Success?
              && |DecodeList(out.body.value).value| == |order| == |s.entries|
              && forall i | 0 <= i < |order| ::
                   order[i] in s.entries && ReadsAs(s.entries[order[i]], DecodeList(out.body.value).value[i])
  {
    ListingReadsEveryKey(s, order, rng);
    EnumerationLength(order, s.entries);
    var r := ListRecords(s, order, HandlerDecoder(rng), 0);
    if r.Some? {
      DecodeListEncoded(r.value);
    } else {
      var i :| 0 <= i < |order| && !Listable(s, order[i]);
      assert order[i] in s.entries;
    }
    forall k | k in s.entries && !Listable(s, k) ensures r.None? {
      var i :| 0 <= i < |order| && order[i] == k;
    }
  }

  /** A DELETE with a query removes that key, answers 200 whether or not it was there, and touches nothing else. */
  lemma DeleteRemovesKey(s: Snapshot, req: Request, rng: Rng, order: seq<string>)
    requires s.available && req.verb == Delete && req.query.Some?
    ensures var (out, s') := Step(s, req, rng, order);
            var k := req.query.value;
            && (k in s.broken ==> out == Failed(StoreFailure(StoreFault)) && s' == s)
            && (k !in s.broken ==> out == Reply(StatusOk, None) && s' == s.(entries := s.entries - {k}))
  {
  }

  /** A DELETE without a query answers 404 and changes nothing. */
  lemma DeleteWithoutQueryNotFound(s: Snapshot, req: Request, rng: Rng, order: seq<string>)
    requires s.available && req.verb == Delete && req.query.None?
    ensures Step(s, req, rng, order) == (Reply(StatusNotFound, None), s)
  {
  }

  /** Any other method answers 405 and changes nothing. */
  lemma OtherMethodNotAllowed(s: Snapshot, req: Request, rng: Rng, order: seq<string>)
    requires s.available && req.verb == Other
    ensures Step(s, req, rng, order) == (Reply(StatusMethodNotAllowed, None), s)
  {
  }

  /** GET and any method other than POST and DELETE leave the store as it was. */
  lemma ReadOnlyMethods(s: Snapshot, req: Request, rng: Rng, order: seq<string>)
    requires req.verb != Post && req.verb != Delete
    ensures Step(s, req, rng, order).1 == s
  {
  }
}
