/**
 * The redirect resolver: looks the short code in the query string up in
 * the shared store and answers with a status and a Location header.
 */
module Redirect {
  import opened Wrappers
  import opened Http
  import opened KeyValue
  import opened Links

  /** Why the resolver returned an error instead of a response; the host then answers 500. */
  datatype HandlerError = StoreFailure(error: StoreError) | BadRecord(cause: DecodeError)

  /**
   * A response (its status and its Location header, empty when there is
   * no target), an error, or a panic of the response builder's unwrap.
   */
  datatype Outcome = Reply(status: int, location: string) | Failed(failure: HandlerError) | Panicked

  const AdminPath: string := "/admin/"
  const FaviconPath: string := "/favicon.ico"

  /**
   * A character the http crate accepts in a header value: a tab, or any
   * character from the space on other than DEL (non-ASCII characters
   * encode to bytes from 0x80 on, which are accepted).
   */
  predicate IsHeaderValueChar(c: char) {
    c == '\t' || (' ' <= c && c != '\U{7F}')
  }

  predicate IsHeaderValue(v: string) {
    forall i | 0 <= i < |v| :: IsHeaderValueChar(v[i])
  }

  /** The status and the Location the resolver settles on for `req`, or the error it returns first. */
  function Decide(s: Snapshot, req: Request): Result<(int, string), HandlerError> {
    if req.verb != Get then Success((StatusMethodNotAllowed, ""))
    else if req.query.None? then
      if req.path == FaviconPath then Success((StatusNotFound, "")) else Success((StatusTemporaryRedirect, AdminPath))
    else
      match Lookup(s, req.query.value)
      case Failure(NoSuchKey) => Success((StatusNotFound, ""))
      case Failure(e) => Failure(StoreFailure(e))
      case Success(v) =>
        match DecodeStrict(v)
        case Failure(e) => Failure(BadRecord(e))
        case Success(dest) => Success((StatusTemporaryRedirect, dest.url))
  }

  /**
   * The resolver's answer to `req` on a store in state `s`; the store is
   * only read. Building the response panics when the Location is not a
   * valid header value.
   */
  function Resolve(s: Snapshot, req: Request): (r: Outcome)
    ensures r.Reply? ==> IsHeaderValue(r.location)
    ensures r.Reply? ==> r.status in {StatusTemporaryRedirect, StatusNotFound, StatusMethodNotAllowed}
  {
    if !s.available then Failed(StoreFailure(StoreFault))
    else
      match Decide(s, req)
      case Failure(e) => Failed(e)
      case Success((status, location)) =>
        if IsHeaderValue(location) then Reply(status, location) else Panicked
  }

  /** A GET whose query names a stored record redirects to that record's url. */
  lemma {:induction false} StoredCodeRedirects(s: Snapshot, req: Request, l: Link)
    requires s.available && req.verb == Get && req.query.Some?
    requires req.query.value in s.entries && req.query.value !in s.broken
    requires s.entries[req.query.value] == Encode(l) && IsHeaderValue(l.url)
    ensures Resolve(s, req) == Reply(StatusTemporaryRedirect, l.url)
  {
    DecodeStrictEncoded(l);
  }

  /** A stored record whose url is not a valid header value makes the resolver panic. */
  lemma {:induction false} InvalidUrlPanics(s: Snapshot, req: Request, l: Link)
    requires s.available && req.verb == Get && req.query.Some?
    requires req.query.value in s.entries && req.query.value !in s.broken
    requires s.entries[req.query.value] == Encode(l) && !IsHeaderValue(l.url)
    ensures Resolve(s, req) == Panicked
  {
    DecodeStrictEncoded(l);
  }

  /**
   * A GET with a query redirects exactly when the stored value under it is
   * a record with all three fields whose url is a valid header value, and
   * then to that url; a missing key answers 404 with an empty Location.
   */
  lemma LookupOutcome(s: Snapshot, req: Request)
    requires s.available && req.verb == Get && req.query.Some?
    ensures var k := req.query.value;
            && (Resolve(s, req).Reply? && Resolve(s, req).status == StatusTemporaryRedirect <==>
                  && k !in s.broken && k in s.entries && DecodeStrict(s.entries[k]).Success?
                  && IsHeaderValue(DecodeStrict(s.entries[k]).value.url))
            && (Resolve(s, req).Reply? && Resolve(s, req).status == StatusTemporaryRedirect ==>
                  Resolve(s, req).location == DecodeStrict(s.entries[k]).value.url)
            && (k !in s.broken && k !in s.entries ==> Resolve(s, req) == Reply(StatusNotFound, ""))
            && (k !in s.broken && k in s.entries && DecodeStrict(s.entries[k]).Failure? ==>
                  Resolve(s, req) == Failed(BadRecord(DecodeStrict(s.entries[k]).error)))
            && (k in s.broken ==> Resolve(s, req) == Failed(StoreFailure(StoreFault)))
  {
  }

  /** A GET without a query redirects to the admin page, except for the favicon, which is not found. */
  lemma NoQueryOutcome(s: Snapshot, req: Request)
    requires s.available && req.verb == Get && req.query.None?
    ensures req.path == FaviconPath ==> Resolve(s, req) == Reply(StatusNotFound, "")
    ensures req.path != FaviconPath ==> Resolve(s, req) == Reply(StatusTemporaryRedirect, AdminPath)
  {
  }

  /** Any method other than GET answers 405 with an empty Location. */
  lemma OtherMethodNotAllowed(s: Snapshot, req: Request)
    requires s.available && req.verb != Get
    ensures Resolve(s, req) == Reply(StatusMethodNotAllowed, "")
  {
  }

  /** Every stored record that the resolver can read has a non-empty url. */
  ghost predicate UrlsNonEmpty(s: Snapshot) {
    forall k | k in s.entries && DecodeStrict(s.entries[k]).Success? :: DecodeStrict(s.entries[k]).value.url != ""
  }

  /**
   * Every response is a redirect, a 404 or a 405, and when stored urls are
   * non-empty the Location header is set exactly on redirects.
   */
  lemma LocationOnlyOnRedirect(s: Snapshot, req: Request)
    requires UrlsNonEmpty(s)
    ensures Resolve(s, req).Reply? ==>
              && Resolve(s, req).status in {StatusTemporaryRedirect, StatusNotFound, StatusMethodNotAllowed}
              && (Resolve(s, req).status == StatusTemporaryRedirect <==> Resolve(s, req).location != "")
  {
    if s.available && req.verb == Get && req.query.Some? {
      var k := req.query.value;
      if k in s.entries && k !in s.broken && DecodeStrict(s.entries[k]).Success? {
        assert Decide(s, req) == Success((StatusTemporaryRedirect, DecodeStrict(s.entries[k]).value.url));
      }
    }
  }

  /**
   * The answer depends on the store only through the lookup of the queried
   * key: two stores that answer that lookup alike resolve alike.
   */
  lemma DependsOnlyOnQueriedKey(s1: Snapshot, s2: Snapshot, req: Request)
    requires s1.available == s2.available
    requires req.query.Some? ==> Lookup(s1, req.query.value) == Lookup(s2, req.query.value)
    ensures Resolve(s1, req) == Resolve(s2, req)
  {
  }
}
