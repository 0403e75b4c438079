/** How the two handlers behave together on the store they share. */
module Scenarios {
  import opened Wrappers
  import opened Http
  import opened KeyValue
  import opened Links
  import Json
  import Api
  import ApiProperties
  import Redirect

  /** The body a client sends to create a link without choosing its short_url. */
  function CreateBody(name: string, url: string): string {
    Json.EncodeObject([("name", name), ("url", url)])
  }

  lemma {:induction false} CreateBodyFields(name: string, url: string)
    ensures ParseFields(CreateBody(name, url)) == Success(Fields(Some(name), None, Some(url)))
  {
    var ms: seq<Json.Member> := [("name", name), ("url", url)];
    Json.DecodeEncodedObject(ms);
    assert CollectFields(ms[1..]) == Success(Fields(None, None, Some(url))) by {
      assert ms[1..][1..] == [];
    }
  }

  /**
   * A link created through the management handler is what the resolver
   * then redirects its short_url to.
   */
  lemma {:induction false} CreatedLinkRedirects(s: Snapshot, post: Request, rng: Rng, order: seq<string>, get: Request)
    requires s.available && post.verb == Post && post.body.Some?
    requires Api.Step(s, post, rng, order).0.Reply?
    requires get.verb == Get && get.query == ApiProperties.Target(post, rng)
    requires HasNameAndUrl(post.body.value) ==> Redirect.IsHeaderValue(ParseFields(post.body.value).value.url.value)
    ensures HasNameAndUrl(post.body.value)
    ensures Redirect.Resolve(Api.Step(s, post, rng, order).1, get)
            == Redirect.Reply(StatusTemporaryRedirect, ParseFields(post.body.value).value.url.value)
  {
    var l := DecodeWithDefault(post.body.value, rng, 0).value.0;
    Redirect.StoredCodeRedirects(Api.Step(s, post, rng, order).1, get, l);
  }

  /**
   * Creating a link without a short_url answers 201 with a record under a
   * fresh eight-character code; reading that code back answers 200 with
   * the same record, and the resolver redirects the code to the url.
   */
  lemma {:induction false} CreateThenRead(s0: Snapshot, name: string, url: string, rng: Rng, order: seq<string>)
    requires s0.available && RandString(rng, 0) !in s0.broken && Redirect.IsHeaderValue(url)
    ensures var code := RandString(rng, 0);
            var l := Link(name, code, url);
            var (created, s1) := Api.Step(s0, Request(Post, "/", None, Some(CreateBody(name, url))), rng, order);
            var (read, s2) := Api.Step(s1, Request(Get, "/", Some(code), None), rng, order);
            && IsShortCode(code)
            && created == Api.Reply(StatusCreated, Some(Encode(l)))
            && s1.entries == s0.entries[code := Encode(l)]
            && read == Api.Reply(StatusOk, Some(Encode(l)))
            && Redirect.Resolve(s2, Request(Get, "/", Some(code), None)) == Redirect.Reply(StatusTemporaryRedirect, url)
  {
    var code := RandString(rng, 0);
    var l := Link(name, code, url);
    var post := Request(Post, "/", None, Some(CreateBody(name, url)));
    var get := Request(Get, "/", Some(code), None);
    CreateBodyFields(name, url);
    ApiProperties.PostStoresRecord(s0, post, rng, order);
    var s1 := s0.(entries := s0.entries[code := Encode(l)]);
    assert Api.Step(s0, post, rng, order) == (Api.Reply(StatusCreated, Some(Encode(l))), s1);
    ApiProperties.GetAnswersStoredValue(s1, get, rng, order);
    Redirect.StoredCodeRedirects(s1, get, l);
  }

  /**
   * Deleting a code answers 200 and removes it; reading it afterwards
   * answers 404 and the resolver answers 404 with no Location.
   */
  lemma {:induction false} DeleteThenRead(s2: Snapshot, code: string, rng: Rng, order: seq<string>)
    requires s2.available && code !in s2.broken
    ensures var (deleted, s3) := Api.Step(s2, Request(Delete, "/", Some(code), None), rng, order);
            var (reread, s4) := Api.Step(s3, Request(Get, "/", Some(code), None), rng, order);
            && deleted == Api.Reply(StatusOk, None)
            && reread == Api.Reply(StatusNotFound, None)
            && s4.entries == s2.entries - {code}
            && Redirect.Resolve(s4, Request(Get, "/", Some(code), None)) == Redirect.Reply(StatusNotFound, "")
  {
    var delete := Request(Delete, "/", Some(code), None);
    var get := Request(Get, "/", Some(code), None);
    ApiProperties.DeleteRemovesKey(s2, delete, rng, order);
    var s3 := s2.(entries := s2.entries - {code});
    ApiProperties.GetAnswersStoredValue(s3, get, rng, order);
    Redirect.LookupOutcome(s3, get);
  }
}
