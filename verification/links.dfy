/**
 * The link record that both handlers read and write, its JSON form, and the
 * generator of random short codes.
 */
module Links {
  import opened Wrappers
  import Json

  datatype Link = Link(name: string, shortUrl: string, url: string)

  // ---------------------------------------------------------------------
  // Short codes

  /** Length of a generated short code. */
  const CodeLength: nat := 8

  predicate IsAlphanumeric(c: char) {
    'A' <= c <= 'Z' || 'a' <= c <= 'z' || '0' <= c <= '9'
  }

  /** A string the generator can produce: eight ASCII letters or digits. */
  predicate IsShortCode(s: string) {
    |s| == CodeLength && forall i | 0 <= i < |s| :: IsAlphanumeric(s[i])
  }

  /** The i-th character of the alphabet: upper-case letters, lower-case letters, digits. */
  function AlphabetChar(i: nat): (c: char)
    requires i < 62
    ensures IsAlphanumeric(c)
  {
    if i < 26 then ('A' as int + i) as char
    else if i < 52 then ('a' as int + (i - 26)) as char
    else ('0' as int + (i - 52)) as char
  }

  /** The 62 characters that the alphanumeric distribution draws from. */
  function Alphabet(): (a: string)
    ensures |a| == 62
    ensures forall i | 0 <= i < |a| :: IsAlphanumeric(a[i])
  {
    seq(62, i requires 0 <= i < 62 => AlphabetChar(i))
  }

  /** The position of an alphanumeric character in the alphabet. */
  function AlphabetIndex(c: char): (i: nat)
    requires IsAlphanumeric(c)
    ensures i < |Alphabet()| && Alphabet()[i] == c
  {
    if 'A' <= c <= 'Z' then c as int - 'A' as int
    else if 'a' <= c <= 'z' then 26 + (c as int - 'a' as int)
    else 52 + (c as int - '0' as int)
  }

  /** The alphabet is exactly the ASCII letters and digits. */
  lemma AlphabetIsAlphanumeric(c: char)
    ensures c in Alphabet() <==> IsAlphanumeric(c)
  {
    if IsAlphanumeric(c) {
      var i := AlphabetIndex(c);
      assert Alphabet()[i] == c;
    }
  }

  /**
   * A random source: the n-th number it draws. The generator reads its
   * draws from a cursor on, so two calls that start at different cursors
   * are independent.
   */
  type Rng = nat -> nat

  /**
   * rand_string: eight draws from `at` on, each taken into the
   * alphanumeric alphabet.
   */
  function RandString(rng: Rng, at: nat): (s: string)
    ensures IsShortCode(s)
  {
    var alphabet := Alphabet();
    seq(CodeLength, i requires 0 <= i < CodeLength => alphabet[rng(at + i) % |alphabet|])
  }

  /** The draw that makes the generator write `s` from cursor `at` on. */
  function DrawFor(s: string, at: nat, n: nat): nat {
    if at <= n < at + |s| && IsAlphanumeric(s[n - at]) then AlphabetIndex(s[n - at]) else 0
  }

  /** Every short code is a possible result of the generator: it is not biased away from any code. */
  lemma RandStringReachesEveryCode(s: string, at: nat)
    requires IsShortCode(s)
    ensures exists rng: Rng :: RandString(rng, at) == s
  {
    var rng: Rng := n => DrawFor(s, at, n);
    var r := RandString(rng, at);
    forall i | 0 <= i < CodeLength
      ensures r[i] == s[i]
    {
      assert rng(at + i) == AlphabetIndex(s[i]);
    }
    assert r == s;
  }

  // ---------------------------------------------------------------------
  // JSON form

  /** The members of a record in declaration order, as serde writes them. */
  function Members(l: Link): seq<Json.Member> {
    [("name", l.name), ("short_url", l.shortUrl), ("url", l.url)]
  }

  /** serde_json::to_vec of a record. */
  function Encode(l: Link): string {
    Json.EncodeObject(Members(l))
  }

  /** serde_json::to_vec of a list of records. */
  function EncodeList(ls: seq<Link>): string {
    Json.EncodeArray(seq(|ls|, i requires 0 <= i < |ls| => Members(ls[i])))
  }

  datatype DecodeError =
    | Syntax(cause: Json.JsonError)
    | DuplicateField(field: string)
    | MissingField(field: string)

  /** The known fields of a record found in a JSON object, each present or absent. */
  datatype Fields = Fields(name: Option<string>, shortUrl: Option<string>, url: Option<string>)

  predicate IsKnownKey(key: string) {
    key == "name" || key == "short_url" || key == "url"
  }

  /** The fields `f` hold the value of member `m` when `m` is one of the known fields. */
  predicate Holds(f: Fields, m: Json.Member) {
    && (m.0 == "name" ==> f.name == Some(m.1))
    && (m.0 == "short_url" ==> f.shortUrl == Some(m.1))
    && (m.0 == "url" ==> f.url == Some(m.1))
  }

  /** No known key is given twice. */
  predicate NoDuplicateKnownKey(ms: seq<Json.Member>) {
    forall i, j | 0 <= i < j < |ms| :: ms[i].0 == ms[j].0 ==> !IsKnownKey(ms[i].0)
  }

  /** Some member has key `key`. */
  predicate HasKey(ms: seq<Json.Member>, key: string) {
    exists i | 0 <= i < |ms| :: ms[i].0 == key
  }

  /**
   * Collects the known fields of an object, as serde's derived visitor
   * does: members with other keys are ignored, a known key given twice is
   * an error.
   */
  function CollectFields(ms: seq<Json.Member>): (r: Result<Fields, DecodeError>)
    ensures r.Success? <==> NoDuplicateKnownKey(ms)
    ensures r.Success? ==> forall i | 0 <= i < |ms| :: Holds(r.value, ms[i])
    ensures r.Success? ==> (r.value.name.Some? ==> HasKey(ms, "name"))
    ensures r.Success? ==> (r.value.shortUrl.Some? ==> HasKey(ms, "short_url"))
    ensures r.Success? ==> (r.value.url.Some? ==> HasKey(ms, "url"))
  {
    if ms == [] then Success(Fields(None, None, None))
    else
      var m := ms[0];
      match CollectFields(ms[1..])
      case Failure(e) => Failure(e)
      case Success(f) =>
        if m.0 == "name" then
          if f.name.Some? then Failure(DuplicateField(m.0)) else Success(f.(name := Some(m.1)))
        else if m.0 == "short_url" then
          if f.shortUrl.Some? then Failure(DuplicateField(m.0)) else Success(f.(shortUrl := Some(m.1)))
        else if m.0 == "url" then
          if f.url.Some? then Failure(DuplicateField(m.0)) else Success(f.(url := Some(m.1)))
        else Success(f)
  }

  /** The known fields of a JSON document holding one object. */
  function ParseFields(text: string): Result<Fields, DecodeError> {
    match Json.DecodeObject(text)
    case Failure(e) => Failure(Syntax(e))
    case Success(ms) => CollectFields(ms)
  }

  /**
   * `l` is a record that `f` decodes to when a missing short_url is
   * filled in by the generator.
   */
  predicate Describes(f: Fields, l: Link) {
    && f.name == Some(l.name)
    && f.url == Some(l.url)
    && (f.shortUrl.Some? ==> l.shortUrl == f.shortUrl.value)
    && (f.shortUrl.None? ==> IsShortCode(l.shortUrl))
  }

  /** The text is one JSON object giving a name and a url, each at most once. */
  predicate HasNameAndUrl(text: string) {
    ParseFields(text).Success? && ParseFields(text).value.name.Some? && ParseFields(text).value.url.Some?
  }

  /**
   * `text` reads back as the record `l`, up to the short_url a missing one
   * is filled with.
   */
  predicate ReadsAs(text: string, l: Link) {
    HasNameAndUrl(text) && Describes(ParseFields(text).value, l)
  }

  /**
   * serde_json::from_slice into the management handler's record, whose
   * short_url defaults to rand_string: a missing short_url is generated
   * from the draws at the cursor `at`. Gives the record and the cursor
   * after the draws it used.
   */
  function DecodeWithDefault(text: string, rng: Rng, at: nat): (r: Result<(Link, nat), DecodeError>)
    ensures r.Success? <==> HasNameAndUrl(text)
    ensures r.Success? ==> ReadsAs(text, r.value.0)
    ensures r.Success? ==> r.value.1 == if ParseFields(text).value.shortUrl.Some? then at else at + CodeLength
  {
    match ParseFields(text)
    case Failure(e) => Failure(e)
    case Success(f) =>
      if f.name.None? then Failure(MissingField("name"))
      else if f.url.None? then Failure(MissingField("url"))
      else if f.shortUrl.Some? then Success((Link(f.name.value, f.shortUrl.value, f.url.value), at))
      else Success((Link(f.name.value, RandString(rng, at), f.url.value), at + CodeLength))
  }

  /** serde_json::from_slice into the resolver's record, where every field is required. */
  function DecodeStrict(text: string): (r: Result<Link, DecodeError>)
    ensures r.Success? <==> ParseFields(text).Success? && ParseFields(text).value.name.Some?
                             && ParseFields(text).value.shortUrl.Some? && ParseFields(text).value.url.Some?
    ensures r.Success? ==> ParseFields(text).value == Fields(Some(r.value.name), Some(r.value.shortUrl), Some(r.value.url))
  {
    match ParseFields(text)
    case Failure(e) => Failure(e)
    case Success(f) =>
      if f.name.None? then Failure(MissingField("name"))
      else if f.shortUrl.None? then Failure(MissingField("short_url"))
      else if f.url.None? then Failure(MissingField("url"))
      else Success(Link(f.name.value, f.shortUrl.value, f.url.value))
  }

  /** Reads back a JSON array of records, each with all of its fields. */
  function DecodeList(text: string): Result<seq<Link>, DecodeError> {
    match Json.DecodeArray(text)
    case Failure(e) => Failure(Syntax(e))
    case Success(objs) => DecodeAll(objs)
  }

  function DecodeAll(objs: seq<seq<Json.Member>>): (r: Result<seq<Link>, DecodeError>)
    ensures r.Success? ==> |r.value| == |objs|
  {
    if objs == [] then Success([])
    else
      match CollectFields(objs[0])
      case Failure(e) => Failure(e)
      case Success(f) =>
        if f.name.None? then Failure(MissingField("name"))
        else if f.shortUrl.None? then Failure(MissingField("short_url"))
        else if f.url.None? then Failure(MissingField("url"))
        else
          match DecodeAll(objs[1..])
          case Failure(e) => Failure(e)
          case Success(ls) => Success([Link(f.name.value, f.shortUrl.value, f.url.value)] + ls)
  }

  // ---------------------------------------------------------------------
  // Round trips

  /** The members of a record name each known field once. */
  lemma MembersCollect(l: Link)
    ensures CollectFields(Members(l)) == Success(Fields(Some(l.name), Some(l.shortUrl), Some(l.url)))
  {
    var ms := Members(l);
    assert CollectFields(ms[2..]) == Success(Fields(None, None, Some(l.url))) by {
      assert ms[2..][1..] == [];
    }
    assert CollectFields(ms[1..]) == Success(Fields(None, Some(l.shortUrl), Some(l.url))) by {
      assert ms[1..][1..] == ms[2..];
    }
  }

  lemma {:induction false} EncodedFields(l: Link)
    ensures ParseFields(Encode(l)) == Success(Fields(Some(l.name), Some(l.shortUrl), Some(l.url)))
  {
    Json.DecodeEncodedObject(Members(l));
    MembersCollect(l);
  }

  /** The management handler reads back the record it wrote, drawing nothing. */
  lemma {:induction false} DecodeWithDefaultEncoded(l: Link, rng: Rng, at: nat)
    ensures DecodeWithDefault(Encode(l), rng, at) == Success((l, at))
  {
    EncodedFields(l);
  }

  /** The resolver reads back the record the management handler wrote. */
  lemma {:induction false} DecodeStrictEncoded(l: Link)
    ensures DecodeStrict(Encode(l)) == Success(l)
  {
    EncodedFields(l);
  }

  lemma {:induction false} DecodeAllMembers(ls: seq<Link>)
    ensures DecodeAll(seq(|ls|, i requires 0 <= i < |ls| => Members(ls[i]))) == Success(ls)
  {
    var objs := seq(|ls|, i requires 0 <= i < |ls| => Members(ls[i]));
    if ls != [] {
      MembersCollect(ls[0]);
      DecodeAllMembers(ls[1..]);
      assert objs[1..] == seq(|ls[1..]|, i requires 0 <= i < |ls[1..]| => Members(ls[1..][i]));
      assert [ls[0]] + ls[1..] == ls;
    }
  }

  /** A listing body reads back as the list of records it was written from. */
  lemma {:induction false} DecodeListEncoded(ls: seq<Link>)
    ensures DecodeList(EncodeList(ls)) == Success(ls)
  {
    Json.DecodeEncodedArray(seq(|ls|, i requires 0 <= i < |ls| => Members(ls[i])));
    DecodeAllMembers(ls);
  }

  /** Two records with the same JSON form are the same record. */
  lemma {:induction false} EncodeInjective(l1: Link, l2: Link)
    requires Encode(l1) == Encode(l2)
    ensures l1 == l2
  {
    DecodeStrictEncoded(l1);
    DecodeStrictEncoded(l2);
  }
}
