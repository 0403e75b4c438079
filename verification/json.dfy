/**
 * The part of JSON that the link records use: objects whose member values
 * are strings, and arrays of such objects.
 *
 * The encoder writes exactly what serde_json's compact writer produces for
 * these shapes: no whitespace, members in the given order, and the string
 * escapes of serde_json (`\"`, `\\`, `\b`, `\t`, `\n`, `\f`, `\r`, and
 * `\u00xx` with lower-case hex digits for the other control characters).
 * The decoder accepts any whitespace between tokens and every escape that
 * JSON allows, including surrogate pairs.
 */
module Json {
  import opened Wrappers

  datatype JsonError =
    | UnexpectedEnd
    | UnexpectedChar
    | ControlCharacter
    | InvalidEscape
    | LoneSurrogate
    | TrailingCharacters

  /** A member of an object: its key and its string value. */
  type Member = (string, string)

  const HexDigits: string := "0123456789abcdef"

  predicate IsWhitespace(c: char) {
    c == ' ' || c == '\t' || c == '\n' || c == '\r'
  }

  // ---------------------------------------------------------------------
  // Strings

  /** How serde_json writes one character inside a string literal. */
  function EscapeChar(c: char): (e: string)
    ensures 1 <= |e|
    ensures e[0] == '\\' || e == [c]
    ensures e[0] != '"' && !(e[0] < ' ')
  {
    if c == '"' then ['\\', '"']
    else if c == '\\' then ['\\', '\\']
    else if c == '\U{8}' then ['\\', 'b']
    else if c == '\t' then ['\\', 't']
    else if c == '\n' then ['\\', 'n']
    else if c == '\U{C}' then ['\\', 'f']
    else if c == '\r' then ['\\', 'r']
    else if c < ' ' then ['\\', 'u', '0', '0', HexDigits[c as int / 16], HexDigits[c as int % 16]]
    else [c]
  }

  /** Writes the escaped form of `s` followed by `k`. */
  function WriteEscaped(s: string, k: string): string {
    if s == [] then k else EscapeChar(s[0]) + WriteEscaped(s[1..], k)
  }

  /** Writes `s` as a string literal followed by `k`. */
  function WriteString(s: string, k: string): string {
    ['"'] + WriteEscaped(s, ['"'] + k)
  }

  function HexValue(c: char): (r: Option<nat>)
    ensures r.Some? ==> r.value < 16
  {
    if '0' <= c <= '9' then Some(c as int - '0' as int)
    else if 'a' <= c <= 'f' then Some(c as int - 'a' as int + 10)
    else if 'A' <= c <= 'F' then Some(c as int - 'A' as int + 10)
    else None
  }

  /** The number written by the first four characters of `t` in hexadecimal. */
  function Hex4(t: string): (r: Option<nat>)
    ensures r.Some? ==> |t| >= 4 && r.value < 0x10000
  {
    if |t| < 4 then None
    else match (HexValue(t[0]), HexValue(t[1]), HexValue(t[2]), HexValue(t[3]))
      case (Some(a), Some(b), Some(c), Some(d)) => Some(((a * 16 + b) * 16 + c) * 16 + d)
      case _ => None
  }

  /**
   * Decodes one escape sequence; `t` starts just after the backslash.
   * Gives the character and what follows the sequence.
   */
  function Unescape(t: string): (r: Result<(char, string), JsonError>)
    ensures r.Success? ==> |r.value.1| < |t|
  {
    if |t| == 0 then Failure(UnexpectedEnd)
    else if t[0] == '"' then Success(('"', t[1..]))
    else if t[0] == '\\' then Success(('\\', t[1..]))
    else if t[0] == '/' then Success(('/', t[1..]))
    else if t[0] == 'b' then Success(('\U{8}', t[1..]))
    else if t[0] == 'f' then Success(('\U{C}', t[1..]))
    else if t[0] == 'n' then Success(('\n', t[1..]))
    else if t[0] == 'r' then Success(('\r', t[1..]))
    else if t[0] == 't' then Success(('\t', t[1..]))
    else if t[0] != 'u' then Failure(InvalidEscape)
    else match Hex4(t[1..])
      case None => Failure(InvalidEscape)
      case Some(hi) =>
        if hi < 0xD800 || 0xE000 <= hi then Success((hi as char, t[5..]))
        else if 0xDC00 <= hi then Failure(LoneSurrogate)
        else if |t| < 7 || t[5] != '\\' || t[6] != 'u' then Failure(LoneSurrogate)
        else match Hex4(t[7..])
          case None => Failure(InvalidEscape)
          case Some(lo) =>
            if 0xDC00 <= lo < 0xE000 then
              Success(((0x10000 + (hi - 0xD800) * 0x400 + (lo - 0xDC00)) as char, t[11..]))
            else Failure(LoneSurrogate)
  }

  /**
   * Decodes the body of a string literal; `t` starts just after the opening
   * quote. Gives the decoded text and what follows the closing quote.
   */
  function ParseChars(t: string): (r: Result<(string, string), JsonError>)
    ensures r.Success? ==> |r.value.1| < |t|
    decreases |t|
  {
    if |t| == 0 then Failure(UnexpectedEnd)
    else if t[0] == '"' then Success(([], t[1..]))
    else if t[0] == '\\' then
      match Unescape(t[1..])
      case Failure(e) => Failure(e)
      case Success((c, rest)) =>
        match ParseChars(rest)
        case Failure(e) => Failure(e)
        case Success((s, after)) => Success(([c] + s, after))
    else if t[0] < ' ' then Failure(ControlCharacter)
    else
      match ParseChars(t[1..])
      case Failure(e) => Failure(e)
      case Success((s, after)) => Success(([t[0]] + s, after))
  }

  /** Parses a string literal after optional whitespace. */
  function ParseString(t: string): (r: Result<(string, string), JsonError>)
    ensures r.Success? ==> |r.value.1| < |t|
  {
    var t0 := SkipWhitespace(t);
    if t0 == [] then Failure(UnexpectedEnd)
    else if t0[0] != '"' then Failure(UnexpectedChar)
    else ParseChars(t0[1..])
  }

  function SkipWhitespace(t: string): (r: string)
    ensures |r| <= |t|
    ensures r != [] ==> !IsWhitespace(r[0])
  {
    if t != [] && IsWhitespace(t[0]) then SkipWhitespace(t[1..]) else t
  }

  /** Consumes optional whitespace and then the character `c`. */
  function Expect(c: char, t: string): (r: Result<string, JsonError>)
    ensures r.Success? ==> |r.value| < |t|
  {
    var t0 := SkipWhitespace(t);
    if t0 == [] then Failure(UnexpectedEnd)
    else if t0[0] != c then Failure(UnexpectedChar)
    else Success(t0[1..])
  }

  // ---------------------------------------------------------------------
  // Objects

  /** Writes `"key":"value"` followed by `k`. */
  function WriteMember(m: Member, k: string): string {
    WriteString(m.0, [':'] + WriteString(m.1, k))
  }

  /** Writes one or more members separated by commas, followed by `k`. */
  function WriteMembers(ms: seq<Member>, k: string): string
    requires ms != []
  {
    if |ms| == 1 then WriteMember(ms[0], k)
    else WriteMember(ms[0], [','] + WriteMembers(ms[1..], k))
  }

  /** Writes an object followed by `k`. */
  function WriteObject(ms: seq<Member>, k: string): string {
    ['{'] + if ms == [] then ['}'] + k else WriteMembers(ms, ['}'] + k)
  }

  /** The compact text of an object, as serde_json writes it. */
  function EncodeObject(ms: seq<Member>): string {
    WriteObject(ms, [])
  }

  /** Parses one `"key": "value"` member. */
  function ParseMember(t: string): (r: Result<(Member, string), JsonError>)
    ensures r.Success? ==> |r.value.1| < |t|
  {
    match ParseString(t)
    case Failure(e) => Failure(e)
    case Success((key, t1)) =>
      match Expect(':', t1)
      case Failure(e) => Failure(e)
      case Success(t2) =>
        match ParseString(t2)
        case Failure(e) => Failure(e)
        case Success((value, t3)) => Success(((key, value), t3))
  }

  /**
   * Parses one or more members separated by commas, and the closing brace.
   * A comma before the brace is an error, as in serde_json.
   */
  function ParseMembers(t: string): (r: Result<(seq<Member>, string), JsonError>)
    ensures r.Success? ==> |r.value.1| < |t|
    decreases |t|
  {
    match ParseMember(t)
    case Failure(e) => Failure(e)
    case Success((m, t1)) =>
      var t2 := SkipWhitespace(t1);
      if t2 == [] then Failure(UnexpectedEnd)
      else if t2[0] == '}' then Success(([m], t2[1..]))
      else if t2[0] != ',' then Failure(UnexpectedChar)
      else
        match ParseMembers(t2[1..])
        case Failure(e) => Failure(e)
        case Success((more, t3)) => Success(([m] + more, t3))
  }

  /** Parses an object after optional whitespace. */
  function ParseObject(t: string): (r: Result<(seq<Member>, string), JsonError>)
    ensures r.Success? ==> |r.value.1| < |t|
  {
    match Expect('{', t)
    case Failure(e) => Failure(e)
    case Success(t1) =>
      var t2 := SkipWhitespace(t1);
      if t2 != [] && t2[0] == '}' then Success(([], t2[1..]))
      else ParseMembers(t2)
  }

  /** A whole document that is one object, with nothing but whitespace after it. */
  function DecodeObject(t: string): Result<seq<Member>, JsonError> {
    match ParseObject(t)
    case Failure(e) => Failure(e)
    case Success((ms, rest)) =>
      if SkipWhitespace(rest) == [] then Success(ms) else Failure(TrailingCharacters)
  }

  // ---------------------------------------------------------------------
  // Arrays of objects

  /** Writes one or more objects separated by commas, followed by `k`. */
  function WriteObjects(objs: seq<seq<Member>>, k: string): string
    requires objs != []
  {
    if |objs| == 1 then WriteObject(objs[0], k)
    else WriteObject(objs[0], [','] + WriteObjects(objs[1..], k))
  }

  /** Writes an array of objects followed by `k`. */
  function WriteArray(objs: seq<seq<Member>>, k: string): string {
    ['['] + if objs == [] then [']'] + k else WriteObjects(objs, [']'] + k)
  }

  /** The compact text of an array of objects, as serde_json writes it. */
  function EncodeArray(objs: seq<seq<Member>>): string {
    WriteArray(objs, [])
  }

  /** Parses one or more objects separated by commas, and the closing bracket. */
  function ParseObjects(t: string): (r: Result<(seq<seq<Member>>, string), JsonError>)
    ensures r.Success? ==> |r.value.1| < |t|
    decreases |t|
  {
    match ParseObject(t)
    case Failure(e) => Failure(e)
    case Success((obj, t1)) =>
      var t2 := SkipWhitespace(t1);
      if t2 == [] then Failure(UnexpectedEnd)
      else if t2[0] == ']' then Success(([obj], t2[1..]))
      else if t2[0] != ',' then Failure(UnexpectedChar)
      else
        match ParseObjects(t2[1..])
        case Failure(e) => Failure(e)
        case Success((more, t3)) => Success(([obj] + more, t3))
  }

  /** Parses an array of objects after optional whitespace. */
  function ParseArray(t: string): (r: Result<(seq<seq<Member>>, string), JsonError>)
    ensures r.Success? ==> |r.value.1| < |t|
  {
    match Expect('[', t)
    case Failure(e) => Failure(e)
    case Success(t1) =>
      var t2 := SkipWhitespace(t1);
      if t2 != [] && t2[0] == ']' then Success(([], t2[1..]))
      else ParseObjects(t2)
  }

  /** A whole document that is one array of objects. */
  function DecodeArray(t: string): Result<seq<seq<Member>>, JsonError> {
    match ParseArray(t)
    case Failure(e) => Failure(e)
    case Success((objs, rest)) =>
      if SkipWhitespace(rest) == [] then Success(objs) else Failure(TrailingCharacters)
  }

  // ---------------------------------------------------------------------
  // Round trips: what the encoder writes, the decoder reads back.

  lemma HexDigitValue(i: nat)
    requires i < 16
    ensures HexValue(HexDigits[i]) == Some(i)
  {
  }

  /** The two-character escapes `\"`, `\\`, `\b`, `\t`, `\n`, `\f`, `\r` read back. */
  lemma {:induction false} ShortEscapeParses(c: char, t: string)
    requires c == '"' || c == '\\' || c == '\U{8}' || c == '\t' || c == '\n' || c == '\U{C}' || c == '\r'
    requires ParseChars(t).Success?
    ensures ParseChars(EscapeChar(c) + t) == Success(([c] + ParseChars(t).value.0, ParseChars(t).value.1))
  {
    var e := EscapeChar(c) + t;
    assert e[1..][1..] == t;
  }

  /** The `\u00xx` escapes of the other control characters read back. */
  lemma {:induction false} ControlEscapeParses(c: char, t: string)
    requires c < ' '
    requires !(c == '\U{8}' || c == '\t' || c == '\n' || c == '\U{C}' || c == '\r')
    requires ParseChars(t).Success?
    ensures ParseChars(EscapeChar(c) + t) == Success(([c] + ParseChars(t).value.0, ParseChars(t).value.1))
  {
    var e := EscapeChar(c) + t;
    var n := c as int;
    HexDigitValue(n / 16);
    HexDigitValue(n % 16);
    assert e[1..][1..] == ['0', '0', HexDigits[n / 16], HexDigits[n % 16]] + t;
    assert Hex4(e[1..][1..]) == Some(n);
    assert e[1..][5..] == t;
  }

  /** Reading the escaped form of `c` gives `c` and then continues with `t`. */
  lemma {:induction false} EscapeCharParses(c: char, t: string)
    requires ParseChars(t).Success?
    ensures ParseChars(EscapeChar(c) + t) == Success(([c] + ParseChars(t).value.0, ParseChars(t).value.1))
  {
    if c == '"' || c == '\\' || c == '\U{8}' || c == '\t' || c == '\n' || c == '\U{C}' || c == '\r' {
      ShortEscapeParses(c, t);
    } else if c < ' ' {
      ControlEscapeParses(c, t);
    } else {
      assert (EscapeChar(c) + t)[1..] == t;
    }
  }

  /** The body of a string literal reads back as the original text. */
  lemma {:induction false} EscapedParses(s: string, rest: string)
    ensures ParseChars(WriteEscaped(s, ['"'] + rest)) == Success((s, rest))
  {
    if s != [] {
      EscapedParses(s[1..], rest);
      EscapeCharParses(s[0], WriteEscaped(s[1..], ['"'] + rest));
      assert [s[0]] + s[1..] == s;
    }
  }

  /** A string literal reads back as the original text, whatever follows it. */
  lemma {:induction false} StringParses(s: string, rest: string)
    ensures ParseString(WriteString(s, rest)) == Success((s, rest))
  {
    var t := WriteString(s, rest);
    assert SkipWhitespace(t) == t;
    assert t[1..] == WriteEscaped(s, ['"'] + rest);
    EscapedParses(s, rest);
  }

  /** ParseMember is a key, a colon and a value. */
  lemma {:induction false} MemberSteps(t: string, key: string, t1: string, value: string, t3: string)
    requires ParseString(t) == Success((key, t1))
    requires t1 != [] && t1[0] == ':'
    requires ParseString(t1[1..]) == Success((value, t3))
    ensures ParseMember(t) == Success(((key, value), t3))
  {
    assert SkipWhitespace(t1) == t1;
  }

  lemma {:induction false} MemberParses(m: Member, rest: string)
    ensures ParseMember(WriteMember(m, rest)) == Success((m, rest))
  {
    var t1 := [':'] + WriteString(m.1, rest);
    StringParses(m.0, t1);
    StringParses(m.1, rest);
    assert t1[1..] == WriteString(m.1, rest);
    MemberSteps(WriteMember(m, rest), m.0, t1, m.1, rest);
  }

  /** One step of ParseMembers, taken on a comma. */
  lemma {:induction false} MembersStepComma(t: string, m: Member, t1: string)
    requires ParseMember(t) == Success((m, t1))
    requires t1 != [] && t1[0] == ','
    requires ParseMembers(t1[1..]).Success?
    ensures ParseMembers(t) == Success(([m] + ParseMembers(t1[1..]).value.0, ParseMembers(t1[1..]).value.1))
  {
    assert SkipWhitespace(t1) == t1;
  }

  /** The last step of ParseMembers, taken on the closing brace. */
  lemma {:induction false} MembersStepClose(t: string, m: Member, t1: string)
    requires ParseMember(t) == Success((m, t1))
    requires t1 != [] && t1[0] == '}'
    ensures ParseMembers(t) == Success(([m], t1[1..]))
  {
    assert SkipWhitespace(t1) == t1;
  }

  lemma {:induction false} MembersParse(ms: seq<Member>, rest: string)
    requires ms != []
    ensures ParseMembers(WriteMembers(ms, ['}'] + rest)) == Success((ms, rest))
  {
    var close := ['}'] + rest;
    if |ms| == 1 {
      MemberParses(ms[0], close);
      MembersStepClose(WriteMembers(ms, close), ms[0], close);
      assert close[1..] == rest && [ms[0]] == ms;
    } else {
      var after := [','] + WriteMembers(ms[1..], close);
      MembersParse(ms[1..], rest);
      MemberParses(ms[0], after);
      assert after[1..] == WriteMembers(ms[1..], close);
      MembersStepComma(WriteMembers(ms, close), ms[0], after);
      assert [ms[0]] + ms[1..] == ms;
    }
  }

  /** An encoded object reads back as its members, whatever follows it. */
  lemma {:induction false} ObjectParses(ms: seq<Member>, rest: string)
    ensures ParseObject(WriteObject(ms, rest)) == Success((ms, rest))
  {
    var t := WriteObject(ms, rest);
    var t1 := t[1..];
    assert SkipWhitespace(t) == t;
    if ms == [] {
      assert t1 == ['}'] + rest;
      assert SkipWhitespace(t1) == t1;
      assert t1[1..] == rest;
    } else {
      assert t1 == WriteMembers(ms, ['}'] + rest);
      MembersParse(ms, rest);
      assert t1[0] == '"';
      assert SkipWhitespace(t1) == t1;
    }
  }

  /** What the encoder writes for an object, the decoder reads back. */
  lemma {:induction false} DecodeEncodedObject(ms: seq<Member>)
    ensures DecodeObject(EncodeObject(ms)) == Success(ms)
  {
    ObjectParses(ms, []);
  }

  lemma {:induction false} ObjectsStepComma(t: string, obj: seq<Member>, t1: string)
    requires ParseObject(t) == Success((obj, t1))
    requires t1 != [] && t1[0] == ','
    requires ParseObjects(t1[1..]).Success?
    ensures ParseObjects(t) == Success(([obj] + ParseObjects(t1[1..]).value.0, ParseObjects(t1[1..]).value.1))
  {
    assert SkipWhitespace(t1) == t1;
  }

  lemma {:induction false} ObjectsStepClose(t: string, obj: seq<Member>, t1: string)
    requires ParseObject(t) == Success((obj, t1))
    requires t1 != [] && t1[0] == ']'
    ensures ParseObjects(t) == Success(([obj], t1[1..]))
  {
    assert SkipWhitespace(t1) == t1;
  }

  lemma {:induction false} ObjectsParse(objs: seq<seq<Member>>, rest: string)
    requires objs != []
    ensures ParseObjects(WriteObjects(objs, [']'] + rest)) == Success((objs, rest))
  {
    var close := [']'] + rest;
    if |objs| == 1 {
      ObjectParses(objs[0], close);
      ObjectsStepClose(WriteObjects(objs, close), objs[0], close);
      assert close[1..] == rest && [objs[0]] == objs;
    } else {
      var after := [','] + WriteObjects(objs[1..], close);
      ObjectsParse(objs[1..], rest);
      ObjectParses(objs[0], after);
      assert after[1..] == WriteObjects(objs[1..], close);
      ObjectsStepComma(WriteObjects(objs, close), objs[0], after);
      assert [objs[0]] + objs[1..] == objs;
    }
  }

  /** An encoded array reads back as its objects, whatever follows it. */
  lemma {:induction false} ArrayParses(objs: seq<seq<Member>>, rest: string)
    ensures ParseArray(WriteArray(objs, rest)) == Success((objs, rest))
  {
    var t := WriteArray(objs, rest);
    var t1 := t[1..];
    assert SkipWhitespace(t) == t;
    if objs == [] {
      assert t1 == [']'] + rest;
      assert SkipWhitespace(t1) == t1;
      assert t1[1..] == rest;
    } else {
      assert t1 == WriteObjects(objs, [']'] + rest);
      ObjectsParse(objs, rest);
      assert t1[0] == '{';
      assert SkipWhitespace(t1) == t1;
    }
  }

  /** What the encoder writes for an array of objects, the decoder reads back. */
  lemma {:induction false} DecodeEncodedArray(objs: seq<seq<Member>>)
    ensures DecodeArray(EncodeArray(objs)) == Success(objs)
  {
    ArrayParses(objs, []);
  }
}
