/** Reading back, as JSON (RFC 8259), what module RequestContext writes. */
module ContextReader {
  import opened Options
  import opened Json
  import opened CookieHeader
  import opened RequestContext

  type Member = (string, string)

  /** What JSON decoding makes of a header and of a cookie: stray bytes are replaced. */
  function Decoded(h: Header): Member {
    (Sanitized(h.key), Sanitized(h.value))
  }

  function DecodedCookie(c: Cookie): Cookie {
    Cookie(Sanitized(c.name), Sanitized(c.value))
  }

  function MembersOf(hs: seq<Header>): seq<Member> {
    if hs == [] then [] else [Decoded(hs[0])] + MembersOf(hs[1..])
  }

  function CookiesOf(cs: seq<Cookie>): seq<Cookie> {
    if cs == [] then [] else [DecodedCookie(cs[0])] + CookiesOf(cs[1..])
  }

  /** The text behind `prefix`. */
  function Expect(prefix: string, t: string): (r: Option<string>)
    ensures r.Some? ==> t == prefix + r.value
  {
    if prefix <= t then Some(t[|prefix|..]) else None
  }

  datatype Parsed<T> = Failed | Parsed(value: T, rest: string)

  function ReadMember(t: string): (r: Parsed<Member>)
    ensures r.Parsed? ==> |r.rest| < |t|
  {
    match ReadLiteral(t)
    case Bad => Failed
    case Read(key, afterKey) =>
      if afterKey == "" || afterKey[0] != ':' then Failed
      else
        match ReadLiteral(afterKey[1..])
        case Bad => Failed
        case Read(value, rest) => Parsed((key, value), rest)
  }

  /** One or more members separated by commas. */
  function ReadMembers(t: string): (r: Parsed<seq<Member>>)
    ensures r.Parsed? ==> |r.rest| < |t|
    decreases |t|
  {
    match ReadMember(t)
    case Failed => Failed
    case Parsed(m, rest) =>
      if rest == "" || rest[0] != ',' then Parsed([m], rest)
      else
        match ReadMembers(rest[1..])
        case Failed => Failed
        case Parsed(ms, after) => Parsed([m] + ms, after)
  }

  function ReadCookieObject(t: string): (r: Parsed<Cookie>)
    ensures r.Parsed? ==> |r.rest| < |t|
  {
    match Expect("{\"name\":", t)
    case None => Failed
    case Some(atName) =>
      match ReadLiteral(atName)
      case Bad => Failed
      case Read(name, afterName) =>
        match Expect(",\"value\":", afterName)
        case None => Failed
        case Some(atValue) =>
          match ReadLiteral(atValue)
          case Bad => Failed
          case Read(value, rest) =>
            if rest == "" || rest[0] != '}' then Failed else Parsed(Cookie(name, value), rest[1..])
  }

  function ReadCookieObjects(t: string): (r: Parsed<seq<Cookie>>)
    ensures r.Parsed? ==> |r.rest| < |t|
    decreases |t|
  {
    match ReadCookieObject(t)
    case Failed => Failed
    case Parsed(c, rest) =>
      if rest == "" || rest[0] != ',' then Parsed([c], rest)
      else
        match ReadCookieObjects(rest[1..])
        case Failed => Failed
        case Parsed(cs, after) => Parsed([c] + cs, after)
  }

  datatype Ctx = Ctx(headers: seq<Member>, cookies: seq<Cookie>)

  function ReadHeaderPart(t: string): (r: Parsed<seq<Member>>)
    ensures r.Parsed? ==> |r.rest| <= |t|
  {
    if t != "" && t[0] == '}' then Parsed([], t) else ReadMembers(t)
  }

  function ReadCookiePart(t: string): (r: Parsed<seq<Cookie>>)
    ensures r.Parsed? ==> |r.rest| <= |t|
  {
    if t != "" && t[0] == ']' then Parsed([], t) else ReadCookieObjects(t)
  }

  function ReadCtx(t: string): (r: Parsed<Ctx>)
    ensures r.Parsed? ==> |r.rest| < |t|
  {
    match Expect("{\"headers\":{", t)
    case None => Failed
    case Some(atHeaders) =>
      match ReadHeaderPart(atHeaders)
      case Failed => Failed
      case Parsed(headers, afterHeaders) =>
        match Expect("},\"cookies\":[", afterHeaders)
        case None => Failed
        case Some(atCookies) =>
          match ReadCookiePart(atCookies)
          case Failed => Failed
          case Parsed(cookies, afterCookies) =>
            match Expect("]}", afterCookies)
            case None => Failed
            case Some(rest) => Parsed(Ctx(headers, cookies), rest)
  }

  lemma MemberIsReadBack(h: Header, t: string)
    ensures ReadMember(HeaderItem(h) + t) == Parsed(Decoded(h), t)
  {
    hide Literal, ReadLiteral, Sanitized, IsUtf8;
    var atValue := Literal(h.value) + t;
    assert HeaderItem(h) + t == Literal(h.key) + (":" + atValue);
    LiteralIsReadBack(h.key, ":" + atValue);
    LiteralIsReadBack(h.value, t);
    assert (":" + atValue)[1..] == atValue;
  }

  lemma {:induction false} MembersAreReadBack(hs: seq<Header>, t: string)
    requires hs != [] && (t == "" || t[0] != ',')
    ensures ReadMembers(HeaderItems(hs) + t) == Parsed(MembersOf(hs), t)
  {
    hide ReadMember, HeaderItem, Decoded;
    if |hs| == 1 {
      MemberIsReadBack(hs[0], t);
      assert hs[1..] == [] && MembersOf(hs) == [Decoded(hs[0])];
    } else {
      var more := HeaderItems(hs[1..]) + t;
      assert HeaderItems(hs) + t == HeaderItem(hs[0]) + ("," + more);
      MemberIsReadBack(hs[0], "," + more);
      assert ("," + more)[1..] == more;
      MembersAreReadBack(hs[1..], t);
    }
  }

  lemma ExpectSkips(prefix: string, t: string)
    ensures Expect(prefix, prefix + t) == Some(t)
  {
  }

  lemma CookieIsReadBack(c: Cookie, t: string)
    ensures ReadCookieObject(CookieItem(c) + t) == Parsed(DecodedCookie(c), t)
  {
    hide Literal, ReadLiteral, Expect, Sanitized, IsUtf8;
    var atValue := Literal(c.value) + ("}" + t);
    var afterName := ",\"value\":" + atValue;
    assert CookieItem(c) + t == "{\"name\":" + (Literal(c.name) + afterName);
    ExpectSkips("{\"name\":", Literal(c.name) + afterName);
    LiteralIsReadBack(c.name, afterName);
    ExpectSkips(",\"value\":", atValue);
    LiteralIsReadBack(c.value, "}" + t);
    assert ("}" + t)[1..] == t;
  }

  lemma {:induction false} CookiesAreReadBack(cs: seq<Cookie>, t: string)
    requires cs != [] && (t == "" || t[0] != ',')
    ensures ReadCookieObjects(CookieItems(cs) + t) == Parsed(CookiesOf(cs), t)
  {
    hide ReadCookieObject, CookieItem, DecodedCookie;
    if |cs| == 1 {
      CookieIsReadBack(cs[0], t);
      assert cs[1..] == [] && CookiesOf(cs) == [DecodedCookie(cs[0])];
    } else {
      var more := CookieItems(cs[1..]) + t;
      assert CookieItems(cs) + t == CookieItem(cs[0]) + ("," + more);
      CookieIsReadBack(cs[0], "," + more);
      assert ("," + more)[1..] == more;
      CookiesAreReadBack(cs[1..], t);
    }
  }

  lemma HeaderPartIsReadBack(hs: seq<Header>, t: string)
    ensures ReadHeaderPart(HeaderItems(hs) + ("}" + t)) == Parsed(MembersOf(hs), "}" + t)
  {
    hide HeaderItem, ReadMembers;
    if hs == [] {
      assert HeaderItems(hs) + ("}" + t) == "}" + t;
    } else {
      MembersAreReadBack(hs, "}" + t);
      assert HeaderItem(hs[0])[0] == '"' by { HeaderStartsWithQuote(hs[0]); }
    }
  }

  lemma HeaderStartsWithQuote(h: Header)
    ensures HeaderItem(h) != "" && HeaderItem(h)[0] == '"'
  {
  }

  lemma CookiePartIsReadBack(cs: seq<Cookie>, t: string)
    ensures ReadCookiePart(CookieItems(cs) + ("]" + t)) == Parsed(CookiesOf(cs), "]" + t)
  {
    hide CookieItem, ReadCookieObjects;
    if cs == [] {
      assert CookieItems(cs) + ("]" + t) == "]" + t;
    } else {
      CookiesAreReadBack(cs, "]" + t);
      CookieStartsWithBrace(cs[0]);
    }
  }

  lemma CookieStartsWithBrace(c: Cookie)
    ensures CookieItem(c) != "" && CookieItem(c)[0] == '{'
  {
  }

  /** The members of the document are exactly the visible headers and its array exactly the cookies, in order and
      with stray bytes replaced, and the document ends where it was written to end. */
  lemma ContextIsReadBack(hs: seq<Header>, t: string)
    ensures ReadCtx(CtxJson(hs) + t) == Parsed(Ctx(MembersOf(PlainHeaders(hs)), CookiesOf(AllCookies(hs))), t)
  {
    hide HeaderItems, CookieItems, PlainHeaders, AllCookies, Expect, ReadHeaderPart, ReadCookiePart, MembersOf,
         CookiesOf, CtxJson;
    var end := "]" + ("}" + t);
    var cookies := CookieItems(AllCookies(hs)) + end;
    var afterHeaders := "}" + (",\"cookies\":[" + cookies);
    var headers := HeaderItems(PlainHeaders(hs)) + afterHeaders;
    CtxText(hs, t);
    ExpectSkips("{\"headers\":{", headers);
    HeaderPartIsReadBack(PlainHeaders(hs), ",\"cookies\":[" + cookies);
    assert afterHeaders == "},\"cookies\":[" + cookies;
    ExpectSkips("},\"cookies\":[", cookies);
    CookiePartIsReadBack(AllCookies(hs), "}" + t);
    assert end == "]}" + t;
    ExpectSkips("]}", t);
  }

  lemma CtxText(hs: seq<Header>, t: string)
    ensures CtxJson(hs) + t
         == "{\"headers\":{" + (HeaderItems(PlainHeaders(hs))
            + ("}" + (",\"cookies\":[" + (CookieItems(AllCookies(hs)) + ("]" + ("}" + t))))))
  {
    hide HeaderItems, CookieItems, PlainHeaders, AllCookies;
    assert "},\"cookies\":[" == "}" + ",\"cookies\":[" && "]}" == "]" + "}";
  }
}
