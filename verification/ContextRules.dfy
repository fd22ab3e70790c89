/** servers/nginx/ngx_http_mesi_module.c, build_request_ctx_json: which headers and cookies a request context
    holds, told from the header list itself. */
module ContextRules {
  import opened Strings
  import opened Hosts
  import opened Json
  import opened CookieHeader
  import opened RequestContext
  import opened ContextReader

  /** The header is named `cookie` in any case. */
  predicate NamesCookies(h: Header) {
    Lower(h.key) == "cookie"
  }

  lemma CookieNames(h: Header)
    ensures IsCookieHeader(h) <==> NamesCookies(h)
  {
    if NamesCookies(h) {
      assert |h.key| == 6 && forall i :: 0 <= i < 6 ==> Lower(h.key)[i] == LowerChar(h.key[i]);
    }
    if IsCookieHeader(h) { assert Lower(h.key) == "cookie"; }
  }

  lemma {:induction false} MembersConcat(a: seq<Header>, b: seq<Header>)
    ensures MembersOf(a + b) == MembersOf(a) + MembersOf(b)
  {
    hide Decoded;
    if a == [] {
      assert a + b == b;
    } else {
      assert (a + b)[1..] == a[1..] + b;
      MembersConcat(a[1..], b);
    }
  }

  lemma {:induction false} CookiesConcat(a: seq<Cookie>, b: seq<Cookie>)
    ensures CookiesOf(a + b) == CookiesOf(a) + CookiesOf(b)
  {
    hide DecodedCookie;
    if a == [] {
      assert a + b == b;
    } else {
      assert (a + b)[1..] == a[1..] + b;
      CookiesConcat(a[1..], b);
    }
  }

  /** What decoding the context of a header list gives. */
  ghost predicate Gives(hs: seq<Header>, members: seq<Member>, cookies: seq<Cookie>) {
    ReadCtx(CtxJson(hs)) == Parsed(Ctx(members, cookies), "")
  }

  lemma ContextGives(hs: seq<Header>)
    ensures Gives(hs, MembersOf(PlainHeaders(hs)), CookiesOf(AllCookies(hs)))
  {
    hide CtxJson, ReadCtx;
    ContextIsReadBack(hs, "");
    assert CtxJson(hs) + "" == CtxJson(hs);
  }

  lemma GivesOne(hs: seq<Header>, ms: seq<Member>, cs: seq<Cookie>, ns: seq<Member>, ds: seq<Cookie>)
    requires Gives(hs, ms, cs) && Gives(hs, ns, ds)
    ensures ms == ns && cs == ds
  {
  }

  /** The lists for one more header. */
  lemma OneMoreHeader(hs: seq<Header>, h: Header)
    ensures MembersOf(PlainHeaders(hs + [h]))
         == MembersOf(PlainHeaders(hs))
            + if h.hidden || NamesCookies(h) then [] else [(Sanitized(h.key), Sanitized(h.value))]
    ensures CookiesOf(AllCookies(hs + [h]))
         == CookiesOf(AllCookies(hs)) + if !h.hidden && NamesCookies(h) then CookiesOf(Pairs(Pieces(h.value))) else []
  {
    hide IsCookieHeader, NamesCookies, Cookies, Pairs, Pieces, Sanitized;
    PlainSnoc(hs, h);
    CookieNames(h);
    CookiesAreThePairs(h.value);
    if h.hidden || NamesCookies(h) {
      assert PlainHeaders(hs) + [] == PlainHeaders(hs);
    } else {
      MembersConcat(PlainHeaders(hs), [h]);
      assert MembersOf([h]) == [Decoded(h)] + MembersOf([]) == [Decoded(h)];
    }
    if !h.hidden && NamesCookies(h) {
      CookiesConcat(AllCookies(hs), Cookies(h.value));
    } else {
      assert AllCookies(hs) + [] == AllCookies(hs);
    }
  }

  /** Header by header: an empty list gives nothing, and one more header adds nothing if it is hidden, its cookies if it
      is named `cookie` in any case, and else itself; texts decoded. */
  lemma EachHeaderCounts(hs: seq<Header>, h: Header, members: seq<Member>, cookies: seq<Cookie>)
    requires Gives(hs, members, cookies)
    ensures Gives([], [], [])
    ensures h.hidden ==> Gives(hs + [h], members, cookies)
    ensures !h.hidden && Lower(h.key) == "cookie" ==>
              Gives(hs + [h], members, cookies + CookiesOf(Pairs(Pieces(h.value))))
    ensures !h.hidden && Lower(h.key) != "cookie" ==>
              Gives(hs + [h], members + [(Sanitized(h.key), Sanitized(h.value))], cookies)
  {
    hide Pairs, Pieces, Gives, Sanitized, PlainHeaders, AllCookies, MembersOf, CookiesOf, Lower;
    ContextGives(hs);
    NothingGives();
    ContextGives(hs + [h]);
    GivesOne(hs, members, cookies, MembersOf(PlainHeaders(hs)), CookiesOf(AllCookies(hs)));
    OneMoreHeader(hs, h);
    assert members + [] == members && cookies + [] == cookies;
  }

  lemma NothingGives()
    ensures Gives([], [], [])
  {
    hide Gives;
    ContextGives([]);
  }

  // ---- The cookies of a header ----

  /** A header value without a semicolon is one piece, and each semicolon begins another. */
  lemma {:induction false} PiecesAre(p: string, rest: string)
    requires ';' !in p
    ensures Pieces(p) == [p] && Pieces(p + ";" + rest) == [p] + Pieces(rest)
  {
    hide UpTo;
    RunsUpTo(p, "");
    RunsUpTo(p, ";" + rest);
    assert p + "" == p && p + (";" + rest) == p + ";" + rest;
    assert (p + ";" + rest)[..|p|] == p && (p + ";" + rest)[|p| + 1..] == rest;
  }

  lemma {:induction false} RunsUpTo(p: string, more: string)
    requires ';' !in p && (more == "" || more[0] == ';')
    ensures UpTo(p + more, ';') == |p|
  {
    if p == "" {
      assert p + more == more;
    } else {
      assert (p + more)[1..] == p[1..] + more;
      RunsUpTo(p[1..], more);
    }
  }

  /** A piece is a cookie exactly if it has an equals sign and, blanks and tabs aside, a name before the first one. */
  lemma {:induction false} PieceIs(left: string, right: string)
    requires '=' !in left
    ensures Pair(left) == []
    ensures Pair(left + "=" + right) == if Trim(left) == "" then [] else [Cookie(Trim(left), Trim(right))]
  {
    hide FirstEquals, Trim;
    EqualsAt(left, "");
    EqualsAt(left, "=" + right);
    assert left + "" == left && left + ("=" + right) == left + "=" + right;
    assert (left + "=" + right)[..|left|] == left && (left + "=" + right)[|left| + 1..] == right;
  }

  lemma {:induction false} EqualsAt(left: string, more: string)
    requires '=' !in left && (more == "" || more[0] == '=')
    ensures FirstEquals(left + more) == |left|
  {
    if left == "" {
      assert left + more == more;
    } else {
      assert (left + more)[1..] == left[1..] + more;
      EqualsAt(left[1..], more);
    }
  }

  // ---- Trimming ----

  /** Blanks and tabs. */
  predicate AllBlanks(s: string) {
    forall i :: 0 <= i < |s| ==> s[i] as int in {9, 32}
  }

  lemma {:induction false} TrimRightIs(s: string, b: string)
    requires AllBlanks(b) && (s != "" ==> s[|s| - 1] as int !in {9, 32})
    ensures TrimRight(s + b) == s
  {
    if b == "" {
      assert s + b == s;
    } else {
      assert (s + b)[..|s + b| - 1] == s + b[..|b| - 1];
      TrimRightIs(s, b[..|b| - 1]);
    }
  }

  lemma {:induction false} TrimLeftIs(a: string, s: string)
    requires AllBlanks(a) && (s != "" ==> s[0] as int !in {9, 32})
    ensures TrimLeft(a + s) == s
  {
    if a == "" {
      assert a + s == s;
    } else {
      assert (a + s)[1..] == a[1..] + s;
      TrimLeftIs(a[1..], s);
    }
  }

  /** Trimming takes blanks and tabs off both ends, and nothing else. */
  lemma TrimIs(a: string, s: string, b: string)
    requires AllBlanks(a) && AllBlanks(b)
    requires s != "" ==> s[0] as int !in {9, 32} && s[|s| - 1] as int !in {9, 32}
    ensures Trim(a + s + b) == s
  {
    if s == "" {
      assert a + s + b == "" + (a + b);
      TrimRightIs("", a + b);
      TrimLeftIs("", "");
    } else {
      TrimRightIs(a + s, b);
      TrimLeftIs(a, s);
    }
  }
}
