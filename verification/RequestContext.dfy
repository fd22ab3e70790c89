/** servers/nginx/ngx_http_mesi_module.c, build_request_ctx_json: the request's headers and cookies
    as JSON, measured in one pass and written in a second. */
module RequestContext {
  import opened Strings
  import opened Json
  import opened CookieHeader

  /** An entry of nginx's header list; entries with hash 0 are hidden. */
  datatype Header = Header(hidden: bool, key: string, value: string)

  // ---- The document ----

  /** The name is `cookie` in any case. */
  predicate IsCookieHeader(h: Header) {
    |h.key| == 6 && forall i :: 0 <= i < 6 ==> LowerChar(h.key[i]) == "cookie"[i]
  }

  function HeaderItem(h: Header): string {
    Literal(h.key) + ":" + Literal(h.value)
  }

  function CookieItem(c: Cookie): string {
    "{\"name\":" + Literal(c.name) + ",\"value\":" + Literal(c.value) + "}"
  }

  /** The headers that are written as headers. */
  function PlainHeaders(hs: seq<Header>): seq<Header> {
    if hs == [] then []
    else (if hs[0].hidden || IsCookieHeader(hs[0]) then [] else [hs[0]]) + PlainHeaders(hs[1..])
  }

  /** The cookies of all visible Cookie headers. */
  function AllCookies(hs: seq<Header>): seq<Cookie> {
    if hs == [] then []
    else (if !hs[0].hidden && IsCookieHeader(hs[0]) then Cookies(hs[0].value) else []) + AllCookies(hs[1..])
  }

  function HeaderItems(hs: seq<Header>): string {
    if hs == [] then ""
    else if |hs| == 1 then HeaderItem(hs[0])
    else HeaderItem(hs[0]) + "," + HeaderItems(hs[1..])
  }

  function CookieItems(cs: seq<Cookie>): string {
    if cs == [] then ""
    else if |cs| == 1 then CookieItem(cs[0])
    else CookieItem(cs[0]) + "," + CookieItems(cs[1..])
  }

  function CtxJson(hs: seq<Header>): string {
    "{\"headers\":{" + HeaderItems(PlainHeaders(hs)) + "},\"cookies\":[" + CookieItems(AllCookies(hs)) + "]}"
  }

  function Comma(n: nat): string {
    if n > 0 then "," else ""
  }

  lemma {:induction false} HeaderItemsSnoc(hs: seq<Header>, h: Header)
    ensures HeaderItems(hs + [h]) == HeaderItems(hs) + Comma(|hs|) + HeaderItem(h)
  {
    hide HeaderItem;
    if |hs| == 1 {
      assert (hs + [h])[1..] == [h];
    } else if |hs| > 1 {
      assert (hs + [h])[1..] == hs[1..] + [h];
      HeaderItemsSnoc(hs[1..], h);
      assert HeaderItem(hs[0]) + "," + (HeaderItems(hs[1..]) + "," + HeaderItem(h))
          == HeaderItem(hs[0]) + "," + HeaderItems(hs[1..]) + "," + HeaderItem(h);
    }
  }

  lemma {:induction false} CookieItemsSnoc(cs: seq<Cookie>, c: Cookie)
    ensures CookieItems(cs + [c]) == CookieItems(cs) + Comma(|cs|) + CookieItem(c)
  {
    hide CookieItem;
    if |cs| == 1 {
      assert (cs + [c])[1..] == [c];
    } else if |cs| > 1 {
      assert (cs + [c])[1..] == cs[1..] + [c];
      CookieItemsSnoc(cs[1..], c);
      assert CookieItem(cs[0]) + "," + (CookieItems(cs[1..]) + "," + CookieItem(c))
          == CookieItem(cs[0]) + "," + CookieItems(cs[1..]) + "," + CookieItem(c);
    }
  }

  lemma {:induction false} PlainSnoc(hs: seq<Header>, h: Header)
    ensures PlainHeaders(hs + [h]) == PlainHeaders(hs) + if h.hidden || IsCookieHeader(h) then [] else [h]
    ensures AllCookies(hs + [h]) == AllCookies(hs) + if !h.hidden && IsCookieHeader(h) then Cookies(h.value) else []
  {
    hide IsCookieHeader, Cookies;
    if hs == [] {
      assert [h][1..] == [];
      assert hs + [h] == [h];
    } else {
      assert (hs + [h])[1..] == hs[1..] + [h];
      PlainSnoc(hs[1..], h);
      var own := if hs[0].hidden || IsCookieHeader(hs[0]) then [] else [hs[0]];
      Assoc(own, PlainHeaders(hs[1..]), if h.hidden || IsCookieHeader(h) then [] else [h]);
      var cookies := if !hs[0].hidden && IsCookieHeader(hs[0]) then Cookies(hs[0].value) else [];
      Assoc(cookies, AllCookies(hs[1..]), if !h.hidden && IsCookieHeader(h) then Cookies(h.value) else []);
    }
  }

  // ---- Pass 1: measuring ----

  lemma HeaderItemSize(h: Header)
    ensures |HeaderItem(h)| == 5 + |Escape(h.key)| + |Escape(h.value)|
  {
  }

  lemma CookieItemSize(c: Cookie)
    ensures |CookieItem(c)| == 22 + |Escape(c.name)| + |Escape(c.value)|
  {
  }

  /** Adds the cookies of one Cookie header to the count and the size; `before` are the cookies counted already. */
  method MeasureCookies(value: string, count: nat, ghost before: seq<Cookie>) returns (n: nat, size: nat)
    requires count == |before|
    ensures n == |before + Cookies(value)|
    ensures |CookieItems(before)| + size == |CookieItems(before + Cookies(value))|
  {
    hide NextCookie, CookieItem, CookieItems, Escape;
    n, size := count, 0;
    var rest := value;
    ghost var seen := before;
    while |rest| > 0
      invariant n == |seen|
      invariant seen + Cookies(rest) == before + Cookies(value)
      invariant |CookieItems(before)| + size == |CookieItems(seen)|
      decreases |rest|
    {
      var step := ReadCookie(rest);
      match step {
        case NoMore =>
          assert seen + [] == seen;
          return;
        case Skipped(_) =>
        case Found(cookie, _) =>
          n := n + 1;
          var nameLen := EscapedLen(cookie.name);
          var valueLen := EscapedLen(cookie.value);
          CookieItemsSnoc(seen, cookie);
          CookieItemSize(cookie);
          size := size + 22 + nameLen + valueLen;
          if n > 1 {
            size := size + 1;
          }
          Assoc(seen, [cookie], Cookies(step.rest));
          seen := seen + [cookie];
      }
      rest := step.rest;
    }
    NoCookies();
    assert seen + [] == seen;
  }

  lemma NoCookies()
    ensures Cookies("") == []
  {
  }

  method Measure(hs: seq<Header>) returns (total: nat)
    ensures total == |CtxJson(hs)| + 1
  {
    hide IsCookieHeader, Cookies, CookieItems, HeaderItems, HeaderItem, Escape, PlainHeaders, AllCookies;
    total := 12 + 13 + 2 + 1;
    var nHeaders, nCookies := 0, 0;
    NothingYet();
    assert hs[..0] == [];
    for i := 0 to |hs|
      invariant nHeaders == |PlainHeaders(hs[..i])| && nCookies == |AllCookies(hs[..i])|
      invariant total == 28 + |HeaderItems(PlainHeaders(hs[..i]))| + |CookieItems(AllCookies(hs[..i]))|
    {
      assert hs[..i + 1] == hs[..i] + [hs[i]];
      PlainSnoc(hs[..i], hs[i]);
      if hs[i].hidden {
        assert PlainHeaders(hs[..i + 1]) == PlainHeaders(hs[..i]) && AllCookies(hs[..i + 1]) == AllCookies(hs[..i]);
        continue;
      }
      if IsCookieHeader(hs[i]) {
        assert PlainHeaders(hs[..i + 1]) == PlainHeaders(hs[..i]);
        var size;
        nCookies, size := MeasureCookies(hs[i].value, nCookies, AllCookies(hs[..i]));
        total := total + size;
        continue;
      }
      assert AllCookies(hs[..i + 1]) == AllCookies(hs[..i]);
      HeaderItemsSnoc(PlainHeaders(hs[..i]), hs[i]);
      HeaderItemSize(hs[i]);
      nHeaders := nHeaders + 1;
      var keyLen := EscapedLen(hs[i].key);
      var valueLen := EscapedLen(hs[i].value);
      total := total + 5 + keyLen + valueLen;
      if nHeaders > 1 {
        total := total + 1;
      }
    }
    assert hs[..|hs|] == hs;
  }

  lemma NothingYet()
    ensures PlainHeaders([]) == [] && AllCookies([]) == [] && HeaderItems([]) == "" && CookieItems([]) == ""
  {
  }

  // ---- Pass 2: writing ----

  lemma {:induction false} HeaderItemsGrow(hs: seq<Header>, n: nat)
    requires n <= |hs|
    ensures |HeaderItems(hs[..n])| <= |HeaderItems(hs)|
    decreases |hs| - n
  {
    hide HeaderItem, HeaderItems;
    if n == |hs| {
      assert hs[..n] == hs;
    } else {
      assert hs[..n + 1] == hs[..n] + [hs[n]];
      HeaderItemsSnoc(hs[..n], hs[n]);
      HeaderItemsGrow(hs, n + 1);
    }
  }

  lemma {:induction false} CookieItemsGrow(cs: seq<Cookie>, n: nat)
    requires n <= |cs|
    ensures |CookieItems(cs[..n])| <= |CookieItems(cs)|
    decreases |cs| - n
  {
    hide CookieItem, CookieItems;
    if n == |cs| {
      assert cs[..n] == cs;
    } else {
      assert cs[..n + 1] == cs[..n] + [cs[n]];
      CookieItemsSnoc(cs[..n], cs[n]);
      CookieItemsGrow(cs, n + 1);
    }
  }

  lemma {:induction false} PlainGrows(hs: seq<Header>, n: nat)
    requires n <= |hs|
    ensures PlainHeaders(hs[..n]) <= PlainHeaders(hs) && AllCookies(hs[..n]) <= AllCookies(hs)
    decreases |hs| - n
  {
    hide PlainHeaders, AllCookies, IsCookieHeader, Cookies;
    if n == |hs| {
      assert hs[..n] == hs;
    } else {
      assert hs[..n + 1] == hs[..n] + [hs[n]];
      PlainSnoc(hs[..n], hs[n]);
      PlainGrows(hs, n + 1);
    }
  }

  /** There is room for the first `n` headers when there is room for all of them. */
  lemma RoomForHeaders(hs: seq<Header>, n: nat)
    requires n <= |hs|
    ensures |HeaderItems(PlainHeaders(hs[..n]))| <= |HeaderItems(PlainHeaders(hs))|
  {
    hide PlainHeaders, HeaderItems;
    PlainGrows(hs, n);
    HeaderItemsGrow(PlainHeaders(hs), |PlainHeaders(hs[..n])|);
    assert PlainHeaders(hs)[..|PlainHeaders(hs[..n])|] == PlainHeaders(hs[..n]);
  }

  lemma RoomForCookies(cs: seq<Cookie>, more: seq<Cookie>)
    ensures |CookieItems(cs)| <= |CookieItems(cs + more)|
  {
    hide CookieItems;
    CookieItemsGrow(cs + more, |cs|);
    assert (cs + more)[..|cs|] == cs;
  }

  method WriteComma(buf: array<char>, w: nat, count: nat) returns (next: nat)
    requires w + |Comma(count)| <= buf.Length
    modifies buf
    ensures next == w + |Comma(count)| && buf[..next] == old(buf[..w]) + Comma(count)
  {
    next := w;
    if count > 0 {
      next := Put(buf, w, ",");
    } else {
      assert buf[..w] + "" == buf[..w];
    }
  }

  method WriteHeader(buf: array<char>, w: nat, h: Header) returns (next: nat)
    requires w + |HeaderItem(h)| <= buf.Length
    modifies buf
    ensures next == w + |HeaderItem(h)| && buf[..next] == old(buf[..w]) + HeaderItem(h)
  {
    hide Literal;
    ghost var before := buf[..w];
    next := AppendStr(buf, w, h.key);
    next := Put(buf, next, ":");
    next := AppendStr(buf, next, h.value);
    assert before + Literal(h.key) + ":" + Literal(h.value) == before + HeaderItem(h);
  }

  method WriteHeaders(buf: array<char>, w: nat, hs: seq<Header>) returns (next: nat)
    requires w + |HeaderItems(PlainHeaders(hs))| <= buf.Length
    modifies buf
    ensures next == w + |HeaderItems(PlainHeaders(hs))| && buf[..next] == old(buf[..w]) + HeaderItems(PlainHeaders(hs))
  {
    hide IsCookieHeader, HeaderItems, HeaderItem, PlainHeaders, AllCookies, Cookies;
    ghost var before := buf[..w];
    var nHeaders := 0;
    next := w;
    NothingYet();
    assert hs[..0] == [] && before + "" == before;
    for i := 0 to |hs|
      invariant nHeaders == |PlainHeaders(hs[..i])|
      invariant next == w + |HeaderItems(PlainHeaders(hs[..i]))| <= buf.Length
      invariant buf[..next] == before + HeaderItems(PlainHeaders(hs[..i]))
    {
      assert hs[..i + 1] == hs[..i] + [hs[i]];
      PlainSnoc(hs[..i], hs[i]);
      if hs[i].hidden || IsCookieHeader(hs[i]) {
        assert PlainHeaders(hs[..i + 1]) == PlainHeaders(hs[..i]);
        continue;
      }
      ghost var items := HeaderItems(PlainHeaders(hs[..i]));
      HeaderItemsSnoc(PlainHeaders(hs[..i]), hs[i]);
      RoomForHeaders(hs, i + 1);
      next := WriteComma(buf, next, nHeaders);
      next := WriteHeader(buf, next, hs[i]);
      assert before + items + Comma(nHeaders) + HeaderItem(hs[i])
          == before + (items + Comma(nHeaders) + HeaderItem(hs[i]));
      nHeaders := nHeaders + 1;
    }
    assert hs[..|hs|] == hs;
  }

  method WriteCookie(buf: array<char>, w: nat, c: Cookie) returns (next: nat)
    requires w + |CookieItem(c)| <= buf.Length
    modifies buf
    ensures next == w + |CookieItem(c)| && buf[..next] == old(buf[..w]) + CookieItem(c)
  {
    hide Literal;
    ghost var before := buf[..w];
    next := Put(buf, w, "{\"name\":");
    next := AppendStr(buf, next, c.name);
    next := Put(buf, next, ",\"value\":");
    next := AppendStr(buf, next, c.value);
    next := Put(buf, next, "}");
    assert before + "{\"name\":" + Literal(c.name) + ",\"value\":" + Literal(c.value) + "}" == before + CookieItem(c);
  }

  /** Writes the cookies of one Cookie header behind `start` and the cookies in `before`. */
  method WriteCookies(
    buf: array<char>, w: nat, value: string, count: nat, ghost start: string, ghost before: seq<Cookie>)
    returns (n: nat, next: nat)
    requires count == |before| && w <= buf.Length && buf[..w] == start + CookieItems(before)
    requires |start| + |CookieItems(before + Cookies(value))| <= buf.Length
    modifies buf
    ensures n == |before + Cookies(value)| && next <= buf.Length
    ensures buf[..next] == start + CookieItems(before + Cookies(value))
  {
    hide NextCookie, CookieItem, CookieItems;
    n, next := count, w;
    var rest := value;
    ghost var seen := before;
    while |rest| > 0
      invariant n == |seen| && next <= buf.Length
      invariant seen + Cookies(rest) == before + Cookies(value)
      invariant buf[..next] == start + CookieItems(seen)
      decreases |rest|
    {
      var step := ReadCookie(rest);
      match step {
        case NoMore =>
          assert seen + [] == seen;
          return;
        case Skipped(_) =>
        case Found(cookie, _) =>
          ghost var items := CookieItems(seen);
          CookieItemsSnoc(seen, cookie);
          Assoc(seen, [cookie], Cookies(step.rest));
          RoomForCookies(seen + [cookie], Cookies(step.rest));
          next := WriteComma(buf, next, n);
          next := WriteCookie(buf, next, cookie);
          assert start + items + Comma(n) + CookieItem(cookie) == start + (items + Comma(n) + CookieItem(cookie));
          n := n + 1;
          seen := seen + [cookie];
      }
      rest := step.rest;
    }
    NoCookies();
    assert seen + [] == seen;
  }

  method WriteAllCookies(buf: array<char>, w: nat, hs: seq<Header>) returns (next: nat)
    requires w + |CookieItems(AllCookies(hs))| <= buf.Length
    modifies buf
    ensures next == w + |CookieItems(AllCookies(hs))| && buf[..next] == old(buf[..w]) + CookieItems(AllCookies(hs))
  {
    hide IsCookieHeader, CookieItems, PlainHeaders, AllCookies, Cookies;
    ghost var start := buf[..w];
    var nCookies := 0;
    next := w;
    NothingYet();
    assert hs[..0] == [] && start + "" == start;
    for i := 0 to |hs|
      invariant nCookies == |AllCookies(hs[..i])| && next <= buf.Length
      invariant buf[..next] == start + CookieItems(AllCookies(hs[..i]))
    {
      assert hs[..i + 1] == hs[..i] + [hs[i]];
      PlainSnoc(hs[..i], hs[i]);
      if hs[i].hidden || !IsCookieHeader(hs[i]) {
        assert AllCookies(hs[..i + 1]) == AllCookies(hs[..i]);
        continue;
      }
      PlainGrows(hs, i + 1);
      var cs, all := AllCookies(hs[..i + 1]), AllCookies(hs);
      RoomForCookies(cs, all[|cs|..]);
      assert cs + all[|cs|..] == all;
      nCookies, next := WriteCookies(buf, next, hs[i].value, nCookies, start, AllCookies(hs[..i]));
    }
    assert hs[..|hs|] == hs;
  }

  // ---- The whole builder ----

  predicate Contains(s: string, needle: string) {
    exists i :: 0 <= i <= |s| && OccursAt(s, needle, i)
  }

  /** Looks only at what lies inside the haystack. */
  method ContainsNeedle(haystack: string, needle: string) returns (found: bool)
    ensures found <==> Contains(haystack, needle)
  {
    if |haystack| < |needle| {
      return false;
    }
    var i := 0;
    while i + |needle| <= |haystack|
      invariant 0 <= i <= |haystack| - |needle| + 1
      invariant forall j :: 0 <= j < i ==> !OccursAt(haystack, needle, j)
    {
      assert haystack[i..][..|needle|] == haystack[i..i + |needle|];
      if haystack[i..i + |needle|] == needle {
        assert OccursAt(haystack, needle, i);
        return true;
      }
      i := i + 1;
    }
    return false;
  }

  lemma EmptyContains(needle: string)
    requires needle != ""
    ensures !Contains("", needle)
  {
  }

  predicate NeedsCtx(template: string) {
    Contains(template, "${header:") || Contains(template, "${cookie:")
  }

  /** An absent template is an empty one. The buffer holds the text and its terminator, nothing else. */
  method BuildRequestCtxJson(hs: seq<Header>, template: string) returns (buf: array<char>)
    ensures fresh(buf)
    ensures buf[..] == (if Contains(template, "${header:") || Contains(template, "${cookie:") then CtxJson(hs) else "")
                       + "\0"
  {
    hide Contains, HeaderItems, CookieItems, PlainHeaders, AllCookies, CtxJson;
    CtxParts(hs);
    EmptyContains("${header:");
    EmptyContains("${cookie:");
    var needed := false;
    if |template| > 0 {
      needed := ContainsNeedle(template, "${header:");
      if !needed {
        needed := ContainsNeedle(template, "${cookie:");
      }
    }
    if !needed {
      buf := new char[1](_ => 0 as char);
      assert buf[..] == "" + "\0";
      return;
    }
    var total := Measure(hs);
    buf := new char[total](_ => 0 as char);
    var w := Put(buf, 0, "{\"headers\":{");
    w := WriteHeaders(buf, w, hs);
    w := Put(buf, w, "},\"cookies\":[");
    w := WriteAllCookies(buf, w, hs);
    w := Put(buf, w, "]}");
    w := Put(buf, w, "\0");
    assert buf[..w] == buf[..];
  }

  lemma CtxParts(hs: seq<Header>)
    ensures CtxJson(hs) == "" + "{\"headers\":{" + HeaderItems(PlainHeaders(hs)) + "},\"cookies\":[" +
      CookieItems(AllCookies(hs)) + "]}"
    ensures |CtxJson(hs)| == 12 + |HeaderItems(PlainHeaders(hs))| + 13 + |CookieItems(AllCookies(hs))| + 2
  {
    hide HeaderItems, CookieItems, PlainHeaders, AllCookies;
  }
}
