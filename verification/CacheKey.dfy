/** mesi/cache_key_template.go: cache keys made from a template, the include URL and the request. */
module CacheKey {
  import opened Options
  import opened Strings
  import opened Hosts
  import opened CookieHeader
  import opened RequestContext

  // ---- The request ----

  /** `http.Header` as a map, and the request's cookies in order. */
  datatype Request = Request(headers: map<string, seq<string>>, cookies: seq<Cookie>)

  /** `strings.EqualFold`, by what a fold maps names to. */
  predicate SameName(fold: string -> string, a: string, b: string) {
    fold(a) == fold(b)
  }

  predicate IsTokenChar(c: char) {
    'a' <= c <= 'z' || 'A' <= c <= 'Z' || '0' <= c <= '9' || c in "!#$%&'*+-.^_`|~"
  }

  function UpperChar(c: char): char {
    if 'a' <= c <= 'z' then (c as int - 32) as char else c
  }

  function Capitalised(s: string, upper: bool): string {
    if s == "" then ""
    else [if upper then UpperChar(s[0]) else LowerChar(s[0])] + Capitalised(s[1..], s[0] == '-')
  }

  /** `http.CanonicalHeaderKey`: names that are no token stay as they are. */
  function Canonical(name: string): string {
    if forall i :: 0 <= i < |name| ==> IsTokenChar(name[i]) then Capitalised(name, true) else name
  }

  lemma {:induction false} CapitalisedFolds(s: string, upper: bool)
    ensures |Capitalised(s, upper)| == |s|
    ensures forall i :: 0 <= i < |s| ==> LowerChar(Capitalised(s, upper)[i]) == LowerChar(s[i])
  {
    if s != "" {
      CapitalisedFolds(s[1..], s[0] == '-');
    }
  }

  lemma CanonicalIsSameName(fold: string -> string, name: string)
    requires IsFold(fold)
    ensures SameName(fold, Canonical(name), name)
  {
    if Canonical(name) != name {
      CapitalisedFolds(name, true);
      TokensAreASCII(name);
      var c := Canonical(name);
      assert Lower(c) == Lower(name);
      assert IsASCII(c) by {
        forall i | 0 <= i < |c| ensures c[i] < 128 as char {
          assert LowerChar(c[i]) == LowerChar(name[i]);
        }
      }
    }
  }

  lemma TokensAreASCII(name: string)
    requires forall i :: 0 <= i < |name| ==> IsTokenChar(name[i])
    ensures IsASCII(name)
  {
  }

  // ---- Header values ----

  function First(values: seq<string>): Option<string> {
    if values == [] then None else Some(values[0])
  }

  /** A missing key reads as no values. */
  function FirstOf(headers: map<string, seq<string>>, key: string): Option<string> {
    if key in headers then First(headers[key]) else None
  }

  /** Of the keys that differ from `name` only in case, `key` is the first in byte order. */
  ghost predicate IsLeastKey(fold: string -> string, headers: map<string, seq<string>>, name: string, key: string) {
    && key in headers && SameName(fold, key, name)
    && forall k :: k in headers && SameName(fold, k, name) ==> k == key || Before(key, k)
  }

  /** A lookup answers with the canonical spelling first, then the spelling asked for, then the least
      of the other spellings. */
  ghost function HeaderValue(fold: string -> string, headers: map<string, seq<string>>, name: string): Option<string> {
    if name == "" then None
    else if FirstOf(headers, Canonical(name)).Some? then FirstOf(headers, Canonical(name))
    else if FirstOf(headers, name).Some? then FirstOf(headers, name)
    else if exists key :: IsLeastKey(fold, headers, name, key) then
      var key :| IsLeastKey(fold, headers, name, key);
      FirstOf(headers, key)
    else None
  }

  /** There is one least key, so the order in which the map is walked does not show. */
  lemma LeastKeyAnswers(fold: string -> string, headers: map<string, seq<string>>, name: string, key: string)
    requires name != "" && FirstOf(headers, Canonical(name)).None? && FirstOf(headers, name).None?
    requires IsLeastKey(fold, headers, name, key)
    ensures HeaderValue(fold, headers, name) == FirstOf(headers, key)
  {
    var least :| IsLeastKey(fold, headers, name, least) && HeaderValue(fold, headers, name) == FirstOf(headers, least);
    BeforeIsTotal(least, key);
  }

  /** The keys may come in any order. */
  method RequestHeaderValue(fold: string -> string, headers: map<string, seq<string>>, name: string)
      returns (r: Option<string>)
    ensures r == HeaderValue(fold, headers, name)
  {
    if name == "" {
      return None;
    }
    var candidates := [Canonical(name), name];
    for i := 0 to 2
      invariant i >= 1 ==> FirstOf(headers, Canonical(name)).None?
      invariant i >= 2 ==> FirstOf(headers, name).None?
    {
      var value := FirstOf(headers, candidates[i]);
      if value.Some? {
        return value;
      }
    }
    var matched, found := "", false;
    var keys := headers.Keys;
    while keys != {}
      invariant keys <= headers.Keys
      invariant found ==> matched in headers && SameName(fold, matched, name) && matched !in keys
      invariant found ==> forall k :: k in headers && k !in keys && SameName(fold, k, name) ==>
        k == matched || Before(matched, k)
      invariant !found ==> forall k :: k in headers && k !in keys ==> !SameName(fold, k, name)
      decreases |keys|
    {
      var key :| key in keys;
      keys := keys - {key};
      if !SameName(fold, key, name) {
        continue;
      }
      if found {
        BeforeIsTotal(key, matched);
        LeastOfMore(fold, headers.Keys - keys - {key}, name, matched, key);
      }
      if !found || Before(key, matched) {
        matched := key;
        found := true;
      }
    }
    if !found {
      return None;
    }
    assert IsLeastKey(fold, headers, name, matched);
    LeastKeyAnswers(fold, headers, name, matched);
    return FirstOf(headers, matched);
  }

  lemma LeastOfMore(fold: string -> string, seen: set<string>, name: string, matched: string, key: string)
    requires forall k :: k in seen && SameName(fold, k, name) ==> k == matched || Before(matched, k)
    requires key != matched
    ensures Before(key, matched) ==> forall k :: k in seen && SameName(fold, k, name) ==> Before(key, k)
  {
    if Before(key, matched) {
      forall k | k in seen && SameName(fold, k, name) ensures Before(key, k) {
        if k != matched { BeforeIsTransitive(key, matched, k); }
      }
    }
  }

  lemma {:induction false} LeastKeyExists(
    fold: string -> string, headers: map<string, seq<string>>, name: string, keys: set<string>) returns (key: string)
    requires keys <= headers.Keys && exists k :: k in keys && SameName(fold, k, name)
    ensures key in keys && SameName(fold, key, name)
    ensures forall k :: k in keys && SameName(fold, k, name) ==> k == key || Before(key, k)
    decreases |keys|
  {
    var k :| k in keys && SameName(fold, k, name);
    if exists j :: j in keys - {k} && SameName(fold, j, name) {
      key := LeastKeyExists(fold, headers, name, keys - {k});
      BeforeIsTotal(k, key);
      LeastOfMore(fold, keys - {k}, name, key, k);
      if Before(k, key) { key := k; }
    } else {
      key := k;
    }
  }

  lemma LeastKeyIsUnique(fold: string -> string, headers: map<string, seq<string>>, name: string, a: string, b: string)
    requires IsLeastKey(fold, headers, name, a) && IsLeastKey(fold, headers, name, b)
    ensures a == b
  {
    BeforeIsTotal(a, b);
  }

  /** Some spelling of the name has a value. */
  ghost predicate IsPresent(fold: string -> string, headers: map<string, seq<string>>, name: string) {
    exists k :: k in headers && SameName(fold, k, name) && headers[k] != []
  }

  /** A header that some spelling has a value for is missed exactly if the canonical spelling has none, nor the
      one asked for, nor the least of all spellings. */
  lemma MissedExactly(fold: string -> string, headers: map<string, seq<string>>, name: string)
    requires name != ""
    ensures HeaderValue(fold, headers, name).None? && IsPresent(fold, headers, name) <==>
              && FirstOf(headers, Canonical(name)).None? && FirstOf(headers, name).None?
              && IsPresent(fold, headers, name)
              && forall k :: IsLeastKey(fold, headers, name, k) ==> headers[k] == []
  {
    if IsPresent(fold, headers, name) { MissedIfPresent(fold, headers, name); }
  }

  lemma MissedIfPresent(fold: string -> string, headers: map<string, seq<string>>, name: string)
    requires name != "" && IsPresent(fold, headers, name)
    ensures HeaderValue(fold, headers, name).None? <==>
              && FirstOf(headers, Canonical(name)).None? && FirstOf(headers, name).None?
              && forall k :: IsLeastKey(fold, headers, name, k) ==> headers[k] == []
  {
    var key := LeastKeyExists(fold, headers, name, headers.Keys);
    assert IsLeastKey(fold, headers, name, key);
    if FirstOf(headers, Canonical(name)).None? && FirstOf(headers, name).None? {
      LeastKeyAnswers(fold, headers, name, key);
      forall k | IsLeastKey(fold, headers, name, k) ensures k == key {
        LeastKeyIsUnique(fold, headers, name, k, key);
      }
    }
  }

  /** What is found is the value of some spelling. */
  lemma FoundIsPresent(fold: string -> string, headers: map<string, seq<string>>, name: string)
    requires IsFold(fold) && HeaderValue(fold, headers, name).Some?
    ensures exists k :: k in headers && SameName(fold, k, name) && headers[k] != []
                        && HeaderValue(fold, headers, name) == Some(headers[k][0])
  {
    CanonicalIsSameName(fold, name);
    if FirstOf(headers, Canonical(name)).Some? {
      assert Canonical(name) in headers;
    } else if FirstOf(headers, name).Some? {
      assert name in headers;
    } else {
      var key :| IsLeastKey(fold, headers, name, key) && HeaderValue(fold, headers, name) == FirstOf(headers, key);
      assert key in headers;
    }
  }

  /** If no spelling of the name is without values, the header is found exactly if some spelling is there. */
  lemma FoundExactly(fold: string -> string, headers: map<string, seq<string>>, name: string)
    requires IsFold(fold) && name != ""
    requires forall k :: k in headers && SameName(fold, k, name) ==> headers[k] != []
    ensures HeaderValue(fold, headers, name).Some? <==> exists k :: k in headers && SameName(fold, k, name)
  {
    if HeaderValue(fold, headers, name).Some? {
      FoundIsPresent(fold, headers, name);
    } else if k :| k in headers && SameName(fold, k, name) {
      MissedExactly(fold, headers, name);
      var key := LeastKeyExists(fold, headers, name, headers.Keys);
      assert IsLeastKey(fold, headers, name, key);
    }
  }

  /** A spelling without values hides one that has some. */
  lemma EmptySpellingHides(fold: string -> string)
    requires IsFold(fold)
    ensures
      var headers := map["FOO" := [], "fOO" := ["x"]];
      HeaderValue(fold, headers, "foo") == None && IsPresent(fold, headers, "foo")
  {
    var headers: map<string, seq<string>> := map["FOO" := [], "fOO" := ["x"]];
    assert Lower("FOO") == Lower("fOO") == Lower("foo");
    assert IsASCII("FOO") && IsASCII("fOO") && IsASCII("foo");
    assert SameName(fold, "fOO", "foo") && SameName(fold, "FOO", "foo");
    CapitalisedFolds("foo", true);
    assert Capitalised("foo", true)[1] == 'o';
    assert Canonical("foo")[0] == 'F' && Canonical("foo") !in headers;
    assert Before("FOO", "fOO");
    assert IsLeastKey(fold, headers, "foo", "FOO");
    LeastKeyAnswers(fold, headers, "foo", "FOO");
    assert "fOO" in headers;
  }

  // ---- Cookie values ----

  /** Cookie `i` is the first with exactly this name. */
  ghost predicate IsFirstCookie(cookies: seq<Cookie>, name: string, i: int) {
    && 0 <= i < |cookies| && cookies[i].name == name
    && forall j :: 0 <= j < i ==> cookies[j].name != name
  }

  /** Cookie `i` has the least name among those that differ only in case, and is the first of that name. */
  ghost predicate IsLeastCookie(fold: string -> string, cookies: seq<Cookie>, name: string, i: int) {
    && 0 <= i < |cookies| && SameName(fold, cookies[i].name, name)
    && forall j :: 0 <= j < |cookies| && SameName(fold, cookies[j].name, name) ==>
         Before(cookies[i].name, cookies[j].name) || (cookies[i].name == cookies[j].name && i <= j)
  }

  ghost function CookieValue(fold: string -> string, cookies: seq<Cookie>, name: string): Option<string> {
    if name == "" then None
    else if exists i :: IsFirstCookie(cookies, name, i) then
      var i :| IsFirstCookie(cookies, name, i);
      Some(cookies[i].value)
    else if exists i :: IsLeastCookie(fold, cookies, name, i) then
      var i :| IsLeastCookie(fold, cookies, name, i);
      Some(cookies[i].value)
    else None
  }

  lemma FirstCookieAnswers(fold: string -> string, cookies: seq<Cookie>, name: string, i: int)
    requires name != "" && IsFirstCookie(cookies, name, i)
    ensures CookieValue(fold, cookies, name) == Some(cookies[i].value)
  {
    var j: int :| IsFirstCookie(cookies, name, j) && CookieValue(fold, cookies, name) == Some(cookies[j].value);
    assert IsFirstCookie(cookies, name, j);
  }

  lemma LeastCookieAnswers(fold: string -> string, cookies: seq<Cookie>, name: string, i: int)
    requires name != "" && IsLeastCookie(fold, cookies, name, i)
    requires forall j :: 0 <= j < |cookies| ==> cookies[j].name != name
    ensures CookieValue(fold, cookies, name) == Some(cookies[i].value)
  {
    var j: int :| IsLeastCookie(fold, cookies, name, j) && CookieValue(fold, cookies, name) == Some(cookies[j].value);
    assert IsLeastCookie(fold, cookies, name, j);
    BeforeIsTotal(cookies[i].name, cookies[j].name);
  }

  /** The first loop: an exact match wins. */
  method ExactCookie(fold: string -> string, cookies: seq<Cookie>, name: string) returns (r: Option<string>)
    requires name != ""
    ensures r.None? ==> forall j :: 0 <= j < |cookies| ==> cookies[j].name != name
    ensures r.Some? ==> r == CookieValue(fold, cookies, name)
  {
    for i := 0 to |cookies|
      invariant forall j :: 0 <= j < i ==> cookies[j].name != name
    {
      if cookies[i].name == name {
        FirstCookieAnswers(fold, cookies, name, i);
        return Some(cookies[i].value);
      }
    }
    return None;
  }

  /** The second loop: the least name that differs only in case. */
  method FoldedCookie(fold: string -> string, cookies: seq<Cookie>, name: string) returns (r: Option<string>)
    requires name != "" && forall j :: 0 <= j < |cookies| ==> cookies[j].name != name
    ensures r == CookieValue(fold, cookies, name)
  {
    hide SameName, CookieValue;
    var matched, value, found := "", "", false;
    ghost var at := 0;
    for i := 0 to |cookies|
      invariant found ==> IsLeastCookie(fold, cookies[..i], name, at)
      invariant found ==> matched == cookies[at].name && value == cookies[at].value
      invariant !found ==> forall j :: 0 <= j < i ==> !SameName(fold, cookies[j].name, name)
    {
      assert cookies[..i + 1] == cookies[..i] + [cookies[i]];
      if !SameName(fold, cookies[i].name, name) {
        continue;
      }
      if found {
        LeastCookieOfMore(fold, cookies[..i], cookies[i], name, at);
      }
      if !found || Before(cookies[i].name, matched) {
        matched := cookies[i].name;
        value := cookies[i].value;
        found := true;
        at := i;
      }
    }
    assert cookies[..|cookies|] == cookies;
    if !found {
      NoCookieAnswers(fold, cookies, name);
      return None;
    }
    LeastCookieAnswers(fold, cookies, name, at);
    return Some(value);
  }

  lemma NoCookieAnswers(fold: string -> string, cookies: seq<Cookie>, name: string)
    requires forall j :: 0 <= j < |cookies| ==> !SameName(fold, cookies[j].name, name)
    ensures CookieValue(fold, cookies, name) == None
  {
  }

  method RequestCookieValue(fold: string -> string, cookies: seq<Cookie>, name: string) returns (r: Option<string>)
    ensures r == CookieValue(fold, cookies, name)
  {
    if name == "" {
      return None;
    }
    r := ExactCookie(fold, cookies, name);
    if r.None? {
      r := FoldedCookie(fold, cookies, name);
    }
  }

  lemma LeastCookieOfMore(fold: string -> string, cs: seq<Cookie>, c: Cookie, name: string, at: int)
    requires IsLeastCookie(fold, cs, name, at) && SameName(fold, c.name, name)
    ensures IsLeastCookie(fold, cs + [c], name, if Before(c.name, cs[at].name) then |cs| else at)
  {
    BeforeIsTotal(c.name, cs[at].name);
    if Before(c.name, cs[at].name) {
      forall j | 0 <= j < |cs| && SameName(fold, cs[j].name, name) ensures Before(c.name, cs[j].name) {
        if cs[j].name != cs[at].name { BeforeIsTransitive(c.name, cs[at].name, cs[j].name); }
      }
    }
  }

  // ---- Placeholders ----

  /** What a placeholder body stands for; None keeps the placeholder as text. The request may be absent. */
  ghost function Value(fold: string -> string, url: string, body: string, r: Option<Request>): Option<string> {
    if body == "url" then Some(url)
    else if "header:" <= body && r.Some? then HeaderValue(fold, r.value.headers, body[7..])
    else if "cookie:" <= body && r.Some? then CookieValue(fold, r.value.cookies, body[7..])
    else None
  }

  method CacheKeyPlaceholder(fold: string -> string, url: string, name: string, r: Option<Request>)
      returns (value: Option<string>)
    ensures value == Value(fold, url, name, r)
  {
    if name == "url" {
      return Some(url);
    } else if "header:" <= name {
      if r.None? { return None; }
      value := RequestHeaderValue(fold, r.value.headers, name[7..]);
    } else if "cookie:" <= name {
      if r.None? { return None; }
      value := RequestCookieValue(fold, r.value.cookies, name[7..]);
    } else {
      return None;
    }
  }

  // ---- Templates ----

  /** A template taken apart: placeholders between pieces of text, and at the end plain text, or text
      and a placeholder that is never closed. */
  datatype Template =
    | Plain(text: string)
    | Unclosed(text: string, tail: string)
    | Hole(text: string, body: string, rest: Template)

  predicate WellFormed(t: Template) {
    match t
    case Plain(text) => NoOpener(text)
    case Unclosed(text, tail) => NoOpener(text) && '}' !in tail
    case Hole(text, body, rest) => NoOpener(text) && '}' !in body && WellFormed(rest)
  }

  predicate NoOpener(s: string) {
    Index(s, "${") < 0
  }

  function Print(t: Template): string {
    match t
    case Plain(text) => text
    case Unclosed(text, tail) => text + ("${" + tail)
    case Hole(text, body, rest) => text + ("${" + (body + ("}" + Print(rest))))
  }

  /** One substitution: each placeholder that stands for something is replaced by it, all else is kept. */
  ghost function Filled(fold: string -> string, t: Template, url: string, r: Option<Request>): string {
    match t
    case Plain(text) => text
    case Unclosed(text, tail) => text + ("${" + tail)
    case Hole(text, body, rest) =>
      var v := Value(fold, url, body, r);
      text + (if v.Some? then v.value else "${" + body + "}") + Filled(fold, rest, url, r)
  }

  /** The template a text is. */
  function Parse(s: string): Template {
    var start := Index(s, "${");
    if start < 0 then Plain(s)
    else
      var tail := s[start + 2..];
      var end := Index(tail, "}");
      if end < 0 then Unclosed(s[..start], tail)
      else Hole(s[..start], tail[..end], Parse(tail[end + 1..]))
  }

  lemma OpenerAt(s: string, i: nat)
    requires OccursAt(s, "${", i)
    ensures i + 2 <= |s| && s == s[..i] + ("${" + s[i + 2..])
  {
    assert s[i..] == "${" + s[i..][2..];
  }

  lemma CloserAt(s: string, i: nat)
    requires OccursAt(s, "}", i)
    ensures i + 1 <= |s| && s == s[..i] + ("}" + s[i + 1..])
  {
    assert s[i..] == "}" + s[i..][1..];
  }

  /** What one round of the loop sees and what is left to it. */
  lemma OneRound(fold: string -> string, s: string, url: string, r: Option<Request>)
    ensures var start := Index(s, "${");
            if start < 0 then Filled(fold, Parse(s), url, r) == s
            else
              var rest := s[start..];
              |rest| >= 2 &&
              var end := Index(rest[2..], "}");
              if end < 0 then Filled(fold, Parse(s), url, r) == s[..start] + rest
              else
                var value := Value(fold, url, rest[2..end + 2], r);
                |rest| > end + 2 &&
                Filled(fold, Parse(s), url, r) == s[..start] + (if value.Some? then value.value else rest[..end + 3])
                                            + Filled(fold, Parse(rest[end + 3..]), url, r)
  {
    hide Value, Index, OccursAt, Parse;
    FirstParsed(s);
    var start := Index(s, "${");
    if start >= 0 {
      OpenerAt(s, start);
      var rest := s[start..];
      var tail := s[start + 2..];
      assert rest == "${" + tail && rest[2..] == tail;
      var end := Index(tail, "}");
      if end >= 0 {
        CloserAt(tail, end);
        assert rest[2..end + 2] == tail[..end] && rest[end + 3..] == tail[end + 1..];
        assert rest[..end + 3] == "${" + tail[..end] + "}";
      }
    }
  }

  lemma FirstParsed(s: string)
    ensures var start := Index(s, "${");
            if start < 0 then Parse(s) == Plain(s)
            else
              var tail := s[start + 2..];
              var end := Index(tail, "}");
              if end < 0 then Parse(s) == Unclosed(s[..start], tail)
              else Parse(s) == Hole(s[..start], tail[..end], Parse(tail[end + 1..]))
  {
    hide Index, OccursAt;
  }

  method BuildCacheKey(fold: string -> string, url: string, template: string, r: Option<Request>) returns (key: string)
    ensures key == Filled(fold, Parse(template), url, r)
  {
    hide Value, Index, Parse, Filled, OccursAt;
    OneRound(fold, template, url, r);
    if Index(template, "${") < 0 {
      return template;
    }
    key := "";
    var rest := template;
    while true
      invariant key + Filled(fold, Parse(rest), url, r) == Filled(fold, Parse(template), url, r)
      decreases |rest|
    {
      OneRound(fold, rest, url, r);
      var start := Index(rest, "${");
      if start < 0 {
        key := key + rest;
        break;
      }
      ghost var before, literal := key, rest[..start];
      key := key + rest[..start];
      rest := rest[start..];
      var end := Index(rest[2..], "}");
      if end < 0 {
        Assoc(before, literal, rest);
        key := key + rest;
        break;
      }
      end := end + 2;
      var value := CacheKeyPlaceholder(fold, url, rest[2..end], r);
      var text := if value.Some? then value.value else rest[..end + 1];
      rest := rest[end + 1..];
      Assoc(before, literal, text);
      Assoc(before, literal + text, Filled(fold, Parse(rest), url, r));
      key := key + text;
    }
  }

  // ---- Taking a template apart and printing it undo each other ----

  lemma NoCloser(s: string)
    ensures Index(s, "}") < 0 <==> '}' !in s
  {
    if Index(s, "}") >= 0 {
      CloserAt(s, Index(s, "}"));
      assert s[Index(s, "}")] == '}';
    } else if i :| 0 <= i < |s| && s[i] == '}' {
      assert OccursAt(s, "}", i);
    }
  }

  /** No opener starts before the first one. */
  lemma NoOpenerBefore(s: string)
    requires Index(s, "${") >= 0
    ensures NoOpener(s[..Index(s, "${")])
  {
    var start := Index(s, "${");
    var i := Index(s[..start], "${");
    if i >= 0 {
      assert s[..start][i..][..2] == s[i..][..2];
      assert OccursAt(s, "${", i);
    }
  }

  lemma NoCloserBefore(s: string)
    requires Index(s, "}") >= 0
    ensures '}' !in s[..Index(s, "}")]
  {
    var end := Index(s, "}");
    if i :| 0 <= i < end && s[i] == '}' {
      assert OccursAt(s, "}", i);
    }
  }

  lemma {:induction false} EveryTextIsATemplate(s: string)
    ensures WellFormed(Parse(s)) && Print(Parse(s)) == s
    decreases |s|
  {
    hide Index, OccursAt;
    var start := Index(s, "${");
    if start >= 0 {
      NoOpenerBefore(s);
      OpenerAt(s, start);
      var tail := s[start + 2..];
      NoCloser(tail);
      var end := Index(tail, "}");
      if end < 0 {
        assert Parse(s) == Unclosed(s[..start], tail);
      } else {
        NoCloserBefore(tail);
        CloserAt(tail, end);
        assert Parse(s) == Hole(s[..start], tail[..end], Parse(tail[end + 1..]));
        EveryTextIsATemplate(tail[end + 1..]);
      }
    }
  }

  lemma NotAnOpener(text: string, j: nat)
    requires NoOpener(text) && j + 1 < |text|
    ensures text[j] != '$' || text[j + 1] != '{'
  {
    assert !OccursAt(text, "${", j);
    assert text[j..][..2] == [text[j], text[j + 1]];
  }

  /** A text without openers cannot complete one with what follows, as `$` never stands for `{`. */
  lemma FirstOpener(text: string, tail: string)
    requires NoOpener(text)
    ensures Index(text + ("${" + tail), "${") == |text|
  {
    var s := text + ("${" + tail);
    assert s[|text|..] == "${" + tail;
    forall j | 0 <= j < |text| ensures !OccursAt(s, "${", j) {
      if j + 1 < |text| { NotAnOpener(text, j); }
      assert s[j..][0] == s[j] && s[j..][1] == s[j + 1];
    }
    IndexIs(s, "${", |text|);
  }

  lemma FirstCloser(body: string, more: string)
    requires '}' !in body
    ensures Index(body + ("}" + more), "}") == |body|
  {
    var s := body + ("}" + more);
    assert s[|body|..] == "}" + more;
    forall j | 0 <= j < |body| ensures !OccursAt(s, "}", j) {
      assert s[j..][0] == body[j];
    }
    IndexIs(s, "}", |body|);
  }

  lemma {:induction false} PrintedIsParsed(t: Template)
    requires WellFormed(t)
    ensures Parse(Print(t)) == t
  {
    hide Index, OccursAt;
    match t
    case Plain(text) =>
    case Unclosed(text, tail) =>
      FirstOpener(text, tail);
      NoCloser(tail);
      assert Print(t)[|text| + 2..] == tail && Print(t)[..|text|] == text;
    case Hole(text, body, rest) =>
      var tail := body + ("}" + Print(rest));
      FirstOpener(text, tail);
      assert Print(t)[|text| + 2..] == tail && Print(t)[..|text|] == text;
      FirstCloser(body, Print(rest));
      assert tail[|body| + 1..] == Print(rest) && tail[..|body|] == body;
      PrintedIsParsed(rest);
  }

  /** A template none of whose placeholders stands for anything is its own key. */
  lemma {:induction false} UnresolvedStays(fold: string -> string, t: Template, url: string, r: Option<Request>)
    requires forall body :: body in Bodies(t) ==> Value(fold, url, body, r).None?
    ensures Filled(fold, t, url, r) == Print(t)
  {
    match t
    case Plain(_) =>
    case Unclosed(_, _) =>
    case Hole(text, body, rest) =>
      assert body in Bodies(t);
      UnresolvedStays(fold, rest, url, r);
      assert text + ("${" + body + "}") + Print(rest) == Print(t);
  }

  function Bodies(t: Template): set<string> {
    match t
    case Plain(_) => {}
    case Unclosed(_, _) => {}
    case Hole(_, body, rest) => {body} + Bodies(rest)
  }

  // ---- The request matters only when a template asks for it ----

  lemma {:induction false} AskedBodiesShow(t: Template, body: string, needle: string)
    requires body in Bodies(t) && needle <= body
    ensures Contains(Print(t), "${" + needle)
  {
    match t
    case Hole(text, first, rest) =>
      if body == first {
        assert Print(t)[|text|..] == "${" + (first + ("}" + Print(rest)));
        assert OccursAt(Print(t), "${" + needle, |text|);
      } else {
        AskedBodiesShow(rest, body, needle);
        var i :| 0 <= i <= |Print(rest)| && OccursAt(Print(rest), "${" + needle, i);
        var k := |text| + 2 + |first| + 1;
        assert Print(t)[k + i..] == Print(rest)[i..];
        assert OccursAt(Print(t), "${" + needle, k + i);
      }
  }

  lemma {:induction false} SameValuesSameKey(
    fold: string -> string, t: Template, url: string, r: Option<Request>, q: Option<Request>)
    requires forall body :: body in Bodies(t) ==> Value(fold, url, body, r) == Value(fold, url, body, q)
    ensures Filled(fold, t, url, r) == Filled(fold, t, url, q)
  {
    hide Value;
    match t
    case Plain(_) =>
    case Unclosed(_, _) =>
    case Hole(_, body, rest) =>
      assert body in Bodies(t);
      SameValuesSameKey(fold, rest, url, r, q);
  }

  /** The nginx module sends no request context for a template without `${header:` and `${cookie:`;
      no request whatever would have given another key. */
  lemma ContextIsNotNeeded(
    fold: string -> string, template: string, url: string, r: Option<Request>, q: Option<Request>)
    requires !NeedsCtx(template)
    ensures Filled(fold, Parse(template), url, r) == Filled(fold, Parse(template), url, q)
  {
    hide Contains, Parse, Print, Bodies, HeaderValue, CookieValue;
    var t := Parse(template);
    EveryTextIsATemplate(template);
    forall body | body in Bodies(t) ensures Value(fold, url, body, r) == Value(fold, url, body, q) {
      assert "${" + "header:" == "${header:" && "${" + "cookie:" == "${cookie:";
      if "header:" <= body { AskedBodiesShow(t, body, "header:"); }
      if "cookie:" <= body { AskedBodiesShow(t, body, "cookie:"); }
    }
    SameValuesSameKey(fold, t, url, r, q);
  }

  /** The key of a printed template is that template filled in once: values are never read again as
      templates, whatever they contain. */
  lemma KeyIsOneSubstitution(fold: string -> string, t: Template, url: string, r: Option<Request>)
    requires WellFormed(t)
    ensures Filled(fold, Parse(Print(t)), url, r) == Filled(fold, t, url, r)
  {
    PrintedIsParsed(t);
  }
}
