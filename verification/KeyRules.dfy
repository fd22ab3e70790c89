/** mesi/cache_key_template.go: what the placeholders of a cache key stand for, told from the request itself. */
module KeyRules {
  import opened Options
  import opened Strings
  import opened CookieHeader
  import opened CacheKey

  // ---- Names ----

  /** Digits, letters and fifteen marks, by their codes (section 3.2.6 of RFC 7230). */
  predicate IsTchar(c: char) {
    || 48 <= c as int <= 57 || 65 <= c as int <= 90 || 97 <= c as int <= 122
    || c as int in {33, 35, 36, 37, 38, 39, 42, 43, 45, 46, 94, 95, 96, 124, 126}
  }

  lemma TokenCharsAre(c: char)
    ensures IsTokenChar(c) <==> IsTchar(c)
  {
    var marks := "!#$%&'*+-.^_`|~";
    assert |marks| == 15 && marks[0] == 33 as char && marks[1] == 35 as char && marks[2] == 36 as char;
    assert marks[3] == 37 as char && marks[4] == 38 as char && marks[5] == 39 as char && marks[6] == 42 as char;
    assert marks[7] == 43 as char && marks[8] == 45 as char && marks[9] == 46 as char && marks[10] == 94 as char;
    assert marks[11] == 95 as char && marks[12] == 96 as char && marks[13] == 124 as char && marks[14] == 126 as char;
  }

  /** In a canonical name the letters at the start and behind a dash are upper case and all others lower case; a name
      with any other character than those of a token stays as it is. */
  lemma CanonicalSpelling(name: string)
    ensures |Canonical(name)| == |name|
    ensures (exists i :: 0 <= i < |name| && !IsTchar(name[i])) ==> Canonical(name) == name
    ensures (forall i :: 0 <= i < |name| ==> IsTchar(name[i])) ==>
              forall i :: 0 <= i < |name| ==>
                Canonical(name)[i] == if i == 0 || name[i - 1] == '-' then ToUpper(name[i]) else ToLower(name[i])
  {
    hide IsTokenChar, IsTchar;
    forall i | 0 <= i < |name| ensures IsTokenChar(name[i]) <==> IsTchar(name[i]) { TokenCharsAre(name[i]); }
    CapitalisedSpelling(name, true);
    assert (forall i :: 0 <= i < |name| ==> IsTokenChar(name[i])) ==> Canonical(name) == Capitalised(name, true);
    assert (exists i :: 0 <= i < |name| && !IsTokenChar(name[i])) ==> Canonical(name) == name;
  }

  function ToUpper(c: char): char {
    if 97 <= c as int <= 122 then (c as int - 32) as char else c
  }

  function ToLower(c: char): char {
    if 65 <= c as int <= 90 then (c as int + 32) as char else c
  }

  lemma {:induction false} CapitalisedSpelling(s: string, upper: bool)
    ensures |Capitalised(s, upper)| == |s|
    ensures forall i :: 0 <= i < |s| ==> Capitalised(s, upper)[i] == Spelled(s, upper, i)
  {
    hide ToUpper, ToLower;
    if s != "" {
      var t := s[1..];
      CapitalisedSpelling(t, s[0] == '-');
      forall i | 0 <= i < |s| ensures Capitalised(s, upper)[i] == Spelled(s, upper, i) {
        if i == 0 {
          CasesAgree(s[0]);
        } else {
          assert Capitalised(s, upper)[i] == Capitalised(t, s[0] == '-')[i - 1] == Spelled(t, s[0] == '-', i - 1);
          assert s[i] == t[i - 1] && (i > 1 ==> s[i - 1] == t[i - 2]);
        }
      }
    }
  }

  function Spelled(s: string, upper: bool, i: nat): char
    requires i < |s|
  {
    if (if i == 0 then upper else s[i - 1] == '-') then ToUpper(s[i]) else ToLower(s[i])
  }

  lemma CasesAgree(c: char)
    ensures UpperChar(c) == ToUpper(c) && LowerChar(c) == ToLower(c)
  {
  }

  // ---- Values ----

  /** A key that differs from `name` only in case and comes before every other such key in byte order. */
  ghost predicate IsLeastSpelling(
    fold: string -> string, headers: map<string, seq<string>>, name: string, key: string) {
    && key in headers && fold(key) == fold(name)
    && forall k :: k in headers && fold(k) == fold(name) && k != key ==> Before(key, k)
  }

  /** A header's value is the first one under its canonical spelling; if there is none, under the spelling asked for;
      if there is none either, under the least of all spellings, which may have none. No name, no value. */
  lemma HeaderRule(fold: string -> string, headers: map<string, seq<string>>, name: string)
    ensures
      var value := HeaderValue(fold, headers, name);
      if name == "" then value == None
      else if Canonical(name) in headers && headers[Canonical(name)] != [] then
        value == Some(headers[Canonical(name)][0])
      else if name in headers && headers[name] != [] then value == Some(headers[name][0])
      else
        && (forall key :: IsLeastSpelling(fold, headers, name, key) ==>
              value == if headers[key] != [] then Some(headers[key][0]) else None)
        && ((forall key :: key in headers ==> fold(key) != fold(name)) ==> value == None)
  {
    hide Canonical;
    if name != "" && FirstOf(headers, Canonical(name)).None? && FirstOf(headers, name).None? {
      forall key | IsLeastSpelling(fold, headers, name, key)
        ensures HeaderValue(fold, headers, name) == if headers[key] != [] then Some(headers[key][0]) else None
      {
        LeastKeyAnswers(fold, headers, name, key);
      }
    }
  }

  /** A cookie's value is that of the first cookie of exactly this name; if there is none, that of the first one of the
      least name that differs only in case. */
  lemma CookieRule(fold: string -> string, cookies: seq<Cookie>, name: string, i: nat)
    requires name != "" && i < |cookies|
    ensures cookies[i].name == name && (forall j :: 0 <= j < i ==> cookies[j].name != name) ==>
              CookieValue(fold, cookies, name) == Some(cookies[i].value)
    ensures
      (forall j :: 0 <= j < |cookies| ==> cookies[j].name != name)
      && fold(cookies[i].name) == fold(name)
      && (forall j :: 0 <= j < |cookies| && fold(cookies[j].name) == fold(name) ==>
            Before(cookies[i].name, cookies[j].name) || (cookies[i].name == cookies[j].name && i <= j)) ==>
              CookieValue(fold, cookies, name) == Some(cookies[i].value)
  {
    if IsFirstCookie(cookies, name, i) { FirstCookieAnswers(fold, cookies, name, i); }
    if IsLeastCookie(fold, cookies, name, i) && forall j :: 0 <= j < |cookies| ==> cookies[j].name != name {
      LeastCookieAnswers(fold, cookies, name, i);
    }
  }

  /** And none if no name is the same but for case, or if the name asked for is empty. */
  lemma NoCookieRule(fold: string -> string, cookies: seq<Cookie>, name: string)
    requires name == "" || forall j :: 0 <= j < |cookies| ==> fold(cookies[j].name) != fold(name)
    ensures CookieValue(fold, cookies, name) == None
  {
    if name != "" { NoCookieAnswers(fold, cookies, name); }
  }

  /** A placeholder with the prefix `header:` stands for a header of the request, one with `cookie:` for a cookie, and
      `url` for the address; without a request, and with anything else, it stands for nothing. */
  lemma PlaceholderRule(
    fold: string -> string, url: string, name: string, headers: map<string, seq<string>>, cookies: seq<Cookie>)
    ensures
      var r := Some(Request(headers, cookies));
      && Value(fold, url, "header:" + name, r) == HeaderValue(fold, headers, name)
      && Value(fold, url, "cookie:" + name, r) == CookieValue(fold, cookies, name)
      && Value(fold, url, "url", r) == Value(fold, url, "url", None) == Some(url)
      && Value(fold, url, "header:" + name, None) == Value(fold, url, "cookie:" + name, None) == None
      && (name != "url" && !("header:" <= name) && !("cookie:" <= name) ==>
            Value(fold, url, name, r) == Value(fold, url, name, None) == None)
  {
    hide HeaderValue, CookieValue;
    assert ("header:" + name)[7..] == name && ("cookie:" + name)[7..] == name;
    assert ("header:" + name)[0] == 'h' && ("cookie:" + name)[0] == 'c';
  }

  /** The key of a template that is one placeholder is what that stands for, or the placeholder. */
  lemma OnePlaceholder(fold: string -> string, url: string, body: string, r: Option<Request>)
    requires '}' !in body
    ensures Filled(fold, Parse("${" + body + "}"), url, r)
         == if Value(fold, url, body, r).Some? then Value(fold, url, body, r).value else "${" + body + "}"
  {
    hide Value, Index;
    var t := Hole("", body, Plain(""));
    assert Print(t) == "${" + body + "}";
    NothingOpens();
    PrintedIsParsed(t);
    assert Filled(fold, Plain(""), url, r) == "";
  }

  lemma NothingOpens()
    ensures NoOpener("")
  {
  }
}
