/** servers/nginx/ngx_http_mesi_module.c, build_request_ctx_json: the tokenizer for Cookie headers. */
module CookieHeader {

  datatype Cookie = Cookie(name: string, value: string)

  predicate IsSeparator(c: char) {
    c == ' ' || c == ';' || c == '\t'
  }

  predicate IsBlank(c: char) {
    c == ' ' || c == '\t'
  }

  function DropSeparators(s: string): (r: string)
    ensures |r| <= |s| && (r != "" ==> !IsSeparator(r[0]))
  {
    if s != "" && IsSeparator(s[0]) then DropSeparators(s[1..]) else s
  }

  /** How many characters come before the first `stop` or `;`. */
  function UpTo(s: string, stop: char): (n: nat)
    ensures n <= |s|
    ensures n < |s| ==> s[n] == ';' || s[n] == stop
  {
    if s == "" || s[0] == ';' || s[0] == stop then 0 else 1 + UpTo(s[1..], stop)
  }

  function TrimRight(s: string): string {
    if s != "" && IsBlank(s[|s| - 1]) then TrimRight(s[..|s| - 1]) else s
  }

  function TrimLeft(s: string): string {
    if s != "" && IsBlank(s[0]) then TrimLeft(s[1..]) else s
  }

  function Trim(s: string): string {
    TrimLeft(TrimRight(s))
  }

  /** What reading one piece of a Cookie header finds: the end, something that is no name=value
      pair, or a cookie; and the text behind it. */
  datatype CookieStep = NoMore | Skipped(rest: string) | Found(cookie: Cookie, rest: string)

  /** Reads the piece that `s` starts with. */
  function FirstPiece(s: string): (r: CookieStep)
    requires s != "" && !IsSeparator(s[0])
    ensures !r.NoMore? && |r.rest| < |s|
  {
    var n := UpTo(s, '=');
    if n == |s| || s[n] != '=' then Skipped(s[n + UpTo(s[n..], ';')..])
    else PairUpTo(s, n, n + 1 + UpTo(s[n + 1..], ';'))
  }

  /** The name before `n` and the value from behind it up to `m`, blanks trimmed off; no name, no cookie. */
  function PairUpTo(s: string, n: nat, m: nat): (r: CookieStep)
    requires n < m <= |s|
    ensures !r.NoMore? && r.rest == s[m..]
  {
    var name := Trim(s[..n]);
    if name == "" then Skipped(s[m..]) else Found(Cookie(name, Trim(s[n + 1..m])), s[m..])
  }

  function NextCookie(v: string): (r: CookieStep)
    ensures !r.NoMore? ==> |r.rest| < |v|
  {
    var s := DropSeparators(v);
    if s == "" then NoMore else FirstPiece(s)
  }

  function Cookies(v: string): seq<Cookie>
    decreases |v|
  {
    match NextCookie(v)
    case NoMore => []
    case Skipped(rest) => Cookies(rest)
    case Found(c, rest) => [c] + Cookies(rest)
  }

  method SkipSeparators(s: string) returns (c: nat)
    ensures c <= |s| && DropSeparators(s) == s[c..]
  {
    c := 0;
    while c < |s| && (s[c] == ' ' || s[c] == ';' || s[c] == '\t')
      invariant c <= |s| && DropSeparators(s[c..]) == DropSeparators(s)
    {
      assert s[c..][1..] == s[c + 1..];
      c := c + 1;
    }
    assert c == |s| ==> s[c..] == "";
  }

  method SkipTo(s: string, pos: nat, stop: char) returns (c: nat)
    requires pos <= |s|
    ensures pos <= c <= |s| && c == pos + UpTo(s[pos..], stop)
  {
    c := pos;
    while c < |s| && s[c] != stop && s[c] != ';'
      invariant pos <= c <= |s| && c + UpTo(s[c..], stop) == pos + UpTo(s[pos..], stop)
    {
      assert s[c..][1..] == s[c + 1..];
      c := c + 1;
    }
  }

  method TrimBlanks(s: string) returns (r: string)
    ensures r == Trim(s)
  {
    var len := |s|;
    assert s[..len] == s;
    while len > 0 && (s[len - 1] == ' ' || s[len - 1] == '\t')
      invariant 0 <= len <= |s| && TrimRight(s[..len]) == TrimRight(s)
    {
      assert s[..len][..len - 1] == s[..len - 1];
      len := len - 1;
    }
    var start := 0;
    assert s[..len] == TrimRight(s) && s[0..len] == s[..len];
    while start < len && (s[start] == ' ' || s[start] == '\t')
      invariant 0 <= start <= len && TrimLeft(s[start..len]) == Trim(s)
    {
      assert s[start..len][1..] == s[start + 1..len];
      start := start + 1;
    }
    r := s[start..len];
  }

  /** Reads the name=value pair, if it is one, that `s` starts with. */
  method ReadPair(s: string) returns (step: CookieStep)
    requires s != "" && !IsSeparator(s[0])
    ensures step == FirstPiece(s)
  {
    hide Trim, UpTo, FirstPiece;
    assert s[0..] == s;
    var c := SkipTo(s, 0, '=');
    if c == |s| || s[c] != '=' {
      NoPair(s, c);
      c := SkipTo(s, c, ';');
      return Skipped(s[c..]);
    }
    var nameEnd := c;
    c := SkipTo(s, c + 1, ';');
    APair(s, nameEnd, c);
    var name := TrimBlanks(s[..nameEnd]);
    var value := TrimBlanks(s[nameEnd + 1..c]);
    if |name| == 0 {
      return Skipped(s[c..]);
    }
    return Found(Cookie(name, value), s[c..]);
  }

  lemma NoPair(s: string, n: nat)
    requires s != "" && !IsSeparator(s[0]) && n == UpTo(s, '=') && (n < |s| ==> s[n] != '=')
    ensures FirstPiece(s) == Skipped(s[n + UpTo(s[n..], ';')..])
  {
    hide UpTo;
  }

  lemma APair(s: string, n: nat, m: nat)
    requires s != "" && !IsSeparator(s[0]) && n == UpTo(s, '=') < |s| && s[n] == '='
    requires m == n + 1 + UpTo(s[n + 1..], ';')
    ensures FirstPiece(s) == PairUpTo(s, n, m)
  {
    hide UpTo, PairUpTo;
  }

  /** One round of the tokenizer both passes run on what is left of a header. */
  method ReadCookie(v: string) returns (step: CookieStep)
    ensures step == NextCookie(v)
  {
    hide FirstPiece;
    var c := SkipSeparators(v);
    if c == |v| {
      return NoMore;
    }
    step := ReadPair(v[c..]);
  }

  // ---- What the tokenizer means ----

  /** The pieces between semicolons. */
  function Pieces(v: string): (ps: seq<string>)
    ensures |ps| > 0
    decreases |v|
  {
    var n := UpTo(v, ';');
    if n == |v| then [v] else [v[..n]] + Pieces(v[n + 1..])
  }

  function FirstEquals(p: string): (n: nat)
    ensures n <= |p|
    ensures n < |p| ==> p[n] == '='
  {
    if p == "" || p[0] == '=' then 0 else 1 + FirstEquals(p[1..])
  }

  /** A piece is a cookie when it has `=` and, blanks trimmed off, a name before the first one. */
  function Pair(p: string): seq<Cookie> {
    var n := FirstEquals(p);
    if n == |p| || Trim(p[..n]) == "" then []
    else [Cookie(Trim(p[..n]), Trim(p[n + 1..]))]
  }

  function Pairs(ps: seq<string>): seq<Cookie> {
    if ps == [] then [] else Pair(ps[0]) + Pairs(ps[1..])
  }

  lemma {:induction false} TrimRightOfLeadingBlank(c: char, s: string)
    requires IsBlank(c)
    ensures TrimRight([c] + s) == if TrimRight(s) == "" then "" else [c] + TrimRight(s)
  {
    if s == "" {
      assert [c] + s == [c];
      assert [c][..0] == "";
    } else {
      assert ([c] + s)[..|s|] == [c] + s[..|s| - 1];
      assert ([c] + s)[|s|] == s[|s| - 1];
      TrimRightOfLeadingBlank(c, s[..|s| - 1]);
    }
  }

  lemma TrimIgnoresLeadingBlank(s: string)
    requires s != "" && IsBlank(s[0])
    ensures Trim(s) == Trim(s[1..])
  {
    assert s == [s[0]] + s[1..];
    TrimRightOfLeadingBlank(s[0], s[1..]);
  }

  lemma PairIgnoresLeadingBlank(p: string)
    requires p != "" && IsBlank(p[0])
    ensures Pair(p) == Pair(p[1..])
  {
    hide Trim;
    var n := FirstEquals(p[1..]);
    assert FirstEquals(p) == n + 1;
    assert p[..n + 1][1..] == p[1..][..n];
    TrimIgnoresLeadingBlank(p[..n + 1]);
    if n < |p[1..]| {
      assert p[n + 2..] == p[1..][n + 1..];
    }
  }

  /** A leading separator changes nothing. */
  lemma PairsIgnoreSeparator(v: string)
    requires v != "" && IsSeparator(v[0])
    ensures Pairs(Pieces(v)) == Pairs(Pieces(v[1..]))
  {
    hide Pair;
    if v[0] == ';' {
      assert v[..0] == "";
      assert Pieces(v) == [""] + Pieces(v[1..]);
      assert Pair("") == [] by { EmptyPiece(); }
    } else {
      var n := UpTo(v[1..], ';');
      assert UpTo(v, ';') == n + 1;
      assert v[..n + 1][1..] == v[1..][..n];
      PairIgnoresLeadingBlank(v[..n + 1]);
      if n == |v[1..]| {
        assert v[..n + 1] == v && v[1..][..n] == v[1..];
      } else {
        assert v[n + 2..] == v[1..][n + 1..];
      }
    }
  }

  lemma EmptyPiece()
    ensures Pair("") == []
  {
  }

  /** The first `=` or `;` and the first `;` against the first `=` of the piece. */
  lemma {:induction false} PieceEnds(s: string)
    ensures var n := UpTo(s, '='); var m := UpTo(s, ';');
            n <= m && (n < m <==> n < |s| && s[n] == '=') && m == n + UpTo(s[n..], ';')
  {
    if s == "" || s[0] == ';' || s[0] == '=' {
      assert s[0..] == s;
    } else {
      PieceEnds(s[1..]);
      var n := UpTo(s[1..], '=');
      assert s[1..][n..] == s[n + 1..];
    }
  }

  lemma {:induction false} FirstEqualsOfPiece(s: string)
    ensures FirstEquals(s[..UpTo(s, ';')]) == UpTo(s, '=') <= UpTo(s, ';')
  {
    if s != "" && s[0] != ';' && s[0] != '=' {
      FirstEqualsOfPiece(s[1..]);
      var m := UpTo(s[1..], ';');
      assert s[..m + 1][1..] == s[1..][..m];
    }
  }

  lemma OneStep(s: string)
    requires s != "" && s[0] == '='
    ensures UpTo(s, ';') == 1 + UpTo(s[1..], ';')
  {
  }

  lemma FirstPieceIsPair(s: string)
    requires s != "" && !IsSeparator(s[0])
    ensures var m := UpTo(s, ';'); var r := FirstPiece(s);
            r.rest == s[m..] && Pair(s[..m]) == if r.Found? then [r.cookie] else []
  {
    hide FirstPiece, Pair, FirstEquals;
    PieceEnds(s);
    FirstEqualsOfPiece(s);
    if UpTo(s, '=') < UpTo(s, ';') {
      PieceWithEquals(s, UpTo(s, '='), UpTo(s, ';'));
    } else {
      PieceWithoutEquals(s, UpTo(s, '='));
    }
  }

  lemma PieceWithoutEquals(s: string, m: nat)
    requires s != "" && !IsSeparator(s[0]) && m == UpTo(s, '=') == UpTo(s, ';') && (m < |s| ==> s[m] != '=')
    requires FirstEquals(s[..m]) == m && UpTo(s[m..], ';') == 0
    ensures FirstPiece(s) == Skipped(s[m..]) && Pair(s[..m]) == []
  {
    hide UpTo, FirstEquals;
  }

  lemma PieceWithEquals(s: string, n: nat, m: nat)
    requires s != "" && !IsSeparator(s[0]) && n == UpTo(s, '=') < m == UpTo(s, ';') && s[n] == '='
    requires FirstEquals(s[..m]) == n && m == n + UpTo(s[n..], ';')
    ensures var r := FirstPiece(s);
            r.rest == s[m..] && Pair(s[..m]) == if r.Found? then [r.cookie] else []
  {
    hide UpTo, FirstPiece, Pair, FirstEquals;
    OneStep(s[n..]);
    assert s[n..][1..] == s[n + 1..];
    APair(s, n, m);
    PairOfPiece(s, n, m);
  }

  lemma PairOfPiece(s: string, n: nat, m: nat)
    requires n < m <= |s| && FirstEquals(s[..m]) == n
    ensures var r := PairUpTo(s, n, m);
            Pair(s[..m]) == if r.Found? then [r.cookie] else []
  {
    hide Trim, FirstEquals;
    assert s[..m][..n] == s[..n] && s[..m][n + 1..] == s[n + 1..m];
  }

  /** The tokenizer finds what splitting at semicolons and then at the first `=` gives. */
  lemma {:induction false} CookiesAreThePairs(v: string)
    ensures Cookies(v) == Pairs(Pieces(v))
    decreases |v|
  {
    hide Pair, FirstPiece, UpTo;
    if v == "" {
      EmptyPiece();
      assert Pieces(v) == [""];
    } else if IsSeparator(v[0]) {
      PairsIgnoreSeparator(v);
      CookiesAreThePairs(v[1..]);
      assert NextCookie(v) == NextCookie(v[1..]);
    } else {
      FirstPieceIsPair(v);
      var m := UpTo(v, ';');
      var rest := v[m..];
      CookiesAreThePairs(rest);
      if m == |v| {
        assert v[..m] == v && rest == "";
        EmptyPiece();
        assert Pieces(v) == [v] && Pieces(rest) == [""];
      } else {
        assert rest[1..] == v[m + 1..];
        PairsIgnoreSeparator(rest);
        assert Pieces(v)[1..] == Pieces(v[m + 1..]);
      }
    }
  }
}
