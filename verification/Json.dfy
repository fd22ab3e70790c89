/** servers/nginx/ngx_http_mesi_module.c: JSON string literals, measured and then written.
    A `char` stands for one byte. */
module Json {

  function HexDigit(n: int): char
    requires 0 <= n < 16
  {
    if n < 10 then ('0' as int + n) as char else ('a' as int + n - 10) as char
  }

  /** The bytes one byte is written as. */
  function EscapeChar(c: char): (r: string)
    ensures 1 <= |r| <= 6
  {
    if c == '"' || c == '\\' then ['\\', c]
    else if c < 32 as char then
      ['\\', 'u', '0', '0', HexDigit(c as int / 16), HexDigit(c as int % 16)]
    else [c]
  }

  function Escape(s: string): string {
    if s == "" then "" else EscapeChar(s[0]) + Escape(s[1..])
  }

  function Literal(s: string): string {
    "\"" + Escape(s) + "\""
  }

  lemma {:induction false} EscapeSnoc(s: string, c: char)
    ensures Escape(s + [c]) == Escape(s) + EscapeChar(c)
  {
    if s == "" {
      assert ([c])[1..] == "";
      assert s + [c] == [c];
    } else {
      assert (s + [c])[1..] == s[1..] + [c];
      EscapeSnoc(s[1..], c);
    }
  }

  method EscapedLen(s: string) returns (n: nat)
    ensures n == |Escape(s)|
  {
    n := 0;
    for i := 0 to |s|
      invariant n == |Escape(s[..i])|
    {
      assert s[..i + 1] == s[..i] + [s[i]];
      EscapeSnoc(s[..i], s[i]);
      if s[i] == '"' || s[i] == '\\' {
        n := n + 2;
      } else if s[i] < 32 as char {
        n := n + 6;
      } else {
        n := n + 1;
      }
    }
    assert s[..|s|] == s;
  }

  /** Writes `text` at `w`; there must be room. */
  method Put(buf: array<char>, w: nat, text: string) returns (next: nat)
    requires w + |text| <= buf.Length
    modifies buf
    ensures next == w + |text| && buf[..next] == old(buf[..w]) + text
  {
    ghost var before := buf[..w];
    for i := 0 to |text|
      invariant buf[..w + i] == before + text[..i]
    {
      buf[w + i] := text[i];
      assert buf[..w + i + 1] == buf[..w + i] + [text[i]];
    }
    next := w + |text|;
  }

  /** One round of the writing loop. */
  method WriteChar(buf: array<char>, w: nat, c: char) returns (next: nat)
    requires w + |EscapeChar(c)| <= buf.Length
    modifies buf
    ensures next == w + |EscapeChar(c)| && buf[..next] == old(buf[..w]) + EscapeChar(c)
  {
    if c == '"' || c == '\\' {
      next := Put(buf, w, ['\\', c]);
    } else if c < 32 as char {
      next := Put(buf, w, ['\\', 'u', '0', '0', HexDigit(c as int / 16), HexDigit(c as int % 16)]);
    } else {
      next := Put(buf, w, [c]);
    }
  }

  lemma {:induction false} EscapeSplit(s: string, i: nat)
    requires i < |s|
    ensures Escape(s[..i + 1]) == Escape(s[..i]) + EscapeChar(s[i])
    ensures |Escape(s[..i + 1])| <= |Escape(s)|
    decreases |s| - i
  {
    hide EscapeChar;
    assert s[..i + 1] == s[..i] + [s[i]];
    EscapeSnoc(s[..i], s[i]);
    if i + 1 < |s| {
      EscapeSplit(s, i + 1);
    } else {
      assert s[..i + 1] == s;
    }
  }

  method WriteEscaped(buf: array<char>, w: nat, s: string) returns (next: nat)
    requires w + |Escape(s)| <= buf.Length
    modifies buf
    ensures next == w + |Escape(s)| && buf[..next] == old(buf[..w]) + Escape(s)
  {
    hide EscapeChar, Escape;
    ghost var before := buf[..w];
    next := w;
    EscapeNothing();
    assert s[..0] == "" && before + "" == before;
    for i := 0 to |s|
      invariant next == w + |Escape(s[..i])| <= buf.Length
      invariant buf[..next] == before + Escape(s[..i])
    {
      EscapeSplit(s, i);
      next := WriteChar(buf, next, s[i]);
    }
    assert s[..|s|] == s;
  }

  lemma EscapeNothing()
    ensures Escape("") == ""
  {
  }

  method AppendStr(buf: array<char>, w: nat, s: string) returns (next: nat)
    requires w + |Literal(s)| <= buf.Length
    modifies buf
    ensures next == w + |Literal(s)| && buf[..next] == old(buf[..w]) + Literal(s)
  {
    ghost var before := buf[..w];
    next := Put(buf, w, "\"");
    next := WriteEscaped(buf, next, s);
    next := Put(buf, next, "\"");
    assert before + "\"" + Escape(s) + "\"" == before + Literal(s);
  }

  // ---- UTF-8 ----

  predicate IsByteIn(c: char, low: int, high: int) {
    low <= c as int <= high
  }

  /** The length of the UTF-8 sequence of two to four bytes that `t` starts with; 0 if it starts with none. */
  function RuneLen(t: string): (n: nat)
    requires t != ""
    ensures n <= |t| && n != 1
    ensures forall i :: 0 <= i < n ==> t[i] >= 128 as char
  {
    var a := t[0] as int;
    if 0xC2 <= a <= 0xDF then
      if |t| >= 2 && IsByteIn(t[1], 0x80, 0xBF) then 2 else 0
    else if 0xE0 <= a <= 0xEF then
      if |t| >= 3 && IsByteIn(t[1], if a == 0xE0 then 0xA0 else 0x80, if a == 0xED then 0x9F else 0xBF)
         && IsByteIn(t[2], 0x80, 0xBF) then 3 else 0
    else if 0xF0 <= a <= 0xF4 then
      if |t| >= 4 && IsByteIn(t[1], if a == 0xF0 then 0x90 else 0x80, if a == 0xF4 then 0x8F else 0xBF)
         && IsByteIn(t[2], 0x80, 0xBF) && IsByteIn(t[3], 0x80, 0xBF) then 4 else 0
    else 0
  }

  /** How many bytes `t` starts with that belong together: an ASCII byte, a sequence, or a stray byte. */
  function Width(t: string): (n: nat)
    requires t != ""
    ensures 1 <= n <= |t|
  {
    if t[0] < 128 as char || RuneLen(t) == 0 then 1 else RuneLen(t)
  }

  predicate StartsWell(t: string)
    requires t != ""
  {
    t[0] < 128 as char || RuneLen(t) > 0
  }

  predicate IsUtf8(s: string) {
    s == "" || (StartsWell(s) && IsUtf8(s[Width(s)..]))
  }

  /** U+FFFD, which Go puts for every stray byte. */
  const REPLACEMENT: string := [0xEF as char, 0xBF as char, 0xBD as char]

  function Sanitized(s: string): string {
    if s == "" then ""
    else (if StartsWell(s) then s[..Width(s)] else REPLACEMENT) + Sanitized(s[Width(s)..])
  }

  lemma {:induction false} SanitizedGrows(s: string)
    ensures |Sanitized(s)| >= |s| && (|Sanitized(s)| == |s| <==> IsUtf8(s))
    ensures IsUtf8(s) ==> Sanitized(s) == s
    decreases |s|
  {
    hide StartsWell, Width;
    if s != "" {
      SanitizedGrows(s[Width(s)..]);
      assert s == s[..Width(s)] + s[Width(s)..];
      StrayIsOne(s);
    }
  }

  lemma StrayIsOne(s: string)
    requires s != ""
    ensures !StartsWell(s) ==> Width(s) == 1
  {
  }

  // ---- Reading a literal back, as encoding/json does (section 7 of RFC 8259) ----

  datatype Read = Bad | Read(value: string, rest: string)

  function HexValue(c: char): int {
    if '0' <= c <= '9' then c as int - '0' as int
    else if 'a' <= c <= 'f' then c as int - 'a' as int + 10
    else if 'A' <= c <= 'F' then c as int - 'A' as int + 10
    else -1
  }

  /** The value of `\uXXXX` at the front of `t`, or -1. */
  function Hex4(t: string): (v: int)
    ensures -1 <= v < 0x1_0000
    ensures v >= 0 ==> |t| >= 6
  {
    if |t| < 6 || t[0] != '\\' || t[1] != 'u' || HexValue(t[2]) < 0 || HexValue(t[3]) < 0
       || HexValue(t[4]) < 0 || HexValue(t[5]) < 0 then -1
    else HexValue(t[2]) * 4096 + HexValue(t[3]) * 256 + HexValue(t[4]) * 16 + HexValue(t[5])
  }

  /** A code point in UTF-8. */
  function EncodeRune(v: int): string
    requires 0 <= v < 0x11_0000
  {
    if v < 0x80 then [v as char]
    else if v < 0x800 then [(0xC0 + v / 64) as char, (0x80 + v % 64) as char]
    else if v < 0x1_0000 then
      [(0xE0 + v / 4096) as char, (0x80 + v / 64 % 64) as char, (0x80 + v % 64) as char]
    else
      [(0xF0 + v / 262144) as char, (0x80 + v / 4096 % 64) as char, (0x80 + v / 64 % 64) as char,
        (0x80 + v % 64) as char]
  }

  /** `\uXXXX`, or two of them that are a surrogate pair; a lone surrogate is replaced. */
  function ReadUnicode(t: string): (r: Read)
    ensures r.Read? ==> |r.rest| < |t|
  {
    var v := Hex4(t);
    if v < 0 then Bad
    else if v < 0xD800 || v > 0xDFFF then Read(EncodeRune(v), t[6..])
    else
      var w := Hex4(t[6..]);
      if v < 0xDC00 && 0xDC00 <= w <= 0xDFFF then
        Read(EncodeRune(0x1_0000 + (v - 0xD800) * 1024 + (w - 0xDC00)), t[12..])
      else Read(REPLACEMENT, t[6..])
  }

  function ReadEscape(t: string): (r: Read)
    requires |t| >= 2 && t[0] == '\\'
    ensures r.Read? ==> |r.rest| < |t|
  {
    if t[1] == '"' || t[1] == '\\' || t[1] == '/' then Read([t[1]], t[2..])
    else if t[1] == 'b' then Read([8 as char], t[2..])
    else if t[1] == 'f' then Read([12 as char], t[2..])
    else if t[1] == 'n' then Read([10 as char], t[2..])
    else if t[1] == 'r' then Read([13 as char], t[2..])
    else if t[1] == 't' then Read([9 as char], t[2..])
    else ReadUnicode(t)
  }

  /** One character of a string body and the text behind it; a stray byte is replaced. */
  function ReadChar(t: string): (r: Read)
    ensures r.Read? ==> |r.rest| < |t|
  {
    if t == "" || t[0] < 32 as char || t[0] == '"' then Bad
    else if t[0] == '\\' then (if |t| < 2 then Bad else ReadEscape(t))
    else Read(if StartsWell(t) then t[..Width(t)] else REPLACEMENT, t[Width(t)..])
  }

  /** A string body up to its closing quote. */
  function ReadBody(t: string): (r: Read)
    ensures r.Read? ==> |r.rest| < |t|
    decreases |t|
  {
    if t != "" && t[0] == '"' then Read("", t[1..])
    else
      match ReadChar(t)
      case Bad => Bad
      case Read(c, rest) =>
        match ReadBody(rest)
        case Bad => Bad
        case Read(more, after) => Read(c + more, after)
  }

  function ReadLiteral(t: string): (r: Read)
    ensures r.Read? ==> |r.rest| < |t|
  {
    if t == "" || t[0] != '"' then Bad else ReadBody(t[1..])
  }

  lemma HexIsReadBack(n: int)
    requires 0 <= n < 16
    ensures HexValue(HexDigit(n)) == n
  {
  }

  lemma CharIsReadBack(c: char, t: string)
    requires c < 128 as char
    ensures ReadChar(EscapeChar(c) + t) == Read([c], t)
    ensures EscapeChar(c)[0] != '"'
  {
    var e := EscapeChar(c) + t;
    assert e[|EscapeChar(c)|..] == t;
    if c < 32 as char {
      HexIsReadBack(c as int / 16);
      HexIsReadBack(c as int % 16);
      assert Hex4(e) == c as int;
    }
  }

  /** Bytes from 128 on are written as they are, everything else starts with a smaller byte: what looks like a
      sequence in the written text is one in the source. */
  lemma {:induction false} HighBytesStay(s: string, q: string, m: nat)
    requires q != "" && q[0] < 128 as char && m <= |Escape(s) + q|
    requires forall i :: 0 <= i < m ==> (Escape(s) + q)[i] >= 128 as char
    ensures m <= |s| && s[..m] == (Escape(s) + q)[..m]
    decreases m
  {
    if m > 0 {
      var u := Escape(s) + q;
      assert s == "" ==> u == q;
      assert s != "" && s[0] >= 128 as char by {
        if s != "" { assert u[0] == EscapeChar(s[0])[0]; }
      }
      assert Escape(s) == [s[0]] + Escape(s[1..]);
      assert u[1..] == Escape(s[1..]) + q;
      assert forall i :: 0 <= i < m - 1 ==> u[1..][i] == u[i + 1];
      HighBytesStay(s[1..], q, m - 1);
      assert s[..m] == [s[0]] + s[1..][..m - 1];
      assert u[..m] == [u[0]] + u[1..][..m - 1];
    }
  }

  lemma {:induction false} HighBytesAreWritten(s: string, m: nat)
    requires m <= |s| && forall i :: 0 <= i < m ==> s[i] >= 128 as char
    ensures Escape(s) == s[..m] + Escape(s[m..])
    decreases m
  {
    hide Escape;
    if m == 0 {
      assert s[0..] == s;
    } else {
      EscapeHigh(s);
      assert forall i :: 0 <= i < m - 1 ==> s[1..][i] == s[i + 1];
      HighBytesAreWritten(s[1..], m - 1);
      assert s[1..][m - 1..] == s[m..];
      assert s[..m] == [s[0]] + s[1..][..m - 1];
    }
  }

  lemma EscapeHigh(s: string)
    requires s != "" && s[0] >= 128 as char
    ensures Escape(s) == [s[0]] + Escape(s[1..])
  {
  }

  lemma SameRune(s: string, u: string)
    requires s != "" && u != "" && s[0] == u[0]
    requires RuneLen(s) <= |u| && s[..RuneLen(s)] == u[..RuneLen(s)]
    ensures RuneLen(s) > 0 ==> RuneLen(u) == RuneLen(s)
  {
    var n := RuneLen(s);
    assert forall i :: 0 <= i < n ==> s[i] == s[..n][i] == u[..n][i] == u[i];
  }

  /** Escaping keeps sequences together and stray bytes apart. */
  lemma RunesSurvive(s: string, q: string)
    requires s != "" && s[0] >= 128 as char && q != "" && q[0] < 128 as char
    ensures var u := Escape(s) + q;
            u != "" && u[0] == s[0] && StartsWell(u) == StartsWell(s) && Width(u) == Width(s)
            && u[..Width(s)] == s[..Width(s)] && u[Width(s)..] == Escape(s[Width(s)..]) + q
  {
    hide Escape, EscapeChar, IsByteIn;
    var n, u := RuneLen(s), Escape(s) + q;
    FirstIsHigh(s);
    EscapeHigh(s);
    HighBytesAreWritten(s, Width(s));
    if n > 0 {
      SameRune(s, u);
    } else {
      HighBytesStay(s, q, RuneLen(u));
      if RuneLen(u) > 0 { SameRune(u, s); }
    }
  }

  lemma FirstIsHigh(s: string)
    requires s != "" && s[0] >= 128 as char
    ensures forall i :: 0 <= i < Width(s) ==> s[i] >= 128 as char
  {
  }

  lemma {:induction false} BodyIsReadBack(s: string, t: string)
    ensures ReadBody(Escape(s) + ("\"" + t)) == Read(Sanitized(s), t)
    decreases |s|
  {
    hide EscapeChar, ReadChar, StartsWell, Width;
    var q := "\"" + t;
    if s == "" {
      assert Escape(s) + q == q;
    } else {
      var n := Width(s);
      var more := Escape(s[n..]) + q;
      BodyIsReadBack(s[n..], t);
      OneIsReadBack(s, q);
    }
  }

  /** Reading one character of a written body. */
  lemma OneIsReadBack(s: string, q: string)
    requires s != "" && q != "" && q[0] < 128 as char
    ensures var u := Escape(s) + q;
            u != "" && u[0] != '"' &&
            ReadChar(u) == Read(if StartsWell(s) then s[..Width(s)] else REPLACEMENT, Escape(s[Width(s)..]) + q)
  {
    hide EscapeChar, RuneLen;
    if s[0] < 128 as char {
      assert Escape(s) + q == EscapeChar(s[0]) + (Escape(s[1..]) + q);
      CharIsReadBack(s[0], Escape(s[1..]) + q);
      assert s[..1] == [s[0]];
    } else {
      RunesSurvive(s, q);
    }
  }

  /** A literal decodes to the bytes it was made of with every stray byte replaced, whatever text follows it:
      to those bytes themselves exactly if they are UTF-8. */
  lemma {:induction false} LiteralIsReadBack(s: string, t: string)
    ensures ReadLiteral(Literal(s) + t) == Read(Sanitized(s), t)
    ensures ReadLiteral(Literal(s) + t) == Read(s, t) <==> IsUtf8(s)
  {
    hide Escape, ReadBody, Sanitized, IsUtf8;
    assert Literal(s) + t == "\"" + (Escape(s) + ("\"" + t));
    BodyIsReadBack(s, t);
    SanitizedGrows(s);
  }
}
