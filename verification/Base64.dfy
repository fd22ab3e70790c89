/** The base64 encoding encoding/json uses for byte slices (section 4 of RFC 4648). */
module Base64 {

  predicate IsBytes(s: string) {
    forall i :: 0 <= i < |s| ==> s[i] < 256 as char
  }

  function Sextet(n: int): (c: char)
    requires 0 <= n < 64
  {
    if n < 26 then ('A' as int + n) as char
    else if n < 52 then ('a' as int + n - 26) as char
    else if n < 62 then ('0' as int + n - 52) as char
    else if n == 62 then '+' else '/'
  }

  function ValueOf(c: char): int {
    if 'A' <= c <= 'Z' then c as int - 'A' as int
    else if 'a' <= c <= 'z' then c as int - 'a' as int + 26
    else if '0' <= c <= '9' then c as int - '0' as int + 52
    else if c == '+' then 62 else 63
  }

  predicate InAlphabet(c: char) {
    'A' <= c <= 'Z' || 'a' <= c <= 'z' || '0' <= c <= '9' || c == '+' || c == '/' || c == '='
  }

  lemma SextetValue(n: int)
    requires 0 <= n < 64
    ensures ValueOf(Sextet(n)) == n && InAlphabet(Sextet(n)) && Sextet(n) != '='
  {
  }

  function Encode(s: string): string
    requires IsBytes(s)
  {
    if s == "" then ""
    else
      var a := s[0] as int;
      if |s| == 1 then [Sextet(a / 4), Sextet(a % 4 * 16), '=', '=']
      else
        var b := s[1] as int;
        if |s| == 2 then [Sextet(a / 4), Sextet(a % 4 * 16 + b / 16), Sextet(b % 16 * 4), '=']
        else
          var c := s[2] as int;
          [Sextet(a / 4), Sextet(a % 4 * 16 + b / 16), Sextet(b % 16 * 4 + c / 64), Sextet(c % 64)] + Encode(s[3..])
  }

  /** Undoes `Encode`; texts it cannot have made come out as they may. */
  function Decode(t: string): string {
    if |t| < 4 then ""
    else
      var w, x, y, z := ValueOf(t[0]), ValueOf(t[1]), ValueOf(t[2]), ValueOf(t[3]);
      var a, b, c := Byte(w * 4 + x / 16), Byte(x % 16 * 16 + y / 4), Byte(y % 4 * 64 + z);
      if t[2] == '=' then [a]
      else if t[3] == '=' then [a, b]
      else [a, b, c] + Decode(t[4..])
  }

  function Byte(n: int): char {
    (n % 256) as char
  }

  lemma Group(a: int, b: int, c: int)
    requires 0 <= a < 256 && 0 <= b < 256 && 0 <= c < 256
    ensures
      var w, x, y, z := a / 4, a % 4 * 16 + b / 16, b % 16 * 4 + c / 64, c % 64;
      && 0 <= w < 64 && 0 <= x < 64 && 0 <= y < 64 && 0 <= z < 64
      && w * 4 + x / 16 == a && x % 16 * 16 + y / 4 == b && y % 4 * 64 + z == c
  {
  }

  /** Decoding one group of four characters that stand for three bytes. */
  lemma DecodeGroup(w: int, x: int, y: int, z: int, more: string)
    requires 0 <= w < 64 && 0 <= x < 64 && 0 <= y < 64 && 0 <= z < 64
    ensures Decode([Sextet(w), Sextet(x), Sextet(y), Sextet(z)] + more)
         == [Byte(w * 4 + x / 16), Byte(x % 16 * 16 + y / 4), Byte(y % 4 * 64 + z)] + Decode(more)
    ensures Decode([Sextet(w), Sextet(x), Sextet(y), '=']) == [Byte(w * 4 + x / 16), Byte(x % 16 * 16 + y / 4)]
    ensures Decode([Sextet(w), Sextet(x), '=', '=']) == [Byte(w * 4 + x / 16)]
  {
    hide Sextet, ValueOf, InAlphabet, Byte;
    SextetValue(w);
    SextetValue(x);
    SextetValue(y);
    SextetValue(z);
    var t := [Sextet(w), Sextet(x), Sextet(y), Sextet(z)] + more;
    assert t[4..] == more;
  }

  lemma BytesOf(s: string, i: nat)
    requires IsBytes(s) && i < |s|
    ensures 0 <= s[i] as int < 256 && Byte(s[i] as int) == s[i]
  {
  }

  lemma {:induction false} EncodeInAlphabet(s: string)
    requires IsBytes(s)
    ensures forall i :: 0 <= i < |Encode(s)| ==> InAlphabet(Encode(s)[i])
  {
    hide Sextet, ValueOf, InAlphabet;
    forall n | 0 <= n < 64 ensures InAlphabet(Sextet(n)) { SextetValue(n); }
    PadIsAllowed();
    if |s| > 2 { EncodeInAlphabet(s[3..]); }
  }

  /** Decoding gives back every byte string, so different byte strings have different encodings. */
  lemma {:induction false} DecodeEncode(s: string)
    requires IsBytes(s)
    ensures Decode(Encode(s)) == s
  {
    hide Sextet, ValueOf, Byte, Decode, IsBytes;
    if s == "" {
      DecodeNothing();
    } else {
      BytesOf(s, 0);
      var a := s[0] as int;
      if |s| == 1 {
        Group(a, 0, 0);
        DecodeGroup(a / 4, a % 4 * 16, 0, 0, "");
      } else {
        BytesOf(s, 1);
        var b := s[1] as int;
        if |s| == 2 {
          Group(a, b, 0);
          DecodeGroup(a / 4, a % 4 * 16 + b / 16, b % 16 * 4, 0, "");
        } else {
          BytesOf(s, 2);
          var c := s[2] as int;
          Group(a, b, c);
          BytesAfter(s);
          DecodeGroup(a / 4, a % 4 * 16 + b / 16, b % 16 * 4 + c / 64, c % 64, Encode(s[3..]));
          DecodeEncode(s[3..]);
          assert s == [s[0], s[1], s[2]] + s[3..];
        }
      }
    }
  }

  lemma BytesAfter(s: string)
    requires IsBytes(s) && |s| >= 3
    ensures IsBytes(s[3..])
  {
  }

  lemma DecodeNothing()
    ensures Decode("") == ""
  {
  }

  lemma PadIsAllowed()
    ensures InAlphabet('=')
  {
  }

  /** The vectors of section 10 of RFC 4648, and one with the two marks of the alphabet. */
  lemma TestVectors()
    ensures Encode("") == "" && Encode("f") == "Zg==" && Encode("fo") == "Zm8=" && Encode("foo") == "Zm9v"
    ensures Encode([251 as char, 255 as char]) == "+/8="
  {
    assert "foo"[3..] == "";
  }

  lemma LongerTestVectors()
    ensures Encode("foob") == "Zm9vYg==" && Encode("fooba") == "Zm9vYmE=" && Encode("foobar") == "Zm9vYmFy"
  {
    assert "foob"[3..] == "b" && "fooba"[3..] == "ba" && "foobar"[3..] == "bar" && "bar"[3..] == "";
  }
}
