/** What texts are UTF-8, and what decoding makes of other texts, told from the code points they are made of
    (section 3 of RFC 3629). */
module Utf8 {
  import opened Json

  /** A code point that is not half of a surrogate pair. */
  predicate IsScalar(v: int) {
    0 <= v < 0xD800 || 0xE000 <= v < 0x11_0000
  }

  predicate AllScalars(vs: seq<int>) {
    forall i :: 0 <= i < |vs| ==> IsScalar(vs[i])
  }

  function EncodeAll(vs: seq<int>): string
    requires AllScalars(vs)
  {
    if vs == [] then "" else EncodeRune(vs[0]) + EncodeAll(vs[1..])
  }

  /** The code point that `t` starts with. */
  function FirstRune(t: string): (v: int)
    requires t != "" && StartsWell(t)
  {
    var a := t[0] as int;
    if Width(t) == 1 then a
    else if Width(t) == 2 then (a - 0xC0) * 64 + (t[1] as int - 0x80)
    else if Width(t) == 3 then (a - 0xE0) * 4096 + (t[1] as int - 0x80) * 64 + (t[2] as int - 0x80)
    else (a - 0xF0) * 262144 + (t[1] as int - 0x80) * 4096 + (t[2] as int - 0x80) * 64 + (t[3] as int - 0x80)
  }

  /** A sequence of bytes that belong together is the encoding of a scalar. */
  lemma FirstIsEncoded(t: string)
    requires t != "" && StartsWell(t)
    ensures IsScalar(FirstRune(t)) && EncodeRune(FirstRune(t)) == t[..Width(t)]
  {
    if Width(t) == 1 {
    } else if Width(t) == 2 {
      assert t[..2] == [t[0], t[1]];
    } else if Width(t) == 3 {
      FirstOfThree(t);
    } else {
      FirstOfFour(t);
    }
  }

  lemma FirstOfThree(t: string)
    requires t != "" && StartsWell(t) && Width(t) == 3
    ensures IsScalar(FirstRune(t)) && EncodeRune(FirstRune(t)) == t[..3]
  {
    ThreeBytes(t[0] as int - 0xE0, t[1] as int - 0x80, t[2] as int - 0x80);
    assert t[..3] == [t[0], t[1], t[2]];
  }

  lemma FirstOfFour(t: string)
    requires t != "" && StartsWell(t) && Width(t) == 4
    ensures IsScalar(FirstRune(t)) && EncodeRune(FirstRune(t)) == t[..4]
  {
    FourBytes(t[0] as int - 0xF0, t[1] as int - 0x80, t[2] as int - 0x80, t[3] as int - 0x80);
    assert t[..4] == [t[0], t[1], t[2], t[3]];
  }

  lemma ThreeBytes(a: int, b: int, c: int)
    requires 0 <= b < 64 && 0 <= c < 64
    ensures var v := a * 4096 + b * 64 + c;
            v / 4096 == a && v / 64 % 64 == b && v % 64 == c
  {
    var v := a * 4096 + b * 64 + c;
    assert v / 64 == a * 64 + b;
  }

  lemma FourBytes(a: int, b: int, c: int, d: int)
    requires 0 <= b < 64 && 0 <= c < 64 && 0 <= d < 64
    ensures var v := a * 262144 + b * 4096 + c * 64 + d;
            v / 262144 == a && v / 4096 % 64 == b && v / 64 % 64 == c && v % 64 == d
  {
    var v := a * 262144 + b * 4096 + c * 64 + d;
    assert v / 64 == a * 4096 + b * 64 + c;
    assert v / 4096 == a * 64 + b;
  }

  /** And the encoding of a scalar, whatever follows it, is such a sequence. */
  lemma EncodedIsFirst(v: int, t: string)
    requires IsScalar(v)
    ensures
      var s := EncodeRune(v) + t;
      s != "" && StartsWell(s) && Width(s) == |EncodeRune(v)| && s[Width(s)..] == t
  {
    var s := EncodeRune(v) + t;
    assert s[|EncodeRune(v)|..] == t;
    if v < 0x80 {
    } else if v < 0x800 {
      TwoByteBounds(v);
    } else if v < 0x1_0000 {
      ThreeByteBounds(v);
    } else {
      FourByteBounds(v);
    }
  }

  lemma TwoByteBounds(v: int)
    requires 0x80 <= v < 0x800
    ensures 2 <= v / 64 < 32 && 0 <= v % 64 < 64
  {
  }

  lemma ThreeByteBounds(v: int)
    requires 0x800 <= v < 0x1_0000 && !(0xD800 <= v < 0xE000)
    ensures 0 <= v / 4096 < 16 && 0 <= v / 64 % 64 < 64 && 0 <= v % 64 < 64
    ensures v / 4096 == 0 ==> v / 64 % 64 >= 32
    ensures v / 4096 == 13 ==> v / 64 % 64 < 32
  {
  }

  lemma FourByteBounds(v: int)
    requires 0x1_0000 <= v < 0x11_0000
    ensures 0 <= v / 262144 <= 4 && 0 <= v / 4096 % 64 < 64 && 0 <= v / 64 % 64 < 64 && 0 <= v % 64 < 64
    ensures v / 262144 == 0 ==> v / 4096 % 64 >= 16
    ensures v / 262144 == 4 ==> v / 4096 % 64 < 16
  {
  }

  lemma {:induction false} EncodedIsUtf8(vs: seq<int>)
    requires AllScalars(vs)
    ensures IsUtf8(EncodeAll(vs))
  {
    hide EncodeRune, StartsWell, Width;
    if vs != [] {
      EncodedIsFirst(vs[0], EncodeAll(vs[1..]));
      EncodedIsUtf8(vs[1..]);
    }
  }

  lemma {:induction false} Utf8IsEncoded(s: string) returns (vs: seq<int>)
    requires IsUtf8(s)
    ensures AllScalars(vs) && EncodeAll(vs) == s
    decreases |s|
  {
    hide EncodeRune, StartsWell, Width, FirstRune;
    if s == "" {
      vs := [];
    } else {
      FirstIsEncoded(s);
      var more := Utf8IsEncoded(s[Width(s)..]);
      vs := [FirstRune(s)] + more;
      assert vs[1..] == more && s == s[..Width(s)] + s[Width(s)..];
    }
  }

  /** A text is UTF-8 exactly if it is made of the encodings of scalars. */
  lemma Utf8Exactly(s: string)
    ensures IsUtf8(s) <==> exists vs :: AllScalars(vs) && EncodeAll(vs) == s
  {
    if IsUtf8(s) { var vs := Utf8IsEncoded(s); }
    if vs :| AllScalars(vs) && EncodeAll(vs) == s { EncodedIsUtf8(vs); }
  }

  /** Decoding keeps the encoding of a scalar at the front of a text, and replaces the first byte of a text that starts
      with none by U+FFFD. */
  lemma DecodedExactly(v: int, t: string, s: string)
    requires IsScalar(v)
    ensures Sanitized("") == ""
    ensures Sanitized(EncodeRune(v) + t) == EncodeRune(v) + Sanitized(t)
    ensures s != "" && (forall u :: IsScalar(u) ==> !(EncodeRune(u) <= s)) ==>
              Sanitized(s) == [239 as char, 191 as char, 189 as char] + Sanitized(s[1..])
  {
    hide EncodeRune, StartsWell, Width, FirstRune, RuneLen;
    EncodedIsFirst(v, t);
    assert (EncodeRune(v) + t)[..|EncodeRune(v)|] == EncodeRune(v);
    if s != "" {
      if StartsWell(s) { FirstIsEncoded(s); } else { StrayIsOne(s); }
    }
  }
}
