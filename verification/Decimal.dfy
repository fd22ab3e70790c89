/** servers/nginx/ngx_http_mesi_module.c: the decimal writer of the configuration blob
    and the overflow-guarded digit parser of the size directives. */
module Decimal {
  import opened Options

  /** The largest size a directive accepts; one more is the largest value of the C type. */
  const MAX_SIZE: int := 9223372036854775806

  function Pow10(n: nat): (r: int)
    ensures r >= 1
  {
    if n == 0 then 1 else 10 * Pow10(n - 1)
  }

  function DigitChar(d: int): char
    requires 0 <= d < 10
  {
    ('0' as int + d) as char
  }

  /** The decimal digits of `v`. */
  function Digits(v: nat): (r: string)
    ensures |r| > 0
  {
    if v < 10 then [DigitChar(v)] else Digits(v / 10) + [DigitChar(v % 10)]
  }

  predicate IsDigit(c: char) {
    '0' <= c <= '9'
  }

  predicate AllDigits(t: string) {
    forall i :: 0 <= i < |t| ==> IsDigit(t[i])
  }

  function Value(t: string): nat
    requires AllDigits(t)
  {
    if t == "" then 0 else 10 * Value(t[..|t| - 1]) + (t[|t| - 1] as int - '0' as int)
  }

  method DigitCount(value: nat) returns (n: nat)
    ensures n == |Digits(value)|
  {
    n := 1;
    var v := value;
    while v >= 10
      invariant n + |Digits(v)| == |Digits(value)| + 1
    {
      v := v / 10;
      n := n + 1;
    }
  }

  function Reversed(s: string): (r: string)
    ensures |r| == |s|
  {
    if s == "" then "" else Reversed(s[1..]) + [s[0]]
  }

  lemma {:induction false} ReversedSnoc(s: string, c: char)
    ensures Reversed(s + [c]) == [c] + Reversed(s)
  {
    if s != "" {
      assert (s + [c])[1..] == s[1..] + [c];
      ReversedSnoc(s[1..], c);
    }
  }

  /** The digits of a value above the last one; none for 0. */
  function Above(v: nat): string {
    if v == 0 then "" else Digits(v)
  }

  /** The first loop of the writer: the digits of `value`, last one first, in a scratch array of 20. */
  method Scratch(value: nat) returns (digits: array<char>, n: nat)
    requires value <= MAX_SIZE
    ensures fresh(digits) && digits.Length == 20 && 1 <= n <= 19
    ensures Reversed(digits[..n]) == Digits(value)
  {
    hide Digits, DigitChar, Above, Pow10;
    digits := new char[20];
    digits[0] := DigitChar(value % 10);
    n := 1;
    var v: nat := value / 10;
    assert digits[..1] == [DigitChar(value % 10)];
    assert digits[..1][1..] == "";
    FitsNineteenDigits();
    LastDigit(value);
    while v > 0
      invariant 1 <= n <= 19 && v < Pow10(19 - n)
      invariant Above(v) + Reversed(digits[..n]) == Digits(value)
    {
      LastDigit(v);
      PowStep(v, 19 - n);
      ghost var done := Reversed(digits[..n]);
      digits[n] := DigitChar(v % 10);
      assert digits[..n + 1] == digits[..n] + [DigitChar(v % 10)];
      ReversedSnoc(digits[..n], DigitChar(v % 10));
      assert Above(v) + done == Above(v / 10) + ([DigitChar(v % 10)] + done);
      v := v / 10;
      n := n + 1;
    }
    LastDigit(0);
    assert "" + Reversed(digits[..n]) == Reversed(digits[..n]);
  }

  lemma LastDigit(v: nat)
    ensures Digits(v) == Above(v / 10) + [DigitChar(v % 10)]
    ensures Above(v) == if v == 0 then "" else Digits(v)
  {
  }

  lemma PowStep(v: nat, k: nat)
    requires 0 < v < Pow10(k)
    ensures k >= 1 && v / 10 < Pow10(k - 1)
  {
  }

  /** Writes the digits of `value` at `w`. */
  method WriteDecimal(buf: array<char>, w: nat, value: nat) returns (next: nat)
    requires value <= MAX_SIZE && w + |Digits(value)| <= buf.Length
    modifies buf
    ensures next == w + |Digits(value)| && buf[..next] == old(buf[..w]) + Digits(value)
  {
    hide Digits, DigitChar;
    ghost var before := buf[..w];
    var digits, n := Scratch(value);
    next := w;
    assert |Reversed(digits[..n])| == n;
    while n > 0
      invariant 0 <= n <= 19 && next + n == w + |Digits(value)|
      invariant buf[..next] + Reversed(digits[..n]) == before + Digits(value)
    {
      n := n - 1;
      assert digits[..n + 1] == digits[..n] + [digits[n]];
      ReversedSnoc(digits[..n], digits[n]);
      ghost var done := buf[..next];
      buf[next] := digits[n];
      assert buf[..next + 1] == done + [digits[n]];
      next := next + 1;
    }
  }

  lemma FitsNineteenDigits()
    ensures Pow10(18) == 1000000000000000000 && MAX_SIZE / 10 < Pow10(18)
  {
    assert Pow10(3) == 1000;
    assert Pow10(6) == 1000000;
    assert Pow10(9) == 1000000000;
    assert Pow10(12) == 1000000000000;
    assert Pow10(15) == 1000000000000000;
  }

  /** `ngx_http_mesi_set_max_response_size`: digits only, at most `MAX_SIZE`; the guard runs before
      the multiplication, so no intermediate value exceeds the range of the C type. */
  method ParseSize(text: string) returns (size: Option<int>)
    ensures size == if text != "" && AllDigits(text) && Value(text) <= 9223372036854775806 then Some(Value(text))
                    else None
  {
    if |text| == 0 {
      return None;
    }
    var val := 0;
    for i := 0 to |text|
      invariant AllDigits(text[..i]) && val == Value(text[..i]) && val <= MAX_SIZE
    {
      var c := text[i];
      assert text[..i + 1][..i] == text[..i];
      if c < '0' || c > '9' {
        assert !IsDigit(text[i]);
        return None;
      }
      var d := c as int - '0' as int;
      if val > (MAX_SIZE - d) / 10 {
        if AllDigits(text) {
          LongerIsLarger(text, i + 1);
        }
        return None;
      }
      val := val * 10 + d;
    }
    assert text[..|text|] == text;
    size := Some(val);
  }

  lemma {:induction false} LongerIsLarger(t: string, n: nat)
    requires AllDigits(t) && n <= |t|
    ensures AllDigits(t[..n]) && Value(t[..n]) <= Value(t)
    decreases |t| - n
  {
    if n == |t| {
      assert t[..n] == t;
    } else {
      LongerIsLarger(t, n + 1);
      assert t[..n + 1][..n] == t[..n];
    }
  }

  lemma {:induction false} DigitsHaveTheirValue(v: nat)
    ensures AllDigits(Digits(v)) && Value(Digits(v)) == v
    ensures |Digits(v)| == 1 || Digits(v)[0] != '0'
  {
    if v >= 10 {
      DigitsHaveTheirValue(v / 10);
      var d := Digits(v);
      assert d[..|d| - 1] == Digits(v / 10);
    } else {
      assert Digits(v)[..0] == "";
    }
  }

  /** No digits but the value's own: at most a lone zero in front. */
  predicate Canonical(t: string) {
    t != "" && AllDigits(t) && (|t| == 1 || t[0] != '0')
  }

  lemma {:induction false} CanonicalIsPositive(t: string)
    requires Canonical(t) && |t| > 1
    ensures Value(t) >= 10
  {
    var u := t[..|t| - 1];
    assert Canonical(u);
    if |u| > 1 {
      CanonicalIsPositive(u);
    } else {
      assert u[..0] == "";
    }
  }

  lemma {:induction false} CanonicalIsItsDigits(t: string)
    requires Canonical(t)
    ensures Digits(Value(t)) == t
  {
    var u := t[..|t| - 1];
    if |t| == 1 {
      assert u == "";
    } else {
      CanonicalIsPositive(t);
      assert Canonical(u);
      CanonicalIsItsDigits(u);
      assert t == u + [t[|t| - 1]];
    }
  }

  /** Writing and parsing undo each other: a written value is read back as itself, and a text that is read as a value
      is what would be written for it exactly if it has no superfluous leading zero. */
  lemma {:induction false} WrittenAndReadBack(v: nat, t: string)
    ensures AllDigits(Digits(v)) && Value(Digits(v)) == v
    ensures t != "" && AllDigits(t) ==> (Digits(Value(t)) == t <==> Canonical(t))
  {
    DigitsHaveTheirValue(v);
    if t != "" && AllDigits(t) {
      DigitsHaveTheirValue(Value(t));
      if Canonical(t) { CanonicalIsItsDigits(t); }
    }
  }
}
