/** Substring search and the bookkeeping for texts glued together from pieces.
    Go strings are byte strings; a `char` stands for one byte here. */
module Strings {

  /** `pat` starts at index `i` of `s`. */
  predicate OccursAt(s: string, pat: string, i: int) {
    0 <= i <= |s| && pat <= s[i..]
  }

  predicate FirstAt(s: string, pat: string, i: int) {
    OccursAt(s, pat, i) && forall j :: 0 <= j < i ==> !OccursAt(s, pat, j)
  }

  lemma LeastOccurrence(s: string, pat: string, i: nat)
    requires OccursAt(s, pat, i)
    ensures exists j :: 0 <= j <= |s| && FirstAt(s, pat, j)
  {
    if j :| 0 <= j < i && OccursAt(s, pat, j) {
      LeastOccurrence(s, pat, j);
    } else {
      assert FirstAt(s, pat, i);
    }
  }

  /** Go's `strings.Index`: the least index at which `pat` occurs, or -1. */
  function Index(s: string, pat: string): (r: int)
    ensures -1 <= r <= |s|
    ensures r >= 0 ==> OccursAt(s, pat, r) && r + |pat| <= |s|
    ensures forall j :: 0 <= j < r ==> !OccursAt(s, pat, j)
    ensures r == -1 ==> forall j :: !OccursAt(s, pat, j)
  {
    if exists i :: 0 <= i <= |s| && FirstAt(s, pat, i) then
      var i :| 0 <= i <= |s| && FirstAt(s, pat, i);
      i
    else
      assert forall j :: !OccursAt(s, pat, j) by {
        forall j ensures !OccursAt(s, pat, j) {
          if OccursAt(s, pat, j) { LeastOccurrence(s, pat, j); }
        }
      }
      -1
  }

  /** What is found in a suffix is found in the text. */
  lemma OccursInSuffix(s: string, p: nat, pat: string, r: int)
    requires p <= |s|
    ensures OccursAt(s[p..], pat, r) ==> OccursAt(s, pat, p + r)
  {
    if 0 <= r <= |s| - p { assert s[p..][r..] == s[p + r..]; }
  }

  /** Moves a search result `n` places to the right; -1 (not found) stays. */
  function Shift(n: nat, r: int): int {
    if r < 0 then -1 else n + r
  }

  lemma IndexIs(s: string, pat: string, i: int)
    requires OccursAt(s, pat, i)
    requires forall j :: 0 <= j < i ==> !OccursAt(s, pat, j)
    ensures Index(s, pat) == i
  {
    var r := Index(s, pat);
    assert OccursAt(s, pat, r);
  }

  lemma IndexIsAbsent(s: string, pat: string)
    requires forall j :: 0 <= j <= |s| ==> !OccursAt(s, pat, j)
    ensures Index(s, pat) == -1
  {
    assert Index(s, pat) >= 0 ==> OccursAt(s, pat, Index(s, pat));
  }

  lemma Assoc<T>(a: seq<T>, b: seq<T>, c: seq<T>)
    ensures a + b + c == a + (b + c)
  {
  }

  /** `t` and `pat`, laid side by side at index `i` of `t`, differ before either ends. */
  predicate Clash(t: string, pat: string, i: nat) {
    exists k :: 0 <= k < |pat| && i + k < |t| && t[i + k] != pat[k]
  }

  /** No occurrence of `pat` can start inside `t`, whatever text follows `t`. */
  predicate Disjoint(t: string, pat: string) {
    forall i :: 0 <= i < |t| ==> Clash(t, pat, i)
  }

  lemma ClashNoOccurrence(t: string, s: string, pat: string, i: nat)
    requires i < |t| && Clash(t, pat, i)
    ensures Clash(t + s, pat, i) && !OccursAt(t + s, pat, i)
  {
    var k :| 0 <= k < |pat| && i + k < |t| && t[i + k] != pat[k];
    assert (t + s)[i + k] != pat[k];
    assert (t + s)[i..][k] != pat[k];
  }

  lemma DisjointConcat(t: string, u: string, pat: string)
    requires Disjoint(t, pat) && Disjoint(u, pat)
    ensures Disjoint(t + u, pat)
  {
    forall i | 0 <= i < |t + u| ensures Clash(t + u, pat, i) {
      if i < |t| {
        ClashNoOccurrence(t, u, pat, i);
      } else {
        assert Clash(u, pat, i - |t|);
        var k :| 0 <= k < |pat| && i - |t| + k < |u| && u[i - |t| + k] != pat[k];
        assert (t + u)[i + k] != pat[k];
      }
    }
  }

  /** A text that avoids a marker avoids every pattern beginning with it. */
  lemma DisjointExtend(t: string, marker: string, pat: string)
    requires Disjoint(t, marker) && marker <= pat
    ensures Disjoint(t, pat)
  {
    forall i | 0 <= i < |t| ensures Clash(t, pat, i) {
      assert Clash(t, marker, i);
      var k :| 0 <= k < |marker| && i + k < |t| && t[i + k] != marker[k];
      assert t[i + k] != pat[k];
    }
  }

  /** Searching past a piece in which the pattern cannot start. */
  lemma IndexSkips(t: string, s: string, pat: string)
    requires Disjoint(t, pat)
    ensures Index(t + s, pat) == Shift(|t|, Index(s, pat))
  {
    var r := Index(s, pat);
    forall j | 0 <= j < |t| ensures !OccursAt(t + s, pat, j) {
      ClashNoOccurrence(t, s, pat, j);
    }
    forall j | |t| <= j <= |t + s| ensures OccursAt(t + s, pat, j) == OccursAt(s, pat, j - |t|) {
      assert (t + s)[j..] == s[j - |t|..];
    }
    if r >= 0 {
      IndexIs(t + s, pat, |t| + r);
    } else {
      IndexIsAbsent(t + s, pat);
    }
  }

  lemma IndexAtStart(t: string, s: string, pat: string)
    requires pat <= t
    ensures Index(t + s, pat) == 0
  {
    assert pat == t[..|pat|] == (t + s)[..|pat|];
    assert (t + s)[0..] == t + s;
    IndexIs(t + s, pat, 0);
  }

  /** ASCII only. */
  function LowerChar(c: char): char {
    if 'A' <= c <= 'Z' then (c as int + 32) as char else c
  }

  /** Bytewise order, as Go compares strings. */
  predicate Before(a: string, b: string) {
    b != "" && (a == "" || a[0] < b[0] || (a[0] == b[0] && Before(a[1..], b[1..])))
  }

  /** One text is before another if it is the beginning of it, or has the smaller byte where they first differ. */
  lemma {:induction false} BeforeExactly(a: string, b: string)
    ensures Before(a, b) <==>
              || (a < b)
              || exists k :: 0 <= k < |a| && k < |b| && a[..k] == b[..k] && a[k] as int < b[k] as int
  {
    if a != "" && b != "" {
      if a[0] == b[0] {
        BeforeExactly(a[1..], b[1..]);
        assert a == [a[0]] + a[1..] && b == [b[0]] + b[1..];
        if k :| 0 <= k < |a[1..]| && k < |b[1..]| && a[1..][..k] == b[1..][..k] && a[1..][k] as int < b[1..][k] as int {
          assert a[..k + 1] == [a[0]] + a[1..][..k] && b[..k + 1] == [b[0]] + b[1..][..k];
          assert a[k + 1] as int < b[k + 1] as int;
        }
        if k :| 0 <= k < |a| && k < |b| && a[..k] == b[..k] && a[k] as int < b[k] as int {
          assert k > 0 && a[1..][..k - 1] == a[..k][1..] && b[1..][..k - 1] == b[..k][1..];
          assert a[1..][k - 1] as int < b[1..][k - 1] as int;
        }
      } else {
        assert a[..0] == b[..0];
        assert forall k :: 0 < k < |a| && k < |b| && a[..k] == b[..k] ==> a[..k][0] == b[..k][0];
      }
    }
  }

  lemma {:induction false} BeforeIsTotal(a: string, b: string)
    ensures a == b || Before(a, b) || Before(b, a)
    ensures !(Before(a, b) && Before(b, a)) && (a == b ==> !Before(a, b))
  {
    if a != "" && b != "" && a[0] == b[0] {
      BeforeIsTotal(a[1..], b[1..]);
      assert a[1..] == b[1..] ==> a == [a[0]] + a[1..] == [b[0]] + b[1..] == b;
    }
  }

  lemma {:induction false} BeforeIsTransitive(a: string, b: string, c: string)
    requires Before(a, b) && Before(b, c)
    ensures Before(a, c)
  {
    if a != "" && a[0] == b[0] && b[0] == c[0] { BeforeIsTransitive(a[1..], b[1..], c[1..]); }
  }

  function BoolText(b: bool): string {
    if b then "true" else "false"
  }
}
