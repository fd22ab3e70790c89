/** The depth-counting close-tag scanners of mesi/tokenizer.go and mesi/parser.go. */
module Scanners {
  import opened Strings

  /** The earlier of two search results, where -1 means "not found". */
  function Earlier(a: int, b: int): int {
    if a != -1 && (b == -1 || a < b) then a else b
  }

  /** The four texts a scanner looks for: the openers and closing tags of `n` and of `m`. */
  datatype Marks = Marks(open: string, openToo: string, close: string, closeToo: string) {
    predicate Valid() {
      |open| > 0 && |openToo| > 0 && |close| > 0 && |closeToo| > 0
    }
  }

  /** One look at the text ahead: answer now, or go on `skip` characters further one level
      deeper or shallower. */
  datatype Move = Answer(at: int) | Go(skip: nat, delta: int)

  function Look(s: string, k: Marks, atZero: bool): (r: Move)
    requires k.Valid()
    ensures r.Go? ==> 0 < r.skip <= |s|
    ensures r.Answer? ==> r.at == -1 || (r.at == Index(s, k.close) && r.at >= 0)
  {
    var nextClose := Index(s, k.close);
    var firstClose := Earlier(nextClose, Index(s, k.closeToo));
    var firstOpen := Earlier(Index(s, k.open), Index(s, k.openToo));
    if firstClose == -1 then Answer(-1)
    else if firstOpen != -1 && firstOpen < firstClose then
      var tagEnd := Index(s[firstOpen..], ">");
      if tagEnd == -1 then Answer(-1) else Go(firstOpen + tagEnd + 1, 1)
    else if atZero && firstClose == nextClose then Answer(nextClose)
    else Go(firstClose + if firstClose == nextClose then |k.close| else |k.closeToo|, -1)
  }

  /** One walk over the marked tags of a text: either opening tag adds one to the depth, either
      closing tag takes one off, and the answer is the first `close` met at depth 0.
      `findMatchingEndTag` is this walk from depth -1 and `findTryClose` and `findChooseClose` are
      the walk from depth 0, all three with one tag name in both places; the four child scanners
      are the walk from depth 0 with the child's tags first and those of the block second. */
  function Scan(s: string, k: Marks, depth: int): (r: int)
    requires k.Valid()
    ensures -1 <= r
    ensures r >= 0 ==> OccursAt(s, k.close, r) && r + |k.close| <= |s|
    decreases |s|
  {
    match Look(s, k, depth == 0)
    case Answer(r) => r
    case Go(p, delta) =>
      var r := Scan(s[p..], k, depth + delta);
      OccursInSuffix(s, p, k.close, r);
      Shift(p, r)
  }

  /** One step of the walk from position `pos`, in positions of the whole text. */
  lemma {:induction false} ScanStep(s: string, k: Marks, depth: int, pos: nat)
    requires k.Valid() && pos <= |s|
    ensures match Look(s[pos..], k, depth == 0)
            case Answer(r) => Scan(s[pos..], k, depth) == r
            case Go(p, delta) =>
              && pos + p <= |s|
              && Shift(pos, Scan(s[pos..], k, depth)) == Shift(pos + p, Scan(s[pos + p..], k, depth + delta))
  {
    hide Look, Index, OccursAt;
    var l := Look(s[pos..], k, depth == 0);
    if l.Go? { assert s[pos..][l.skip..] == s[pos + l.skip..]; }
  }

  /** Both tag names of the walk are the same. */
  function Single(open: string, close: string): Marks {
    Marks(open, open, close, close)
  }

  method FindMatchingEndTag(s: string, openTag: string, closeTag: string) returns (r: int)
    requires |openTag| > 0 && |closeTag| > 0
    ensures r == Scan(s, Single(openTag, closeTag), -1)
  {
    hide Index, OccursAt, Scan;
    var depth, pos := 0, 0;
    while true
      invariant 0 <= pos <= |s|
      invariant Shift(pos, Scan(s[pos..], Single(openTag, closeTag), depth - 1)) ==
        Scan(s, Single(openTag, closeTag), -1)
      decreases |s| - pos
    {
      ScanStep(s, Single(openTag, closeTag), depth - 1, pos);
      var nextOpen := Index(s[pos..], openTag);
      var nextClose := Index(s[pos..], closeTag);
      if nextClose == -1 {
        return -1;
      }
      if nextOpen != -1 && nextOpen < nextClose {
        depth := depth + 1;
        assert s[pos..][nextOpen..] == s[pos + nextOpen..];
        var tagEnd := Index(s[pos + nextOpen..], ">");
        if tagEnd == -1 {
          return -1;
        }
        pos := pos + nextOpen + tagEnd + 1;
        continue;
      }
      depth := depth - 1;
      if depth == 0 {
        return pos + nextClose;
      }
      pos := pos + nextClose + |closeTag|;
    }
  }

  /** `findTryClose`, and `findChooseClose` before it adds the closing tag's length. */
  method FindBlockClose(s: string, openTag: string, closeTag: string) returns (r: int)
    requires |openTag| > 0 && |closeTag| > 0
    ensures r == Scan(s, Single(openTag, closeTag), 0)
  {
    hide Index, OccursAt, Scan;
    var depth, pos := 0, 0;
    while true
      invariant 0 <= pos <= |s|
      invariant Shift(pos, Scan(s[pos..], Single(openTag, closeTag), depth)) == Scan(s, Single(openTag, closeTag), 0)
      decreases |s| - pos
    {
      ScanStep(s, Single(openTag, closeTag), depth, pos);
      var nextClose := Index(s[pos..], closeTag);
      if nextClose == -1 {
        return -1;
      }
      var nextOpen := Index(s[pos..], openTag);
      if nextOpen != -1 && nextOpen < nextClose {
        depth := depth + 1;
        assert s[pos..][nextOpen..] == s[pos + nextOpen..];
        var nextEnd := Index(s[pos + nextOpen..], ">");
        if nextEnd == -1 {
          return -1;
        }
        pos := pos + nextOpen + nextEnd + 1;
        continue;
      }
      if depth == 0 {
        return pos + nextClose;
      }
      depth := depth - 1;
      pos := pos + nextClose + |closeTag|;
    }
  }

  /** The three-way choice between two search results, as the child scanners spell it. */
  method FirstOf(a: int, b: int) returns (first: int)
    requires a >= -1 && b >= -1
    ensures first == Earlier(a, b) && (first == a || first == b)
  {
    first := -1;
    if a != -1 && (b == -1 || a < b) {
      first := a;
    } else if b != -1 {
      first := b;
    } else if a != -1 {
      first := a;
    }
  }

  /** `findAttemptClose`, `findExceptClose`, `findWhenClose` and `findOtherwiseClose`. */
  method FindChildClose(s: string, k: Marks) returns (r: int)
    requires k.Valid()
    ensures r == Scan(s, k, 0)
  {
    hide Index, OccursAt, Scan;
    var depth, pos := 0, 0;
    assert s[0..] == s;
    while true
      invariant 0 <= pos <= |s|
      invariant Shift(pos, Scan(s[pos..], k, depth)) == Scan(s, k, 0)
      decreases |s| - pos
    {
      ScanStep(s, k, depth, pos);
      var nextClose := Index(s[pos..], k.close);
      var nextCloseBlock := Index(s[pos..], k.closeToo);
      var firstClose := FirstOf(nextClose, nextCloseBlock);
      if firstClose == -1 {
        return -1;
      }
      var nextOpenChild := Index(s[pos..], k.open);
      var nextOpenBlock := Index(s[pos..], k.openToo);
      var firstOpen := FirstOf(nextOpenChild, nextOpenBlock);
      if firstOpen != -1 && firstOpen < firstClose {
        depth := depth + 1;
        assert s[pos..][firstOpen..] == s[pos + firstOpen..];
        var nextEnd := Index(s[pos + firstOpen..], ">");
        if nextEnd == -1 {
          return -1;
        }
        pos := pos + firstOpen + nextEnd + 1;
        continue;
      }
      if depth == 0 && firstClose == nextClose {
        return pos + nextClose;
      }
      depth := depth - 1;
      var skipLen := if firstClose == nextClose then |k.close| else |k.closeToo|;
      pos := pos + firstClose + skipLen;
    }
  }


  // ---- How the walk crosses one piece of a printed page ----

  lemma {:induction false} LookSkips(t: string, s: string, k: Marks, atZero: bool)
    requires k.Valid()
    requires Disjoint(t, k.open) && Disjoint(t, k.openToo)
    requires Disjoint(t, k.close) && Disjoint(t, k.closeToo)
    ensures Look(t + s, k, atZero)
         == match Look(s, k, atZero)
            case Answer(r) => Answer(Shift(|t|, r))
            case Go(p, delta) => Go(|t| + p, delta)
  {
    hide Index, OccursAt, Disjoint;
    IndexSkips(t, s, k.open);
    IndexSkips(t, s, k.openToo);
    IndexSkips(t, s, k.close);
    IndexSkips(t, s, k.closeToo);
    var firstOpen := Earlier(Index(s, k.open), Index(s, k.openToo));
    if firstOpen != -1 { assert (t + s)[|t| + firstOpen..] == s[firstOpen..]; }
  }

  lemma {:induction false} ScanSkips(t: string, s: string, k: Marks, depth: int)
    requires k.Valid()
    requires Disjoint(t, k.open) && Disjoint(t, k.openToo)
    requires Disjoint(t, k.close) && Disjoint(t, k.closeToo)
    ensures Scan(t + s, k, depth) == Shift(|t|, Scan(s, k, depth))
  {
    hide Scan, Look, Disjoint, Index, OccursAt;
    LookSkips(t, s, k, depth == 0);
    assert s[0..] == s && (t + s)[0..] == t + s;
    ScanStep(s, k, depth, 0);
    ScanStep(t + s, k, depth, 0);
    var l := Look(s, k, depth == 0);
    if l.Go? { assert (t + s)[|t| + l.skip..] == s[l.skip..]; }
  }

  /** The walk meets an opening tag. */
  lemma {:induction false} ScanEnters(t: string, s: string, k: Marks, depth: int)
    requires k.Valid() && |t| > 0
    requires k.open <= t || (k.openToo <= t && Disjoint(t, k.open))
    requires Disjoint(t, k.close) && Disjoint(t, k.closeToo)
    requires Index(t + s, ">") == |t| - 1
    ensures Scan(t + s, k, depth) == Shift(|t|, Scan(s, k, depth + 1))
  {
    hide Index, OccursAt, Disjoint;
    if k.open <= t {
      IndexAtStart(t, s, k.open);
    } else {
      IndexAtStart(t, s, k.openToo);
      IndexSkips(t, s, k.open);
    }
    IndexSkips(t, s, k.close);
    IndexSkips(t, s, k.closeToo);
    assert (t + s)[0..] == t + s;
    if Index(s, k.close) == -1 && Index(s, k.closeToo) == -1 {
      assert Look(s, k, depth + 1 == 0) == Answer(-1);
    } else {
      assert Look(t + s, k, depth == 0) == Go(|t|, 1);
      assert (t + s)[|t|..] == s;
    }
  }

  /** The walk meets a closing tag. */
  lemma {:induction false} ScanLeaves(t: string, s: string, k: Marks, depth: int)
    requires k.Valid() && |t| > 0
    requires t == k.close || (t == k.closeToo && Disjoint(t, k.close))
    requires Disjoint(t, k.open) && Disjoint(t, k.openToo)
    ensures Scan(t + s, k, depth)
         == if depth == 0 && t == k.close then 0 else Shift(|t|, Scan(s, k, depth - 1))
  {
    hide Index, OccursAt, Disjoint;
    IndexAtStart(t, s, t);
    if t != k.close { IndexSkips(t, s, k.close); }
    IndexSkips(t, s, k.open);
    IndexSkips(t, s, k.openToo);
    assert (t + s)[|t|..] == s;
    assert Look(t + s, k, depth == 0)
        == if depth == 0 && t == k.close then Answer(0) else Go(|t|, -1);
  }
}
