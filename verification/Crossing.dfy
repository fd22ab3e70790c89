/** Why the depth counters work: a scanner that enters a printed page leaves it at the same depth. */
module Crossing {
  import opened Strings
  import opened Tags
  import opened Scanners
  import opened Blocks
  import opened Document

  /** The scanner walks over `t` and goes on behind it as if `t` were not there. */
  ghost predicate Crosses(t: string, k: Marks)
    requires k.Valid()
  {
    forall u: string, depth: nat :: Scan(t + u, k, depth) == Shift(|t|, Scan(u, k, depth))
  }

  lemma CrossesConcat(t: string, u: string, k: Marks)
    requires k.Valid() && Crosses(t, k) && Crosses(u, k)
    ensures Crosses(t + u, k)
  {
    hide Scan;
    forall v: string, depth: nat ensures Scan(t + u + v, k, depth) == Shift(|t + u|, Scan(v, k, depth)) {
      assert t + u + v == t + (u + v);
    }
  }

  lemma CrossesDisjoint(t: string, k: Marks)
    requires k.Valid()
    requires Disjoint(t, k.open) && Disjoint(t, k.openToo) && Disjoint(t, k.close) && Disjoint(t, k.closeToo)
    ensures Crosses(t, k)
  {
    hide Scan, Disjoint;
    forall u: string, depth: nat ensures Scan(t + u, k, depth) == Shift(|t|, Scan(u, k, depth)) {
      ScanSkips(t, u, k, depth);
    }
  }

  lemma CrossesInert(t: string, n: Name, m: Name)
    requires Inert(t)
    ensures Crosses(t, ChildMarks(n, m))
  {
    hide Scan, Disjoint, Opener, CloseTag, Crosses;
    InertVsTags(t, n);
    InertVsTags(t, m);
    CrossesDisjoint(t, ChildMarks(n, m));
  }

  lemma CrossesOpenTag(k: Name, attrs: string, n: Name, m: Name)
    requires Clean(attrs) && k != n && k != m
    ensures Crosses(OpenTag(k, attrs), ChildMarks(n, m))
  {
    OpenTagVsOpener(k, attrs, n);
    OpenTagVsOpener(k, attrs, m);
    OpenTagVsOther(k, attrs, CloseTag(n));
    OpenTagVsOther(k, attrs, CloseTag(m));
    hide Scan, Disjoint, Crosses;
    CrossesDisjoint(OpenTag(k, attrs), ChildMarks(n, m));
  }

  lemma CrossesCloseTag(k: Name, n: Name, m: Name)
    requires k != n && k != m
    ensures Crosses(CloseTag(k), ChildMarks(n, m))
  {
    CloseTagVsOther(k, Opener(n));
    CloseTagVsOther(k, Opener(m));
    CloseTagVsCloseTag(k, n);
    CloseTagVsCloseTag(k, m);
    hide Scan, Disjoint, Crosses;
    CrossesDisjoint(CloseTag(k), ChildMarks(n, m));
  }

  lemma EntersOpenTag(k: Name, attrs: string, s: string, n: Name, m: Name, depth: int)
    requires Clean(attrs) && (k == n || k == m)
    ensures Scan(OpenTag(k, attrs) + s, ChildMarks(n, m), depth)
         == Shift(|OpenTag(k, attrs)|, Scan(s, ChildMarks(n, m), depth + 1))
  {
    OpenTagShape(k, attrs);
    OpenTagVsOther(k, attrs, CloseTag(n));
    OpenTagVsOther(k, attrs, CloseTag(m));
    if k != n { OpenTagVsOpener(k, attrs, n); }
    OpenTagEnd(k, attrs, s);
    hide Scan, Disjoint, Index, OccursAt, OpenTag, Opener, CloseTag;
    ScanEnters(OpenTag(k, attrs), s, ChildMarks(n, m), depth);
  }

  lemma LeavesCloseTag(k: Name, s: string, n: Name, m: Name, depth: int)
    requires k == n || k == m
    ensures Scan(CloseTag(k) + s, ChildMarks(n, m), depth)
         == if depth == 0 && k == n then 0
            else Shift(|CloseTag(k)|, Scan(s, ChildMarks(n, m), depth - 1))
  {
    CloseTagVsOther(k, Opener(n));
    CloseTagVsOther(k, Opener(m));
    if k != n { CloseTagVsCloseTag(k, n); }
    assert k != n ==> CloseTag(k) != CloseTag(n) by { if k != n { CloseTagsDiffer(k, n); } }
    hide Scan, Disjoint, Index, OccursAt, CloseTag, Opener;
    ScanLeaves(CloseTag(k), s, ChildMarks(n, m), depth);
  }

  lemma CloseTagsDiffer(k: Name, n: Name)
    requires k != n
    ensures CloseTag(k) != CloseTag(n)
  {
    CloseTagShape(k);
    CloseTagShape(n);
    var i := NamesDiffer(k, n);
    assert CloseTag(k)[6 + i] != CloseTag(n)[6 + i];
  }

  lemma CrossedAt(t: string, k: Marks, u: string, depth: nat)
    requires k.Valid() && Crosses(t, k)
    ensures Scan(t + u, k, depth) == Shift(|t|, Scan(u, k, depth))
  {
    hide Scan;
  }

  /** A counted element is entered one level deeper and left again. */
  lemma CountedElement(k: Name, attrs: string, body: string, u: string, n: Name, m: Name, depth: nat)
    requires Clean(attrs) && Crosses(body, ChildMarks(n, m)) && (k == n || k == m)
    ensures Scan(Element(k, attrs, body) + u, ChildMarks(n, m), depth)
         == Shift(|Element(k, attrs, body)|, Scan(u, ChildMarks(n, m), depth))
  {
    hide Scan, OpenTag, CloseTag, ChildMarks, Crosses, Clean;
    var tail := CloseTag(k) + u;
    assert Element(k, attrs, body) + u == OpenTag(k, attrs) + (body + tail);
    EntersOpenTag(k, attrs, body + tail, n, m, depth);
    CrossedAt(body, ChildMarks(n, m), tail, depth + 1);
    LeavesCloseTag(k, u, n, m, depth + 1);
  }

  lemma CrossesElement(k: Name, attrs: string, body: string, n: Name, m: Name)
    requires Clean(attrs) && Crosses(body, ChildMarks(n, m))
    ensures Crosses(Element(k, attrs, body), ChildMarks(n, m))
  {
    var w := ChildMarks(n, m);
    if k == n || k == m {
      hide Scan, Element, ChildMarks, Clean;
      forall u: string, depth: nat
        ensures Scan(Element(k, attrs, body) + u, w, depth) == Shift(|Element(k, attrs, body)|, Scan(u, w, depth))
      {
        CountedElement(k, attrs, body, u, n, m, depth);
      }
    } else {
      hide Scan, OpenTag, CloseTag, ChildMarks, Crosses;
      CrossesOpenTag(k, attrs, n, m);
      CrossesCloseTag(k, n, m);
      CrossesConcat(OpenTag(k, attrs), body, w);
      CrossesConcat(OpenTag(k, attrs) + body, CloseTag(k), w);
    }
  }

  predicate Counted(n: Name) {
    n != Include && n != Comment
  }

  /** Every well-formed page is crossed by every scanner. */
  lemma {:induction false} DocCrosses(d: Doc, n: Name, m: Name)
    requires WellFormed(d) && Counted(n) && Counted(m)
    ensures Crosses(Print(d), ChildMarks(n, m))
    decreases d, 1
  {
    hide Scan, Crosses, ChildMarks, Inert, Clean, QuotesClosed, NoIncludeElem;
    if d.End? {
      CrossesEmpty(ChildMarks(n, m));
    } else {
      HeadCrosses(d, n, m);
      assert WellFormed(d.rest);
      DocCrosses(d.rest, n, m);
      CrossesConcat(Head(d), Print(d.rest), ChildMarks(n, m));
    }
  }

  lemma CrossesEmpty(k: Marks)
    requires k.Valid()
    ensures Crosses("", k)
  {
    hide Scan;
    forall u: string, depth: nat ensures Scan("" + u, k, depth) == Shift(0, Scan(u, k, depth)) {
      assert "" + u == u;
    }
  }

  lemma {:induction false} HeadCrosses(d: Doc, n: Name, m: Name)
    requires WellFormed(d) && !d.End? && Counted(n) && Counted(m)
    ensures Crosses(Head(d), ChildMarks(n, m))
    decreases d, 0
  {
    hide Scan, Crosses, ChildMarks, Element, OpenTag, Inert, QuotesClosed, NoIncludeElem;
    var k := ChildMarks(n, m);
    match d
    case Text(text, _) => CrossesInert(text, n, m);
    case IncludeTag(attrs, _) => CrossesOpenTag(Include, attrs + "/", n, m);
    case IncludeElem(attrs, body, _) =>
      DocCrosses(body, n, m);
      CrossesElement(Include, attrs, Print(body), n, m);
    case CommentTag(attrs, _) => CrossesOpenTag(Comment, attrs, n, m);
    case Block(kind, attrs, body, _) =>
      DocCrosses(body, n, m);
      CrossesElement(kind, attrs, Print(body), n, m);
    case TryElem(attrs, gap, attemptAttrs, attempt, alt, tail, _) =>
      CrossesInert(gap, n, m);
      DocCrosses(attempt, n, m);
      CrossesElement(Attempt, attemptAttrs, Print(attempt), n, m);
      CrossesConcat(gap, Element(Attempt, attemptAttrs, Print(attempt)), k);
      AltCrosses(alt, n, m);
      CrossesConcat(gap + Element(Attempt, attemptAttrs, Print(attempt)), PrintAlt(alt), k);
      CrossesInert(tail, n, m);
      CrossesConcat(gap + Element(Attempt, attemptAttrs, Print(attempt)) + PrintAlt(alt), tail, k);
      CrossesElement(Try, attrs, gap + Element(Attempt, attemptAttrs, Print(attempt)) + PrintAlt(alt) + tail, n, m);
    case ChooseElem(attrs, kids, tail, _) =>
      KidsCross(kids, n, m);
      CrossesInert(tail, n, m);
      CrossesConcat(PrintKids(kids), tail, k);
      CrossesElement(Choose, attrs, PrintKids(kids) + tail, n, m);
  }

  lemma {:induction false} AltCrosses(a: Alt, n: Name, m: Name)
    requires WellFormedAlt(a) && Counted(n) && Counted(m)
    ensures Crosses(PrintAlt(a), ChildMarks(n, m))
    decreases a, 0
  {
    hide Scan, Crosses, ChildMarks, Element, Inert, Clean;
    match a
    case NoAlt => CrossesEmpty(ChildMarks(n, m));
    case ExceptElem(gap, attrs, body) =>
      CrossesInert(gap, n, m);
      DocCrosses(body, n, m);
      CrossesElement(Except, attrs, Print(body), n, m);
      CrossesConcat(gap, Element(Except, attrs, Print(body)), ChildMarks(n, m));
  }

  lemma {:induction false} KidsCross(k: Kids, n: Name, m: Name)
    requires WellFormedKids(k) && Counted(n) && Counted(m)
    ensures Crosses(PrintKids(k), ChildMarks(n, m))
    decreases k, 0
  {
    hide Scan, Crosses, ChildMarks, Element, Inert;
    var w := ChildMarks(n, m);
    if k.NoKids? {
      CrossesEmpty(w);
    } else {
      var name := if k.WhenElem? then When else Otherwise;
      var attrs := if k.WhenElem? then WhenAttrs(k.test, k.attrs) else k.attrs;
      var gap, body := k.gap, Print(k.body);
      CrossesInert(gap, n, m);
      DocCrosses(k.body, n, m);
      CrossesElement(name, attrs, body, n, m);
      CrossesConcat(gap, Element(name, attrs, body), w);
      KidsCross(k.more, n, m);
      CrossesConcat(gap + Element(name, attrs, body), PrintKids(k.more), w);
    }
  }
}
