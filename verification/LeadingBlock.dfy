/** Try and choose elements in front of a child the extractors look for: which pages hold one, what the
    searches see of a page that holds none, and where they end up behind one. */
module LeadingBlock {
  import opened Strings
  import opened Tags
  import opened Scanners
  import opened Tokenizer
  import opened Blocks
  import opened Document
  import opened Crossing
  import opened RoundTrip

  /** Called at an element's own opening tag, the block scanner never answers with that element's close:
      it answers with the next close the text behind the element leaves open, or -1. */
  lemma BlockCloseIsTheEnclosingOne(n: Name, attrs: string, body: string, s: string)
    requires Clean(attrs) && Crosses(body, BlockMarks(n))
    ensures Scan(Element(n, attrs, body) + s, BlockMarks(n), 0)
         == Shift(|Element(n, attrs, body)|, Scan(s, BlockMarks(n), 0))
  {
    hide Scan, Element, Crosses, Clean;
    assert BlockMarks(n) == ChildMarks(n, n);
    CountedElement(n, attrs, body, s, n, n, 0);
  }

  // ---- Pages with and without a try (choose) element ----

  /** The blocks in question, and the children looked for inside them. */
  predicate IsParent(n: Name) {
    n == Try || n == Choose
  }

  /** And what else is searched for inside them. */
  predicate IsSought(n: Name) {
    IsParent(n) || n == Except
  }

  predicate IsChildOf(c: Name, n: Name) {
    (n == Try && c == Attempt) || (n == Choose && (c == When || c == Otherwise))
  }

  /** An element `n` somewhere in the page, at any depth. */
  predicate Has(d: Doc, n: Name) {
    match d
    case End => false
    case Text(_, rest) => Has(rest, n)
    case IncludeTag(_, rest) => Has(rest, n)
    case IncludeElem(_, body, rest) => Has(body, n) || Has(rest, n)
    case CommentTag(_, rest) => Has(rest, n)
    case Block(_, _, body, rest) => Has(body, n) || Has(rest, n)
    case TryElem(_, _, _, attempt, alt, _, rest) => n == Try || Has(attempt, n) || HasAlt(alt, n) || Has(rest, n)
    case ChooseElem(_, kids, _, rest) => n == Choose || HasKids(kids, n) || Has(rest, n)
  }

  predicate HasAlt(a: Alt, n: Name) {
    a.ExceptElem? && (n == Except || Has(a.body, n))
  }

  predicate HasKids(k: Kids, n: Name) {
    match k
    case NoKids => false
    case WhenElem(_, _, _, body, more) => Has(body, n) || HasKids(more, n)
    case OtherwiseElem(_, _, body, more) => Has(body, n) || HasKids(more, n)
  }

  /** One in the first node. */
  predicate HeadHas(d: Doc, n: Name) {
    match d
    case IncludeElem(_, body, _) => Has(body, n)
    case Block(_, _, body, _) => Has(body, n)
    case TryElem(_, _, _, attempt, alt, _, _) => n == Try || Has(attempt, n) || HasAlt(alt, n)
    case ChooseElem(_, kids, _, _) => n == Choose || HasKids(kids, n)
    case _ => false
  }

  /** What the search for a child of `n` looks at. */
  predicate Mark(pat: string, n: Name) {
    || pat == Opener(n) || (exists c :: IsChildOf(c, n) && pat == Opener(c))
    || (n == Choose && pat == CloseTag(Choose))
  }

  /** Elements whose tags are none of these. */
  predicate Foreign(k: Name, n: Name) {
    k != n && !IsChildOf(k, n)
  }

  // ---- Without one ----

  lemma OpenAvoids(k: Name, attrs: string, pat: string, n: Name)
    requires Clean(attrs) && Mark(pat, n) && Foreign(k, n)
    ensures Disjoint(OpenTag(k, attrs), pat) && Disjoint(CloseTag(k), pat)
  {
    hide Disjoint, OpenTag, CloseTag, Clean, Opener;
    if pat == Opener(n) {
      OpenTagVsOpener(k, attrs, n);
      OpenerShape(n);
      CloseTagVsOther(k, pat);
    } else if c :| IsChildOf(c, n) && pat == Opener(c) {
      OpenTagVsOpener(k, attrs, c);
      OpenerShape(c);
      CloseTagVsOther(k, pat);
    } else {
      CloseShape(n);
      OpenTagVsOther(k, attrs, pat);
      CloseTagVsCloseTag(k, n);
    }
  }

  lemma OpenerShape(n: Name)
    ensures |Opener(n)| > 1 && Opener(n)[0] == '<' && Opener(n)[1] == 'e'
  {
  }

  lemma CloseShape(n: Name)
    ensures |CloseTag(n)| > 1 && CloseTag(n)[0] == '<' && CloseTag(n)[1] == '/'
  {
  }

  lemma ElementAvoids(k: Name, attrs: string, body: string, pat: string, n: Name)
    requires Clean(attrs) && Disjoint(body, pat) && Mark(pat, n) && Foreign(k, n)
    ensures Disjoint(Element(k, attrs, body), pat)
  {
    hide Disjoint, OpenTag, CloseTag, Clean, Mark;
    OpenAvoids(k, attrs, pat, n);
    DisjointConcat(OpenTag(k, attrs), body, pat);
    DisjointConcat(OpenTag(k, attrs) + body, CloseTag(k), pat);
  }

  lemma InertAvoids(t: string, pat: string, n: Name)
    requires Inert(t) && Mark(pat, n)
    ensures Disjoint(t, pat)
  {
    hide Disjoint, Inert, Opener, CloseTag;
    InertVsTags(t, n);
    if c :| IsChildOf(c, n) && pat == Opener(c) { InertVsTags(t, c); }
  }

  lemma {:induction false} DocAvoids(d: Doc, pat: string, n: Name)
    requires WellFormed(d) && !Has(d, n) && Mark(pat, n) && IsSought(n)
    ensures Disjoint(Print(d), pat)
    decreases d, 1
  {
    hide Disjoint, Inert, Clean, QuotesClosed, Opener, Mark;
    if d.End? {
      EmptyDisjoint(pat);
    } else {
      HeadAvoids(d, pat, n);
      DocAvoids(d.rest, pat, n);
      DisjointConcat(Head(d), Print(d.rest), pat);
    }
  }

  lemma {:induction false} HeadAvoids(d: Doc, pat: string, n: Name)
    requires WellFormed(d) && !d.End? && !HeadHas(d, n) && Mark(pat, n) && IsSought(n)
    ensures Disjoint(Head(d), pat)
    decreases d, 0
  {
    hide Disjoint, Inert, QuotesClosed, Opener, OpenTag, Element, Mark, NoIncludeElem;
    match d
    case Text(text, _) => InertAvoids(text, pat, n);
    case IncludeTag(attrs, _) => OpenAvoids(Include, attrs + "/", pat, n);
    case IncludeElem(attrs, body, _) =>
      DocAvoids(body, pat, n);
      ElementAvoids(Include, attrs, Print(body), pat, n);
    case CommentTag(attrs, _) => OpenAvoids(Comment, attrs, pat, n);
    case Block(kind, attrs, body, _) =>
      DocAvoids(body, pat, n);
      ElementAvoids(kind, attrs, Print(body), pat, n);
    case TryElem(attrs, _, _, _, _, _, _) =>
      TryBodyAvoids(d, pat, n);
      ElementAvoids(Try, attrs, TryBody(d), pat, n);
    case ChooseElem(attrs, kids, tail, _) =>
      KidsAvoid(kids, pat, n);
      InertAvoids(tail, pat, n);
      DisjointConcat(PrintKids(kids), tail, pat);
      ElementAvoids(Choose, attrs, PrintKids(kids) + tail, pat, n);
  }

  lemma {:induction false} TryBodyAvoids(d: Doc, pat: string, n: Name)
    requires WellFormed(d) && d.TryElem? && n != Try && IsSought(n) && Mark(pat, n)
    requires !Has(d.attempt, n) && !HasAlt(d.alt, n)
    ensures Disjoint(TryBody(d), pat)
    decreases d, -1
  {
    hide Disjoint, Inert, QuotesClosed, Opener, OpenTag, Element, Mark, PrintAlt;
    var a := Element(Attempt, d.attemptAttrs, Print(d.attempt));
    InertAvoids(d.gap, pat, n);
    DocAvoids(d.attempt, pat, n);
    ElementAvoids(Attempt, d.attemptAttrs, Print(d.attempt), pat, n);
    AltAvoids(d.alt, pat, n);
    InertAvoids(d.tail, pat, n);
    DisjointConcat(d.gap, a, pat);
    DisjointConcat(d.gap + a, PrintAlt(d.alt), pat);
    DisjointConcat(d.gap + a + PrintAlt(d.alt), d.tail, pat);
  }

  lemma {:induction false} AltAvoids(a: Alt, pat: string, n: Name)
    requires WellFormedAlt(a) && !HasAlt(a, n) && n != Try && IsSought(n) && Mark(pat, n)
    ensures Disjoint(PrintAlt(a), pat)
    decreases a, 0
  {
    hide Disjoint, Inert, Opener, Element, Mark;
    match a
    case NoAlt => EmptyDisjoint(pat);
    case ExceptElem(gap, attrs, body) =>
      InertAvoids(gap, pat, n);
      DocAvoids(body, pat, n);
      ElementAvoids(Except, attrs, Print(body), pat, n);
      DisjointConcat(gap, Element(Except, attrs, Print(body)), pat);
  }

  lemma {:induction false} KidsAvoid(k: Kids, pat: string, n: Name)
    requires WellFormedKids(k) && !HasKids(k, n) && n != Choose && IsSought(n) && Mark(pat, n)
    ensures Disjoint(PrintKids(k), pat)
    decreases k, 0
  {
    hide Disjoint, Inert, QuotesClosed, Opener, Element, Mark;
    if k.NoKids? {
      EmptyDisjoint(pat);
    } else {
      InertAvoids(k.gap, pat, n);
      DocAvoids(k.body, pat, n);
      ElementAvoids(if k.WhenElem? then When else Otherwise,
                    if k.WhenElem? then WhenAttrs(k.test, k.attrs) else k.attrs, Print(k.body), pat, n);
      DisjointConcat(k.gap, KidText(k), pat);
      KidsAvoid(k.more, pat, n);
      DisjointConcat(k.gap + KidText(k), PrintKids(k.more), pat);
    }
  }

  // ---- With one ----

  /** The page's text around its first `n` element: nothing before it looks like an `n` or like the child
      `c` that is looked for, and the scanner for `n` walks over what stands behind it. */
  datatype Split = Split(n: Name, c: Name, before: string, attrs: string, body: string, after: string) {
    function Text(): string {
      before + Element(n, attrs, body) + after
    }

    ghost predicate Valid() {
      && IsParent(n) && IsChildOf(c, n)
      && Disjoint(before, Opener(n)) && Disjoint(before, Opener(c))
      && Clean(attrs) && Crosses(body, BlockMarks(n)) && Crosses(after, BlockMarks(n))
    }
  }

  lemma ChildIsMark(n: Name, c: Name)
    requires IsChildOf(c, n)
    ensures Mark(Opener(n), n) && Mark(Opener(c), n) && n != c && BlockMarks(n) == ChildMarks(n, n) && Counted(n)
  {
  }

  lemma Widen(pre: string, s: Split, post: string) returns (r: Split)
    requires s.Valid() && Disjoint(pre, Opener(s.n)) && Disjoint(pre, Opener(s.c)) && Crosses(post, BlockMarks(s.n))
    ensures r.Valid() && r.n == s.n && r.c == s.c && r.Text() == pre + s.Text() + post
  {
    hide Disjoint, Opener, Crosses, BlockMarks, Element, Clean;
    DisjointConcat(pre, s.before, Opener(s.n));
    DisjointConcat(pre, s.before, Opener(s.c));
    CrossesConcat(s.after, post, BlockMarks(s.n));
    r := Split(s.n, s.c, pre + s.before, s.attrs, s.body, s.after + post);
  }

  lemma WidenElement(k: Name, attrs: string, s: Split) returns (r: Split)
    requires s.Valid() && Clean(attrs) && Foreign(k, s.n)
    ensures r.Valid() && r.n == s.n && r.c == s.c && r.Text() == Element(k, attrs, s.Text())
  {
    hide Disjoint, Opener, Crosses, OpenTag, CloseTag, Clean, Split.Text, Mark, BlockMarks;
    ChildIsMark(s.n, s.c);
    OpenAvoids(k, attrs, Opener(s.n), s.n);
    OpenAvoids(k, attrs, Opener(s.c), s.n);
    CrossesCloseTag(k, s.n, s.n);
    r := Widen(OpenTag(k, attrs), s, CloseTag(k));
  }

  lemma WidenAfter(s: Split, post: string) returns (r: Split)
    requires s.Valid() && Crosses(post, ChildMarks(s.n, s.n))
    ensures r.Valid() && r.n == s.n && r.c == s.c && r.Text() == s.Text() + post
  {
    hide Disjoint, Opener, Crosses, Clean, Element, Split.Text, Mark, BlockMarks;
    ChildIsMark(s.n, s.c);
    EmptyDisjoint(Opener(s.n));
    EmptyDisjoint(Opener(s.c));
    r := Widen("", s, post);
    assert "" + s.Text() + post == s.Text() + post;
  }

  lemma WidenBefore(pre: string, s: Split) returns (r: Split)
    requires s.Valid() && Disjoint(pre, Opener(s.n)) && Disjoint(pre, Opener(s.c))
    ensures r.Valid() && r.n == s.n && r.c == s.c && r.Text() == pre + s.Text()
  {
    hide Disjoint, Opener, Crosses, Clean, Element, Split.Text, BlockMarks;
    CrossesEmpty(BlockMarks(s.n));
    r := Widen(pre, s, "");
    assert pre + s.Text() + "" == pre + s.Text();
  }

  lemma {:induction false} FirstBlock(d: Doc, n: Name, c: Name) returns (s: Split)
    requires WellFormed(d) && Has(d, n) && IsChildOf(c, n)
    ensures s.Valid() && s.n == n && s.c == c && s.Text() == Print(d)
    decreases d, 3
  {
    hide Disjoint, Opener, Crosses, Clean, Element, Split.Valid, Split.Text, Inert, OpenTag, Scan, Mark, ChildMarks,
         BlockMarks;
    ChildIsMark(n, c);
    if HeadHas(d, n) {
      s := FirstInHead(d, n, c);
      DocCrosses(d.rest, n, n);
      s := WidenAfter(s, Print(d.rest));
    } else {
      HeadAvoids(d, Opener(n), n);
      HeadAvoids(d, Opener(c), n);
      s := FirstBlock(d.rest, n, c);
      s := WidenBefore(Head(d), s);
    }
  }

  lemma {:induction false} FirstInHead(d: Doc, n: Name, c: Name) returns (s: Split)
    requires WellFormed(d) && !d.End? && HeadHas(d, n) && IsChildOf(c, n)
    ensures s.Valid() && s.n == n && s.c == c && s.Text() == Head(d)
    decreases d, 2
  {
    hide Disjoint, Opener, Crosses, Element, Split.Valid, Split.Text, Inert, OpenTag, Scan, Mark, ChildMarks,
         BlockMarks;
    match d
    case IncludeElem(attrs, body, _) =>
      s := FirstBlock(body, n, c);
      s := WidenElement(Include, attrs, s);
    case Block(kind, attrs, body, _) =>
      s := FirstBlock(body, n, c);
      s := WidenElement(kind, attrs, s);
    case TryElem(attrs, _, _, _, _, _, _) => s := FirstInTry(d, n, c);
    case ChooseElem(attrs, kids, tail, _) => s := FirstInChoose(d, n, c);
  }

  lemma {:induction false} FirstInTry(d: Doc, n: Name, c: Name) returns (s: Split)
    requires WellFormed(d) && d.TryElem? && HeadHas(d, n) && IsChildOf(c, n)
    ensures s.Valid() && s.n == n && s.c == c && s.Text() == Head(d)
    decreases d, 1
  {
    hide Disjoint, Opener, Crosses, Element, Split.Valid, Split.Text, Inert, OpenTag, Scan, Mark, ChildMarks,
         BlockMarks;
    ChildIsMark(n, c);
    if n == Try {
      TryBodyCrosses(d, Try, Try);
      s := Itself(d.attrs, TryBody(d), n, c);
    } else {
      s := FirstInTryBody(d, n, c);
      CrossesInert(d.tail, n, n);
      s := WidenAfter(s, d.tail);
      s := WidenElement(Try, d.attrs, s);
    }
  }

  lemma {:induction false} FirstInTryBody(d: Doc, n: Name, c: Name) returns (s: Split)
    requires WellFormed(d) && d.TryElem? && (Has(d.attempt, n) || HasAlt(d.alt, n)) && IsChildOf(c, n) && n == Choose
    ensures s.Valid() && s.n == n && s.c == c
    ensures s.Text() == d.gap + Element(Attempt, d.attemptAttrs, Print(d.attempt)) + PrintAlt(d.alt)
    decreases d, 0
  {
    hide Disjoint, Opener, Crosses, Element, Split.Valid, Split.Text, Inert, OpenTag, Scan, Mark, ChildMarks,
         BlockMarks;
    ChildIsMark(n, c);
    var a := Element(Attempt, d.attemptAttrs, Print(d.attempt));
    InertAvoids(d.gap, Opener(n), n);
    InertAvoids(d.gap, Opener(c), n);
    if Has(d.attempt, n) {
      s := FirstBlock(d.attempt, n, c);
      s := WidenElement(Attempt, d.attemptAttrs, s);
      AltCrosses(d.alt, n, n);
      s := WidenAfter(s, PrintAlt(d.alt));
      s := WidenBefore(d.gap, s);
      Assoc(d.gap, a, PrintAlt(d.alt));
    } else {
      s := FirstInAlt(d.alt, n, c);
      DocAvoids(d.attempt, Opener(n), n);
      DocAvoids(d.attempt, Opener(c), n);
      ElementAvoids(Attempt, d.attemptAttrs, Print(d.attempt), Opener(n), n);
      ElementAvoids(Attempt, d.attemptAttrs, Print(d.attempt), Opener(c), n);
      DisjointConcat(d.gap, a, Opener(n));
      DisjointConcat(d.gap, a, Opener(c));
      s := WidenBefore(d.gap + a, s);
    }
  }

  lemma {:induction false} FirstInAlt(a: Alt, n: Name, c: Name) returns (s: Split)
    requires WellFormedAlt(a) && HasAlt(a, n) && IsChildOf(c, n) && n == Choose
    ensures s.Valid() && s.n == n && s.c == c && s.Text() == PrintAlt(a)
    decreases a, 0
  {
    hide Disjoint, Opener, Crosses, Element, Split.Valid, Split.Text, Inert, OpenTag, Scan, Mark, ChildMarks,
         BlockMarks;
    ChildIsMark(n, c);
    s := FirstBlock(a.body, n, c);
    s := WidenElement(Except, a.attrs, s);
    InertAvoids(a.gap, Opener(n), n);
    InertAvoids(a.gap, Opener(c), n);
    s := WidenBefore(a.gap, s);
  }

  lemma {:induction false} FirstInChoose(d: Doc, n: Name, c: Name) returns (s: Split)
    requires WellFormed(d) && d.ChooseElem? && HeadHas(d, n) && IsChildOf(c, n)
    ensures s.Valid() && s.n == n && s.c == c && s.Text() == Head(d)
    decreases d, 1
  {
    hide Disjoint, Opener, Crosses, Element, Split.Valid, Split.Text, Inert, OpenTag, Scan, Mark, ChildMarks,
         BlockMarks;
    ChildIsMark(n, c);
    CrossesInert(d.tail, n, n);
    if n == Choose {
      KidsCross(d.kids, n, n);
      CrossesConcat(PrintKids(d.kids), d.tail, ChildMarks(n, n));
      s := Itself(d.attrs, PrintKids(d.kids) + d.tail, n, c);
    } else {
      s := FirstInKids(d.kids, n, c);
      s := WidenAfter(s, d.tail);
      s := WidenElement(Choose, d.attrs, s);
    }
  }

  lemma Itself(attrs: string, body: string, n: Name, c: Name) returns (s: Split)
    requires Clean(attrs) && Crosses(body, ChildMarks(n, n)) && IsChildOf(c, n)
    ensures s.Valid() && s.n == n && s.c == c && s.Text() == Element(n, attrs, body)
  {
    hide Disjoint, Opener, Crosses, Element, Clean, Mark;
    ChildIsMark(n, c);
    EmptyDisjoint(Opener(n));
    EmptyDisjoint(Opener(c));
    CrossesEmpty(BlockMarks(n));
    s := Split(n, c, "", attrs, body, "");
  }

  lemma {:induction false} FirstInKids(k: Kids, n: Name, c: Name) returns (s: Split)
    requires WellFormedKids(k) && HasKids(k, n) && IsChildOf(c, n) && n == Try
    ensures s.Valid() && s.n == n && s.c == c && s.Text() == PrintKids(k)
    decreases k, 0
  {
    hide Disjoint, Opener, Crosses, Element, Split.Valid, Split.Text, Inert, OpenTag, Scan, Mark, ChildMarks,
         BlockMarks;
    ChildIsMark(n, c);
    var name := if k.WhenElem? then When else Otherwise;
    var attrs := if k.WhenElem? then WhenAttrs(k.test, k.attrs) else k.attrs;
    InertAvoids(k.gap, Opener(n), n);
    InertAvoids(k.gap, Opener(c), n);
    if Has(k.body, n) {
      s := FirstBlock(k.body, n, c);
      s := WidenElement(name, attrs, s);
      KidsCross(k.more, n, n);
      s := WidenAfter(s, PrintKids(k.more));
      s := WidenBefore(k.gap, s);
      Assoc(k.gap, KidText(k), PrintKids(k.more));
    } else {
      s := FirstInKids(k.more, n, c);
      DocAvoids(k.body, Opener(n), n);
      DocAvoids(k.body, Opener(c), n);
      ElementAvoids(name, attrs, Print(k.body), Opener(n), n);
      ElementAvoids(name, attrs, Print(k.body), Opener(c), n);
      DisjointConcat(k.gap, KidText(k), Opener(n));
      DisjointConcat(k.gap, KidText(k), Opener(c));
      s := WidenBefore(k.gap + KidText(k), s);
    }
  }

  // ---- Behind one, the search runs into the close of the enclosing block ----

  lemma SplitIndexes(s: Split, behind: string)
    requires s.Valid()
    ensures
      var t := s.before + (Element(s.n, s.attrs, s.body) + behind);
      && Index(t, Opener(s.n)) == |s.before|
      && (Index(t, Opener(s.c)) == -1 || Index(t, Opener(s.c)) > |s.before|)
  {
    hide Disjoint, Opener, Crosses, OpenTag, Index, OccursAt, Scan, Clean, CloseTag, Element, Mark, BlockMarks;
    ChildIsMark(s.n, s.c);
    var t := Element(s.n, s.attrs, s.body) + behind;
    IndexSkips(s.before, t, Opener(s.n));
    OpenerOfElement(s.n, s.attrs, s.body, behind);
    assert t + "" == t;
    IndexAtStart(t, "", Opener(s.n));
    IndexSkips(s.before, t, Opener(s.c));
    TagIsNoChild(s, behind);
  }

  lemma TagIsNoChild(s: Split, behind: string)
    requires Clean(s.attrs) && s.n != s.c
    ensures Index(Element(s.n, s.attrs, s.body) + behind, Opener(s.c)) != 0
  {
    hide Disjoint, Opener, OpenTag, Index, OccursAt, CloseTag, Clean;
    OpenTagVsOpener(s.n, s.attrs, s.c);
    assert Element(s.n, s.attrs, s.body) + behind == OpenTag(s.n, s.attrs) + (s.body + CloseTag(s.n) + behind);
    IndexSkips(OpenTag(s.n, s.attrs), s.body + CloseTag(s.n) + behind, Opener(s.c));
  }

  /** The scanner, called at the first `n` element, answers with the last close of the whole text. */
  lemma ScanFindsTheLastClose(s: Split, x: string)
    requires s.Valid() && Crosses(x, BlockMarks(s.n))
    ensures
      var elem := Element(s.n, s.attrs, s.body);
      var behind := s.after + x + CloseTag(s.n);
      && s.Text() + x + CloseTag(s.n) == s.before + (elem + behind)
      && Scan(elem + behind, BlockMarks(s.n), 0) == |elem| + |s.after + x|
  {
    hide Disjoint, Opener, Crosses, OpenTag, Element, Index, OccursAt, Scan, Clean, CloseTag, Mark, BlockMarks;
    ChildIsMark(s.n, s.c);
    var behind := s.after + x + CloseTag(s.n);
    BlockCloseIsTheEnclosingOne(s.n, s.attrs, s.body, behind);
    CrossesConcat(s.after, x, BlockMarks(s.n));
    CrossedAt(s.after + x, BlockMarks(s.n), CloseTag(s.n), 0);
    assert CloseTag(s.n) + "" == CloseTag(s.n);
    LeavesCloseTag(s.n, "", s.n, s.n, 0);
  }

  lemma LettersAreInert(t: string)
    requires forall i :: 0 <= i < |t| ==> t[i] != '<'
    ensures Inert(t)
  {
    forall i, pat | 0 <= i < |t| && pat in {"<esi:", "</esi:", "<!--esi"} ensures Clash(t, pat, i) {
      assert t[i + 0] != pat[0];
    }
  }
}
