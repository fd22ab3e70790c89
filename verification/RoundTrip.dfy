/** Printing a page and cutting it up again undo each other, at any nesting depth. */
module RoundTrip {
  import opened Strings
  import opened Tags
  import opened Scanners
  import opened Tokenizer
  import opened Blocks
  import opened Document
  import opened Crossing

  // ---- Texts that no page contains ----

  /** Marks that a printed page `d` cannot contain. */
  predicate Foreign(pat: string, d: Doc) {
    pat == "<!--esi" || (pat == CloseTag(Include) && NoIncludeElem(d))
  }

  predicate ForeignKids(pat: string, k: Kids) {
    pat == "<!--esi" || (pat == CloseTag(Include) && NoIncludeElemKids(k))
  }

  lemma ElementDisjoint(n: Name, attrs: string, body: string, pat: string)
    requires Clean(attrs) && Disjoint(body, pat)
    requires pat == "<!--esi" || (pat == CloseTag(Include) && n != Include)
    ensures Disjoint(Element(n, attrs, body), pat)
  {
    OpenTagVsOther(n, attrs, pat);
    if pat == "<!--esi" { CloseTagVsOther(n, pat); } else { CloseTagVsCloseTag(n, Include); }
    hide Disjoint, OpenTag, CloseTag;
    DisjointConcat(OpenTag(n, attrs), body, pat);
    DisjointConcat(OpenTag(n, attrs) + body, CloseTag(n), pat);
  }

  lemma InertForeign(t: string, pat: string)
    requires Inert(t) && (pat == "<!--esi" || pat == CloseTag(Include))
    ensures Disjoint(t, pat)
  {
    InertVsTags(t, Include);
  }

  lemma {:induction false} DocDisjoint(d: Doc, pat: string)
    requires WellFormed(d) && Foreign(pat, d)
    ensures Disjoint(Print(d), pat)
    decreases d, 1
  {
    hide Disjoint, Inert, QuotesClosed, Clean;
    if !d.End? {
      HeadDisjoint(d, pat);
      DocDisjoint(d.rest, pat);
      DisjointConcat(Head(d), Print(d.rest), pat);
    } else {
      EmptyDisjoint(pat);
    }
  }

  lemma EmptyDisjoint(pat: string)
    ensures Disjoint("", pat)
  {
  }

  lemma {:induction false} HeadDisjoint(d: Doc, pat: string)
    requires WellFormed(d) && !d.End? && Foreign(pat, d)
    ensures Disjoint(Head(d), pat)
    decreases d, 0
  {
    hide Disjoint, Inert, QuotesClosed, Element, OpenTag, CloseTag;
    match d
    case Text(text, _) => InertForeign(text, pat);
    case IncludeTag(attrs, _) => OpenTagVsForeign(Include, attrs + "/", pat);
    case IncludeElem(attrs, body, _) =>
      DocDisjoint(body, pat);
      ElementDisjoint(Include, attrs, Print(body), pat);
    case CommentTag(attrs, _) => OpenTagVsForeign(Comment, attrs, pat);
    case Block(kind, attrs, body, _) =>
      DocDisjoint(body, pat);
      ElementDisjoint(kind, attrs, Print(body), pat);
    case TryElem(attrs, gap, attemptAttrs, attempt, alt, tail, _) =>
      InertForeign(gap, pat);
      InertForeign(tail, pat);
      DocDisjoint(attempt, pat);
      ElementDisjoint(Attempt, attemptAttrs, Print(attempt), pat);
      var a := gap + Element(Attempt, attemptAttrs, Print(attempt));
      DisjointConcat(gap, Element(Attempt, attemptAttrs, Print(attempt)), pat);
      if alt.ExceptElem? {
        InertForeign(alt.gap, pat);
        DocDisjoint(alt.body, pat);
        ElementDisjoint(Except, alt.attrs, Print(alt.body), pat);
        DisjointConcat(alt.gap, Element(Except, alt.attrs, Print(alt.body)), pat);
      } else {
        EmptyDisjoint(pat);
      }
      DisjointConcat(a, PrintAlt(alt), pat);
      DisjointConcat(a + PrintAlt(alt), tail, pat);
      ElementDisjoint(Try, attrs, a + PrintAlt(alt) + tail, pat);
    case ChooseElem(attrs, kids, tail, _) =>
      KidsDisjoint(kids, pat);
      InertForeign(tail, pat);
      DisjointConcat(PrintKids(kids), tail, pat);
      ElementDisjoint(Choose, attrs, PrintKids(kids) + tail, pat);
  }

  lemma OpenTagVsForeign(n: Name, attrs: string, pat: string)
    requires Clean(attrs) && (pat == "<!--esi" || pat == CloseTag(Include))
    ensures Disjoint(OpenTag(n, attrs), pat)
  {
    OpenTagVsOther(n, attrs, pat);
  }

  lemma {:induction false} KidsDisjoint(k: Kids, pat: string)
    requires WellFormedKids(k) && ForeignKids(pat, k)
    ensures Disjoint(PrintKids(k), pat)
    decreases k, 0
  {
    hide Disjoint, Inert, QuotesClosed, Element, OpenTag, CloseTag;
    if k.NoKids? {
      EmptyDisjoint(pat);
    } else {
      var name := if k.WhenElem? then When else Otherwise;
      var attrs := if k.WhenElem? then WhenAttrs(k.test, k.attrs) else k.attrs;
      InertForeign(k.gap, pat);
      DocDisjoint(k.body, pat);
      ElementDisjoint(name, attrs, Print(k.body), pat);
      DisjointConcat(k.gap, Element(name, attrs, Print(k.body)), pat);
      KidsDisjoint(k.more, pat);
      DisjointConcat(k.gap + Element(name, attrs, Print(k.body)), PrintKids(k.more), pat);
    }
  }

  // ---- Tokens ----

  function TagOf(d: Doc): (n: Name)
    requires !d.End? && !d.Text?
  {
    match d
    case IncludeTag(_, _) => Include
    case IncludeElem(_, _, _) => Include
    case CommentTag(_, _) => Comment
    case Block(kind, _, _, _) => kind
    case TryElem(_, _, _, _, _, _, _) => Try
    case ChooseElem(_, _, _, _) => Choose
  }

  /** The top-level nodes of a page, as tokens. */
  function DocTokens(d: Doc): seq<Token> {
    match d
    case End => [Static("")]
    case Text(text, rest) => if rest.End? then [Static(text)] else [Static(text)] + DocTokens(rest)
    case _ => [Esi(TagOf(d), Head(d))] + DocTokens(d.rest)
  }

  lemma OpenerUnique(s: string, n: Name, m: Name)
    requires Opener(n) <= s && Opener(m) <= s
    ensures n == m
  {
    assert forall k :: 0 <= k < 3 ==> NameText(n)[k] == Opener(n)[5 + k] == s[5 + k] == Opener(m)[5 + k];
    if n != m {
      var k := NamesDiffer(n, m);
    }
  }

  lemma EarliestAtStart(s: string, n: Name)
    requires n in SUPPORTED && Opener(n) <= s
    ensures Earliest(s, SUPPORTED) == Found(0, n)
  {
    assert s[0..] == s;
    IndexIs(s, Opener(n), 0);
    var f := Earliest(s, SUPPORTED);
    OpenerAt(s, f.tag);
    OpenerUnique(s, n, f.tag);
  }

  lemma {:induction false} EarliestSkips(t: string, s: string, tags: seq<Name>)
    requires Inert(t)
    ensures Earliest(t + s, tags)
         == match Earliest(s, tags) case NotFound => NotFound case Found(at, n) => Found(|t| + at, n)
  {
    hide Inert, Index, OccursAt, Opener, Disjoint;
    if tags != [] {
      EarliestSkips(t, s, tags[..|tags| - 1]);
      var n := tags[|tags| - 1];
      InertVsTags(t, n);
      IndexSkips(t, s, Opener(n));
    }
  }

  lemma {:induction false} EarliestNowhere(tags: seq<Name>)
    ensures Earliest("", tags) == NotFound
  {
    if tags != [] {
      EarliestNowhere(tags[..|tags| - 1]);
    }
  }

  lemma BlockEnds(n: Name, attrs: string, body: string, s: string)
    requires IsBlock(n) && Clean(attrs) && Crosses(body, ChildMarks(n, n))
    ensures Scan(Element(n, attrs, body) + s, BlockMarks(n), -1) == |OpenTag(n, attrs)| + |body|
  {
    hide Scan, OpenTag, CloseTag, Crosses, Clean;
    assert BlockMarks(n) == ChildMarks(n, n);
    assert Element(n, attrs, body) + s == OpenTag(n, attrs) + (body + (CloseTag(n) + s));
    EntersOpenTag(n, attrs, body + (CloseTag(n) + s), n, n, -1);
    CrossedAt(body, ChildMarks(n, n), CloseTag(n) + s, 0);
    LeavesCloseTag(n, s, n, n, 0);
  }

  lemma BlockHeadEnds(n: Name, attrs: string, body: string, s: string)
    requires IsBlock(n) && Clean(attrs) && Crosses(body, ChildMarks(n, n))
    ensures n in SUPPORTED && Opener(n) <= Element(n, attrs, body) + s
    ensures EndOf(Element(n, attrs, body) + s, n) == |Element(n, attrs, body)|
  {
    OpenTagShape(n, attrs);
    OpenerOfElement(n, attrs, body, s);
    BlockEnds(n, attrs, body, s);
  }

  lemma OpenerOfElement(n: Name, attrs: string, body: string, s: string)
    ensures Opener(n) <= Element(n, attrs, body) + s
  {
    hide Opener, CloseTag;
    var rest := attrs + ">" + body + CloseTag(n) + s;
    assert Element(n, attrs, body) + s == Opener(n) + rest;
  }

  lemma TagEnds(n: Name, attrs: string, s: string)
    requires Clean(attrs) && (n == Comment || (n == Include && attrs != "" && attrs[|attrs| - 1] == '/'))
    ensures n in SUPPORTED && Opener(n) <= OpenTag(n, attrs) + s
    ensures EndOf(OpenTag(n, attrs) + s, n) == |OpenTag(n, attrs)|
  {
    OpenTagShape(n, attrs);
    OpenTagEnd(n, attrs, s);
    assert Opener(n) <= OpenTag(n, attrs) + s;
    assert n == Include ==> (OpenTag(n, attrs) + s)[|OpenTag(n, attrs)| - 2] == '/';
  }

  lemma IncludeTagIsOpen(attrs: string, s: string)
    requires attrs == "" || attrs[|attrs| - 1] != '/'
    ensures (OpenTag(Include, attrs) + s)[|OpenTag(Include, attrs)| - 2] != '/'
  {
    var o := OpenTag(Include, attrs);
    if attrs == "" { assert o[|o| - 2] == NameText(Include)[6]; }
  }

  lemma IncludeElemEnds(attrs: string, body: string, s: string)
    requires Clean(attrs) && (attrs == "" || attrs[|attrs| - 1] != '/')
    requires Disjoint(body, CloseTag(Include))
    ensures Opener(Include) <= Element(Include, attrs, body) + s
    ensures EndOf(Element(Include, attrs, body) + s, Include) == |Element(Include, attrs, body)|
  {
    hide Disjoint, OpenTag, CloseTag, Index, OccursAt, Opener, Clean, Scan;
    OpenerOfElement(Include, attrs, body, s);
    var o, c := OpenTag(Include, attrs), CloseTag(Include);
    assert Element(Include, attrs, body) + s == o + (body + (c + s));
    OpenTagEnd(Include, attrs, body + (c + s));
    IncludeTagIsOpen(attrs, body + (c + s));
    OpenTagVsForeign(Include, attrs, c);
    IndexSkips(o, body + (c + s), c);
    IndexSkips(body, c + s, c);
    IndexAtStart(c, s, c);
  }

  lemma {:induction false} HeadEnds(d: Doc, s: string)
    requires WellFormed(d) && !d.End? && !d.Text?
    ensures TagOf(d) in SUPPORTED && Opener(TagOf(d)) <= Head(d) + s
    ensures EndOf(Head(d) + s, TagOf(d)) == |Head(d)|
  {
    hide EndOf, Opener, Element, OpenTag, CloseTag, Crosses, Disjoint, Inert, QuotesClosed, Scan;
    match d
    case IncludeTag(attrs, _) => TagEnds(Include, attrs + "/", s);
    case IncludeElem(attrs, body, _) =>
      DocDisjoint(body, CloseTag(Include));
      IncludeElemEnds(attrs, Print(body), s);
    case CommentTag(attrs, _) => TagEnds(Comment, attrs, s);
    case Block(kind, attrs, body, _) =>
      DocCrosses(body, kind, kind);
      BlockHeadEnds(kind, attrs, Print(body), s);
    case TryElem(attrs, gap, attemptAttrs, attempt, alt, tail, _) =>
      TryBodyCrosses(d, Try, Try);
      BlockHeadEnds(Try, attrs, TryBody(d), s);
    case ChooseElem(attrs, kids, tail, _) =>
      KidsCross(kids, Choose, Choose);
      CrossesInert(tail, Choose, Choose);
      CrossesConcat(PrintKids(kids), tail, ChildMarks(Choose, Choose));
      BlockHeadEnds(Choose, attrs, PrintKids(kids) + tail, s);
  }

  function TryBody(d: Doc): string
    requires d.TryElem?
  {
    d.gap + Element(Attempt, d.attemptAttrs, Print(d.attempt)) + PrintAlt(d.alt) + d.tail
  }

  lemma {:induction false} TryBodyCrosses(d: Doc, n: Name, m: Name)
    requires WellFormed(d) && d.TryElem? && Counted(n) && Counted(m)
    ensures Crosses(TryBody(d), ChildMarks(n, m))
  {
    hide Element, OpenTag, CloseTag, Crosses, Disjoint, Inert, QuotesClosed, Scan;
    var k := ChildMarks(n, m);
    var a := Element(Attempt, d.attemptAttrs, Print(d.attempt));
    CrossesInert(d.gap, n, m);
    DocCrosses(d.attempt, n, m);
    CrossesElement(Attempt, d.attemptAttrs, Print(d.attempt), n, m);
    CrossesConcat(d.gap, a, k);
    AltCrosses(d.alt, n, m);
    CrossesConcat(d.gap + a, PrintAlt(d.alt), k);
    CrossesInert(d.tail, n, m);
    CrossesConcat(d.gap + a + PrintAlt(d.alt), d.tail, k);
  }

  lemma PrintText(d: Doc)
    requires d.Text?
    ensures Print(d) == d.text + Print(d.rest)
  {
  }

  lemma {:induction false} CutOfDoc(d: Doc)
    requires WellFormed(d)
    ensures match d
            case End => FirstCut(Print(d)) == Last([Static("")])
            case Text(text, rest) =>
              if rest.End? then FirstCut(Print(d)) == Last([Static(text)])
              else FirstCut(Print(d)) == More([Static(text), Esi(TagOf(rest), Head(rest))], |text| + |Head(rest)|)
            case _ => FirstCut(Print(d)) == More([Esi(TagOf(d), Head(d))], |Head(d)|)
  {
    hide EndOf, Opener, Head, Inert, Earliest, Tokens;
    match d
    case End => EarliestNowhere(SUPPORTED);
    case Text(text, rest) =>
      PrintText(d);
      EarliestSkips(text, Print(rest), SUPPORTED);
      if rest.End? {
        EarliestNowhere(SUPPORTED);
        assert Print(d) == text;
      } else {
        HeadEnds(rest, Print(rest.rest));
        EarliestAtStart(Print(rest), TagOf(rest));
        Between(text, Head(rest), Print(rest.rest));
      }
    case _ =>
      HeadEnds(d, Print(d.rest));
      EarliestAtStart(Print(d), TagOf(d));
      Between("", Head(d), Print(d.rest));
      assert "" + (Head(d) + Print(d.rest)) == Print(d);
  }

  lemma Between(a: string, b: string, c: string)
    ensures var s := a + (b + c);
            s[|a|..] == b + c && s[..|a|] == a && s[|a|..|a| + |b|] == b
  {
  }

  /** Tokenizing a printed page gives exactly its top-level nodes. */
  lemma {:induction false} TokensOfDoc(d: Doc)
    requires WellFormed(d)
    ensures Tokens(Print(d)) == DocTokens(d)
    decreases d
  {
    hide FirstCut, Head, Inert, TagOf, Print, Tokens;
    CutOfDoc(d);
    CutStep(Print(d));
    if d.Text? && !d.rest.End? {
      PrintText(d);
      PrintHead(d.rest);
      TokensOfDoc(d.rest.rest);
      PrefixAway(d.text, Head(d.rest), Print(d.rest.rest));
      assert [Static(d.text)] + ([Esi(TagOf(d.rest), Head(d.rest))] + DocTokens(d.rest.rest))
          == [Static(d.text), Esi(TagOf(d.rest), Head(d.rest))] + DocTokens(d.rest.rest);
    } else if !d.Text? && !d.End? {
      PrintHead(d);
      TokensOfDoc(d.rest);
      PrefixAway("", Head(d), Print(d.rest));
      assert "" + (Head(d) + Print(d.rest)) == Print(d);
    }
  }

  lemma CutStep(s: string)
    ensures FirstCut(s).Last? ==> Tokens(s) == FirstCut(s).tokens
    ensures FirstCut(s).More? ==> Tokens(s) == FirstCut(s).tokens + Tokens(s[FirstCut(s).skip..])
  {
    hide FirstCut;
  }

  lemma PrintHead(d: Doc)
    requires !d.Text? && !d.End?
    ensures Print(d) == Head(d) + Print(d.rest)
  {
  }

  lemma PrefixAway(a: string, b: string, c: string)
    ensures (a + (b + c))[|a| + |b|..] == c
  {
  }

  // ---- The bodies inside a try element ----

  /** Opening a child element: its body starts behind its tag and ends where its scanner says. */
  lemma ChildBody(child: Name, block: Name, attrs: string, body: string, s: string)
    requires Clean(attrs) && Crosses(body, ChildMarks(child, block))
    ensures
      var t := Element(child, attrs, body) + s;
      var b := |OpenTag(child, attrs)|;
      && AfterTag(t) == Body(b)
      && t[b..] == body + (CloseTag(child) + s)
      && Scan(t[b..], ChildMarks(child, block), 0) == |body|
      && t[b..][..|body|] == body
      && t[b..][|body| + |CloseTag(child)|..] == s
      && t[b + |body| + |CloseTag(child)|..] == s
  {
    hide Scan, OpenTag, CloseTag, Crosses, Clean, Index;
    var t := Element(child, attrs, body) + s;
    var rest := body + (CloseTag(child) + s);
    assert t == OpenTag(child, attrs) + rest;
    OpenTagEnd(child, attrs, rest);
    CrossedAt(body, ChildMarks(child, block), CloseTag(child) + s, 0);
    LeavesCloseTag(child, s, child, block, 0);
  }

  /** Searching for a child's opener from a gap that precedes it. */
  lemma OpenerAfterGap(gap: string, n: Name, attrs: string, body: string, s: string)
    requires Inert(gap) && Clean(attrs)
    ensures Index(gap + Element(n, attrs, body) + s, Opener(n)) == |gap|
    ensures (gap + Element(n, attrs, body) + s)[|gap|..] == Element(n, attrs, body) + s
  {
    OpenerOfElement(n, attrs, body, s);
    InertVsTags(gap, n);
    hide Element, Opener, Index, OccursAt, Inert, Disjoint;
    assert gap + Element(n, attrs, body) + s == gap + (Element(n, attrs, body) + s);
    IndexSkips(gap, Element(n, attrs, body) + s, Opener(n));
    assert Element(n, attrs, body) + s + "" == Element(n, attrs, body) + s;
    IndexAtStart(Element(n, attrs, body) + s, "", Opener(n));
  }

  /** Another tag is found only later. */
  lemma OtherAfterGap(gap: string, n: Name, attrs: string, body: string, s: string, pat: string)
    requires Inert(gap) && Clean(attrs) && Disjoint(gap, pat) && Disjoint(OpenTag(n, attrs), pat)
    ensures var i := Index(gap + Element(n, attrs, body) + s, pat);
            i == -1 || i > |gap|
  {
    hide OpenTag, CloseTag, Index, OccursAt, Inert, Disjoint;
    var rest := body + CloseTag(n) + s;
    assert gap + Element(n, attrs, body) + s == gap + (OpenTag(n, attrs) + rest);
    IndexSkips(gap, OpenTag(n, attrs) + rest, pat);
    IndexSkips(OpenTag(n, attrs), rest, pat);
  }

  lemma AttemptAfterGap(gap: string, attrs: string, body: string, s: string)
    requires Inert(gap) && Clean(attrs)
    ensures AttemptAt(gap + Element(Attempt, attrs, body) + s) == |gap|
  {
    OpenerAfterGap(gap, Attempt, attrs, body, s);
    InertVsTags(gap, Try);
    OpenTagVsOpener(Attempt, attrs, Try);
    OtherAfterGap(gap, Attempt, attrs, body, s, Opener(Try));
  }

  function AltBody(a: Alt): string {
    if a.NoAlt? then "" else Print(a.body)
  }

  lemma {:induction false} ExceptOfAlt(a: Alt, tail: string)
    requires WellFormedAlt(a) && Inert(tail)
    ensures ExceptBody(PrintAlt(a) + (tail + CloseTag(Try))) == AltBody(a)
  {
    hide Inert, Scan, Crosses, OccursAt, Index, Disjoint, Opener, CloseTag, OpenTag, Element;
    match a
    case NoAlt =>
      assert PrintAlt(a) + (tail + CloseTag(Try)) == tail + CloseTag(Try);
      NoOpenerInTail(tail, Try, Except);
    case ExceptElem(gap, attrs, body) =>
      var s := tail + CloseTag(Try);
      assert PrintAlt(a) + s == gap + Element(Except, attrs, Print(body)) + s;
      OpenerAfterGap(gap, Except, attrs, Print(body), s);
      DocCrosses(body, Except, Try);
      ChildBody(Except, Try, attrs, Print(body), s);
  }

  lemma NoOpenerInTail(tail: string, n: Name, m: Name)
    requires Inert(tail)
    ensures Index(tail + CloseTag(n), Opener(m)) == -1
  {
    InertVsTags(tail, m);
    CloseTagVsOther(n, Opener(m));
    hide OccursAt, Index, Disjoint, Opener, CloseTag;
    IndexSkips(tail, CloseTag(n), Opener(m));
    assert CloseTag(n) + "" == CloseTag(n);
    IndexSkips(CloseTag(n), "", Opener(m));
  }

  /** Extracting from a printed try element gives back its attempt and except bodies. */
  lemma {:induction false} ExtractTryOfDoc(d: Doc)
    requires WellFormed(d) && d.TryElem?
    ensures ExtractTry(Head(d)) == TryParts(Print(d.attempt), AltBody(d.alt))
  {
    hide Inert, Scan, Crosses, OccursAt, Index, Disjoint, Opener, CloseTag, OpenTag, AttemptAt, ExceptBody, ChildMarks;
    var raw := Head(d);
    var after := PrintAlt(d.alt) + (d.tail + CloseTag(Try));
    var inner := d.gap + Element(Attempt, d.attemptAttrs, Print(d.attempt)) + after;
    OpenedTry(d, after, inner);
    AttemptAfterGap(d.gap, d.attemptAttrs, Print(d.attempt), after);
    OpenerAfterGap(d.gap, Attempt, d.attemptAttrs, Print(d.attempt), after);
    DocCrosses(d.attempt, Attempt, Try);
    hide Element;
    ChildBody(Attempt, Try, d.attemptAttrs, Print(d.attempt), after);
    ExceptOfAlt(d.alt, d.tail);
  }

  lemma OpenedTry(d: Doc, after: string, inner: string)
    requires WellFormed(d) && d.TryElem?
    requires after == PrintAlt(d.alt) + (d.tail + CloseTag(Try))
    requires inner == d.gap + Element(Attempt, d.attemptAttrs, Print(d.attempt)) + after
    ensures AfterTag(Head(d)) == Body(|OpenTag(Try, d.attrs)|)
    ensures Head(d)[|OpenTag(Try, d.attrs)|..] == inner
  {
    hide OpenTag, CloseTag, Print, PrintAlt, Index, Inert;
    assert Head(d) == OpenTag(Try, d.attrs) + inner;
    OpenTagEnd(Try, d.attrs, inner);
  }

  // ---- The children of a choose element ----

  function WhenBlocks(k: Kids): seq<WhenBlock> {
    match k
    case NoKids => []
    case WhenElem(_, test, _, body, more) => [WhenBlock(test, Print(body))] + WhenBlocks(more)
    case OtherwiseElem(_, _, _, more) => WhenBlocks(more)
  }

  /** The last otherwise body, or `before` when there is none. */
  function OtherwiseBody(k: Kids, before: string): string {
    match k
    case NoKids => before
    case WhenElem(_, _, _, _, more) => OtherwiseBody(more, before)
    case OtherwiseElem(_, _, body, more) => OtherwiseBody(more, Print(body))
  }

  /** A direct child is found right behind the gap before it; no other tag is found earlier. */
  lemma ChildAfterGap(gap: string, n: Name, attrs: string, body: string, s: string)
    requires Inert(gap) && Clean(attrs) && (n == When || n == Otherwise)
    ensures
      var t := gap + Element(n, attrs, body) + s;
      var m := if n == When then Otherwise else When;
      && ChildTag(t, Opener(n)) == |gap|
      && (ChildTag(t, Opener(m)) == -1 || ChildTag(t, Opener(m)) > |gap|)
      && (ChildTag(t, CloseTag(Choose)) == -1 || ChildTag(t, CloseTag(Choose)) > |gap|)
  {
    var m := if n == When then Otherwise else When;
    OpenerAfterGap(gap, n, attrs, body, s);
    InertVsTags(gap, m);
    InertVsTags(gap, Choose);
    OpenTagVsOpener(n, attrs, m);
    OpenTagVsOpener(n, attrs, Choose);
    OpenTagVsOther(n, attrs, CloseTag(Choose));
    OtherAfterGap(gap, n, attrs, body, s, Opener(m));
    OtherAfterGap(gap, n, attrs, body, s, Opener(Choose));
    OtherAfterGap(gap, n, attrs, body, s, CloseTag(Choose));
    hide Index, Element, Opener, CloseTag, Inert, Disjoint, Scan, OccursAt, OpenTag;
    ChildTagNotBefore(gap + Element(n, attrs, body) + s, Opener(m));
    ChildTagNotBefore(gap + Element(n, attrs, body) + s, CloseTag(Choose));
  }

  lemma ChildTagNotBefore(s: string, tag: string)
    ensures ChildTag(s, tag) == -1 || (Index(s, tag) != -1 && ChildTag(s, tag) >= Index(s, tag))
  {
    hide ChildTag;
  }

  lemma WhenTagText(test: string, attrs: string)
    ensures OpenTag(When, WhenAttrs(test, attrs)) == "<esi:when test=\"" + test + "\"" + attrs + ">"
  {
    assert NameText(When) == "when";
    assert "<esi:" + "when" + " test=\"" == "<esi:when test=\"";
  }

  /** Reading the test attribute of a printed when tag. */
  lemma WhenTagShape(test: string, attrs: string, s: string)
    requires Clean(test) && '"' !in test && Clean(attrs)
    ensures
      var o := OpenTag(When, WhenAttrs(test, attrs));
      var t := o + s;
      && Index(t, "test=\"") == 10
      && Index(t[16..], "\"") == |test|
      && t[16..16 + |test|] == test
      && AfterTag(t[16 + |test|..]) == Body(2 + |attrs|)
      && |o| == 18 + |test| + |attrs|
  {
    hide OpenTag, WhenAttrs, Index;
    var o := OpenTag(When, WhenAttrs(test, attrs));
    var t := o + s;
    var rest := "\"" + attrs + ">" + s;
    WhenTagText(test, attrs);
    assert t == "<esi:when test=\"" + test + rest;
    TestAttribute(test, rest);
    assert t[16..] == test + rest;
    assert t[16 + |test|..] == rest;
    assert forall j :: 0 <= j < 1 + |attrs| ==> rest[j..][0] == ("\"" + attrs)[j];
    IndexIs(rest, ">", 1 + |attrs|);
  }

  lemma TestAttribute(test: string, s: string)
    requires '"' !in test && |s| > 0 && s[0] == '"'
    ensures Index("<esi:when test=\"" + test + s, "test=\"") == 10
    ensures Index(test + s, "\"") == |test|
  {
    var t := "<esi:when test=\"" + test + s;
    assert t[10..] == "test=\"" + test + s;
    assert forall j :: 0 <= j < 10 ==> t[j..][0] == "<esi:when "[j];
    IndexIs(t, "test=\"", 10);
    assert forall j :: 0 <= j < |test| ==> (test + s)[j..][0] == test[j];
    IndexIs(test + s, "\"", |test|);
  }

  lemma WhenAttrsClean(test: string, attrs: string)
    requires Clean(test) && Clean(attrs)
    ensures Clean(WhenAttrs(test, attrs))
  {
  }

  lemma ReadWhenElement(test: string, attrs: string, body: string, s: string, acc: Branches)
    requires Clean(test) && '"' !in test && Clean(attrs) && Crosses(body, ChildMarks(When, Choose))
    ensures ReadWhen(Element(When, WhenAttrs(test, attrs), body) + s, acc)
         == Next(|Element(When, WhenAttrs(test, attrs), body)|, acc.(whens := acc.whens + [WhenBlock(test, body)]))
  {
    hide Scan, Crosses, ChildMarks, OpenTag, CloseTag, Index, OccursAt, AfterTag, WhenAttrs, Clean, ReadWhen;
    var wa := WhenAttrs(test, attrs);
    WhenAttrsClean(test, attrs);
    var t := Element(When, wa, body) + s;
    ChildBody(When, Choose, wa, body, s);
    var rest := body + (CloseTag(When) + s);
    assert t == OpenTag(When, wa) + rest;
    WhenTagShape(test, attrs, rest);
    ReadWhenAt(t, test, 2 + |attrs|, |body|, acc);
  }

  lemma ReadWhenAt(t: string, test: string, a: nat, n: nat, acc: Branches)
    requires Index(t, "test=\"") == 10 && |t| >= 16 + |test| + a && Index(t[16..], "\"") == |test|
    requires t[16..16 + |test|] == test && AfterTag(t[16 + |test|..]) == Body(a)
    requires Scan(t[16 + |test| + a..], ChildMarks(When, Choose), 0) == n
    ensures var b := 16 + |test| + a;
            && b + n + |CloseTag(When)| <= |t|
            && ReadWhen(t, acc)
            == Next(b + n + |CloseTag(When)|, acc.(whens := acc.whens + [WhenBlock(test, t[b..][..n])]))
  {
    hide Scan, CloseTag, Index, AfterTag;
    var b := 16 + |test| + a;
    assert t[b..b + n] == t[b..][..n];
  }

  lemma ReadOtherwiseElement(attrs: string, body: string, s: string, acc: Branches)
    requires Clean(attrs) && Crosses(body, ChildMarks(Otherwise, Choose))
    ensures ReadOtherwise(Element(Otherwise, attrs, body) + s, acc)
         == Next(|Element(Otherwise, attrs, body)|, acc.(otherwise := body))
  {
    hide Scan, Crosses, ChildMarks, OpenTag, CloseTag, Index;
    var t := Element(Otherwise, attrs, body) + s;
    ChildBody(Otherwise, Choose, attrs, body, s);
    assert t[|OpenTag(Otherwise, attrs)|..|OpenTag(Otherwise, attrs)| + |body|] == body;
  }

  lemma {:induction false} ReadKid(k: Kids, s: string, acc: Branches)
    requires WellFormedKids(k) && !k.NoKids?
    ensures
      var skip := |k.gap| + |KidText(k)|;
      && PrintKids(k) + s == k.gap + KidText(k) + (PrintKids(k.more) + s)
      && ReadChild(PrintKids(k) + s, acc)
      == Next(skip, if k.WhenElem? then acc.(whens := acc.whens + [WhenBlock(k.test, Print(k.body))])
                    else acc.(otherwise := Print(k.body)))
  {
    hide Scan, Crosses, ChildMarks, Element, Inert, ChildTag, ReadWhen, ReadOtherwise, Opener, CloseTag, Index,
         OccursAt;
    var after := PrintKids(k.more) + s;
    assert PrintKids(k) + s == k.gap + KidText(k) + after;
    assert (k.gap + KidText(k) + after)[|k.gap|..] == KidText(k) + after;
    if k.WhenElem? {
      ChildAfterGap(k.gap, When, WhenAttrs(k.test, k.attrs), Print(k.body), after);
      DocCrosses(k.body, When, Choose);
      ReadWhenElement(k.test, k.attrs, Print(k.body), after, acc);
    } else {
      ChildAfterGap(k.gap, Otherwise, k.attrs, Print(k.body), after);
      DocCrosses(k.body, Otherwise, Choose);
      ReadOtherwiseElement(k.attrs, Print(k.body), after, acc);
    }
  }

  function KidText(k: Kids): string
    requires !k.NoKids?
  {
    if k.WhenElem? then Element(When, WhenAttrs(k.test, k.attrs), Print(k.body))
    else Element(Otherwise, k.attrs, Print(k.body))
  }

  lemma NoMoreKids(tail: string, acc: Branches)
    requires Inert(tail)
    ensures ReadChild(tail + CloseTag(Choose), acc) == Stop(acc)
  {
    NoOpenerInTail(tail, Choose, When);
    NoOpenerInTail(tail, Choose, Otherwise);
    hide Scan, Inert, Index, Opener, CloseTag;
  }

  lemma {:induction false} ChooseFromKids(k: Kids, tail: string, acc: Branches)
    requires WellFormedKids(k) && Inert(tail)
    ensures ChooseFrom(PrintKids(k) + (tail + CloseTag(Choose)), acc)
         == Branches(acc.whens + WhenBlocks(k), OtherwiseBody(k, acc.otherwise))
    decreases k
  {
    hide Inert, CloseTag, ReadChild, WellFormed, KidText;
    var s := tail + CloseTag(Choose);
    if k.NoKids? {
      assert PrintKids(k) + s == s;
      NoMoreKids(tail, acc);
    } else {
      ReadKid(k, s, acc);
      var found := ReadChild(PrintKids(k) + s, acc).found;
      assert (PrintKids(k) + s)[|k.gap| + |KidText(k)|..] == PrintKids(k.more) + s;
      ChooseFromKids(k.more, tail, found);
    }
  }

  /** Extracting from a printed choose element gives back its whens in order and its last otherwise body. */
  lemma {:induction false} ExtractChooseOfDoc(d: Doc)
    requires WellFormed(d) && d.ChooseElem?
    ensures ExtractChoose(Head(d)) == Branches(WhenBlocks(d.kids), OtherwiseBody(d.kids, ""))
  {
    hide Inert, OpenTag, CloseTag, ChooseFrom, Index;
    var inner := PrintKids(d.kids) + (d.tail + CloseTag(Choose));
    assert Head(d) == OpenTag(Choose, d.attrs) + inner;
    OpenTagEnd(Choose, d.attrs, inner);
    ChooseFromKids(d.kids, d.tail, Branches([], ""));
  }
}
