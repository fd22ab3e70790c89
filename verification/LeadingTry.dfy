/** Where `extractTryBlocks` departs from its own description: it means to pass over nested try elements.
    In front of the attempt `findTryClose` leads it to the close of the enclosing try; behind the attempt it
    takes the first except opener there is, however deep. */
module LeadingTry {
  import opened Options
  import opened Strings
  import opened Tags
  import opened Scanners
  import opened Tokenizer
  import opened Blocks
  import opened Document
  import opened Crossing
  import opened RoundTrip
  import opened LeadingBlock

  // ---- In front of the attempt ----

  lemma NothingInClose()
    ensures AttemptAt(CloseTag(Try)) == -1
  {
    InertEmpty();
    NoOpenerInTail("", Try, Attempt);
    assert "" + CloseTag(Try) == CloseTag(Try);
  }

  lemma InertEmpty()
    ensures Inert("")
  {
  }

  lemma SearchIsLost(s: Split, x: string)
    requires s.Valid() && s.n == Try && Crosses(x, BlockMarks(Try))
    ensures AttemptAt(s.Text() + x + CloseTag(Try)) == -1
  {
    hide Disjoint, Opener, Crosses, OpenTag, Element, Index, OccursAt, Scan, Clean, CloseTag, BlockMarks;
    var close := CloseTag(Try);
    var behind := s.after + x + close;
    var elem := Element(Try, s.attrs, s.body);
    ScanFindsTheLastClose(s, x);
    SplitIndexes(s, behind);
    var all := s.before + (elem + behind);
    assert all[|s.before|..] == elem + behind;
    assert all[|s.before| + (|elem| + |s.after + x|)..] == close;
    NothingInClose();
  }

  lemma AttemptAfterLead(lead: Doc, attrs: string, body: string, s: string)
    requires WellFormed(lead) && !Has(lead, Try) && Clean(attrs)
    ensures AttemptAt(Print(lead) + (Element(Attempt, attrs, body) + s)) == |Print(lead)|
  {
    hide Inert, Scan, OccursAt, Index, Disjoint, Opener, CloseTag, OpenTag, Clean, Has, WellFormed, Print, Mark;
    var t := Element(Attempt, attrs, body) + s;
    ChildIsMark(Try, Attempt);
    DocAvoids(lead, Opener(Try), Try);
    DocAvoids(lead, Opener(Attempt), Try);
    IndexSkips(Print(lead), t, Opener(Try));
    IndexSkips(Print(lead), t, Opener(Attempt));
    OpenerOfElement(Attempt, attrs, body, s);
    assert t + "" == t;
    IndexAtStart(t, "", Opener(Attempt));
    assert t == OpenTag(Attempt, attrs) + (body + CloseTag(Attempt) + s);
    OpenTagVsOpener(Attempt, attrs, Try);
    IndexSkips(OpenTag(Attempt, attrs), body + CloseTag(Attempt) + s, Opener(Try));
  }

  // ---- Behind the attempt ----

  function OrElse(a: Option<Doc>, b: Option<Doc>): Option<Doc> {
    if a.Some? then a else b
  }

  /** The body of the page's first except element, in the order of the text. */
  function FirstExcept(d: Doc): Option<Doc> {
    match d
    case End => None
    case Text(_, rest) => FirstExcept(rest)
    case IncludeTag(_, rest) => FirstExcept(rest)
    case IncludeElem(_, body, rest) => OrElse(FirstExcept(body), FirstExcept(rest))
    case CommentTag(_, rest) => FirstExcept(rest)
    case Block(_, _, body, rest) => OrElse(FirstExcept(body), FirstExcept(rest))
    case TryElem(_, _, _, attempt, alt, _, rest) =>
      OrElse(FirstExcept(attempt), OrElse(if alt.NoAlt? then None else Some(alt.body), FirstExcept(rest)))
    case ChooseElem(_, kids, _, rest) => OrElse(FirstExceptInKids(kids), FirstExcept(rest))
  }

  function FirstExceptInKids(k: Kids): Option<Doc> {
    if k.NoKids? then None else OrElse(FirstExcept(k.body), FirstExceptInKids(k.more))
  }

  /** A text cut at an except element with nothing like one before it. */
  datatype Cut = Cut(before: string, attrs: string, body: Doc, after: string) {
    function Text(): string {
      before + (Element(Except, attrs, Print(body)) + after)
    }

    predicate Valid() {
      Disjoint(before, Opener(Except)) && Clean(attrs) && WellFormed(body)
    }
  }

  lemma WidenCut(pre: string, c: Cut, post: string) returns (r: Cut)
    requires c.Valid() && Disjoint(pre, Opener(Except))
    ensures r.Valid() && r.body == c.body && r.Text() == pre + c.Text() + post
  {
    hide Disjoint, Opener, Element, Clean, Print, WellFormed;
    DisjointConcat(pre, c.before, Opener(Except));
    r := Cut(pre + c.before, c.attrs, c.body, c.after + post);
  }

  lemma WidenCutElement(k: Name, attrs: string, c: Cut) returns (r: Cut)
    requires c.Valid() && Clean(attrs) && k != Except
    ensures r.Valid() && r.body == c.body && r.Text() == Element(k, attrs, c.Text())
  {
    hide Disjoint, Opener, OpenTag, CloseTag, Clean, Cut.Text, WellFormed;
    OpenTagVsOpener(k, attrs, Except);
    r := WidenCut(OpenTag(k, attrs), c, CloseTag(k));
  }

  lemma CutAtStart(c: Cut, post: string) returns (r: Cut)
    requires c.Valid()
    ensures r.Valid() && r.body == c.body && r.Text() == c.Text() + post
  {
    hide Disjoint, Opener, Clean, Cut.Text, WellFormed;
    EmptyDisjoint(Opener(Except));
    r := WidenCut("", c, post);
    assert "" + c.Text() + post == c.Text() + post;
  }

  lemma ExceptIsMark()
    ensures Mark(Opener(Except), Except) && IsSought(Except)
  {
  }

  lemma {:induction false} CutOfPage(d: Doc) returns (c: Cut)
    requires WellFormed(d) && Has(d, Except)
    ensures c.Valid() && c.Text() == Print(d) && FirstExcept(d) == Some(c.body)
    decreases d, 2
  {
    hide Disjoint, Opener, Element, Clean, Cut.Valid, Cut.Text, Inert, Mark;
    if HeadHas(d, Except) {
      c := CutOfHead(d);
      c := CutAtStart(c, Print(d.rest));
    } else {
      ExceptIsMark();
      HeadAvoids(d, Opener(Except), Except);
      NoneInHead(d);
      c := CutOfPage(d.rest);
      c := WidenCut(Head(d), c, "");
      assert Head(d) + Print(d.rest) + "" == Print(d);
    }
  }

  /** The first except of the first node, if it holds one, is the first of the page. */
  lemma {:induction false} CutOfHead(d: Doc) returns (c: Cut)
    requires WellFormed(d) && !d.End? && HeadHas(d, Except)
    ensures c.Valid() && c.Text() == Head(d) && FirstExcept(d) == Some(c.body)
    decreases d, 1
  {
    hide Disjoint, Opener, Element, Cut.Valid, Cut.Text, Inert, Mark;
    match d
    case IncludeElem(attrs, body, _) =>
      c := CutOfPage(body);
      c := WidenCutElement(Include, attrs, c);
    case Block(kind, attrs, body, _) =>
      c := CutOfPage(body);
      c := WidenCutElement(kind, attrs, c);
    case TryElem(attrs, _, _, _, _, tail, _) =>
      c := CutOfTry(d);
      c := CutAtStart(c, tail);
      c := WidenCutElement(Try, attrs, c);
    case ChooseElem(attrs, kids, tail, _) =>
      c := CutOfKids(kids);
      c := CutAtStart(c, tail);
      c := WidenCutElement(Choose, attrs, c);
  }

  lemma {:induction false} CutOfTry(d: Doc) returns (c: Cut)
    requires WellFormed(d) && d.TryElem? && HeadHas(d, Except)
    ensures c.Valid() && FirstExcept(d) == Some(c.body)
    ensures c.Text() == d.gap + Element(Attempt, d.attemptAttrs, Print(d.attempt)) + PrintAlt(d.alt)
    decreases d, 0
  {
    hide Disjoint, Opener, Element, Cut.Valid, Cut.Text, Inert, Mark;
    var a := Element(Attempt, d.attemptAttrs, Print(d.attempt));
    InertVsTags(d.gap, Except);
    if Has(d.attempt, Except) {
      c := CutOfPage(d.attempt);
      c := WidenCutElement(Attempt, d.attemptAttrs, c);
      c := WidenCut(d.gap, c, PrintAlt(d.alt));
    } else {
      NoneInPage(d.attempt);
      ExceptIsMark();
      DocAvoids(d.attempt, Opener(Except), Except);
      ElementAvoids(Attempt, d.attemptAttrs, Print(d.attempt), Opener(Except), Except);
      DisjointConcat(d.gap, a, Opener(Except));
      c := CutOfAlt(d.alt);
      c := WidenCut(d.gap + a, c, "");
      assert d.gap + a + PrintAlt(d.alt) + "" == d.gap + a + PrintAlt(d.alt);
    }
  }

  lemma CutOfAlt(a: Alt) returns (c: Cut)
    requires WellFormedAlt(a) && a.ExceptElem?
    ensures c.Valid() && c.Text() == PrintAlt(a) && c.body == a.body
  {
    hide Disjoint, Opener, Element, Inert;
    InertVsTags(a.gap, Except);
    c := Cut(a.gap, a.attrs, a.body, "");
    assert Element(Except, a.attrs, Print(a.body)) + "" == Element(Except, a.attrs, Print(a.body));
  }

  lemma {:induction false} CutOfKids(k: Kids) returns (c: Cut)
    requires WellFormedKids(k) && HasKids(k, Except)
    ensures c.Valid() && c.Text() == PrintKids(k) && FirstExceptInKids(k) == Some(c.body)
    decreases k, 0
  {
    hide Disjoint, Opener, Element, Cut.Valid, Cut.Text, Inert, Mark;
    var name := if k.WhenElem? then When else Otherwise;
    var attrs := if k.WhenElem? then WhenAttrs(k.test, k.attrs) else k.attrs;
    InertVsTags(k.gap, Except);
    if Has(k.body, Except) {
      c := CutOfPage(k.body);
      c := WidenCutElement(name, attrs, c);
      c := WidenCut(k.gap, c, PrintKids(k.more));
    } else {
      NoneInPage(k.body);
      ExceptIsMark();
      DocAvoids(k.body, Opener(Except), Except);
      ElementAvoids(name, attrs, Print(k.body), Opener(Except), Except);
      DisjointConcat(k.gap, KidText(k), Opener(Except));
      c := CutOfKids(k.more);
      c := WidenCut(k.gap + KidText(k), c, "");
      assert k.gap + KidText(k) + PrintKids(k.more) + "" == PrintKids(k);
    }
  }

  lemma {:induction false} NoneInPage(d: Doc)
    ensures Has(d, Except) <==> FirstExcept(d).Some?
    decreases d, 1
  {
    if !d.End? {
      NoneInPage(d.rest);
      match d
      case IncludeElem(_, body, _) => NoneInPage(body);
      case Block(_, _, body, _) => NoneInPage(body);
      case TryElem(_, _, _, attempt, _, _, _) => NoneInPage(attempt);
      case ChooseElem(_, kids, _, _) => NoneInKids(kids);
      case _ =>
    }
  }

  lemma {:induction false} NoneInKids(k: Kids)
    ensures HasKids(k, Except) <==> FirstExceptInKids(k).Some?
    decreases k, 0
  {
    if !k.NoKids? {
      NoneInPage(k.body);
      NoneInKids(k.more);
    }
  }

  lemma NoneInHead(d: Doc)
    requires !d.End? && !HeadHas(d, Except)
    ensures FirstExcept(d) == FirstExcept(d.rest) && (Has(d, Except) ==> Has(d.rest, Except))
  {
    match d
    case IncludeElem(_, body, _) => NoneInPage(body);
    case Block(_, _, body, _) => NoneInPage(body);
    case TryElem(_, _, _, attempt, _, _, _) => NoneInPage(attempt);
    case ChooseElem(_, kids, _, _) => NoneInKids(kids);
    case _ =>
  }

  /** Behind a cut the search answers with the body of its except. */
  lemma ExceptOfCut(c: Cut, s: string)
    requires c.Valid()
    ensures ExceptBody(c.Text() + s) == Print(c.body)
  {
    hide Scan, Crosses, OccursAt, Index, Disjoint, Opener, CloseTag, OpenTag, Element, WellFormed, Print, AfterTag,
         ChildMarks, Clean;
    var elem := Element(Except, c.attrs, Print(c.body));
    var behind := c.after + s;
    var t := elem + behind;
    assert c.Text() + s == c.before + t;
    IndexSkips(c.before, t, Opener(Except));
    OpenerOfElement(Except, c.attrs, Print(c.body), behind);
    assert t + "" == t;
    IndexAtStart(t, "", Opener(Except));
    assert (c.before + t)[|c.before|..] == t;
    DocCrosses(c.body, Except, Try);
    ChildBody(Except, Try, c.attrs, Print(c.body), behind);
  }

  /** Text without an except opener is passed over. */
  lemma ExceptSkips(t: string, s: string)
    requires Disjoint(t, Opener(Except))
    ensures ExceptBody(t + s) == ExceptBody(s)
  {
    hide Disjoint, Opener, OccursAt, Scan, Index, AfterTag, ChildMarks;
    IndexSkips(t, s, Opener(Except));
    var at := Index(s, Opener(Except));
    if at >= 0 { assert (t + s)[|t| + at..] == s[at..]; }
  }

  /** What the search for the except body finds behind the attempt. */
  function ExceptFound(gap: Doc, alt: Alt, tail: Doc): string {
    if FirstExcept(gap).Some? then Print(FirstExcept(gap).value)
    else if alt.ExceptElem? then Print(alt.body)
    else if FirstExcept(tail).Some? then Print(FirstExcept(tail).value)
    else ""
  }

  lemma {:induction false} ExceptOfPage(d: Doc, s: string)
    requires WellFormed(d)
    ensures ExceptBody(Print(d) + s)
         == if FirstExcept(d).Some? then Print(FirstExcept(d).value) else ExceptBody(s)
  {
    hide Disjoint, Opener, ExceptBody, Cut.Valid, Cut.Text, WellFormed, Mark;
    NoneInPage(d);
    if Has(d, Except) {
      var c := CutOfPage(d);
      ExceptOfCut(c, s);
    } else {
      ExceptIsMark();
      DocAvoids(d, Opener(Except), Except);
      ExceptSkips(Print(d), s);
    }
  }

  lemma {:induction false} ExceptBehindAttempt(gap: Doc, alt: Alt, tail: Doc)
    requires WellFormed(gap) && WellFormedAlt(alt) && WellFormed(tail)
    ensures ExceptBody(Print(gap) + (PrintAlt(alt) + (Print(tail) + CloseTag(Try)))) == ExceptFound(gap, alt, tail)
  {
    hide Disjoint, Opener, ExceptBody, Cut.Valid, Cut.Text, WellFormed, FirstExcept, Print, CloseTag;
    var behind := Print(tail) + CloseTag(Try);
    ExceptOfPage(gap, PrintAlt(alt) + behind);
    if alt.ExceptElem? {
      var c := CutOfAlt(alt);
      ExceptOfCut(c, behind);
    } else {
      assert PrintAlt(alt) + behind == behind;
      ExceptOfPage(tail, CloseTag(Try));
      NoExceptInClose();
    }
  }

  lemma NoExceptInClose()
    ensures ExceptBody(CloseTag(Try)) == ""
  {
    InertEmpty();
    NoOpenerInTail("", Try, Except);
    assert "" + CloseTag(Try) == CloseTag(Try);
  }

  // ---- The bodies of a try element ----

  /** A try element with any pages before its attempt child, between its children and at its end. */
  function TryWithPages(
    attrs: string, lead: Doc, attemptAttrs: string, attempt: Doc, gap: Doc, alt: Alt, tail: Doc): string {
    Element(Try, attrs, Print(lead) + (Element(Attempt, attemptAttrs, Print(attempt)) + Behind(gap, alt, tail)))
  }

  function Behind(gap: Doc, alt: Alt, tail: Doc): string {
    Print(gap) + (PrintAlt(alt) + Print(tail))
  }

  lemma OpenedWithLead(attrs: string, lead: string, elem: string, behind: string)
    requires Clean(attrs)
    ensures
      var raw := Element(Try, attrs, lead + (elem + behind));
      var inner := lead + (elem + (behind + CloseTag(Try)));
      && AfterTag(raw) == Body(|OpenTag(Try, attrs)|)
      && raw[|OpenTag(Try, attrs)|..] == inner
      && inner == lead + (elem + behind) + CloseTag(Try)
      && inner[|lead|..] == elem + (behind + CloseTag(Try))
  {
    hide OpenTag, CloseTag, Index, OccursAt, Clean;
    var inner := lead + (elem + (behind + CloseTag(Try)));
    assert Element(Try, attrs, lead + (elem + behind)) == OpenTag(Try, attrs) + inner;
    OpenTagEnd(Try, attrs, inner);
  }

  lemma {:induction false} BehindCrosses(attemptAttrs: string, attempt: Doc, gap: Doc, alt: Alt, tail: Doc)
    requires Clean(attemptAttrs) && WellFormed(attempt) && WellFormed(gap) && WellFormedAlt(alt) && WellFormed(tail)
    ensures Crosses(Element(Attempt, attemptAttrs, Print(attempt)) + Behind(gap, alt, tail), BlockMarks(Try))
  {
    hide Scan, Crosses, Element, Clean, WellFormed, PrintAlt, Print, BlockMarks, ChildMarks, Mark;
    ChildIsMark(Try, Attempt);
    var k := ChildMarks(Try, Try);
    DocCrosses(attempt, Try, Try);
    CrossesElement(Attempt, attemptAttrs, Print(attempt), Try, Try);
    DocCrosses(gap, Try, Try);
    AltCrosses(alt, Try, Try);
    DocCrosses(tail, Try, Try);
    CrossesConcat(PrintAlt(alt), Print(tail), k);
    CrossesConcat(Print(gap), PrintAlt(alt) + Print(tail), k);
    CrossesConcat(Element(Attempt, attemptAttrs, Print(attempt)), Behind(gap, alt, tail), k);
  }

  lemma {:induction false} AttemptIsLost(
    attrs: string, lead: Doc, attemptAttrs: string, attempt: Doc, gap: Doc, alt: Alt, tail: Doc)
    requires Clean(attrs) && WellFormed(lead) && Clean(attemptAttrs) && WellFormed(attempt)
    requires WellFormed(gap) && WellFormedAlt(alt) && WellFormed(tail) && Has(lead, Try)
    ensures ExtractTry(TryWithPages(attrs, lead, attemptAttrs, attempt, gap, alt, tail)) == NO_PARTS
  {
    hide Crosses, Index, Disjoint, CloseTag, OpenTag, Element, AttemptAt, Clean, Has, WellFormed, Print, Behind,
         Split.Text, Split.Valid, AfterTag, Scan, ExceptBody, Mark, BlockMarks;
    var elem := Element(Attempt, attemptAttrs, Print(attempt));
    OpenedWithLead(attrs, Print(lead), elem, Behind(gap, alt, tail));
    var s := FirstBlock(lead, Try, Attempt);
    BehindCrosses(attemptAttrs, attempt, gap, alt, tail);
    SearchIsLost(s, elem + Behind(gap, alt, tail));
  }

  lemma {:induction false} AttemptIsFound(
    attrs: string, lead: Doc, attemptAttrs: string, attempt: Doc, gap: Doc, alt: Alt, tail: Doc)
    requires Clean(attrs) && WellFormed(lead) && Clean(attemptAttrs) && WellFormed(attempt)
    requires WellFormed(gap) && WellFormedAlt(alt) && WellFormed(tail) && !Has(lead, Try)
    ensures ExtractTry(TryWithPages(attrs, lead, attemptAttrs, attempt, gap, alt, tail))
         == TryParts(Print(attempt), ExceptFound(gap, alt, tail))
  {
    hide Crosses, Index, Disjoint, CloseTag, OpenTag, Element, AttemptAt, Clean, Has, WellFormed, Print, PrintAlt,
         AfterTag, Scan, ExceptBody, ExtractTry, ChildMarks, ExceptFound, Behind;
    var elem := Element(Attempt, attemptAttrs, Print(attempt));
    var behind := Behind(gap, alt, tail) + CloseTag(Try);
    OpenedWithLead(attrs, Print(lead), elem, Behind(gap, alt, tail));
    AttemptAfterLead(lead, attemptAttrs, Print(attempt), behind);
    DocCrosses(attempt, Attempt, Try);
    ChildBody(Attempt, Try, attemptAttrs, Print(attempt), behind);
    var raw := TryWithPages(attrs, lead, attemptAttrs, attempt, gap, alt, tail);
    ExtractsAt(raw, |OpenTag(Try, attrs)|, |Print(lead)|, |OpenTag(Attempt, attemptAttrs)|, |Print(attempt)|);
    BehindText(gap, alt, tail);
    ExceptBehindAttempt(gap, alt, tail);
  }

  lemma BehindText(gap: Doc, alt: Alt, tail: Doc)
    ensures Behind(gap, alt, tail) + CloseTag(Try) == Print(gap) + (PrintAlt(alt) + (Print(tail) + CloseTag(Try)))
  {
    hide Print, PrintAlt, CloseTag;
  }

  /** The extraction in terms of the places the searches answer with. */
  lemma ExtractsAt(raw: string, b0: nat, at: nat, b1: nat, n: nat)
    requires AfterTag(raw) == Body(b0) && b0 <= |raw| && AttemptAt(raw[b0..]) == at <= |raw[b0..]|
    requires AfterTag(raw[b0..][at..]) == Body(b1) && b1 <= |raw[b0..][at..]|
    requires Scan(raw[b0..][at..][b1..], ChildMarks(Attempt, Try), 0) == n
    requires n + |CloseTag(Attempt)| <= |raw[b0..][at..][b1..]|
    ensures var body := raw[b0..][at..][b1..];
            ExtractTry(raw) == TryParts(body[..n], ExceptBody(body[n + |CloseTag(Attempt)|..]))
  {
    hide AfterTag, AttemptAt, Scan, ExceptBody, CloseTag, ChildMarks;
  }

  /** With any pages around its children, a try element gives its attempt body exactly if no try element stands
      before it, and then the first except body behind it, at whatever depth that stands. */
  lemma {:induction false} AttemptIsFoundIffNoTryLeads(
    attrs: string, lead: Doc, attemptAttrs: string, attempt: Doc, gap: Doc, alt: Alt, tail: Doc)
    requires Clean(attrs) && WellFormed(lead) && Clean(attemptAttrs) && WellFormed(attempt)
    requires WellFormed(gap) && WellFormedAlt(alt) && WellFormed(tail)
    ensures ExtractTry(TryWithPages(attrs, lead, attemptAttrs, attempt, gap, alt, tail))
         == if Has(lead, Try) then NO_PARTS else TryParts(Print(attempt), ExceptFound(gap, alt, tail))
  {
    hide Clean, Has, WellFormed, WellFormedAlt, Print, ExtractTry, TryWithPages, ExceptFound;
    if Has(lead, Try) {
      AttemptIsLost(attrs, lead, attemptAttrs, attempt, gap, alt, tail);
    } else {
      AttemptIsFound(attrs, lead, attemptAttrs, attempt, gap, alt, tail);
    }
  }

  /** The except body of a try whose attempt is found: the own one exactly if the page between the children holds
      no except element, else the first of that page; without an own one, the first behind the attempt, if any. */
  lemma {:induction false} OwnExceptIsFoundIffNoneIntervenes(
    attrs: string, lead: Doc, attemptAttrs: string, attempt: Doc, gap: Doc, alt: Alt, tail: Doc)
    requires Clean(attrs) && WellFormed(lead) && Clean(attemptAttrs) && WellFormed(attempt)
    requires WellFormed(gap) && WellFormedAlt(alt) && WellFormed(tail) && !Has(lead, Try)
    ensures
      var found := ExtractTry(TryWithPages(attrs, lead, attemptAttrs, attempt, gap, alt, tail)).except;
      && (Has(gap, Except) ==> FirstExcept(gap).Some? && found == Print(FirstExcept(gap).value))
      && (!Has(gap, Except) && alt.ExceptElem? ==> found == Print(alt.body))
      && (!Has(gap, Except) && alt.NoAlt? && Has(tail, Except) ==>
            FirstExcept(tail).Some? && found == Print(FirstExcept(tail).value))
      && (!Has(gap, Except) && alt.NoAlt? && !Has(tail, Except) ==> found == "")
  {
    hide Clean, Has, WellFormed, WellFormedAlt, Print, ExtractTry, TryWithPages, FirstExcept;
    AttemptIsFound(attrs, lead, attemptAttrs, attempt, gap, alt, tail);
    NoneInPage(gap);
    NoneInPage(tail);
  }

  // ---- Inputs ----

  /** A text as a page. */
  function Just(text: string): Doc {
    Text(text, End)
  }

  /** `<esi:try><esi:attempt>X</esi:attempt></esi:try>` */
  function LoneTry(text: string): Doc {
    TryElem("", "", "", Just(text), NoAlt, "", End)
  }

  lemma LettersArePages(text: string)
    requires text != "" && forall i :: 0 <= i < |text| ==> text[i] != '<'
    ensures WellFormed(Just(text)) && Print(Just(text)) == text
  {
    hide Inert;
    LettersAreInert(text);
    PrintText(Just(text));
  }

  /** One page on which the bodies are lost although the attempt is a direct child:
      `<esi:try><esi:try><esi:attempt>X</esi:attempt></esi:try><esi:attempt>Y</esi:attempt></esi:try>`. */
  lemma LostExample()
    ensures ExtractTry(TryWithPages("", LoneTry("X"), "", Just("Y"), End, NoAlt, End)) == NO_PARTS
    ensures Print(Just("Y")) == "Y"
  {
    hide Inert, ExtractTry, Print, TryWithPages, Just;
    LettersArePages("X");
    LettersArePages("Y");
    InertEmpty();
    assert WellFormed(End) && WellFormed(LoneTry("X"));
    AttemptIsLost("", LoneTry("X"), "", Just("Y"), End, NoAlt, End);
  }

  /** One page whose own except body D is missed for the except body C of a nested try:
      `<esi:try><esi:attempt>A</esi:attempt><esi:try><esi:attempt>B</esi:attempt><esi:except>C</esi:except></esi:try>`
      `<esi:except>D</esi:except></esi:try>`. */
  lemma MissedExample()
    ensures
      var nested := TryElem("", "", "", Just("B"), ExceptElem("", "", Just("C")), "", End);
      ExtractTry(TryWithPages("", End, "", Just("A"), nested, ExceptElem("", "", Just("D")), End)) == TryParts("A", "C")
  {
    hide Inert, ExtractTry, Print, TryWithPages, Just;
    LettersArePages("A");
    LettersArePages("B");
    LettersArePages("C");
    LettersArePages("D");
    InertEmpty();
    var nested := TryElem("", "", "", Just("B"), ExceptElem("", "", Just("C")), "", End);
    assert WellFormed(End) && WellFormed(nested);
    assert FirstExcept(Just("B")).None? by { NoneInPage(Just("B")); NoExceptInLetters("B"); }
    AttemptIsFound("", End, "", Just("A"), nested, ExceptElem("", "", Just("D")), End);
  }

  lemma NoExceptInLetters(text: string)
    ensures !Has(Just(text), Except)
  {
  }
}
