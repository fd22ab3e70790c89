/** mesi/tokenizer.go and mesi/parser.go: tags by their texts, and what becomes of elements that are not closed. */
module Malformed {
  import opened Strings
  import opened Tags
  import opened Scanners
  import opened Tokenizer
  import opened Blocks
  import opened Document
  import opened Crossing
  import opened RoundTrip
  import opened Processor
  import opened Meaning

  // ---- The vocabulary ----

  /** What the scanners look for in a page, and the seven elements that may stand at its top. */
  lemma TagTexts(n: Name)
    ensures Opener(n) == "<esi:" + NameText(n) && CloseTag(n) == "</esi:" + NameText(n) + ">"
    ensures NameText(Inline) == "inline" && NameText(Choose) == "choose" && NameText(Try) == "try"
    ensures NameText(Remove) == "remove" && NameText(Vars) == "vars" && NameText(Comment) == "comment"
    ensures NameText(Include) == "include" && NameText(Attempt) == "attempt" && NameText(Except) == "except"
    ensures NameText(When) == "when" && NameText(Otherwise) == "otherwise"
    ensures n in SUPPORTED <==> n !in {Attempt, Except, When, Otherwise}
  {
  }

  // ---- Elements that are not closed are text ----

  lemma NothingAhead(pat: string)
    requires pat != ""
    ensures Index("", pat) == -1
  {
  }

  lemma NothingToScan(k: Marks, depth: int)
    requires k.Valid()
    ensures Scan("", k, depth) == -1
  {
    hide Index, OccursAt;
    NothingAhead(k.close);
    NothingAhead(k.closeToo);
  }

  lemma OneStaticToken(s: string, n: Name)
    requires n in SUPPORTED && Opener(n) <= s && EndOf(s, n) == -1
    ensures Tokens(s) == [Static(s)]
  {
    hide EndOf, Earliest;
    EarliestAtStart(s, n);
    assert s[0..] == s && [] + [Static(s)] == [Static(s)];
  }

  /** A block element without its closing tag, whatever well-formed page follows, is text from its tag on. */
  lemma UnclosedBlockIsText(n: Name, attrs: string, body: Doc)
    requires IsBlock(n) && Clean(attrs) && WellFormed(body)
    ensures Tokens(OpenTag(n, attrs) + Print(body)) == [Static(OpenTag(n, attrs) + Print(body))]
  {
    hide Scan, Crosses, Clean, WellFormed, Tokens;
    var s := OpenTag(n, attrs) + Print(body);
    assert BlockMarks(n) == ChildMarks(n, n);
    DocCrosses(body, n, n);
    EntersOpenTag(n, attrs, Print(body), n, n, -1);
    CrossedAt(Print(body), ChildMarks(n, n), "", 0);
    assert Print(body) + "" == Print(body);
    NothingToScan(ChildMarks(n, n), 0);
    OpenerStarts(n, attrs, Print(body));
    OneStaticToken(s, n);
  }

  lemma OpenerStarts(n: Name, attrs: string, s: string)
    ensures Opener(n) <= OpenTag(n, attrs) + s
  {
    hide Opener;
    assert OpenTag(n, attrs) + s == Opener(n) + (attrs + ">" + s);
  }

  /** So is an include that neither closes itself nor is closed. */
  lemma UnclosedIncludeIsText(attrs: string, body: Doc)
    requires Clean(attrs) && (attrs == "" || attrs[|attrs| - 1] != '/') && WellFormed(body) && NoIncludeElem(body)
    ensures Tokens(OpenTag(Include, attrs) + Print(body)) == [Static(OpenTag(Include, attrs) + Print(body))]
  {
    hide Scan, WellFormed, NoIncludeElem, Tokens, OpenTag, Opener, CloseTag, Index, Disjoint, OccursAt, Clean;
    var s, c := OpenTag(Include, attrs) + Print(body), CloseTag(Include);
    OpenerStarts(Include, attrs, Print(body));
    OpenTagEnd(Include, attrs, Print(body));
    IncludeTagIsOpen(attrs, Print(body));
    OpenTagVsForeign(Include, attrs, c);
    DocDisjoint(body, c);
    IndexSkips(OpenTag(Include, attrs), Print(body), c);
    assert Print(body) + "" == Print(body);
    IndexSkips(Print(body), "", c);
    NothingAhead(c);
    OneStaticToken(s, Include);
  }

  /** And so is a tag of any kind that never ends. */
  lemma UnendedTagIsText(n: Name, attrs: string)
    requires n in SUPPORTED && Clean(attrs)
    ensures Tokens(Opener(n) + attrs) == [Static(Opener(n) + attrs)]
  {
    hide Tokens, Opener, CloseTag;
    var s := Opener(n) + attrs;
    NoBracket(n, attrs);
    if Index(s, ">") >= 0 { OccursHas(s, ">", Index(s, ">"), 0); }
    if Index(s, CloseTag(n)) >= 0 { OccursHas(s, CloseTag(n), Index(s, CloseTag(n)), |CloseTag(n)| - 1); }
    OneStaticToken(s, n);
  }

  lemma OccursHas(s: string, pat: string, j: nat, e: nat)
    requires OccursAt(s, pat, j) && e < |pat|
    ensures j + e < |s| && s[j + e] == pat[e]
  {
    assert s[j..][e] == pat[e];
  }

  lemma NoBracket(n: Name, attrs: string)
    requires Clean(attrs)
    ensures forall i :: 0 <= i < |Opener(n) + attrs| ==> (Opener(n) + attrs)[i] != '>'
    ensures CloseTag(n)[|CloseTag(n)| - 1] == '>'
  {
    assert forall i :: 0 <= i < |Opener(n)| ==> Opener(n)[i] != '>';
  }

  // ---- Children that are not closed ----

  /** The scanner of an unclosed child passes its page, and the closing tag of the block does not end it. */
  lemma ChildRunsOut(body: Doc, child: Name, block: Name)
    requires WellFormed(body) && Counted(child) && Counted(block) && child != block
    ensures Scan(Print(body) + CloseTag(block), ChildMarks(child, block), 0) == -1
  {
    hide Scan, Crosses, WellFormed, ChildMarks, CloseTag;
    var k := ChildMarks(child, block);
    DocCrosses(body, child, block);
    CrossedAt(Print(body), k, CloseTag(block), 0);
    LeavesCloseTag(block, "", child, block, 0);
    assert CloseTag(block) + "" == CloseTag(block);
    NothingToScan(k, -1);
  }

  /** An opening tag behind a gap is found there, and what occurs in neither only later. */
  lemma TagAfterGap(gap: string, n: Name, attrs: string, rest: string, pat: string)
    requires Inert(gap) && Clean(attrs)
    ensures Index(gap + (OpenTag(n, attrs) + rest), Opener(n)) == |gap|
    ensures Disjoint(gap, pat) && Disjoint(OpenTag(n, attrs), pat) ==>
              var i := Index(gap + (OpenTag(n, attrs) + rest), pat);
              i == -1 || i > |gap|
  {
    hide OpenTag, Opener, Index, OccursAt, Inert, Disjoint;
    InertVsTags(gap, n);
    OpenerStarts(n, attrs, rest);
    var s := OpenTag(n, attrs) + rest;
    IndexSkips(gap, s, Opener(n));
    assert s + "" == s;
    IndexAtStart(s, "", Opener(n));
    if Disjoint(gap, pat) && Disjoint(OpenTag(n, attrs), pat) {
      IndexSkips(gap, s, pat);
      IndexSkips(OpenTag(n, attrs), rest, pat);
    }
  }

  lemma TagOpens(n: Name, attrs: string, rest: string)
    requires Clean(attrs)
    ensures AfterTag(OpenTag(n, attrs) + rest) == Body(|OpenTag(n, attrs)|)
    ensures (OpenTag(n, attrs) + rest)[|OpenTag(n, attrs)|..] == rest
  {
    hide OpenTag, Index;
    OpenTagEnd(n, attrs, rest);
  }

  /** The body of an attempt that is not closed is everything behind its tag, with the closing tag of the try, and there
      is no except body. */
  lemma UnclosedAttempt(attrs: string, gap: string, attemptAttrs: string, body: Doc)
    requires Clean(attrs) && Inert(gap) && Clean(attemptAttrs) && WellFormed(body)
    ensures ExtractTry(OpenTag(Try, attrs) + (gap + (OpenTag(Attempt, attemptAttrs) + (Print(body) + CloseTag(Try)))))
         == TryParts(Print(body) + CloseTag(Try), "")
  {
    hide OpenTag, CloseTag, Opener, Index, Scan, Inert, Disjoint, Clean, WellFormed, AfterTag, ChildMarks, OccursAt;
    var rest := Print(body) + CloseTag(Try);
    var inner := gap + (OpenTag(Attempt, attemptAttrs) + rest);
    TagOpens(Try, attrs, inner);
    InertVsTags(gap, Try);
    OpenTagVsOpener(Attempt, attemptAttrs, Try);
    TagAfterGap(gap, Attempt, attemptAttrs, rest, Opener(Try));
    assert inner[|gap|..] == OpenTag(Attempt, attemptAttrs) + rest;
    TagOpens(Attempt, attemptAttrs, rest);
    ChildRunsOut(body, Attempt, Try);
  }

  /** An except that is not closed has no body; the attempt before it keeps its own. */
  lemma UnclosedExcept(
    attrs: string, gap: string, attemptAttrs: string, attempt: Doc, gap2: string, exceptAttrs: string, body: Doc)
    requires Clean(attrs) && Inert(gap) && Clean(attemptAttrs) && WellFormed(attempt)
    requires Inert(gap2) && Clean(exceptAttrs) && WellFormed(body)
    ensures
      var tail := gap2 + (OpenTag(Except, exceptAttrs) + (Print(body) + CloseTag(Try)));
      ExtractTry(OpenTag(Try, attrs) + (gap + Element(Attempt, attemptAttrs, Print(attempt)) + tail))
      == TryParts(Print(attempt), "")
  {
    hide OpenTag, CloseTag, Opener, Index, Scan, Inert, Disjoint, Clean, WellFormed, AfterTag, ChildMarks, OccursAt,
         Element, Crosses, AttemptAt, ExceptBody;
    var rest := Print(body) + CloseTag(Try);
    var tail := gap2 + (OpenTag(Except, exceptAttrs) + rest);
    var inner := gap + Element(Attempt, attemptAttrs, Print(attempt)) + tail;
    TagOpens(Try, attrs, inner);
    AttemptAfterGap(gap, attemptAttrs, Print(attempt), tail);
    OpenerAfterGap(gap, Attempt, attemptAttrs, Print(attempt), tail);
    DocCrosses(attempt, Attempt, Try);
    ChildBody(Attempt, Try, attemptAttrs, Print(attempt), tail);
    NoBodyOfUnclosed(gap2, exceptAttrs, body);
  }

  lemma NoBodyOfUnclosed(gap: string, attrs: string, body: Doc)
    requires Inert(gap) && Clean(attrs) && WellFormed(body)
    ensures ExceptBody(gap + (OpenTag(Except, attrs) + (Print(body) + CloseTag(Try)))) == ""
  {
    hide OpenTag, CloseTag, Opener, Index, Scan, Inert, Disjoint, Clean, WellFormed, AfterTag, ChildMarks, OccursAt;
    var rest := Print(body) + CloseTag(Try);
    TagAfterGap(gap, Except, attrs, rest, "");
    assert (gap + (OpenTag(Except, attrs) + rest))[|gap|..] == OpenTag(Except, attrs) + rest;
    TagOpens(Except, attrs, rest);
    ChildRunsOut(body, Except, Try);
  }

  /** A child tag of a choose element behind a gap is the next child, closed or not. */
  lemma ChildTagAfterGap(gap: string, n: Name, attrs: string, rest: string)
    requires Inert(gap) && Clean(attrs) && (n == When || n == Otherwise)
    ensures
      var t := gap + (OpenTag(n, attrs) + rest);
      var m := if n == When then Otherwise else When;
      && ChildTag(t, Opener(n)) == |gap|
      && (ChildTag(t, Opener(m)) == -1 || ChildTag(t, Opener(m)) > |gap|)
      && (ChildTag(t, CloseTag(Choose)) == -1 || ChildTag(t, CloseTag(Choose)) > |gap|)
  {
    var m := if n == When then Otherwise else When;
    InertVsTags(gap, m);
    InertVsTags(gap, Choose);
    OpenTagVsOpener(n, attrs, m);
    OpenTagVsOpener(n, attrs, Choose);
    OpenTagVsOther(n, attrs, CloseTag(Choose));
    TagAfterGap(gap, n, attrs, rest, Opener(m));
    TagAfterGap(gap, n, attrs, rest, Opener(Choose));
    TagAfterGap(gap, n, attrs, rest, CloseTag(Choose));
    hide Index, Opener, CloseTag, Inert, Disjoint, Scan, OccursAt, OpenTag;
    ChildTagNotBefore(gap + (OpenTag(n, attrs) + rest), Opener(m));
    ChildTagNotBefore(gap + (OpenTag(n, attrs) + rest), CloseTag(Choose));
  }

  /** A when that is not closed is the last child, its body everything behind its tag. */
  lemma UnclosedWhen(gap: string, test: string, attrs: string, body: Doc, acc: Branches)
    requires Inert(gap) && Clean(test) && '"' !in test && Clean(attrs) && WellFormed(body)
    ensures
      var rest := Print(body) + CloseTag(Choose);
      ChooseFrom(gap + (OpenTag(When, WhenAttrs(test, attrs)) + rest), acc)
      == acc.(whens := acc.whens + [WhenBlock(test, rest)])
  {
    hide OpenTag, CloseTag, Opener, Index, Scan, Inert, Disjoint, Clean, WellFormed, AfterTag, ChildMarks, OccursAt,
         WhenAttrs, ChildTag, ReadOtherwise;
    var rest := Print(body) + CloseTag(Choose);
    var o := OpenTag(When, WhenAttrs(test, attrs));
    WhenAttrsClean(test, attrs);
    ChildTagAfterGap(gap, When, WhenAttrs(test, attrs), rest);
    assert (gap + (o + rest))[|gap|..] == o + rest;
    WhenTagShape(test, attrs, rest);
    ChildRunsOut(body, When, Choose);
    assert (o + rest)[16 + |test| + (2 + |attrs|)..] == rest;
  }

  /** The same for an otherwise, which keeps the children before it. */
  lemma UnclosedOtherwise(gap: string, attrs: string, body: Doc, acc: Branches)
    requires Inert(gap) && Clean(attrs) && WellFormed(body)
    ensures
      var rest := Print(body) + CloseTag(Choose);
      ChooseFrom(gap + (OpenTag(Otherwise, attrs) + rest), acc) == acc.(otherwise := rest)
  {
    hide OpenTag, CloseTag, Opener, Index, Scan, Inert, Disjoint, Clean, WellFormed, AfterTag, ChildMarks, OccursAt,
         ChildTag, ReadWhen;
    var rest := Print(body) + CloseTag(Choose);
    ChildTagAfterGap(gap, Otherwise, attrs, rest);
    assert (gap + (OpenTag(Otherwise, attrs) + rest))[|gap|..] == OpenTag(Otherwise, attrs) + rest;
    TagOpens(Otherwise, attrs, rest);
    ChildRunsOut(body, Otherwise, Choose);
  }

  /** A when tag behind which no test attribute comes any more is passed over, and only the tag. */
  lemma WhenWithoutTest(gap: string, attrs: string, rest: string, acc: Branches)
    requires Inert(gap) && Clean(attrs) && Index(OpenTag(When, attrs) + rest, "test=\"") == -1
    ensures ChooseFrom(gap + (OpenTag(When, attrs) + rest), acc) == ChooseFrom(rest, acc)
  {
    hide OpenTag, CloseTag, Opener, Index, Scan, Inert, Disjoint, Clean, AfterTag, ChildMarks, OccursAt, ChildTag,
         ReadOtherwise;
    var o, s := OpenTag(When, attrs), gap + (OpenTag(When, attrs) + rest);
    ChildTagAfterGap(gap, When, attrs, rest);
    assert s[|gap|..] == o + rest;
    TagOpens(When, attrs, rest);
    assert ReadChild(s, acc) == Next(|gap| + |o|, acc);
    assert s[|gap| + |o|..] == rest;
  }

  /** Behind a test attribute that is never closed no child is read. */
  lemma WhenWithOpenQuote(rest: string, acc: Branches)
    requires '"' !in rest
    ensures ReadWhen("<esi:when test=\"" + rest, acc) == Stop(acc)
  {
    hide OccursAt;
    var s := "<esi:when test=\"" + rest;
    assert s[10..] == "test=\"" + rest && s[16..] == rest;
    assert forall j :: 0 <= j < 10 ==> s[j..][0] == "<esi:when "[j];
    TestStarts(s);
    if Index(rest, "\"") >= 0 { OccursHas(rest, "\"", Index(rest, "\""), 0); }
  }

  lemma TestStarts(s: string)
    requires |s| >= 16 && "test=\"" <= s[10..] && forall j :: 0 <= j < 10 ==> s[j..][0] == "<esi:when "[j]
    ensures Index(s, "test=\"") == 10
  {
    forall j | 0 <= j < 10 ensures !OccursAt(s, "test=\"", j) {
      assert s[j..][0] != 't';
    }
    IndexIs(s, "test=\"", 10);
  }

  // ---- Inline elements ----

  /** The text of an inline element without a bracket that ends its tag is all of it, and of one whose closing tag does
      not come behind that bracket everything behind it. */
  lemma InlineWithoutEnds(head: string, after: string)
    requires forall i :: 0 <= i < |head| ==> head[i] !in {'>', '"', '\''}
    ensures InlineText(head) == head
    ensures Index(after, CloseTag(Inline)) == -1 ==> InlineText(head + (">" + after)) == after
  {
    hide OccursAt, CloseTag;
    UnquotedSkips(head, "", ' ');
    UnquotedSkips(head, ">" + after, ' ');
    NoQuotes(head);
    assert head + "" == head && (head + (">" + after))[|head| + 1..] == after;
    if Index(after, CloseTag(Inline)) == -1 {
      assert LastIndex(after, CloseTag(Inline), |after|) == -1;
    }
  }
}
