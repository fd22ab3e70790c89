/** What a page tree means, and that processing its printed text produces exactly that. */
module Meaning {
  import opened Options
  import opened Strings
  import opened Tags
  import opened Scanners
  import opened Tokenizer
  import opened Blocks
  import opened Config
  import opened Document
  import opened RoundTrip
  import opened Processor

  // ---- The direct meaning of a tree ----

  /** The nodes of a page, the first one being number `i`, rendered in order. */
  function Means(env: Env, c: Config, path: Path, d: Doc, i: nat): Out
    decreases c.maxDepth, d, 2
  {
    if d.End? then NOTHING
    else Both(MeansNode(env, c, path + [i], d), Means(env, c, path, d.rest, i + 1))
  }

  /** The first node of `d`. */
  function MeansNode(env: Env, c: Config, path: Path, d: Doc): Out
    requires !d.End?
    decreases c.maxDepth, d, 1
  {
    match d
    case Text(text, _) => Shown(env.eval(path, text))
    case IncludeTag(_, _) => MeansInclude(env, c, path, d)
    case IncludeElem(_, _, _) => MeansInclude(env, c, path, d)
    case CommentTag(_, _) => NOTHING
    case Block(kind, _, body, _) => if kind == Inline then Shown(Print(body)) else NOTHING
    case TryElem(_, _, _, attempt, alt, _, _) =>
      var a := MeansAttempt(env, c, path + [0], attempt, 0);
      if !a.failed then a.out
      else
        var instead := if alt.ExceptElem? then Means(env, c, path + [1], alt.body, 0) else NOTHING;
        Both(a.out.(text := ""), instead)
    case ChooseElem(_, kids, _, _) =>
      var otherwise := MeansOtherwise(env, c, path + [|WhenBlocks(kids)|], kids, NOTHING);
      MeansWhens(env, c, path, kids, 0, otherwise)
  }

  /** An include: the fetched page, or what the tag says to show instead, processed
      in its turn when the budget and the page's header allow it. */
  function MeansInclude(env: Env, c: Config, path: Path, d: Doc): Out
    requires d.IncludeTag? || d.IncludeElem?
    decreases c.maxDepth, d, 0
  {
    match env.parse(Head(d))
    case None => NOTHING
    case Some(tag) =>
      var t := Evaluated(env, path, tag);
      var own := IncludeConfig(c, t, env.clock(path, 0));
      var inc := ToString(env, own, path, t, Fallback(d));
      var below := if IsNested(env, c, path, own, inc)
                   then MeansPage(env, NestedConfig(own, env.clock(path, 2)), path, inc.page)
                   else Shown(PageText(inc.page));
      Around(inc.asked, own, below)
  }

  function MeansPage(env: Env, c: Config, path: Path, p: Page): Out
    decreases c.maxDepth
  {
    match p
    case Raw(text) => Process(env, c, path, text)
    case Printed(doc) => Means(env, c, path, doc, 0)
  }

  /** The page inside an include element. */
  function Fallback(d: Doc): Page {
    if d.IncludeElem? then Printed(d.body) else Raw("")
  }

  /** An attempt body ends at the first include directly in it that fails unhandled. */
  function MeansAttempt(env: Env, c: Config, path: Path, d: Doc, i: nat): Attempted
    decreases c.maxDepth, d, 2
  {
    if d.End? then Attempted(NOTHING, false)
    else
      var fails := if d.IncludeTag? || d.IncludeElem?
                   then FailsUnhandled(env, c, path + [i], Esi(Include, Head(d)))
                   else Attempted(NOTHING, false);
      if fails.failed then fails
      else
        var rest := MeansAttempt(env, c, path, d.rest, i + 1);
        Attempted(Both(MeansNode(env, c, path + [i], d), rest.out), rest.failed)
  }

  /** The first when whose test holds; `otherwise` if there is none. */
  function MeansWhens(env: Env, c: Config, path: Path, k: Kids, j: nat, otherwise: Out): Out
    decreases c.maxDepth, k
  {
    match k
    case NoKids => otherwise
    case WhenElem(_, test, _, body, more) =>
      if TestHolds(env, path + [j], test) then Means(env, c, path + [j], body, 0)
      else MeansWhens(env, c, path, more, j + 1, otherwise)
    case OtherwiseElem(_, _, _, more) => MeansWhens(env, c, path, more, j, otherwise)
  }

  /** The last otherwise body; `before` if there is none. */
  function MeansOtherwise(env: Env, c: Config, path: Path, k: Kids, before: Out): Out
    decreases c.maxDepth, k
  {
    match k
    case NoKids => before
    case WhenElem(_, _, _, _, more) => MeansOtherwise(env, c, path, more, before)
    case OtherwiseElem(_, _, body, more) =>
      MeansOtherwise(env, c, path, more, Means(env, c, path, body, 0))
  }

  // ---- What is asked of the world ----

  /** Evaluating no text gives no text; decoding an include element hands back the text inside it;
      and a backend page that claims to be printed from a tree is printed from a well-formed one. */
  ghost predicate Lawful(env: Env) {
    && (forall p: Path :: env.eval(p, "") == "")
    && (forall d: Doc :: WellFormed(d) && (d.IncludeTag? || d.IncludeElem?) && env.parse(Head(d)).Some? ==>
          env.parse(Head(d)).value.content == PageText(Fallback(d)))
    && (forall p: Path, t: Directive, c: Config :: env.fetch(p, t, c).Fetched? && env.fetch(p, t, c).page.Printed? ==>
          WellFormed(env.fetch(p, t, c).page.doc))
  }

  // ---- Small steps ----

  lemma UnescapeOfDoc(d: Doc)
    requires WellFormed(d)
    ensures Unescape(Print(d)) == Print(d)
  {
    hide Index, OccursAt, Disjoint;
    DocDisjoint(d, "<!--esi");
    assert Print(d) + "" == Print(d);
    IndexSkips(Print(d), "", "<!--esi");
  }

  lemma HeadNonempty(d: Doc)
    requires WellFormed(d) && !d.End?
    ensures Head(d) != ""
  {
    hide EndOf, Inert, Clean, Element, OpenTag;
    if !d.Text? {
      HeadEnds(d, "");
      assert Head(d) + "" == Head(d);
    }
  }

  lemma EmptyPrint(d: Doc)
    requires WellFormed(d)
    ensures Print(d) == "" <==> d.End?
  {
    if !d.End? { HeadNonempty(d); }
  }

  lemma {:induction false} UnquotedSkips(s: string, t: string, q: char)
    requires forall i :: 0 <= i < |s| ==> s[i] != '>'
    ensures UnquotedBracket(s + t, q) == Shift(|s|, UnquotedBracket(t, QuoteAfter(s, q)))
  {
    if s == "" {
      assert s + t == t;
    } else {
      assert (s + t)[1..] == s[1..] + t;
      UnquotedSkips(s[1..], t, if q != ' ' then (if s[0] == q then ' ' else q)
                               else if s[0] == '"' || s[0] == '\'' then s[0] else ' ');
    }
  }

  lemma {:induction false} QuoteAfterConcat(s: string, t: string, q: char)
    ensures QuoteAfter(s + t, q) == QuoteAfter(t, QuoteAfter(s, q))
  {
    if s == "" {
      assert s + t == t;
    } else {
      assert (s + t)[1..] == s[1..] + t;
      QuoteAfterConcat(s[1..], t, if q != ' ' then (if s[0] == q then ' ' else q)
                                  else if s[0] == '"' || s[0] == '\'' then s[0] else ' ');
    }
  }

  lemma {:induction false} NoQuotes(s: string)
    requires forall i :: 0 <= i < |s| ==> s[i] != '"' && s[i] != '\''
    ensures QuoteAfter(s, ' ') == ' '
  {
    if s != "" { NoQuotes(s[1..]); }
  }

  lemma LastIndexAtEnd(t: string, pat: string)
    ensures LastIndex(t + pat, pat, |t + pat|) == |t|
  {
    assert (t + pat)[|t|..] == pat;
    assert OccursAt(t + pat, pat, |t|);
    var r := LastIndex(t + pat, pat, |t + pat|);
    assert r >= |t|;
    assert |(t + pat)[r..]| == |t| + |pat| - r;
  }

  /** The inline body is shown exactly as it was written. */
  lemma InlineOfDoc(attrs: string, body: string)
    requires Clean(attrs) && QuotesClosed(attrs)
    ensures InlineText(Element(Inline, attrs, body)) == body
  {
    hide OccursAt, Element, Opener, CloseTag, InlineText, LastIndex;
    var head := Opener(Inline) + attrs;
    var after := body + CloseTag(Inline);
    InlineParts(attrs, body);
    NoQuotes(Opener(Inline));
    QuoteAfterConcat(Opener(Inline), attrs, ' ');
    UnquotedSkips(head, ">" + after, ' ');
    LastIndexAtEnd(body, CloseTag(Inline));
    InlineBetween(head, after, |body|);
    assert after[..|body|] == body;
  }

  lemma InlineBetween(head: string, after: string, n: nat)
    requires UnquotedBracket(head + (">" + after), ' ') == |head|
    requires n <= |after| && LastIndex(after, CloseTag(Inline), |after|) == n
    ensures InlineText(head + (">" + after)) == after[..n]
  {
    hide UnquotedBracket, LastIndex;
    assert (head + (">" + after))[|head| + 1..] == after;
  }

  lemma InlineParts(attrs: string, body: string)
    requires Clean(attrs)
    ensures Element(Inline, attrs, body) == Opener(Inline) + attrs + (">" + (body + CloseTag(Inline)))
    ensures Opener(Inline) == "<esi:inline"
    ensures forall i :: 0 <= i < |Opener(Inline) + attrs| ==> (Opener(Inline) + attrs)[i] != '>'
  {
  }

  // ---- Processing the printed text gives the meaning ----

  predicate WellFormedPage(p: Page) {
    p.Printed? ==> WellFormed(p.doc)
  }

  /** The failure page of an include is the printed page inside it. */
  lemma ToStringOfDoc(env: Env, own: Config, path: Path, t: Directive, d: Doc)
    requires Lawful(env) && WellFormed(d) && (d.IncludeTag? || d.IncludeElem?)
    requires t.content == PageText(Fallback(d))
    ensures
      var inText := ToString(env, own, path, t, Raw(t.content));
      var inTree := ToString(env, own, path, t, Fallback(d));
      && PageText(inText.page) == PageText(inTree.page)
      && inText.(page := inTree.page) == inTree
      && WellFormedPage(inTree.page)
  {
    hide Print, Head;
  }

  lemma {:induction false} PageIsMeant(env: Env, c: Config, path: Path, p: Page)
    requires Lawful(env) && WellFormedPage(p)
    ensures Process(env, c, path, PageText(p)) == MeansPage(env, c, path, p)
    decreases c.maxDepth
  {
    hide Lawful, WellFormed, Means, Process, Print;
    match p
    case Raw(_) =>
    case Printed(doc) => ProcessingIsMeaning(env, c, path, doc);
  }

  lemma {:induction false} IncludeIsMeant(env: Env, c: Config, path: Path, d: Doc)
    requires Lawful(env) && WellFormed(d) && (d.IncludeTag? || d.IncludeElem?)
    ensures RenderInclude(env, c, path, Head(d)) == MeansInclude(env, c, path, d)
    decreases c.maxDepth, d, 0
  {
    hide Head, Process, Print, MeansPage, WellFormed, ToString, PageText, Fallback, WellFormedPage;
    match env.parse(Head(d))
    case None =>
    case Some(tag) =>
      var t := Evaluated(env, path, tag);
      var own := IncludeConfig(c, t, env.clock(path, 0));
      ToStringOfDoc(env, own, path, t, d);
      var inc := ToString(env, own, path, t, Fallback(d));
      if IsNested(env, c, path, own, inc) {
        PageIsMeant(env, NestedConfig(own, env.clock(path, 2)), path, inc.page);
      }
  }

  lemma {:induction false} NodeIsMeant(env: Env, c: Config, path: Path, d: Doc)
    requires Lawful(env) && WellFormed(d) && !d.End? && !d.Text?
    ensures RenderToken(env, c, path, Esi(TagOf(d), Head(d))) == MeansNode(env, c, path, d)
    decreases c.maxDepth, d, 1
  {
    hide Lawful, Print, WellFormedKids, WellFormedAlt, Inert, Clean;
    match d {
      case IncludeTag(_, _) => IncludeIsMeant(env, c, path, d);
      case IncludeElem(_, _, _) => IncludeIsMeant(env, c, path, d);
      case CommentTag(_, _) =>
      case Block(kind, attrs, body, _) => if kind == Inline { InlineOfDoc(attrs, Print(body)); }
      case TryElem(_, _, _, _, _, _, _) => TryIsMeant(env, c, path, d);
      case ChooseElem(_, _, _, _) => ChooseIsMeant(env, c, path, d);
    }
  }

  lemma TextIsMeant(env: Env, c: Config, path: Path, d: Doc)
    requires d.Text?
    ensures RenderToken(env, c, path, Static(d.text)) == MeansNode(env, c, path, d)
    ensures FailsUnhandled(env, c, path, Static(d.text)) == Attempted(NOTHING, false)
  {
  }

  lemma FailureIsSeen(env: Env, c: Config, path: Path, d: Doc)
    requires WellFormed(d) && !d.End? && !d.Text?
    ensures FailsUnhandled(env, c, path, Esi(TagOf(d), Head(d)))
         == if d.IncludeTag? || d.IncludeElem? then FailsUnhandled(env, c, path, Esi(Include, Head(d)))
            else Attempted(NOTHING, false)
  {
    hide Head;
  }

  lemma {:induction false} NodesAreMeant(env: Env, c: Config, path: Path, d: Doc, i: nat)
    requires Lawful(env) && WellFormed(d)
    ensures Render(env, c, path, DocTokens(d), i) == Means(env, c, path, d, i)
    decreases c.maxDepth, d, 2
  {
    hide Head, MeansNode, RenderToken, Inert, Clean, TagOf;
    if d.End? {
      EmptyStaticFailsNot(env, c, path + [i]);
    } else {
      if d.Text? { TextIsMeant(env, c, path + [i], d); } else { NodeIsMeant(env, c, path + [i], d); }
      NodesAreMeant(env, c, path, d.rest, i + 1);
    }
  }

  lemma {:induction false} AttemptIsMeant(env: Env, c: Config, path: Path, d: Doc, i: nat)
    requires Lawful(env) && WellFormed(d)
    ensures RenderAttempt(env, c, path, DocTokens(d), i) == MeansAttempt(env, c, path, d, i)
    decreases c.maxDepth, d, 2
  {
    hide Head, MeansNode, RenderToken, FailsUnhandled, Inert, Clean, TagOf;
    if d.End? {
      EmptyStaticFailsNot(env, c, path + [i]);
    } else {
      if d.Text? {
        TextIsMeant(env, c, path + [i], d);
      } else {
        NodeIsMeant(env, c, path + [i], d);
        FailureIsSeen(env, c, path + [i], d);
      }
      AttemptIsMeant(env, c, path, d.rest, i + 1);
    }
  }

  lemma EmptyStaticFailsNot(env: Env, c: Config, path: Path)
    requires Lawful(env)
    ensures FailsUnhandled(env, c, path, Static("")) == Attempted(NOTHING, false)
    ensures RenderToken(env, c, path, Static("")) == NOTHING
  {
  }

  lemma {:induction false} TryIsMeant(env: Env, c: Config, path: Path, d: Doc)
    requires Lawful(env) && WellFormed(d) && d.TryElem?
    ensures RenderTry(env, c, path, Head(d)) == MeansNode(env, c, path, d)
    decreases c.maxDepth, d, 0
  {
    ExtractTryOfDoc(d);
    EmptyPrint(d.attempt);
    TokensOfDoc(d.attempt);
    AttemptIsMeant(env, c, path + [0], d.attempt, 0);
    if d.alt.ExceptElem? {
      EmptyPrint(d.alt.body);
      ProcessingIsMeaning(env, c, path + [1], d.alt.body);
    }
  }

  lemma {:induction false} WhensAreMeant(
    env: Env, c: Config, path: Path, k: Kids, otherwise: string, j: nat, n: nat, last: Out)
    requires Lawful(env) && WellFormedKids(k)
    requires |otherwise| < n && forall i :: 0 <= i < |WhenBlocks(k)| ==> |WhenBlocks(k)[i].body| < n
    requires last == if otherwise == "" then NOTHING else Process(env, c, path + [j + |WhenBlocks(k)|], otherwise)
    ensures RenderWhens(env, c, path, WhenBlocks(k), otherwise, j, n) == MeansWhens(env, c, path, k, j, last)
    decreases c.maxDepth, k
  {
    hide Process, Means, Print, Tokens, Lawful, Inert, Clean;
    match k
    case NoKids =>
    case WhenElem(_, test, _, body, more) =>
      var rest := WhenBlocks(more);
      assert WhenBlocks(k)[1..] == rest;
      assert forall i :: 0 <= i < |rest| ==> rest[i] == WhenBlocks(k)[i + 1];
      if TestHolds(env, path + [j], test) {
        ProcessingIsMeaning(env, c, path + [j], body);
      } else {
        WhensAreMeant(env, c, path, more, otherwise, j + 1, n, last);
      }
    case OtherwiseElem(_, _, _, more) =>
      WhensAreMeant(env, c, path, more, otherwise, j, n, last);
  }

  lemma {:induction false} OtherwiseIsMeant(env: Env, c: Config, path: Path, k: Kids, text: string, before: Out)
    requires Lawful(env) && WellFormedKids(k)
    requires before == if text == "" then NOTHING else Process(env, c, path, text)
    ensures
      var last := OtherwiseBody(k, text);
      MeansOtherwise(env, c, path, k, before) == if last == "" then NOTHING else Process(env, c, path, last)
    decreases c.maxDepth, k
  {
    match k
    case NoKids =>
    case WhenElem(_, _, _, _, more) => OtherwiseIsMeant(env, c, path, more, text, before);
    case OtherwiseElem(_, _, body, more) =>
      EmptyPrint(body);
      ProcessingIsMeaning(env, c, path, body);
      OtherwiseIsMeant(env, c, path, more, Print(body), Means(env, c, path, body, 0));
  }

  lemma {:induction false} ChooseIsMeant(env: Env, c: Config, path: Path, d: Doc)
    requires Lawful(env) && WellFormed(d) && d.ChooseElem?
    ensures RenderChoose(env, c, path, Head(d)) == MeansNode(env, c, path, d)
    decreases c.maxDepth, d, 0
  {
    hide Head, ExtractChoose, Process, MeansWhens, MeansOtherwise, RenderWhens, WhenBlocks, OtherwiseBody, Lawful,
         EndOf;
    ExtractChooseOfDoc(d);
    HeadNonempty(d);
    ChooseBranchesFit(Head(d));
    var k := d.kids;
    OtherwiseIsMeant(env, c, path + [|WhenBlocks(k)|], k, "", NOTHING);
    WhensAreMeant(env, c, path, k, OtherwiseBody(k, ""), 0, |Head(d)|,
                  MeansOtherwise(env, c, path + [|WhenBlocks(k)|], k, NOTHING));
  }

  /** Processing the printed text of any well-formed page, against any backends and any clock,
      gives the page's direct meaning. */
  lemma {:induction false} ProcessingIsMeaning(env: Env, c: Config, path: Path, d: Doc)
    requires Lawful(env) && WellFormed(d)
    ensures Process(env, c, path, Print(d)) == Means(env, c, path, d, 0)
    decreases c.maxDepth, d, 3
  {
    UnescapeOfDoc(d);
    TokensOfDoc(d);
    NodesAreMeant(env, c, path, d, 0);
  }
}
