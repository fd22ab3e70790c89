/** Where `extractChooseBlocks` departs from its own description: it means to pass over choose elements
    between the children of a choose, but `findChooseClose` answers with the close of the enclosing one. */
module LeadingChoose {
  import opened Strings
  import opened Tags
  import opened Scanners
  import opened Tokenizer
  import opened Blocks
  import opened Document
  import opened Crossing
  import opened RoundTrip
  import opened LeadingBlock

  /** The search for one kind of child is over at the first nested choose element. */
  lemma ChildIsLost(s: Split, x: string)
    requires s.Valid() && s.n == Choose && Crosses(x, BlockMarks(Choose))
    ensures ChildTag(s.Text() + x + CloseTag(Choose), Opener(s.c)) == -1
  {
    hide Disjoint, Opener, Crosses, OpenTag, Element, Index, OccursAt, Scan, Clean, CloseTag, BlockMarks;
    var behind := s.after + x + CloseTag(Choose);
    var elem := Element(Choose, s.attrs, s.body);
    ScanFindsTheLastClose(s, x);
    SplitIndexes(s, behind);
    var all := s.before + (elem + behind);
    assert all[|s.before|..] == elem + behind;
    assert all[|s.before| + (|elem| + |s.after + x|) + |CloseTag(Choose)|..] == "";
    NoChildInNothing(s.c);
  }

  lemma NoChildInNothing(c: Name)
    ensures ChildTag("", Opener(c)) == -1
  {
    assert |Opener(c)| > |""[0..]|;
    IndexIsAbsent("", Opener(c));
  }

  lemma ChildTagSkips(t: string, s: string, tag: string)
    requires Disjoint(t, Opener(Choose)) && Disjoint(t, tag)
    ensures ChildTag(t + s, tag) == Shift(|t|, ChildTag(s, tag))
  {
    hide Disjoint, Index, OccursAt, Scan, Opener, CloseTag;
    IndexSkips(t, s, Opener(Choose));
    IndexSkips(t, s, tag);
    var nested := Index(s, Opener(Choose));
    if nested >= 0 {
      assert (t + s)[|t| + nested..] == s[nested..];
      var close := Scan(s[nested..], BlockMarks(Choose), 0);
      if close >= 0 {
        var p := nested + close + |CloseTag(Choose)|;
        if p <= |s| { assert (t + s)[|t| + p..] == s[p..]; }
      }
    }
  }

  /** Text without any of the marks is passed over. */
  lemma ReadChildSkips(t: string, s: string, acc: Branches)
    requires forall pat :: Mark(pat, Choose) ==> Disjoint(t, pat)
    ensures ReadChild(t + s, acc) == Later(|t|, ReadChild(s, acc))
  {
    hide Disjoint, ChildTag, ReadWhen, ReadOtherwise, Opener, CloseTag, Index, OccursAt;
    assert IsChildOf(When, Choose) && IsChildOf(Otherwise, Choose);
    assert Mark(Opener(Choose), Choose) && Mark(Opener(When), Choose) && Mark(Opener(Otherwise), Choose)
        && Mark(CloseTag(Choose), Choose);
    ChildTagSkips(t, s, Opener(When));
    ChildTagSkips(t, s, Opener(Otherwise));
    ChildTagSkips(t, s, CloseTag(Choose));
    forall i: nat | i <= |s| ensures (t + s)[|t| + i..] == s[i..] {
    }
  }

  lemma ChooseFromSkips(t: string, s: string, acc: Branches)
    requires forall pat :: Mark(pat, Choose) ==> Disjoint(t, pat)
    ensures ChooseFrom(t + s, acc) == ChooseFrom(s, acc)
  {
    hide Disjoint, ReadChild, Mark;
    ReadChildSkips(t, s, acc);
    var step := ReadChild(s, acc);
    if step.Next? { assert (t + s)[|t| + step.skip..] == s[step.skip..]; }
  }

  /** Children in front are read, in order, whatever follows. */
  lemma {:induction false} ChooseFromPrefix(k: Kids, s: string, acc: Branches)
    requires WellFormedKids(k)
    ensures ChooseFrom(PrintKids(k) + s, acc)
         == ChooseFrom(s, Branches(acc.whens + WhenBlocks(k), OtherwiseBody(k, acc.otherwise)))
    decreases k
  {
    hide Inert, CloseTag, ReadChild, WellFormed, KidText;
    if k.NoKids? {
      assert PrintKids(k) + s == s && acc.whens + [] == acc.whens;
    } else {
      ReadKid(k, s, acc);
      var found := ReadChild(PrintKids(k) + s, acc).found;
      assert (PrintKids(k) + s)[|k.gap| + |KidText(k)|..] == PrintKids(k.more) + s;
      ChooseFromPrefix(k.more, s, found);
      assert acc.whens + WhenBlocks(k) == found.whens + WhenBlocks(k.more);
    }
  }

  /** A choose element with a page standing between some of its children. */
  function ChooseWithGap(attrs: string, k1: Kids, gap: Doc, k2: Kids, tail: string): string {
    Element(Choose, attrs, PrintKids(k1) + (Print(gap) + (PrintKids(k2) + tail)))
  }

  lemma {:induction false} GapIsLost(gap: Doc, k: Kids, tail: string, acc: Branches)
    requires WellFormed(gap) && WellFormedKids(k) && Inert(tail) && Has(gap, Choose)
    ensures ChooseFrom(Print(gap) + (PrintKids(k) + tail + CloseTag(Choose)), acc) == acc
  {
    hide Inert, Crosses, CloseTag, Opener, ChildTag, Has, WellFormed, PrintKids, Print, Split.Text, Split.Valid,
         Index, OccursAt, ReadWhen, ReadOtherwise, BlockMarks;
    var x := PrintKids(k) + tail;
    KidsCross(k, Choose, Choose);
    CrossesInert(tail, Choose, Choose);
    ChildIsMark(Choose, When);
    CrossesConcat(PrintKids(k), tail, ChildMarks(Choose, Choose));
    var when := FirstBlock(gap, Choose, When);
    ChildIsLost(when, x);
    var other := FirstBlock(gap, Choose, Otherwise);
    ChildIsLost(other, x);
    assert Print(gap) + (x + CloseTag(Choose)) == Print(gap) + x + CloseTag(Choose);
  }

  lemma {:induction false} GapIsPassed(gap: Doc, k: Kids, tail: string, acc: Branches)
    requires WellFormed(gap) && WellFormedKids(k) && Inert(tail) && !Has(gap, Choose)
    ensures ChooseFrom(Print(gap) + (PrintKids(k) + tail + CloseTag(Choose)), acc)
         == Branches(acc.whens + WhenBlocks(k), OtherwiseBody(k, acc.otherwise))
  {
    hide Inert, CloseTag, Opener, Has, WellFormed, PrintKids, Print, Mark, ChooseFrom, Disjoint;
    forall pat | Mark(pat, Choose) ensures Disjoint(Print(gap), pat) {
      DocAvoids(gap, pat, Choose);
    }
    ChooseFromSkips(Print(gap), PrintKids(k) + tail + CloseTag(Choose), acc);
    Assoc(PrintKids(k), tail, CloseTag(Choose));
    ChooseFromKids(k, tail, acc);
  }

  /** The children of a choose element are found up to the first choose element that stands between them,
      and none behind it; without one, all of them are found. */
  lemma {:induction false} ChildrenAreFoundUpToAChoose(attrs: string, k1: Kids, gap: Doc, k2: Kids, tail: string)
    requires Clean(attrs) && WellFormedKids(k1) && WellFormed(gap) && WellFormedKids(k2) && Inert(tail)
    ensures ExtractChoose(ChooseWithGap(attrs, k1, gap, k2, tail))
         == if Has(gap, Choose) then Branches(WhenBlocks(k1), OtherwiseBody(k1, ""))
            else Branches(WhenBlocks(k1) + WhenBlocks(k2), OtherwiseBody(k2, OtherwiseBody(k1, "")))
  {
    hide Inert, OpenTag, CloseTag, ChooseFrom, Index, Has, WellFormed, WellFormedKids, PrintKids, Print,
         OtherwiseBody, WhenBlocks;
    var behind := PrintKids(k2) + tail + CloseTag(Choose);
    var inner := PrintKids(k1) + (Print(gap) + behind);
    GapText(attrs, PrintKids(k1), Print(gap), PrintKids(k2), tail);
    OpenTagEnd(Choose, attrs, inner);
    ChooseFromPrefix(k1, Print(gap) + behind, Branches([], ""));
    assert [] + WhenBlocks(k1) == WhenBlocks(k1);
    var found := Branches(WhenBlocks(k1), OtherwiseBody(k1, ""));
    if Has(gap, Choose) {
      GapIsLost(gap, k2, tail, found);
    } else {
      GapIsPassed(gap, k2, tail, found);
    }
  }

  /** `<esi:choose><esi:choose></esi:choose><esi:when test="t">X</esi:when></esi:choose>` loses its when. */
  lemma LostWhenExample()
    ensures
      var gap, kids := ChooseElem("", NoKids, "", End), WhenElem("", "t", "", Text("X", End), NoKids);
      ExtractChoose(ChooseWithGap("", NoKids, gap, kids, "")) == Branches([], "") && WhenBlocks(kids) != []
  {
    hide Inert, ExtractChoose, Print, ChooseWithGap;
    LettersAreInert("X");
    LettersAreInert("");
    var gap, kids := ChooseElem("", NoKids, "", End), WhenElem("", "t", "", Text("X", End), NoKids);
    assert WellFormed(Text("X", End)) && WellFormed(gap) && WellFormedKids(kids);
    ChildrenAreFoundUpToAChoose("", NoKids, gap, kids, "");
  }

  lemma GapText(attrs: string, a: string, b: string, c: string, d: string)
    ensures Element(Choose, attrs, a + (b + (c + d))) == OpenTag(Choose, attrs) + (a + (b + (c + d + CloseTag(Choose))))
  {
    hide OpenTag, CloseTag;
  }
}
