/** The ESI tag vocabulary and how tags sit beside each other in a page. */
module Tags {
  import opened Strings

  datatype Name =
    | Inline | Choose | Try | Remove | Vars | Comment | Include
    | Attempt | Except | When | Otherwise

  function NameText(n: Name): (t: string)
    ensures |t| >= 3
    ensures forall i :: 0 <= i < |t| ==> 'a' <= t[i] <= 'z'
  {
    match n
    case Inline => "inline"
    case Choose => "choose"
    case Try => "try"
    case Remove => "remove"
    case Vars => "vars"
    case Comment => "comment"
    case Include => "include"
    case Attempt => "attempt"
    case Except => "except"
    case When => "when"
    case Otherwise => "otherwise"
  }

  /** What the scanners look for: an opening tag up to its name. */
  function Opener(n: Name): (t: string)
    ensures |t| > 5
  {
    "<esi:" + NameText(n)
  }

  function OpenTag(n: Name, attrs: string): (t: string)
    ensures |t| > 5
  {
    Opener(n) + attrs + ">"
  }

  function CloseTag(n: Name): (t: string)
    ensures |t| > 6
  {
    "</esi:" + NameText(n) + ">"
  }

  function Element(n: Name, attrs: string, body: string): string {
    OpenTag(n, attrs) + body + CloseTag(n)
  }

  /** Attribute text that cannot begin or end a tag. */
  predicate Clean(attrs: string) {
    forall i :: 0 <= i < |attrs| ==> attrs[i] != '<' && attrs[i] != '>'
  }

  /** Page text that is no ESI markup and cannot become one by what follows it.
      Ordinary HTML markup is allowed. */
  predicate Inert(t: string) {
    Disjoint(t, "<esi:") && Disjoint(t, "</esi:") && Disjoint(t, "<!--esi")
  }

  /** No two names agree on their first three letters, so none is a prefix of another. */
  lemma NamesDiffer(n: Name, m: Name) returns (k: nat)
    requires n != m
    ensures k < 3 && NameText(n)[k] != NameText(m)[k]
  {
    var a, b := NameText(n), NameText(m);
    k := if a[0] != b[0] then 0 else if a[1] != b[1] then 1 else 2;
  }

  /** A tag has `<` only at its start, so only there can another tag match it. */
  lemma TagDisjoint(t: string, pat: string)
    requires |t| > 0 && |pat| > 0 && pat[0] == '<'
    requires forall i :: 0 < i < |t| ==> t[i] != '<'
    requires Clash(t, pat, 0)
    ensures Disjoint(t, pat)
  {
    forall i | 0 <= i < |t| ensures Clash(t, pat, i) {
      if i > 0 { assert t[i + 0] != pat[0]; }
    }
  }

  lemma OpenTagShape(n: Name, attrs: string)
    requires Clean(attrs)
    ensures
      var t := OpenTag(n, attrs);
      && t[|t| - 1] == '>' && t[1] == 'e' && Opener(n) <= t
      && (forall i :: 0 < i < |t| ==> t[i] != '<')
      && (forall i :: 0 <= i < |t| - 1 ==> t[i] != '>')
      && (forall k :: 0 <= k < |NameText(n)| ==> t[5 + k] == NameText(n)[k])
  {
    var t := OpenTag(n, attrs);
    assert forall k :: 0 <= k < |NameText(n)| ==> t[5 + k] == Opener(n)[5 + k] == NameText(n)[k];
    assert Opener(n) == t[..|Opener(n)|];
    assert forall i :: |Opener(n)| <= i < |t| - 1 ==> t[i] == attrs[i - |Opener(n)|];
    assert forall i :: 5 <= i < |Opener(n)| ==> t[i] == NameText(n)[i - 5];
  }

  lemma CloseTagShape(n: Name)
    ensures
      var t := CloseTag(n);
      && t[|t| - 1] == '>' && t[1] == '/'
      && (forall i :: 0 < i < |t| ==> t[i] != '<')
      && (forall k :: 0 <= k < |NameText(n)| ==> t[6 + k] == NameText(n)[k])
  {
    var t := CloseTag(n);
    assert forall k :: 0 <= k < |NameText(n)| ==> t[6 + k] == NameText(n)[k];
    assert forall i :: 6 <= i < |t| - 1 ==> t[i] == NameText(n)[i - 6];
  }

  lemma OpenTagVsOpener(n: Name, attrs: string, m: Name)
    requires Clean(attrs) && n != m
    ensures Disjoint(OpenTag(n, attrs), Opener(m))
  {
    OpenTagShape(n, attrs);
    var k := NamesDiffer(n, m);
    assert OpenTag(n, attrs)[0 + (5 + k)] != Opener(m)[5 + k];
    TagDisjoint(OpenTag(n, attrs), Opener(m));
  }

  lemma OpenTagVsOther(n: Name, attrs: string, pat: string)
    requires Clean(attrs) && |pat| > 1 && pat[0] == '<' && pat[1] != 'e'
    ensures Disjoint(OpenTag(n, attrs), pat)
  {
    OpenTagShape(n, attrs);
    assert OpenTag(n, attrs)[0 + 1] != pat[1];
    TagDisjoint(OpenTag(n, attrs), pat);
  }

  lemma CloseTagVsOther(n: Name, pat: string)
    requires |pat| > 1 && pat[0] == '<' && pat[1] != '/'
    ensures Disjoint(CloseTag(n), pat)
  {
    CloseTagShape(n);
    assert CloseTag(n)[0 + 1] != pat[1];
    TagDisjoint(CloseTag(n), pat);
  }

  lemma CloseTagVsCloseTag(n: Name, m: Name)
    requires n != m
    ensures Disjoint(CloseTag(n), CloseTag(m))
  {
    CloseTagShape(n);
    CloseTagShape(m);
    var k := NamesDiffer(n, m);
    assert CloseTag(n)[0 + (6 + k)] != CloseTag(m)[6 + k];
    TagDisjoint(CloseTag(n), CloseTag(m));
  }

  lemma InertVsTags(t: string, n: Name)
    requires Inert(t)
    ensures Disjoint(t, Opener(n)) && Disjoint(t, CloseTag(n))
  {
    DisjointExtend(t, "<esi:", Opener(n));
    assert "</esi:" <= CloseTag(n);
    DisjointExtend(t, "</esi:", CloseTag(n));
  }

  /** The first `>` after an opening tag begins is the tag's own. */
  lemma OpenTagEnd(n: Name, attrs: string, s: string)
    requires Clean(attrs)
    ensures Index(OpenTag(n, attrs) + s, ">") == |OpenTag(n, attrs)| - 1
  {
    var t := OpenTag(n, attrs);
    OpenTagShape(n, attrs);
    assert (t + s)[|t| - 1] == '>';
    assert forall j :: 0 <= j < |t| - 1 ==> (t + s)[j..][0] == t[j];
    IndexIs(t + s, ">", |t| - 1);
  }
}
