/** mesi/tokenizer.go: cutting a page into static text and top-level ESI elements. */
module Tokenizer {
  import opened Strings
  import opened Tags
  import opened Scanners

  datatype Token = Static(text: string) | Esi(kind: Name, content: string) {
    function Source(): string {
      if Static? then text else content
    }
  }

  const SUPPORTED: seq<Name> := [Inline, Choose, Try, Remove, Vars, Comment, Include]

  datatype Found = NotFound | Found(at: nat, tag: Name)

  /** The earliest opener of any of the tags. */
  function Earliest(s: string, tags: seq<Name>): (r: Found)
    ensures r.NotFound? ==> forall n :: n in tags ==> Index(s, Opener(n)) == -1
    ensures r.Found? ==> r.tag in tags && r.at == Index(s, Opener(r.tag))
    ensures r.Found? ==> forall n :: n in tags ==> Index(s, Opener(n)) == -1 || r.at <= Index(s, Opener(n))
  {
    if tags == [] then NotFound
    else
      var before := Earliest(s, tags[..|tags| - 1]);
      var n := tags[|tags| - 1];
      var idx := Index(s, Opener(n));
      assert forall t :: t in tags ==> t == n || t in tags[..|tags| - 1];
      if idx != -1 && (before.NotFound? || idx < before.at) then Found(idx, n) else before
  }

  predicate IsBlock(n: Name) {
    n == Try || n == Choose || n == Inline || n == Remove || n == Vars
  }

  function BlockMarks(n: Name): (k: Marks)
    ensures k.Valid()
  {
    Single(Opener(n), CloseTag(n))
  }

  /** Where the element that opens `s` ends (just past it), or -1 if it is not closed. */
  function EndOf(s: string, n: Name): (r: int)
    requires n in SUPPORTED && Opener(n) <= s
    ensures r == -1 || 0 < r <= |s|
  {
    if IsBlock(n) then Shift(|CloseTag(n)|, Scan(s, BlockMarks(n), -1))
    else
      var end := Index(s, ">");
      FirstBracketInside(s, n);
      if n == Include && end >= 0 && s[end - 1] != '/' then
        Shift(|CloseTag(n)|, Index(s, CloseTag(n)))
      else
        Shift(1, end)
  }

  lemma FirstBracketInside(s: string, n: Name)
    requires Opener(n) <= s
    ensures Index(s, ">") != 0
  {
    assert s[0] == Opener(n)[0] == '<';
    assert s[0..] == s;
  }

  lemma OpenerAt(s: string, n: Name)
    requires Index(s, Opener(n)) >= 0
    ensures Opener(n) <= s[Index(s, Opener(n))..]
  {
  }

  /** What one round of the tokenizer cuts off the front of a text. */
  datatype Cut = Last(tokens: seq<Token>) | More(tokens: seq<Token>, skip: nat)

  function FirstCut(s: string): (r: Cut)
    ensures r.More? ==> 0 < r.skip <= |s|
  {
    match Earliest(s, SUPPORTED)
    case NotFound => Last([Static(s)])
    case Found(start, n) =>
      OpenerAt(s, n);
      var lead := if start > 0 then [Static(s[..start])] else [];
      var end := EndOf(s[start..], n);
      if end == -1 then Last(lead + [Static(s[start..])])
      else More(lead + [Esi(n, s[start..start + end])], start + end)
  }

  /** The tokens of a text. */
  function Tokens(s: string): seq<Token>
    decreases |s|
  {
    match FirstCut(s)
    case Last(tokens) => tokens
    case More(tokens, p) => tokens + Tokens(s[p..])
  }

  lemma {:induction false} TokensStep(input: string, pos: nat)
    requires pos <= |input|
    ensures match FirstCut(input[pos..])
            case Last(tokens) => Tokens(input[pos..]) == tokens
            case More(tokens, p) => Tokens(input[pos..]) == tokens + Tokens(input[pos + p..])
  {
    hide FirstCut;
    var cut := FirstCut(input[pos..]);
    if cut.More? { assert input[pos..][cut.skip..] == input[pos + cut.skip..]; }
  }

  method EsiTokenizer(input: string) returns (tokens: seq<Token>)
    ensures tokens == Tokens(input)
  {
    hide Index, OccursAt, EndOf, Earliest, Opener, Tokens;
    tokens := [];
    var pos := 0;
    assert input[0..] == input;
    while true
      invariant 0 <= pos <= |input|
      invariant tokens + Tokens(input[pos..]) == Tokens(input)
      decreases |input| - pos
    {
      TokensStep(input, pos);
      var start, tag := FindOpener(input[pos..]);
      if start == -1 {
        return tokens + [Static(input[pos..])];
      }
      OpenerAt(input[pos..], tag);
      assert input[pos..][start..] == input[pos + start..];
      start := start + pos;
      if start > pos {
        assert input[pos..][..start - pos] == input[pos..start];
        tokens := tokens + [Static(input[pos..start])];
      }
      var end := FindEnd(input[start..], tag);
      if end == -1 {
        return tokens + [Static(input[start..])];
      }
      assert input[pos..][start - pos..start - pos + end] == input[start..start + end];
      end := end + start;
      tokens := tokens + [Esi(tag, input[start..end])];
      pos := end;
    }
  }

  /** The tokenizer's search for the earliest opener; `start` is -1 when there is none. */
  method FindOpener(s: string) returns (start: int, tag: Name)
    ensures start >= -1
    ensures start == -1 ==> Earliest(s, SUPPORTED) == NotFound
    ensures start >= 0 ==> Earliest(s, SUPPORTED) == Found(start, tag)
  {
    hide Index, OccursAt, Opener;
    start, tag := -1, Inline;
    for i := 0 to |SUPPORTED|
      invariant start >= -1
      invariant start == -1 ==> Earliest(s, SUPPORTED[..i]) == NotFound
      invariant start >= 0 ==> Earliest(s, SUPPORTED[..i]) == Found(start, tag)
    {
      assert SUPPORTED[..i + 1][..i] == SUPPORTED[..i];
      var idx := Index(s, Opener(SUPPORTED[i]));
      if idx != -1 && (start == -1 || idx < start) {
        start := idx;
        tag := SUPPORTED[i];
      }
    }
    assert SUPPORTED[..|SUPPORTED|] == SUPPORTED;
  }

  /** The tokenizer's search for the end of the element at the front of `s`. */
  method FindEnd(s: string, tag: Name) returns (end: int)
    requires tag in SUPPORTED && Opener(tag) <= s
    ensures end == EndOf(s, tag)
  {
    hide Index, OccursAt, Scan;
    var endTag := if tag == Comment || tag == Include then ">" else CloseTag(tag);
    if tag == Try || tag == Choose || tag == Inline || tag == Remove || tag == Vars {
      end := FindMatchingEndTag(s, Opener(tag), endTag);
    } else {
      FirstBracketInside(s, tag);
      end := Index(s, endTag);
      if tag == Include && end >= 0 && s[end - 1] != '/' {
        endTag := CloseTag(tag);
        end := Index(s, endTag);
      }
    }
    if end == -1 {
      return -1;
    }
    end := end + |endTag|;
  }

  // ---- What holds of the tokens of every text, well-formed or not ----

  function Source(tokens: seq<Token>): string {
    if tokens == [] then "" else tokens[0].Source() + Source(tokens[1..])
  }

  lemma {:induction false} SourceConcat(a: seq<Token>, b: seq<Token>)
    ensures Source(a + b) == Source(a) + Source(b)
  {
    if a == [] {
      assert a + b == b;
    } else {
      SourceConcat(a[1..], b);
      assert (a + b)[1..] == a[1..] + b;
      Assoc(a[0].Source(), Source(a[1..]), Source(b));
    }
  }

  predicate HasOpener(s: string) {
    exists n :: n in SUPPORTED && Index(s, Opener(n)) >= 0
  }

  /** An element that opens the text and is never closed. */
  predicate Unclosed(s: string) {
    exists n :: n in SUPPORTED && Opener(n) <= s && EndOf(s, n) == -1
  }

  /** Static tokens hold no supported opener, except that the last one may be
      an element that is never closed. */
  ghost predicate StaticsAreClean(tokens: seq<Token>) {
    forall i :: 0 <= i < |tokens| && tokens[i].Static? ==>
      !HasOpener(tokens[i].text) || (i == |tokens| - 1 && Unclosed(tokens[i].text))
  }

  lemma LeadHasNoOpener(s: string, start: nat)
    requires start <= |s|
    requires forall n :: n in SUPPORTED ==> Index(s, Opener(n)) == -1 || start <= Index(s, Opener(n))
    ensures !HasOpener(s[..start])
  {
    forall n | n in SUPPORTED ensures Index(s[..start], Opener(n)) == -1 {
      var i := Index(s[..start], Opener(n));
      if i >= 0 {
        assert s[..start][i..][..|Opener(n)|] == s[i..][..|Opener(n)|];
        assert OccursAt(s, Opener(n), i);
      }
    }
  }

  lemma CutIsLossless(s: string)
    ensures match FirstCut(s)
            case Last(tokens) => Source(tokens) == s && StaticsAreClean(tokens)
            case More(tokens, p) =>
              && Source(tokens) == s[..p]
              && (forall i :: 0 <= i < |tokens| && tokens[i].Static? ==> !HasOpener(tokens[i].text))
  {
    hide Opener, Index, OccursAt, EndOf, Earliest;
    match Earliest(s, SUPPORTED)
    case NotFound => assert Source([Static(s)]) == s + Source([]);
    case Found(start, n) =>
      OpenerAt(s, n);
      LeadHasNoOpener(s, start);
      var lead := if start > 0 then [Static(s[..start])] else [];
      assert Source(lead) == s[..start];
      var end := EndOf(s[start..], n);
      var one := if end == -1 then Static(s[start..]) else Esi(n, s[start..start + end]);
      assert Source([one]) == one.Source() + Source([]);
      SourceConcat(lead, [one]);
      assert end == -1 ==> s[..start] + s[start..] == s && Unclosed(s[start..]);
      assert end != -1 ==> s[..start] + s[start..start + end] == s[..start + end];
  }

  /** Cutting loses nothing and misses no element, on every text. */
  lemma {:induction false} TokensAreLossless(s: string)
    ensures Source(Tokens(s)) == s
    ensures |Tokens(s)| > 0
    ensures StaticsAreClean(Tokens(s))
    decreases |s|
  {
    hide FirstCut, HasOpener, Unclosed;
    CutIsLossless(s);
    CutNonempty(s);
    match FirstCut(s)
    case Last(tokens) =>
    case More(tokens, p) =>
      TokensAreLossless(s[p..]);
      SourceConcat(tokens, Tokens(s[p..]));
      assert s == s[..p] + s[p..];
  }

  lemma CutNonempty(s: string)
    ensures |FirstCut(s).tokens| > 0
  {
  }
}
