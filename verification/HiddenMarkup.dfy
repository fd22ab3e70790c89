/** `<!--esi ... -->` sections, and the depth limit an include tag can set. */
module HiddenMarkup {
  import opened Strings
  import opened Config
  import opened Document
  import opened Processor
  import opened Meaning

  /** A page written with some of its text inside `<!--esi ... -->`. */
  datatype Segment = Plain(text: string) | Hidden(text: string)

  function Written(segments: seq<Segment>): string {
    if segments == [] then ""
    else
      (match segments[0] case Plain(t) => t case Hidden(t) => "<!--esi" + t + "-->") + Written(segments[1..])
  }

  function Visible(segments: seq<Segment>): string {
    if segments == [] then "" else segments[0].text + Visible(segments[1..])
  }

  /** Plain text does not open a section; the text of a section does not close it early. */
  predicate Fits(s: Segment) {
    match s
    case Plain(t) => Disjoint(t, "<!--esi")
    case Hidden(t) => Index(t + "-->", "-->") == |t|
  }

  predicate Separable(segments: seq<Segment>) {
    forall i :: 0 <= i < |segments| ==> Fits(segments[i])
  }

  /** Taking out the first section. */
  lemma UnescapeCut(s: string, start: nat, end: nat)
    requires Index(s, "<!--esi") == start && start + 7 <= |s|
    requires Index(s[start + 7..], "-->") == end && end + 3 <= |s[start + 7..]|
    ensures Unescape(s) == s[..start] + s[start + 7..][..end] + Unescape(s[start + 7..][end + 3..])
  {
    hide Index, OccursAt;
  }

  lemma {:induction false} UnescapeSkips(t: string, s: string)
    requires Disjoint(t, "<!--esi")
    ensures Unescape(t + s) == t + Unescape(s)
  {
    hide Disjoint, OccursAt, Index, Unescape;
    IndexSkips(t, s, "<!--esi");
    var start := Index(s, "<!--esi");
    if start < 0 {
      UnescapeNothing(s);
      UnescapeNothing(t + s);
    } else {
      assert (t + s)[|t| + start + 7..] == s[start + 7..];
      assert (t + s)[..|t| + start] == t + s[..start];
      var body := s[start + 7..];
      var end := Index(body, "-->");
      if end < 0 {
        UnescapeNothing(s);
        UnescapeNothing(t + s);
      } else {
        UnescapeCut(s, start, end);
        UnescapeCut(t + s, |t| + start, end);
        Assoc(t, s[..start], body[..end]);
        Assoc(t, s[..start] + body[..end], Unescape(body[end + 3..]));
      }
    }
  }

  lemma FirstClose(t: string, s: string)
    requires Index(t + "-->", "-->") == |t|
    ensures Index(t + "-->" + s, "-->") == |t|
  {
    var u := t + "-->";
    assert (u + s)[|t|..][..3] == "-->";
    forall j | 0 <= j < |t| ensures !OccursAt(u + s, "-->", j) {
      assert !OccursAt(u, "-->", j);
      assert (u + s)[j..][..3] == u[j..][..3];
    }
    IndexIs(u + s, "-->", |t|);
  }

  lemma {:induction false} UnescapeSection(t: string, s: string)
    requires Index(t + "-->", "-->") == |t|
    ensures Unescape("<!--esi" + t + "-->" + s) == t + Unescape(s)
  {
    hide Index, OccursAt, Unescape;
    var rest := t + "-->" + s;
    FirstClose(t, s);
    IndexAtStart("<!--esi", rest, "<!--esi");
    assert "<!--esi" + t + "-->" + s == "<!--esi" + rest;
    assert ("<!--esi" + rest)[7..] == rest && ("<!--esi" + rest)[..0] == "";
    UnescapeCut("<!--esi" + rest, 0, |t|);
    assert rest[..|t|] == t && rest[|t| + 3..] == s;
  }


  /** Removing the section marks undoes writing them, wherever sections begin and end. */
  lemma {:induction false} UnescapeWritten(segments: seq<Segment>)
    requires Separable(segments)
    ensures Unescape(Written(segments)) == Visible(segments)
  {
    hide Disjoint, Index, OccursAt;
    if segments == [] {
      UnescapeNothing("");
    } else {
      UnescapeWritten(segments[1..]);
      match segments[0]
      case Plain(t) => UnescapeSkips(t, Written(segments[1..]));
      case Hidden(t) =>
        UnescapeSection(t, Written(segments[1..]));
        assert "<!--esi" + t + "-->" + Written(segments[1..]) == ("<!--esi" + t + "-->") + Written(segments[1..]);
    }
  }

  /** A page means the same with any of its text hidden, even when a section
      begins or ends in the middle of an element. */
  lemma {:induction false} HidingKeepsMeaning(env: Env, c: Config, path: Path, segments: seq<Segment>, d: Doc)
    requires Lawful(env) && WellFormed(d) && Separable(segments) && Visible(segments) == Print(d)
    ensures Process(env, c, path, Written(segments)) == Means(env, c, path, d, 0)
  {
    hide Means, Unescape, Render, Separable, Written, Visible, Print, WellFormed, Lawful;
    UnescapeWritten(segments);
    UnescapeOfDoc(d);
    ProcessingIsMeaning(env, c, path, d);
  }

  /** An include that allows itself `k` levels asks for its own page and at most `k` levels below it,
      whatever the pages it fetches contain. */
  lemma OverrideLimitsDepth(env: Env, c: Config, path: Path, raw: string)
    requires env.parse(raw).Some? && env.parse(raw).value.maxDepth.Some?
    ensures RenderInclude(env, c, path, raw).levels <= env.parse(raw).value.maxDepth.value + 1
  {
    hide Process, Index, Print;
    var d := Evaluated(env, path, env.parse(raw).value);
    var own := IncludeConfig(c, d, env.clock(path, 0));
    var inc := ToString(env, own, path, d, Raw(d.content));
    assert RenderInclude(env, c, path, raw) == RenderIncluded(env, c, path, own, inc);
  }

  /** And one that sets itself a time limit gives no backend, its own or one below, longer than what is left of it. */
  lemma OverrideLimitsTime(env: Env, c: Config, path: Path, raw: string)
    requires env.parse(raw).Some? && env.parse(raw).value.timeout.Some?
    ensures RenderInclude(env, c, path, raw).longest
         <= Max(0, env.parse(raw).value.timeout.value - env.clock(path, 0))
  {
    hide Process, Index, Print;
    var d := Evaluated(env, path, env.parse(raw).value);
    var own := IncludeConfig(c, d, env.clock(path, 0));
    var inc := ToString(env, own, path, d, Raw(d.content));
    assert RenderInclude(env, c, path, raw) == RenderIncluded(env, c, path, own, inc);
  }
}
