/** mesi/parser.go, mesi/include.go, mesi/inline.go and mesi/unescape.go: processing a page. */
module Processor {
  import opened Options
  import opened Strings
  import opened Tags
  import opened Scanners
  import opened Tokenizer
  import opened Blocks
  import opened Config
  import opened Document

  // ---- The world outside ----

  /** A page served by a backend: any text, or a text known to be printed from a tree. */
  datatype Page = Raw(text: string) | Printed(doc: Doc)

  function PageText(p: Page): string {
    match p
    case Raw(text) => text
    case Printed(doc) => Print(doc)
  }

  datatype Fetch = Failed | Fetched(page: Page, isEsi: bool)

  /** Where in the rendering something is asked: one number per nesting level. */
  type Path = seq<nat>

  /** Everything a rendering depends on but does not compute: `$(...)` evaluation, XML decoding of
      an include tag, the backends, and the clock. Except for decoding, each answer may depend on
      where it is asked, so no two questions need to get the same answer. */
  datatype Env = Env(
    eval: (Path, string) -> string,
    parse: string -> Option<Directive>,
    fetch: (Path, Directive, Config) -> Fetch,
    clock: (Path, nat) -> nat)

  // ---- unescape ----

  /** Removes the `<!--esi` and `-->` around hidden markup. */
  function Unescape(s: string): (r: string)
    ensures |r| <= |s|
    decreases |s|
  {
    var start := Index(s, "<!--esi");
    if start == -1 then s
    else
      var body := s[start + 7..];
      var end := Index(body, "-->");
      if end == -1 then s
      else s[..start] + body[..end] + Unescape(body[end + 3..])
  }

  /** One round of the loop, in positions of the whole text. */
  lemma {:induction false} UnescapeStep(input: string, pos: nat, start: nat, end: nat)
    requires pos <= start <= |input| - 7 && end <= |input| - start - 10
    requires Index(input[pos..], "<!--esi") == start - pos
    requires Index(input[start + 7..], "-->") == end
    ensures Unescape(input[pos..])
         == input[pos..start] + input[start + 7..start + 7 + end] + Unescape(input[start + 7 + end + 3..])
  {
    hide Index, OccursAt;
    var s := input[pos..];
    assert s[..start - pos] == input[pos..start];
    assert s[start - pos + 7..] == input[start + 7..];
    assert input[start + 7..][..end] == input[start + 7..start + 7 + end];
    assert input[start + 7..][end + 3..] == input[start + 7 + end + 3..];
  }

  method UnescapeText(input: string) returns (result: string)
    ensures result == Unescape(input)
  {
    hide Index, OccursAt, Unescape;
    result := "";
    var pos := 0;
    assert input[0..] == input;
    while true
      invariant 0 <= pos <= |input|
      invariant result + Unescape(input[pos..]) == Unescape(input)
      decreases |input| - pos
    {
      var start := Index(input[pos..], "<!--esi");
      if start == -1 {
        UnescapeNothing(input[pos..]);
        return result + input[pos..];
      }
      start := start + pos;
      var bodyStart := start + 7;
      assert input[pos..][start - pos + 7..] == input[bodyStart..];
      var end := Index(input[bodyStart..], "-->");
      ghost var was, lead := result, input[pos..start];
      if start > pos {
        result := result + input[pos..start];
      }
      assert result == was + lead;
      if end == -1 {
        UnescapeNothing(input[pos..]);
        assert result + input[start..] == was + (lead + input[start..]);
        assert lead + input[start..] == input[pos..];
        return result + input[start..];
      }
      UnescapeStep(input, pos, start, end);
      result := result + input[bodyStart..bodyStart + end];
      pos := bodyStart + end + 3;
      ghost var body, after := input[bodyStart..bodyStart + end], Unescape(input[pos..]);
      assert was + (lead + body + after) == was + lead + body + after;
    }
  }

  lemma UnescapeNothing(s: string)
    requires var start := Index(s, "<!--esi"); start == -1 || Index(s[start + 7..], "-->") == -1
    ensures Unescape(s) == s
  {
    hide Index, OccursAt;
  }

  // ---- inline ----

  /** The first `>` outside quotes, starting with `q` as the open quote (a blank: none). */
  function UnquotedBracket(s: string, q: char): (r: int)
    ensures -1 <= r < |s|
  {
    if s == "" then -1
    else if q != ' ' then Shift(1, UnquotedBracket(s[1..], if s[0] == q then ' ' else q))
    else if s[0] == '"' || s[0] == '\'' then Shift(1, UnquotedBracket(s[1..], s[0]))
    else if s[0] == '>' then 0
    else Shift(1, UnquotedBracket(s[1..], ' '))
  }

  method FindUnquotedCloseBracket(s: string) returns (r: int)
    ensures r == UnquotedBracket(s, ' ')
  {
    var inQuote, quoteChar := false, ' ';
    assert s[0..] == s;
    for i := 0 to |s|
      invariant inQuote <==> quoteChar != ' '
      invariant Shift(i, UnquotedBracket(s[i..], quoteChar)) == UnquotedBracket(s, ' ')
    {
      assert s[i..][1..] == s[i + 1..];
      if inQuote {
        if s[i] == quoteChar {
          inQuote, quoteChar := false, ' ';
        }
        continue;
      }
      if s[i] == '"' || s[i] == '\'' {
        inQuote, quoteChar := true, s[i];
        continue;
      }
      if s[i] == '>' {
        return i;
      }
    }
    return -1;
  }

  /** Go's `strings.LastIndex`, looking from index `n` down. */
  function LastIndex(s: string, pat: string, n: nat): (r: int)
    requires n <= |s|
    ensures -1 <= r <= n
    ensures r >= 0 ==> OccursAt(s, pat, r)
    ensures forall j :: r < j <= n && 0 <= j ==> !OccursAt(s, pat, j)
  {
    if pat <= s[n..] then n
    else if n == 0 then -1
    else LastIndex(s, pat, n - 1)
  }

  function InlineText(raw: string): string {
    var closeBracket := UnquotedBracket(raw, ' ');
    if closeBracket == -1 then raw
    else
      var body := raw[closeBracket + 1..];
      var closeTag := LastIndex(body, CloseTag(Inline), |body|);
      if closeTag == -1 then body else body[..closeTag]
  }

  // ---- tests ----

  predicate IsSpace(c: char) {
    c == ' ' || c == '\t' || c == '\n' || c == '\r' || c == 11 as char || c == 12 as char
  }

  function TrimSpace(s: string): string {
    if s != "" && IsSpace(s[0]) then TrimSpace(s[1..])
    else if s != "" && IsSpace(s[|s| - 1]) then TrimSpace(s[..|s| - 1])
    else s
  }

  predicate TestHolds(env: Env, path: Path, test: string) {
    var v := env.eval(path, TrimSpace(test));
    v == "true" || v == "1"
  }

  // ---- includes ----

  /** What `toString` hands back: the page to show, whether its header asks for ESI,
      whether the failure is unhandled, and whether a backend was asked. */
  datatype Included = Included(page: Page, isEsi: bool, failed: bool, asked: bool)

  /** `fallback` is the page inside the include element. */
  function ToString(env: Env, c: Config, path: Path, d: Directive, fallback: Page): Included {
    var fetched := if ParseOnly(c) then Failed else env.fetch(path, d, c);
    match fetched
    case Fetched(page, isEsi) => Included(page, isEsi, false, !ParseOnly(c))
    case Failed =>
      if d.onError == "continue" then Included(Raw(""), false, false, !ParseOnly(c))
      else if d.content != "" then Included(fallback, false, false, !ParseOnly(c))
      else Included(Raw(c.marker), false, true, !ParseOnly(c))
  }

  /** An include tag with its source addresses evaluated. */
  function Evaluated(env: Env, path: Path, d: Directive): Directive {
    d.(src := env.eval(path, d.src), alt := env.eval(path, d.alt))
  }

  /** Whether the included page is processed in its turn. */
  predicate IsNested(env: Env, c: Config, path: Path, own: Config, inc: Included) {
    CanGoDeeper(c, env.clock(path, 1)) && (inc.isEsi || !own.parseOnHeader)
  }

  // ---- pages ----

  /** A rendering: its text, how deep backends were asked below one another, and the longest time
      any of them was given. */
  datatype Out = Out(text: string, levels: nat, longest: int)

  function Both(a: Out, b: Out): Out {
    Out(a.text + b.text, Max(a.levels, b.levels), Max(a.longest, b.longest))
  }

  /** Text shown without asking anyone. */
  function Shown(text: string): Out {
    Out(text, 0, 0)
  }

  /** What an include shows, below it and by itself: it asked a backend, within its own budget, or did not. */
  function Around(asked: bool, own: Config, below: Out): Out {
    if asked then Out(below.text, 1 + below.levels, Max(own.timeout, below.longest)) else below
  }

  const NOTHING := Out("", 0, 0)

  /** The rendering of an attempt body, up to the first include that fails unhandled. */
  datatype Attempted = Attempted(out: Out, failed: bool)

  function MaxLen(tokens: seq<Token>): nat {
    if tokens == [] then 0
    else if |tokens[0].Source()| >= MaxLen(tokens[1..]) then |tokens[0].Source()|
    else MaxLen(tokens[1..])
  }

  lemma {:induction false} SourceBoundsTokens(tokens: seq<Token>)
    ensures MaxLen(tokens) <= |Source(tokens)|
  {
    if tokens != [] { SourceBoundsTokens(tokens[1..]); }
  }

  lemma TokensFit(s: string)
    ensures MaxLen(Tokens(s)) <= |s|
  {
    TokensAreLossless(s);
    SourceBoundsTokens(Tokens(s));
  }

  lemma TryPartsFit(raw: string)
    ensures raw == "" || |ExtractTry(raw).attempt| < |raw|
    ensures raw == "" || |ExtractTry(raw).except| < |raw|
  {
    hide Index, OccursAt, Scan, Opener, CloseTag, AttemptAt;
  }

  lemma {:induction false} BranchesFit(s: string, acc: Branches, n: nat)
    requires |s| < n && |acc.otherwise| < n && forall i :: 0 <= i < |acc.whens| ==> |acc.whens[i].body| < n
    ensures var b := ChooseFrom(s, acc);
            |b.otherwise| < n && forall i :: 0 <= i < |b.whens| ==> |b.whens[i].body| < n
    decreases |s|
  {
    hide Index, OccursAt, Scan, Opener, CloseTag, ChildTag;
    match ReadChild(s, acc)
    case Stop(found) =>
    case Next(p, found) => BranchesFit(s[p..], found, n);
  }

  lemma ChooseBranchesFit(raw: string)
    requires raw != ""
    ensures var b := ExtractChoose(raw);
            |b.otherwise| < |raw| && forall i :: 0 <= i < |b.whens| ==> |b.whens[i].body| < |raw|
  {
    hide ChooseFrom, Index, OccursAt;
    match AfterTag(raw)
    case Broken =>
    case Body(b) => BranchesFit(raw[b..], Branches([], ""), |raw|);
  }

  /** Backends are asked at most `depth` levels below one another, and none for longer than `time`. */
  predicate Within(r: Out, depth: nat, time: int) {
    r.levels <= depth && 0 <= r.longest <= Max(0, time)
  }

  /** `MESIParse`. The output is put together in token order; module Pool shows that
      the worker pool delivers exactly that. */
  function Process(env: Env, c: Config, path: Path, input: string): (r: Out)
    ensures Within(r, c.maxDepth, c.timeout)
    decreases c.maxDepth, |input|, 4
  {
    var tokens := Tokens(Unescape(input));
    TokensFit(Unescape(input));
    Render(env, c, path, tokens, 0)
  }

  /** `tokens` from number `i` on. */
  function Render(env: Env, c: Config, path: Path, tokens: seq<Token>, i: nat): (r: Out)
    ensures Within(r, c.maxDepth, c.timeout)
    decreases c.maxDepth, MaxLen(tokens), 3, |tokens|
  {
    if tokens == [] then NOTHING
    else Both(RenderToken(env, c, path + [i], tokens[0]), Render(env, c, path, tokens[1..], i + 1))
  }

  function RenderToken(env: Env, c: Config, path: Path, t: Token): (r: Out)
    ensures Within(r, c.maxDepth, c.timeout)
    decreases c.maxDepth, |t.Source()|, 2
  {
    match t
    case Static(text) => Shown(env.eval(path, text))
    case Esi(kind, raw) =>
      if kind == Try then RenderTry(env, c, path, raw)
      else if kind == Choose then RenderChoose(env, c, path, raw)
      else if kind == Inline then Shown(InlineText(raw))
      else if kind == Include then RenderInclude(env, c, path, raw)
      else NOTHING
  }

  function RenderInclude(env: Env, c: Config, path: Path, raw: string): (r: Out)
    ensures Within(r, c.maxDepth, c.timeout - env.clock(path, 0))
    decreases c.maxDepth, |raw|, 1
  {
    match env.parse(raw)
    case None => NOTHING
    case Some(tag) =>
      var d := Evaluated(env, path, tag);
      var own := IncludeConfig(c, d, env.clock(path, 0));
      var inc := ToString(env, own, path, d, Raw(d.content));
      RenderIncluded(env, c, path, own, inc)
  }

  function RenderIncluded(env: Env, c: Config, path: Path, own: Config, inc: Included): (r: Out)
    requires own.maxDepth <= c.maxDepth && (c.maxDepth > 0 ==> own.maxDepth > 0)
    requires own.timeout >= 0 && inc.asked == !ParseOnly(own)
    ensures Within(r, own.maxDepth, own.timeout)
    decreases c.maxDepth, 0, 0
  {
    var below := if IsNested(env, c, path, own, inc)
                 then Process(env, NestedConfig(own, env.clock(path, 2)), path, PageText(inc.page))
                 else Shown(PageText(inc.page));
    Around(inc.asked, own, below)
  }

  function RenderChoose(env: Env, c: Config, path: Path, raw: string): (r: Out)
    ensures Within(r, c.maxDepth, c.timeout)
    decreases c.maxDepth, |raw|, 1
  {
    if raw == "" then NOTHING
    else
      ChooseBranchesFit(raw);
      var b := ExtractChoose(raw);
      RenderWhens(env, c, path, b.whens, b.otherwise, 0, |raw|)
  }

  /** The first when block whose test holds, else the otherwise body. */
  function RenderWhens(
    env: Env, c: Config, path: Path, whens: seq<WhenBlock>, otherwise: string, i: nat, n: nat): (r: Out)
    requires |otherwise| < n && forall j :: 0 <= j < |whens| ==> |whens[j].body| < n
    ensures Within(r, c.maxDepth, c.timeout)
    decreases c.maxDepth, n, 0, |whens|
  {
    if whens == [] then
      if otherwise != "" then Process(env, c, path + [i], otherwise) else NOTHING
    else if TestHolds(env, path + [i], whens[0].test) then
      Process(env, c, path + [i], whens[0].body)
    else
      RenderWhens(env, c, path, whens[1..], otherwise, i + 1, n)
  }

  function RenderTry(env: Env, c: Config, path: Path, raw: string): (r: Out)
    ensures Within(r, c.maxDepth, c.timeout)
    decreases c.maxDepth, |raw|, 1
  {
    TryPartsFit(raw);
    if raw == "" then NOTHING
    else RenderParts(env, c, path, ExtractTry(raw).attempt, ExtractTry(raw).except, |raw|)
  }

  /** The attempt body, or the except body if something in the attempt failed unhandled. */
  function RenderParts(env: Env, c: Config, path: Path, attempt: string, except: string, n: nat): (r: Out)
    requires |attempt| < n && |except| < n
    ensures Within(r, c.maxDepth, c.timeout)
    decreases c.maxDepth, n, 0
  {
    if attempt == "" then NOTHING
    else
      TokensFit(attempt);
      var attempted := RenderAttempt(env, c, path + [0], Tokens(attempt), 0);
      if !attempted.failed then attempted.out
      else
        var instead := if except != "" then Process(env, c, path + [1], except) else NOTHING;
        Both(attempted.out.(text := ""), instead)
  }

  /** `processAttemptContent`: like rendering, but an include that fails unhandled ends it. */
  function RenderAttempt(env: Env, c: Config, path: Path, tokens: seq<Token>, i: nat): (r: Attempted)
    ensures Within(r.out, c.maxDepth, c.timeout)
    decreases c.maxDepth, MaxLen(tokens), 3, |tokens|
  {
    if tokens == [] then Attempted(NOTHING, false)
    else
      var fails := FailsUnhandled(env, c, path + [i], tokens[0]);
      if fails.failed then fails
      else
        var first := RenderToken(env, c, path + [i], tokens[0]);
        var rest := RenderAttempt(env, c, path, tokens[1..], i + 1);
        Attempted(Both(first, rest.out), rest.failed)
  }

  /** Whether the token is an include that cannot be decoded or fails with nothing to show instead. */
  function FailsUnhandled(env: Env, c: Config, path: Path, t: Token): (r: Attempted)
    ensures Within(r.out, c.maxDepth, c.timeout)
  {
    if t.Esi? && t.kind == Include then
      match env.parse(t.content)
      case None => Attempted(NOTHING, true)
      case Some(tag) =>
        var d := Evaluated(env, path, tag);
        var own := IncludeConfig(c, d, env.clock(path, 0));
        var inc := ToString(env, own, path, d, Raw(d.content));
        Attempted(Around(inc.asked, own, NOTHING), inc.failed)
    else Attempted(NOTHING, false)
  }
}
