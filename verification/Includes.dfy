/** mesi/include.go, mesi/parser.go and mesi/config.go: what an include, a try and a choose element show, case by case
    and in numbers, without the functions that compute it. */
module Includes {
  import opened Options
  import opened Tags
  import opened Tokenizer
  import opened Blocks
  import opened Config
  import opened Document
  import opened Processor
  import opened Meaning

  // ---- Includes ----

  /** An include's own settings: the tag's time limit if it is the shorter one, less the time gone by, and one level
      more than the tag allows below it, if that is fewer than the page has left. */
  function OwnSettings(c: Config, tag: Directive, elapsed: int): Config {
    var time := (if tag.timeout.Some? && tag.timeout.value < c.timeout then tag.timeout.value else c.timeout) - elapsed;
    var depth := if tag.maxDepth.Some? && tag.maxDepth.value + 1 < c.maxDepth then tag.maxDepth.value + 1
                 else c.maxDepth;
    Config(depth, if time > 0 then time else 0, c.parseOnHeader, c.marker)
  }

  /** Some level is left, and the backend answers. */
  predicate Succeeds(env: Env, c: Config, path: Path, tag: Directive) {
    OwnSettings(c, tag, env.clock(path, 0)).maxDepth >= 1 && Answer(env, c, path, tag).Fetched?
  }

  /** What the backend says to the tag with its addresses evaluated. */
  function Answer(env: Env, c: Config, path: Path, tag: Directive): Fetch {
    env.fetch(path, tag.(src := env.eval(path, tag.src), alt := env.eval(path, tag.alt)),
              OwnSettings(c, tag, env.clock(path, 0)))
  }

  /** The page has a level and time left, and the text asks for ESI or need not ask. */
  predicate GoesDeeper(env: Env, c: Config, path: Path, asksForEsi: bool) {
    c.maxDepth >= 1 && c.timeout > env.clock(path, 1) && (asksForEsi || !c.parseOnHeader)
  }

  /** The settings what an include shows is processed with: one level and some time less than the include has. */
  function BelowSettings(env: Env, c: Config, path: Path, tag: Directive): Config {
    var own := OwnSettings(c, tag, env.clock(path, 0));
    var time := own.timeout - env.clock(path, 2);
    Config(if own.maxDepth >= 1 then own.maxDepth - 1 else 0, if time > 0 then time else 0, c.parseOnHeader, c.marker)
  }

  /** What `text` becomes in the page. */
  function Below(env: Env, c: Config, path: Path, tag: Directive, text: string, asksForEsi: bool): Out {
    if GoesDeeper(env, c, path, asksForEsi) then Process(env, BelowSettings(env, c, path, tag), path, text)
    else Out(text, 0, 0)
  }

  function Appears(env: Env, c: Config, path: Path, tag: Directive, text: string, asksForEsi: bool): string {
    Below(env, c, path, tag, text, asksForEsi).text
  }

  lemma SettingsAgree(env: Env, c: Config, path: Path, tag: Directive)
    ensures IncludeConfig(c, Evaluated(env, path, tag), env.clock(path, 0)) == OwnSettings(c, tag, env.clock(path, 0))
    ensures NestedConfig(OwnSettings(c, tag, env.clock(path, 0)), env.clock(path, 2)) ==
      BelowSettings(env, c, path, tag)
  {
  }

  /** What an include shows: what a backend answered, or else nothing, the text inside the element, or the marker, in
      this order. */
  function Shows(env: Env, c: Config, path: Path, tag: Directive): Out {
    if Succeeds(env, c, path, tag) then
      var answer := Answer(env, c, path, tag);
      Below(env, c, path, tag, PageText(answer.page), answer.isEsi)
    else if tag.onError == "continue" then Below(env, c, path, tag, "", false)
    else if tag.content != "" then Below(env, c, path, tag, tag.content, false)
    else Below(env, c, path, tag, c.marker, false)
  }

  /** Every include tag, of whatever text, shows this; and if a level is left it asks a backend, one level above those
      asked below it, with all the time it has. */
  lemma IncludeShows(env: Env, c: Config, path: Path, raw: string)
    ensures env.parse(raw).None? ==> RenderInclude(env, c, path, raw) == Out("", 0, 0)
    ensures env.parse(raw).Some? ==>
              var own := OwnSettings(c, env.parse(raw).value, env.clock(path, 0));
              var shows := Shows(env, c, path, env.parse(raw).value);
              && RenderInclude(env, c, path, raw).text == shows.text
              && RenderInclude(env, c, path, raw).levels == shows.levels + (if own.maxDepth >= 1 then 1 else 0)
              && RenderInclude(env, c, path, raw).longest
                 == if own.maxDepth >= 1 && own.timeout > shows.longest then own.timeout else shows.longest
  {
    hide Process, Print;
    if env.parse(raw).Some? {
      var tag := env.parse(raw).value;
      SettingsAgree(env, c, path, tag);
    }
  }

  /** A page counts what each of its pieces asks. */
  lemma {:induction false} PageCountsAll(env: Env, c: Config, path: Path, tokens: seq<Token>, i: nat, k: nat)
    requires k < |tokens|
    ensures
      var all, one := Render(env, c, path, tokens, i), RenderToken(env, c, path + [i + k], tokens[k]);
      one.levels <= all.levels && one.longest <= all.longest
    decreases k
  {
    hide RenderToken;
    if k > 0 {
      PageCountsAll(env, c, path, tokens[1..], i + 1, k - 1);
      assert i + 1 + (k - 1) == i + k && tokens[1..][k - 1] == tokens[k];
    }
  }

  lemma NothingAppears(env: Env, c: Config, path: Path, tag: Directive)
    requires Lawful(env)
    ensures Appears(env, c, path, tag, "", false) == ""
  {
    PageIsMeant(env, BelowSettings(env, c, path, tag), path, Printed(End));
  }

  /** An include node whose fetch fails, or for which no level is left: nothing if the tag says continue, else the page
      inside the element if there is one, else the marker. */
  lemma FailedIncludeShows(env: Env, c: Config, path: Path, d: Doc)
    requires Lawful(env) && WellFormed(d) && (d.IncludeTag? || d.IncludeElem?)
    requires env.parse(Head(d)).Some? && !Succeeds(env, c, path, env.parse(Head(d)).value)
    ensures
      var tag := env.parse(Head(d)).value;
      var shown := RenderInclude(env, c, path, Head(d)).text;
      if tag.onError == "continue" then shown == ""
      else if d.IncludeElem? && !d.body.End? then
        shown == if GoesDeeper(env, c, path, false)
                 then Means(env, BelowSettings(env, c, path, tag), path, d.body, 0).text
                 else Print(d.body)
      else shown == Appears(env, c, path, tag, c.marker, false)
  {
    hide Process, Means, Below, Succeeds, Lawful;
    var tag := env.parse(Head(d)).value;
    IncludeShows(env, c, path, Head(d));
    NothingAppears(env, c, path, tag);
    ContentIsInside(env, d);
    if d.IncludeElem? {
      BodyIsWellFormed(d);
      EmptyPrint(d.body);
      AppearsAsMeant(env, c, path, tag, d.body);
    }
  }

  lemma BodyIsWellFormed(d: Doc)
    requires WellFormed(d) && d.IncludeElem?
    ensures WellFormed(d.body)
  {
  }

  lemma ContentIsInside(env: Env, d: Doc)
    requires Lawful(env) && WellFormed(d) && (d.IncludeTag? || d.IncludeElem?) && env.parse(Head(d)).Some?
    ensures env.parse(Head(d)).value.content == if d.IncludeElem? then Print(d.body) else ""
  {
    hide Head, Print, WellFormed;
  }

  lemma AppearsAsMeant(env: Env, c: Config, path: Path, tag: Directive, body: Doc)
    requires Lawful(env) && WellFormed(body)
    ensures Appears(env, c, path, tag, Print(body), false)
         == if GoesDeeper(env, c, path, false) then Means(env, BelowSettings(env, c, path, tag), path, body, 0).text
            else Print(body)
  {
    hide Process, Means, Lawful, WellFormed;
    ProcessingIsMeaning(env, BelowSettings(env, c, path, tag), path, body);
  }

  // ---- Try elements ----

  /** Nothing is shown in place of the include: it cannot be decoded, or fails without `continue` and without text
      inside it. */
  predicate FailsOpenly(env: Env, c: Config, path: Path, raw: string) {
    env.parse(raw).None? || (
      var tag := env.parse(raw).value;
      !Succeeds(env, c, path, tag) && tag.onError != "continue" && tag.content == "")
  }

  lemma OpenFailureIsSeen(env: Env, c: Config, path: Path, raw: string)
    ensures FailsUnhandled(env, c, path, Esi(Include, raw)).failed <==> FailsOpenly(env, c, path, raw)
    ensures !FailsOpenly(env, c, path, raw) ==> !FailsUnhandled(env, c, path, Esi(Include, raw)).failed
  {
    if env.parse(raw).Some? { SettingsAgree(env, c, path, env.parse(raw).value); }
  }

  /** Token `k`, the one at place `i + k`, is such an include. */
  predicate OpenAt(env: Env, c: Config, path: Path, tokens: seq<Token>, i: nat, k: nat)
    requires k < |tokens|
  {
    tokens[k].Esi? && tokens[k].kind == Include && FailsOpenly(env, c, path + [i + k], tokens[k].content)
  }

  /** An attempt body fails exactly if some include directly in it fails openly, and is rendered like a page if not. */
  lemma {:induction false} AttemptStops(env: Env, c: Config, path: Path, tokens: seq<Token>, i: nat)
    ensures RenderAttempt(env, c, path, tokens, i).failed
       <==> exists k: nat :: k < |tokens| && OpenAt(env, c, path, tokens, i, k)
    ensures (forall k: nat :: k < |tokens| ==> !OpenAt(env, c, path, tokens, i, k)) ==>
              RenderAttempt(env, c, path, tokens, i).out == Render(env, c, path, tokens, i)
    decreases |tokens|
  {
    hide FailsUnhandled, FailsOpenly, RenderToken;
    if tokens != [] {
      var rest, next := tokens[1..], i + 1;
      OpenFailureIsSeen(env, c, path + [i], tokens[0].Source());
      NoIncludeNoFailure(env, c, path + [i], tokens[0]);
      AttemptStops(env, c, path, rest, next);
      assert OpenAt(env, c, path, tokens, i, 0) <==> FailsUnhandled(env, c, path + [i], tokens[0]).failed;
      if k: nat :| k < |rest| && OpenAt(env, c, path, rest, next, k) {
        OpenLater(env, c, path, tokens, i, k + 1);
      }
      if k: nat :| k < |tokens| && OpenAt(env, c, path, tokens, i, k) {
        if k > 0 { OpenLater(env, c, path, tokens, i, k); }
      }
    }
  }

  lemma OpenLater(env: Env, c: Config, path: Path, tokens: seq<Token>, i: nat, k: nat)
    requires 0 < k < |tokens|
    ensures OpenAt(env, c, path, tokens[1..], i + 1, k - 1) <==> OpenAt(env, c, path, tokens, i, k)
  {
    assert tokens[1..][k - 1] == tokens[k] && i + 1 + (k - 1) == i + k;
  }

  lemma NoIncludeNoFailure(env: Env, c: Config, path: Path, t: Token)
    ensures !(t.Esi? && t.kind == Include) ==> !FailsUnhandled(env, c, path, t).failed
  {
  }

  /** Every try element: its attempt rendered, unless an include directly in it fails openly; then the except body
      processed, and none of the attempt. */
  lemma TryShows(env: Env, c: Config, path: Path, raw: string)
    requires raw != ""
    ensures
      var parts := ExtractTry(raw);
      var tokens := Tokens(parts.attempt);
      var shown := RenderTry(env, c, path, raw).text;
      if parts.attempt == "" then shown == ""
      else if forall k: nat :: k < |tokens| ==> !OpenAt(env, c, path + [0], tokens, 0, k) then
        shown == Render(env, c, path + [0], tokens, 0).text
      else if parts.except != "" then shown == Process(env, c, path + [1], parts.except).text
      else shown == ""
  {
    hide Process, Tokens, ExtractTry, RenderAttempt, Render, OpenAt;
    TryPartsFit(raw);
    var parts := ExtractTry(raw);
    if parts.attempt != "" {
      TokensFit(parts.attempt);
      AttemptStops(env, c, path + [0], Tokens(parts.attempt), 0);
      assert "" + "" == "";
    }
  }

  /** Some node directly in the page, the first one being number `i`, is an include that fails openly. */
  predicate HasOpenFailure(env: Env, c: Config, path: Path, d: Doc, i: nat) {
    !d.End? && (
      || ((d.IncludeTag? || d.IncludeElem?) && FailsOpenly(env, c, path + [i], Head(d)))
      || HasOpenFailure(env, c, path, d.rest, i + 1))
  }

  lemma {:induction false} AttemptOfDocStops(env: Env, c: Config, path: Path, d: Doc, i: nat)
    ensures MeansAttempt(env, c, path, d, i).failed <==> HasOpenFailure(env, c, path, d, i)
    ensures !HasOpenFailure(env, c, path, d, i) ==> MeansAttempt(env, c, path, d, i).out == Means(env, c, path, d, i)
  {
    hide FailsUnhandled, FailsOpenly, Head, MeansNode;
    if !d.End? {
      OpenFailureIsSeenAt(env, c, path + [i], d);
      AttemptOfDocStops(env, c, path, d.rest, i + 1);
    }
  }

  lemma OpenFailureIsSeenAt(env: Env, c: Config, path: Path, d: Doc)
    ensures !d.End? ==>
      (FailsUnhandled(env, c, path, Esi(Include, Head(d))).failed <==> FailsOpenly(env, c, path, Head(d)))
  {
    if !d.End? { OpenFailureIsSeen(env, c, path, Head(d)); }
  }

  /** A try element of a page, in terms of the page: the attempt as a page, the except as a page, or nothing. */
  lemma TryOfDocShows(env: Env, c: Config, path: Path, d: Doc)
    requires Lawful(env) && WellFormed(d) && d.TryElem?
    ensures
      RenderTry(env, c, path, Head(d)).text
      == if !HasOpenFailure(env, c, path + [0], d.attempt, 0) then Means(env, c, path + [0], d.attempt, 0).text
         else if d.alt.ExceptElem? then Means(env, c, path + [1], d.alt.body, 0).text
         else ""
  {
    hide Head, HasOpenFailure, MeansAttempt, Means, RenderTry, WellFormed, Lawful;
    TryIsMeant(env, c, path, d);
    AttemptOfDocStops(env, c, path + [0], d.attempt, 0);
    assert MeansNode(env, c, path, d).text
        == if !MeansAttempt(env, c, path + [0], d.attempt, 0).failed
           then MeansAttempt(env, c, path + [0], d.attempt, 0).out.text
           else "" + if d.alt.ExceptElem? then Means(env, c, path + [1], d.alt.body, 0).text else "";
  }

  // ---- Choose elements ----

  /** White space: tab, line feed, vertical tab, form feed, carriage return and blank. */
  predicate AllBlank(s: string) {
    forall i :: 0 <= i < |s| ==> s[i] as int in {9, 10, 11, 12, 13, 32}
  }

  /** `t` is `s` with the white space at both ends taken off. */
  ghost predicate IsTrimmed(s: string, t: string) {
    && (exists a, b :: AllBlank(a) && AllBlank(b) && s == a + t + b)
    && (t != "" ==> t[0] as int !in {9, 10, 11, 12, 13, 32} && t[|t| - 1] as int !in {9, 10, 11, 12, 13, 32})
  }

  lemma {:induction false} TrimmedIs(s: string, a: string, t: string, b: string)
    requires s == a + t + b && AllBlank(a) && AllBlank(b)
    requires t != "" ==> t[0] as int !in {9, 10, 11, 12, 13, 32} && t[|t| - 1] as int !in {9, 10, 11, 12, 13, 32}
    ensures TrimSpace(s) == t
    decreases |s|
  {
    if a != "" {
      assert s[0] == a[0] && s[1..] == a[1..] + t + b;
      TrimmedIs(s[1..], a[1..], t, b);
    } else if t == "" {
      assert s == b;
      if b != "" {
        assert s[1..] == b[1..] + "" + "";
        TrimmedIs(s[1..], b[1..], "", "");
      }
    } else if b != "" {
      assert s[0] == t[0] && s[|s| - 1] == b[|b| - 1] && s[..|s| - 1] == "" + t + b[..|b| - 1];
      TrimmedIs(s[..|s| - 1], "", t, b[..|b| - 1]);
    } else {
      assert s == t;
    }
  }

  /** A test holds exactly if it evaluates, white space at its ends taken off, to `true` or to `1`. */
  lemma TestIsTrueOrOne(env: Env, path: Path, test: string, trimmed: string)
    requires IsTrimmed(test, trimmed)
    ensures TestHolds(env, path, test) <==> env.eval(path, trimmed) in {"true", "1"}
  {
    var a, b :| AllBlank(a) && AllBlank(b) && test == a + trimmed + b;
    TrimmedIs(test, a, trimmed, b);
  }

  /** The test at place `i`, without its white space, evaluates to `true` or to `1`. */
  predicate Holds(env: Env, path: Path, i: nat, test: string) {
    env.eval(path + [i], test) in {"true", "1"}
  }

  /** Of the tests at the places `i` and up, the first to hold is number `k`; none does if `k` is their number. */
  predicate FirstToHold(env: Env, path: Path, tests: seq<string>, i: nat, k: nat) {
    && k <= |tests| && (k < |tests| ==> Holds(env, path, i + k, tests[k]))
    && forall j :: 0 <= j < k ==> !Holds(env, path, i + j, tests[j])
  }

  lemma FirstOfRest(env: Env, path: Path, tests: seq<string>, i: nat, k: nat)
    requires FirstToHold(env, path, tests, i, k) && k > 0
    ensures !Holds(env, path, i, tests[0]) && FirstToHold(env, path, tests[1..], i + 1, k - 1)
  {
    hide Holds;
    assert !Holds(env, path, i + 0, tests[0]);
    forall j | 0 <= j < k - 1 ensures !Holds(env, path, i + 1 + j, tests[1..][j]) {
      assert tests[1..][j] == tests[j + 1] && i + 1 + j == i + (j + 1);
    }
  }

  /** `tests` are the tests of the when blocks without the white space at their ends. */
  ghost predicate AreTests(whens: seq<WhenBlock>, tests: seq<string>) {
    |tests| == |whens| && forall j :: 0 <= j < |whens| ==> IsTrimmed(whens[j].test, tests[j])
  }

  /** The when block that is shown is the first whose test holds; the otherwise body is shown if none does. */
  lemma {:induction false} FirstWhenShows(
    env: Env, c: Config, path: Path, whens: seq<WhenBlock>, tests: seq<string>, otherwise: string,
    i: nat, n: nat, k: nat)
    requires AreTests(whens, tests) && FirstToHold(env, path, tests, i, k)
    requires |otherwise| < n && forall j :: 0 <= j < |whens| ==> |whens[j].body| < n
    ensures
      var shown := RenderWhens(env, c, path, whens, otherwise, i, n);
      if k < |whens| then shown == Process(env, c, path + [i + k], whens[k].body)
      else if otherwise != "" then shown == Process(env, c, path + [i + k], otherwise)
      else shown.text == ""
    decreases k
  {
    hide Process, TestHolds, IsTrimmed;
    if whens != [] {
      TestIsTrueOrOne(env, path + [i], whens[0].test, tests[0]);
      if k > 0 {
        FirstOfRest(env, path, tests, i, k);
        FirstWhenShows(env, c, path, whens[1..], tests[1..], otherwise, i + 1, n, k - 1);
      }
    }
  }

  /** And for a whole choose element, of whatever text. */
  lemma ChooseShows(env: Env, c: Config, path: Path, raw: string, tests: seq<string>, k: nat)
    requires raw != "" && AreTests(ExtractChoose(raw).whens, tests) && FirstToHold(env, path, tests, 0, k)
    ensures
      var b := ExtractChoose(raw);
      var shown := RenderChoose(env, c, path, raw).text;
      if k < |tests| then shown == Process(env, c, path + [k], b.whens[k].body).text
      else if b.otherwise != "" then shown == Process(env, c, path + [k], b.otherwise).text
      else shown == ""
  {
    hide Process, ExtractChoose, RenderWhens, IsTrimmed, FirstToHold;
    ChooseBranchesFit(raw);
    FirstWhenShows(env, c, path, ExtractChoose(raw).whens, tests, ExtractChoose(raw).otherwise, 0, |raw|, k);
  }
}
