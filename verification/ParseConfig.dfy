/** servers/nginx/ngx_http_mesi_module.c, build_parse_json_config, and servers/apache/parse_json_config.h:
    the configuration handed to the library as one JSON object. */
module ParseConfig {
  import opened Options
  import opened Strings
  import opened Json
  import opened Decimal
  import opened RequestContext
  import opened ContextReader

  /** The settings of one request; None is an unset directive. An empty template is none, and a
      request context is what module RequestContext builds, if it builds one. */
  datatype Settings = Settings(
    maxDepth: nat, defaultUrl: string, allowedHosts: string, blockPrivateIPs: bool, allowPrivate: bool,
    timeoutSeconds: Option<nat>, maxResponseSize: Option<nat>, maxConcurrentRequests: Option<nat>,
    maxWorkers: Option<nat>,
    debug: Option<bool>, parseOnHeader: Option<bool>,
    includeErrorMarker: Option<string>, cacheKeyTemplate: string, requestCtx: Option<seq<Header>>)

  datatype Setting = Number(n: nat) | Flag(on: bool) | Str(text: string) | Context(hs: seq<Header>)

  /** A key and, if it is set, its value. */
  datatype Part = Part(key: string, value: Option<Setting>)

  function Num(o: Option<nat>): Option<Setting> {
    if o.None? then None else Some(Number(o.value))
  }

  function Flg(o: Option<bool>): Option<Setting> {
    if o.None? then None else Some(Flag(o.value))
  }

  function Txt(o: Option<string>): Option<Setting> {
    if o.None? then None else Some(Str(o.value))
  }

  function Template(c: Settings): Option<Setting> {
    if c.cacheKeyTemplate == "" then None else Some(Str(c.cacheKeyTemplate))
  }

  /** A request context needs a template to be of use. */
  function RequestCtx(c: Settings): Option<Setting> {
    if c.cacheKeyTemplate == "" || c.requestCtx.None? then None else Some(Context(c.requestCtx.value))
  }

  /** Everything behind the depth, in order; the first four are always set. */
  function Parts(c: Settings): (ps: seq<Part>)
    ensures |ps| == 13
  {
    [ Part("defaultUrl", Some(Str(c.defaultUrl))),
      Part("allowedHosts", Some(Str(c.allowedHosts))),
      Part("blockPrivateIPs", Some(Flag(c.blockPrivateIPs))),
      Part("allowPrivateIPsForAllowedHosts", Some(Flag(c.allowPrivate))),
      Part("timeoutSeconds", Num(c.timeoutSeconds)),
      Part("maxResponseSize", Num(c.maxResponseSize)),
      Part("maxConcurrentRequests", Num(c.maxConcurrentRequests)),
      Part("maxWorkers", Num(c.maxWorkers)),
      Part("debug", Flg(c.debug)),
      Part("parseOnHeader", Flg(c.parseOnHeader)),
      Part("includeErrorMarker", Txt(c.includeErrorMarker)),
      Part("cacheKeyTemplate", Template(c)),
      Part("requestCtx", RequestCtx(c)) ]
  }

  const MARKER: nat := 10

  // ---- The text ----

  function ValueText(v: Setting): string {
    match v
    case Number(n) => Digits(n)
    case Flag(on) => BoolText(on)
    case Str(text) => Literal(text)
    case Context(hs) => CtxJson(hs)
  }

  /** A constant like `,"debug":`. */
  function Prefix(key: string): string {
    ",\"" + key + "\":"
  }

  function PartText(p: Part): string {
    if p.value.None? then "" else Prefix(p.key) + ValueText(p.value.value)
  }

  function PartsText(ps: seq<Part>): string {
    if ps == [] then "" else PartText(ps[0]) + PartsText(ps[1..])
  }

  function Head(c: Settings): string {
    "{\"maxDepth\":" + Digits(c.maxDepth)
  }

  function Blob(c: Settings): string {
    Head(c) + PartsText(Parts(c)) + "}"
  }

  lemma {:induction false} PartsConcat(a: seq<Part>, b: seq<Part>)
    ensures PartsText(a + b) == PartsText(a) + PartsText(b)
  {
    hide PartText;
    if a == [] {
      assert a + b == b;
    } else {
      assert (a + b)[1..] == a[1..] + b;
      PartsConcat(a[1..], b);
      Assoc(PartText(a[0]), PartsText(a[1..]), PartsText(b));
    }
  }

  // ---- nginx: measuring and writing ----

  /** The bytes a part costs: its constant, and the digits, the word, or the escaped text and two quotes. */
  method MeasurePart(p: Part) returns (n: nat)
    ensures n == |PartText(p)|
  {
    n := 0;
    if p.value.Some? {
      n := |Prefix(p.key)|;
      match p.value.value {
        case Number(value) =>
          var digits := DigitCount(value);
          n := n + digits;
        case Flag(on) => n := n + if on then 4 else 5;
        case Str(text) =>
          var len := EscapedLen(text);
          n := n + 2 + len;
        case Context(hs) =>
          var len := |CtxJson(hs)|;
          n := n + len;
      }
    }
  }

  /** The same for each part in turn. */
  method MeasureParts(ps: seq<Part>) returns (n: nat)
    ensures n == |PartsText(ps)|
  {
    hide PartText;
    if ps == [] {
      return 0;
    }
    n := MeasurePart(ps[0]);
    var more := MeasureParts(ps[1..]);
    n := n + more;
  }

  /** The numbers a directive accepts. */
  predicate Writable(ps: seq<Part>) {
    forall i :: 0 <= i < |ps| && ps[i].value.Some? && ps[i].value.value.Number? ==> ps[i].value.value.n <= MAX_SIZE
  }

  predicate InRange(c: Settings) {
    && c.maxDepth <= 9223372036854775806
    && (c.timeoutSeconds.Some? ==> c.timeoutSeconds.value <= 9223372036854775806)
    && (c.maxResponseSize.Some? ==> c.maxResponseSize.value <= 9223372036854775806)
    && (c.maxConcurrentRequests.Some? ==> c.maxConcurrentRequests.value <= 9223372036854775806)
    && (c.maxWorkers.Some? ==> c.maxWorkers.value <= 9223372036854775806)
  }

  lemma InRangeIsWritable(c: Settings)
    requires InRange(c)
    ensures Writable(Parts(c)) && c.maxDepth <= MAX_SIZE
  {
  }

  method WritePart(buf: array<char>, w: nat, p: Part) returns (next: nat)
    requires w + |PartText(p)| <= buf.Length && Writable([p])
    modifies buf
    ensures next == w + |PartText(p)| && buf[..next] == old(buf[..w]) + PartText(p)
  {
    hide Prefix, Literal, Digits, CtxJson;
    ghost var before := buf[..w];
    assert [p][0] == p;
    next := w;
    if p.value.Some? {
      next := Put(buf, next, Prefix(p.key));
      match p.value.value {
        case Number(value) => next := WriteDecimal(buf, next, value);
        case Flag(on) => next := Put(buf, next, BoolText(on));
        case Str(text) => next := AppendStr(buf, next, text);
        case Context(hs) => next := Put(buf, next, CtxJson(hs));
      }
      Assoc(before, Prefix(p.key), ValueText(p.value.value));
    } else {
      assert before + "" == before;
    }
  }

  method WriteParts(buf: array<char>, w: nat, ps: seq<Part>) returns (next: nat)
    requires w + |PartsText(ps)| <= buf.Length && Writable(ps)
    modifies buf
    ensures next == w + |PartsText(ps)| && buf[..next] == old(buf[..w]) + PartsText(ps)
    decreases |ps|
  {
    hide PartText;
    ghost var before := buf[..w];
    if ps == [] {
      assert before + "" == before;
      return w;
    }
    assert Writable([ps[0]]) && Writable(ps[1..]) by { SplitWritable(ps); }
    next := WritePart(buf, w, ps[0]);
    next := WriteParts(buf, next, ps[1..]);
    Assoc(before, PartText(ps[0]), PartsText(ps[1..]));
  }

  lemma SplitWritable(ps: seq<Part>)
    requires ps != [] && Writable(ps)
    ensures Writable([ps[0]]) && Writable(ps[1..])
  {
    assert forall i :: 0 <= i < |ps| - 1 ==> ps[1..][i] == ps[i + 1];
  }

  /** Pass 1, with the closing brace and the terminator. */
  method Measure(c: Settings) returns (total: nat)
    ensures total == |Blob(c)| + 1
  {
    hide PartsText, Parts, Digits;
    var digits := DigitCount(c.maxDepth);
    var parts := MeasureParts(Parts(c));
    total := 12 + digits + parts + 1 + 1;
  }

  /** The buffer is filled exactly, whatever settings are present. */
  method BuildParseJsonConfig(c: Settings) returns (buf: array<char>)
    requires InRange(c)
    ensures fresh(buf) && buf[..] == Blob(c) + "\0"
  {
    hide PartsText, Parts, Digits, Writable;
    InRangeIsWritable(c);
    var total := Measure(c);
    buf := new char[total](_ => 0 as char);
    var w := Put(buf, 0, "{\"maxDepth\":");
    w := WriteDecimal(buf, w, c.maxDepth);
    assert buf[..w] == Head(c);
    w := WriteParts(buf, w, Parts(c));
    w := Put(buf, w, "}");
    w := Put(buf, w, "\0");
    assert buf[..w] == buf[..];
  }

  // ---- Apache ----

  /** `mesi_json_string`: one pass into a buffer made for the worst case. C strings hold no NUL; NULL is None. */
  method MesiJsonString(s: Option<string>) returns (buf: array<char>, n: nat)
    requires s.Some? ==> '\0' !in s.value
    ensures fresh(buf) && n < buf.Length && buf[..n] == Literal(OrEmpty(s)) && buf[n] == '\0'
  {
    hide EscapeChar, Escape;
    var text := if s.None? then "" else s.value;
    buf := new char[|text| * 6 + 3](_ => 0 as char);
    n := Put(buf, 0, "\"");
    EscapeNothing();
    assert text[..0] == "" && buf[..1] == "\"" + "";
    for i := 0 to |text|
      invariant n == 1 + |Escape(text[..i])| <= 1 + 6 * i
      invariant buf[..n] == "\"" + Escape(text[..i])
    {
      EscapeSplit(text, i);
      ghost var done := Escape(text[..i]);
      n := WriteChar(buf, n, text[i]);
      Assoc("\"", done, EscapeChar(text[i]));
    }
    assert text[..|text|] == text;
    n := Put(buf, n, "\"");
    buf[n] := '\0';
  }

  function OrEmpty(s: Option<string>): string {
    if s.None? then "" else s.value
  }

  /** `mesi_parse_json_config`: -1 stands for an unset number or switch, NULL for an unset text. The numbers are as
      the directives leave them, not below -1. */
  datatype ApacheConfig = ApacheConfig(
    depth: nat, baseUrl: Option<string>, allowedHosts: Option<string>, blockPrivateIPs: int,
    allowPrivateForAllowed: int,
    requestCtx: Option<seq<Header>>,
    timeoutSeconds: int, maxResponseSize: int, maxConcurrentRequests: int, maxWorkers: int, debug: int,
    parseOnHeader: int,
    includeErrorMarker: Option<string>, cacheKeyTemplate: Option<string>)
  {
    predicate Valid() {
      && timeoutSeconds >= -1 && maxResponseSize >= -1 && maxConcurrentRequests >= -1 && maxWorkers >= -1
      && (baseUrl.Some? ==> '\0' !in baseUrl.value) && (allowedHosts.Some? ==> '\0' !in allowedHosts.value)
      && (includeErrorMarker.Some? ==> '\0' !in includeErrorMarker.value)
      && (cacheKeyTemplate.Some? ==> '\0' !in cacheKeyTemplate.value)
    }
  }

  function Unless1(v: int): Option<nat>
    requires v >= -1
  {
    if v == -1 then None else Some(v)
  }

  function Switch(v: int): Option<bool> {
    if v == -1 then None else Some(v != 0)
  }

  /** The settings an Apache configuration stands for. */
  function AsSettings(g: ApacheConfig): Settings
    requires g.Valid()
  {
    Settings(
      g.depth, OrEmpty(g.baseUrl), OrEmpty(g.allowedHosts), g.blockPrivateIPs != 0, g.allowPrivateForAllowed != 0,
      Unless1(g.timeoutSeconds), Unless1(g.maxResponseSize), Unless1(g.maxConcurrentRequests), Unless1(g.maxWorkers),
      Switch(g.debug), Switch(g.parseOnHeader),
      g.includeErrorMarker, OrEmpty(g.cacheKeyTemplate), g.requestCtx)
  }

  /** An empty marker is no marker. */
  function WithoutEmptyMarker(c: Settings): Settings {
    if c.includeErrorMarker == Some("") then c.(includeErrorMarker := None) else c
  }

  lemma OnePart(ps: seq<Part>, i: nat)
    requires i < |ps|
    ensures PartsText(ps[..i + 1]) == PartsText(ps[..i]) + PartText(ps[i])
  {
    hide PartText;
    assert ps[..i + 1] == ps[..i] + [ps[i]];
    PartsConcat(ps[..i], [ps[i]]);
    assert PartsText([ps[i]]) == PartText(ps[i]) + PartsText([]);
  }

  /** `apr_pstrcat`. */
  function Concat(args: seq<string>): string {
    if args == [] then "" else args[0] + Concat(args[1..])
  }

  lemma {:induction false} ConcatIsText(args: seq<string>, ps: seq<Part>)
    requires |args| == |ps| && forall i :: 0 <= i < |ps| ==> args[i] == PartText(ps[i])
    ensures Concat(args) == PartsText(ps)
  {
    hide PartText;
    if ps != [] {
      assert forall i :: 0 <= i < |ps| - 1 ==> args[1..][i] == args[i + 1] && ps[1..][i] == ps[i + 1];
      ConcatIsText(args[1..], ps[1..]);
    }
  }

  /** The parts the Apache module sets for numbers. */
  method NumberParts(g: ApacheConfig) returns (timeout: string, mrs: string, maxcr: string, maxw: string)
    requires g.Valid()
    ensures timeout == PartText(Part("timeoutSeconds", Num(Unless1(g.timeoutSeconds))))
    ensures mrs == PartText(Part("maxResponseSize", Num(Unless1(g.maxResponseSize))))
    ensures maxcr == PartText(Part("maxConcurrentRequests", Num(Unless1(g.maxConcurrentRequests))))
    ensures maxw == PartText(Part("maxWorkers", Num(Unless1(g.maxWorkers))))
  {
    hide Prefix, Digits;
    timeout, mrs, maxcr, maxw := "", "", "", "";
    if g.timeoutSeconds != -1 {
      timeout := Prefix("timeoutSeconds") + Digits(g.timeoutSeconds);
    }
    if g.maxResponseSize != -1 {
      mrs := Prefix("maxResponseSize") + Digits(g.maxResponseSize);
    }
    if g.maxConcurrentRequests != -1 {
      maxcr := Prefix("maxConcurrentRequests") + Digits(g.maxConcurrentRequests);
    }
    if g.maxWorkers != -1 {
      maxw := Prefix("maxWorkers") + Digits(g.maxWorkers);
    }
  }

  /** The parts it sets for switches. */
  method SwitchParts(g: ApacheConfig) returns (debug: string, poh: string)
    ensures debug == PartText(Part("debug", Flg(Switch(g.debug))))
    ensures poh == PartText(Part("parseOnHeader", Flg(Switch(g.parseOnHeader))))
  {
    hide Prefix;
    debug, poh := "", "";
    if g.debug != -1 {
      debug := Prefix("debug") + if g.debug != 0 then "true" else "false";
    }
    if g.parseOnHeader != -1 {
      poh := Prefix("parseOnHeader") + if g.parseOnHeader != 0 then "true" else "false";
    }
  }

  /** The parts it sets for texts: neither NULL nor an empty text is written. */
  method TextParts(g: ApacheConfig) returns (marker: string, tmpl: string, ctx: string)
    requires g.Valid()
    ensures var c := WithoutEmptyMarker(AsSettings(g));
            && marker == PartText(Part("includeErrorMarker", Txt(c.includeErrorMarker)))
            && tmpl == PartText(Part("cacheKeyTemplate", Template(c)))
            && ctx == PartText(Part("requestCtx", RequestCtx(c)))
  {
    hide Prefix, Literal, CtxJson;
    marker, tmpl, ctx := "", "", "";
    if g.includeErrorMarker.Some? && g.includeErrorMarker.value != "" {
      var buf, n := MesiJsonString(g.includeErrorMarker);
      marker := Prefix("includeErrorMarker") + buf[..n];
    }
    if g.cacheKeyTemplate.Some? && g.cacheKeyTemplate.value != "" {
      var buf, n := MesiJsonString(g.cacheKeyTemplate);
      tmpl := Prefix("cacheKeyTemplate") + buf[..n];
      if g.requestCtx.Some? {
        ctx := Prefix("requestCtx") + CtxJson(g.requestCtx.value);
      }
    }
  }

  /** `mesi_build_parse_json_config`: the arguments of the final concatenation, one after the other. */
  method MesiBuildParseJsonConfig(g: ApacheConfig) returns (blob: string)
    requires g.Valid()
    ensures blob == Blob(WithoutEmptyMarker(AsSettings(g)))
    ensures blob == Blob(AsSettings(g)) <==> g.includeErrorMarker != Some("")
  {
    hide PartText, PartsText, Prefix, Literal, Digits, Concat;
    ghost var c := WithoutEmptyMarker(AsSettings(g));
    var timeout, mrs, maxcr, maxw := NumberParts(g);
    var debug, poh := SwitchParts(g);
    var marker, tmpl, ctx := TextParts(g);
    var url, m := MesiJsonString(g.baseUrl);
    var hosts, n := MesiJsonString(g.allowedHosts);
    FirstFour(c);
    var args := [
      Prefix("defaultUrl") + url[..m],
      Prefix("allowedHosts") + hosts[..n],
      Prefix("blockPrivateIPs") + if g.blockPrivateIPs != 0 then "true" else "false",
      Prefix("allowPrivateIPsForAllowedHosts") + if g.allowPrivateForAllowed != 0 then "true" else "false",
      timeout, mrs, maxcr, maxw, debug, poh, marker, tmpl, ctx ];
    blob := "{\"maxDepth\":" + Digits(g.depth) + Concat(args) + "}";
    ConcatIsText(args, Parts(c));
    MarkerShows(AsSettings(g));
  }

  lemma FirstFour(c: Settings)
    ensures PartText(Parts(c)[0]) == Prefix("defaultUrl") + Literal(c.defaultUrl)
    ensures PartText(Parts(c)[1]) == Prefix("allowedHosts") + Literal(c.allowedHosts)
    ensures PartText(Parts(c)[2]) == Prefix("blockPrivateIPs") + BoolText(c.blockPrivateIPs)
    ensures PartText(Parts(c)[3]) == Prefix("allowPrivateIPsForAllowedHosts") + BoolText(c.allowPrivate)
  {
    hide Prefix, Literal;
  }

  /** A part with a text of another length gives the whole list another length. */
  lemma OneDiffers(ps: seq<Part>, i: nat, p: Part)
    requires i < |ps| && |PartText(p)| != |PartText(ps[i])|
    ensures |PartsText(ps[i := p])| != |PartsText(ps)|
  {
    hide PartText, PartsText;
    OnePart(ps, i);
    OnePart(ps[i := p], i);
    assert ps == ps[..i + 1] + ps[i + 1..] && ps[i := p] == ps[i := p][..i + 1] + ps[i + 1..];
    assert ps[i := p][..i] == ps[..i];
    PartsConcat(ps[..i + 1], ps[i + 1..]);
    PartsConcat(ps[i := p][..i + 1], ps[i + 1..]);
  }

  /** Dropping an empty marker changes the blob exactly if there is one. */
  lemma MarkerShows(c: Settings)
    ensures Blob(WithoutEmptyMarker(c)) == Blob(c) <==> c.includeErrorMarker != Some("")
  {
    hide PartsText, Digits, Literal;
    if c.includeErrorMarker == Some("") {
      var d := c.(includeErrorMarker := None);
      assert Parts(d) == Parts(c)[MARKER := Part("includeErrorMarker", None)];
      OneDiffers(Parts(c), MARKER, Part("includeErrorMarker", None));
    }
  }

  // ---- Reading the object back ----

  datatype Decoding = NumberIs(n: nat) | FlagIs(on: bool) | TextIs(text: string) | ContextIs(ctx: Ctx)

  datatype Field = Field(key: string, value: Decoding)

  /** What decoding makes of a value: in texts stray bytes are replaced. */
  function Meaning(v: Setting): Decoding {
    match v
    case Number(n) => NumberIs(n)
    case Flag(on) => FlagIs(on)
    case Str(text) => TextIs(Sanitized(text))
    case Context(hs) => ContextIs(Ctx(MembersOf(PlainHeaders(hs)), CookiesOf(AllCookies(hs))))
  }

  function FieldOf(p: Part): seq<Field> {
    if p.value.None? then [] else [Field(p.key, Meaning(p.value.value))]
  }

  function FieldsOf(ps: seq<Part>): seq<Field> {
    if ps == [] then [] else FieldOf(ps[0]) + FieldsOf(ps[1..])
  }

  /** What the library must find: the settings that are set, under their names. */
  function Fields(c: Settings): seq<Field> {
    [Field("maxDepth", NumberIs(c.maxDepth))] + FieldsOf(Parts(c))
  }

  function DigitRun(t: string): (n: nat)
    ensures n <= |t| && AllDigits(t[..n]) && (n < |t| ==> !IsDigit(t[n]))
  {
    if t == "" || !IsDigit(t[0]) then 0
    else
      var n := DigitRun(t[1..]);
      assert t[..n + 1] == [t[0]] + t[1..][..n];
      n + 1
  }

  function ReadValue(t: string): (r: Parsed<Decoding>)
    ensures r.Parsed? ==> |r.rest| <= |t|
  {
    if t == "" then Failed
    else if IsDigit(t[0]) then Parsed(NumberIs(Decimal.Value(t[..DigitRun(t)])), t[DigitRun(t)..])
    else if t[0] == 't' then (if "true" <= t then Parsed(FlagIs(true), t[4..]) else Failed)
    else if t[0] == 'f' then (if "false" <= t then Parsed(FlagIs(false), t[5..]) else Failed)
    else if t[0] == '"' then
      match ReadLiteral(t)
      case Bad => Failed
      case Read(text, rest) => Parsed(TextIs(text), rest)
    else
      match ReadCtx(t)
      case Failed => Failed
      case Parsed(ctx, rest) => Parsed(ContextIs(ctx), rest)
  }

  function ReadField(t: string): (r: Parsed<Field>)
    ensures r.Parsed? ==> |r.rest| < |t|
  {
    match ReadLiteral(t)
    case Bad => Failed
    case Read(key, afterKey) =>
      if afterKey == "" || afterKey[0] != ':' then Failed
      else
        match ReadValue(afterKey[1..])
        case Failed => Failed
        case Parsed(value, rest) => Parsed(Field(key, value), rest)
  }

  /** One or more fields separated by commas. */
  function ReadFields(t: string): Parsed<seq<Field>>
    decreases |t|
  {
    match ReadField(t)
    case Failed => Failed
    case Parsed(f, rest) =>
      if rest == "" || rest[0] != ',' then Parsed([f], rest)
      else
        match ReadFields(rest[1..])
        case Failed => Failed
        case Parsed(fs, after) => Parsed([f] + fs, after)
  }

  function ReadObject(t: string): Option<seq<Field>> {
    if t == "" || t[0] != '{' then None
    else
      match ReadFields(t[1..])
      case Failed => None
      case Parsed(fs, rest) => if rest == "}" then Some(fs) else None
  }

  /** A key as the constants spell it: ASCII, and nothing in it needs escaping. */
  predicate IsPlain(key: string) {
    forall i :: 0 <= i < |key| ==> ' ' <= key[i] < 128 as char && key[i] != '"' && key[i] != '\\'
  }

  lemma {:induction false} PlainStays(key: string)
    requires IsPlain(key)
    ensures Escape(key) == key && Sanitized(key) == key
  {
    if key != "" {
      PlainStays(key[1..]);
      assert key == [key[0]] + key[1..] && key[..1] == [key[0]];
    }
  }

  /** Text that can follow a value. */
  predicate Follows(t: string) {
    t != "" && (t[0] == ',' || t[0] == '}')
  }

  lemma {:induction false} DigitRunEnds(d: string, t: string)
    requires AllDigits(d) && Follows(t)
    ensures DigitRun(d + t) == |d|
  {
    if d == "" {
      assert d + t == t;
    } else {
      assert (d + t)[1..] == d[1..] + t;
      DigitRunEnds(d[1..], t);
    }
  }

  lemma NumberIsReadBack(n: nat, t: string)
    requires Follows(t)
    ensures ReadValue(Digits(n) + t) == Parsed(NumberIs(n), t)
  {
    var d := Digits(n);
    DigitsHaveTheirValue(n);
    DigitRunEnds(d, t);
    assert (d + t)[..|d|] == d && (d + t)[|d|..] == t;
    assert (d + t)[0] == d[0];
  }

  lemma CtxStarts(hs: seq<Header>)
    ensures |CtxJson(hs)| > 0 && CtxJson(hs)[0] == '{'
  {
    hide HeaderItems, CookieItems;
  }

  lemma ValueIsReadBack(v: Setting, t: string)
    requires Follows(t)
    ensures ReadValue(ValueText(v) + t) == Parsed(Meaning(v), t)
  {
    hide ReadLiteral, ReadCtx, Escape, CtxJson, Digits, DigitRun, Sanitized, IsUtf8;
    match v
    case Number(n) => NumberIsReadBack(n, t);
    case Flag(on) =>
      assert (BoolText(on) + t)[|BoolText(on)|..] == t && BoolText(on) <= BoolText(on) + t;
    case Str(text) =>
      LiteralIsReadBack(text, t);
      assert Literal(text)[0] == '"';
    case Context(hs) =>
      CtxStarts(hs);
      ContextIsReadBack(hs, t);
  }

  lemma FieldIsReadBack(key: string, v: Setting, t: string)
    requires IsPlain(key) && Follows(t)
    ensures ReadField("\"" + key + "\":" + ValueText(v) + t) == Parsed(Field(key, Meaning(v)), t)
  {
    hide ReadLiteral, ReadValue, ValueText, Meaning, Escape, Sanitized, IsUtf8;
    PlainStays(key);
    var value := ValueText(v) + t;
    assert "\"" + key + "\":" + ValueText(v) + t == Literal(key) + (":" + value);
    LiteralIsReadBack(key, ":" + value);
    assert (":" + value)[1..] == value;
    ValueIsReadBack(v, t);
  }

  /** `r` is the end of an object behind its first field, and `fs` are the fields still in it. */
  predicate IsRest(r: string, fs: seq<Field>) {
    || (r == "}" && fs == [])
    || (r != "" && r[0] == ',' && fs != [] && ReadFields(r[1..]) == Parsed(fs, "}"))
  }

  lemma RestFollows(key: string, v: Setting, r: string, fs: seq<Field>)
    requires IsPlain(key) && IsRest(r, fs)
    ensures ReadFields("\"" + key + "\":" + ValueText(v) + r) == Parsed([Field(key, Meaning(v))] + fs, "}")
  {
    hide ReadField, ValueText, Meaning;
    FieldIsReadBack(key, v, r);
    assert fs == [] ==> [Field(key, Meaning(v))] + fs == [Field(key, Meaning(v))];
  }

  predicate PlainKeys(ps: seq<Part>) {
    forall i :: 0 <= i < |ps| ==> IsPlain(ps[i].key)
  }

  lemma PartIsReadBack(p: Part, r: string, fs: seq<Field>)
    requires p.value.Some? && IsPlain(p.key) && IsRest(r, fs)
    ensures IsRest(PartText(p) + r, [Field(p.key, Meaning(p.value.value))] + fs)
  {
    hide ReadFields, ValueText, Meaning, IsPlain;
    RestFollows(p.key, p.value.value, r, fs);
    assert (PartText(p) + r)[1..] == "\"" + p.key + "\":" + ValueText(p.value.value) + r;
  }

  lemma {:induction false} PartsAreReadBack(ps: seq<Part>)
    requires PlainKeys(ps)
    ensures IsRest(PartsText(ps) + "}", FieldsOf(ps))
  {
    hide ReadFields, ValueText, Meaning, IsPlain;
    if ps == [] {
      assert "" + "}" == "}";
    } else {
      var p, r := ps[0], PartsText(ps[1..]) + "}";
      assert forall i :: 0 <= i < |ps| - 1 ==> ps[1..][i] == ps[i + 1];
      PartsAreReadBack(ps[1..]);
      Assoc(PartText(p), PartsText(ps[1..]), "}");
      if p.value.Some? {
        PartIsReadBack(p, r, FieldsOf(ps[1..]));
      } else {
        assert "" + r == r && [] + FieldsOf(ps[1..]) == FieldsOf(ps[1..]);
      }
    }
  }

  lemma SomeKeysArePlain()
    ensures IsPlain("defaultUrl") && IsPlain("allowedHosts") && IsPlain("blockPrivateIPs")
    ensures IsPlain("allowPrivateIPsForAllowedHosts")
  {
  }

  lemma MoreKeysArePlain()
    ensures IsPlain("timeoutSeconds") && IsPlain("maxResponseSize") && IsPlain("maxConcurrentRequests") &&
      IsPlain("maxWorkers")
  {
  }

  lemma OtherKeysArePlain()
    ensures IsPlain("debug") && IsPlain("parseOnHeader") && IsPlain("includeErrorMarker")
    ensures IsPlain("cacheKeyTemplate") && IsPlain("requestCtx")
  {
  }

  lemma KeysArePlain(c: Settings)
    ensures PlainKeys(Parts(c))
  {
    hide IsPlain;
    SomeKeysArePlain();
    MoreKeysArePlain();
    OtherKeysArePlain();
  }

  /** Decoding the object gives back every setting that is set, under its name and in order; texts with stray bytes
      replaced, and the request context as its headers and cookies. */
  lemma BlobIsReadBack(c: Settings)
    ensures ReadObject(Blob(c)) == Some(Fields(c))
  {
    hide PartsText, FieldsOf, Parts, IsRest, Digits, ReadFields, PlainKeys;
    var r, fs := PartsText(Parts(c)) + "}", FieldsOf(Parts(c));
    KeysArePlain(c);
    PartsAreReadBack(Parts(c));
    RestFollows("maxDepth", Number(c.maxDepth), r, fs);
    Assoc(Head(c), PartsText(Parts(c)), "}");
    assert Blob(c)[1..] == "\"" + "maxDepth" + "\":" + Digits(c.maxDepth) + r;
  }
}
