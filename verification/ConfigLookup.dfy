/** What the library finds in the configuration it is handed: every setting under its own name, told from the settings
    of either server module directly. */
module ConfigLookup {
  import opened Options
  import opened Json
  import opened CookieHeader
  import opened RequestContext
  import opened ContextReader
  import opened ParseConfig

  /** What an object has under a key. */
  function Lookup(fs: seq<Field>, key: string): Option<Decoding> {
    if fs == [] then None
    else if fs[0].key == key then Some(fs[0].value)
    else Lookup(fs[1..], key)
  }

  /** No key comes twice, and none but these. */
  predicate HasOnly(fs: seq<Field>, keys: seq<string>) {
    && (forall i :: 0 <= i < |fs| ==> fs[i].key in keys)
    && (forall i, j :: 0 <= i < j < |fs| ==> fs[i].key != fs[j].key)
  }

  /** Every setting of nginx, under its name: numbers, switches and texts that are unset have no member, a template
      only if it is not empty, and a request context only next to a template. */
  predicate SaysNginx(c: Settings, fs: seq<Field>) {
    && Lookup(fs, "maxDepth") == Some(NumberIs(c.maxDepth))
    && Lookup(fs, "defaultUrl") == Some(TextIs(Sanitized(c.defaultUrl)))
    && Lookup(fs, "allowedHosts") == Some(TextIs(Sanitized(c.allowedHosts)))
    && Lookup(fs, "blockPrivateIPs") == Some(FlagIs(c.blockPrivateIPs))
    && Lookup(fs, "allowPrivateIPsForAllowedHosts") == Some(FlagIs(c.allowPrivate))
    && Lookup(fs, "timeoutSeconds") == (if c.timeoutSeconds.Some? then Some(NumberIs(c.timeoutSeconds.value)) else None)
    && Lookup(fs, "maxResponseSize")
       == (if c.maxResponseSize.Some? then Some(NumberIs(c.maxResponseSize.value)) else None)
    && Lookup(fs, "maxConcurrentRequests")
       == (if c.maxConcurrentRequests.Some? then Some(NumberIs(c.maxConcurrentRequests.value)) else None)
    && Lookup(fs, "maxWorkers") == (if c.maxWorkers.Some? then Some(NumberIs(c.maxWorkers.value)) else None)
    && Lookup(fs, "debug") == (if c.debug.Some? then Some(FlagIs(c.debug.value)) else None)
    && Lookup(fs, "parseOnHeader") == (if c.parseOnHeader.Some? then Some(FlagIs(c.parseOnHeader.value)) else None)
    && Lookup(fs, "includeErrorMarker")
       == (if c.includeErrorMarker.Some? then Some(TextIs(Sanitized(c.includeErrorMarker.value))) else None)
    && Lookup(fs, "cacheKeyTemplate")
       == (if c.cacheKeyTemplate != "" then Some(TextIs(Sanitized(c.cacheKeyTemplate))) else None)
    && Lookup(fs, "requestCtx")
       == (if c.cacheKeyTemplate != "" && c.requestCtx.Some?
           then Some(ContextIs(ContextOf(c.requestCtx.value))) else None)
  }

  function ContextOf(hs: seq<Header>): Ctx {
    Ctx(MembersOf(PlainHeaders(hs)), CookiesOf(AllCookies(hs)))
  }

  const KEYS: seq<string> := [
    "maxDepth", "defaultUrl", "allowedHosts", "blockPrivateIPs", "allowPrivateIPsForAllowedHosts", "timeoutSeconds",
    "maxResponseSize", "maxConcurrentRequests", "maxWorkers", "debug", "parseOnHeader", "includeErrorMarker",
    "cacheKeyTemplate", "requestCtx" ]

  /** Every setting of Apache, under its name: -1 gives no member, and of a switch 0 gives false and anything else
      true; NULL and empty texts give no member, except that the URL and the hosts then are empty texts. */
  predicate SaysApache(g: ApacheConfig, fs: seq<Field>) {
    && Lookup(fs, "maxDepth") == Some(NumberIs(g.depth))
    && Lookup(fs, "defaultUrl") == Some(TextIs(if g.baseUrl.Some? then Sanitized(g.baseUrl.value) else ""))
    && Lookup(fs, "allowedHosts") == Some(TextIs(if g.allowedHosts.Some? then Sanitized(g.allowedHosts.value) else ""))
    && Lookup(fs, "blockPrivateIPs") == Some(FlagIs(g.blockPrivateIPs != 0))
    && Lookup(fs, "allowPrivateIPsForAllowedHosts") == Some(FlagIs(g.allowPrivateForAllowed != 0))
    && (g.timeoutSeconds == -1 ==> Lookup(fs, "timeoutSeconds") == None)
    && (g.timeoutSeconds >= 0 ==> Lookup(fs, "timeoutSeconds") == Some(NumberIs(g.timeoutSeconds)))
    && (g.maxResponseSize == -1 ==> Lookup(fs, "maxResponseSize") == None)
    && (g.maxResponseSize >= 0 ==> Lookup(fs, "maxResponseSize") == Some(NumberIs(g.maxResponseSize)))
    && (g.maxConcurrentRequests == -1 ==> Lookup(fs, "maxConcurrentRequests") == None)
    && (g.maxConcurrentRequests >= 0 ==>
          Lookup(fs, "maxConcurrentRequests") == Some(NumberIs(g.maxConcurrentRequests)))
    && (g.maxWorkers == -1 ==> Lookup(fs, "maxWorkers") == None)
    && (g.maxWorkers >= 0 ==> Lookup(fs, "maxWorkers") == Some(NumberIs(g.maxWorkers)))
    && Lookup(fs, "debug") == (if g.debug == -1 then None else Some(FlagIs(g.debug != 0)))
    && Lookup(fs, "parseOnHeader") == (if g.parseOnHeader == -1 then None else Some(FlagIs(g.parseOnHeader != 0)))
    && Lookup(fs, "includeErrorMarker") == IfNotEmpty(g.includeErrorMarker)
    && Lookup(fs, "cacheKeyTemplate") == IfNotEmpty(g.cacheKeyTemplate)
    && Lookup(fs, "requestCtx")
       == (if g.cacheKeyTemplate.Some? && g.cacheKeyTemplate.value != "" && g.requestCtx.Some?
           then Some(ContextIs(ContextOf(g.requestCtx.value))) else None)
  }

  /** A text that is neither NULL nor empty. */
  function IfNotEmpty(s: Option<string>): Option<Decoding> {
    if s.Some? && s.value != "" then Some(TextIs(Sanitized(s.value))) else None
  }

  // ---- Looking up parts ----

  predicate DistinctKeys(ps: seq<Part>) {
    forall i, j :: 0 <= i < j < |ps| ==> ps[i].key != ps[j].key
  }

  predicate Among(fs: seq<Field>, ps: seq<Part>) {
    forall i :: 0 <= i < |fs| ==> exists j :: 0 <= j < |ps| && ps[j].key == fs[i].key
  }

  lemma {:induction false} FieldsAreAmong(ps: seq<Part>)
    requires DistinctKeys(ps)
    ensures Among(FieldsOf(ps), ps)
    ensures forall i, j :: 0 <= i < j < |FieldsOf(ps)| ==> FieldsOf(ps)[i].key != FieldsOf(ps)[j].key
  {
    hide Meaning;
    if ps != [] {
      var rest := FieldsOf(ps[1..]);
      assert forall j :: 0 <= j < |ps| - 1 ==> ps[1..][j] == ps[j + 1];
      FieldsAreAmong(ps[1..]);
      forall i | 0 <= i < |rest| ensures rest[i].key != ps[0].key
        ensures exists j :: 0 <= j < |ps| && ps[j].key == rest[i].key
      {
        var j :| 0 <= j < |ps| - 1 && ps[1..][j].key == rest[i].key;
        assert ps[j + 1].key == rest[i].key;
      }
      if ps[0].value.Some? { assert ps[0].key == FieldsOf(ps)[0].key; }
    }
  }

  lemma {:induction false} AbsentIsNone(fs: seq<Field>, key: string)
    requires forall i :: 0 <= i < |fs| ==> fs[i].key != key
    ensures Lookup(fs, key) == None
  {
    if fs != [] { AbsentIsNone(fs[1..], key); }
  }

  /** Under the key of a part an object made of parts has the part's value, if it is set. */
  lemma {:induction false} PartIsFound(ps: seq<Part>, i: nat)
    requires DistinctKeys(ps) && i < |ps|
    ensures Lookup(FieldsOf(ps), ps[i].key)
         == if ps[i].value.Some? then Some(Meaning(ps[i].value.value)) else None
  {
    hide Meaning;
    var rest := FieldsOf(ps[1..]);
    assert forall j :: 0 <= j < |ps| - 1 ==> ps[1..][j] == ps[j + 1];
    if i == 0 {
      FieldsAreAmong(ps[1..]);
      if ps[0].value.None? {
        assert FieldsOf(ps) == rest;
        AbsentIsNone(rest, ps[0].key);
      }
    } else {
      PartIsFound(ps[1..], i - 1);
      if ps[0].value.Some? { assert FieldsOf(ps)[1..] == rest; } else { assert FieldsOf(ps) == rest; }
    }
  }

  lemma KeysDiffer(c: Settings)
    ensures DistinctKeys(Parts(c))
    ensures forall i :: 0 <= i < 13 ==> Parts(c)[i].key == KEYS[i + 1] && KEYS[i + 1] != "maxDepth"
  {
    assert |KEYS| == 14;
    var ps := Parts(c);
    assert forall i, j :: 0 <= i < j < 14 ==> KEYS[i] != KEYS[j] by { KeysAreDistinct(); }
    assert forall i :: 0 <= i < 13 ==> ps[i].key == KEYS[i + 1];
  }

  lemma KeysAreDistinct()
    ensures |KEYS| == 14 && forall i, j :: 0 <= i < j < 14 ==> KEYS[i] != KEYS[j]
  {
    var lengths := seq(14, i requires 0 <= i < 14 => |KEYS[i]|);
  }

  lemma Found(c: Settings, i: nat)
    requires i < 13
    ensures Lookup(Fields(c), Parts(c)[i].key)
         == if Parts(c)[i].value.Some? then Some(Meaning(Parts(c)[i].value.value)) else None
  {
    hide FieldsOf, Parts, Meaning;
    KeysDiffer(c);
    PartIsFound(Parts(c), i);
    assert Fields(c)[1..] == FieldsOf(Parts(c));
  }

  lemma FixedAreFound(c: Settings)
    ensures
      var fs := Fields(c);
      && Lookup(fs, "maxDepth") == Some(NumberIs(c.maxDepth))
      && Lookup(fs, "defaultUrl") == Some(TextIs(Sanitized(c.defaultUrl)))
      && Lookup(fs, "allowedHosts") == Some(TextIs(Sanitized(c.allowedHosts)))
      && Lookup(fs, "blockPrivateIPs") == Some(FlagIs(c.blockPrivateIPs))
      && Lookup(fs, "allowPrivateIPsForAllowedHosts") == Some(FlagIs(c.allowPrivate))
  {
    hide FieldsOf, Sanitized;
    Found(c, 0);
    Found(c, 1);
    Found(c, 2);
    Found(c, 3);
  }

  lemma NumbersAreFound(c: Settings)
    ensures
      var fs := Fields(c);
      && Lookup(fs, "timeoutSeconds")
         == (if c.timeoutSeconds.Some? then Some(NumberIs(c.timeoutSeconds.value)) else None)
      && Lookup(fs, "maxResponseSize")
         == (if c.maxResponseSize.Some? then Some(NumberIs(c.maxResponseSize.value)) else None)
      && Lookup(fs, "maxConcurrentRequests")
         == (if c.maxConcurrentRequests.Some? then Some(NumberIs(c.maxConcurrentRequests.value)) else None)
      && Lookup(fs, "maxWorkers") == (if c.maxWorkers.Some? then Some(NumberIs(c.maxWorkers.value)) else None)
  {
    hide FieldsOf, Lookup, Sanitized;
    Found(c, 4);
    Found(c, 5);
    Found(c, 6);
    Found(c, 7);
  }

  lemma OthersAreFound(c: Settings)
    ensures
      var fs := Fields(c);
      && Lookup(fs, "debug") == (if c.debug.Some? then Some(FlagIs(c.debug.value)) else None)
      && Lookup(fs, "parseOnHeader") == (if c.parseOnHeader.Some? then Some(FlagIs(c.parseOnHeader.value)) else None)
      && Lookup(fs, "includeErrorMarker")
         == (if c.includeErrorMarker.Some? then Some(TextIs(Sanitized(c.includeErrorMarker.value))) else None)
      && Lookup(fs, "cacheKeyTemplate")
         == (if c.cacheKeyTemplate != "" then Some(TextIs(Sanitized(c.cacheKeyTemplate))) else None)
      && Lookup(fs, "requestCtx")
         == (if c.cacheKeyTemplate != "" && c.requestCtx.Some? then Some(ContextIs(ContextOf(c.requestCtx.value)))
             else None)
  {
    hide FieldsOf, Lookup, Sanitized;
    Found(c, 8);
    Found(c, 9);
    Found(c, 10);
    Found(c, 11);
    Found(c, 12);
  }

  lemma NoOthers(c: Settings)
    ensures HasOnly(Fields(c), KEYS)
  {
    hide FieldsOf, Parts;
    KeysDiffer(c);
    var ps := Parts(c);
    FieldsAreAmong(ps);
    var fs, all := FieldsOf(ps), Fields(c);
    assert all[1..] == fs && all[0].key == "maxDepth" == KEYS[0];
    forall i | 0 <= i < |fs| ensures fs[i].key in KEYS && fs[i].key != "maxDepth" {
      var j :| 0 <= j < |ps| && ps[j].key == fs[i].key;
      assert ps[j].key == KEYS[j + 1];
    }
    forall i | 0 <= i < |all| ensures all[i].key in KEYS {
      if i > 0 { assert all[i] == fs[i - 1]; }
    }
    forall i, j | 0 <= i < j < |all| ensures all[i].key != all[j].key {
      assert all[j] == fs[j - 1];
      if i > 0 { assert all[i] == fs[i - 1]; }
    }
  }

  /** What nginx hands over decodes to an object that has every setting under its name, and nothing else. */
  lemma NginxIsUnderstood(c: Settings)
    ensures
      var read := ReadObject(Blob(c));
      read.Some? && SaysNginx(c, read.value) && HasOnly(read.value, KEYS)
  {
    hide Blob, ReadObject, Fields, Sanitized, Lookup, HasOnly, ContextOf;
    BlobIsReadBack(c);
    FixedAreFound(c);
    NumbersAreFound(c);
    OthersAreFound(c);
    NoOthers(c);
  }

  lemma NothingSanitized()
    ensures Sanitized("") == ""
  {
  }

  /** And so does what Apache hands over, told from its own fields. */
  lemma ApacheIsUnderstood(g: ApacheConfig)
    requires g.Valid()
    ensures
      var read := ReadObject(Blob(WithoutEmptyMarker(AsSettings(g))));
      read.Some? && SaysApache(g, read.value) && HasOnly(read.value, KEYS)
  {
    hide Blob, ReadObject, Lookup, HasOnly, ContextOf, KEYS, Sanitized;
    NothingSanitized();
    NginxIsUnderstood(WithoutEmptyMarker(AsSettings(g)));
  }
}
