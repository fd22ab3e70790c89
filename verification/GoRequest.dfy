/** libgomesi/libgomesi.go, buildRequestFromJSON: the request that cache keys are made from, rebuilt from the
    JSON context a server module sends, and when its headers answer as the client sent them. */
module GoRequest {
  import opened Options
  import opened Hosts
  import opened Json
  import opened CookieHeader
  import opened RequestContext
  import opened ContextReader
  import opened CacheKey

  // ---- Rebuilding the headers ----

  /** Decoding a JSON object to a map: of members with one name the last stays. */
  function LastValues(ms: seq<Member>): map<string, string> {
    if ms == [] then map[]
    else
      var n := |ms| - 1;
      LastValues(ms[..n])[ms[n].0 := ms[n].1]
  }

  /** An order in which a walk over the map can visit it. */
  ghost predicate IsOrder(ctx: map<string, string>, order: seq<string>) {
    && (forall k :: k in order <==> k in ctx)
    && (forall i, j :: 0 <= i < j < |order| ==> order[i] != order[j])
  }

  /** `Header.Set` for every key in turn. */
  function SetAll(ctx: map<string, string>, order: seq<string>): map<string, seq<string>>
    requires forall k :: k in order ==> k in ctx
  {
    if order == [] then map[]
    else
      var n := |order| - 1;
      SetAll(ctx, order[..n])[Canonical(order[n]) := [ctx[order[n]]]]
  }

  /** The loop over the decoded map visits it in any order. */
  method SetHeaders(ctx: map<string, string>) returns (headers: map<string, seq<string>>)
    ensures exists order :: IsOrder(ctx, order) && headers == SetAll(ctx, order)
    ensures forall k :: k in ctx ==> Canonical(k) in headers
    ensures forall h :: h in headers ==> exists k :: k in ctx && Canonical(k) == h && headers[h] == [ctx[k]]
  {
    hide Canonical, SetAll;
    headers := map[];
    ghost var order := [];
    SetNone(ctx);
    var keys := ctx.Keys;
    while keys != {}
      invariant keys <= ctx.Keys
      invariant forall k :: k in order <==> k in ctx && k !in keys
      invariant forall i, j :: 0 <= i < j < |order| ==> order[i] != order[j]
      invariant headers == SetAll(ctx, order)
      decreases |keys|
    {
      var k :| k in keys;
      keys := keys - {k};
      headers := headers[Canonical(k) := [ctx[k]]];
      SetOneMore(ctx, order, k);
      order := order + [k];
    }
    assert IsOrder(ctx, order);
    SetByWalk(ctx, order);
  }

  lemma SetNone(ctx: map<string, string>)
    ensures SetAll(ctx, []) == map[]
  {
  }

  lemma SetOneMore(ctx: map<string, string>, order: seq<string>, k: string)
    requires k in ctx && forall j :: j in order ==> j in ctx
    ensures SetAll(ctx, order + [k]) == SetAll(ctx, order)[Canonical(k) := [ctx[k]]]
  {
    hide Canonical;
    assert (order + [k])[..|order|] == order;
  }

  lemma SetByWalk(ctx: map<string, string>, order: seq<string>)
    requires IsOrder(ctx, order)
    ensures forall k :: k in ctx ==> Canonical(k) in SetAll(ctx, order)
    ensures forall h :: h in SetAll(ctx, order) ==>
              exists k :: k in ctx && Canonical(k) == h && SetAll(ctx, order)[h] == [ctx[k]]
  {
    hide Canonical, SetAll;
    SetFromKeys(ctx, order);
    forall h | h in SetAll(ctx, order)
      ensures exists k :: k in ctx && Canonical(k) == h && SetAll(ctx, order)[h] == [ctx[k]]
    {
      assert IsSetBy(ctx, order, h, SetAll(ctx, order)[h]);
    }
  }

  lemma {:induction false} SetFromKeys(ctx: map<string, string>, order: seq<string>)
    requires forall k :: k in order ==> k in ctx
    ensures forall k :: k in order ==> Canonical(k) in SetAll(ctx, order)
    ensures forall h :: h in SetAll(ctx, order) ==> IsSetBy(ctx, order, h, SetAll(ctx, order)[h])
  {
    hide Canonical;
    if order != [] {
      var n := |order| - 1;
      var before, all := SetAll(ctx, order[..n]), SetAll(ctx, order);
      SetFromKeys(ctx, order[..n]);
      assert order == order[..n] + [order[n]];
      forall h | h in all ensures IsSetBy(ctx, order, h, all[h]) {
        if h == Canonical(order[n]) {
          assert order[n] in order;
        } else {
          var k :| k in order[..n] && Canonical(k) == h && before[h] == [ctx[k]];
          assert k in order;
        }
      }
    }
  }

  ghost predicate IsSetBy(ctx: map<string, string>, order: seq<string>, h: string, values: seq<string>)
    requires forall k :: k in order ==> k in ctx
  {
    exists k :: k in order && Canonical(k) == h && values == [ctx[k]]
  }

  // ---- When lookups answer as the client's headers would ----

  /** The first value the client sent under a name, in any spelling. */
  function FirstSent(fold: string -> string, ms: seq<Member>, name: string): Option<string> {
    if ms == [] then None
    else if SameName(fold, ms[0].0, name) then Some(ms[0].1)
    else FirstSent(fold, ms[1..], name)
  }

  /** Whatever order the map is walked in, every lookup answers with the first value sent. */
  ghost predicate AnswersAsSent(fold: string -> string, ms: seq<Member>) {
    forall order, name :: IsOrder(LastValues(ms), order) && name != "" ==>
      HeaderValue(fold, SetAll(LastValues(ms), order), name) == FirstSent(fold, ms, name)
  }

  /** For every header sent, the last value under its own spelling is the first under any spelling. */
  ghost predicate LastIsFirst(fold: string -> string, ms: seq<Member>) {
    forall i :: 0 <= i < |ms| && ms[i].0 != "" ==>
      ms[i].0 in LastValues(ms) && FirstSent(fold, ms, ms[i].0) == Some(LastValues(ms)[ms[i].0])
  }

  lemma {:induction false} KeysAreSent(ms: seq<Member>)
    ensures forall k :: k in LastValues(ms) <==> exists i :: 0 <= i < |ms| && ms[i].0 == k
  {
    if ms != [] {
      var n := |ms| - 1;
      KeysAreSent(ms[..n]);
      forall k ensures k in LastValues(ms) <==> exists i :: 0 <= i < |ms| && ms[i].0 == k {
        if i :| 0 <= i < |ms| && ms[i].0 == k {
          assert i == n || ms[..n][i].0 == k;
        }
      }
    }
  }

  lemma {:induction false} FirstSentByClass(fold: string -> string, ms: seq<Member>, a: string, b: string)
    requires SameName(fold, a, b)
    ensures FirstSent(fold, ms, a) == FirstSent(fold, ms, b)
  {
    if ms != [] { FirstSentByClass(fold, ms[1..], a, b); }
  }

  lemma {:induction false} FirstSentExists(fold: string -> string, ms: seq<Member>, name: string)
    ensures FirstSent(fold, ms, name).Some? <==> exists i :: 0 <= i < |ms| && SameName(fold, ms[i].0, name)
  {
    if ms != [] {
      FirstSentExists(fold, ms[1..], name);
      if i :| 0 <= i < |ms| && SameName(fold, ms[i].0, name) {
        assert i == 0 || ms[1..][i - 1] == ms[i];
      }
      if i :| 0 <= i < |ms[1..]| && SameName(fold, ms[1..][i].0, name) {
        assert ms[i + 1] == ms[1..][i];
      }
    }
  }

  lemma {:induction false} OneLookup(fold: string -> string, ms: seq<Member>, order: seq<string>, name: string)
    requires IsFold(fold) && LastIsFirst(fold, ms) && IsOrder(LastValues(ms), order) && name != ""
    ensures HeaderValue(fold, SetAll(LastValues(ms), order), name) == FirstSent(fold, ms, name)
  {
    hide HeaderValue, Canonical, IsFold, FirstSent, LastValues, SetAll;
    var ctx := LastValues(ms);
    var headers := SetAll(ctx, order);
    SetFromKeys(ctx, order);
    KeysAreSent(ms);
    if HeaderValue(fold, headers, name).Some? {
      FoundIsPresent(fold, headers, name);
      var h :| h in headers && SameName(fold, h, name) && headers[h] != []
               && HeaderValue(fold, headers, name) == Some(headers[h][0]);
      assert IsSetBy(ctx, order, h, headers[h]);
      var k :| k in order && Canonical(k) == h && headers[h] == [ctx[k]];
      CanonicalIsSameName(fold, k);
      OnlyEmptyFoldsEmpty(fold, name);
      FirstSentByClass(fold, ms, k, name);
    } else {
      FirstSentExists(fold, ms, name);
      forall i | 0 <= i < |ms| ensures !SameName(fold, ms[i].0, name) {
        var k := ms[i].0;
        CanonicalIsSameName(fold, k);
        assert k in order && Canonical(k) in headers;
        NothingIsEmpty(ctx, order);
        FoundExactly(fold, headers, name);
      }
    }
  }

  lemma OnlyEmptyFoldsEmpty(fold: string -> string, name: string)
    requires IsFold(fold)
    ensures SameName(fold, "", name) ==> name == ""
  {
  }

  lemma NothingIsEmpty(ctx: map<string, string>, order: seq<string>)
    requires forall k :: k in order ==> k in ctx
    ensures forall h :: h in SetAll(ctx, order) ==> SetAll(ctx, order)[h] != []
  {
    SetFromKeys(ctx, order);
  }

  /** Some walk over the map ends with a given key. */
  lemma {:induction false} OrderOf(ctx: map<string, string>, keys: set<string>) returns (order: seq<string>)
    ensures forall k :: k in order <==> k in keys
    ensures forall i, j :: 0 <= i < j < |order| ==> order[i] != order[j]
    decreases |keys|
  {
    if keys == {} {
      order := [];
    } else {
      var k :| k in keys;
      order := OrderOf(ctx, keys - {k});
      order := order + [k];
    }
  }

  /** The rebuilt request answers every lookup with the first value sent, in every order of the walk, exactly if
      for every header sent the last value under its own spelling is the first under any spelling. */
  lemma {:induction false} AnswersAsSentExactly(fold: string -> string, ms: seq<Member>)
    requires IsFold(fold)
    ensures AnswersAsSent(fold, ms) <==> LastIsFirst(fold, ms)
  {
    hide HeaderValue, Canonical, IsFold, FirstSent, LastValues, SetAll;
    KeysAreSent(ms);
    if AnswersAsSent(fold, ms) {
      forall i | 0 <= i < |ms| && ms[i].0 != ""
        ensures FirstSent(fold, ms, ms[i].0) == Some(LastValues(ms)[ms[i].0])
      {
        LastOfWalkAnswers(fold, ms, ms[i].0);
      }
    }
    if LastIsFirst(fold, ms) {
      forall order, name | IsOrder(LastValues(ms), order) && name != ""
        ensures HeaderValue(fold, SetAll(LastValues(ms), order), name) == FirstSent(fold, ms, name)
      {
        OneLookup(fold, ms, order, name);
      }
    }
  }

  lemma LastOfWalkAnswers(fold: string -> string, ms: seq<Member>, key: string)
    requires AnswersAsSent(fold, ms) && key in LastValues(ms) && key != ""
    ensures FirstSent(fold, ms, key) == Some(LastValues(ms)[key])
  {
    hide Canonical, FirstSent, LastValues;
    var ctx := LastValues(ms);
    var order := OrderOf(ctx, ctx.Keys - {key});
    var walk := order + [key];
    assert walk[..|order|] == order;
    assert IsOrder(ctx, walk);
    assert HeaderValue(fold, SetAll(ctx, walk), key) == Some(ctx[key]);
  }

  /** In particular if no two headers share a name in any case. */
  lemma {:induction false} DistinctNamesAnswer(fold: string -> string, ms: seq<Member>)
    requires forall i, j :: 0 <= i < j < |ms| ==> !SameName(fold, ms[i].0, ms[j].0)
    ensures LastIsFirst(fold, ms)
  {
    hide FirstSent, LastValues;
    forall i | 0 <= i < |ms|
      ensures ms[i].0 in LastValues(ms) && FirstSent(fold, ms, ms[i].0) == Some(LastValues(ms)[ms[i].0])
    {
      OnlySent(fold, ms, i);
      LastAmong(ms, i);
    }
  }

  lemma {:induction false} OnlySent(fold: string -> string, ms: seq<Member>, i: nat)
    requires i < |ms| && forall j :: 0 <= j < i ==> !SameName(fold, ms[j].0, ms[i].0)
    ensures FirstSent(fold, ms, ms[i].0) == Some(ms[i].1)
  {
    if i > 0 {
      assert ms[1..][i - 1] == ms[i];
      assert forall j :: 0 <= j < i - 1 ==> ms[1..][j] == ms[j + 1];
      OnlySent(fold, ms[1..], i - 1);
    }
  }

  lemma {:induction false} LastAmong(ms: seq<Member>, i: nat)
    requires i < |ms| && forall j :: i < j < |ms| ==> ms[j].0 != ms[i].0
    ensures ms[i].0 in LastValues(ms) && LastValues(ms)[ms[i].0] == ms[i].1
    decreases |ms|
  {
    var n := |ms| - 1;
    if i < n {
      assert ms[..n][i] == ms[i];
      LastAmong(ms[..n], i);
    }
  }

  /** A repeated header is answered with its last value, not its first. */
  lemma RepeatedHeaderDiffers(fold: string -> string)
    requires IsFold(fold)
    ensures !AnswersAsSent(fold, [("Accept", "a"), ("Accept", "b")])
  {
    var ms: seq<Member> := [("Accept", "a"), ("Accept", "b")];
    AnswersAsSentExactly(fold, ms);
    assert ms[..1] == [("Accept", "a")] && ms[..1][..0] == [];
    assert LastValues(ms)["Accept"] == "b";
    assert ms[0].0 == "Accept" && FirstSent(fold, ms, "Accept") == Some("a");
  }

  // ---- The cookies ----

  /** Cookies are added as one `Cookie` header, which no lookup of another name sees. */
  lemma CookieLineIsApart(fold: string -> string, headers: map<string, seq<string>>, line: seq<string>, name: string)
    requires IsFold(fold) && !SameName(fold, "Cookie", name)
    ensures HeaderValue(fold, headers["Cookie" := line], name) == HeaderValue(fold, headers, name)
  {
    hide Canonical, IsFold;
    var more := headers["Cookie" := line];
    CanonicalIsSameName(fold, name);
    assert FirstOf(more, Canonical(name)) == FirstOf(headers, Canonical(name)) &&
      FirstOf(more, name) == FirstOf(headers, name);
    forall key ensures IsLeastKey(fold, more, name, key) <==> IsLeastKey(fold, headers, name, key) {
      SameLeastKey(fold, headers, line, name, key);
    }
    if key :| IsLeastKey(fold, headers, name, key) {
      LeastKeyAgrees(fold, headers, more, name, key);
    }
  }

  lemma SameLeastKey(
    fold: string -> string, headers: map<string, seq<string>>, line: seq<string>, name: string, key: string)
    requires !SameName(fold, "Cookie", name)
    ensures IsLeastKey(fold, headers["Cookie" := line], name, key) <==> IsLeastKey(fold, headers, name, key)
  {
    var more := headers["Cookie" := line];
    assert forall k :: SameName(fold, k, name) ==> (k in more <==> k in headers);
  }

  lemma LeastKeyAgrees(
    fold: string -> string, headers: map<string, seq<string>>, more: map<string, seq<string>>,
    name: string, key: string)
    requires IsLeastKey(fold, headers, name, key) && IsLeastKey(fold, more, name, key)
    requires FirstOf(more, Canonical(name)) == FirstOf(headers, Canonical(name)) &&
      FirstOf(more, name) == FirstOf(headers, name)
    requires FirstOf(more, key) == FirstOf(headers, key)
    ensures HeaderValue(fold, more, name) == HeaderValue(fold, headers, name)
  {
    hide Canonical;
    if name != "" && FirstOf(headers, Canonical(name)).None? && FirstOf(headers, name).None? {
      LeastKeyAnswers(fold, headers, name, key);
      LeastKeyAnswers(fold, more, name, key);
    }
  }

  // ---- From nginx's header list to the lookup ----

  function Sent(hs: seq<Header>): seq<Member> {
    if hs == [] then [] else [(hs[0].key, hs[0].value)] + Sent(hs[1..])
  }

  predicate AllUtf8(hs: seq<Header>) {
    forall i :: 0 <= i < |hs| ==> IsUtf8(hs[i].key) && IsUtf8(hs[i].value)
  }

  /** Decoding keeps the headers exactly if they are UTF-8. */
  lemma {:induction false} Utf8IsKept(hs: seq<Header>)
    ensures MembersOf(hs) == Sent(hs) <==> AllUtf8(hs)
  {
    hide Sanitized, IsUtf8;
    if hs != [] {
      Utf8IsKept(hs[1..]);
      SanitizedGrows(hs[0].key);
      SanitizedGrows(hs[0].value);
      assert MembersOf(hs)[0] == Decoded(hs[0]) && MembersOf(hs)[1..] == MembersOf(hs[1..]);
      assert Sent(hs)[0] == (hs[0].key, hs[0].value) && Sent(hs)[1..] == Sent(hs[1..]);
      assert AllUtf8(hs) <==> IsUtf8(hs[0].key) && IsUtf8(hs[0].value) && AllUtf8(hs[1..]) by { SplitUtf8(hs); }
    }
  }

  lemma SplitUtf8(hs: seq<Header>)
    requires hs != []
    ensures AllUtf8(hs) <==> IsUtf8(hs[0].key) && IsUtf8(hs[0].value) && AllUtf8(hs[1..])
  {
    hide IsUtf8;
    if AllUtf8(hs[1..]) {
      assert forall i :: 0 < i < |hs| ==> hs[i] == hs[1..][i - 1];
    }
    assert forall i :: 0 <= i < |hs| - 1 ==> hs[1..][i] == hs[i + 1];
  }

  /** From the client's headers through the JSON context to the lookups of a cache key: the headers arrive as they
      were sent exactly if they are UTF-8, and the rebuilt request answers with the first value of what arrived
      exactly if no last value under a spelling differs from the first under any. */
  lemma {:induction false} ContextAnswersAsSent(fold: string -> string, hs: seq<Header>, t: string)
    requires IsFold(fold)
    ensures
      var read := ReadCtx(CtxJson(hs) + t);
      && read.Parsed? && read.rest == t
      && (read.value.headers == Sent(PlainHeaders(hs)) <==> AllUtf8(PlainHeaders(hs)))
      && (AnswersAsSent(fold, read.value.headers) <==> LastIsFirst(fold, read.value.headers))
  {
    hide PlainHeaders, CtxJson, ReadCtx, MembersOf, Sent, AllUtf8, AnswersAsSent, LastIsFirst, IsFold;
    ContextIsReadBack(hs, t);
    Utf8IsKept(PlainHeaders(hs));
    AnswersAsSentExactly(fold, MembersOf(PlainHeaders(hs)));
  }
}
