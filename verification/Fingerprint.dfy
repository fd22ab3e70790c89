/** mesi/ssrf.go, securityPolicyFingerprint: the part of a cache key that keeps policies apart. */
module Fingerprint {
  import opened Strings
  import opened Hosts
  import opened Sets
  import Base64

  /** The policy in effect for a fetch; host names are byte strings. */
  datatype Policy = Policy(allowedHosts: seq<string>, blockPrivateIPs: bool, allowPrivateForAllowed: bool,
    customClient: bool) {
    predicate Valid() {
      forall i :: 0 <= i < |allowedHosts| ==> Base64.IsBytes(allowedHosts[i])
    }
  }

  /** How the fingerprint writes a host: without one trailing dot, and ASCII names in lower case. */
  function Normal(h: string): string {
    var t := TrimDot(h);
    if IsASCII(t) then Lower(t) else t
  }

  // ---- Sorting ----

  predicate Ascending(s: seq<string>) {
    s == [] || ((forall x :: x in Members(s[1..]) ==> Before(s[0], x)) && Ascending(s[1..]))
  }

  function Insert(x: string, s: seq<string>): seq<string> {
    if s == [] || Before(x, s[0]) then [x] + s else [s[0]] + Insert(x, s[1..])
  }

  /** `sort.Slice` by bytewise order. */
  function Sorted(s: seq<string>): seq<string> {
    if s == [] then [] else Insert(s[0], Sorted(s[1..]))
  }

  lemma {:induction false} InsertAscends(x: string, s: seq<string>)
    requires Ascending(s) && x !in Members(s)
    ensures Ascending(Insert(x, s)) && Members(Insert(x, s)) == Members(s) + {x}
  {
    if s != [] {
      BeforeIsTotal(x, s[0]);
      if Before(x, s[0]) {
        assert ([x] + s)[1..] == s;
        forall y | y in Members(s) ensures Before(x, y) {
          if y != s[0] { BeforeIsTransitive(x, s[0], y); }
        }
      } else {
        InsertAscends(x, s[1..]);
        assert Insert(x, s)[1..] == Insert(x, s[1..]);
      }
    }
  }

  lemma {:induction false} SortedAscends(s: seq<string>)
    requires Distinct(s)
    ensures Ascending(Sorted(s)) && Members(Sorted(s)) == Members(s)
  {
    if s != [] {
      SortedAscends(s[1..]);
      InsertAscends(s[0], Sorted(s[1..]));
    }
  }

  /** A set has only one ascending list. */
  lemma {:induction false} AscendingIsUnique(a: seq<string>, b: seq<string>)
    requires Ascending(a) && Ascending(b) && Members(a) == Members(b)
    ensures a == b
  {
    EmptyMembers(a);
    EmptyMembers(b);
    if a != [] {
      HeadIsLeast(a, b);
      HeadIsLeast(b, a);
      BeforeIsTotal(a[0], b[0]);
      NotInTail(a);
      NotInTail(b);
      assert Members(a[1..]) == Members(a) - {a[0]} && Members(b[1..]) == Members(b) - {b[0]};
      AscendingIsUnique(a[1..], b[1..]);
      assert a == [a[0]] + a[1..] && b == [b[0]] + b[1..];
    }
  }

  lemma EmptyMembers(s: seq<string>)
    ensures Members(s) == {} <==> s == []
  {
  }

  lemma HeadIsLeast(a: seq<string>, b: seq<string>)
    requires Ascending(a) && a != [] && b != [] && Members(a) == Members(b)
    ensures a[0] == b[0] || Before(a[0], b[0])
  {
    assert b[0] in Members(b);
  }

  lemma NotInTail(a: seq<string>)
    requires Ascending(a) && a != []
    ensures a[0] !in Members(a[1..])
  {
    BeforeIsTotal(a[0], a[0]);
  }

  // ---- The fingerprint ----

  /** The normal forms of the hosts not seen so far, first occurrences in order. */
  function Fresh(hosts: seq<string>, seen: set<string>): seq<string> {
    if hosts == [] then []
    else
      var h := Normal(hosts[0]);
      if h in seen then Fresh(hosts[1..], seen) else [h] + Fresh(hosts[1..], seen + {h})
  }

  function NormalSet(hosts: seq<string>): set<string> {
    if hosts == [] then {} else {Normal(hosts[0])} + NormalSet(hosts[1..])
  }

  function Quoted(h: string): string
    requires Base64.IsBytes(h)
  {
    "\"" + Base64.Encode(h) + "\""
  }

  /** `json.Marshal` of a list of byte slices, without the opening bracket. */
  function ItemsJson(hosts: seq<string>): string
    requires forall i :: 0 <= i < |hosts| ==> Base64.IsBytes(hosts[i])
  {
    if hosts == [] then "]"
    else Quoted(hosts[0]) + (if |hosts| == 1 then "]" else "," + ItemsJson(hosts[1..]))
  }

  function Field(name: string, b: bool, rest: string): string {
    name + BoolText(b) + rest
  }

  function Tail(p: Policy): string {
    Field(",bpi:", p.blockPrivateIPs, Field(",api4ah:", p.allowPrivateForAllowed, Field(",hc:", p.customClient, "")))
  }

  lemma {:induction false} FreshHosts(hosts: seq<string>, seen: set<string>)
    ensures Distinct(Fresh(hosts, seen)) && Members(Fresh(hosts, seen)) == NormalSet(hosts) - seen
  {
    if hosts != [] {
      var h := Normal(hosts[0]);
      if h in seen {
        FreshHosts(hosts[1..], seen);
      } else {
        FreshHosts(hosts[1..], seen + {h});
        assert Fresh(hosts, seen)[1..] == Fresh(hosts[1..], seen + {h});
      }
    }
  }

  predicate AllBytes(hosts: seq<string>) {
    forall i :: 0 <= i < |hosts| ==> Base64.IsBytes(hosts[i])
  }

  lemma NormalIsBytes(h: string)
    requires Base64.IsBytes(h)
    ensures Base64.IsBytes(Normal(h))
  {
  }

  lemma {:induction false} FreshIsBytes(hosts: seq<string>, seen: set<string>)
    requires AllBytes(hosts)
    ensures AllBytes(Fresh(hosts, seen))
  {
    hide Normal, Base64.IsBytes;
    if hosts != [] {
      NormalIsBytes(hosts[0]);
      FreshIsBytes(hosts[1..], seen);
      FreshIsBytes(hosts[1..], seen + {Normal(hosts[0])});
    }
  }

  lemma {:induction false} InsertIsBytes(x: string, s: seq<string>)
    requires Base64.IsBytes(x) && AllBytes(s)
    ensures AllBytes(Insert(x, s))
  {
    hide Base64.IsBytes;
    if s != [] && !Before(x, s[0]) { InsertIsBytes(x, s[1..]); }
  }

  lemma {:induction false} SortedIsBytes(s: seq<string>)
    requires AllBytes(s)
    ensures AllBytes(Sorted(s))
  {
    hide Base64.IsBytes;
    if s != [] {
      SortedIsBytes(s[1..]);
      InsertIsBytes(s[0], Sorted(s[1..]));
    }
  }

  function CanonicalHosts(p: Policy): (r: seq<string>)
    requires p.Valid()
    ensures AllBytes(r)
  {
    FreshIsBytes(p.allowedHosts, {});
    SortedIsBytes(Fresh(p.allowedHosts, {}));
    Sorted(Fresh(p.allowedHosts, {}))
  }

  function Fingerprint(p: Policy): string
    requires p.Valid()
  {
    "|ssrf=ah:[" + ItemsJson(CanonicalHosts(p)) + Tail(p)
  }

  method SecurityPolicyFingerprint(p: Policy) returns (r: string)
    requires p.Valid()
    ensures r == Fingerprint(p)
  {
    hide Normal, Base64.IsBytes;
    var hosts, seen := [], {};
    assert p.allowedHosts[0..] == p.allowedHosts;
    for i := 0 to |p.allowedHosts|
      invariant hosts + Fresh(p.allowedHosts[i..], seen) == Fresh(p.allowedHosts, {})
    {
      var h := Normal(p.allowedHosts[i]);
      assert p.allowedHosts[i..][1..] == p.allowedHosts[i + 1..];
      if h in seen {
        continue;
      }
      seen := seen + {h};
      assert hosts + ([h] + Fresh(p.allowedHosts[i + 1..], seen)) == hosts + [h] + Fresh(p.allowedHosts[i + 1..], seen);
      hosts := hosts + [h];
    }
    assert hosts == Fresh(p.allowedHosts, {});
    assert CanonicalHosts(p) == Sorted(hosts);
    hosts := Sorted(hosts);
    r := "|ssrf=ah:[" + ItemsJson(hosts) + Tail(p);
  }

  // ---- Reading it back ----

  /** Up to the first `c`, two texts that agree agree piece by piece. */
  lemma {:induction false} SplitFirst(u: string, v: string, c: char, r: string, s: string)
    requires c !in u && c !in v && u + [c] + r == v + [c] + s
    ensures u == v && r == s
  {
    var left, right := u + [c] + r, v + [c] + s;
    assert forall i :: 0 <= i < |u| ==> left[i] == u[i];
    assert forall i :: 0 <= i < |v| ==> right[i] == v[i];
    assert left[|u|] == c && right[|v|] == c;
    assert |u| == |v|;
    assert u == left[..|u|] && v == right[..|v|];
    assert r == left[|u| + 1..] && s == right[|v| + 1..];
  }

  /** And from the last `c` on. */
  lemma {:induction false} SplitLast(u: string, v: string, c: char, r: string, s: string)
    requires c !in r && c !in s && u + [c] + r == v + [c] + s
    ensures u == v && r == s
  {
    var left, right := u + [c] + r, v + [c] + s;
    assert forall i :: |u| < i < |left| ==> left[i] == r[i - |u| - 1];
    assert forall i :: |v| < i < |right| ==> right[i] == s[i - |v| - 1];
    assert left[|u|] == c && right[|v|] == c;
    assert |u| == |v|;
    assert u == left[..|u|] && v == right[..|v|];
    assert r == left[|u| + 1..] && s == right[|v| + 1..];
  }

  lemma NoMarksInBase64(h: string)
    requires Base64.IsBytes(h)
    ensures '"' !in Base64.Encode(h) && '|' !in Base64.Encode(h)
  {
    Base64.EncodeInAlphabet(h);
  }

  lemma QuotedIsReadBack(x: string, y: string, r: string, s: string)
    requires Base64.IsBytes(x) && Base64.IsBytes(y) && Quoted(x) + r == Quoted(y) + s
    ensures x == y && r == s
  {
    hide Base64.IsBytes, Base64.Encode;
    var ex, ey := Base64.Encode(x), Base64.Encode(y);
    NoMarksInBase64(x);
    NoMarksInBase64(y);
    assert Quoted(x) + r == "\"" + (ex + ['"'] + r) && Quoted(y) + s == "\"" + (ey + ['"'] + s);
    PrefixIsReadBack("\"", ex + ['"'] + r, ey + ['"'] + s);
    SplitFirst(ex, ey, '"', r, s);
    Base64.DecodeEncode(x);
    Base64.DecodeEncode(y);
  }

  /** What follows the first item. */
  function MoreItems(hosts: seq<string>): string
    requires hosts != [] && AllBytes(hosts)
  {
    if |hosts| == 1 then "]" else "," + ItemsJson(hosts[1..])
  }

  lemma ItemsUnfold(a: seq<string>)
    requires AllBytes(a)
    ensures ItemsJson(a) == if a == [] then "]" else Quoted(a[0]) + MoreItems(a)
  {
    hide Base64.IsBytes, Quoted;
  }

  lemma ItemsStart(a: seq<string>, r: string)
    requires AllBytes(a)
    ensures a == [] ==> (ItemsJson(a) + r)[0] == ']' && (ItemsJson(a) + r)[1..] == r
    ensures a != [] ==> (ItemsJson(a) + r)[0] == '"' && ItemsJson(a) + r == Quoted(a[0]) + (MoreItems(a) + r)
  {
    hide Base64.IsBytes, Base64.Encode, ItemsJson, MoreItems;
    ItemsUnfold(a);
  }

  lemma MoreStart(a: seq<string>, r: string)
    requires a != [] && AllBytes(a)
    ensures |a| == 1 ==> MoreItems(a) + r == "]" + r && (MoreItems(a) + r)[0] == ']'
    ensures |a| > 1 ==> MoreItems(a) + r == "," + (ItemsJson(a[1..]) + r) && (MoreItems(a) + r)[0] == ','
  {
    hide Base64.IsBytes, ItemsJson, Quoted;
  }

  lemma {:induction false} ItemsAreReadBack(a: seq<string>, b: seq<string>, r: string, s: string)
    requires AllBytes(a) && AllBytes(b) && ItemsJson(a) + r == ItemsJson(b) + s
    ensures a == b && r == s
  {
    hide Base64.IsBytes, ItemsJson, Quoted, MoreItems;
    ItemsStart(a, r);
    ItemsStart(b, s);
    if a != [] {
      QuotedIsReadBack(a[0], b[0], MoreItems(a) + r, MoreItems(b) + s);
      MoreStart(a, r);
      MoreStart(b, s);
      if |a| == 1 {
        PrefixIsReadBack("]", r, s);
      } else {
        PrefixIsReadBack(",", ItemsJson(a[1..]) + r, ItemsJson(b[1..]) + s);
        ItemsAreReadBack(a[1..], b[1..], r, s);
      }
      assert a == [a[0]] + a[1..] && b == [b[0]] + b[1..];
    }
  }

  lemma PrefixIsReadBack(pre: string, r: string, s: string)
    requires pre + r == pre + s
    ensures r == s
  {
    assert r == (pre + r)[|pre|..] && s == (pre + s)[|pre|..];
  }

  lemma FieldIsReadBack(name: string, b: bool, c: bool, r: string, s: string)
    requires Field(name, b, r) == Field(name, c, s)
    ensures b == c && r == s
  {
    assert name + BoolText(b) + r == name + (BoolText(b) + r) && name + BoolText(c) + s == name + (BoolText(c) + s);
    PrefixIsReadBack(name, BoolText(b) + r, BoolText(c) + s);
    assert (BoolText(b) + r)[0] == (if b then 't' else 'f') && (BoolText(c) + s)[0] == (if c then 't' else 'f');
    PrefixIsReadBack(BoolText(b), r, s);
  }

  lemma TailIsReadBack(p: Policy, q: Policy)
    requires Tail(p) == Tail(q)
    ensures p.blockPrivateIPs == q.blockPrivateIPs && p.allowPrivateForAllowed == q.allowPrivateForAllowed &&
      p.customClient == q.customClient
  {
    hide Field;
    var p2, q2 := Field(",hc:", p.customClient, ""), Field(",hc:", q.customClient, "");
    var p1, q1 := Field(",api4ah:", p.allowPrivateForAllowed, p2), Field(",api4ah:", q.allowPrivateForAllowed, q2);
    FieldIsReadBack(",bpi:", p.blockPrivateIPs, q.blockPrivateIPs, p1, q1);
    FieldIsReadBack(",api4ah:", p.allowPrivateForAllowed, q.allowPrivateForAllowed, p2, q2);
    FieldIsReadBack(",hc:", p.customClient, q.customClient, "", "");
  }

  predicate SamePolicy(p: Policy, q: Policy) {
    && p.blockPrivateIPs == q.blockPrivateIPs && p.allowPrivateForAllowed == q.allowPrivateForAllowed
    && p.customClient == q.customClient && NormalSet(p.allowedHosts) == NormalSet(q.allowedHosts)
  }

  /** Two policies have the same fingerprint exactly if they have the same flags and the same set of hosts in normal
      form; so order and repetition of hosts, ASCII case and one trailing dot are all it ignores. */
  lemma {:induction false} FingerprintIsCanonical(p: Policy, q: Policy)
    requires p.Valid() && q.Valid()
    ensures Fingerprint(p) == Fingerprint(q) <==> SamePolicy(p, q)
  {
    hide Base64.IsBytes, Normal, Tail, ItemsJson, Sorted;
    var a, b := CanonicalHosts(p), CanonicalHosts(q);
    FreshHosts(p.allowedHosts, {});
    FreshHosts(q.allowedHosts, {});
    SortedAscends(Fresh(p.allowedHosts, {}));
    SortedAscends(Fresh(q.allowedHosts, {}));
    assert Members(a) == NormalSet(p.allowedHosts) && Members(b) == NormalSet(q.allowedHosts);
    if Fingerprint(p) == Fingerprint(q) {
      var x, y := ItemsJson(a) + Tail(p), ItemsJson(b) + Tail(q);
      assert Fingerprint(p) == "|ssrf=ah:[" + x && Fingerprint(q) == "|ssrf=ah:[" + y;
      PrefixIsReadBack("|ssrf=ah:[", x, y);
      ItemsAreReadBack(a, b, Tail(p), Tail(q));
      TailIsReadBack(p, q);
    }
    if SamePolicy(p, q) {
      AscendingIsUnique(a, b);
      SameTail(p, q);
    }
  }

  lemma SameTail(p: Policy, q: Policy)
    requires SamePolicy(p, q)
    ensures Tail(p) == Tail(q)
  {
  }

  // ---- Policy isolation ----

  /** A host entry decides by its normal form alone. */
  lemma MatchesByNormalForm(fold: string -> string, host: string, allowedHost: string)
    requires IsFold(fold)
    ensures HostMatches(fold, host, allowedHost) == EndsWithName(fold, TrimDot(host), Normal(allowedHost))
  {
    hide IsFold, IsASCII, Lower, TrimDot;
    var t := TrimDot(allowedHost);
    if IsASCII(t) {
      LowerFoldsAlike(fold, t);
    }
  }

  lemma LowerFoldsAlike(fold: string -> string, t: string)
    requires IsFold(fold) && IsASCII(t)
    ensures fold(Lower(t)) == fold(t) && |Lower(t)| == |t|
  {
    assert IsASCII(Lower(t));
    assert Lower(Lower(t)) == Lower(t);
  }

  predicate SomeMatches(fold: string -> string, names: set<string>, h: string) {
    exists n :: n in names && EndsWithName(fold, h, n)
  }

  lemma {:induction false} AllowsByNormalSet(fold: string -> string, hosts: seq<string>, host: string)
    requires IsFold(fold)
    ensures Allows(fold, hosts, host) == (hosts == [] || SomeMatches(fold, NormalSet(hosts), TrimDot(host)))
  {
    hide IsFold, HostMatches, EndsWithName, Normal;
    if hosts != [] {
      NormalSetHas(hosts);
      if Allows(fold, hosts, host) {
        var i :| 0 <= i < |hosts| && HostMatches(fold, host, hosts[i]);
        MatchesByNormalForm(fold, host, hosts[i]);
        assert Normal(hosts[i]) in NormalSet(hosts);
      }
      if SomeMatches(fold, NormalSet(hosts), TrimDot(host)) {
        var n :| n in NormalSet(hosts) && EndsWithName(fold, TrimDot(host), n);
        var i :| 0 <= i < |hosts| && Normal(hosts[i]) == n;
        MatchesByNormalForm(fold, host, hosts[i]);
      }
    }
  }

  lemma {:induction false} NormalSetHas(hosts: seq<string>)
    ensures forall i :: 0 <= i < |hosts| ==> Normal(hosts[i]) in NormalSet(hosts)
    ensures forall n :: n in NormalSet(hosts) ==> exists i :: 0 <= i < |hosts| && Normal(hosts[i]) == n
    ensures hosts == [] <==> NormalSet(hosts) == {}
  {
    hide Normal;
    if hosts != [] {
      var rest := hosts[1..];
      NormalSetHas(rest);
      assert forall i :: 1 <= i < |hosts| ==> hosts[i] == rest[i - 1];
      forall n | n in NormalSet(hosts) ensures exists i :: 0 <= i < |hosts| && Normal(hosts[i]) == n {
        if n != Normal(hosts[0]) {
          var i :| 0 <= i < |rest| && Normal(rest[i]) == n;
          assert Normal(hosts[i + 1]) == n;
        }
      }
    }
  }

  lemma {:induction false} ItemsHaveNoBar(a: seq<string>)
    requires AllBytes(a)
    ensures '|' !in ItemsJson(a)
  {
    hide Base64.IsBytes, Base64.Encode;
    if a != [] {
      NoMarksInBase64(a[0]);
      if |a| > 1 { ItemsHaveNoBar(a[1..]); }
    }
  }

  /** A cache key with a fingerprint appended comes apart in one way only, and entries cached under one policy are
      found only under policies with the same flags and the same verdict for every host there is. */
  lemma {:induction false} PoliciesAreIsolated(fold: string -> string, key1: string, p: Policy, key2: string, q: Policy)
    requires IsFold(fold) && p.Valid() && q.Valid()
    requires key1 + Fingerprint(p) == key2 + Fingerprint(q)
    ensures key1 == key2 && SamePolicy(p, q)
    ensures forall host :: Allows(fold, p.allowedHosts, host) == Allows(fold, q.allowedHosts, host)
  {
    hide Base64.IsBytes, ItemsJson, CanonicalHosts, SomeMatches, Allows, NormalSet, IsFold, Tail;
    var x := "ssrf=ah:[" + ItemsJson(CanonicalHosts(p)) + Tail(p);
    var y := "ssrf=ah:[" + ItemsJson(CanonicalHosts(q)) + Tail(q);
    assert Fingerprint(p) == "|" + x && Fingerprint(q) == "|" + y;
    ItemsHaveNoBar(CanonicalHosts(p));
    ItemsHaveNoBar(CanonicalHosts(q));
    TailHasNoBar(p);
    TailHasNoBar(q);
    assert key1 + ['|'] + x == key1 + Fingerprint(p) && key2 + ['|'] + y == key2 + Fingerprint(q);
    SplitLast(key1, key2, '|', x, y);
    FingerprintIsCanonical(p, q);
    forall host ensures Allows(fold, p.allowedHosts, host) == Allows(fold, q.allowedHosts, host) {
      AllowsByNormalSet(fold, p.allowedHosts, host);
      AllowsByNormalSet(fold, q.allowedHosts, host);
      NormalSetHas(p.allowedHosts);
      NormalSetHas(q.allowedHosts);
    }
  }

  lemma TailHasNoBar(p: Policy)
    ensures '|' !in Tail(p)
  {
    hide Field;
    var p2 := Field(",hc:", p.customClient, "");
    FieldHasNoBar(",hc:", p.customClient, "");
    FieldHasNoBar(",api4ah:", p.allowPrivateForAllowed, p2);
    FieldHasNoBar(",bpi:", p.blockPrivateIPs, Field(",api4ah:", p.allowPrivateForAllowed, p2));
  }

  lemma FieldHasNoBar(name: string, b: bool, rest: string)
    requires '|' !in name && '|' !in rest
    ensures '|' !in Field(name, b, rest)
  {
  }

  /** Two different host strings, one policy, one fingerprint: the remark that different raw host strings
      always produce different fingerprints does not hold. */
  lemma DifferentHostsSameFingerprint()
    ensures
      var p, q := Policy(["A"], true, false, false), Policy(["a."], true, false, false);
      p.Valid() && q.Valid() && p.allowedHosts != q.allowedHosts && Fingerprint(p) == Fingerprint(q)
  {
    hide Fingerprint;
    var p, q := Policy(["A"], true, false, false), Policy(["a."], true, false, false);
    assert TrimDot("A") == "A" && TrimDot("a.") == "a";
    assert Normal("A") == "a" && Normal("a.") == "a";
    assert p.allowedHosts[1..] == [] && q.allowedHosts[1..] == [];
    FingerprintIsCanonical(p, q);
  }

  /** The text of a fingerprint: the normal forms of the hosts, each once and in byte order, as a JSON list of base64
      texts, and the three flags by name. */
  lemma FingerprintText(p: Policy, hosts: seq<string>)
    requires p.Valid() && AllBytes(hosts) && Ascending(hosts)
    requires Members(hosts) == set i | 0 <= i < |p.allowedHosts| :: Normal(p.allowedHosts[i])
    ensures Fingerprint(p)
         == "|ssrf=ah:[" + ItemsJson(hosts)
            + (",bpi:" + ((if p.blockPrivateIPs then "true" else "false")
            + (",api4ah:" + ((if p.allowPrivateForAllowed then "true" else "false")
            + (",hc:" + ((if p.customClient then "true" else "false") + ""))))))
  {
    hide Base64.IsBytes, Normal, ItemsJson, Sorted;
    FreshHosts(p.allowedHosts, {});
    SortedAscends(Fresh(p.allowedHosts, {}));
    NormalSetHas(p.allowedHosts);
    AscendingIsUnique(CanonicalHosts(p), hosts);
    TailText(p);
  }

  lemma TailText(p: Policy)
    ensures Tail(p)
         == ",bpi:" + ((if p.blockPrivateIPs then "true" else "false")
            + (",api4ah:" + ((if p.allowPrivateForAllowed then "true" else "false")
            + (",hc:" + ((if p.customClient then "true" else "false") + "")))))
  {
    hide BoolText;
    BoolTexts();
    FieldText(",hc:", p.customClient, "");
    FieldText(",api4ah:", p.allowPrivateForAllowed, Field(",hc:", p.customClient, ""));
    FieldText(",bpi:", p.blockPrivateIPs,
              Field(",api4ah:", p.allowPrivateForAllowed, Field(",hc:", p.customClient, "")));
  }

  lemma BoolTexts()
    ensures BoolText(true) == "true" && BoolText(false) == "false"
  {
  }

  lemma FieldText(name: string, b: bool, rest: string)
    ensures Field(name, b, rest) == name + (BoolText(b) + rest)
  {
    Assoc(name, BoolText(b), rest);
  }

  /** The list, item by item. */
  lemma ItemsText(h: string, more: seq<string>)
    requires Base64.IsBytes(h) && AllBytes(more)
    ensures ItemsJson([]) == "]"
    ensures ItemsJson([h] + more)
         == "\"" + Base64.Encode(h) + "\"" + if more == [] then "]" else "," + ItemsJson(more)
  {
    hide Base64.IsBytes, Base64.Encode;
    assert ([h] + more)[1..] == more;
  }
}
