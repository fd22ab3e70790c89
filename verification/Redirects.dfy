/** mesi/fetch.go and mesi/ssrf.go: which addresses one fetch asks, and what it returns. */
module Redirects {
  import opened Options
  import opened Hosts

  datatype Address = Address(scheme: string, host: string)

  datatype Response = Response(status: int, location: string, body: string)

  datatype Error = InvalidUrl | Blocked | Upstream | TooLarge

  datatype Result<T> = Ok(value: T) | Err(error: Error)

  /** What is not modelled: URL parsing and resolution, Unicode case folding, and what the network
      answers to the n-th request of a fetch. None is a failure. */
  datatype World = World(
    parse: string -> Option<Address>,
    resolve: (string, string) -> Option<string>,
    answer: (nat, string) -> Option<Response>,
    fold: string -> string)

  const MAX_REDIRECTS: nat := 10

  /** `isURLSafe`: a relative address passes, it is checked again once expanded. */
  function IsUrlSafe(w: World, url: string, allowedHosts: seq<string>): Option<Error> {
    var parsed := w.parse(url);
    if parsed.None? then Some(InvalidUrl)
    else if parsed.value.scheme == "" && parsed.value.host == "" then None
    else if parsed.value.host == "" then Some(InvalidUrl)
    else if Allows(w.fold, allowedHosts, parsed.value.host) then None
    else Some(Blocked)
  }

  function ValidateFetchUrl(w: World, url: string, allowedHosts: seq<string>): Option<Error> {
    var parsed := w.parse(url);
    if parsed.None? || (parsed.value.scheme != "http" && parsed.value.scheme != "https") then Some(InvalidUrl)
    else IsUrlSafe(w, url, allowedHosts)
  }

  function TrimSlashesRight(s: string): string {
    if s != "" && s[|s| - 1] == '/' then TrimSlashesRight(s[..|s| - 1]) else s
  }

  function TrimSlashesLeft(s: string): string {
    if s != "" && s[0] == '/' then TrimSlashesLeft(s[1..]) else s
  }

  /** A relative address put behind the default one. */
  function Expanded(defaultUrl: string, requested: string): string {
    TrimSlashesRight(defaultUrl) + "/" + TrimSlashesLeft(requested)
  }

  /** However many slashes end the one and begin the other, one is left between them. */
  lemma {:induction false} ExpandedJoinsWithOneSlash(base: string, n: nat, m: nat, rest: string)
    requires base == "" || base[|base| - 1] != '/'
    requires rest == "" || rest[0] != '/'
    ensures Expanded(base + seq(n, _ => '/'), seq(m, _ => '/') + rest) == base + "/" + rest
  {
    hide TrimSlashesRight, TrimSlashesLeft;
    TrimmedRight(base, n);
    TrimmedLeft(rest, m);
  }

  lemma {:induction false} TrimmedRight(base: string, n: nat)
    requires base == "" || base[|base| - 1] != '/'
    ensures TrimSlashesRight(base + seq(n, _ => '/')) == base
  {
    var s := base + seq(n, _ => '/');
    if n == 0 {
      assert s == base;
    } else {
      assert s[|s| - 1] == '/' && s[..|s| - 1] == base + seq(n - 1, _ => '/');
      TrimmedRight(base, n - 1);
    }
  }

  lemma {:induction false} TrimmedLeft(rest: string, m: nat)
    requires rest == "" || rest[0] != '/'
    ensures TrimSlashesLeft(seq(m, _ => '/') + rest) == rest
  {
    var s := seq(m, _ => '/') + rest;
    if m == 0 {
      assert s == rest;
    } else {
      assert s[0] == '/' && s[1..] == seq(m - 1, _ => '/') + rest;
      TrimmedLeft(rest, m - 1);
    }
  }

  predicate HasScheme(w: World, url: string) {
    w.parse(url).Some? && w.parse(url).value.scheme != ""
  }

  /** The address a fetch starts from, or why there is none. An address with a scheme is its own start, exactly if it
      may be fetched; one without is put behind the default address, and both must pass. */
  function FirstAddress(w: World, requested: string, defaultUrl: string, allowedHosts: seq<string>): (r: Result<string>)
    ensures r.Ok? ==> ValidateFetchUrl(w, r.value, allowedHosts).None?
    ensures HasScheme(w, requested) ==>
      && (r.Ok? <==> ValidateFetchUrl(w, requested, allowedHosts).None?)
      && (r.Ok? ==> r.value == requested)
      && (r.Err? ==> ValidateFetchUrl(w, requested, allowedHosts) == Some(r.error))
    ensures !HasScheme(w, requested) ==>
      && (r.Ok? <==> defaultUrl != "" && IsUrlSafe(w, requested, allowedHosts).None?
                     && ValidateFetchUrl(w, Expanded(defaultUrl, requested), allowedHosts).None?)
      && (r.Ok? ==> r.value == Expanded(defaultUrl, requested))
      && (r.Err? ==> Some(r.error) == if IsUrlSafe(w, requested, allowedHosts).Some?
                                      then IsUrlSafe(w, requested, allowedHosts)
                                      else if defaultUrl == "" then Some(InvalidUrl)
                                      else ValidateFetchUrl(w, Expanded(defaultUrl, requested), allowedHosts))
  {
    var parsed := w.parse(requested);
    if parsed.None? then Err(InvalidUrl)
    else if parsed.value.scheme != "" && parsed.value.scheme != "http" && parsed.value.scheme != "https" then
      Err(InvalidUrl)
    else
      var unsafe := IsUrlSafe(w, requested, allowedHosts);
      if unsafe.Some? then Err(unsafe.value)
      else if parsed.value.scheme == "" && defaultUrl == "" then Err(InvalidUrl)
      else
        var url := if parsed.value.scheme == "" then Expanded(defaultUrl, requested) else requested;
        var refused := ValidateFetchUrl(w, url, allowedHosts);
        if refused.Some? then Err(refused.value) else Ok(url)
  }

  /** `isRedirectStatus`, and the Location the answer names. */
  predicate IsRedirect(r: Response) {
    r.status in {301, 302, 303, 307, 308} && r.location != ""
  }

  // ---- What the loop promises, told from the answers ----

  /** The n-th request goes to `url`, and its answer sends on to `next`. */
  predicate LeadsTo(w: World, n: nat, url: string, next: string) {
    var answer := w.answer(n, url);
    && answer.Some? && answer.value.location != "" && answer.value.status in {301, 302, 303, 307, 308}
    && w.resolve(url, answer.value.location) == Some(next)
  }

  /** `asked` is a chain of requests: each is where the answer to the one before redirected to. */
  predicate IsChain(w: World, asked: seq<string>) {
    forall i {:trigger asked[i]} :: 0 < i < |asked| ==> LeadsTo(w, i - 1, asked[i - 1], asked[i])
  }

  predicate AllValid(w: World, asked: seq<string>, allowedHosts: seq<string>) {
    forall i :: 0 <= i < |asked| ==> ValidateFetchUrl(w, asked[i], allowedHosts).None?
  }

  /** The answer is the page: it exists, and has no Location or none of the five redirect statuses. */
  predicate IsPage(answer: Option<Response>) {
    answer.Some? && (answer.value.location == "" || answer.value.status !in {301, 302, 303, 307, 308})
  }

  /** Why a chain ends without a page: no answer, a redirect after ten of them, one that cannot be resolved, or one to
      an address that is refused. */
  predicate Fails(w: World, asked: seq<string>, allowedHosts: seq<string>, error: Error)
    requires asked != []
  {
    var n := |asked| - 1;
    var answer := w.answer(n, asked[n]);
    if answer.None? then error == Upstream
    else if n == 10 then error == Upstream
    else
      var next := w.resolve(asked[n], answer.value.location);
      if next.None? then error == Upstream else ValidateFetchUrl(w, next.value, allowedHosts) == Some(error)
  }

  /** A chain of valid addresses from `url` on, at most ten redirects long, whose last answer ends it. */
  predicate IsWholeChain(w: World, url: string, chain: seq<string>, allowedHosts: seq<string>) {
    && 1 <= |chain| <= 11 && chain[0] == url && IsChain(w, chain) && AllValid(w, chain, allowedHosts)
    && (w.answer(|chain| - 1, chain[|chain| - 1]).None? || IsPage(w.answer(|chain| - 1, chain[|chain| - 1])))
  }

  lemma LeadsToOne(w: World, n: nat, url: string, next: string, other: string)
    requires LeadsTo(w, n, url, next) && LeadsTo(w, n, url, other)
    ensures next == other
  {
  }

  /** There is one chain from an address: of two, neither goes on where the other ends. */
  lemma {:induction false} ChainsAgree(w: World, a: seq<string>, b: seq<string>, i: nat)
    requires IsChain(w, a) && IsChain(w, b) && i < |a| && i < |b| && a[0] == b[0]
    ensures a[..i + 1] == b[..i + 1]
  {
    hide LeadsTo;
    if i > 0 {
      ChainsAgree(w, a, b, i - 1);
      assert a[..i][i - 1] == b[..i][i - 1];
      GoesOn(w, a, i);
      GoesOn(w, b, i);
      LeadsToOne(w, i - 1, a[i - 1], a[i], b[i]);
      assert a[..i + 1] == a[..i] + [a[i]] && b[..i + 1] == b[..i] + [b[i]];
    }
  }

  /** So what was asked is the whole chain, if there is one. */
  lemma {:induction false} AskedIsTheWholeChain(
    w: World, url: string, asked: seq<string>, chain: seq<string>, allowedHosts: seq<string>, r: Result<Response>)
    requires 1 <= |asked| <= 11 && asked[0] == url && IsChain(w, asked)
    requires Ends(w, asked, allowedHosts, r) && IsWholeChain(w, url, chain, allowedHosts)
    ensures asked == chain
  {
    hide ValidateFetchUrl, LeadsTo;
    var n := if |asked| <= |chain| then |asked| else |chain|;
    GoesOn(w, asked, n);
    GoesOn(w, chain, n);
    EndsThere(w, url, asked, chain, allowedHosts, r);
    ChainsAgree(w, asked, chain, n - 1);
    assert asked[n - 1] == asked[..n][n - 1] && chain[n - 1] == chain[..n][n - 1];
    assert asked[..|asked|] == asked && chain[..|chain|] == chain;
  }

  /** A chain leads on from each of its addresses but the last. */
  lemma GoesOn(w: World, chain: seq<string>, n: nat)
    requires IsChain(w, chain) && 0 < n <= |chain|
    ensures n < |chain| ==> LeadsTo(w, n - 1, chain[n - 1], chain[n])
  {
  }

  /** From where either ends, it leads nowhere. */
  lemma EndsThere(
    w: World, url: string, asked: seq<string>, chain: seq<string>, allowedHosts: seq<string>, r: Result<Response>)
    requires 1 <= |asked| <= 11 && Ends(w, asked, allowedHosts, r) && IsWholeChain(w, url, chain, allowedHosts)
    ensures |chain| < |asked| ==> !LeadsTo(w, |chain| - 1, chain[|chain| - 1], asked[|chain|])
    ensures |asked| < |chain| ==> !LeadsTo(w, |asked| - 1, asked[|asked| - 1], chain[|asked|])
  {
    hide ValidateFetchUrl;
  }

  /** How the requests end: with the page, or with the reason there is none. */
  predicate Ends(w: World, asked: seq<string>, allowedHosts: seq<string>, r: Result<Response>)
    requires asked != []
  {
    var answer := w.answer(|asked| - 1, asked[|asked| - 1]);
    && (r.Ok? <==> IsPage(answer))
    && (r.Ok? ==> answer == Some(r.value))
    && (r.Err? ==> Fails(w, asked, allowedHosts, r.error))
  }

  lemma OnlyWholeChain(w: World, url: string, asked: seq<string>, allowedHosts: seq<string>, r: Result<Response>)
    requires 1 <= |asked| <= 11 && asked[0] == url && IsChain(w, asked) && Ends(w, asked, allowedHosts, r)
    ensures forall chain :: IsWholeChain(w, url, chain, allowedHosts) ==> asked == chain
  {
    forall chain | IsWholeChain(w, url, chain, allowedHosts) ensures asked == chain {
      AskedIsTheWholeChain(w, url, asked, chain, allowedHosts, r);
    }
  }

  /** The redirect loop. `asked` records the requests made. */
  method FollowRedirects(w: World, urlToFetch: string, allowedHosts: seq<string>)
    returns (r: Result<Response>, asked: seq<string>)
    requires ValidateFetchUrl(w, urlToFetch, allowedHosts).None?
    ensures 1 <= |asked| <= 11 && asked[0] == urlToFetch && IsChain(w, asked) && AllValid(w, asked, allowedHosts)
    ensures Ends(w, asked, allowedHosts, r)
    ensures r.Ok? <==> var answer := w.answer(|asked| - 1, asked[|asked| - 1]);
                       && answer.Some?
                       && (answer.value.location == "" || answer.value.status !in {301, 302, 303, 307, 308})
    ensures forall chain :: IsWholeChain(w, urlToFetch, chain, allowedHosts) ==> asked == chain
  {
    hide ValidateFetchUrl;
    var hopUrl := urlToFetch;
    var hop := 0;
    asked := [];
    while true
      invariant 0 <= hop <= MAX_REDIRECTS && |asked| == hop
      invariant IsChain(w, asked + [hopUrl]) && AllValid(w, asked + [hopUrl], allowedHosts)
      invariant (asked + [hopUrl])[0] == urlToFetch
      decreases MAX_REDIRECTS - hop
    {
      asked := asked + [hopUrl];
      var content := w.answer(hop, hopUrl);
      if content.None? {
        r := Err(Upstream);
        break;
      }
      if !IsRedirect(content.value) {
        r := Ok(content.value);
        break;
      }
      if hop >= MAX_REDIRECTS {
        r := Err(Upstream);
        break;
      }
      var nextUrl := w.resolve(hopUrl, content.value.location);
      if nextUrl.None? {
        r := Err(Upstream);
        break;
      }
      var refused := ValidateFetchUrl(w, nextUrl.value, allowedHosts);
      if refused.Some? {
        r := Err(refused.value);
        break;
      }
      assert LeadsTo(w, hop, hopUrl, nextUrl.value);
      hopUrl := nextUrl.value;
      hop := hop + 1;
    }
    OnlyWholeChain(w, urlToFetch, asked, allowedHosts, r);
  }

  // ---- The size cap ----

  const MAX_INT64: int := 0x7fff_ffff_ffff_ffff

  /** `io.ReadAll` of an `io.LimitReader`: a negative limit, as a wrapped one is, reads nothing. */
  function ReadAtMost(body: string, limit: int): (r: string)
    ensures r <= body
  {
    if limit <= 0 then "" else if limit <= |body| then body[..limit] else body
  }

  /** Signed 64-bit addition of one. */
  function Wrap(n: int): int {
    if n == MAX_INT64 then -MAX_INT64 - 1 else n + 1
  }

  method ReadBody(content: Response, maxSize: int) returns (r: Result<string>)
    requires -9223372036854775808 <= maxSize <= 9223372036854775807
    ensures maxSize < 9223372036854775807 ==>
              r == if 0 < maxSize < |content.body| then Err(TooLarge)
                   else if content.status >= 400 then Err(Upstream)
                   else Ok(content.body)
    ensures maxSize == 9223372036854775807 ==> r == if content.status >= 400 then Err(Upstream) else Ok("")
  {
    var data := content.body;
    if maxSize > 0 {
      data := ReadAtMost(content.body, Wrap(maxSize));
      if |data| > maxSize {
        return Err(TooLarge);
      }
    }
    if content.status >= 400 {
      return Err(Upstream);
    }
    return Ok(data);
  }

  // ---- The guarantee ----

  /** An address the policy lets through: http or https, and a host whose labels end in those of a listed host. */
  ghost predicate Listed(w: World, url: string, allowedHosts: seq<string>) {
    && w.parse(url).Some? && (w.parse(url).value.scheme == "http" || w.parse(url).value.scheme == "https")
    && w.parse(url).value.host != ""
    && (|allowedHosts| > 0 ==>
          exists i :: 0 <= i < |allowedHosts| && UnderHost(w.parse(url).value.host, allowedHosts[i]))
  }

  ghost predicate UnderHost(host: string, allowedHost: string) {
    IsSuffix(Labels(Lower(TrimDot(allowedHost))), Labels(Lower(TrimDot(host))))
  }

  /** A listed ASCII host lets through exactly the addresses under it: validation and the label
      reading of the list agree, so neither the first request nor any redirect leaves the list. */
  lemma ValidExactlyListed(w: World, url: string, allowedHosts: seq<string>)
    requires IsFold(w.fold)
    requires w.parse(url).Some? ==> IsASCII(w.parse(url).value.host)
    requires forall i :: 0 <= i < |allowedHosts| ==> IsASCII(allowedHosts[i])
    ensures ValidateFetchUrl(w, url, allowedHosts).None? <==> Listed(w, url, allowedHosts)
    ensures ValidateFetchUrl(w, url, allowedHosts) == Some(InvalidUrl) <==>
              !(w.parse(url).Some? && w.parse(url).value.scheme in {"http", "https"} && w.parse(url).value.host != "")
    ensures ValidateFetchUrl(w, url, allowedHosts).Some? ==>
              ValidateFetchUrl(w, url, allowedHosts).value in {InvalidUrl, Blocked}
  {
    hide IsASCII, HostMatches, UnderHost, IsFold;
    if w.parse(url).Some? {
      var host := w.parse(url).value.host;
      forall i | 0 <= i < |allowedHosts|
        ensures HostMatches(w.fold, host, allowedHosts[i]) <==> UnderHost(host, allowedHosts[i])
      {
        MatchIsUnder(w, host, allowedHosts[i]);
      }
    }
  }

  /** Where a fetch may start, under the same assumptions: at a listed address, or at a relative one behind the default
      URL, if both the host it may name itself and the address it becomes are listed. */
  lemma StartsExactlyWhereListed(w: World, requested: string, defaultUrl: string, allowedHosts: seq<string>)
    requires IsFold(w.fold)
    requires forall u :: w.parse(u).Some? ==> IsASCII(w.parse(u).value.host)
    requires forall i :: 0 <= i < |allowedHosts| ==> IsASCII(allowedHosts[i])
    ensures
      var start := FirstAddress(w, requested, defaultUrl, allowedHosts);
      var relative := w.parse(requested).Some? && w.parse(requested).value.scheme == "";
      if !relative then
        && (start.Ok? <==> Listed(w, requested, allowedHosts))
        && (start.Ok? ==> start.value == requested)
      else
        var host := w.parse(requested).value.host;
        var address := Expanded(defaultUrl, requested);
        && (start.Ok? <==>
              && defaultUrl != "" && Listed(w, address, allowedHosts)
              && (host == "" || allowedHosts == [] ||
                  exists i :: 0 <= i < |allowedHosts| && UnderHost(host, allowedHosts[i])))
        && (start.Ok? ==> start.value == address)
  {
    hide IsASCII, HostMatches, UnderHost, IsFold, Listed, Expanded, ValidateFetchUrl;
    ValidExactlyListed(w, requested, allowedHosts);
    ValidExactlyListed(w, Expanded(defaultUrl, requested), allowedHosts);
    NotListedUnparsed(w, requested, allowedHosts);
    if w.parse(requested).Some? {
      var host := w.parse(requested).value.host;
      forall i | 0 <= i < |allowedHosts|
        ensures HostMatches(w.fold, host, allowedHosts[i]) <==> UnderHost(host, allowedHosts[i])
      {
        MatchIsUnder(w, host, allowedHosts[i]);
      }
    }
  }

  lemma NotListedUnparsed(w: World, url: string, allowedHosts: seq<string>)
    ensures w.parse(url).None? ==> !Listed(w, url, allowedHosts)
  {
  }

  lemma MatchIsUnder(w: World, host: string, allowedHost: string)
    requires IsFold(w.fold) && IsASCII(host) && IsASCII(allowedHost)
    ensures HostMatches(w.fold, host, allowedHost) <==> UnderHost(host, allowedHost)
  {
    MatchesByLabels(w.fold, host, allowedHost);
  }
}
