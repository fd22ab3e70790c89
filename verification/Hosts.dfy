/** mesi/ssrf.go: which hosts a policy allows. Host names are byte strings. */
module Hosts {
  import opened Strings

  predicate IsASCII(s: string) {
    forall i :: 0 <= i < |s| ==> s[i] < 128 as char
  }

  function Lower(s: string): (r: string)
    ensures |r| == |s| && forall i :: 0 <= i < |s| ==> r[i] == LowerChar(s[i])
  {
    seq(|s|, i requires 0 <= i < |s| => LowerChar(s[i]))
  }

  /** `strings.TrimSuffix(s, ".")`. */
  function TrimDot(s: string): string {
    if s != "" && s[|s| - 1] == '.' then s[..|s| - 1] else s
  }

  /** `strings.EqualFold` compares what a fold maps names to. All that is used of Unicode folding is that ASCII
      names fold alike exactly if they differ only in case, and that nothing else folds like the empty name. */
  ghost predicate IsFold(fold: string -> string) {
    && (forall s, t :: IsASCII(s) && IsASCII(t) ==> (fold(s) == fold(t) <==> Lower(s) == Lower(t)))
    && (forall s :: fold(s) == fold("") ==> s == "")
  }

  predicate HostMatches(fold: string -> string, host: string, allowedHost: string) {
    EndsWithName(fold, TrimDot(host), TrimDot(allowedHost))
  }

  predicate EndsWithName(fold: string -> string, h: string, a: string) {
    || fold(h) == fold(a)
    || (|h| > |a| && h[|h| - |a| - 1] == '.' && fold(h[|h| - |a|..]) == fold(a))
  }

  /** The host check of `isURLSafe`; an empty list allows every host. */
  predicate Allows(fold: string -> string, allowedHosts: seq<string>, host: string) {
    |allowedHosts| > 0 ==> exists i :: 0 <= i < |allowedHosts| && HostMatches(fold, host, allowedHosts[i])
  }

  method HostAllowed(fold: string -> string, allowedHosts: seq<string>, host: string) returns (ok: bool)
    ensures ok == Allows(fold, allowedHosts, host)
  {
    if |allowedHosts| > 0 {
      var allowed := false;
      for i := 0 to |allowedHosts|
        invariant !allowed
        invariant forall j :: 0 <= j < i ==> !HostMatches(fold, host, allowedHosts[j])
      {
        if HostMatches(fold, host, allowedHosts[i]) {
          allowed := true;
          break;
        }
      }
      if !allowed {
        return false;
      }
    }
    return true;
  }

  // ---- Matching is by labels ----

  /** The labels between the dots. */
  function Labels(s: string): (r: seq<string>)
    ensures |r| > 0
  {
    if s == "" then [""]
    else
      var rest := Labels(s[1..]);
      if s[0] == '.' then [""] + rest else [[s[0]] + rest[0]] + rest[1..]
  }

  function Join(labels: seq<string>): string {
    if labels == [] then ""
    else if |labels| == 1 then labels[0]
    else labels[0] + "." + Join(labels[1..])
  }

  lemma {:induction false} JoinLabels(s: string)
    ensures Join(Labels(s)) == s
  {
    if s != "" {
      var rest := Labels(s[1..]);
      JoinLabels(s[1..]);
      if s[0] == '.' {
        assert Labels(s)[1..] == rest;
      } else {
        assert Labels(s)[1..] == rest[1..];
        assert |rest| > 1 ==> [s[0]] + rest[0] + "." + Join(rest[1..]) == [s[0]] + (rest[0] + "." + Join(rest[1..]));
      }
    }
  }

  lemma {:induction false} LabelsConcat(s: string, t: string)
    ensures Labels(s + "." + t) == Labels(s) + Labels(t)
  {
    hide Labels;
    LabelsEmpty();
    var all := s + "." + t;
    var after := Labels(t);
    if s == "" {
      assert all[1..] == t;
      LabelsDot(all);
      assert s + "." + t == all;
    } else {
      var rest := Labels(s[1..]);
      assert all[0] == s[0] && all[1..] == s[1..] + "." + t;
      LabelsConcat(s[1..], t);
      assert Labels(all[1..]) == rest + after;
      if s[0] == '.' {
        LabelsDot(s);
        LabelsDot(all);
        assert [""] + (rest + after) == [""] + rest + after;
      } else {
        LabelsCons(s);
        LabelsCons(all);
        assert (rest + after)[0] == rest[0] && (rest + after)[1..] == rest[1..] + after;
      }
    }
  }

  lemma LabelsEmpty()
    ensures Labels("") == [""]
  {
  }

  lemma LabelsDot(s: string)
    requires s != "" && s[0] == '.'
    ensures Labels(s) == [""] + Labels(s[1..])
  {
  }

  lemma LabelsCons(s: string)
    requires s != "" && s[0] != '.'
    ensures Labels(s) == [[s[0]] + Labels(s[1..])[0]] + Labels(s[1..])[1..]
  {
  }

  lemma {:induction false} JoinConcat(a: seq<string>, b: seq<string>)
    requires a != [] && b != []
    ensures Join(a + b) == Join(a) + "." + Join(b)
  {
    if |a| == 1 {
      assert (a + b)[1..] == b;
    } else {
      assert (a + b)[1..] == a[1..] + b;
      JoinConcat(a[1..], b);
      assert a[0] + "." + (Join(a[1..]) + "." + Join(b)) == a[0] + "." + Join(a[1..]) + "." + Join(b);
    }
  }

  predicate IsSuffix(a: seq<string>, b: seq<string>) {
    |a| <= |b| && b[|b| - |a|..] == a
  }

  /** A name ends another at a label boundary exactly if its labels end the other's. */
  lemma {:induction false} SuffixByLabels(h: string, a: string)
    ensures IsSuffix(Labels(a), Labels(h))
       <==> h == a || (|h| > |a| && h[|h| - |a| - 1] == '.' && h[|h| - |a|..] == a)
  {
    var la, lh := Labels(a), Labels(h);
    if IsSuffix(la, lh) && |la| < |lh| {
      var front := lh[..|lh| - |la|];
      assert lh == front + la;
      JoinConcat(front, la);
      JoinLabels(h);
      JoinLabels(a);
      assert h == Join(front) + "." + a;
    }
    if IsSuffix(la, lh) && |la| == |lh| {
      assert lh[0..] == lh;
      JoinLabels(h);
      JoinLabels(a);
    }
    if |h| > |a| && h[|h| - |a| - 1] == '.' && h[|h| - |a|..] == a {
      var front := h[..|h| - |a| - 1];
      assert h == front + "." + a;
      LabelsConcat(front, a);
    }
  }

  lemma LowerOfPart(s: string, k: nat)
    requires k <= |s|
    ensures Lower(s[k..]) == Lower(s)[k..]
  {
  }

  lemma FoldsAsLower(fold: string -> string, s: string, t: string)
    requires IsFold(fold) && IsASCII(s) && IsASCII(t)
    ensures fold(s) == fold(t) <==> Lower(s) == Lower(t)
  {
  }

  lemma LowerKeepsDots(s: string)
    ensures forall i :: 0 <= i < |s| ==> (Lower(s)[i] == '.' <==> s[i] == '.')
  {
  }

  /** One dot at the end of either name does not matter; of two, one stays. */
  lemma OneDotIsIgnored(fold: string -> string, host: string, allowedHost: string)
    requires host == "" || host[|host| - 1] != '.'
    requires allowedHost == "" || allowedHost[|allowedHost| - 1] != '.'
    ensures HostMatches(fold, host + ".", allowedHost) == HostMatches(fold, host, allowedHost)
    ensures HostMatches(fold, host, allowedHost + ".") == HostMatches(fold, host, allowedHost)
    ensures HostMatches(fold, host + ".", allowedHost + ".") == HostMatches(fold, host, allowedHost)
    ensures HostMatches(fold, host, allowedHost)
       <==> || fold(host) == fold(allowedHost)
            || (|host| > |allowedHost| && host[|host| - |allowedHost| - 1] == '.'
                && fold(host[|host| - |allowedHost|..]) == fold(allowedHost))
    ensures TrimDot(host + "..") == host + "."
  {
    assert (host + ".")[..|host|] == host && (allowedHost + ".")[..|allowedHost|] == allowedHost;
    assert (host + "..")[..|host| + 1] == host + ".";
  }

  /** On ASCII names a host matches exactly if, ignoring case and one trailing dot, the allowed name's
      labels are the last labels of the host. */
  lemma {:induction false} MatchesByLabels(fold: string -> string, host: string, allowedHost: string)
    requires IsFold(fold) && IsASCII(host) && IsASCII(allowedHost)
    ensures HostMatches(fold, host, allowedHost)
       <==> IsSuffix(Labels(Lower(TrimDot(allowedHost))), Labels(Lower(TrimDot(host))))
  {
    hide IsSuffix, Labels, IsFold, Lower;
    var h, a := TrimDot(host), TrimDot(allowedHost);
    assert IsASCII(h) && IsASCII(a);
    SuffixByLabels(Lower(h), Lower(a));
    FoldsAsLower(fold, h, a);
    if |h| > |a| {
      var k := |h| - |a|;
      assert IsASCII(h[k..]);
      FoldsAsLower(fold, h[k..], a);
      LowerOfPart(h, k);
      LowerKeepsDots(h);
      assert Lower(h)[k - 1] == '.' <==> h[k - 1] == '.';
    }
  }
}
