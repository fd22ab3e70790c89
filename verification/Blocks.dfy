/** The extractors of mesi/parser.go: the bodies inside a raw try or choose element. */
module Blocks {
  import opened Strings
  import opened Tags
  import opened Scanners
  import opened Tokenizer

  function ChildMarks(child: Name, block: Name): (k: Marks)
    ensures k.Valid()
  {
    Marks(Opener(child), Opener(block), CloseTag(child), CloseTag(block))
  }

  // ---- try ----

  datatype TryParts = TryParts(attempt: string, except: string)

  const NO_PARTS := TryParts("", "")

  lemma CloseIsNotAtOpener(s: string, n: Name, depth: int)
    requires Opener(n) <= s
    ensures Scan(s, BlockMarks(n), depth) != 0
  {
    assert s[0..] == s;
    assert s[1] == Opener(n)[1];
    assert CloseTag(n)[1] == '/';
    assert !OccursAt(s, CloseTag(n), 0);
  }

  /** Where the attempt child opens, passing over try elements before it the way the code does. */
  function AttemptAt(s: string): (r: int)
    ensures -1 <= r <= |s|
    decreases |s|
  {
    var nextTry := Index(s, Opener(Try));
    var nextAttempt := Index(s, Opener(Attempt));
    if nextAttempt == -1 then -1
    else if nextTry != -1 && nextTry < nextAttempt then
      OpenerAt(s, Try);
      CloseIsNotAtOpener(s[nextTry..], Try, 0);
      var nestedEnd := Scan(s[nextTry..], BlockMarks(Try), 0);
      if nestedEnd == -1 then -1
      else Shift(nextTry + nestedEnd, AttemptAt(s[nextTry + nestedEnd..]))
    else nextAttempt
  }

  /** The text after the first `>`, which ends the tag that `s` starts with. */
  datatype Opened = Broken | Body(start: nat)

  function AfterTag(s: string): (r: Opened)
    ensures r.Body? ==> 0 < r.start <= |s|
  {
    if Index(s, ">") == -1 then Broken else Body(Index(s, ">") + 1)
  }

  function ExceptBody(s: string): string {
    var at := Index(s, Opener(Except));
    if at == -1 then ""
    else
      match AfterTag(s[at..])
      case Broken => ""
      case Body(b) =>
        var body := s[at..][b..];
        var end := Scan(body, ChildMarks(Except, Try), 0);
        if end == -1 then "" else body[..end]
  }

  function ExtractTry(raw: string): TryParts {
    match AfterTag(raw)
    case Broken => NO_PARTS
    case Body(b0) =>
      var s := raw[b0..];
      var at := AttemptAt(s);
      if at == -1 then NO_PARTS
      else
        match AfterTag(s[at..])
        case Broken => NO_PARTS
        case Body(b1) =>
          var body := s[at..][b1..];
          var end := Scan(body, ChildMarks(Attempt, Try), 0);
          if end == -1 then TryParts(body, "")
          else TryParts(body[..end], ExceptBody(body[end + |CloseTag(Attempt)|..]))
  }

  /** The search loop of `extractTryBlocks` for the first attempt that is a direct child. */
  method FindAttempt(raw: string, from: nat) returns (pos: int)
    requires from <= |raw|
    ensures pos == Shift(from, AttemptAt(raw[from..])) && pos <= |raw|
  {
    hide Index, OccursAt, Scan, Opener, CloseTag;
    pos := from;
    while true
      invariant from <= pos <= |raw|
      invariant Shift(pos, AttemptAt(raw[pos..])) == Shift(from, AttemptAt(raw[from..]))
      decreases |raw| - pos
    {
      var nextTry := Index(raw[pos..], Opener(Try));
      var nextAttempt := Index(raw[pos..], Opener(Attempt));
      if nextAttempt == -1 {
        return -1;
      }
      if nextTry != -1 && nextTry < nextAttempt {
        OpenerAt(raw[pos..], Try);
        assert raw[pos..][nextTry..] == raw[pos + nextTry..];
        CloseIsNotAtOpener(raw[pos + nextTry..], Try, 0);
        var nestedEnd := FindBlockClose(raw[pos + nextTry..], Opener(Try), CloseTag(Try));
        if nestedEnd == -1 {
          return -1;
        }
        assert raw[pos..][nextTry + nestedEnd..] == raw[pos + nextTry + nestedEnd..];
        pos := pos + nextTry + nestedEnd;
        continue;
      }
      pos := pos + nextAttempt;
      return;
    }
  }

  method ExtractTryBlocks(raw: string) returns (attemptBody: string, exceptBody: string)
    ensures TryParts(attemptBody, exceptBody) == ExtractTry(raw)
  {
    hide Index, OccursAt, Scan, AttemptAt, ExceptBody, Opener, CloseTag;
    attemptBody, exceptBody := "", "";
    var closeBracket := Index(raw, ">");
    if closeBracket == -1 {
      return;
    }
    var pos := closeBracket + 1;
    assert AfterTag(raw) == Body(pos);
    ghost var s := raw[pos..];
    var found := FindAttempt(raw, pos);
    if found == -1 {
      return;
    }
    assert s[found - pos..] == raw[found..];
    pos := found;
    var tagEnd := Index(raw[pos..], ">");
    if tagEnd == -1 {
      return;
    }
    assert raw[pos..][tagEnd + 1..] == raw[pos + tagEnd + 1..];
    pos := pos + tagEnd + 1;
    var attemptLen := FindChildClose(raw[pos..], ChildMarks(Attempt, Try));
    if attemptLen == -1 {
      attemptBody := raw[pos..];
      return;
    }
    assert raw[pos..][..attemptLen] == raw[pos..pos + attemptLen];
    attemptBody := raw[pos..pos + attemptLen];
    assert raw[pos..][attemptLen + |CloseTag(Attempt)|..] == raw[pos + attemptLen + |CloseTag(Attempt)|..];
    pos := pos + attemptLen + |CloseTag(Attempt)|;
    exceptBody := FindExcept(raw, pos);
  }

  /** The second half of `extractTryBlocks`: the body of the except child after `from`, or "". */
  method FindExcept(raw: string, from: nat) returns (exceptBody: string)
    requires from <= |raw|
    ensures exceptBody == ExceptBody(raw[from..])
  {
    hide Index, OccursAt, Scan, Opener, CloseTag;
    var pos := from;
    var exceptStart := Index(raw[pos..], Opener(Except));
    if exceptStart == -1 {
      return "";
    }
    assert raw[pos..][exceptStart..] == raw[pos + exceptStart..];
    pos := pos + exceptStart;
    var tagEnd := Index(raw[pos..], ">");
    if tagEnd == -1 {
      return "";
    }
    assert raw[pos..][tagEnd + 1..] == raw[pos + tagEnd + 1..];
    pos := pos + tagEnd + 1;
    var exceptLen := FindChildClose(raw[pos..], ChildMarks(Except, Try));
    if exceptLen == -1 {
      return "";
    }
    assert raw[pos..][..exceptLen] == raw[pos..pos + exceptLen];
    return raw[pos..pos + exceptLen];
  }

  // ---- choose ----

  datatype WhenBlock = WhenBlock(test: string, body: string)
  datatype Branches = Branches(whens: seq<WhenBlock>, otherwise: string)

  /** The first `tag` in `s` outside nested choose elements, as `findChooseChildTag` looks for it. */
  function ChildTag(s: string, tag: string): (r: int)
    ensures -1 <= r <= |s|
    ensures r >= 0 ==> OccursAt(s, tag, r)
    decreases |s|
  {
    var nextNested := Index(s, Opener(Choose));
    var nextTarget := Index(s, tag);
    if nextTarget == -1 then -1
    else if nextNested != -1 && nextNested < nextTarget then
      var nestedClose := Scan(s[nextNested..], BlockMarks(Choose), 0);
      if nestedClose == -1 then -1
      else
        var p := nextNested + nestedClose + |CloseTag(Choose)|;
        var r := ChildTag(s[p..], tag);
        assert r >= 0 ==> s[p..][r..] == s[p + r..];
        Shift(p, r)
    else nextTarget
  }

  method FindChooseChildTag(s: string, tag: string) returns (r: int)
    ensures r == ChildTag(s, tag)
  {
    hide Index, OccursAt, Scan, Opener, CloseTag;
    var pos := 0;
    assert s[0..] == s;
    while true
      invariant 0 <= pos <= |s|
      invariant Shift(pos, ChildTag(s[pos..], tag)) == ChildTag(s, tag)
      decreases |s| - pos
    {
      var nextNested := Index(s[pos..], Opener(Choose));
      var nextTarget := Index(s[pos..], tag);
      if nextTarget == -1 {
        return -1;
      }
      if nextNested != -1 && nextNested < nextTarget {
        assert s[pos..][nextNested..] == s[pos + nextNested..];
        var nestedClose := FindBlockClose(s[pos + nextNested..], Opener(Choose), CloseTag(Choose));
        if nestedClose == -1 {
          return -1;
        }
        ghost var p := nextNested + nestedClose + |CloseTag(Choose)|;
        assert s[pos..][p..] == s[pos + p..];
        pos := pos + nextNested + nestedClose + |CloseTag(Choose)|;
        continue;
      }
      return pos + nextTarget;
    }
  }

  /** The outcome of reading one child of a choose element: stop, or go on after it. */
  datatype ChildStep = Stop(found: Branches) | Next(skip: nat, found: Branches)

  /** Reads the when element that `s` starts with. */
  function ReadWhen(s: string, acc: Branches): (r: ChildStep)
    ensures r.Next? ==> 0 < r.skip <= |s|
  {
    var testStart := Index(s, "test=\"");
    if testStart == -1 then
      match AfterTag(s)
      case Broken => Stop(acc)
      case Body(b) => Next(b, acc)
    else
      var t := testStart + 6;
      var testEnd := Index(s[t..], "\"");
      if testEnd == -1 then Stop(acc)
      else
        match AfterTag(s[t + testEnd..])
        case Broken => Stop(acc)
        case Body(b) =>
          var start := t + testEnd + b;
          var end := Scan(s[start..], ChildMarks(When, Choose), 0);
          var body := if end == -1 then s[start..] else s[start..start + end];
          var found := acc.(whens := acc.whens + [WhenBlock(s[t..t + testEnd], body)]);
          if end == -1 then Stop(found) else Next(start + end + |CloseTag(When)|, found)
  }

  /** Reads the otherwise element that `s` starts with. */
  function ReadOtherwise(s: string, acc: Branches): (r: ChildStep)
    ensures r.Next? ==> 0 < r.skip <= |s|
  {
    match AfterTag(s)
    case Broken => Stop(acc)
    case Body(b) =>
      var end := Scan(s[b..], ChildMarks(Otherwise, Choose), 0);
      if end == -1 then Stop(acc.(otherwise := s[b..]))
      else Next(b + end + |CloseTag(Otherwise)|, acc.(otherwise := s[b..b + end]))
  }

  function ReadChild(s: string, acc: Branches): (r: ChildStep)
    ensures r.Next? ==> 0 < r.skip <= |s|
  {
    var nextWhen := ChildTag(s, Opener(When));
    var nextOtherwise := ChildTag(s, Opener(Otherwise));
    var nextClose := ChildTag(s, CloseTag(Choose));
    if nextWhen == -1 && nextOtherwise == -1 then Stop(acc)
    else if nextClose != -1 && (nextWhen == -1 || nextClose < nextWhen) &&
      (nextOtherwise == -1 || nextClose < nextOtherwise) then
      Stop(acc)
    else if nextWhen != -1 && (nextOtherwise == -1 || nextWhen < nextOtherwise) then
      Later(nextWhen, ReadWhen(s[nextWhen..], acc))
    else
      Later(nextOtherwise, ReadOtherwise(s[nextOtherwise..], acc))
  }

  function Later(n: nat, step: ChildStep): ChildStep {
    if step.Next? then Next(n + step.skip, step.found) else step
  }

  function ChooseFrom(s: string, acc: Branches): Branches
    decreases |s|
  {
    match ReadChild(s, acc)
    case Stop(found) => found
    case Next(p, found) => ChooseFrom(s[p..], found)
  }

  function ExtractChoose(raw: string): Branches {
    match AfterTag(raw)
    case Broken => Branches([], "")
    case Body(b) => ChooseFrom(raw[b..], Branches([], ""))
  }

  method ExtractChooseBlocks(raw: string) returns (whens: seq<WhenBlock>, otherwise: string)
    ensures Branches(whens, otherwise) == ExtractChoose(raw)
  {
    hide Index, OccursAt, Scan, ChildTag, ReadWhen, ReadOtherwise, Opener, CloseTag;
    whens, otherwise := [], "";
    var closeBracket := Index(raw, ">");
    if closeBracket == -1 {
      return;
    }
    var pos := closeBracket + 1;
    assert AfterTag(raw) == Body(pos);
    while true
      invariant 0 <= pos <= |raw|
      invariant ChooseFrom(raw[pos..], Branches(whens, otherwise)) == ExtractChoose(raw)
      decreases |raw| - pos
    {
      var nextWhen := FindChooseChildTag(raw[pos..], Opener(When));
      var nextOtherwise := FindChooseChildTag(raw[pos..], Opener(Otherwise));
      var nextClose := FindChooseChildTag(raw[pos..], CloseTag(Choose));
      if nextWhen == -1 && nextOtherwise == -1 {
        break;
      }
      if nextClose != -1 && (nextWhen == -1 || nextClose < nextWhen) &&
        (nextOtherwise == -1 || nextClose < nextOtherwise) {
        break;
      }
      var tagStart, more, skip;
      if nextWhen != -1 && (nextOtherwise == -1 || nextWhen < nextOtherwise) {
        tagStart := pos + nextWhen;
        assert raw[pos..][nextWhen..] == raw[tagStart..];
        more, skip, whens := TakeWhen(raw[tagStart..], whens, otherwise);
      } else {
        tagStart := pos + nextOtherwise;
        assert raw[pos..][nextOtherwise..] == raw[tagStart..];
        more, skip, otherwise := TakeOtherwise(raw[tagStart..], whens, otherwise);
      }
      if !more {
        break;
      }
      assert raw[pos..][tagStart - pos + skip..] == raw[tagStart + skip..];
      pos := tagStart + skip;
    }
  }

  /** The loop branch of `extractChooseBlocks` that reads one when element. */
  method TakeWhen(s: string, whens: seq<WhenBlock>, otherwise: string)
    returns (more: bool, skip: nat, found: seq<WhenBlock>)
    ensures ReadWhen(s, Branches(whens, otherwise))
         == if more then Next(skip, Branches(found, otherwise)) else Stop(Branches(found, otherwise))
    ensures more ==> 0 < skip <= |s|
  {
    hide Index, OccursAt, Scan, Opener, CloseTag;
    more, skip, found := false, 0, whens;
    var testStart := Index(s, "test=\"");
    if testStart == -1 {
      var quoteEnd := Index(s, ">");
      if quoteEnd == -1 {
        return;
      }
      return true, quoteEnd + 1, found;
    }
    testStart := testStart + 6;
    var testEnd := Index(s[testStart..], "\"");
    if testEnd == -1 {
      return;
    }
    var bodyStart := testStart + testEnd;
    var tagEnd := Index(s[bodyStart..], ">");
    if tagEnd == -1 {
      return;
    }
    bodyStart := bodyStart + tagEnd + 1;
    var whenBodyLen := FindChildClose(s[bodyStart..], ChildMarks(When, Choose));
    var test := s[testStart..testStart + testEnd];
    if whenBodyLen == -1 {
      found := whens + [WhenBlock(test, s[bodyStart..])];
      return;
    }
    found := whens + [WhenBlock(test, s[bodyStart..bodyStart + whenBodyLen])];
    more, skip := true, bodyStart + whenBodyLen + |CloseTag(When)|;
  }

  /** The loop branch of `extractChooseBlocks` that reads one otherwise element. */
  method TakeOtherwise(s: string, whens: seq<WhenBlock>, otherwise: string)
    returns (more: bool, skip: nat, found: string)
    ensures ReadOtherwise(s, Branches(whens, otherwise))
         == if more then Next(skip, Branches(whens, found)) else Stop(Branches(whens, found))
    ensures more ==> 0 < skip <= |s|
  {
    hide Index, OccursAt, Scan, Opener, CloseTag;
    more, skip, found := false, 0, otherwise;
    var tagEnd := Index(s, ">");
    if tagEnd == -1 {
      return;
    }
    var bodyStart := tagEnd + 1;
    var otherwiseLen := FindChildClose(s[bodyStart..], ChildMarks(Otherwise, Choose));
    if otherwiseLen == -1 {
      found := s[bodyStart..];
      return;
    }
    found := s[bodyStart..bodyStart + otherwiseLen];
    more, skip := true, bodyStart + otherwiseLen + |CloseTag(Otherwise)|;
  }
}
