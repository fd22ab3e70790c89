/** middleware/responsewriter.go: buffering a response up to a size limit. */
module ResponseWriter {
  import opened Options
  import opened Strings

  type Byte = bv8

  datatype Mode = Pass | Error

  datatype Limit = Limit(maxBody: int, mode: Mode)

  /** The response headers as far as the decision looks at them: whether the content type begins with
      text/html, the Content-Length if it parses, and whether the integration would run ESI. */
  datatype Headers = Headers(html: bool, contentLength: Option<int>, applies: bool)

  /** The writer's fields, and what has reached the client and the notify callback. */
  datatype State = State(
    statusCode: int, body: seq<Byte>, decided: bool, watch: bool, oversize: bool, committed: bool,
    sentStatus: Option<int>, sent: seq<Byte>, notified: seq<int>)

  const FRESH := State(200, [], false, false, false, false, None, [], [])

  // ---- The methods as functions ----

  function AfterTrigger(l: Limit, s: State, size: int): State {
    var told := s.(oversize := true, notified := s.notified + [size], body := []);
    if l.mode == Pass then told.(committed := true, sentStatus := Some(s.statusCode), sent := s.sent + s.body) else told
  }

  predicate Watches(l: Limit, h: Headers) {
    l.maxBody > 0 && h.html && h.applies
  }

  /** The Content-Length alone says the body is too large. */
  predicate DeclaredOver(l: Limit, h: Headers, statusCode: int) {
    statusCode != 204 && statusCode != 304 && h.contentLength.Some? && h.contentLength.value > l.maxBody
  }

  function AfterDecide(l: Limit, s: State, h: Headers): State {
    if s.decided then s
    else if !Watches(l, h) then s.(decided := true)
    else if DeclaredOver(l, h, s.statusCode) then
      AfterTrigger(l, s.(decided := true, watch := true), h.contentLength.value)
    else s.(decided := true, watch := true)
  }

  function AfterWrite(l: Limit, s: State, b: seq<Byte>, h: Headers): State {
    var d := AfterDecide(l, s, h);
    if d.committed then d.(sent := d.sent + b)
    else if d.oversize then d
    else if d.watch && |d.body| + |b| > l.maxBody then
      var t := AfterTrigger(l, d, |d.body| + |b|);
      if t.committed then t.(sent := t.sent + b) else t
    else d.(body := d.body + b)
  }

  predicate Informational(code: int) {
    100 <= code < 200 && code != 101
  }

  function AfterWriteHeader(l: Limit, s: State, code: int, h: Headers): State {
    if s.committed || Informational(code) then s
    else AfterDecide(l, s.(statusCode := code), h)
  }

  // ---- The class ----

  class ResponseWriter {
    var statusCode: int
    var body: seq<Byte>
    var limit: Limit
    var decided: bool
    var watch: bool
    var oversize: bool
    var committed: bool
    // The wrapped writer and the callback, by what they have been given.
    var sentStatus: Option<int>
    var sent: seq<Byte>
    var notified: seq<int>

    ghost function Now(): State
      reads this
    {
      State(statusCode, body, decided, watch, oversize, committed, sentStatus, sent, notified)
    }

    constructor (limit: Limit)
      ensures Now() == FRESH && this.limit == limit
    {
      statusCode, body, this.limit := 200, [], limit;
      decided, watch, oversize, committed := false, false, false, false;
      sentStatus, sent, notified := None, [], [];
    }

    method Decide(h: Headers)
      modifies this
      ensures limit == old(limit) && Now() == AfterDecide(limit, old(Now()), h)
    {
      if decided {
        return;
      }
      decided := true;
      if limit.maxBody <= 0 {
        return;
      }
      if !h.html {
        return;
      }
      if !h.applies {
        return;
      }
      watch := true;
      if statusCode == 204 || statusCode == 304 {
        return;
      }
      if h.contentLength.Some? && h.contentLength.value > limit.maxBody {
        Trigger(h.contentLength.value);
      }
    }

    method Trigger(size: int)
      modifies this
      ensures limit == old(limit) && Now() == AfterTrigger(limit, old(Now()), size)
    {
      oversize := true;
      notified := notified + [size];
      if limit.mode == Pass {
        committed := true;
        sentStatus := Some(statusCode);
        if |body| > 0 {
          sent := sent + body;
        }
      }
      body := [];
    }

    /** `answer` is what the wrapped writer says, and whether without error, if it is handed `b`. */
    method Write(b: seq<Byte>, h: Headers, answer: (int, bool)) returns (r: (int, bool))
      modifies this
      ensures limit == old(limit) && Now() == AfterWrite(limit, old(Now()), b, h)
      ensures r == if committed then answer else (|b|, true)
    {
      Decide(h);
      if committed {
        sent := sent + b;
        return answer;
      }
      if oversize {
        return (|b|, true);
      }
      if watch && |body| + |b| > limit.maxBody {
        Trigger(|body| + |b|);
        if committed {
          sent := sent + b;
          return answer;
        }
        return (|b|, true);
      }
      body := body + b;
      return (|b|, true);
    }

    method WriteHeader(code: int, h: Headers)
      modifies this
      ensures limit == old(limit) && Now() == AfterWriteHeader(limit, old(Now()), code, h)
    {
      if committed {
        return;
      }
      if code >= 100 && code < 200 && code != 101 {
        return;
      }
      statusCode := code;
      Decide(h);
    }

    /** Called after the handler; `page` is the text of the 502 answer. */
    method HandleOversize(page: seq<Byte>) returns (complete: bool)
      modifies this
      ensures complete == old(oversize)
      ensures Now() == if old(oversize) && limit.mode == Error
                       then old(Now()).(sentStatus := Some(502), sent := old(sent) + page) else old(Now())
      ensures limit == old(limit)
    {
      if !oversize {
        return false;
      }
      if limit.mode == Error {
        sentStatus := Some(502);
        sent := sent + page;
      }
      return true;
    }
  }

  // ---- Whole responses ----

  datatype Op = Write(bytes: seq<Byte>, h: Headers) | WriteHeader(code: int, h: Headers)

  function Apply(l: Limit, s: State, op: Op): State {
    match op
    case Write(b, h) => AfterWrite(l, s, b, h)
    case WriteHeader(code, h) => AfterWriteHeader(l, s, code, h)
  }

  function Run(l: Limit, s: State, ops: seq<Op>): State
    decreases |ops|
  {
    if ops == [] then s else Run(l, Apply(l, s, ops[0]), ops[1..])
  }

  /** Everything the handler wrote. */
  function Written(ops: seq<Op>): seq<Byte> {
    if ops == [] then []
    else (if ops[0].Write? then ops[0].bytes else []) + Written(ops[1..])
  }

  /** What the state says after the bytes `w` have been written. */
  predicate Accounts(l: Limit, s: State, w: seq<Byte>) {
    // nothing is lost in pass mode, and nothing is repeated
    && (s.committed ==> s.sent == w && s.body == [])
    && (!s.committed ==> s.sent == [] && s.body == if s.oversize then [] else w)
    && (s.committed <==> s.oversize && l.mode == Pass)
    // a watched body never grows beyond the limit, and one that did is oversize
    && (s.watch ==> |s.body| <= l.maxBody)
    // the callback is told once, and the client's status is the one in force when it was
    && |s.notified| == (if s.oversize then 1 else 0)
    && s.sentStatus == (if s.committed then Some(s.statusCode) else None)
    && (s.oversize ==> s.watch) && (!s.decided ==> w == []) && (s.watch ==> s.decided && l.maxBody > 0)
  }

  lemma OpAccounts(l: Limit, s: State, op: Op, w: seq<Byte>)
    requires Accounts(l, s, w)
    ensures Accounts(l, Apply(l, s, op), w + if op.Write? then op.bytes else [])
  {
    assert w + [] == w;
  }

  lemma {:induction false} RunAccounts(l: Limit, s: State, ops: seq<Op>, w: seq<Byte>)
    requires Accounts(l, s, w)
    ensures Accounts(l, Run(l, s, ops), w + Written(ops))
    decreases |ops|
  {
    hide Accounts, Apply;
    if ops == [] {
      assert w + [] == w;
    } else {
      var more := if ops[0].Write? then ops[0].bytes else [];
      OpAccounts(l, s, ops[0], w);
      RunAccounts(l, Apply(l, s, ops[0]), ops[1..], w + more);
      assert w + more + Written(ops[1..]) == w + Written(ops);
    }
  }

  /** Over every sequence of calls: in pass mode the client and the buffer together have exactly what was written,
      in order; a watched buffer stays within the limit; the callback is told at most once. */
  lemma {:induction false} NothingIsLost(l: Limit, ops: seq<Op>)
    ensures Accounts(l, Run(l, FRESH, ops), Written(ops))
    ensures l.mode == Pass ==> Run(l, FRESH, ops).sent + Run(l, FRESH, ops).body == Written(ops)
  {
    RunAccounts(l, FRESH, ops, []);
    assert [] + Written(ops) == Written(ops);
  }

  // ---- Exactly when a response is oversize ----

  /** The headers and status in force at the first call that decides. */
  datatype Decision = Undecided | Decision(h: Headers, statusCode: int)

  function DecisionOf(ops: seq<Op>): Decision {
    if ops == [] then Undecided
    else
      match ops[0]
      case Write(_, h) => Decision(h, 200)
      case WriteHeader(code, h) =>
        if 100 <= code <= 199 && code != 101 then DecisionOf(ops[1..]) else Decision(h, code)
  }

  /** A limit is set, and the response is HTML that the integration would run ESI on. */
  predicate Limited(l: Limit, d: Decision) {
    d.Decision? && l.maxBody > 0 && d.h.html && d.h.applies
  }

  /** A Content-Length above the limit, with a status that has a body. */
  predicate Declared(l: Limit, d: Decision) {
    && d.Decision? && d.statusCode !in {204, 304}
    && d.h.contentLength.Some? && d.h.contentLength.value > l.maxBody
  }

  /** The verdict, from the decision and the number of bytes written alone. */
  predicate Oversize(l: Limit, d: Decision, total: nat) {
    Limited(l, d) && (Declared(l, d) || total > l.maxBody)
  }

  /** `d` is the decision behind `s`, in which `w` has been written. */
  predicate Decides(l: Limit, s: State, d: Decision, w: seq<Byte>) {
    && s.decided == d.Decision?
    && (d.Undecided? ==> s == FRESH && w == [])
    && (d.Decision? ==> s.watch == Limited(l, d))
    && s.oversize == Oversize(l, d, |w|)
    && Accounts(l, s, w)
  }

  lemma OpDecides(l: Limit, s: State, op: Op, d: Decision, w: seq<Byte>)
    requires Decides(l, s, d, w)
    ensures Decides(l, Apply(l, s, op), if d.Undecided? then DecisionOf([op]) else d,
                    w + if op.Write? then op.bytes else [])
  {
    hide Accounts;
    assert w + [] == w;
    OpAccounts(l, s, op, w);
    BodyIsAll(l, s, w);
  }

  lemma BodyIsAll(l: Limit, s: State, w: seq<Byte>)
    requires Accounts(l, s, w)
    ensures !s.oversize ==> s.body == w && !s.committed
    ensures s.committed ==> s.oversize
  {
  }

  lemma {:induction false} RunDecides(l: Limit, s: State, ops: seq<Op>, d: Decision, w: seq<Byte>)
    requires Decides(l, s, d, w)
    ensures Decides(l, Run(l, s, ops), if d.Undecided? then DecisionOf(ops) else d, w + Written(ops))
    decreases |ops|
  {
    hide Decides, Apply;
    if ops == [] {
      assert w + [] == w;
    } else {
      var more := if ops[0].Write? then ops[0].bytes else [];
      Assoc(w, more, Written(ops[1..]));
      OpDecides(l, s, ops[0], d, w);
      RunDecides(l, Apply(l, s, ops[0]), ops[1..], if d.Undecided? then DecisionOf([ops[0]]) else d, w + more);
    }
  }

  /** However the handler cuts its writes into pieces: the response is oversize exactly if a limit is set and, by the
      headers and status at the first deciding call, it is HTML that ESI applies to, and declared or in total too
      large. */
  lemma {:induction false} OversizeExactly(l: Limit, ops: seq<Op>)
    ensures Run(l, FRESH, ops).oversize <==>
              && DecisionOf(ops).Decision? && l.maxBody > 0 && DecisionOf(ops).h.html && DecisionOf(ops).h.applies
              && (|Written(ops)| > l.maxBody ||
                  (DecisionOf(ops).statusCode !in {204, 304} && DecisionOf(ops).h.contentLength.Some?
                   && DecisionOf(ops).h.contentLength.value > l.maxBody))
    ensures Run(l, FRESH, ops).oversize <==> Oversize(l, DecisionOf(ops), |Written(ops)|)
  {
    FreshDecides(l, ops);
  }

  lemma {:induction false} FreshDecides(l: Limit, ops: seq<Op>)
    ensures Decides(l, Run(l, FRESH, ops), DecisionOf(ops), Written(ops))
  {
    assert Accounts(l, FRESH, []);
    RunDecides(l, FRESH, ops, Undecided, []);
    assert [] + Written(ops) == Written(ops);
  }

  // ---- What the callback and the client are told ----

  lemma {:induction false} RunSnoc(l: Limit, s: State, ops: seq<Op>, op: Op)
    ensures Run(l, s, ops + [op]) == Apply(l, Run(l, s, ops), op)
    decreases |ops|
  {
    hide Apply;
    if ops == [] {
      assert ops + [op] == [op] && [op][1..] == [];
    } else {
      assert (ops + [op])[1..] == ops[1..] + [op];
      RunSnoc(l, Apply(l, s, ops[0]), ops[1..], op);
    }
  }

  lemma {:induction false} WrittenSnoc(ops: seq<Op>, op: Op)
    ensures Written(ops + [op]) == Written(ops) + if op.Write? then op.bytes else []
  {
    var more := if op.Write? then op.bytes else [];
    if ops == [] {
      assert ops + [op] == [op] && [op][1..] == [];
      assert Written([op]) == more + [] == [] + more;
    } else {
      assert (ops + [op])[1..] == ops[1..] + [op];
      WrittenSnoc(ops[1..], op);
      Assoc(if ops[0].Write? then ops[0].bytes else [], Written(ops[1..]), more);
    }
  }

  /** The last status code set, informational ones aside; 200 without one. */
  function LastCode(ops: seq<Op>): int {
    if ops == [] then 200
    else
      var op := ops[|ops| - 1];
      if op.WriteHeader? && !(100 <= op.code <= 199 && op.code != 101) then op.code else LastCode(ops[..|ops| - 1])
  }

  /** What is told when the `n`-th call makes the response oversize: its declared size, or the size reached. */
  function ToldSize(l: Limit, ops: seq<Op>, n: nat): int
    requires n <= |ops|
  {
    var d := DecisionOf(ops[..n]);
    if Declared(l, d) then d.h.contentLength.value else |Written(ops[..n])|
  }

  /** The `n`-th call, counted from 1, is the one that made the response oversize. */
  predicate TurnsOversize(l: Limit, ops: seq<Op>, n: nat) {
    0 < n <= |ops| && !Run(l, FRESH, ops[..n - 1]).oversize && Run(l, FRESH, ops[..n]).oversize
  }

  /** What one call tells when it makes the response oversize. */
  lemma OpTells(l: Limit, s: State, op: Op, d: Decision, w: seq<Byte>)
    requires Decides(l, s, d, w) && !s.oversize && Apply(l, s, op).oversize
    ensures
      var now := if d.Undecided? then DecisionOf([op]) else d;
      var size := if Declared(l, now) then now.h.contentLength.value
                  else |w + if op.Write? then op.bytes else []|;
      Apply(l, s, op).notified == [size]
    ensures d.Decision? ==> op.Write? && !(Limited(l, d) && Declared(l, d))
  {
    hide Accounts;
    BodyIsAll(l, s, w);
    NobodyToldYet(l, s, w);
  }

  lemma NobodyToldYet(l: Limit, s: State, w: seq<Byte>)
    requires Accounts(l, s, w) && !s.oversize
    ensures s.notified == []
  {
  }

  lemma OversizeStays(l: Limit, s: State, op: Op, w: seq<Byte>)
    requires Accounts(l, s, w) && s.oversize
    ensures Apply(l, s, op).oversize && Apply(l, s, op).notified == s.notified
    ensures s.decided
    ensures s.committed ==> Apply(l, s, op).committed && Apply(l, s, op).sentStatus == s.sentStatus
  {
  }
  lemma OpStatus(l: Limit, s: State, op: Op)
    requires !s.committed
    ensures Apply(l, s, op).statusCode
         == if op.WriteHeader? && !(100 <= op.code <= 199 && op.code != 101) then op.code else s.statusCode
  {
  }

  lemma {:induction false} DecisionSnoc(ops: seq<Op>, op: Op)
    ensures DecisionOf(ops + [op]) == if DecisionOf(ops).Undecided? then DecisionOf([op]) else DecisionOf(ops)
  {
    if ops == [] {
      assert ops + [op] == [op];
    } else {
      assert (ops + [op])[1..] == ops[1..] + [op];
      DecisionSnoc(ops[1..], op);
    }
  }

  lemma TurnedEarlier(l: Limit, ops: seq<Op>, op: Op, n: nat)
    requires TurnsOversize(l, ops, n)
    ensures TurnsOversize(l, ops + [op], n) && (ops + [op])[..n] == ops[..n]
    ensures ToldSize(l, ops + [op], n) == ToldSize(l, ops, n)
  {
    assert (ops + [op])[..n] == ops[..n] && (ops + [op])[..n - 1] == ops[..n - 1];
  }

  /** What has been told of the run so far. */
  ghost predicate ToldRight(l: Limit, ops: seq<Op>, s: State) {
    && (!s.oversize ==> s.notified == [])
    && (s.oversize ==> exists n: nat :: n <= |ops| && TurnsOversize(l, ops, n) && s.notified == [ToldSize(l, ops, n)])
    && (!s.committed ==> s.statusCode == LastCode(ops) && s.sentStatus == None)
    && (s.committed ==>
          exists n: nat :: n <= |ops| && TurnsOversize(l, ops, n) && s.sentStatus == Some(LastCode(ops[..n])))
  }

  lemma {:induction false} OneMoreCall(l: Limit, ops: seq<Op>, op: Op)
    requires ToldRight(l, ops, Run(l, FRESH, ops))
    ensures ToldRight(l, ops + [op], Run(l, FRESH, ops + [op]))
  {
    hide Apply, Decides, Run, Written, DecisionOf, TurnsOversize, ToldSize;
    var s, all := Run(l, FRESH, ops), ops + [op];
    var t := Run(l, FRESH, all);
    RunSnoc(l, FRESH, ops, op);
    assert all[..|all|] == all && all[..|all| - 1] == ops;
    NothingIsLost(l, ops);
    NothingIsLost(l, all);
    if s.oversize {
      OversizeStays(l, s, op, Written(ops));
      var n: nat :| n <= |ops| && TurnsOversize(l, ops, n) && s.notified == [ToldSize(l, ops, n)];
      TurnedEarlier(l, ops, op, n);
      if s.committed {
        var m: nat :| m <= |ops| && TurnsOversize(l, ops, m) && s.sentStatus == Some(LastCode(ops[..m]));
        TurnedEarlier(l, ops, op, m);
      }
    } else if t.oversize {
      FreshDecides(l, ops);
      OpTells(l, s, op, DecisionOf(ops), Written(ops));
      DecisionSnoc(ops, op);
      WrittenSnoc(ops, op);
      TurnsNow(l, ops, op);
    }
    if !s.committed { OpStatus(l, s, op); }
  }

  lemma TurnsNow(l: Limit, ops: seq<Op>, op: Op)
    requires !Run(l, FRESH, ops).oversize && Run(l, FRESH, ops + [op]).oversize
    ensures TurnsOversize(l, ops + [op], |ops| + 1)
    ensures ToldSize(l, ops + [op], |ops| + 1)
         == if Declared(l, DecisionOf(ops + [op])) then DecisionOf(ops + [op]).h.contentLength.value
            else |Written(ops + [op])|
  {
    assert (ops + [op])[..|ops| + 1] == ops + [op] && (ops + [op])[..|ops|] == ops;
  }

  /** Over every sequence of calls: the callback is told, by the call that makes the response oversize, the declared
      size if that is why, else the size reached; the client is told then, in pass mode, the last status code set
      so far. */
  lemma {:induction false} ToldOnceAndRight(l: Limit, ops: seq<Op>)
    ensures ToldRight(l, ops, Run(l, FRESH, ops))
    decreases |ops|
  {
    hide ToldRight, Run;
    if ops == [] {
      NothingTold(l);
    } else {
      var n := |ops| - 1;
      ToldOnceAndRight(l, ops[..n]);
      OneMoreCall(l, ops[..n], ops[n]);
      assert ops[..n] + [ops[n]] == ops;
    }
  }

  lemma NothingTold(l: Limit)
    ensures ToldRight(l, [], Run(l, FRESH, []))
  {
  }

  /** What the client and the integration get to see in the end. */
  datatype Seen = Seen(complete: bool, buffered: seq<Byte>, sent: seq<Byte>)

  function SeenOf(s: State): Seen {
    Seen(s.oversize, s.body, s.sent)
  }

  /** Two ways of writing the same bytes after the same decision end the same. */
  lemma {:induction false} ChunksDoNotMatter(l: Limit, a: seq<Op>, b: seq<Op>)
    requires DecisionOf(a) == DecisionOf(b) && Written(a) == Written(b)
    ensures SeenOf(Run(l, FRESH, a)) == SeenOf(Run(l, FRESH, b))
    ensures |Run(l, FRESH, a).notified| == |Run(l, FRESH, b).notified|
  {
    hide Run, Written, DecisionOf;
    OversizeExactly(l, a);
    OversizeExactly(l, b);
    NothingIsLost(l, a);
    NothingIsLost(l, b);
  }
}
