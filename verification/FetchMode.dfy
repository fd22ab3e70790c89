/** mesi/fetch_mode.go: Src and Alt fetched at the same time, as a protocol over the steps of the two
    tasks and of the goroutine that waits for them; and Alt fetched after Src failed. */
module FetchMode {
  import opened Options
  import opened Config

  datatype Result = Data(body: string, isEsiResponse: bool) | Failure(error: string)

  /** A task fetches, then offers what it got to the channel until it is taken in or the context is done. */
  datatype Task = Fetching | Offering(got: Result) | Sent(got: Result) | Abandoned(got: Result)

  datatype Who = Src | Alt

  /** The waiting goroutine; it waits for a first result while there is no last error, and then for a second. */
  datatype Main = Waiting(lastError: Option<string>) | Returned(result: Result)

  datatype State = State(src: Task, alt: Task, channel: seq<Result>, done: bool, main: Main) {
    function Of(w: Who): Task {
      if w == Src then src else alt
    }

    function With(w: Who, t: Task): State {
      if w == Src then this.(src := t) else this.(alt := t)
    }
  }

  datatype Step =
    | Fetched(who: Who, got: Result)
    | Send(who: Who)
    | Abandon(who: Who)
    | Receive
    | SeeDone
    | ParentEnds

  const CAPACITY: nat := 2

  function Start(): State {
    State(Fetching, Fetching, [], false, Waiting(None))
  }

  /** A `select` with several ready cases takes any of them; a fetch may end with anything. */
  predicate Enabled(s: State, e: Step) {
    match e
    case Fetched(w, _) => s.Of(w).Fetching?
    case Send(w) => s.Of(w).Offering? && |s.channel| < CAPACITY
    case Abandon(w) => s.Of(w).Offering? && s.done
    case Receive => s.main.Waiting? && s.channel != []
    case SeeDone => s.main.Waiting? && s.done
    case ParentEnds => !s.done
  }

  /** Returning cancels the context. */
  function Return(s: State, r: Result): State {
    s.(main := Returned(r), done := true)
  }

  /** What the loop does with a received result: the second error ends it. */
  function Take(s: State, r: Result): State
    requires s.main.Waiting?
  {
    if r.Data? || s.main.lastError.Some? then Return(s, r) else s.(main := Waiting(Some(r.error)))
  }

  function Next(s: State, e: Step): State
    requires Enabled(s, e)
  {
    match e
    case Fetched(w, got) => s.With(w, Offering(got))
    case Send(w) => s.With(w, Sent(s.Of(w).got)).(channel := s.channel + [s.Of(w).got])
    case Abandon(w) => s.With(w, Abandoned(s.Of(w).got))
    case Receive => Take(s.(channel := s.channel[1..]), s.channel[0])
    case SeeDone =>
      Return(s, Failure(if s.main.lastError.Some? then s.main.lastError.value else "context canceled"))
    case ParentEnds => s.(done := true)
  }

  /** The state after these steps; None if one of them was not possible. */
  function Run(steps: seq<Step>): Option<State> {
    if steps == [] then Some(Start())
    else
      var n := |steps| - 1;
      match Run(steps[..n])
      case None => None
      case Some(s) => if Enabled(s, steps[n]) then Some(Next(s, steps[n])) else None
  }

  /** The parent context outlives the run. */
  predicate ParentLives(steps: seq<Step>) {
    ParentEnds !in steps
  }

  // ---- What every step keeps ----

  function SentBy(t: Task): multiset<Result> {
    if t.Sent? then multiset{t.got} else multiset{}
  }

  function AllSent(s: State): multiset<Result> {
    SentBy(s.src) + SentBy(s.alt)
  }

  function Received(m: Main): multiset<Result> {
    if m.Waiting? && m.lastError.Some? then multiset{Failure(m.lastError.value)} else multiset{}
  }

  /** What was sent is in the channel or was received as an error. */
  predicate Accounted(s: State) {
    && |s.channel| <= |AllSent(s)|
    && (s.main.Waiting? ==> multiset(s.channel) + Received(s.main) == AllSent(s))
  }

  predicate Got(s: State, r: Result) {
    (!s.src.Fetching? && s.src.got == r) || (!s.alt.Fetching? && s.alt.got == r)
  }

  predicate HasFailed(t: Task) {
    !t.Fetching? && t.got.Failure?
  }

  predicate BothFailed(s: State) {
    HasFailed(s.src) && HasFailed(s.alt)
  }

  /** What may be returned. */
  predicate Answers(s: State, r: Result, live: bool) {
    (r.Data? ==> Got(s, r)) && (r.Failure? && live ==> BothFailed(s) && Got(s, r))
  }

  predicate Inv(s: State, live: bool) {
    && Accounted(s)
    && (s.main.Returned? ==> s.done && Answers(s, s.main.result, live))
    && (live && s.main.Waiting? ==> !s.done)
    && (s.done || (!s.src.Abandoned? && !s.alt.Abandoned?))
  }

  lemma SendAdds(s: State, w: Who)
    requires Enabled(s, Send(w))
    ensures AllSent(Next(s, Send(w))) == AllSent(s) + multiset{s.Of(w).got}
  {
    var n := Next(s, Send(w));
    if w == Src {
      assert SentBy(s.src) == multiset{} && SentBy(n.src) == multiset{s.src.got} && n.alt == s.alt;
    } else {
      assert SentBy(s.alt) == multiset{} && SentBy(n.alt) == multiset{s.alt.got} && n.src == s.src;
    }
  }

  lemma SendKeepsAccounts(s: State, w: Who)
    requires Accounted(s) && Enabled(s, Send(w))
    ensures Accounted(Next(s, Send(w)))
  {
    hide AllSent, Received;
    SendAdds(s, w);
    var r := s.Of(w).got;
    Snoc(s.channel, r, Received(s.main));
  }

  lemma Snoc(channel: seq<Result>, r: Result, received: multiset<Result>)
    ensures multiset(channel + [r]) + received == multiset(channel) + received + multiset{r}
  {
    assert multiset(channel + [r]) == multiset(channel) + multiset{r};
  }

  /** Fetching, abandoning and ending leave what was sent as it is. */
  lemma OthersKeepAccounts(s: State, e: Step)
    requires Accounted(s) && Enabled(s, e) && !e.Send? && !e.Receive?
    ensures Accounted(Next(s, e))
  {
    hide Received, SentBy, Next, Enabled;
    SameSent(s, e);
  }

  lemma SameSent(s: State, e: Step)
    requires Enabled(s, e) && !e.Send? && !e.Receive?
    ensures SentBy(Next(s, e).src) == SentBy(s.src) && SentBy(Next(s, e).alt) == SentBy(s.alt)
    ensures Next(s, e).channel == s.channel && (Next(s, e).main == s.main || Next(s, e).main.Returned?)
  {
  }

  lemma TasksKeepAnswers(s: State, e: Step, r: Result, live: bool)
    requires Answers(s, r, live) && Enabled(s, e) && (e.Fetched? || e.Send? || e.Abandon?)
    ensures Answers(Next(s, e), r, live)
  {
  }

  /** A received result was sent by a task, and a second one by the other. */
  lemma ReceivedWasSent(s: State)
    requires Accounted(s) && Enabled(s, Receive)
    ensures Got(s, s.channel[0])
    ensures s.main.lastError.Some? && s.channel[0].Failure? ==> BothFailed(s)
    ensures multiset(s.channel) == multiset{s.channel[0]} + multiset(s.channel[1..])
  {
    hide Got, BothFailed;
    var r := s.channel[0];
    assert s.channel == [r] + s.channel[1..];
    assert multiset{r} <= multiset(s.channel) <= AllSent(s);
    SentWasGot(s, r);
    if s.main.lastError.Some? && r.Failure? {
      var f := Failure(s.main.lastError.value);
      assert multiset{r} + multiset{f} <= AllSent(s);
      TwoSentBothFailed(s, r, f);
    }
  }

  lemma SentWasGot(s: State, r: Result)
    requires multiset{r} <= AllSent(s)
    ensures Got(s, r)
  {
    assert r in multiset{r};
    assert r in SentBy(s.src) || r in SentBy(s.alt);
  }

  lemma TwoSentBothFailed(s: State, r: Result, f: Result)
    requires r.Failure? && f.Failure? && multiset{r} + multiset{f} <= AllSent(s)
    ensures BothFailed(s)
  {
    assert |multiset{r} + multiset{f}| == 2;
    assert |AllSent(s)| >= 2 by { SubmultisetSize(multiset{r} + multiset{f}, AllSent(s)); }
    assert s.src.Sent? && s.alt.Sent?;
    assert AllSent(s) == multiset{s.src.got} + multiset{s.alt.got};
    assert AllSent(s) - (multiset{r} + multiset{f}) == multiset{} by {
      assert |AllSent(s) - (multiset{r} + multiset{f})| == 0;
    }
    assert s.src.got in multiset{r} + multiset{f} && s.alt.got in multiset{r} + multiset{f};
  }

  lemma SubmultisetSize(a: multiset<Result>, b: multiset<Result>)
    requires a <= b
    ensures |b| == |a| + |b - a|
  {
    assert b == a + (b - a);
  }

  lemma ReceiveKeepsInv(s: State, live: bool)
    requires Inv(s, live) && Enabled(s, Receive)
    ensures Inv(Next(s, Receive), live)
  {
    hide BothFailed, Got, SentBy;
    ReceivedWasSent(s);
    var n := Next(s, Receive);
    assert BothFailed(n) == BothFailed(s) by { SameTasks(s, n, s.channel[0]); }
    assert Got(n, s.channel[0]) by { SameTasks(s, n, s.channel[0]); }
  }

  lemma SameTasks(s: State, n: State, r: Result)
    requires s.src == n.src && s.alt == n.alt
    ensures BothFailed(s) == BothFailed(n) && Got(s, r) == Got(n, r)
  {
  }

  lemma TaskStepKeepsInv(s: State, e: Step, live: bool)
    requires Inv(s, live) && Enabled(s, e) && (e.Fetched? || e.Send? || e.Abandon?)
    ensures Inv(Next(s, e), live)
  {
    hide Accounted, Answers;
    if e.Send? {
      SendKeepsAccounts(s, e.who);
    } else {
      OthersKeepAccounts(s, e);
    }
    if s.main.Returned? { TasksKeepAnswers(s, e, s.main.result, live); }
  }

  lemma StepKeepsInv(s: State, e: Step, live: bool)
    requires Inv(s, live) && Enabled(s, e) && (live ==> e != ParentEnds)
    ensures Inv(Next(s, e), live)
  {
    hide Accounted;
    match e
    case Fetched(_, _) => TaskStepKeepsInv(s, e, live);
    case Send(_) => TaskStepKeepsInv(s, e, live);
    case Abandon(_) => TaskStepKeepsInv(s, e, live);
    case Receive => ReceiveKeepsInv(s, live);
    case SeeDone => OthersKeepAccounts(s, e);
    case ParentEnds => OthersKeepAccounts(s, e);
  }

  lemma {:induction false} RunsKeepInv(steps: seq<Step>)
    requires Run(steps).Some?
    ensures Inv(Run(steps).value, ParentLives(steps))
    decreases |steps|
  {
    hide Accounted, Answers, Enabled, Next;
    if steps == [] {
      assert Accounted(Start()) by { StartAccounts(); }
    } else {
      var n := |steps| - 1;
      RunsKeepInv(steps[..n]);
      assert steps == steps[..n] + [steps[n]];
      Weaken(Run(steps[..n]).value, ParentLives(steps[..n]), ParentLives(steps));
      StepKeepsInv(Run(steps[..n]).value, steps[n], ParentLives(steps));
    }
  }

  lemma StartAccounts()
    ensures Accounted(Start())
  {
  }

  lemma Weaken(s: State, live: bool, still: bool)
    requires Inv(s, live) && (still ==> live)
    ensures Inv(s, still)
  {
  }

  // ---- The guarantees ----

  /** Data returned is data one of the fetches got. With a live parent an error is returned only when
      both fetches failed, and it is the error of one of them. */
  lemma FirstSuccessOrBothFailed(steps: seq<Step>)
    requires Run(steps).Some? && Run(steps).value.main.Returned?
    ensures var s := Run(steps).value;
            && (s.main.result.Data? ==> Got(s, s.main.result))
            && (s.main.result.Failure? && ParentLives(steps) ==> BothFailed(s) && Got(s, s.main.result))
  {
    hide Got, BothFailed, Accounted, Run;
    RunsKeepInv(steps);
  }

  /** Neither task is ever stuck on the channel, whatever the other task, the parent and the waiting
      goroutine have done: there is room for what it got. */
  lemma NoTaskBlocks(steps: seq<Step>, w: Who)
    requires Run(steps).Some? && Run(steps).value.Of(w).Offering?
    ensures Enabled(Run(steps).value, Send(w))
  {
    hide Answers, Run;
    RunsKeepInv(steps);
    RoomFor(Run(steps).value, w);
  }

  lemma RoomFor(s: State, w: Who)
    requires Accounted(s) && s.Of(w).Offering?
    ensures |s.channel| < CAPACITY
  {
    if w == Src {
      assert SentBy(s.src) + SentBy(s.alt) == SentBy(s.alt);
    } else {
      assert SentBy(s.src) + SentBy(s.alt) == SentBy(s.src);
    }
  }

  /** While the caller waits, a task or the caller itself can step, without the parent ending. */
  lemma CallerIsServed(steps: seq<Step>)
    requires Run(steps).Some? && Run(steps).value.main.Waiting?
    ensures exists e: Step :: e != ParentEnds && Enabled(Run(steps).value, e)
  {
    hide Answers, Run, Accounted, Enabled;
    RunsKeepInv(steps);
    var s := Run(steps).value;
    if s.src.Sent? && s.alt.Sent? {
      BothSent(s);
      assert Enabled(s, Receive) by { CanStep(s, Src); }
    } else {
      var w := if s.src.Sent? then Alt else Src;
      CanStep(s, w);
      if s.Of(w).Offering? { NoTaskBlocks(steps, w); }
      assert Enabled(s, Fetched(w, Failure(""))) || Enabled(s, Send(w)) || Enabled(s, SeeDone);
    }
  }

  lemma CanStep(s: State, w: Who)
    ensures s.Of(w).Fetching? ==> Enabled(s, Fetched(w, Failure("")))
    ensures s.main.Waiting? && s.channel != [] ==> Enabled(s, Receive)
    ensures s.main.Waiting? && s.done ==> Enabled(s, SeeDone)
  {
  }

  lemma BothSent(s: State)
    requires Accounted(s) && s.src.Sent? && s.alt.Sent? && s.main.Waiting?
    ensures s.channel != []
  {
    assert |SentBy(s.src) + SentBy(s.alt)| == 2;
    assert |multiset(s.channel) + Received(s.main)| <= |s.channel| + 1;
  }

  function TaskLeft(t: Task): nat {
    if t.Fetching? then 4 else if t.Offering? then 2 else 0
  }

  function MainLeft(m: Main): nat {
    if m.Returned? then 0 else if m.lastError.Some? then 1 else 2
  }

  /** A bound on the steps still to come. */
  function StepsLeft(s: State): nat {
    TaskLeft(s.src) + TaskLeft(s.alt) + |s.channel| + MainLeft(s.main) + (if s.done then 0 else 1)
  }

  lemma StepShrinks(s: State, e: Step)
    requires Enabled(s, e)
    ensures StepsLeft(Next(s, e)) < StepsLeft(s)
  {
  }

  /** Every step of every schedule brings the end closer: no run is longer than 11 steps. */
  lemma {:induction false} StepsRunOut(steps: seq<Step>)
    requires Run(steps).Some?
    ensures |steps| + StepsLeft(Run(steps).value) <= 11
    decreases |steps|
  {
    hide Enabled, Next, StepsLeft;
    if steps == [] {
      assert StepsLeft(Start()) == 11 by { FirstBound(); }
    } else {
      var n := |steps| - 1;
      StepsRunOut(steps[..n]);
      StepShrinks(Run(steps[..n]).value, steps[n]);
    }
  }

  lemma FirstBound()
    ensures StepsLeft(Start()) == 11
  {
  }

  /** When nothing can step any more the caller has its answer and neither task is left behind. */
  lemma EndsAnswered(steps: seq<Step>)
    requires Run(steps).Some? && forall e: Step :: e != ParentEnds ==> !Enabled(Run(steps).value, e)
    ensures var s := Run(steps).value;
            s.main.Returned? && forall w: Who :: s.Of(w).Sent? || s.Of(w).Abandoned?
  {
    hide Enabled, Run;
    var s := Run(steps).value;
    if s.main.Waiting? { CallerIsServed(steps); }
    forall w: Who ensures s.Of(w).Sent? || s.Of(w).Abandoned? {
      CanStep(s, w);
      if s.Of(w).Offering? { NoTaskBlocks(steps, w); }
      assert !Enabled(s, Fetched(w, Failure(""))) && !Enabled(s, Send(w));
    }
  }

  // ---- Fallback mode ----

  /** What a fetch got and how long it took. */
  datatype Answer = Answer(result: Result, spent: nat)

  /** A fetch ends by the deadline its budget sets, and at once without a budget. */
  ghost predicate InTime(ask: (string, int) -> Answer) {
    forall url, budget :: ask(url, budget).spent <= Max(0, budget)
  }

  /** Alt is asked only after Src failed, with the time that is left; both fit the budget together. */
  method FetchFallback(ask: (string, int) -> Answer, src: string, alt: string, c: Config)
    returns (r: Result, spent: nat)
    requires InTime(ask)
    ensures spent <= Max(0, c.timeout)
    ensures ask(src, c.timeout).result.Data? || alt == "" ==> r == ask(src, c.timeout).result
    ensures ask(src, c.timeout).result.Failure? && alt != "" ==>
              r == ask(alt, Max(0, c.timeout - ask(src, c.timeout).spent)).result
  {
    var first := ask(src, c.timeout);
    r, spent := first.result, first.spent;
    if r.Failure? && alt != "" {
      var left := WithElapsedTime(c, spent).timeout;
      var second := ask(alt, left);
      r, spent := second.result, spent + second.spent;
    }
  }
}
