/** mesi/fetch_mode.go: what the caller of a concurrent fetch is answered, told from the steps of a run alone. */
module FirstAnswer {
  import opened Options
  import opened FetchMode

  /** What the fetch of a task got, once it has ended. */
  function GotBy(steps: seq<Step>, w: Who): Option<Result> {
    if steps == [] then None
    else
      var last := steps[|steps| - 1];
      if last.Fetched? && last.who == w then Some(last.got) else GotBy(steps[..|steps| - 1], w)
  }

  /** The results put into the channel, in order. */
  function Sends(steps: seq<Step>): seq<Result> {
    if steps == [] then []
    else
      var before, last := steps[..|steps| - 1], steps[|steps| - 1];
      if last.Send? && GotBy(before, last.who).Some? then Sends(before) + [GotBy(before, last.who).value]
      else Sends(before)
  }

  /** How many of them the caller took out. */
  function Receives(steps: seq<Step>): nat {
    if steps == [] then 0
    else Receives(steps[..|steps| - 1]) + if steps[|steps| - 1].Receive? then 1 else 0
  }

  /** The answer the steps so far amount to: the first result taken out if it is data; if it is a failure, the second
      one, whatever it is; and when the context is seen to have ended instead, the failure taken out before, or that
      of the context. */
  function AnswerOf(steps: seq<Step>): Option<Result> {
    var sent, n := Sends(steps), Receives(steps);
    if SeeDone in steps then
      Some(if 0 < n <= |sent| && sent[0].Failure? then sent[0] else Failure("context canceled"))
    else if n == 1 && |sent| >= 1 && sent[0].Data? then Some(sent[0])
    else if n == 2 && |sent| >= 2 then Some(sent[1])
    else None
  }

  /** The tasks and the channel are what the steps made them. */
  ghost predicate Follows(steps: seq<Step>, s: State) {
    && (forall w: Who :: s.Of(w).Fetching? <==> GotBy(steps, w).None?)
    && (forall w: Who :: !s.Of(w).Fetching? ==> GotBy(steps, w) == Some(s.Of(w).got))
    && Receives(steps) <= |Sends(steps)| && s.channel == Sends(steps)[Receives(steps)..]
  }

  /** And the caller is where they brought it. */
  ghost predicate CallerFollows(steps: seq<Step>, s: State) {
    var sent, n := Sends(steps), Receives(steps);
    && n <= |sent|
    && (s.main.Waiting? ==>
          && SeeDone !in steps && n <= 1
          && s.main.lastError == if n == 1 then Some(ErrorOf(sent[0])) else None)
    && (s.main.Waiting? && n == 1 ==> sent[0].Failure?)
    && (s.main.Returned? ==> AnswerOf(steps) == Some(s.main.result))
    && (s.main.Returned? ==> n <= 2 && (n == 2 ==> sent[0].Failure?) && (n == 0 ==> SeeDone in steps))
  }

  function ErrorOf(r: Result): string {
    if r.Failure? then r.error else ""
  }

  lemma OneMore(before: seq<Step>, e: Step)
    ensures
      var steps := before + [e];
      && (forall w: Who :: GotBy(steps, w) == if e.Fetched? && e.who == w then Some(e.got) else GotBy(before, w))
      && Sends(steps) == (if e.Send? && GotBy(before, e.who).Some? then Sends(before) + [GotBy(before, e.who).value]
                          else Sends(before))
      && Receives(steps) == Receives(before) + (if e.Receive? then 1 else 0)
      && (SeeDone in steps <==> SeeDone in before || e == SeeDone)
  {
    var steps := before + [e];
    assert steps[..|steps| - 1] == before && steps[|steps| - 1] == e;
  }

  lemma StepFollows(before: seq<Step>, s: State, e: Step)
    requires Follows(before, s) && Enabled(s, e)
    ensures Follows(before + [e], Next(s, e))
  {
    hide GotBy, Sends, Receives;
    OneMore(before, e);
  }

  lemma StepMovesCaller(before: seq<Step>, s: State, e: Step)
    requires Follows(before, s) && CallerFollows(before, s) && Enabled(s, e)
    ensures CallerFollows(before + [e], Next(s, e))
  {
    hide GotBy, Sends, Receives;
    OneMore(before, e);
    if e.Receive? { assert s.channel[0] == Sends(before)[Receives(before)]; }
  }

  lemma {:induction false} RunFollows(steps: seq<Step>)
    requires Run(steps).Some?
    ensures Follows(steps, Run(steps).value) && CallerFollows(steps, Run(steps).value)
    decreases |steps|
  {
    hide Enabled, Next, Follows, CallerFollows;
    if steps == [] {
      NothingYet();
    } else {
      var n := |steps| - 1;
      RunFollows(steps[..n]);
      assert steps[..n] + [steps[n]] == steps;
      StepFollows(steps[..n], Run(steps[..n]).value, steps[n]);
      StepMovesCaller(steps[..n], Run(steps[..n]).value, steps[n]);
    }
  }

  lemma NothingYet()
    ensures Follows([], Start()) && CallerFollows([], Start())
  {
  }

  /** In every run, with the parent ending or not: the caller has returned exactly if the steps amount to an answer, and
      then it is that answer. */
  lemma {:induction false} AnsweredExactly(steps: seq<Step>)
    requires Run(steps).Some?
    ensures AnswerOf(steps).None? <==> Run(steps).value.main.Waiting?
    ensures AnswerOf(steps).Some? ==> Run(steps).value.main == Returned(AnswerOf(steps).value)
  {
    hide Run, Sends, Receives;
    RunFollows(steps);
  }

  /** A fetch may end with any data or error, as long as it is under way, and the parent may end at any time. */
  lemma AnyResultIsPossible(steps: seq<Step>, w: Who, got: Result)
    requires Run(steps).Some?
    ensures GotBy(steps, w).None? ==> Enabled(Run(steps).value, Fetched(w, got))
    ensures !Run(steps).value.done ==> Enabled(Run(steps).value, ParentEnds)
  {
    hide Run, Sends, Receives, GotBy;
    RunFollows(steps);
  }
}
