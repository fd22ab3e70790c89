/** mesi/parser.go, the worker pool of `MESIParse`: its goroutines as a transition system. */
module Pool {
  import opened Tags
  import opened Tokenizer
  import opened Config
  import opened Processor

  // ---- Putting the results together ----

  datatype Response = Response(content: string, index: nat)

  function Insert(r: Response, s: seq<Response>): seq<Response> {
    if s == [] || r.index <= s[0].index then [r] + s else [s[0]] + Insert(r, s[1..])
  }

  /** `sort.SliceStable` by index. */
  function SortByIndex(s: seq<Response>): seq<Response> {
    if s == [] then [] else Insert(s[0], SortByIndex(s[1..]))
  }

  function Contents(s: seq<Response>): string {
    if s == [] then "" else s[0].content + Contents(s[1..])
  }

  lemma {:induction false} ContentsSnoc(s: seq<Response>, r: Response)
    ensures Contents(s + [r]) == Contents(s) + r.content
  {
    if s != [] {
      ContentsSnoc(s[1..], r);
      assert (s + [r])[1..] == s[1..] + [r];
    }
  }

  method AssembleResults(results: seq<Response>) returns (result: string)
    ensures result == Contents(SortByIndex(results))
  {
    var sorted := SortByIndex(results);
    result := "";
    for i := 0 to |sorted|
      invariant result == Contents(sorted[..i])
    {
      assert sorted[..i + 1] == sorted[..i] + [sorted[i]];
      ContentsSnoc(sorted[..i], sorted[i]);
      result := result + sorted[i].content;
    }
    assert sorted[..|sorted|] == sorted;
  }

  /** The texts numbered `from` and up whose number is in `kept`, in order. */
  function Gather(texts: seq<string>, kept: set<nat>, from: nat): string
    requires from <= |texts|
    decreases |texts| - from
  {
    if from == |texts| then ""
    else (if from in kept then texts[from] else "") + Gather(texts, kept, from + 1)
  }

  function Numbers(s: seq<Response>): set<nat> {
    if s == [] then {} else {s[0].index} + Numbers(s[1..])
  }

  /** Every response carries the text of its own number, and no number comes twice. */
  predicate AreAnswers(s: seq<Response>, texts: seq<string>) {
    s == [] || (
      && s[0].index < |texts| && s[0].content == texts[s[0].index]
      && s[0].index !in Numbers(s[1..]) && AreAnswers(s[1..], texts))
  }

  predicate InOrder(s: seq<Response>) {
    s == [] || ((forall n :: n in Numbers(s[1..]) ==> s[0].index < n) && InOrder(s[1..]))
  }

  lemma {:induction false} InsertKeepsAnswers(r: Response, s: seq<Response>, texts: seq<string>)
    requires AreAnswers(s, texts) && InOrder(s)
    requires r.index < |texts| && r.content == texts[r.index] && r.index !in Numbers(s)
    ensures AreAnswers(Insert(r, s), texts) && InOrder(Insert(r, s))
    ensures Numbers(Insert(r, s)) == Numbers(s) + {r.index}
  {
    if s == [] || r.index <= s[0].index {
      assert ([r] + s)[1..] == s;
    } else {
      InsertKeepsAnswers(r, s[1..], texts);
      assert Insert(r, s)[1..] == Insert(r, s[1..]);
    }
  }

  lemma {:induction false} SortKeepsAnswers(s: seq<Response>, texts: seq<string>)
    requires AreAnswers(s, texts)
    ensures AreAnswers(SortByIndex(s), texts) && InOrder(SortByIndex(s))
    ensures Numbers(SortByIndex(s)) == Numbers(s)
  {
    if s != [] {
      SortKeepsAnswers(s[1..], texts);
      InsertKeepsAnswers(s[0], SortByIndex(s[1..]), texts);
    }
  }

  lemma {:induction false} InOrderIsGathered(s: seq<Response>, texts: seq<string>, from: nat)
    requires AreAnswers(s, texts) && InOrder(s) && from <= |texts|
    requires forall n :: n in Numbers(s) ==> n >= from
    ensures Contents(s) == Gather(texts, Numbers(s), from)
    decreases |texts| - from
  {
    if from < |texts| {
      if s != [] && s[0].index == from {
        InOrderIsGathered(s[1..], texts, from + 1);
        GatherIgnores(texts, Numbers(s[1..]), Numbers(s), from + 1);
      } else {
        InOrderIsGathered(s, texts, from + 1);
      }
    }
  }

  lemma {:induction false} GatherIgnores(texts: seq<string>, a: set<nat>, b: set<nat>, from: nat)
    requires from <= |texts| && forall n :: n >= from ==> (n in a <==> n in b)
    ensures Gather(texts, a, from) == Gather(texts, b, from)
    decreases |texts| - from
  {
    if from < |texts| { GatherIgnores(texts, a, b, from + 1); }
  }

  /** Whatever order the responses came in, they are put together in document order. */
  lemma {:induction false} AssembledInOrder(s: seq<Response>, texts: seq<string>)
    requires AreAnswers(s, texts)
    ensures Contents(SortByIndex(s)) == Gather(texts, Numbers(s), 0)
  {
    SortKeepsAnswers(s, texts);
    InOrderIsGathered(SortByIndex(s), texts, 0);
  }

  // ---- The pool ----

  datatype Worker = Idle | Busy(job: nat) | Exited

  datatype Main = Sending | Receiving(count: nat) | Waiting | Returned

  /** `todo` are the jobs not yet sent, `queue` and `results` the two buffered channels. */
  datatype State = State(
    todo: seq<nat>, queue: seq<nat>, closed: bool, workers: seq<Worker>,
    results: seq<Response>, received: seq<Response>, cancelled: bool, main: Main)

  datatype Step =
    | Send | Close | Take(w: nat) | Finish(w: nat) | Exit(w: nat)
    | Receive | AllReceived | Abandon | WaitReturns | Cancel

  /** What the pool was started on: the job numbers, and the text each job produces. */
  datatype Start = Start(jobs: seq<nat>, texts: seq<string>, workers: nat) {
    predicate Valid() {
      && workers >= 1
      && (forall i :: 0 <= i < |jobs| ==> jobs[i] < |texts|)
      && (forall i, j :: 0 <= i < j < |jobs| ==> jobs[i] != jobs[j])
    }
  }

  function Initial(p: Start): State {
    State(p.jobs, [], false, seq(p.workers, _ => Idle), [], [], false, Sending)
  }

  predicate Enabled(p: Start, s: State, e: Step) {
    match e
    case Send => s.main.Sending? && s.todo != [] && |s.queue| < |p.jobs|
    case Close => s.main.Sending? && s.todo == []
    case Take(w) => w < |s.workers| && s.workers[w].Idle? && s.queue != []
    case Finish(w) =>
      w < |s.workers| && s.workers[w].Busy? && s.workers[w].job < |p.texts| && |s.results| < |p.jobs|
    case Exit(w) => w < |s.workers| && s.workers[w].Idle? && s.queue == [] && s.closed
    case Receive => s.main.Receiving? && s.main.count < |p.jobs| && s.results != []
    case AllReceived => s.main.Receiving? && s.main.count >= |p.jobs|
    case Abandon => s.main.Receiving? && s.main.count < |p.jobs| && s.cancelled
    case WaitReturns => s.main.Waiting? && forall w :: 0 <= w < |s.workers| ==> s.workers[w].Exited?
    case Cancel => !s.cancelled
  }

  function Do(p: Start, s: State, e: Step): State
    requires Enabled(p, s, e)
  {
    match e
    case Send => s.(todo := s.todo[1..], queue := s.queue + [s.todo[0]])
    case Close => s.(closed := true, main := Receiving(0))
    case Take(w) => s.(queue := s.queue[1..], workers := s.workers[w := Busy(s.queue[0])])
    case Finish(w) =>
      var job := s.workers[w].job;
      s.(workers := s.workers[w := Idle], results := s.results + [Response(p.texts[job], job)])
    case Exit(w) => s.(workers := s.workers[w := Exited])
    case Receive =>
      s.(results := s.results[1..], received := s.received + [s.results[0]], main := Receiving(s.main.count + 1))
    case AllReceived => s.(main := Waiting)
    case Abandon => s.(main := Waiting)
    case WaitReturns => s.(main := Returned)
    case Cancel => s.(cancelled := true)
  }

  // ---- Where each job is ----

  function Count(jobs: seq<nat>, j: nat): nat {
    if jobs == [] then 0 else (if jobs[0] == j then 1 else 0) + Count(jobs[1..], j)
  }

  function CountAnswers(s: seq<Response>, j: nat): nat {
    if s == [] then 0 else (if s[0].index == j then 1 else 0) + CountAnswers(s[1..], j)
  }

  function Holds(w: Worker, j: nat): nat {
    if w == Busy(j) then 1 else 0
  }

  function CountInHand(workers: seq<Worker>, j: nat): nat {
    if workers == [] then 0 else Holds(workers[0], j) + CountInHand(workers[1..], j)
  }

  /** Answer text aside, in how many places job `j` is. */
  function Copies(s: State, j: nat): nat {
    Count(s.todo, j) + Count(s.queue, j) + CountInHand(s.workers, j) + CountAnswers(s.results, j) +
      CountAnswers(s.received, j)
  }

  lemma {:induction false} CountSnoc(jobs: seq<nat>, x: nat, j: nat)
    ensures Count(jobs + [x], j) == Count(jobs, j) + if x == j then 1 else 0
  {
    if jobs != [] {
      assert (jobs + [x])[1..] == jobs[1..] + [x];
      CountSnoc(jobs[1..], x, j);
    }
  }

  lemma {:induction false} CountAnswersSnoc(s: seq<Response>, r: Response, j: nat)
    ensures CountAnswers(s + [r], j) == CountAnswers(s, j) + if r.index == j then 1 else 0
  {
    if s != [] {
      assert (s + [r])[1..] == s[1..] + [r];
      CountAnswersSnoc(s[1..], r, j);
    }
  }

  lemma {:induction false} CountInHandUpdate(workers: seq<Worker>, w: nat, x: Worker, j: nat)
    requires w < |workers|
    ensures CountInHand(workers[w := x], j) + Holds(workers[w], j) == CountInHand(workers, j) + Holds(x, j)
  {
    var after := workers[w := x];
    if w == 0 {
      assert after[1..] == workers[1..];
    } else {
      assert after[1..] == workers[1..][w - 1 := x];
      CountInHandUpdate(workers[1..], w - 1, x, j);
    }
  }

  lemma {:induction false} CountInHandPositive(workers: seq<Worker>, w: nat)
    requires w < |workers| && workers[w].Busy?
    ensures CountInHand(workers, workers[w].job) > 0
  {
    if w > 0 { CountInHandPositive(workers[1..], w - 1); }
  }

  lemma {:induction false} CountMember(jobs: seq<nat>, j: nat)
    ensures Count(jobs, j) > 0 <==> j in jobs
  {
    if jobs != [] { CountMember(jobs[1..], j); }
  }

  /** How many jobs are at work or waiting for it, all places together. */
  function Total(s: State): nat {
    |s.todo| + |s.queue| + BusyCount(s.workers) + |s.results| + |s.received|
  }

  function BusyCount(workers: seq<Worker>): nat {
    if workers == [] then 0 else (if workers[0].Busy? then 1 else 0) + BusyCount(workers[1..])
  }

  lemma {:induction false} BusyCountUpdate(workers: seq<Worker>, w: nat, x: Worker)
    requires w < |workers|
    ensures BusyCount(workers[w := x]) + (if workers[w].Busy? then 1 else 0)
         == BusyCount(workers) + (if x.Busy? then 1 else 0)
  {
    var after := workers[w := x];
    if w == 0 {
      assert after[1..] == workers[1..];
    } else {
      assert after[1..] == workers[1..][w - 1 := x];
      BusyCountUpdate(workers[1..], w - 1, x);
    }
  }

  lemma {:induction false} BusyCountZero(workers: seq<Worker>)
    ensures BusyCount(workers) == 0 <==> forall w :: 0 <= w < |workers| ==> !workers[w].Busy?
    ensures BusyCount(workers) == 0 ==> forall j :: CountInHand(workers, j) == 0
  {
    if workers != [] {
      BusyCountZero(workers[1..]);
      assert forall w :: 1 <= w < |workers| ==> workers[w] == workers[1..][w - 1];
      assert (forall w :: 0 <= w < |workers| ==> !workers[w].Busy?) ==> !workers[0].Busy?;
    }
  }

  ghost predicate Genuine(p: Start, s: seq<Response>) {
    forall i :: 0 <= i < |s| ==> s[i].index < |p.texts| && s[i].content == p.texts[s[i].index]
  }

  /** Every job is in exactly one place. */
  ghost predicate Conserved(p: Start, s: State) {
    Total(s) == |p.jobs| && forall j: nat :: Copies(s, j) == Count(p.jobs, j)
  }

  /** Who has finished, and what that says about the rest. */
  ghost predicate Ordered(p: Start, s: State) {
    && |s.workers| == p.workers
    && (s.main.Sending? <==> !s.closed)
    && (s.closed ==> s.todo == [])
    && (s.main.Sending? ==> s.received == [])
    && (forall w :: 0 <= w < |s.workers| && s.workers[w].Exited? ==> s.closed && s.queue == [])
    && (s.main.Receiving? ==> s.main.count == |s.received|)
    && (s.main.Waiting? || s.main.Returned? ==> |s.received| == |p.jobs| || s.cancelled)
    && (s.main.Returned? ==> forall w :: 0 <= w < |s.workers| ==> s.workers[w].Exited?)
  }

  ghost predicate Inv(p: Start, s: State) {
    Conserved(p, s) && Ordered(p, s) && Genuine(p, s.results) && Genuine(p, s.received)
  }

  lemma {:induction false} InitialInv(p: Start)
    requires p.Valid()
    ensures Inv(p, Initial(p))
  {
    BusyCountZero(Initial(p).workers);
  }

  lemma {:induction false} StepKeepsCopies(p: Start, s: State, e: Step, j: nat)
    requires Enabled(p, s, e)
    ensures Copies(Do(p, s, e), j) == Copies(s, j)
  {
    match e
    case Send => CountSnoc(s.queue, s.todo[0], j);
    case Take(w) => CountInHandUpdate(s.workers, w, Busy(s.queue[0]), j);
    case Finish(w) =>
      var job := s.workers[w].job;
      CountInHandUpdate(s.workers, w, Idle, j);
      CountAnswersSnoc(s.results, Response(p.texts[job], job), j);
    case Exit(w) => CountInHandUpdate(s.workers, w, Exited, j);
    case Receive => CountAnswersSnoc(s.received, s.results[0], j);
    case _ =>
  }

  /** No step loses, repeats or invents a job. */
  lemma {:induction false} StepConserves(p: Start, s: State, e: Step)
    requires Enabled(p, s, e) && Conserved(p, s)
    ensures Conserved(p, Do(p, s, e))
  {
    hide Copies;
    forall j: nat ensures Copies(Do(p, s, e), j) == Count(p.jobs, j) {
      StepKeepsCopies(p, s, e, j);
    }
    match e
    case Take(w) => BusyCountUpdate(s.workers, w, Busy(s.queue[0]));
    case Finish(w) => BusyCountUpdate(s.workers, w, Idle);
    case Exit(w) => BusyCountUpdate(s.workers, w, Exited);
    case _ =>
  }

  lemma {:induction false} StepKeepsInv(p: Start, s: State, e: Step)
    requires Inv(p, s) && Enabled(p, s, e)
    ensures Inv(p, Do(p, s, e))
  {
    StepConserves(p, s, e);
    StepKeepsOrder(p, s, e);
  }

  lemma {:induction false} StepKeepsOrder(p: Start, s: State, e: Step)
    requires Total(s) == |p.jobs| && Ordered(p, s) && Enabled(p, s, e)
    ensures Ordered(p, Do(p, s, e))
  {
    hide BusyCount;
  }

  // ---- Whole runs ----

  /** The steps taken one after another, if each is enabled in its turn. */
  ghost predicate IsRun(p: Start, s: State, steps: seq<Step>, t: State)
    decreases |steps|
  {
    if steps == [] then s == t
    else Enabled(p, s, steps[0]) && IsRun(p, Do(p, s, steps[0]), steps[1..], t)
  }

  lemma {:induction false} RunKeepsInv(p: Start, s: State, steps: seq<Step>, t: State)
    requires Inv(p, s) && IsRun(p, s, steps, t)
    ensures Inv(p, t)
    decreases |steps|
  {
    hide Inv;
    if steps != [] {
      StepKeepsInv(p, s, steps[0]);
      RunKeepsInv(p, Do(p, s, steps[0]), steps[1..], t);
    }
  }

  /** How many steps can still be taken. */
  function Rank(m: Main): nat {
    match m case Sending => 3 case Receiving(_) => 2 case Waiting => 1 case Returned => 0
  }

  function Effort(w: Worker): nat {
    match w case Idle => 1 case Busy(_) => 4 case Exited => 0
  }

  function Efforts(workers: seq<Worker>): nat {
    if workers == [] then 0 else Effort(workers[0]) + Efforts(workers[1..])
  }

  lemma {:induction false} EffortsUpdate(workers: seq<Worker>, w: nat, x: Worker)
    requires w < |workers|
    ensures Efforts(workers[w := x]) + Effort(workers[w]) == Efforts(workers) + Effort(x)
  {
    var after := workers[w := x];
    if w == 0 {
      assert after[1..] == workers[1..];
    } else {
      assert after[1..] == workers[1..][w - 1 := x];
      EffortsUpdate(workers[1..], w - 1, x);
    }
  }

  function StepsLeft(s: State): nat {
    6 * |s.todo| + 5 * |s.queue| + Efforts(s.workers) + 1 * |s.results| + Rank(s.main) + if s.cancelled then 0 else 1
  }

  lemma {:induction false} StepsLeftShrinks(p: Start, s: State, e: Step)
    requires Enabled(p, s, e)
    ensures StepsLeft(Do(p, s, e)) < StepsLeft(s)
  {
    match e
    case Take(w) => EffortsUpdate(s.workers, w, Busy(s.queue[0]));
    case Finish(w) => EffortsUpdate(s.workers, w, Idle);
    case Exit(w) => EffortsUpdate(s.workers, w, Exited);
    case _ =>
  }

  lemma {:induction false} RunsAreBounded(p: Start, s: State, steps: seq<Step>, t: State)
    requires IsRun(p, s, steps, t)
    ensures |steps| + StepsLeft(t) <= StepsLeft(s)
    decreases |steps|
  {
    if steps != [] {
      StepsLeftShrinks(p, s, steps[0]);
      RunsAreBounded(p, Do(p, s, steps[0]), steps[1..], t);
    }
  }

  lemma {:induction false} SomebodyMoves(p: Start, s: State) returns (e: Step)
    requires p.Valid() && Inv(p, s) && !s.main.Returned?
    ensures Enabled(p, s, e) && !e.Cancel?
  {
    hide Copies;
    if s.main.Sending? {
      e := if s.todo == [] then Close else Send;
    } else if s.main.Receiving? && s.main.count >= |p.jobs| {
      e := AllReceived;
    } else if s.main.Receiving? && s.results != [] {
      e := Receive;
    } else {
      e := WorkersMove(p, s);
    }
  }

  lemma {:induction false} WorkersMove(p: Start, s: State) returns (e: Step)
    requires p.Valid() && Inv(p, s)
    requires s.main.Waiting? || (s.main.Receiving? && s.results == [] && s.main.count < |p.jobs|)
    ensures Enabled(p, s, e) && !e.Cancel?
  {
    hide BusyCount, Count, CountAnswers, CountInHand;
    BusyCountZero(s.workers);
    if w: nat :| w < |s.workers| && s.workers[w].Busy? {
      CountInHandPositive(s.workers, w);
      assert Copies(s, s.workers[w].job) > 0;
      CountMember(p.jobs, s.workers[w].job);
      e := Finish(w);
    } else if s.queue != [] {
      assert !s.workers[0].Busy? && !s.workers[0].Exited?;
      e := Take(0);
    } else if w: nat :| w < |s.workers| && s.workers[w].Idle? {
      e := Exit(w);
    } else {
      assert forall w :: 0 <= w < |s.workers| ==> s.workers[w].Exited? by {
        forall w | 0 <= w < |s.workers| ensures s.workers[w].Exited? {
          assert !s.workers[w].Busy? && !s.workers[w].Idle?;
        }
      }
      e := WaitReturns;
    }
  }

  lemma {:induction false} ComesToItsEnd(p: Start, s: State) returns (steps: seq<Step>, t: State)
    requires p.Valid() && Inv(p, s)
    ensures IsRun(p, s, steps, t) && t.main.Returned? && t.cancelled == s.cancelled
    decreases StepsLeft(s)
  {
    hide Inv;
    if s.main.Returned? {
      steps, t := [], s;
    } else {
      var e := SomebodyMoves(p, s);
      StepKeepsInv(p, s, e);
      StepsLeftShrinks(p, s, e);
      steps, t := ComesToItsEnd(p, Do(p, s, e));
      steps := [e] + steps;
    }
  }

  /** In every reachable state, until `wg.Wait` has returned something other than a cancellation can happen:
      no sender, worker or receiver is stuck, cancelled or not. */
  lemma {:induction false} NobodyIsStuck(p: Start, run: seq<Step>, s: State) returns (e: Step)
    requires p.Valid() && IsRun(p, Initial(p), run, s) && !s.main.Returned?
    ensures Enabled(p, s, e) && !e.Cancel?
  {
    hide Inv, Initial, IsRun, Enabled;
    InitialInv(p);
    RunKeepsInv(p, Initial(p), run, s);
    e := SomebodyMoves(p, s);
  }

  /** Left alone, the pool comes to its end from every reachable state. */
  lemma {:induction false} AlwaysReturns(p: Start, run: seq<Step>, s: State) returns (steps: seq<Step>, t: State)
    requires p.Valid() && IsRun(p, Initial(p), run, s)
    ensures IsRun(p, s, steps, t) && t.main.Returned? && t.cancelled == s.cancelled
  {
    hide Inv, Initial, IsRun;
    InitialInv(p);
    RunKeepsInv(p, Initial(p), run, s);
    steps, t := ComesToItsEnd(p, s);
  }

  // ---- The output ----

  lemma {:induction false} CountsMakeAnswers(p: Start, s: seq<Response>)
    requires Genuine(p, s)
    requires forall j :: CountAnswers(s, j) <= 1
    ensures AreAnswers(s, p.texts)
  {
    if s != [] {
      forall j ensures CountAnswers(s[1..], j) <= 1 { assert CountAnswers(s, j) <= 1; }
      CountsMakeAnswers(p, s[1..]);
      assert CountAnswers(s, s[0].index) <= 1;
      NumbersAreCounted(s[1..], s[0].index);
    }
  }

  lemma {:induction false} NumbersAreCounted(s: seq<Response>, j: nat)
    ensures j in Numbers(s) <==> CountAnswers(s, j) > 0
  {
    if s != [] { NumbersAreCounted(s[1..], j); }
  }

  lemma {:induction false} DistinctCount(jobs: seq<nat>, j: nat)
    requires forall i, k :: 0 <= i < k < |jobs| ==> jobs[i] != jobs[k]
    ensures Count(jobs, j) <= 1
  {
    if jobs != [] {
      DistinctCount(jobs[1..], j);
      CountMember(jobs[1..], j);
    }
  }

  /** At any moment of any run, what has been received is genuine, comes from distinct jobs,
      and is everything as soon as the last response is in. */
  lemma {:induction false} ReceivedAreAnswers(p: Start, s: State)
    requires p.Valid() && Inv(p, s)
    ensures AreAnswers(s.received, p.texts)
    ensures forall n :: n in Numbers(s.received) ==> n in p.jobs
    ensures |s.received| == |p.jobs| ==> forall n :: n in p.jobs ==> n in Numbers(s.received)
  {
    hide BusyCount, Count, CountAnswers, CountInHand, Numbers, AreAnswers;
    forall j ensures CountAnswers(s.received, j) <= 1 {
      DistinctCount(p.jobs, j);
      assert Copies(s, j) == Count(p.jobs, j);
    }
    CountsMakeAnswers(p, s.received);
    forall n | n in Numbers(s.received) ensures n in p.jobs {
      NumbersAreCounted(s.received, n);
      assert Copies(s, n) == Count(p.jobs, n);
      CountMember(p.jobs, n);
    }
    if |s.received| == |p.jobs| {
      forall n | n in p.jobs ensures n in Numbers(s.received) {
        CountMember(p.jobs, n);
        assert Copies(s, n) == Count(p.jobs, n);
        BusyCountZero(s.workers);
        NoneCounted(s);
        NumbersAreCounted(s.received, n);
      }
    }
  }

  lemma NoneCounted(s: State)
    ensures s.todo == [] ==> forall j :: Count(s.todo, j) == 0
    ensures s.queue == [] ==> forall j :: Count(s.queue, j) == 0
    ensures s.results == [] ==> forall j :: CountAnswers(s.results, j) == 0
  {
  }

  // ---- The page ----

  /** Tokens that `MESIParse` hands to the pool; it renders the others on the spot. */
  predicate IsJob(t: Token) {
    t.Esi? && t.kind != Vars && t.kind != Try && t.kind != Choose && t.kind != Inline
  }

  function Texts(env: Env, c: Config, path: Path, tokens: seq<Token>): (r: seq<string>)
    ensures |r| == |tokens|
  {
    seq(|tokens|, i requires 0 <= i < |tokens| => RenderToken(env, c, path + [i], tokens[i]).text)
  }

  function JobsFrom(tokens: seq<Token>, i: nat): (r: seq<nat>)
    requires i <= |tokens|
    ensures forall n :: n in r <==> i <= n < |tokens| && IsJob(tokens[n])
    ensures forall j, k :: 0 <= j < k < |r| ==> r[j] < r[k]
    decreases |tokens| - i
  {
    if i == |tokens| then []
    else
      var rest := JobsFrom(tokens, i + 1);
      assert forall n :: n in [i] + rest <==> n == i || n in rest;
      assert forall k :: 0 <= k < |rest| ==> rest[k] in rest;
      if IsJob(tokens[i]) then [i] + rest else rest
  }

  function Immediate(tokens: seq<Token>, texts: seq<string>, i: nat): (r: seq<Response>)
    requires i <= |tokens| == |texts|
    ensures forall n :: n in Numbers(r) <==> i <= n < |tokens| && !IsJob(tokens[n])
    ensures AreAnswers(r, texts)
    decreases |tokens| - i
  {
    if i == |tokens| then []
    else if IsJob(tokens[i]) then Immediate(tokens, texts, i + 1)
    else [Response(texts[i], i)] + Immediate(tokens, texts, i + 1)
  }

  lemma {:induction false} AnswersConcat(a: seq<Response>, b: seq<Response>, texts: seq<string>)
    requires AreAnswers(a, texts) && AreAnswers(b, texts) && Numbers(a) !! Numbers(b)
    ensures AreAnswers(a + b, texts) && Numbers(a + b) == Numbers(a) + Numbers(b)
  {
    if a == [] {
      assert a + b == b;
    } else {
      assert (a + b)[1..] == a[1..] + b;
      AnswersConcat(a[1..], b, texts);
    }
  }

  lemma {:induction false} GatherAll(env: Env, c: Config, path: Path, tokens: seq<Token>, kept: set<nat>, i: nat)
    requires i <= |tokens| && forall n :: i <= n < |tokens| ==> n in kept
    ensures Gather(Texts(env, c, path, tokens), kept, i) == Render(env, c, path, tokens[i..], i).text
    decreases |tokens| - i
  {
    hide RenderToken;
    if i < |tokens| {
      GatherAll(env, c, path, tokens, kept, i + 1);
      assert tokens[i..][1..] == tokens[i + 1..];
    }
  }

  /** Pieces without text may be missing or not. */
  lemma {:induction false} EmptyPiecesDoNotShow(texts: seq<string>, a: set<nat>, b: set<nat>, from: nat)
    requires from <= |texts|
    requires forall n :: from <= n < |texts| ==> (n in a <==> n in b) || texts[n] == ""
    ensures Gather(texts, a, from) == Gather(texts, b, from)
    decreases |texts| - from
  {
    if from < |texts| { EmptyPiecesDoNotShow(texts, a, b, from + 1); }
  }

  /** The tokens a job may be about, other than includes, show nothing. */
  lemma OtherJobsShowNothing(env: Env, c: Config, path: Path, tokens: seq<Token>, n: nat)
    requires n < |tokens| && IsJob(tokens[n]) && !(tokens[n].Esi? && tokens[n].kind == Include)
    ensures Texts(env, c, path, tokens)[n] == ""
  {
    assert RenderToken(env, c, path + [n], tokens[n]) == NOTHING;
  }

  function PoolOf(env: Env, c: Config, path: Path, tokens: seq<Token>, workers: nat): Start {
    Start(JobsFrom(tokens, 0), Texts(env, c, path, tokens), workers)
  }

  /** What `MESIParse` returns after the pool has stopped in state `t`. */
  function Output(env: Env, c: Config, path: Path, tokens: seq<Token>, t: State): string {
    Contents(SortByIndex(Immediate(tokens, Texts(env, c, path, tokens), 0) + t.received))
  }

  lemma PoolIsValid(env: Env, c: Config, path: Path, tokens: seq<Token>, workers: nat)
    requires workers >= 1
    ensures PoolOf(env, c, path, tokens, workers).Valid()
  {
    var jobs := JobsFrom(tokens, 0);
    assert forall k :: 0 <= k < |jobs| ==> jobs[k] in jobs;
  }

  lemma {:induction false} ReturnedIsAssembled(p: Start, t: State, now: seq<Response>)
    requires p.Valid() && Inv(p, t) && t.main.Returned?
    requires AreAnswers(now, p.texts) && forall n :: n in Numbers(now) ==> n !in p.jobs
    ensures AreAnswers(now + t.received, p.texts)
    ensures Contents(SortByIndex(now + t.received)) == Gather(p.texts, Numbers(now + t.received), 0)
    ensures Numbers(now) <= Numbers(now + t.received)
    ensures !t.cancelled ==> forall n :: n in p.jobs ==> n in Numbers(now + t.received)
  {
    hide AreAnswers, Numbers, SortByIndex, Contents, Gather, Conserved;
    ReceivedAreAnswers(p, t);
    AnswersConcat(now, t.received, p.texts);
    AssembledInOrder(now + t.received, p.texts);
  }

  /** For every number of workers and every schedule: once the pool has returned, the output is an ordered
      selection of the page's pieces that misses at most includes, and without a cancellation it is the whole page. */
  lemma {:induction false} PoolRendersThePage(
    env: Env, c: Config, path: Path, input: string, workers: nat, steps: seq<Step>, t: State)
    returns (kept: set<nat>)
    requires workers >= 1
    requires
      var p := PoolOf(env, c, path, Tokens(Unescape(input)), workers);
      IsRun(p, Initial(p), steps, t) && t.main.Returned?
    ensures
      var tokens := Tokens(Unescape(input));
      && Output(env, c, path, tokens, t) == Gather(Texts(env, c, path, tokens), kept, 0)
      && (forall n :: 0 <= n < |tokens| && !(tokens[n].Esi? && tokens[n].kind == Include) ==> n in kept)
      && (!t.cancelled ==> Output(env, c, path, tokens, t) == Process(env, c, path, input).text)
  {
    hide Inv, AreAnswers, Numbers, SortByIndex, Contents, Texts, IsJob, Render, Tokens, Unescape, Gather, IsRun,
         JobsFrom, Initial, Immediate;
    var tokens := Tokens(Unescape(input));
    var p := PoolOf(env, c, path, tokens, workers);
    PoolIsValid(env, c, path, tokens, workers);
    InitialInv(p);
    RunKeepsInv(p, Initial(p), steps, t);
    var now := Immediate(tokens, p.texts, 0);
    ReturnedIsAssembled(p, t, now);
    var got := Numbers(now + t.received);
    kept := got + set n: nat | n < |tokens| && !(tokens[n].Esi? && tokens[n].kind == Include);
    forall n | 0 <= n < |tokens| && n in kept && n !in got ensures p.texts[n] == "" {
      OtherJobsShowNothing(env, c, path, tokens, n);
    }
    EmptyPiecesDoNotShow(p.texts, got, kept, 0);
    if !t.cancelled {
      GatherAll(env, c, path, tokens, kept, 0);
      assert tokens[0..] == tokens;
    }
  }
}
