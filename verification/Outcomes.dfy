/** mesi/fetch.go: how a fetch ends, and what the backends delivered, told from the steps of a run alone. */
module Outcomes {
  import opened Options
  import opened Inflight

  // ---- How one fetch ends ----

  /** The outcome a step at state `s` settles for fetch `p`: failure, the body its backend delivers, or what the cache
      holds for its key at a lookup. Other steps settle nothing. */
  function Settles(y: System, s: State, e: Step, p: Pid): Option<Outcome> {
    if e == Reject(p) || e == SlotTimeout(p) || e == Refuse(p) || e == LockTimeout(p) || e == Expire(p)
       || e == FetchFails(p) then Some(Failed)
    else if e.FetchSucceeds? && e.p == p then Some(Ok(e.body))
    else if e == Lookup(p, false) || e == Recheck(p, false) then Cached(y, s, p)
    else None
  }

  function Cached(y: System, s: State, p: Pid): Option<Outcome> {
    if p in y.jobs && y.jobs[p].key.Some? && y.jobs[p].key.value in s.cache then Some(Ok(s.cache[y.jobs[p].key.value]))
    else None
  }

  /** The outcome a fetch carries with it from where it was settled to its end. */
  function Carried(pc: Pc): Option<Outcome> {
    match pc
    case Storing(_, body) => Some(Ok(body))
    case Releasing(_, o) => Some(o)
    case Dropping(_, o) => Some(o)
    case Leaving(o) => Some(o)
    case Done(o) => Some(o)
    case _ => None
  }

  /** A step settles an outcome that is open, or leaves it as it is. */
  lemma OneStepSettles(y: System, s: State, e: Step, p: Pid)
    requires Enabled(y, s, e) && p in s.pcs
    ensures
      var next := Carried(Do(y, s, e).pcs[p]);
      if Settles(y, s, e, p).Some? then Carried(s.pcs[p]).None? && next == Settles(y, s, e, p)
      else next == Carried(s.pcs[p])
  {
    hide NextLocks, NextSlots, NextCache, NextDelivered, NextLosses, Ready, Carried;
    if !e.Evict? && e.p == p { OwnStepSettles(y, s, e); }
    if e.Evict? || e.p != p { assert Do(y, s, e).pcs[p] == s.pcs[p]; }
  }

  lemma OwnStepSettles(y: System, s: State, e: Step)
    requires Enabled(y, s, e) && !e.Evict?
    ensures
      var j, pc := y.jobs[e.p], s.pcs[e.p];
      var next := Carried(NextPc(j, s, pc, e));
      if Settles(y, s, e, e.p).Some? then Carried(pc).None? && next == Settles(y, s, e, e.p)
      else next == Carried(pc)
  {
    hide Ready;
  }

  /** Step `i` of the run settles `o` for `p`. */
  ghost predicate SettledAt(y: System, s: State, steps: seq<Step>, p: Pid, i: nat, o: Outcome) {
    i < |steps| && exists u: State :: IsRun(y, s, steps[..i], u) && Settles(y, u, steps[i], p) == Some(o)
  }

  lemma LaterStep(y: System, s: State, steps: seq<Step>, p: Pid, i: nat, o: Outcome)
    requires steps != [] && Enabled(y, s, steps[0]) && i + 1 < |steps|
    ensures SettledAt(y, Do(y, s, steps[0]), steps[1..], p, i, o) <==> SettledAt(y, s, steps, p, i + 1, o)
  {
    hide Enabled, Do, Settles;
    var rest := steps[1..];
    assert rest[i] == steps[i + 1] && steps[..i + 1][0] == steps[0] && steps[..i + 1][1..] == rest[..i];
  }

  lemma FirstStep(y: System, s: State, steps: seq<Step>, p: Pid, o: Outcome)
    requires steps != []
    ensures SettledAt(y, s, steps, p, 0, o) <==> Settles(y, s, steps[0], p) == Some(o)
  {
    hide Settles;
    assert steps[..0] == [];
    assert IsRun(y, s, [], s);
  }

  /** The outcome a run leaves a fetch with is the one it had, or the one some step settles; and every step that
      settles one settles this one. */
  lemma {:induction false} RunSettles(y: System, s: State, steps: seq<Step>, t: State, p: Pid)
    requires IsRun(y, s, steps, t) && p in s.pcs
    ensures p in t.pcs
    ensures Carried(s.pcs[p]).Some? ==> Carried(t.pcs[p]) == Carried(s.pcs[p])
    ensures Carried(s.pcs[p]).Some? ==> forall i: nat, o :: !SettledAt(y, s, steps, p, i, o)
    ensures Carried(s.pcs[p]).None? && Carried(t.pcs[p]).Some? ==>
              exists i: nat :: SettledAt(y, s, steps, p, i, Carried(t.pcs[p]).value)
    ensures forall i: nat, o :: SettledAt(y, s, steps, p, i, o) ==> Carried(t.pcs[p]) == Some(o)
    decreases |steps|
  {
    hide Settles, Carried, Enabled, Do, SettledAt;
    if steps == [] {
      NothingSettled(y, s, p);
    } else {
      var next := Do(y, s, steps[0]);
      OneStepSettles(y, s, steps[0], p);
      StaysThere(y, s, steps[0], p);
      RunSettles(y, next, steps[1..], t, p);
      forall i: nat, o | SettledAt(y, s, steps, p, i, o)
        ensures Carried(t.pcs[p]) == Some(o) && Carried(s.pcs[p]).None?
      {
        SettledInside(y, s, steps, p, i, o);
        if i == 0 { FirstStep(y, s, steps, p, o); } else { LaterStep(y, s, steps, p, i - 1, o); }
      }
      if Carried(s.pcs[p]).None? && Carried(t.pcs[p]).Some? {
        var o := Carried(t.pcs[p]).value;
        FirstStep(y, s, steps, p, o);
        if Carried(next.pcs[p]).None? {
          var i :| SettledAt(y, next, steps[1..], p, i, o);
          SettledInside(y, next, steps[1..], p, i, o);
          LaterStep(y, s, steps, p, i, o);
        }
      }
    }
  }

  lemma NothingSettled(y: System, s: State, p: Pid)
    ensures forall i: nat, o :: !SettledAt(y, s, [], p, i, o)
  {
  }

  lemma SettledInside(y: System, s: State, steps: seq<Step>, p: Pid, i: nat, o: Outcome)
    requires SettledAt(y, s, steps, p, i, o)
    ensures i < |steps|
  {
  }

  lemma StaysThere(y: System, s: State, e: Step, p: Pid)
    requires Enabled(y, s, e) && p in s.pcs
    ensures p in Do(y, s, e).pcs
  {
    hide NextPc, NextLocks, NextSlots, NextCache, NextDelivered, NextLosses, Ready, MayStep;
  }

  /** A step of its own after which a fetch can only fail. */
  predicate Defeats(e: Step, p: Pid) {
    e in {Reject(p), SlotTimeout(p), Refuse(p), LockTimeout(p), Expire(p), FetchFails(p)}
  }

  /** The body `p` gets at step `i`: from its backend, or from the cache at a lookup under its key. */
  ghost predicate GetsBody(y: System, steps: seq<Step>, p: Pid, i: nat, body: string)
    requires p in y.jobs
  {
    i < |steps| && (
      || steps[i] == FetchSucceeds(p, body)
      || ((steps[i] == Lookup(p, false) || steps[i] == Recheck(p, false)) && exists u: State ::
            && IsRun(y, Initial(y), steps[..i], u)
            && y.jobs[p].key.Some? && y.jobs[p].key.value in u.cache && u.cache[y.jobs[p].key.value] == body))
  }

  lemma {:induction false} MiddleState(y: System, s: State, steps: seq<Step>, t: State, i: nat) returns (u: State)
    requires IsRun(y, s, steps, t) && i <= |steps|
    ensures IsRun(y, s, steps[..i], u)
    decreases |steps|
  {
    hide Enabled, Do;
    if i == 0 {
      u := s;
    } else {
      u := MiddleState(y, Do(y, s, steps[0]), steps[1..], t, i - 1);
      assert steps[..i][0] == steps[0] && steps[..i][1..] == steps[1..][..i - 1];
    }
  }

  lemma {:induction false} DefeatSettles(y: System, steps: seq<Step>, t: State, p: Pid, i: nat)
    requires IsRun(y, Initial(y), steps, t) && p in y.jobs && i < |steps|
    ensures Defeats(steps[i], p) <==> SettledAt(y, Initial(y), steps, p, i, Failed)
  {
    hide IsRun, Initial;
    var u := MiddleState(y, Initial(y), steps, t, i);
  }

  lemma {:induction false} BodySettles(y: System, steps: seq<Step>, t: State, p: Pid, i: nat, body: string)
    requires IsRun(y, Initial(y), steps, t) && p in y.jobs && i < |steps|
    ensures GetsBody(y, steps, p, i, body) <==> SettledAt(y, Initial(y), steps, p, i, Ok(body))
  {
    hide IsRun, Initial;
    var u := MiddleState(y, Initial(y), steps, t, i);
  }

  /** In every run of any fetches, a finished fetch has failed exactly if one of its own steps defeated it: refused,
      late, or failed by its backend. Otherwise it returns the body it got, from its backend or from the cache, with
      or without a cache key. */
  lemma {:induction false} EndsAsSettled(y: System, steps: seq<Step>, t: State, p: Pid)
    requires IsRun(y, Initial(y), steps, t) && p in t.pcs && p in y.jobs && t.pcs[p].Done?
    ensures t.pcs[p].outcome == Failed <==> exists i :: 0 <= i < |steps| && Defeats(steps[i], p)
    ensures t.pcs[p].outcome != Failed ==> exists i: nat :: GetsBody(y, steps, p, i, t.pcs[p].outcome.body)
    ensures forall i: nat, body :: GetsBody(y, steps, p, i, body) ==> t.pcs[p].outcome == Ok(body)
  {
    hide IsRun, Settles, Enabled, GetsBody, Defeats, SettledAt;
    RunSettles(y, Initial(y), steps, t, p);
    var o := t.pcs[p].outcome;
    assert Carried(t.pcs[p]) == Some(o) && Carried(Initial(y).pcs[p]).None?;
    var i: nat :| SettledAt(y, Initial(y), steps, p, i, o);
    SettledInside(y, Initial(y), steps, p, i, o);
    if o == Failed {
      DefeatSettles(y, steps, t, p, i);
    } else {
      BodySettles(y, steps, t, p, i, o.body);
    }
    if k :| 0 <= k < |steps| && Defeats(steps[k], p) {
      DefeatSettles(y, steps, t, p, k);
    }
    forall k: nat, body | GetsBody(y, steps, p, k, body) ensures o == Ok(body) {
      GotInside(y, steps, p, k, body);
      BodySettles(y, steps, t, p, k, body);
    }
  }

  lemma GotInside(y: System, steps: seq<Step>, p: Pid, i: nat, body: string)
    requires p in y.jobs && GetsBody(y, steps, p, i, body)
    ensures i < |steps|
  {
  }

  /** What the world outside may decide, seen from where a fetch stands. */
  predicate UpToTheWorld(j: Job, pc: Pc, e: Step) {
    || (pc.Start? && (e.Reject? || e.Begin?))
    || (pc.SemWait? && e.SlotTimeout?)
    || (pc.Checking? && (e.Refuse? || if j.key.Some? then e.Lookup? else e.SkipCache?))
    || (pc.Queued? && e.LockTimeout?)
    || (pc.Holding? && (e.Expire? || e.Recheck?))
    || (pc.Fetching? && (e.FetchFails? || e.FetchSucceeds?))
    || (pc.Storing? && e.Store?)
  }

  /** In every reachable state nothing is decided for the world outside: a fetch may be rejected, refused or run out of
      time, a lookup or a store may fail or not, a backend may fail or deliver any body, an entry may be dropped. */
  lemma {:induction false} AnythingCanHappen(y: System, steps: seq<Step>, t: State, e: Step)
    requires y.Valid() && IsRun(y, Initial(y), steps, t)
    requires if e.Evict? then e.key in t.cache
             else e.p in t.pcs && e.p in y.jobs && UpToTheWorld(y.jobs[e.p], t.pcs[e.p], e)
    ensures Enabled(y, t, e)
  {
    hide IsRun, Initial, BodyInv, FlightInv, RefInv, SlotInv, MutexInv;
    if !e.Evict? {
      InitialFullInv(y);
      RunKeepsFullInv(y, Initial(y), steps, t);
      assert Refers(y.jobs[e.p], t.shared, t.pcs[e.p]);
      MayIndeed(y.jobs[e.p], t.pcs[e.p], e);
    }
  }

  lemma MayIndeed(j: Job, pc: Pc, e: Step)
    requires UpToTheWorld(j, pc, e) && (LockOf(pc).Some? ==> j.key.Some?)
    ensures MayStep(j, pc, e)
  {
  }

  // ---- What the backends delivered ----

  /** The bodies that backends delivered to fetches of `k`, in order. */
  function Arrivals(y: System, steps: seq<Step>, k: string): seq<string> {
    if steps == [] then []
    else
      (if steps[0].FetchSucceeds? && steps[0].p in y.jobs && y.jobs[steps[0].p].key == Some(k) then [steps[0].body]
       else []) + Arrivals(y, steps[1..], k)
  }

  /** How often the cache dropped the entry of `k`, or failed at the second lookup or at the store of a fetch of `k`. */
  function CacheFailures(y: System, steps: seq<Step>, k: string): nat {
    if steps == [] then 0
    else (if CacheFails(y, steps[0], k) then 1 else 0) + CacheFailures(y, steps[1..], k)
  }

  predicate CacheFails(y: System, e: Step, k: string) {
    || e == Evict(k)
    || (((e.Recheck? && e.fails) || (e.Store? && e.fails)) && e.p in y.jobs && y.jobs[e.p].key == Some(k))
  }

  lemma StepCounts(y: System, s: State, e: Step, k: string)
    requires FullInv(y, s) && Enabled(y, s, e)
    ensures Delivered(Do(y, s, e), k) == Delivered(s, k) + Arrivals(y, [e], k)
    ensures Losses(Do(y, s, e), k) == Losses(s, k) + if CacheFails(y, e, k) then 1 else 0
  {
    hide Do, Inv, FlightInv, Delivered, Losses, Ready;
    DeliveredGrows(y, s, e, k);
    LossesGrow(y, s, e, k);
    assert Arrivals(y, [], k) == [];
    if e.FetchSucceeds? { assert Genuine(y.jobs[e.p], s, s.pcs[e.p]); }
  }

  lemma {:induction false} RunCounts(y: System, s: State, steps: seq<Step>, t: State, k: string)
    requires FullInv(y, s) && IsRun(y, s, steps, t)
    ensures Delivered(t, k) == Delivered(s, k) + Arrivals(y, steps, k)
    ensures Losses(t, k) == Losses(s, k) + CacheFailures(y, steps, k)
    decreases |steps|
  {
    hide Do, Enabled, FullInv, Delivered, Losses, CacheFails;
    if steps != [] {
      var next := Do(y, s, steps[0]);
      StepKeepsFullInv(y, s, steps[0]);
      StepCounts(y, s, steps[0], k);
      RunCounts(y, next, steps[1..], t, k);
      assert Arrivals(y, [steps[0]], k) + Arrivals(y, steps[1..], k) == Arrivals(y, steps, k) by {
        assert [steps[0]][1..] == [] && Arrivals(y, [], k) == [];
      }
    }
  }

  /** Single flight, told from the steps: in every run the backends deliver for a key at most one body more than the
      cache failed it, and a fetch of the key that succeeds returns one of those delivered. */
  lemma {:induction false} OneDeliveryPerCacheFailure(y: System, steps: seq<Step>, t: State, k: string)
    requires y.Valid() && IsRun(y, Initial(y), steps, t)
    ensures |Arrivals(y, steps, k)| <= CacheFailures(y, steps, k) + 1
    ensures forall p :: p in t.pcs && p in y.jobs && y.jobs[p].key == Some(k)
                        && t.pcs[p].Done? && t.pcs[p].outcome != Failed ==>
              t.pcs[p].outcome.body in Arrivals(y, steps, k)
  {
    hide IsRun, FullInv, Arrivals, CacheFailures;
    InitialFullInv(y);
    RunCounts(y, Initial(y), steps, t, k);
    SingleFlight(y, steps, t, k);
    assert Delivered(Initial(y), k) == [] && [] + Arrivals(y, steps, k) == Arrivals(y, steps, k);
  }
}
