/**
 The `mapPool` helper of `rewrite-system-prompt.ts` (and of `audit.ts`) as a state machine.

 Workers share one counter.  A worker takes the next index, waits for the call on that item, stores
 the result and comes back; the steps of different workers interleave in any order.
 */
module WorkerPool {
  import opened Wrappers

  datatype Worker = Idle | Busy(index: nat) | Finished

  /** `started` lists the calls made so far, in order. */
  datatype Pool<R> = Pool(next: nat, workers: seq<Worker>, results: seq<Option<R>>, started: seq<nat>)

  datatype Step = Claim(worker: nat) | Resolve(worker: nat)

  function Min(a: int, b: int): int { if a < b then a else b }

  /** How many workers there are; at least one even for a limit below one. */
  function Width(limit: int, items: nat): nat {
    if Min(limit, items) < 1 then 1 else Min(limit, items)
  }

  function Initial<R>(width: nat, items: nat): Pool<R> {
    Pool(0, seq(width, _ => Idle), seq(items, _ => None), [])
  }

  /** One atomic step; `call(i)` is whatever the call on item `i` resolves to. */
  function Next<R>(p: Pool<R>, step: Step, call: nat -> R): Pool<R> {
    if step.worker >= |p.workers| then p
    else
      var w := step.worker;
      match (step, p.workers[w])
      case (Claim(_), Idle) =>
        var i := p.next;
        if i >= |p.results| then p.(next := i + 1, workers := p.workers[w := Finished])
        else p.(next := i + 1, workers := p.workers[w := Busy(i)], started := p.started + [i])
      case (Resolve(_), Busy(i)) =>
        if i < |p.results| then p.(results := p.results[i := Some(call(i))], workers := p.workers[w := Idle])
        else p
      case _ => p
  }

  function Run<R>(p: Pool<R>, steps: seq<Step>, call: nat -> R): Pool<R> {
    if steps == [] then p else Next(Run(p, steps[..|steps| - 1], call), steps[|steps| - 1], call)
  }

  predicate AllFinished<R>(p: Pool<R>) {
    forall w :: 0 <= w < |p.workers| ==> p.workers[w].Finished?
  }

  /** The calls in flight. */
  function InFlight(workers: seq<Worker>): nat {
    if workers == [] then 0
    else InFlight(workers[..|workers| - 1]) + if workers[|workers| - 1].Busy? then 1 else 0
  }

  function Claimed<R>(p: Pool<R>): nat {
    if p.next < |p.results| then p.next else |p.results|
  }

  ghost predicate Disjoint(workers: seq<Worker>) {
    forall v, w :: 0 <= v < w < |workers| && workers[v].Busy? && workers[w].Busy? ==> workers[v].index != workers[w].index
  }

  ghost predicate IsBusyOn(workers: seq<Worker>, i: nat) {
    exists w :: 0 <= w < |workers| && workers[w] == Busy(i)
  }

  /** Indices are handed out in order; each one handed out is in flight or has its own result. */
  ghost predicate Sound<R(!new)>(p: Pool<R>, items: nat, call: nat -> R) {
    && |p.results| == items
    && |p.started| == Claimed(p) && (forall i :: 0 <= i < |p.started| ==> p.started[i] == i)
    && Disjoint(p.workers)
    && (forall w :: 0 <= w < |p.workers| && p.workers[w].Busy? ==> p.workers[w].index < Claimed(p))
    && (forall i :: 0 <= i < items ==>
          p.results[i] == if i < Claimed(p) && !IsBusyOn(p.workers, i) then Some(call(i)) else None)
    && (forall w :: 0 <= w < |p.workers| && p.workers[w].Finished? ==> p.next > items)
  }

  lemma {:induction false} BusyAfterUpdate(workers: seq<Worker>, w: nat, now: Worker, i: nat)
    requires w < |workers| && Disjoint(workers)
    ensures IsBusyOn(workers[w := now], i) <==>
            (now == Busy(i) || (workers[w] != Busy(i) && IsBusyOn(workers, i)))
  {
    var after := workers[w := now];
    if v :| 0 <= v < |after| && after[v] == Busy(i) && v != w {
      assert workers[v] == Busy(i);
    }
    if v :| 0 <= v < |workers| && workers[v] == Busy(i) && v != w {
      assert after[v] == Busy(i);
    }
    if now == Busy(i) {
      assert after[w] == Busy(i);
    }
  }

  lemma {:induction false} ClaimKeepsSound<R(!new)>(p: Pool<R>, w: nat, items: nat, call: nat -> R)
    requires Sound(p, items, call) && w < |p.workers| && p.workers[w].Idle?
    ensures Sound(Next(p, Claim(w), call), items, call)
  {
    var now := if p.next >= items then Finished else Busy(p.next);
    forall i | 0 <= i < items
      ensures IsBusyOn(p.workers[w := now], i) <==> (now == Busy(i) || IsBusyOn(p.workers, i))
    {
      BusyAfterUpdate(p.workers, w, now, i);
    }
  }

  lemma {:induction false} ResolveKeepsSound<R(!new)>(p: Pool<R>, w: nat, items: nat, call: nat -> R)
    requires Sound(p, items, call) && w < |p.workers| && p.workers[w].Busy?
    ensures Sound(Next(p, Resolve(w), call), items, call)
  {
    var done := p.workers[w].index;
    forall i | 0 <= i < items
      ensures IsBusyOn(p.workers[w := Idle], i) <==> (i != done && IsBusyOn(p.workers, i))
    {
      BusyAfterUpdate(p.workers, w, Idle, i);
    }
    assert p.workers[w] == Busy(done);
    assert IsBusyOn(p.workers, done);
  }

  lemma {:induction false} InitialIsSound<R(!new)>(width: nat, items: nat, call: nat -> R)
    ensures Sound<R>(Initial(width, items), items, call)
  {
  }

  lemma {:induction false} RunKeepsSound<R(!new)>(p: Pool<R>, steps: seq<Step>, items: nat, call: nat -> R)
    requires Sound(p, items, call)
    ensures Sound(Run(p, steps, call), items, call) && |Run(p, steps, call).workers| == |p.workers|
  {
    if steps != [] {
      var n := |steps| - 1;
      RunKeepsSound(p, steps[..n], items, call);
      StepKeepsSound(Run(p, steps[..n], call), steps[n], items, call);
    }
  }

  lemma {:induction false} StepKeepsSound<R(!new)>(p: Pool<R>, step: Step, items: nat, call: nat -> R)
    requires Sound(p, items, call)
    ensures Sound(Next(p, step, call), items, call) && |Next(p, step, call).workers| == |p.workers|
  {
    if step.worker < |p.workers| {
      if step.Claim? && p.workers[step.worker].Idle? {
        ClaimKeepsSound(p, step.worker, items, call);
      } else if step.Resolve? && p.workers[step.worker].Busy? {
        ResolveKeepsSound(p, step.worker, items, call);
      }
    }
  }

  lemma {:induction false} InFlightBound(workers: seq<Worker>)
    ensures InFlight(workers) <= |workers|
  {
    if workers != [] {
      InFlightBound(workers[..|workers| - 1]);
    }
  }

  /** For every interleaving: no index is handed to two calls, the calls start in item order, and
      no more than the limit are ever in flight. */
  lemma {:induction false} EachIndexIsCalledOnce<R(!new)>(limit: int, items: nat, steps: seq<Step>, call: nat -> R)
    ensures var p: Pool<R> := Run(Initial(Width(limit, items), items), steps, call);
            && |p.started| <= items && (forall i :: 0 <= i < |p.started| ==> p.started[i] == i)
            && InFlight(p.workers) <= Width(limit, items)
            && (limit >= 1 ==> InFlight(p.workers) <= limit)
  {
    InitialIsSound<R>(Width(limit, items), items, call);
    RunKeepsSound<R>(Initial(Width(limit, items), items), steps, items, call);
    InFlightBound(Run<R>(Initial(Width(limit, items), items), steps, call).workers);
  }

  /** For every interleaving: when all workers are finished the pool holds the sequential map. */
  lemma {:induction false} PoolIsSequentialMap<R(!new)>(limit: int, items: nat, steps: seq<Step>, call: nat -> R)
    requires AllFinished(Run<R>(Initial(Width(limit, items), items), steps, call))
    ensures var p: Pool<R> := Run(Initial(Width(limit, items), items), steps, call);
            && p.results == seq(items, i requires 0 <= i < items => Some(call(i)))
            && |p.started| == items
  {
    InitialIsSound<R>(Width(limit, items), items, call);
    RunKeepsSound<R>(Initial(Width(limit, items), items), steps, items, call);
    var p: Pool<R> := Run(Initial(Width(limit, items), items), steps, call);
    assert p.workers[0].Finished?;
    forall i | 0 <= i < items ensures p.results[i] == Some(call(i)) {
      assert !IsBusyOn(p.workers, i);
    }
  }

  // ----- No schedule runs for ever

  function Spent(workers: seq<Worker>): nat {
    if workers == [] then 0
    else Spent(workers[..|workers| - 1]) +
         match workers[|workers| - 1] case Idle => 0 case Busy(_) => 1 case Finished => 1
  }

  /** Whether a step does something. */
  predicate Enabled<R>(p: Pool<R>, step: Step) {
    && step.worker < |p.workers|
    && if step.Claim? then p.workers[step.worker].Idle? else p.workers[step.worker].Busy?
  }

  ghost predicate Effective<R>(p: Pool<R>, steps: seq<Step>, call: nat -> R) {
    forall k :: 0 <= k < |steps| ==> Enabled(Run(p, steps[..k], call), steps[k])
  }

  lemma {:induction false} SpentUpdate(workers: seq<Worker>, w: nat, now: Worker)
    requires w < |workers|
    ensures Spent(workers[w := now]) + (if workers[w].Idle? then 0 else 1) == Spent(workers) + (if now.Idle? then 0 else 1)
  {
    var n := |workers| - 1;
    if w == n {
      assert workers[w := now][..n] == workers[..n];
    } else {
      assert workers[w := now][..n] == workers[..n][w := now];
      SpentUpdate(workers[..n], w, now);
    }
  }

  lemma {:induction false} SpentBound(workers: seq<Worker>)
    ensures Spent(workers) <= |workers|
    ensures (forall w :: 0 <= w < |workers| ==> workers[w].Idle?) ==> Spent(workers) == 0
  {
    if workers != [] {
      SpentBound(workers[..|workers| - 1]);
    }
  }

  lemma {:induction false} EffectivePrefix<R>(p: Pool<R>, steps: seq<Step>, call: nat -> R)
    requires steps != [] && Effective(p, steps, call)
    ensures Effective(p, steps[..|steps| - 1], call)
    ensures Enabled(Run(p, steps[..|steps| - 1], call), steps[|steps| - 1])
  {
    var front := steps[..|steps| - 1];
    forall k | 0 <= k < |front| ensures Enabled(Run(p, front[..k], call), front[k]) {
      assert front[..k] == steps[..k];
    }
  }

  /** The number of steps taken follows from the counter and the workers in flight or retired. */
  ghost predicate Counted<R>(p: Pool<R>, items: nat, taken: nat) {
    taken + Spent(p.workers) == 2 * p.next && p.next <= items + FinishedCount(p.workers)
  }

  lemma {:induction false} StepsAreCounted<R(!new)>(p: Pool<R>, items: nat, steps: seq<Step>, call: nat -> R)
    requires Sound(p, items, call) && Counted(p, items, 0) && Effective(p, steps, call)
    ensures Counted(Run(p, steps, call), items, |steps|)
  {
    if steps != [] {
      var front := steps[..|steps| - 1];
      EffectivePrefix(p, steps, call);
      StepsAreCounted(p, items, front, call);
      RunKeepsSound(p, front, items, call);
      CountStep(Run(p, front, call), steps[|steps| - 1], items, |front|, call);
    }
  }

  function FinishedCount(workers: seq<Worker>): nat {
    if workers == [] then 0
    else FinishedCount(workers[..|workers| - 1]) + if workers[|workers| - 1].Finished? then 1 else 0
  }

  lemma {:induction false} FinishedUpdate(workers: seq<Worker>, w: nat, now: Worker)
    requires w < |workers|
    ensures FinishedCount(workers[w := now]) + (if workers[w].Finished? then 1 else 0)
            == FinishedCount(workers) + (if now.Finished? then 1 else 0)
  {
    var n := |workers| - 1;
    if w == n {
      assert workers[w := now][..n] == workers[..n];
    } else {
      assert workers[w := now][..n] == workers[..n][w := now];
      FinishedUpdate(workers[..n], w, now);
    }
  }

  lemma {:induction false} FinishedBound(workers: seq<Worker>)
    ensures FinishedCount(workers) <= |workers|
  {
    if workers != [] {
      FinishedBound(workers[..|workers| - 1]);
    }
  }

  lemma {:induction false} CountStep<R(!new)>(p: Pool<R>, step: Step, items: nat, taken: nat, call: nat -> R)
    requires Enabled(p, step) && |p.results| == items && Counted(p, items, taken)
    requires forall w :: 0 <= w < |p.workers| && p.workers[w].Busy? ==> p.workers[w].index < items
    ensures Counted(Next(p, step, call), items, taken + 1)
  {
    var now := if step.Resolve? then Idle else if p.next >= items then Finished else Busy(p.next);
    SpentUpdate(p.workers, step.worker, now);
    FinishedUpdate(p.workers, step.worker, now);
  }

  /** At most two steps per item and one or two to retire each worker: every schedule ends. */
  lemma {:induction false} SchedulesAreBounded<R(!new)>(limit: int, items: nat, steps: seq<Step>, call: nat -> R)
    requires Effective<R>(Initial(Width(limit, items), items), steps, call)
    ensures |steps| <= 2 * (items + Width(limit, items))
  {
    var p: Pool<R> := Initial(Width(limit, items), items);
    InitialIsSound<R>(Width(limit, items), items, call);
    SpentBound(p.workers);
    StepsAreCounted(p, items, steps, call);
    RunKeepsSound(p, steps, items, call);
    FinishedBound(Run(p, steps, call).workers);
  }

  // ----- The pool of `audit.ts`

  /** There is no lower bound on the number of workers: with a limit below one there is none. */
  function AuditWidth(limit: int, items: nat): nat {
    if Min(limit, items) < 0 then 0 else Min(limit, items)
  }

  /** The counter is tested before it is taken, and so stops at the number of items. */
  function AuditNext<R>(p: Pool<R>, step: Step, call: nat -> R): Pool<R> {
    if step.worker >= |p.workers| then p
    else
      var w := step.worker;
      match (step, p.workers[w])
      case (Claim(_), Idle) =>
        if p.next < |p.results| then
          p.(next := p.next + 1, workers := p.workers[w := Busy(p.next)], started := p.started + [p.next])
        else p.(workers := p.workers[w := Finished])
      case (Resolve(_), Busy(i)) =>
        if i < |p.results| then p.(results := p.results[i := Some(call(i))], workers := p.workers[w := Idle])
        else p
      case _ => p
  }

  function AuditRun<R>(p: Pool<R>, steps: seq<Step>, call: nat -> R): Pool<R> {
    if steps == [] then p else AuditNext(AuditRun(p, steps[..|steps| - 1], call), steps[|steps| - 1], call)
  }

  function Capped<R>(p: Pool<R>): Pool<R> {
    p.(next := Claimed(p))
  }

  /** But for its counter it takes the same steps. */
  lemma {:induction false} AuditRunIsCapped<R>(p: Pool<R>, steps: seq<Step>, call: nat -> R)
    ensures AuditRun(Capped(p), steps, call) == Capped(Run(p, steps, call))
  {
    if steps != [] {
      AuditRunIsCapped(p, steps[..|steps| - 1], call);
    }
  }

  ghost predicate HoldsMap<R(!new)>(p: Pool<R>, items: nat, call: nat -> R) {
    p.results == seq(items, i requires 0 <= i < items => Some(call(i))) && |p.started| == items
  }

  /** If this schedule ends, the pool holds the sequential map. */
  ghost predicate EndsWithMap<R(!new)>(limit: int, items: nat, steps: seq<Step>, call: nat -> R) {
    var p: Pool<R> := AuditRun(Initial(AuditWidth(limit, items), items), steps, call);
    AllFinished(p) ==> HoldsMap(p, items, call)
  }

  lemma {:induction false} AuditPoolHoldsMap<R(!new)>(limit: int, items: nat, steps: seq<Step>, call: nat -> R)
    requires limit >= 1 || items == 0
    ensures EndsWithMap(limit, items, steps, call)
  {
    var start: Pool<R> := Initial(AuditWidth(limit, items), items);
    assert Capped(start) == start;
    AuditRunIsCapped(start, steps, call);
    if AllFinished(AuditRun(start, steps, call)) {
      if items > 0 {
        assert AuditWidth(limit, items) == Width(limit, items);
        PoolIsSequentialMap<R>(limit, items, steps, call);
      } else {
        InitialIsSound<R>(AuditWidth(limit, items), items, call);
        RunKeepsSound<R>(start, steps, items, call);
      }
    }
  }

  /** Without a worker the pool is finished before it has called anything. */
  lemma {:induction false} NoWorkersNoResults<R(!new)>(limit: int, items: nat, call: nat -> R)
    requires limit < 1 && items > 0
    ensures !EndsWithMap(limit, items, [], call)
  {
    var p: Pool<R> := AuditRun(Initial(AuditWidth(limit, items), items), [], call);
    assert p.workers == [] && p.results[0] == None;
    var whole := seq(items, i requires 0 <= i < items => Some(call(i)));
    assert whole[0] == Some(call(0));
  }

  /** Every schedule of this pool that ends holds the sequential map, if and only if the limit is at least
      one or there is nothing to do. */
  lemma {:induction false} AuditPoolIsSequentialMapExactly<R(!new)>(limit: int, items: nat, call: nat -> R)
    ensures (forall steps :: EndsWithMap(limit, items, steps, call)) <==> (limit >= 1 || items == 0)
  {
    if limit >= 1 || items == 0 {
      forall steps ensures EndsWithMap(limit, items, steps, call) {
        AuditPoolHoldsMap(limit, items, steps, call);
      }
    } else {
      NoWorkersNoResults(limit, items, call);
    }
  }
}
