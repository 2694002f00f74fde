/** Whole runs of a release: what every reachable state satisfies, when every run finishes, and with which verdict. */
module ReleaseRuns {
  import opened Wrappers
  import opened Totals
  import G = Gathering
  import opened Launchers
  import opened Releases
  import opened Deadlock

  // ---------- Every reachable state ----------

  lemma {:induction false} RunKeeps(p: Plan, s: State, steps: seq<Step>, t: State)
    requires Valid(p) && Releases.Inv(p, s) && Run(p, s, steps, t)
    ensures Releases.Inv(p, t)
    ensures |steps| + Releases.Work(t) <= Releases.Work(s)
    decreases |steps|
  {
    hide Releases.Inv, Releases.Work, CanStep, Next;
    if steps != [] {
      StepKeeps(p, s, steps[0]);
      RunKeeps(p, Next(p, s, steps[0]), steps[1..], t);
    }
  }

  /** The functions running at the same time. */
  function RunningAtOnce(s: State): nat {
    Total(s.launchers, RunningNow)
  }

  /**
   The queue holds one slot for every job between its acquire and its release, never more than its capacity, so at most
   that many functions run at once; the wait group counts the jobs between `Add` and `Done`, and is never negative.
   */
  lemma SlotAccounting(p: Plan, steps: seq<Step>, t: State)
    requires Valid(p) && Run(p, Init(p), steps, t)
    ensures t.slots == Total(t.launchers, Held) <= p.capacity
    ensures RunningAtOnce(t) <= p.capacity
    ensures t.waitGroup == Total(t.launchers, WaitedFor) >= 0
  {
    InitInv(p);
    RunKeeps(p, Init(p), steps, t);
    assert t.slots == Total(t.launchers, Held) <= p.capacity;
    assert t.waitGroup == Total(t.launchers, WaitedFor);
    hide *;
    forall i | 0 <= i < |t.launchers|
      ensures RunningNow(t.launchers[i]) <= Held(t.launchers[i])
    {
      RunningHolds(t.launchers[i]);
    }
    TotalBound(t.launchers, RunningNow, Held);
    assert RunningAtOnce(t) == Total(t.launchers, RunningNow) by { RunningIsTotal(t); }
  }

  lemma RunningIsTotal(s: State)
    ensures RunningAtOnce(s) == Total(s.launchers, RunningNow)
  {
  }

  // ---------- Deadlock ----------

  /** No reachable state is stuck before the end. */
  ghost predicate DeadlockFree(p: Plan)
    requires Valid(p)
  {
    forall steps, t :: Run(p, Init(p), steps, t) && Stuck(p, t) ==> Final(t)
  }

  /** The tight bound. */
  lemma DeadlockFreeExactly(p: Plan)
    requires Valid(p)
    ensures DeadlockFree(p) <==> Sum(Needs(p)) < p.capacity
  {
    InitInv(p);
    hide Releases.Inv, Stuck, Final, Init, Valid, Needs;
    if Sum(Needs(p)) < p.capacity {
      forall steps, t | Run(p, Init(p), steps, t) && Stuck(p, t)
        ensures Final(t)
      {
        RunKeeps(p, Init(p), steps, t);
        if !Final(t) { StuckIsFull(p, t); }
      }
    } else {
      var steps, t := DeadlockReachable(p);
    }
  }

  /** Below the bound every run, whatever the interleaving, can only go on to the end, which is a bounded way off. */
  lemma EveryRunFinishes(p: Plan, steps: seq<Step>, t: State)
    requires Valid(p) && Sum(Needs(p)) < p.capacity && Run(p, Init(p), steps, t)
    ensures |steps| <= Releases.Work(Init(p))
    ensures Final(t) || exists step :: CanStep(p, t, step)
  {
    InitInv(p);
    RunKeeps(p, Init(p), steps, t);
    DeadlockFreeExactly(p);
  }

  // ---------- The verdict ----------

  /** In some step of the run a function returned an error. */
  predicate Fails(steps: seq<Step>) {
    exists k :: 0 <= k < |steps| && steps[k].Local? && steps[k].act.FnReturn? && steps[k].act.err
  }

  ghost predicate SomeErred(s: State) {
    exists l :: l in s.launchers && Erred(l)
  }

  lemma ErredStep(p: Plan, s: State, step: Step)
    requires Valid(p) && Releases.Inv(p, s) && CanStep(p, s, step)
    ensures SomeErred(Next(p, s, step)) <==> SomeErred(s) || Fails([step])
  {
    hide Erred, Launchers.Inv, OnStage, Do, CanAct;
    assert [step][0] == step;
    if step.Local? {
      var t, i := Next(p, s, step), step.i;
      ErredAct(p.deferred, s.launchers[i], step.act);
      assert t.launchers[i] == Do(p.deferred, s.launchers[i], step.act);
      if k :| 0 <= k < |s.launchers| && Erred(s.launchers[k]) {
        assert t.launchers[k] in t.launchers && Erred(t.launchers[k]);
      }
    }
  }

  lemma {:induction false} ErredRun(p: Plan, s: State, steps: seq<Step>, t: State)
    requires Valid(p) && Releases.Inv(p, s) && Run(p, s, steps, t)
    ensures SomeErred(t) <==> SomeErred(s) || Fails(steps)
    decreases |steps|
  {
    hide Releases.Inv, SomeErred, CanStep, Next;
    if steps != [] {
      StepKeeps(p, s, steps[0]);
      ErredStep(p, s, steps[0]);
      ErredRun(p, Next(p, s, steps[0]), steps[1..], t);
      assert steps == [steps[0]] + steps[1..];
      FailsSplit([steps[0]], steps[1..]);
    }
  }

  lemma FailsSplit(xs: seq<Step>, ys: seq<Step>)
    ensures Fails(xs + ys) <==> Fails(xs) || Fails(ys)
  {
    if k :| 0 <= k < |ys| && ys[k].Local? && ys[k].act.FnReturn? && ys[k].act.err {
      assert (xs + ys)[|xs| + k] == ys[k];
    }
    if k :| 0 <= k < |xs| && xs[k].Local? && xs[k].act.FnReturn? && xs[k].act.err {
      assert (xs + ys)[k] == xs[k];
    }
  }

  /** What the outer collector returns is an error exactly when some launcher has seen one. */
  lemma OuterVerdict(p: Plan, s: State)
    requires Valid(p) && Releases.Inv(p, s) && s.outer.collector.Returned?
    ensures s.outer.collector.failed <==> SomeErred(s)
  {
    hide Launchers.Inv, Erred, G.QueueInv, Over;
    assert G.AllCollected(s.outer) && (s.outer.collector.failed <==> G.AnyError(s.outer));
    forall e | 0 <= e < |s.outer.entries|
      ensures Answer(p, s, e) == Some(s.outer.entries[e].err)
    {
      assert s.outer.entries[e].HasValue();
    }
    if p.deferred {
      DeferredVerdict(p, s);
    } else {
      forall i | 0 <= i < |s.launchers|
        ensures s.outer.entries[i] == G.Collected(Erred(s.launchers[i]))
      {
        assert Answer(p, s, i) == Some(s.outer.entries[i].err);
        OverAnswer(s.launchers[i]);
      }
    }
  }

  lemma DeferredVerdict(p: Plan, s: State)
    requires Valid(p) && p.deferred && LaunchersInv(p, s.launchers) && |s.outer.entries| == Width(p)
    requires G.AllCollected(s.outer)
    requires forall e :: 0 <= e < |s.outer.entries| ==> Answer(p, s, e) == Some(s.outer.entries[e].err)
    ensures G.AnyError(s.outer) <==> SomeErred(s)
  {
    var l := s.launchers[0];
    forall e | 0 <= e < |s.outer.entries|
      ensures s.outer.entries[e] == G.Collected(true) <==> exists j :: 0 <= j && ErrAt(l.batches[e], j)
    {
      assert Answer(p, s, e) == Some(s.outer.entries[e].err);
      BatchAnswer(true, l, e);
    }
    hide ErrAt, Answer, Launchers.Inv;
    if SomeErred(s) {
      assert Erred(l);
      var b, j :| 0 <= b < |l.batches| && 0 <= j && ErrAt(l.batches[b], j);
      assert s.outer.entries[b] == G.Collected(true);
    }
    if G.AnyError(s.outer) {
      var e :| 0 <= e < |s.outer.entries| && s.outer.entries[e] == G.Collected(true);
      var j :| 0 <= j && ErrAt(l.batches[e], j);
      assert Erred(l);
    }
  }

  lemma InitNotErred(p: Plan)
    requires Valid(p)
    ensures !SomeErred(Init(p))
  {
    forall l | l in Init(p).launchers
      ensures !Erred(l)
    {
      var i :| 0 <= i < |p.sizes| && l == Init(p).launchers[i];
      NewNotErred(p.sizes[i]);
    }
  }

  /** A release returns an error exactly when, somewhere in its run, a promise's function returned one. */
  lemma Verdict(p: Plan, steps: seq<Step>, t: State)
    requires Valid(p) && Run(p, Init(p), steps, t) && t.outer.collector.Returned?
    ensures t.outer.collector.failed <==> Fails(steps)
  {
    hide *;
    InitInv(p);
    InitNotErred(p);
    RunKeeps(p, Init(p), steps, t);
    ErredRun(p, Init(p), steps, t);
    OuterVerdict(p, t);
  }

  // ---------- What happens to a promise happens once ----------

  /** What happens to a promise from its launch to its collection. */
  datatype Event = Acquires | Spawns | Returns | Meets | Releases | Finishes | Starts | Enqueues | Collects

  /** The act is that event of promise `j` of batch `b`; a collect takes the promise at the head of the result queue. */
  predicate Happens(e: Event, l: Launcher, a: Act, b: nat, j: nat) {
    match e
    case Acquires => a.Acquire? && l.at == b && l.next == j
    case Spawns => a.Spawn? && l.at == b && l.next == j
    case Returns => a.FnReturn? && a.b == b && a.j == j
    case Meets => a == Meet(b, j)
    case Releases => a == Release(b, j)
    case Finishes => a == Done(b, j)
    case Starts => a == StartReceiver(j) && l.at == b
    case Enqueues => a == Enqueue(b, j)
    case Collects =>
      a == Collect(b) && b < |l.batches| && l.batches[b].gather.queue != [] && l.batches[b].gather.queue[0] == j
  }

  /** The event is behind the promise. */
  predicate Behind(e: Event, batch: Batch, j: nat)
    requires j < |batch.jobs| && j < |batch.gather.entries|
  {
    match e
    case Acquires => JobWork(batch.jobs[j]) < 6
    case Spawns => JobWork(batch.jobs[j]) < 5
    case Returns => JobWork(batch.jobs[j]) < 4
    case Meets => JobWork(batch.jobs[j]) < 3
    case Releases => JobWork(batch.jobs[j]) < 2
    case Finishes => JobWork(batch.jobs[j]) < 1
    case Starts => G.EntryWork(batch.gather.entries[j]) < 4
    case Enqueues => G.EntryWork(batch.gather.entries[j]) < 2
    case Collects => G.EntryWork(batch.gather.entries[j]) < 1
  }

  predicate PromiseIs(l: Launcher, b: nat, j: nat) {
    JobIs(l, b, j) && j < |l.batches[b].gather.entries|
  }

  function Num(p: bool): nat {
    if p then 1 else 0
  }

  /** The promise takes the step of the act, if it is its own, and no other. */
  ghost predicate Advances(e: Event, l: Launcher, a: Act, b: nat, batch': Batch, j: nat)
    requires PromiseIs(l, b, j)
  {
    && |batch'.jobs| == |l.batches[b].jobs| && |batch'.gather.entries| == |l.batches[b].gather.entries|
    && Num(Behind(e, batch', j)) == Num(Behind(e, l.batches[b], j)) + Num(Happens(e, l, a, b, j))
  }

  lemma JobAdvances(deferred: bool, l: Launcher, a: Act, e: Event, j: nat)
    requires CanAct(deferred, l, a) && PromiseIs(l, BatchOf(l, a), j)
    requires a.Acquire? || a.Spawn? || a.FnReturn? || a.Release? || a.Done?
    ensures Advances(e, l, a, BatchOf(l, a), DoBatch(deferred, l, a), j)
  {
  }

  lemma EntryAdvances(deferred: bool, l: Launcher, a: Act, e: Event, j: nat)
    requires CanAct(deferred, l, a) && PromiseIs(l, BatchOf(l, a), j)
    requires a.Meet? || a.StartReceiver? || a.Enqueue?
    ensures Advances(e, l, a, BatchOf(l, a), DoBatch(deferred, l, a), j)
  {
  }

  lemma CollectorAdvances(deferred: bool, l: Launcher, a: Act, e: Event, j: nat)
    requires CanAct(deferred, l, a) && PromiseIs(l, BatchOf(l, a), j)
    requires a.Collect? || a.Return? || a.StartCollector? || a.Proceed?
    ensures Advances(e, l, a, BatchOf(l, a), DoBatch(deferred, l, a), j)
  {
  }

  lemma HappensHere(e: Event, l: Launcher, a: Act, b: nat, j: nat)
    requires Happens(e, l, a, b, j)
    ensures b == BatchOf(l, a)
  {
  }

  lemma OthersStand(e: Event, l: Launcher, a: Act, b: nat, j: nat)
    requires PromiseIs(l, b, j) && b != BatchOf(l, a)
    ensures Advances(e, l, a, b, l.batches[b], j)
  {
    if Happens(e, l, a, b, j) { HappensHere(e, l, a, b, j); }
    hide Happens, Behind;
  }

  lemma ActAdvances(deferred: bool, l: Launcher, a: Act, e: Event, b: nat, j: nat)
    requires Launchers.Inv(deferred, l) && CanAct(deferred, l, a) && PromiseIs(l, b, j)
    ensures var l' := Do(deferred, l, a); |l'.batches| == |l.batches| && Advances(e, l, a, b, l'.batches[b], j)
  {
    hide Launchers.Inv, CanAct, Do, DoBatch, BatchOf, Happens, Behind, Advances, Num;
    InvBounds(deferred, l, a);
    DoBatches(deferred, l, a);
    if b != BatchOf(l, a) {
      OthersStand(e, l, a, b, j);
    } else if a.Acquire? || a.Spawn? || a.FnReturn? || a.Release? || a.Done? {
      JobAdvances(deferred, l, a, e, j);
    } else if a.Meet? || a.StartReceiver? || a.Enqueue? {
      EntryAdvances(deferred, l, a, e, j);
    } else {
      CollectorAdvances(deferred, l, a, e, j);
    }
  }

  /** How often an event of a promise of launcher `i` happens in the steps taken from `s`. */
  function Count(p: Plan, s: State, steps: seq<Step>, e: Event, i: nat, b: nat, j: nat): nat
    decreases |steps|
  {
    if steps == [] || !CanStep(p, s, steps[0]) then 0
    else
      Num(steps[0].Local? && steps[0].i == i && Happens(e, s.launchers[i], steps[0].act, b, j))
      + Count(p, Next(p, s, steps[0]), steps[1..], e, i, b, j)
  }

  lemma StepAdvances(p: Plan, s: State, step: Step, e: Event, i: nat, b: nat, j: nat)
    requires Valid(p) && Releases.Inv(p, s) && CanStep(p, s, step)
    requires i < |s.launchers| && PromiseIs(s.launchers[i], b, j)
    ensures var t := Next(p, s, step);
            && i < |t.launchers| && PromiseIs(t.launchers[i], b, j)
            && Num(Behind(e, t.launchers[i].batches[b], j))
               == Num(Behind(e, s.launchers[i].batches[b], j))
                  + Num(step.Local? && step.i == i && Happens(e, s.launchers[i], step.act, b, j))
  {
    if step.Local? && step.i == i { ActAdvances(p.deferred, s.launchers[i], step.act, e, b, j); }
    hide Launchers.Inv, CanAct, Do, OnStage, OuterInv, Happens, Behind;
  }

  lemma {:induction false} CountIsChange(p: Plan, s: State, steps: seq<Step>, t: State, e: Event, i: nat, b: nat,
                                         j: nat)
    requires Valid(p) && Releases.Inv(p, s) && Run(p, s, steps, t)
    requires i < |s.launchers| && PromiseIs(s.launchers[i], b, j)
    ensures i < |t.launchers| && PromiseIs(t.launchers[i], b, j)
    ensures Num(Behind(e, t.launchers[i].batches[b], j))
            == Num(Behind(e, s.launchers[i].batches[b], j)) + Count(p, s, steps, e, i, b, j)
    decreases |steps|
  {
    hide Releases.Inv, CanStep, Next, Behind, Happens, PromiseIs, Releases.Work, Num;
    if steps != [] {
      StepKeeps(p, s, steps[0]);
      StepAdvances(p, s, steps[0], e, i, b, j);
      CountIsChange(p, Next(p, s, steps[0]), steps[1..], t, e, i, b, j);
    }
  }

  /** The batches a launcher went through: all but those after one that failed. */
  predicate Begun(l: Launcher, b: nat) {
    l.failed ==> b <= l.at
  }

  lemma EndOfCollectors(p: Plan, t: State, i: nat, b: nat)
    requires Valid(p) && Releases.Inv(p, t) && Final(t)
    requires i < |t.launchers| && b < |t.launchers[i].batches| && Begun(t.launchers[i], b)
    ensures t.launchers[i].batches[b].gather.collector.Returned?
  {
    var l := t.launchers[i];
    assert AtRest(l);
    assert BatchInv(p.deferred, l.at, l.next, l.failed, b, l.batches[b]);
    if p.deferred {
      assert l.failed ==> BatchInv(p.deferred, l.at, l.next, l.failed, l.at, l.batches[l.at]);
      assert G.AllCollected(t.outer);
      assert t.outer.entries[b].HasValue();
      assert Answer(p, t, b).Some?;
    }
  }

  lemma EndOfBatch(deferred: bool, l: Launcher, b: nat, j: nat)
    requires Launchers.Inv(deferred, l) && AtRest(l) && JobIs(l, b, j)
    requires Begun(l, b) ==> l.batches[b].gather.collector.Returned?
    ensures |l.batches[b].gather.entries| == |l.batches[b].jobs|
    ensures var job, e := l.batches[b].jobs[j], l.batches[b].gather.entries[j];
            if Begun(l, b) then job.Finished? && e.Collected? else job.Idle? && e.Idle?
  {
    var batch := l.batches[b];
    assert BatchInv(deferred, l.at, l.next, l.failed, b, batch);
    assert Fits(batch.jobs[j], batch.gather.entries[j]);
    if Begun(l, b) { assert G.AllCollected(batch.gather); }
  }

  /**
   Every promise of the batches the launcher went through has been collected and its job is finished, and the batches
   after a failed one were never begun.
   */
  ghost predicate Accounted(l: Launcher) {
    forall b, j :: 0 <= b && 0 <= j && JobIs(l, b, j) ==>
      && |l.batches[b].gather.entries| == |l.batches[b].jobs|
      && var job, e := l.batches[b].jobs[j], l.batches[b].gather.entries[j];
         if Begun(l, b) then job.Finished? && e.Collected? else job.Idle? && e.Idle?
  }

  /** When a release is over, all its promises are accounted for, no slot is held and the wait group counts nobody. */
  lemma EndOfRun(p: Plan, steps: seq<Step>, t: State)
    requires Valid(p) && Run(p, Init(p), steps, t) && Final(t)
    ensures t.slots == t.waitGroup == 0
    ensures forall l :: l in t.launchers ==> Accounted(l)
  {
    InitInv(p);
    RunKeeps(p, Init(p), steps, t);
    FinalIsFree(p, t);
    hide Launchers.Inv, OuterInv, AtRest, Begun, Held, WaitedFor, Run, Init;
    forall i, b, j | 0 <= i < |t.launchers| && 0 <= b && 0 <= j && JobIs(t.launchers[i], b, j)
      ensures |t.launchers[i].batches[b].gather.entries| == |t.launchers[i].batches[b].jobs|
      ensures var job, e := t.launchers[i].batches[b].jobs[j], t.launchers[i].batches[b].gather.entries[j];
              if Begun(t.launchers[i], b) then job.Finished? && e.Collected? else job.Idle? && e.Idle?
    {
      if Begun(t.launchers[i], b) { EndOfCollectors(p, t, i, b); }
      EndOfBatch(p.deferred, t.launchers[i], b, j);
    }
  }

  lemma InitPromise(p: Plan, i: nat, b: nat, j: nat)
    requires Valid(p) && i < |p.sizes| && b < |p.sizes[i]| && j < p.sizes[i][b]
    ensures PromiseIs(Init(p).launchers[i], b, j)
    ensures forall e :: !Behind(e, Init(p).launchers[i].batches[b], j)
  {
  }

  /**
   Nothing happens to a promise twice, in any run: it takes a slot, is spawned, has its function return, its value
   received, its slot released and the wait group told, has its receiver started, its result handed to the collector and
   taken by it, each at most once. When the release is over, each happened exactly once in the batches gone through, and
   never in those after a failed one.
   */
  lemma OnceEach(p: Plan, steps: seq<Step>, t: State, e: Event, i: nat, b: nat, j: nat)
    requires Valid(p) && Run(p, Init(p), steps, t) && i < |p.sizes| && b < |p.sizes[i]| && j < p.sizes[i][b]
    ensures Count(p, Init(p), steps, e, i, b, j) <= 1
    ensures i < |t.launchers|
    ensures Final(t) ==> Count(p, Init(p), steps, e, i, b, j) == if Begun(t.launchers[i], b) then 1 else 0
  {
    InitInv(p);
    InitPromise(p, i, b, j);
    InitLaunchers(p);
    hide Releases.Inv, Init, Run, Count, PromiseIs;
    CountIsChange(p, Init(p), steps, t, e, i, b, j);
    if Final(t) {
      EndOfRun(p, steps, t);
      EndOfPromise(t.launchers[i], e, b, j);
    }
  }

  lemma InitLaunchers(p: Plan)
    requires Valid(p)
    ensures |Init(p).launchers| == |p.sizes|
  {
  }

  lemma EndOfPromise(l: Launcher, e: Event, b: nat, j: nat)
    requires Accounted(l) && PromiseIs(l, b, j)
    ensures Behind(e, l.batches[b], j) <==> Begun(l, b)
  {
    assert JobIs(l, b, j);
    hide Begun;
  }
}
