/** How many functions return in a run of a release, batch by batch, read off the steps alone. */
module ReleaseCounts {
  import opened Wrappers
  import opened Totals
  import G = Gathering
  import opened Launchers
  import opened Releases
  import opened ReleaseRuns

  /** A function of batch `b` of launcher `i` returns. */
  predicate IsReturn(step: Step, i: nat, b: nat) {
    step.Local? && step.i == i && step.act.FnReturn? && step.act.b == b
  }

  function ReturnsOf(steps: seq<Step>, i: nat, b: nat): nat {
    if steps == [] then 0 else Num(IsReturn(steps[0], i, b)) + ReturnsOf(steps[1..], i, b)
  }

  /** The functions that return, whichever they are. */
  function AllReturns(steps: seq<Step>): nat {
    if steps == [] then 0 else Num(steps[0].Local? && steps[0].act.FnReturn?) + AllReturns(steps[1..])
  }

  /** A function of batch `b` of launcher `i` returns an error. */
  predicate FailsIn(steps: seq<Step>, i: nat, b: nat) {
    exists k :: 0 <= k < |steps| && IsReturn(steps[k], i, b) && steps[k].act.err
  }

  lemma FailsInIs(steps: seq<Step>, i: nat, b: nat)
    ensures FailsIn(steps, i, b) <==> exists j :: Local(i, FnReturn(b, j, true)) in steps
  {
    if j :| Local(i, FnReturn(b, j, true)) in steps {
      var k :| 0 <= k < |steps| && steps[k] == Local(i, FnReturn(b, j, true));
      assert IsReturn(steps[k], i, b);
    }
    if k :| 0 <= k < |steps| && IsReturn(steps[k], i, b) && steps[k].act.err {
      assert steps[k] == Local(i, FnReturn(b, steps[k].act.j, true));
    }
  }

  // ---------- Functions that have returned, in a state ----------

  function Past(job: Job): nat {
    Num(JobWork(job) < 4)
  }

  function PastIn(batch: Batch): nat {
    Total(batch.jobs, Past)
  }

  function PastOf(l: Launcher): nat {
    Total(l.batches, PastIn)
  }

  function PastAll(s: State): nat {
    Total(s.launchers, PastOf)
  }

  lemma PastChange(batch: Batch, j: nat, job: Job)
    requires j < |batch.jobs|
    ensures PastIn(SetJob(batch, j, job)) + Past(batch.jobs[j]) == PastIn(batch) + Past(job)
  {
    TotalUpdate(batch.jobs, j, job, Past);
  }

  lemma PastSame(batch: Batch, batch': Batch)
    requires batch'.jobs == batch.jobs
    ensures PastIn(batch') == PastIn(batch)
  {
  }

  lemma PastDo(deferred: bool, l: Launcher, a: Act)
    requires CanAct(deferred, l, a) && BatchOf(l, a) < |l.batches|
    ensures PastIn(DoBatch(deferred, l, a)) == PastIn(l.batches[BatchOf(l, a)]) + Num(a.FnReturn?)
  {
    hide PastIn;
    var batch := l.batches[BatchOf(l, a)];
    match a
    case Acquire => PastChange(batch, l.next, Acquired);
    case Spawn => PastChange(batch, l.next, Running);
    case FnReturn(_, j, err) => PastChange(batch, j, Sending(err));
    case Meet(_, j) =>
      PastChange(batch, j, Releasing);
      PastSame(SetJob(batch, j, Releasing), DoBatch(deferred, l, a));
    case Release(_, j) => PastChange(batch, j, Released);
    case Done(_, j) => PastChange(batch, j, Finished);
    case _ => PastSame(batch, DoBatch(deferred, l, a));
  }

  lemma ReturnInBatch(l: Launcher, a: Act)
    ensures a.FnReturn? ==> BatchOf(l, a) == a.b
  {
  }

  lemma PastAct(deferred: bool, l: Launcher, a: Act, b: nat)
    requires Launchers.Inv(deferred, l) && CanAct(deferred, l, a)
    ensures var l' := Do(deferred, l, a);
            && |l'.batches| == |l.batches|
            && PastOf(l') == PastOf(l) + Num(a.FnReturn?)
            && (b < |l.batches| ==> PastIn(l'.batches[b]) == PastIn(l.batches[b]) + Num(a.FnReturn? && a.b == b))
            && (a.FnReturn? && a.b == b ==> b < |l.batches|)
  {
    hide *;
    InvBounds(deferred, l, a);
    DoBatches(deferred, l, a);
    PastDo(deferred, l, a);
    ReturnInBatch(l, a);
    PastOfIs(l);
    PastOfIs(Do(deferred, l, a));
    NumIs(a.FnReturn?);
    NumIs(a.FnReturn? && a.b == b);
    TotalUpdate(l.batches, BatchOf(l, a), DoBatch(deferred, l, a), PastIn);
  }

  lemma PastOfIs(l: Launcher)
    ensures PastOf(l) == Total(l.batches, PastIn)
  {
  }

  lemma NumIs(p: bool)
    ensures Num(p) == if p then 1 else 0
  {
  }

  /** What launcher `i` has in batch `b`, if there is one. */
  function PastAt(s: State, i: nat, b: nat): nat {
    if i < |s.launchers| && b < |s.launchers[i].batches| then PastIn(s.launchers[i].batches[b]) else 0
  }

  lemma PastStep(p: Plan, s: State, step: Step, i: nat, b: nat)
    requires Valid(p) && Releases.Inv(p, s) && CanStep(p, s, step)
    ensures PastAt(Next(p, s, step), i, b) == PastAt(s, i, b) + Num(IsReturn(step, i, b))
    ensures PastAll(Next(p, s, step)) == PastAll(s) + Num(step.Local? && step.act.FnReturn?)
  {
    hide Launchers.Inv, CanAct, Do, OnStage, OuterInv, PastIn, PastOf;
    if step.Local? {
      var l, l' := s.launchers[step.i], Do(p.deferred, s.launchers[step.i], step.act);
      PastAct(p.deferred, l, step.act, b);
      TotalUpdate(s.launchers, step.i, l', PastOf);
    }
  }

  lemma {:induction false} PastRun(p: Plan, s: State, steps: seq<Step>, t: State, i: nat, b: nat)
    requires Valid(p) && Releases.Inv(p, s) && Run(p, s, steps, t)
    ensures PastAt(t, i, b) == PastAt(s, i, b) + ReturnsOf(steps, i, b)
    ensures PastAll(t) == PastAll(s) + AllReturns(steps)
    decreases |steps|
  {
    hide Releases.Inv, CanStep, Next, PastAt, PastAll, IsReturn, Releases.Work, Num;
    if steps != [] {
      StepKeeps(p, s, steps[0]);
      PastStep(p, s, steps[0], i, b);
      PastRun(p, Next(p, s, steps[0]), steps[1..], t, i, b);
    }
  }

  lemma NewPast(sizes: seq<nat>)
    ensures PastOf(NewLauncher(sizes)) == 0
    ensures forall b :: 0 <= b < |sizes| ==> PastIn(NewLauncher(sizes).batches[b]) == 0
  {
    var l := NewLauncher(sizes);
    forall b | 0 <= b < |l.batches|
      ensures PastIn(l.batches[b]) == 0
    {
      TotalZero(l.batches[b].jobs, Past);
    }
    TotalZero(l.batches, PastIn);
  }

  lemma InitPast(p: Plan, i: nat, b: nat)
    requires Valid(p)
    ensures PastAt(Init(p), i, b) == 0 && PastAll(Init(p)) == 0
  {
    var s := Init(p);
    forall k | 0 <= k < |p.sizes|
      ensures PastOf(s.launchers[k]) == 0
    {
      NewPast(p.sizes[k]);
    }
    if i < |p.sizes| { NewPast(p.sizes[i]); }
    TotalZero(s.launchers, PastOf);
  }

  // ---------- Errors, batch by batch ----------

  ghost predicate ErrIn(s: State, i: nat, b: nat) {
    i < |s.launchers| && b < |s.launchers[i].batches| && exists j :: 0 <= j && ErrAt(s.launchers[i].batches[b], j)
  }

  lemma ErrInAct(deferred: bool, l: Launcher, a: Act, b: nat)
    requires Launchers.Inv(deferred, l) && CanAct(deferred, l, a) && b < |l.batches|
    ensures |Do(deferred, l, a).batches| == |l.batches|
    ensures (exists j :: 0 <= j && ErrAt(Do(deferred, l, a).batches[b], j)) <==>
            (exists j :: 0 <= j && ErrAt(l.batches[b], j)) || (a.FnReturn? && a.b == b && a.err)
  {
    hide *;
    InvBounds(deferred, l, a);
    DoBatches(deferred, l, a);
    var l' := Do(deferred, l, a);
    forall j: nat
      ensures ErrAt(l'.batches[b], j) <==> ErrAt(l.batches[b], j) || a == FnReturn(b, j, true)
    {
      ErrAtAct(deferred, l, a, b, j);
    }
    if a.FnReturn? && a.b == b && a.err { assert ErrAt(l'.batches[b], a.j); }
  }

  lemma ErrInStep(p: Plan, s: State, step: Step, i: nat, b: nat)
    requires Valid(p) && Releases.Inv(p, s) && CanStep(p, s, step)
    requires i < |p.sizes| && b < |p.sizes[i]|
    ensures ErrIn(Next(p, s, step), i, b) <==> ErrIn(s, i, b) || FailsIn([step], i, b)
  {
    hide Launchers.Inv, CanAct, Do, OnStage, OuterInv, ErrAt;
    assert [step][0] == step;
    if step.Local? && step.i == i { ErrInAct(p.deferred, s.launchers[i], step.act, b); }
  }

  lemma FailsInSplit(xs: seq<Step>, ys: seq<Step>, i: nat, b: nat)
    ensures FailsIn(xs + ys, i, b) <==> FailsIn(xs, i, b) || FailsIn(ys, i, b)
  {
    if k :| 0 <= k < |ys| && IsReturn(ys[k], i, b) && ys[k].act.err { assert (xs + ys)[|xs| + k] == ys[k]; }
    if k :| 0 <= k < |xs| && IsReturn(xs[k], i, b) && xs[k].act.err { assert (xs + ys)[k] == xs[k]; }
  }

  lemma {:induction false} ErrInRun(p: Plan, s: State, steps: seq<Step>, t: State, i: nat, b: nat)
    requires Valid(p) && Releases.Inv(p, s) && Run(p, s, steps, t)
    requires i < |p.sizes| && b < |p.sizes[i]|
    ensures ErrIn(t, i, b) <==> ErrIn(s, i, b) || FailsIn(steps, i, b)
    decreases |steps|
  {
    hide Releases.Inv, CanStep, Next, ErrIn, FailsIn, Releases.Work;
    if steps != [] {
      StepKeeps(p, s, steps[0]);
      ErrInStep(p, s, steps[0], i, b);
      ErrInRun(p, Next(p, s, steps[0]), steps[1..], t, i, b);
      assert steps == [steps[0]] + steps[1..];
      FailsInSplit([steps[0]], steps[1..], i, b);
    } else {
      NothingFails(i, b);
    }
  }

  lemma NothingFails(i: nat, b: nat)
    ensures !FailsIn([], i, b)
  {
  }

  lemma InitErr(p: Plan, i: nat, b: nat)
    requires Valid(p)
    ensures !ErrIn(Init(p), i, b)
  {
  }

  // ---------- What a run returns ----------

  /** In a batch that a launcher is past, every function has returned, and none with an error if it waits in between. */
  lemma PastBatch(deferred: bool, l: Launcher, b: nat)
    requires Launchers.Inv(deferred, l) && b < |l.batches| && !deferred && b < l.at
    ensures PastIn(l.batches[b]) == |l.batches[b].jobs|
    ensures !exists j :: 0 <= j && ErrAt(l.batches[b], j)
  {
    var batch := l.batches[b];
    assert BatchInv(deferred, l.at, l.next, l.failed, b, batch);
    BatchAnswer(deferred, l, b);
    assert G.AllCollected(batch.gather);
    forall j | 0 <= j < |batch.jobs|
      ensures Past(batch.jobs[j]) == 1
    {
      assert Fits(batch.jobs[j], batch.gather.entries[j]);
    }
    TotalFull(batch.jobs, Past);
  }

  lemma AccountedPast(l: Launcher, b: nat)
    requires Accounted(l) && b < |l.batches|
    ensures PastIn(l.batches[b]) == if Begun(l, b) then |l.batches[b].jobs| else 0
  {
    var batch := l.batches[b];
    forall j | 0 <= j < |batch.jobs|
      ensures Past(batch.jobs[j]) == if Begun(l, b) then 1 else 0
    {
      assert JobIs(l, b, j);
    }
    if Begun(l, b) { TotalFull(batch.jobs, Past); } else { TotalZero(batch.jobs, Past); }
  }

  lemma PastAtMost(batch: Batch)
    ensures PastIn(batch) <= |batch.jobs|
  {
    TotalFull(batch.jobs, Past);
  }

  lemma ReturnsFromInit(p: Plan, steps: seq<Step>, t: State, i: nat, b: nat)
    requires Valid(p) && Run(p, Init(p), steps, t)
    ensures Releases.Inv(p, t)
    ensures PastAt(t, i, b) == ReturnsOf(steps, i, b) && PastAll(t) == AllReturns(steps)
    ensures i < |p.sizes| && b < |p.sizes[i]| ==> (ErrIn(t, i, b) <==> FailsIn(steps, i, b))
  {
    hide *;
    InitInv(p);
    RunKeeps(p, Init(p), steps, t);
    InitPast(p, i, b);
    PastRun(p, Init(p), steps, t, i, b);
    if i < |p.sizes| && b < |p.sizes[i]| {
      InitErr(p, i, b);
      ErrInRun(p, Init(p), steps, t, i, b);
    }
  }

  lemma Shapes(p: Plan, s: State, i: nat)
    requires Valid(p) && Releases.Inv(p, s) && i < |p.sizes|
    ensures |s.launchers| == |p.sizes| && |s.launchers[i].batches| == |p.sizes[i]|
    ensures Launchers.Inv(p.deferred, s.launchers[i])
    ensures forall b :: 0 <= b < |p.sizes[i]| ==> |s.launchers[i].batches[b].jobs| == p.sizes[i][b]
  {
  }

  /** When a release is over, every function of every batch its launchers went through has returned, once. */
  lemma FinalReturns(p: Plan, steps: seq<Step>, t: State, i: nat, b: nat)
    requires Valid(p) && Run(p, Init(p), steps, t) && Final(t)
    requires i < |p.sizes| && b < |p.sizes[i]|
    ensures i < |t.launchers| && b < |t.launchers[i].batches|
    ensures ReturnsOf(steps, i, b) == if Begun(t.launchers[i], b) then p.sizes[i][b] else 0
  {
    hide *;
    ReturnsFromInit(p, steps, t, i, b);
    Shapes(p, t, i);
    EndOfRun(p, steps, t);
    AccountedPast(t.launchers[i], b);
    PastAtIs(t, i, b);
  }

  lemma PastAtIs(s: State, i: nat, b: nat)
    ensures PastAt(s, i, b)
            == if i < |s.launchers| && b < |s.launchers[i].batches| then PastIn(s.launchers[i].batches[b]) else 0
  {
  }

  /** Functions return only from the batches of the plan. */
  lemma NoOtherReturns(p: Plan, steps: seq<Step>, t: State, i: nat, b: nat)
    requires Valid(p) && Run(p, Init(p), steps, t) && !(i < |p.sizes| && b < |p.sizes[i]|)
    ensures ReturnsOf(steps, i, b) == 0
  {
    hide *;
    ReturnsFromInit(p, steps, t, i, b);
    PastAtIs(t, i, b);
    if i < |p.sizes| { Shapes(p, t, i); } else { LauncherCount(p, t); }
  }

  lemma LauncherCount(p: Plan, s: State)
    requires Valid(p) && Releases.Inv(p, s)
    ensures |s.launchers| == |p.sizes|
  {
  }

  /** The main goroutine goes through all its batches, whatever fails. */
  lemma DeferredBegins(p: Plan, t: State, b: nat)
    requires Valid(p) && Releases.Inv(p, t) && Final(t) && p.deferred && b < |p.sizes[0]|
    ensures |t.launchers| == 1 && Begun(t.launchers[0], b)
  {
    DeferredNeverFails(t.launchers[0]);
  }

  lemma DeferredNeverFails(l: Launcher)
    requires Launchers.Inv(true, l)
    ensures !l.failed
  {
    if l.at < |l.batches| { assert BatchInv(true, l.at, l.next, l.failed, l.at, l.batches[l.at]); }
  }

  lemma DeferredReturns(p: Plan, steps: seq<Step>, t: State, b: nat)
    requires Valid(p) && Run(p, Init(p), steps, t) && Final(t) && p.deferred && b < |p.sizes[0]|
    ensures ReturnsOf(steps, 0, b) == p.sizes[0][b]
  {
    hide *;
    ReturnsFromInit(p, steps, t, 0, b);
    OneLauncher(p);
    FinalReturns(p, steps, t, 0, b);
    DeferredBegins(p, t, b);
  }

  /** All returns are those of the batches, each of which holds `n` promises. */
  lemma OneLauncherReturns(p: Plan, steps: seq<Step>, t: State, n: nat)
    requires Valid(p) && Run(p, Init(p), steps, t) && p.deferred
    requires forall b :: 0 <= b < |p.sizes[0]| ==> ReturnsOf(steps, 0, b) == n
    ensures AllReturns(steps) == |p.sizes[0]| * n
  {
    hide *;
    OneLauncher(p);
    ReturnsFromInit(p, steps, t, 0, 0);
    Shapes(p, t, 0);
    var l := t.launchers[0];
    forall b: nat | b < |l.batches|
      ensures PastIn(l.batches[b]) == n
    {
      ReturnsFromInit(p, steps, t, 0, b);
      PastAtIs(t, 0, b);
    }
    TotalSame(l.batches, PastIn, n);
    PastOfIs(l);
    PastAllOfOne(t);
  }

  lemma PastAllOfOne(s: State)
    requires |s.launchers| == 1
    ensures PastAll(s) == PastOf(s.launchers[0])
  {
    TotalOne(s.launchers, PastOf, 0);
  }

  lemma OneLauncher(p: Plan)
    requires Valid(p) && p.deferred
    ensures |p.sizes| == 1
  {
  }

  /** A launcher that waits for each batch goes through those with no failed one before. */
  lemma WaitingBegins(l: Launcher, b: nat)
    requires Launchers.Inv(false, l) && AtRest(l) && b < |l.batches|
    ensures Begun(l, b) <==> !exists c, j :: 0 <= c < b && 0 <= j && ErrAt(l.batches[c], j)
  {
    if l.failed {
      assert BatchInv(false, l.at, l.next, l.failed, l.at, l.batches[l.at]);
      BatchAnswer(false, l, l.at);
    }
    if c, j :| 0 <= c < b && 0 <= j && ErrAt(l.batches[c], j) && c < l.at {
      PastBatch(false, l, c);
    }
  }

  lemma WaitingReturns(p: Plan, steps: seq<Step>, t: State, i: nat, b: nat)
    requires Valid(p) && Run(p, Init(p), steps, t) && Final(t) && !p.deferred
    requires i < |p.sizes| && b < |p.sizes[i]|
    ensures ReturnsOf(steps, i, b)
            == if exists c :: 0 <= c < b && FailsIn(steps, i, c) then 0 else p.sizes[i][b]
  {
    hide *;
    ReturnsFromInit(p, steps, t, i, b);
    FinalReturns(p, steps, t, i, b);
    Shapes(p, t, i);
    FinalRests(t, i);
    var l := t.launchers[i];
    WaitingBegins(l, b);
    forall c: nat | c < b
      ensures FailsIn(steps, i, c) <==> exists j :: 0 <= j && ErrAt(l.batches[c], j)
    {
      ReturnsFromInit(p, steps, t, i, c);
      ErrInIs(t, i, c);
    }
  }

  lemma FinalRests(t: State, i: nat)
    requires Final(t) && i < |t.launchers|
    ensures AtRest(t.launchers[i])
  {
  }

  lemma ErrInIs(s: State, i: nat, b: nat)
    requires i < |s.launchers| && b < |s.launchers[i].batches|
    ensures ErrIn(s, i, b) <==> exists j :: 0 <= j && ErrAt(s.launchers[i].batches[b], j)
  {
  }

  // ---------- One batch after another ----------

  lemma {:induction false} RunSplit(p: Plan, s: State, steps: seq<Step>, t: State, k: nat) returns (m: State)
    requires Run(p, s, steps, t) && k < |steps|
    ensures Run(p, s, steps[..k], m) && CanStep(p, m, steps[k])
    decreases k
  {
    hide CanStep, Next;
    if k == 0 {
      m := s;
    } else {
      m := RunSplit(p, Next(p, s, steps[0]), steps[1..], t, k - 1);
      assert steps[..k][1..] == steps[1..][..k - 1] && steps[1..][k - 1] == steps[k];
    }
  }

  lemma RunningIsBegun(p: Plan, m: State, step: Step, i: nat, b: nat)
    requires Valid(p) && Releases.Inv(p, m) && CanStep(p, m, step) && IsReturn(step, i, b)
    ensures i < |p.sizes| && b < |p.sizes[i]| && |m.launchers| == |p.sizes| && b <= m.launchers[i].at
  {
    var l := m.launchers[i];
    assert BatchInv(p.deferred, l.at, l.next, l.failed, b, l.batches[b]);
  }

  /** Where batches are waited for, no function of a later one returns before all of an earlier one have, unfailed. */
  lemma BatchesInOrder(p: Plan, steps: seq<Step>, t: State, k: nat, i: nat, b: nat, c: nat)
    requires Valid(p) && Run(p, Init(p), steps, t) && !p.deferred
    requires k < |steps| && IsReturn(steps[k], i, b) && c < b
    ensures i < |p.sizes| && b < |p.sizes[i]|
    ensures ReturnsOf(steps[..k], i, c) == p.sizes[i][c] && !FailsIn(steps[..k], i, c)
  {
    hide *;
    var m := RunSplit(p, Init(p), steps, t, k);
    ReturnsFromInit(p, steps[..k], m, i, c);
    RunningIsBegun(p, m, steps[k], i, b);
    Shapes(p, m, i);
    PastBatch(p.deferred, m.launchers[i], c);
    PastAtIs(m, i, c);
    ErrInIs(m, i, c);
  }
}
