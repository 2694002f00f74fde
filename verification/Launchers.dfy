/**
 A goroutine that launches promises with `concurrentRun` batch by batch, handing each batch to `waitResults`.
 Every job takes a slot of the shared concurrency queue before it starts and gives it back only after its value,
 sent on an unbuffered channel, has been received.
 */
module Launchers {
  import opened Totals
  import G = Gathering

  /** One promise's job: its slot and its goroutine. */
  datatype Job =
    | Idle
    | Acquired            // the slot is taken, the goroutine not yet started
    | Running             // `fn` runs
    | Sending(err: bool)  // `fn` returned; the send on the unbuffered channel waits for a receiver
    | Releasing           // the value was received; the slot is still held
    | Released            // the slot is free again, the wait group not yet told
    | Finished

  datatype Batch = Batch(jobs: seq<Job>, gather: G.Gather)

  /**
   Where a launcher is: `next` jobs of batch `at` are launched. It stops after the last batch, or with `failed` after
   the first batch whose collector returned an error.
   */
  datatype Launcher = Launcher(batches: seq<Batch>, at: nat, next: nat, failed: bool)

  datatype Act =
    | Acquire                          // concurrencyQueue <- struct{}{}
    | Spawn                            // concurrencyWg.Add(1); go func
    | StartReceiver(j: nat)            // waitResults: go func for one promise of the map
    | Proceed                          // on to the next batch
    | FnReturn(b: nat, j: nat, err: bool)
    | Meet(b: nat, j: nat)             // the rendezvous on the promise's channel
    | Release(b: nat, j: nat)          // <-concurrencyQueue
    | Done(b: nat, j: nat)             // concurrencyWg.Done()
    | Enqueue(b: nat, j: nat)          // resultQueue <- dispatch
    | StartCollector(b: nat)           // the closure is called
    | Collect(b: nat)                  // <-resultQueue
    | Return(b: nat)                   // the closure returns

  function NewBatch(n: nat): Batch {
    Batch(seq(n, _ => Idle), G.Fresh(n))
  }

  function NewLauncher(sizes: seq<nat>): Launcher {
    Launcher(seq(|sizes|, i requires 0 <= i < |sizes| => NewBatch(sizes[i])), 0, 0, false)
  }

  // ---------- Steps ----------

  /** The launcher is at work on a batch with jobs still to launch. */
  predicate Launching(l: Launcher) {
    !l.failed && l.at < |l.batches| && l.next < |l.batches[l.at].jobs|
  }

  /** All jobs of the current batch are launched. */
  predicate Launched(l: Launcher) {
    !l.failed && l.at < |l.batches| && l.next == |l.batches[l.at].jobs|
  }

  predicate Started(batch: Batch) {
    forall j :: 0 <= j < |batch.gather.entries| ==> !batch.gather.entries[j].Idle?
  }

  predicate Over(l: Launcher) {
    l.failed || l.at == |l.batches|
  }

  predicate JobIs(l: Launcher, b: nat, j: nat) {
    b < |l.batches| && j < |l.batches[b].jobs|
  }

  /**
   What the launcher and its goroutines can do, slots permitting. A deferred launcher leaves a batch as soon as its
   receivers run and has the collectors called at the very end; another calls each collector and waits for it.
   */
  predicate CanAct(deferred: bool, l: Launcher, a: Act) {
    match a
    case Acquire => Launching(l) && l.batches[l.at].jobs[l.next].Idle?
    case Spawn => Launching(l) && l.batches[l.at].jobs[l.next].Acquired?
    case StartReceiver(j) => Launched(l) && G.CanStart(l.batches[l.at].gather, j)
    case Proceed => Launched(l) && Started(l.batches[l.at]) && (deferred || l.batches[l.at].gather.collector.Returned?)
    case FnReturn(b, j, _) => JobIs(l, b, j) && l.batches[b].jobs[j].Running?
    case Meet(b, j) => JobIs(l, b, j) && l.batches[b].jobs[j].Sending? && G.CanResolve(l.batches[b].gather, j)
    case Release(b, j) => JobIs(l, b, j) && l.batches[b].jobs[j].Releasing?
    case Done(b, j) => JobIs(l, b, j) && l.batches[b].jobs[j].Released?
    case Enqueue(b, j) => b < |l.batches| && G.CanEnqueue(l.batches[b].gather, j)
    case StartCollector(b) =>
      && b < |l.batches| && l.batches[b].gather.collector.NotStarted?
      && if deferred then l.at == |l.batches| else b == l.at && Launched(l) && Started(l.batches[b])
    case Collect(b) => b < |l.batches| && G.CanCollect(l.batches[b].gather)
    case Return(b) => b < |l.batches| && G.CanReturn(l.batches[b].gather)
  }

  /** Which batch an act changes. */
  function BatchOf(l: Launcher, a: Act): nat {
    match a
    case Acquire => l.at
    case Spawn => l.at
    case StartReceiver(_) => l.at
    case Proceed => l.at
    case FnReturn(b, _, _) => b
    case Meet(b, _) => b
    case Release(b, _) => b
    case Done(b, _) => b
    case Enqueue(b, _) => b
    case StartCollector(b) => b
    case Collect(b) => b
    case Return(b) => b
  }

  function SetJob(batch: Batch, j: nat, job: Job): Batch
    requires j < |batch.jobs|
  {
    batch.(jobs := batch.jobs[j := job])
  }

  /** What an act makes of the batch it changes. */
  function DoBatch(deferred: bool, l: Launcher, a: Act): Batch
    requires CanAct(deferred, l, a)
  {
    var batch := l.batches[BatchOf(l, a)];
    match a
    case Acquire => SetJob(batch, l.next, Acquired)
    case Spawn => SetJob(batch, l.next, Running)
    case StartReceiver(j) => batch.(gather := G.Start(batch.gather, j))
    case Proceed => batch
    case FnReturn(_, j, err) => SetJob(batch, j, Sending(err))
    case Meet(_, j) => SetJob(batch, j, Releasing).(gather := G.Resolve(batch.gather, j, batch.jobs[j].err))
    case Release(_, j) => SetJob(batch, j, Released)
    case Done(_, j) => SetJob(batch, j, Finished)
    case Enqueue(_, j) => batch.(gather := G.Enqueue(batch.gather, j))
    case StartCollector(_) => batch.(gather := G.StartCollector(batch.gather))
    case Collect(_) => batch.(gather := G.Collect(batch.gather))
    case Return(_) => batch.(gather := G.Return(batch.gather))
  }

  function Do(deferred: bool, l: Launcher, a: Act): Launcher
    requires CanAct(deferred, l, a)
  {
    var batches := l.batches[BatchOf(l, a) := DoBatch(deferred, l, a)];
    match a
    case Spawn => l.(batches := batches, next := l.next + 1)
    case Proceed =>
      if !deferred && l.batches[l.at].gather.collector.failed then l.(failed := true) else l.(at := l.at + 1, next := 0)
    case _ => l.(batches := batches)
  }

  lemma BatchOfReturn(l: Launcher, b: nat, j: nat)
    ensures BatchOf(l, FnReturn(b, j, true)) == b
  {
  }

  lemma DoBatches(deferred: bool, l: Launcher, a: Act)
    requires CanAct(deferred, l, a) && BatchOf(l, a) < |l.batches|
    ensures Do(deferred, l, a).batches == l.batches[BatchOf(l, a) := DoBatch(deferred, l, a)]
  {
  }

  // ---------- What every act keeps ----------

  /** A promise's job and its receiver agree on whether the value has changed hands. */
  predicate Fits(job: Job, e: G.Entry) {
    match e
    case Idle => job.Idle? || job.Acquired? || job.Running? || job.Sending?
    case Waiting => job.Running? || job.Sending?
    case _ => job.Releasing? || job.Released? || job.Finished?
  }

  function LaunchedIn(at: nat, next: nat, b: nat, size: nat): nat {
    if b < at then size else if b == at then next else 0
  }

  /** A batch as it must be at index `b` of a launcher that is at `at` and `next`. */
  ghost predicate BatchInv(deferred: bool, at: nat, next: nat, failed: bool, b: nat, batch: Batch) {
    var n := LaunchedIn(at, next, b, |batch.jobs|);
    && |batch.jobs| == |batch.gather.entries| && n <= |batch.jobs|
    && G.Inv(batch.gather)
    && (forall j :: 0 <= j < |batch.jobs| ==> Fits(batch.jobs[j], batch.gather.entries[j]))
    && (forall j :: 0 <= j < n ==> !batch.jobs[j].Idle? && !batch.jobs[j].Acquired?)
    && (forall j :: n <= j < |batch.jobs| ==>
          batch.jobs[j].Idle? || (batch.jobs[j].Acquired? && j == n && b == at && !failed))
    && (n < |batch.jobs| ==> forall j :: 0 <= j < |batch.jobs| ==> batch.gather.entries[j].Idle?)
    && (!batch.gather.collector.NotStarted? ==> Started(batch))
    && (b < at ==> Started(batch) && (deferred || batch.gather.collector == G.Returned(false)))
    && (b > at ==> batch.gather.collector.NotStarted?)
    && (b == at && failed ==> !deferred && n == |batch.jobs| && batch.gather.collector == G.Returned(true))
  }

  ghost predicate Inv(deferred: bool, l: Launcher) {
    && l.at <= |l.batches|
    && (l.at == |l.batches| ==> l.next == 0 && !l.failed)
    && forall b :: 0 <= b < |l.batches| ==> BatchInv(deferred, l.at, l.next, l.failed, b, l.batches[b])
  }

  lemma NewInv(deferred: bool, sizes: seq<nat>)
    ensures Inv(deferred, NewLauncher(sizes))
  {
    forall i | 0 <= i < |sizes|
      ensures BatchInv(deferred, 0, 0, false, i, NewBatch(sizes[i]))
    {
      G.FreshInv(sizes[i]);
    }
  }

  /** A change of one job alone that keeps it on its side of the rendezvous, and of the launch. */
  lemma WithJob(deferred: bool, at: nat, next: nat, failed: bool, b: nat, batch: Batch, j: nat, job: Job)
    requires BatchInv(deferred, at, next, failed, b, batch) && j < |batch.jobs|
    requires Fits(job, batch.gather.entries[j])
    requires var n := LaunchedIn(at, next, b, |batch.jobs|);
             if j < n then !job.Idle? && !job.Acquired? else job.Acquired? && j == n && b == at && !failed
    ensures BatchInv(deferred, at, next, failed, b, SetJob(batch, j, job))
  {
    hide G.Inv;
  }

  lemma WithSpawned(deferred: bool, at: nat, next: nat, batch: Batch)
    requires BatchInv(deferred, at, next, false, at, batch) && next < |batch.jobs| && batch.jobs[next].Acquired?
    ensures BatchInv(deferred, at, next + 1, false, at, SetJob(batch, next, Running))
  {
    hide G.Inv;
  }

  lemma JobKeeps(deferred: bool, l: Launcher, a: Act)
    requires Inv(deferred, l) && CanAct(deferred, l, a)
    requires a.Acquire? || a.Spawn? || a.FnReturn? || a.Release? || a.Done?
    ensures var l' := Do(deferred, l, a);
            BatchInv(deferred, l'.at, l'.next, l'.failed, BatchOf(l, a), l'.batches[BatchOf(l, a)])
  {
    hide G.Inv;
    var b := BatchOf(l, a);
    var batch := l.batches[b];
    assert BatchInv(deferred, l.at, l.next, l.failed, b, batch);
    match a
    case Acquire => WithJob(deferred, l.at, l.next, l.failed, b, batch, l.next, Acquired);
    case Spawn => WithSpawned(deferred, l.at, l.next, batch);
    case FnReturn(_, j, err) => WithJob(deferred, l.at, l.next, l.failed, b, batch, j, Sending(err));
    case Release(_, j) => WithJob(deferred, l.at, l.next, l.failed, b, batch, j, Released);
    case Done(_, j) => WithJob(deferred, l.at, l.next, l.failed, b, batch, j, Finished);
  }

  /** A step of the receivers or the collector alone. */
  lemma WithGather(deferred: bool, at: nat, next: nat, failed: bool, b: nat, batch: Batch, g: G.Gather)
    requires BatchInv(deferred, at, next, failed, b, batch)
    requires G.Inv(g) && |g.entries| == |batch.jobs|
    requires forall j :: 0 <= j < |batch.jobs| ==> Fits(batch.jobs[j], g.entries[j])
    requires forall j :: 0 <= j < |batch.jobs| && g.entries[j].Idle? ==> batch.gather.entries[j].Idle?
    requires LaunchedIn(at, next, b, |batch.jobs|) == |batch.jobs|
    requires g.collector == batch.gather.collector
             || (Started(batch) && b <= at && !g.collector.NotStarted?
                 && (b < at ==> deferred) && (b == at ==> !failed))
    ensures BatchInv(deferred, at, next, failed, b, batch.(gather := g))
  {
    hide G.Inv;
  }

  lemma EntryKeeps(deferred: bool, l: Launcher, a: Act)
    requires Inv(deferred, l) && CanAct(deferred, l, a) && (a.StartReceiver? || a.Enqueue?)
    ensures var l' := Do(deferred, l, a);
            BatchInv(deferred, l'.at, l'.next, l'.failed, BatchOf(l, a), l'.batches[BatchOf(l, a)])
  {
    hide G.Inv;
    var b := BatchOf(l, a);
    var batch := l.batches[b];
    assert BatchInv(deferred, l.at, l.next, l.failed, b, batch);
    match a {
      case StartReceiver(j) => G.SetKeeps(batch.gather, j, G.Waiting);
      case Enqueue(_, j) => G.EnqueueKeeps(batch.gather, j);
    }
    WithGather(deferred, l.at, l.next, l.failed, b, batch, DoBatch(deferred, l, a).gather);
  }

  lemma CollectorKeeps(deferred: bool, l: Launcher, a: Act)
    requires Inv(deferred, l) && CanAct(deferred, l, a) && (a.StartCollector? || a.Collect? || a.Return?)
    ensures var l' := Do(deferred, l, a);
            BatchInv(deferred, l'.at, l'.next, l'.failed, BatchOf(l, a), l'.batches[BatchOf(l, a)])
  {
    hide G.Inv;
    var b := BatchOf(l, a);
    var batch := l.batches[b];
    assert BatchInv(deferred, l.at, l.next, l.failed, b, batch);
    match a {
      case StartCollector(_) => G.StartCollectorKeeps(batch.gather);
      case Collect(_) => G.CollectKeeps(batch.gather);
      case Return(_) => G.ReturnKeeps(batch.gather);
    }
    WithGather(deferred, l.at, l.next, l.failed, b, batch, DoBatch(deferred, l, a).gather);
  }

  lemma MeetKeeps(deferred: bool, l: Launcher, a: Act)
    requires Inv(deferred, l) && CanAct(deferred, l, a) && (a.Meet? || a.Proceed?)
    ensures var l' := Do(deferred, l, a);
            BatchInv(deferred, l'.at, l'.next, l'.failed, BatchOf(l, a), l'.batches[BatchOf(l, a)])
  {
    hide G.Inv;
    var b := BatchOf(l, a);
    var batch := l.batches[b];
    assert BatchInv(deferred, l.at, l.next, l.failed, b, batch);
    if a.Meet? { G.SetKeeps(batch.gather, a.j, G.Got(batch.jobs[a.j].err)); }
  }

  /** The changed batch is in order for the changed launcher. */
  lemma ActKeepsBatch(deferred: bool, l: Launcher, a: Act)
    requires Inv(deferred, l) && CanAct(deferred, l, a)
    ensures var l' := Do(deferred, l, a);
            BatchInv(deferred, l'.at, l'.next, l'.failed, BatchOf(l, a), l'.batches[BatchOf(l, a)])
  {
    hide *;
    match a
    case Acquire => JobKeeps(deferred, l, a);
    case Spawn => JobKeeps(deferred, l, a);
    case FnReturn(_, _, _) => JobKeeps(deferred, l, a);
    case Release(_, _) => JobKeeps(deferred, l, a);
    case Done(_, _) => JobKeeps(deferred, l, a);
    case Meet(_, _) => MeetKeeps(deferred, l, a);
    case Proceed => MeetKeeps(deferred, l, a);
    case StartReceiver(_) => EntryKeeps(deferred, l, a);
    case Enqueue(_, _) => EntryKeeps(deferred, l, a);
    case _ => CollectorKeeps(deferred, l, a);
  }

  lemma ActKeeps(deferred: bool, l: Launcher, a: Act)
    requires Inv(deferred, l) && CanAct(deferred, l, a)
    ensures Inv(deferred, Do(deferred, l, a))
  {
    var l' := Do(deferred, l, a);
    ActKeepsBatch(deferred, l, a);
    forall b | 0 <= b < |l'.batches| && b != BatchOf(l, a)
      ensures BatchInv(deferred, l'.at, l'.next, l'.failed, b, l'.batches[b])
    {
      assert BatchInv(deferred, l.at, l.next, l.failed, b, l.batches[b]);
    }
  }

  /** The launcher launches `sizes[b]` promises in its batch `b`. */
  predicate Shaped(l: Launcher, sizes: seq<nat>) {
    |l.batches| == |sizes| && forall b :: 0 <= b < |sizes| ==> |l.batches[b].jobs| == sizes[b]
  }

  lemma ActShape(deferred: bool, l: Launcher, a: Act, sizes: seq<nat>)
    requires CanAct(deferred, l, a) && BatchOf(l, a) < |l.batches| && Shaped(l, sizes)
    ensures Shaped(Do(deferred, l, a), sizes)
  {
  }

  // ---------- Slots, the wait group, and the work left ----------

  /** A job holds its slot from the acquire to the release. */
  function Holds(job: Job): nat {
    if job.Acquired? || job.Running? || job.Sending? || job.Releasing? then 1 else 0
  }

  /** The wait group counts a job from `Add` to `Done`. */
  function Counted(job: Job): nat {
    if job.Running? || job.Sending? || job.Releasing? || job.Released? then 1 else 0
  }

  function RunsNow(job: Job): nat {
    if job.Running? then 1 else 0
  }

  function JobWork(job: Job): nat {
    match job
    case Idle => 6
    case Acquired => 5
    case Running => 4
    case Sending(_) => 3
    case Releasing => 2
    case Released => 1
    case Finished => 0
  }

  function HeldIn(batch: Batch): nat {
    Total(batch.jobs, Holds)
  }

  function CountedIn(batch: Batch): nat {
    Total(batch.jobs, Counted)
  }

  function RunsIn(batch: Batch): nat {
    Total(batch.jobs, RunsNow)
  }

  function WorkIn(batch: Batch): nat {
    Total(batch.jobs, JobWork) + G.Work(batch.gather)
  }

  /** The slots a launcher's jobs hold. */
  function Held(l: Launcher): nat {
    Total(l.batches, HeldIn)
  }

  /** The launcher's share of the wait group. */
  function WaitedFor(l: Launcher): nat {
    Total(l.batches, CountedIn)
  }

  /** How many of its functions run right now. */
  function RunningNow(l: Launcher): nat {
    Total(l.batches, RunsIn)
  }

  /** The acts still to come, weighed so that each one counts. */
  function Work(l: Launcher): nat {
    Total(l.batches, WorkIn) + 2 * (if l.at <= |l.batches| then |l.batches| - l.at else 0) + (if l.failed then 0 else 1)
  }

  lemma RunningHolds(l: Launcher)
    ensures RunningNow(l) <= Held(l)
  {
    forall b | 0 <= b < |l.batches|
      ensures RunsIn(l.batches[b]) <= HeldIn(l.batches[b])
    {
      TotalBound(l.batches[b].jobs, RunsNow, Holds);
    }
    TotalBound(l.batches, RunsIn, HeldIn);
  }

  /** The effect of changing one job of a batch. */
  lemma JobEffect(batch: Batch, j: nat, job: Job)
    requires j < |batch.jobs|
    ensures var batch' := SetJob(batch, j, job);
            && HeldIn(batch') + Holds(batch.jobs[j]) == HeldIn(batch) + Holds(job)
            && CountedIn(batch') + Counted(batch.jobs[j]) == CountedIn(batch) + Counted(job)
            && WorkIn(batch') + JobWork(batch.jobs[j]) == WorkIn(batch) + JobWork(job)
  {
    TotalUpdate(batch.jobs, j, job, Holds);
    TotalUpdate(batch.jobs, j, job, Counted);
    TotalUpdate(batch.jobs, j, job, JobWork);
  }

  /** What an act does to the slots and the wait group of the batch it changes, and to the work left in it. */
  ghost predicate Effect(a: Act, batch: Batch, batch': Batch) {
    && HeldIn(batch') + (if a.Release? then 1 else 0) == HeldIn(batch) + (if a.Acquire? then 1 else 0)
    && CountedIn(batch') + (if a.Done? then 1 else 0) == CountedIn(batch) + (if a.Spawn? then 1 else 0)
    && if a.Proceed? then WorkIn(batch') == WorkIn(batch) else WorkIn(batch') < WorkIn(batch)
  }

  lemma JobBatchEffect(deferred: bool, l: Launcher, a: Act)
    requires CanAct(deferred, l, a) && BatchOf(l, a) < |l.batches|
    requires a.Acquire? || a.Spawn? || a.FnReturn? || a.Release? || a.Done?
    ensures Effect(a, l.batches[BatchOf(l, a)], DoBatch(deferred, l, a))
  {
    var batch := l.batches[BatchOf(l, a)];
    match a
    case Acquire => JobEffect(batch, l.next, Acquired);
    case Spawn => JobEffect(batch, l.next, Running);
    case FnReturn(_, j, err) => JobEffect(batch, j, Sending(err));
    case Release(_, j) => JobEffect(batch, j, Released);
    case Done(_, j) => JobEffect(batch, j, Finished);
  }

  lemma MeetEffect(deferred: bool, l: Launcher, a: Act)
    requires Inv(deferred, l) && CanAct(deferred, l, a) && (a.Meet? || a.Proceed?)
    ensures Effect(a, l.batches[BatchOf(l, a)], DoBatch(deferred, l, a))
  {
    hide G.Inv, G.Work;
    var batch := l.batches[BatchOf(l, a)];
    assert BatchInv(deferred, l.at, l.next, l.failed, BatchOf(l, a), batch);
    if a.Meet? {
      JobEffect(batch, a.j, Releasing);
      G.SetKeeps(batch.gather, a.j, G.Got(batch.jobs[a.j].err));
    }
  }

  lemma GatherEffect(deferred: bool, l: Launcher, a: Act)
    requires Inv(deferred, l) && CanAct(deferred, l, a)
    requires a.StartReceiver? || a.Enqueue? || a.StartCollector? || a.Collect? || a.Return?
    ensures Effect(a, l.batches[BatchOf(l, a)], DoBatch(deferred, l, a))
  {
    hide G.Inv, G.Work;
    var batch := l.batches[BatchOf(l, a)];
    assert BatchInv(deferred, l.at, l.next, l.failed, BatchOf(l, a), batch);
    match a
    case StartReceiver(j) => G.SetKeeps(batch.gather, j, G.Waiting);
    case Enqueue(_, j) => G.EnqueueKeeps(batch.gather, j);
    case StartCollector(_) => G.StartCollectorKeeps(batch.gather);
    case Collect(_) => G.CollectKeeps(batch.gather);
    case Return(_) => G.ReturnKeeps(batch.gather);
  }

  lemma BatchEffect(deferred: bool, l: Launcher, a: Act)
    requires Inv(deferred, l) && CanAct(deferred, l, a) && BatchOf(l, a) < |l.batches|
    ensures Effect(a, l.batches[BatchOf(l, a)], DoBatch(deferred, l, a))
  {
    hide *;
    match a
    case Acquire => JobBatchEffect(deferred, l, a);
    case Spawn => JobBatchEffect(deferred, l, a);
    case FnReturn(_, _, _) => JobBatchEffect(deferred, l, a);
    case Release(_, _) => JobBatchEffect(deferred, l, a);
    case Done(_, _) => JobBatchEffect(deferred, l, a);
    case Meet(_, _) => MeetEffect(deferred, l, a);
    case Proceed => MeetEffect(deferred, l, a);
    case _ => GatherEffect(deferred, l, a);
  }

  /** Only an acquire takes a slot and only a release frees one, likewise for the wait group; every act is progress. */
  lemma ActEffect(deferred: bool, l: Launcher, a: Act)
    requires Inv(deferred, l) && CanAct(deferred, l, a)
    ensures var l' := Do(deferred, l, a);
            && Held(l') + (if a.Release? then 1 else 0) == Held(l) + (if a.Acquire? then 1 else 0)
            && WaitedFor(l') + (if a.Done? then 1 else 0) == WaitedFor(l) + (if a.Spawn? then 1 else 0)
            && Work(l') < Work(l)
  {
    hide Inv;
    assert l.at <= |l.batches| && BatchOf(l, a) < |l.batches| by { InvBounds(deferred, l, a); }
    BatchEffect(deferred, l, a);
    hide DoBatch, HeldIn, CountedIn, WorkIn;
    var b, batch := BatchOf(l, a), DoBatch(deferred, l, a);
    TotalUpdate(l.batches, b, batch, HeldIn);
    TotalUpdate(l.batches, b, batch, CountedIn);
    TotalUpdate(l.batches, b, batch, WorkIn);
  }

  lemma InvBounds(deferred: bool, l: Launcher, a: Act)
    requires Inv(deferred, l) && CanAct(deferred, l, a)
    ensures l.at <= |l.batches| && BatchOf(l, a) < |l.batches|
  {
  }

  // ---------- When nothing but acquires is left to do ----------

  /** Nothing can happen but taking a slot, or, deferred, having a collector called. */
  ghost predicate Settled(deferred: bool, l: Launcher) {
    forall a :: CanAct(deferred, l, a) ==> a.Acquire? || (a.FnReturn? && a.err) || (deferred && a.StartCollector?)
  }

  /** The launcher is blocked on the concurrency queue, or about to be. */
  predicate Wanting(l: Launcher) {
    Launching(l) && l.batches[l.at].jobs[l.next].Idle?
  }

  lemma SettledEntry(deferred: bool, l: Launcher, b: nat, j: nat)
    requires Inv(deferred, l) && Settled(deferred, l) && JobIs(l, b, j)
    ensures var e := l.batches[b].gather.entries[j]; !e.Waiting? && !e.Got?
    ensures var job := l.batches[b].jobs[j];
            job.Idle? || job.Finished? || (job.Sending? && Wanting(l) && b == l.at && j < l.next)
  {
    var batch := l.batches[b];
    assert BatchInv(deferred, l.at, l.next, l.failed, b, batch);
    assert Fits(batch.jobs[j], batch.gather.entries[j]);
    assert !CanAct(deferred, l, FnReturn(b, j, false));
    assert !CanAct(deferred, l, Meet(b, j));
    assert !CanAct(deferred, l, Release(b, j));
    assert !CanAct(deferred, l, Done(b, j));
    assert !CanAct(deferred, l, Enqueue(b, j));
    assert !CanAct(deferred, l, StartReceiver(j));
    assert !CanAct(deferred, l, Spawn);
    if batch.gather.entries[j].Got? { G.SendNeverBlocks(batch.gather, j); }
  }

  /** A settled launcher is done or wants a slot. */
  lemma SettledLauncher(deferred: bool, l: Launcher)
    requires Inv(deferred, l) && Settled(deferred, l) && !Over(l)
    ensures Wanting(l)
  {
    var batch := l.batches[l.at];
    assert BatchInv(deferred, l.at, l.next, l.failed, l.at, batch);
    if l.next < |batch.jobs| {
      assert !CanAct(deferred, l, Spawn);
    } else {
      forall j | 0 <= j < |batch.jobs|
        ensures !batch.gather.entries[j].Idle?
      {
        assert !CanAct(deferred, l, StartReceiver(j));
      }
      assert !CanAct(deferred, l, Proceed);
      assert !CanAct(deferred, l, StartCollector(l.at));
      forall j | 0 <= j < |batch.jobs|
        ensures !batch.gather.entries[j].Waiting? && !batch.gather.entries[j].Got?
      {
        SettledEntry(deferred, l, l.at, j);
      }
      assert !CanAct(deferred, l, Collect(l.at)) && !CanAct(deferred, l, Return(l.at));
      G.CollectorMoves(batch.gather);
    }
  }

  /** What a settled launcher holds are the slots of the batch it is stuck in. */
  lemma SettledHeld(deferred: bool, l: Launcher)
    requires Inv(deferred, l) && Settled(deferred, l)
    ensures Held(l) == if Wanting(l) then l.next else 0
  {
    forall b | 0 <= b < |l.batches|
      ensures HeldIn(l.batches[b]) == if Wanting(l) && b == l.at then l.next else 0
    {
      SettledBatch(deferred, l, b);
    }
    if Wanting(l) { TotalOne(l.batches, HeldIn, l.at); } else { TotalZero(l.batches, HeldIn); }
  }

  lemma SettledBatch(deferred: bool, l: Launcher, b: nat)
    requires Inv(deferred, l) && Settled(deferred, l) && b < |l.batches|
    ensures HeldIn(l.batches[b]) == if Wanting(l) && b == l.at then l.next else 0
  {
    var batch := l.batches[b];
    assert BatchInv(deferred, l.at, l.next, l.failed, b, batch);
    hide Settled;
    var n := if Wanting(l) && b == l.at then l.next else 0;
    forall j | 0 <= j < |batch.jobs|
      ensures Holds(batch.jobs[j]) == if j < n then 1 else 0
    {
      SettledEntry(deferred, l, b, j);
      assert Fits(batch.jobs[j], batch.gather.entries[j]);
    }
    TotalPrefix(batch.jobs, Holds, n);
  }

  // ---------- Errors ----------

  /** The promise's function returned an error: it is still being sent, or already on its way to the collector. */
  predicate ErrAt(batch: Batch, j: nat) {
    || (j < |batch.jobs| && batch.jobs[j] == Sending(true))
    || (j < |batch.gather.entries| && batch.gather.entries[j].HasValue() && batch.gather.entries[j].err)
  }

  /** Some promise of the launcher returned an error. */
  ghost predicate Erred(l: Launcher) {
    exists b, j :: 0 <= b < |l.batches| && 0 <= j && ErrAt(l.batches[b], j)
  }

  lemma ErrAtJob(deferred: bool, l: Launcher, a: Act, j: nat)
    requires Inv(deferred, l) && CanAct(deferred, l, a) && BatchOf(l, a) < |l.batches|
    requires a.Acquire? || a.Spawn? || a.FnReturn? || a.Release? || a.Done?
    ensures ErrAt(DoBatch(deferred, l, a), j) <==>
            ErrAt(l.batches[BatchOf(l, a)], j) || a == FnReturn(BatchOf(l, a), j, true)
  {
    hide Inv, Started;
  }

  lemma ErrAtGather(deferred: bool, l: Launcher, a: Act, j: nat)
    requires Inv(deferred, l) && CanAct(deferred, l, a) && BatchOf(l, a) < |l.batches|
    requires !(a.Acquire? || a.Spawn? || a.FnReturn? || a.Release? || a.Done?)
    ensures ErrAt(DoBatch(deferred, l, a), j) <==> ErrAt(l.batches[BatchOf(l, a)], j)
  {
    var batch := l.batches[BatchOf(l, a)];
    if a.Meet? {
      assert BatchInv(deferred, l.at, l.next, l.failed, BatchOf(l, a), batch);
      assert Fits(batch.jobs[a.j], batch.gather.entries[a.j]);
    }
    hide Inv, BatchInv, G.Inv;
  }

  /** An error neither appears nor gets lost but by a function returning it. */
  lemma ErrAtAct(deferred: bool, l: Launcher, a: Act, b: nat, j: nat)
    requires Inv(deferred, l) && CanAct(deferred, l, a) && b < |l.batches|
    ensures ErrAt(Do(deferred, l, a).batches[b], j) <==> ErrAt(l.batches[b], j) || a == FnReturn(b, j, true)
  {
    InvBounds(deferred, l, a);
    DoBatches(deferred, l, a);
    hide *;
    if b == BatchOf(l, a) {
      if a.Acquire? || a.Spawn? || a.FnReturn? || a.Release? || a.Done? {
        ErrAtJob(deferred, l, a, j);
      } else {
        ErrAtGather(deferred, l, a, j);
      }
    } else {
      BatchOfReturn(l, b, j);
    }
  }

  lemma ErredAct(deferred: bool, l: Launcher, a: Act)
    requires Inv(deferred, l) && CanAct(deferred, l, a)
    ensures Erred(Do(deferred, l, a)) <==> Erred(l) || (a.FnReturn? && a.err)
  {
    hide ErrAt, Inv, G.Inv;
    var l' := Do(deferred, l, a);
    if b, j :| 0 <= b < |l'.batches| && 0 <= j && ErrAt(l'.batches[b], j) {
      ErrAtAct(deferred, l, a, b, j);
    }
    if b, j :| 0 <= b < |l.batches| && 0 <= j && ErrAt(l.batches[b], j) {
      ErrAtAct(deferred, l, a, b, j);
    }
    if a.FnReturn? {
      ErrAtAct(deferred, l, a, a.b, a.j);
    }
  }

  lemma NewNotErred(sizes: seq<nat>)
    ensures !Erred(NewLauncher(sizes))
  {
  }

  /** A returned collector reports an error exactly when a promise of its batch returned one. */
  lemma BatchAnswer(deferred: bool, l: Launcher, b: nat)
    requires Inv(deferred, l) && b < |l.batches| && l.batches[b].gather.collector.Returned?
    ensures l.batches[b].gather.collector.failed <==> exists j :: 0 <= j && ErrAt(l.batches[b], j)
  {
    var batch := l.batches[b];
    assert BatchInv(deferred, l.at, l.next, l.failed, b, batch);
    assert G.AllCollected(batch.gather);
    if batch.gather.collector.failed {
      var j: nat :| j < |batch.gather.entries| && batch.gather.entries[j] == G.Collected(true);
      assert ErrAt(batch, j);
    }
    if j :| 0 <= j && ErrAt(batch, j) {
      assert Fits(batch.jobs[j], batch.gather.entries[j]);
      assert batch.gather.entries[j] == G.Collected(true);
    }
  }

  /** A launcher that is done reports an error exactly when one of its promises returned one. */
  lemma OverAnswer(l: Launcher)
    requires Inv(false, l) && Over(l)
    ensures l.failed <==> Erred(l)
  {
    if l.failed {
      assert BatchInv(false, l.at, l.next, l.failed, l.at, l.batches[l.at]);
      BatchAnswer(false, l, l.at);
    }
    if b, j :| 0 <= b < |l.batches| && 0 <= j && ErrAt(l.batches[b], j) {
      var batch := l.batches[b];
      assert BatchInv(false, l.at, l.next, l.failed, b, batch);
      if b <= l.at { BatchAnswer(false, l, b); }
    }
  }

  lemma ReturnedStays(deferred: bool, l: Launcher, a: Act)
    requires CanAct(deferred, l, a) && BatchOf(l, a) < |l.batches|
    requires l.batches[BatchOf(l, a)].gather.collector.Returned?
    ensures DoBatch(deferred, l, a).gather.collector == l.batches[BatchOf(l, a)].gather.collector
  {
  }

  /** Being done, and its verdict, are for good; likewise for a collector that has returned. */
  lemma AnswersStay(deferred: bool, l: Launcher, a: Act)
    requires Inv(deferred, l) && CanAct(deferred, l, a)
    ensures var l' := Do(deferred, l, a);
            && |l'.batches| == |l.batches|
            && (Over(l) ==> Over(l') && l'.failed == l.failed && l'.at == l.at)
            && forall b :: 0 <= b < |l.batches| && l.batches[b].gather.collector.Returned? ==>
                 l'.batches[b].gather.collector == l.batches[b].gather.collector
  {
    InvBounds(deferred, l, a);
    DoBatches(deferred, l, a);
    if l.batches[BatchOf(l, a)].gather.collector.Returned? { ReturnedStays(deferred, l, a); }
    hide Inv, DoBatch, BatchOf, Started, JobIs;
  }
}
