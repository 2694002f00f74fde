/**
 `waitResults`: one goroutine a promise, each waiting for its promise and then sending what it got into a result
 queue, and a collector that takes as many results as there are promises.
 */
module Gathering {
  import opened Totals

  /** Where one promise's value is; the value is whether it is an error. */
  datatype Entry =
    | Idle
    | Waiting
    | Got(err: bool)
    | Queued(err: bool)
    | Collected(err: bool)
  {
    predicate HasValue() {
      Got? || Queued? || Collected?
    }
  }

  /** The closure returned by `waitResults`: how many results it took, and whether one was an error. */
  datatype Collector = NotStarted | Collecting(count: nat, failed: bool) | Returned(failed: bool)

  /** The result queue is a buffered channel of capacity `|entries|`, holding promises in sending order. */
  datatype Gather = Gather(entries: seq<Entry>, queue: seq<nat>, collector: Collector)

  function Fresh(n: nat): Gather {
    Gather(seq(n, _ => Idle), [], NotStarted)
  }

  // ---------- Steps ----------

  function Set(g: Gather, j: nat, e: Entry): Gather
    requires j < |g.entries|
  {
    g.(entries := g.entries[j := e])
  }

  predicate CanStart(g: Gather, j: nat) {
    j < |g.entries| && g.entries[j].Idle?
  }

  predicate CanResolve(g: Gather, j: nat) {
    j < |g.entries| && g.entries[j].Waiting?
  }

  /** The send blocks while the queue is full. */
  predicate CanEnqueue(g: Gather, j: nat) {
    j < |g.entries| && g.entries[j].Got? && |g.queue| < |g.entries|
  }

  predicate CanCollect(g: Gather) {
    && g.collector.Collecting? && g.collector.count < |g.entries| && g.queue != []
    && g.queue[0] < |g.entries| && g.entries[g.queue[0]].Queued?
  }

  predicate CanReturn(g: Gather) {
    g.collector.Collecting? && g.collector.count == |g.entries|
  }

  function Start(g: Gather, j: nat): Gather
    requires CanStart(g, j)
  {
    Set(g, j, Waiting)
  }

  function Resolve(g: Gather, j: nat, err: bool): Gather
    requires CanResolve(g, j)
  {
    Set(g, j, Got(err))
  }

  function Enqueue(g: Gather, j: nat): Gather
    requires CanEnqueue(g, j)
  {
    Set(g, j, Queued(g.entries[j].err)).(queue := g.queue + [j])
  }

  function StartCollector(g: Gather): Gather
    requires g.collector.NotStarted?
  {
    g.(collector := Collecting(0, false))
  }

  function Collect(g: Gather): Gather
    requires CanCollect(g)
  {
    var j := g.queue[0];
    var err := g.entries[j].err;
    Set(g, j, Collected(err)).(
      queue := g.queue[1..],
      collector := Collecting(g.collector.count + 1, g.collector.failed || err))
  }

  function Return(g: Gather): Gather
    requires CanReturn(g)
  {
    g.(collector := Returned(g.collector.failed))
  }

  // ---------- What every step keeps ----------

  function IsCollected(e: Entry): nat {
    if e.Collected? then 1 else 0
  }

  function IsQueued(e: Entry): nat {
    if e.Queued? then 1 else 0
  }

  function EntryWork(e: Entry): nat {
    match e
    case Idle => 4
    case Waiting => 3
    case Got(_) => 2
    case Queued(_) => 1
    case Collected(_) => 0
  }

  function CollectorWork(c: Collector): nat {
    match c
    case NotStarted => 2
    case Collecting(_, _) => 1
    case Returned(_) => 0
  }

  /** The steps still to come, weighed so that each one counts. */
  function Work(g: Gather): nat {
    Total(g.entries, EntryWork) + CollectorWork(g.collector)
  }

  ghost predicate AnyError(g: Gather) {
    exists j :: 0 <= j < |g.entries| && g.entries[j] == Collected(true)
  }

  ghost predicate AllCollected(g: Gather) {
    forall j :: 0 <= j < |g.entries| ==> g.entries[j].Collected?
  }

  ghost predicate AllStarted(g: Gather) {
    forall j :: 0 <= j < |g.entries| ==> !g.entries[j].Idle?
  }

  /** The queue holds exactly the queued promises, each once. */
  ghost predicate QueueInv(g: Gather) {
    && (forall x, y :: 0 <= x < y < |g.queue| ==> g.queue[x] != g.queue[y])
    && (forall x :: 0 <= x < |g.queue| ==> g.queue[x] < |g.entries| && g.entries[g.queue[x]].Queued?)
    && (forall j :: 0 <= j < |g.entries| && g.entries[j].Queued? ==> j in g.queue)
    && |g.queue| == Total(g.entries, IsQueued)
  }

  /** The collector has counted what was collected, and failed exactly when some of it was an error. */
  ghost predicate CollectorInv(g: Gather) {
    match g.collector
    case NotStarted => forall j :: 0 <= j < |g.entries| ==> !g.entries[j].Collected?
    case Collecting(count, failed) => count == Total(g.entries, IsCollected) && (failed <==> AnyError(g))
    case Returned(failed) => AllCollected(g) && (failed <==> AnyError(g))
  }

  ghost predicate Inv(g: Gather) {
    QueueInv(g) && CollectorInv(g)
  }

  lemma FreshInv(n: nat)
    ensures Inv(Fresh(n))
  {
    TotalZero(Fresh(n).entries, IsQueued);
  }

  /** A change of one entry, neither into nor out of the queue or the collection, keeps the invariant. */
  lemma SetKeeps(g: Gather, j: nat, e: Entry)
    requires Inv(g) && j < |g.entries|
    requires !g.entries[j].Queued? && !g.entries[j].Collected? && !e.Queued? && !e.Collected?
    ensures Inv(Set(g, j, e))
    ensures Work(Set(g, j, e)) + EntryWork(g.entries[j]) == Work(g) + EntryWork(e)
  {
    TotalUpdate(g.entries, j, e, IsCollected);
    TotalUpdate(g.entries, j, e, IsQueued);
    TotalUpdate(g.entries, j, e, EntryWork);
    var h := Set(g, j, e);
    if k :| 0 <= k < |g.entries| && g.entries[k] == Collected(true) { assert h.entries[k] == Collected(true); }
    if k :| 0 <= k < |h.entries| && h.entries[k] == Collected(true) { assert g.entries[k] == Collected(true); }
  }

  lemma EnqueueKeepsQueue(g: Gather, j: nat)
    requires QueueInv(g) && CanEnqueue(g, j)
    ensures QueueInv(Enqueue(g, j))
  {
    var h := Enqueue(g, j);
    TotalUpdate(g.entries, j, h.entries[j], IsQueued);
    assert h.queue[|g.queue|] == j;
    forall k | 0 <= k < |h.entries| && h.entries[k].Queued?
      ensures k in h.queue
    {
      if k != j { assert k in g.queue; }
    }
  }

  lemma EnqueueKeeps(g: Gather, j: nat)
    requires Inv(g) && CanEnqueue(g, j)
    ensures Inv(Enqueue(g, j)) && Work(Enqueue(g, j)) < Work(g)
  {
    var h := Enqueue(g, j);
    EnqueueKeepsQueue(g, j);
    TotalUpdate(g.entries, j, h.entries[j], IsCollected);
    TotalUpdate(g.entries, j, h.entries[j], EntryWork);
    if k :| 0 <= k < |g.entries| && g.entries[k] == Collected(true) { assert h.entries[k] == Collected(true); }
    if k :| 0 <= k < |h.entries| && h.entries[k] == Collected(true) { assert g.entries[k] == Collected(true); }
  }

  lemma CollectKeepsQueue(g: Gather)
    requires QueueInv(g) && CanCollect(g)
    ensures QueueInv(Collect(g))
  {
    var j, h := g.queue[0], Collect(g);
    TotalUpdate(g.entries, j, h.entries[j], IsQueued);
    forall k | 0 <= k < |h.entries| && h.entries[k].Queued?
      ensures k in h.queue
    {
      var x :| 0 <= x < |g.queue| && g.queue[x] == k;
      assert h.queue[x - 1] == k;
    }
  }

  lemma CollectKeepsCount(g: Gather)
    requires CollectorInv(g) && CanCollect(g)
    ensures CollectorInv(Collect(g))
  {
    var j, h := g.queue[0], Collect(g);
    TotalUpdate(g.entries, j, h.entries[j], IsCollected);
    assert h.entries[j] == Collected(g.entries[j].err);
    if k :| 0 <= k < |g.entries| && g.entries[k] == Collected(true) { assert h.entries[k] == Collected(true); }
    if k :| 0 <= k < |h.entries| && h.entries[k] == Collected(true) && k != j {
      assert g.entries[k] == Collected(true);
    }
  }

  lemma CollectKeeps(g: Gather)
    requires Inv(g) && CanCollect(g)
    ensures Inv(Collect(g)) && Work(Collect(g)) < Work(g)
  {
    CollectKeepsQueue(g);
    CollectKeepsCount(g);
    TotalUpdate(g.entries, g.queue[0], Collected(g.entries[g.queue[0]].err), EntryWork);
  }

  lemma StartCollectorKeeps(g: Gather)
    requires Inv(g) && g.collector.NotStarted?
    ensures Inv(StartCollector(g)) && Work(StartCollector(g)) < Work(g)
  {
    TotalZero(g.entries, IsCollected);
  }

  lemma ReturnKeeps(g: Gather)
    requires Inv(g) && CanReturn(g)
    ensures Inv(Return(g)) && Work(Return(g)) < Work(g)
  {
    TotalFull(g.entries, IsCollected);
  }

  // ---------- What follows ----------

  /** A send into the result queue never blocks. */
  lemma SendNeverBlocks(g: Gather, j: nat)
    requires Inv(g) && j < |g.entries| && g.entries[j].Got?
    ensures CanEnqueue(g, j)
  {
    TotalFull(g.entries, IsQueued);
    assert IsQueued(g.entries[j]) == 0;
  }

  /** Once every promise was waited for and nothing is on its way, a started collector is able to move. */
  lemma CollectorMoves(g: Gather)
    requires Inv(g) && AllStarted(g) && g.collector.Collecting?
    requires forall j :: 0 <= j < |g.entries| ==> !g.entries[j].Waiting? && !g.entries[j].Got?
    ensures CanCollect(g) || CanReturn(g)
  {
    TotalFull(g.entries, IsCollected);
    if g.queue == [] {
      assert AllCollected(g);
    } else {
      assert IsCollected(g.entries[g.queue[0]]) == 0;
    }
  }
}
