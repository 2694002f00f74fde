/**
 The release targets: `ReleaseAll` runs one launcher a platform under an outer `waitResults`; `ReleaseBinAll` launches
 every platform's builds from the main goroutine and hands the collectors to the outer `waitResults`.
 */
module Releases {
  import opened Wrappers
  import opened Totals
  import G = Gathering
  import opened Launchers

  /** The queue's capacity, and the batches each launcher goes through. */
  datatype Plan = Plan(capacity: nat, deferred: bool, sizes: seq<seq<nat>>)

  datatype State = State(launchers: seq<Launcher>, slots: int, waitGroup: int, outer: G.Gather)

  datatype Step =
    | Local(i: nat, act: Act)
    | OuterStart(e: nat)
    | OuterResolve(e: nat)
    | OuterEnqueue(e: nat)
    | OuterStartCollector
    | OuterCollect
    | OuterReturn

  /** The queue is never empty-handed, and collectors are deferred by the main goroutine alone. */
  predicate Valid(p: Plan) {
    p.capacity >= 1 && (p.deferred ==> |p.sizes| == 1)
  }

  /** How many promises the outer `waitResults` is given. */
  function Width(p: Plan): nat
    requires Valid(p)
  {
    if p.deferred then |p.sizes[0]| else |p.sizes|
  }

  function Init(p: Plan): State
    requires Valid(p)
  {
    State(seq(|p.sizes|, i requires 0 <= i < |p.sizes| => NewLauncher(p.sizes[i])), 0, 0, G.Fresh(Width(p)))
  }

  // ---------- Steps ----------

  /** What an outer promise answers, once it can. */
  function Answer(p: Plan, s: State, e: nat): Option<bool> {
    if p.deferred then
      if |s.launchers| > 0 && e < |s.launchers[0].batches| && s.launchers[0].batches[e].gather.collector.Returned? then
        Some(s.launchers[0].batches[e].gather.collector.failed)
      else
        None
    else if e < |s.launchers| && Over(s.launchers[e]) then Some(s.launchers[e].failed)
    else None
  }

  /** The outer receiver of promise `e` is inside the promise. */
  predicate Awake(s: State, e: nat) {
    e < |s.outer.entries| && s.outer.entries[e].Waiting?
  }

  /** Whose goroutine takes the act: that of an outer receiver has to be there. */
  predicate OnStage(p: Plan, s: State, i: nat, a: Act) {
    if p.deferred then a.StartCollector? ==> Awake(s, a.b)
    else a.Acquire? || a.Spawn? || a.StartReceiver? || a.Proceed? || a.StartCollector? ==> Awake(s, i)
  }

  predicate CanStep(p: Plan, s: State, step: Step) {
    match step
    case Local(i, a) =>
      && i < |s.launchers| && CanAct(p.deferred, s.launchers[i], a) && OnStage(p, s, i, a)
      && (a.Acquire? ==> s.slots < p.capacity)
      && (a.Release? ==> s.slots > 0)
    case OuterStart(e) =>
      G.CanStart(s.outer, e) && (p.deferred ==> forall l :: l in s.launchers ==> l.at == |l.batches|)
    case OuterResolve(e) => G.CanResolve(s.outer, e) && Answer(p, s, e).Some?
    case OuterEnqueue(e) => G.CanEnqueue(s.outer, e)
    case OuterStartCollector =>
      && s.outer.collector.NotStarted?
      && forall e :: 0 <= e < |s.outer.entries| ==> !s.outer.entries[e].Idle?
    case OuterCollect => G.CanCollect(s.outer)
    case OuterReturn => G.CanReturn(s.outer)
  }

  function Next(p: Plan, s: State, step: Step): State
    requires CanStep(p, s, step)
  {
    match step
    case Local(i, a) => s.(
      launchers := s.launchers[i := Do(p.deferred, s.launchers[i], a)],
      slots := s.slots + (if a.Acquire? then 1 else if a.Release? then -1 else 0),
      waitGroup := s.waitGroup + (if a.Spawn? then 1 else if a.Done? then -1 else 0))
    case OuterStart(e) => s.(outer := G.Start(s.outer, e))
    case OuterResolve(e) => s.(outer := G.Resolve(s.outer, e, Answer(p, s, e).value))
    case OuterEnqueue(e) => s.(outer := G.Enqueue(s.outer, e))
    case OuterStartCollector => s.(outer := G.StartCollector(s.outer))
    case OuterCollect => s.(outer := G.Collect(s.outer))
    case OuterReturn => s.(outer := G.Return(s.outer))
  }

  /** `steps` lead from `s` to `t`. */
  ghost predicate Run(p: Plan, s: State, steps: seq<Step>, t: State)
    decreases |steps|
  {
    if steps == [] then s == t else CanStep(p, s, steps[0]) && Run(p, Next(p, s, steps[0]), steps[1..], t)
  }

  ghost predicate Stuck(p: Plan, s: State) {
    forall step :: !CanStep(p, s, step)
  }

  predicate AtRest(l: Launcher) {
    && Over(l)
    && forall b, j :: 0 <= b < |l.batches| && 0 <= j < |l.batches[b].jobs| ==>
         l.batches[b].jobs[j].Idle? || l.batches[b].jobs[j].Finished?
  }

  /** The outer collector has returned, and no goroutine is left behind. */
  predicate Final(s: State) {
    s.outer.collector.Returned? && forall i :: 0 <= i < |s.launchers| ==> AtRest(s.launchers[i])
  }

  // ---------- What every step keeps ----------

  ghost predicate LaunchersInv(p: Plan, launchers: seq<Launcher>) {
    && |launchers| == |p.sizes|
    && forall i :: 0 <= i < |launchers| ==> Launchers.Inv(p.deferred, launchers[i]) && Shaped(launchers[i], p.sizes[i])
  }

  ghost predicate OuterInv(p: Plan, s: State)
    requires Valid(p)
  {
    && |s.outer.entries| == Width(p) && G.Inv(s.outer)
    && (forall e :: 0 <= e < |s.outer.entries| && s.outer.entries[e].HasValue() ==>
          Answer(p, s, e) == Some(s.outer.entries[e].err))
    && (!s.outer.collector.NotStarted? ==> G.AllStarted(s.outer))
  }

  /** The outer receivers start only after the main goroutine is through with its own launches. */
  ghost predicate LaunchedFirst(p: Plan, s: State) {
    p.deferred ==>
      forall e, l :: 0 <= e < |s.outer.entries| && !s.outer.entries[e].Idle? && l in s.launchers ==> l.at == |l.batches|
  }

  ghost predicate Inv(p: Plan, s: State)
    requires Valid(p)
  {
    && LaunchersInv(p, s.launchers)
    && s.slots == Total(s.launchers, Held) <= p.capacity
    && s.waitGroup == Total(s.launchers, WaitedFor)
    && OuterInv(p, s) && LaunchedFirst(p, s)
  }

  function Work(s: State): nat {
    Total(s.launchers, Launchers.Work) + G.Work(s.outer)
  }

  lemma InitInv(p: Plan)
    requires Valid(p)
    ensures Inv(p, Init(p))
  {
    var s := Init(p);
    forall i | 0 <= i < |p.sizes|
      ensures Launchers.Inv(p.deferred, s.launchers[i]) && Held(s.launchers[i]) == WaitedFor(s.launchers[i]) == 0
    {
      NewInv(p.deferred, p.sizes[i]);
      NewHolds(p.sizes[i]);
    }
    TotalZero(s.launchers, Held);
    TotalZero(s.launchers, WaitedFor);
    G.FreshInv(Width(p));
  }

  lemma NewHolds(sizes: seq<nat>)
    ensures Held(NewLauncher(sizes)) == WaitedFor(NewLauncher(sizes)) == 0
  {
    var l := NewLauncher(sizes);
    forall b | 0 <= b < |l.batches|
      ensures HeldIn(l.batches[b]) == CountedIn(l.batches[b]) == 0
    {
      TotalZero(l.batches[b].jobs, Holds);
      TotalZero(l.batches[b].jobs, Counted);
    }
    TotalZero(l.batches, HeldIn);
    TotalZero(l.batches, CountedIn);
  }

  lemma LocalKeepsLaunchers(p: Plan, s: State, i: nat, a: Act)
    requires Valid(p) && Inv(p, s) && CanStep(p, s, Local(i, a))
    ensures var t := Next(p, s, Local(i, a));
            && LaunchersInv(p, t.launchers)
            && t.slots == Total(t.launchers, Held) <= p.capacity
            && t.waitGroup == Total(t.launchers, WaitedFor)
            && Work(t) < Work(s)
  {
    hide Launchers.Inv, CanAct, Do, OnStage, Held, WaitedFor, Launchers.Work, Shaped, OuterInv, LaunchedFirst;
    var l, l' := s.launchers[i], Do(p.deferred, s.launchers[i], a);
    InvBounds(p.deferred, l, a);
    ActKeeps(p.deferred, l, a);
    ActShape(p.deferred, l, a, p.sizes[i]);
    ActEffect(p.deferred, l, a);
    TotalUpdate(s.launchers, i, l', Held);
    TotalUpdate(s.launchers, i, l', WaitedFor);
    TotalUpdate(s.launchers, i, l', Launchers.Work);
  }

  lemma LocalKeepsOuter(p: Plan, s: State, i: nat, a: Act)
    requires Valid(p) && Inv(p, s) && CanStep(p, s, Local(i, a))
    ensures var t := Next(p, s, Local(i, a)); OuterInv(p, t) && LaunchedFirst(p, t)
  {
    hide Launchers.Inv, CanAct, OnStage, Shaped, G.Inv, Do;
    var t := Next(p, s, Local(i, a));
    AnswersStay(p.deferred, s.launchers[i], a);
    forall e | 0 <= e < |s.outer.entries| && s.outer.entries[e].HasValue()
      ensures Answer(p, t, e) == Answer(p, s, e)
    {
    }
  }

  /** The outer promises alone have moved on, any new value being the promise's answer. */
  lemma WithOuter(p: Plan, s: State, g: G.Gather)
    requires Valid(p) && Inv(p, s) && G.Inv(g) && |g.entries| == |s.outer.entries|
    requires forall e :: 0 <= e < |g.entries| && g.entries[e].HasValue() ==>
               Answer(p, s, e) == Some(g.entries[e].err)
    requires !g.collector.NotStarted? ==> G.AllStarted(g)
    requires p.deferred ==> forall e, l :: 0 <= e < |g.entries| && !g.entries[e].Idle? && l in s.launchers ==>
               !s.outer.entries[e].Idle? || l.at == |l.batches|
    ensures Inv(p, s.(outer := g))
  {
    hide LaunchersInv, Held, WaitedFor, G.Inv;
    forall e
      ensures Answer(p, s.(outer := g), e) == Answer(p, s, e)
    {
    }
    hide Answer;
  }

  lemma OuterKeeps(p: Plan, s: State, step: Step)
    requires Valid(p) && Inv(p, s) && CanStep(p, s, step) && !step.Local?
    ensures Inv(p, Next(p, s, step)) && Work(Next(p, s, step)) < Work(s)
  {
    hide LaunchersInv, Held, WaitedFor, Launchers.Work, G.Inv, G.Work, Answer, OnStage;
    assert OuterInv(p, s) && LaunchedFirst(p, s);
    match step {
      case OuterStart(e) => G.SetKeeps(s.outer, e, G.Waiting);
      case OuterResolve(e) => G.SetKeeps(s.outer, e, G.Got(Answer(p, s, e).value));
      case OuterEnqueue(e) => G.EnqueueKeeps(s.outer, e);
      case OuterStartCollector => G.StartCollectorKeeps(s.outer);
      case OuterCollect => G.CollectKeeps(s.outer);
      case OuterReturn => G.ReturnKeeps(s.outer);
    }
    WithOuter(p, s, Next(p, s, step).outer);
  }

  /** Every step keeps the invariant and uses up some of the work. */
  lemma StepKeeps(p: Plan, s: State, step: Step)
    requires Valid(p) && Inv(p, s) && CanStep(p, s, step)
    ensures Inv(p, Next(p, s, step)) && Work(Next(p, s, step)) < Work(s)
  {
    if step.Local? {
      hide LaunchersInv, OuterInv, LaunchedFirst, CanStep;
      LocalKeepsLaunchers(p, s, step.i, step.act);
      LocalKeepsOuter(p, s, step.i, step.act);
    } else {
      OuterKeeps(p, s, step);
    }
  }
}
