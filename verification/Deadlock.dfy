/**
 When a release can get stuck. A launcher that wants its next slot holds those of the jobs of its batch launched so far,
 and none of these can give its slot back before the batch is complete. Together the launchers must not be able to hold
 the whole queue this way.
 */
module Deadlock {
  import opened Wrappers
  import opened Totals
  import G = Gathering
  import opened Launchers
  import opened Releases

  /** The most slots a launcher can hold while it wants another: all but one of its largest batch. */
  function Need(sizes: seq<nat>): nat {
    if sizes == [] then 0
    else
      var first := if sizes[0] == 0 then 0 else sizes[0] - 1;
      var rest := Need(sizes[1..]);
      if first >= rest then first else rest
  }

  lemma {:induction false} NeedBound(sizes: seq<nat>, b: nat)
    requires b < |sizes|
    ensures sizes[b] <= Need(sizes) + 1
  {
    if b > 0 {
      assert sizes[1..][b - 1] == sizes[b];
      NeedBound(sizes[1..], b - 1);
    }
  }

  /** The first of the largest batches. */
  function Spot(sizes: seq<nat>): nat {
    if sizes == [] || sizes[0] == Need(sizes) + 1 then 0 else 1 + Spot(sizes[1..])
  }

  lemma {:induction false} SpotIsLargest(sizes: seq<nat>)
    requires Need(sizes) > 0
    ensures Spot(sizes) < |sizes| && sizes[Spot(sizes)] == Need(sizes) + 1
  {
    if sizes[0] != Need(sizes) + 1 {
      SpotIsLargest(sizes[1..]);
    }
  }

  function Needs(p: Plan): seq<nat> {
    seq(|p.sizes|, i requires 0 <= i < |p.sizes| => Need(p.sizes[i]))
  }

  // ---------- When only slots are missing ----------

  /** Nothing can happen any more but taking a slot, or a function failing that could just as well not fail. */
  ghost predicate Jammed(p: Plan, s: State) {
    forall step :: CanStep(p, s, step) ==> step.Local? && (step.act.Acquire? || (step.act.FnReturn? && step.act.err))
  }

  lemma ReleaseNeverBlocks(p: Plan, s: State, i: nat, b: nat, j: nat)
    requires Valid(p) && Releases.Inv(p, s) && i < |s.launchers| && CanAct(p.deferred, s.launchers[i], Release(b, j))
    ensures CanStep(p, s, Local(i, Release(b, j)))
  {
    var l := s.launchers[i];
    TotalHas(l.batches[b].jobs, j, Holds);
    TotalHas(l.batches, b, HeldIn);
    TotalHas(s.launchers, i, Held);
  }

  /** The outer receivers have all begun, unless the main goroutine is still launching. */
  lemma JammedStarted(p: Plan, s: State, e: nat)
    requires Valid(p) && Releases.Inv(p, s) && Jammed(p, s) && e < |s.outer.entries|
    requires p.deferred ==> Over(s.launchers[0])
    ensures !s.outer.entries[e].Idle?
  {
    hide G.Inv;
    if p.deferred {
      var l := s.launchers[0];
      assert l.failed ==> BatchInv(p.deferred, l.at, l.next, l.failed, l.at, l.batches[l.at]);
    }
    assert !CanStep(p, s, OuterStart(e));
  }

  lemma JammedAct(p: Plan, s: State, i: nat, a: Act)
    requires Valid(p) && Releases.Inv(p, s) && Jammed(p, s)
    requires i < |s.launchers| && CanAct(p.deferred, s.launchers[i], a)
    ensures a.Acquire? || (a.FnReturn? && a.err) || (p.deferred && a.StartCollector?)
  {
    var l := s.launchers[i];
    assert CanStep(p, s, Local(i, a)) ==> a.Acquire? || (a.FnReturn? && a.err);
    assert !p.deferred && s.outer.entries[i].HasValue() ==> Over(l);
    if a.Release? {
      ReleaseNeverBlocks(p, s, i, a.b, a.j);
    } else if !p.deferred && (a.Spawn? || a.StartReceiver? || a.Proceed? || a.StartCollector?) {
      JammedStarted(p, s, i);
    }
  }

  lemma JammedSettled(p: Plan, s: State, i: nat)
    requires Valid(p) && Releases.Inv(p, s) && Jammed(p, s) && i < |s.launchers|
    ensures Settled(p.deferred, s.launchers[i])
  {
    hide CanAct, Releases.Inv, Jammed;
    forall a | CanAct(p.deferred, s.launchers[i], a)
      ensures a.Acquire? || (a.FnReturn? && a.err) || (p.deferred && a.StartCollector?)
    {
      JammedAct(p, s, i, a);
    }
  }

  lemma JammedHeld(p: Plan, s: State, i: nat)
    requires Valid(p) && Releases.Inv(p, s) && Jammed(p, s) && i < |s.launchers|
    ensures var l := s.launchers[i]; Held(l) == (if Wanting(l) then l.next else 0) <= Needs(p)[i]
  {
    hide Jammed, Held, CanStep;
    var l := s.launchers[i];
    JammedSettled(p, s, i);
    SettledHeld(p.deferred, l);
    if Wanting(l) {
      assert BatchInv(p.deferred, l.at, l.next, l.failed, l.at, l.batches[l.at]);
      NeedBound(p.sizes[i], l.at);
    }
  }

  /** The outer promises have all been answered and the answers sent on. */
  lemma JammedEntry(p: Plan, s: State, e: nat)
    requires Valid(p) && Releases.Inv(p, s) && Jammed(p, s) && e < |s.outer.entries|
    requires forall l :: l in s.launchers ==> Over(l)
    ensures !s.outer.entries[e].Idle? && !s.outer.entries[e].Waiting? && !s.outer.entries[e].Got?
  {
    hide G.Inv;
    JammedStarted(p, s, e);
    assert !CanStep(p, s, OuterResolve(e));
    if s.outer.entries[e].Got? {
      assert !CanStep(p, s, OuterEnqueue(e));
      G.SendNeverBlocks(s.outer, e);
    } else if p.deferred && s.outer.entries[e].Waiting? {
      JammedCollector(p, s, e);
    }
  }

  /** A collector that was called has returned. */
  lemma JammedCollector(p: Plan, s: State, e: nat)
    requires Valid(p) && Releases.Inv(p, s) && Jammed(p, s) && p.deferred && Over(s.launchers[0])
    requires Awake(s, e)
    ensures s.launchers[0].batches[e].gather.collector.Returned?
  {
    var l := s.launchers[0];
    var batch := l.batches[e];
    assert BatchInv(p.deferred, l.at, l.next, l.failed, e, batch);
    assert !CanStep(p, s, Local(0, StartCollector(e)));
    assert !CanStep(p, s, Local(0, Collect(e))) && !CanStep(p, s, Local(0, Return(e)));
    JammedSettled(p, s, 0);
    forall j | 0 <= j < |batch.jobs|
      ensures !batch.gather.entries[j].Waiting? && !batch.gather.entries[j].Got?
    {
      SettledEntry(p.deferred, l, e, j);
    }
    assert l.at == |l.batches|;
    assert Started(batch);
    if batch.gather.collector.Collecting? { G.CollectorMoves(batch.gather); }
  }

  /** Without a launcher waiting for a slot, everything is done. */
  lemma JammedFinal(p: Plan, s: State)
    requires Valid(p) && Releases.Inv(p, s) && Jammed(p, s)
    requires forall l :: l in s.launchers ==> !Wanting(l)
    ensures Final(s)
  {
    hide G.Inv, Launchers.Inv, Jammed;
    forall i | 0 <= i < |s.launchers|
      ensures AtRest(s.launchers[i])
    {
      JammedAtRest(p, s, i);
    }
    forall e | 0 <= e < |s.outer.entries|
      ensures !s.outer.entries[e].Idle? && !s.outer.entries[e].Waiting? && !s.outer.entries[e].Got?
    {
      JammedEntry(p, s, e);
    }
    JammedOuter(p, s);
  }

  lemma JammedAtRest(p: Plan, s: State, i: nat)
    requires Valid(p) && Releases.Inv(p, s) && Jammed(p, s) && i < |s.launchers| && !Wanting(s.launchers[i])
    ensures AtRest(s.launchers[i])
  {
    var l := s.launchers[i];
    JammedSettled(p, s, i);
    if !Over(l) { SettledLauncher(p.deferred, l); }
    forall b, j | 0 <= b < |l.batches| && 0 <= j < |l.batches[b].jobs|
      ensures l.batches[b].jobs[j].Idle? || l.batches[b].jobs[j].Finished?
    {
      SettledEntry(p.deferred, l, b, j);
    }
  }

  lemma JammedOuter(p: Plan, s: State)
    requires Valid(p) && Releases.Inv(p, s) && Jammed(p, s)
    requires forall e :: 0 <= e < |s.outer.entries| ==>
               !s.outer.entries[e].Idle? && !s.outer.entries[e].Waiting? && !s.outer.entries[e].Got?
    ensures s.outer.collector.Returned?
  {
    assert !CanStep(p, s, OuterStartCollector) && !CanStep(p, s, OuterCollect) && !CanStep(p, s, OuterReturn);
    if s.outer.collector.Collecting? { G.CollectorMoves(s.outer); }
  }

  /** The slots in use are at most what the launchers can hold while wanting another. */
  lemma JammedBound(p: Plan, s: State)
    requires Valid(p) && Releases.Inv(p, s) && Jammed(p, s)
    ensures s.slots <= Sum(Needs(p))
  {
    assert |s.launchers| == |Needs(p)| && s.slots == Total(s.launchers, Held);
    forall k | 0 <= k < |s.launchers|
      ensures Held(s.launchers[k]) <= Needs(p)[k]
    {
      JammedHeld(p, s, k);
    }
    hide *;
    TotalAtMostSum(s.launchers, Held, Needs(p));
  }

  /** A state that is stuck for good and not final is one where every slot is held and some launcher wants another. */
  lemma StuckIsFull(p: Plan, s: State)
    requires Valid(p) && Releases.Inv(p, s) && Stuck(p, s) && !Final(s)
    ensures s.slots == p.capacity <= Sum(Needs(p))
    ensures exists l :: l in s.launchers && Wanting(l)
  {
    assert Jammed(p, s);
    hide CanStep, Jammed, Final, Wanting, LaunchersInv, OuterInv, LaunchedFirst, Needs, Held;
    if forall l :: l in s.launchers ==> !Wanting(l) { JammedFinal(p, s); }
    var i: nat :| i < |s.launchers| && Wanting(s.launchers[i]);
    WantingAcquires(p, s, i);
    assert !CanStep(p, s, Local(i, Acquire));
    assert s.slots <= p.capacity;
    hide *;
    JammedBound(p, s);
  }

  /** Nothing but the capacity keeps a launcher from the slot it wants. */
  lemma WantingAcquires(p: Plan, s: State, i: nat)
    requires Valid(p) && Releases.Inv(p, s) && Jammed(p, s) && i < |s.launchers| && Wanting(s.launchers[i])
    ensures CanStep(p, s, Local(i, Acquire)) <==> s.slots < p.capacity
  {
    hide G.Inv, Launchers.Inv;
    if !p.deferred {
      JammedStarted(p, s, i);
      assert !s.outer.entries[i].HasValue();
    }
  }

  // ---------- A stuck state, when the slots do not suffice ----------

  /** Each launcher is to be caught in its largest batch, holding `parts[i]` slots. */
  ghost predicate Trap(p: Plan, parts: seq<nat>) {
    |parts| == |p.sizes| && forall i :: 0 <= i < |p.sizes| ==> parts[i] <= Need(p.sizes[i])
  }

  /** A step of a run into the trap: no function fails, and no launcher takes more slots in its spot than its part. */
  predicate Careful(p: Plan, parts: seq<nat>, s: State, step: Step)
    requires |parts| == |p.sizes| == |s.launchers|
  {
    && CanStep(p, s, step)
    && (step.Local? ==>
          && !(step.act.FnReturn? && step.act.err)
          && (step.act.Acquire? ==> Free(p.sizes[step.i], parts[step.i], s.launchers[step.i])))
  }

  /** Outside its spot a launcher is free to take slots. */
  predicate Free(sizes: seq<nat>, part: nat, l: Launcher) {
    Need(sizes) > 0 && l.at == Spot(sizes) ==> l.next < part
  }

  /** The launcher is on its way to its spot or in it. */
  ghost predicate Heading(sizes: seq<nat>, part: nat, l: Launcher) {
    && !l.failed && !Erred(l)
    && (Need(sizes) > 0 ==> l.at <= Spot(sizes))
    && (Need(sizes) > 0 && l.at == Spot(sizes) < |l.batches| ==>
          && l.next <= part
          && (l.next < |l.batches[l.at].jobs| && l.batches[l.at].jobs[l.next].Acquired? ==> l.next < part))
  }

  ghost predicate HeadingAll(p: Plan, parts: seq<nat>, s: State)
    requires |parts| == |p.sizes| == |s.launchers|
  {
    forall i :: 0 <= i < |p.sizes| ==> Heading(p.sizes[i], parts[i], s.launchers[i])
  }

  lemma ProceedHeads(deferred: bool, l: Launcher, sizes: seq<nat>, part: nat)
    requires Launchers.Inv(deferred, l) && CanAct(deferred, l, Proceed) && Shaped(l, sizes)
    requires Heading(sizes, part, l) && part <= Need(sizes)
    ensures Heading(sizes, part, Do(deferred, l, Proceed))
  {
    ErredAct(deferred, l, Proceed);
    assert BatchInv(deferred, l.at, l.next, l.failed, l.at, l.batches[l.at]);
    assert l.at + 1 < |l.batches| ==>
        BatchInv(deferred, l.at, l.next, l.failed, l.at + 1, l.batches[l.at + 1]);
    if !deferred { BatchAnswer(deferred, l, l.at); }
    if Need(sizes) > 0 { SpotIsLargest(sizes); }
    hide G.Inv, Launchers.Inv, Need, Spot;
  }

  lemma LaunchHeads(deferred: bool, l: Launcher, a: Act, sizes: seq<nat>, part: nat)
    requires Launchers.Inv(deferred, l) && CanAct(deferred, l, a) && Shaped(l, sizes) && (a.Acquire? || a.Spawn?)
    requires Heading(sizes, part, l) && (a.Acquire? ==> Free(sizes, part, l))
    ensures Heading(sizes, part, Do(deferred, l, a))
  {
    ErredAct(deferred, l, a);
    assert BatchInv(deferred, l.at, l.next, l.failed, l.at, l.batches[l.at]);
    hide G.Inv, Launchers.Inv, Erred, Need, Spot, Started;
  }

  lemma OtherHeads(deferred: bool, l: Launcher, a: Act, sizes: seq<nat>, part: nat)
    requires Launchers.Inv(deferred, l) && CanAct(deferred, l, a)
    requires !a.Acquire? && !a.Spawn? && !a.Proceed? && !(a.FnReturn? && a.err)
    requires Heading(sizes, part, l)
    ensures Heading(sizes, part, Do(deferred, l, a))
  {
    ErredAct(deferred, l, a);
    hide G.Inv, Launchers.Inv, Erred, Need, Spot, Started;
  }

  lemma CarefulHeads(p: Plan, parts: seq<nat>, s: State, step: Step)
    requires Valid(p) && Releases.Inv(p, s) && Trap(p, parts)
    requires Careful(p, parts, s, step) && HeadingAll(p, parts, s)
    ensures |Next(p, s, step).launchers| == |p.sizes| && HeadingAll(p, parts, Next(p, s, step))
  {
    hide Heading, Need, CanAct, Launchers.Inv, G.Inv, Shaped, Do, OnStage, Free;
    if step.Local? {
      var l, sizes, part := s.launchers[step.i], p.sizes[step.i], parts[step.i];
      if step.act.Proceed? {
        ProceedHeads(p.deferred, l, sizes, part);
      } else if step.act.Acquire? || step.act.Spawn? {
        LaunchHeads(p.deferred, l, step.act, sizes, part);
      } else {
        OtherHeads(p.deferred, l, step.act, sizes, part);
      }
    }
  }

  /** Careful steps are taken until there are none left. */
  lemma {:induction false} RunIntoTrap(p: Plan, parts: seq<nat>, s: State) returns (steps: seq<Step>, t: State)
    requires Valid(p) && Releases.Inv(p, s) && Trap(p, parts) && HeadingAll(p, parts, s)
    ensures Run(p, s, steps, t) && Releases.Inv(p, t) && HeadingAll(p, parts, t)
    ensures forall step :: !Careful(p, parts, t, step)
    decreases Releases.Work(s)
  {
    hide HeadingAll, CanStep, Releases.Work, Next;
    steps, t := [], s;
    if step :| Careful(p, parts, s, step) {
      StepKeeps(p, s, step);
      CarefulHeads(p, parts, s, step);
      var rest: seq<Step>;
      rest, t := RunIntoTrap(p, parts, Next(p, s, step));
      steps := [step] + rest;
      assert steps[1..] == rest;
    }
  }

  lemma InitHeads(p: Plan, parts: seq<nat>)
    requires Valid(p) && Trap(p, parts)
    ensures HeadingAll(p, parts, Init(p))
  {
    forall i | 0 <= i < |p.sizes|
      ensures Heading(p.sizes[i], parts[i], Init(p).launchers[i])
    {
      NewNotErred(p.sizes[i]);
    }
  }

  /** A function that could fail could return without an error as well. */
  lemma NoReturnLeft(p: Plan, parts: seq<nat>, t: State, i: nat, b: nat, j: nat)
    requires |parts| == |p.sizes| == |t.launchers|
    requires forall step :: !Careful(p, parts, t, step)
    ensures !CanStep(p, t, Local(i, FnReturn(b, j, true)))
  {
    assert !Careful(p, parts, t, Local(i, FnReturn(b, j, false)));
  }

  lemma TrapJams(p: Plan, parts: seq<nat>, t: State)
    requires |parts| == |p.sizes| == |t.launchers|
    requires forall step :: !Careful(p, parts, t, step)
    ensures Jammed(p, t)
  {
    hide CanStep, Free;
    forall step | CanStep(p, t, step)
      ensures step.Local? && (step.act.Acquire? || (step.act.FnReturn? && step.act.err))
    {
      assert !Careful(p, parts, t, step);
    }
  }

  lemma TrapStuck(p: Plan, parts: seq<nat>, t: State)
    requires |parts| == |p.sizes| == |t.launchers| && t.slots == p.capacity
    requires forall step :: !Careful(p, parts, t, step)
    ensures Stuck(p, t)
  {
    TrapJams(p, parts, t);
    hide Careful, CanAct, OnStage;
    forall step
      ensures !CanStep(p, t, step)
    {
      if step.Local? && step.act.FnReturn? && step.act.err {
        NoReturnLeft(p, parts, t, step.i, step.act.b, step.act.j);
      }
    }
  }

  /** With a slot to spare, a launcher that does nothing any more holds exactly its part. */
  lemma TrapHeld(p: Plan, parts: seq<nat>, t: State, i: nat)
    requires Valid(p) && Releases.Inv(p, t) && Trap(p, parts) && HeadingAll(p, parts, t) && i < |p.sizes|
    requires (forall step :: !Careful(p, parts, t, step)) && Jammed(p, t) && t.slots < p.capacity
    ensures Held(t.launchers[i]) == parts[i]
  {
    var l, sizes := t.launchers[i], p.sizes[i];
    assert Heading(sizes, parts[i], l) && l.at <= |l.batches| == |sizes|;
    JammedHeld(p, t, i);
    JammedSettled(p, t, i);
    if Need(sizes) > 0 { SpotIsLargest(sizes); }
    if !Over(l) { SettledLauncher(p.deferred, l); }
    if Wanting(l) { WantingAcquires(p, t, i); }
    assert !Careful(p, parts, t, Local(i, Acquire));
    hide Releases.Inv, Jammed, CanStep, Held, Erred, Need, Spot;
  }

  /** A queue that the launchers can fill up while they want more slots is, in some run, a deadlock. */
  lemma DeadlockReachable(p: Plan) returns (steps: seq<Step>, t: State)
    requires Valid(p) && Sum(Needs(p)) >= p.capacity
    ensures Run(p, Init(p), steps, t) && Stuck(p, t) && !Final(t) && t.slots == p.capacity
  {
    var parts := Distribute(Needs(p), p.capacity);
    InitInv(p);
    InitHeads(p, parts);
    steps, t := RunIntoTrap(p, parts, Init(p));
    TrapJams(p, parts, t);
    TrapFull(p, parts, t);
    TrapStuck(p, parts, t);
    if Final(t) { FinalIsFree(p, t); }
  }

  lemma TrapFull(p: Plan, parts: seq<nat>, t: State)
    requires Valid(p) && Releases.Inv(p, t) && Trap(p, parts) && HeadingAll(p, parts, t) && Sum(parts) == p.capacity
    requires (forall step :: !Careful(p, parts, t, step)) && Jammed(p, t)
    ensures t.slots == p.capacity
  {
    if t.slots < p.capacity {
      forall i | 0 <= i < |p.sizes|
        ensures Held(t.launchers[i]) == parts[i]
      {
        TrapHeld(p, parts, t, i);
      }
      TotalIsSum(t.launchers, Held, parts);
    }
  }

  /** At the end no slot is held and the wait group counts nobody. */
  lemma FinalIsFree(p: Plan, s: State)
    requires Valid(p) && Releases.Inv(p, s) && Final(s)
    ensures s.slots == s.waitGroup == 0
  {
    forall i | 0 <= i < |s.launchers|
      ensures Held(s.launchers[i]) == WaitedFor(s.launchers[i]) == 0
    {
      AtRestIsFree(s.launchers[i]);
    }
    TotalZero(s.launchers, Held);
    TotalZero(s.launchers, WaitedFor);
  }

  lemma AtRestIsFree(l: Launcher)
    requires AtRest(l)
    ensures Held(l) == WaitedFor(l) == 0
  {
    forall b | 0 <= b < |l.batches|
      ensures HeldIn(l.batches[b]) == CountedIn(l.batches[b]) == 0
    {
      TotalZero(l.batches[b].jobs, Holds);
      TotalZero(l.batches[b].jobs, Counted);
    }
    TotalZero(l.batches, HeldIn);
    TotalZero(l.batches, CountedIn);
  }
}
