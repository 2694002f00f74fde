/**
 `concurrencyLimitedBuild`: one goroutine a command, each taking a slot of the call's own queue, running the command,
 sending its error into a buffered channel and only then giving the slot back, while the caller collects the results.
 */
module LimitedBuild {
  import opened Totals

  datatype Command =
    | Unspawned
    | Wanting           // concurrencyControl <- struct{}{}
    | Running
    | Ran(err: bool)    // resultsCh <- buildCmd()
    | Sent(err: bool)   // <-concurrencyControl
    | Left(err: bool)
  {
    predicate HasRun() {
      Ran? || Sent? || Left?
    }
  }

  /** `results` is the list the caller appends to, `failed` whether `resultErr` is set. */
  datatype State = State(commands: seq<Command>, slots: int, channel: seq<bool>, results: seq<bool>, failed: bool,
                         returned: bool)

  datatype Step =
    | Spawn(i: nat)
    | Take(i: nat)
    | Finish(i: nat, err: bool)
    | Send(i: nat)
    | Free(i: nat)
    | Receive
    | Return

  function Init(n: nat): State {
    State(seq(n, _ => Unspawned), 0, [], [], false, false)
  }

  predicate CanStep(capacity: nat, s: State, step: Step) {
    match step
    case Spawn(i) =>
      i < |s.commands| && s.commands[i].Unspawned? && forall k :: 0 <= k < i ==> !s.commands[k].Unspawned?
    case Take(i) => i < |s.commands| && s.commands[i].Wanting? && s.slots < capacity
    case Finish(i, _) => i < |s.commands| && s.commands[i].Running?
    case Send(i) => i < |s.commands| && s.commands[i].Ran? && |s.channel| < |s.commands|
    case Free(i) => i < |s.commands| && s.commands[i].Sent? && s.slots > 0
    case Receive =>
      && (forall k :: 0 <= k < |s.commands| ==> !s.commands[k].Unspawned?)
      && |s.results| < |s.commands| && s.channel != []
    case Return =>
      && (forall k :: 0 <= k < |s.commands| ==> !s.commands[k].Unspawned?)
      && |s.results| == |s.commands| && !s.returned
  }

  function Set(s: State, i: nat, c: Command): State
    requires i < |s.commands|
  {
    s.(commands := s.commands[i := c])
  }

  function Next(capacity: nat, s: State, step: Step): State
    requires CanStep(capacity, s, step)
  {
    match step
    case Spawn(i) => Set(s, i, Wanting)
    case Take(i) => Set(s, i, Running).(slots := s.slots + 1)
    case Finish(i, err) => Set(s, i, Ran(err))
    case Send(i) => Set(s, i, Sent(s.commands[i].err)).(channel := s.channel + [s.commands[i].err])
    case Free(i) => Set(s, i, Left(s.commands[i].err)).(slots := s.slots - 1)
    case Receive =>
      s.(channel := s.channel[1..], results := s.results + [s.channel[0]], failed := s.failed || s.channel[0])
    case Return => s.(returned := true)
  }

  ghost predicate Run(capacity: nat, s: State, steps: seq<Step>, t: State)
    decreases |steps|
  {
    if steps == [] then s == t
    else CanStep(capacity, s, steps[0]) && Run(capacity, Next(capacity, s, steps[0]), steps[1..], t)
  }

  predicate Final(s: State) {
    s.returned && forall i :: 0 <= i < |s.commands| ==> s.commands[i].Left?
  }

  // ---------- What every step keeps ----------

  function Holds(c: Command): nat {
    if c.Running? || c.Ran? || c.Sent? then 1 else 0
  }

  function RunsNow(c: Command): nat {
    if c.Running? then 1 else 0
  }

  function WasSent(c: Command): nat {
    if c.Sent? || c.Left? then 1 else 0
  }

  function SentError(c: Command): nat {
    if (c.Sent? || c.Left?) && c.err then 1 else 0
  }

  function IsError(err: bool): nat {
    if err then 1 else 0
  }

  function CommandWork(c: Command): nat {
    match c
    case Unspawned => 6
    case Wanting => 5
    case Running => 4
    case Ran(_) => 3
    case Sent(_) => 1
    case Left(_) => 0
  }

  function Work(s: State): nat {
    Total(s.commands, CommandWork) + |s.channel| + if s.returned then 0 else 1
  }

  /** What was sent is in the channel or among the results, errors included. */
  ghost predicate Inv(capacity: nat, s: State) {
    && s.slots == Total(s.commands, Holds) <= capacity
    && |s.channel| + |s.results| == Total(s.commands, WasSent)
    && Total(s.channel, IsError) + Total(s.results, IsError) == Total(s.commands, SentError)
    && (s.failed <==> Total(s.results, IsError) > 0)
    && (s.returned ==> |s.results| == |s.commands|)
  }

  lemma InitInv(capacity: nat, n: nat)
    ensures Inv(capacity, Init(n))
  {
    TotalZero(Init(n).commands, Holds);
    TotalZero(Init(n).commands, WasSent);
    TotalZero(Init(n).commands, SentError);
  }

  /** The totals after a change of one command. */
  lemma SetEffect(s: State, i: nat, c: Command)
    requires i < |s.commands|
    ensures var commands, c0 := Set(s, i, c).commands, s.commands[i];
            && Total(commands, Holds) + Holds(c0) == Total(s.commands, Holds) + Holds(c)
            && Total(commands, WasSent) + WasSent(c0) == Total(s.commands, WasSent) + WasSent(c)
            && Total(commands, SentError) + SentError(c0) == Total(s.commands, SentError) + SentError(c)
            && Total(commands, CommandWork) + CommandWork(c0) == Total(s.commands, CommandWork) + CommandWork(c)
  {
    TotalUpdate(s.commands, i, c, Holds);
    TotalUpdate(s.commands, i, c, WasSent);
    TotalUpdate(s.commands, i, c, SentError);
    TotalUpdate(s.commands, i, c, CommandWork);
  }

  lemma StepKeeps(capacity: nat, s: State, step: Step)
    requires Inv(capacity, s) && CanStep(capacity, s, step)
    ensures var t := Next(capacity, s, step); Inv(capacity, t) && Work(t) < Work(s) && |t.commands| == |s.commands|
  {
    hide Total;
    match step
    case Spawn(i) => SetEffect(s, i, Wanting);
    case Take(i) => SetEffect(s, i, Running);
    case Finish(i, err) => SetEffect(s, i, Ran(err));
    case Send(i) =>
      SetEffect(s, i, Sent(s.commands[i].err));
      TotalSnoc(s.channel, s.commands[i].err, IsError);
    case Free(i) => SetEffect(s, i, Left(s.commands[i].err));
    case Receive =>
      TotalSnoc(s.results, s.channel[0], IsError);
      TotalFirst(s.channel, IsError);
    case Return =>
  }

  lemma {:induction false} RunKeeps(capacity: nat, s: State, steps: seq<Step>, t: State)
    requires Inv(capacity, s) && Run(capacity, s, steps, t)
    ensures Inv(capacity, t) && |t.commands| == |s.commands|
    ensures |steps| + Work(t) <= Work(s)
    decreases |steps|
  {
    hide Inv, CanStep, Work;
    if steps != [] {
      StepKeeps(capacity, s, steps[0]);
      RunKeeps(capacity, Next(capacity, s, steps[0]), steps[1..], t);
    }
  }

  // ---------- Results ----------

  /** The work a call of `n` commands can take: every run has at most this many steps. */
  lemma {:induction false} InitWork(n: nat)
    ensures Work(Init(n)) == 6 * n + 1
  {
    if n > 0 {
      InitWork(n - 1);
      assert Init(n).commands[1..] == Init(n - 1).commands;
    }
  }

  /** At most `capacity` commands run at once, on every interleaving. */
  lemma AtMostCapacityRun(capacity: nat, n: nat, steps: seq<Step>, t: State)
    requires Run(capacity, Init(n), steps, t)
    ensures Total(t.commands, RunsNow) <= t.slots <= capacity
  {
    InitInv(capacity, n);
    RunKeeps(capacity, Init(n), steps, t);
    TotalBound(t.commands, RunsNow, Holds);
  }

  lemma StuckSlots(capacity: nat, s: State, i: nat)
    requires Inv(capacity, s) && i < |s.commands| && !s.commands[i].Left? && capacity >= 1
    requires forall step :: !CanStep(capacity, s, step)
    ensures s.commands[i].Wanting? && s.slots == capacity
  {
    TotalFull(s.commands, WasSent);
    TotalHas(s.commands, i, Holds);
    assert !CanStep(capacity, s, Take(i)) && !CanStep(capacity, s, Finish(i, false)) && !CanStep(capacity, s, Send(i));
    assert !CanStep(capacity, s, Free(i));
    assert WasSent(s.commands[i]) == 1 <==> s.commands[i].Sent?;
    StuckSpawned(capacity, s, i);
  }

  lemma {:induction false} StuckSpawned(capacity: nat, s: State, i: nat)
    requires i < |s.commands| && forall step :: !CanStep(capacity, s, step)
    ensures !s.commands[i].Unspawned?
    decreases i
  {
    forall k | 0 <= k < i
      ensures !s.commands[k].Unspawned?
    {
      StuckSpawned(capacity, s, k);
    }
    assert !CanStep(capacity, s, Spawn(i));
  }

  /** With at least one slot, a state in which nothing can happen is the end of the call. */
  lemma StuckIsFinal(capacity: nat, s: State)
    requires Inv(capacity, s) && capacity >= 1
    requires forall step :: !CanStep(capacity, s, step)
    ensures Final(s)
  {
    if i: nat :| i < |s.commands| && !s.commands[i].Left? {
      forall k | 0 <= k < |s.commands|
        ensures Holds(s.commands[k]) == 0
      {
        if !s.commands[k].Left? { StuckSlots(capacity, s, k); }
      }
      TotalZero(s.commands, Holds);
      StuckSlots(capacity, s, i);
    } else {
      TotalFull(s.commands, WasSent);
      assert !CanStep(capacity, s, Receive) && !CanStep(capacity, s, Return);
    }
  }

  /** The call finishes, on every interleaving and for any number of commands, when there is at least one slot. */
  lemma EveryRunFinishes(capacity: nat, n: nat, steps: seq<Step>, t: State)
    requires capacity >= 1 && Run(capacity, Init(n), steps, t)
    ensures |steps| <= 6 * n + 1
    ensures Final(t) || exists step :: CanStep(capacity, t, step)
  {
    InitInv(capacity, n);
    InitWork(n);
    RunKeeps(capacity, Init(n), steps, t);
    if forall step :: !CanStep(capacity, t, step) { StuckIsFinal(capacity, t); }
  }

  predicate Fails(steps: seq<Step>) {
    exists k :: 0 <= k < |steps| && steps[k].Finish? && steps[k].err
  }

  predicate SomeErred(s: State) {
    exists i :: 0 <= i < |s.commands| && s.commands[i].HasRun() && s.commands[i].err
  }

  lemma ErredStep(capacity: nat, s: State, step: Step)
    requires CanStep(capacity, s, step)
    ensures SomeErred(Next(capacity, s, step)) <==> SomeErred(s) || (step.Finish? && step.err)
  {
    var t := Next(capacity, s, step);
    if step.Finish? && step.err { assert t.commands[step.i].HasRun() && t.commands[step.i].err; }
    if i :| 0 <= i < |s.commands| && s.commands[i].HasRun() && s.commands[i].err {
      assert t.commands[i].HasRun() && t.commands[i].err;
    }
  }

  lemma {:induction false} ErredRun(capacity: nat, s: State, steps: seq<Step>, t: State)
    requires Run(capacity, s, steps, t)
    ensures SomeErred(t) <==> SomeErred(s) || Fails(steps)
    decreases |steps|
  {
    hide SomeErred, CanStep, Next;
    if steps != [] {
      ErredStep(capacity, s, steps[0]);
      ErredRun(capacity, Next(capacity, s, steps[0]), steps[1..], t);
      if k :| 0 <= k < |steps[1..]| && steps[1..][k].Finish? && steps[1..][k].err {
        assert steps[k + 1].Finish? && steps[k + 1].err;
      }
      if k :| 0 < k < |steps| && steps[k].Finish? && steps[k].err {
        assert steps[1..][k - 1].Finish? && steps[1..][k - 1].err;
      }
    }
  }

  /** The call returns an error exactly when some command failed; by then it has the result of every command. */
  lemma Verdict(capacity: nat, n: nat, steps: seq<Step>, t: State)
    requires Run(capacity, Init(n), steps, t) && t.returned
    ensures |t.results| == n
    ensures t.failed <==> Fails(steps)
  {
    InitInv(capacity, n);
    RunKeeps(capacity, Init(n), steps, t);
    ErredRun(capacity, Init(n), steps, t);
    TotalFull(t.commands, WasSent);
    TotalPositive(t.commands, SentError);
    if i :| 0 <= i < |t.commands| && t.commands[i].HasRun() && t.commands[i].err {
      assert SentError(t.commands[i]) == 1;
    }
  }

  /** How often command `i` finishes in the steps. */
  function Finishes(steps: seq<Step>, i: nat): nat {
    if steps == [] then 0
    else (if steps[0].Finish? && steps[0].i == i then 1 else 0) + Finishes(steps[1..], i)
  }

  lemma {:induction false} FinishesIsChange(capacity: nat, s: State, steps: seq<Step>, t: State, i: nat)
    requires Run(capacity, s, steps, t) && i < |s.commands|
    ensures |t.commands| == |s.commands|
    ensures (if t.commands[i].HasRun() then 1 else 0)
            == (if s.commands[i].HasRun() then 1 else 0) + Finishes(steps, i)
    decreases |steps|
  {
    if steps != [] { FinishesIsChange(capacity, Next(capacity, s, steps[0]), steps[1..], t, i); }
  }

  /** No command runs twice, and by the time the call returns each has run to its end once. */
  lemma EachCommandOnce(capacity: nat, n: nat, steps: seq<Step>, t: State, i: nat)
    requires Run(capacity, Init(n), steps, t) && i < n
    ensures Finishes(steps, i) <= 1
    ensures t.returned ==> Finishes(steps, i) == 1
  {
    InitInv(capacity, n);
    RunKeeps(capacity, Init(n), steps, t);
    FinishesIsChange(capacity, Init(n), steps, t, i);
    if t.returned {
      TotalFull(t.commands, WasSent);
      assert WasSent(t.commands[i]) == 1;
    }
  }
}
