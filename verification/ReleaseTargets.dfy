/** The release targets of the build, as plans, and the concurrency each of them needs. */
module ReleaseTargets {
  import opened Wrappers
  import opened Decimals
  import opened Totals
  import opened Launchers
  import opened Releases
  import opened Deadlock
  import opened ReleaseRuns
  import opened ReleaseCounts

  /** A 64-bit machine word. */
  const WORD: nat := 0x1_0000_0000_0000_0000
  const INT_MAX: nat := 0x7FFF_FFFF_FFFF_FFFF

  /** The conversion of an unsigned machine word to a signed one. */
  function ToInt(v: nat): int
    requires v < WORD
  {
    if v <= INT_MAX then v else v - WORD
  }

  /**
   The capacity of the concurrency queue: the environment's value when it is set, the number of processors otherwise.
   An unreadable value is a panic. The queue is never of capacity zero.
   */
  function Concurrency(variable: string, processors: nat): (n: Option<nat>)
    requires processors >= 1
    ensures n.None? <==> variable != "" && !(IsDecimal(variable) && Value(variable) < 0x1_0000_0000_0000_0000)
    ensures n.Some? ==> 1 <= n.value
    ensures variable == "" ==> n == Some(processors)
    ensures IsDecimal(variable) && Value(variable) <= 0x7FFF_FFFF_FFFF_FFFF ==>
              n == Some(if Value(variable) == 0 then 1 else Value(variable))
    ensures IsDecimal(variable) && 0x8000_0000_0000_0000 <= Value(variable) < 0x1_0000_0000_0000_0000 ==> n == Some(1)
  {
    if variable == "" then Some(processors)
    else
      var pv := ParseUint(variable, WORD);
      if pv.None? then None else if ToInt(pv.value) < 1 then Some(1) else Some(ToInt(pv.value))
  }

  const PLATFORMS: seq<string> :=
    ["linux", "linux", "linux", "linux", "darwin", "darwin", "windows", "windows", "freebsd"]

  /** A windows release is archived twice. */
  function Archives(os: string): nat {
    if os == "windows" then 2 else 1
  }

  /** `ReleaseAll`: for each platform the builds, and after them the archives, all platforms side by side. */
  function ReleaseAll(capacity: nat, platforms: seq<string>, cmds: nat): Plan {
    Plan(capacity, false, seq(|platforms|, i requires 0 <= i < |platforms| => [cmds, Archives(platforms[i])]))
  }

  /** `ReleaseBinAll`: the builds of one platform after another, launched by the main goroutine. */
  function ReleaseBinAll(capacity: nat, platforms: seq<string>, cmds: nat): Plan {
    Plan(capacity, true, [seq(|platforms|, _ => cmds)])
  }

  function LessOne(n: nat): nat {
    if n == 0 then 0 else n - 1
  }

  function Max(a: nat, b: nat): nat {
    if a >= b then a else b
  }

  /** The slots one platform can hold while it wants another. */
  function Share(os: string, cmds: nat): nat {
    Max(LessOne(cmds), LessOne(Archives(os)))
  }

  /** How many slots the platforms of `ReleaseAll` can hold while each of them wants another. */
  function Clogging(platforms: seq<string>, cmds: nat): nat {
    if platforms == [] then 0
    else Share(platforms[0], cmds) + Clogging(platforms[1..], cmds)
  }

  lemma {:induction false} CloggingIsNeed(capacity: nat, platforms: seq<string>, cmds: nat)
    ensures Sum(Needs(ReleaseAll(capacity, platforms, cmds))) == Clogging(platforms, cmds)
  {
    var needs := Needs(ReleaseAll(capacity, platforms, cmds));
    if platforms != [] {
      CloggingIsNeed(capacity, platforms[1..], cmds);
      assert needs[1..] == Needs(ReleaseAll(capacity, platforms[1..], cmds));
      var sizes := [cmds, Archives(platforms[0])];
      assert sizes[1..] == [Archives(platforms[0])] && sizes[1..][1..] == [];
      assert Need(sizes[1..]) == LessOne(Archives(platforms[0]));
      assert ReleaseAll(capacity, platforms, cmds).sizes[0] == sizes && needs[0] == Need(sizes);
    }
  }

  /** For any platforms, `ReleaseAll` is free of deadlock exactly with more slots than its platforms can clog. */
  lemma ReleaseAllBound(capacity: nat, platforms: seq<string>, cmds: nat)
    requires capacity >= 1
    ensures DeadlockFree(ReleaseAll(capacity, platforms, cmds)) <==> Clogging(platforms, cmds) < capacity
  {
    DeadlockFreeExactly(ReleaseAll(capacity, platforms, cmds));
    CloggingIsNeed(capacity, platforms, cmds);
  }

  /** The concurrency `ReleaseAll` needs with the platforms of this build. */
  lemma ReleaseAllHere(capacity: nat, cmds: nat)
    requires capacity >= 1
    ensures DeadlockFree(ReleaseAll(capacity, PLATFORMS, cmds)) <==>
              if cmds <= 1 then capacity >= 3 else capacity > 9 * (cmds - 1)
  {
    ReleaseAllBound(capacity, PLATFORMS, cmds);
    CloggingHere(cmds);
  }

  lemma {:induction false} CloggingConcat(a: seq<string>, b: seq<string>, cmds: nat)
    ensures Clogging(a + b, cmds) == Clogging(a, cmds) + Clogging(b, cmds)
  {
    if a == [] {
      assert a + b == b;
    } else {
      CloggingConcat(a[1..], b, cmds);
      assert (a + b)[0] == a[0] && (a + b)[1..] == a[1..] + b;
    }
  }

  lemma CloggingOfThree(a: string, b: string, c: string, cmds: nat)
    ensures Clogging([a, b, c], cmds) == Share(a, cmds) + Share(b, cmds) + Share(c, cmds)
  {
    hide Share;
    assert [a, b, c][1..] == [b, c] && [b, c][1..] == [c] && [c][1..] == [];
    assert Clogging([c], cmds) == Share(c, cmds);
    assert Clogging([b, c], cmds) == Share(b, cmds) + Share(c, cmds);
  }

  lemma CloggingHere(cmds: nat)
    ensures Clogging(PLATFORMS, cmds) == if cmds <= 1 then 2 else 9 * (cmds - 1)
  {
    hide Clogging;
    var a, b, c := ["linux", "linux", "linux"], ["linux", "darwin", "darwin"], ["windows", "windows", "freebsd"];
    assert PLATFORMS == a + b + c;
    CloggingConcat(a + b, c, cmds);
    CloggingConcat(a, b, cmds);
    CloggingOfThree("linux", "linux", "linux", cmds);
    CloggingOfThree("linux", "darwin", "darwin", cmds);
    CloggingOfThree("windows", "windows", "freebsd", cmds);
  }

  lemma {:induction false} NeedOfEqual(count: nat, cmds: nat)
    ensures Need(seq(count, _ => cmds)) == if count == 0 then 0 else LessOne(cmds)
  {
    if count > 0 {
      NeedOfEqual(count - 1, cmds);
      assert seq(count, _ => cmds)[1..] == seq(count - 1, _ => cmds);
    }
  }

  /** `ReleaseBinAll` is free of deadlock exactly when the builds of one platform fit into the queue. */
  lemma ReleaseBinAllBound(capacity: nat, platforms: seq<string>, cmds: nat)
    requires capacity >= 1 && platforms != []
    ensures DeadlockFree(ReleaseBinAll(capacity, platforms, cmds)) <==> cmds <= capacity
  {
    var p := ReleaseBinAll(capacity, platforms, cmds);
    DeadlockFreeExactly(p);
    NeedOfEqual(|platforms|, cmds);
    assert Needs(p)[1..] == [];
    assert Sum(Needs(p)) == Needs(p)[0];
  }

  // ---------- What is built and archived ----------

  /**
   When `ReleaseBinAll` is over, every command of every platform has been built once, whichever of the builds failed,
   and nothing else has run.
   */
  lemma ReleaseBinAllBuilds(capacity: nat, platforms: seq<string>, cmds: nat, steps: seq<Step>, t: State, b: nat)
    requires capacity >= 1
    requires var p := ReleaseBinAll(capacity, platforms, cmds); Run(p, Init(p), steps, t) && Final(t)
    ensures ReturnsOf(steps, 0, b) == if b < |platforms| then cmds else 0
    ensures AllReturns(steps) == |platforms| * cmds
  {
    var p := ReleaseBinAll(capacity, platforms, cmds);
    hide Run, Init, Final, ReturnsOf, AllReturns;
    if b < |platforms| { DeferredReturns(p, steps, t, b); } else { NoOtherReturns(p, steps, t, 0, b); }
    forall c: nat | c < |platforms|
      ensures ReturnsOf(steps, 0, c) == cmds
    {
      DeferredReturns(p, steps, t, c);
    }
    OneLauncherReturns(p, steps, t, cmds);
  }

  /**
   When `ReleaseAll` is over, every command of every platform has been built once, and the platform archived, windows
   twice and the others once, if and only if none of its builds failed; nothing else has run.
   */
  lemma ReleaseAllBuilds(capacity: nat, platforms: seq<string>, cmds: nat, steps: seq<Step>, t: State, i: nat)
    requires capacity >= 1 && i < |platforms|
    requires var p := ReleaseAll(capacity, platforms, cmds); Run(p, Init(p), steps, t) && Final(t)
    ensures ReturnsOf(steps, i, 0) == cmds
    ensures ReturnsOf(steps, i, 1)
            == if exists j :: Local(i, FnReturn(0, j, true)) in steps then 0
               else if platforms[i] == "windows" then 2 else 1
    ensures forall b :: b >= 2 ==> ReturnsOf(steps, i, b) == 0
    ensures forall k, b :: k >= |platforms| ==> ReturnsOf(steps, k, b) == 0
  {
    var p := ReleaseAll(capacity, platforms, cmds);
    hide Run, Init, Final, ReturnsOf, Archives;
    WaitingReturns(p, steps, t, i, 0);
    WaitingReturns(p, steps, t, i, 1);
    FailsInIs(steps, i, 0);
    assert (exists c :: 0 <= c < 1 && FailsIn(steps, i, c)) <==> FailsIn(steps, i, 0);
    ArchivesIs(platforms[i]);
    hide FailsIn;
    forall b: nat | b >= 2
      ensures ReturnsOf(steps, i, b) == 0
    {
      NoOtherReturns(p, steps, t, i, b);
    }
    forall k: nat, b: nat | k >= |platforms|
      ensures ReturnsOf(steps, k, b) == 0
    {
      NoOtherReturns(p, steps, t, k, b);
    }
  }

  lemma ArchivesIs(os: string)
    ensures Archives(os) == if os == "windows" then 2 else 1
  {
  }

  /** No archive of a platform is done before all its builds are, without an error, in any run, finished or not. */
  lemma ArchivesAfterBuilds(capacity: nat, platforms: seq<string>, cmds: nat, steps: seq<Step>, t: State, k: nat,
                            i: nat)
    requires capacity >= 1 && k < |steps| && IsReturn(steps[k], i, 1)
    requires var p := ReleaseAll(capacity, platforms, cmds); Run(p, Init(p), steps, t)
    ensures ReturnsOf(steps[..k], i, 0) == cmds
    ensures forall j :: Local(i, FnReturn(0, j, true)) !in steps[..k]
  {
    var p := ReleaseAll(capacity, platforms, cmds);
    hide Run, Init, ReturnsOf, Archives;
    BatchesInOrder(p, steps, t, k, i, 1, 0);
    FailsInIs(steps[..k], i, 0);
  }
}
