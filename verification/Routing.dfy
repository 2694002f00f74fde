/**
 The greedy wildcard walk of `matchSite` over the flat index, and what it means: which registered pattern a
 host is sent to, when that is the most specific one, and which additions leave a host's route alone.
 */
module Routing {
  import opened Wrappers
  import opened SiteTrie
  import Strings

  // ---------- The walk ----------

  /** Where the walk over `rest` stops, starting at node `at`; `wild` says the last step taken was to a "*". */
  function Walk(nodes: set<Path>, at: Path, wild: bool, rest: Path): (end: Path)
    ensures at in nodes ==> end in nodes
    decreases |rest|
  {
    if rest == [] then at
    else if at + [rest[0]] in nodes then Walk(nodes, at + [rest[0]], false, rest[1..])
    else if at + [WILDCARD] in nodes then Walk(nodes, at + [WILDCARD], true, rest[1..])
    else if wild then Walk(nodes, at, true, rest[1..])
    else at
  }

  /** How many labels of `rest` the walk consumes before it stops. */
  function Used(nodes: set<Path>, at: Path, wild: bool, rest: Path): (n: nat)
    ensures n <= |rest|
    decreases |rest|
  {
    if rest == [] then 0
    else if at + [rest[0]] in nodes then 1 + Used(nodes, at + [rest[0]], false, rest[1..])
    else if at + [WILDCARD] in nodes then 1 + Used(nodes, at + [WILDCARD], true, rest[1..])
    else if wild then 1 + Used(nodes, at, true, rest[1..])
    else 0
  }

  function WalkFromRoot(nodes: set<Path>, labels: Path): (end: Path)
    ensures [] in nodes ==> end in nodes
  {
    Walk(nodes, [], false, labels)
  }

  /** `matchSite` on an index. */
  function Route(v: Index, host: string): Option<Backend>
    requires [] in v
  {
    v[WalkFromRoot(v.Keys, HostLabels(host))]
  }

  /** The reference router: the greedy walk over the prefixes of the registered hosts. */
  function Router(m: SiteMap, host: string): Option<Backend> {
    BackendAt(m, WalkFromRoot(NodeSet(m), HostLabels(host)))
  }

  /** Routing by the index built from any sequence of `AddSite` calls is routing by the registered hosts. */
  lemma RouteIsRouter(sites: seq<Site>, host: string)
    ensures [] in Build(sites)
    ensures Route(Build(sites), host) == Router(LastAdded(sites), host)
  {
    BuildIsFlatIndex(sites);
    var m := LastAdded(sites);
    assert FlatIndex(m).Keys == NodeSet(m);
  }

  lemma PermutedSitesRouteAlike(s: seq<Site>, t: seq<Site>, host: string)
    requires DistinctHosts(s) && DistinctHosts(t) && multiset(s) == multiset(t)
    ensures [] in Build(s) && [] in Build(t)
    ensures Route(Build(s), host) == Route(Build(t), host)
  {
    PermutationIndependent(s, t);
    RouteIsRouter(s, host);
  }

  // ---------- A registered host always finds its own backend ----------

  lemma {:induction false} WalkExact(nodes: set<Path>, at: Path, wild: bool, rest: Path)
    requires PrefixClosed(nodes) && at + rest in nodes
    ensures Walk(nodes, at, wild, rest) == at + rest
    decreases |rest|
  {
    if rest == [] {
      assert at + rest == at;
    } else {
      var next := at + [rest[0]];
      assert next + rest[1..] == at + rest;
      assert (at + rest)[..|next|] == next;
      WalkExact(nodes, next, false, rest[1..]);
    }
  }

  lemma NodeSetPrefix(m: SiteMap, p: Path, i: nat)
    requires p in NodeSet(m) && i <= |p|
    ensures p[..i] in NodeSet(m)
  {
    hide NodeSet, HostLabels;
    NodeSetMember(m, p);
    NodeSetMember(m, p[..i]);
    if p != [] {
      var h :| h in m && p <= HostLabels(h);
      assert p[..i] <= HostLabels(h);
    }
  }

  lemma NodeSetPrefixClosed(m: SiteMap)
    ensures PrefixClosed(NodeSet(m))
  {
    forall p, i | p in NodeSet(m) && 0 <= i <= |p|
      ensures p[..i] in NodeSet(m)
    {
      NodeSetPrefix(m, p, i);
    }
  }

  /** Every registered host, wildcard hosts spelled literally included, routes to what it was given last. */
  lemma RegisteredHostFindsItself(m: SiteMap, host: string)
    requires host in m
    ensures Router(m, host) == m[host]
  {
    var labels := HostLabels(host);
    NodeSetPrefixClosed(m);
    NodeSetMember(m, labels);
    assert [] + labels == labels;
    WalkExact(NodeSet(m), [], false, labels);
    HostLabelsInvertible(host);
  }

  // ---------- Soundness: what a route says about the host ----------

  /** Literals stand for themselves, each "*" for one or more labels. */
  predicate Matches(pattern: Path, labels: Path)
    decreases |labels|
  {
    if pattern == [] || labels == [] then pattern == labels
    else
      var p, l := pattern[|pattern| - 1], labels[|labels| - 1];
      || ((p == l || p == WILDCARD) && Matches(pattern[..|pattern| - 1], labels[..|labels| - 1]))
      || (p == WILDCARD && Matches(pattern, labels[..|labels| - 1]))
  }

  /** How the walk got to `at` after `done`: it matches, and the last step is as `wild` says. */
  ghost predicate Arrived(at: Path, wild: bool, done: Path) {
    && Matches(at, done)
    && (wild ==> at != [] && at[|at| - 1] == WILDCARD)
    && (!wild && at != [] ==> done != [] && at[|at| - 1] == done[|done| - 1])
  }

  /** The walk stopped early: after a literal step (or at the root), with no child for the next label. */
  ghost predicate Broke(nodes: set<Path>, end: Path, labels: Path, n: nat)
    requires n < |labels|
  {
    && end + [labels[n]] !in nodes
    && end + [WILDCARD] !in nodes
    && (end != [] ==> n > 0 && end[|end| - 1] == labels[n - 1])
  }

  /** The walk has consumed `n` labels, which `end` matches, and what stopped it there. */
  ghost predicate StopsAt(nodes: set<Path>, end: Path, labels: Path, n: nat) {
    n <= |labels| && Matches(end, labels[..n]) && (n < |labels| ==> Broke(nodes, end, labels, n))
  }

  lemma StepArrives(at: Path, wild: bool, labels: Path, n: nat)
    requires n < |labels| && Arrived(at, wild, labels[..n])
    ensures Arrived(at + [labels[n]], false, labels[..n + 1])
    ensures Arrived(at + [WILDCARD], true, labels[..n + 1])
    ensures wild ==> Arrived(at, true, labels[..n + 1])
  {
    assert labels[..n + 1][..n] == labels[..n];
    assert (at + [labels[n]])[..|at|] == at && (at + [WILDCARD])[..|at|] == at;
  }

  lemma {:induction false} WalkSound(nodes: set<Path>, at: Path, wild: bool, labels: Path, n: nat)
    requires n <= |labels| && Arrived(at, wild, labels[..n])
    ensures StopsAt(nodes, Walk(nodes, at, wild, labels[n..]), labels, n + Used(nodes, at, wild, labels[n..]))
    decreases |labels| - n
  {
    hide Matches;
    if n < |labels| {
      assert labels[n..][0] == labels[n] && labels[n..][1..] == labels[n + 1..];
      StepArrives(at, wild, labels, n);
      if at + [labels[n]] in nodes {
        WalkSound(nodes, at + [labels[n]], false, labels, n + 1);
      } else if at + [WILDCARD] in nodes {
        WalkSound(nodes, at + [WILDCARD], true, labels, n + 1);
      } else if wild {
        WalkSound(nodes, at, true, labels, n + 1);
      }
    }
  }

  /**
   A backend is only ever returned if it was registered for a pattern that matches a prefix of the host's
   labels, and the prefix is proper only when the walk broke after a literal step with no way on.
   */
  lemma MatchSound(m: SiteMap, host: string) returns (pattern: string, n: nat)
    requires Router(m, host).Some?
    ensures pattern in m && m[pattern] == Router(m, host)
    ensures 1 <= n <= |HostLabels(host)|
    ensures Matches(HostLabels(pattern), HostLabels(host)[..n])
    ensures n < |HostLabels(host)| ==> Broke(NodeSet(m), HostLabels(pattern), HostLabels(host), n)
  {
    var labels := HostLabels(host);
    var end := WalkFromRoot(NodeSet(m), labels);
    assert labels[..0] == [] && labels[0..] == labels;
    WalkSound(NodeSet(m), [], false, labels, 0);
    pattern, n := LabelsHost(end), Used(NodeSet(m), [], false, labels);
  }

  // ---------- The most specific handler ----------

  /** `pattern` matches with exactly one label for every "*". */
  predicate Fits(pattern: Path, labels: Path) {
    |pattern| == |labels| && forall i :: 0 <= i < |labels| ==> pattern[i] == labels[i] || pattern[i] == WILDCARD
  }

  predicate Registered(m: SiteMap, pattern: Path) {
    BackendAt(m, pattern).Some?
  }

  /** At the first label where they differ, top-level domain first, `p` is the literal and `q` is not. */
  ghost predicate AtLeastAsSpecific(p: Path, q: Path, labels: Path)
    requires Fits(p, labels) && Fits(q, labels)
  {
    p == q || exists i :: 0 <= i < |labels| && p[..i] == q[..i] && p[i] == labels[i] && q[i] != labels[i]
  }

  ghost predicate MostSpecific(m: SiteMap, p: Path, labels: Path) {
    && Registered(m, p) && Fits(p, labels)
    && forall q :: Registered(m, q) && Fits(q, labels) ==> AtLeastAsSpecific(p, q, labels)
  }

  /** The backtracking search the walk does not do: try the literal child first, then "*". */
  function Best(m: SiteMap, at: Path, rest: Path): Option<Path>
    decreases |rest|
  {
    if rest == [] then if Registered(m, at) then Some(at) else None
    else
      var literal := Best(m, at + [rest[0]], rest[1..]);
      if literal.Some? then literal else Best(m, at + [WILDCARD], rest[1..])
  }

  lemma {:induction false} BestFits(m: SiteMap, done: Path, at: Path, rest: Path)
    requires Fits(at, done) && Best(m, at, rest).Some?
    ensures var p := Best(m, at, rest).value; at <= p && Registered(m, p) && Fits(p, done + rest)
    decreases |rest|
  {
    if rest == [] {
      assert done + rest == done;
    } else {
      var l := rest[0];
      assert done + [l] + rest[1..] == done + rest;
      var next := if Best(m, at + [l], rest[1..]).Some? then l else WILDCARD;
      BestFits(m, done + [l], at + [next], rest[1..]);
      var p := Best(m, at, rest).value;
      assert p[..|at|] == at by { assert p[..|at| + 1] == at + [next]; }
    }
  }

  lemma {:induction false} BestBeats(m: SiteMap, done: Path, at: Path, rest: Path, q: Path)
    requires Fits(at, done) && at <= q && Registered(m, q) && Fits(q, done + rest)
    ensures Best(m, at, rest).Some?
    ensures Fits(Best(m, at, rest).value, done + rest)
    ensures AtLeastAsSpecific(Best(m, at, rest).value, q, done + rest)
    decreases |rest|
  {
    if rest == [] {
      assert q == at && done + rest == done;
    } else {
      var l, i := rest[0], |at|;
      var labels := done + rest;
      assert done + [l] + rest[1..] == labels;
      assert labels[i] == l && q[..i + 1] == at + [q[i]];
      if q[i] == l || Best(m, at + [l], rest[1..]).None? {
        BestBeats(m, done + [l], at + [q[i]], rest[1..], q);
      } else {
        BestFits(m, done + [l], at + [l], rest[1..]);
        var p := Best(m, at, rest).value;
        assert p[..i + 1] == at + [l];
        assert p[i] == l && p[..i] == at == q[..i];
      }
    }
  }

  /** If any registered pattern fits the host, there is a most specific one. */
  lemma MostSpecificExists(m: SiteMap, labels: Path)
    requires exists q :: Registered(m, q) && Fits(q, labels)
    ensures exists p :: MostSpecific(m, p, labels)
  {
    assert [] + labels == labels;
    forall q | Registered(m, q) && Fits(q, labels)
      ensures Best(m, [], labels).Some? && Fits(Best(m, [], labels).value, labels)
      ensures AtLeastAsSpecific(Best(m, [], labels).value, q, labels)
    {
      BestBeats(m, [], [], labels, q);
    }
    BestFits(m, [], [], labels);
    assert MostSpecific(m, Best(m, [], labels).value, labels);
  }

  /** Some "*" of the pattern stands where another site's path continues with the host's own label. */
  predicate Shadowed(m: SiteMap, p: Path, labels: Path)
    requires Fits(p, labels)
  {
    exists i :: 0 <= i < |labels| && p[i] != labels[i] && p[..i] + [labels[i]] in NodeSet(m)
  }

  lemma {:induction false} UnshadowedIsFollowed(m: SiteMap, p: Path, labels: Path, i: nat, wild: bool)
    requires Fits(p, labels) && p in NodeSet(m) && i <= |labels| && !Shadowed(m, p, labels)
    ensures Walk(NodeSet(m), p[..i], wild, labels[i..]) == p
    decreases |labels| - i
  {
    if i == |labels| {
      assert p[..i] == p;
    } else {
      NodeSetPrefix(m, p, i + 1);
      assert p[..i + 1] == p[..i] + [p[i]];
      assert labels[i..][1..] == labels[i + 1..];
      UnshadowedIsFollowed(m, p, labels, i + 1, false);
      UnshadowedIsFollowed(m, p, labels, i + 1, true);
    }
  }

  lemma {:induction false} WalkGains(nodes: set<Path>, at: Path, wild: bool, rest: Path)
    ensures at <= Walk(nodes, at, wild, rest)
    ensures |Walk(nodes, at, wild, rest)| <= |at| + |rest|
    decreases |rest|
  {
    if rest != [] {
      WalkGains(nodes, at + [rest[0]], false, rest[1..]);
      WalkGains(nodes, at + [WILDCARD], true, rest[1..]);
      WalkGains(nodes, at, true, rest[1..]);
    }
  }

  lemma {:induction false} FollowedIsUnshadowed(m: SiteMap, p: Path, labels: Path, i: nat, wild: bool)
    requires Fits(p, labels) && i <= |labels|
    requires Walk(NodeSet(m), p[..i], wild, labels[i..]) == p
    ensures forall j :: i <= j < |labels| && p[j] != labels[j] ==> p[..j] + [labels[j]] !in NodeSet(m)
    decreases |labels| - i
  {
    hide NodeSet;
    if i < |labels| {
      var nodes, at, l, rest := NodeSet(m), p[..i], labels[i], labels[i..][1..];
      assert rest == labels[i + 1..];
      WalkGains(nodes, at + [l], false, rest);
      WalkGains(nodes, at + [WILDCARD], true, rest);
      WalkGains(nodes, at, true, rest);
      assert p[..i + 1] == at + [p[i]];
      if at + [l] in nodes {
        assert (at + [l])[i] == p[i];
        FollowedIsUnshadowed(m, p, labels, i + 1, false);
      } else {
        assert at + [WILDCARD] in nodes;
        assert (at + [WILDCARD])[i] == p[i];
        FollowedIsUnshadowed(m, p, labels, i + 1, true);
      }
    }
  }

  /**
   The greedy walk ends at a fitting registered pattern exactly when no other site shadows one of its
   wildcards; the README's promise of the most specific handler holds for a host under just that condition.
   */
  lemma FollowsExactlyUnshadowed(m: SiteMap, p: Path, labels: Path)
    requires Registered(m, p) && Fits(p, labels)
    ensures WalkFromRoot(NodeSet(m), labels) == p <==> !Shadowed(m, p, labels)
  {
    NodeSetMember(m, p);
    assert p[..0] == [] && labels[0..] == labels;
    if !Shadowed(m, p, labels) {
      UnshadowedIsFollowed(m, p, labels, 0, false);
    } else if WalkFromRoot(NodeSet(m), labels) == p {
      FollowedIsUnshadowed(m, p, labels, 0, false);
    }
  }

  /** An unshadowed fitting pattern is the most specific one, so a walk without dead ends picks the best site. */
  lemma UnshadowedIsMostSpecific(m: SiteMap, p: Path, labels: Path)
    requires Registered(m, p) && Fits(p, labels) && !Shadowed(m, p, labels)
    ensures MostSpecific(m, p, labels)
  {
    hide NodeSet, HostLabels;
    forall q | Registered(m, q) && Fits(q, labels) && q != p
      ensures AtLeastAsSpecific(p, q, labels)
    {
      var i := FirstDifference(p, q);
      assert q[..i + 1] == p[..i] + [q[i]];
      NodeSetMember(m, q);
      NodeSetPrefix(m, q, i + 1);
      assert p[i] == labels[i];
    }
  }

  lemma FirstDifference(p: Path, q: Path) returns (i: nat)
    requires |p| == |q| && p != q
    ensures i < |p| && p[..i] == q[..i] && p[i] != q[i]
  {
    i := 0;
    assert p[..|p|] == p && q[..|q|] == q;
    while i < |p| && p[i] == q[i]
      invariant i <= |p| && p[..i] == q[..i]
    {
      i := i + 1;
    }
  }

  /** The most specific handler is used, for a host that some pattern fits, exactly when it is unshadowed. */
  lemma MostSpecificHandler(m: SiteMap, p: Path, host: string)
    requires MostSpecific(m, p, HostLabels(host))
    ensures WalkFromRoot(NodeSet(m), HostLabels(host)) == p <==> !Shadowed(m, p, HostLabels(host))
    ensures !Shadowed(m, p, HostLabels(host)) ==> Router(m, host) == BackendAt(m, p)
  {
    FollowsExactlyUnshadowed(m, p, HostLabels(host));
  }

  // ---------- Wildcards that absorb several labels ----------

  /** A pattern label takes the host's own label, and a "*" any other for which no site goes on literally. */
  predicate Takes(nodes: set<Path>, at: Path, pattern: Label, own: Label) {
    pattern == own || (pattern == WILDCARD && at + [own] !in nodes)
  }

  /** At the node of a "*" a label is absorbed when no site goes on from there, literally or with another "*". */
  predicate Absorbs(nodes: set<Path>, at: Path, own: Label) {
    at + [own] !in nodes && at + [WILDCARD] !in nodes
  }

  predicate AbsorbsAll(nodes: set<Path>, at: Path, own: Path) {
    forall x :: 0 <= x < |own| ==> Absorbs(nodes, at, own[x])
  }

  /**
   The `i`-th pattern label takes the host's label at `c[i]`; if that is by a "*", it absorbs the labels up to the next
   one's, of the first `n`.
   */
  predicate Dealt(nodes: set<Path>, p: Path, labels: Path, n: nat, c: seq<nat>, i: nat)
    requires i < |p| == |c| && n <= |labels|
  {
    var end := if i + 1 < |c| then c[i + 1] else n;
    && c[i] < end <= n
    && Takes(nodes, p[..i], p[i], labels[c[i]])
    && (c[i] + 1 < end ==> p[i] != labels[c[i]])
    && AbsorbsAll(nodes, p[..i + 1], labels[c[i] + 1..end])
  }

  /** The first `n` host labels are dealt out to the pattern labels in order. */
  ghost predicate Aligned(nodes: set<Path>, p: Path, labels: Path, n: nat, c: seq<nat>)
    requires n <= |labels|
  {
    && |c| == |p| && (if p == [] then n == 0 else c[0] == 0)
    && forall i :: 0 <= i < |p| ==> Dealt(nodes, p, labels, n, c, i)
  }

  /** The last step was to a "*" that is not the host's own label. */
  predicate EndsWild(p: Path, labels: Path, c: seq<nat>) {
    p != [] && |c| == |p| && c[|p| - 1] < |labels| && p[|p| - 1] != labels[c[|p| - 1]]
  }

  lemma DealtStays(nodes: set<Path>, p: Path, labels: Path, n: nat, c: seq<nat>, i: nat, next: Label)
    requires i < |p| == |c| && n < |labels| && Dealt(nodes, p, labels, n, c, i)
    ensures Dealt(nodes, p + [next], labels, n + 1, c + [n], i)
  {
    hide Takes, AbsorbsAll;
    var p', c' := p + [next], c + [n];
    assert p'[..i] == p[..i] && p'[..i + 1] == p[..i + 1] && p'[i] == p[i];
    assert c'[i] == c[i] && c'[i + 1] == if i + 1 < |c| then c[i + 1] else n;
  }

  lemma AlignStep(nodes: set<Path>, p: Path, labels: Path, n: nat, c: seq<nat>, next: Label)
    requires n < |labels| && Aligned(nodes, p, labels, n, c) && Takes(nodes, p, next, labels[n])
    ensures Aligned(nodes, p + [next], labels, n + 1, c + [n])
  {
    var p', c', m := p + [next], c + [n], n + 1;
    forall i | 0 <= i < |p|
      ensures Dealt(nodes, p', labels, m, c', i)
    {
      DealtStays(nodes, p, labels, n, c, i, next);
    }
    hide Takes, Absorbs;
    assert p'[..|p|] == p;
    assert Dealt(nodes, p', labels, m, c', |p|);
  }

  /** The last pattern label may also absorb the next host label. */
  lemma DealtMore(nodes: set<Path>, p: Path, labels: Path, n: nat, c: seq<nat>)
    requires p != [] && |p| == |c| && n < |labels| && Dealt(nodes, p, labels, n, c, |p| - 1)
    requires EndsWild(p, labels, c) && Absorbs(nodes, p, labels[n])
    ensures Dealt(nodes, p, labels, n + 1, c, |p| - 1)
  {
    hide Takes, Absorbs;
    assert p[..|p|] == p;
    var first := c[|p| - 1];
    assert labels[first + 1..n + 1] == labels[first + 1..n] + [labels[n]];
  }

  lemma AlignAbsorb(nodes: set<Path>, p: Path, labels: Path, n: nat, c: seq<nat>)
    requires n < |labels| && Aligned(nodes, p, labels, n, c) && EndsWild(p, labels, c) && Absorbs(nodes, p, labels[n])
    ensures Aligned(nodes, p, labels, n + 1, c)
  {
    hide Takes, Absorbs;
    var m := n + 1;
    forall i | 0 <= i < |p|
      ensures Dealt(nodes, p, labels, m, c, i)
    {
      assert Dealt(nodes, p, labels, n, c, i);
      if i == |p| - 1 { DealtMore(nodes, p, labels, n, c); }
    }
  }

  /** Every walk deals out the labels it consumes. */
  lemma {:induction false} WalkAligned(nodes: set<Path>, at: Path, wild: bool, labels: Path, n: nat, c: seq<nat>)
    returns (c': seq<nat>)
    requires n <= |labels| && Aligned(nodes, at, labels, n, c) && wild == EndsWild(at, labels, c)
    ensures n + Used(nodes, at, wild, labels[n..]) <= |labels|
    ensures Aligned(nodes, Walk(nodes, at, wild, labels[n..]), labels, n + Used(nodes, at, wild, labels[n..]), c')
    decreases |labels| - n
  {
    hide Dealt;
    c' := c;
    if n < |labels| {
      assert labels[n..][0] == labels[n] && labels[n..][1..] == labels[n + 1..];
      if at + [labels[n]] in nodes {
        AlignStep(nodes, at, labels, n, c, labels[n]);
        c' := WalkAligned(nodes, at + [labels[n]], false, labels, n + 1, c + [n]);
      } else if at + [WILDCARD] in nodes {
        AlignStep(nodes, at, labels, n, c, WILDCARD);
        assert labels[n] != WILDCARD;
        c' := WalkAligned(nodes, at + [WILDCARD], true, labels, n + 1, c + [n]);
      } else if wild {
        AlignAbsorb(nodes, at, labels, n, c);
        c' := WalkAligned(nodes, at, true, labels, n + 1, c);
      }
    }
  }

  /** Where a walk along an alignment is after `i` pattern labels and `n` host labels. */
  predicate On(p: Path, labels: Path, c: seq<nat>, i: nat, n: nat, wild: bool)
    requires |c| == |p| && i <= |p| && n <= |labels|
  {
    if i == 0 then n == 0 && !wild
    else
      && c[i - 1] < n <= (if i < |p| then c[i] else |labels|)
      && (wild <==> p[i - 1] != labels[c[i - 1]])
  }

  /** One step of such a walk: the next pattern label, or one more label for the last "*". */
  lemma AlignedStep(nodes: set<Path>, p: Path, labels: Path, c: seq<nat>, i: nat, n: nat, wild: bool)
    requires PrefixClosed(nodes) && p in nodes && Aligned(nodes, p, labels, |labels|, c)
    requires i <= |p| && n < |labels| && On(p, labels, c, i, n, wild)
    ensures var takes := i < |p| && n == c[i];
            var i', wild' := if takes then i + 1 else i, if takes then p[i] != labels[n] else wild;
            && On(p, labels, c, i', n + 1, wild')
            && Walk(nodes, p[..i], wild, labels[n..]) == Walk(nodes, p[..i'], wild', labels[n + 1..])
            && Used(nodes, p[..i], wild, labels[n..]) == 1 + Used(nodes, p[..i'], wild', labels[n + 1..])
  {
    assert i < |p| ==> Dealt(nodes, p, labels, |labels|, c, i);
    assert i > 0 ==> Dealt(nodes, p, labels, |labels|, c, i - 1);
    assert labels[n..][0] == labels[n] && labels[n..][1..] == labels[n + 1..];
    if i < |p| && n == c[i] {
      assert p[..i + 1] == p[..i] + [p[i]] && p[..i + 1] in nodes;
    } else {
      var first, end := c[i - 1], if i < |p| then c[i] else |labels|;
      assert labels[first + 1..end][n - first - 1] == labels[n];
      assert Absorbs(nodes, p[..i], labels[n]);
    }
  }

  lemma AlignedEnd(nodes: set<Path>, p: Path, labels: Path, c: seq<nat>, i: nat, wild: bool)
    requires Aligned(nodes, p, labels, |labels|, c) && i <= |p| && On(p, labels, c, i, |labels|, wild)
    ensures i == |p|
    ensures Walk(nodes, p[..i], wild, labels[|labels|..]) == p && Used(nodes, p[..i], wild, labels[|labels|..]) == 0
  {
    assert p[..|p|] == p;
    DealtWithin(nodes, p, labels, c);
  }

  lemma DealtWithin(nodes: set<Path>, p: Path, labels: Path, c: seq<nat>)
    requires Aligned(nodes, p, labels, |labels|, c)
    ensures |c| == |p| && forall i :: 0 <= i < |p| ==> c[i] < |labels|
  {
    forall i | 0 <= i < |p|
      ensures c[i] < |labels|
    {
      assert Dealt(nodes, p, labels, |labels|, c, i);
    }
  }

  /** A walk for which the labels can be dealt out to a pattern follows that pattern to its end. */
  lemma {:induction false} AlignedWalk(nodes: set<Path>, p: Path, labels: Path, c: seq<nat>, i: nat, n: nat, wild: bool)
    requires PrefixClosed(nodes) && p in nodes && Aligned(nodes, p, labels, |labels|, c)
    requires i <= |p| && n <= |labels| && On(p, labels, c, i, n, wild)
    ensures Walk(nodes, p[..i], wild, labels[n..]) == p && Used(nodes, p[..i], wild, labels[n..]) == |labels| - n
    decreases |labels| - n
  {
    hide *;
    AlignedLength(nodes, p, labels, |labels|, c);
    if n == |labels| {
      AlignedEnd(nodes, p, labels, c, i, wild);
    } else {
      AlignedStep(nodes, p, labels, c, i, n, wild);
      if i < |p| && n == c[i] {
        AlignedWalk(nodes, p, labels, c, i + 1, n + 1, p[i] != labels[n]);
      } else {
        AlignedWalk(nodes, p, labels, c, i, n + 1, wild);
      }
    }
  }

  /**
   For any pattern, wildcards absorbing as many labels as they may: the walk consumes the whole host and ends at the
   pattern if and only if the host's labels can be dealt out to the pattern's in order, a "*" taking or absorbing only
   labels for which no site goes on otherwise.
   */
  lemma FollowsExactlyAligned(m: SiteMap, p: Path, labels: Path)
    requires Registered(m, p)
    ensures WalkFromRoot(NodeSet(m), labels) == p && Used(NodeSet(m), [], false, labels) == |labels| <==>
            exists c :: Aligned(NodeSet(m), p, labels, |labels|, c)
  {
    RegisteredIsNode(m, p);
    NodeSetPrefixClosed(m);
    hide *;
    EndsExactlyAligned(NodeSet(m), p, labels);
  }

  lemma RegisteredIsNode(m: SiteMap, p: Path)
    requires Registered(m, p)
    ensures p in NodeSet(m)
  {
    NodeSetMember(m, p);
  }

  lemma EndsExactlyAligned(nodes: set<Path>, p: Path, labels: Path)
    requires PrefixClosed(nodes) && p in nodes
    ensures WalkFromRoot(nodes, labels) == p && Used(nodes, [], false, labels) == |labels| <==>
            exists c :: Aligned(nodes, p, labels, |labels|, c)
  {
    assert labels[0..] == labels && p[..0] == [];
    assert WalkFromRoot(nodes, labels) == Walk(nodes, [], false, labels);
    assert !EndsWild([], labels, []);
    AlignedNowhere(nodes, labels);
    var c := WalkAligned(nodes, [], false, labels, 0, []);
    if c' :| Aligned(nodes, p, labels, |labels|, c') {
      AlignedLength(nodes, p, labels, |labels|, c');
      assert On(p, labels, c', 0, 0, false);
      hide *;
      AlignedWalk(nodes, p, labels, c', 0, 0, false);
    }
    hide *;
  }

  lemma AlignedNowhere(nodes: set<Path>, labels: Path)
    ensures Aligned(nodes, [], labels, 0, [])
  {
  }

  lemma AlignedLength(nodes: set<Path>, p: Path, labels: Path, n: nat, c: seq<nat>)
    requires n <= |labels| && Aligned(nodes, p, labels, n, c)
    ensures |c| == |p|
  {
  }

  lemma TwoLabels(a: Label, b: Label)
    requires '.' !in a && '.' !in b
    ensures HostLabels(a + ['.'] + b) == [b, a]
  {
    Strings.SplitFirst(a, b, '.');
    Strings.SplitWord(b, '.');
  }

  lemma ThreeLabels(a: Label, b: Label, c: Label)
    requires '.' !in a && '.' !in b && '.' !in c
    ensures HostLabels(a + ['.'] + (b + ['.'] + c)) == [c, b, a]
  {
    Strings.SplitFirst(a, b + ['.'] + c, '.');
    Strings.SplitFirst(b, c, '.');
    Strings.SplitWord(c, '.');
  }

  /** A site `*.b.c` on its own serves every host below `b.c`, one label or two further down, and not `b.c` itself. */
  lemma WildcardSite(b: Label, c: Label, y: Label, x: Label, wide: Backend)
    requires '.' !in b && '.' !in c && '.' !in y && '.' !in x && b != "*" && c != "*"
    ensures var m: SiteMap := map["*" + ['.'] + (b + ['.'] + c) := Some(wide)];
            && Router(m, y + ['.'] + (b + ['.'] + c)) == Some(wide)
            && Router(m, x + ['.'] + (y + ['.'] + (b + ['.'] + c))) == Some(wide)
            && Router(m, b + ['.'] + c) == None
  {
    var site, domain := "*" + ['.'] + (b + ['.'] + c), b + ['.'] + c;
    var m: SiteMap := map[site := Some(wide)];
    TwoLabels(b, c);
    ThreeLabels("*", b, c);
    ThreeLabels(y, b, c);
    FourLabels(x, y, b, c);
    HostLabelsInvertible(site);
    WildcardNodes(m, site, b, c);
    hide HostLabels, LabelsHost, NodeSet;
    WildcardWalk(NodeSet(m), b, c, y, x);
    assert HostLabels(domain) != HostLabels(site);
  }

  lemma FourLabels(a: Label, b: Label, c: Label, d: Label)
    requires '.' !in a && '.' !in b && '.' !in c && '.' !in d
    ensures HostLabels(a + ['.'] + (b + ['.'] + (c + ['.'] + d))) == [d, c, b, a]
  {
    ThreeLabels(b, c, d);
    Strings.SplitFirst(a, b + ['.'] + (c + ['.'] + d), '.');
    Strings.SplitFirst(b, c + ['.'] + d, '.');
    Strings.SplitFirst(c, d, '.');
    Strings.SplitWord(d, '.');
  }

  lemma WildcardNodes(m: SiteMap, site: string, b: Label, c: Label)
    requires m.Keys == {site} && HostLabels(site) == [c, b, "*"]
    ensures NodeSet(m) == {[], [c], [c, b], [c, b, "*"]}
  {
    forall p
      ensures p in NodeSet(m) <==> p in {[], [c], [c, b], [c, b, "*"]}
    {
      var path := [c, b, "*"];
      NodeSetMember(m, p);
      assert path[..0] == [] && path[..1] == [c] && path[..2] == [c, b] && path[..3] == path;
      if p <= path { assert p == path[..|p|]; }
      if p in {[], [c], [c, b], path} { assert site in m && p <= path; }
    }
  }

  lemma WildcardWalk(nodes: set<Path>, b: Label, c: Label, y: Label, x: Label)
    requires nodes == {[], [c], [c, b], [c, b, "*"]} && b != "*" && c != "*"
    ensures WalkFromRoot(nodes, [c, b, y]) == WalkFromRoot(nodes, [c, b, y, x]) == [c, b, "*"]
    ensures WalkFromRoot(nodes, [c, b]) == [c, b]
  {
    var end, at := [c, b, "*"], [c, b];
    assert |end + [x]| == |end + ["*"]| == 4;
    assert Walk(nodes, end, true, [x]) == Walk(nodes, end, false, [x]) == end by { assert [x][1..] == []; }
    assert at + ["*"] == end && at + [y] == [c, b, y] && [y][1..] == [] && [y, x][1..] == [x];
    assert at + [y] in nodes <==> y == "*";
    assert Walk(nodes, at, false, [y]) == Walk(nodes, at, false, [y, x]) == end;
    FirstTwo(nodes, c, b, []);
    FirstTwo(nodes, c, b, [y]);
    FirstTwo(nodes, c, b, [y, x]);
    assert [c, b] + [] == [c, b] && [c, b] + [y] == [c, b, y] && [c, b] + [y, x] == [c, b, y, x];
  }

  lemma FirstTwo(nodes: set<Path>, a: Label, b: Label, rest: Path)
    requires [a] in nodes && [a, b] in nodes
    ensures WalkFromRoot(nodes, [a, b] + rest) == Walk(nodes, [a, b], false, rest)
  {
    assert ([a, b] + rest)[0] == a && ([a, b] + rest)[1..] == [b] + rest && ([b] + rest)[1..] == rest;
    assert [] + [a] == [a] && [a] + [b] == [a, b];
    assert Walk(nodes, [a], false, [b] + rest) == Walk(nodes, [a, b], false, rest);
  }

  /**
   The promise fails in general: of the sites `b.c` and `*.*.c` only the second fits `a.b.c`, yet the walk commits
   to the literal `b`, finds no way on, and answers with the parent site `b.c`.
   */
  lemma GreedyDeadEnd(a: Label, b: Label, c: Label, parent: Backend, wide: Backend)
    requires '.' !in a && '.' !in b && '.' !in c
    requires a != WILDCARD && b != WILDCARD
    ensures var near, far := b + ['.'] + c, WILDCARD + ['.'] + (WILDCARD + ['.'] + c);
            var m: SiteMap := map[near := Some(parent), far := Some(wide)];
            var host := a + ['.'] + (b + ['.'] + c);
            && MostSpecific(m, HostLabels(far), HostLabels(host))
            && !Fits(HostLabels(near), HostLabels(host))
            && Router(m, host) == Some(parent)
  {
    TwoLabels(b, c);
    ThreeLabels(WILDCARD, WILDCARD, c);
    ThreeLabels(a, b, c);
    var near, far := b + ['.'] + c, WILDCARD + ['.'] + (WILDCARD + ['.'] + c);
    var m: SiteMap := map[near := Some(parent), far := Some(wide)];
    var labels := HostLabels(a + ['.'] + (b + ['.'] + c));
    assert HostLabels(near) != HostLabels(far);
    HostLabelsInvertible(near);
    HostLabelsInvertible(far);
    forall q | Registered(m, q) && Fits(q, labels)
      ensures q == HostLabels(far)
    {
      assert LabelsHost(q) == near || LabelsHost(q) == far;
    }
    DeadEndNodes(m, near, far, a, b, c);
    DeadEndWalk(NodeSet(m), a, b, c);
  }

  lemma DeadEndNodes(m: SiteMap, near: string, far: string, a: Label, b: Label, c: Label)
    requires m.Keys == {near, far} && a != WILDCARD && b != WILDCARD
    requires HostLabels(near) == [c, b] && HostLabels(far) == [c, WILDCARD, WILDCARD]
    ensures [c] in NodeSet(m) && [c, b] in NodeSet(m)
    ensures [c, b, a] !in NodeSet(m) && [c, b, WILDCARD] !in NodeSet(m)
  {
    assert near in m;
    NodeSetMember(m, [c]);
    assert [c] <= HostLabels(near);
    NodeSetMember(m, [c, b]);
    NodeSetMember(m, [c, b, a]);
    NodeSetMember(m, [c, b, WILDCARD]);
    assert HostLabels(far)[1] == WILDCARD;
  }

  lemma DeadEndWalk(nodes: set<Path>, a: Label, b: Label, c: Label)
    requires [c] in nodes && [c, b] in nodes
    requires [c, b, a] !in nodes && [c, b, WILDCARD] !in nodes
    ensures WalkFromRoot(nodes, [c, b, a]) == [c, b]
  {
    assert [c, b] + [a] == [c, b, a] && [c, b] + [WILDCARD] == [c, b, WILDCARD];
    assert Walk(nodes, [c, b], false, [a]) == [c, b];
    assert [c] + [b] == [c, b] && [b, a][1..] == [a];
    assert Walk(nodes, [c], false, [b, a]) == [c, b];
    assert [] + [c] == [c] && [c, b, a][1..] == [b, a];
  }

  // ---------- What one more site leaves alone ----------

  lemma {:induction false} WalkAvoidingNewNodes(before: set<Path>, after: set<Path>, at: Path, wild: bool, rest: Path)
    requires before <= after && PrefixClosed(before) && at in before
    requires Walk(after, at, wild, rest) in before
    ensures Walk(before, at, wild, rest) == Walk(after, at, wild, rest)
    decreases |rest|
  {
    if rest != [] {
      var end := Walk(after, at, wild, rest);
      var l, tail := rest[0], rest[1..];
      WalkGains(after, at + [l], false, tail);
      WalkGains(after, at + [WILDCARD], true, tail);
      if at + [l] in after {
        assert end[..|at| + 1] == at + [l];
        WalkAvoidingNewNodes(before, after, at + [l], false, tail);
      } else if at + [WILDCARD] in after {
        assert end[..|at| + 1] == at + [WILDCARD];
        WalkAvoidingNewNodes(before, after, at + [WILDCARD], true, tail);
      } else if wild {
        WalkAvoidingNewNodes(before, after, at, true, tail);
      }
    }
  }

  /**
   Frame of `AddSite`: new nodes lie on the inserted path; a walk is the same as before exactly when it ends at
   an old node, and then the host's backend is unchanged unless the walk ends at the inserted path itself.
   */
  lemma AddSiteFrame(v: Index, site: Site, host: string)
    requires PrefixClosed(v.Keys)
    ensures var w := Insert(v, HostLabels(site.host), site.backend);
            var end := WalkFromRoot(w.Keys, HostLabels(host));
            && PrefixClosed(w.Keys)
            && (forall p :: p in w && p !in v ==> p <= HostLabels(site.host))
            && (WalkFromRoot(v.Keys, HostLabels(host)) == end <==> end in v)
            && (end in v && end != HostLabels(site.host) ==> Route(w, host) == Route(v, host))
  {
    var path, labels := HostLabels(site.host), HostLabels(host);
    var w := Insert(v, path, site.backend);
    forall p, i | p in w && 0 <= i <= |p|
      ensures p[..i] in w
    {
      if p !in v { assert p[..i] in Prefixes(path); }
    }
    var end := WalkFromRoot(w.Keys, labels);
    if end in v {
      WalkAvoidingNewNodes(v.Keys, w.Keys, [], false, labels);
    }
  }
}
