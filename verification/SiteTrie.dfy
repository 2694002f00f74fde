/**
 The flat meaning of a listener's site trie: a finite map from label paths (top-level domain first) to the
 backend stored at that node. It says what `AddSite` builds and what `matchSite` returns without any heap.
 */
module SiteTrie {
  import opened Wrappers
  import Strings

  type Label = string
  type Path = seq<Label>

  const WILDCARD: Label := "*"

  /** A configured backend: its specification and the proxies its requests go through. */
  datatype Backend = Backend(spec: string, proxies: seq<string>)

  /** One call of `AddSite`; a nil `http.Handler` is `None`. */
  datatype Site = Site(host: string, backend: Option<Backend>)

  type Index = map<Path, Option<Backend>>
  type SiteMap = map<string, Option<Backend>>

  /** The labels of a host name, top-level domain first. */
  function HostLabels(host: string): (labels: Path)
    ensures labels != []
  {
    Strings.Reverse(Strings.Split(host, '.'))
  }

  /** The host name that has these labels. */
  function LabelsHost(labels: Path): string {
    Strings.Join(Strings.Reverse(labels), '.')
  }

  lemma HostLabelsInvertible(host: string)
    ensures LabelsHost(HostLabels(host)) == host
  {
    Strings.ReverseTwice(Strings.Split(host, '.'));
  }

  /** Two hosts with the same labels are the same host. */
  lemma HostLabelsInjective(a: string, b: string)
    requires HostLabels(a) == HostLabels(b)
    ensures a == b
  {
    HostLabelsInvertible(a);
    HostLabelsInvertible(b);
  }

  // ---------- What a sequence of AddSite calls builds ----------

  function Prefixes(p: Path): (s: set<Path>)
    ensures forall q :: q in s <==> q <= p
    ensures [] in s && p in s
  {
    var s := set i | 0 <= i <= |p| :: p[..i];
    assert forall q :: q <= p ==> q in s by {
      forall q | q <= p
        ensures q in s
      {
        assert q == p[..|q|];
      }
    }
    assert p[..0] == [];
    s
  }

  /** Adds an empty node for every prefix of `p` that has none. */
  function Extend(v: Index, p: Path): (r: Index)
    ensures r.Keys == v.Keys + Prefixes(p)
    ensures forall q :: q in v ==> r[q] == v[q]
    ensures forall q :: q in r && q !in v ==> r[q] == None
  {
    map q | q in v.Keys + Prefixes(p) :: if q in v then v[q] else None
  }

  /** The effect of one `AddSite` on the flat index. */
  function Insert(v: Index, p: Path, b: Option<Backend>): Index {
    Extend(v, p)[p := b]
  }

  /** The index after a sequence of `AddSite` calls on a fresh listener. */
  function Build(sites: seq<Site>): Index {
    if sites == [] then map[[] := None]
    else
      var x := sites[|sites| - 1];
      Insert(Build(sites[..|sites| - 1]), HostLabels(x.host), x.backend)
  }

  ghost predicate PrefixClosed(nodes: set<Path>) {
    [] in nodes && forall p, i :: p in nodes && 0 <= i <= |p| ==> p[..i] in nodes
  }

  /** Extending by one more label adds at most one node. */
  lemma ExtendStep(v: Index, p: Path, i: nat)
    requires i < |p|
    ensures p[..i + 1] == p[..i] + [p[i]]
    ensures Extend(v, p[..i + 1]) ==
            (var w := Extend(v, p[..i]); if p[..i + 1] in w then w else w[p[..i + 1] := None])
  {
    var short, long := p[..i], p[..i + 1];
    assert long == short + [p[i]];
    PrefixesOfSnoc(short, p[i]);
  }

  lemma PrefixesOfSnoc(p: Path, l: Label)
    ensures Prefixes(p + [l]) == Prefixes(p) + {p + [l]}
  {
    forall q
      ensures q in Prefixes(p + [l]) <==> q in Prefixes(p) || q == p + [l]
    {
      if q <= p + [l] && q != p + [l] { assert q == (p + [l])[..|q|] == p[..|q|]; }
    }
  }

  lemma {:induction false} BuildPrefixClosed(sites: seq<Site>)
    ensures PrefixClosed(Build(sites).Keys)
  {
    if sites != [] {
      var init, x := sites[..|sites| - 1], sites[|sites| - 1];
      BuildPrefixClosed(init);
      var labels := HostLabels(x.host);
      forall p, i | p in Build(sites) && 0 <= i <= |p|
        ensures p[..i] in Build(sites)
      {
        if p !in Build(init) { assert p <= labels && p[..i] <= labels; }
      }
    }
  }

  // ---------- The flat, order-free reference ----------

  /** Which backend each host was given last. */
  function LastAdded(sites: seq<Site>): SiteMap {
    if sites == [] then map[]
    else
      var x := sites[|sites| - 1];
      LastAdded(sites[..|sites| - 1])[x.host := x.backend]
  }

  /** The paths that exist: every prefix of a registered host. */
  function NodeSet(m: SiteMap): set<Path> {
    {[]} + set h, i | h in m && 0 <= i <= |HostLabels(h)| :: HostLabels(h)[..i]
  }

  /** The backend at a path: that of the host spelled by the path, if it is registered. */
  function BackendAt(m: SiteMap, p: Path): Option<Backend> {
    var h := LabelsHost(p);
    if h in m && HostLabels(h) == p then m[h] else None
  }

  /** The index as a function of the registered hosts alone. */
  function FlatIndex(m: SiteMap): Index {
    map p | p in NodeSet(m) :: BackendAt(m, p)
  }

  lemma NodeSetMember(m: SiteMap, p: Path)
    ensures p in NodeSet(m) <==> p == [] || exists h :: h in m && p <= HostLabels(h)
  {
    if h :| h in m && p <= HostLabels(h) {
      assert HostLabels(h)[..|p|] == p;
    }
  }

  lemma NodeSetAdd(m: SiteMap, h: string, b: Option<Backend>)
    ensures NodeSet(m[h := b]) == NodeSet(m) + Prefixes(HostLabels(h))
  {
    forall p
      ensures p in NodeSet(m[h := b]) <==> p in NodeSet(m) || p <= HostLabels(h)
    {
      NodeSetMember(m, p);
      NodeSetMember(m[h := b], p);
      if p <= HostLabels(h) { assert h in m[h := b]; }
      if g :| g in m && p <= HostLabels(g) { assert g in m[h := b]; }
    }
  }

  lemma BackendAtAdd(m: SiteMap, h: string, b: Option<Backend>, p: Path)
    ensures BackendAt(m[h := b], p) == if p == HostLabels(h) then b else BackendAt(m, p)
  {
    HostLabelsInvertible(h);
  }

  /** One more `AddSite` on a flat index gives the flat index of one more registration. */
  lemma InsertIntoFlat(m: SiteMap, h: string, b: Option<Backend>)
    ensures Insert(FlatIndex(m), HostLabels(h), b) == FlatIndex(m[h := b])
  {
    hide HostLabels, NodeSet, LabelsHost, BackendAt;
    var p, v := HostLabels(h), Insert(FlatIndex(m), HostLabels(h), b);
    NodeSetAdd(m, h, b);
    forall q | q in v
      ensures v[q] == BackendAt(m[h := b], q)
    {
      BackendAtAdd(m, h, b, q);
      if q != p && q !in FlatIndex(m) { BackendOutsideNodes(m, q); }
    }
  }

  /**
   Refinement of the index: whatever the order and number of `AddSite` calls, a node exists exactly for each
   prefix of a registered host and holds the backend that exact host was given last.
   */
  lemma {:induction false} BuildIsFlatIndex(sites: seq<Site>)
    ensures Build(sites) == FlatIndex(LastAdded(sites))
  {
    if sites == [] {
      assert NodeSet(map[]) == {[]};
    } else {
      hide NodeSet, BackendAt, HostLabels, Insert, FlatIndex;
      var init, x := sites[..|sites| - 1], sites[|sites| - 1];
      BuildIsFlatIndex(init);
      InsertIntoFlat(LastAdded(init), x.host, x.backend);
    }
  }

  lemma BackendOutsideNodes(m: SiteMap, p: Path)
    requires p !in NodeSet(m)
    ensures BackendAt(m, p) == None
  {
    NodeSetMember(m, p);
  }

  /** Order independence: sequences that leave every host with the same last backend build the same index. */
  lemma OrderIndependent(s: seq<Site>, t: seq<Site>)
    requires LastAdded(s) == LastAdded(t)
    ensures Build(s) == Build(t)
  {
    BuildIsFlatIndex(s);
    BuildIsFlatIndex(t);
  }

  ghost predicate DistinctHosts(s: seq<Site>) {
    forall i, j :: 0 <= i < j < |s| ==> s[i].host != s[j].host
  }

  lemma {:induction false} LastAddedHosts(s: seq<Site>, h: string)
    ensures h in LastAdded(s) <==> exists i :: 0 <= i < |s| && s[i].host == h
  {
    if s != [] {
      var last := |s| - 1;
      LastAddedHosts(s[..last], h);
      assert forall i :: 0 <= i < last ==> s[..last][i] == s[i];
      if h == s[last].host {
        assert h in LastAdded(s);
      } else {
        assert h in LastAdded(s) <==> h in LastAdded(s[..last]);
        if i :| 0 <= i < |s| && s[i].host == h { assert s[..last][i].host == h; }
      }
    }
  }

  lemma {:induction false} LastAddedBackend(s: seq<Site>, i: nat)
    requires DistinctHosts(s) && i < |s|
    ensures s[i].host in LastAdded(s) && LastAdded(s)[s[i].host] == s[i].backend
  {
    var last := |s| - 1;
    if i < last {
      LastAddedBackend(s[..last], i);
      assert s[i].host != s[last].host;
    }
  }

  lemma LastAddedDistinct(s: seq<Site>)
    requires DistinctHosts(s)
    ensures forall h :: h in LastAdded(s) <==> exists x :: x in s && x.host == h
    ensures forall x :: x in s ==> x.host in LastAdded(s) && LastAdded(s)[x.host] == x.backend
  {
    hide LastAdded, DistinctHosts;
    forall h
      ensures h in LastAdded(s) <==> exists x :: x in s && x.host == h
    {
      LastAddedHosts(s, h);
    }
    forall x | x in s
      ensures x.host in LastAdded(s) && LastAdded(s)[x.host] == x.backend
    {
      var i :| 0 <= i < |s| && s[i] == x;
      LastAddedBackend(s, i);
    }
  }

  /** Any two permutations of `AddSite` calls with pairwise distinct hosts build the same index. */
  lemma PermutationIndependent(s: seq<Site>, t: seq<Site>)
    requires DistinctHosts(s) && DistinctHosts(t) && multiset(s) == multiset(t)
    ensures Build(s) == Build(t)
  {
    LastAddedDistinct(s);
    LastAddedDistinct(t);
    forall x
      ensures x in s <==> x in t
    {
      assert x in s <==> x in multiset(s);
      assert x in t <==> x in multiset(t);
    }
    assert LastAdded(s) == LastAdded(t) by {
      forall h
        ensures h in LastAdded(s) <==> h in LastAdded(t)
        ensures h in LastAdded(s) ==> LastAdded(s)[h] == LastAdded(t)[h]
      {
        if h in LastAdded(s) { var x :| x in s && x.host == h; assert x in t; }
        if h in LastAdded(t) { var x :| x in t && x.host == h; assert x in s; }
      }
    }
    OrderIndependent(s, t);
  }
}
