/** The HTTP edge listener: a mutable tree of matchers, refined by the flat index of module SiteTrie. */
module Listener {
  import opened Wrappers
  import opened SiteTrie
  import opened Routing
  import HostSpecs

  /** One node of the trie. */
  class Matcher {
    var backend: Option<Backend>
    var subtrees: map<Label, Matcher>
    /** The labels on the way from the root to this node. */
    ghost const path: Path
    /** The listener whose tree this node is part of. */
    ghost var owner: object?

    constructor (ghost owner: object?, ghost path: Path)
      ensures backend == None && subtrees == map[] && this.path == path && this.owner == owner
    {
      backend := None;
      subtrees := map[];
      this.path := path;
      this.owner := owner;
    }
  }

  /** What the handler does with a request: 502, or hand it to a backend. */
  datatype Dispatch = BadGateway | Serve(backend: Backend)

  /** What a listener listens on; `None` is the zero address that a failed parse leaves behind. */
  datatype ListenerKey = ListenerKey(addr: Option<string>, port: nat, network: string)

  class HTTPEdgeListener {
    const key: ListenerKey
    var backends: Matcher

    /** The node at each path. */
    ghost var nodes: map<Path, Matcher>
    /** The `AddSite` calls made so far. */
    ghost var sites: seq<Site>

    /** The backend each host was given last. */
    ghost function Given(): SiteMap
      reads this`sites
    {
      LastAdded(sites)
    }

    /** This listener and the nodes of its tree; every node knows its owner, so no two listeners share one. */
    ghost function Repr(): set<object>
      reads this`nodes
    {
      {this} + nodes.Values
    }

    /** The node at `p` is that path's own, and its children are the nodes one label further on. */
    ghost predicate Linked(p: Path)
      requires p in nodes
      reads this`nodes, nodes.Values`subtrees, nodes.Values`owner
    {
      && nodes[p].path == p && nodes[p].owner == this
      && (p != [] ==> p[..|p| - 1] in nodes)
      && (forall l :: l in nodes[p].subtrees <==> p + [l] in nodes)
      && (forall l :: l in nodes[p].subtrees ==> nodes[p].subtrees[l] == nodes[p + [l]])
    }

    /** The matchers form a tree rooted at `backends`: one node a path, reached by following the labels. */
    ghost predicate Tree()
      reads this`nodes, this`backends, nodes.Values`subtrees, nodes.Values`owner
    {
      && [] in nodes && nodes[[]] == backends
      && forall p {:trigger Linked(p)} :: p in nodes ==> Linked(p)
    }

    /** The tree flattened: path to backend. */
    ghost function View(): Index
      reads this`nodes, nodes.Values`backend
    {
      map p | p in nodes :: nodes[p].backend
    }

    ghost predicate Valid()
      reads this, nodes.Values
    {
      Tree() && View() == Build(sites)
    }

    constructor (key: ListenerKey)
      ensures this.key == key
      ensures Valid() && sites == [] && Given() == map[] && fresh(Repr())
    {
      this.key := key;
      var root := new Matcher(null, []);
      backends := root;
      nodes := map[[] := root];
      sites := [];
      new;
      root.owner := this;
    }

    /** Gives `parent`, the node at `path`, a fresh empty child for `domain`. */
    method Grow(parent: Matcher, ghost path: Path, domain: Label) returns (child: Matcher)
      requires Tree() && path in nodes && nodes[path] == parent && domain !in parent.subtrees
      modifies this`nodes, parent`subtrees
      ensures Tree() && fresh(child) && child.backend == None
      ensures nodes == old(nodes)[path + [domain] := child]
      ensures child.owner == this
    {
      child := new Matcher(this, path + [domain]);
      parent.subtrees := parent.subtrees[domain := child];
      nodes := nodes[path + [domain] := child];
      forall p | p in nodes
        ensures Linked(p)
      {
        ChildPaths(p, path, domain);
        if p in old(nodes) {
          assert old(Linked(p)) && old(Linked(path));
          assert nodes[p].subtrees ==
                 if p == path then old(nodes[p].subtrees)[domain := child] else old(nodes[p].subtrees);
        } else {
          assert p[..|p| - 1] == path;
          forall l
            ensures p + [l] !in old(nodes)
          {
            assert (p + [l])[..|p|] == p;
            assert p + [l] in old(nodes) ==> old(Linked(p + [l]));
          }
        }
      }
    }

    /** The child of `parent`, the node at `path`, for `domain`; it is grown when it is missing. */
    method Child(parent: Matcher, ghost path: Path, domain: Label) returns (child: Matcher)
      requires Tree() && path in nodes && nodes[path] == parent
      modifies this`nodes, parent`subtrees
      ensures Tree() && path + [domain] in nodes && child == nodes[path + [domain]]
      ensures var p, was := path + [domain], old(View()); View() == if p in was then was else was[p := None]
      ensures nodes.Values <= old(nodes.Values) + {child}
      ensures child in old(nodes.Values) || fresh(child)
    {
      assert Linked(path);
      if domain in parent.subtrees {
        child := parent.subtrees[domain];
      } else {
        child := Grow(parent, path, domain);
      }
    }

    /** The first loop of `AddSite`: walks down along `labels`, growing the nodes that are missing. */
    method Descend(labels: Path) returns (currentMatcher: Matcher)
      requires Tree()
      modifies this`nodes, nodes.Values`subtrees
      ensures Tree() && fresh(nodes.Values - old(nodes.Values))
      ensures labels in nodes && currentMatcher == nodes[labels]
      ensures View() == Extend(old(View()), labels)
    {
      currentMatcher := backends;
      ghost var was := View();
      assert labels[..0] in nodes && Extend(was, labels[..0]) == was;
      hide *;
      for i := 0 to |labels|
        invariant Tree() && fresh(nodes.Values - old(nodes.Values))
        invariant labels[..i] in nodes && currentMatcher == nodes[labels[..i]]
        invariant View() == Extend(was, labels[..i])
      {
        ExtendStep(was, labels, i);
        currentMatcher := Child(currentMatcher, labels[..i], labels[i]);
      }
      assert labels[..|labels|] == labels;
    }

    /** Stores a backend at a node; no other path sees it. */
    method Attach(currentMatcher: Matcher, ghost path: Path, backend: Option<Backend>)
      requires Tree() && path in nodes && nodes[path] == currentMatcher
      modifies currentMatcher`backend
      ensures Tree()
      ensures View() == old(View())[path := backend]
    {
      currentMatcher.backend := backend;
      assert Linked(path);
      forall p | p in nodes && p != path
        ensures nodes[p] != currentMatcher
      {
        assert Linked(p);
      }
    }

    /**
     `AddSite`. The error it returns is always nil, so what is returned here is whether it logged the warning
     that a backend already existed and is being overridden.
     */
    method AddSite(host: string, backend: Option<Backend>) returns (overridden: bool)
      requires Valid()
      modifies Repr()
      ensures Valid() && fresh(Repr() - old(Repr()))
      ensures sites == old(sites) + [Site(host, backend)]
      ensures Given() == old(Given())[host := backend]
      ensures overridden <==> host in old(Given()) && old(Given())[host].Some?
    {
      var hostComponents := HostLabels(host);
      var currentMatcher := Descend(hostComponents);
      OverriddenExactlyWhenRegistered(old(View()), host);
      assert currentMatcher.backend == View()[hostComponents];
      assert fresh(currentMatcher) || currentMatcher in old(Repr());
      overridden := currentMatcher.backend.Some?;
      Attach(currentMatcher, hostComponents, backend);
      Record(host, backend);
    }

    /** Ghost bookkeeping: the tree now holds one more site. */
    ghost method Record(host: string, backend: Option<Backend>)
      requires Tree() && View() == Insert(Build(sites), HostLabels(host), backend)
      modifies this`sites
      ensures Valid() && sites == old(sites) + [Site(host, backend)] && Given() == old(Given())[host := backend]
    {
      sites := sites + [Site(host, backend)];
      assert sites[..|sites| - 1] == old(sites);
    }

    /** The node an insertion ends at already had a backend exactly when its host was registered with one. */
    lemma OverriddenExactlyWhenRegistered(was: Index, host: string)
      requires was == Build(sites)
      ensures var m := LastAdded(sites);
              Extend(was, HostLabels(host))[HostLabels(host)] == if host in m then m[host] else None
    {
      var p := HostLabels(host);
      BuildIsFlatIndex(sites);
      HostLabelsInvertible(host);
      if p !in was { BackendOutsideNodes(LastAdded(sites), p); }
    }

    /** The loop of `matchSite` stops at the node where the greedy walk over the flat paths ends. */
    method Follow(hostComponents: Path) returns (currentMatcher: Matcher)
      requires Tree()
      ensures currentMatcher == nodes[WalkFromRoot(nodes.Keys, hostComponents)]
    {
      currentMatcher := backends;
      var wasWildCard := false;
      ghost var at: Path := [];
      ghost var end := WalkFromRoot(nodes.Keys, hostComponents);
      assert hostComponents[0..] == hostComponents;
      var i := 0;
      while i < |hostComponents|
        invariant i <= |hostComponents|
        invariant at in nodes && currentMatcher == nodes[at]
        invariant Walk(nodes.Keys, at, wasWildCard, hostComponents[i..]) == end
      {
        var domain := hostComponents[i];
        assert Linked(at);
        assert hostComponents[i..][1..] == hostComponents[i + 1..];
        i := i + 1;
        if domain in currentMatcher.subtrees {
          at := at + [domain];
          currentMatcher := currentMatcher.subtrees[domain];
          wasWildCard := false;
          continue;
        }
        if WILDCARD in currentMatcher.subtrees {
          at := at + [WILDCARD];
          currentMatcher := currentMatcher.subtrees[WILDCARD];
          wasWildCard := true;
          continue;
        }
        if wasWildCard {
          continue;
        }
        assert at == end;
        return;
      }
    }

    /** `matchSite`: what the loop finds is the greedy walk over the hosts added so far. */
    method MatchSite(host: string) returns (backend: Option<Backend>)
      requires Valid()
      ensures backend == Router(Given(), host)
    {
      var matcher := Follow(HostLabels(host));
      RouteIsRouter(sites, host);
      assert nodes.Keys == View().Keys;
      return matcher.backend;
    }

    /** The handler's choice: the host the header names, with or without a port, is routed; an unknown one is a 502. */
    method Handle(hostHeader: string) returns (dispatch: Dispatch)
      requires Valid()
      ensures forall h :: HostSpecs.WithPort(hostHeader, h) ==>
                forall b :: dispatch == Serve(b) <==> Router(Given(), h) == Some(b)
      ensures forall h :: HostSpecs.WithPort(hostHeader, h) ==> (dispatch == BadGateway <==> Router(Given(), h) == None)
      ensures (forall h :: !HostSpecs.WithPort(hostHeader, h)) ==>
                forall b :: dispatch == Serve(b) <==> Router(Given(), hostHeader) == Some(b)
      ensures (forall h :: !HostSpecs.WithPort(hostHeader, h)) ==>
                (dispatch == BadGateway <==> Router(Given(), hostHeader) == None)
    {
      hide HostSpecs.WithPort, HostSpecs.SplitHostPort, Router, Valid;
      var split := HostSpecs.SplitHostPort(hostHeader);
      var hostname := if split.Ok? then split.value.0 else hostHeader;
      forall h
        ensures HostSpecs.WithPort(hostHeader, h) <==> split.Ok? && split.value.0 == h
      {
        HostSpecs.SplitWithPort(hostHeader, h);
      }
      assert split.Ok? ==> HostSpecs.WithPort(hostHeader, hostname);
      var backend := MatchSite(hostname);
      dispatch := if backend.Some? then Serve(backend.value) else BadGateway;
    }
  }

  /** Two listeners never share a node. */
  lemma ListenersApart(a: HTTPEdgeListener, b: HTTPEdgeListener)
    requires a.Valid() && b.Valid() && a != b
    ensures a.Repr() !! b.Repr()
  {
    forall p, q | p in a.nodes && q in b.nodes
      ensures a.nodes[p] != b.nodes[q]
    {
      assert a.Linked(p) && b.Linked(q);
    }
  }

  lemma ChildPaths(p: Path, q: Path, d: Label)
    ensures forall l :: p + [l] == q + [d] <==> p == q && l == d
  {
    forall l
      ensures p + [l] == q + [d] <==> p == q && l == d
    {
      assert (p + [l])[..|p|] == p && (q + [d])[..|q|] == q;
      assert (p + [l])[|p|] == l && (q + [d])[|q|] == d;
    }
  }
}
