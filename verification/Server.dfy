/**
 Startup: the configuration is turned into running listeners in five phases, each a loop over a map or a list
 with early returns. Every map is visited in whatever order the runtime picks.
 */
module Server {
  import opened Wrappers
  import opened SiteTrie
  import opened Routing
  import opened Listener

  datatype ListenerConfig = ListenerConfig(host: string, port: nat, network: string, listenType: string)

  datatype SiteConfig = SiteConfig(host: string, listeners: seq<string>, backend: string, proxychain: string)

  datatype Config = Config(
    proxychains: map<string, seq<string>>,
    listeners: map<string, ListenerConfig>,
    sites: seq<SiteConfig>)

  const HTTP_EDGE := "http-edge"

  datatype SiteKey = SiteKey(host: string, listener: string)

  /** What the libraries decide: which chains and backends can be built, how addresses parse, which sockets open. */
  datatype Environment = Environment(
    chainOk: seq<string> -> bool,
    backendOk: Backend -> bool,
    parseAddr: string -> Option<string>,
    listens: ListenerKey -> bool)

  datatype Outcome =
    | Started
    | NilConfig
    | ProxychainInvalid
    | DuplicateListeners
    | UnknownListenerType
    | ProxychainNotFound(name: string)
    | BackendInitFailed
    | HostListenerClash
    | ListenerNotFound
    | NilListenerPanic

  type Listeners = map<string, HTTPEdgeListener?>

  // ---------- What startup is meant to decide ----------

  function KeyOf(env: Environment, l: ListenerConfig): ListenerKey {
    ListenerKey(env.parseAddr(l.host), l.port, l.network)
  }

  ghost predicate ChainsOk(cfg: Config, env: Environment) {
    forall n :: n in cfg.proxychains ==> env.chainOk(cfg.proxychains[n])
  }

  ghost predicate KeysDistinct(cfg: Config, env: Environment) {
    forall a, b :: a in cfg.listeners && b in cfg.listeners && a != b ==>
      KeyOf(env, cfg.listeners[a]) != KeyOf(env, cfg.listeners[b])
  }

  ghost predicate TypesKnown(cfg: Config) {
    forall n :: n in cfg.listeners ==> cfg.listeners[n].listenType == HTTP_EDGE
  }

  function BackendOf(cfg: Config, s: SiteConfig): Backend {
    Backend(s.backend, if s.proxychain in cfg.proxychains then cfg.proxychains[s.proxychain] else [])
  }

  /** The attachment of site `i` to the `a`-th listener it names. */
  function KeyAt(cfg: Config, i: nat, a: nat): SiteKey
    requires i < |cfg.sites| && a < |cfg.sites[i].listeners|
  {
    SiteKey(cfg.sites[i].host, cfg.sites[i].listeners[a])
  }

  /** The attachments read before the `c`-th of site `i`, each with its site's backend. */
  function Attachments(cfg: Config, i: nat, c: nat): map<SiteKey, Backend>
    requires i < |cfg.sites| ==> c <= |cfg.sites[i].listeners|
    requires i >= |cfg.sites| ==> i == |cfg.sites| && c == 0
    decreases i, c
  {
    if c > 0 then Attachments(cfg, i, c - 1)[KeyAt(cfg, i, c - 1) := BackendOf(cfg, cfg.sites[i])]
    else if i > 0 then Attachments(cfg, i - 1, |cfg.sites[i - 1].listeners|)
    else map[]
  }

  lemma AttachmentsNext(cfg: Config, i: nat, c: nat)
    requires i < |cfg.sites| && c < |cfg.sites[i].listeners|
    ensures Attachments(cfg, i, c + 1) == Attachments(cfg, i, c)[KeyAt(cfg, i, c) := BackendOf(cfg, cfg.sites[i])]
  {
  }

  function AllAttachments(cfg: Config): map<SiteKey, Backend> {
    Attachments(cfg, |cfg.sites|, 0)
  }

  /** Site `i` asks for an attachment that it or an earlier site already asked for. */
  predicate Clashes(cfg: Config, i: nat)
    requires i < |cfg.sites|
  {
    exists a :: 0 <= a < |cfg.sites[i].listeners| && KeyAt(cfg, i, a) in Attachments(cfg, i, a)
  }

  ghost predicate SiteOk(cfg: Config, env: Environment, i: nat)
    requires i < |cfg.sites|
  {
    && cfg.sites[i].proxychain in cfg.proxychains
    && env.backendOk(BackendOf(cfg, cfg.sites[i]))
    && !Clashes(cfg, i)
  }

  ghost function SiteError(cfg: Config, env: Environment, i: nat): Outcome
    requires i < |cfg.sites|
  {
    if cfg.sites[i].proxychain !in cfg.proxychains then ProxychainNotFound(cfg.sites[i].proxychain)
    else if !env.backendOk(BackendOf(cfg, cfg.sites[i])) then BackendInitFailed
    else HostListenerClash
  }

  ghost predicate SitesOk(cfg: Config, env: Environment) {
    forall i :: 0 <= i < |cfg.sites| ==> SiteOk(cfg, env, i)
  }

  ghost predicate FirstBadSite(cfg: Config, env: Environment, o: Outcome) {
    exists i :: 0 <= i < |cfg.sites| && !SiteOk(cfg, env, i) && o == SiteError(cfg, env, i)
                && forall j :: 0 <= j < i ==> SiteOk(cfg, env, j)
  }

  /** Some site names a listener that is not configured. */
  ghost predicate NamesMissing(cfg: Config) {
    exists i, a :: 0 <= i < |cfg.sites| && 0 <= a < |cfg.sites[i].listeners|
      && KeyAt(cfg, i, a).listener !in cfg.listeners
  }

  ghost predicate Silent(cfg: Config, env: Environment, name: string) {
    name in cfg.listeners && !env.listens(KeyOf(env, cfg.listeners[name]))
  }

  /** Some site names a listener whose socket could not be opened, which startup stored as nil. */
  ghost predicate NamesSilent(cfg: Config, env: Environment) {
    exists i, a :: 0 <= i < |cfg.sites| && 0 <= a < |cfg.sites[i].listeners|
      && Silent(cfg, env, KeyAt(cfg, i, a).listener)
  }

  /**
   The outcome of startup, phase by phase and whatever the iteration orders. Only when a site names an unknown
   listener and another names one that could not listen is more than one outcome possible.
   */
  ghost predicate Decides(cfg: Config, env: Environment, o: Outcome) {
    if !ChainsOk(cfg, env) then o == ProxychainInvalid
    else if !KeysDistinct(cfg, env) then o == DuplicateListeners
    else if !TypesKnown(cfg) then o == UnknownListenerType
    else if !SitesOk(cfg, env) then FirstBadSite(cfg, env, o)
    else
      && o in {Started, ListenerNotFound, NilListenerPanic}
      && (o == Started <==> !NamesMissing(cfg) && !NamesSilent(cfg, env))
      && (o == ListenerNotFound ==> NamesMissing(cfg))
      && (o == NilListenerPanic ==> NamesSilent(cfg, env))
  }

  lemma FirstBadSiteIsOne(cfg: Config, env: Environment, o: Outcome, p: Outcome)
    requires FirstBadSite(cfg, env, o) && FirstBadSite(cfg, env, p)
    ensures o == p
  {
    hide SiteOk, SiteError;
    var i :| 0 <= i < |cfg.sites| && !SiteOk(cfg, env, i) && o == SiteError(cfg, env, i)
             && forall j :: 0 <= j < i ==> SiteOk(cfg, env, j);
    var k :| 0 <= k < |cfg.sites| && !SiteOk(cfg, env, k) && p == SiteError(cfg, env, k)
             && forall j :: 0 <= j < k ==> SiteOk(cfg, env, j);
    assert i == k;
  }

  /** Apart from that double fault the outcome does not depend on the iteration orders. */
  lemma OutcomeDetermined(cfg: Config, env: Environment, o: Outcome, p: Outcome)
    requires Decides(cfg, env, o) && Decides(cfg, env, p)
    requires !(NamesMissing(cfg) && NamesSilent(cfg, env))
    ensures o == p
  {
    hide ChainsOk, KeysDistinct, TypesKnown, SitesOk, FirstBadSite, NamesMissing, NamesSilent;
    if ChainsOk(cfg, env) && KeysDistinct(cfg, env) && TypesKnown(cfg) && !SitesOk(cfg, env) {
      FirstBadSiteIsOne(cfg, env, o, p);
    }
  }

  /** The sites among the first `n` that name a listener: host to backend. */
  function SitesUpTo(cfg: Config, name: string, n: nat): SiteMap
    requires n <= |cfg.sites|
  {
    if n == 0 then map[]
    else
      var s := cfg.sites[n - 1];
      if name in s.listeners then SitesUpTo(cfg, name, n - 1)[s.host := Some(BackendOf(cfg, s))]
      else SitesUpTo(cfg, name, n - 1)
  }

  /** The flat list of sites attached to a listener. */
  function SitesFor(cfg: Config, name: string): SiteMap {
    SitesUpTo(cfg, name, |cfg.sites|)
  }

  // ---------- Phases 1 to 4 ----------

  method BuildProxychains(cfg: Config, env: Environment)
    returns (outcome: Option<Outcome>, chains: map<string, seq<string>>)
    ensures outcome == if ChainsOk(cfg, env) then None else Some(ProxychainInvalid)
    ensures outcome == None ==> chains == cfg.proxychains
  {
    chains := map[];
    var todo := cfg.proxychains.Keys;
    while todo != {}
      invariant todo <= cfg.proxychains.Keys
      invariant forall n :: n in cfg.proxychains && n !in todo ==> env.chainOk(cfg.proxychains[n])
      invariant chains == map n | n in cfg.proxychains.Keys - todo :: cfg.proxychains[n]
    {
      var name :| name in todo;
      todo := todo - {name};
      if !env.chainOk(cfg.proxychains[name]) {
        return Some(ProxychainInvalid), chains;
      }
      chains := chains[name := cfg.proxychains[name]];
    }
    outcome := None;
  }

  /** The maps from listen keys: every visited listener under its own key, with its type and name. */
  ghost predicate Collected(cfg: Config, env: Environment, done: set<string>, ports: map<ListenerKey, string>,
                            names: map<ListenerKey, string>) {
    && done <= cfg.listeners.Keys
    && ports.Keys == names.Keys
    && (forall n :: n in done ==> KeyOf(env, cfg.listeners[n]) in names && names[KeyOf(env, cfg.listeners[n])] == n)
    && (forall k :: k in names ==> names[k] in done && KeyOf(env, cfg.listeners[names[k]]) == k
                                   && ports[k] == cfg.listeners[names[k]].listenType)
  }

  method CollectListeners(cfg: Config, env: Environment)
    returns (outcome: Option<Outcome>, listenPorts: map<ListenerKey, string>, listenNames: map<ListenerKey, string>)
    ensures outcome == if KeysDistinct(cfg, env) then None else Some(DuplicateListeners)
    ensures outcome == None <==> forall a, b :: a in cfg.listeners && b in cfg.listeners && a != b ==>
              || env.parseAddr(cfg.listeners[a].host) != env.parseAddr(cfg.listeners[b].host)
              || cfg.listeners[a].port != cfg.listeners[b].port
              || cfg.listeners[a].network != cfg.listeners[b].network
    ensures outcome == None ==> Collected(cfg, env, cfg.listeners.Keys, listenPorts, listenNames)
  {
    listenPorts, listenNames := map[], map[];
    var todo := cfg.listeners.Keys;
    while todo != {}
      invariant todo <= cfg.listeners.Keys
      invariant Collected(cfg, env, cfg.listeners.Keys - todo, listenPorts, listenNames)
    {
      var listenerName :| listenerName in todo;
      todo := todo - {listenerName};
      var listenerConfig := cfg.listeners[listenerName];
      var key := KeyOf(env, listenerConfig);
      if key in listenPorts && listenPorts[key] != listenerConfig.listenType {
        assert key == KeyOf(env, cfg.listeners[listenNames[key]]);
        return Some(DuplicateListeners), listenPorts, listenNames;
      }
      if key in listenPorts {
        assert key == KeyOf(env, cfg.listeners[listenNames[key]]);
        return Some(DuplicateListeners), listenPorts, listenNames;
      }
      listenPorts := listenPorts[key := listenerConfig.listenType];
      listenNames := listenNames[key := listenerName];
    }
    forall a, b | a in cfg.listeners && b in cfg.listeners && a != b
      ensures KeyOf(env, cfg.listeners[a]) != KeyOf(env, cfg.listeners[b])
    {
      assert listenNames[KeyOf(env, cfg.listeners[a])] == a;
      assert listenNames[KeyOf(env, cfg.listeners[b])] == b;
    }
    outcome := None;
  }

  /** The listener of that name exists and its socket is open. */
  ghost predicate Running(listeners: Listeners, n: string) {
    n in listeners && listeners[n] != null
  }

  method StartListeners(cfg: Config, env: Environment, listenPorts: map<ListenerKey, string>,
                        listenNames: map<ListenerKey, string>)
    returns (outcome: Option<Outcome>, listeners: Listeners, ghost owned: set<object>)
    requires Collected(cfg, env, cfg.listeners.Keys, listenPorts, listenNames)
    ensures outcome == if TypesKnown(cfg) then None else Some(UnknownListenerType)
    ensures outcome == None ==> listeners.Keys == cfg.listeners.Keys
    ensures forall n :: n in listeners ==> n in cfg.listeners
    ensures forall n :: n in listeners ==> (listeners[n] == null <==> Silent(cfg, env, n))
    ensures fresh(owned)
    ensures forall n :: Running(listeners, n) ==> listeners[n].Valid() && listeners[n].Given() == map[]
    ensures forall n :: Running(listeners, n) ==> listeners[n].Repr() <= owned
    ensures forall n :: Running(listeners, n) ==> n in cfg.listeners && listeners[n].key == KeyOf(env, cfg.listeners[n])
  {
    listeners, owned := map[], {};
    var todo := listenPorts.Keys;
    hide HTTPEdgeListener.Valid, HTTPEdgeListener.Repr, KeyOf;
    while todo != {}
      invariant todo <= listenPorts.Keys
      invariant forall k :: k in listenPorts && k !in todo ==>
                  listenPorts[k] == HTTP_EDGE && listenNames[k] in listeners
      invariant forall n :: n in listeners ==> n in cfg.listeners && KeyOf(env, cfg.listeners[n]) !in todo
      invariant forall n :: n in listeners ==> (listeners[n] == null <==> Silent(cfg, env, n))
      invariant fresh(owned)
      invariant forall n :: Running(listeners, n) ==> listeners[n].Valid() && listeners[n].Given() == map[]
      invariant forall n :: Running(listeners, n) ==> listeners[n].Repr() <= owned
      invariant forall n :: Running(listeners, n) ==>
                  n in cfg.listeners && listeners[n].key == KeyOf(env, cfg.listeners[n])
    {
      var key :| key in todo;
      todo := todo - {key};
      if listenPorts[key] != HTTP_EDGE {
        return Some(UnknownListenerType), listeners, owned;
      }
      var listener: HTTPEdgeListener? := null;
      if env.listens(key) {
        listener := new HTTPEdgeListener(key);
        owned := owned + listener.Repr();
      }
      listeners := listeners[listenNames[key] := listener];
    }
    forall n | n in cfg.listeners
      ensures cfg.listeners[n].listenType == HTTP_EDGE && n in listeners
    {
      var key := KeyOf(env, cfg.listeners[n]);
      assert listenNames[key] == n;
    }
    outcome := None;
  }

  /** Claims the site's host on every listener it names, for the site's backend. */
  method ClaimListeners(cfg: Config, i: nat, backend: Backend, mapping: map<SiteKey, Backend>)
    returns (clash: bool, claimed: map<SiteKey, Backend>)
    requires i < |cfg.sites| && backend == BackendOf(cfg, cfg.sites[i]) && mapping == Attachments(cfg, i, 0)
    ensures clash <==> Clashes(cfg, i)
    ensures !clash ==> claimed == Attachments(cfg, i, |cfg.sites[i].listeners|)
  {
    hide Attachments, BackendOf;
    var siteCfg := cfg.sites[i];
    claimed := mapping;
    for c := 0 to |siteCfg.listeners|
      invariant claimed == Attachments(cfg, i, c)
      invariant forall a :: 0 <= a < c ==> KeyAt(cfg, i, a) !in Attachments(cfg, i, a)
    {
      var key := SiteKey(siteCfg.host, siteCfg.listeners[c]);
      assert key == KeyAt(cfg, i, c);
      if key in claimed {
        return true, claimed;
      }
      AttachmentsNext(cfg, i, c);
      claimed := claimed[key := backend];
    }
    clash := false;
  }

  /** The first of the three checks of a site that fails decides its error. */
  lemma SiteFails(cfg: Config, env: Environment, i: nat, o: Outcome)
    requires i < |cfg.sites| && forall j :: 0 <= j < i ==> SiteOk(cfg, env, j)
    requires var s := cfg.sites[i];
             if s.proxychain !in cfg.proxychains then o == ProxychainNotFound(s.proxychain)
             else if !env.backendOk(BackendOf(cfg, s)) then o == BackendInitFailed
             else Clashes(cfg, i) && o == HostListenerClash
    ensures FirstBadSite(cfg, env, o) && !SitesOk(cfg, env)
  {
    hide Clashes;
    assert !SiteOk(cfg, env, i) && o == SiteError(cfg, env, i);
  }

  lemma SitePasses(cfg: Config, env: Environment, i: nat)
    requires i < |cfg.sites| && cfg.sites[i].proxychain in cfg.proxychains
    requires env.backendOk(BackendOf(cfg, cfg.sites[i])) && !Clashes(cfg, i)
    ensures SiteOk(cfg, env, i)
    ensures Attachments(cfg, i + 1, 0) == Attachments(cfg, i, |cfg.sites[i].listeners|)
  {
  }

  lemma BackendIs(cfg: Config, s: SiteConfig)
    requires s.proxychain in cfg.proxychains
    ensures BackendOf(cfg, s) == Backend(s.backend, cfg.proxychains[s.proxychain])
  {
  }

  lemma AllSites(cfg: Config, env: Environment)
    ensures Attachments(cfg, 0, 0) == map[] && AllAttachments(cfg) == Attachments(cfg, |cfg.sites|, 0)
    ensures (forall i :: 0 <= i < |cfg.sites| ==> SiteOk(cfg, env, i)) ==> SitesOk(cfg, env)
  {
  }

  method InitBackends(cfg: Config, env: Environment, chains: map<string, seq<string>>)
    returns (outcome: Option<Outcome>, httpSiteMapping: map<SiteKey, Backend>)
    requires chains == cfg.proxychains
    ensures outcome == None <==> SitesOk(cfg, env)
    ensures outcome.Some? ==> FirstBadSite(cfg, env, outcome.value)
    ensures outcome == None ==> httpSiteMapping == AllAttachments(cfg)
  {
    hide *;
    httpSiteMapping := map[];
    AllSites(cfg, env);
    for i := 0 to |cfg.sites|
      invariant forall j :: 0 <= j < i ==> SiteOk(cfg, env, j)
      invariant httpSiteMapping == Attachments(cfg, i, 0)
    {
      var siteCfg := cfg.sites[i];
      if siteCfg.proxychain !in chains {
        SiteFails(cfg, env, i, ProxychainNotFound(siteCfg.proxychain));
        return Some(ProxychainNotFound(siteCfg.proxychain)), httpSiteMapping;
      }
      var backend := Backend(siteCfg.backend, chains[siteCfg.proxychain]);
      BackendIs(cfg, siteCfg);
      if !env.backendOk(backend) {
        SiteFails(cfg, env, i, BackendInitFailed);
        return Some(BackendInitFailed), httpSiteMapping;
      }
      var clash;
      clash, httpSiteMapping := ClaimListeners(cfg, i, backend, httpSiteMapping);
      if clash {
        SiteFails(cfg, env, i, HostListenerClash);
        return Some(HostListenerClash), httpSiteMapping;
      }
      SitePasses(cfg, env, i);
    }
    outcome := None;
  }

  // ---------- Phase 5 ----------

  /** What a listener has been given once the attachments in `done` have been made. */
  ghost predicate Attached(m: SiteMap, name: string, mapping: map<SiteKey, Backend>, done: set<SiteKey>)
    requires done <= mapping.Keys
  {
    && (forall h :: h in m <==> SiteKey(h, name) in done)
    && (forall h :: h in m ==> m[h] == Some(mapping[SiteKey(h, name)]))
  }

  lemma AttachedStep(m: SiteMap, m': SiteMap, name: string, mapping: map<SiteKey, Backend>, done: set<SiteKey>,
                     key: SiteKey)
    requires done <= mapping.Keys && key in mapping && Attached(m, name, mapping, done)
    requires m' == if key.listener == name then m[key.host := Some(mapping[key])] else m
    ensures Attached(m', name, mapping, done + {key})
  {
    assert forall h :: SiteKey(h, name) == key <==> h == key.host && name == key.listener;
  }

  /** One `AddSite` leaves every other listener as it was. */
  method AttachOne(listeners: Listeners, name: string, host: string, backend: Backend, ghost owned: set<object>)
    returns (overridden: bool, ghost grown: set<object>)
    requires Running(listeners, name)
    requires forall n :: Running(listeners, n) ==> listeners[n].Valid() && listeners[n].Repr() <= owned
    requires forall n :: Running(listeners, n) && n != name ==> listeners[n] != listeners[name]
    modifies owned
    ensures forall n :: Running(listeners, n) ==> listeners[n].Valid() && listeners[n].Repr() <= grown
    ensures owned <= grown && fresh(grown - owned)
    ensures forall n :: Running(listeners, n) && n != name ==> listeners[n].Given() == old(listeners[n].Given())
    ensures listeners[name].Given() == old(listeners[name].Given())[host := Some(backend)]
    ensures overridden <==> host in old(listeners[name].Given()) && old(listeners[name].Given())[host].Some?
  {
    forall n | Running(listeners, n) && n != name
      ensures listeners[n].Repr() !! listeners[name].Repr()
    {
      ListenersApart(listeners[name], listeners[n]);
    }
    ghost var touched := listeners[name].Repr();
    overridden := listeners[name].AddSite(host, Some(backend));
    grown := owned + listeners[name].Repr();
    forall n | Running(listeners, n) && n != name
      ensures listeners[n].Valid() && listeners[n].Given() == old(listeners[n].Given()) && listeners[n].Repr() <= grown
    {
      assert old(listeners[n].Repr()) !! touched;
      assert unchanged(listeners[n]);
      hide HTTPEdgeListener.Valid, HTTPEdgeListener.Given;
    }
    hide *;
  }

  /** The next attachment. */
  method AttachNext(listeners: Listeners, mapping: map<SiteKey, Backend>, key: SiteKey, ghost done: set<SiteKey>,
                    ghost owned: set<object>)
    returns (overridden: bool, ghost grown: set<object>)
    requires done <= mapping.Keys && key in mapping && key !in done && Running(listeners, key.listener)
    requires forall n :: Running(listeners, n) ==> listeners[n].Valid() && listeners[n].Repr() <= owned
    requires forall n :: Running(listeners, n) && n != key.listener ==> listeners[n] != listeners[key.listener]
    requires forall n :: Running(listeners, n) ==> Attached(listeners[n].Given(), n, mapping, done)
    modifies owned
    ensures !overridden
    ensures owned <= grown && fresh(grown - owned)
    ensures forall n :: Running(listeners, n) ==> listeners[n].Valid() && listeners[n].Repr() <= grown
    ensures forall n :: Running(listeners, n) ==> Attached(listeners[n].Given(), n, mapping, done + {key})
  {
    assert key.host !in listeners[key.listener].Given();
    hide Attached, HTTPEdgeListener.Valid, HTTPEdgeListener.Repr;
    overridden, grown := AttachOne(listeners, key.listener, key.host, mapping[key], owned);
    forall n | Running(listeners, n)
      ensures Attached(listeners[n].Given(), n, mapping, done + {key})
    {
      AttachedStep(old(listeners[n].Given()), listeners[n].Given(), n, mapping, done, key);
    }
  }

  method AttachSites(listeners: Listeners, mapping: map<SiteKey, Backend>, ghost owned: set<object>)
    returns (outcome: Outcome, overridden: bool)
    requires forall n :: Running(listeners, n) ==> listeners[n].Valid() && listeners[n].Repr() <= owned
    requires forall n :: Running(listeners, n) ==> listeners[n].Given() == map[]
    requires forall m, n :: Running(listeners, m) && Running(listeners, n) && m != n ==> listeners[m] != listeners[n]
    modifies owned
    ensures !overridden
    ensures outcome in {Started, ListenerNotFound, NilListenerPanic}
    ensures outcome == Started <==> forall k :: k in mapping ==> Running(listeners, k.listener)
    ensures outcome == ListenerNotFound ==> exists k :: k in mapping && k.listener !in listeners
    ensures outcome == NilListenerPanic ==>
              exists k :: k in mapping && k.listener in listeners && listeners[k.listener] == null
    ensures outcome == Started ==> forall n :: Running(listeners, n) ==>
              listeners[n].Valid() && Attached(listeners[n].Given(), n, mapping, mapping.Keys)
  {
    overridden := false;
    var todo := mapping.Keys;
    ghost var done: set<SiteKey>, all := {}, owned;
    hide HTTPEdgeListener.Valid, HTTPEdgeListener.Repr;
    while todo != {}
      invariant done + todo == mapping.Keys && done !! todo && !overridden
      invariant forall k :: k in done ==> Running(listeners, k.listener)
      invariant owned <= all && fresh(all - owned)
      invariant forall n :: Running(listeners, n) ==> listeners[n].Valid() && listeners[n].Repr() <= all
      invariant forall n :: Running(listeners, n) ==> Attached(listeners[n].Given(), n, mapping, done)
    {
      var key :| key in todo;
      if key.listener !in listeners {
        return ListenerNotFound, overridden;
      }
      if listeners[key.listener] == null {
        return NilListenerPanic, overridden;
      }
      overridden, all := AttachNext(listeners, mapping, key, done, all);
      todo, done := todo - {key}, done + {key};
    }
    outcome := Started;
  }

  // ---------- The attachments, declaratively ----------

  /** The attachment `(j, b)` comes before `(i, c)` in the order the sites are read. */
  predicate Before(cfg: Config, j: nat, b: nat, i: nat, c: nat) {
    j < |cfg.sites| && b < |cfg.sites[j].listeners| && (j < i || (j == i && b < c))
  }

  lemma {:induction false} AttachmentsMember(cfg: Config, i: nat, c: nat, k: SiteKey)
    requires i < |cfg.sites| ==> c <= |cfg.sites[i].listeners|
    requires i >= |cfg.sites| ==> i == |cfg.sites| && c == 0
    ensures k in Attachments(cfg, i, c) <==> exists j: nat, b: nat :: Before(cfg, j, b, i, c) && KeyAt(cfg, j, b) == k
    decreases i, c
  {
    if c > 0 {
      AttachmentsMember(cfg, i, c - 1, k);
      forall j: nat, b: nat
        ensures Before(cfg, j, b, i, c) <==> Before(cfg, j, b, i, c - 1) || (j == i && b == c - 1)
      {
      }
      assert Before(cfg, i, c - 1, i, c);
    } else if i > 0 {
      var last := |cfg.sites[i - 1].listeners|;
      AttachmentsMember(cfg, i - 1, last, k);
      forall j: nat, b: nat
        ensures Before(cfg, j, b, i, 0) <==> Before(cfg, j, b, i - 1, last)
      {
      }
    }
  }

  /** A site clashes exactly when one of its attachments repeats one read before it. */
  lemma ClashIsRepeat(cfg: Config, i: nat)
    requires i < |cfg.sites|
    ensures Clashes(cfg, i) <==> exists a: nat, j: nat, b: nat ::
              a < |cfg.sites[i].listeners| && Before(cfg, j, b, i, a) && KeyAt(cfg, j, b) == KeyAt(cfg, i, a)
  {
    if Clashes(cfg, i) {
      var a: nat :| a < |cfg.sites[i].listeners| && KeyAt(cfg, i, a) in Attachments(cfg, i, a);
      AttachmentsMember(cfg, i, a, KeyAt(cfg, i, a));
    }
    if a: nat, j: nat, b: nat :| a < |cfg.sites[i].listeners| && Before(cfg, j, b, i, a)
                                && KeyAt(cfg, j, b) == KeyAt(cfg, i, a) {
      AttachmentsMember(cfg, i, a, KeyAt(cfg, i, a));
    }
  }

  /** The sites attached to one listener are those of the flat list that name it. */
  lemma {:induction false} SitesAreAttached(cfg: Config, name: string, i: nat, c: nat)
    requires i < |cfg.sites| && c <= |cfg.sites[i].listeners|
    ensures var m := SitesUpTo(cfg, name, i);
            var s := cfg.sites[i];
            Attached(if name in s.listeners[..c] then m[s.host := Some(BackendOf(cfg, s))] else m, name,
                     Attachments(cfg, i, c), Attachments(cfg, i, c).Keys)
    decreases i, c
  {
    var s := cfg.sites[i];
    if c > 0 {
      SitesAreAttached(cfg, name, i, c - 1);
      assert s.listeners[..c] == s.listeners[..c - 1] + [s.listeners[c - 1]];
    } else if i > 0 {
      var t := cfg.sites[i - 1];
      SitesAreAttached(cfg, name, i - 1, |t.listeners|);
      assert t.listeners[..|t.listeners|] == t.listeners;
    }
  }

  lemma AttachedIsSitesFor(cfg: Config, name: string, m: SiteMap)
    requires Attached(m, name, AllAttachments(cfg), AllAttachments(cfg).Keys)
    ensures m == SitesFor(cfg, name)
  {
    var n := |cfg.sites|;
    if n > 0 {
      var s := cfg.sites[n - 1];
      SitesAreAttached(cfg, name, n - 1, |s.listeners|);
      assert s.listeners[..|s.listeners|] == s.listeners;
    }
  }

  lemma ListenerOf(cfg: Config, k: SiteKey) returns (i: nat, a: nat)
    requires k in AllAttachments(cfg)
    ensures i < |cfg.sites| && a < |cfg.sites[i].listeners| && KeyAt(cfg, i, a) == k
  {
    AttachmentsMember(cfg, |cfg.sites|, 0, k);
    i, a :| Before(cfg, i, a, |cfg.sites|, 0) && KeyAt(cfg, i, a) == k;
  }

  /** In terms of the attachments: which of them cannot be made. */
  lemma Unattachable(cfg: Config, env: Environment)
    ensures NamesMissing(cfg) <==> exists k :: k in AllAttachments(cfg) && k.listener !in cfg.listeners
    ensures NamesSilent(cfg, env) <==> exists k :: k in AllAttachments(cfg) && Silent(cfg, env, k.listener)
  {
    forall i: nat, a: nat | i < |cfg.sites| && a < |cfg.sites[i].listeners|
      ensures KeyAt(cfg, i, a) in AllAttachments(cfg)
    {
      assert Before(cfg, i, a, |cfg.sites|, 0);
      AttachmentsMember(cfg, |cfg.sites|, 0, KeyAt(cfg, i, a));
    }
    if k :| k in AllAttachments(cfg) && k.listener !in cfg.listeners {
      var i, a := ListenerOf(cfg, k);
    }
    if k :| k in AllAttachments(cfg) && Silent(cfg, env, k.listener) {
      var i, a := ListenerOf(cfg, k);
    }
  }

  // ---------- In the configuration's own words ----------

  /** When a site passes: its chain exists, its backend can be built and none of its attachments was made before. */
  lemma SiteOkMeans(cfg: Config, env: Environment, i: nat)
    requires i < |cfg.sites|
    ensures var s := cfg.sites[i];
            SiteOk(cfg, env, i) <==>
              && s.proxychain in cfg.proxychains
              && env.backendOk(Backend(s.backend, cfg.proxychains[s.proxychain]))
              && !exists a: nat, j: nat, b: nat ::
                   && a < |s.listeners| && j <= i && b < |cfg.sites[j].listeners| && (j == i ==> b < a)
                   && cfg.sites[j].host == s.host && cfg.sites[j].listeners[b] == s.listeners[a]
  {
    ClashIsRepeat(cfg, i);
    hide Clashes;
    if a: nat, j: nat, b: nat :|
      && a < |cfg.sites[i].listeners| && j <= i && b < |cfg.sites[j].listeners| && (j == i ==> b < a)
      && cfg.sites[j].host == cfg.sites[i].host && cfg.sites[j].listeners[b] == cfg.sites[i].listeners[a] {
      assert Before(cfg, j, b, i, a) && KeyAt(cfg, j, b) == KeyAt(cfg, i, a);
    }
  }

  /** The first phase: some chain cannot be built. */
  lemma ChainsFirst(cfg: Config, env: Environment, o: Outcome)
    requires Decides(cfg, env, o)
    ensures o == ProxychainInvalid <==> exists n :: n in cfg.proxychains && !env.chainOk(cfg.proxychains[n])
  {
    hide KeysDistinct, TypesKnown, SitesOk, SiteOk, NamesMissing, NamesSilent;
  }

  /** The second: two listeners agree in address, port and network. */
  lemma ListenersNext(cfg: Config, env: Environment, o: Outcome)
    requires Decides(cfg, env, o) && o != ProxychainInvalid
    ensures o == DuplicateListeners <==>
            exists a, b :: a in cfg.listeners && b in cfg.listeners && a != b
              && env.parseAddr(cfg.listeners[a].host) == env.parseAddr(cfg.listeners[b].host)
              && cfg.listeners[a].port == cfg.listeners[b].port
              && cfg.listeners[a].network == cfg.listeners[b].network
  {
    hide ChainsOk, TypesKnown, SitesOk, SiteOk, NamesMissing, NamesSilent;
  }

  /** The third: a listener of another type. */
  lemma TypesNext(cfg: Config, env: Environment, o: Outcome)
    requires Decides(cfg, env, o) && o !in {ProxychainInvalid, DuplicateListeners}
    ensures o == UnknownListenerType <==>
            exists n :: n in cfg.listeners && cfg.listeners[n].listenType != "http-edge"
  {
    hide ChainsOk, KeysDistinct, SitesOk, SiteOk, NamesMissing, NamesSilent;
  }

  /** The fourth: the first site that does not pass is reported, with its own error. */
  lemma SitesNext(cfg: Config, env: Environment, o: Outcome, i: nat)
    requires Decides(cfg, env, o) && o !in {ProxychainInvalid, DuplicateListeners, UnknownListenerType}
    requires i < |cfg.sites| && !SiteOk(cfg, env, i) && forall j :: 0 <= j < i ==> SiteOk(cfg, env, j)
    ensures var s := cfg.sites[i];
            o == if s.proxychain !in cfg.proxychains then ProxychainNotFound(s.proxychain)
                 else if !env.backendOk(Backend(s.backend, cfg.proxychains[s.proxychain])) then BackendInitFailed
                 else HostListenerClash
  {
    assert FirstBadSite(cfg, env, SiteError(cfg, env, i));
    FirstBadSiteIsOne(cfg, env, o, SiteError(cfg, env, i));
    hide ChainsOk, KeysDistinct, TypesKnown, SiteOk, FirstBadSite, NamesMissing, NamesSilent;
  }

  /** The last: every site passes, and what is left to fail is a named listener that is missing or silent. */
  lemma AttachmentsLast(cfg: Config, env: Environment, o: Outcome)
    requires Decides(cfg, env, o) && o !in {ProxychainInvalid, DuplicateListeners, UnknownListenerType}
    requires forall i :: 0 <= i < |cfg.sites| ==> SiteOk(cfg, env, i)
    ensures o in {Started, ListenerNotFound, NilListenerPanic}
    ensures o == Started <==> forall i, n :: 0 <= i < |cfg.sites| && n in cfg.sites[i].listeners ==>
              && n in cfg.listeners
              && env.listens(ListenerKey(env.parseAddr(cfg.listeners[n].host), cfg.listeners[n].port,
                                         cfg.listeners[n].network))
    ensures o == ListenerNotFound ==>
              exists i, n :: 0 <= i < |cfg.sites| && n in cfg.sites[i].listeners && n !in cfg.listeners
    ensures o == NilListenerPanic ==>
              exists i, n :: 0 <= i < |cfg.sites| && n in cfg.sites[i].listeners && n in cfg.listeners
                && !env.listens(ListenerKey(env.parseAddr(cfg.listeners[n].host), cfg.listeners[n].port,
                                            cfg.listeners[n].network))
  {
    NamedMeans(cfg, env);
    hide ChainsOk, KeysDistinct, TypesKnown, SiteOk, FirstBadSite, NamesMissing, NamesSilent;
  }

  lemma NamedMeans(cfg: Config, env: Environment)
    ensures NamesMissing(cfg) <==>
            exists i, n :: 0 <= i < |cfg.sites| && n in cfg.sites[i].listeners && n !in cfg.listeners
    ensures NamesSilent(cfg, env) <==>
            exists i, n :: 0 <= i < |cfg.sites| && n in cfg.sites[i].listeners && n in cfg.listeners
              && !env.listens(ListenerKey(env.parseAddr(cfg.listeners[n].host), cfg.listeners[n].port,
                                          cfg.listeners[n].network))
  {
    forall i, n | 0 <= i < |cfg.sites| && n in cfg.sites[i].listeners
      ensures exists a :: 0 <= a < |cfg.sites[i].listeners| && KeyAt(cfg, i, a).listener == n
    {
      var a :| 0 <= a < |cfg.sites[i].listeners| && cfg.sites[i].listeners[a] == n;
      assert KeyAt(cfg, i, a).listener == n;
    }
  }

  lemma {:induction false} SitesUpToMeans(cfg: Config, env: Environment, name: string, n: nat)
    requires n <= |cfg.sites| && SitesOk(cfg, env)
    ensures forall h :: h in SitesUpTo(cfg, name, n) <==>
              exists i :: 0 <= i < n && cfg.sites[i].host == h && name in cfg.sites[i].listeners
    ensures forall i :: 0 <= i < n && name in cfg.sites[i].listeners ==>
              var s := cfg.sites[i];
              && s.host in SitesUpTo(cfg, name, n) && s.proxychain in cfg.proxychains
              && SitesUpTo(cfg, name, n)[s.host] == Some(Backend(s.backend, cfg.proxychains[s.proxychain]))
  {
    if n > 0 {
      SitesUpToMeans(cfg, env, name, n - 1);
      var s := cfg.sites[n - 1];
      SiteOkMeans(cfg, env, n - 1);
      BackendIs(cfg, s);
      hide SiteOk, BackendOf;
      if name in s.listeners {
        var a: nat :| a < |s.listeners| && s.listeners[a] == name;
        forall i | 0 <= i < n - 1 && name in cfg.sites[i].listeners
          ensures cfg.sites[i].host != s.host
        {
          var b: nat :| b < |cfg.sites[i].listeners| && cfg.sites[i].listeners[b] == name;
        }
      }
    }
  }

  /** After startup a listener has exactly the hosts of the sites that name it, each with its backend over its chain. */
  lemma SitesForMeans(cfg: Config, env: Environment, name: string)
    requires Decides(cfg, env, Started)
    ensures forall h :: h in SitesFor(cfg, name) <==>
              exists i :: 0 <= i < |cfg.sites| && cfg.sites[i].host == h && name in cfg.sites[i].listeners
    ensures forall i :: 0 <= i < |cfg.sites| && name in cfg.sites[i].listeners ==>
              var s := cfg.sites[i];
              && s.host in SitesFor(cfg, name) && s.proxychain in cfg.proxychains
              && SitesFor(cfg, name)[s.host] == Some(Backend(s.backend, cfg.proxychains[s.proxychain]))
  {
    hide SiteOk;
    SitesUpToMeans(cfg, env, name, |cfg.sites|);
  }

  // ---------- Server ----------

  /** The first four phases; the fifth alone decides what is left open here. */
  method Prepare(cfg: Config, env: Environment)
    returns (failed: Option<Outcome>, listeners: Listeners, httpSiteMapping: map<SiteKey, Backend>,
             ghost owned: set<object>)
    ensures failed.Some? ==> Decides(cfg, env, failed.value) && failed.value != Started
    ensures failed == None ==> ChainsOk(cfg, env) && KeysDistinct(cfg, env) && TypesKnown(cfg) && SitesOk(cfg, env)
    ensures failed == None ==>
              listeners.Keys == cfg.listeners.Keys && httpSiteMapping == AllAttachments(cfg) && fresh(owned)
    ensures failed == None ==> forall n :: n in listeners ==> (listeners[n] == null <==> Silent(cfg, env, n))
    ensures failed == None ==> forall n :: Running(listeners, n) ==>
              listeners[n].Valid() && listeners[n].Given() == map[] && listeners[n].Repr() <= owned
    ensures failed == None ==> forall n :: Running(listeners, n) ==> listeners[n].key == KeyOf(env, cfg.listeners[n])
  {
    listeners, httpSiteMapping, owned := map[], map[], {};
    var proxychains, listenPorts, listenNames;
    failed, proxychains := BuildProxychains(cfg, env);
    if failed.Some? {
      return;
    }
    failed, listenPorts, listenNames := CollectListeners(cfg, env);
    if failed.Some? {
      return;
    }
    failed, listeners, owned := StartListeners(cfg, env, listenPorts, listenNames);
    if failed.Some? {
      return;
    }
    failed, httpSiteMapping := InitBackends(cfg, env, proxychains);
  }

  /**
   `Server` up to "Startup complete". For every choice of map iteration orders the outcome is the one decided
   by the configuration, the override warning is never logged, and a completed startup leaves exactly the
   configured listeners, each with exactly the sites that name it.
   */
  method Server(config: Option<Config>, env: Environment)
    returns (outcome: Outcome, listeners: Listeners, overridden: bool)
    ensures config == None ==> outcome == NilConfig
    ensures config.Some? ==> Decides(config.value, env, outcome)
    ensures !overridden
    ensures outcome == Started ==>
              && listeners.Keys == config.value.listeners.Keys
              && forall n :: Running(listeners, n) ==>
                   listeners[n].Valid() && listeners[n].Given() == SitesFor(config.value, n)
    ensures outcome == Started ==> forall n :: n in listeners ==>
              var l := config.value.listeners[n];
              listeners[n] == null <==> !env.listens(ListenerKey(env.parseAddr(l.host), l.port, l.network))
    ensures outcome == Started ==> forall n :: Running(listeners, n) ==>
              && listeners[n].key.addr == env.parseAddr(config.value.listeners[n].host)
              && listeners[n].key.port == config.value.listeners[n].port
              && listeners[n].key.network == config.value.listeners[n].network
  {
    listeners, overridden := map[], false;
    if config == None {
      return NilConfig, listeners, overridden;
    }
    var cfg := config.value;
    var failed, httpSiteMapping;
    ghost var owned;
    failed, listeners, httpSiteMapping, owned := Prepare(cfg, env);
    if failed.Some? {
      return failed.value, listeners, overridden;
    }
    Unattachable(cfg, env);
    outcome, overridden := AttachSites(listeners, httpSiteMapping, owned);
    if outcome == Started {
      forall n | Running(listeners, n)
        ensures listeners[n].Given() == SitesFor(cfg, n)
      {
        AttachedIsSitesFor(cfg, n, listeners[n].Given());
      }
    }
  }

  /**
   End to end: once startup completes, a request on a listener whose socket is open is routed by the flat
   reference router over the configured sites that name that listener.
   */
  method StartAndRoute(cfg: Config, env: Environment, name: string, host: string)
    returns (outcome: Outcome, backend: Option<Backend>)
    ensures Decides(cfg, env, outcome)
    ensures outcome == Started && name in cfg.listeners ==>
              var l := cfg.listeners[name];
              env.listens(ListenerKey(env.parseAddr(l.host), l.port, l.network)) ==>
                backend == Router(SitesFor(cfg, name), host)
  {
    var listeners, overridden;
    outcome, listeners, overridden := Server(Some(cfg), env);
    backend := None;
    if outcome == Started && name in listeners && listeners[name] != null {
      backend := listeners[name].MatchSite(host);
    }
  }
}
