# A verified model of the reverse proxy and its build

Five pieces of the program are modelled, each in the form its source has, and their properties proved by Dafny 4.11.
`dafny verify dfyconfig.toml` checks everything.

**Wildcard routing and startup** (`Strings`, `SiteTrie`, `Routing`, `Listener`, `Server`). A listener keeps its sites in
a heap tree of matchers, keyed by host labels with the top-level domain first. `Listener` models the tree with mutable
nodes, `AddSite` and `matchSite` as the loops they are; `SiteTrie` says which flat map the tree stands for and `Routing`
says what the greedy walk over that map does. `Server` is the startup procedure: five loops over maps visited in any
order, with early returns, ending in listeners whose routing is that of a flat reference router. What the libraries
decide (whether a proxy chain or a backend can be built, how an address parses, whether a socket can be opened) is the
parameter `Environment`.

**The bounded-concurrency protocol of the build** (`Totals`, `Gathering`, `Launchers`, `Releases`, `Deadlock`,
`ReleaseRuns`, `ReleaseCounts`, `ReleaseTargets`, and `LimitedBuild` for the simpler variant). Goroutines, the slot
queue, the wait group, the rendezvous on a promise's channel and the buffered result queues form a transition system;
every interleaving is a run. A promise's function is opaque: it returns at some point, with an error or without.

**The managed section of a git hook** (`GoSlices`, `Autogen`, `HookRuns`). Slices are windows on shared arrays, and
`append` writes in place whenever the capacity allows. Which lines of a hook are outside the managed section is defined
by its markers, not by where the scan puts the section when a marker is missing.

**The configuration merge** (`ConfigMerge`). Go maps are heap objects, the merge is recursive and in place, and what it
computes is a function on trees.

**Host specifications** (`Decimals`, `HostSpecs`). Parser and printer of `host:port/network`.

## What turned out

- The promise in the repository's README.md that the most specific handler for a request is used does not hold for every
  configuration: the walk never goes back on a literal label. `Routing.GreedyDeadEnd` gives a family of sites where it
  fails, and `Routing.MostSpecificHandler` the exact condition under which it holds.
- A release can deadlock. Launchers hold the slots of a batch while they want the next one, and none of these slots can
  come back before the batch is complete. `ReleaseRuns.DeadlockFreeExactly` is the exact bound: with this build's
  platforms and its single command, `ReleaseAll` needs a concurrency of at least three
  (`ReleaseTargets.ReleaseAllHere`), although one and two are accepted values.
- `Autogen` loses lines of the user's own in two ways, and `Autogen.SplicePreserves` says exactly when. A hook without
  markers, as every hook is before it is managed, keeps its first line only (`HookRuns.RunOnUnmarked`), and a header
  without a footer costs everything behind it. And with both markers in place, lines after the section are overwritten
  when the new section runs past the old one and still fits into the array of the scanned lines; `HookRuns.OwnLineLost`
  shows it for a hook with one line after its section.
- The loop over the scripts can end in the multiple-sections error on a hook that was in order.
  `HookRuns.RunFailsExactly` gives the exact condition for every hook file: with lines after the section, always from
  the third script on, and from the second when the first leaves two footers.
- Startup logs that a listener could not be created and goes on with a nil listener; attaching a site to it is a nil
  dereference, which is the outcome `NilListenerPanic` of the model.
- A rejected text has already overwritten the network of the `HostSpec` it was to be parsed into
  (`HostSpecs.HostSpec.UnmarshalText`), and a bracketed IPv6 host is printed without its brackets, so that it cannot be
  read back (`HostSpecs.Reparse`).

## Model

| member | source | states |
|---|---|---|
| SiteTrie.HostLabelsInjective | pkg/server/listeners.go:36 | Splitting on "." and reversing loses nothing: hosts with the same labels are the same host. |
| SiteTrie.BuildPrefixClosed | pkg/server/listeners.go:38-45 | Whatever is added, the paths that have a node are closed under prefixes. |
| SiteTrie.InsertIntoFlat | pkg/server/listeners.go:35-56 | One more `AddSite` turns the flat index of some registrations into that of one more registration. |
| SiteTrie.BuildIsFlatIndex | pkg/server/listeners.go:35-56 | After any sequence of `AddSite` calls a node exists exactly for each prefix of a registered reversed host, and holds the backend that exact host was given last. |
| SiteTrie.OrderIndependent | pkg/server/listeners.go:35-56 | Sequences of calls that leave every host with the same last backend build the same index. |
| SiteTrie.PermutationIndependent | pkg/server/server.go:154-169 | Any two permutations of calls with pairwise distinct hosts build the same index. |
| Listener.HTTPEdgeListener.constructor | pkg/server/listeners.go:106-110 | A new listener is a fresh tree with no site. |
| Listener.HTTPEdgeListener.Grow | pkg/server/listeners.go:42-43 | A missing child is added as a fresh empty node one label further on, and the matchers remain a tree. |
| Listener.HTTPEdgeListener.Descend | pkg/server/listeners.go:37-45 | The walk of `AddSite` ends at the node of the host's labels, adds an empty node for every missing prefix and changes nothing else. |
| Listener.HTTPEdgeListener.AddSite | pkg/server/listeners.go:35-56 | The tree, written in place, comes to stand for the index with one more site; the override warning is logged exactly when that very host already had a backend. |
| Listener.HTTPEdgeListener.Follow | pkg/server/listeners.go:60-81 | The loop with its `wasWildCard` flag stops at the node where the greedy walk over the flat paths ends. |
| Listener.HTTPEdgeListener.MatchSite | pkg/server/listeners.go:59-84 | On every host string the result is that of the flat reference router over the sites added so far. |
| Listener.HTTPEdgeListener.Handle | pkg/server/listeners.go:87-104 | For a header `h:p` or `[h]:p` the host is h, for any other header the header itself. A request is handed to a backend if and only if the router gives that backend for the host, and answered with a 502 if and only if it gives none. |
| Listener.ListenersApart | pkg/server/server.go:92-117 | Two listeners never share a node. |
| Routing.RouteIsRouter | pkg/server/listeners.go:59-84 | Routing by the index that any sequence of calls builds is routing by the registered hosts alone. |
| Routing.PermutedSitesRouteAlike | pkg/server/server.go:154-169 | Permutations of calls with distinct hosts route every host alike. |
| Routing.RegisteredHostFindsItself | pkg/server/listeners.go:64-68 | Every registered host, wildcard hosts spelled literally included, is routed to its own last backend whatever else was added. |
| Routing.WalkSound | pkg/server/listeners.go:63-81 | The node the walk stops at matches the labels it consumed, a "*" absorbing one or more, and it stops early only after a literal step with neither an exact nor a "*" child. |
| Routing.MatchSound | pkg/server/listeners.go:62-83 | A backend is only returned if it was registered for a pattern that matches a prefix of the host's labels; the prefix is proper only when the walk broke. |
| Routing.MostSpecificExists | README.md:33-34 | Whenever some pattern fits a host label for label, there is a most specific one, literal before "*" and top-level domain first. |
| Routing.FollowsExactlyUnshadowed | pkg/server/listeners.go:63-74 | The walk ends at a fitting pattern if and only if none of the pattern's wildcards is shadowed by another site's literal label. |
| Routing.UnshadowedIsMostSpecific | README.md:33-34 | An unshadowed fitting pattern is the most specific one. |
| Routing.MostSpecificHandler | README.md:33-34 | The most specific handler is the one the walk reaches if and only if it is unshadowed. |
| Routing.FollowsExactlyAligned | pkg/server/listeners.go:62-81 | For any pattern: the walk consumes the whole host and ends at it if and only if the host's labels can be dealt out to the pattern's in order, a "*" taking one and absorbing more only where no site goes on otherwise. |
| Routing.WildcardSite | pkg/server/listeners.go:17-81 | Word for word: a site \*.b.c on its own serves every host one label or two below b.c, and not b.c itself. |
| Routing.GreedyDeadEnd | pkg/server/listeners.go:63-81 | For any labels a, b, c: with the sites b.c and \*.\*.c the host a.b.c goes to b.c, which does not fit it, and not to \*.\*.c, the most specific one that does. |
| Routing.AddSiteFrame | pkg/server/listeners.go:38-53 | New nodes lie on the inserted path; a walk is unchanged if and only if it ends at an old node, and then its backend is unchanged unless it ends at the inserted path. |
| Server.BuildProxychains | pkg/server/server.go:46-54 | Fails exactly when some chain cannot be built, else yields the configured chains, in any iteration order. |
| Server.CollectListeners | pkg/server/server.go:56-88 | Succeeds if and only if any two differently named listeners differ in parsed address, in port or in network, whatever their types; then every listener is recorded once under its own key. |
| Server.StartListeners | pkg/server/server.go:90-117 | Fails exactly when a type is unknown; else the running listeners are exactly the configured names, each fresh and empty and under the key it was collected by, nil where the socket could not be opened. |
| Server.ClaimListeners | pkg/server/server.go:136-150 | Reports a clash exactly when the site repeats an attachment of its own or of an earlier site. |
| Server.InitBackends | pkg/server/server.go:119-151 | Succeeds exactly when every site is in order and otherwise reports the error of the first one that is not; on success every attachment is mapped to its site's backend. |
| Server.ClashIsRepeat | pkg/server/server.go:142-147 | The uniqueness check refuses exactly the sites that repeat a (host, listener) pair read before. |
| Server.AttachOne | pkg/server/server.go:165-168 | Attaching a site to one listener leaves what every other listener was given unchanged. |
| Server.AttachSites | pkg/server/server.go:153-169 | The override branch is never taken in any order; startup completes exactly when every named listener runs, and then each listener was given exactly its attachments. |
| Server.AttachedIsSitesFor | pkg/server/server.go:120-151 | What a listener is given by the attachments is the flat list of the configured sites that name it. |
| Server.OutcomeDetermined | pkg/server/server.go:39-175 | The outcome does not depend on map iteration order, unless a site names an unknown listener and another one a nil listener. |
| Server.ChainsFirst | pkg/server/server.go:46-54 | Startup ends with an invalid chain if and only if some configured chain cannot be built. |
| Server.ListenersNext | pkg/server/server.go:56-84 | Otherwise it ends with duplicate listeners if and only if two of them agree in parsed address, port and network. |
| Server.TypesNext | pkg/server/server.go:102-108 | Otherwise it ends with an unknown type if and only if some listener is not of type "http-edge". |
| Server.SiteOkMeans | pkg/server/server.go:124-150 | A site passes if and only if its chain is configured, its backend over that chain can be built, and no listener it names was named for the same host before, by it or an earlier site. |
| Server.SitesNext | pkg/server/server.go:120-148 | Otherwise the first site that does not pass decides the outcome: its chain is not found, else its backend fails, else it clashes. |
| Server.AttachmentsLast | pkg/server/server.go:153-169 | Otherwise startup completes if and only if every named listener is configured and its socket opens, and each of the two failures has its cause. |
| Server.SitesForMeans | pkg/server/server.go:120-168 | After startup a listener has exactly the hosts of the sites that name it, each with the site's own backend over the site's own chain. |
| Server.Server | pkg/server/server.go:39-175 | For every choice of iteration orders the outcome is the one the configuration decides, no override is logged, and a completed startup leaves exactly the configured listeners, each with the parsed address, port and network of its configuration and exactly the sites that name it, and nil exactly where that socket does not open. |
| Server.StartAndRoute | pkg/server/server.go:39-175 | End to end: after a completed startup every host on every open listener is routed by the flat reference router over the sites naming that listener. |
| Gathering.SetKeeps | magefile.go:269-276 | Starting a receiver or receiving a promise's value keeps the queue and the count in order and is one unit of progress. |
| Gathering.EnqueueKeeps | magefile.go:271-274 | Sending a result keeps the queue holding exactly the sent promises, each once. |
| Gathering.CollectKeeps | magefile.go:281-287 | Taking a result keeps the collector's count and its error flag equal to what was collected. |
| Gathering.ReturnKeeps | magefile.go:281-293 | A collector that returns has collected every promise, and reports an error exactly when one of them was. |
| Gathering.SendNeverBlocks | magefile.go:268-271 | A send into the result queue never blocks. |
| Gathering.CollectorMoves | magefile.go:281-282 | Once every promise was waited for and nothing is on its way, a called collector can take a result or return. |
| Launchers.ActKeeps | magefile.go:245-294 | Every act of a launcher, its jobs, its receivers and its collectors keeps the invariant that ties them together. |
| Launchers.ActEffect | magefile.go:246-253 | Only an acquire takes a slot and only a release frees one, likewise for the wait group; every act uses up work. |
| Launchers.RunningHolds | magefile.go:245-254 | A running function holds a slot. |
| Launchers.SettledLauncher | magefile.go:772-845 | A launcher with nothing left to do but take a slot is done or wants one. |
| Launchers.SettledHeld | magefile.go:245-252 | Such a launcher holds exactly the slots of the jobs it launched in the batch it is in. |
| Launchers.ErredAct | magefile.go:250 | An error neither appears nor gets lost except by a function returning it. |
| Launchers.BatchAnswer | magefile.go:278-293 | A returned collector reports an error exactly when a promise of its batch returned one. |
| Launchers.OverAnswer | magefile.go:813-844 | A platform's release reports an error exactly when one of its promises returned one. |
| Releases.InitInv | magefile.go:297-299 | The invariant holds at the start: no slot taken, nobody waited for. |
| Releases.StepKeeps | magefile.go:245-294 | Every step of a release, in every interleaving, keeps the invariant and decreases a measure of the work left. |
| Deadlock.ReleaseNeverBlocks | magefile.go:252 | The receive that gives a slot back never blocks. |
| Deadlock.JammedFinal | magefile.go:245-294 | With nothing left to do but take slots, and nobody wanting one, the release is over and no goroutine is left behind. |
| Deadlock.StuckIsFull | magefile.go:246 | A stuck state short of the end is one where every slot is held and some launcher wants another. |
| Deadlock.DeadlockReachable | magefile.go:246-252 | If the launchers can hold the whole queue while they want more, some run ends in such a deadlock. |
| ReleaseRuns.RunKeeps | magefile.go:245-294 | The invariant holds in every reachable state, and no run is longer than the measure of its start. |
| ReleaseRuns.SlotAccounting | magefile.go:245-255 | In every reachable state the queue holds one slot for each job between acquire and release and never more than its capacity, at most that many functions run, and the wait group equals the jobs between `Add` and `Done` and is never negative. |
| ReleaseRuns.DeadlockFreeExactly | magefile.go:243-294 | No reachable state is stuck before the end if and only if the largest batches, each less one, add up to fewer slots than the queue has. |
| ReleaseRuns.EveryRunFinishes | magefile.go:243-294 | Below that bound every run, whatever the interleaving, can only go on to the end, a bounded number of steps away. |
| ReleaseRuns.Verdict | magefile.go:278-293 | A release returns an error if and only if, somewhere in its run, a promise's function returned one. |
| ReleaseRuns.OnceEach | magefile.go:245-287 | In no run does anything happen to a promise twice: taking its slot, the spawn, the return of its function with whatever error, the receipt of its value, the release, `Done`, its receiver's start, the hand-over to the collector and the collection. In a finished run each happened exactly once in the batches gone through and never in the others. |
| ReleaseRuns.EndOfRun | magefile.go:245-294 | At the end every promise of the batches gone through is collected and its job finished, batches after a failed one were never begun, and no slot or wait-group count is left over. |
| ReleaseCounts.FinalReturns | magefile.go:250 | Counted by steps: in a finished run every function of every batch gone through has returned once, and none of the others. |
| ReleaseCounts.WaitingReturns | magefile.go:813-844 | Where each batch is waited for, a batch runs in full if and only if no function of an earlier one returned an error, and not at all otherwise. |
| ReleaseCounts.BatchesInOrder | magefile.go:813-844 | There, in any run, no function of a batch returns before every function of every earlier batch has, without an error. |
| ReleaseTargets.Concurrency | magefile.go:207-222 | The queue has at least one slot: digits within a machine word, leading zeros allowed, read as their value, or as 1 when that is zero or wraps to a negative int; other text is a panic; unset means the number of processors. |
| ReleaseTargets.ReleaseAllBound | magefile.go:807-875 | For any platforms and commands, `ReleaseAll` is free of deadlock if and only if the queue has more slots than its platforms can clog, windows counting two archives. |
| ReleaseTargets.ReleaseAllHere | magefile.go:132-143 | With this build's nine platforms that means at least three slots for at most one command, and more than 9(c - 1) for c commands. |
| ReleaseTargets.ReleaseBinAllBound | magefile.go:772-802 | However many platforms there are, `ReleaseBinAll` is free of deadlock if and only if the commands of one platform fit into the queue. |
| ReleaseTargets.ReleaseBinAllBuilds | magefile.go:772-802 | In every finished run of `ReleaseBinAll` exactly one build of each command for each platform has returned, commands times platforms in all, whatever errors occurred. |
| ReleaseTargets.ReleaseAllBuilds | magefile.go:807-875 | In every finished run of `ReleaseAll` each platform has had all its commands built, and it was archived, twice for windows and once for any other, if and only if none of its builds returned an error; nothing else ran. |
| ReleaseTargets.ArchivesAfterBuilds | magefile.go:813-844 | In any run, finished or not, an archive of a platform is done only after all its builds have returned without an error. |
| LimitedBuild.StepKeeps | magefile.go:418-443 | Every step keeps the accounts of slots, sent results and errors, and decreases a measure. |
| LimitedBuild.AtMostCapacityRun | magefile.go:420-425 | On every interleaving at most `concurrency` commands run at once. |
| LimitedBuild.StuckIsFinal | magefile.go:418-443 | With at least one slot, a state in which nothing can happen is the end of the call. |
| LimitedBuild.EveryRunFinishes | magefile.go:418-443 | For any concurrency of at least one and any number n of commands, every interleaving finishes, within 6n + 1 steps. |
| LimitedBuild.Verdict | magefile.go:430-442 | The call returns once it has all n results, and returns an error if and only if some command failed. |
| LimitedBuild.EachCommandOnce | magefile.go:420-442 | No command runs twice, and by the time the call returns every command has run to its end once. |
| GoSlices.FromLines | magefile.go:938 | A slice made from a list of lines has an array of its own and no capacity to spare, as after `strings.Split`. |
| GoSlices.Append | magefile.go:981-982 | `append` overwrites the shared array in place, as if all at once, when the capacity allows, and copies otherwise. |
| Autogen.FindSection | magefile.go:944-971 | The scan fails exactly on two headers or two footers; otherwise the section runs from the header, or line 1, to past the footer, or the end. |
| Autogen.MarkerLines | magefile.go:944-955 | Word for word: a header or footer line is its marker alone or behind a single space, and nothing else. |
| Autogen.ShebangLines | magefile.go:939 | A first line is accepted if and only if it is "#!/bin/bash" followed by blanks and tabs only. |
| Autogen.SectionRunsScripts | magefile.go:973-978 | Decoded as lines that run one double-quoted literal word, the regenerated section runs exactly the given scripts, in their order, for paths without quote, dollar, backtick or backslash. |
| Autogen.ScriptLineRuns | magefile.go:976 | The line of a script decodes to running it if and only if its path has none of those characters. |
| Autogen.Splice | magefile.go:980-982 | Over a shared array the two appends write the prefix, the new section, and what the first append left behind the old section. |
| Autogen.SpliceAsIntended | magefile.go:965-982 | The two appends write the scanned lines around the section and the new section if and only if it does not run past the old one while fitting into the scanned lines. |
| Autogen.SplicePreserves | magefile.go:944-982 | For every hook that is not refused, all lines outside the managed section, by its markers, are written back in order around the new section if and only if what the scan takes for the section is managed and the new one does not overrun. |
| Autogen.UnmarkedLosesLines | magefile.go:965-982 | On a hook without markers, whose lines are all its own, a splice writes the first line and the section only. |
| Autogen.OverrunDuplicates | magefile.go:980-982 | After an overrun the written hook holds two footers. |
| Autogen.UpdateHook | magefile.go:933-987 | One round gives the unknown-format error exactly for another first line, else the multiple-sections error exactly for two headers or two footers, either way with the file as it was; else it writes the file that the specification of a round says. |
| Autogen.InstallHook | magefile.go:923-989 | The loop over the scripts leaves the file and the error that the specification of a run says. |
| HookRuns.IntendedOneSection | magefile.go:944-982 | Unless the footer stands before the header, the intended result scans again as one section, at the spliced positions. |
| HookRuns.Round | magefile.go:933-987 | A round on a file that is not refused never fails, and writes lines that the next round reads: the intended ones with one section, or, exactly when it overruns or the footer stands before the header, lines with two footers. |
| HookRuns.RunToEnd | magefile.go:923-989 | Fixpoint: with nothing after the footer, or no footer, no round fails, and each intermediate file is the lines before the section and the section for the scripts so far, re-scanning to one section. |
| HookRuns.RunTwice | magefile.go:923-989 | On such a hook a second full run over the same scripts writes the same file. |
| HookRuns.RunFromNothing | magefile.go:933-936 | A missing hook file ends up as the shebang line and the section for all scripts. |
| HookRuns.FreshHookLines | magefile.go:933-987 | Word for word, the lines that any scripts leave in a file that was not there. |
| HookRuns.RunOnUnmarked | magefile.go:965-982 | A whole run on a hook without markers leaves its first line and the section for all scripts. |
| HookRuns.RunFailsExactly | magefile.go:939-961 | For every hook file, which error a run ends with: the unknown format if and only if the first line is not the shebang; multiple sections if and only if the file has two headers or footers, or there are two scripts and the first round leaves two footers, or three and lines after the section. |
| HookRuns.UnknownFormatUntouched | magefile.go:939-942 | Whatever the scripts are called, a run ends in the unknown-format error if and only if the first line is not the shebang, and then the file is as it was. |
| HookRuns.DuplicatedUntouched | magefile.go:944-962 | A hook with the shebang and two headers or two footers ends in the multiple-sections error and is left as it was. |
| HookRuns.ErrorLeavesLastWritten | magefile.go:923-989 | Any error leaves the file of the last round that wrote, which is the file that the next round refused. |
| HookRuns.FailedRunLeaves | magefile.go:923-989 | Which file that is with the multiple-sections error: the original one if it had two headers or footers, that of the first round if the round left two footers, and that of the second round otherwise. |
| HookRuns.SectionRunFails | magefile.go:955-959 | On a hook with one section a run fails if and only if lines follow it and there are three scripts or more, or two and the first overruns. |
| HookRuns.LaterScriptsFail | magefile.go:955-959 | With lines after the section and three scripts or more, the run ends with the multiple-sections error. |
| HookRuns.RunWithRest | magefile.go:923-989 | With lines after the section, two scripts or more always leave a file with two footers. |
| HookRuns.RunAsIntended | magefile.go:923-989 | A whole run writes the scanned lines around the section and the section for all scripts if and only if nothing follows the section, or there is one script and it does not overrun. |
| HookRuns.RunPreserves | magefile.go:923-989 | For every hook that is not refused, a whole run keeps all lines outside the managed section if and only if what the scan takes for the section is managed and either nothing follows it or there is one script and it does not overrun. |
| HookRuns.OwnLineLost | magefile.go:980-982 | At an input: a hook with one line of the user's own after its section keeps it with one script, loses it to a second footer with two, and fails with three. |
| ConfigMerge.MergeAt | pkg/server/config/loading.go:76-100 | At every path the right value stays, with the left one merged under it; where the right tree has none, the left value shows exactly if no non-map of the right tree is in the way. |
| ConfigMerge.LeafAboveMeans | pkg/server/config/loading.go:95-97 | A non-map is in the way of a path exactly when some proper prefix of the path leads to one. |
| ConfigMerge.AtConcat | pkg/server/config/loading.go:85-93 | A path leads on from where its front part leads, one key of a nested map at a time. |
| ConfigMerge.RightWins | pkg/server/config/loading.go:95-97 | A setting of the right tree is never changed. |
| ConfigMerge.LeftFills | pkg/server/config/loading.go:79-83 | What the merge changes at a path is a left setting where the right tree had neither a value nor a non-map above it. |
| ConfigMerge.MergeAgain | pkg/server/config/loading.go:76-100 | On trees, merging the same left one again changes nothing. |
| ConfigMerge.MergedAddsNothing | pkg/server/config/loading.go:76-100 | After a merge the left tree adds nothing any more. |
| ConfigMerge.MergeTwice | pkg/server/config/loading.go:76-100 | In place as well: the second merge of the same map, which by then shares nested maps with the right one, writes nothing. |
| ConfigMerge.MergeIsNoOp | pkg/server/config/loading.go:76-100 | A merge changes nothing if and only if the right tree already has every key of the left one on the maps they share. |
| ConfigMerge.MergeAssociates | pkg/server/config/loading.go:76-100 | Three-way merging is associative if and only if no non-map of the middle tree hides a key of the left one from the right one. |
| ConfigMerge.SameKindsHideNothing | pkg/server/config/loading.go:85-97 | So it is associative whenever no path is a map in one tree and a non-map in another. |
| ConfigMerge.Adopt | pkg/server/config/loading.go:80-83 | A missing key takes the left entry as it is, a nested map by reference. |
| ConfigMerge.MergeKey | pkg/server/config/loading.go:77-98 | One round of the loop merges one key and leaves the keys to come as they were. |
| ConfigMerge.ConfigMapMerge | pkg/server/config/loading.go:76-100 | For separate trees, in whatever order the keys are visited, the right map becomes the merge of the two in place and the left one keeps its value; for maps that share nested maps and where the left one adds nothing, nothing is written; the recursion terminates. |
| HostSpecs.SplitAccepts | pkg/server/config/models.go:100 | The split accepts exactly `h:p` and `[h]:p`, brackets allowing colons in the host, and yields h and p. |
| HostSpecs.SplitWithPort | pkg/server/listeners.go:88-91 | A header splits exactly when it is a host with a port, which is then the host it is split into. |
| HostSpecs.HostSpec.UnmarshalText | pkg/server/config/models.go:92-113 | Accepts exactly `h:p` and `[h]:p` for a decimal port below 65536, alone or before a slash and a network, and sets host, port and network, "tcp" without a slash; a rejected text leaves host and port as they were but sets the network all the same. |
| HostSpecs.ParseMeans | pkg/server/config/models.go:92-113 | A text parses to a host, a port and a network if and only if it spells them. |
| HostSpecs.ListenAddress | pkg/server/config/models.go:96-98 | At an input: a listen address without a network is a tcp address. |
| HostSpecs.PrintedAddress | pkg/server/config/models.go:120-122 | At an input: how an address is printed. |
| HostSpecs.ColonHostRejected | pkg/server/config/models.go:120-122 | A printed host with a colon is never accepted back. |
| HostSpecs.RoundTrip | pkg/server/config/models.go:92-122 | For every port and network, parsing what was printed gives the value back if and only if the host holds none of ':', '/', '[' and ']'. |
| HostSpecs.Reparse | pkg/server/config/models.go:92-122 | For any accepted text, parse-print-parse equals parse if and only if the parsed host has no ':'. |
| Decimals.ParseOfDecimal | pkg/server/config/models.go:105 | A printed number is read back, unless it is out of range. |
| Decimals.ParseAccepts | pkg/server/config/models.go:105 | What is read as a number in range is exactly the number as printed, with any zeros in front. |
| Decimals.DecimalIsOnly | pkg/server/config/models.go:121 | The printed number is the only text of digits with that value and no leading zero. |
| Decimals.ValueConcat | pkg/server/config/models.go:105 | Positional base ten: digits in front of b count ten to the power of the length of b. |

## Left out

- HTTP forwarding, headers, TLS and response copying in pkg/server/backends.go: client-library plumbing; a backend is an opaque value.
- Sockets, serving goroutines and shutdown in NewHTTPEdgeListener: opening a socket succeeds or fails as `Environment.listens` says.
- Proxy dialers and URL parsing in pkg/server/proxychains.go: a chain can be built or not, as `Environment.chainOk` says.
- pkg/server/target_selectors.go, YAML decoding, the mapstructure decoder and the rest of `Load`: library calls with little of their own.
- SplitHostPort: net.SplitHostPort is not part of the repository; the model follows its documented behaviour, with the errors as kinds instead of messages.
- Handle: `net.SplitHostPort` as above; what the backend does with the request is not modelled.
- AddSite: the log itself is not modelled, the method returns whether the warning would be logged; the error it returns in Go is always nil.
- StartListeners: whether a socket opens is a function of the listen key alone, although two keys can compete for one port.
- InstallHook: one hook directory; the surrounding loop over hooks repeats it on independent files. Failing file operations other than a missing hook file are left out.
- RunPreserves: script names are taken to hold no newline, without which the lines written are not the lines read back.
- Concurrency: machine words are 64 bits wide.
- CanStep: a promise's function is assumed to return; a function that itself launches promises is not covered.
- Launching a job: `concurrencyWg.Add` and the `go` statement are one step, since nothing else of the launching goroutine happens between them.
- Single-platform targets and `Binary`: they are the case of one launcher.
- Printing, error texts and wrapping of errors: only which error, and whether there is one.
- Cleaning, linting, tool installation, archiving and git calls of magefile.go: external processes.
