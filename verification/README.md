# Verification model of the hub server

A Dafny model of the parts of the hub server whose correctness is not visible from one function: the
connection registry with its per-URL admission, the routing-tree algorithms and the gateway gossip built on
them, the cluster's DNS reconciliation and request ownership, and the bandwidth meter.

`dafny verify dfyconfig.toml` checks everything.

| file | about |
|---|---|
| `Options.dfy`, `Sequences.dfy`, `RoutingInfo.dfy` | optional values; facts about concatenation; the routing message |
| `RoutingIter.dfy`, `RoutingTree.dfy` | the queue iterator, minimum depth, membership, pruning |
| `GatewayMerge.dfy`, `MergeOrder.dfy`, `Gossip.dfy` | the TTL merge, when input order matters to it, runs of exchanges |
| `RegistrySpec.dfy`, `RegistryEffects.dfy`, `RegistryState.dfy` | the registry with atomic operations: as functions on a value, what they do field by field, and as objects updated in place |
| `RegistrySteps.dfy` | the registry access by access, any sessions interleaved |
| `RegistryAdmission.dfy`, `RegistryHistory.dfy`, `RegistryOperations.dfy`, `RegistryVerdicts.dfy`, `RegistryProgress.dfy`, `RegistrySolo.dfy` | on top of it: counters and refusals, the atomic history behind an interleaving, what one operation contributes to it and why it is refused, absence of deadlock, one operation undisturbed |
| `RegistryEnter.dfy` | `enter` as a sequence of such accesses, with its precheck and the time in between |
| `RefreshLimiter.dfy` | the limiter of tracker cache refreshes, access by access |
| `Hosts.dfy`, `Redirect.dfy`, `Dns.dfy`, `Manager.dfy`, `Service.dfy` | host names, request ownership, DNS reconciliation, and both together |
| `BandWidth.dfy` | the bandwidth meter |

## What holds, and what it rests on

**Registry.** The registry keeps the same facts in five places. With atomic operations every run refines one
map from session to URL (`RunRefines`); the classes of `RegistryState` compute the functions of `RegistrySpec`
(each method takes the registry its objects show as a ghost argument). Taken apart into single accesses - load,
compare and exchange, insert, entry lock, push, remove, decrement, lookup, retain, conditional remove - every
interleaving of different sessions keeps all counters exact (`CountersExact`, `NoUnderflow`,
`LookupFindsOwnData`, `QuiescentIsRegistry`), is a sequence of admitted insertions and deletions on a plain map
(`HistoryRefines`), to which each operation contributes once or not at all, as its verdict says (`AdditionEvents`,
`RemovalEvents`) and which is refused for a full map or a full URL alone (`AdditionVerdict`), and never deadlocks (`ComesToRest`), and an operation that is not disturbed does what the atomic
one does (`SoloAdd`, `SoloRemove`, `SoloEnter`). The hypotheses are:

- Operations on one session id follow each other; different sessions interleave freely. `add_connection`
  publishes a session before it counts it in its URL, so same-session races are not claimed.
- A session that is added is not in the session map. `AddNeedsFresh` shows that this is needed.
- The per-URL cap is not 0. `UrlCapExactly` shows that this is exactly when the cap holds: the first client of a
  URL is not checked.
- For the tracker cache: clients report under their own id. `OwnIdsExactly` shows that this is exactly what keeps
  caches sound; nothing in the server checks it.

Where admission is not what the session map alone suggests, the exact condition is proved:

- The precheck of `enter` counts the session that is about to be removed. It decides as the removal and addition
  after it would exactly when the session is unknown, or the precheck holds, or the session moves to another URL
  that is full (`EnterDecidesExactly`). So a live session is refused re-entry to its own URL at either cap, and a
  move to a URL with room at the global cap, although its own place would be freed.
- Under concurrency a refusal counts the sessions in flight: those that hold a global slot and are not in the
  session map, less those that are in the map and have given their slot back, and likewise per URL
  (`GlobalRefusalExactly`, `UrlRefusalExactly`). `TransientRefusal` is an instance.
- `enter` sets up the connection between its precheck and the removal of the old one. A request that has passed can
  therefore be refused after all, and then has no connection left (`RegistryEnter.RefusedExactly`); the global part
  of its precheck is overtaken exactly if others have taken as many more slots than were given back as there was
  room (`PrecheckOvertaken`).

**Routing trees.** The queue order is the level order, and all results are stated on the tree. Pruning twice is
pruning once only if the nodes dropped at the second frontier do not show in the relation counts
(`PruneComposes`, an equivalence).

**Gateway merge.** A session only mentioned gets the maximum of its TTLs less one exactly when the first TTL met
is not zero; at zero the unsigned subtraction wraps (`MergedIsMaxMinusOne`). The result does not depend on the
order of the received trees exactly when the trees that compete for a place agree (`OrderFreeExactly`);
consistent node types alone are not enough, since two trackers or a zero TTL can make the order matter. In
gossip runs that start from nothing no TTL is ever even, so the wrap never happens there (`SentTtls`).

**Cluster.** An update of the DNS zone compares addresses only. For a cluster host with a first label it settles
the addresses whatever the zone held, and the node records end up properly named exactly when those of the live addresses were before (`NamedExactly`). Since
deletions come first, the cluster's host is without any address at some point of an update exactly when none of
its old addresses is live (`GapExactly`). How the DNS service names a record that is added without a prefix, as
happens for a cluster host without a first label, is a parameter; the addresses settle exactly when it names it by
the cluster's host or none is missing (`Converges`). The node list is published before the zone is updated: a live
node's host resolves to it all along exactly when it did before (`ResolvesThroughoutExactly`). The node id is any function to 16 hexadecimal digits, and only what
needs distinct hosts assumes distinct ids on the live addresses; the URL hash is any number.

**Bandwidth.** The meter never divides by zero, on any clocks, exactly for minimum spans of at least one second
(`NeverPanicsExactly`). On positive clocks that do not go back its windows are the calls cut into pieces
(`RatesBounded`). Zero stands for "no window open", so a first call at clock 0 is forgotten with the next later one
(`FollowsExactly`).

## Model

| member | source | states |
|---|---|---|
| RegistrySpec.CountsAreCardinalities | hubserv/src/state.rs:94-142 | under the registry invariant both counters are cardinalities of the session map and its URL fibres, and a URL entry exists exactly for a URL in use |
| RegistrySpec.TotalIsSum | hubserv/src/state.rs:94-142 | the global counter is the sum of the URL counters |
| RegistrySpec.AvailableIsAdmits | hubserv/src/state.rs:82-93 | the precheck holds exactly when the map of sessions has room globally and at the URL |
| RegistrySpec.AddRefines | hubserv/src/state.rs:94-131 | adding a fresh session succeeds exactly when the map admits it, adds exactly it, keeps invariant and caps; a refusal, rollback included, leaves the whole registry as it was |
| RegistrySpec.AddNeedsFresh | hubserv/src/state.rs:94-131 | adding keeps the five places in step if and only if the session is fresh or the global check refuses |
| RegistrySpec.RemoveRefines | hubserv/src/state.rs:132-142 | removing takes exactly the session out of the map and keeps the invariant, dropping the URL's entry exactly when it empties |
| RegistrySpec.RemoveElsewhere | hubserv/src/state.rs:132-142 | a removal leaves the entries of all other URLs untouched |
| RegistrySpec.EnterRefines | hubserv/src/entrance_server_router.rs:60-177 | precheck, removal and addition together succeed exactly when the precheck does, even if the removal drops the URL's entry; otherwise nothing changes |
| RegistrySpec.EnterDecidesExactly | hubserv/src/entrance_server_router.rs:60-177 | `enter` decides as its removal and addition would if and only if the session is unknown, the precheck holds, or the session moves to another URL that is full |
| RegistrySpec.RejoinAtCapRefused | hubserv/src/entrance_server_router.rs:60-177 | an instance: at the global cap a live session is refused re-entry to its own URL although removal and addition would have succeeded |
| RegistrySpec.ExchangeKeepsInv | hubserv/src/swarm.rs:94-126 | an exchange of a registered client finds its URL's data and changes no count, list or session |
| RegistrySpec.ExchangeKeepsCache | hubserv/src/state/url_data.rs:57-80 | with own-id reports, an exchange keeps every cached entry flat, of a listed client of the URL, and at most 1000 of them |
| RegistryEffects.FlattenKeeps | hubserv/src/state/client_data.rs:56-57 | what a kept report has, in numbers: the length of a relation list modulo 2^32, a count as it is, 0 for none |
| RegistryEffects.ExchangeEffect | hubserv/src/state/url_data.rs:37-80 | an exchange five seconds or more after the last refresh puts the first 1000 clients' reports in the cache, an earlier one leaves the entry alone, and no other entry changes |
| RegistryEffects.ReportsAreLast | hubserv/src/state/client_data.rs:55-62 | after any legal run the kept reports are, for each registered session, the last one it has sent since it joined |
| RegistryEffects.DueExchangeShowsLast | hubserv/src/state/url_data.rs:57-80 | on all runs, a due exchange leaves in the cache exactly the last reports of the first 1000 clients, in their order |
| RegistryEffects.AddEffect | hubserv/src/state/url_data.rs:101-126 | an addition appends the client, and leaves the cache, its age and all other URLs alone |
| RegistryEffects.RemoveEffect | hubserv/src/state/url_data.rs:127-143 | a removal takes exactly the session's own entries out of the cache and leaves its age and all other reports alone |
| RegistryEffects.WithoutSnoc | hubserv/src/state/url_data.rs:129-132 | dropping a session from a client list drops nothing else and keeps the order |
| RegistryEffects.WithoutInfosSnoc | hubserv/src/state/url_data.rs:135-141 | dropping a session's entries from a cache drops nothing else and keeps the order |
| RegistrySpec.RemoveKeepsCache | hubserv/src/state/url_data.rs:127-143 | a removal takes the session's entries out of the cache, so that no cached entry outlives its client |
| RegistrySpec.AnswerEntries | hubserv/src/swarm.rs:108-126 | an answer holds flat entries of live clients of the URL, as many as the smaller of cache size and limit |
| RegistrySpec.RunRefines | hubserv/src/state.rs:94-148 | every legal run of joins, leaves, re-entries and reports keeps the invariant and the caps, tracks the run on the plain map, keeps global counter, map size and sum of URL counters equal, and with own-id reports keeps the cache sound |
| RegistrySpec.UrlCapExactly | hubserv/src/state.rs:116-124 | no run exceeds the per-URL cap if and only if that cap is at least 1 or the global cap is 0 |
| RegistrySpec.OwnIdsExactly | hubserv/src/state/url_data.rs:57-80 | for any set of permitted reports, all runs within it keep every cache sound if and only if it holds own-id reports only, or the global cap is 0 |
| RegistrySpec.ForeignReportShows | hubserv/src/swarm.rs:94-108 | one client that reports under another id, or none, spoils its URL's cache at once |
| RegistrySpec.ForeignIdOutlivesClient | hubserv/src/state/url_data.rs:133-142 | an instance: the report of a foreign id stays in the cache after its client has left |
| RegistryState.ClientData.SetRoutingInfo | hubserv/src/state/client_data.rs:55-59 | the stored report has the argument's type, id and payload, its number of relations modulo 2^32 as a count, and no known gateways |
| RegistryState.UrlData.constructor | hubserv/src/state/url_data.rs:19-26 | a new entry counts and lists its one client, with an empty tracker cache |
| RegistryState.UrlData.AddConnection | hubserv/src/state/url_data.rs:101-126 | counts and pushes the client, or refuses at the cap and changes nothing |
| RegistryState.UrlData.RemoveConnection | hubserv/src/state/url_data.rs:127-143 | decrements the count, drops the session from the client list and from the cache |
| RegistryState.UrlData.UpdateRoutingInfo | hubserv/src/state/url_data.rs:57-80 | the cache becomes the reports of the first 1000 clients, in list order, without those that have none |
| RegistryState.UrlData.UpdateRoutingInfoIfNeeded | hubserv/src/state/url_data.rs:37-56 | refreshes exactly when five seconds have passed, otherwise changes nothing |
| RegistryState.ChooseMultiple | hubserv/src/swarm.rs:114-117 | picks that many entries at distinct positions |
| RegistryState.State.IsNewConnectionAvailable | hubserv/src/state.rs:82-93 | decides the precheck of the registry that the objects show |
| RegistryState.State.CountInUrl | hubserv/src/state.rs:116-125 | the URL objects afterwards show the URL map with the client counted, its data created if there was none, or the map unchanged on refusal |
| RegistryState.State.AddConnection | hubserv/src/state.rs:94-131 | the objects afterwards show the registry after the atomic addition, with the same verdict, and no URL's data object is exchanged |
| RegistryState.State.RemoveConnection | hubserv/src/state.rs:132-142 | the objects afterwards show the registry after the atomic removal |
| RegistryState.State.EnterConnection | hubserv/src/entrance_server_router.rs:60-177 | the objects afterwards show the registry after precheck, removal and addition, with the same verdict |
| RegistryState.State.ExchangeRoutingInfo | hubserv/src/swarm.rs:94-126 | stores the report, refreshes the cache if due, answers from it; fails only for a client that is not registered and whose URL has no data |
| RegistrySteps.StepSound | hubserv/src/state.rs:94-142 | every access of every session keeps the invariant that ties counters, maps, lists, locks and program counters together |
| RegistryAdmission.CountersExact | hubserv/src/state/url_data.rs:101-132 | at every point of every interleaving each counter is the size of the session map, or of its part at the URL, corrected by the sessions in flight as their program counters show, and within its cap; data out of the URL map counts nobody |
| RegistryAdmission.GlobalRefusalExactly | hubserv/src/state.rs:94-99 | an addition is refused globally if and only if the session map so corrected is full; with room in the map, exactly if the sessions in flight make up for it, and without, passed exactly if they do the other way |
| RegistryAdmission.UrlRefusalExactly | hubserv/src/state/url_data.rs:106-110 | the same for the URL's cap and the other sessions at the URL |
| RegistrySteps.NoUnderflow | hubserv/src/state.rs:126-138 | no counter is ever decremented at zero, in removals and in rollbacks |
| RegistrySteps.LookupFindsOwnData | hubserv/src/state.rs:137-139 | a remover's lookup finds the data object that its session was counted in |
| RegistrySteps.RegistersOnlyMapped | hubserv/src/state.rs:116-119 | a client is counted and pushed only into data that is in the URL map |
| RegistrySteps.QuiescentIsRegistry | hubserv/src/state.rs:94-142 | whenever all sessions are idle the five places agree, within the caps, the global counter is the session map's size and the sum of the URL counters, no empty entry remains and nothing is locked |
| RegistryAdmission.TransientRefusal | hubserv/src/state.rs:94-99 | an instance: an interleaving in which a session is refused for a free URL though the map admits it |
| RegistryHistory.StepRefines | hubserv/src/state.rs:94-142 | every access leaves the map of live sessions alone, or inserts one that the map admits, or deletes one that is there |
| RegistryHistory.HistoryRefines | hubserv/src/state.rs:94-142 | every interleaving is a run of admitted insertions and deletions on a plain map, which at every point is the map of live sessions |
| RegistryHistory.VerdictIsHistory | hubserv/src/state.rs:116-131 | an addition returns true exactly if its insertion has happened, and between operations the live sessions are those of the session map |
| RegistryOperations.AdditionEvents | hubserv/src/state.rs:94-131 | between one idle point of a session and the next, an addition inserts its session exactly once if it returns true and contributes nothing otherwise |
| RegistryOperations.RemovalEvents | hubserv/src/state.rs:132-142 | likewise a removal deletes its session exactly once if it was registered and contributes nothing otherwise |
| RegistryVerdicts.AdditionVerdict | hubserv/src/state.rs:94-131 | over the whole operation and any interleaving, an addition ends at the global check exactly if the corrected session map is full there, in the rollback exactly if the URL was full at a check of it, and otherwise returns true; a lost exchange on either counter decides nothing |
| RegistryVerdicts.VerdictAccess | hubserv/src/state/url_data.rs:106-125 | one access turns an addition into a refused one exactly if it is the check of a full URL |
| RegistryEnter.PrecheckExactly | hubserv/src/state.rs:82-93 | the accesses of the precheck: rejected at the first exactly if the corrected session map is full, passed at the lookup exactly if the entry is unlocked and absent, rejected at the last exactly if the sessions counted in that data reach the cap; none of them changes the memory |
| RegistryEnter.SoloEnter | hubserv/src/entrance_server_router.rs:60-177 | `enter`, undisturbed from a state at rest, ends in the registry and with the verdict of the atomic precheck, removal and addition |
| RegistryEnter.AfterPrecheck | hubserv/src/entrance_server_router.rs:161-169 | past the precheck the removal starts, with `lost` telling whether there is a connection to remove, and the addition to the same URL starts when it has returned |
| RegistryEnter.RefusedExactly | hubserv/src/entrance_server_router.rs:60-177 | a request past its precheck is refused exactly if the session map, corrected by the sessions in flight, is full at its global check, or it has been rolled back, to which no other access leads than its check of a full URL; it is then without a connection |
| RegistryEnter.PrecheckOvertaken | hubserv/src/entrance_server_router.rs:60-169 | between precheck and addition the global verdict turns exactly if at least as many more sessions took a slot than gave one back as there was room; another session then took one |
| RegistryProgress.ComesToRest | hubserv/src/state.rs:94-142 | from every reachable state some schedule leads to a reachable state in which all sessions are idle |
| RegistryProgress.HolderIsFree | hubserv/src/state.rs:116-140 | who holds the lock of an entry that another session waits for does not wait itself |
| RegistrySolo.SoloAdd | hubserv/src/state.rs:94-131 | an undisturbed addition, from its start to its first return to idle, ends in the registry that the atomic addition yields, and with its verdict |
| RegistrySolo.SoloRemove | hubserv/src/state.rs:132-142 | an undisturbed removal, from its start to its first return to idle, ends in the registry that the atomic removal yields, after one access for an unknown session |
| RefreshLimiter.StepKeepsInv | hubserv/src/state/url_data.rs:37-56 | one access, with any clock reading and any stale load, installs at most one timestamp, at least five seconds above the last |
| RefreshLimiter.AccessVerdicts | hubserv/src/state/url_data.rs:38-54 | a thread passes its load exactly from five seconds on, installs exactly if nobody has since, and is done after that either way |
| RefreshLimiter.UndisturbedRefresh | hubserv/src/state/url_data.rs:37-56 | a thread that is not disturbed refreshes exactly when five seconds have passed |
| RefreshLimiter.RefreshesAreLimited | hubserv/src/state/url_data.rs:37-56 | in every interleaving successive refreshes are five seconds apart, and a window of T seconds sees at most T/5 + 1 |
| RoutingIter.RecursiveIteratorWithDepth.constructor | proto/src/routing_info_ex.rs:234-246 | the queue starts with the roots at depth 0 |
| RoutingIter.RecursiveIteratorWithDepth.Next | proto/src/routing_info_ex.rs:247-262 | yields the head of what is left to visit, shrinks the number of nodes left by one, and keeps queued depths ascending within one level |
| RoutingIter.CollectWithDepth | proto/src/routing_info_ex.rs:231-262 | the iterator ends and has then yielded exactly the level order with depths |
| RoutingIter.DrainIsLevelOrder | proto/src/routing_info_ex.rs:247-262 | taking the head and appending its children, until the queue is empty, lists level after level |
| RoutingIter.LevelsVisitEachNodeOnce | proto/src/routing_info_ex.rs:247-262 | the level order visits every node occurrence once, at its structural depth |
| RoutingIter.LevelsAscend | proto/src/routing_info_ex.rs:247-262 | depths start at the root's, never decrease and skip no level |
| RoutingIter.LevelsKeepOrder | proto/src/routing_info_ex.rs:247-262 | within a level the visits come in the order of the trees themselves |
| RoutingIter.Fold | proto/src/routing_info_ex.rs:191-196 | folding is the left fold over the level order |
| RoutingIter.FoldLeftConcat | proto/src/routing_info_ex.rs:191-196 | the left fold takes its list from the front, every element once |
| RoutingIter.FoldCountsNodes | proto/src/routing_info_ex.rs:191-196 | counting by `fold` counts the nodes of the tree |
| RoutingTree.MinDepthIsStructural | proto/src/routing_info_ex.rs:126-150 | the search finds the minimum depth defined by recursion on the tree, and finds one exactly for known sessions |
| RoutingTree.AddKnownEffect | proto/src/routing_info_ex.rs:151-165 | exactly the added session becomes known, at depth at most 1, and no other minimum depth changes |
| RoutingTree.AddKnownShape | proto/src/routing_info_ex.rs:151-165 | the tree stays as it was, with one Normal leaf for the session after all of it, one level below the root |
| RoutingTree.ToSendDataShape | proto/src/routing_info_ex.rs:25-41 | a sent tree is no deeper than asked, carries no known gateways, and below the root only Normal and Gateway nodes |
| RoutingTree.SentAsItWas | proto/src/routing_info_ex.rs:25-41 | a sent tree is, node by node and in order, the part of the tree reached through Normal and Gateway descendants, each with its type, id and payload, and on the last level with its number of relations modulo 2^32 |
| RoutingTree.ToSendDataMinDepth | proto/src/routing_info_ex.rs:25-41 | a session is at depth k of a sent tree exactly when its shallowest occurrence below relayable nodes is at depth k within the limit |
| RoutingTree.PruneIdempotent | proto/src/routing_info_ex.rs:25-41 | pruning again at the same or a larger depth changes nothing, on any tree |
| RoutingTree.PruneComposes | proto/src/routing_info_ex.rs:25-41 | pruning again at a smaller depth equals pruning once exactly when the nodes dropped at the frontier do not show in the 32-bit counts |
| RoutingTree.PruneMin | proto/src/routing_info_ex.rs:25-41 | with Normal and Gateway descendants only, two prunings are one at the smaller depth |
| GatewayMerge.MentionPassMeaning | proto/src/routing_info_ex.rs:71-88 | the first pass gives a session a TTL determined by the first and the largest of its TTLs alone |
| GatewayMerge.MergedIsMaxMinusOne | proto/src/routing_info_ex.rs:71-88 | the TTL is the maximum less one if and only if the first TTL is not zero |
| GatewayMerge.SightPassMeaning | proto/src/routing_info_ex.rs:90-110 | the second pass sets a session to the initial TTL or removes it, by its last occurrence, and leaves unseen sessions alone |
| GatewayMerge.MergeMeaning | proto/src/routing_info_ex.rs:71-111 | both passes together give every session its declared TTL, or absence |
| GatewayMerge.GetKnownGatewaySessionIds | proto/src/routing_info_ex.rs:50-112 | the list is the first tracker's relations, or holds each session with its declared TTL exactly once |
| GatewayMerge.TrackerListSnoc | proto/src/routing_info_ex.rs:60-68 | a tracker's list has its relations in order, each with an id once, at TTL 6 |
| GatewayMerge.NextTtlEntries | proto/src/routing_info_ex.rs:113-122 | the list passed on holds exactly the entries of TTL above 1, one lower |
| GatewayMerge.NextTtlSnoc | proto/src/routing_info_ex.rs:113-122 | the list passed on keeps the order, and each entry of TTL above 1 once |
| GatewayMerge.GetKnownGatewaySessionIdsNextTtl | proto/src/routing_info_ex.rs:113-122 | the list passed on is such a reduction of a list of the merge |
| GatewayMerge.MergePermutationInvariant | proto/src/routing_info_ex.rs:50-112 | with consistent types, agreeing trackers and no zero TTL, permuting the received trees changes nothing |
| GatewayMerge.InconsistentTypesOrderMatters | proto/src/routing_info_ex.rs:90-110 | a session met with two types is in or out by order |
| GatewayMerge.ZeroMentionOrderMatters | proto/src/routing_info_ex.rs:80-85 | a zero TTL wraps when met first and is ignored when met later |
| GatewayMerge.DisagreeingTrackersOrderMatters | proto/src/routing_info_ex.rs:54-69 | of two trackers with different relations the first decides |
| MergeOrder.FirstOfForest | proto/src/routing_info_ex.rs:247-262 | the first node with a property, over all trees, is the first one in some tree that has it on the highest level |
| MergeOrder.LastOfForest | proto/src/routing_info_ex.rs:247-262 | the last node with a property, over all trees, is the last one in some tree that has it on the lowest level |
| MergeOrder.OrderFreeExactly | proto/src/routing_info_ex.rs:50-112 | no permutation of the received trees changes the merge if and only if the trees that compete for the tracker, for a session's type and for its first mention agree |
| Gossip.SentTtls | proto/src/routing_info_ex.rs:50-122 | in every run each TTL sent is 1, 3 or 5, and no exchange receives a zero TTL |
| Gossip.EntryProvenance | proto/src/routing_info_ex.rs:50-122 | an entry of TTL t goes back over (5 - t)/2 exchanges, two TTLs each, to a sighting |
| Gossip.FreshEntriesAreSightings | proto/src/routing_info_ex.rs:50-122 | TTL 5 is sent exactly for what was sighted in this very exchange |
| Gossip.MentionsFade | proto/src/routing_info_ex.rs:50-122 | m synchronous rounds without a sighting leave no TTL above 5 - 2m |
| Gossip.ForgottenInThreeRounds | proto/src/routing_info_ex.rs:50-122 | a gateway that nobody sights for three rounds is in nobody's list |
| Hosts.SplitHostParts | cluster/src/func.rs:28-35 | splitting loses the dot only, the first label has no dot and the rest has one |
| Hosts.SplitHostFinds | cluster/src/func.rs:28-35 | splitting a joined name finds label and domain again if the domain has a dot, and splits nothing off otherwise |
| Hosts.NodePrefixNamesHost | cluster/src/func.rs:12-27 | a record added under the node's prefix is named by the node's host |
| Hosts.NodeHostIsNotCluster | cluster/src/func.rs:12-19 | a node's host is longer than the cluster's by at least its id, hence never equal to it |
| Hosts.NodeHostForms | cluster/src/func.rs:12-19 | a node's host stands beside the cluster's in its domain, or below it, literally |
| Hosts.NodeHostInjective | cluster/src/func.rs:12-19 | two nodes share a host exactly when they share an id |
| Redirect.Client.SetNodeList | cluster/src/client.rs:25-27 | replaces the node list and nothing else |
| Redirect.AnswersExactly | hubserv/src/cluster.rs:73-97 | a node accepts exactly its own worlds, redirects exactly others' worlds asked for at the cluster's host, and forbids everything else, without a list all |
| Redirect.RedirectTarget | hubserv/src/cluster.rs:73-97 | a redirect leads to the host assigned to the world, which is not the cluster's |
| Redirect.AtMostOneRedirect | hubserv/src/cluster.rs:73-97 | through any nodes with any stale or different lists that do not name the cluster's host, a request is redirected at most once |
| Redirect.DerivedListsRedirectOnce | cluster/src/func.rs:12-19 | the same for all lists of derived node hosts, whatever their addresses |
| Redirect.OwnerAccepts | hubserv/src/cluster.rs:73-97 | the target accepts exactly when it assigns the world as the redirecting node did, in particular with the same list |
| Redirect.ExactlyOneOwner | cluster/src/client.rs:31-55 | with a common list of distinct hosts exactly one node owns each world |
| Dns.OldRecords | cluster/src/cf.rs:85-93 | a record survives a series of requests exactly when none deletes it |
| Dns.NewRecords | cluster/src/cf.rs:63-84 | the records added are exactly those asked for, named by prefix and zone |
| Dns.GroupsDisjoint | cluster/src/manager.rs:128-168 | no record is taken both for the cluster's and for a node's |
| Dns.NodeHostIsNodeName | cluster/src/manager.rs:151-161 | the host derived for a node is recognised as a node record's name |
| Dns.NodeNamesExactly | cluster/src/manager.rs:151-161 | a name is taken for a node's exactly if it is some 16 characters between the parts that all nodes' hosts share |
| Dns.PlanDeletes | cluster/src/manager.rs:60-79 | an update deletes a record exactly if it is named by the cluster's host or has a node's name in that sense, and its address is not live |
| Dns.PlanRequests | cluster/src/manager.rs:68-83 | an update adds exactly the missing cluster and node records of live addresses, under the names that the service gives them |
| Dns.PlanExactly | cluster/src/manager.rs:68-83 | the requests in order: stale cluster records go, missing ones come, then the same for the nodes' records, in the order of zone and live addresses |
| Dns.RequestsInOrder | cluster/src/manager.rs:69-83 | one request for each record or address, in order |
| Dns.ApplyAllExactly | cluster/src/cf.rs:63-93 | a series of requests that deletes old records leaves the others in order and appends one record for each request to add, in order |
| Dns.SelectConcat | cluster/src/manager.rs:137-160 | selecting keeps the order, and each element as often as it is there |
| Dns.ClusterNames | cluster/src/func.rs:28-35 | for a host with a first label the cluster's record is named by that host; the name is never shaped like a node's |
| Dns.PartialUpdate | cluster/src/manager.rs:68-83 | any part of an update leaves every record alone whose name is neither the cluster's nor a node's in that sense, keeps all records of live addresses, and keeps node records properly named |
| Dns.CompleteCovers | cluster/src/manager.rs:52-85 | after a complete update, from any zone, the node records cover exactly the live addresses, and the cluster records those of them that had one or got one under the cluster's host |
| Dns.Converges | cluster/src/manager.rs:52-85 | a complete update settles the zone if and only if the service names the cluster's record by the cluster's host, as for every host with a first label, or none is missing |
| Dns.SettledExactly | cluster/src/manager.rs:175-194 | an update has nothing to do exactly when the zone is settled, so a second update issues no request |
| Dns.NamedExactly | cluster/src/manager.rs:76-83 | after a complete update node records are properly named if and only if those of live addresses were before |
| Dns.NamesArePublished | cluster/src/manager.rs:108-118 | in a settled, properly named zone the node records' names are exactly the published hosts |
| Dns.HostLeadsToItsNode | cluster/src/manager.rs:108-118 | with distinct ids a published host resolves to its own node only |
| Dns.Recovers | cluster/src/manager.rs:52-85 | after any number of updates interrupted anywhere, for any addresses, one complete update names the zone properly with unrelated records untouched, and settles it with nothing left to do where the cluster's record is named by its host |
| Dns.GapExactly | cluster/src/manager.rs:68-74 | at some point of an update the cluster's host has no address, if and only if none of its old addresses is live |
| Dns.ResolvesThroughoutExactly | cluster/src/manager.rs:44-50 | at every point of an update the published host of a live address resolves to it if and only if it did before |
| Dns.PublishedResolves | cluster/src/manager.rs:44-50 | after a complete update that leaves node records properly named it does |
| Manager.DnsService.DeleteARecord | cluster/src/cf.rs:85-93 | removes the record of that id, or is refused and changes nothing |
| Manager.DnsService.AddARecord | cluster/src/cf.rs:63-84 | adds a record under prefix and zone with a new id, or is refused and changes nothing |
| Manager.SplitRecords | cluster/src/manager.rs:128-168 | selects, in order, the records named as the cluster and those shaped as a node's |
| Manager.DiffRecords | cluster/src/manager.rs:175-194 | selects, in order, the live addresses without a record and the records without a live address |
| Manager.UpdateDns | cluster/src/manager.rs:52-85 | carries out the plan up to the first refusal, succeeds exactly when there is none, and then it is the complete update |
| Service.EveryRequestIsServed | hubserv/src/cluster.rs:73-97 | with a settled zone, the published list everywhere and distinct ids, every node accepts its worlds and redirects others to a host that resolves to the owner alone, which accepts |
| BandWidth.BandWidth.constructor | common/src/band_width.rs:13-18 | a new meter is empty and has the default minimum span |
| BandWidth.BandWidth.AddBytes | common/src/band_width.rs:28-41 | adds the bytes to the open window, closes it once the minimum span has passed, or panics on less than a second with the bytes counted |
| BandWidth.RunAccounts | common/src/band_width.rs:28-41 | over every run on any clocks closed and pending bytes add up to all bytes, and the meter shows the last closed window's rate and end |
| BandWidth.CutUpMeaning | common/src/band_width.rs:28-41 | cutting the calls as the minimum span demands leaves nothing out, counts nothing twice, and ends each piece at the first call that late |
| BandWidth.RatesBounded | common/src/band_width.rs:28-41 | on positive clocks that do not go back and with a minimum span of a second, the closed windows have the bytes and clocks of these pieces, one for one, the open window has the rest, and each reported rate is the whole bytes per whole second, above the piece's true rate less one and below twice it |
| BandWidth.FollowsExactly | common/src/band_width.rs:29-31 | on clocks that do not go back, the windows are those of the calls if and only if the first clock is not zero or all are |
| BandWidth.NeverPanicsExactly | common/src/band_width.rs:1-37 | the division never panics, over all runs on any clocks, if and only if the minimum span is at least a second, as by default |

## Left out

- Races between operations on the same session id, such as `enter` against its connection callbacks.
- The tracker cache in the access-by-access model: the copy of the client list and the write of the cache are separate steps there, so freshness is claimed for atomic operations only.
- The map's shard locks: the model locks per URL, which allows more interleavings than the shards do.
- Memory orderings weaker than sequential consistency: each access takes effect at once, for all sessions.
- WebRTC, HTTP, AWS and Cloudflare traffic, signatures, access log and argument parsing: an operation of the DNS service only adds or deletes a record, or is refused.
- The random choice among cached entries: any entries at distinct positions.
- Depths as 32-bit numbers: the model's depths do not overflow.
- The 64-bit sums of the bandwidth meter: the model's bytes do not overflow.
- Debug builds, where unsigned subtractions in the merge and the bandwidth meter would panic instead of wrapping.
- What name the DNS service really gives to a record added without a prefix: any name, for naming results no longer than a dot and the zone.
- Zones that cannot be found or listed: the update then ends before its first request.
- Host names as bytes: they are sequences of characters, one byte each.
- `normalize_url`, packet encoding and compression, `ThrottleJobRunner` and `SignalFuture`: they rest on libraries or have no property beyond one body.
- RegistrySteps.QuiescentIsRegistry: compares counts, lists and maps, not the cache.
