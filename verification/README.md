# Easy Proxies, verified

Easy Proxies puts a pool of upstream proxies behind a few local entry ports. The
network I/O is delegated; what is left is a set of small stateful protocols. This
project models those protocols in Dafny and proves what they promise.

| file | what it models |
|---|---|
| `BindingCache.dfy`, `CacheRuns.dfy` | session bindings as a map and a recency list with an idle deadline, and all runs over them |
| `Store.dfy` | the session store as an object: gates, leases, list and map updated in place |
| `LeaseProtocol.dfy`, `LeaseService.dfy` | `Acquire` and `Release` as interleaved steps of any number of threads: what cannot happen, and what does |
| `FileUpdate.dfy`, `FileProgress.dfy` | locked reads and updates of one file by several processes: sidecar lock, inode lock, identity recheck, rename, writing in place |
| `Bans.dfy`, `SharedStates.dfy` | the ban state of a node, its runs, and the registry all pools share |
| `PoolSelection.dfy`, `Contention.dfy` | which member a pool picks; the same selection while others act between its single locks |
| `Dialing.dfy`, `Connections.dfy` | one request through a pool with its session lease; the load counter over all pools |
| `Refresh.dfy` | coalescing of subscription refreshes through a one-slot channel |
| `Lifecycle.dfy` | start, reload, rollback and close of the proxy core |
| `Ports.dfy` | the three port passes, the port map, the upgrade of old port maps |
| `Probing.dfy` | health-check sweeps and single-flight probes |
| `GeoCache.dfy`, `GeoService.dfy` | the region cache validated by epoch |
| `Base64.dfy`, `SsrUri.dfy` | the ShadowsocksR URI printer and parser; base64 as in sections 4 and 5 of RFC 4648 |
| `HeaderScan.dfy`, `LogRing.dfy` | the incremental header scan and the log ring buffer |
| `TextOrder.dfy` | the order of strings that sorting uses |

How the outside appears: a clock is a reading passed to each critical section, or
an object that never runs backwards. Dial outcomes, cancellation, DNS, expiry of
cached regions and port availability are arbitrary or oracles; what a lifecycle
transaction meets (cancellation, how each launch ends, saves, a waiting `Close`) is
an input, so that its outcome can be stated exactly. A protocol with concurrent
parties is a state machine: `Apply` performs one critical section or one channel or
file operation, a step that is not enabled does nothing, and the theorems hold after
every run, that is, after every finite sequence of steps. Theorems of what cannot
happen stand next to theorems of what does: from every state a run can reach, nobody
is stuck, and a caller alone gets what it asked for. Code that works on one object
under one lock is a class, and every method is proved against a function of the old
state.

## What turned out not to hold

Each item names the members that show it or say exactly what holds instead.

- An empty request channel does not follow from there being no pending refresh: a
  worker that exits on the stop signal leaves its request in the channel
  (`Refresh.RequestLeftBehind`, `Refresh.EmptyChannelExactly`). No send follows, so
  nothing blocks.
- A GeoIP lookup that starts after an update can still get a region of the old
  database: exactly when it is let into a flight that already has it
  (`GeoCache.JoinedFlightIsStale`, `GeoCache.StaleExactlyWhenLate`). What is cached is
  never stale.
- A cooldown is not always protected from the automatic release of a fully banned
  pool (`Bans.CooldownCanBeReleased`, `Bans.ReleaseSparesExactly`).
- With two nodes of one key, a configuration does not keep its ports when it is
  normalised with its own port map (`Ports.RenormalisingIsStableExactly`): one key on
  24000 and 24001 comes back as 24001 and 24000 (`Ports.SharedKeySwapsPorts`).
- A failure to persist an edited configuration does not always restore the previous
  runtime. The unpersisted edit goes on running exactly when the restoring reload is
  turned away, because the manager was marked closed or its context ended, or when
  the old settings do not come up and the rollback relaunches the edit; nothing runs
  exactly when neither comes up (`Lifecycle.Manager.ReloadWithCurrentConfig`,
  `Lifecycle.UnpersistedEditRuns`, `Lifecycle.EachWayKeepsTheEdit`).
- Even a restore that succeeds brings back what was configured, not what ran: the two
  agree exactly when no node edit was waiting to be applied, that is, when the running
  instance had been built from the settings on record
  (`Lifecycle.Manager.ReloadWithCurrentConfig`, `Lifecycle.RestoredIsNotPrevious`).

## Model

| member | source | states |
|---|---|---|
| BindingCache.PruneIsFilterExactly | internal/routing/store.go:239-250 | on any store whose list and map agree, stopping at the first live tail entry removes exactly the expired ones if and only if none of them stands in front of a live one |
| BindingCache.PruneIsFilter | internal/routing/store.go:239-250 | in the store as it is kept, the prune removes exactly the expired entries, in list order |
| BindingCache.PruneNeedsOrder | internal/routing/store.go:239-250 | with only the recency order missing, an expired entry survives the prune |
| BindingCache.CommitKeepsKey | internal/routing/store.go:209-237 | what was just committed is never what the capacity check evicts |
| BindingCache.PruneTurn | internal/routing/store.go:239-250 | one round of the loop keeps the value the loop computes |
| BindingCache.CapacityTurn | internal/routing/store.go:252-257 | one eviction keeps the value the loop computes, and stops at the bound |
| BindingCache.ConfigureIsWf | internal/routing/store.go:66-85 | new limits leave list and map agreeing, in order, stamped with the new idle time and within the new size |
| BindingCache.ConfigureKeepsSurvivors | internal/routing/store.go:66-85 | exactly the entries live under both the old and the new deadline survive, the most recent up to the new size |
| BindingCache.ConfigureNeverRevives | internal/routing/store.go:66-85 | whatever is left was not expired before the change, nor under the new idle time |
| BindingCache.CommitIsWf | internal/routing/store.go:209-237 | a commit keeps list and map agreeing, ordered by time, stamped and within the size |
| BindingCache.CommitOrder | internal/routing/store.go:209-257 | the committed key is first, then the live ones in their order; only the least recent are evicted |
| BindingCache.CommitPins | internal/routing/store.go:209-237 | the key is bound to the dialled node under its present names, renewed from its live binding: created when it was, one more switch with its reason exactly if the node is another; every other binding kept is unchanged |
| BindingCache.DeleteIsWf | internal/routing/store.go:102-114 | unbinding keeps the store well formed |
| BindingCache.ReadPinIsWf | internal/routing/store.go:189-205 | reading, which may drop an expired entry, keeps the store well formed |
| BindingCache.SizesAgree | internal/routing/store.go:30-63 | list and map have the same size |
| CacheRuns.RunIsWf | internal/routing/store.go:66-122 | after every run with a monotone clock: agreement, order, stamps and the size bound |
| CacheRuns.RunBinds | internal/routing/store.go:102-237 | after any run, a commit binds its session for the idle time, an unbind or a clear leaves it unbound, and a read changes nothing but an expired binding |
| CacheRuns.RunOrder | internal/routing/store.go:209-262 | after every run, the list is in order of last commit, most recent first |
| CacheRuns.SwitchCountIsExact | internal/routing/store.go:209-237 | the switch counter is the number of changes between successive commits in the entry's life |
| CacheRuns.OthersKeep | internal/routing/store.go:66-122 | only a commit of its own key changes what an entry holds, its deadline aside |
| SessionStore.Store.constructor | internal/routing/store.go:55-63 | an empty store with the limits, or 10000 bindings and 24 hours |
| SessionStore.Store.Configure | internal/routing/store.go:66-85 | the new map and list are those of the value model; positive limits are taken as they are, others become 10000 bindings and 24 hours |
| SessionStore.Store.List | internal/routing/store.go:88-98 | the snapshot is what is live, each session once, in the order of their names; nothing is extended |
| SessionStore.Store.Delete | internal/routing/store.go:102-114 | drops the entry, says whether it was live, makes the key's gate one version newer and ends every lease of that gate |
| SessionStore.Store.Clear | internal/routing/store.go:116-122 | empties the store, starts a new epoch and ends every lease |
| SessionStore.Store.BeginAcquire | internal/routing/store.go:136-150 | finds or creates the key's gate and counts one reference |
| SessionStore.Store.FinishAcquire | internal/routing/store.go:151-165 | the lease carries the gate's version and the epoch of this moment, and is live |
| SessionStore.Store.ReleaseReference | internal/routing/store.go:167-174 | the gate leaves the map when its last reference goes, if it is still the key's |
| SessionStore.Store.Release | internal/routing/store.go:176-184 | gives token and reference back once and ends the lease; again is a no-op |
| SessionStore.Store.Binding | internal/routing/store.go:189-205 | only a live lease reads, and an expired pin is dropped |
| SessionStore.Store.Bind | internal/routing/store.go:209-237 | only a live lease commits, and the commit is that of the value model |
| SessionStore.Store.Acquire | internal/routing/store.go:136-165 | with the token free: a live lease of the session, one more reference, the token taken |
| SessionStore.Store.UseSession | internal/routing/store.go:136-237 | one session alone: its lease reads what the session is bound to, and its commit binds it |
| SessionStore.Store.PinAndReadBack | internal/routing/store.go:136-237 | what one lease committed, the next one reads, exactly until it expires |
| SessionStore.Store.Others | internal/routing/store.go:66-122 | whatever others do under the lock, nobody else changes what this session is pinned to, and a dead lease stays dead |
| SessionStore.Store.PruneLocked | internal/routing/store.go:239-250 | the loop over the list's tail computes the pruned value |
| SessionStore.Store.EnforceCapacityLocked | internal/routing/store.go:252-257 | the eviction loop computes the bounded value |
| SessionStore.Store.RemoveLocked | internal/routing/store.go:259-262 | removes one key from the map and the list |
| LeaseProtocol.OneLeasePerKey | internal/routing/store.go:136-184 | in every interleaving, two unreleased leases have different keys, and a lease's gate is the key's gate |
| LeaseProtocol.GatesExactlyWhileCounted | internal/routing/store.go:136-184 | in every interleaving, a key has a gate in the map exactly while some thread counts on a gate of that key |
| LeaseProtocol.SendNeverBlocks | internal/routing/store.go:136-184 | in every interleaving, a token given back finds the channel empty, and a gate nobody holds has its token |
| LeaseProtocol.EntriesOutliveNoUnbind | internal/routing/store.go:102-122 | every entry was committed under a lease created after the last unbind of its key and the last clear |
| LeaseProtocol.StaleLeaseIsDead | internal/routing/store.go:189-237 | a lease older than an unbind or clear reads nothing and commits nothing, even if gates were dropped and recreated |
| LeaseProtocol.NobodyElseCommits | internal/routing/store.go:136-237 | while a lease is unreleased, a commit by any other lease of its key leaves the store alone |
| LeaseService.LiveExactly | internal/routing/store.go:189-237 | in every interleaving, a lease reads and commits exactly while it is unreleased and younger than every unbind of its session and every clear |
| LeaseService.YoungLeaseServes | internal/routing/store.go:189-237 | such a lease reads the live binding, its commit binds the session to the node, and it reads that back until it expires |
| LeaseService.NobodyIsStuck | internal/routing/store.go:136-184 | in every interleaving, a waiting caller can take the token unless another caller has it, and every other caller can take its next step |
| LeaseService.AcquireSucceeds | internal/routing/store.go:136-165 | from every reachable state, a new caller of an idle session gets a live lease of it |
| LeaseService.ReleaseSucceeds | internal/routing/store.go:167-184 | from every reachable state, a released lease leaves the token free and the gate in the map exactly for the callers that count on it |
| LeaseService.CancelSucceeds | internal/routing/store.go:151-174 | a cancelled caller is gone without a lease, with its reference given back and the token left to others |
| LeaseService.UnbindEnds | internal/routing/store.go:102-114 | from every reachable state, an unbind takes the binding away and ends the session's leases, and no other live lease |
| LeaseService.OtherStepsEnd | internal/routing/store.go:66-122 | a clear empties the store and ends every lease; new limits and a listing end none |
| FileUpdate.Serialisable | internal/config/persistence.go:35-226 | with any mix of renaming and in-place writers, the file is the finished updates applied one after the other |
| FileUpdate.NoUpdateLost | internal/config/persistence.go:109-126 | every finished update is in that order exactly once, on top of all it was computed from |
| FileUpdate.ReadersSeeVersions | internal/config/persistence.go:91-107 | a locked read returns a complete version, never a half-written file |
| FileUpdate.LogOnlyGrows | internal/config/persistence.go:35-89 | the order of finished updates is only ever extended |
| FileUpdate.FinishedComesFirst | internal/config/persistence.go:35-126 | a call that finished before another began comes before it in that order |
| FileUpdate.SidecarCallsSucceed | internal/config/persistence.go:35-89 | a caller that holds the sidecar lock passes its first recheck and succeeds; only in-place callers can run out of attempts |
| FileProgress.GivesUpAfterAllAttempts | internal/config/persistence.go:63-88 | a call gives up only after thirty-two rechecks, and one that succeeds has needed no more |
| FileProgress.CallIsNeverStuck | internal/config/persistence.go:35-89 | in every run a call can take its next step, unless it waits for a lock that another call or a reader holds |
| FileProgress.ReaderIsNeverStuck | internal/config/persistence.go:91-107 | so can a reader |
| FileProgress.RenamingAlone | internal/config/persistence.go:35-190 | from every state with free locks, a caller gets its edit of the present content under the path, in a new inode, and gives the locks back |
| FileProgress.WritingAlone | internal/config/persistence.go:35-226 | the same in place, with or without the sidecar |
| FileProgress.ReadingAlone | internal/config/persistence.go:91-107 | a reader of an unlocked file gets what the path names |
| Bans.BanOkForever | internal/outbound/pool/shared_state.go:165-362 | an operator ban implies a ban with an end no earlier; a cleared state is clean |
| Bans.ManualBanOutlives | internal/outbound/pool/shared_state.go:306-362 | an operator ban survives every sequence of automatic transitions until it ends |
| Bans.FailuresBelowThreshold | internal/outbound/pool/shared_state.go:165-207 | the failure count stays below the threshold in every run |
| Bans.BanIsLatestProposal | internal/outbound/pool/shared_state.go:165-265 | the ban in force ends at the latest end proposed since the last clear, and is a cooldown exactly if the last proposal with that end is |
| Bans.CountIsExact | internal/outbound/pool/shared_state.go:165-323 | the failure count is the number of permanent failures since the last success, pin failure, operator ban, release that freed the node, or failure that reached its threshold |
| Bans.BannedExactly | internal/outbound/pool/shared_state.go:165-362 | in every run the node is banned exactly while some proposed ban still runs, and parked exactly under a running operator ban or governing cooldown |
| Bans.FailuresInARow | internal/outbound/pool/shared_state.go:165-207 | as many permanent failures in a row as the threshold ban the node for the whole duration from the last one on, fewer do not, and a success starts the count again |
| Bans.ReleaseSparesExactly | internal/outbound/pool/shared_state.go:306-323 | the automatic release spares a running ban exactly under an operator ban or when the governing proposal is a cooldown |
| Bans.CooldownCanBeReleased | internal/outbound/pool/shared_state.go:214-234 | a pin failure during a long rate limit lets the automatic release free the node early |
| Bans.CooldownFor | internal/outbound/pool/shared_state.go:100-112 | a rate limit has its own cooldown if one is set, everything else the transient one, by default a minute; it is always positive |
| SharedStates.Registry.Acquire | internal/outbound/pool/shared_state.go:117-124 | one state per tag, created clean |
| SharedStates.Registry.Reset | internal/outbound/pool/shared_state.go:136-142 | tags are forgotten, states still referred to are untouched |
| SharedStates.Registry.RecordFailure | internal/outbound/pool/shared_state.go:165-207 | the in-place update is the failure transition, and the answers report it |
| SharedStates.Registry.BlacklistNow | internal/outbound/pool/shared_state.go:214-234 | the in-place update is the pin-failure transition; the answer is the end in force |
| SharedStates.Registry.RecordSuccess | internal/outbound/pool/shared_state.go:236-244 | the in-place update is the success transition |
| SharedStates.Registry.IsBlacklisted | internal/outbound/pool/shared_state.go:247-265 | answers whether a ban runs, clearing one that ran out |
| SharedStates.Registry.ReleaseIfPermanent | internal/outbound/pool/shared_state.go:306-323 | releases exactly the states that are not parked |
| SharedStates.Registry.ForceRelease | internal/outbound/pool/shared_state.go:287-299 | clears the state whatever is in force |
| SharedStates.Registry.BlacklistTag | internal/outbound/pool/shared_state.go:351-362 | an operator ban of a known tag; an unknown tag changes nothing |
| SharedStates.Registry.IncActive | internal/outbound/pool/shared_state.go:325-330 | only this state's load grows, by one |
| SharedStates.Registry.DecActive | internal/outbound/pool/shared_state.go:332-337 | only this state's load shrinks, by one |
| PoolSelection.Pool.IndexMembers | internal/outbound/pool/pool.go:1157-1163 | the index lists for each identity its members in pool order, as a scan would |
| PoolSelection.Pool.AvailableMembers | internal/outbound/pool/pool.go:664-682 | exactly the members that are not banned and support the network, in order |
| PoolSelection.Pool.ReleaseIfAllBlacklisted | internal/outbound/pool/pool.go:684-710 | nothing happens while some member is unbanned; otherwise exactly the unparked ones are freed |
| PoolSelection.Pool.DropTried | internal/outbound/pool/pool.go:559-629 | the in-place filter leaves the untried candidates, or all of them intact when none is untried |
| PoolSelection.Pool.PickPinned | internal/outbound/pool/pool.go:559-582 | the first member of the pinned identity, by a scan of the whole pool, that can serve and was not tried |
| PoolSelection.Pool.SelectBalance | internal/outbound/pool/pool.go:765-796 | whatever loads the two passes read: the turn's place among the second readings of the first pass's least load, or the first to have had it |
| PoolSelection.PlaceIsLeast | internal/outbound/pool/pool.go:765-796 | wherever the loads move, the pick had the least load of the first pass when it was read; loads that stand still are served in turn |
| PoolSelection.Pool.SelectLatency | internal/outbound/pool/pool.go:759-830 | the lowest measured latency, none when nothing was measured |
| PoolSelection.Pool.SelectByMode | internal/outbound/pool/pool.go:759-830 | a candidate: in turn, least loaded or the first of the fastest, by the mode, with the counter advanced exactly when it was used |
| PoolSelection.Pool.SelectSticky | internal/outbound/pool/pool.go:739-756 | a client keeps its member while it is a candidate, and is remembered for the one it gets |
| PoolSelection.Pool.PickMemberFor | internal/outbound/pool/pool.go:559-629 | the pick can serve, is untried if any such member is, and is the pinned one if that can serve; among those it is the first of the pinned identity, else the client's remembered member, who is remembered for the one it gets, else the mode's: in turn, at random, least loaded in turn, or fastest; it fails exactly when nobody can serve and no release would help |
| Contention.PickMemberFor | internal/outbound/pool/pool.go:559-629 | with others acting between the single locks: the pick was unbanned and capable at its own check, had been tried only if all its scan collected had, and is chosen among those by identity, remembered client and mode as of that moment; another identity than the pinned one is picked only when each pinned member that could serve was found banned; it fails only when a scan found nobody and nobody could be freed, or a second scan found nobody again |
| Contention.AvailableMembers | internal/outbound/pool/pool.go:664-682 | one check of each member in order; exactly those capable and found unbanned at their own check are collected |
| Contention.ReleaseIfAllBlacklisted | internal/outbound/pool/pool.go:684-710 | somebody is freed only after each check met a ban; nobody only when a check met none or each member was parked at its turn |
| Dialing.DialsWithinOptions | internal/outbound/pool/pool.go:538-546 | without retries a request dials once, with retries up to the configured number, with a pin in a larger pool once more; a refusal whose selections all found a member has made them all |
| Dialing.Dialer.Report | internal/outbound/pool/pool.go:848-898 | a permanent fault of the pin bans at once; anything else is an ordinary failure |
| Dialing.Dialer.DialOnce | internal/outbound/pool/pool.go:336-390 | with others served meanwhile, a dial is counted while it runs, stays counted only if it gives a connection, and is reported unless cancelled |
| Dialing.Dialer.Conclude | internal/outbound/pool/pool.go:349-390 | what follows a dial: its use ends unless it gave a connection in time, and it is reported unless cancelled |
| Dialing.Dialer.Dial | internal/outbound/pool/pool.go:312-482 | one whole request among others: a schedule of well-made and well-chosen picks within the options, one report per dial, each dial counted in before it and out after it but for the use the connection keeps; cancelled only if its context has ended, and at once if it had |
| Dialing.Dialer.ServeSession | internal/outbound/pool/pool.go:312-504 | among others, the read sees the live pin and takes none away; a failed request and any UDP request change nothing more; a TCP success under a live lease pins the dialled node; the lease is always released |
| Dialing.AfterFailure | internal/outbound/pool/pool.go:518-535 | what dropping a failed pin does to pin, tried set and budget, as functions of the dials made |
| Dialing.PinnedNodeGoesFirst | internal/outbound/pool/pool.go:559-582 | a pinned node that can serve is dialled first |
| Dialing.RepeatsOnlyWhenAllTried | internal/outbound/pool/pool.go:312-400 | a node is dialled twice only when every member that can serve was tried |
| Dialing.ExtraDialReroutes | internal/outbound/pool/pool.go:518-546 | the one dial beyond the budget follows the pin's first failure on the last attempt, in a pool with other members |
| Dialing.SuccessPinsDialled | internal/outbound/pool/pool.go:312-400 | a TCP success pins the dialled identity and counts a switch exactly when a live pin named another node |
| Connections.TrackedConn.Close | internal/outbound/pool/pool.go:1107-1123 | the first close counts its use out, later ones change nothing |
| Connections.UseLife | internal/outbound/pool/pool.go:336-390 | in any state a use is counted in at its start and out when the dial is given up or at the first close, and not again |
| Connections.HeldIsBalance | internal/outbound/pool/pool.go:906-916 | in every interleaving, what a request counted in and not out is what it still uses |
| Connections.RequestInLedger | internal/outbound/pool/pool.go:312-482 | a request that counts as the dialer does is left with the use of the connection it gave, and with none once that is closed |
| Connections.StepCounts | internal/outbound/pool/shared_state.go:325-337 | each step changes a counter by just what its request counted |
| Connections.ActiveIsInUse | internal/outbound/pool/pool.go:906-916 | in every interleaving a node's load is its dials in flight plus its open connections |
| Refresh.SendNeverBlocks | internal/subscription/manager.go:233-257 | whoever requests, the send finds the channel empty |
| Refresh.EmptyChannelExactly | internal/subscription/manager.go:233-257 | no pending call means an empty channel, except exactly when the worker is gone and some call never ran |
| Refresh.RequestLeftBehind | internal/subscription/manager.go:340-378 | a run that leaves a request in the channel |
| Refresh.CallsRunFresh | internal/subscription/manager.go:233-257 | a call runs with the settings of one version, no older than when its caller asked |
| Refresh.SyncAdopts | internal/subscription/manager.go:511-547 | settings published by the runtime are adopted as a new version, unless they are those a waiting edit replaces |
| Refresh.EditWaits | internal/subscription/manager.go:172-200 | an edit waits for the runtime exactly if the runtime has other settings; an edit that is not saved changes nothing |
| Refresh.PublishedIsFetched | internal/subscription/manager.go:233-402 | a call requested after adoption and run before anything else is published or edited runs with the published settings |
| Refresh.RequestsCoalesce | internal/subscription/manager.go:233-257 | a request joins the pending call, or a running one that is current, and opens a call only otherwise |
| Refresh.WorkerIsNeverStuck | internal/subscription/manager.go:340-402 | in every reachable state the worker can take its next step, and an idle one takes up what is pending |
| Refresh.RequestIsRun | internal/subscription/manager.go:233-394 | an idle worker runs a request with the settings of now and closes it |
| Refresh.DoneClosedOnce | internal/subscription/manager.go:161-402 | the open calls are the active and the pending one; none is closed twice; after the worker's exit each was closed once |
| Refresh.StoppedStays | internal/subscription/manager.go:161-200 | after `Stop` no step opens a call or changes the settings |
| Refresh.EditSurvives | internal/subscription/manager.go:172-200 | a deliberate edit is not overwritten by the settings it replaces, however often they are published, until something else is |
| Refresh.Manager.UpdateConfig | internal/subscription/manager.go:172-200 | an accepted edit is the settings of a new version and waits for the runtime to follow |
| Refresh.Manager.SyncRuntimeConfig | internal/subscription/manager.go:511-547 | other settings published by the runtime are adopted as a new version, unless they are the ones an edit is replacing |
| Refresh.Manager.RequestRefresh | internal/subscription/manager.go:233-257 | the caller gets the pending call, the active one if it is current, or a new one; the invariant holds |
| Refresh.Manager.BeginRefresh | internal/subscription/manager.go:375-382 | the worker makes the request active with the settings of now |
| Refresh.Manager.FinishRefresh | internal/subscription/manager.go:383-394 | the active call is closed |
| Refresh.Manager.DrainPending | internal/subscription/manager.go:346-356 | a pending call is closed on the way out |
| Lifecycle.Manager.Start | internal/boxmgr/manager.go:113-220 | succeeds exactly when a launch comes up and the context stays live; a failed start leaves nothing behind; at most ten instances; refused exactly when closed, unconfigured or running |
| Lifecycle.Manager.StartInstance | internal/boxmgr/manager.go:153-184 | the start loop returns a live instance exactly when one comes up among ten, every conflict before it moved away; the ports are those of the last move |
| Lifecycle.Manager.ReloadInstance | internal/boxmgr/manager.go:303-357 | the reload loop ends with a live instance, with the point where it gives up, or cancelled; every other instance is closed; no port moves before the sixth conflict |
| Lifecycle.Manager.ReloadLocked | internal/boxmgr/manager.go:231-395 | the new configuration runs exactly when one of its ten launches comes up in time, with its ports unless the sixth or a later conflict moved one; the old one again exactly when one of the rollback's five does; otherwise nothing; all other instances ever created are closed once |
| Lifecycle.Manager.RollbackToOldConfig | internal/boxmgr/manager.go:398-456 | the old configuration runs exactly when one of five launches comes up and the context stays live |
| Lifecycle.Manager.CloseComponents | internal/boxmgr/manager.go:475-506 | closes the current instance, cancels the base context |
| Lifecycle.Manager.MarkClosed | internal/boxmgr/manager.go:459-469 | the part of closing that waits for nobody |
| Lifecycle.Manager.Close | internal/boxmgr/manager.go:459-472 | every instance ever created is closed, exactly once, and the manager is dead |
| Lifecycle.Manager.EditNodes | internal/boxmgr/manager.go:921-1027 | a node edit changes the configuration in place, not what runs; a failed save undoes it |
| Lifecycle.Manager.ReloadWithCurrentConfig | internal/boxmgr/manager.go:1090-1133 | after a failed persist: when exactly the old settings run again, when the edit goes on running, and when nothing runs; and when a restored runtime is the previous one |
| Lifecycle.EachWayKeepsTheEdit | internal/boxmgr/manager.go:1090-1133 | three ways to keep an unpersisted edit running: a waiting close, a cancelled context, a relaunch by the rollback |
| Lifecycle.UnpersistedEditRuns | internal/boxmgr/manager.go:1086-1133 | in each of the three ways the unpersisted edit is what runs |
| Lifecycle.RestoredIsNotPrevious | internal/boxmgr/manager.go:1086-1133 | after a node edit, a successful restore runs the edited configuration |
| Lifecycle.Manager.Execute | internal/boxmgr/manager.go:113-506 | every transaction keeps the manager quiet, and a dead one dead |
| Lifecycle.Manager.Run | internal/boxmgr/manager.go:113-506 | after any transactions in any order, with anything happening during them, at most the current instance is live; from the first close on nothing runs, nothing is created and everything ever created is closed |
| Ports.ReservedListenerPorts | internal/config/ports.go:8-44 | exactly the ports of the other listeners, the GeoIP router's real one included |
| Ports.OtherPortsAreTheirOwn | internal/config/ports.go:8-44 | the GeoIP router and an unset sticky entry never take the listener's port, and a port that was set for them is kept |
| Ports.RestoreSaved | internal/config/config.go:834-876 | each unreserved saved port goes to the first node that has it |
| Ports.AcceptExplicit | internal/config/config.go:877-890 | an explicit port is refused exactly when it clashes, and the first clash is reported |
| Ports.AssignFresh | internal/config/config.go:892-918 | the fresh nodes get the least free ports in order; running out means there were too few |
| Ports.NumberNodes | internal/config/config.go:892-918 | pool mode numbers unset nodes without checks and leaves them unset past the last port |
| Ports.NormalizeWithPortMap | internal/config/config.go:827-943 | every outcome of the passes, each with its condition |
| Ports.PortsAreSound | internal/config/config.go:834-926 | all ports are non-zero, distinct and not reserved |
| Ports.FirstClaimantKeepsPort | internal/config/config.go:852-876 | the first node with an unreserved saved port keeps it, and nobody else has it |
| Ports.FreshPortIsLeast | internal/config/config.go:892-918 | every port between the base and a fresh port is taken |
| Ports.AssignmentIsUnique | internal/config/config.go:834-926 | the description fixes the result |
| Ports.EnoughPorts | internal/config/config.go:892-918 | success means the free ports were enough |
| Ports.OtherListenersAreSafe | internal/config/config.go:948-980 | the sticky-port check against nodes cannot fail afterwards, and the GeoIP router's port is clear |
| Ports.BuildPortMap | internal/config/config.go:608-616 | each key's last non-zero port |
| Ports.RenormalisingIsStableExactly | internal/config/config.go:608-616 | normalising again with the own port map changes nothing exactly when the keys are distinct |
| Ports.SharedKeySwapsPorts | internal/config/config.go:608-616 | two nodes of one key on 24000 and 24001 swap their ports when normalised with their own port map |
| Ports.BridgeNode | internal/config/config.go:657-675 | a node without a port takes that of its first older key that has one |
| Ports.CompleteKeys | internal/config/config.go:676-687 | a current key that is missing gets the port of the least of its old keys |
| Ports.CompletionIsUnique | internal/config/config.go:676-687 | the result does not depend on how the map is traversed |
| Ports.BridgeLegacyPortKeys | internal/config/config.go:649-688 | no saved port is lost, moved or invented; older keys are carried over, in a determined way; an upgraded map is left alone |
| Sweeps.SweepsNeverOverlap | internal/monitor/manager.go:313-342 | at most one sweep runs |
| Sweeps.TriggersAreServed | internal/monitor/manager.go:313-342 | unless cancelled, every accepted trigger is followed by a sweep that begins after it |
| Sweeps.FollowUpIsRequested | internal/monitor/manager.go:318-326 | unless cancelled, an accepted trigger is served, has a follow-up requested, or its gate's owner is about to sweep |
| Sweeps.NoMoreSweepsThanTriggers | internal/monitor/manager.go:313-342 | sweeps never outnumber triggers |
| Sweeps.StoppedSweepsNoMore | internal/monitor/manager.go:313-342 | once the manager is stopped, no trigger is accepted and no sweep begins |
| Sweeps.RecordsAreExact | internal/monitor/manager.go:313-342 | the records behind these statements are of all triggers that reached the gate and all sweeps that began |
| Sweeps.GateIsNeverStuck | internal/monitor/manager.go:313-342 | every thread's next step is enabled, and a closed gate has an owner |
| Sweeps.TriggerSweeps | internal/monitor/manager.go:313-342 | a trigger at an open gate sweeps once and opens it again |
| Sweeps.FollowUpSweeps | internal/monitor/manager.go:318-341 | a trigger during a sweep leaves at once, and the owner sweeps once more |
| Sweeps.Gate.Enter | internal/monitor/manager.go:313-328 | a trigger owns the gate or asks the owner for another sweep |
| Sweeps.Gate.Drain | internal/monitor/manager.go:330-341 | after a sweep: once more if asked to and not cancelled, else the gate opens |
| Probes.Entry.WaitProbe | internal/monitor/manager.go:630-656 | joins the run in flight or starts one of a new generation |
| Probes.Entry.CloseRun | internal/monitor/manager.go:646-653 | a returned run makes room for the next |
| Probes.Entry.ApplyProbeResult | internal/monitor/manager.go:608-626 | a result is recorded exactly if its generation is the current one |
| Probes.OneCallbackInFlight | internal/monitor/manager.go:630-666 | one probe callback per node, of the newest generation |
| Probes.AppliedNeverDecreases | internal/monitor/manager.go:608-626 | a late result never overwrites that of a newer generation |
| Probes.ProbeIsRecorded | internal/monitor/manager.go:590-666 | a caller without a probe in flight starts one of a new generation, gets its result and records it |
| Probes.CallersShareTheProbe | internal/monitor/manager.go:630-656 | a caller that finds a probe in flight joins it and starts none |
| Probes.TimeoutsAreOwn | internal/monitor/manager.go:590-666 | a caller that gives up holds a failure only of a run it started itself and only if it was not cancelled |
| Probes.RecordedExactlyIfNewest | internal/monitor/manager.go:608-626 | a held result is recorded exactly if no newer probe was started |
| GeoCache.Lookup.Publish | internal/geoip/geoip.go:285-305 | the new reader and the next epoch with an empty cache |
| GeoCache.Lookup.CacheHostAtEpoch | internal/geoip/geoip.go:538-557 | stores exactly at the epoch the miss began, keeps every other entry but one that a full cache gives up |
| GeoCache.Lookup.CloseReader | internal/geoip/geoip.go:417-426 | no reader is open afterwards; the invariant holds |
| GeoCache.CacheIsCurrent | internal/geoip/geoip.go:285-305 | every cached database region came from the reader of the current epoch |
| GeoCache.CacheIsBounded | internal/geoip/geoip.go:538-557 | the cache never exceeds 4096 entries |
| GeoCache.StaleExactlyWhenLate | internal/geoip/geoip.go:474-522 | a lookup gets a region older than its start exactly when it joins a flight that already has it |
| GeoCache.OldRegionsComeFromOldFlights | internal/geoip/geoip.go:474-522 | and that flight began before the lookup's epoch |
| GeoCache.JoinedFlightIsStale | internal/geoip/geoip.go:489-521 | a run in which it does |
| GeoService.AnswersAreAboutTheHost | internal/geoip/geoip.go:474-557 | every answer and every cached region is about the host that was asked for |
| GeoService.OneFlightPerHost | internal/geoip/geoip.go:489-521 | the lookups of one host that miss at the same time share one flight |
| GeoService.FlightIsNeverStuck | internal/geoip/geoip.go:474-557 | in every run a flight can take its next step, waiting out only the middle of an update; a host that does not resolve is unknown and cached as such at its epoch |
| GeoService.CallerIsNeverStuck | internal/geoip/geoip.go:474-522 | one that asks can join, one that waits gets the region of its flight |
| GeoService.DatabaseChanges | internal/geoip/geoip.go:285-305 | an open database can be replaced, which empties the cache at the next epoch, or closed |
| GeoService.LookupIsCached | internal/geoip/geoip.go:474-557 | a lookup that misses gets the open reader's region and leaves it in the cache, where the next lookup finds it |
| Base64.LenientRoundTrip | internal/builder/builder.go:1626-1646 | the four-way decoder undoes the URL-safe encoder, though it tries the standard alphabet first |
| Base64.KnownEncodings | internal/builder/builder.go:1626-1646 | the examples of section 10 of RFC 4648, and where the two alphabets differ |
| Base64.AlphabetsAgree | internal/builder/builder.go:1633-1638 | what both alphabets can read, they read alike |
| SsrUri.ParamsRoundTrip | internal/config/config.go:1845-1858 | both parameters come back through the query, whichever are printed |
| SsrUri.MainIsFound | internal/builder/builder.go:1564-1572 | the main part and the query are cut where they were joined |
| SsrUri.CleanFieldsSplit | internal/builder/builder.go:1574-1587 | splitting from the right recovers the fields, whatever colons the server has |
| SsrUri.RoundTripExactly | internal/config/config.go:1833-1860 | parsing a printed URI gives the configuration back, defaults filled in, exactly when the port exists, no field before the password has "/?", and protocol, cipher and obfs have no colon |
| SsrUri.PrintedExample | internal/config/config.go:1833-1860 | one configuration with its printed payload written out |
| HeaderScan.PeekHTTPHeaders | internal/inbound/session/http.go:28-51 | the answer depends on the stream alone: found, too large and the reader's own error, each exactly when it should be, however the stream is cut |
| HeaderScan.LineTest | internal/inbound/session/http.go:39-46 | the test relative to the current line is the definition of a blank line |
| HeaderScan.MoreBytesSameAnswer | internal/inbound/session/http.go:28-51 | more bytes never change an answer that was reached |
| LogRing.LogBuffer.Write | internal/monitor/logbuffer.go:26-48 | after any writes the buffer holds the newest bytes of all that was written |
| LogRing.LogBuffer.Content | internal/monitor/logbuffer.go:50-60 | exactly the last bytes written, as many as fit |
| LogRing.RingAppend | internal/monitor/logbuffer.go:37-46 | the two copies and the moved start amount to appending and dropping the oldest |

## Left out

- 64-bit wrap-around of the store's epoch, gate versions, switch counts, refresh versions and probe generations: the counters are unbounded here.
- Saturation of time arithmetic at the ends of the clock's range.
- PoolSelection.Pool.PickMemberFor: the selection is one step here, and so it is for the requests of `Dialing`; what is left of its promises when other pools act between its single locks is in `Contention.PickMemberFor`. Between selections and during dials others act freely in both.
- Dialing.Dialer.Dial: what others do is arbitrary, so only this request's own reports and uses are accounted for; `Connections.RequestInLedger` and `Connections.ActiveIsInUse` give its share and the sum over all requests.
- Lazy creation of pool members and of the session store, and the order in which a pool starts.
- The matching of error texts to failure kinds: the kind is an input.
- Round-robin fairness across the 32-bit wrap of its counter: only the counter's value modulo 2^32 is stated.
- FileUpdate.Serialisable: crashes, failed writes and a missing destination file are not modelled. The in-process mutex per path is not either; without it the model allows more interleavings.
- The file-update protocol is on values only: its callers are processes that share files, not one object.
- The content of refreshes: fetching, `createConfig`, the node file and its rollback. A refresh may publish any settings.
- Graceful switching and draining of instances (not on the reload path), the GeoIP router, the monitor's web server and log output.
- Lifecycle.Manager.ReloadWithCurrentConfig: the edit and the port normalisation are one arbitrary change that may be refused; the passes themselves are in `Ports`.
- Lifecycle.Config.ReassignConflictingPort: which port a node is moved to on a bind conflict is an input.
- Node keys, URL parsing and the URI builders other than ShadowsocksR; the query parser is complete for `&`, `=`, `+`, `%` and `;`.
- Base64.LenientRoundTrip: trimming knows ASCII white space only.
- Configuration defaults other than ports; YAML and JSON.
- Sockets, TLS, HTTP forwarding, SOCKS framing, the web interface and the proxy core itself.
