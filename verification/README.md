# Kommodity: verified models

This project models the parts of Kommodity where goroutines, replicas or bytes on the wire make
correctness hard to see, and proves what the code is meant to guarantee. Every statement is for all
inputs, all runs or all reachable states.

- **Talos tunnel pool** (`PoolMachine` and the `Pool*` modules). `TunnelPool`, `Tunnel` and `trackedConn`
  form a single-flight, reference-counted, idle-evicting cache of port-forwards, shared by any number of
  goroutines. The model is a state machine whose steps are the critical sections, the atomic counter
  updates, timers that fire before their callback takes the lock, dying port-forwards and cancelled
  waits. A section that takes a tunnel mutex inside the pool mutex is cut there. Twelve invariants are
  shown for every step (`PoolFlight`, `PoolTunnels`, `PoolTimers`, `PoolConns`, `PoolIdle`), and the
  results about whole runs are in `PoolTheorems`, `PoolLocks`, `PoolProgress`, `PoolEnds`, `PoolLimits`,
  `PoolEntries` (what the three maps and the timers hold after every step, exactly) and `PoolRequests` (the
  way of one request).
- **The same code as objects** (`TunnelPool`, `ConnectHandler`). One method is one section, or what one
  goroutine does in sequence. The functions of `PoolSections` say what each section does to the three
  maps; protocol and classes share them, and `PoolMachine.LookUpSteps` ties the three look-up steps to
  them.
- **CIDR routing** (`Cidr`, `CidrRegistry`). Addresses and masks are byte strings, as in `net.IPNet`, with
  both address families and IPv4-mapped addresses.
- **KMS** (`Kms`, `KmsProtocol`). Concurrent `Seal` calls run against a compare-and-swap store
  (`ObjectStore`). AES-GCM is any pair of functions that undo each other (sections 7.1 and 7.2 of NIST SP
  800-38D). The round trip assumes one thing more, about the encryptions of the run at hand only: none of
  them opens under the key and associated data of another that differs in either. Nothing is assumed
  about associated data that was never used, for which AES-GCM gives no such promise.
- **Agreement through Get, Create and AlreadyExists** (`WebhookCert`, `SigningKey`), over the same store.
- **CONNECT handshake** (`Handshake`), **attestation nonces** (`NonceStore`) and **report acceptance**
  (`Attestation`).

Where the repository's prose and its code differ, the code is modelled. `pkg/talosproxy/README.md` speaks
of double-checked locking; the code has a single flight with notify channels. Three things the code does not
give are shown by runs, each with the exact condition for all runs. `RemoveTunnel` removes whatever is stored
under the name (`RemovesNewerTunnel`); only the tunnel that failed is hit exactly when the name stores that
one, a closed one or none (`RemovalHitsOnlyFailed`). An establishment in flight stores its tunnel after
`CloseAll` (`StoredAfterCloseAll`); the pool can fill again without a new establishment exactly when one is
still on its way (`EmptyAfterCloseAllExactly`). A tunnel that was just handed out may be closed by an idle
callback before it is dialled (`ClosedWhileHeld`); a callback goes on to close exactly a stored tunnel without
live connections (`CallbackHits`), and a tunnel is closed in a run exactly when a closing step on it is taken
(`ClosedExactly`).

The I/O, the clock, the random source and the order in which Go visits a map are parameters or free
choices of the steps. Random volume prefixes of the KMS are taken not to repeat.

The nonce reaper can change the answer to a use, because the code reads the clock before it takes the lock:
`OvertakenByTheReaper` shows a run. `ReaperShowsExactly` says for every run when it does, namely when a
reaper round has read a clock after the record's expiry since the nonce was issued. `ReaperIsInvisible` is
the case of a use whose own clock reading is not behind the reaper's.

## Model

| member | source | states |
|---|---|---|
| PoolTheorems.Reachable | pkg/talosproxy/tunnel_pool.go:61-252 | All twelve invariants hold after every run of the machine |
| PoolTheorems.NoIdleTunnelStranded | pkg/talosproxy/tunnel_pool.go:191-252 | In every reachable state an open stored tunnel without connections has a pending idle timer, or a goroutine that will dial it, remove it, arm its timer, or is about to close it under the pool mutex; stale callbacks included |
| PoolTheorems.QuietPool | pkg/talosproxy/tunnel_pool.go:61-252 | When all goroutines have ended: no lock is held, nobody establishes, every channel was closed once, every connection was released, and every stored tunnel is closed or has an armed timer |
| PoolTheorems.OneEstablisherPerCluster | pkg/talosproxy/tunnel_pool.go:87-121 | Two goroutines establishing for one cluster are the same one |
| PoolTheorems.NoLostWakeUp | pkg/talosproxy/tunnel_pool.go:87-121 | A waiter's channel is closed already, or is open with its creator in flight for the same cluster |
| PoolTheorems.OnlyCreatorCloses | pkg/talosproxy/tunnel_pool.go:163-189 | A notify channel changes only by its creator's publication, and is closed at most once |
| PoolTheorems.NoForwarderLeaked | pkg/talosproxy/tunnel.go:206-244 | `closed` holds exactly when the stop channel was closed, once; a running forwarder that was not told to stop belongs to a stored tunnel or to its establisher |
| PoolTheorems.PublishReplacesNone | pkg/talosproxy/tunnel_pool.go:163-189 | Storing a new tunnel never replaces an entry |
| PoolTheorems.StoredTunnelsAreEstablished | pkg/talosproxy/tunnel_pool.go:160-189 | A tunnel is found through the map only after its `Establish` returned nil; nobody holds its mutex any more |
| PoolTheorems.CounterIsExact | pkg/talosproxy/tunnel.go:169-186 | `activeConns` is the number of connections acquired and not yet closed for the first time, so never negative |
| PoolTheorems.OnIdleExactlyAtZero | pkg/talosproxy/tunnel.go:174-181 | A counter drops to zero, and a goroutine comes to `onIdle`, only in the release of the last reference, and then both happen, for the tunnel's own cluster |
| PoolTheorems.RequestsLeaveNothing | pkg/talosproxy/connect_handler.go:172-255 | An unreleased connection is the one its request now works on, in one of the first `maxRetries` attempts |
| PoolLocks.LockOrder | pkg/talosproxy/tunnel_pool.go:16-25 | Whoever holds a notify channel, release-once, the pool mutex or a tunnel mutex waits only for one later in this order |
| PoolLocks.NoCircularWait | pkg/talosproxy/tunnel_pool.go:16-25 | No chain of waiting goroutines closes on itself, and none has more than four links, in any reachable state |
| PoolLocks.PoolHolderNeverBlocks | pkg/talosproxy/tunnel_pool.go:56-60 | The holder of the pool mutex finds every tunnel mutex it wants free, so it never waits for an establishment |
| PoolProgress.NobodyIsStuck | pkg/talosproxy/tunnel_pool.go:16-25 | From every unfinished goroutine of every reachable state a wait chain of at most four links leads to one that can take a step of its own, without a cancelled context |
| PoolProgress.StepsOrWaits | pkg/talosproxy/tunnel_pool.go:61-252 | Every unfinished goroutine can step, or waits for something that an unfinished goroutine holds |
| PoolProgress.StillIsQuiet | pkg/talosproxy/tunnel_pool.go:61-252 | A reachable state in which nobody can step is one in which everybody has ended, to which `QuietPool` applies |
| PoolEnds.EveryStepSpends | pkg/talosproxy/tunnel_pool.go:61-252 | Every step but an arrival, or a monitor that finds its tunnel closed, lowers a potential read from the state |
| PoolEnds.RunsAreBounded | pkg/talosproxy/connect_handler.go:172-208 | From a reachable state no run without arrivals is longer than the potential of that state, however unfair the schedule |
| PoolEnds.MaximalRunsEndQuiet | pkg/talosproxy/tunnel_pool.go:61-252 | A run without arrivals that cannot be prolonged has brought every goroutine to its end |
| PoolEnds.EveryRunCanEndQuiet | pkg/talosproxy/tunnel_pool.go:61-252 | Every run without arrivals can be prolonged, by any steps that are possible, to such an end |
| PoolLimits.ClosersExactly | pkg/talosproxy/tunnel.go:196-244 | In every reachable state a step closes a tunnel exactly when it is the failure of its establishment after the forwarder was started, the monitor after the forwarder exited, or a removal, an idle close or `CloseAll` on the name that stores it |
| PoolLimits.ClosedExactly | pkg/talosproxy/tunnel.go:196-244 | A tunnel that is open at some point of a run is closed at its end exactly when such a step was taken since |
| PoolLimits.RemovalHits | pkg/talosproxy/tunnel_pool.go:125-140 | `RemoveTunnel` closes an open tunnel exactly when the name stores it |
| PoolLimits.RemovalHitsOnlyFailed | pkg/talosproxy/connect_handler.go:212-255 | Nothing but the tunnel that failed is hit exactly when the name stores that one, a closed one or none |
| PoolLimits.CallbackHits | pkg/talosproxy/tunnel_pool.go:204-227 | A callback goes on to close a tunnel exactly when its name stores it and it has no live connection; being held does not protect it |
| PoolLimits.EmptyAfterCloseAllExactly | pkg/talosproxy/tunnel_pool.go:142-189 | When `CloseAll` ends, the pool can fill again without a new establishment exactly when a goroutine is inside `Establish` or came out of it successfully and has not published |
| PoolLimits.ClosedWhileHeld | pkg/talosproxy/tunnel_pool.go:204-227 | A run in which a callback that fired before closes a tunnel that a request was handed after |
| PoolLimits.RemovesNewerTunnel | pkg/talosproxy/connect_handler.go:212-227 | A run in which a request that failed on one tunnel removes a newer one that another request holds |
| PoolLimits.StoredAfterCloseAll | pkg/talosproxy/tunnel_pool.go:142-189 | A run in which an establishment in flight stores an open tunnel after `CloseAll` ended |
| PoolEntries.TunnelEntriesExactly | pkg/talosproxy/tunnel_pool.go:61-227 | In every reachable state a name stores a tunnel after a step exactly when that step published it without an error, or it was stored and the step is no clean-up, removal, idle close or `CloseAll` that drops it |
| PoolEntries.RegistrationsExactly | pkg/talosproxy/tunnel_pool.go:87-189 | A name has a registered establishment, with that very channel, exactly from its creation to its publication |
| PoolEntries.TimerEntriesExactly | pkg/talosproxy/tunnel_pool.go:191-252 | A name has a timer entry after a step exactly when the step armed it, or it was there and the step neither forgot nor replaced it |
| PoolEntries.TimerStatesExactly | pkg/talosproxy/tunnel_pool.go:191-252 | A timer is armed after a step exactly when the step made it, or it was armed and the step neither fired nor stopped it |
| PoolEntries.ForgottenTimersAreStopped | pkg/talosproxy/tunnel_pool.go:243-252 | An entry that leaves the map leaves no armed timer behind, unless a callback dropped it |
| PoolEntries.StoppedTimersNeverFire | pkg/talosproxy/tunnel_pool.go:243-252 | On every run a timer that is no longer armed never fires again, so no idle close comes from a cancelled timer |
| PoolEntries.ChangesAreGuarded | pkg/talosproxy/tunnel_pool.go:16-25 | In every reachable state the maps change only under the pool mutex, and the state of a tunnel only under its own |
| PoolEntries.DeathIsNoticed | pkg/talosproxy/tunnel.go:217-244 | In every reachable state the monitor of an established tunnel can act exactly when the forwarder has exited, and then the tunnel is closed |
| PoolRequests.ServedForGood | pkg/talosproxy/connect_handler.go:79-122 | Once its connection is piped, a request removes no tunnel and makes no further attempt, however the run goes on |
| PoolRequests.FailureLeadsOn | pkg/talosproxy/connect_handler.go:172-255 | On every run a failed attempt is still being given up at the end, or the request came to the point where the next attempt begins, one further in its count |
| PoolFlight.FlightPublish | pkg/talosproxy/tunnel_pool.go:173-188 | After publication every waiter of the cluster finds its channel closed; the single-flight invariant holds |
| PoolFlight.FlightCreate | pkg/talosproxy/tunnel_pool.go:78-121 | Clean-up and registration keep the single-flight invariant |
| PoolConns.CountedRelease | pkg/talosproxy/tracked_conn.go:19-31 | The first close takes exactly one live reference from its own tunnel's count |
| PoolConns.CountedDial | pkg/talosproxy/tunnel.go:157-167 | A successful dial adds exactly one live reference to its tunnel's count |
| PoolIdle.NoneStrandedRelease | pkg/talosproxy/tunnel.go:174-181 | The drop to zero leaves a goroutine on its way to arm the timer |
| PoolIdle.NoneStrandedDrop | pkg/talosproxy/tunnel_pool.go:204-227 | No removal, callback or shutdown step strands an idle tunnel |
| PoolTunnels.NoLeakPublish | pkg/talosproxy/tunnel_pool.go:173-188 | Publication hands the forwarder from the establisher to the pool, replacing none |
| PoolTunnels.NoLeakReturn | pkg/talosproxy/tunnel.go:419-470 | Every end of `Establish` leaves its forwarder stopped, not started, or with its establisher |
| PoolTunnels.NoLeakDrop | pkg/talosproxy/tunnel_pool.go:125-158 | A tunnel that stops being stored has been told to stop |
| PoolTimers.TimersDrop | pkg/talosproxy/tunnel_pool.go:204-252 | Callbacks, stale ones included, and cancellations leave every timer entry with a callback still to come; that cancelling also stops the timer is `PoolEntries.TimerStatesExactly` |
| PoolMachine.LookUpSteps | pkg/talosproxy/tunnel_pool.go:66-121 | The three look-up steps of the machine are the three outcomes of the section that the class performs; what they leave in the maps is `PoolEntries.TunnelEntriesExactly` and its companions |
| TunnelPool.Tunnel.MarkClosedLocked | pkg/talosproxy/tunnel.go:206-215 | Closes the stop channel on the first call and changes nothing on later ones |
| TunnelPool.Tunnel.Establish | pkg/talosproxy/tunnel.go:74-122 | Succeeds exactly for an open tunnel with a config, a pod and a listening port-forward; closes it exactly when a started port-forward breaks; keeps the pod name once it is known |
| TunnelPool.Tunnel.Dial | pkg/talosproxy/tunnel.go:127-167 | A connection exactly for an open, ready tunnel that can be dialled, and one more reference exactly then |
| TunnelPool.Tunnel.ReleaseConn | pkg/talosproxy/tunnel.go:177-181 | One reference less; idle exactly at zero |
| TunnelPool.TrackedConn.Close | pkg/talosproxy/tracked_conn.go:20-31 | The reference is given back once however often it is called; a drop to zero arms the cluster's timer, stopping an older one, and nothing else changes the pool |
| TunnelPool.Pool.CancelIdleTimerLocked | pkg/talosproxy/tunnel_pool.go:243-252 | The cluster's timer is stopped and forgotten, and no other |
| TunnelPool.Pool.ScheduleIdleClose | pkg/talosproxy/tunnel_pool.go:193-202 | A new running timer replaces a stopped old one |
| TunnelPool.Pool.LookUp | pkg/talosproxy/tunnel_pool.go:66-121 | Reuses an open tunnel, cleans up a closed one, waits or registers a new one; no stored tunnel is changed; what each of the three maps holds after it; a timer that leaves the map is stopped |
| TunnelPool.Pool.Publish | pkg/talosproxy/tunnel_pool.go:173-188 | The registration ends, the channel is closed once more, the tunnel is stored only without an error |
| TunnelPool.Pool.DoEstablish | pkg/talosproxy/tunnel_pool.go:163-189 | The new tunnel is stored, open and on its port, exactly when it was established; the registration ends and the channel is closed in every case |
| TunnelPool.Pool.LookUpOrEstablish | pkg/talosproxy/tunnel_pool.go:66-121 | One round of the loop: reuse, wait or establish, and what the name stores after it; a cancelled timer is stopped |
| TunnelPool.Pool.FinishRival | pkg/talosproxy/tunnel_pool.go:163-189 | The end of another establishment as a waiter meets it: channel closed, registration gone, tunnel stored exactly on success |
| TunnelPool.Pool.WaitAndRetry | pkg/talosproxy/tunnel_pool.go:87-121 | The wait and the round after it: the tunnel that the other goroutine stored, or else a new one if it can be made; a timer of the name is cancelled exactly if a tunnel was found |
| TunnelPool.Pool.GetOrCreateTunnel | pkg/talosproxy/tunnel_pool.go:61-123 | A tunnel exactly when one is stored open, whoever is waited for succeeds, or a new one can be made; which port it has; it is then stored, and otherwise nothing is; the timer entry goes exactly when a tunnel is found under the name, and its timer is then stopped |
| TunnelPool.PortExactly | pkg/talosproxy/tunnel_pool.go:61-123 | Which tunnel is had: the open one; that of another goroutine that succeeds; or a new one, if there is none to wait for or it has failed |
| TunnelPool.Pool.RemoveTunnel | pkg/talosproxy/tunnel_pool.go:126-140 | Whatever the name stores is closed and removed, its timer stopped and forgotten; nothing else is touched |
| TunnelPool.Pool.CloseIdleTunnel | pkg/talosproxy/tunnel_pool.go:206-227 | A tunnel is closed and removed exactly when it is stored and unused; the timer entry goes in every case |
| TunnelPool.Pool.CloseAll | pkg/talosproxy/tunnel_pool.go:143-158 | All timers are stopped and all stored tunnels closed, in any order; establishments in flight stay |
| ConnectHandler.Handler.HandleFailure | pkg/talosproxy/connect_handler.go:212-255 | The failed connection is released, the tunnel stored under the name is closed, and the name stores neither tunnel nor timer; the timer is stopped |
| ConnectHandler.Handler.DialTunnelOnce | pkg/talosproxy/connect_handler.go:279-294 | A connection exactly when a tunnel can be had, listens and can be dialled; the count of that tunnel rises by one exactly then |
| ConnectHandler.Handler.GiveUp | pkg/talosproxy/connect_handler.go:189-196 | After a failed round the connection is released, the tunnel closed and removed, its timer stopped, and its count as before |
| ConnectHandler.Handler.Attempt | pkg/talosproxy/connect_handler.go:179-203 | A connection exactly when the pool as it was before the round lets it work; what a failed round leaves for the next; other names keep tunnels and timers |
| ConnectHandler.WorksExactly | pkg/talosproxy/connect_handler.go:172-208 | An attempt works exactly if a listening tunnel is to be had, it is dialled, and it answers the handshake |
| ConnectHandler.Handler.DialTunnel | pkg/talosproxy/connect_handler.go:172-208 | Stops at the first round that works, told from the pool before the call, and gives up after `maxRetries`; exactly one outstanding reference on success, through the tunnel now stored, none on failure; every tunnel it made and dropped is closed or never listened; other names keep tunnels and timers |
| ConnectHandler.Handler.ServeRouted | pkg/talosproxy/connect_handler.go:68-86 | 502 exactly when no round would work; no reference outstanding; the used tunnel is not left idle without a running timer |
| ConnectHandler.Handler.ServeHTTP | pkg/talosproxy/connect_handler.go:51-122 | The status in every case, hijacking included; no reference outstanding on any exit; other clusters untouched, and all of them without a route; dropped tunnels closed or never listening |
| Cidr.OverlapIsMeeting | pkg/talosproxy/cidr_registry.go:73-78 | The two-point test is true exactly when some address lies in both blocks, for all prefix blocks of both families |
| Cidr.ContainsIsSamePrefix | pkg/talosproxy/cidr_registry.go:89-100 | A block holds exactly the addresses of its family that share its prefix, bit by bit |
| Cidr.MappedAddressIsSame | pkg/talosproxy/cidr_registry.go:89-100 | An IPv4 address and its IPv4-mapped form lie in the same blocks |
| Cidr.MappedBlockIsSame | pkg/talosproxy/cidr_registry.go:76-78 | A block written in sixteen bytes with 96 more prefix bits holds the same addresses |
| Cidr.FamiliesApart | pkg/talosproxy/cidr_registry.go:76-78 | A prefix block holds addresses of its own family only; sixteen bytes lie in an IPv4 block only as a mapped address |
| CidrRegistry.Registry.Register | pkg/talosproxy/cidr_registry.go:35-71 | Refuses exactly for a name taken in another namespace or an overlap with another cluster, and then changes nothing, whatever the map order; otherwise it stores the entry that `CidrRegistry.EntriesExactly` tells from the calls |
| CidrRegistry.Registry.Deregister | pkg/talosproxy/cidr_registry.go:81-86 | Exactly that name is gone |
| CidrRegistry.Registry.Lookup | pkg/talosproxy/cidr_registry.go:89-100 | Not found exactly when no block contains the address; over disjoint blocks the answer is the one containing entry |
| CidrRegistry.AcceptedExactly | pkg/talosproxy/cidr_registry.go:35-71 | Over disjoint blocks, refusal is exactly a taken name or a common address with another cluster; acceptance keeps the blocks disjoint |
| CidrRegistry.EntriesExactly | pkg/talosproxy/cidr_registry.go:35-86 | After any calls a cluster is routed exactly when an accepted registration of it was not replaced or withdrawn since, and its entry has the name, the namespace and the block of that call |
| CidrRegistry.RunIsDisjoint | pkg/talosproxy/cidr_registry.go:35-86 | After any calls the blocks of distinct clusters have no address in common |
| CidrRegistry.RoutingIsUnambiguous | pkg/talosproxy/cidr_registry.go:88-100 | After any calls at most one cluster answers for an address |
| Kms.DecryptEncrypt | pkg/kms/crypto.go:10-59 | Decryption with the same key and associated data undoes encryption |
| Kms.EncryptFrames | pkg/kms/crypto.go:10-35 | Succeeds exactly for a key of 16, 24 or 32 bytes; the output is the nonce followed by the sealed text |
| Kms.DecryptExactly | pkg/kms/crypto.go:37-59 | Each answer exactly: a bad key, data shorter than the nonce, or the text that the rest opens to under the leading nonce |
| Kms.DecryptForeign | pkg/kms/crypto.go:37-59 | Under the key and associated data of another encryption of the run, data opens to its own text exactly when both are the same, and is refused otherwise |
| Kms.AadParts | pkg/kms/server.go:271-278 | The associated data is the node, the nonce and the address, in this order, each to its last byte |
| Kms.AadBinds | pkg/kms/server.go:271-278 | For nodes and nonces of equal length it is the same exactly when all three are |
| Kms.AssumptionsCanHold | pkg/kms/crypto.go:10-59 | Both assumptions about the encryption can hold together, whatever was encrypted |
| Kms.WithVolumeKeeps | pkg/kms/server.go:259-261 | Writing a group keeps the sealing IP, and keeps another group exactly when the prefixes differ or the groups are equal |
| Kms.WithVolumeExactly | pkg/kms/server.go:259-261 | Exactly the three entries of the group are written; every other entry stays |
| Kms.Secret.AddVolume | pkg/kms/server.go:259-261 | The three writes in place add the whole group and nothing else |
| Kms.ParseVolumeKeySets | pkg/kms/server.go:291-324 | Exactly the complete groups of the Secret, each once, whatever the map order |
| Kms.CompleteExactly | pkg/kms/server.go:291-324 | A group is complete exactly with a non-empty prefix, a key and a nonce of 32 bytes and a non-empty LUKS key, and consists of these entries |
| Kms.LowerExactly | pkg/kms/server.go:330-344 | Two spellings are lowered to the same exactly when they differ only in the case of ASCII letters; no capital is left |
| Kms.SpellingsNameOneNode | pkg/kms/server.go:330-344 | Spellings that differ only in case name the same node, or neither names one; a node is named exactly by a non-empty spelling whose lowered form parses |
| Kms.Unseal | pkg/kms/server.go:104-154 | Checks in the order of the code, then the first group in the visited order that opens the data; `Kms.RefusalsExactly` says for each refusal when it is given |
| Kms.RefusalsExactly | pkg/kms/server.go:104-154 | For each of the six refusals the exact condition on node, data, stored Secret, address and groups, whatever the order of the groups |
| Kms.FirstOpenExactly | pkg/kms/server.go:144-153 | The search answers with the first group that opens the data, and with none exactly when no group does |
| Kms.FirstOpenFinds | pkg/kms/server.go:144-151 | The group that sealed the data is found among groups that give the same text or cannot open it, wherever it stands |
| KmsProtocol.Reachable | pkg/kms/server.go:59-101 | Over every interleaving of Seal calls: a Secret holds whole, unchanged groups, each sealed for its own node and IP, and a version read is a version that was stored |
| KmsProtocol.CreateNodeSecret | pkg/kms/server.go:166-219 | The code performs the step of the protocol that creates the Secret; it fails only where one exists |
| KmsProtocol.AddVolumeToSecret | pkg/kms/server.go:221-269 | The code, changing the Secret in place, performs the step of the protocol that writes it back; another sealing IP is refused exactly |
| KmsProtocol.Seal | pkg/kms/server.go:59-101 | The code performs the steps of the protocol; uninterrupted it fails exactly for bad input or another sealing IP |
| KmsProtocol.TriedAsMade | pkg/kms/server.go:144-147 | Every group that Unseal tries was sealed with exactly the associated data it is tried with |
| KmsProtocol.NoSealedVolumeLost | pkg/kms/server.go:166-269 | A group whose Seal returned success is in the stored Secret, unchanged, with the IP it was sealed from |
| KmsProtocol.SecretsOnlyGrow | pkg/kms/server.go:221-269 | No step drops a Secret, changes its sealing IP or changes a group in it |
| KmsProtocol.SealUnsealRoundTrip | pkg/kms/server.go:104-154 | What a successful Seal returned unseals to the original text after any further Seals, for any spelling of the node UUID that lower-cases to the same, in any group order, if no encryption of the run opens under the key and associated data of a different one |
| KmsProtocol.OtherAddressRefused | pkg/kms/server.go:133-137 | After any run a node that was sealed from one address is refused from every other, with the address mismatch, before any key is tried |
| KmsProtocol.UnknownNodeExactly | pkg/kms/server.go:126-131 | After any run no Secret is found exactly for a node for which no group was ever written |
| WebhookCert.InvStep | pkg/server/webhookcert.go:49-138 | Every step keeps the agreement, and none writes a Secret that holds a well-formed pair |
| WebhookCert.CertificateAgreement | pkg/server/webhookcert.go:49-110 | From an absent, malformed or well-formed Secret all successful callers return one pair, the stored one |
| WebhookCert.WellFormedPairStays | pkg/server/webhookcert.go:112-138 | Once a well-formed pair is stored, the rest of the run leaves the Secret alone |
| WebhookCert.CertDataExactly | pkg/server/webhookcert.go:142-152 | A pair is read exactly from its two entries, neither of them empty |
| WebhookCert.WithPairExactly | pkg/server/webhookcert.go:125-130 | A repair writes exactly the two entries and keeps the others |
| WebhookCert.GetExactly | pkg/server/webhookcert.go:53-68 | The first read returns the stored pair exactly if it is well-formed, and goes on to creation or repair exactly otherwise |
| WebhookCert.CreateExactly | pkg/server/webhookcert.go:75-94 | The creation stores and returns the new pair where there was no Secret, and changes nothing where there is one |
| WebhookCert.LoserGetsThePair | pkg/server/webhookcert.go:96-109 | On every run whoever loses the race to create the Secret succeeds with the stored pair |
| WebhookCert.HealsExactly | pkg/server/webhookcert.go:112-138 | On every run a malformed Secret is healed exactly if nobody has written it since it was read; its other entries stay, and otherwise nothing changes and the caller fails |
| SigningKey.KeyAgreement | pkg/libkapi/auth/key.go:137-173 | All replicas that succeed return one key, the stored one; when they succeed is `SigningKey.LoadExactly`, `SigningKey.CreateExactly` and `SigningKey.LoserGetsTheKey` |
| SigningKey.LoadExactly | pkg/libkapi/auth/key.go:112-153 | On every run a load returns a key exactly when the Secret holds that key, goes on to creation exactly without a Secret, and fails exactly for a Secret that holds none |
| SigningKey.CreateExactly | pkg/libkapi/auth/key.go:76-110 | On every run the creation stores and returns the new key where there was no Secret, and changes nothing where there is one |
| SigningKey.LoserGetsTheKey | pkg/libkapi/auth/key.go:161-172 | On every run whoever loses the race to create the Secret succeeds with the key of the winner |
| SigningKey.FirstKeySurvives | pkg/libkapi/auth/key.go:76-110 | The first stored Secret survives every later step |
| Handshake.Conn.ReadHeaderLine | pkg/talosproxy/handshake.go:69-88 | The line up to the first CRLF within 4096 bytes; what follows is left unread; end of stream and overlong lines are told apart |
| Handshake.NoLineExactly | pkg/talosproxy/handshake.go:69-88 | No line exactly when the stream ends, or 4096 bytes pass, before a CRLF; which of the two, and that these bytes are taken |
| Handshake.Conn.ReadConnectResponse | pkg/talosproxy/handshake.go:42-67 | Result and unread rest are those of the reference reader, in every error case too |
| Handshake.Conn.EstablishConnectTunnel | pkg/talosproxy/handshake.go:23-37 | The request is sent once and the response read as by the reference reader; after a short write nothing is read |
| Handshake.StatusExactly | pkg/talosproxy/handshake.go:48-55 | Malformed exactly without a space, accepted exactly when the second space-separated field is 200, rejected exactly otherwise |
| Handshake.RefusedExactly | pkg/talosproxy/handshake.go:42-55 | A response is malformed or rejected exactly for its first line, and nothing after that line is read |
| Handshake.BreaksExactly | pkg/talosproxy/handshake.go:42-67 | Reading breaks off, at the end of the stream or at an overlong line, exactly where a good beginning is followed by no further line |
| Handshake.RequestIsPrinted | pkg/talosproxy/handshake.go:23-24 | The request is a request line, a Host header and an empty line, in the form that responses are printed in |
| Handshake.ResponseRoundTrip | pkg/talosproxy/handshake.go:42-88 | A printed response with status 200 and good header lines is accepted and leaves exactly the payload |
| Handshake.AcceptsExactlyResponses | pkg/talosproxy/handshake.go:42-88 | A stream is accepted exactly when it is such a response followed by some payload |
| Handshake.ConsumesExactlyTheHeader | pkg/talosproxy/handshake.go:39-67 | The bytes taken are the shortest prefix that ends in CRLF CRLF |
| NonceStore.Store.Generate | pkg/attestation/rest/store.go:59-83 | Records the nonce with expiry and canonical address, or nothing for a bad address |
| NonceStore.Store.Use | pkg/attestation/rest/store.go:88-118 | The answer, and that the record is gone after a use from the right address, expired or not |
| NonceStore.Store.Reap | pkg/attestation/rest/store.go:40-52 | Exactly the expired records are gone, whatever the map order |
| NonceStore.SingleUse | pkg/attestation/rest/store.go:88-118 | On every run the successful uses of a nonce, plus a record still held, never outnumber its generations |
| NonceStore.SuccessIsGenuine | pkg/attestation/rest/store.go:88-118 | A use that succeeds comes from the canonical address of the latest generation and not after its expiry |
| NonceStore.AnswersExactly | pkg/attestation/rest/store.go:88-118 | Each of the five answers to a use, exactly |
| NonceStore.ConsumesExactly | pkg/attestation/rest/store.go:88-118 | A use takes its record away exactly if it comes from the right address; no other record is touched |
| NonceStore.StrangersChangeNothing | pkg/attestation/rest/store.go:99-106 | After any calls a use from another address changes nothing, so the rightful caller can still use the nonce |
| NonceStore.HeldExactly | pkg/attestation/rest/store.go:36-118 | After any calls, reaper rounds included, the store holds a nonce exactly when it was issued and neither used from its address nor reaped past its expiry since, with the record of the latest issue |
| NonceStore.UseSucceedsExactly | pkg/attestation/rest/store.go:59-118 | On every run a use succeeds exactly when the nonce was issued to its address, has not been used from there or reaped since, and is not expired by the clock of the use |
| NonceStore.ReapsTheHopeless | pkg/attestation/rest/store.go:36-53 | The reaper drops a record exactly when every use with a clock reading from now on would be refused |
| NonceStore.RunIsBehind | pkg/attestation/rest/store.go:36-53 | On every run the tables with and without the reaper differ only in records expired by its latest reading |
| NonceStore.ReaperShowsExactly | pkg/attestation/rest/store.go:36-118 | On every run a use succeeds exactly when it would without the reaper and no round has read a clock past its record's expiry since the nonce was issued |
| NonceStore.ReaperIsInvisible | pkg/attestation/rest/store.go:36-118 | A use whose clock reading is not behind the reaper's succeeds exactly when it would without the reaper |
| NonceStore.OvertakenByTheReaper | pkg/attestation/rest/store.go:94-97 | A use whose clock reading was in time is refused when a reaper round overtakes it |
| Attestation.PcrIndicesFromSelection | pkg/attestation/rest/models.go:236-250 | The nested loop and the sort yield the positions of the set bits |
| Attestation.IndicesAreTheSelected | pkg/attestation/rest/models.go:236-250 | That list is the only increasing one whose elements are exactly the selected PCRs |
| Attestation.LowBitIsShift | pkg/attestation/rest/models.go:239-241 | The bit tested is one shifted by the position |
| Attestation.PcrDigest | pkg/attestation/rest/models.go:252-277 | The running hash is the hash of all values in the order of the indices (`Attestation.PcrBytesInOrder`); the first missing or undecodable PCR is the error (`Attestation.PcrBytesFirstError`) |
| Attestation.PcrBytesKnown | pkg/attestation/rest/models.go:252-277 | The digest exists exactly when every listed PCR is reported in hex |
| Attestation.PcrBytesInOrder | pkg/attestation/rest/models.go:252-277 | The bytes hashed for two lists of PCRs, one after the other, are those of the first followed by those of the second |
| Attestation.PcrBytesOne | pkg/attestation/rest/models.go:255-268 | For a single PCR they are its value |
| Attestation.PcrBytesFirstError | pkg/attestation/rest/models.go:255-268 | The error is that of the first PCR in the list that has no value |
| Attestation.PcrValueExactly | pkg/attestation/rest/models.go:256-268 | The value is what the hex string without its prefix decodes to; missing and undecodable are told apart exactly |
| Attestation.StripExactly | pkg/attestation/rest/models.go:261-263 | A prefix `0x` or `0X` is dropped once, and nothing else is |
| Attestation.ComputePcrDigest | pkg/attestation/rest/models.go:205-233 | The first SHA-256 selection decides, and the digest is over its PCRs in increasing order; without one the error is the missing selection |
| Attestation.ParseAttest | pkg/attestation/rest/models.go:167-203 | Succeeds exactly for a quote that holds the nonce; a nonce mismatch is reported exactly for a quote that holds another one |
| Attestation.ParsesExactly | pkg/attestation/rest/models.go:115-151 | Succeeds exactly when signature and key decode, the signature is an ECDSA one and the key an ECDSA key, and then yields these two |
| Attestation.ValidateComponents | pkg/attestation/rest/models.go:84-102 | Accepts exactly when the last reported component of each policy name has the required measurement; the error names the first that fails and why |
| Attestation.ValidatePcrs | pkg/attestation/rest/models.go:104-113 | Accepts exactly when every policy PCR is reported with the same value; the error names one that is not |
| Attestation.CompliantWith | pkg/attestation/rest/models.go:36-82 | True exactly when all five checks pass; the error belongs to the first that fails |
| Attestation.QuoteVouchesForPolicy | pkg/attestation/rest/models.go:36-82 | When a report is accepted and the policy names every selected PCR, the digest in the quote is the one of the policy's own values |

## Left out

- ConnectHandler.Handler.DialTunnel: what one goroutine does while the others stand still, except that an establishment it waits for may end; all interleavings are in `PoolMachine`.
- ConnectHandler.Handler.ServeHTTP: as for `DialTunnel`; target parsing, the look-up and the copying of bytes are arguments or absent.
- TunnelPool.Pool.GetOrCreateTunnel: at most one wait, since nobody else arrives meanwhile.
- `PoolMachine` works on values: tunnels, timers and channels are identified by numbers, so aliasing appears as shared identifiers. A section on one mutex that does not block inside is a single step.
- KMS, webhook certificate and signing key protocols work on values for the same reason; in-place change of `secret.Data` is shown for `Kms.Secret.AddVolume` only.
- `strings.ToLower` is modelled on ASCII letters, and `uuid.Parse` and `canonicalIP` are any functions.
- Real time and timer durations: a timer may fire at any time. That schedules end is stated for runs without new arrivals.
- The port-forward, SPDY and WebSocket dialling in `pkg/talosproxy/tunnel.go`: network calls.
- The `dialFunc` hooks of tunnels and pool: they exist for tests only.
- AES-GCM, SHA-256, ECDSA, RSA, PEM, hex and TPM decoding: library code, kept as abstract functions.
- `getOrCreateSigningKey` and `persistSigningKey` in `pkg/server/utils.go`: after AlreadyExists they return a key without re-reading, so agreement is not claimed for them.
- The libkapi server lifecycle, `upsertManagedSecret` and the deletion by bare name in the Talos proxy reconciler: their guarantees rest on code outside the repository or do not hold under concurrency.
- Configuration, logging, UI, OpenAPI tables, health endpoints and controller setup: plumbing that would only add easy members.
