# global-egress, verified

global-egress sends client connections out through a pool of exits: WireGuard
tunnels, relay proxies reached through shared entry tunnels, and direct proxies.
This project models how the pool decides which exit serves a connection, and the
text and wire formats around it, and proves what they promise.

## How it is organised

The pool (`PoolState`) is a value, and each section of code that runs under the
pool's mutex is a function on it. Slot states live in a store keyed by handle, so a
state that a relay refresh has detached from the membership is still there for the
connections that hold it, and a slot added again under the same ID is a fresh state.
A batch's identity is its generation, not its name.

`PoolSystem` turns these functions into the steps of a transition system: any number
of acquisitions, leases and tunnel openings are under way, and selections, commits,
rollbacks, reports, praises, measurements, expiry, reconciliation, probing and
restores interleave freely. Random choices are parameters of a step (`Luck`), and a
handshake succeeds or fails. The fields `grants`, `tainted`, `bans` and `contacts`
record history and are read by no step.

Each concern has its module of facts about every run: `GrantRuns` and `BatchRuns`
(unique batches), `Leases`, `SessionRuns`, `TunnelRuns`, `MemoryRuns` (cooldowns),
`RingRuns` and `RecyclingRuns` (last-good exits, recycling), `RollbackRuns`,
`Restarts`. `Boundaries`, `Overflow` and `Refresh` hold the conditions under which a
promise fails, with runs from new pools built on `Scenario`; `PolicyLimits` and
`CatalogLimits` hold failing inputs of the text formats. `Selection`,
`SelectionExact` and `Lapsed` treat one selection.

The same sections are written a second time the way the program has them, as a class
whose methods update fields in place with loops in arbitrary map order: `PoolObject`,
with `BatchObject` and `PreferredObject` for the batch and the ring of last-good
exits. Every method is proved to compute the function that specifies it. `Dialing`
puts the two retry loops that own leases inside a run.

`PolicyCodec`, `ConfCodec`, `Socks5`, `Snapshot`, `Inventory` and `Entries` are the
username policy, the WireGuard files, the proxy handshake, the catalogue swap on
disk, the saved inventory and the spreading of entry tunnels. Addresses, prefixes and
durations are opaque; their printing and parsing is a parameter (`Library`,
`NetLibrary`, `IPLibrary`) of which only the round trip of each single value is
required.

## Findings

Promises that do not hold without a condition, with the exact condition and an input
that fails it:

- A unique batch can be handed a consumed slot again in the same generation exactly at
  the instant the generation expires: eligibility already counts that instant as over,
  renewal not yet (`Boundaries.RegrantedExactlyAtExpiry`; a run from a new pool is
  `Boundaries.SameGenerationTwice`).
- A rollback gives up another acquisition's grant in the same generation exactly when
  both are of the same slot, which happens when a report freed the slot in between
  (`Boundaries.RollbackKeepsOtherExactly`; a run from a new pool is
  `Boundaries.OlderRollbackFreesNewer`).
- Bound and pending sessions exceed `MaxSessions` exactly when a session is bound that
  was forgotten under its acquisition while all places are taken
  (`SessionRuns.LimitBreaksExactly`; a run from a new pool is `Overflow.LimitBreaks`).
- A refresh of the relays that is refused for a collision leaves the pool alone exactly
  when none of the retained relays it met first was to get a different spec
  (`Refresh.RefusalHarmlessExactly`), and does so in whatever order it meets them exactly
  when no retained relay's spec changes (`Refresh.RefusalsHarmlessExactly`; a run from a
  new pool is `Refresh.RefusedRefreshChanges`).
- Bare seconds in a policy wrap around above 9223372036 (`PolicyCodec.SecondsAreExact`);
  some wrapped values pass the check for negative lifetimes (`PolicyCodec.SecondsWrap`).
- A policy comes back from its rendering exactly when it does not ask for recycling and
  the rendering fits the length of a username (`PolicyCodec.ComesBackExactly`; failing
  usernames are in `PolicyLimits.RenderingTooLong` and `PolicyLimits.RecyclingLost`).
- A rendered configuration is read back exactly when it names an address and a resolver,
  its MTU is in range and no line reaches 1 MiB, although a slot is rendered in any case
  (`ConfCodec.ConfRoundTrip`; failing slots are in `CatalogLimits.UnresolvedIsRefused`
  and `CatalogLimits.LongSourceIsRefused`).
- A written catalogue is recognised as the tool's own exactly when no file name contains
  a line break (`Snapshot.WrittenIsOwned`; a failing slot is in
  `CatalogLimits.BrokenIsNotOwned`).

## Model

| member | source | states |
|---|---|---|
| GrantRuns.GrantsNeverRepeat | internal/pool/pool.go:795-804 | In every reachable state of every run, two unreleased grants of one batch generation differ in slot and in the address held at selection, and both had a measured address, unless that generation was ever entered by recycling or at the very instant it expired |
| GrantRuns.BatchesAreExact | internal/pool/pool.go:1310-1398 | In every reachable state the used addresses of a stored batch are exactly those its reservations own, attributed slots are consumed slots, no stored batch is empty, there are at most MaxUniqueBatches, and a consumed slot's current measured address is recorded with it, also after re-measurement or removal and re-addition of relays |
| GrantRuns.GrantedStep | internal/pool/pool.go:1310-1336 | Every step of every actor keeps live grants unique and remembered by their generation |
| BatchRuns.MeasureBooks | internal/pool/inventory.go:230-246 | A measurement keeps all books exact and backfilled, and drops no slot or address a live batch has consumed |
| TunnelRuns.TunnelsStayCapped | internal/pool/pool.go:1008-1043 | With a cap, slot and entry tunnels that are open or being opened plus probe tunnels never exceed it in any reachable state |
| TunnelRuns.OpeningsAreSingle | internal/pool/pool.go:1084-1145 | In every reachable state at most one opening of a slot's tunnel, or of an entry's, is under way, and none while it is up; detached states have no tunnel; the probe counter is the number of probe tunnels |
| TunnelRuns.CapacityIsExact | internal/pool/pool.go:1008-1043 | A tunnel is refused if and only if the cap is reached and no tunnel is idle; the one closed to make room carries no committed or pending lease, no idle one was last used earlier, and nothing else changes |
| TunnelRuns.EvictionFrees | internal/pool/pool.go:1028-1042 | Closing the victim lowers the tunnel count by exactly one |
| TunnelRuns.RateLimitHolds | internal/pool/pool.go:1147-1175 | With a positive budget no window of the configured length, wherever it ends, holds more tunnel openings of the run than the budget |
| TunnelRuns.PrunedListIsTheWindow | internal/pool/pool.go:1164-1197 | Pruned at any later instant, the kept list is the run's whole history of openings filtered to the window, and the pending counter is the number of openings reserved and not yet charged or called off |
| TunnelBudget.PrunedIsWindow | internal/pool/pool.go:1185-1197 | Dropping the expired prefix of the kept list leaves exactly the history inside the window |
| TunnelBudget.CommitKeepsBudget | internal/pool/pool.go:1164-1175 | A reservation charged at any later instant keeps every window within the budget |
| Leases.LeasesAreConserved | internal/pool/pool.go:512-554 | In every reachable state the two counters equal the unreleased leases and the acquisitions under way, and the sums over all slot states, detached ones included; the global and per-exit limits hold |
| Leases.GuardsNeverMatter | internal/pool/pool.go:1362-1374 | Whenever a lease or a reservation is given back its counters are positive, so the guards against negative counts never take effect |
| SessionRuns.PendingNamesAreCounted | internal/pool/pool.go:1278-1305 | In every reachable state the counter of a pending session name is the number of acquisitions under way that hold it |
| SessionRuns.SessionsStayBounded | internal/pool/pool.go:1270-1294 | Bound and pending names stay within MaxSessions in runs where no bound session is forgotten under an acquisition that holds no name for it |
| SessionRuns.SessionsNearlyBounded | internal/pool/pool.go:1270-1294 | In every run with a connection limit they exceed MaxSessions by at most that limit |
| SessionRuns.LimitBreaksExactly | internal/pool/pool.go:1270-1294 | In every run, a step takes the names over the limit if and only if it binds a session that nobody knows any more while all places are taken |
| Overflow.LimitBreaks | internal/pool/pool.go:1282-1284 | A concrete run from a new pool that allows one session and ends with two: a sticky selection holds no name, and its session is rotated away before it binds |
| MemoryRuns.ReportedAddressStaysAway | internal/pool/pool.go:992-1004 | After an accepted report on a measured address no selection for that destination before the cooldown ends returns a member on the address, whatever happens in between |
| MemoryRuns.BannedStep | internal/pool/pool.go:992-1004 | Every step keeps each running report recorded for at least as long as it asked |
| RingRuns.RingsStayValid | internal/pool/pool.go:921-971 | In every reachable state a ring holds at most PreferredMax entries with valid, pairwise distinct addresses |
| RingRuns.KeptSlotsAreDistinct | internal/pool/pool.go:886-905 | After stale entries are filtered out no slot appears twice |
| RingRuns.PreferredPickMovesOne | internal/pool/pool.go:878-919 | A preferred selection takes the first least-loaded entry that may serve, moves exactly that entry to the tail and keeps the order of the rest |
| RingRuns.UndonePicksRoundRobin | internal/pool/pool.go:878-919 | Consecutive selections of the pool without a session, each rolled back before the next, serve the members of a ring round-robin while these are always eligible at equal load |
| RecyclingRuns.RecycledPicksAreFair | internal/pool/pool.go:821-858 | With n burned addresses to hand out and nothing else touching the batch, consecutive recycled selections of the pool return them in oldest-burn order, all n before any repeats, over and over |
| RecyclingRuns.RecyclingStarvesNobody | internal/pool/pool.go:821-858 | Any n consecutive recycled selections return every one of the n addresses |
| RollbackRuns.RollbackUndoesReserve | internal/pool/pool.go:1338-1398 | Undoing a selection of an unconsumed slot at once restores every counter, the pending names and the batch's slots and addresses, and forgets a batch it had created |
| RollbackRuns.RollbackIsExact | internal/pool/pool.go:1376-1398 | A rollback releases the slot from its own generation only, keeps addresses another slot owns, forgets an emptied batch and never changes a newer generation of the same name |
| RollbackRuns.RollbackErases | internal/pool/pool.go:1376-1398 | Over whole runs, a rolled-back grant that reused nothing leaves its generation exactly as the interleaved operations on the other slots alone would have left it |
| RollbackRuns.GenerationFollowsOps | internal/pool/pool.go:314-370 | While it stays stored, a generation goes through exactly the reservations, measurements and releases of the run's steps |
| Boundaries.RegrantedExactlyAtExpiry | internal/pool/pool.go:795-804 | A consumed slot that passes the other rules is eligible again for the same generation if and only if the instant is the generation's expiry |
| Boundaries.SameGenerationTwice | internal/pool/pool.go:1318-1330 | A complete run from a new pool after which two acquisitions under way hold one slot and address in one generation, the second selected at the instant of expiry; one instant earlier nothing would have been selected |
| Boundaries.RollbackKeepsOtherExactly | internal/pool/pool.go:1386-1398 | A rollback keeps another grant of its generation if and only if the two are of different slots |
| Boundaries.OlderRollbackFreesNewer | internal/pool/pool.go:1386-1398 | A complete run from a new pool: two slots are selected for a batch, the first is reported while its acquisition is under way and selected again in the same generation, and rolling the older acquisition back makes the generation forget the newer grant, which is still under way |
| SelectionExact.SelectionIsSound | internal/pool/pool.go:664-806 | A slot returned by any path passes every rule of a plain scan of the pool as it stood before the call; recycling waives only the batch's exclusion and the rules that hang on it |
| SelectionExact.NoCandidateIsExact | internal/pool/pool.go:692-712 | Past the limits, the no-candidate error is returned if and only if a plain scan of the pool as it stood finds no eligible slot and none that may be recycled |
| SelectionExact.LaterPathsAreFallbacks | internal/pool/pool.go:699-743 | A selection recycles only when nobody in the pool as it stood before the call was eligible, and opens a tunnel only when no eligible slot was ready then |
| Batches.ReleaseUndoesReserve | internal/pool/pool.go:314-370 | Reserve a fresh slot, let any reservations, measurements and releases follow, and release it: what remains is what the others alone would have left |
| Batches.ReleaseKeepsValid | internal/pool/pool.go:354-370 | Releasing removes exactly the slot and the addresses no other slot owns, and keeps the books exact |
| Preferred.RememberKeepsValid | internal/pool/pool.go:921-940 | Remembering keeps the ring bounded with distinct addresses, records the new entry, and keeps only old entries of other addresses |
| Preferred.RotateMovesOne | internal/pool/pool.go:952-961 | With distinct slots the rotation moves exactly the named entry to the tail |
| WellFormed.BaseStep | internal/pool/pool.go:630-744 | Every step keeps the pool well formed, and nothing under way ever refers to a state that does not exist |
| WellFormed.ReconcileKeeps | internal/pool/relay_reconcile.go:22-86 | A reconciliation keeps every state with its counts, keeps members that are not relays, retains identities and starts new members fresh |
| Inventory.RestartRestores | internal/pool/inventory.go:575-697 | Saved at any instant and loaded at any later one into a pool freshly built from the same catalogue, an inventory gives back every non-rotating measured address with its check time, every ring in order restricted to live entries whose slot is saved under their address, every running cooldown on a saved address, and nothing else |
| Restarts.RestartAfterRun | internal/pool/inventory.go:575-697 | The same of the pool of every reachable state |
| Restarts.LoadsAreSteps | internal/pool/inventory.go:639-697 | Each step of a load does to the pool what the step of the same name does in a run |
| Dialing.Worker.Acquire | internal/pool/pool.go:556-614 | Inside any run, with any steps of others in between, an acquisition makes at most DialAttempts selections; a success leaves exactly the returned lease, a failure leaves nothing of its own under way or leased |
| Dialing.Worker.ConnectUpstream | internal/proxy/proxy.go:133-171 | Likewise over all connection attempts: a failed connection leaves no lease and no reservation of its own, a successful one exactly the lease it owns |
| PoolObject.EgressPool.Build | internal/pool/pool.go:445-503 | A pool is built if and only if there are slots, their IDs are distinct and relays have an entry; it is the new pool the runs start from |
| PoolObject.EgressPool.Pick | internal/pool/pool.go:630-744 | The whole selection over the object's fields, with its loops and in-place updates, computes the selection function; the closed tunnel and the forgotten cooldowns are reported |
| PoolObject.EgressPool.PickFromRing | internal/pool/pool.go:878-919 | Filtering the ring, finding the least-loaded member and rotating it in one loop gives the ring and the choice that were specified |
| PoolObject.EgressPool.RecycleOldest | internal/pool/pool.go:825-858 | The scan finds the first member whose address was burned longest ago and moves that address to the back |
| PoolObject.EgressPool.Expire | internal/pool/pool.go:1832-1867 | The five clean-up loops leave exactly what has not gone stale |
| PoolObject.EgressPool.ReserveCapacity | internal/pool/pool.go:1008-1043 | Counting and the search for a victim, in any map order, decide and evict as specified |
| PoolObject.EgressPool.CommitOpen | internal/pool/pool.go:1164-1197 | Charging prunes the list in a loop and appends the contact |
| PoolObject.EgressPool.ReserveAcquisition | internal/pool/pool.go:1278-1360 | Session name, batch and pending lease are reserved together or not at all |
| PoolObject.EgressPool.Rollback | internal/pool/pool.go:1362-1398 | The object after a rollback is what the rollback function gives |
| PoolObject.EgressPool.Establish | internal/pool/pool.go:584-594 | The object after a commit: the pending lease became a lease and the session is bound |
| PoolObject.EgressPool.Report | internal/pool/pool.go:1509-1576 | A report cools the slot, forgets its address as a preference, releases it from every batch and rotates the session, or is refused with its error |
| PoolObject.EgressPool.Prefer | internal/pool/pool.go:1601-1643 | A praise is recorded in the destination's ring, or refused with its error |
| PoolObject.EgressPool.SetPublicIP | internal/pool/inventory.go:230-246 | The loop over all batches drops stale ones and backfills those that consumed the slot |
| PoolObject.EgressPool.Housekeep | internal/pool/inventory.go:741-760 | Housekeeping expires and closes exactly the tunnels idle for too long |
| PoolObject.EgressPool.ReconcileRelays | internal/pool/relay_reconcile.go:22-86 | The refresh swaps the membership in place exactly when it is well formed and collides with no other slot; a refused one leaves the pool alone exactly when it is malformed or the relays met before the collision keep their specs |
| Refresh.RefusalChanges | internal/pool/relay_reconcile.go:53-65 | A refused refresh gives exactly the retained relays met before the collision their new spec, and changes nothing else |
| Refresh.RefusalHarmlessExactly | internal/pool/relay_reconcile.go:53-65 | A refused refresh leaves the pool as it was if and only if every retained relay it met before the collision already had its new spec |
| Refresh.RefusalsHarmlessExactly | internal/pool/relay_reconcile.go:53-65 | It does so whichever relays it meets first if and only if no retained relay's spec differs from the refreshed one |
| Refresh.RefusedRefreshChanges | internal/pool/relay_reconcile.go:53-65 | A run from a new pool of one relay and one WireGuard slot in which a refused refresh moves the relay to another city |
| PoolObject.EgressPool.SaveInventory | internal/pool/inventory.go:575-619 | The collected file is the one specified, and nothing is written when it is empty |
| PoolObject.EgressPool.LoadInventory | internal/pool/inventory.go:639-706 | Loading in any map order gives the loaded pool, and is a sequence of measurements and restore steps |
| PoolObject.EgressPool.StartOpening | internal/pool/pool.go:1103-1116 | Capacity, then budget, then the opening mark |
| PoolObject.EgressPool.NoteEntryFailure | internal/pool/entry.go:208-254 | From the third consecutive failure on the entry is backed off and its tunnel dropped |
| BatchObject.Batch.Release | internal/pool/pool.go:354-370 | The object's nested loops leave the batch that releasing specifies |
| BatchObject.Batch.Reserve | internal/pool/pool.go:314-352 | The object becomes the batch that reserving specifies |
| PreferredObject.PreferredSet.Remember | internal/pool/pool.go:921-940 | The slice becomes the ring that remembering specifies, in place or in a grown buffer |
| PreferredObject.PreferredSet.KeepIf | internal/pool/pool.go:942-971 | Filtering in place from the front leaves exactly the kept entries, in order |
| PreferredObject.PreferredSet.RotateToTail | internal/pool/pool.go:952-961 | Shifting in place leaves the rotated ring |
| PolicyCodec.RoundTrip | internal/policy/policy.go:88-132 | Parsing a rendered policy gives it back, except that recycling is never rendered, when the rendering has at most 512 characters, and the length error otherwise |
| PolicyCodec.ParseRenderParse | internal/policy/policy.go:167-258 | The same for the policy of every username that parses, and that the policy itself comes back if and only if it also does not recycle |
| PolicyCodec.ComesBackExactly | internal/policy/policy.go:85-132 | A policy is parsed back from its own rendering if and only if it does not recycle and the rendering has at most 512 characters |
| PolicyLimits.RenderingTooLong | internal/policy/policy.go:124-132 | An accepted username of 303 characters whose policy is rendered with 699, which parsing refuses |
| PolicyLimits.RecyclingLost | internal/policy/policy.go:88-132 | An accepted username that asks for recycling, whose rendering parses to a policy that does not |
| PolicyLimits.PlainIsFaithful | internal/policy/policy.go:88-132 | There is a library that keeps all promises the round trip asks of one |
| PolicyCodec.ParsedIsAccepted | internal/policy/policy.go:271-326 | Every parsed policy has sorted, lower-case, safe tokens, lifetimes in range and readable addresses |
| PolicyCodec.SecondsAreExact | internal/policy/policy.go:360-375 | Bare non-negative seconds are read exactly if and only if they are at most 9223372036 |
| PolicyCodec.SecondsWrap | internal/policy/policy.go:360-375 | 18446744074 seconds are read as 290448384 nanoseconds: the check for negative values misses this wrap-around |
| PolicyCodec.Parse | internal/policy/policy.go:167-258 | The parsing loop computes the parse of the username |
| PolicyCodec.AppendLower | internal/policy/policy.go:350-357 | The loop appends exactly the non-empty items, trimmed and in lower case |
| PolicyCodec.Check | internal/policy/policy.go:271-326 | The checks accept exactly the valid policies, with the first error in order |
| PolicyCodec.Render | internal/policy/policy.go:88-132 | The rendering computes the rendered policy |
| ConfCodec.ConfRoundTrip | internal/catalog/catalog.go:276-343 | Reading a rendered configuration recovers every written field if and only if it names an address and a resolver, its MTU is in range and no line reaches the reader's bound; otherwise the error is the one the reader gives |
| ConfCodec.LocatedRoundTrip | cmd/global-egress/nordvpn_catalog.go:150-189 | Under its own file name a well-formed slot is read back in full, country and hyphenated city included |
| CatalogLimits.UnresolvedIsRefused | cmd/global-egress/nordvpn_catalog.go:163-189 | A well-formed slot without a resolver whose rendered configuration is refused for a list without addresses |
| CatalogLimits.LongSourceIsRefused | internal/catalog/catalog.go:276-343 | The rendering of a well-formed slot with a source description of 1 MiB is refused |
| CatalogLimits.BrokenIsNotOwned | cmd/global-egress/nordvpn_catalog.go:64-100 | A slot with a line break in its ID is written, and the snapshot is not recognised again |
| ConfCodec.FileNamesAreInjective | cmd/global-egress/nordvpn_catalog.go:150-161 | Slots with the same file name have the same country, city and identifier |
| ConfCodec.ParseConf | internal/catalog/catalog.go:276-343 | The line loop computes the parse of the file |
| ConfCodec.WriteField | internal/catalog/catalog.go:345-400 | One setting changes the slot as its key says, or fails with its error |
| ConfCodec.RenderConf | cmd/global-egress/nordvpn_catalog.go:163-189 | The writing loops compute the rendered file |
| Socks5.ServerUnderstandsClient | internal/proxy/socks5.go:152-291 | The server applied to the client's greeting, credentials and request followed by any tail yields exactly the caller, host and port and leaves the tail untouched (sections 3 to 5 of RFC 1928, section 2 of RFC 1929) |
| Socks5.ClientUnderstandsServer | internal/socksdial/socksdial.go:93-216 | The client applied to the server's answers followed by any payload succeeds exactly on a successful reply and leaves the payload untouched (sections 3 and 6 of RFC 1928) |
| Socks5.ReplyReadsBack | internal/socksdial/socksdial.go:182-216 | A successful reply is consumed exactly, whatever bound address it carries; any other reports its code |
| Socks5.RequestReadsBack | internal/socksdial/socksdial.go:158-180 | A request is read back exactly, with nothing after it touched |
| Socks5.RejectedClientStops | internal/socksdial/socksdial.go:93-156 | A client whose credentials are rejected never sends its destination |
| Socks5.ServerNegotiate | internal/proxy/socks5.go:152-238 | The server's reads and writes are those of the negotiation, byte for byte |
| Socks5.ReadRequest | internal/proxy/socks5.go:241-291 | The server's reads and writes are those of the request grammar, with its error replies |
| Socks5.WriteReply | internal/proxy/socks5.go:295-312 | The bytes written are the reply of that code and bound address |
| Socks5.ClientNegotiate | internal/socksdial/socksdial.go:93-156 | The client's reads and writes are those of the dial, byte for byte |
| Snapshot.ReplaceSnapshot | cmd/global-egress/nordvpn_catalog.go:102-130 | Whichever calls fail, looking at the directory included, at every moment the live directory is the old snapshot, the new one, or absent with the old one under the backup path, and the outcome says which is left |
| Snapshot.WriteCatalog | cmd/global-egress/nordvpn_catalog.go:20-62 | The same at every moment of a whole synchronization; after success the live directory holds exactly the new snapshot, after every failure but an unrestored swap it is untouched, and other paths never change |
| Snapshot.CheckOwnership | cmd/global-egress/nordvpn_catalog.go:64-100 | Unless listing the directory or reading its manifest fails, it decides whether the directory holds only what its manifest lists |
| Snapshot.WrittenIsOwned | cmd/global-egress/nordvpn_catalog.go:64-100 | The next synchronization accepts a written snapshot as its own if and only if no file name contains a line break |
| Entries.AutoEntries | cmd/global-egress/entries.go:57-98 | The allocator terminates with min(count, total) distinct slots, every region contributes a prefix of its sorted slots, and shares differ by more than one only when the smaller share is the whole region |
| Entries.RegionsAreBalanced | cmd/global-egress/entries.go:57-98 | The balance of any two regions, both ways |
| Entries.Deal | cmd/global-egress/entries.go:80-98 | The round-robin loop terminates with min(count, total) slots, fairly spread |
| Entries.NamedEntries | cmd/global-egress/entries.go:18-52 | The named entries are the usable names once each in order of first mention; otherwise the error is the first unknown name, or, exactly when there is no usable name, that there is none |
| Entries.ResolveEntries | cmd/global-egress/entries.go:18-55 | Names win over the automatic choice, and without either nothing is configured |

## Left out

- PoolObject.EgressPool.Pick: the pool object holds batches, rings and slot states as values in its maps; aliasing between those objects is captured only by handles and generations, and the objects `Batch` and `PreferredSet` are proved separately against the same functions.
- PoolObject.EgressPool.Pick: the clock is read once per critical section and handed in; binding a session reads it a second time in the program.
- PoolObject.EgressPool.LoadInventory: all measurements of one load share an instant, where the program reads the clock for each.
- PoolObject.EgressPool.SaveInventory: encoding to JSON, the temporary file and its rename are not modelled; the file is a value.
- Dialing.Worker.Acquire: the outcome of a dial is arbitrary; which tunnel is opened for it, and waiting for somebody else's opening, are steps of others in between.
- Dialing.Worker.ConnectUpstream: the checks of port and host are one Boolean; checking the resolved peer address is part of the arbitrary outcome.
- PolicyCodec.ParsedIsAccepted: text is a sequence of ASCII characters, so Unicode spaces and case folding are not modelled.
- ConfCodec.ParseConf: lengths are counted in ASCII characters, so a byte and a character are the same.
- Socks5.ServerUnderstandsClient: the server sees an address literal in its canonical text; any other host name is seen as sent.
- Socks5.WriteReply: deadlines and failed writes on a socket are not modelled.
- Snapshot.ReplaceSnapshot: files are text without permissions, and a crash inside one file-system call is not modelled.
- Batches.ReleaseKeepsValid: the burn counter is unbounded, where the program's has 64 bits.
- Backoff durations are unbounded integers; the program's shift could overflow for a base above 2^58 nanoseconds.
- PoolObject.EgressPool.ReconcileRelays: the relays of a refresh are met in the order of the list, where the program meets them in map order; in a run any of them may have been met.
- Snapshot.CheckOwnership: a manifest that is missing and one that cannot be read have the same message in the program; they are told apart here.
- Warming up: its choice of targets and its opening loop; the openings themselves, and its pruning of the contact list, are steps of the model.
- The statistics: only the pruning of the contact list that collecting them does is a step.
- Choosing among entries by latency, the moving average, exploration, and the reset of an entry's failures by a completed dial.
- Bringing background checks, shutdown, logging, metrics and the control interface into the model would only add easy members.
- Reading catalogue directories and archives, sorting the bundle, and region tables.
- Deciding which client may connect, and the relaying of bytes after the handshake.
