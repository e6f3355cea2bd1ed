# Tachyon Core, verified

A Dafny model of the parts of Tachyon Core, a tunnel for game UDP traffic, whose correctness is a
property of whole runs rather than of one function. Each part of the program that works by changing state
is a class or a method with loops; what its documentation and tests promise is proved of every run.

| file | what it models |
|---|---|
| `RoutePlan.dfy` | which prefixes a selective route plan accepts |
| `RouteJournal.dfy` | the write-ahead route journal, the route table, and every way a call can fail |
| `RouteRecovery.dfy` | startup recovery and its convergence under crashes |
| `RouteTransaction.dfy` | installation and rollback of a route plan; histories of crashing processes |
| `FecCodec.dfy` | shard framing, encoding and reconstruction around an abstract erasure code |
| `CompletedRing.dfy` | the head-indexed memory of completed groups, as a bounded queue with amortised cost |
| `LawfulCodes.dfy` | two erasure codes that keep the law asked of them |
| `FecReceiver.dfy`, `FecSender.dfy`, `FecTransfer.dfy` | both ends of forward error correction, and the two together |
| `DedupWindow.dfy` | the packet-number window, against an ideal that remembers everything |
| `TokenBucket.dfy` | token buckets under any clock |
| `PathSession.dfy`, `HelloLedger.dfy`, `Relay.dfy` | the relay's router: ownership of sources, return paths, cookies, hellos |
| `RelayLog.dfy`, `RelayRun.dfy`, `HelloReturn.dfy` | what a log of the router's answers tells, over every run; and a run in which a hello returns |
| `BufferPool.dfy`, `Registry.dfy` | the captured-UDP registry and its buffers |
| `RegistryLog.dfy`, `RegistryRun.dfy` | what a log of the registry's answers tells, over every run |
| `FlowPool.dfy` | the relay's pool of UDP flows |
| `NamedPipe.dfy`, `NamedPipeRun.dfy` | the helper's request protocol |
| `Checksum.dfy`, `Packets.dfy` | Internet checksums, packet building and extraction |
| `BigEndian.dfy`, `Tunnel.dfy`, `SizeBound.dfy` | big-endian numbers, tunnel datagrams and the size of everything on the wire |

## How to read it

Environment. Operating-system calls, the clock, random numbers and cryptography are parameters or
nondeterministic choices. The erasure code is a pair of function values with one law, `FecCodec.Lawful`:
any k shards of a codeword determine it; `LawfulCodes` shows that the law can be met for any number of data
and of parity shards. Path tags are a function value. Times are integers in nanoseconds, except that token
buckets use real seconds.

Crashes. `RouteJournal.Operator` appends every change of the durable journal or of the route table to
`trace`, so an invariant of every element of `trace` holds wherever the process can be killed. A failed save
may or may not have reached the disk, and letting go of the machine lock may turn what was saved into an
error. The switches `quiet` (nobody else writes), `faultFree` (no call fails) and `honestDelete` (a delete that
reports an error removed nothing) are assumptions that single clauses name; safety needs none of them. `collided` tells whether a random transaction identifier was in the journal
already, which would make the journal unreadable.

Watching. Several classes carry a ghost constant that names one group, cookie or hello, chosen arbitrarily at
construction, and ghost fields that record what happened to it. What is proved of the watched one holds of
every one, because the program never reads the ghost fields.

Interleavings. A step that runs under a mutex is one method; a step that lets go of the mutex in between is
two. The `Run` methods take an arbitrary sequence of events, so their contracts speak of every interleaving.
They return an answer for each event, and their contracts say what the answers have to do with each other.

Meanings. A function that both a body and its contract use has a statement of its own that does without it: a
lemma called `SomethingMeans`, or the literal numbers, bytes and quantifiers in a contract. The logs of the `Run` methods
are read in the same way, without the functions that the code computes with.

Where the code falls short of a simpler claim, the model keeps the code and states the exact condition:

- A payload that is too large is added to its FEC group before it is refused; the group can then not be
  encoded, and the payload that fills it is refused as well although it fits: exactly when an earlier payload
  of the group was too large (`FecSenders.FecSender.Send`). `FecSenders.Spoil` shows it happen, and
  `FecSenders.FecSender.NothingRepaired` that no repair packet of such a group ever goes out.
- A path cookie is accepted twice exactly when its first use is not after the instant it was issued
  (`PathSessions.ReplayWindow`, `PathSessions.UseTwice`).
- A hello that has opened a session and is still alive opens another one, if the clock only goes forward, if
  and only if its own tombstone was evicted from a full table since, the relay is open, and the source it comes
  from is usable and nobody's (`Relays.Router.ReopensIfExposed`). A tombstone is evicted only if 4096 sessions
  with different ids closed within a tombstone's lifetime, so without that no hello opens two sessions in any run
  (`RelayLogs.CalmOpensOnce`, `RelayRuns.Run`); with it one can, as `HelloReturns.Run` shows from a new router on.
- A destination that contains a relay's address is planned if and only if the address has an IPv6 zone
  and carries no IPv4 address
  (`RoutePlan.ZonedRelayPasses`).
- An IPv6 zone survives neither the tunnel format nor an IP packet (`Tunnels.RoundTrip`, `Packets.Build`).
- An installed plan needs free destinations in the journal, also those of adapters that are still there: with
  nothing failing, installation succeeds exactly then and when no differing row is in the way
  (`RouteTransactions.Install`).

## Model

| member | source | states |
|---|---|---|
| `RoutePlan.PlanSelectiveRoutes` | internal/tun/routes.go:119-143 | a plan is returned if and only if every destination is acceptable: a prefix of either family and of a length between 1 and 32 or 128, whose bits no excluded relay address begins with, unless that address has a zone; it has no duplicates and no bit set beyond a prefix's length, and covers exactly the addresses of the destinations; otherwise the error fits the first offender |
| `RoutePlan.CoverageIsKept` | internal/tun/routes.go:119-143 | masking and deduplication change no address's coverage |
| `RoutePlan.MaskedIsIdempotent` | internal/tun/routes.go:119-143 | masking clears exactly the bits beyond the length, keeps the addresses covered, and doing it twice is doing it once |
| `RoutePlan.MappedMeans` | internal/tun/routes.go:130-135 | an address is taken for an IPv4 one exactly when it has eighty zeros, sixteen ones and then 32 bits |
| `RoutePlan.ClashMeans` | internal/tun/routes.go:130-135 | a relay is in a prefix exactly when its address, unmapped, is of the family and begins with the prefix's bits, and has no zone left |
| `RoutePlan.ZonedRelayPasses` | internal/tun/routes.go:130-135 | a destination that contains a relay's address is accepted if and only if that address has a zone, which unmapping does not drop |
| `RouteJournal.StateChangeKeepsSafety` | internal/tun/routes_windows_journal.go:172-216 | moving an entry to another state keeps every owned route accounted for and one entry per destination |
| `RouteJournal.AppendingKeepsSafety` | internal/tun/routes_windows_journal.go:121-170 | appending an entry with a free destination keeps both |
| `RouteJournal.AddingKeepsSafety` | internal/tun/routes_windows.go:109-122 | creating a route is safe once the journal accounts for it |
| `RouteJournal.DroppingKeepsSafety` | internal/tun/routes_windows_journal.go:398-420 | dropping an entry is safe once its route is not owned |
| `RouteJournal.Operator.Load` | internal/tun/routes_windows_journal.go:735-758 | accepts exactly a blank journal or one of this version with distinct transaction ids |
| `RouteJournal.Operator.Prepare` | internal/tun/routes_windows_journal.go:121-170 | writes one pending entry ahead of the route, under the lock; with nothing failing it succeeds exactly when the destination is free in the journal; every state passed through is safe |
| `RouteJournal.Operator.Record` | internal/tun/routes_windows_journal.go:172-216 | turns exactly the intended entry active, or removes the route again and says so; an entry that is not pending is left alone, and so is the route; safe throughout; a failed unlock is an error although the entry was saved |
| `RouteJournal.Operator.RollbackFailedRecord` | internal/tun/routes_windows_journal.go:218-267 | reports a rollback only when the route is no longer owned; the entry goes only then |
| `RouteJournal.Operator.PrepareDeletion` | internal/tun/routes_windows_journal.go:269-310 | turns exactly the adapter's active or deleting entry to deleting before the route is touched |
| `RouteJournal.Operator.Release` | internal/tun/routes_windows_journal.go:398-420 | removes exactly the entries the transition names, and keeps the rest in order; a failed unlock is an error although that was saved |
| `RouteJournal.Operator.TakeTransition` | internal/tun/routes_windows_journal.go:514-522 | hands over the transition of a prefix once |
| `RouteJournal.Operator.Read` | internal/tun/routes_windows.go:93-107 | reports presence and match of the row, whatever others did before |
| `RouteJournal.Operator.Add` | internal/tun/routes_windows.go:109-122 | creates the row only where none was, and owns it only under a journal entry |
| `RouteJournal.Operator.Delete` | internal/tun/routes_windows.go:124-145 | success means the route is not owned any more; on a quiet machine the only row that can go is the matching one, although the platform call takes whatever row has the key |
| `RouteRecovery.RetainedIsFilter` | internal/tun/routes_windows_journal.go:422-512 | what recovery keeps is exactly the entries that are not its to remove |
| `RouteRecovery.SignedMeansSigned` | internal/tun/routes_windows_journal.go:362-396 | the signature of an entry, field by field and digit by digit |
| `RouteRecovery.LeavingMeans` | internal/tun/routes_windows_journal.go:422-512 | which entries recovery removes and which it understands, and when an entry's row is in the table: index, metric 1 and protocol 3 |
| `RouteRecovery.SettledIsRecovered` | internal/tun/routes_windows_journal.go:422-512 | where recovery leads, entry by entry and row by row: an entry of another adapter that is there, or of which that is not known, of this adapter under another index, or not understood, stays as it is; an entry of this adapter or of one that is gone leaves the journal and its route the table; every other row stays |
| `RouteRecovery.RestatingKeepsSettled` | internal/tun/routes_windows_journal.go:422-512 | staging an entry's state does not change where recovery leads |
| `RouteRecovery.ForgettingKeepsSettled` | internal/tun/routes_windows_journal.go:422-512 | dropping an entry whose route is gone does not either |
| `RouteRecovery.RemovingKeepsSettled` | internal/tun/routes_windows_journal.go:422-512 | nor does removing the route of a removable entry |
| `RouteRecovery.ReconcileEntry` | internal/tun/routes_windows_journal.go:422-512 | one entry of the loop keeps safety and the settled state through every failure; without failures the entry goes |
| `RouteRecovery.Reconcile` | internal/tun/routes_windows_journal.go:422-512 | on a quiet machine every state it passes through settles to the same journal and table; without failures it reaches what `SettledIsRecovered` describes, which is stated again literally, and succeeds exactly when there is nothing to say against any entry |
| `RouteRecovery.RecoverAfterCrashes` | internal/tun/routes_windows_journal.go:422-512 | after any number of attempts that fail anywhere and are killed anywhere, one undisturbed recovery reaches what it would have reached at once, stated literally |
| `RouteTransactions.InstallOne` | internal/tun/routes.go:145-200 | table, journal and list of installed routes move together; with nothing failing it succeeds if and only if the route is there already, or its key is free and so is its destination in the journal |
| `RouteTransactions.CreateOne` | internal/tun/routes.go:145-200 | the created route is listed, and unlisted only when its failed record was rolled back; with nothing failing it is created and its entry active |
| `RouteTransactions.RollbackOne` | internal/tun/routes.go:214-287 | a route that need not be kept is gone; a kept one is reported as a failure and, if deletes are honest, untouched; with nothing failing route and entry go |
| `RouteTransactions.RollbackAll` | internal/tun/routes.go:214-287 | only rows of installed routes disappear; with honest deletes the routes left are exactly those not removed, in original order; with nothing failing the journal is what it was before the installation |
| `RouteTransactions.ReverseSlice` | internal/tun/routes.go:214-287 | restores the original order of what a backward loop collected |
| `RouteTransactions.RouteTransaction.Rollback` | internal/tun/routes.go:202-287 | a failed close keeps exactly the unremoved routes for retry; success gives up the operator; with nothing failing it succeeds, and the journal is what it was before the installation |
| `RouteTransactions.Install` | internal/tun/routes.go:145-200 | all or nothing: success created exactly the planned routes whose key was free and every planned prefix matches; failure with a clean rollback restores the table; with nothing failing it succeeds if and only if every planned route is there already or free in table and journal, then the journal has one active entry more for each route created, and otherwise table and journal are as before |
| `RouteTransactions.MissingMeans` | internal/tun/routes.go:145-200 | the routes an installation creates are the planned ones whose key has no row, each once |
| `RouteTransactions.InstalledMeans` | internal/tun/routes.go:145-200 | the table afterwards, row by row: all that was there, and a row with the adapter's index, metric 1 and protocol 3 for each planned route |
| `RouteTransactions.InstallableMeans` | internal/tun/routes.go:145-200 | what can be installed, row by row and entry by entry |
| `RouteTransactions.StepClaims` | internal/tun/routes.go:145-200 | one planned route more: the journal is what it was and one entry for each route created, and the route can be installed exactly when it could have been at the start |
| `RouteTransactions.CloseAll` | internal/tun/routes.go:202-287 | with nothing failing, closing returns table and journal to what they were before the installation |
| `RouteTransactions.RunProcess` | internal/tun/routes.go:86-114 | recover, install, close: every state passed through is safe; with nothing failing it ends with the whole plan in place exactly when it understood every entry, could install the plan and did not close, and otherwise with what recovery leaves |
| `RouteTransactions.CrashHistories` | internal/tun/routes.go:86-287 | any number of processes, each starting in the state its predecessor was killed in: every state any of them reaches is safe (each route whose creation committed and that still exists unchanged has a journal entry, no destination has two) and answers for the routes of the state before; a process that nothing disturbs ends where it should whatever its predecessors left |
| `FecCodec.FrameRoundTrip` | internal/tgp/fec.go:416-439 | a framed payload decodes to itself whatever padding the shard carries |
| `FecCodec.FrameMeans` | internal/tgp/fec.go:416-427 | a frame is the length with its high byte first, the payload and zeros; there is one exactly when the payload fits the shard and the shard a datagram |
| `FecCodec.DecodeMeans` | internal/tgp/fec.go:429-439 | a shard decodes exactly to the bytes behind its length |
| `FecCodec.PaddingIsFraming` | internal/tgp/fec.go:416-456 | zero-padding a short data shard to the parity size gives back the encoded shard |
| `FecCodec.ShardSizeBounds` | internal/tgp/fec.go:43-56 | the shard size is the largest framed payload, never below the prefix |
| `FecCodec.Encode` | internal/tgp/fec.go:35-78 | succeeds exactly on encodable groups, with the group's codeword |
| `FecCodec.WordMeans` | internal/tgp/fec.go:35-78 | which groups can be encoded, and the data shards of their codewords: the payloads in order, then empty ones |
| `FecCodec.Reconstruct` | internal/tgp/fec.go:80-109 | pads what is there to the longest shard, fills only what was missing, and says exactly when it can |
| `FecCodec.ReconstructionRecovers` | internal/tgp/fec.go:80-109 | any k arrived shards, one of full size, rebuild the codeword although data shards arrive unpadded |
| `LawfulCodes.BalanceIsLawful` | internal/tgp/fec.go:35-109 | the law asked of the code can be met for any k: one parity shard that balances every column |
| `LawfulCodes.RepetitionIsLawful` | internal/tgp/fec.go:35-109 | and for any m: repeating the one data shard |
| `CompletedRings.UnexpiredIsFilter` | internal/tgp/fec.go:334-349 | the queue after a purge holds exactly the unexpired groups |
| `CompletedRings.CompletedRing.Pop` | internal/tgp/fec.go:362-384 | drops the oldest group from array and map together, a compaction paid for by earlier pops |
| `CompletedRings.CompletedRing.Purge` | internal/tgp/fec.go:342-349 | forgets only expired groups, and all of them when times are in order |
| `CompletedRings.CompletedRing.Remember` | internal/tgp/fec.go:351-360 | appends to the bounded queue, displacing the oldest only when it is full |
| `CompletedRings.Replay` | internal/tgp/fec.go:334-384 | over every run with a forward clock, array and map hold exactly the ideal bounded queue, at most one operation a purge and two a completion |
| `FecReceivers.RepairRecovers` | internal/tgp/fec.go:259-288 | an honest quorum with a repair shard reconstructs the codeword, each shard of which decodes to the payload sent |
| `FecReceivers.Rebuild` | internal/tgp/fec.go:263-288 | hands out exactly the missing indices with the payloads sent there |
| `FecReceivers.DeliverMissing` | internal/tgp/fec.go:272-281 | decodes the rebuilt shards in order, marking exactly those delivered |
| `FecReceivers.Absorb` | internal/tgp/fec.go:238-288 | a data shard is handed out at once, a repair shard completes a full group that has its quorum; each index handed out is new, and a full group that is not finished holds exactly the shards that arrived |
| `FecReceivers.Released` | internal/tgp/fec.go:386-394 | the byte counter falls by the shards' size, clamped at zero |
| `FecReceivers.Join` | internal/tgp/fec.go:221-288 | a packet joins its group: a shard of the sender is refused only for another parity setting, for lack of room for its group, or for lack of room for its bytes, and then all other groups there can be are live; other groups are untouched |
| `FecReceivers.BytesNeedGroups` | internal/tgp/fec.go:235-237 | the byte limit can bite only when 64 groups are live, although reconstruction makes shards longer without counting it |
| `FecReceivers.SenderIsWellFormed` | internal/tgp/fec.go:190-214 | a packet of the sender passes every check made of a single packet |
| `FecReceivers.MalformedMeans` | internal/tgp/fec.go:198-214 | which packets fail a check made of a single packet |
| `FecReceivers.ArrivalsCount` | internal/tgp/fec.go:259-262 | the shards counted for the quorum are at least the distinct ones accepted |
| `FecReceivers.FecReceiver.PurgeExpired` | internal/tgp/fec.go:334-349 | drops exactly the expired groups |
| `FecReceivers.FecReceiver.AddPacket` | internal/tgp/fec.go:190-288 | for any group: every payload handed out is the one sent at that index, no index twice while the group is live or remembered; an accepted data shard has been handed out, and an accepted new repair shard that gives a full group its quorum has completed it; a shard of the sender is refused only for another parity setting or for lack of room, for bytes only beside 63 other live groups; the group is forgotten only when expired or displaced from a full ring, which with a forward clock is full of groups finished within the last lifetime |
| `FecSenders.RepairsAreSent` | internal/tgp/session.go:341-389 | padding and parity packets are packets of the sealed group |
| `FecSenders.FecSender.Enqueue` | internal/tgp/session.go:272-297 | the payload joins the stream's group, or a newly numbered one, before anything can fail |
| `FecSenders.FecSender.SealGroup` | internal/tgp/session.go:302-313 | a group is encoded exactly when all its payloads fit; then one repair packet goes out for each padding and parity shard: the j-th has index payloads + j, total k + parity and that shard of the codeword; and the group is closed for good |
| `FecSenders.FecSender.Send` | internal/tgp/session.go:272-314 | a payload is accepted exactly when it fits and, if it fills its group, all others do; its own packet is its length and itself, and when it fills the group exactly the parity packets follow, indices k to k + parity - 1; every packet ever emitted for a group belongs to the group as finally sealed |
| `FecSenders.FecSender.Flush` | internal/tgp/session.go:341-389 | the timer seals exactly the groups that have waited long enough, and for each sends exactly one packet for every padding and parity index |
| `FecSenders.SendingKeepsNumbered` | internal/tgp/session.go:272-314 | while nothing of a group is refused, the packets emitted for it have the indices 0, 1, 2 and so on, each once, one for every payload |
| `FecSenders.SealingKeepsNumbered` | internal/tgp/session.go:302-389 | and once it is sealed, one for every index below k + parity |
| `FecSenders.FecSender.TakesMeans` | internal/tgp/session.go:272-314 | which payloads are accepted, in terms of what the group holds |
| `FecSenders.FecSender.DueMeansWaited` | internal/tgp/session.go:341-356 | which groups are due, in terms of the clock |
| `FecSenders.Spoil` | internal/tgp/session.go:272-314 | one oversized payload is refused, yet the payload that fills its group is refused too although it fits, and no repair packet of the group goes out |
| `FecSenders.FecSender.NothingRepaired` | internal/tgp/session.go:272-389 | a group that took in an oversized payload never gets a repair packet |
| `FecSenders.OversizedStays` | internal/tgp/session.go:272-297 | and never loses that payload again |
| `FecTransfers.Transfer` | internal/tgp/session.go:242-435 | end to end, for any loss, reordering, duplication, delay and mixing with other packets, one answer for each arrival: every payload handed out for a group is the one sent at that index (empty for padding), once each for as long as the receiver remembers the group; an accepted data shard has been handed out, a new repair shard that gives a full group its quorum has completed it; the group is forgotten and a shard refused only for a reason to be found in the arrivals: a lifetime has passed, 4096 groups came within a lifetime, or as many others as there is room for |
| `FecTransfers.NothingLost` | internal/tgp/fec.go:190-360 | in a run of any length with a forward clock, one parity setting for the group and no more than a lifetime since its first packet: nothing of the group is forgotten or refused as long as fewer than 4096 groups, and at its own packets fewer others than the room (at most 62 others), had packets within the last lifetime |
| `FecTransfers.QuorumDelivers` | internal/tgp/fec.go:190-288 | and then any k shards of a full group, the last of them a repair shard, get every payload of the group out exactly once, whatever else the run holds and whatever comes after |
| `DedupWindows.DedupWindow.SeenFirst` | internal/tgp/session.go:676-705 | true exactly when the number was never accepted and lies above highest less window |
| `DedupWindows.WindowSize` | internal/tgp/session.go:659-705 | what fits the window is no more than the window |
| `DedupWindows.Run` | internal/tgp/session.go:659-705 | over every call sequence the answers are the ideal's and the stored set never outgrows the window |
| `TokenBuckets.CoversMeansAffords` | internal/capturedudp/registry.go:302-311 | in any state a run can reach, a request is granted exactly when it and what was granted since the start, and since any earlier reading, is at most burst plus rate times the time since |
| `TokenBuckets.ServingIsExact` | internal/capturedudp/registry.go:302-311 | the tokens are the least of what burst and rate leave since each earlier reading |
| `TokenBuckets.ReplayIsFair` | internal/capturedudp/registry.go:298-311 | the same of a bucket that was full at the start and has answered any calls |
| `TokenBuckets.Serve` | internal/capturedudp/registry.go:298-311 | over every run, with readings in any order, a request is granted if and only if burst and rate leave room for it since the start and since every reading before; so what is granted is at most burst plus rate times the time to the latest reading |
| `PathSessions.DropStale` | internal/tgp/relay.go:752-762 | keeps exactly the active path and those last seen less than 45 seconds ago |
| `PathSessions.OldestInactive` | internal/tgp/relay.go:764-786 | the least recently seen path other than the active one, if there is one |
| `PathSessions.SwitchPath` | internal/tgp/relay.go:711-728 | which paths remain after a switch, the previously active one among them, at most eight, and which one makes way: none while there is room, else the least recently seen but the active one |
| `PathSessions.IssuedCookiePasses` | internal/tgp/path_control.go:70-89 | a cookie passes from a second before the second it was issued in until five seconds after it, for its session, source and nonce |
| `PathSessions.ConsumingKeepsUses` | internal/tgp/relay.go:707-724 | purging and consuming keep the account of a cookie's uses |
| `PathSessions.AtMostOnce` | internal/tgp/relay.go:677-729 | a cookie first used after its issue instant is used once, and none more than twice |
| `PathSessions.ReplayWindow` | internal/tgp/path_control.go:78-89 | a second use is possible exactly when the first is not after the issue instant |
| `PathSessions.UseTwice` | internal/tgp/relay.go:677-729 | a used cookie is accepted again exactly in that window |
| `PathSessions.Session.ConsumeToken` | internal/tgp/relay.go:731-742 | a challenge is granted exactly when burst eight and rate two a second leave room for it, whatever the clock did |
| `PathSessions.Session.Respond` | internal/tgp/relay.go:707-728 | accepts exactly a cookie that is not remembered while there is room, and then the source is active |
| `PathSessions.Session.CanUseMeans` | internal/tgp/relay.go:707-724 | which cookies can be used: those not noted within their lifetime, while fewer than 64 are |
| `PathSessions.Session.CookiesAreUsedOnce` | internal/tgp/relay.go:677-729 | the account of any session in any run |
| `HelloLedgers.AddTombstone` | internal/tgp/relay.go:565-587 | at most 4096 tombstones; only a full table evicts, and only the first to expire |
| `HelloLedgers.ClosingKeepsLedger` | internal/tgp/relay.go:541-554 | a closed session's id is blocked for longer than the hello that opened it can live, unless its tombstone is evicted |
| `HelloLedgers.BlockedUnlessExposed` | internal/tgp/relay.go:498-587 | a live hello that has opened a session is blocked if and only if its tombstone was not evicted or the relay is closed |
| `HelloLedgers.OpeningKeepsLedger` | internal/tgp/relay.go:165-231 | a fresh, unblocked hello cannot be one that already opened a session, unless its tombstone was evicted |
| `HelloLedgers.ReplayingKeepsLedger` | internal/tgp/relay.go:458-478 | repeated acknowledgements stay within their limit |
| `Relays.Router.Register` | internal/tgp/relay.go:498-539 | registers exactly when open, unblocked, unused and the source is free |
| `Relays.Router.Unregister` | internal/tgp/relay.go:541-554 | frees the session's sources and blocks its id if it was registered, says whose tombstone made way, and else changes nothing |
| `Relays.Router.Accept` | internal/tgp/relay.go:165-231 | opens a session exactly for a fresh, authentic, admitted hello that nothing blocks, keeps it exactly when the acknowledgement goes out, and counts it; says exactly what becomes of sessions, tombstones and ledger, also when the acknowledgement fails, and a tombstone makes way only then and only from a full table |
| `Relays.Router.ReplayAck` | internal/tgp/relay.go:458-478 | repeats an acknowledgement exactly for the same hello from the same peer, unexpired and at most three times |
| `Relays.Router.Challenge` | internal/tgp/relay.go:626-675 | exactly when a challenge goes out, with a cookie bound to session, source and nonce |
| `Relays.Router.FinishResponse` | internal/tgp/relay.go:697-728 | the active source changes exactly for a registered session, an available source and a usable verified cookie; the previous active path survives |
| `Relays.Router.Authorize` | internal/tgp/relay.go:857-867 | true exactly for the active source and for paths of the session last seen less than 45 seconds ago, and the source table stays in step |
| `Relays.Router.Observe` | internal/tgp/relay.go:869-882 | traffic from a path of the session moves that path's last-seen time to now and changes nothing else |
| `Relays.Router.Route` | internal/tgp/relay.go:589-608 | data goes to the one session that owns its source |
| `Relays.Router.Close` | internal/tgp/relay.go:788-805 | empties the router for good |
| `Relays.Router.ReopensIfExposed` | internal/tgp/relay.go:498-587 | with a forward clock a live hello that has opened a session opens another one if and only if its tombstone was evicted, the relay is open and its source free |
| `RelayRuns.Step` | internal/tgp/relay.go:414-441 | any event is granted exactly when it should be, keeps the source table the disjoint union of the registered sessions' paths, moves a return path only to a source that proved itself, and changes the tables as its answer says: a tombstone makes way only when a session leaves, from a full table, and is the first to expire |
| `RelayLogs.BookingKeepsBooked` | internal/tgp/relay.go:498-587 | the ledger of a hello is what the log says |
| `RelayLogs.EvictionBetween` | internal/tgp/relay.go:565-587 | between two sessions of one hello lies an eviction of its tombstone |
| `RelayLogs.AlteringKeepsMirrored` | internal/tgp/relay.go:498-587 | registered ids and tombstones are what the log says, and so every answer to a greeting is right |
| `RelayLogs.TombsAreRecent` | internal/tgp/relay.go:541-587 | a tombstone that has not expired is of a session that closed within its lifetime |
| `RelayLogs.EvictionNeedsClosings` | internal/tgp/relay.go:565-587 | a tombstone is evicted only if sessions of 4096 different ids closed within a tombstone's lifetime |
| `RelayLogs.CalmOpensOnce` | internal/tgp/relay.go:165-231 | with a forward clock and at most 4096 closings within any tombstone's lifetime, no hello opens two sessions |
| `RelayLogs.PathsAreSeen` | internal/tgp/relay.go:707-882 | the paths of a session, and when each was last seen, are what the log says |
| `RelayLogs.RightIsPermitted` | internal/tgp/relay.go:707-882 | an answer about a session is the one its log calls for |
| `RelayLogs.CallsCount` | internal/tgp/relay.go:731-742 | the challenges charged to a session are those the log shows granted |
| `RelayRuns.Run` | internal/tgp/relay.go:414-892 | every run, one answer for each event: a hello gets at most four acknowledgements for each session it opens; with a forward clock it opens another one only after its tombstone was evicted, and at most one in all while no more than 4096 sessions close within a tombstone's lifetime; the log shows an eviction only after 4096 different ids closed in that time; a greeting is granted only if neither the ids, the tombstones nor the closing of the relay are against it, and refused otherwise only if its source was brought in before; replies go to the source of the greeting or of the last response accepted, which proved itself; a cookie is accepted in time only, and as often as stated above; a request that gets as far as the rate is granted exactly when burst eight and two a second leave room for it; a check is granted exactly for the active source and for those that the greeting or a response brought in, last seen less than 45 seconds before, at every check and response since as well, and not displaced |
| `HelloReturns.FullTable` | internal/tgp/relay.go:565-579 | a full table lets a hello that has opened one session open a second |
| `HelloReturns.Run` | internal/tgp/relay.go:165-587 | from a new router on: a hello opens a session that closes, 4096 others open and close, and the hello opens a second session |
| `BufferPools.ReleasingKeepsCounts` | internal/capturedudp/registry.go:1015-1028 | releasing an unreleased lease cannot underflow a counter |
| `BufferPools.ReservingKeepsCounts` | internal/capturedudp/registry.go:990-1013 | a new lease keeps every counter the sum over unreleased leases |
| `BufferPools.TotalWithout` | internal/capturedudp/registry.go:990-1028 | the byte total is the same whichever lease is taken out first |
| `BufferPools.Pool.Reserve` | internal/capturedudp/registry.go:990-1013 | refuses exactly what would exceed a cap; all counters equal the sums over unreleased leases and stay within their caps |
| `BufferPools.Pool.RefusalMeans` | internal/capturedudp/registry.go:990-1013 | refused exactly for a wrong size, when the bytes out and 64 or more for this one exceed the limit, with 6553 buffers out in all, or with 4096 in its direction |
| `BufferPools.Pool.Release` | internal/capturedudp/registry.go:580-620 | the first release counts, a second changes nothing, the underflow panic is unreachable |
| `Registries.Expire` | internal/capturedudp/registry.go:1042-1055 | drops exactly the idle flows and counts them |
| `RegistryLogs.FollowingKeepsSequences` | internal/capturedudp/registry.go:811-864 | the sequence number kept for a flow is the one last accepted on it |
| `Registries.Registry.ConsumeData` | internal/capturedudp/registry.go:973-988 | charges both buckets or neither, exactly when both cover the cost (`AdmissionMeans` says when that is), and moves both to the latest clock reading |
| `Registries.Registry.ConsumeControl` | internal/capturedudp/registry.go:962-971 | charges one token exactly when it is there (`AdmissionMeans` says when that is), and moves the bucket to the latest clock reading |
| `Registries.Registry.AdmissionMeans` | internal/capturedudp/registry.go:917-988 | let through is exactly the current controller of an open registry, when burst and rate leave room since its authentication and since every reading before; refused for its rate exactly when they do not |
| `Registries.RateBound` | internal/capturedudp/registry.go:291-311 | packets, bytes and operations charged to a controller never exceed burst plus rate times the time from its authentication to the latest clock reading; every operation below says what it charges |
| `Registries.Registry.Attach` | internal/capturedudp/registry.go:403-434 | issues a token exactly for a new verified attachment of this registry when none is attached |
| `Registries.Registry.Detach` | internal/capturedudp/registry.go:436-461 | takes controller, generation and flows with it |
| `Registries.Registry.Authenticate` | internal/capturedudp/registry.go:465-504 | spends the token once, on the only controller, with full buckets |
| `Registries.Registry.Disconnect` | internal/capturedudp/registry.go:927-941 | only the current controller on its own attachment can |
| `Registries.Registry.Revoke` | internal/capturedudp/registry.go:949-960 | leaves no generation, no transaction and no flow, all flows counted as evicted |
| `Registries.Registry.Close` | internal/capturedudp/registry.go:650-666 | leaves nothing alive |
| `Registries.Registry.Prepare` | internal/capturedudp/registry.go:668-695 | exactly when a generation can be prepared; it is later than every committed one; the current controller pays one control token, nobody else anything |
| `Registries.Registry.Commit` | internal/capturedudp/registry.go:697-716 | commits exactly the prepared transaction; it becomes the last and the active one, flows of the one before are gone; the current controller pays one control token, nobody else anything |
| `Registries.Registry.Abort` | internal/capturedudp/registry.go:718-734 | drops exactly the prepared transaction; the current controller pays one control token, nobody else anything |
| `Registries.Registry.Disable` | internal/capturedudp/registry.go:736-754 | exactly for the active generation, with its flows; the current controller pays one control token, nobody else anything |
| `Registries.Registry.OpenFlow` | internal/capturedudp/registry.go:756-790 | exactly when a valid flow of the active generation fits; the current controller pays one control token, nobody else anything |
| `Registries.SpecMeans` | internal/capturedudp/registry.go:1079-1103 | which flows are valid, address byte by byte |
| `Registries.Registry.CloseFlow` | internal/capturedudp/registry.go:792-809 | exactly the lease that is named; the current controller pays one control token, nobody else anything |
| `Registries.Registry.FindFlow` | internal/capturedudp/registry.go:824-831 | a live flow of the active generation, or an idle one expired on the spot |
| `Registries.Registry.FlowMeans` | internal/capturedudp/registry.go:811-915 | what a datagram needs of its flow: name, nonce, active generation, activity within the lifetime, room in the budget; a later number outbound, the flow's own endpoints inbound |
| `Registries.Registry.AcceptDatagram` | internal/capturedudp/registry.go:811-864 | exactly when a datagram is accepted: on a live lease, within budget, later than all before, with a buffer; a packet and its bytes are charged to both buckets or neither, and to nobody but the current controller |
| `Registries.Registry.ResolveReply` | internal/capturedudp/registry.go:866-915 | exactly when a reply is delivered: on a live lease between its endpoints, within budget, with a buffer; a packet and its bytes are charged to both buckets or neither, and to nobody but the current controller |
| `RegistryLogs.MovingKeepsConsistent` | internal/capturedudp/registry.go:668-864 | a granted flow or datagram is of the generation committed last, and a datagram later than the one accepted on its flow before |
| `RegistryLogs.GrantedIsPaid` | internal/capturedudp/registry.go:962-988 | what was granted since the last login has been charged since then, by clock readings no later than the latest |
| `RegistryLogs.PayableMeans` | internal/capturedudp/registry.go:962-988 | the buckets pay exactly for what the log leaves room for |
| `RegistryLogs.SpendingIsLimited` | internal/capturedudp/registry.go:291-311 | so what was granted since the last login is within burst and rate |
| `RegistryRuns.History.Apply` | internal/capturedudp/registry.go:313-1061 | any event is granted exactly when it should be, charges exactly what it should, and moves the state, the controller among it, as its answer says |
| `RegistryRuns.Run` | internal/capturedudp/registry.go:313-1061 | every run, one answer for each event: only the controller that logged in last is served, and nobody logs in beside it; at every moment the datagrams, bytes and control operations granted since that login are each at most burst plus rate times the time to the latest clock reading; the current controller is refused for its rate exactly when burst and rate, since the login or some reading since, leave no room; generations committed increase across all controllers; flows and datagrams are granted only under the generation committed last; sequence numbers granted on a flow increase; flows opened are open, closed, evicted or expired; a release is granted exactly for a buffer handed out, a transport exactly until the stop; buffer counters are the sums over exactly the buffers granted and not released, within their caps |
| `FlowPools.AddingKeepsCounts` | internal/app/server_handler.go:360-367 | counting up keeps the map exact |
| `FlowPools.DialTakesPlace` | internal/app/server_handler.go:386-395 | there is a place for a dial exactly when both limits hold with it |
| `FlowPools.RemovingKeepsCounts` | internal/app/server_handler.go:375-384 | counting down, and deleting at one, keeps the map exact and free of zeros |
| `FlowPools.DialLeavesPlace` | internal/app/server_handler.go:375-404 | a reservation given back leaves a place for a flow of its session |
| `FlowPools.FlowPool.Lookup` | internal/app/server_handler.go:297-312 | the answer, and a reservation exactly when the real flows and dials leave room |
| `FlowPools.FlowPool.ReleaseReserved` | internal/app/server_handler.go:369-384 | gives one reservation back |
| `FlowPools.FlowPool.Commit` | internal/app/server_handler.go:335-358 | a granted reservation is never refused by the second check; no flow goes in after close or over another |
| `FlowPools.FlowPool.Remove` | internal/app/server_handler.go:406-417 | removes only the flow registered under the key |
| `FlowPools.FlowPool.Close` | internal/app/server_handler.go:419-436 | leaves no flow |
| `FlowPools.Step` | internal/app/server_handler.go:297-436 | any step answers as the ideal pool does and leads where it leads |
| `FlowPools.LimitsHold` | internal/app/server_handler.go:297-436 | the ideal pool, which has no counters and checks its limits before the dial only, keeps both limits on every run |
| `FlowPools.Run` | internal/app/server_handler.go:297-436 | every interleaving of lookups, dials, failures, flow ends and close: answers, flows and dials are the ideal pool's |
| `NamedPipes.ServeKeepsConn` | internal/capturedudp/namedpipe_server.go:278-355 | the server's next request is later than the last it saw |
| `NamedPipes.WriteKeepsConns` | internal/capturedudp/namedpipe_client.go:403-408 | a frame written by the holder of the request lock is later than every frame before it |
| `NamedPipes.FailAll` | internal/capturedudp/namedpipe_client.go:472-485 | every waiting channel gets one error and no other channel anything |
| `NamedPipes.Client.Start` | internal/capturedudp/namedpipe_client.go:370-396 | exactly when a call gets an id and a channel, and the id is a new one |
| `NamedPipes.Client.Write` | internal/capturedudp/namedpipe_client.go:398-413 | the frame goes to the connection the call saw, or the call stops waiting |
| `NamedPipes.Client.Serve` | internal/capturedudp/namedpipe_server.go:278-355 | the ordering check never fires; the answer is to the next request |
| `NamedPipes.Client.Resolve` | internal/capturedudp/namedpipe_client.go:438-448 | the send under the lock never blocks; only a waiting call is answered |
| `NamedPipes.Client.ReadReply` | internal/capturedudp/namedpipe_client.go:325-368 | the next answer goes to the call that waits for it, and is to that call's own frame |
| `NamedPipes.Client.Dial` | internal/capturedudp/namedpipe_client.go:265-300 | a new connection holds exactly the authentication frame, with a new id |
| `NamedPipes.Client.Detach` | internal/capturedudp/namedpipe_client.go:472-485 | exactly the waiting calls get an error, and no call waits any more |
| `NamedPipeRuns.MovingKeepsConsistent` | internal/capturedudp/namedpipe_client.go:325-485 | the calls that wait, and what each was told, are what the log says |
| `NamedPipeRuns.PromptFits` | internal/capturedudp/namedpipe_client.go:325-485 | an outcome that the log calls for fits it: ids are new, a server answers what was sent to it, and a call is told only a server's answer to its own frame |
| `NamedPipeRuns.CallsAreBelow` | internal/capturedudp/namedpipe_client.go:370-396 | no id is given out twice |
| `NamedPipeRuns.WiresFollow` | internal/capturedudp/namedpipe_client.go:265-408 | every frame on a connection was sent by a step of the log, and every answer given by one |
| `NamedPipeRuns.Step` | internal/capturedudp/namedpipe_client.go:178-500 | any step, of a caller, the reader, the reconnect loop or a server, comes to exactly what the client and the connections call for, and moves both as its outcome says |
| `NamedPipeRuns.Run` | internal/capturedudp/namedpipe_client.go:178-500 | every interleaving with fewer than 2^64 requests: every outcome is the one that the log before it calls for, down to which frame a server answers next, which answer the client reads next and when a connection is ready; ids increase over all calls and authentications; a call is told at most one thing, and only while it waits: a server's answer to the very frame it sent, or that the connection was lost, which all calls waiting then are told; servers answer only what was sent |
| `Checksums.AddWords` | internal/app/packet_writeback.go:112-121 | the word sum modulo 2^32 |
| `Checksums.SumAppend` | internal/app/packet_writeback.go:112-121 | sums add up over any split at an even position |
| `Checksums.WordsAreBigEndian` | internal/app/packet_writeback.go:112-121 | a word is its high byte times 256 and its low byte, and an odd last byte the high one of a word a zero completes |
| `Checksums.VerifiesMeansBalanced` | internal/app/packet_writeback.go:112-128 | what verifies is exactly the data that, as one big-endian number with a zero behind it if its length is odd, is a multiple of 65535 other than zero |
| `Checksums.FoldKeepsResidue` | internal/app/packet_writeback.go:123-128 | folding keeps the value modulo 65535, and only zero folds to zero |
| `Checksums.Finish` | internal/app/packet_writeback.go:123-128 | terminates with the complement of the folded sum |
| `Checksums.ComplementVerifies` | internal/app/packet_writeback.go:22-128 | with the complement added everything verifies under RFC 1071, also with all ones sent for zero |
| `Packets.SegmentChecksum` | internal/app/packet_writeback.go:88-106 | exactly what the pseudo header's bytes and the segment, as one big-endian number, lack of a multiple of 65535; the 32-bit sum never overflows |
| `Packets.SealSegment` | internal/app/packet_writeback.go:43-49 | ports, length and payload where RFC 768 puts them, a checksum that is not zero, and pseudo header and segment together a non-zero multiple of 65535 (RFC 768; section 8.1 of RFC 8200) |
| `Packets.SealHeaderV4` | internal/app/packet_writeback.go:31-40 | every field of the header where section 3.1 of RFC 791 puts it, and the header a non-zero multiple of 65535 |
| `Packets.BuildV4` | internal/app/packet_writeback.go:22-50 | exactly when it fits; header and segment as above, byte by byte, and extraction gives back endpoints and payload |
| `Packets.BuildV6` | internal/app/packet_writeback.go:52-79 | the same for IPv6 (section 3 of RFC 8200); zones are dropped |
| `Packets.Build` | internal/app/packet_writeback.go:11-20 | exactly for valid endpoints of one family that fit; the packet byte by byte, its checksums as numbers, and extraction inverts building if and only if no endpoint has a zone |
| `Packets.PayloadFits` | internal/pipeline/packet.go:33-135 | an extracted payload is at least 28 or 48 bytes shorter than its packet |
| `Packets.ExtractedIsCarried` | internal/pipeline/packet.go:33-135 | extraction succeeds exactly on packets that consist of an IP header of any length the version allows, a UDP segment of the length it says, and anything behind it; and gives its endpoints and payload |
| `BigEndian.GetPut` | internal/tgp/tunnel.go:96-114 | numbers that fit their width survive writing and reading |
| `BigEndian.PutGet` | internal/tgp/tunnel.go:134-160 | and bytes survive reading and writing |
| `BigEndian.GetConcat` | internal/tgp/tunnel.go:134-160 | and the first byte is the highest: bytes in front count as much as all behind them can tell apart |
| `Tunnels.Marshal` | internal/tgp/tunnel.go:71-116 | succeeds exactly on writable datagrams, with their wire form |
| `Tunnels.WritableMeans` | internal/tgp/tunnel.go:71-95 | which datagrams can be written: both addresses, and all of an identity or nothing of it |
| `Tunnels.WireLayout` | internal/tgp/tunnel.go:71-116 | where magic, flow, generation, nonce, addresses, ports and payload are on the wire, numbers with the high byte first |
| `Tunnels.RoundTrip` | internal/tgp/tunnel.go:71-191 | parsing inverts marshalling, if and only if no address has a zone |
| `Tunnels.ParseIsCanonical` | internal/tgp/tunnel.go:118-191 | whatever parses is what marshalling it again gives |
| `SizeBounds.TunnelOverhead` | internal/tgp/tunnel.go:71-116 | a packet gains at most 68 bytes to its sealed datagram, an IPv4 one at most 64, and exactly that when it is all payload |
| `SizeBounds.GroupSeals` | internal/tgp/fec.go:43-78 | if a group's payloads fit a datagram, so does every data, padding and parity shard |
| `SizeBounds.EndToEnd` | internal/config/config.go:486-495 | under an accepted configuration and a negotiated limit not below it, every packet within the MTU and every repair shard seals within the limit |
| `SizeBounds.ConfiguredMeans` | internal/config/config.go:486-495 | which MTUs are accepted for a limit: from 576 to the limit less 68, none standing for 1280 |
| `SizeBounds.BudgetIsExact` | internal/tgp/tunnel.go:53-69 | a lease-bound datagram seals within the limit if and only if its payload is within the budget |
| `SizeBounds.BudgetExists` | internal/tgp/tunnel.go:53-69 | limits from 1232 to 1452 are accepted, zero standing for 1352; the budget is the limit less 132 for IPv4 and less 156 for IPv6, at least 1076, and there is none in any other case |
| `SizeBounds.CapturedEndToEnd` | internal/tgp/tunnel.go:53-116 | captured payloads within their budget, and every repair shard of a group of them, seal within the limit |

## Left out

- Windows calls, TUN devices, sockets, the registry and named mutexes themselves: nondeterministic operations with contracts.
- HMAC, ChaCha20-Poly1305, X25519, HKDF and the matrices of Reed-Solomon: function values and flags.
- JSON and the text of a journal's destinations: an entry holds a parsed prefix or text that does not parse; `createdAt` is arbitrary.
- RouteTransactions.Install: asks for a non-zero adapter LUID, which the operator's constructor checks, and a non-zero interface index, which Windows gives; the plan has to be one the planner returns.
- Blocking: waiting for the journal lock while a transition holds it is a failed attempt, so liveness of the lock is not modelled.
- 32-bit group numbers and 64-bit packet, generation and sequence numbers are unbounded; request ids stop before they would wrap.
- RouteJournal.Operator.Record: compares an entry's destination as a parsed prefix where the code compares its text, as do `Release` and `RollbackFailedRecord`; the texts the program writes are canonical, so only a journal edited by hand could tell.
- FEC receive buffer: one clock reading per packet where the code reads the clock up to three times.
- Exact equality of the receive buffer's byte counter with the stored bytes: the code does not keep it after a reconstruction.
- PathSessions.Session.Respond: the cookie is remembered before the paths change and not after, which no step can tell apart because the eviction between them cannot fail.
- Relays.Router.Accept: one step, although the code reads the clock and takes the lock several times; between them a hello could expire or a session close.
- Relays.Router.FinishResponse: the second half of the handling of a path response; the first half, before the mutex is let go of, only makes checks that the second repeats, and a run may take the second half of any response. So is Relays.Router.Challenge of a path request.
- Limits of the captured-UDP registry are taken as normalised; counters other than those of flows, and the health report, are left out.
- Statistics, logging, queues of packets, pacing, the handshake dialler's retries and clock offset, wire formats of handshakes, path control and pipe frames, routing rules, game profiles, access lists, the command line, configuration loading and telemetry: single-branch or straight-line code.
