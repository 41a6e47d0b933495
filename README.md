# Flight ledger and rule evaluator model

A Dafny model of the UAV flight-ledger system's core. Every flight gets its own hash-linked chain of blocks:
- A genesis block opens the chain.
- Telemetry and authentication transactions are queued in a pool.
- The pool is mined in batches by an "enhanced proof of history" sequencer (`EPOH_Core`). The sequencer hashes a running hash `difficulty` times before embedding each transaction, and records one event per transaction.
- A finished flight is archived.
- `verify_log` re-derives every link of a stored chain and reports the first broken link or chronology violation.

Devices authenticate through a simulated AKA-style challenge and response. Each telemetry record is checked by a small set of rules ("smart contracts").

The model covers the three copies of the ledger engine:
- the coordinator's multi-flight `BlockchainManager` (GCS_LeaderNode.py);
- the device's single-flight `LeaderNodeLocal` (UAV_Client.py);
- the earlier standalone sequencer (epoh_core.py).

It also covers the rule evaluator (smart_contracts.py).

SHA-256, `json.dumps(sort_keys=True, ...)` in its compact and default forms, and `str()` on integers are uninterpreted. They are fields of a `Hasher` value that every operation receives, so each property holds for any hash function and serialiser. Wall-clock readings are the fields of a `Clock` input. JSON objects are Dafny maps, which gives the key-order independence that `sort_keys=True` provides.

Modules:
- `Primitives` (primitives.dfy): JSON values, digests, the `Hasher` and `Clock` inputs, and Python's `s[:n]` and `int()` on floats.
- `Blocks` (blocks.dfy): blocks, event records, `hash_block` and the shape of a chain built by genesis plus mining.
- `Sequencer` (sequencer.dfy): `EPOH_Core` as shared by the coordinator and the device. The two copies are the same code and are modelled once.
- `LegacySequencer` (legacy_epoh.dfy): the standalone `EPOH_Core` of epoh_core.py.
- `AuthSim` (auth.dfy): the key derivations. The three identical copies (GCS_LeaderNode.py:148-165, UAV_Client.py:54-108, epoh_core.py:97-117) are modelled once.
- `FlightIds` (flight_ids.dfy): the persisted flight counter.
- `Coordinator` (coordinator.dfy): `BlockchainManager` and the ledger steps of the start-flight, authenticate, log-telemetry and end-flight requests. Each state change is specified by a step function on the map of active flights, and lemmas describe each step function.
- `ArchiveLock` (archive_lock.dfy): the locking of `archive_flight` as written (see Findings).
- `UavClient` (client.dfy): `LeaderNodeLocal` and `get_next_flight_number`.
- `Verifier` (verifier.dfy): `verify_log`.
- `SmartContracts` (smart_contracts.dfy): the four rule kinds, `SmartContract.execute` and `ContractManager`.

## Model

| member | source | states |
|---|---|---|
| Primitives.Prefix | GCS_LeaderNode.py:151 | `s[:n]` has length `min(len(s), n)` and is a prefix of `s` |
| Primitives.PrefixOfHex | GCS_LeaderNode.py:151 | a prefix of a hex digest is still lower-case hex |
| Primitives.Trunc | GCS_LeaderNode.py:155 | `int(x)` truncates toward zero: the result is within 1 of `x`, on the side of zero |
| Blocks.HashBlock | GCS_LeaderNode.py:140-146 | `hash_block`: the digest of the compact, key-sorted serialisation of the block with 'current_hash' removed; `Blocks.HashBlockIgnoresCurrentHash` states that the digest is the same whatever current hash the block carries |
| Blocks.HashBlockIgnoresCurrentHash | GCS_LeaderNode.py:140-146 | `hash_block` gives the same digest whatever `current_hash` the block carries, or none; the serialised object is the block's fields minus `current_hash` |
| Blocks.SealIsSelfHash | GCS_LeaderNode.py:221-222 | a block sealed with `hash_block` of itself carries its own hash, and sealing changes no other field |
| Blocks.LoggedAppend | GCS_LeaderNode.py:327 | appending a block to a chain adds exactly that block's transactions to the end of the logged transactions |
| Blocks.AppendKeepsWellFormed | GCS_LeaderNode.py:318-327 | appending a sealed block at index `len(chain) + 1` that links to the last hash keeps the chain well formed, and the new last hash is the block's hash |
| Blocks.WellFormedChainFacts | GCS_LeaderNode.py:258-275 | in a chain built by genesis and mining: genesis at index 0 with previous hash "0"; every block sealed; each later block at index position + 1 and linked to its predecessor's hash |
| AuthSim.SessionKey | GCS_LeaderNode.py:148-151 | the session key is the 16 hex characters that start H(K + str(rand)) |
| AuthSim.ResStar | GCS_LeaderNode.py:162-165 | the device's response is the 10 hex characters that start H(K + str(rand) + 'Expected') |
| AuthSim.AuthVectorAt | GCS_LeaderNode.py:153-160 | the vector's challenge is `int(now * 1000)`; its expected response equals the device's `ResStar` for that key and challenge (10 characters); its session key equals `SessionKey` (16 characters) |
| AuthSim.AuthSuccessTx | GCS_LeaderNode.py:1009-1015 | the AUTHENTICATED transaction: tx id `AUTH_SUCCESS_<supi>_<int(now)>`, the device, the challenge's session key and challenge value; `Coordinator.AuthSuccessStepEffect` states that it is the last transaction of the block a successful step 2 mines; the device leader node builds the same record (UAV_Client.py:409-415), and `UavClient.LeaderNodeLocal.HandleAuthResponse2` states that it joins the pool before mining |
| FlightIds.NextFlightId | GCS_LeaderNode.py:239-254 | the initial identifier when the counter is missing or unreadable, otherwise the stored value plus one; `FlightIds.IdsCountUpFromInitial` states the identifiers successive calls issue |
| FlightIds.IdsCountUpFromInitial | GCS_LeaderNode.py:239-254 | from a missing counter file, the k-th call issues initial + k, because each call stores what it returns |
| Sequencer.EventsDescribeEachTransaction | GCS_LeaderNode.py:199-211 | exactly one event per transaction, in input order, carrying that transaction's `tx_id`, the flight id, its embedding time and the running hash right after embedding it |
| Sequencer.HybridBlock | GCS_LeaderNode.py:195-224 | the block `create_block` returns; `Sequencer.HybridBlockShape` states its index, link, transactions, events and self-hash, and `Sequencer.EpohCore.CreateBlock` that the method builds exactly it |
| Sequencer.HybridBlockShape | GCS_LeaderNode.py:195-224 | a built block has index `current_chain_length + 1`, the given previous hash, the transactions unchanged, one event per transaction, and a current hash equal to `hash_block` of itself |
| Sequencer.EpohCore.constructor | GCS_LeaderNode.py:174-177 | a new sequencer has the given difficulty, a running hash of 64 zeros and a count of 0 |
| Sequencer.EpohCore.GenerateSequentialHash | GCS_LeaderNode.py:179-185 | the running hash becomes H(previous running hash), which is returned; the count grows by 1 |
| Sequencer.EpohCore.AdvanceSequence | GCS_LeaderNode.py:202-203 | `difficulty` sequential hashes (none when it is not positive): the running hash is hashed that many times and the count grows by that many |
| Sequencer.EpohCore.EmbedTransaction | GCS_LeaderNode.py:187-193 | the running hash becomes H(running hash + compact serialisation of the payload) and is returned with the clock reading; the count grows by 1 |
| Sequencer.EpohCore.CreateBlock | GCS_LeaderNode.py:195-224 | the block equals `HybridBlock` (whose shape `HybridBlockShape` gives); the running hash ends at the block's hash; the count is `len(transactions) * (difficulty + 1)` |
| LegacySequencer.LegacyBlock | epoh_core.py:46-84 | the block the legacy `create_block` returns; `LegacySequencer.LegacyBlockShape` states its shape and `LegacySequencer.LegacyEpohCore.CreateBlock` that the method builds exactly it |
| LegacySequencer.LegacyBlockShape | epoh_core.py:46-84 | index is always 1; previous hash and transactions are unchanged; one event per transaction in order with its `tx_id` and no flight id; with no transactions the current hash is the previous hash, otherwise it is the hash recorded by the last event |
| LegacySequencer.LegacyEpohCore.constructor | epoh_core.py:16-20 | a new sequencer has the given difficulty, a running hash of 64 zeros and a count of 0 |
| LegacySequencer.LegacyEpohCore.WithDefaultDifficulty | epoh_core.py:16 | the default difficulty is 5 |
| LegacySequencer.LegacyEpohCore.GenerateSequentialHash | epoh_core.py:22-28 | the running hash becomes H(previous running hash); the count grows by 1 |
| LegacySequencer.LegacyEpohCore.AdvanceSequence | epoh_core.py:60-61 | `difficulty` sequential hashes (none when it is not positive) |
| LegacySequencer.LegacyEpohCore.EmbedTransaction | epoh_core.py:30-44 | the running hash becomes H(running hash + default-separator serialisation of the payload); the count grows by 1 |
| LegacySequencer.LegacyEpohCore.CreateBlock | epoh_core.py:46-84 | the block equals `LegacyBlock`; its current hash is the final running hash, not `hash_block`; the count is `len(transactions) * (difficulty + 1)` |
| Coordinator.GenesisBlock | GCS_LeaderNode.py:256-275 | the coordinator's genesis block with its CHAIN_START event and GENESIS_TX transaction; `Coordinator.GenesisStartsChain` states that it is a one-block well-formed chain carrying its own hash |
| Coordinator.GenesisStartsChain | GCS_LeaderNode.py:256-275 | the genesis block has index 0, previous hash "0" and the genesis time, carries its own hash, and is on its own a well-formed chain |
| Coordinator.MinedLedger | GCS_LeaderNode.py:307-329 | mining appends exactly one block, at index `len(chain) + 1`, holding the whole pool in order and linked to the old last hash; the chain stays well formed, the pool is emptied and nothing else in the entry changes |
| Coordinator.Mined | GCS_LeaderNode.py:307-329 | one flight's ledger after `mine_block`; `Coordinator.MinedLedger` states what it holds |
| Coordinator.MineStep | GCS_LeaderNode.py:307-329 | `mine_block` on the map of active ledgers; `Coordinator.MineStepKeepsInvariants` states what it changes and keeps |
| Coordinator.MineStepKeepsInvariants | GCS_LeaderNode.py:307-329 | `mine_block` keeps the set of active flights and leaves every other flight untouched; for an unknown flight or an empty pool it changes nothing; chains stay well formed and no pool fills up |
| Coordinator.TelemetryStep | GCS_LeaderNode.py:1063-1076 | the ledger step of `log_telemetry`: queue, then mine at the batch size; `Coordinator.TelemetryStepEffect` and `Coordinator.TelemetryStepKeepsPoolsBelowBatch` state its effect |
| Coordinator.TelemetryStepEffect | GCS_LeaderNode.py:1063-1076 | below the batch size the telemetry transaction queues behind the pool and the chain is unchanged; at the batch size one block holding the old pool then the new transaction is appended and the pool is emptied |
| Coordinator.TelemetryStepKeepsPoolsBelowBatch | GCS_LeaderNode.py:1063-1076 | the telemetry step leaves the other flights untouched, and a pool below 3 stays below 3 |
| Coordinator.AuthSuccessStep | GCS_LeaderNode.py:1004-1021 | the ledger step of a successful step 2; `Coordinator.AuthSuccessStepEffect` states its effect |
| Coordinator.AuthSuccessStepEffect | GCS_LeaderNode.py:1004-1021 | a successful step 2 appends exactly one block holding the old pool then the AUTHENTICATED transaction, empties the pool, sets the session key and leaves the other flights untouched |
| Coordinator.ArchiveStep | GCS_LeaderNode.py:334-361 | the ledger step of the sequential `archive_flight`; `Coordinator.ArchiveStepEffect` states its effect |
| Coordinator.ArchiveStepEffect | GCS_LeaderNode.py:334-361 | archiving removes exactly that flight and leaves the others untouched; the archived chain is well formed and is the flight's chain, plus one block holding the pool when the pool was not empty |
| Coordinator.BlockchainManager.constructor | GCS_LeaderNode.py:233-237 | no active flights, no pending challenges and no sequencers |
| Coordinator.BlockchainManager.GetNextFlightId | GCS_LeaderNode.py:239-254 | returns 1 when the counter is missing or unreadable and the stored value + 1 otherwise; the counter then holds the returned value |
| Coordinator.BlockchainManager.CreateGenesisBlock | GCS_LeaderNode.py:256-290 | registers the flight with chain `[genesis]`, an empty pool and no session key, plus a fresh sequencer of difficulty 2 whose running hash is the genesis hash; the pending challenges are unchanged |
| Coordinator.BlockchainManager.MineBlock | GCS_LeaderNode.py:307-332 | returns a hash iff the flight is active with a non-empty pool; the new state is `MineStep` of the old one; the returned hash is the new last hash, and the flight's sequencer then holds it as its running hash, with `difficulty + 1` steps counted per mined transaction; no other sequencer changes, and none changes when nothing is mined |
| Coordinator.BlockchainManager.ArchiveFlight | GCS_LeaderNode.py:334-361 | the active flights become `ArchiveStep` of the old ones; the flight's sequencer and pending challenge are removed; the chain persisted last is `ArchivedChain`; no other flight's sequencer changes |
| Coordinator.BlockchainManager.StartFlight | GCS_LeaderNode.py:939-973 | an unregistered device is refused with nothing changed; otherwise the next identifier is issued and its genesis block registered, and the reply carries the identifier and the genesis hash |
| Coordinator.BlockchainManager.AuthStep1 | GCS_LeaderNode.py:976-1000 | an inactive flight is refused; an unknown device gets `UnknownUav`; otherwise the flight's pending challenge is stored or overwritten, and only the challenge value and token are returned |
| Coordinator.BlockchainManager.AuthStep2 | GCS_LeaderNode.py:1002-1033 | succeeds iff a pending challenge exists and the response equals its expected response; success returns its session key and the state becomes `AuthSuccessStep`; failure changes nothing; the pending challenge is never removed; after a success the flight's sequencer holds the new last hash and has counted the old pool plus the AUTHENTICATED transaction; no other sequencer changes |
| Coordinator.AnnotatedTelemetry | GCS_LeaderNode.py:1046-1052 | the telemetry object as stored, with 'flight_id' and, when the detector is trained, a 'timestamp' from the clock; `Coordinator.AnnotatedTelemetryFields` states its fields |
| Coordinator.AnnotatedTelemetryFields | GCS_LeaderNode.py:1046-1052 | the stored record carries 'flight_id', carries the clock reading `stampTime` as 'timestamp' exactly when the anomaly detector is trained (otherwise keeps its own), and keeps every other field |
| Coordinator.TelemetryTx | GCS_LeaderNode.py:1061-1069 | the TELEMETRY_TX record: the device, the session key (None before authentication), the stored telemetry, the request's tx id or `TELEM_<int(now)>`, the violations and the anomaly result; `Coordinator.BlockchainManager.LogTelemetry` states that it is what joins the flight's pool |
| Coordinator.BlockchainManager.QueueTelemetry | GCS_LeaderNode.py:1060-1087 | an inactive flight is refused; otherwise the state becomes `TelemetryStep` with the transaction; the reply is TX_RECEIVED below 3 pooled transactions and otherwise TX_BLOCK_ACK with the first 10 characters of the new last hash, the flight's sequencer then holding that hash and having counted the whole pool; no sequencer changes when nothing is mined, and no other flight's ever does |
| Coordinator.BlockchainManager.LogTelemetry | GCS_LeaderNode.py:1036-1087 | an inactive flight is refused; telemetry that is not a JSON object raises (`RequestRaised`) and nothing changes; otherwise the state becomes `TelemetryStep` with the TELEMETRY_TX record of the annotated telemetry; the reply is TX_RECEIVED below 3 pooled transactions and otherwise TX_BLOCK_ACK with the first 10 characters of the new last hash, the flight's sequencer then holding that hash and having counted the whole pool; no sequencer changes when nothing is mined, and no other flight's ever does |
| Coordinator.BlockchainManager.EndFlight | GCS_LeaderNode.py:1090-1100 | succeeds iff the flight is active; the state becomes `ArchiveStep`; no other flight's sequencer changes |
| Coordinator.ReplayIsAccepted | GCS_LeaderNode.py:1002-1033 | after a successful step 2, the same response succeeds again with the same session key |
| Coordinator.HandshakeCompletes | GCS_LeaderNode.py:976-1033 | for an active flight of a registered device, step 1 issues a challenge and step 2 answered with the device's `ResStar` for that challenge succeeds with the session key `SessionKey` derives, and the chain grows by exactly one block |
| ArchiveLock.MineBlockLocking | GCS_LeaderNode.py:307-309 | `mine_block` takes the non-re-entrant lock first, so it blocks when the lock is already held; `ArchiveLock.ArchiveBlocksIffPoolPending` states the consequence |
| ArchiveLock.ArchiveFlightLocking | GCS_LeaderNode.py:334-343 | `archive_flight` as written, holding the lock while it calls `mine_block`; `ArchiveLock.ArchiveBlocksIffPoolPending` states when it blocks |
| ArchiveLock.ArchiveBlocksIffPoolPending | GCS_LeaderNode.py:338-343 | as written, `archive_flight` blocks for ever exactly when the flight is active with a non-empty pool |
| ArchiveLock.CorrectedArchiveFlushesAndRemoves | GCS_LeaderNode.py:334-361 | the sequential archive mines a pending pool into one last block of a well-formed chain and removes the flight |
| UavClient.NextFlightNumber | UAV_Client.py:114-136 | 0 when the counter is missing or unreadable, otherwise the stored value plus one; `UavClient.FlightNumbersCountFromZero` states the numbers successive flights get |
| UavClient.FlightNumbersCountFromZero | UAV_Client.py:114-136 | from a missing counter file, the k-th flight is numbered k |
| UavClient.GenesisBlock | UAV_Client.py:314-335 | the device's genesis block; `UavClient.GenesisStartsChain` states that it is a one-block well-formed chain with nothing logged |
| UavClient.GenesisStartsChain | UAV_Client.py:314-335 | the device's genesis block has index 0 and previous hash "0", is on its own a well-formed chain, and logs nothing |
| UavClient.MinedChain | UAV_Client.py:337-362 | the device chain after `mine_block`; `UavClient.MinedChainExtends` states what it appends |
| UavClient.MinedChainExtends | UAV_Client.py:337-362 | mining appends exactly one block, at index `len(chain) + 1`, linked to the old last hash and holding the pool in order; the chain stays well formed and the log grows by exactly the pool |
| UavClient.LeaderNodeLocal.constructor | UAV_Client.py:293-335 | the chain holds only the genesis block; the pool is empty and there are no pending challenges; the sequencer has difficulty 2 and its running hash is the genesis hash |
| UavClient.LeaderNodeLocal.MineBlock | UAV_Client.py:337-362 | an empty pool returns None and changes nothing, the sequencer included; otherwise the chain becomes `MinedChain` of the pool, the pool is emptied, the new last hash is returned, and the sequencer holds it with `difficulty + 1` steps counted per mined transaction |
| UavClient.LeaderNodeLocal.HandleAuthRequest1 | UAV_Client.py:364-390 | an unknown device gets `UnknownUav`; otherwise its pending challenge is stored or replaced, and the challenge value, token and node key are returned without the expected response or the session key |
| UavClient.LeaderNodeLocal.HandleAuthResponse2 | UAV_Client.py:392-425 | succeeds iff a pending challenge exists for the device and the response matches; success deletes the challenge and mines the pool plus one AUTHENTICATED transaction, the sequencer counting them all; failure changes nothing, the sequencer included |
| UavClient.LeaderNodeLocal.HandleTelemetryTx | UAV_Client.py:427-444 | below 3 pooled transactions the transaction is queued, the sequencer is untouched and TX_RECEIVED is returned; otherwise the pool is mined, the sequencer counting every mined transaction, and TX_BLOCK_ACK carries the first 10 characters of the new hash |
| UavClient.TelemetryIsLoggedInOrder | UAV_Client.py:427-444 | a pool that starts below 3 stays below 3, and the logged transactions plus the pool grow by exactly the new transaction, at the end |
| UavClient.ReplayIsRefused | UAV_Client.py:392-425 | after a successful step 2, the same response fails, because the challenge was consumed |
| Verifier.Verify | GCS_LeaderNode.py:367-388 | the verdict of `verify_log` on a loaded chain; `Verifier.VerifySecuredIffIntact` states when it is 'secured' and `Verifier.VerifyLog` that the loop returns it |
| Verifier.VerifyLog | GCS_LeaderNode.py:367-388 | the loop returns the verdict of `Verify`; 'secured' iff the chain loaded, is non-empty and intact, and its last block has a current hash |
| Verifier.Scan | GCS_LeaderNode.py:377-388 | the loop of `verify_log` from one position on; `Verifier.ScanSecuredIffIntact`, `Verifier.ScanReportsFirstBrokenLink` and `Verifier.ScanReportsFirstChronologyViolation` state its verdicts |
| Verifier.ScanSecuredIffIntact | GCS_LeaderNode.py:377-388 | the scan from position i succeeds iff every later pair is linked and in order, and it then returns the last current hash |
| Verifier.ScanReportsFirstBrokenLink | GCS_LeaderNode.py:377-384 | a reported broken link is at the first pair that fails, and its hash is that block's previous hash |
| Verifier.ScanReportsFirstChronologyViolation | GCS_LeaderNode.py:377-386 | a reported chronology violation is at the first pair that fails, and that pair is linked: linkage is checked first |
| Verifier.VerifySecuredIffIntact | GCS_LeaderNode.py:367-388 | an empty chain is not secured; a chain is secured iff every pair is linked and in order and the last block has a current hash, which is then returned |
| Verifier.WellFormedIsLinked | GCS_LeaderNode.py:318-326 | in a chain built by genesis and mining, every block points to `hash_block` of its predecessor |
| Verifier.BuiltChainVerifies | GCS_LeaderNode.py:367-388 | a chain built by genesis and mining, with strictly increasing timestamps, verifies as secured with its last hash |
| Verifier.TamperedBlockIsReported | GCS_LeaderNode.py:379-384 | rewriting block 1 so its hash changes, while keeping its own link and order, is reported as a broken link at block 2 |
| Verifier.RelinkedBlockIsReportedAtOne | GCS_LeaderNode.py:383-384 | changing block 1's previous hash is reported as a broken link at block 1 |
| Verifier.BackdatedBlockIsReported | GCS_LeaderNode.py:385-386 | moving block 2's timestamp back to or before block 1's is reported as a chronology violation at block 2 |
| SmartContracts.GeofenceEvaluate | smart_contracts.py:57-83 | a report iff \|x\| > max_x, \|y\| > max_y, z < min_altitude or z > max_altitude (missing readings count as 0); severity HIGH; it lists each failed check exactly once, with the position |
| SmartContracts.SpeedEvaluate | smart_contracts.py:95-105 | a report iff `vel_mag` (0 when missing) exceeds the limit; severity MEDIUM |
| SmartContracts.AltitudeEvaluate | smart_contracts.py:118-135 | CRITICAL above the critical threshold; WARNING above the warning threshold but not above the critical one; otherwise nothing; a missing altitude reads as -10 |
| SmartContracts.SmartContract.constructor | smart_contracts.py:13-18 | a new contract is enabled, with no violations and no executions |
| SmartContracts.SmartContract.DurationEvaluate | smart_contracts.py:148-165 | the first record of a flight records its start time and raises nothing; later records raise a report iff more than the limit has elapsed since that start; a recorded start never changes |
| SmartContracts.SmartContract.Evaluate | smart_contracts.py:20-22 | each kind of contract runs its own `evaluate`; only the duration rule touches the recorded start times |
| SmartContracts.SmartContract.Execute | smart_contracts.py:24-42 | a disabled contract returns None and changes nothing; an enabled one counts the execution, and returns and appends a violation record iff its rule raised a report: for a stateless rule the record carries `Check`'s report; the duration rule's first record of a flight stores its start and raises nothing, later ones raise `DurationExceeded(now - start)` iff that exceeds the limit; the enabled flag never changes |
| SmartContracts.Without | smart_contracts.py:179-181 | the contract list after `remove_contract`; `SmartContracts.WithoutKeepsOthers` and `SmartContracts.WithoutDistributes` state what it keeps |
| SmartContracts.WithoutKeepsOthers | smart_contracts.py:179-181 | removal keeps exactly the contracts with another name, and changes nothing when no contract has that name |
| SmartContracts.WithoutDistributes | smart_contracts.py:179-181 | removal keeps the survivors in their original order |
| SmartContracts.Raised | smart_contracts.py:183-194 | the violations `evaluate_all` collects from the per-contract outcomes; `SmartContracts.RaisedComesFromOutcomes` states where each comes from |
| SmartContracts.RaisedComesFromOutcomes | smart_contracts.py:183-194 | every collected violation is one of the per-contract outcomes (which `EvaluateAll` ties to the contracts), and there are never more violations than outcomes |
| SmartContracts.ContractManager.constructor | smart_contracts.py:170-172 | no contracts and no violations |
| SmartContracts.ContractManager.AddContract | smart_contracts.py:174-177 | the contract is appended at the end |
| SmartContracts.ContractManager.RemoveContract | smart_contracts.py:179-181 | every contract with that name is dropped and the others are kept in order |
| SmartContracts.ContractManager.EvaluateAll | smart_contracts.py:183-194 | every contract is executed in order, one outcome each: None for a contract disabled on entry, the record of its rule's `Check` report for an enabled stateless one, and for a duration contract either None or a record of a duration beyond its limit; no contract is switched on or off; the result is exactly the non-None outcomes in contract order; the total grows by their number |
| SmartContracts.ContractManager.WithCoordinatorRules | GCS_LeaderNode.py:399-403 | the coordinator's four contracts, distinct and fresh, in order: geofence (50, 50, -20, 0), speed limit 8.0, altitude safety (-3, -1), flight duration 120; each enabled with nothing recorded, and no violations counted |

## Findings

| source | as written | input that shows it | evidently intended | confidence | as-written member | corrected member |
|---|---|---|---|---|---|---|
| GCS_LeaderNode.py:338-343 | `archive_flight` holds the manager's `threading.Lock` while it calls `mine_block`, which takes the same lock again; that lock is not re-entrant | end a flight after one or two telemetry records (the pool is not empty): the request never returns, the flight stays active, and the lock taken at line 340 is never released, so every later request that takes it blocks, for every flight (`get_next_flight_id` at line 241, `create_genesis_block` at line 277, `save_chain` at line 294, `mine_block` at line 309, authentication step 2 at line 1017, `log_telemetry` at line 1060, and the routes at lines 718, 1139, 1168 and 1273) | mine the pending pool, then remove the flight | high, not executed | ArchiveLock.ArchiveBlocksIffPoolPending | ArchiveLock.CorrectedArchiveFlushesAndRemoves |

The rest of the model (`Coordinator.BlockchainManager.ArchiveFlight` and `EndFlight`) uses the corrected, sequential behaviour.

## Left out

- The Flask application: routes, token and role checks, request parsing, status codes, logging of activity, and every endpoint other than the ledger steps of start-flight, authenticate, log-telemetry and end-flight.
- An `authenticate` request with a step other than 1 or 2 returns nothing in the source. It is not modelled.
- Persistence: `save_chain`, the JSON files, `os.rename` of the archived ledger, and `archive_current_ledger` and its file-size check (UAV_Client.py:138-160). The flight counter file is an `Option<int>` value: `None` means missing or unreadable. The verifier receives the loaded chain, or `None` when loading failed.
- `threading.Lock` and all concurrency. Operations are atomic. The one consequence of the locking that matters is stated under Findings.
- SHA-256, `json.dumps` and `str()`: uninterpreted, so no property depends on their output, and nothing is claimed about cryptographic strength. `time.time()` readings are inputs. The model does not force the embedding times or block times to increase; `Verifier.BuiltChainVerifies` takes increasing block timestamps as a hypothesis.
- Verifier.VerifyLog: a stored chain whose last block lacks 'current_hash' raises `KeyError` in the source; the model returns the verdict `MissingCurrentHash`.
- JSON round-trips through files (floats written and re-read) are not modelled. The verifier works on the same block values the ledger built.
- The anomaly detector (anomaly_detection.py) and the background retraining thread started by end-flight. The anomaly result and the rule violations are inputs to `Coordinator.BlockchainManager.LogTelemetry`. The coordinator runs the rules on the record with 'flight_id' added; the violation records the caller passes are taken as given, although in the source they share the telemetry dict and so also show the 'timestamp' written after the rules ran. Whether the detector is trained is an input. The coordinator is assumed to run with its contracts, so 'flight_id' is always written; telemetry that is not a JSON object raises at that write, which the model reports as `RequestRaised`.
- Coordinator.BlockchainManager.LogTelemetry: the 'timestamp' and the default tx id come from two clock readings in the source; the model takes them as two inputs (`stampTime` and the clock's `now`) and does not relate them.
- Non-numeric telemetry readings. The source compares them and would raise `TypeError`; the model's readings are numbers only.
- The message strings of rule reports and `ContractManager.log_violation` / `get_statistics` (printing and summary counts only).
- SmartContracts.SmartContract.Execute, SmartContracts.ContractManager.EvaluateAll: one clock reading serves both the violation timestamp and the flight-duration rule, where the source reads the clock twice.
- SmartContracts.ContractManager.EvaluateAll: for a flight-duration contract it states only that a raised record reports a duration beyond the limit, not which start time it was measured from, and it does not state the per-contract counters or start times; `Execute` states all of these for one call (a contract listed twice sees the effects of its own earlier call).
- Coordinator.BlockchainManager.AuthStep1, UavClient.LeaderNodeLocal.HandleAuthRequest1: an unregistered device raises `KeyError` in the source; the model returns `UnknownUav` and changes nothing.
- The `UAV_Client.py` copy of `hash_block` (UAV_Client.py:36-52) and of `EPOH_Core` (UAV_Client.py:166-274) are the same code as the coordinator's and share `Blocks.HashBlock` and `Sequencer.EpohCore`.
- The AirSim client scripts, the authentication database, smart landing and the reset script.
