/** The coordinator's ledger engine (`BlockchainManager` in
    GCS_LeaderNode.py): one ledger, sequencer and pending challenge per active
    flight, plus the ledger steps of the start, authenticate, telemetry and
    end-of-flight requests. Operations are atomic: the lock that serialises
    them is not modelled. */
module Coordinator {
  import opened Primitives
  import opened Blocks
  import opened Sequencer
  import opened AuthSim
  import opened FlightIds

  /** The registry of devices and their long-term keys. */
  const UavDb: map<string, string> := map[
    "UAV_A1" := "K_LongTerm_A1",
    "UAV_B2" := "K_LongTerm_B2",
    "UAV_C3" := "K_LongTerm_C3",
    "UAV_D4" := "K_LongTerm_D4"]

  /** Every flight's sequencer is created with `EPOH_Core(difficulty=2)`. */
  const CoreDifficulty: int := 2

  /** `log_telemetry` mines once the pool holds this many transactions. */
  const BatchSize: nat := 3

  /** The coordinator's counter starts at 1. */
  const FirstFlightId: int := 1

  /** One entry of `active_chains`. */
  datatype FlightLedger = FlightLedger(
    chain: seq<Block>,
    pool: seq<Tx>,
    uavSupi: string,
    operator: string,
    sessionKey: Option<string>,
    startTime: real)

  /** A request addressed to a flight that has no active ledger gets
      'Invalid flight ID'; `RequestRaised` is a request whose handler raised
      an exception, so that nothing was recorded. */
  datatype Reply<T> = InvalidFlightId | RequestRaised | Ok(body: T)

  /** The outcomes of the two handshake steps. `UnknownUav` is the step-1
      lookup of an unregistered device, which raises KeyError in the source. */
  datatype AuthReply =
    | ChallengeIssued(rand: int, autn: Digest)
    | UnknownUav
    | AuthSuccess(sessionKey: string)
    | AuthFailure

  datatype TelemetryReply = TxReceived | TxBlockAck(hash: Option<string>)

  datatype StartReply = InvalidSupi | Started(flightId: int, genesisHash: string)

  /** `username or 'system'`. */
  function OperatorName(username: Option<string>): string {
    if username.None? || username.value == "" then "system" else username.value
  }

  /** The CHAIN_START event of the coordinator's genesis block. */
  function GenesisEvent(flightId: int, supi: string, operator: string): Event {
    ChainStart(Obj([("event_type", JStr("CHAIN_START")), ("flight_id", JInt(flightId)),
         ("uav_supi", JStr(supi)), ("operator", JStr(operator))]))
  }

  /** The GENESIS_TX transaction of the coordinator's genesis block. */
  function GenesisTx(H: Hasher, flightId: int, supi: string, operator: string): Tx {
    Obj([("tx_id", JStr("GENESIS_TX")),
         ("data", JStr("Flight " + H.show(flightId) + " Initialized - UAV: " + supi)),
         ("operator", JStr(operator))])
  }

  /** The coordinator's genesis block: index 0, previous hash "0", one
      CHAIN_START event and one GENESIS_TX transaction, sealed. */
  function GenesisBlock(H: Hasher, flightId: int, supi: string, operator: string, time: real): Block {
    Seal(H, Block(0, time, "0", [GenesisEvent(flightId, supi, operator)],
                  [GenesisTx(H, flightId, supi, operator)], None))
  }

  /** A genesis block on its own is a well-formed chain whose last hash is
      the genesis block's own hash. */
  lemma GenesisStartsChain(H: Hasher, flightId: int, supi: string, operator: string, time: real)
    ensures var g := GenesisBlock(H, flightId, supi, operator, time);
      && g.index == 0 && g.previousHash == "0" && g.timestamp == time
      && g.currentHash == Some(HashBlock(H, g))
      && WellFormedChain(H, [g]) && LastHash([g]) == HashBlock(H, g)
  {
    SealIsSelfHash(H, GenesisBlock(H, flightId, supi, operator, time).(currentHash := None));
  }

  /** The telemetry object as `log_telemetry` stores it: the coordinator
      writes the flight's identifier into it before running the rules and,
      when the anomaly detector is trained, the clock reading `stampTime` as
      its 'timestamp' after them. */
  function AnnotatedTelemetry(fields: map<string, Json>, flightId: int, detectorTrained: bool, stampTime: real): Json {
    var tagged := fields["flight_id" := JInt(flightId)];
    JObj(if detectorTrained then tagged["timestamp" := JReal(stampTime)] else tagged)
  }

  /** The stored record carries the flight's identifier, carries the clock
      reading `stampTime` exactly when the detector is trained (and otherwise keeps its own
      'timestamp', if any), and keeps every other field of the request. */
  lemma AnnotatedTelemetryFields(fields: map<string, Json>, flightId: int, detectorTrained: bool, stampTime: real)
    ensures var t := AnnotatedTelemetry(fields, flightId, detectorTrained, stampTime);
      && t.JObj?
      && t.fields.Keys == fields.Keys + {"flight_id"} + (if detectorTrained then {"timestamp"} else {})
      && t.fields["flight_id"] == JInt(flightId)
      && (detectorTrained ==> t.fields["timestamp"] == JReal(stampTime))
      && (!detectorTrained && "timestamp" in fields ==> t.fields["timestamp"] == fields["timestamp"])
      && (forall k :: k in fields && k != "flight_id" && k != "timestamp" ==> t.fields[k] == fields[k])
  {
  }

  /** The TELEMETRY_TX transaction `log_telemetry` appends. `violations` and
      `anomaly` are what the rule evaluator and the anomaly detector returned;
      `txId` is the request's 'tx_id', if any. */
  function TelemetryTx(H: Hasher, L: FlightLedger, telemetry: Json, txId: Option<Json>,
                       violations: seq<Json>, anomaly: Json, now: real): Tx {
    Obj([
      ("type", JStr("TELEMETRY_TX")),
      ("uav_supi", JStr(L.uavSupi)),
      ("session_key", match L.sessionKey case Some(k) => JStr(k) case None => JNull),
      ("data", telemetry),
      ("tx_id", txId.GetOr(JStr("TELEM_" + H.show(Trunc(now))))),
      ("contract_violations", JArr(violations)),
      ("anomaly", anomaly)])
  }

  /** A ledger whose chain ends with a block carrying a current hash, so
      that `chain[-1]['current_hash']` is defined. */
  predicate Minable(L: FlightLedger) {
    |L.chain| > 0 && L.chain[|L.chain| - 1].currentHash.Some?
  }

  /** The ledger after `mine_block` drained a non-empty pool into one block. */
  function Mined(H: Hasher, L: FlightLedger, flightId: int, clock: Clock): FlightLedger
    requires Minable(L)
  {
    var b := HybridBlock(H, Rounds(CoreDifficulty), L.pool, LastHash(L.chain), |L.chain|, flightId, clock);
    L.(chain := L.chain + [b], pool := [])
  }

  /** Mining appends exactly one block holding the whole pool in order,
      linked to the previous last hash, at index `len(chain) + 1`, keeps the
      chain well formed and empties the pool; nothing else in the entry
      changes. */
  lemma MinedLedger(H: Hasher, L: FlightLedger, flightId: int, clock: Clock)
    requires WellFormedChain(H, L.chain)
    ensures Minable(L)
    ensures var M := Mined(H, L, flightId, clock);
      var b := M.chain[|M.chain| - 1];
      && |M.chain| == |L.chain| + 1 && M.chain[..|L.chain|] == L.chain
      && b.transactions == L.pool
      && b.previousHash == LastHash(L.chain)
      && b.index == |L.chain| + 1
      && M.pool == []
      && WellFormedChain(H, M.chain)
      && LastHash(M.chain) == HashBlock(H, b)
      && M == L.(chain := M.chain, pool := [])
  {
    var b := HybridBlock(H, Rounds(CoreDifficulty), L.pool, LastHash(L.chain), |L.chain|, flightId, clock);
    HybridBlockShape(H, Rounds(CoreDifficulty), L.pool, LastHash(L.chain), |L.chain|, flightId, clock);
    AppendKeepsWellFormed(H, L.chain, b);
    assert (L.chain + [b])[..|L.chain|] == L.chain;
  }

  /** Every active flight's chain is well formed. */
  ghost predicate ChainsWellFormed(H: Hasher, chains: map<int, FlightLedger>) {
    forall f :: f in chains ==> WellFormedChain(H, chains[f].chain)
  }

  /** No pool holds a full batch. */
  predicate PoolsBelowBatch(chains: map<int, FlightLedger>) {
    forall f :: f in chains ==> |chains[f].pool| < BatchSize
  }

  /** A well-formed chain ends with a sealed block. */
  lemma WellFormedIsMinable(H: Hasher, L: FlightLedger)
    requires WellFormedChain(H, L.chain)
    ensures Minable(L)
  {
  }

  /** Replacing one entry by a ledger with a well-formed chain keeps every
      chain well formed. */
  lemma UpdateKeepsChainsWellFormed(H: Hasher, chains: map<int, FlightLedger>, f: int, L: FlightLedger)
    requires ChainsWellFormed(H, chains) && WellFormedChain(H, L.chain)
    ensures ChainsWellFormed(H, chains[f := L])
  {
  }

  /** Whether `mine_block(flightId)` does anything: the flight is active and
      its pool is non-empty. */
  predicate MinesBlock(chains: map<int, FlightLedger>, flightId: int) {
    flightId in chains && chains[flightId].pool != []
  }

  /** `active_chains` after `mine_block(flightId)`. */
  function MineStep(H: Hasher, chains: map<int, FlightLedger>, flightId: int, clock: Clock): map<int, FlightLedger>
    requires flightId in chains ==> Minable(chains[flightId])
  {
    if MinesBlock(chains, flightId) then chains[flightId := Mined(H, chains[flightId], flightId, clock)]
    else chains
  }

  /** `mine_block` keeps the set of active flights, leaves every other flight
      untouched, keeps every chain well formed and never fills a pool; on a
      flight it does not mine it changes nothing. */
  lemma MineStepKeepsInvariants(H: Hasher, chains: map<int, FlightLedger>, flightId: int, clock: Clock)
    requires ChainsWellFormed(H, chains)
    ensures flightId in chains ==> Minable(chains[flightId])
    ensures var m := MineStep(H, chains, flightId, clock);
      && m.Keys == chains.Keys
      && (forall f :: f in chains && f != flightId ==> m[f] == chains[f])
      && (!MinesBlock(chains, flightId) ==> m == chains)
      && ChainsWellFormed(H, m)
      && (PoolsBelowBatch(chains) ==> PoolsBelowBatch(m))
  {
    if flightId in chains {
      MinedLedger(H, chains[flightId], flightId, clock);
      if MinesBlock(chains, flightId) {
        UpdateKeepsChainsWellFormed(H, chains, flightId, Mined(H, chains[flightId], flightId, clock));
      }
    }
  }

  /** `active_chains` after the ledger step of `log_telemetry` on an active
      flight: `tx` joins the pool, which is mined once it holds at least
      `BatchSize` transactions. */
  function TelemetryStep(H: Hasher, chains: map<int, FlightLedger>, flightId: int, tx: Tx, clock: Clock)
    : map<int, FlightLedger>
    requires flightId in chains && Minable(chains[flightId])
  {
    var L := chains[flightId];
    var queued := chains[flightId := L.(pool := L.pool + [tx])];
    if |L.pool| + 1 >= BatchSize then MineStep(H, queued, flightId, clock) else queued
  }

  /** The telemetry step leaves the set of active flights and every other
      flight untouched, and a pool below the batch size stays below it: no
      pool ever holds a full batch between requests. */
  lemma TelemetryStepKeepsPoolsBelowBatch(H: Hasher, chains: map<int, FlightLedger>, flightId: int, tx: Tx, clock: Clock)
    requires ChainsWellFormed(H, chains) && flightId in chains
    ensures Minable(chains[flightId])
    ensures var m := TelemetryStep(H, chains, flightId, tx, clock);
      && m.Keys == chains.Keys
      && (forall f :: f in chains && f != flightId ==> m[f] == chains[f])
      && (PoolsBelowBatch(chains) ==> PoolsBelowBatch(m))
  {
    var L := chains[flightId];
    WellFormedIsMinable(H, L);
    var queued := chains[flightId := L.(pool := L.pool + [tx])];
    UpdateKeepsChainsWellFormed(H, chains, flightId, queued[flightId]);
    MineStepKeepsInvariants(H, queued, flightId, clock);
    TelemetryStepEffect(H, chains, flightId, tx, clock);
  }

  /** The telemetry step on the flight itself: while the pool plus the new
      transaction stays below `BatchSize` the transaction is queued behind
      the pool and the chain is unchanged; otherwise exactly one block
      holding the old pool followed by the new transaction is appended and
      the pool is left empty. Nothing else in the entry changes. */
  lemma TelemetryStepEffect(H: Hasher, chains: map<int, FlightLedger>, flightId: int, tx: Tx, clock: Clock)
    requires ChainsWellFormed(H, chains) && flightId in chains
    ensures Minable(chains[flightId])
    ensures var m := TelemetryStep(H, chains, flightId, tx, clock);
      var L := chains[flightId];
      && flightId in m
      && m[flightId] == L.(chain := m[flightId].chain, pool := m[flightId].pool)
      && (|L.pool| + 1 < BatchSize ==> m[flightId].chain == L.chain && m[flightId].pool == L.pool + [tx])
      && (|L.pool| + 1 >= BatchSize ==>
            && m[flightId].pool == []
            && |m[flightId].chain| == |L.chain| + 1
            && m[flightId].chain[..|L.chain|] == L.chain
            && m[flightId].chain[|L.chain|].transactions == L.pool + [tx])
  {
    var L := chains[flightId];
    MinedLedger(H, L, flightId, clock);
    if |L.pool| + 1 >= BatchSize {
      var Q := L.(pool := L.pool + [tx]);
      MinedLedger(H, Q, flightId, clock);
      assert TelemetryStep(H, chains, flightId, tx, clock)[flightId] == Mined(H, Q, flightId, clock);
    }
  }

  /** `active_chains` after a successful handshake step 2: the AUTHENTICATED
      transaction joins the pool, the session key is set and the pool is
      mined. */
  function AuthSuccessStep(H: Hasher, chains: map<int, FlightLedger>, flightId: int, supi: string,
                           c: Challenge, clock: Clock): map<int, FlightLedger>
    requires flightId in chains && Minable(chains[flightId])
  {
    var L := chains[flightId];
    var authed := L.(pool := L.pool + [AuthSuccessTx(H, supi, clock.now, c)], sessionKey := Some(c.sessionKey));
    MineStep(H, chains[flightId := authed], flightId, clock)
  }

  /** A successful step 2 appends exactly one block holding the old pool
      followed by the AUTHENTICATED transaction, empties the pool and sets the
      session key; other flights are untouched and chains stay well formed. */
  lemma AuthSuccessStepEffect(H: Hasher, chains: map<int, FlightLedger>, flightId: int, supi: string,
                              c: Challenge, clock: Clock)
    requires ChainsWellFormed(H, chains) && flightId in chains
    ensures Minable(chains[flightId])
    ensures var m := AuthSuccessStep(H, chains, flightId, supi, c, clock);
      var L := chains[flightId];
      && m.Keys == chains.Keys
      && (forall f :: f in chains && f != flightId ==> m[f] == chains[f])
      && ChainsWellFormed(H, m)
      && (PoolsBelowBatch(chains) ==> PoolsBelowBatch(m))
      && m[flightId] == L.(chain := m[flightId].chain, pool := [], sessionKey := Some(c.sessionKey))
      && |m[flightId].chain| == |L.chain| + 1
      && m[flightId].chain[..|L.chain|] == L.chain
      && m[flightId].chain[|L.chain|].transactions == L.pool + [AuthSuccessTx(H, supi, clock.now, c)]
  {
    var L := chains[flightId];
    MinedLedger(H, L, flightId, clock);
    var A := L.(pool := L.pool + [AuthSuccessTx(H, supi, clock.now, c)], sessionKey := Some(c.sessionKey));
    UpdateKeepsChainsWellFormed(H, chains, flightId, A);
    MineStepKeepsInvariants(H, chains[flightId := A], flightId, clock);
    MinedLedger(H, A, flightId, clock);
  }

  /** `active_chains` after `archive_flight`: a non-empty pool is mined, then
      the flight is removed. */
  function ArchiveStep(H: Hasher, chains: map<int, FlightLedger>, flightId: int, clock: Clock): map<int, FlightLedger>
    requires flightId in chains ==> Minable(chains[flightId])
  {
    MineStep(H, chains, flightId, clock) - {flightId}
  }

  /** The chain `archive_flight` persists last for an active flight. */
  function ArchivedChain(H: Hasher, chains: map<int, FlightLedger>, flightId: int, clock: Clock): seq<Block>
    requires flightId in chains && Minable(chains[flightId])
  {
    MineStep(H, chains, flightId, clock)[flightId].chain
  }

  /** Archiving removes exactly the archived flight, leaves the others
      untouched and keeps their chains well formed; the archived chain is the
      flight's chain, extended by one block holding the pool when the pool was
      not empty, and is well formed. */
  lemma ArchiveStepEffect(H: Hasher, chains: map<int, FlightLedger>, flightId: int, clock: Clock)
    requires ChainsWellFormed(H, chains)
    ensures flightId in chains ==> Minable(chains[flightId])
    ensures var m := ArchiveStep(H, chains, flightId, clock);
      && m.Keys == chains.Keys - {flightId}
      && (forall f :: f in m ==> m[f] == chains[f])
      && ChainsWellFormed(H, m)
      && (PoolsBelowBatch(chains) ==> PoolsBelowBatch(m))
    ensures flightId in chains ==>
      var L := chains[flightId];
      var archived := ArchivedChain(H, chains, flightId, clock);
      && WellFormedChain(H, archived)
      && (L.pool == [] ==> archived == L.chain)
      && (L.pool != [] ==>
            && |archived| == |L.chain| + 1 && archived[..|L.chain|] == L.chain
            && archived[|L.chain|].transactions == L.pool)
  {
    MineStepKeepsInvariants(H, chains, flightId, clock);
    var mined := MineStep(H, chains, flightId, clock);
    var m := mined - {flightId};
    assert m.Keys == chains.Keys - {flightId};
    assert forall f :: f in m ==> m[f] == mined[f] && mined[f] == chains[f];
    if flightId in chains {
      var L := chains[flightId];
      MinedLedger(H, L, flightId, clock);
      if L.pool != [] {
        assert mined[flightId] == Mined(H, L, flightId, clock);
      } else {
        assert mined == chains;
      }
    }
  }

  /** Whether step 2's response matches the flight's pending challenge. */
  predicate ResponseMatches(pending: map<int, Challenge>, flightId: int, resStar: Option<string>) {
    flightId in pending && resStar == Some(pending[flightId].xresStar)
  }

  class BlockchainManager {
    const H: Hasher
    var activeChains: map<int, FlightLedger>
    var pendingAuth: map<int, Challenge>
    var epohCores: map<int, EpohCore>
    /** The content of the counter file: `None` when missing or unreadable. */
    var flightCount: Option<int>

    /** The sequencer of `flightId`, as a frame: empty for an unknown flight. */
    function CoreOf(flightId: int): set<EpohCore>
      reads this
    {
      if flightId in epohCores then {epohCores[flightId]} else {}
    }

    /** After mining `txCount` pooled transactions for `flightId`, its
        sequencer's running hash is the chain's last hash and its counter
        holds one embedding and `Rounds(CoreDifficulty)` hashes per
        transaction. */
    ghost predicate Sequenced(flightId: int, txCount: int)
      requires flightId in epohCores
      reads this, epohCores[flightId]
    {
      && flightId in activeChains && Minable(activeChains[flightId])
      && epohCores[flightId].latestHash == LastHash(activeChains[flightId].chain)
      && epohCores[flightId].sequenceCount == txCount * (Rounds(CoreDifficulty) + 1)
    }

    /** The manager's invariant: a sequencer of its own for exactly the
        active flights, each built with the coordinator's difficulty; pending
        challenges only for active flights; every chain well formed. */
    ghost predicate Valid()
      reads this
    {
      && epohCores.Keys == activeChains.Keys
      && (forall f, g :: f in epohCores && g in epohCores && f != g ==> epohCores[f] != epohCores[g])
      && pendingAuth.Keys <= activeChains.Keys
      && (forall f :: f in epohCores ==> epohCores[f].difficulty == CoreDifficulty)
      && ChainsWellFormed(H, activeChains)
    }

    constructor (H: Hasher, flightCount: Option<int>)
      ensures Valid() && PoolsBelowBatch(activeChains)
      ensures this.H == H && this.flightCount == flightCount
      ensures activeChains == map[] && pendingAuth == map[] && epohCores == map[]
    {
      this.H := H;
      activeChains := map[];
      pendingAuth := map[];
      epohCores := map[];
      this.flightCount := flightCount;
    }

    /** `get_next_flight_id`: 1 when the counter is missing or unreadable,
        otherwise the stored value plus one; the counter then holds it. */
    method GetNextFlightId() returns (id: int)
      requires Valid()
      modifies this`flightCount
      ensures Valid()
      ensures id == NextFlightId(old(flightCount), FirstFlightId) && flightCount == Some(id)
    {
      match flightCount {
        case None => id := FirstFlightId;
        case Some(n) => id := n + 1;
      }
      flightCount := Some(id);
    }

    /** `create_genesis_block`: registers the flight (replacing any entry with
        the same identifier) with its genesis block, an empty pool and no
        session key, and a fresh sequencer seeded with the genesis hash. */
    method CreateGenesisBlock(flightId: int, supi: string, username: Option<string>,
                              genesisTime: real, startTime: real) returns (g: Block)
      requires Valid()
      modifies this
      ensures Valid()
      ensures g == GenesisBlock(H, flightId, supi, OperatorName(username), genesisTime)
      ensures activeChains == old(activeChains)[flightId :=
                FlightLedger([g], [], supi, OperatorName(username), None, startTime)]
      ensures flightId in epohCores && epohCores == old(epohCores)[flightId := epohCores[flightId]]
      ensures fresh(epohCores[flightId]) && epohCores[flightId].latestHash == HashBlock(H, g)
      ensures pendingAuth == old(pendingAuth) && flightCount == old(flightCount)
    {
      var operator := OperatorName(username);
      g := GenesisBlock(H, flightId, supi, operator, genesisTime);
      GenesisStartsChain(H, flightId, supi, operator, genesisTime);
      var L := FlightLedger([g], [], supi, operator, None, startTime);
      UpdateKeepsChainsWellFormed(H, activeChains, flightId, L);
      activeChains := activeChains[flightId := L];
      var core := new EpohCore(CoreDifficulty);
      core.latestHash := g.currentHash.value;
      epohCores := epohCores[flightId := core];
    }

    /** `mine_block`: for an unknown flight or an empty pool, returns None and
        changes nothing; otherwise the flight's sequencer builds one block
        from the whole pool, the block is appended, the pool emptied and the
        block's current hash returned, the sequencer's running hash then
        being that hash. Only that flight's sequencer can change. */
    method MineBlock(flightId: int, clock: Clock) returns (h: Option<Digest>)
      requires Valid()
      modifies this, CoreOf(flightId)
      ensures Valid()
      ensures activeChains == MineStep(H, old(activeChains), flightId, clock)
      ensures h.Some? <==> MinesBlock(old(activeChains), flightId)
      ensures h.Some? ==>
        flightId in activeChains && Minable(activeChains[flightId])
        && h.value == LastHash(activeChains[flightId].chain)
      ensures h.Some? ==> flightId in epohCores && Sequenced(flightId, |old(activeChains)[flightId].pool|)
      ensures h.None? ==> unchanged(old(epohCores.Values))
      ensures forall g :: g in old(epohCores) && g != flightId ==> unchanged(old(epohCores[g]))
      ensures epohCores == old(epohCores) && pendingAuth == old(pendingAuth) && flightCount == old(flightCount)
    {
      MineStepKeepsInvariants(H, activeChains, flightId, clock);
      if !MinesBlock(activeChains, flightId) {
        return None;
      }
      var L := activeChains[flightId];
      MinedLedger(H, L, flightId, clock);
      var lastHash := L.chain[|L.chain| - 1].currentHash.value;
      var b := epohCores[flightId].CreateBlock(H, L.pool, lastHash, |L.chain|, flightId, clock);
      activeChains := activeChains[flightId := L.(chain := L.chain + [b], pool := [])];
      h := Some(HashBlock(H, b));
    }

    /** `archive_flight`, run sequentially: a non-empty pool is mined first,
        then the flight's ledger, sequencer and pending challenge are removed.
        `archived` is the chain last persisted for the flight. */
    method ArchiveFlight(flightId: int, clock: Clock) returns (ok: bool, ghost archived: seq<Block>)
      requires Valid()
      modifies this, CoreOf(flightId)
      ensures Valid()
      ensures ok
      ensures activeChains == ArchiveStep(H, old(activeChains), flightId, clock)
      ensures flightId in old(activeChains) ==> archived == ArchivedChain(H, old(activeChains), flightId, clock)
      ensures epohCores == old(epohCores) - {flightId}
      ensures forall g :: g in old(epohCores) && g != flightId ==> unchanged(old(epohCores[g]))
      ensures pendingAuth == old(pendingAuth) - {flightId}
      ensures flightCount == old(flightCount)
    {
      ArchiveStepEffect(H, activeChains, flightId, clock);
      archived := [];
      if flightId in activeChains && activeChains[flightId].pool != [] {
        var _ := MineBlock(flightId, clock);
      }
      if flightId in activeChains {
        archived := activeChains[flightId].chain;
      }
      activeChains := activeChains - {flightId};
      epohCores := epohCores - {flightId};
      pendingAuth := pendingAuth - {flightId};
      ok := true;
    }

    /** The ledger step of the start-flight request: an unregistered device
        is refused; otherwise a new identifier is issued and its genesis
        block created. */
    method StartFlight(supi: string, username: Option<string>, genesisTime: real, startTime: real)
      returns (r: StartReply)
      requires Valid()
      modifies this
      ensures Valid()
      ensures pendingAuth == old(pendingAuth)
      ensures supi !in UavDb ==>
        r == InvalidSupi && activeChains == old(activeChains) && epohCores == old(epohCores)
        && flightCount == old(flightCount)
      ensures supi in UavDb ==>
        var id := NextFlightId(old(flightCount), FirstFlightId);
        var g := GenesisBlock(H, id, supi, OperatorName(username), genesisTime);
        && r == Started(id, HashBlock(H, g))
        && flightCount == Some(id)
        && activeChains == old(activeChains)[id := FlightLedger([g], [], supi, OperatorName(username), None, startTime)]
        && id in epohCores && epohCores == old(epohCores)[id := epohCores[id]] && fresh(epohCores[id])
    {
      if supi !in UavDb {
        return InvalidSupi;
      }
      var id := GetNextFlightId();
      var g := CreateGenesisBlock(id, supi, username, genesisTime, startTime);
      GenesisStartsChain(H, id, supi, OperatorName(username), genesisTime);
      r := Started(id, g.currentHash.value);
    }

    /** Handshake step 1: stores (or overwrites) the flight's pending
        challenge and returns the challenge value and token, withholding the
        expected response and the session key. */
    method AuthStep1(flightId: int, supi: string, now: real) returns (r: Reply<AuthReply>)
      requires Valid()
      modifies this`pendingAuth
      ensures Valid()
      ensures flightId !in activeChains ==> r == InvalidFlightId && pendingAuth == old(pendingAuth)
      ensures flightId in activeChains && supi !in UavDb ==> r == Ok(UnknownUav) && pendingAuth == old(pendingAuth)
      ensures flightId in activeChains && supi in UavDb ==>
        var v := AuthVectorAt(H, supi, UavDb[supi], now);
        && pendingAuth == old(pendingAuth)[flightId := ChallengeOf(v)]
        && r == Ok(ChallengeIssued(v.rand, v.autn))
    {
      if flightId !in activeChains {
        return InvalidFlightId;
      }
      if supi !in UavDb {
        return Ok(UnknownUav);
      }
      var v := AuthVectorAt(H, supi, UavDb[supi], now);
      pendingAuth := pendingAuth[flightId := ChallengeOf(v)];
      r := Ok(ChallengeIssued(v.rand, v.autn));
    }

    /** Handshake step 2: succeeds iff the flight has a pending challenge and
        the response equals its expected response. On success the
        AUTHENTICATED transaction joins the pool, the session key is set and
        the pool is mined at once; on failure nothing changes. The pending
        challenge is kept either way. */
    method AuthStep2(flightId: int, supi: string, resStar: Option<string>, clock: Clock)
      returns (r: Reply<AuthReply>)
      requires Valid()
      modifies this, CoreOf(flightId)
      ensures Valid()
      ensures pendingAuth == old(pendingAuth) && epohCores == old(epohCores) && flightCount == old(flightCount)
      ensures flightId !in old(activeChains) ==> r == InvalidFlightId && activeChains == old(activeChains)
      ensures flightId in old(activeChains) && !ResponseMatches(pendingAuth, flightId, resStar) ==>
        r == Ok(AuthFailure) && activeChains == old(activeChains)
      ensures flightId in old(activeChains) && ResponseMatches(pendingAuth, flightId, resStar) ==>
        && r == Ok(AuthSuccess(pendingAuth[flightId].sessionKey))
        && activeChains == AuthSuccessStep(H, old(activeChains), flightId, supi, pendingAuth[flightId], clock)
        && flightId in epohCores && Sequenced(flightId, |old(activeChains)[flightId].pool| + 1)
      ensures !(flightId in old(activeChains) && ResponseMatches(pendingAuth, flightId, resStar)) ==>
        unchanged(old(epohCores.Values))
      ensures forall g :: g in old(epohCores) && g != flightId ==> unchanged(old(epohCores[g]))
    {
      if flightId !in activeChains {
        return InvalidFlightId;
      }
      if ResponseMatches(pendingAuth, flightId, resStar) {
        var c := pendingAuth[flightId];
        var L := activeChains[flightId];
        WellFormedIsMinable(H, L);
        var authed := L.(pool := L.pool + [AuthSuccessTx(H, supi, clock.now, c)], sessionKey := Some(c.sessionKey));
        UpdateKeepsChainsWellFormed(H, activeChains, flightId, authed);
        activeChains := activeChains[flightId := authed];
        var h := MineBlock(flightId, clock);
        assert h.Some?;
        return Ok(AuthSuccess(c.sessionKey));
      }
      r := Ok(AuthFailure);
    }

    /** The pool-and-mine half of `log_telemetry`: `tx` joins the flight's
        pool, which is mined only when it then holds at least `BatchSize`
        transactions; the answer then carries the first 10 characters of the
        new block's hash. */
    method QueueTelemetry(flightId: int, tx: Tx, clock: Clock) returns (r: Reply<TelemetryReply>)
      requires Valid()
      modifies this, CoreOf(flightId)
      ensures Valid()
      ensures pendingAuth == old(pendingAuth) && epohCores == old(epohCores) && flightCount == old(flightCount)
      ensures flightId !in old(activeChains) ==> r == InvalidFlightId && activeChains == old(activeChains)
      ensures flightId in old(activeChains) ==>
        var L := old(activeChains)[flightId];
        && activeChains == TelemetryStep(H, old(activeChains), flightId, tx, clock)
        && (|L.pool| + 1 < BatchSize ==> r == Ok(TxReceived))
        && (|L.pool| + 1 >= BatchSize ==>
              flightId in activeChains && Minable(activeChains[flightId])
              && r == Ok(TxBlockAck(Some(Prefix(LastHash(activeChains[flightId].chain), 10))))
              && flightId in epohCores && Sequenced(flightId, |L.pool| + 1))
      ensures !(flightId in old(activeChains) && |old(activeChains)[flightId].pool| + 1 >= BatchSize) ==>
        unchanged(old(epohCores.Values))
      ensures forall g :: g in old(epohCores) && g != flightId ==> unchanged(old(epohCores[g]))
    {
      if flightId !in activeChains {
        return InvalidFlightId;
      }
      var L := activeChains[flightId];
      WellFormedIsMinable(H, L);
      var queued := L.(pool := L.pool + [tx]);
      UpdateKeepsChainsWellFormed(H, activeChains, flightId, queued);
      activeChains := activeChains[flightId := queued];
      if |activeChains[flightId].pool| >= BatchSize {
        var h := MineBlock(flightId, clock);
        r := Ok(TxBlockAck(if h.Some? then Some(Prefix(h.value, 10)) else None));
      } else {
        r := Ok(TxReceived);
      }
    }

    /** The ledger step of `log_telemetry`: for an active flight whose
        telemetry is an object, queues the TELEMETRY_TX holding the annotated
        object, as `QueueTelemetry` does. Telemetry that is not an object
        (missing, a list, a number) cannot take the flight's identifier: the
        request raises and nothing changes. The 'timestamp' is read at
        `stampTime` and the default transaction identifier at `clock.now`,
        two readings of the clock in the source. */
    method LogTelemetry(flightId: int, telemetry: Json, txId: Option<Json>, violations: seq<Json>,
                        anomaly: Json, detectorTrained: bool, stampTime: real, clock: Clock)
      returns (r: Reply<TelemetryReply>)
      requires Valid()
      modifies this, CoreOf(flightId)
      ensures Valid()
      ensures pendingAuth == old(pendingAuth) && epohCores == old(epohCores) && flightCount == old(flightCount)
      ensures flightId !in old(activeChains) ==> r == InvalidFlightId && activeChains == old(activeChains)
      ensures flightId in old(activeChains) && !telemetry.JObj? ==>
        r == RequestRaised && activeChains == old(activeChains)
      ensures flightId in old(activeChains) && telemetry.JObj? ==>
        var L := old(activeChains)[flightId];
        var data := AnnotatedTelemetry(telemetry.fields, flightId, detectorTrained, stampTime);
        var tx := TelemetryTx(H, L, data, txId, violations, anomaly, clock.now);
        && activeChains == TelemetryStep(H, old(activeChains), flightId, tx, clock)
        && (|L.pool| + 1 < BatchSize ==> r == Ok(TxReceived))
        && (|L.pool| + 1 >= BatchSize ==>
              flightId in activeChains && Minable(activeChains[flightId])
              && r == Ok(TxBlockAck(Some(Prefix(LastHash(activeChains[flightId].chain), 10))))
              && flightId in epohCores && Sequenced(flightId, |L.pool| + 1))
      ensures !(flightId in old(activeChains) && telemetry.JObj? && |old(activeChains)[flightId].pool| + 1 >= BatchSize) ==>
        unchanged(old(epohCores.Values))
      ensures forall g :: g in old(epohCores) && g != flightId ==> unchanged(old(epohCores[g]))
    {
      if flightId !in activeChains {
        return InvalidFlightId;
      }
      if !telemetry.JObj? {
        return RequestRaised;
      }
      var data := AnnotatedTelemetry(telemetry.fields, flightId, detectorTrained, stampTime);
      var tx := TelemetryTx(H, activeChains[flightId], data, txId, violations, anomaly, clock.now);
      r := QueueTelemetry(flightId, tx, clock);
    }

    /** The ledger step of the end-flight request: an inactive flight is
        refused and nothing changes; otherwise the flight is archived. */
    method EndFlight(flightId: int, clock: Clock) returns (ok: bool)
      requires Valid()
      modifies this, CoreOf(flightId)
      ensures Valid()
      ensures ok <==> flightId in old(activeChains)
      ensures activeChains == ArchiveStep(H, old(activeChains), flightId, clock)
      ensures epohCores == old(epohCores) - {flightId}
      ensures forall g :: g in old(epohCores) && g != flightId ==> unchanged(old(epohCores[g]))
      ensures pendingAuth == old(pendingAuth) - {flightId}
      ensures flightCount == old(flightCount)
    {
      if flightId !in activeChains {
        assert ArchiveStep(H, activeChains, flightId, clock) == activeChains;
        return false;
      }
      ghost var archived;
      ok, archived := ArchiveFlight(flightId, clock);
    }
  }

  /** The coordinator keeps a pending challenge after a successful step 2,
      so replaying the same response succeeds again with the same session
      key (the device node, which consumes its challenge, refuses it). */
  method ReplayIsAccepted(m: BlockchainManager, flightId: int, supi: string, resStar: Option<string>,
                          clock1: Clock, clock2: Clock)
    returns (first: Reply<AuthReply>, second: Reply<AuthReply>)
    requires m.Valid()
    modifies m, m.epohCores.Values
    ensures first.Ok? && first.body.AuthSuccess? ==> second == first
  {
    ghost var before := m.activeChains;
    first := m.AuthStep2(flightId, supi, resStar, clock1);
    if flightId in before && ResponseMatches(m.pendingAuth, flightId, resStar) {
      AuthSuccessStepEffect(m.H, before, flightId, supi, m.pendingAuth[flightId], clock1);
    }
    second := m.AuthStep2(flightId, supi, resStar, clock2);
  }

  /** The handshake completes: for an active flight of a registered device,
      step 1 and then step 2 answered with the response the device computes
      from its key and the challenge value it received succeed with the
      session key of that challenge, and the ledger grows by one block. */
  method HandshakeCompletes(m: BlockchainManager, flightId: int, supi: string, now: real, clock: Clock)
    returns (challenge: Reply<AuthReply>, reply: Reply<AuthReply>)
    requires m.Valid() && flightId in m.activeChains && supi in UavDb
    modifies m, m.CoreOf(flightId)
    ensures challenge.Ok? && challenge.body.ChallengeIssued?
    ensures reply == Ok(AuthSuccess(SessionKey(m.H, UavDb[supi], challenge.body.rand)))
    ensures flightId in m.activeChains
    ensures |m.activeChains[flightId].chain| == |old(m.activeChains[flightId].chain)| + 1
  {
    challenge := m.AuthStep1(flightId, supi, now);
    var rand := challenge.body.rand;
    ghost var before := m.activeChains;
    AuthSuccessStepEffect(m.H, before, flightId, supi, m.pendingAuth[flightId], clock);
    reply := m.AuthStep2(flightId, supi, Some(ResStar(m.H, UavDb[supi], rand)), clock);
  }

  /** A whole flight driven through the engine: start, two telemetry
      records (kept in the pool), a third (mined into block index 2), then
      the end of the flight. */
  method EndToEndFlight(H: Hasher, clock: Clock, record: map<string, Json>)
  {
    var m := new BlockchainManager(H, None);
    var s := m.StartFlight("UAV_A1", None, 1.0, 1.0);
    assert s == Started(1, s.genesisHash);
    var fid := s.flightId;
    assert |m.activeChains[fid].chain| == 1 && m.activeChains[fid].pool == [];
    var r1 := m.LogTelemetry(fid, JObj(record), None, [], JNull, false, clock.now, clock);
    assert r1 == Ok(TxReceived);
    var r2 := m.LogTelemetry(fid, JObj(record), None, [], JNull, false, clock.now, clock);
    assert r2 == Ok(TxReceived);
    assert |m.activeChains[fid].chain| == 1 && |m.activeChains[fid].pool| == 2;
    ghost var before := m.activeChains;
    var r3 := m.LogTelemetry(fid, JObj(record), None, [], JNull, false, clock.now, clock);
    TelemetryStepEffect(H, before, fid, TelemetryTx(H, before[fid], AnnotatedTelemetry(record, fid, false, clock.now), None, [], JNull, clock.now), clock);
    assert r3.Ok? && r3.body.TxBlockAck?;
    assert |m.activeChains[fid].chain| == 2 && m.activeChains[fid].pool == [];
    var ended := m.EndFlight(fid, clock);
    assert ended && fid !in m.activeChains;
  }
}
