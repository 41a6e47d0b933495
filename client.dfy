/** The device-side ledger of UAV_Client.py (`LeaderNodeLocal`): one flight's
    chain, transaction pool and pending challenges, kept by the device
    itself, with its own sequencer. Every accepted transaction reaches the
    chain in arrival order, and a challenge answered correctly is consumed. */
module UavClient {
  import opened Primitives
  import opened Blocks
  import opened Sequencer
  import opened AuthSim
  import opened FlightIds

  /** The device-side registry of devices and their long-term keys. */
  const ClientUavDb: map<string, string> := map[
    "UAV_A1" := "K_LongTerm_A1",
    "UAV_B2" := "K_LongTerm_B2"]

  /** The node's sequencer is created with `EPOH_Core(difficulty=2)`. */
  const NodeDifficulty: int := 2

  /** `handle_telemetry_tx` mines once the pool holds this many transactions. */
  const BatchSize: nat := 3

  /** The device-side counter starts at 0. */
  const FirstFlightNumber: int := 0

  /** The simulated node public key returned with a challenge. */
  const NodePublicKey: string := "NodePubKey_Sim"

  /** The outcomes of the two handshake steps. `UnknownUav` is the step-1
      lookup of an unregistered device, which raises KeyError in the source. */
  datatype AuthReply =
    | ChallengeIssued(rand: int, autn: Digest, pkNode: string)
    | UnknownUav
    | AuthSuccess(sessionKey: string)
    | AuthFailure

  datatype TelemetryReply = TxReceived | TxBlockAck(hash: string)

  /** `get_next_flight_number`: 0 when the counter file is missing or does not
      hold an integer, otherwise the stored value plus one. */
  function NextFlightNumber(stored: Option<int>): int {
    NextFlightId(stored, FirstFlightNumber)
  }

  /** From a missing counter file, the `k`-th flight (counting from 0) is
      numbered `k`. */
  lemma FlightNumbersCountFromZero(k: nat)
    ensures NextFlightNumber(CounterAfter(None, FirstFlightNumber, k)) == k
  {
    IdsCountUpFromInitial(FirstFlightNumber, k);
  }

  /** The device's genesis block: index 0, previous hash "0", one CHAIN_START
      event and one GENESIS_TX transaction, sealed. */
  function GenesisBlock(H: Hasher, flightId: int, time: real): Block {
    Seal(H, Block(0, time, "0",
                  [ChainStart(Obj([("event_type", JStr("CHAIN_START")), ("flight_id", JInt(flightId))]))],
                  [Obj([("tx_id", JStr("GENESIS_TX")),
                        ("data", JStr("Flight " + H.show(flightId) + " Initialized"))])],
                  None))
  }

  /** A genesis block on its own is a well-formed chain whose last hash is
      the genesis block's own hash, and nothing is logged yet. */
  lemma GenesisStartsChain(H: Hasher, flightId: int, time: real)
    ensures var g := GenesisBlock(H, flightId, time);
      && g.index == 0 && g.previousHash == "0" && g.timestamp == time
      && WellFormedChain(H, [g]) && HasLastHash([g]) && LastHash([g]) == HashBlock(H, g)
      && Logged([g]) == []
  {
    SealIsSelfHash(H, GenesisBlock(H, flightId, time).(currentHash := None));
  }

  /** The chain after `mine_block` built one block from `pool`. */
  function MinedChain(H: Hasher, chain: seq<Block>, pool: seq<Tx>, flightId: int, clock: Clock): seq<Block>
    requires HasLastHash(chain)
  {
    chain + [HybridBlock(H, Rounds(NodeDifficulty), pool, LastHash(chain), |chain|, flightId, clock)]
  }

  /** Mining appends exactly one block, linked to the previous last hash and
      at index `len(chain) + 1`, holding the pool in order: the chain stays
      well formed and the log grows by exactly the pool. */
  lemma MinedChainExtends(H: Hasher, chain: seq<Block>, pool: seq<Tx>, flightId: int, clock: Clock)
    requires WellFormedChain(H, chain)
    ensures HasLastHash(chain)
    ensures var c := MinedChain(H, chain, pool, flightId, clock);
      var b := c[|chain|];
      && |c| == |chain| + 1 && c[..|chain|] == chain
      && b.index == |chain| + 1 && b.previousHash == LastHash(chain) && b.transactions == pool
      && WellFormedChain(H, c)
      && HasLastHash(c) && LastHash(c) == HashBlock(H, b)
      && Logged(c) == Logged(chain) + pool
  {
    WellFormedChainFacts(H, chain, 0);
    var b := HybridBlock(H, Rounds(NodeDifficulty), pool, LastHash(chain), |chain|, flightId, clock);
    HybridBlockShape(H, Rounds(NodeDifficulty), pool, LastHash(chain), |chain|, flightId, clock);
    AppendKeepsWellFormed(H, chain, b);
    LoggedAppend(chain, b);
    assert (chain + [b])[..|chain|] == chain;
  }

  /** Whether step 2's response matches the device's pending challenge. */
  predicate ResponseMatches(pending: map<string, Challenge>, supi: string, resStar: string) {
    supi in pending && resStar == pending[supi].xresStar
  }

  class LeaderNodeLocal {
    const H: Hasher
    const flightId: int
    var chain: seq<Block>
    var transactionPool: seq<Tx>
    var pendingAuthChallenges: map<string, Challenge>
    const epoh: EpohCore

    /** The node's invariant: the chain is well formed, the sequencer has the
        node's difficulty and its running hash is the chain's last hash. */
    ghost predicate Valid()
      reads this, epoh
    {
      && WellFormedChain(H, chain)
      && HasLastHash(chain)
      && epoh.difficulty == NodeDifficulty
      && epoh.latestHash == LastHash(chain)
    }

    /** `__init__` and `create_genesis_block`: a chain holding only the
        genesis block, an empty pool, no pending challenge, and a fresh
        sequencer whose running hash is the genesis hash. */
    constructor (H: Hasher, flightId: int, genesisTime: real)
      ensures Valid() && fresh(epoh)
      ensures this.H == H && this.flightId == flightId
      ensures chain == [GenesisBlock(H, flightId, genesisTime)]
      ensures transactionPool == [] && pendingAuthChallenges == map[]
    {
      this.H := H;
      this.flightId := flightId;
      var g := GenesisBlock(H, flightId, genesisTime);
      GenesisStartsChain(H, flightId, genesisTime);
      chain := [g];
      transactionPool := [];
      pendingAuthChallenges := map[];
      epoh := new EpohCore(NodeDifficulty);
      new;
      epoh.latestHash := g.currentHash.value;
    }

    /** `mine_block`: with an empty pool, returns None and changes nothing;
        otherwise the sequencer builds one block from the whole pool, the
        block is appended, the pool emptied and the block's hash returned. */
    method MineBlock(clock: Clock) returns (h: Option<Digest>)
      requires Valid()
      modifies this, epoh
      ensures Valid()
      ensures old(transactionPool) == [] ==>
        h == None && chain == old(chain) && transactionPool == [] && unchanged(epoh)
      ensures old(transactionPool) != [] ==>
        && chain == MinedChain(H, old(chain), old(transactionPool), flightId, clock)
        && transactionPool == []
        && h == Some(LastHash(chain))
        && epoh.sequenceCount == |old(transactionPool)| * (Rounds(NodeDifficulty) + 1)
      ensures pendingAuthChallenges == old(pendingAuthChallenges)
    {
      if transactionPool == [] {
        return None;
      }
      MinedChainExtends(H, chain, transactionPool, flightId, clock);
      var lastHash := chain[|chain| - 1].currentHash.value;
      var b := epoh.CreateBlock(H, transactionPool, lastHash, |chain|, flightId, clock);
      chain := chain + [b];
      transactionPool := [];
      h := Some(HashBlock(H, b));
    }

    /** Handshake step 1: for a registered device, stores (or overwrites) its
        pending challenge and returns the challenge value, the token and the
        node key, withholding the expected response and the session key. */
    method HandleAuthRequest1(supi: string, now: real) returns (r: AuthReply)
      requires Valid()
      modifies this`pendingAuthChallenges
      ensures Valid()
      ensures supi !in ClientUavDb ==> r == UnknownUav && pendingAuthChallenges == old(pendingAuthChallenges)
      ensures supi in ClientUavDb ==>
        var v := AuthVectorAt(H, supi, ClientUavDb[supi], now);
        && pendingAuthChallenges == old(pendingAuthChallenges)[supi := ChallengeOf(v)]
        && r == ChallengeIssued(v.rand, v.autn, NodePublicKey)
    {
      if supi !in ClientUavDb {
        return UnknownUav;
      }
      var v := AuthVectorAt(H, supi, ClientUavDb[supi], now);
      pendingAuthChallenges := pendingAuthChallenges[supi := ChallengeOf(v)];
      r := ChallengeIssued(v.rand, v.autn, NodePublicKey);
    }

    /** Handshake step 2: succeeds iff the device has a pending challenge and
        the response equals its expected response. On success the
        AUTHENTICATED transaction joins the pool, the challenge is consumed
        and the pool is mined at once; on failure nothing changes. */
    method HandleAuthResponse2(supi: string, resStar: string, clock: Clock) returns (r: AuthReply)
      requires Valid()
      modifies this, epoh
      ensures Valid()
      ensures !ResponseMatches(old(pendingAuthChallenges), supi, resStar) ==>
        && r == AuthFailure
        && chain == old(chain) && transactionPool == old(transactionPool)
        && pendingAuthChallenges == old(pendingAuthChallenges)
        && unchanged(epoh)
      ensures ResponseMatches(old(pendingAuthChallenges), supi, resStar) ==>
        var c := old(pendingAuthChallenges)[supi];
        && r == AuthSuccess(c.sessionKey)
        && pendingAuthChallenges == old(pendingAuthChallenges) - {supi}
        && chain == MinedChain(H, old(chain), old(transactionPool) + [AuthSuccessTx(H, supi, clock.now, c)],
                               flightId, clock)
        && transactionPool == []
        && epoh.sequenceCount == (|old(transactionPool)| + 1) * (Rounds(NodeDifficulty) + 1)
    {
      if !ResponseMatches(pendingAuthChallenges, supi, resStar) {
        return AuthFailure;
      }
      var c := pendingAuthChallenges[supi];
      transactionPool := transactionPool + [AuthSuccessTx(H, supi, clock.now, c)];
      pendingAuthChallenges := pendingAuthChallenges - {supi};
      var _ := MineBlock(clock);
      r := AuthSuccess(c.sessionKey);
    }

    /** `handle_telemetry_tx`: the transaction joins the pool, which is mined
        once it holds at least `BatchSize` transactions; the reply then
        carries the first 10 characters of the new block's hash. */
    method HandleTelemetryTx(tx: Tx, clock: Clock) returns (r: TelemetryReply)
      requires Valid()
      modifies this, epoh
      ensures Valid()
      ensures |old(transactionPool)| + 1 < BatchSize ==>
        r == TxReceived && chain == old(chain) && transactionPool == old(transactionPool) + [tx]
        && unchanged(epoh)
      ensures |old(transactionPool)| + 1 >= BatchSize ==>
        && chain == MinedChain(H, old(chain), old(transactionPool) + [tx], flightId, clock)
        && transactionPool == []
        && epoh.sequenceCount == (|old(transactionPool)| + 1) * (Rounds(NodeDifficulty) + 1)
        && r == TxBlockAck(Prefix(LastHash(chain), 10))
      ensures pendingAuthChallenges == old(pendingAuthChallenges)
    {
      transactionPool := transactionPool + [tx];
      if |transactionPool| >= BatchSize {
        var h := MineBlock(clock);
        r := TxBlockAck(Prefix(h.value, 10));
      } else {
        r := TxReceived;
      }
    }
  }

  /** A telemetry step from a pool below `BatchSize` keeps it below
      `BatchSize` and loses no transaction: the log plus the pool grows by
      exactly the accepted transaction, at the end. */
  lemma TelemetryIsLoggedInOrder(H: Hasher, chain: seq<Block>, pool: seq<Tx>, tx: Tx, flightId: int, clock: Clock)
    requires WellFormedChain(H, chain) && |pool| < BatchSize
    ensures HasLastHash(chain)
    ensures var after := if |pool| + 1 >= BatchSize then MinedChain(H, chain, pool + [tx], flightId, clock) else chain;
      var afterPool := if |pool| + 1 >= BatchSize then [] else pool + [tx];
      && |afterPool| < BatchSize
      && Logged(after) + afterPool == Logged(chain) + pool + [tx]
  {
    MinedChainExtends(H, chain, pool + [tx], flightId, clock);
  }

  /** A device that answered its challenge correctly cannot replay the same
      response: the challenge was consumed, so the second answer fails and
      leaves the chain as the first one left it. */
  method ReplayIsRefused(node: LeaderNodeLocal, supi: string, resStar: string, clock1: Clock, clock2: Clock)
    returns (first: AuthReply, second: AuthReply)
    requires node.Valid()
    modifies node, node.epoh
    ensures first.AuthSuccess? ==> second == AuthFailure
  {
    first := node.HandleAuthResponse2(supi, resStar, clock1);
    second := node.HandleAuthResponse2(supi, resStar, clock2);
  }
}
