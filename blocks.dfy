/** Blocks, the canonical block hash (`hash_block`) and the shape of a chain
    built by genesis plus mining. */
module Blocks {
  import opened Primitives

  /** A transaction is an opaque JSON object supplied by the caller. */
  type Tx = map<string, Json>

  /** An entry of a block's event log. `Embedded` is the TRANSACTION_EMBEDDED
      record the sequencer writes for each transaction (the standalone
      sequencer records no flight identifier); `ChainStart` is a genesis
      block's CHAIN_START record, whose fields differ between the coordinator
      and the device node. */
  datatype Event =
    | Embedded(timestamp: real, hashAtEvent: string, txId: Json, flightId: Option<int>)
    | ChainStart(record: map<string, Json>)

  /** The event as the JSON object the source stores. */
  function EventFields(e: Event): map<string, Json> {
    match e
    case ChainStart(record) => record
    case Embedded(time, h, txId, flightId) =>
      var common := [
        ("event_type", JStr("TRANSACTION_EMBEDDED")),
        ("timestamp", JReal(time)),
        ("hash_at_event", JStr(h)),
        ("tx_id", txId)];
      match flightId
      case None => Obj(common)
      case Some(f) => Obj(common + [("flight_id", JInt(f))])
  }

  /** A list of events as JSON objects. */
  function EventObjects(events: seq<Event>): seq<Json>
  {
    if events == [] then [] else [JObj(EventFields(events[0]))] + EventObjects(events[1..])
  }

  /** A block record. `currentHash` is `None` while the block is being built
      (the dict has no 'current_hash' key yet) and `Some` once it is sealed. */
  datatype Block = Block(
    index: int,
    timestamp: real,
    previousHash: string,
    eventLog: seq<Event>,
    transactions: seq<Tx>,
    currentHash: Option<string>)

  /** A list of JSON objects. */
  function Objects(objs: seq<map<string, Json>>): seq<Json>
  {
    if objs == [] then [] else [JObj(objs[0])] + Objects(objs[1..])
  }

  /** The entries every block record has, in the order the source writes
      them. */
  function BodyEntries(b: Block): seq<(string, Json)> {
    [("index", JInt(b.index)),
     ("timestamp", JReal(b.timestamp)),
     ("previous_hash", JStr(b.previousHash)),
     ("event_log", JArr(EventObjects(b.eventLog))),
     ("transactions", JArr(Objects(b.transactions)))]
  }

  /** The block as the JSON object the source stores and serialises. */
  function Fields(b: Block): map<string, Json> {
    match b.currentHash
    case None => Obj(BodyEntries(b))
    case Some(h) => Obj(BodyEntries(b) + [("current_hash", JStr(h))])
  }

  /** `hash_block`: digest of the compact, key-sorted serialisation of a copy
      of the block with 'current_hash' removed. */
  function HashBlock(H: Hasher, b: Block): Digest {
    H.sha256(H.dumpsCompact(JObj(Fields(b.(currentHash := None)))))
  }

  /** The hash of a block does not depend on its current hash: a block with
      no current hash and the same block carrying any current hash at all
      hash alike, and the serialised fields are the block's fields with
      'current_hash' removed. */
  lemma HashBlockIgnoresCurrentHash(H: Hasher, b: Block, h: Option<string>)
    ensures HashBlock(H, b.(currentHash := h)) == HashBlock(H, b)
    ensures Fields(b.(currentHash := None)) == Fields(b) - {"current_hash"}
  {
    var body := BodyEntries(b);
    ObjLacks(body, "current_hash");
    if b.currentHash.Some? {
      var entries := body + [("current_hash", JStr(b.currentHash.value))];
      assert entries[..|body|] == body;
      assert Fields(b) == Obj(body)["current_hash" := JStr(b.currentHash.value)];
    }
  }

  /** The block with its 'current_hash' set to `hash_block` of itself. */
  function Seal(H: Hasher, b: Block): Block {
    b.(currentHash := Some(HashBlock(H, b)))
  }

  /** A sealed block's current hash is its own `hash_block`, and sealing
      changes nothing else. */
  lemma SealIsSelfHash(H: Hasher, b: Block)
    ensures Seal(H, b).currentHash == Some(HashBlock(H, Seal(H, b)))
    ensures Seal(H, b).(currentHash := b.currentHash) == b
  {
  }

  /** The current hash of the last block (`chain[-1]['current_hash']`). */
  function LastHash(chain: seq<Block>): string
    requires |chain| > 0 && chain[|chain| - 1].currentHash.Some?
  {
    chain[|chain| - 1].currentHash.value
  }

  /** The chain ends with a block carrying a current hash. */
  predicate HasLastHash(chain: seq<Block>) {
    |chain| > 0 && chain[|chain| - 1].currentHash.Some?
  }

  /** The transactions of the mined blocks (every block after the genesis),
      in chain order. */
  function Logged(chain: seq<Block>): seq<Tx>
    decreases |chain|
  {
    if |chain| <= 1 then [] else Logged(chain[..|chain| - 1]) + chain[|chain| - 1].transactions
  }

  /** Appending a block to a chain that has its genesis adds exactly that
      block's transactions at the end of the log. */
  lemma LoggedAppend(chain: seq<Block>, b: Block)
    requires |chain| >= 1
    ensures Logged(chain + [b]) == Logged(chain) + b.transactions
  {
    assert (chain + [b])[..|chain|] == chain;
  }

  /** A block whose 'current_hash' is its own `hash_block`. */
  predicate Sealed(H: Hasher, b: Block) {
    b.currentHash == Some(HashBlock(H, b))
  }

  /** The shape every chain built by a genesis block and `mine_block` has:
      a sealed genesis at index 0 with previous hash "0", then sealed blocks
      each at index position + 1 (the first mined block gets
      `len(chain) + 1 == 2`) and linked to its predecessor's current hash. */
  ghost predicate WellFormedChain(H: Hasher, chain: seq<Block>)
    decreases |chain|
  {
    if |chain| <= 1 then
      |chain| == 1 && chain[0].index == 0 && chain[0].previousHash == "0" && Sealed(H, chain[0])
    else
      var b := chain[|chain| - 1];
      && WellFormedChain(H, chain[..|chain| - 1])
      && Sealed(H, b)
      && b.index == |chain|
      && chain[|chain| - 2].currentHash == Some(b.previousHash)
  }

  /** Appending a sealed block that links to the last hash and sits at index
      `len(chain) + 1` keeps a chain well formed. */
  lemma AppendKeepsWellFormed(H: Hasher, chain: seq<Block>, b: Block)
    requires WellFormedChain(H, chain)
    requires Sealed(H, b)
    requires b.index == |chain| + 1 && b.previousHash == LastHash(chain)
    ensures WellFormedChain(H, chain + [b])
    ensures LastHash(chain + [b]) == HashBlock(H, b)
  {
    assert (chain + [b])[..|chain|] == chain;
  }

  /** Every block of a well-formed chain is sealed, every block after the
      genesis sits at index position + 1 and links to its predecessor's
      current hash. */
  lemma {:induction false} WellFormedChainFacts(H: Hasher, chain: seq<Block>, i: nat)
    requires WellFormedChain(H, chain) && i < |chain|
    ensures |chain| >= 1 && chain[0].index == 0 && chain[0].previousHash == "0"
    ensures Sealed(H, chain[i])
    ensures i >= 1 ==> chain[i].index == i + 1 && chain[i - 1].currentHash == Some(chain[i].previousHash)
    decreases |chain|
  {
    if |chain| > 1 {
      var init := chain[..|chain| - 1];
      if i < |chain| - 1 {
        WellFormedChainFacts(H, init, i);
        assert init[i] == chain[i];
        if i >= 1 {
          assert init[i - 1] == chain[i - 1];
        }
      } else {
        WellFormedChainFacts(H, init, 0);
      }
      assert init[0] == chain[0];
    }
  }
}
