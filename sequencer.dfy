/** The "proof of history" sequencer (`EPOH_Core`) of the coordinator and of
    the device-side leader node: a running hash that is advanced `difficulty`
    times before each transaction is embedded, producing one embedding event
    per transaction; the block it builds is then sealed with `hash_block`. */
module Sequencer {
  import opened Primitives
  import opened Blocks

  /** The number of times `for _ in range(difficulty)` runs. */
  function Rounds(difficulty: int): nat {
    if difficulty > 0 then difficulty else 0
  }

  /** `k` successive calls of `generate_sequential_hash` starting from `h`. */
  function Iterate(H: Hasher, h: string, k: nat): string {
    if k == 0 then h else H.sha256(Iterate(H, h, k - 1))
  }

  /** `tx.get('tx_id')`. */
  function TxId(tx: Tx): Json {
    if "tx_id" in tx then tx["tx_id"] else JNull
  }

  /** `embed_transaction` applied to running hash `h` with serialiser `dumps`. */
  function Embed(H: Hasher, dumps: Json -> string, h: string, tx: Tx): Digest {
    H.sha256(h + dumps(JObj(tx)))
  }

  /** The running hash after `txs` have been processed starting from `start`:
      each transaction is preceded by `rounds` sequential hashes and then
      embedded. */
  function Trail(H: Hasher, dumps: Json -> string, rounds: nat, start: string, txs: seq<Tx>): string
    decreases |txs|
  {
    if txs == [] then start
    else Embed(H, dumps, Iterate(H, Trail(H, dumps, rounds, start, txs[..|txs| - 1]), rounds), txs[|txs| - 1])
  }

  /** The event log `create_block` accumulates for `txs`. */
  function Events(H: Hasher, dumps: Json -> string, rounds: nat, start: string, txs: seq<Tx>,
                  flightId: Option<int>, times: nat -> real): seq<Event>
    decreases |txs|
  {
    if txs == [] then []
    else
      Events(H, dumps, rounds, start, txs[..|txs| - 1], flightId, times)
      + [Embedded(times(|txs| - 1), Trail(H, dumps, rounds, start, txs), TxId(txs[|txs| - 1]), flightId)]
  }

  /** Exactly one event per transaction, in input order: the i-th event carries
      the i-th transaction's `tx_id`, the flight identifier, the i-th embedding
      time and the running hash right after the i-th embedding. */
  lemma {:induction false} EventsDescribeEachTransaction(
    H: Hasher, dumps: Json -> string, rounds: nat, start: string, txs: seq<Tx>,
    flightId: Option<int>, times: nat -> real)
    ensures |Events(H, dumps, rounds, start, txs, flightId, times)| == |txs|
    ensures forall i :: 0 <= i < |txs| ==>
      Events(H, dumps, rounds, start, txs, flightId, times)[i]
        == Embedded(times(i), Trail(H, dumps, rounds, start, txs[..i + 1]), TxId(txs[i]), flightId)
    decreases |txs|
  {
    if txs != [] {
      var init := txs[..|txs| - 1];
      EventsDescribeEachTransaction(H, dumps, rounds, start, init, flightId, times);
      forall i | 0 <= i < |txs|
        ensures Events(H, dumps, rounds, start, txs, flightId, times)[i]
          == Embedded(times(i), Trail(H, dumps, rounds, start, txs[..i + 1]), TxId(txs[i]), flightId)
      {
        if i < |txs| - 1 {
          assert init[..i + 1] == txs[..i + 1];
        } else {
          assert txs[..i + 1] == txs;
        }
      }
    }
  }

  /** The running hash after one more transaction. */
  lemma TrailStep(H: Hasher, dumps: Json -> string, rounds: nat, start: string, txs: seq<Tx>, i: nat)
    requires i < |txs|
    ensures Trail(H, dumps, rounds, start, txs[..i + 1])
      == Embed(H, dumps, Iterate(H, Trail(H, dumps, rounds, start, txs[..i]), rounds), txs[i])
  {
    assert txs[..i + 1][..i] == txs[..i];
  }

  /** The events after one more transaction. */
  lemma EventsStep(H: Hasher, dumps: Json -> string, rounds: nat, start: string, txs: seq<Tx>, i: nat,
                   flightId: Option<int>, times: nat -> real)
    requires i < |txs|
    ensures Events(H, dumps, rounds, start, txs[..i + 1], flightId, times)
      == Events(H, dumps, rounds, start, txs[..i], flightId, times)
         + [Embedded(times(i), Trail(H, dumps, rounds, start, txs[..i + 1]), TxId(txs[i]), flightId)]
  {
    assert txs[..i + 1][..i] == txs[..i];
  }

  /** One more transaction costs `rounds` sequential hashes and one
      embedding. */
  lemma CountStep(i: nat, rounds: nat)
    ensures (i + 1) * (rounds + 1) == i * (rounds + 1) + rounds + 1
  {
  }

  /** The block `create_block` of the coordinator and the device leader node
      returns: index `chain_length + 1`, the given previous hash, the event
      log, the transactions unchanged, sealed with `hash_block`. */
  function HybridBlock(H: Hasher, rounds: nat, txs: seq<Tx>, previousHash: string,
                       chainLength: int, flightId: int, clock: Clock): Block
  {
    Seal(H, Block(chainLength + 1, clock.blockTime, previousHash,
                  Events(H, H.dumpsCompact, rounds, previousHash, txs, Some(flightId), clock.embedTimes),
                  txs, None))
  }

  /** What a built block promises: its index, its link to the previous hash,
      the transactions passed through unchanged, exactly one event per
      transaction in input order carrying that transaction's `tx_id`, the
      flight identifier and the running hash after its embedding, and a
      current hash equal to `hash_block` of the block itself. */
  lemma HybridBlockShape(H: Hasher, rounds: nat, txs: seq<Tx>, previousHash: string,
                         chainLength: int, flightId: int, clock: Clock)
    ensures var b := HybridBlock(H, rounds, txs, previousHash, chainLength, flightId, clock);
      && b.index == chainLength + 1
      && b.timestamp == clock.blockTime
      && b.previousHash == previousHash
      && b.transactions == txs
      && b.currentHash == Some(HashBlock(H, b))
      && |b.eventLog| == |txs|
      && (forall i :: 0 <= i < |txs| ==>
            b.eventLog[i] == Embedded(clock.embedTimes(i),
                                           Trail(H, H.dumpsCompact, rounds, previousHash, txs[..i + 1]),
                                           TxId(txs[i]), Some(flightId)))
  {
    var events := Events(H, H.dumpsCompact, rounds, previousHash, txs, Some(flightId), clock.embedTimes);
    SealIsSelfHash(H, Block(chainLength + 1, clock.blockTime, previousHash, events, txs, None));
    EventsDescribeEachTransaction(H, H.dumpsCompact, rounds, previousHash, txs, Some(flightId), clock.embedTimes);
  }

  /** `EPOH_Core` of GCS_LeaderNode.py and UAV_Client.py (the two copies are
      the same code). The hash primitives are passed to each operation. */
  class EpohCore {
    const difficulty: int
    var latestHash: string
    var sequenceCount: int

    constructor (difficulty: int)
      ensures this.difficulty == difficulty
      ensures latestHash == ZeroDigest && sequenceCount == 0
    {
      this.difficulty := difficulty;
      latestHash := ZeroDigest;
      sequenceCount := 0;
    }

    /** One step of the hash sequence. */
    method GenerateSequentialHash(H: Hasher) returns (h: Digest)
      modifies this
      ensures h == H.sha256(old(latestHash)) && latestHash == h
      ensures sequenceCount == old(sequenceCount) + 1
    {
      h := H.sha256(latestHash);
      latestHash := h;
      sequenceCount := sequenceCount + 1;
    }

    /** `for _ in range(n): self.generate_sequential_hash()`: the running
        hash is hashed `n` times (no time for a negative `n`). */
    method AdvanceSequence(H: Hasher, n: int)
      modifies this
      ensures latestHash == Iterate(H, old(latestHash), Rounds(n))
      ensures sequenceCount == old(sequenceCount) + Rounds(n)
    {
      var j := 0;
      while j < n
        invariant 0 <= j <= Rounds(n)
        invariant latestHash == Iterate(H, old(latestHash), j)
        invariant sequenceCount == old(sequenceCount) + j
      {
        var _ := GenerateSequentialHash(H);
        j := j + 1;
      }
    }

    /** Hashes the compact serialisation of `payload` onto the running hash;
        `now` is the clock reading returned with the new hash. */
    method EmbedTransaction(H: Hasher, payload: Tx, now: real) returns (time: real, h: Digest)
      modifies this
      ensures h == Embed(H, H.dumpsCompact, old(latestHash), payload) && latestHash == h
      ensures sequenceCount == old(sequenceCount) + 1
      ensures time == now
    {
      latestHash := H.sha256(latestHash + H.dumpsCompact(JObj(payload)));
      sequenceCount := sequenceCount + 1;
      return now, latestHash;
    }

    /** Builds a block over `txs`: the running hash restarts at
        `previousHash`, each transaction is preceded by `difficulty`
        sequential hashes and recorded by one event; the block is sealed with
        `hash_block` and the running hash continues from its current hash. */
    method CreateBlock(H: Hasher, txs: seq<Tx>, previousHash: string, chainLength: int, flightId: int, clock: Clock)
      returns (b: Block)
      modifies this
      ensures b == HybridBlock(H, Rounds(difficulty), txs, previousHash, chainLength, flightId, clock)
      ensures latestHash == HashBlock(H, b)
      ensures sequenceCount == |txs| * (Rounds(difficulty) + 1)
    {
      ghost var rounds := Rounds(difficulty);
      latestHash := previousHash;
      sequenceCount := 0;
      var eventLog: seq<Event> := [];
      var i := 0;
      while i < |txs|
        invariant 0 <= i <= |txs|
        invariant latestHash == Trail(H, H.dumpsCompact, rounds, previousHash, txs[..i])
        invariant sequenceCount == i * (rounds + 1)
        invariant eventLog == Events(H, H.dumpsCompact, rounds, previousHash, txs[..i], Some(flightId), clock.embedTimes)
      {
        AdvanceSequence(H, difficulty);
        CountStep(i, rounds);
        var txTime, txHash := EmbedTransaction(H, txs[i], clock.embedTimes(i));
        TrailStep(H, H.dumpsCompact, rounds, previousHash, txs, i);
        EventsStep(H, H.dumpsCompact, rounds, previousHash, txs, i, Some(flightId), clock.embedTimes);
        eventLog := eventLog + [Embedded(txTime, txHash, TxId(txs[i]), Some(flightId))];
        i := i + 1;
      }
      assert txs[..i] == txs;
      var body := Block(chainLength + 1, clock.blockTime, previousHash, eventLog, txs, None);
      b := body.(currentHash := Some(HashBlock(H, body)));
      latestHash := b.currentHash.value;
    }
  }
}
