/** The earlier standalone sequencer of epoh_core.py. It differs from the
    ledger's sequencer in four ways: the default difficulty is 5, payloads
    are serialised with the default separators, events carry no flight
    identifier, and the block's current hash is the final running hash
    rather than `hash_block`. The block index is always 1, since the class
    has no `chain` attribute. */
module LegacySequencer {
  import opened Primitives
  import opened Blocks
  import opened Sequencer

  /** `EPOH_Core(difficulty=5)`. */
  const DefaultDifficulty: int := 5

  /** The block `create_block` returns for `txs` after `previousHash`. */
  function LegacyBlock(H: Hasher, rounds: nat, txs: seq<Tx>, previousHash: string, clock: Clock): Block {
    Block(1, clock.blockTime, previousHash,
          Events(H, H.dumpsDefault, rounds, previousHash, txs, None, clock.embedTimes),
          txs,
          Some(Trail(H, H.dumpsDefault, rounds, previousHash, txs)))
  }

  /** What a legacy block promises: index 1, the given previous hash, the
      transactions unchanged, one event per transaction in input order with
      that transaction's `tx_id`, no flight identifier and the running hash
      after its embedding. Its current hash is the previous hash when there
      are no transactions, and otherwise the hash recorded by the last event. */
  lemma LegacyBlockShape(H: Hasher, rounds: nat, txs: seq<Tx>, previousHash: string, clock: Clock)
    ensures var b := LegacyBlock(H, rounds, txs, previousHash, clock);
      && b.index == 1
      && b.timestamp == clock.blockTime
      && b.previousHash == previousHash
      && b.transactions == txs
      && b.currentHash.Some?
      && |b.eventLog| == |txs|
      && (forall i :: 0 <= i < |txs| ==>
            b.eventLog[i] == Embedded(clock.embedTimes(i),
                                           Trail(H, H.dumpsDefault, rounds, previousHash, txs[..i + 1]),
                                           TxId(txs[i]), None))
      && (txs == [] ==> b.currentHash == Some(previousHash))
      && (txs != [] ==>
            b.eventLog[|txs| - 1] == Embedded(clock.embedTimes(|txs| - 1), b.currentHash.value,
                                                   TxId(txs[|txs| - 1]), None))
  {
    EventsDescribeEachTransaction(H, H.dumpsDefault, rounds, previousHash, txs, None, clock.embedTimes);
    if txs != [] {
      assert txs[..|txs|] == txs;
    }
  }

  /** `EPOH_Core` of epoh_core.py. */
  class LegacyEpohCore {
    const difficulty: int
    var latestHash: string
    var sequenceCount: int

    constructor (difficulty: int)
      ensures this.difficulty == difficulty
      ensures latestHash == ZeroDigest && sequenceCount == 0
    {
      this.difficulty := difficulty;
      latestHash := ZeroDigest;
      sequenceCount := 0;
    }

    /** `EPOH_Core()` with the default difficulty. */
    constructor WithDefaultDifficulty()
      ensures difficulty == DefaultDifficulty
      ensures latestHash == ZeroDigest && sequenceCount == 0
    {
      difficulty := DefaultDifficulty;
      latestHash := ZeroDigest;
      sequenceCount := 0;
    }

    /** One step of the hash sequence. */
    method GenerateSequentialHash(H: Hasher) returns (h: Digest)
      modifies this
      ensures h == H.sha256(old(latestHash)) && latestHash == h
      ensures sequenceCount == old(sequenceCount) + 1
    {
      h := H.sha256(latestHash);
      latestHash := h;
      sequenceCount := sequenceCount + 1;
    }

    /** `for _ in range(n): self.generate_sequential_hash()`: the running
        hash is hashed `n` times (no time for a negative `n`). */
    method AdvanceSequence(H: Hasher, n: int)
      modifies this
      ensures latestHash == Iterate(H, old(latestHash), Rounds(n))
      ensures sequenceCount == old(sequenceCount) + Rounds(n)
    {
      var j := 0;
      while j < n
        invariant 0 <= j <= Rounds(n)
        invariant latestHash == Iterate(H, old(latestHash), j)
        invariant sequenceCount == old(sequenceCount) + j
      {
        var _ := GenerateSequentialHash(H);
        j := j + 1;
      }
    }

    /** Hashes the default serialisation of `payload` onto the running hash;
        `now` is the clock reading returned with the new hash. */
    method EmbedTransaction(H: Hasher, payload: Tx, now: real) returns (time: real, h: Digest)
      modifies this
      ensures h == Embed(H, H.dumpsDefault, old(latestHash), payload) && latestHash == h
      ensures sequenceCount == old(sequenceCount) + 1
      ensures time == now
    {
      latestHash := H.sha256(latestHash + H.dumpsDefault(JObj(payload)));
      sequenceCount := sequenceCount + 1;
      return now, latestHash;
    }

    /** Builds a block over `txs`: the running hash restarts at
        `previousHash`, each transaction is preceded by `difficulty`
        sequential hashes and recorded by one event, and the final running
        hash becomes the block's current hash. */
    method CreateBlock(H: Hasher, txs: seq<Tx>, previousHash: string, clock: Clock) returns (b: Block)
      modifies this
      ensures b == LegacyBlock(H, Rounds(difficulty), txs, previousHash, clock)
      ensures Some(latestHash) == b.currentHash
      ensures sequenceCount == |txs| * (Rounds(difficulty) + 1)
    {
      ghost var rounds := Rounds(difficulty);
      latestHash := previousHash;
      sequenceCount := 0;
      var eventLog: seq<Event> := [];
      var i := 0;
      while i < |txs|
        invariant 0 <= i <= |txs|
        invariant latestHash == Trail(H, H.dumpsDefault, rounds, previousHash, txs[..i])
        invariant sequenceCount == i * (rounds + 1)
        invariant eventLog == Events(H, H.dumpsDefault, rounds, previousHash, txs[..i], None, clock.embedTimes)
      {
        AdvanceSequence(H, difficulty);
        CountStep(i, rounds);
        var txTime, txHash := EmbedTransaction(H, txs[i], clock.embedTimes(i));
        TrailStep(H, H.dumpsDefault, rounds, previousHash, txs, i);
        EventsStep(H, H.dumpsDefault, rounds, previousHash, txs, i, None, clock.embedTimes);
        eventLog := eventLog + [Embedded(txTime, txHash, TxId(txs[i]), None)];
        i := i + 1;
      }
      assert txs[..i] == txs;
      b := Block(1, clock.blockTime, previousHash, eventLog, txs, Some(latestHash));
    }
  }
}
