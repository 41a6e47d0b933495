/** `verify_log`: re-derives each block's link from the persisted chain alone
    and reports the first broken link or chronology violation. */
module Verifier {
  import opened Primitives
  import opened Blocks

  /** Block `i` points at the recomputed hash of block `i - 1`. */
  predicate Linked(H: Hasher, chain: seq<Block>, i: nat)
    requires 1 <= i < |chain|
  {
    chain[i].previousHash == HashBlock(H, chain[i - 1])
  }

  /** Block `i` is strictly later than block `i - 1`. */
  predicate InOrder(chain: seq<Block>, i: nat)
    requires 1 <= i < |chain|
  {
    chain[i].timestamp > chain[i - 1].timestamp
  }

  /** Every adjacent pair is linked and in chronological order. */
  predicate Intact(H: Hasher, chain: seq<Block>) {
    && |chain| >= 1
    && forall i :: 1 <= i < |chain| ==> Linked(H, chain, i) && InOrder(chain, i)
  }

  /** Timestamps strictly increase along the chain. */
  predicate Chronological(chain: seq<Block>) {
    forall i :: 1 <= i < |chain| ==> InOrder(chain, i)
  }

  /** The verdicts `verify_log` returns. Only `Secured` has 'secured': true.
      `hash` is the offending block's previous hash for a failure and the
      last block's current hash for success. */
  datatype Verification =
    | LoadFailed                                  // the file could not be read as JSON
    | Empty                                       // 'Chain is empty.'
    | LinkBroken(index: nat, hash: string)        // 'Link broken at Block #i.'
    | ChronologyViolation(index: nat, hash: string) // 'Chronology violation at Block #i.'
    | MissingCurrentHash                          // the last block has no 'current_hash': KeyError in the source
    | Secured(hash: string)                       // 'Integrity and Chronology Confirmed.'

  /** The success verdict for a chain all of whose pairs passed. */
  function Final(chain: seq<Block>): Verification
    requires |chain| >= 1
  {
    match chain[|chain| - 1].currentHash
    case Some(h) => Secured(h)
    case None => MissingCurrentHash
  }

  /** The loop of `verify_log` from position `i` on: linkage is checked before
      chronology, and the first failure is reported. */
  function Scan(H: Hasher, chain: seq<Block>, i: nat): Verification
    requires 1 <= i <= |chain|
    decreases |chain| - i
  {
    if i == |chain| then Final(chain)
    else if !Linked(H, chain, i) then LinkBroken(i, chain[i].previousHash)
    else if !InOrder(chain, i) then ChronologyViolation(i, chain[i].previousHash)
    else Scan(H, chain, i + 1)
  }

  /** The verdict for a loaded chain (`None` when the file could not be loaded). */
  function Verify(H: Hasher, loaded: Option<seq<Block>>): Verification {
    match loaded
    case None => LoadFailed
    case Some(chain) => if |chain| == 0 then Empty else Scan(H, chain, 1)
  }

  /** `verify_log` itself: a read-only loop with early return. */
  method VerifyLog(H: Hasher, loaded: Option<seq<Block>>) returns (r: Verification)
    ensures r == Verify(H, loaded)
    ensures r.Secured? <==> loaded.Some? && Intact(H, loaded.value)
                            && loaded.value[|loaded.value| - 1].currentHash.Some?
  {
    if loaded.None? {
      return LoadFailed;
    }
    var chain := loaded.value;
    if |chain| < 1 {
      return Empty;
    }
    ScanSecuredIffIntact(H, chain, 1);
    for i := 1 to |chain|
      invariant Scan(H, chain, i) == Scan(H, chain, 1)
    {
      var current, previous := chain[i], chain[i - 1];
      if current.previousHash != HashBlock(H, previous) {
        return LinkBroken(i, current.previousHash);
      }
      if current.timestamp <= previous.timestamp {
        return ChronologyViolation(i, current.previousHash);
      }
    }
    match chain[|chain| - 1].currentHash {
      case Some(h) => return Secured(h);
      case None => return MissingCurrentHash;
    }
  }

  /** The scan from `i` succeeds exactly when every pair from `i` on passes
      and the last block carries a current hash. */
  lemma {:induction false} ScanSecuredIffIntact(H: Hasher, chain: seq<Block>, i: nat)
    requires 1 <= i <= |chain|
    ensures Scan(H, chain, i).Secured? <==>
      && (forall j :: i <= j < |chain| ==> Linked(H, chain, j) && InOrder(chain, j))
      && chain[|chain| - 1].currentHash.Some?
    ensures Scan(H, chain, i).Secured? ==> Scan(H, chain, i).hash == chain[|chain| - 1].currentHash.value
    decreases |chain| - i
  {
    if i < |chain| && Linked(H, chain, i) && InOrder(chain, i) {
      ScanSecuredIffIntact(H, chain, i + 1);
    }
  }

  /** A reported broken link names the first pair that fails. */
  lemma {:induction false} ScanReportsFirstBrokenLink(H: Hasher, chain: seq<Block>, i: nat)
    requires 1 <= i <= |chain|
    requires Scan(H, chain, i).LinkBroken?
    ensures i <= Scan(H, chain, i).index < |chain|
    ensures !Linked(H, chain, Scan(H, chain, i).index)
    ensures Scan(H, chain, i).hash == chain[Scan(H, chain, i).index].previousHash
    ensures forall j :: i <= j < Scan(H, chain, i).index ==> Linked(H, chain, j) && InOrder(chain, j)
    decreases |chain| - i
  {
    if i < |chain| && Linked(H, chain, i) && InOrder(chain, i) {
      assert Scan(H, chain, i) == Scan(H, chain, i + 1);
      ScanReportsFirstBrokenLink(H, chain, i + 1);
      forall j | i <= j < Scan(H, chain, i).index
        ensures Linked(H, chain, j) && InOrder(chain, j)
      {
        if j == i {
        }
      }
    }
  }

  /** A reported chronology violation names the first pair that fails, and
      that pair's link holds: linkage is checked before chronology. */
  lemma {:induction false} ScanReportsFirstChronologyViolation(H: Hasher, chain: seq<Block>, i: nat)
    requires 1 <= i <= |chain|
    requires Scan(H, chain, i).ChronologyViolation?
    ensures i <= Scan(H, chain, i).index < |chain|
    ensures Linked(H, chain, Scan(H, chain, i).index) && !InOrder(chain, Scan(H, chain, i).index)
    ensures Scan(H, chain, i).hash == chain[Scan(H, chain, i).index].previousHash
    ensures forall j :: i <= j < Scan(H, chain, i).index ==> Linked(H, chain, j) && InOrder(chain, j)
    decreases |chain| - i
  {
    if i < |chain| && Linked(H, chain, i) && InOrder(chain, i) {
      ScanReportsFirstChronologyViolation(H, chain, i + 1);
    }
  }

  /** `verify_log` reports 'secured' exactly for a non-empty, intact chain
      whose last block has a current hash, and then returns that hash. */
  lemma VerifySecuredIffIntact(H: Hasher, chain: seq<Block>)
    ensures Verify(H, Some(chain)).Secured? <==>
      Intact(H, chain) && chain[|chain| - 1].currentHash.Some?
    ensures Verify(H, Some(chain)).Secured? ==>
      Verify(H, Some(chain)).hash == chain[|chain| - 1].currentHash.value
  {
    if |chain| > 0 {
      ScanSecuredIffIntact(H, chain, 1);
    }
  }

  /** A well-formed chain is linked at every pair. */
  lemma WellFormedIsLinked(H: Hasher, chain: seq<Block>, i: nat)
    requires WellFormedChain(H, chain) && 1 <= i < |chain|
    ensures Linked(H, chain, i)
  {
    WellFormedChainFacts(H, chain, i);
    WellFormedChainFacts(H, chain, i - 1);
  }

  /** A chain built by a genesis block and mining, whose block timestamps
      strictly increase, verifies as secured with its last block's hash. */
  lemma BuiltChainVerifies(H: Hasher, chain: seq<Block>)
    requires WellFormedChain(H, chain) && Chronological(chain)
    ensures Verify(H, Some(chain)) == Secured(LastHash(chain))
  {
    forall i | 1 <= i < |chain| ensures Linked(H, chain, i) {
      WellFormedIsLinked(H, chain, i);
    }
    VerifySecuredIffIntact(H, chain);
  }

  /** Tampering with block 1 of an intact chain of three or more blocks so
      that its hash changes, while its own link and chronology still pass, is
      reported as a broken link at block 2. */
  lemma TamperedBlockIsReported(H: Hasher, chain: seq<Block>, forged: Block)
    requires Intact(H, chain) && |chain| >= 3
    requires HashBlock(H, forged) != HashBlock(H, chain[1])
    requires forged.previousHash == chain[1].previousHash
    requires forged.timestamp > chain[0].timestamp
    ensures Verify(H, Some(chain[1 := forged])) == LinkBroken(2, chain[2].previousHash)
  {
    var t := chain[1 := forged];
    assert Linked(H, chain, 1) && Linked(H, chain, 2);
    assert t[0] == chain[0] && t[1] == forged && t[2] == chain[2];
    assert Linked(H, t, 1) && InOrder(t, 1);
    assert Scan(H, t, 1) == Scan(H, t, 2);
    assert !Linked(H, t, 2);
  }

  /** Tampering with the previous hash of block 1 is reported at block 1. */
  lemma RelinkedBlockIsReportedAtOne(H: Hasher, chain: seq<Block>, forged: Block)
    requires Intact(H, chain) && |chain| >= 2
    requires forged.previousHash != chain[1].previousHash
    ensures Verify(H, Some(chain[1 := forged])) == LinkBroken(1, forged.previousHash)
  {
    var t := chain[1 := forged];
    assert Linked(H, chain, 1);
    assert t[0] == chain[0] && t[1] == forged;
    assert !Linked(H, t, 1);
  }

  /** Moving the timestamp of block 2 back to or before that of block 1, with
      the links untouched, is reported as a chronology violation at block 2. */
  lemma BackdatedBlockIsReported(H: Hasher, chain: seq<Block>, t: real)
    requires Intact(H, chain) && |chain| >= 3
    requires t <= chain[1].timestamp
    ensures Verify(H, Some(chain[2 := chain[2].(timestamp := t)]))
      == ChronologyViolation(2, chain[2].previousHash)
  {
    var c := chain[2 := chain[2].(timestamp := t)];
    assert Linked(H, chain, 1) && InOrder(chain, 1) && Linked(H, chain, 2);
    assert c[0] == chain[0] && c[1] == chain[1] && c[2].previousHash == chain[2].previousHash;
    assert Linked(H, c, 1) && InOrder(c, 1);
    assert Scan(H, c, 1) == Scan(H, c, 2);
    assert Linked(H, c, 2) && !InOrder(c, 2);
  }
}
