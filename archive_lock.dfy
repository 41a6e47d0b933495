/** The locking of `archive_flight` as written in GCS_LeaderNode.py. Its first
    critical section holds the manager's lock while it calls `mine_block`,
    whose own critical section asks for the same lock again; a
    `threading.Lock` is not re-entrant, so that second request waits for
    ever. The rest of the model runs operations atomically and uses the
    intended behaviour (`Coordinator.BlockchainManager.ArchiveFlight`). */
module ArchiveLock {
  import opened Primitives
  import opened Blocks
  import opened Coordinator

  /** How a sequence of critical sections ends: `Blocked` when a thread asks
      for a non-re-entrant lock it already holds. */
  datatype LockOutcome = Completed | Blocked

  /** `with self.lock:` entered by a thread that does (`held`) or does not
      already hold the lock, running `body` inside. */
  function WithLock(held: bool, body: bool -> LockOutcome): LockOutcome {
    if held then Blocked else body(true)
  }

  /** `mine_block`'s critical section, entered with the lock in state `held`. */
  function MineBlockLocking(held: bool): LockOutcome {
    WithLock(held, _ => Completed)
  }

  /** `archive_flight`'s first critical section as written: inside the lock,
      a flight with a non-empty pool calls `mine_block`; the clean-up section
      after it takes the lock afresh. */
  function ArchiveFlightLocking(chains: map<int, FlightLedger>, flightId: int): LockOutcome {
    var flush := WithLock(false, held =>
      if flightId in chains && chains[flightId].pool != [] then MineBlockLocking(held) else Completed);
    if flush == Blocked then Blocked else WithLock(false, _ => Completed)
  }

  /** As written, archiving returns exactly when there is nothing to flush:
      an active flight with pending transactions (one or two telemetry
      records, since a third is mined at once) blocks for ever, so that
      flight is never removed and its pool is never mined. */
  lemma ArchiveBlocksIffPoolPending(chains: map<int, FlightLedger>, flightId: int)
    ensures ArchiveFlightLocking(chains, flightId) == Blocked
        <==> flightId in chains && chains[flightId].pool != []
  {
  }

  /** The corrected, sequential archive flushes the pending pool into one
      block and removes the flight: the property the source evidently
      intends. */
  lemma CorrectedArchiveFlushesAndRemoves(H: Hasher, chains: map<int, FlightLedger>, flightId: int, clock: Clock)
    requires ChainsWellFormed(H, chains) && flightId in chains && chains[flightId].pool != []
    ensures Minable(chains[flightId])
    ensures flightId !in ArchiveStep(H, chains, flightId, clock)
    ensures var archived := ArchivedChain(H, chains, flightId, clock);
      && |archived| == |chains[flightId].chain| + 1
      && archived[|archived| - 1].transactions == chains[flightId].pool
      && WellFormedChain(H, archived)
  {
    ArchiveStepEffect(H, chains, flightId, clock);
  }
}
