/** The persisted flight counter: the file holds the last identifier issued. */
module FlightIds {
  import opened Primitives

  /** The identifier issued when the counter file holds `stored` (`None` when
      the file is missing or its content is not an integer): `initial` in the
      first case, `stored + 1` otherwise. The coordinator starts at 1, the
      device client at 0. */
  function NextFlightId(stored: Option<int>, initial: int): int {
    match stored
    case None => initial
    case Some(n) => n + 1
  }

  /** The counter after `k` calls, each of which stores what it returns. */
  function CounterAfter(stored: Option<int>, initial: int, k: nat): Option<int> {
    if k == 0 then stored else Some(NextFlightId(CounterAfter(stored, initial, k - 1), initial))
  }

  /** From a missing counter file, call number `k` (counting from 0) issues
      `initial + k`: identifiers start at `initial` and increase by one. */
  lemma {:induction false} IdsCountUpFromInitial(initial: int, k: nat)
    ensures NextFlightId(CounterAfter(None, initial, k), initial) == initial + k
  {
    if k > 0 {
      IdsCountUpFromInitial(initial, k - 1);
    }
  }
}
