/** What every benchmark loop meets: completions that report errors, and a clock. */
module Machine {
  /** A work completion that reports an error. */
  datatype WcError = WcError

  /** How long a loop tolerates silence, in clock ticks. */
  const IDLE_TIMEOUT: nat := 2_000_000_000

  /** Reads a clock that was last read at `than` and never stands still. */
  method Later(than: nat) returns (t: nat)
    ensures t > than
  {
    t := *;
    if t <= than {
      t := than + 1;
    }
  }
}
