/** What the model assumes of one cache client: a keyed map whose entries carry their expiry. */
module Tiers {
  import opened Wrappers

  datatype Entry<+V> = Entry(value: V, expiresAt: nat)

  type Tier<V> = map<string, Entry<V>>

  // Durations and clock readings are in nanoseconds, as in Go's time package.
  const SECOND: nat := 1_000_000_000
  const HOUR: nat := 3600 * SECOND

  const TRACE_LIVE_TTL: nat := 30 * SECOND
  const TRACE_DONE_TTL: nat := 12 * HOUR
  const TERMINAL_JOBS_TTL: nat := 24 * HOUR

  /** An entry set at time s with time-to-live t is served up to and including s + t. */
  predicate Visible<V>(tier: Tier<V>, key: string, clock: nat) {
    key in tier && clock <= tier[key].expiresAt
  }

  function Lookup<V>(tier: Tier<V>, key: string, clock: nat): Option<V> {
    if Visible(tier, key, clock) then Some(tier[key].value) else None
  }
}
