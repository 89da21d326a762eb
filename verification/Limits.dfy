/** The constants of the service. Times are in nanoseconds. */
module Limits {
  const MILLISECOND: int := 1_000_000
  const SECOND: int := 1000 * MILLISECOND
  const MINUTE: int := 60 * SECOND

  const DEDUPE_WINDOW: int := 30 * MINUTE

  /** The deadline of a load from the database. */
  const LOAD_TIMEOUT: int := 2 * SECOND
  const SECOND_DELETE: int := 500 * MILLISECOND

  const LINK_TTL: int := 60 * MINUTE
  /** Jitter is below a tenth of the lifetime. */
  const LINK_JITTER: int := LINK_TTL / 10
  const NOT_FOUND_TTL: int := MINUTE
  const SNAPSHOT_TTL: int := 10 * MINUTE

  const MAX_CODE_RETRY: nat := 3
}
