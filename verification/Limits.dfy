/** The constants of the webhook store. Times are milliseconds. */
module Limits {
  const MAX_BINS_PER_USER: nat := 3
  const MAX_HITS_PER_BIN: nat := 100
  const MAX_BODY_BYTES: nat := 262144
  const BIN_TTL: nat := 72 * 3600 * 1000
  const ID_BYTES: nat := 16
}
