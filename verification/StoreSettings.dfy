/** Constants of the backup store. */
module StoreSettings {

  /** How long a chunk is left alone after it was last touched. */
  const GC_GRACE_S: real := 86700.0

  /** How many chunks are stored or read at once. */
  const WORKERS: nat := 4
}
