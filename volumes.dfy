/**
 * The values exchanged between the reconciliation core and its collaborators:
 * a parsed remote volume name and a tracked remote volume record.
 */
module Volumes {

  /** What the volume-name parser extracts from a remote file name.
      A size of -1 stands for "unknown". */
  datatype Descriptor = Descriptor(prefix: string, name: string, size: int)

  /** Lifecycle state of a tracked remote volume. */
  datatype RemoteVolumeState = Temporary | Uploading | Uploaded | Verified | Deleting | Deleted

  /** A tracked remote volume as the local database enumerates it. */
  datatype RemoteVolumeEntry = RemoteVolumeEntry(name: string, state: RemoteVolumeState, size: int, hash: string)

  /** An in-flight state: the operation started but was never confirmed. */
  predicate InFlight(s: RemoteVolumeState)
  {
    s == Uploading || s == Deleting
  }

  /** A record that takes part in matching against the remote listing:
      neither skipped (Deleted) nor unconditionally dropped (Temporary). */
  predicate Claims(e: RemoteVolumeEntry)
  {
    e.state != Deleted && e.state != Temporary
  }
}
