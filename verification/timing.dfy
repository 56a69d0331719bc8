/**
 * The timestamp comparisons that decide whether a sync stops to ask the
 * user: the commit time of the fetched branch tip against the editor's
 * last-modified time, with a two-second tolerance.
 */
module Timing {
  import opened Base
  import opened Identity

  /** Differences up to this many milliseconds are not treated as "newer". */
  const Tolerance := 2000

  /** The fetched tip's committer time in milliseconds, or 0 when the log could not be read. */
  function RemoteTime(commitSeconds: Option<int>): (ms: int)
    ensures commitSeconds.None? ==> ms == 0
    ensures commitSeconds.Some? ==> ms == commitSeconds.value * 1000
  {
    match commitSeconds
    case None => 0
    case Some(seconds) => seconds * 1000
  }

  /** The pull's question: the editor's copy is known and more than the tolerance newer. */
  predicate LocalNewer(local: Timestamp, remote: int) {
    Positive(local) && local.ms > remote + Tolerance
  }

  /** The push's question: the editor's time is known and the remote is more than the tolerance newer. */
  predicate RemoteNewer(remote: int, local: Timestamp) {
    Positive(local) && remote > local.ms + Tolerance
  }

  /** The push compares times only for a manual sync that found a remote commit time. */
  predicate ChecksConflict(isAuto: bool, remote: int) {
    remote > 0 && !isAuto
  }

  /** The two questions are never both due for the same pair of times. */
  lemma NeverBothNewer(local: Timestamp, remote: int)
    ensures !(LocalNewer(local, remote) && RemoteNewer(remote, local))
  {
  }

  /** Within the tolerance neither direction asks. */
  lemma WithinToleranceNeverAsks(local: Timestamp, remote: int)
    requires local.Millis? && -Tolerance <= local.ms - remote <= Tolerance
    ensures !LocalNewer(local, remote) && !RemoteNewer(remote, local)
  {
  }

  /** An unknown editor time (0 or an unparseable date) never triggers a question. */
  lemma UnknownLocalTimeNeverAsks(local: Timestamp, remote: int)
    requires !Positive(local)
    ensures !LocalNewer(local, remote) && !RemoteNewer(remote, local)
  {
  }
}
