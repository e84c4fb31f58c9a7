/** The host's half of the file context. Every change of what a snapshot would say takes a new
    revision; the worker's confirmation of a revision is remembered separately.
 */
module RemoteScope {
  import opened Delivery
  import opened FileRegistry
  import opened Prelude

  datatype Host = Host(revision: nat, acked: int, snap: Snapshot)

  const EMPTY_CONTEXT := Snapshot(map[], [], false, None)

  function Changed(h: Host, s: Snapshot): Host {
    h.(revision := h.revision + 1, snap := s)
  }

  function Begun(s: Snapshot, oid: string): Snapshot {
    s.(pending := s.pending + [oid])
  }

  function Committed(s: Snapshot, rid: string, item: Item): Snapshot {
    s.(live := s.live[rid := item], pending := Without(s.pending, item.oid))
  }

  function Discarded(s: Snapshot, oid: string): Snapshot {
    s.(pending := Without(s.pending, oid))
  }

  function Retired(s: Snapshot, rids: set<string>): Snapshot {
    s.(live := s.live - rids)
  }

  function Closed(s: Snapshot): Snapshot {
    s.(live := map[], pending := [], closed := true)
  }

  datatype CommitResult = Done | Repeated | NoActiveScope | IdentityChanged | RetiredBefore

  /** What a commit answers; only `Done` changes the scope. */
  function CommitAnswer(s: Snapshot, rid: string, item: Item): CommitResult {
    if s.closed then NoActiveScope
    else if rid in s.live then (if s.live[rid] == item then Repeated else IdentityChanged)
    else if item.oid !in s.pending then RetiredBefore
    else Done
  }
}
