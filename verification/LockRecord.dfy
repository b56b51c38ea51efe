/** The record that a lock holds in either backend (src/config_shield.py). */
module LockRecords {

  /** Nodes are told apart by name; two shields with one name would be one node. */
  type Node = string

  datatype LockRecord = LockRecord(nodeId: Node, acquiredAt: int, ttlMs: int, heartbeatAt: int)

  /** A record as a node writes it when it acquires. */
  function NewRecord(n: Node, ttlMs: int, now: int): LockRecord {
    LockRecord(n, now, ttlMs, now)
  }

  /** A record as a heartbeat rewrites it: the acquisition time of the record that was read stays. */
  function Renewed(seen: LockRecord, n: Node, ttlMs: int, now: int): LockRecord {
    LockRecord(n, seen.acquiredAt, ttlMs, now)
  }

  /** The last moment at which the record is not stale. */
  function Deadline(record: LockRecord): int {
    record.heartbeatAt + record.ttlMs
  }

  predicate IsStale(record: LockRecord, now: int) {
    now - record.heartbeatAt > record.ttlMs
  }
}
