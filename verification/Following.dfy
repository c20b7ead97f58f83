/** What a follower does with one entry of a replication stream (internal/cluster/transport/server.go). */
module Following {

  type Payload = string

  datatype Entry = Entry(off: nat, payload: Payload)

  /** An append that is not synced returns an error, but its record counts in the tail. */
  datatype AppendResult = Stored | NotWritten | NotSynced

  /** The entry is the next record and its bytes go into the shard. */
  predicate Writes(tail: nat, e: Entry, result: AppendResult) {
    e.off == tail && !result.NotWritten?
  }
}
