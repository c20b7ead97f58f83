/**
 The handler of a session, in the cluster of module Replication and in the loop of module
 Replicating, is the same: taking an entry and acting on it without interruption is serving it.
 */
module FollowerSteps {
  import opened Following
  import opened Replication
  import Replicating

  /** The luck of an entry whose shard opens, whose append ends so, and whose ack is sent. */
  predicate Meets(luck: Replicating.Luck, result: AppendResult) {
    luck.opens(0) && luck.appends(0) == result && luck.sends(0)
  }

  lemma {:induction false} TakenEntry(single: bool, c: Cluster, sid: nat) returns (b: Cluster, e: Entry)
    requires WellFormed(c) && Enabled(single, c, Take(sid))
    ensures b == Do(single, c, Take(sid)) && WellFormed(b) && e == c.streams[sid].pipe[0]
    ensures b.nodes == c.nodes && b.acks == c.acks && sid in b.streams && b.streams[sid].to == c.streams[sid].to
    ensures b.streams[sid].handler == Checked(e, |c.nodes[c.streams[sid].to].log|)
    ensures b.streams[sid].open == c.streams[sid].open
  {
    b, e := Do(single, c, Take(sid)), c.streams[sid].pipe[0];
    StepWellFormed(single, c, Take(sid));
  }

  /** The log, the ack and the end of the session are those of the loop. */
  lemma {:induction false} TakeAndActIsServed(single: bool, c: Cluster, sid: nat, result: AppendResult,
                                              luck: Replicating.Luck)
    requires WellFormed(c) && Enabled(single, c, Take(sid)) && Meets(luck, result)
    ensures var b := Do(single, c, Take(sid));
            && WellFormed(b) && Enabled(single, b, Act(sid, result))
            && var d, st := Do(single, b, Act(sid, result)), c.streams[sid];
               var log := c.nodes[st.to].log;
               var out := Replicating.Served(map[0 := log], [Replicating.ShardEntry(0, st.pipe[0])], 0, luck, []);
               && st.to in d.nodes && d.nodes[st.to].log == Replicating.LogOf(out.shards, 0)
               && (forall r :: r in c.nodes && r != st.to ==> r in d.nodes && d.nodes[r] == c.nodes[r])
               && |out.acks| <= 1
               && d.acks == c.acks + (if out.acks == [] then {} else {(st.to, out.acks[0].lastOffset + 1)})
               && sid in d.streams && d.streams[sid].open == (st.open && out.ending == Replicating.Closed)
  {
    var b, e := TakenEntry(single, c, sid);
    var log := c.nodes[c.streams[sid].to].log;
    ServedAlone(log, e, luck, result);
  }

  /** Serving one entry. */
  lemma {:induction false} ServedAlone(log: seq<Payload>, e: Entry, luck: Replicating.Luck, result: AppendResult)
    requires Meets(luck, result)
    ensures var out := Replicating.Served(map[0 := log], [Replicating.ShardEntry(0, e)], 0, luck, []);
            var stores := e.off == |log| && result != NotWritten;
            && Replicating.LogOf(out.shards, 0) == (if stores then log + [e.payload] else log)
            && out.acks == (if e.off < |log| then [Replicating.Ack(0, |log| - 1)]
                            else if e.off == |log| && result == Stored then [Replicating.Ack(0, |log|)] else [])
            && (out.ending == Replicating.Closed <==> out.acks != [])
  {
    var one := [Replicating.ShardEntry(0, e)];
    var answered, now, ack := Replicating.ServedOnce(map[0 := log], one, 0, 1, luck, []);
    if answered {
      assert Replicating.Served(now, one, 1, luck, [] + [ack])
          == Replicating.Outcome(now, [] + [ack], Replicating.Closed);
    }
  }
}
