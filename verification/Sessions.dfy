/**
 Followers with any number of live sessions (internal/cluster/transport/server.go): the handler reads
 its tail in one critical section and appends in another, and another session may append in between.
 */
module Sessions {
  import opened HighWater
  import opened Following
  import opened Replication
  import opened ReplicationRuns

  // ---------------------------------------------------------------- one append

  /** The record that the handler appends is the one the leader holds at the follower's tail. */
  ghost predicate Fits(c: Cluster, st: Stream)
    requires WellFormed(c) && st.to in c.nodes && st.handler.Checked?
  {
    var leader, tail := c.nodes[c.leader].log, |c.nodes[st.to].log|;
    tail < |leader| && st.handler.entry.payload == leader[tail]
  }

  lemma {:induction false} ExtendsIff(log: seq<Payload>, leader: seq<Payload>, p: Payload)
    requires Follows(log, leader)
    ensures Follows(log + [p], leader) <==> |log| < |leader| && p == leader[|log|]
  {
    if |log| < |leader| {
      assert leader[..|log| + 1] == leader[..|log|] + [leader[|log|]];
      assert (log + [p])[|log|] == p;
    }
  }

  /** An append keeps every log a prefix of the leader's exactly when it fits. */
  lemma {:induction false} StoreKeepsPrefixIff(c: Cluster, sid: nat, result: AppendResult)
    requires WellFormed(c) && Prefixed(c) && Enabled(false, c, Act(sid, result))
    requires Stores(c.streams[sid], result) && c.streams[sid].to != c.leader
    ensures WellFormed(Do(false, c, Act(sid, result)))
    ensures Prefixed(Do(false, c, Act(sid, result))) <==> Fits(c, c.streams[sid])
  {
    var st, d := c.streams[sid], Do(false, c, Act(sid, result));
    StepWellFormed(false, c, Act(sid, result));
    ExtendsIff(c.nodes[st.to].log, c.nodes[c.leader].log, st.handler.entry.payload);
    assert forall r :: r in c.nodes && r != st.to ==> d.nodes[r] == c.nodes[r];
    assert d.nodes[st.to].log == c.nodes[st.to].log + [st.handler.entry.payload];
  }

  // ---------------------------------------------------------------- what sessions carry

  ghost predicate FromLeader(e: Entry, leader: seq<Payload>) {
    e.off < |leader| && e.payload == leader[e.off]
  }

  /** A session of the leader, to another node, with records of its log. */
  ghost predicate Carries(c: Cluster, st: Stream)
    requires c.leader in c.nodes
  {
    var leader := c.nodes[c.leader].log;
    && st.from == c.leader != st.to
    && (forall i :: 0 <= i < |st.pipe| ==> FromLeader(st.pipe[i], leader))
    && (st.handler.Checked? ==> FromLeader(st.handler.entry, leader))
  }

  ghost predicate AllCarry(c: Cluster)
    requires c.leader in c.nodes
  {
    forall sid :: sid in c.streams ==> Carries(c, c.streams[sid])
  }

  lemma {:induction false} LeaderGrows(c: Cluster, step: Step)
    requires WellFormed(c) && Enabled(false, c, step) && !step.Elect?
    ensures var d := Do(false, c, step);
            d.leader == c.leader && WellFormed(d) && c.nodes[c.leader].log <= d.nodes[c.leader].log
  {
    StepWellFormed(false, c, step);
    StepGrows(false, c, step);
  }

  lemma {:induction false} StillCarries(c: Cluster, d: Cluster, st: Stream)
    requires WellFormed(c) && WellFormed(d) && d.leader == c.leader
    requires c.nodes[c.leader].log <= d.nodes[c.leader].log && Carries(c, st)
    ensures Carries(d, st)
  {
  }

  lemma {:induction false} StreamCarries(c: Cluster, step: Step, sid: nat)
    requires WellFormed(c) && AllCarry(c) && Enabled(false, c, step) && !step.Elect?
             && sid in StreamsAfter(false, c, step)
    ensures Carries(c, StreamsAfter(false, c, step)[sid])
  {
    if sid in c.streams {
      assert Carries(c, c.streams[sid]);
    }
  }

  lemma {:induction false} StepCarries(c: Cluster, step: Step)
    requires WellFormed(c) && AllCarry(c) && Enabled(false, c, step) && !step.Elect?
    ensures WellFormed(Do(false, c, step)) && AllCarry(Do(false, c, step))
  {
    LeaderGrows(c, step);
    var d := Do(false, c, step);
    forall sid | sid in d.streams
      ensures Carries(d, d.streams[sid])
    {
      StreamCarries(c, step, sid);
      StillCarries(c, d, d.streams[sid]);
    }
  }

  lemma {:induction false} RunCarries(c: Cluster, steps: seq<Step>)
    requires Initial(c) && EnabledRun(false, c, steps) && NoElection(steps)
    ensures AllCarry(After(false, c, steps))
  {
    if steps != [] {
      var n := |steps| - 1;
      RunCarries(c, steps[..n]);
      StepCarries(After(false, c, steps[..n]), steps[n]);
    }
  }

  // ---------------------------------------------------------------- whole runs

  /** The step appends a record of a session to its follower. */
  predicate Appends(c: Cluster, step: Step) {
    step.Act? && step.sid in c.streams && Stores(c.streams[step.sid], step.result)
  }

  /** Every append of the run fits. */
  ghost predicate AllFit(c: Cluster, steps: seq<Step>)
    requires WellFormed(c) && EnabledRun(false, c, steps)
  {
    steps == [] || (
      var n := |steps| - 1;
      var b := After(false, c, steps[..n]);
      AllFit(c, steps[..n]) && (Appends(b, steps[n]) ==> Fits(b, b.streams[steps[n].sid])))
  }

  lemma {:induction false} OtherStepsKeepPrefix(c: Cluster, step: Step)
    requires WellFormed(c) && Prefixed(c) && Enabled(false, c, step) && !step.Elect? && !Appends(c, step)
    ensures WellFormed(Do(false, c, step)) && Prefixed(Do(false, c, step))
  {
    StepWellFormed(false, c, step);
    var d := Do(false, c, step);
    forall r | r in d.nodes
      ensures Follows(d.nodes[r].log, d.nodes[d.leader].log)
    {
      assert Follows(c.nodes[r].log, c.nodes[c.leader].log);
    }
  }

  /**
   With any number of sessions and one leader: every log stays a prefix of the leader's exactly
   when every append fits.
   */
  lemma {:induction false} PrefixUnderSessionsIff(c: Cluster, steps: seq<Step>)
    requires Initial(c) && EnabledRun(false, c, steps) && NoElection(steps)
    ensures AlwaysPrefixed(false, c, steps) <==> AllFit(c, steps)
  {
    if steps != [] {
      var n := |steps| - 1;
      var b := After(false, c, steps[..n]);
      PrefixUnderSessionsIff(c, steps[..n]);
      RunCarries(c, steps[..n]);
      if Prefixed(b) {
        if Appends(b, steps[n]) {
          StoreKeepsPrefixIff(b, steps[n].sid, steps[n].result);
        } else {
          OtherStepsKeepPrefix(b, steps[n]);
        }
      }
    }
  }

  // ---------------------------------------------------------------- when records differ

  ghost predicate AllDiffer(log: seq<Payload>) {
    forall i, j :: 0 <= i < j < |log| ==> log[i] != log[j]
  }

  /** While the leader's records differ, an append fits exactly when the tail has not moved since it was read. */
  lemma {:induction false} FitsIffTailStands(c: Cluster, steps: seq<Step>, sid: nat, result: AppendResult)
    requires Initial(c) && EnabledRun(false, c, steps) && NoElection(steps)
    requires var b := After(false, c, steps);
             Prefixed(b) && AllDiffer(b.nodes[b.leader].log) && Appends(b, Act(sid, result))
    ensures var b := After(false, c, steps);
            Fits(b, b.streams[sid]) <==> |b.nodes[b.streams[sid].to].log| == b.streams[sid].handler.tail
  {
    var b := After(false, c, steps);
    RunCarries(c, steps);
    assert Carries(b, b.streams[sid]);
  }
}
