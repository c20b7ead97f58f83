/** Whole runs of the cluster: what a quorum guarantees, what an election keeps, what an ack means. */
module ReplicationRuns {
  import opened HighWater
  import opened Replication
  import opened Following

  lemma {:induction false} InitialInv(c: Cluster)
    requires Initial(c)
    ensures Inv(c)
  {
    forall at | at in c.hwms
      ensures MarkTrue(c.hwms[at], c.nodes)
    {
      assert at in c.hwms[at].offsets && c.hwms[at].offsets[at] == 0;
    }
  }

  /** No node holds more records than id. */
  ghost predicate Longest(c: Cluster, id: NodeId)
    requires id in c.nodes
  {
    forall r :: r in c.nodes ==> |c.nodes[r].log| <= |c.nodes[id].log|
  }

  /** Every election of the run picks a node with a longest log. */
  ghost predicate FairElections(c: Cluster, steps: seq<Step>)
    requires WellFormed(c) && EnabledRun(true, c, steps)
  {
    steps == [] || (
      var n := |steps| - 1;
      FairElections(c, steps[..n]) && (steps[n].Elect? ==> Longest(After(true, c, steps[..n]), steps[n].id)))
  }

  lemma {:induction false} RunKeepsInv(c: Cluster, steps: seq<Step>) returns (d: Cluster)
    requires Inv(c) && EnabledRun(true, c, steps) && FairElections(c, steps)
    ensures d == After(true, c, steps) && Inv(d)
  {
    if steps == [] {
      d := c;
    } else {
      var n := |steps| - 1;
      var b := RunKeepsInv(c, steps[..n]);
      if steps[n].Elect? {
        ElectionKeepsPrefixIff(b, steps[n].id);
        d := Do(true, b, steps[n]);
      } else {
        d := StepKeepsInv(b, steps[n]);
      }
    }
  }

  /** The leader's mark covers k: what WaitFor(k) waits for. */
  ghost predicate Reached(c: Cluster, k: nat)
    requires WellFormed(c)
  {
    c.hwms[c.leader].current >= k
  }

  /**
   From empty logs, under any reconnects, lost sessions, failed appends and delayed, repeated or lost
   acks, and any elections of a longest log: every node's log stays a prefix of the leader's, no
   handler ever meets a gap, and once WaitFor(k) can succeed every tracked replica holds the
   leader's first k records.
   */
  lemma {:induction false} QuorumSafety(c: Cluster, steps: seq<Step>, k: nat)
    requires Initial(c) && EnabledRun(true, c, steps) && FairElections(c, steps)
    ensures var d := After(true, c, steps);
            var leader := d.nodes[d.leader].log;
            && (forall r :: r in d.nodes ==> Follows(d.nodes[r].log, leader))
            && (forall sid :: sid in d.streams && d.streams[sid].handler.Checked? ==>
                  d.streams[sid].handler.entry.off <= |d.nodes[d.streams[sid].to].log|)
            && (Reached(d, k) ==>
                  forall r :: r in d.hwms[d.leader].offsets ==>
                    r in d.nodes && k <= |d.nodes[r].log| && k <= |leader| && d.nodes[r].log[..k] == leader[..k])
  {
    InitialInv(c);
    var d := RunKeepsInv(c, steps);
    if Reached(d, k) {
      HoldsFirst(d, k);
    }
    forall sid | sid in d.streams && d.streams[sid].handler.Checked?
      ensures d.streams[sid].to in d.nodes
      ensures d.streams[sid].handler.entry.off <= |d.nodes[d.streams[sid].to].log|
    {
      assert StreamOk(d, d.streams[sid]);
    }
  }

  lemma {:induction false} HoldsFirst(d: Cluster, k: nat)
    requires Inv(d) && Reached(d, k)
    ensures var leader := d.nodes[d.leader].log;
            forall r :: r in d.hwms[d.leader].offsets ==>
              r in d.nodes && k <= |d.nodes[r].log| && k <= |leader| && d.nodes[r].log[..k] == leader[..k]
  {
    var leader, h := d.nodes[d.leader].log, d.hwms[d.leader];
    assert MarkTrue(h, d.nodes);
    forall r | r in h.offsets
      ensures r in d.nodes && k <= |d.nodes[r].log| && k <= |leader| && d.nodes[r].log[..k] == leader[..k]
    {
      var log := d.nodes[r].log;
      assert Follows(log, leader);
      assert log[..k] == leader[..|log|][..k] == leader[..k];
    }
  }

  lemma {:induction false} RunGrows(single: bool, c: Cluster, steps: seq<Step>)
    requires WellFormed(c) && EnabledRun(single, c, steps)
    ensures Grow(c.nodes, After(single, c, steps).nodes)
  {
    if steps != [] {
      RunGrows(single, c, steps[..|steps| - 1]);
      StepGrows(single, After(single, c, steps[..|steps| - 1]), steps[|steps| - 1]);
    }
  }

  /**
   The k records a successful WaitFor(k) covers stay on those nodes for good: through any elections,
   of any node and under live sessions of former leaders, and even if the one-session assumption
   fails later, each of those nodes keeps exactly those k records.
   */
  lemma {:induction false} CommittedStays(c: Cluster, steps: seq<Step>, k: nat, later: seq<Step>)
    requires Initial(c) && EnabledRun(true, c, steps) && FairElections(c, steps) && Reached(After(true, c, steps), k)
    requires EnabledRun(false, After(true, c, steps), later)
    ensures var d := After(true, c, steps);
            var e := After(false, d, later);
            forall r :: r in d.hwms[d.leader].offsets ==>
              r in d.nodes && r in e.nodes && k <= |d.nodes[d.leader].log| && k <= |e.nodes[r].log|
              && e.nodes[r].log[..k] == d.nodes[d.leader].log[..k]
  {
    var d := After(true, c, steps);
    QuorumSafety(c, steps, k);
    RunGrows(false, d, later);
    var e := After(false, d, later);
    forall r | r in d.hwms[d.leader].offsets
      ensures r in e.nodes && k <= |e.nodes[r].log| && e.nodes[r].log[..k] == d.nodes[d.leader].log[..k]
    {
      assert d.nodes[r].log <= e.nodes[r].log;
      assert e.nodes[r].log[..k] == d.nodes[r].log[..k];
    }
  }

  // ---------------------------------------------------------------- elections

  /**
   An election keeps the prefix property exactly when the new leader's log is at least as long as
   every other one. Nothing in the election compares logs.
   */
  lemma {:induction false} ElectionKeepsPrefixIff(c: Cluster, id: NodeId)
    requires Inv(c) && Enabled(true, c, Elect(id))
    ensures var d := Do(true, c, Elect(id));
            d.leader in d.nodes && (Prefixed(d) <==> Longest(c, id)) && (Longest(c, id) ==> Inv(d))
  {
    var lead := c.nodes[c.leader].log;
    forall r | r in c.nodes && |c.nodes[r].log| <= |c.nodes[id].log|
      ensures Follows(c.nodes[r].log, c.nodes[id].log)
    {
      assert Follows(c.nodes[r].log, lead) && Follows(c.nodes[id].log, lead);
      assert c.nodes[id].log[..|c.nodes[r].log|] == lead[..|c.nodes[r].log|];
    }
  }

  /** At every point of the run each log is a prefix of the leader's. */
  ghost predicate AlwaysPrefixed(single: bool, c: Cluster, steps: seq<Step>)
    requires WellFormed(c) && EnabledRun(single, c, steps)
  {
    Prefixed(After(single, c, steps)) && (steps == [] || AlwaysPrefixed(single, c, steps[..|steps| - 1]))
  }

  /** Over whole runs: the prefix property is kept throughout exactly when every election picks a longest log. */
  lemma {:induction false} PrefixIsKeptIff(c: Cluster, steps: seq<Step>)
    requires Initial(c) && EnabledRun(true, c, steps)
    ensures AlwaysPrefixed(true, c, steps) <==> FairElections(c, steps)
  {
    InitialInv(c);
    if FairElections(c, steps) {
      var _ := RunKeepsInv(c, steps);
    }
    if steps != [] {
      var n := |steps| - 1;
      PrefixIsKeptIff(c, steps[..n]);
      if FairElections(c, steps[..n]) && !FairElections(c, steps) {
        var b := RunKeepsInv(c, steps[..n]);
        ElectionKeepsPrefixIff(b, steps[n].id);
      }
    }
  }

  // ---------------------------------------------------------------- durability of what is acked

  /** Node r has written a record since it last fsynced. */
  ghost predicate Unsynced(single: bool, c: Cluster, steps: seq<Step>, r: NodeId)
    requires WellFormed(c) && EnabledRun(single, c, steps)
  {
    steps != [] && (
      var n := |steps| - 1;
      var b := After(single, c, steps[..n]);
      if steps[n].LeaderAppend? && b.leader == r then true
      else if steps[n].LeaderSync? && b.leader == r then false
      else if steps[n].Act? && StoresOn(b, steps[n].sid, steps[n].result, r) then steps[n].result.NotSynced?
      else Unsynced(single, c, steps[..n], r))
  }

  /** The handler of the session writes its entry to node r. */
  predicate StoresOn(c: Cluster, sid: nat, result: AppendResult, r: NodeId) {
    sid in c.streams && c.streams[sid].to == r && Stores(c.streams[sid], result)
  }

  /**
   In every run, with any sessions and elections: a node has fsynced all it holds exactly when the
   last record written to it was not left behind by a failed fsync.
   */
  lemma {:induction false} DurableIff(single: bool, c: Cluster, steps: seq<Step>, r: NodeId)
    requires Initial(c) && EnabledRun(single, c, steps) && r in c.nodes
    ensures var d := After(single, c, steps);
            && r in d.nodes && d.nodes[r].durable <= |d.nodes[r].log|
            && (d.nodes[r].durable == |d.nodes[r].log| <==> !Unsynced(single, c, steps, r))
  {
    if steps != [] {
      var n := |steps| - 1;
      DurableIff(single, c, steps[..n], r);
      DurableStep(single, After(single, c, steps[..n]), steps[n], r);
    }
  }

  lemma {:induction false} DurableStep(single: bool, b: Cluster, step: Step, r: NodeId)
    requires WellFormed(b) && Enabled(single, b, step) && r in b.nodes && b.nodes[r].durable <= |b.nodes[r].log|
    ensures var d := Do(single, b, step);
            && r in d.nodes && d.nodes[r].durable <= |d.nodes[r].log|
            && (d.nodes[r].durable == |d.nodes[r].log| <==>
                (if step.LeaderAppend? && b.leader == r then false
                 else if step.LeaderSync? && b.leader == r then true
                 else if step.Act? && StoresOn(b, step.sid, step.result, r) then !step.result.NotSynced?
                 else b.nodes[r].durable == |b.nodes[r].log|))
  {
  }

  /**
   An ack claims all that the follower holds when it is sent. That much is fsynced exactly when the
   ack is for the record just stored, or no failed fsync is outstanding on the follower.
   */
  lemma {:induction false} AckIsDurableIff(single: bool, c: Cluster, steps: seq<Step>, sid: nat, result: AppendResult)
    requires Initial(c) && EnabledRun(single, c, steps) && Enabled(single, After(single, c, steps), Act(sid, result))
    requires var st := After(single, c, steps).streams[sid];
             Skips(st) || (Stores(st, result) && result.Stored?)
    ensures var b := After(single, c, steps);
            var d, r := Do(single, b, Act(sid, result)), b.streams[sid].to;
            && r in c.nodes && r in d.nodes && (r, |d.nodes[r].log|) in d.acks
            && (d.nodes[r].durable == |d.nodes[r].log| <==>
                Stores(b.streams[sid], result) || !Unsynced(single, c, steps, r))
  {
    var b := After(single, c, steps);
    RunGrows(single, c, steps);
    DurableIff(single, c, steps, b.streams[sid].to);
    DurableStep(single, b, Act(sid, result), b.streams[sid].to);
  }

  lemma {:induction false} RunKeepsTruth(single: bool, c: Cluster, steps: seq<Step>)
    requires WellFormed(c) && Truthful(c) && EnabledRun(single, c, steps)
    ensures Truthful(After(single, c, steps))
  {
    if steps != [] {
      var n := |steps| - 1;
      RunKeepsTruth(single, c, steps[..n]);
      StepKeepsTruth(single, After(single, c, steps[..n]), steps[n]);
    }
  }

  /** While no failed fsync is outstanding on a node, everything it ever acked is fsynced. */
  lemma {:induction false} AcksAreDurable(single: bool, c: Cluster, steps: seq<Step>, r: NodeId)
    requires Initial(c) && EnabledRun(single, c, steps) && r in c.nodes && !Unsynced(single, c, steps, r)
    ensures var d := After(single, c, steps);
            r in d.nodes && forall a :: a in d.acks && a.0 == r ==> a.1 <= d.nodes[r].durable
  {
    InitialInv(c);
    RunKeepsTruth(single, c, steps);
    DurableIff(single, c, steps, r);
  }

  /** At some point of the run r held k records or more and had fsynced all it held. */
  ghost predicate WasSynced(single: bool, c: Cluster, steps: seq<Step>, k: nat, r: NodeId)
    requires WellFormed(c) && EnabledRun(single, c, steps)
  {
    var d := After(single, c, steps);
    || (r in d.nodes && k <= |d.nodes[r].log| && !Unsynced(single, c, steps, r))
    || (steps != [] && WasSynced(single, c, steps[..|steps| - 1], k, r))
  }

  /** What is fsynced stays so, and grows only to all that the node holds. */
  lemma {:induction false} DurableMoves(single: bool, b: Cluster, step: Step, r: NodeId)
    requires WellFormed(b) && Enabled(single, b, step) && r in b.nodes && b.nodes[r].durable <= |b.nodes[r].log|
    ensures var d := Do(single, b, step);
            && r in d.nodes && b.nodes[r].durable <= d.nodes[r].durable
            && (d.nodes[r].durable == b.nodes[r].durable || d.nodes[r].durable == |d.nodes[r].log|)
  {
  }

  /** The first k records of a node are fsynced exactly when, at some point, it held that many and had fsynced all. */
  lemma {:induction false} FsyncedIff(single: bool, c: Cluster, steps: seq<Step>, k: nat, r: NodeId)
    requires Initial(c) && EnabledRun(single, c, steps) && r in c.nodes
    ensures var d := After(single, c, steps);
            r in d.nodes && (k <= d.nodes[r].durable <==> WasSynced(single, c, steps, k, r))
  {
    DurableIff(single, c, steps, r);
    if steps != [] {
      var n := |steps| - 1;
      DurableIff(single, c, steps[..n], r);
      FsyncedIff(single, c, steps[..n], k, r);
      DurableMoves(single, After(single, c, steps[..n]), steps[n], r);
    }
  }

  /**
   What a mark of k means for disks: each tracked replica holds k records, and has them fsynced
   exactly when at some point it held that many with no failed fsync outstanding.
   */
  lemma {:induction false} MarkIsFsyncedIff(single: bool, c: Cluster, steps: seq<Step>, k: nat, r: NodeId)
    requires Initial(c) && EnabledRun(single, c, steps) && Reached(After(single, c, steps), k)
    requires r in After(single, c, steps).hwms[After(single, c, steps).leader].offsets
    ensures var d := After(single, c, steps);
            && r in d.nodes && k <= |d.nodes[r].log|
            && (k <= d.nodes[r].durable <==> WasSynced(single, c, steps, k, r))
            && (!Unsynced(single, c, steps, r) ==> k <= d.nodes[r].durable)
            && (k == |d.nodes[r].log| ==> (k <= d.nodes[r].durable <==> !Unsynced(single, c, steps, r)))
  {
    InitialInv(c);
    RunKeepsTruth(single, c, steps);
    RunGrows(single, c, steps);
    var d := After(single, c, steps);
    assert MarkTrue(d.hwms[d.leader], d.nodes);
    DurableIff(single, c, steps, r);
    FsyncedIff(single, c, steps, k, r);
  }

  lemma {:induction false} OneMore(single: bool, c: Cluster, steps: seq<Step>, step: Step)
    requires WellFormed(c) && EnabledRun(single, c, steps) && Enabled(single, After(single, c, steps), step)
    ensures EnabledRun(single, c, steps + [step])
    ensures After(single, c, steps + [step]) == Do(single, After(single, c, steps), step)
  {
    assert (steps + [step])[..|steps|] == steps;
  }

  function TwoNodes(): Cluster {
    Cluster("l", map["l" := Node([], 0), "f" := Node([], 0)], map[], {},
            map["l" := Hwm("l", map["l" := 0], 0), "f" := Hwm("f", map["f" := 0], 0)])
  }

  lemma {:induction false} Connected(single: bool, c: Cluster, steps: seq<Step>, sid: nat) returns (more: seq<Step>)
    requires WellFormed(c) && EnabledRun(single, c, steps) && NoElection(steps)
    requires Enabled(single, After(single, c, steps), Connect(sid, "f")) && After(single, c, steps).leader == "l"
    ensures EnabledRun(single, c, more) && NoElection(more)
    ensures var d := After(single, c, steps);
            After(single, c, more) == d.(streams := d.streams[sid := Stream("l", "f", 0, [], Idle, true)])
  {
    OneMore(single, c, steps, Connect(sid, "f"));
    more := steps + [Connect(sid, "f")];
  }

  lemma {:induction false} SentFirst(single: bool, c: Cluster, steps: seq<Step>, sid: nat) returns (more: seq<Step>)
    requires WellFormed(c) && EnabledRun(single, c, steps) && NoElection(steps)
    requires var d := After(single, c, steps);
             "l" in d.nodes && d.nodes["l"].log == ["a"] && sid in d.streams
             && d.streams[sid] == Stream("l", "f", 0, [], Idle, true)
    ensures EnabledRun(single, c, more) && NoElection(more)
    ensures var d := After(single, c, steps);
            After(single, c, more) == d.(streams := d.streams[sid := Stream("l", "f", 1, [Entry(0, "a")], Idle, true)])
  {
    SendsFirst(single, After(single, c, steps), sid);
    OneMore(single, c, steps, Send(sid));
    more := steps + [Send(sid)];
  }

  lemma {:induction false} SendsFirst(single: bool, d: Cluster, sid: nat)
    requires WellFormed(d) && "l" in d.nodes && d.nodes["l"].log == ["a"]
    requires sid in d.streams && d.streams[sid] == Stream("l", "f", 0, [], Idle, true)
    ensures Enabled(single, d, Send(sid))
    ensures Do(single, d, Send(sid))
            == d.(streams := d.streams[sid := Stream("l", "f", 1, [Entry(0, "a")], Idle, true)])
  {
    assert Source(d, sid) == ["a"];
    assert [] + [Entry(0, "a")] == [Entry(0, "a")];
  }

  lemma {:induction false} TookFirst(single: bool, c: Cluster, steps: seq<Step>, sid: nat) returns (more: seq<Step>)
    requires WellFormed(c) && EnabledRun(single, c, steps) && NoElection(steps)
    requires var d := After(single, c, steps);
             sid in d.streams && d.streams[sid] == Stream("l", "f", 1, [Entry(0, "a")], Idle, true)
    ensures EnabledRun(single, c, more) && NoElection(more)
    ensures var d := After(single, c, steps);
            After(single, c, more)
            == d.(streams :=
                    d.streams[sid := Stream("l", "f", 1, [], Checked(Entry(0, "a"), |d.nodes["f"].log|), true)])
  {
    OneMore(single, c, steps, Take(sid));
    more := steps + [Take(sid)];
    assert [Entry(0, "a")][1..] == [];
  }

  /** A leader with one record and a session that has just been opened and has sent it. */
  lemma {:induction false} OneSent(single: bool, c: Cluster, steps: seq<Step>, sid: nat) returns (more: seq<Step>)
    requires WellFormed(c) && EnabledRun(single, c, steps) && NoElection(steps)
    requires var d := After(single, c, steps);
             d.leader == "l" && d.nodes["l"].log == ["a"] && Enabled(single, d, Connect(sid, "f"))
    ensures EnabledRun(single, c, more) && NoElection(more)
    ensures var d := After(single, c, steps);
            After(single, c, more) == d.(streams := d.streams[sid := Stream("l", "f", 1, [Entry(0, "a")], Idle, true)])
  {
    var s1 := Connected(single, c, steps, sid);
    more := SentFirst(single, c, s1, sid);
    var d := After(single, c, steps);
    var sent := Stream("l", "f", 1, [Entry(0, "a")], Idle, true);
    assert d.streams[sid := Stream("l", "f", 0, [], Idle, true)][sid := sent] == d.streams[sid := sent];
  }

  /** The handler holds the entry and acts on it: skips it, or fails to sync it. */
  lemma {:induction false} ActsOnFirst(single: bool, d: Cluster, sid: nat, result: AppendResult)
    requires WellFormed(d) && "f" in d.nodes && sid in d.streams
    requires d.streams[sid] == Stream("l", "f", 1, [], Checked(Entry(0, "a"), |d.nodes["f"].log|), true)
    ensures Enabled(single, d, Act(sid, result))
    ensures var e, f := Do(single, d, Act(sid, result)), d.nodes["f"];
            && e.leader == d.leader && e.nodes.Keys == d.nodes.Keys
            && (|f.log| > 0 ==> e.nodes == d.nodes && e.acks == d.acks + {("f", |f.log|)})
            && (|f.log| == 0 && result.NotSynced? ==>
                  && e.nodes == d.nodes["f" := Node(["a"], f.durable)] && e.acks == d.acks
                  && e.streams == d.streams[sid := Stream("l", "f", 1, [], Idle, false)])
  {
    assert d.nodes["f"].log == [] ==> d.nodes["f"].log + ["a"] == ["a"];
  }

  /** The handler takes that entry and acts on it. */
  lemma {:induction false} TakenAndActed(single: bool, c: Cluster, steps: seq<Step>, sid: nat, result: AppendResult)
    returns (more: seq<Step>)
    requires WellFormed(c) && EnabledRun(single, c, steps) && NoElection(steps)
    requires var d := After(single, c, steps);
             sid in d.streams && d.streams[sid] == Stream("l", "f", 1, [Entry(0, "a")], Idle, true)
    ensures EnabledRun(single, c, more) && NoElection(more)
    ensures var d, e := After(single, c, steps), After(single, c, more);
            var f := d.nodes["f"];
            && e.leader == d.leader && e.nodes.Keys == d.nodes.Keys
            && (|f.log| > 0 ==> e.nodes == d.nodes && e.acks == d.acks + {("f", |f.log|)})
            && (|f.log| == 0 && result.NotSynced? ==>
                  && e.nodes == d.nodes["f" := Node(["a"], f.durable)] && e.acks == d.acks
                  && e.streams == d.streams[sid := Stream("l", "f", 1, [], Idle, false)])
  {
    var took := TookFirst(single, c, steps, sid);
    ActsOnFirst(single, After(single, c, took), sid, result);
    OneMore(single, c, took, Act(sid, result));
    more := took + [Act(sid, result)];
    var d, shut := After(single, c, steps), Stream("l", "f", 1, [], Idle, false);
    assert After(single, c, took).streams[sid := shut] == d.streams[sid := shut];
  }

  lemma {:induction false} LeaderHasOne(single: bool) returns (steps: seq<Step>)
    ensures WellFormed(TwoNodes()) && Initial(TwoNodes()) && EnabledRun(single, TwoNodes(), steps) && NoElection(steps)
    ensures var d := After(single, TwoNodes(), steps);
            d == TwoNodes().(nodes := map["l" := Node(["a"], 0), "f" := Node([], 0)])
  {
    OneMore(single, TwoNodes(), [], LeaderAppend("a"));
    steps := [] + [LeaderAppend("a")];
    assert [] + ["a"] == ["a"];
  }

  /**
   When an fsync on the follower fails, the record stays counted in its tail: the next session finds it
   there, skips it and acknowledges it, although it was never fsynced.
   */
  lemma {:induction false} AckWithoutFsync()
    ensures exists steps ::
              && WellFormed(TwoNodes()) && EnabledRun(true, TwoNodes(), steps)
              && var d := After(true, TwoNodes(), steps);
                 "f" in d.nodes && ("f", 1) in d.acks && d.nodes["f"].durable == 0
  {
    var c := TwoNodes();
    var s4 := LostFsync();
    var s5 := OneSent(true, c, s4, 2);
    var s6 := TakenAndActed(true, c, s5, 2, Stored);
  }

  /** The first session writes the record, its fsync fails, and the session goes away. */
  lemma {:induction false} LostFsync() returns (steps: seq<Step>)
    ensures WellFormed(TwoNodes()) && EnabledRun(true, TwoNodes(), steps) && NoElection(steps)
    ensures var d := After(true, TwoNodes(), steps);
            d.leader == "l" && d.nodes == map["l" := Node(["a"], 0), "f" := Node(["a"], 0)] && d.streams == map[]
  {
    var s3 := FailedFsync();
    steps := SessionGone(s3, 1);
    assert map[1 := Stream("l", "f", 1, [], Idle, false)] - {1} == map[];
  }

  /** One record at the leader, sent on session 1. */
  lemma {:induction false} FirstSent() returns (steps: seq<Step>)
    ensures WellFormed(TwoNodes()) && EnabledRun(true, TwoNodes(), steps) && NoElection(steps)
    ensures After(true, TwoNodes(), steps) ==
            TwoNodes().(nodes := map["l" := Node(["a"], 0), "f" := Node([], 0)],
                        streams := map[1 := Stream("l", "f", 1, [Entry(0, "a")], Idle, true)])
  {
    var s1 := LeaderHasOne(true);
    steps := OneSent(true, TwoNodes(), s1, 1);
  }

  lemma {:induction false} FailedFsync() returns (steps: seq<Step>)
    ensures WellFormed(TwoNodes()) && EnabledRun(true, TwoNodes(), steps) && NoElection(steps)
    ensures var d := After(true, TwoNodes(), steps);
            && d.leader == "l" && d.nodes == map["l" := Node(["a"], 0), "f" := Node(["a"], 0)]
            && d.streams == map[1 := Stream("l", "f", 1, [], Idle, false)]
  {
    var sent := FirstSent();
    steps := TakenAndActed(true, TwoNodes(), sent, 1, NotSynced);
    var nodes := map["l" := Node(["a"], 0), "f" := Node([], 0)];
    assert nodes["f" := Node(["a"], 0)] == map["l" := Node(["a"], 0), "f" := Node(["a"], 0)];
  }

  lemma {:induction false} SessionGone(steps: seq<Step>, sid: nat) returns (more: seq<Step>)
    requires WellFormed(TwoNodes()) && EnabledRun(true, TwoNodes(), steps) && NoElection(steps)
    requires Enabled(true, After(true, TwoNodes(), steps), Gone(sid))
    ensures EnabledRun(true, TwoNodes(), more) && NoElection(more)
    ensures var d := After(true, TwoNodes(), steps);
            After(true, TwoNodes(), more) == d.(streams := d.streams - {sid})
  {
    OneMore(true, TwoNodes(), steps, Gone(sid));
    more := steps + [Gone(sid)];
  }

  // ---------------------------------------------------------------- a follower that diverged

  ghost predicate RunsTo(steps: seq<Step>, d: Cluster) {
    WellFormed(TwoNodes()) && EnabledRun(true, TwoNodes(), steps) && After(true, TwoNodes(), steps) == d
  }

  ghost predicate Moves(b: Cluster, step: Step, d: Cluster) {
    WellFormed(b) && Enabled(true, b, step) && Do(true, b, step) == d
  }

  lemma {:induction false} Then(steps: seq<Step>, b: Cluster, step: Step, d: Cluster) returns (more: seq<Step>)
    requires RunsTo(steps, b) && Moves(b, step, d)
    ensures RunsTo(more, d)
  {
    OneMore(true, TwoNodes(), steps, step);
    more := steps + [step];
  }

  /** The old leader holds a record of its own, and the new leader streams another to it. */
  function Diverged(streams: map<nat, Stream>, acks: set<(NodeId, nat)>, h: Hwm): Cluster {
    Cluster("f", map["l" := Node(["a"], 0), "f" := Node(["b"], 0)], streams, acks,
            map["l" := Hwm("l", map["l" := 0], 0), "f" := h])
  }

  /** The mark of the new leader, for the offsets it knows of itself and of the old one. */
  function MarkOf(own: nat, other: nat): (h: Hwm)
    ensures Sound(h)
  {
    assert map["f" := own, "l" := other]["f"] == own && map["f" := own, "l" := other]["l"] == other;
    Hwm("f", map["f" := own, "l" := other], if own < other then own else other)
  }

  lemma {:induction false} Appends(c: Cluster, p: Payload)
    requires WellFormed(c) && c.nodes[c.leader] == Node([], 0)
    ensures Moves(c, LeaderAppend(p), c.(nodes := c.nodes[c.leader := Node([p], 0)]))
  {
    assert [] + [p] == [p];
  }

  lemma {:induction false} ElectsF(c: Cluster)
    requires WellFormed(c) && "f" in c.nodes && "f" in c.hwms && c.streams == map[]
    ensures Moves(c, Elect("f"), c.(leader := "f"))
  {
  }

  lemma {:induction false} DeclaresL()
    ensures Moves(Diverged(map[], {}, Hwm("f", map["f" := 0], 0)), Declare("f", {"l"}, MarkOf(0, 0)),
                  Diverged(map[], {}, MarkOf(0, 0)))
  {
    assert Tracked(Hwm("f", map["f" := 0], 0), {"l"}) == MarkOf(0, 0).offsets;
  }

  lemma {:induction false} NewLeader() returns (steps: seq<Step>)
    ensures RunsTo(steps, Diverged(map[], {}, MarkOf(0, 0)))
  {
    var c0 := TwoNodes();
    var c1 := c0.(nodes := c0.nodes["l" := Node(["a"], 0)]);
    var c2 := c1.(leader := "f");
    var c3 := c2.(nodes := c2.nodes["f" := Node(["b"], 0)]);
    Appends(c0, "a");
    steps := Then([], c0, LeaderAppend("a"), c1);
    ElectsF(c1);
    steps := Then(steps, c1, Elect("f"), c2);
    Appends(c2, "b");
    steps := Then(steps, c2, LeaderAppend("b"), c3);
    assert c3 == Diverged(map[], {}, Hwm("f", map["f" := 0], 0));
    DeclaresL();
    steps := Then(steps, c3, Declare("f", {"l"}, MarkOf(0, 0)), Diverged(map[], {}, MarkOf(0, 0)));
  }

  lemma {:induction false} ConnectsAndSends(steps: seq<Step>) returns (more: seq<Step>)
    requires RunsTo(steps, Diverged(map[], {}, MarkOf(0, 0)))
    ensures RunsTo(more, Diverged(map[1 := Stream("f", "l", 1, [Entry(0, "b")], Idle, true)], {}, MarkOf(0, 0)))
  {
    var b := Diverged(map[], {}, MarkOf(0, 0));
    var d := Diverged(map[1 := Stream("f", "l", 0, [], Idle, true)], {}, MarkOf(0, 0));
    more := Then(steps, b, Connect(1, "l"), d);
    assert [] + [Entry(0, "b")] == [Entry(0, "b")];
    more := Then(more, d, Send(1),
                 Diverged(map[1 := Stream("f", "l", 1, [Entry(0, "b")], Idle, true)], {}, MarkOf(0, 0)));
  }

  lemma {:induction false} TakesAndSkips(steps: seq<Step>) returns (more: seq<Step>)
    requires RunsTo(steps, Diverged(map[1 := Stream("f", "l", 1, [Entry(0, "b")], Idle, true)], {}, MarkOf(0, 0)))
    ensures RunsTo(more, Diverged(map[1 := Stream("f", "l", 1, [], Idle, true)], {("l", 1)}, MarkOf(0, 0)))
  {
    var b := Diverged(map[1 := Stream("f", "l", 1, [Entry(0, "b")], Idle, true)], {}, MarkOf(0, 0));
    var d := Diverged(map[1 := Stream("f", "l", 1, [], Checked(Entry(0, "b"), 1), true)], {}, MarkOf(0, 0));
    assert [Entry(0, "b")][1..] == [];
    more := Then(steps, b, Take(1), d);
    more := Then(more, d, Act(1, Stored),
                 Diverged(map[1 := Stream("f", "l", 1, [], Idle, true)], {("l", 1)}, MarkOf(0, 0)));
  }

  /**
   An election of a shorter log is enough for a mark to count a record that is not there: the former
   leader skips the new leader's record, because it already holds one at that offset, and acks it.
   */
  lemma {:induction false} DivergedFollowerIsCounted()
    ensures exists steps ::
              && WellFormed(TwoNodes()) && EnabledRun(true, TwoNodes(), steps)
              && var d := After(true, TwoNodes(), steps);
                 && Reached(d, 1) && d.leader == "f" && "l" in d.hwms["f"].offsets && "l" in d.nodes
                 && d.nodes["f"].log == ["b"] && d.nodes["l"].log == ["a"]
  {
    var s1 := NewLeader();
    var s2 := ConnectsAndSends(s1);
    var s3 := TakesAndSkips(s2);
    var s4 := MarkRises(s3);
  }

  lemma {:induction false} MarkRises(steps: seq<Step>) returns (more: seq<Step>)
    requires RunsTo(steps, Diverged(map[1 := Stream("f", "l", 1, [], Idle, true)], {("l", 1)}, MarkOf(0, 0)))
    ensures RunsTo(more, Diverged(map[1 := Stream("f", "l", 1, [], Idle, true)], {("l", 1)}, MarkOf(1, 1)))
  {
    var streams, acks := map[1 := Stream("f", "l", 1, [], Idle, true)], {("l", 1)};
    var b, c := Diverged(streams, acks, MarkOf(0, 0)), Diverged(streams, acks, MarkOf(0, 1));
    var d := Diverged(streams, acks, MarkOf(1, 1));
    AckRaises(streams, acks);
    more := Then(steps, b, Deliver("f", "l", 1, MarkOf(0, 1)), c);
    OwnRaises(streams, acks);
    more := Then(more, c, SelfUpdate(1, MarkOf(1, 1)), d);
  }

  lemma {:induction false} AckRaises(streams: map<nat, Stream>, acks: set<(NodeId, nat)>)
    requires ("l", 1) in acks && WellFormed(Diverged(streams, acks, MarkOf(0, 0)))
    ensures Moves(Diverged(streams, acks, MarkOf(0, 0)), Deliver("f", "l", 1, MarkOf(0, 1)),
                  Diverged(streams, acks, MarkOf(0, 1)))
  {
    assert MarkOf(0, 0).offsets["l" := 1] == MarkOf(0, 1).offsets;
  }

  lemma {:induction false} OwnRaises(streams: map<nat, Stream>, acks: set<(NodeId, nat)>)
    requires WellFormed(Diverged(streams, acks, MarkOf(0, 1)))
    ensures Moves(Diverged(streams, acks, MarkOf(0, 1)), SelfUpdate(1, MarkOf(1, 1)),
                  Diverged(streams, acks, MarkOf(1, 1)))
  {
    assert MarkOf(0, 1).offsets["f" := 1] == MarkOf(1, 1).offsets;
  }

  lemma {:induction false} ActedStored(single: bool, c: Cluster, steps: seq<Step>, sid: nat) returns (more: seq<Step>)
    requires WellFormed(c) && EnabledRun(single, c, steps) && NoElection(steps)
    requires var d := After(single, c, steps);
             sid in d.streams && Stores(d.streams[sid], Stored)
    ensures EnabledRun(single, c, more) && NoElection(more)
    ensures var d, e := After(single, c, steps), After(single, c, more);
            var st := d.streams[sid];
            var log := d.nodes[st.to].log + [st.handler.entry.payload];
            && e.leader == d.leader && e.nodes == d.nodes[st.to := Node(log, |log|)]
            && e.streams == d.streams[sid := st.(handler := Idle)]
  {
    OneMore(single, c, steps, Act(sid, Stored));
    more := steps + [Act(sid, Stored)];
  }

  /** With two live sessions to one follower, both handlers can read the same tail and append the same record. */
  lemma {:induction false} TwoSessionsCanDuplicate()
    ensures exists steps ::
              && WellFormed(TwoNodes()) && EnabledRun(false, TwoNodes(), steps) && NoElection(steps)
              && !Prefixed(After(false, TwoNodes(), steps))
  {
    var c := TwoNodes();
    var s0 := BothChecked();
    var s1 := ActedStored(false, c, s0, 1);
    var s2 := ActedStored(false, c, s1, 2);
    var d := After(false, c, s2);
    assert |d.nodes["f"].log| == 2 && |d.nodes["l"].log| == 1;
    assert !Follows(d.nodes["f"].log, d.nodes["l"].log);
  }

  lemma {:induction false} BothChecked() returns (steps: seq<Step>)
    ensures WellFormed(TwoNodes()) && EnabledRun(false, TwoNodes(), steps) && NoElection(steps)
    ensures var d := After(false, TwoNodes(), steps);
            && d.leader == "l" && d.nodes == map["l" := Node(["a"], 0), "f" := Node([], 0)]
            && 1 in d.streams && d.streams[1] == Stream("l", "f", 1, [], Checked(Entry(0, "a"), 0), true)
            && 2 in d.streams && d.streams[2] == Stream("l", "f", 1, [], Checked(Entry(0, "a"), 0), true)
  {
    var c := TwoNodes();
    var s0 := LeaderHasOne(false);
    var s1 := OneSent(false, c, s0, 1);
    var s2 := OneSent(false, c, s1, 2);
    var s3 := TookFirst(false, c, s2, 1);
    steps := TookFirst(false, c, s3, 2);
  }
}
