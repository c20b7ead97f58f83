/**
 That replication delivers (internal/cluster/replicator/replicator.go and
 internal/cluster/transport/server.go): from every point of every fair run a follower can be brought
 to the leader's log by one more session, and acknowledges all of it.
 */
module CatchingUp {
  import opened HighWater
  import opened Following
  import opened Replication
  import opened ReplicationRuns

  /** A run goes on without an election, and the leader's log and all marks stand. */
  ghost predicate GoesOn(c: Cluster, steps: seq<Step>, more: seq<Step>)
    requires WellFormed(c) && EnabledRun(true, c, steps)
  {
    && EnabledRun(true, c, more) && steps <= more
    && (FairElections(c, steps) ==> FairElections(c, more))
    && After(true, c, more).leader == After(true, c, steps).leader
    && After(true, c, more).hwms == After(true, c, steps).hwms
    && After(true, c, more).nodes.Keys == After(true, c, steps).nodes.Keys
    && After(true, c, more).nodes[After(true, c, steps).leader]
       == After(true, c, steps).nodes[After(true, c, steps).leader]
  }

  /** A step of a session. */
  predicate Quiet(step: Step) {
    step.Connect? || step.Send? || step.Take? || step.Act? || step.Break? || step.Gone?
  }

  lemma {:induction false} OneOn(c: Cluster, steps: seq<Step>, step: Step) returns (more: seq<Step>)
    requires WellFormed(c) && EnabledRun(true, c, steps) && Enabled(true, After(true, c, steps), step) && Quiet(step)
    requires step.Act? ==> After(true, c, steps).streams[step.sid].to != After(true, c, steps).leader
    ensures GoesOn(c, steps, more) && After(true, c, more) == Do(true, After(true, c, steps), step)
  {
    more := steps + [step];
    OneMore(true, c, steps, step);
    assert more[..|steps|] == steps;
    StepGrows(true, After(true, c, steps), step);
  }

  lemma {:induction false} GoesOnTwice(c: Cluster, a: seq<Step>, b: seq<Step>, d: seq<Step>)
    requires WellFormed(c) && EnabledRun(true, c, a) && GoesOn(c, a, b) && GoesOn(c, b, d)
    ensures GoesOn(c, a, d)
  {
  }

  // ---------------------------------------------------------------- ending a session

  /** Its stream is cut and its handler is through. */
  lemma {:induction false} SessionStops(c: Cluster, steps: seq<Step>, sid: nat) returns (more: seq<Step>, st: Stream)
    requires WellFormed(c) && EnabledRun(true, c, steps) && sid in After(true, c, steps).streams
    requires After(true, c, steps).streams[sid].to != After(true, c, steps).leader
    ensures GoesOn(c, steps, more) && !st.open && st.handler.Idle?
    ensures After(true, c, more).streams == After(true, c, steps).streams[sid := st]
  {
    var d := After(true, c, steps);
    st := d.streams[sid].(open := false, pipe := []);
    more := OneOn(c, steps, Break(sid));
    if st.handler.Checked? {
      var next := OneOn(c, more, Act(sid, NotWritten));
      GoesOnTwice(c, steps, more, next);
      more, st := next, After(true, c, next).streams[sid];
    }
  }

  lemma {:induction false} SessionEnds(c: Cluster, steps: seq<Step>, sid: nat) returns (more: seq<Step>)
    requires WellFormed(c) && EnabledRun(true, c, steps) && sid in After(true, c, steps).streams
    requires After(true, c, steps).streams[sid].to != After(true, c, steps).leader
    ensures GoesOn(c, steps, more)
    ensures After(true, c, more).streams == After(true, c, steps).streams - {sid}
  {
    var cut, st := SessionStops(c, steps, sid);
    more := OneOn(c, cut, Gone(sid));
    GoesOnTwice(c, steps, cut, more);
  }

  /** No session leads to r. */
  ghost predicate Free(d: Cluster, r: NodeId) {
    forall i :: i in d.streams ==> d.streams[i].to != r
  }

  lemma {:induction false} Freed(c: Cluster, steps: seq<Step>, r: NodeId) returns (more: seq<Step>)
    requires WellFormed(c) && EnabledRun(true, c, steps) && Inv(After(true, c, steps))
    requires r != After(true, c, steps).leader
    ensures GoesOn(c, steps, more) && Free(After(true, c, more), r)
  {
    var d := After(true, c, steps);
    more := steps;
    if !Free(d, r) {
      var sid :| sid in d.streams && d.streams[sid].to == r;
      more := SessionEnds(c, steps, sid);
      assert OneEach(d);
    }
  }

  lemma {:induction false} FreshId(ids: set<nat>) returns (id: nat)
    ensures id !in ids && forall i :: i in ids ==> i < id
    decreases |ids|
  {
    id := 0;
    if ids != {} {
      var i :| i in ids;
      var rest := FreshId(ids - {i});
      id := if i >= rest then i + 1 else rest;
      assert forall j :: j in ids ==> j == i || j in ids - {i};
    }
  }

  // ---------------------------------------------------------------- streaming the log

  /** The session has streamed n records, and the follower holds as many. */
  ghost predicate Streamed(d: Cluster, sid: nat, r: NodeId, n: nat) {
    && sid in d.streams && d.streams[sid] == Stream(d.leader, r, n, [], Idle, true)
    && r in d.nodes && r != d.leader && n <= |d.nodes[r].log|
  }

  lemma {:induction false} Sends(d: Cluster, sid: nat, r: NodeId, n: nat) returns (e: Cluster)
    requires WellFormed(d) && Streamed(d, sid, r, n) && n < |d.nodes[d.leader].log|
    ensures Enabled(true, d, Send(sid)) && e == Do(true, d, Send(sid)) && WellFormed(e)
    ensures var entry := Entry(n, d.nodes[d.leader].log[n]);
            e == d.(streams := d.streams[sid := Stream(d.leader, r, n + 1, [entry], Idle, true)])
  {
    e := Do(true, d, Send(sid));
    StepWellFormed(true, d, Send(sid));
    assert [] + [Entry(n, d.nodes[d.leader].log[n])] == [Entry(n, d.nodes[d.leader].log[n])];
  }

  lemma {:induction false} Takes(d: Cluster, sid: nat, r: NodeId, n: nat, e: Entry) returns (f: Cluster)
    requires WellFormed(d) && sid in d.streams && d.streams[sid] == Stream(d.leader, r, n, [e], Idle, true)
    ensures Enabled(true, d, Take(sid)) && f == Do(true, d, Take(sid)) && WellFormed(f)
    ensures f == d.(streams := d.streams[sid := Stream(d.leader, r, n, [], Checked(e, |d.nodes[r].log|), true)])
  {
    f := Do(true, d, Take(sid));
    StepWellFormed(true, d, Take(sid));
    assert [e][1..] == [];
  }

  lemma {:induction false} ActsWell(d: Cluster, sid: nat, r: NodeId, n: nat, e: Entry) returns (f: Cluster)
    requires WellFormed(d) && sid in d.streams && r != d.leader && r in d.nodes
    requires e.off <= |d.nodes[r].log| && n == e.off + 1
    requires d.streams[sid] == Stream(d.leader, r, n, [], Checked(e, |d.nodes[r].log|), true)
    ensures Enabled(true, d, Act(sid, Stored)) && f == Do(true, d, Act(sid, Stored)) && WellFormed(f)
    ensures Streamed(f, sid, r, n) && (r, |f.nodes[r].log|) in f.acks
  {
    f := Do(true, d, Act(sid, Stored));
    StepWellFormed(true, d, Act(sid, Stored));
  }

  /** One more record. */
  lemma {:induction false} StreamsOne(c: Cluster, steps: seq<Step>, sid: nat, r: NodeId, n: nat, next: nat)
    returns (more: seq<Step>)
    requires WellFormed(c) && EnabledRun(true, c, steps) && Streamed(After(true, c, steps), sid, r, n) && next == n + 1
    requires n < |After(true, c, steps).nodes[After(true, c, steps).leader].log|
    ensures GoesOn(c, steps, more) && Streamed(After(true, c, more), sid, r, next)
    ensures (r, |After(true, c, more).nodes[r].log|) in After(true, c, more).acks
  {
    var d := After(true, c, steps);
    var e := Entry(n, d.nodes[d.leader].log[n]);
    var d1 := Sends(d, sid, r, n);
    var s1 := OneOn(c, steps, Send(sid));
    var d2 := Takes(d1, sid, r, next, e);
    var s2 := OneOn(c, s1, Take(sid));
    var d3 := ActsWell(d2, sid, r, next, e);
    more := OneOn(c, s2, Act(sid, Stored));
    GoesOnTwice(c, steps, s1, s2);
    GoesOnTwice(c, steps, s2, more);
  }

  lemma {:induction false} StreamsAll(c: Cluster, steps: seq<Step>, sid: nat, r: NodeId, n: nat, m: nat)
    returns (more: seq<Step>)
    requires WellFormed(c) && EnabledRun(true, c, steps) && Streamed(After(true, c, steps), sid, r, n)
    requires n <= m == |After(true, c, steps).nodes[After(true, c, steps).leader].log|
    requires n > 0 ==> (r, |After(true, c, steps).nodes[r].log|) in After(true, c, steps).acks
    ensures GoesOn(c, steps, more) && Streamed(After(true, c, more), sid, r, m)
    ensures m > 0 ==> (r, |After(true, c, more).nodes[r].log|) in After(true, c, more).acks
    decreases m - n
  {
    more := steps;
    if n < m {
      var next := StreamsOne(c, steps, sid, r, n, n + 1);
      more := StreamsAll(c, next, sid, r, n + 1, m);
      GoesOnTwice(c, steps, next, more);
    }
  }

  /**
   After every fair run, one more session can bring any follower to exactly the leader's log, and it
   has then acknowledged all of it.
   */
  lemma {:induction false} FollowerCanCatchUp(c: Cluster, steps: seq<Step>, r: NodeId) returns (more: seq<Step>)
    requires Initial(c) && EnabledRun(true, c, steps) && FairElections(c, steps)
    requires r in After(true, c, steps).nodes && r != After(true, c, steps).leader
    ensures GoesOn(c, steps, more)
    ensures var d := After(true, c, more);
            var log := d.nodes[d.leader].log;
            r in d.nodes && d.nodes[r].log == log && (log != [] ==> (r, |log|) in d.acks)
  {
    InitialInv(c);
    var b := RunKeepsInv(c, steps);
    var free := Freed(c, steps, r);
    var d := After(true, c, free);
    var sid := FreshId(d.streams.Keys);
    var open := OneOn(c, free, Connect(sid, r));
    GoesOnTwice(c, steps, free, open);
    more := StreamsAll(c, open, sid, r, 0, |d.nodes[d.leader].log|);
    GoesOnTwice(c, steps, open, more);
    var f := RunKeepsInv(c, more);
    assert Follows(f.nodes[r].log, f.nodes[f.leader].log);
  }

  // ---------------------------------------------------------------- the mark can reach the end of the log

  lemma {:induction false} MinExists(offsets: map<NodeId, nat>) returns (v: nat)
    requires offsets != map[]
    ensures IsMin(offsets, v)
    decreases |offsets|
  {
    var r :| r in offsets;
    var rest := offsets - {r};
    v := offsets[r];
    assert forall j :: j in offsets ==> j == r || j in rest;
    if rest != map[] {
      var w := MinExists(rest);
      var k :| k in rest && rest[k] == w;
      v := if w < v then w else v;
      assert k in offsets && offsets[k] == w;
    }
  }

  /** An ack can be taken in. */
  lemma {:induction false} AckCounts(h: Hwm, r: NodeId, n: nat) returns (h': Hwm)
    requires Sound(h)
    ensures Acked(h, r, n, h') && (r in h.offsets ==> r in h'.offsets && n <= h'.offsets[r])
  {
    h' := h;
    if r in h.offsets && h.offsets[r] < n {
      var offsets := h.offsets[r := n];
      assert r in offsets;
      var v := MinExists(offsets);
      h' := Hwm(h.self, offsets, v);
    }
  }

  ghost predicate OwnMarks(c: Cluster) {
    forall at :: at in c.hwms ==> c.hwms[at].self == at
  }

  lemma {:induction false} RunKeepsOwn(c: Cluster, steps: seq<Step>)
    requires Initial(c) && EnabledRun(true, c, steps)
    ensures OwnMarks(After(true, c, steps))
  {
    if steps != [] {
      RunKeepsOwn(c, steps[..|steps| - 1]);
    }
  }

  /** A run goes on under the same leader and log, and its mark loses no replica and no offset. */
  ghost predicate Rises(c: Cluster, steps: seq<Step>, more: seq<Step>)
    requires WellFormed(c) && EnabledRun(true, c, steps)
  {
    && EnabledRun(true, c, more) && steps <= more && (FairElections(c, steps) ==> FairElections(c, more))
    && var d, e := After(true, c, steps), After(true, c, more);
       && e.leader == d.leader && e.nodes.Keys == d.nodes.Keys && e.nodes[d.leader] == d.nodes[d.leader]
       && var h, g := d.hwms[d.leader], e.hwms[d.leader];
          g.offsets.Keys == h.offsets.Keys && forall r :: r in h.offsets ==> h.offsets[r] <= g.offsets[r]
  }

  /** An ack of n reaches the leader, or the leader counts its own log. */
  lemma {:induction false} CountsOne(c: Cluster, steps: seq<Step>, step: Step, r: NodeId, n: nat, h: Hwm)
    returns (more: seq<Step>)
    requires WellFormed(c) && EnabledRun(true, c, steps) && Enabled(true, After(true, c, steps), step)
    requires var d := After(true, c, steps);
             && (step == Deliver(d.leader, r, n, h) || (step == SelfUpdate(n, h) && r == d.leader))
             && Sound(d.hwms[d.leader]) && (r in d.hwms[d.leader].offsets ==> r in h.offsets && n <= h.offsets[r])
    ensures Rises(c, steps, more) && After(true, c, more).hwms[After(true, c, more).leader] == h
  {
    more := steps + [step];
    OneMore(true, c, steps, step);
    assert more[..|steps|] == steps;
    var d := After(true, c, steps);
    AckNeverLowersTheMark(d.hwms[d.leader], r, n, h);
  }

  lemma {:induction false} RisesTwice(c: Cluster, a: seq<Step>, b: seq<Step>, d: seq<Step>)
    requires WellFormed(c) && EnabledRun(true, c, a) && Rises(c, a, b) && Rises(c, b, d)
    ensures Rises(c, a, d)
  {
  }

  /** The mark of the leader counts m records of r. */
  ghost predicate Counted(d: Cluster, r: NodeId, m: nat)
    requires WellFormed(d)
  {
    r in d.hwms[d.leader].offsets && m <= d.hwms[d.leader].offsets[r]
  }

  /** A tracked replica is brought to the leader's log and counted. */
  lemma {:induction false} ReplicaCounts(c: Cluster, steps: seq<Step>, r: NodeId, m: nat) returns (more: seq<Step>)
    requires Initial(c) && EnabledRun(true, c, steps) && FairElections(c, steps)
    requires var d := After(true, c, steps); r in d.hwms[d.leader].offsets && m == |d.nodes[d.leader].log| > 0
    ensures Rises(c, steps, more) && Counted(After(true, c, more), r, m)
  {
    InitialInv(c);
    var d := RunKeepsInv(c, steps);
    RunKeepsOwn(c, steps);
    assert MarkTrue(d.hwms[d.leader], d.nodes);
    var h := AckCounts(d.hwms[d.leader], r, m);
    if r == d.leader {
      more := CountsOne(c, steps, SelfUpdate(m, h), r, m, h);
    } else {
      var held := FollowerCanCatchUp(c, steps, r);
      more := CountsOne(c, held, Deliver(d.leader, r, m, h), r, m, h);
    }
  }

  lemma {:induction false} AllCount(c: Cluster, steps: seq<Step>, todo: set<NodeId>, m: nat) returns (more: seq<Step>)
    requires Initial(c) && EnabledRun(true, c, steps) && FairElections(c, steps)
    requires var d := After(true, c, steps);
             && todo <= d.hwms[d.leader].offsets.Keys && m == |d.nodes[d.leader].log| > 0
             && forall r :: r in d.hwms[d.leader].offsets && r !in todo ==> Counted(d, r, m)
    ensures Rises(c, steps, more)
    ensures var d := After(true, c, more); forall r :: r in d.hwms[d.leader].offsets ==> Counted(d, r, m)
    decreases |todo|
  {
    more := steps;
    if todo != {} {
      var r :| r in todo;
      var next := ReplicaCounts(c, steps, r, m);
      more := AllCount(c, next, todo - {r}, m);
      RisesTwice(c, steps, next, more);
    }
  }

  /** After every fair run the mark can still reach the end of the leader's log: WaitFor need not wait for ever. */
  lemma {:induction false} MarkCanReachTheEnd(c: Cluster, steps: seq<Step>) returns (more: seq<Step>)
    requires Initial(c) && EnabledRun(true, c, steps) && FairElections(c, steps)
    ensures Rises(c, steps, more)
    ensures var d := After(true, c, more); Reached(d, |d.nodes[d.leader].log|)
  {
    var d := After(true, c, steps);
    more := steps;
    if d.nodes[d.leader].log != [] {
      more := AllCount(c, steps, d.hwms[d.leader].offsets.Keys, |d.nodes[d.leader].log|);
      InitialInv(c);
      var e := RunKeepsInv(c, more);
      assert MarkTrue(e.hwms[e.leader], e.nodes);
    }
  }
}
