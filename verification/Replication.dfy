/**
 Replication of one shard (internal/cluster/replicator/replicator.go, internal/cluster/transport/server.go
 and internal/cluster/shardwal/hwm.go) as steps of a cluster.

 A session streams the leader's log from offset 0. The follower's handler takes an entry, reads its
 own tail in one critical section, and skips, appends or reports a gap in another. Acks may be
 delayed, repeated or lost. A node's log counts what its shard has accepted (its tail); `durable`
 counts what has been fsynced.
 */
module Replication {
  import opened HighWater
  import opened Following

  datatype Node = Node(log: seq<Payload>, durable: nat)

  datatype Handler = Idle | Checked(entry: Entry, tail: nat)

  /** One session: `next` is the sender's cursor, `pipe` what it sent and the handler has not taken. */
  datatype Stream = Stream(from: NodeId, to: NodeId, next: nat, pipe: seq<Entry>, handler: Handler, open: bool)

  datatype Cluster = Cluster(leader: NodeId, nodes: map<NodeId, Node>, streams: map<nat, Stream>,
                             acks: set<(NodeId, nat)>, hwms: map<NodeId, Hwm>)

  datatype Step =
    | LeaderAppend(payload: Payload)
    | LeaderSync
    | Connect(sid: nat, to: NodeId)
    | Send(sid: nat)
    | Take(sid: nat)                           // Recv, then the first critical section: read the tail
    | Act(sid: nat, result: AppendResult)      // the second one: skip, append or gap, then ack
    | Break(sid: nat)
    | Gone(sid: nat)
    | Deliver(at: NodeId, from: NodeId, n: nat, after: Hwm)
    | SelfUpdate(n: nat, after: Hwm)
    | Declare(at: NodeId, ids: set<NodeId>, after: Hwm)
    | Elect(id: NodeId)

  ghost predicate WellFormed(c: Cluster) {
    && c.leader in c.nodes && c.leader in c.hwms
    && (forall sid :: sid in c.streams ==> c.streams[sid].to in c.nodes && c.streams[sid].from in c.nodes)
  }

  /** `single` is the assumption that a follower has at most one live session, and none when a leader is elected. */
  ghost predicate Enabled(single: bool, c: Cluster, step: Step)
    requires WellFormed(c)
  {
    match step
    case LeaderAppend(_) => true
    case LeaderSync => true
    case Connect(sid, to) =>
      && sid !in c.streams && to in c.nodes && to != c.leader
      && (single ==> forall i :: i in c.streams ==> c.streams[i].to != to)
    case Send(sid) => sid in c.streams && c.streams[sid].open && c.streams[sid].next < |Source(c, sid)|
    case Take(sid) => sid in c.streams && c.streams[sid].handler.Idle? && c.streams[sid].pipe != []
    case Act(sid, _) => sid in c.streams && c.streams[sid].handler.Checked?
    case Break(sid) => sid in c.streams
    case Gone(sid) => sid in c.streams && !c.streams[sid].open && c.streams[sid].handler.Idle?
    case Deliver(at, from, n, h) => (from, n) in c.acks && at in c.hwms && Acked(c.hwms[at], from, n, h)
    case SelfUpdate(n, h) =>
      n <= |c.nodes[c.leader].log| && c.hwms[c.leader].self == c.leader && Acked(c.hwms[c.leader], c.leader, n, h)
    case Declare(at, ids, h) => at in c.hwms && ids <= c.nodes.Keys && Declared(c.hwms[at], ids, h)
    case Elect(id) => id in c.nodes && id in c.hwms && (single ==> c.streams == map[])
  }

  /** The log that a session streams: its sender's, whoever leads now. */
  function Source(c: Cluster, sid: nat): seq<Payload>
    requires sid in c.streams && c.streams[sid].from in c.nodes
  {
    c.nodes[c.streams[sid].from].log
  }

  function Shut(st: Stream): Stream {
    st.(open := false, pipe := [], handler := Idle)
  }

  /** The handler already holds the entry it took. */
  predicate Skips(st: Stream) {
    st.handler.Checked? && st.handler.entry.off < st.handler.tail
  }

  /** The handler's entry is the next record and its bytes go into the shard. */
  predicate Stores(st: Stream, result: AppendResult) {
    st.handler.Checked? && Writes(st.handler.tail, st.handler.entry, result)
  }

  ghost function NodesAfter(single: bool, c: Cluster, step: Step): map<NodeId, Node>
    requires WellFormed(c) && Enabled(single, c, step)
  {
    var lead := c.nodes[c.leader];
    match step
    case LeaderAppend(p) => c.nodes[c.leader := lead.(log := lead.log + [p])]
    case LeaderSync => c.nodes[c.leader := lead.(durable := |lead.log|)]
    case Act(sid, result) =>
      var st := c.streams[sid];
      var node := c.nodes[st.to];
      if !Stores(st, result) then c.nodes
      else
        var log := node.log + [st.handler.entry.payload];
        c.nodes[st.to := Node(log, if result.NotSynced? then node.durable else |log|)]
    case _ => c.nodes
  }

  ghost function StreamsAfter(single: bool, c: Cluster, step: Step): map<nat, Stream>
    requires WellFormed(c) && Enabled(single, c, step)
  {
    match step
    case Connect(sid, to) => c.streams[sid := Stream(c.leader, to, 0, [], Idle, true)]
    case Send(sid) =>
      var st := c.streams[sid];
      c.streams[sid := st.(next := st.next + 1, pipe := st.pipe + [Entry(st.next, Source(c, sid)[st.next])])]
    case Take(sid) =>
      var st := c.streams[sid];
      c.streams[sid := st.(pipe := st.pipe[1..], handler := Checked(st.pipe[0], |c.nodes[st.to].log|))]
    case Act(sid, result) =>
      var st := c.streams[sid];
      c.streams[sid := if Skips(st) || (Stores(st, result) && result.Stored?) then st.(handler := Idle) else Shut(st)]
    case Break(sid) => c.streams[sid := c.streams[sid].(open := false, pipe := [])]
    case Gone(sid) => c.streams - {sid}
    case _ => c.streams
  }

  /** The ack carries the tail the handler reads after it acted. */
  ghost function AcksAfter(single: bool, c: Cluster, step: Step): set<(NodeId, nat)>
    requires WellFormed(c) && Enabled(single, c, step)
  {
    if !step.Act? then c.acks
    else
      var st := c.streams[step.sid];
      if Skips(st) then c.acks + {(st.to, |c.nodes[st.to].log|)}
      else if Stores(st, step.result) && step.result.Stored? then c.acks + {(st.to, |c.nodes[st.to].log| + 1)}
      else c.acks
  }

  ghost function HwmsAfter(single: bool, c: Cluster, step: Step): map<NodeId, Hwm>
    requires WellFormed(c) && Enabled(single, c, step)
  {
    match step
    case Deliver(at, _, _, h) => c.hwms[at := h]
    case SelfUpdate(_, h) => c.hwms[c.leader := h]
    case Declare(at, _, h) => c.hwms[at := h]
    case _ => c.hwms
  }

  ghost function Do(single: bool, c: Cluster, step: Step): Cluster
    requires WellFormed(c) && Enabled(single, c, step)
  {
    Cluster(if step.Elect? then step.id else c.leader, NodesAfter(single, c, step), StreamsAfter(single, c, step),
            AcksAfter(single, c, step), HwmsAfter(single, c, step))
  }

  // ---------------------------------------------------------------- within one leadership

  ghost predicate Follows(log: seq<Payload>, leader: seq<Payload>) {
    |log| <= |leader| && log == leader[..|log|]
  }

  /** Every node's log is a prefix of the leader's. */
  ghost predicate Prefixed(c: Cluster)
    requires c.leader in c.nodes
  {
    forall r :: r in c.nodes ==> Follows(c.nodes[r].log, c.nodes[c.leader].log)
  }

  /** What a session has in flight is the next stretch of the leader's log, and never beyond the follower's tail. */
  ghost predicate Flow(leader: seq<Payload>, log: seq<Payload>, st: Stream) {
    && |st.pipe| <= st.next <= |leader|
    && (forall i :: 0 <= i < |st.pipe| ==>
          st.pipe[i] == Entry(st.next - |st.pipe| + i, leader[st.next - |st.pipe| + i]))
    && (!st.open ==> st.pipe == [])
    && (match st.handler
        case Idle => st.open ==> st.next - |st.pipe| <= |log|
        case Checked(e, tail) =>
          && tail == |log| && e.off <= tail && e.off < |leader| && e.payload == leader[e.off]
          && (st.open ==> st.next - |st.pipe| == e.off + 1))
  }

  ghost predicate StreamOk(c: Cluster, st: Stream)
    requires c.leader in c.nodes
  {
    st.from == c.leader && st.to in c.nodes && st.to != c.leader && Flow(c.nodes[c.leader].log, c.nodes[st.to].log, st)
  }

  ghost predicate OneEach(c: Cluster) {
    forall i, j :: i in c.streams && j in c.streams && c.streams[i].to == c.streams[j].to ==> i == j
  }

  /** Acks never claim more than the node they are about holds. */
  ghost predicate AcksTrue(acks: set<(NodeId, nat)>, nodes: map<NodeId, Node>) {
    forall a :: a in acks ==> a.0 in nodes && a.1 <= |nodes[a.0].log|
  }

  /** Nor do the offsets behind a mark. */
  ghost predicate MarkTrue(h: Hwm, nodes: map<NodeId, Node>) {
    Sound(h) && forall r :: r in h.offsets ==> r in nodes && h.offsets[r] <= |nodes[r].log|
  }

  ghost predicate Truthful(c: Cluster) {
    AcksTrue(c.acks, c.nodes) && forall at :: at in c.hwms ==> MarkTrue(c.hwms[at], c.nodes)
  }

  ghost predicate Inv(c: Cluster) {
    && WellFormed(c) && Prefixed(c) && OneEach(c) && Truthful(c)
    && (forall sid :: sid in c.streams ==> StreamOk(c, c.streams[sid]))
  }

  /** Logs only grow. */
  ghost predicate Grow(before: map<NodeId, Node>, after: map<NodeId, Node>) {
    before.Keys == after.Keys && forall r :: r in before ==> before[r].log <= after[r].log
  }

  lemma {:induction false} StepGrows(single: bool, c: Cluster, step: Step)
    requires WellFormed(c) && Enabled(single, c, step)
    ensures Grow(c.nodes, NodesAfter(single, c, step))
  {
  }

  lemma {:induction false} StepWellFormed(single: bool, c: Cluster, step: Step)
    requires WellFormed(c) && Enabled(single, c, step)
    ensures WellFormed(Do(single, c, step))
  {
    StepGrows(single, c, step);
    forall sid | sid in StreamsAfter(single, c, step)
      ensures StreamsAfter(single, c, step)[sid].to in c.nodes && StreamsAfter(single, c, step)[sid].from in c.nodes
    {
    }
  }

  lemma {:induction false} AcksStayTrue(single: bool, c: Cluster, step: Step)
    requires WellFormed(c) && Enabled(single, c, step) && AcksTrue(c.acks, c.nodes)
    ensures AcksTrue(AcksAfter(single, c, step), NodesAfter(single, c, step))
  {
    StepGrows(single, c, step);
    var nodes := NodesAfter(single, c, step);
    forall a | a in AcksAfter(single, c, step)
      ensures a.0 in nodes && a.1 <= |nodes[a.0].log|
    {
      if a in c.acks {
        assert c.nodes[a.0].log <= nodes[a.0].log;
      }
    }
  }

  lemma {:induction false} MarkGrows(h: Hwm, nodes: map<NodeId, Node>, after: map<NodeId, Node>)
    requires MarkTrue(h, nodes) && Grow(nodes, after)
    ensures MarkTrue(h, after)
  {
    forall r | r in h.offsets
      ensures h.offsets[r] <= |after[r].log|
    {
      assert nodes[r].log <= after[r].log;
    }
  }

  lemma {:induction false} AckedStaysTrue(h: Hwm, r: NodeId, n: nat, h': Hwm, nodes: map<NodeId, Node>)
    requires MarkTrue(h, nodes) && Acked(h, r, n, h') && r in nodes && n <= |nodes[r].log|
    ensures MarkTrue(h', nodes)
  {
  }

  lemma {:induction false} DeclaredStaysTrue(h: Hwm, ids: set<NodeId>, h': Hwm, nodes: map<NodeId, Node>)
    requires MarkTrue(h, nodes) && Declared(h, ids, h') && ids <= nodes.Keys
    ensures MarkTrue(h', nodes)
  {
  }

  lemma {:induction false} MarksStayTrue(single: bool, c: Cluster, step: Step, at: NodeId)
    requires WellFormed(c) && Truthful(c) && Enabled(single, c, step) && at in c.hwms
    ensures at in HwmsAfter(single, c, step) && MarkTrue(HwmsAfter(single, c, step)[at], c.nodes)
  {
    assert MarkTrue(c.hwms[at], c.nodes);
    match step
    case Deliver(a, from, n, h) =>
      assert (from, n) in c.acks;
      if a == at { AckedStaysTrue(c.hwms[at], from, n, h, c.nodes); }
    case SelfUpdate(n, h) =>
      if at == c.leader { AckedStaysTrue(c.hwms[at], c.leader, n, h, c.nodes); }
    case Declare(a, ids, h) =>
      if a == at { DeclaredStaysTrue(c.hwms[at], ids, h, c.nodes); }
    case _ =>
  }

  lemma {:induction false} StepKeepsTruth(single: bool, c: Cluster, step: Step)
    requires WellFormed(c) && Truthful(c) && Enabled(single, c, step)
    ensures Truthful(Do(single, c, step))
  {
    var d := Do(single, c, step);
    AcksStayTrue(single, c, step);
    forall at | at in d.hwms
      ensures MarkTrue(d.hwms[at], d.nodes)
    {
      assert at in c.hwms;
      MarksStayTrue(single, c, step, at);
      StepGrows(single, c, step);
      MarkGrows(d.hwms[at], c.nodes, d.nodes);
    }
  }

  lemma {:induction false} StepKeepsPrefix(c: Cluster, step: Step)
    requires Inv(c) && Enabled(true, c, step) && !step.Elect?
    ensures var nodes := NodesAfter(true, c, step);
            c.leader in nodes && forall r :: r in nodes ==> Follows(nodes[r].log, nodes[c.leader].log)
  {
    var nodes := NodesAfter(true, c, step);
    assert forall r :: r in c.nodes ==> Follows(c.nodes[r].log, c.nodes[c.leader].log);
    if step.Act? {
      ActKeepsPrefix(c, step.sid, step.result);
    } else if step.LeaderAppend? {
      LeaderAppendKeepsPrefix(c, step.payload);
    }
  }

  lemma {:induction false} LeaderAppendKeepsPrefix(c: Cluster, p: Payload)
    requires Inv(c)
    ensures var nodes := NodesAfter(true, c, LeaderAppend(p));
            forall r :: r in nodes ==> Follows(nodes[r].log, nodes[c.leader].log)
  {
    var nodes := NodesAfter(true, c, LeaderAppend(p));
    forall r | r in nodes
      ensures Follows(nodes[r].log, nodes[c.leader].log)
    {
      assert Follows(c.nodes[r].log, c.nodes[c.leader].log);
    }
  }

  lemma {:induction false} ActKeepsPrefix(c: Cluster, sid: nat, result: AppendResult)
    requires Inv(c) && Enabled(true, c, Act(sid, result))
    ensures var nodes := NodesAfter(true, c, Act(sid, result));
            forall r :: r in nodes ==> Follows(nodes[r].log, nodes[c.leader].log)
  {
    var st := c.streams[sid];
    assert StreamOk(c, st);
    assert forall r :: r in c.nodes ==> Follows(c.nodes[r].log, c.nodes[c.leader].log);
    if Stores(st, result) {
      NextRecordFollows(c.nodes[st.to].log, c.nodes[c.leader].log, st);
    }
  }

  lemma {:induction false} NextRecordFollows(log: seq<Payload>, leader: seq<Payload>, st: Stream)
    requires Follows(log, leader) && Flow(leader, log, st) && st.handler.Checked?
             && st.handler.entry.off == st.handler.tail
    ensures Follows(log + [st.handler.entry.payload], leader)
  {
  }

  lemma {:induction false} StreamFrame(c: Cluster, d: Cluster, st: Stream)
    requires c.leader in c.nodes && d.leader == c.leader && d.leader in d.nodes
    requires StreamOk(c, st) && st.to in d.nodes
    requires c.nodes[c.leader].log <= d.nodes[c.leader].log && d.nodes[st.to].log == c.nodes[st.to].log
    ensures StreamOk(d, st)
  {
  }

  lemma {:induction false} SendFlows(leader: seq<Payload>, log: seq<Payload>, st: Stream)
    requires Flow(leader, log, st) && st.open && st.next < |leader|
    ensures Flow(leader, log, st.(next := st.next + 1, pipe := st.pipe + [Entry(st.next, leader[st.next])]))
  {
  }

  lemma {:induction false} TakeFlows(leader: seq<Payload>, log: seq<Payload>, st: Stream)
    requires Flow(leader, log, st) && st.handler.Idle? && st.pipe != []
    ensures Flow(leader, log, st.(pipe := st.pipe[1..], handler := Checked(st.pipe[0], |log|)))
  {
    assert st.open;
    var rest := st.pipe[1..];
    assert forall i :: 0 <= i < |rest| ==> rest[i] == st.pipe[i + 1];
  }

  /** The three ways out of the handler's second critical section. */
  lemma {:induction false} ActFlows(leader: seq<Payload>, log: seq<Payload>, st: Stream)
    requires Flow(leader, log, st) && st.handler.Checked?
    ensures Skips(st) ==> Flow(leader, log, st.(handler := Idle))
    ensures !Skips(st) ==> Flow(leader, log + [st.handler.entry.payload], st.(handler := Idle))
    ensures Flow(leader, log, Shut(st)) && Flow(leader, log + [st.handler.entry.payload], Shut(st))
  {
  }

  /** The stream a handler acts for, before and after. */
  lemma {:induction false} ActStreamOk(c: Cluster, sid: nat, result: AppendResult)
    requires WellFormed(c) && sid in c.streams && StreamOk(c, c.streams[sid]) && c.streams[sid].handler.Checked?
    ensures var step := Act(sid, result);
            var st := StreamsAfter(true, c, step)[sid];
            && st.from == c.leader && st.to in c.nodes && st.to != c.leader
            && Flow(c.nodes[c.leader].log, NodesAfter(true, c, step)[st.to].log, st)
            && NodesAfter(true, c, step)[c.leader] == c.nodes[c.leader]
  {
    var st := c.streams[sid];
    ActFlows(c.nodes[c.leader].log, c.nodes[st.to].log, st);
  }

  lemma {:induction false} SessionStreamOk(c: Cluster, step: Step, sid: nat)
    requires WellFormed(c) && Enabled(true, c, step)
    requires (step.Connect? || step.Send? || step.Take? || step.Break?) && step.sid == sid
    requires sid in c.streams ==> StreamOk(c, c.streams[sid])
    ensures StreamOk(c, StreamsAfter(true, c, step)[sid])
  {
    if sid in c.streams {
      var st := c.streams[sid];
      var leader, log := c.nodes[c.leader].log, c.nodes[st.to].log;
      match step
      case Send(_) => SendFlows(leader, log, st);
      case Take(_) => TakeFlows(leader, log, st);
      case _ =>
    }
  }

  /** The stream a step is about. */
  lemma {:induction false} OwnStreamStaysOk(c: Cluster, step: Step, sid: nat)
    requires WellFormed(c) && Enabled(true, c, step)
    requires (step.Connect? || step.Send? || step.Take? || step.Act? || step.Break?) && step.sid == sid
    requires sid in c.streams ==> StreamOk(c, c.streams[sid])
    ensures WellFormed(Do(true, c, step)) && StreamOk(Do(true, c, step), StreamsAfter(true, c, step)[sid])
  {
    StepWellFormed(true, c, step);
    if step.Act? {
      ActStreamOk(c, sid, step.result);
    } else {
      SessionStreamOk(c, step, sid);
    }
  }

  predicate Concerns(step: Step, sid: nat) {
    (step.Connect? || step.Send? || step.Take? || step.Act? || step.Break?) && step.sid == sid
  }

  lemma {:induction false} OtherStreamStaysOk(c: Cluster, step: Step, sid: nat)
    requires Inv(c) && Enabled(true, c, step) && !step.Elect? && !Concerns(step, sid)
    requires sid in StreamsAfter(true, c, step)
    ensures WellFormed(Do(true, c, step)) && StreamOk(Do(true, c, step), StreamsAfter(true, c, step)[sid])
  {
    StepWellFormed(true, c, step);
    StepGrows(true, c, step);
    assert StreamOk(c, c.streams[sid]);
    StreamFrame(c, Do(true, c, step), c.streams[sid]);
  }

  lemma {:induction false} StepKeepsStream(c: Cluster, step: Step, sid: nat)
    requires Inv(c) && Enabled(true, c, step) && !step.Elect?
    requires sid in StreamsAfter(true, c, step)
    ensures WellFormed(Do(true, c, step)) && StreamOk(Do(true, c, step), StreamsAfter(true, c, step)[sid])
  {
    if Concerns(step, sid) {
      assert sid in c.streams ==> StreamOk(c, c.streams[sid]);
      OwnStreamStaysOk(c, step, sid);
    } else {
      OtherStreamStaysOk(c, step, sid);
    }
  }

  lemma {:induction false} StepKeepsOneEach(c: Cluster, step: Step)
    requires Inv(c) && Enabled(true, c, step) && !step.Elect?
    ensures OneEach(Do(true, c, step))
  {
  }

  lemma {:induction false} StepKeepsInv(c: Cluster, step: Step) returns (d: Cluster)
    requires Inv(c) && Enabled(true, c, step) && !step.Elect?
    ensures d == Do(true, c, step)
    ensures Inv(d)
  {
    d := Do(true, c, step);
    StepWellFormed(true, c, step);
    StepKeepsTruth(true, c, step);
    StepKeepsPrefix(c, step);
    StepKeepsOneEach(c, step);
    forall sid | sid in d.streams
      ensures StreamOk(d, d.streams[sid])
    {
      StepKeepsStream(c, step, sid);
    }
  }

  // ---------------------------------------------------------------- whole runs

  /** A cluster of empty logs, every node tracking itself alone. */
  ghost predicate Initial(c: Cluster) {
    && WellFormed(c) && c.streams == map[] && c.acks == {}
    && (forall r :: r in c.nodes ==> c.nodes[r] == Node([], 0))
    && (forall at :: at in c.hwms ==> at in c.nodes && c.hwms[at] == Hwm(at, map[at := 0], 0))
  }

  /** A run of steps; `single` as in Enabled. */
  ghost predicate EnabledRun(single: bool, c: Cluster, steps: seq<Step>)
    requires WellFormed(c)
    decreases |steps|, 0
  {
    steps == [] || (EnabledRun(single, c, steps[..|steps| - 1])
                    && Enabled(single, After(single, c, steps[..|steps| - 1]), steps[|steps| - 1]))
  }

  ghost function After(single: bool, c: Cluster, steps: seq<Step>): (d: Cluster)
    requires WellFormed(c) && EnabledRun(single, c, steps)
    ensures WellFormed(d)
    decreases |steps|, 1
  {
    if steps == [] then c
    else
      var b, step := After(single, c, steps[..|steps| - 1]), steps[|steps| - 1];
      StepWellFormed(single, b, step);
      Do(single, b, step)
  }

  ghost predicate NoElection(steps: seq<Step>) {
    forall i :: 0 <= i < |steps| ==> !steps[i].Elect?
  }
}
