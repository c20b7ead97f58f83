/**
 The high-water mark of a shard (internal/cluster/shardwal/hwm.go): per-replica ack offsets and
 their minimum. `Hwm` is the tracker as a value; `HighWaterMark` is the object that updates it.
 */
module HighWater {

  type NodeId = string

  datatype Hwm = Hwm(self: NodeId, offsets: map<NodeId, nat>, current: nat)

  ghost predicate IsMin(offsets: map<NodeId, nat>, v: nat) {
    (exists r :: r in offsets && offsets[r] == v) && forall r :: r in offsets ==> v <= offsets[r]
  }

  /** The mark is the minimum over the tracked replicas, and the node itself is always tracked. */
  ghost predicate Sound(h: Hwm) {
    h.self in h.offsets && IsMin(h.offsets, h.current)
  }

  function Tracked(h: Hwm, ids: set<NodeId>): map<NodeId, nat> {
    map r | r in ids + {h.self} :: if r in h.offsets then h.offsets[r] else 0
  }

  /** h' is h after the replica set was declared to be ids. */
  ghost predicate Declared(h: Hwm, ids: set<NodeId>, h': Hwm) {
    h'.self == h.self && h'.offsets == Tracked(h, ids) && Sound(h')
  }

  /** h' is h after replica r acknowledged offset n. */
  ghost predicate Acked(h: Hwm, r: NodeId, n: nat, h': Hwm) {
    if r in h.offsets && h.offsets[r] < n then
      h'.self == h.self && h'.offsets == h.offsets[r := n] && Sound(h')
    else h' == h
  }

  /** The minimum is unique, so each of the two relations determines its result. */
  lemma {:induction false} MinIsUnique(offsets: map<NodeId, nat>, v: nat, w: nat)
    requires IsMin(offsets, v) && IsMin(offsets, w)
    ensures v == w
  {
  }

  /** An ack never lowers the mark; declaring replicas may, when a new one starts at 0. */
  lemma {:induction false} AckNeverLowersTheMark(h: Hwm, r: NodeId, n: nat, h': Hwm)
    requires Sound(h) && Acked(h, r, n, h')
    ensures h.current <= h'.current
    ensures forall k :: k in h.offsets ==> k in h'.offsets && h.offsets[k] <= h'.offsets[k]
  {
    var k :| k in h'.offsets && h'.offsets[k] == h'.current;
    assert h.current <= h.offsets[k];
  }

  /**
   Declaring replicas keeps the offsets of those that were tracked, starts the new ones at zero and
   drops the rest; the mark falls only by a new one, and then to zero.
   */
  lemma {:induction false} DeclaringKeepsOffsets(h: Hwm, ids: set<NodeId>, h': Hwm)
    requires Sound(h) && Declared(h, ids, h')
    ensures h'.offsets.Keys == ids + {h.self}
    ensures forall r :: r in h'.offsets && r in h.offsets ==> h'.offsets[r] == h.offsets[r]
    ensures if ids <= h.offsets.Keys then h.current <= h'.current else h'.current == 0
  {
    if ids <= h.offsets.Keys {
      var k :| k in h'.offsets && h'.offsets[k] == h'.current;
      assert h.current <= h.offsets[k];
    } else {
      var k :| k in ids && k !in h.offsets;
      assert h'.offsets[k] == 0;
    }
  }

  class HighWaterMark {
    const selfId: NodeId
    var offsets: map<NodeId, nat>
    var current: nat

    ghost function Value(): Hwm
      reads this
    {
      Hwm(selfId, offsets, current)
    }

    constructor (id: NodeId)
      ensures selfId == id && offsets == map[id := 0] && current == 0 && Sound(Value())
    {
      selfId := id;
      offsets := map[id := 0];
      current := 0;
      new;
      assert IsMin(offsets, 0) by {
        assert id in offsets && offsets[id] == 0;
      }
    }

    method SetReplicas(ids: seq<NodeId>)
      requires Sound(Value())
      modifies this
      ensures Declared(old(Value()), (set r | r in ids), Value())
    {
      var want: set<NodeId> := {selfId};
      for i := 0 to |ids|
        invariant want == {selfId} + (set r | r in ids[..i])
        invariant unchanged(this)
      {
        want := want + {ids[i]};
      }
      assert ids[..|ids|] == ids;
      // Drop replicas that are no longer wanted, and start the new ones at 0.
      offsets := map r | r in offsets && r in want :: offsets[r];
      StartMissing(want);
      assert offsets == Tracked(old(Value()), set r | r in ids);
      Recompute();
    }

    method StartMissing(want: set<NodeId>)
      requires offsets.Keys <= want
      modifies this`offsets
      ensures offsets.Keys == want
      ensures forall r :: r in want ==> offsets[r] == if r in old(offsets) then old(offsets)[r] else 0
    {
      var missing := want - offsets.Keys;
      while missing != {}
        invariant forall r :: r in want <==> r in offsets || r in missing
        invariant forall r :: r in missing ==> r !in offsets && r !in old(offsets)
        invariant forall r :: r in offsets ==> offsets[r] == if r in old(offsets) then old(offsets)[r] else 0
        decreases |missing|
      {
        var r :| r in missing;
        missing := missing - {r};
        offsets := offsets[r := 0];
      }
    }

    method Update(replica: NodeId, offset: nat)
      requires Sound(Value())
      modifies this
      ensures Acked(old(Value()), replica, offset, Value())
    {
      if replica in offsets && offset > offsets[replica] {
        offsets := offsets[replica := offset];
        assert replica in offsets.Keys;
        Recompute();
      }
    }

    method Recompute()
      requires offsets.Keys != {}
      modifies this`current
      ensures IsMin(offsets, current)
    {
      var first, min := true, 0;
      var left := offsets.Keys;
      while left != {}
        invariant left <= offsets.Keys
        invariant first <==> left == offsets.Keys
        invariant !first ==> exists r :: r in offsets && r !in left && offsets[r] == min
        invariant forall r :: r in offsets && r !in left ==> min <= offsets[r]
        decreases |left|
      {
        var r :| r in left;
        left := left - {r};
        if first || offsets[r] < min {
          min := offsets[r];
          first := false;
        }
      }
      current := min;
    }

    /** What WaitFor(offset) waits for. */
    method Reached(offset: nat) returns (ok: bool)
      requires Sound(Value())
      ensures ok <==> forall r :: r in offsets ==> offset <= offsets[r]
    {
      ok := current >= offset;
      ghost var r :| r in offsets && offsets[r] == current;
    }
  }
}
