/**
 The follower's side of one replication stream (internal/cluster/transport/server.go), run on its
 own: the loop of Replicate over the shards of one node. How several nodes and sessions interleave
 is in module Replication.
 */
module Replicating {
  import opened Following

  datatype ShardEntry = ShardEntry(shard: nat, entry: Entry)

  datatype Ack = Ack(shard: nat, lastOffset: int)

  type Shards = map<nat, seq<Payload>>

  datatype Ending = Closed | Broken | Gap

  /** What becomes of the calls made for the i-th entry: opening its shard, appending, sending the ack. */
  datatype Luck = Luck(opens: nat -> bool, appends: nat -> AppendResult, sends: nat -> bool)

  function LogOf(shards: Shards, id: nat): seq<Payload> {
    if id in shards then shards[id] else []
  }

  /** The shard after an entry: held offsets are skipped, the next one is appended. */
  function Held(log: seq<Payload>, e: Entry, result: AppendResult): seq<Payload> {
    if Writes(|log|, e, result) then log + [e.payload] else log
  }

  /** The entry was held already or is stored, and its ack goes out. */
  predicate Acks(log: seq<Payload>, e: Entry, luck: Luck, i: nat) {
    (e.off < |log| || (e.off == |log| && luck.appends(i).Stored?)) && luck.sends(i)
  }

  datatype Outcome = Outcome(shards: Shards, acks: seq<Ack>, ending: Ending)

  /** What the stream leaves behind, from its i-th entry on. */
  function Served(shards: Shards, entries: seq<ShardEntry>, i: nat, luck: Luck, acks: seq<Ack>): Outcome
    requires i <= |entries|
    decreases |entries| - i
  {
    if i == |entries| then Outcome(shards, acks, Closed)
    else if !luck.opens(i) then Outcome(shards, acks, Broken)
    else
      var e := entries[i];
      var log := LogOf(shards, e.shard);
      var after := Held(log, e.entry, luck.appends(i));
      var now := shards[e.shard := after];
      if e.entry.off > |log| then Outcome(now, acks, Gap)
      else if !Acks(log, e.entry, luck, i) then Outcome(now, acks, Broken)
      else Served(now, entries, i + 1, luck, acks + [Ack(e.shard, |after| - 1)])
  }

  class Follower {
    var shards: Shards
    var acks: seq<Ack>

    constructor ()
      ensures shards == map[] && acks == []
    {
      shards, acks := map[], [];
    }

    /** Replicate, until the stream closes, a call fails or an entry leaves a gap. */
    method Replicate(entries: seq<ShardEntry>, luck: Luck) returns (ending: Ending)
      modifies this
      ensures Outcome(shards, acks, ending) == Served(old(shards), entries, 0, luck, old(acks))
    {
      var i := 0;
      ghost var goal := Served(shards, entries, 0, luck, acks);
      while i < |entries|
        invariant 0 <= i <= |entries| && Served(shards, entries, i, luck, acks) == goal
      {
        var entry, next := entries[i], i + 1;
        ghost var was := shards;
        if !luck.opens(i) {
          return Broken;
        }
        if entry.shard !in shards {
          shards := shards[entry.shard := []];
        }
        assert shards == was[entry.shard := LogOf(was, entry.shard)];
        var tail := |shards[entry.shard]|;
        if entry.entry.off == tail {
          if !luck.appends(i).NotWritten? {
            shards := shards[entry.shard := shards[entry.shard] + [entry.entry.payload]];
          }
          assert shards == was[entry.shard := Held(LogOf(was, entry.shard), entry.entry, luck.appends(i))];
          if !luck.appends(i).Stored? {
            return Broken;
          }
        } else if entry.entry.off > tail {
          return Gap;
        }
        assert shards == was[entry.shard := Held(LogOf(was, entry.shard), entry.entry, luck.appends(i))];
        if !luck.sends(i) {
          return Broken;
        }
        acks := acks + [Ack(entry.shard, |shards[entry.shard]| - 1)];
        assert Served(shards, entries, next, luck, acks) == goal;
        i := next;
      }
      return Closed;
    }
  }

  // ---------------------------------------------------------------- streaming a leader's log

  /** The leader's records from offset j up to m, as entries of one shard. */
  function Stream(leader: seq<Payload>, shard: nat, j: nat, m: nat): seq<ShardEntry>
    requires j <= m <= |leader|
  {
    seq(m - j, i requires 0 <= i < m - j => ShardEntry(shard, Entry(j + i, leader[j + i])))
  }

  ghost predicate Smooth(luck: Luck) {
    forall i :: luck.opens(i) && luck.appends(i).Stored? && luck.sends(i)
  }

  function Max(a: nat, b: nat): nat {
    if a < b then b else a
  }

  /** Offsets that the follower holds are kept as they are, the others are taken from the leader. */
  function Merged(log: seq<Payload>, leader: seq<Payload>, m: nat): seq<Payload>
    requires m <= |leader|
  {
    if m <= |log| then log else log + leader[|log|..m]
  }

  /** The acks for the records from `from` up to m of a follower that holds len: its length after each, less one. */
  function StreamAcks(shard: nat, len: nat, from: nat, m: nat): seq<Ack>
    requires from <= m
  {
    seq(m - from, n requires 0 <= n < m - from => Ack(shard, Max(len, from + n + 1) - 1))
  }

  lemma {:induction false} StreamAcksNext(shard: nat, len: nat, from: nat, m: nat, after: nat, next: nat)
    requires from < m && next == from + 1 && after == Max(len, next)
    ensures StreamAcks(shard, len, from, m) == [Ack(shard, after - 1)] + StreamAcks(shard, after, next, m)
  {
    var all, rest := StreamAcks(shard, len, from, m), StreamAcks(shard, after, next, m);
    assert |all| == 1 + |rest|;
    forall n | 0 <= n < |all|
      ensures all[n] == ([Ack(shard, after - 1)] + rest)[n]
    {
      assert all[n] == Ack(shard, Max(len, from + n + 1) - 1);
      if n > 0 {
        var p := n - 1;
        assert rest[p] == Ack(shard, Max(after, next + p + 1) - 1);
      }
    }
  }

  /** One record of a stream that meets no failure. */
  lemma {:induction false} SmoothOnce(shards: Shards, leader: seq<Payload>, shard: nat, j: nat, m: nat, i: nat,
                                      from: nat, next: nat, luck: Luck, acks: seq<Ack>)
    returns (after: seq<Payload>, more: seq<Ack>)
    requires j <= m <= |leader| && i < m - j && next == i + 1 && from == j + i && Smooth(luck) && shard in shards
    requires from <= |shards[shard]|
    ensures after == if from == |shards[shard]| then shards[shard] + [leader[from]] else shards[shard]
    ensures more == acks + [Ack(shard, |after| - 1)]
    ensures Served(shards, Stream(leader, shard, j, m), i, luck, acks)
            == Served(shards[shard := after], Stream(leader, shard, j, m), next, luck, more)
  {
    var e := Stream(leader, shard, j, m)[i];
    assert e == ShardEntry(shard, Entry(from, leader[from]));
    after := Held(shards[shard], e.entry, luck.appends(i));
    more := acks + [Ack(shard, |after| - 1)];
  }

  lemma {:induction false} MergedNext(log: seq<Payload>, leader: seq<Payload>, m: nat, from: nat, after: seq<Payload>)
    requires from < m <= |leader| && from <= |log|
    requires after == if from == |log| then log + [leader[from]] else log
    ensures Merged(after, leader, m) == Merged(log, leader, m) && |after| == Max(|log|, from + 1)
  {
  }

  /** A stream that meets no failure: what is then held, and every ack. */
  lemma {:induction false} ServedStream(shards: Shards, leader: seq<Payload>, shard: nat, j: nat, m: nat, i: nat,
                                        from: nat, luck: Luck, acks: seq<Ack>)
    requires j <= m <= |leader| && from == j + i <= m && Smooth(luck) && shard in shards && from <= |shards[shard]|
    ensures var out := Served(shards, Stream(leader, shard, j, m), i, luck, acks);
            && out.ending == Closed
            && out.shards == shards[shard := Merged(shards[shard], leader, m)]
            && out.acks == acks + StreamAcks(shard, |shards[shard]|, from, m)
    decreases m - from
  {
    var log := shards[shard];
    if from < m {
      var next, later := i + 1, from + 1;
      var after, more := SmoothOnce(shards, leader, shard, j, m, i, from, next, luck, acks);
      ServedStream(shards[shard := after], leader, shard, j, m, next, later, luck, more);
      MergedNext(log, leader, m, from, after);
      AcksNext(shard, log, after, from, later, m, acks, more);
      assert shards[shard := after][shard := Merged(log, leader, m)] == shards[shard := Merged(log, leader, m)];
    } else {
      assert Merged(log, leader, m) == log && shards[shard := log] == shards;
    }
  }

  lemma {:induction false} AcksNext(shard: nat, log: seq<Payload>, after: seq<Payload>, from: nat, later: nat, m: nat,
                                    acks: seq<Ack>, more: seq<Ack>)
    requires from < m && later == from + 1 && |after| == Max(|log|, later) && more == acks + [Ack(shard, |after| - 1)]
    ensures more + StreamAcks(shard, |after|, later, m) == acks + StreamAcks(shard, |log|, from, m)
  {
    StreamAcksNext(shard, |log|, from, m, |after|, later);
  }

  /**
   A stream that starts at offset j ends in a gap exactly when the follower's tail is below j, and
   then nothing is applied; from 0, as leaders do on every reconnect, it never does.
   */
  lemma {:induction false} GapIff(shards: Shards, leader: seq<Payload>, shard: nat, j: nat, m: nat, luck: Luck,
                                  acks: seq<Ack>)
    requires j < m <= |leader| && Smooth(luck) && shard in shards
    ensures var out := Served(shards, Stream(leader, shard, j, m), 0, luck, acks);
            && (out.ending == Gap <==> j > |shards[shard]|)
            && out.shards
               == shards[shard := if j > |shards[shard]| then shards[shard] else Merged(shards[shard], leader, m)]
  {
    if j <= |shards[shard]| {
      ServedStream(shards, leader, shard, j, m, 0, j, luck, acks);
    }
  }

  /** Streaming the same again changes nothing. */
  lemma {:induction false} RestreamingIsIdempotent(shards: Shards, leader: seq<Payload>, shard: nat, m: nat,
                                                   luck: Luck, acks: seq<Ack>, more: seq<Ack>)
    requires m <= |leader| && Smooth(luck) && shard in shards
    ensures var once := Served(shards, Stream(leader, shard, 0, m), 0, luck, acks).shards;
            Served(once, Stream(leader, shard, 0, m), 0, luck, more).shards == once
  {
    ServedStream(shards, leader, shard, 0, m, 0, 0, luck, acks);
    var once := shards[shard := Merged(shards[shard], leader, m)];
    ServedStream(once, leader, shard, 0, m, 0, 0, luck, more);
    assert Merged(once[shard], leader, m) == once[shard];
    assert once[shard := once[shard]] == once;
  }

  /**
   Reconnecting is meant to heal a follower. It agrees with the leader on what was streamed
   exactly when it agreed on what it already held: held offsets are skipped unread.
   */
  lemma {:induction false} RestreamingHealsIff(shards: Shards, leader: seq<Payload>, shard: nat, m: nat, luck: Luck,
                                               acks: seq<Ack>)
    requires m <= |leader| && Smooth(luck) && shard in shards
    ensures var log := shards[shard];
            var after := Served(shards, Stream(leader, shard, 0, m), 0, luck, acks).shards;
            && shard in after && |after[shard]| == Max(|log|, m)
            && (after[shard][..m] == leader[..m] <==>
               (if |log| < m then log == leader[..|log|] else log[..m] == leader[..m]))
  {
    ServedStream(shards, leader, shard, 0, m, 0, 0, luck, acks);
    var log := shards[shard];
    if |log| < m {
      var after := log + leader[|log|..m];
      assert after[..m] == after;
      assert leader[..m] == leader[..|log|] + leader[|log|..m];
      assert after[..|log|] == log && leader[..m][..|log|] == leader[..|log|];
    }
  }

  /** Whatever the stream and the failures, no shard loses a record and no other shard is touched. */
  lemma {:induction false} ServedOnlyAppends(shards: Shards, entries: seq<ShardEntry>, i: nat, luck: Luck,
                                             acks: seq<Ack>, id: nat)
    requires i <= |entries|
    ensures LogOf(shards, id) <= LogOf(Served(shards, entries, i, luck, acks).shards, id)
    ensures (forall j :: i <= j < |entries| ==> entries[j].shard != id) ==>
      LogOf(Served(shards, entries, i, luck, acks).shards, id) == LogOf(shards, id)
    decreases |entries| - i
  {
    if i < |entries| && luck.opens(i) {
      var e := entries[i];
      var log := LogOf(shards, e.shard);
      var after := Held(log, e.entry, luck.appends(i));
      if Acks(log, e.entry, luck, i) {
        ServedOnlyAppends(shards[e.shard := after], entries, i + 1, luck, acks + [Ack(e.shard, |after| - 1)], id);
      }
    }
  }

  // ---------------------------------------------------------------- any stream

  /** An entry that is answered: held already, or the next record and stored; the ack is the length then, less one. */
  ghost predicate Answered(before: Shards, after: Shards, e: ShardEntry, luck: Luck, i: nat, ack: Ack) {
    var log := LogOf(before, e.shard);
    && luck.opens(i) && luck.sends(i)
    && (if e.entry.off < |log| then after == before[e.shard := log]
        else e.entry.off == |log| && luck.appends(i) == Stored && after == before[e.shard := log + [e.entry.payload]])
    && ack == Ack(e.shard, |LogOf(after, e.shard)| - 1)
  }

  /** An entry at which the stream ends, and what it leaves. */
  ghost predicate EndsAt(before: Shards, after: Shards, e: ShardEntry, luck: Luck, i: nat, ending: Ending) {
    var log := LogOf(before, e.shard);
    if !luck.opens(i) then after == before && ending == Broken
    else if e.entry.off > |log| then after == before[e.shard := log] && ending == Gap
    else
      && ending == Broken
      && (if e.entry.off < |log| then !luck.sends(i) && after == before[e.shard := log]
          else if luck.appends(i) == NotWritten then after == before[e.shard := log]
          else after == before[e.shard := log + [e.entry.payload]] && (luck.appends(i) == Stored ==> !luck.sends(i)))
  }

  /** The shards after each answered entry. */
  ghost predicate Traces(states: seq<Shards>, entries: seq<ShardEntry>, i: nat, luck: Luck, acks: seq<Ack>) {
    && |states| == |acks| + 1 && i + |acks| <= |entries|
    && forall n :: 0 <= n < |acks| ==> Answered(states[n], states[n + 1], entries[i + n], luck, i + n, acks[n])
  }

  /**
   For any stream and any failures: entries are answered one by one, each with an ack of its own
   shard's length after it, less one, up to the end or to the first that is not.
   */
  lemma {:induction false} ServedIsTraced(shards: Shards, entries: seq<ShardEntry>, i: nat, luck: Luck, acks: seq<Ack>)
    returns (states: seq<Shards>, sent: seq<Ack>)
    requires i <= |entries|
    ensures var out := Served(shards, entries, i, luck, acks);
            && out.acks == acks + sent && states != [] && states[0] == shards && Traces(states, entries, i, luck, sent)
            && var last, next := states[|states| - 1], i + |sent|;
               if next == |entries| then out.ending == Closed && out.shards == last
               else EndsAt(last, out.shards, entries[next], luck, next, out.ending)
    decreases |entries| - i
  {
    states, sent := [shards], [];
    if i < |entries| {
      var next := i + 1;
      var answered, now, ack := ServedOnce(shards, entries, i, next, luck, acks);
      if answered {
        var rest, more := ServedIsTraced(now, entries, next, luck, acks + [ack]);
        TraceCons(shards, rest, entries, i, next, luck, ack, more);
        states, sent := [shards] + rest, [ack] + more;
        AckFirst(acks, ack, more);
      }
    }
  }

  lemma {:induction false} AckFirst(acks: seq<Ack>, ack: Ack, more: seq<Ack>)
    ensures acks + [ack] + more == acks + ([ack] + more)
  {
  }

  /** One entry: it is answered and the stream goes on, or the stream ends there. */
  lemma {:induction false} ServedOnce(shards: Shards, entries: seq<ShardEntry>, i: nat, next: nat, luck: Luck,
                                      acks: seq<Ack>)
    returns (answered: bool, now: Shards, ack: Ack)
    requires i < |entries| && next == i + 1
    ensures var out := Served(shards, entries, i, luck, acks);
            if answered then
              Answered(shards, now, entries[i], luck, i, ack) && out == Served(now, entries, next, luck, acks + [ack])
            else EndsAt(shards, out.shards, entries[i], luck, i, out.ending) && out.acks == acks
  {
    var e := entries[i];
    var log := LogOf(shards, e.shard);
    now := shards[e.shard := Held(log, e.entry, luck.appends(i))];
    ack := Ack(e.shard, |LogOf(now, e.shard)| - 1);
    answered := luck.opens(i) && Acks(log, e.entry, luck, i);
  }

  lemma {:induction false} TraceCons(shards: Shards, rest: seq<Shards>, entries: seq<ShardEntry>, i: nat, next: nat,
                                     luck: Luck, ack: Ack, more: seq<Ack>)
    requires next == i + 1 && i < |entries| && rest != [] && Traces(rest, entries, next, luck, more)
    requires Answered(shards, rest[0], entries[i], luck, i, ack)
    ensures Traces([shards] + rest, entries, i, luck, [ack] + more)
    ensures ([shards] + rest)[|rest|] == rest[|rest| - 1]
  {
    var states, sent := [shards] + rest, [ack] + more;
    forall n | 0 <= n < |sent|
      ensures Answered(states[n], states[n + 1], entries[i + n], luck, i + n, sent[n])
    {
      if n > 0 {
        var p := n - 1;
        assert Answered(rest[p], rest[p + 1], entries[next + p], luck, next + p, more[p]);
      }
    }
  }

  ghost predicate AllHeld(shards: Shards, acks: seq<Ack>) {
    forall i :: 0 <= i < |acks| ==> 0 <= acks[i].lastOffset < |LogOf(shards, acks[i].shard)|
  }

  lemma {:induction false} HeldStays(shards: Shards, acks: seq<Ack>, id: nat, after: seq<Payload>)
    requires AllHeld(shards, acks) && |LogOf(shards, id)| <= |after|
    ensures AllHeld(shards[id := after], acks)
  {
  }

  /** Every ack names the last offset of a record that the follower holds. */
  lemma {:induction false} AcksAreHeld(shards: Shards, entries: seq<ShardEntry>, i: nat, luck: Luck, acks: seq<Ack>)
    requires i <= |entries| && AllHeld(shards, acks)
    ensures var out := Served(shards, entries, i, luck, acks);
            acks <= out.acks && AllHeld(out.shards, out.acks)
    decreases |entries| - i
  {
    if i < |entries| && luck.opens(i) {
      var e, next := entries[i], i + 1;
      var log := LogOf(shards, e.shard);
      var after := Held(log, e.entry, luck.appends(i));
      HeldStays(shards, acks, e.shard, after);
      if Acks(log, e.entry, luck, i) {
        AcksAreHeld(shards[e.shard := after], entries, next, luck, acks + [Ack(e.shard, |after| - 1)]);
      }
    }
  }
}
