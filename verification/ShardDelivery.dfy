/**
 That a subscription delivers (internal/cluster/shardwal/shardwal.go, Subscribe): from every point of
 every run, reading on is all it takes to have sent everything that is synced.
 */
module ShardDelivery {
  import opened ShardSubscribe
  import opened ShardExposure

  /** The file, the offset asked for and the mark stand as they were, and the subscription waits. */
  ghost predicate CameToWait(s: Sys, f: Sys) {
    f.file == s.file && f.sub.from == s.sub.from && f.sub.mark == s.sub.mark && f.sub.phase.Wait?
  }

  /** A replay that is under way comes to its end. */
  lemma {:induction false} ReadsOut(s: Sys, steps: seq<Step>) returns (more: seq<Step>)
    requires s.file.flushed <= |s.file.log| && EnabledRun(s, steps) && !After(s, steps).sub.phase.Stopped?
    ensures EnabledRun(s, more) && steps <= more && CameToWait(After(s, steps), After(s, more))
    decreases After(s, steps).file.flushed - After(s, steps).sub.cursor
  {
    var b := After(s, steps);
    more := steps;
    if !b.sub.phase.Wait? {
      if b.sub.cursor < b.file.flushed {
        more := OneMore(s, steps, Read);
        if !After(s, more).sub.phase.Wait? {
          more := ReadsOut(s, more);
        }
      } else {
        more := OneMore(s, steps, AtEnd);
      }
    }
  }

  /**
   After any run that was not stopped, the subscription can go on, without anything happening to the
   file, until it has sent every synced record from its offset on.
   */
  lemma {:induction false} SubscriptionCatchesUp(file: File, from: nat, steps: seq<Step>) returns (more: seq<Step>)
    requires file.synced <= file.flushed <= |file.log| && EnabledRun(Subscribe(file, from), steps)
    requires !After(Subscribe(file, from), steps).sub.phase.Stopped?
    ensures EnabledRun(Subscribe(file, from), more) && steps <= more
    ensures var s, f := After(Subscribe(file, from), steps), After(Subscribe(file, from), more);
            f.file == s.file && s.file.synced <= from + |f.sub.out|
  {
    var s := Subscribe(file, from);
    more := ReadsOut(s, steps);
    if After(s, more).file.synced > After(s, more).sub.next {
      more := OneMore(s, more, Wake);
      more := ReadsOut(s, more);
    }
    RunKeepsInv(s, more);
    FromIsFixed(s, more);
  }
}
