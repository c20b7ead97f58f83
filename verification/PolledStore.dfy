/**
 The store that the poller rebuilds (internal/workflow/poller.go), over every interleaving of
 publishes and drains of the partitions. Events are routed to a partition by the key of their
 execution, so the poller keeps the order of each execution's events but not that of the log.
 */
module PolledStore {
  import opened Bytes
  import opened Fold
  import opened Store
  import opened Redelivery
  import opened Options
  import opened TopicLog
  import Coordinator
  import Polling

  // ---------------------------------------------------------------- the order across executions does not matter

  lemma {:induction false} ExecOfItsEvents(es: seq<Event>, k: Key)
    ensures ExecOf(es, k) == ExecOf(Project(es, k), k)
  {
    if es != [] {
      var init, e := es[..|es| - 1], es[|es| - 1];
      ExecOfItsEvents(init, k);
      if e.key == k {
        assert (Project(init, k) + [e])[..|Project(init, k)|] == Project(init, k);
      }
    }
  }

  ghost predicate SamePerKey(es: seq<Event>, fs: seq<Event>) {
    forall k :: Project(es, k) == Project(fs, k)
  }

  /** Two logs with the same events in the same order for each execution rebuild the same executions. */
  lemma {:induction false} OrderAcrossKeysIsFree(es: seq<Event>, fs: seq<Event>)
    requires SamePerKey(es, fs)
    ensures Replay(Empty(0), es).execs == Replay(Empty(0), fs).execs
  {
    var s, t := Replay(Empty(0), es), Replay(Empty(0), fs);
    ReplayIsPointwise(0, es);
    ReplayIsPointwise(0, fs);
    forall k
      ensures ExecOf(es, k) == ExecOf(fs, k)
      ensures k in s.execs <==> k in t.execs
      ensures k in s.execs ==> s.execs[k] == t.execs[k]
    {
      ExecOfItsEvents(es, k);
      ExecOfItsEvents(fs, k);
      assert Project(es, k) == Project(fs, k);
    }
  }

  // ---------------------------------------------------------------- runs of the poller over all partitions

  /** How payloads parse, how many partitions there are, and where each key goes. */
  datatype Topics = Topics(read: Str -> Option<Event>, count: nat, route: Key -> nat, capacity: nat)

  ghost predicate Sane(t: Topics) {
    t.capacity > 0 && forall k :: t.route(k) < t.count
  }

  datatype Step = Publish(part: nat, payload: Str, now: int) | Drain(part: nat)

  datatype System = System(parts: seq<Polling.State>, published: seq<Str>, polled: seq<Str>)

  function Payloads(msgs: seq<Message>): seq<Str> {
    if msgs == [] then [] else Payloads(msgs[..|msgs| - 1]) + [msgs[|msgs| - 1].payload]
  }

  /** The step on its own partition. */
  function Local(step: Step): Polling.Step {
    match step
    case Publish(_, payload, now) => Polling.Publish(payload, now)
    case Drain(_) => Polling.Drain
  }

  /** A publish that is recognised went where its key is routed. */
  predicate Routed(t: Topics, step: Step) {
    step.part < t.count &&
    (step.Publish? && t.read(step.payload).Some? ==> step.part == t.route(t.read(step.payload).value.key))
  }

  function Next(s: System, step: Step): System
    requires step.part < |s.parts|
  {
    var part := s.parts[step.part];
    var parts := s.parts[step.part := Polling.Next(part, Local(step))];
    match step
    case Publish(_, payload, _) => System(parts, s.published + [payload], s.polled)
    case Drain(_) => System(parts, s.published, s.polled + Payloads(Polling.Visited(part.part)))
  }

  function Start(t: Topics): System {
    System(seq(t.count, p => Polling.Run(t.capacity, [])), [], [])
  }

  function Run(t: Topics, steps: seq<Step>): (s: System)
    requires forall i :: 0 <= i < |steps| ==> Routed(t, steps[i])
    ensures |s.parts| == t.count
  {
    if steps == [] then Start(t)
    else
      assert Routed(t, steps[|steps| - 1]);
      Next(Run(t, steps[..|steps| - 1]), steps[|steps| - 1])
  }

  /** The steps of one partition. */
  function StepsOf(steps: seq<Step>, part: nat): seq<Polling.Step> {
    if steps == [] then []
    else
      var less, step := StepsOf(steps[..|steps| - 1], part), steps[|steps| - 1];
      if step.part == part then less + [Local(step)] else less
  }

  function Read(t: Topics, payloads: seq<Str>): seq<Event> {
    if payloads == [] then []
    else
      var less, one := Read(t, payloads[..|payloads| - 1]), t.read(payloads[|payloads| - 1]);
      if one.Some? then less + [one.value] else less
  }

  /** The events of execution k in a sequence of payloads. */
  function EventsOf(t: Topics, payloads: seq<Str>, k: Key): seq<Event> {
    Project(Read(t, payloads), k)
  }

  lemma {:induction false} EventsSnoc(t: Topics, payloads: seq<Str>, payload: Str, k: Key)
    ensures EventsOf(t, payloads + [payload], k) ==
            EventsOf(t, payloads, k) +
            (if t.read(payload).Some? && t.read(payload).value.key == k then [t.read(payload).value] else [])
  {
    var more, less, one := payloads + [payload], Read(t, payloads), t.read(payload);
    assert more[..|payloads|] == payloads;
    if one.Some? {
      assert (less + [one.value])[..|less|] == less;
    }
  }

  lemma {:induction false} EventsConcat(t: Topics, a: seq<Str>, b: seq<Str>, k: Key)
    ensures EventsOf(t, a + b, k) == EventsOf(t, a, k) + EventsOf(t, b, k)
  {
    if b == [] {
      assert a + b == a;
    } else {
      var less, last := b[..|b| - 1], b[|b| - 1];
      EventsConcat(t, a, less, k);
      EventsSnoc(t, a + less, last, k);
      EventsSnoc(t, less, last, k);
      assert a + b == a + less + [last] && b == less + [last];
    }
  }

  lemma {:induction false} PayloadsConcat(a: seq<Message>, b: seq<Message>)
    ensures Payloads(a + b) == Payloads(a) + Payloads(b)
  {
    if b == [] {
      assert a + b == a;
    } else {
      PayloadsConcat(a, b[..|b| - 1]);
      assert (a + b)[..|a + b| - 1] == a + b[..|b| - 1];
    }
  }

  /** Every recognised message of a partition belongs there. */
  ghost predicate Belongs(t: Topics, msgs: seq<Message>, part: nat) {
    forall i :: 0 <= i < |msgs| && t.read(msgs[i].payload).Some? ==> t.route(t.read(msgs[i].payload).value.key) == part
  }

  lemma {:induction false} VisitedBelong(t: Topics, p: Polling.Part, part: nat)
    requires Belongs(t, p.history, part)
    ensures Belongs(t, Polling.Visited(p), part)
  {
    var msgs, from := Polling.Visited(p), From(Head(|p.history|, p.capacity), p.cursor);
    forall i | 0 <= i < |msgs| && t.read(msgs[i].payload).Some?
      ensures t.route(t.read(msgs[i].payload).value.key) == part
    {
      assert msgs[i] == p.history[from + i];
    }
  }

  lemma {:induction false} NoneOfOthers(t: Topics, msgs: seq<Message>, part: nat, k: Key)
    requires Belongs(t, msgs, part) && t.route(k) != part
    ensures EventsOf(t, Payloads(msgs), k) == []
  {
    if msgs != [] {
      var less := msgs[..|msgs| - 1];
      NoneOfOthers(t, less, part, k);
      EventsSnoc(t, Payloads(less), msgs[|msgs| - 1].payload, k);
    }
  }

  /** What is published and polled of an execution is what its own partition published and handed over. */
  ghost predicate Split(t: Topics, s: System, k: Key) {
    var own := t.route(k);
    && own < |s.parts|
    && EventsOf(t, s.published, k) == EventsOf(t, Payloads(s.parts[own].part.history), k)
    && EventsOf(t, s.polled, k) == EventsOf(t, Payloads(s.parts[own].taken), k)
  }

  ghost predicate Placed(t: Topics, s: System) {
    forall p :: 0 <= p < |s.parts| ==> Belongs(t, s.parts[p].part.history, p)
  }

  lemma {:induction false} StepSplits(t: Topics, s: System, step: Step, k: Key)
    requires Routed(t, step) && step.part < |s.parts| && Split(t, s, k) && Placed(t, s)
    ensures Split(t, Next(s, step), k)
  {
    match step
    case Publish(part, payload, now) => PublishSplits(t, s, part, payload, now, k);
    case Drain(part) => DrainSplits(t, s, part, k);
  }

  lemma {:induction false} PublishSplits(t: Topics, s: System, part: nat, payload: Str, now: int, k: Key)
    requires Routed(t, Publish(part, payload, now)) && part < |s.parts| && Split(t, s, k)
    ensures Split(t, Next(s, Publish(part, payload, now)), k)
  {
    EventsSnoc(t, s.published, payload, k);
    if part == t.route(k) {
      var history := s.parts[part].part.history;
      var m := Message(|history|, now, payload);
      assert (history + [m])[..|history|] == history;
      EventsSnoc(t, Payloads(history), payload, k);
    }
  }

  lemma {:induction false} DrainSplits(t: Topics, s: System, part: nat, k: Key)
    requires part < |s.parts| && Split(t, s, k) && Placed(t, s)
    ensures Split(t, Next(s, Drain(part)), k)
  {
    var own := s.parts[part];
    var msgs := Polling.Visited(own.part);
    EventsConcat(t, s.polled, Payloads(msgs), k);
    if part == t.route(k) {
      PayloadsConcat(own.taken, msgs);
      EventsConcat(t, Payloads(own.taken), Payloads(msgs), k);
    } else {
      VisitedBelong(t, own.part, part);
      NoneOfOthers(t, msgs, part, k);
    }
  }

  lemma {:induction false} RunSplits(t: Topics, steps: seq<Step>, k: Key)
    requires Sane(t) && forall i :: 0 <= i < |steps| ==> Routed(t, steps[i])
    ensures Split(t, Run(t, steps), k) && Placed(t, Run(t, steps))
  {
    if steps != [] {
      RunSplits(t, steps[..|steps| - 1], k);
      StepSplits(t, Run(t, steps[..|steps| - 1]), steps[|steps| - 1], k);
    }
  }

  lemma {:induction false} RunIsLocal(t: Topics, steps: seq<Step>, part: nat)
    requires part < t.count && forall i :: 0 <= i < |steps| ==> Routed(t, steps[i])
    ensures Run(t, steps).parts[part] == Polling.Run(t.capacity, StepsOf(steps, part))
  {
    if steps != [] {
      var less, step := steps[..|steps| - 1], steps[|steps| - 1];
      RunIsLocal(t, less, part);
      var own := StepsOf(less, part);
      assert (own + [Local(step)])[..|own|] == own;
    }
  }

  /** No drain of the partition came after the ring had wrapped past its cursor. */
  ghost predicate InStep(t: Topics, steps: seq<Step>, part: nat) {
    Polling.KeptUp(t.capacity, StepsOf(steps, part))
  }

  lemma {:induction false} TakenIsAPrefix(t: Topics, history: seq<Message>, cursor: nat, taken: seq<Message>, k: Key)
    requires cursor <= |history| && taken == history[..cursor]
    ensures EventsOf(t, Payloads(taken), k) <= EventsOf(t, Payloads(history), k)
    ensures cursor == |history| ==> taken == history
  {
    assert history == taken + history[cursor..];
    PayloadsConcat(taken, history[cursor..]);
    EventsConcat(t, Payloads(taken), Payloads(history[cursor..]), k);
  }

  /**
   While a partition's drains keep up with the ring, the poller has of each of its executions the
   first so many events published, in order; and all of them once its cursor is at the end.
   */
  lemma {:induction false} PolledIsAPrefix(t: Topics, steps: seq<Step>, k: Key)
    requires Sane(t) && forall i :: 0 <= i < |steps| ==> Routed(t, steps[i])
    requires InStep(t, steps, t.route(k))
    ensures var s := Run(t, steps);
            var own := s.parts[t.route(k)].part;
            && EventsOf(t, s.polled, k) <= EventsOf(t, s.published, k)
            && (own.cursor == |own.history| ==> EventsOf(t, s.polled, k) == EventsOf(t, s.published, k))
  {
    var s := Run(t, steps);
    var own := s.parts[t.route(k)];
    RunSplits(t, steps, k);
    RunIsLocal(t, steps, t.route(k));
    Polling.NothingMissedIff(t.capacity, StepsOf(steps, t.route(k)));
    TakenIsAPrefix(t, own.part.history, own.part.cursor, own.taken, k);
  }

  predicate AtEnd(s: System, part: nat) {
    part < |s.parts| ==> s.parts[part].part.cursor == |s.parts[part].part.history|
  }

  /**
   Whatever the interleaving of publishes and drains, once every cursor is at the end and every
   drain was in time, the rebuilt executions are those of replaying the log in the order of publication.
   */
  lemma {:induction false} PolledEqualsReplayed(t: Topics, steps: seq<Step>)
    requires Sane(t) && forall i :: 0 <= i < |steps| ==> Routed(t, steps[i])
    requires forall p :: 0 <= p < t.count ==> InStep(t, steps, p)
    requires forall p :: 0 <= p < t.count ==> AtEnd(Run(t, steps), p)
    ensures var s := Run(t, steps);
            Replay(Empty(0), Read(t, s.polled)).execs == Replay(Empty(0), Read(t, s.published)).execs
  {
    var s := Run(t, steps);
    forall k
      ensures Project(Read(t, s.polled), k) == Project(Read(t, s.published), k)
    {
      assert InStep(t, steps, t.route(k)) && AtEnd(s, t.route(k));
      PolledIsAPrefix(t, steps, k);
    }
    OrderAcrossKeysIsFree(Read(t, s.polled), Read(t, s.published));
  }

  /** So when the published events are the log of a coordinator, they are its live executions. */
  lemma {:induction false} PolledEqualsLive(cfg: Coordinator.Config, calls: seq<Coordinator.Call>, t: Topics,
                                            steps: seq<Step>)
    requires cfg.Valid() && Coordinator.PossibleRun(Coordinator.Fresh(cfg, 0), calls)
    requires Sane(t) && forall i :: 0 <= i < |steps| ==> Routed(t, steps[i])
    requires forall p :: 0 <= p < t.count ==> InStep(t, steps, p)
    requires forall p :: 0 <= p < t.count ==> AtEnd(Run(t, steps), p)
    requires Read(t, Run(t, steps).published) == Coordinator.After(Coordinator.Fresh(cfg, 0), calls).log
    ensures Replay(Empty(0), Read(t, Run(t, steps).polled)).execs
            == Coordinator.After(Coordinator.Fresh(cfg, 0), calls).store.execs
  {
    PolledEqualsReplayed(t, steps);
    Coordinator.LiveEqualsReplay(cfg, 0, calls);
  }
}
