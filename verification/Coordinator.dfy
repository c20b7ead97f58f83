/**
 The sequential coordinator (internal/workflow/coordinator.go): every call runs to completion before
 the next one starts. A publish takes one `Turn`: the clock reading stamped on the envelope and
 whether the log took it. A call that has run out of turns finds the log failing.
 */
module Coordinator {
  import opened Fold
  import opened Store
  import opened Options

  const COORDINATOR := "wf-coordinator"
  const LEASE_EXPIRED := "lease_expired"
  const ATTEMPT_FAILED := "attempt_failed"
  const NOT_RETRYABLE := "not_retryable"
  const ATTEMPTS_EXHAUSTED := "attempts_exhausted"

  datatype Config = Config(maxAttempts: int, leaseTtl: Time) {
    /** Options only ever install positive defaults. */
    predicate Valid() {
      maxAttempts > 0 && leaseTtl > 0
    }
  }

  datatype Coord = Coord(cfg: Config, store: Store.State, log: seq<Event>)

  datatype Turn = Turn(at: Time, ok: bool)

  function Next(turns: seq<Turn>): Turn {
    if turns == [] then Turn(0, false) else turns[0]
  }

  function Later(turns: seq<Turn>): seq<Turn> {
    if turns == [] then [] else turns[1..]
  }

  /** Publishes an envelope and, when the log took it, folds it. */
  function Append(c: Coord, e: Event, ok: bool): Coord {
    if ok then c.(store := Apply(c.store, e), log := c.log + [e]) else c
  }

  // ---------------------------------------------------------------- calls

  datatype Spec = Spec(key: Key, taskType: string, input: string, maxAttempts: int, leaseTtl: Time)

  function SubmitEvent(cfg: Config, spec: Spec, at: Time): Event {
    var maxAttempts := if spec.maxAttempts <= 0 then cfg.maxAttempts else spec.maxAttempts;
    var ttl := if spec.leaseTtl <= 0 then cfg.leaseTtl else spec.leaseTtl;
    Event(spec.key, COORDINATOR, 0, at, Submitted(spec.taskType, spec.input, maxAttempts, ttl / NANOS_PER_MS))
  }

  function Submit(c: Coord, spec: Spec, turn: Turn): Coord {
    if spec.key in c.store.execs then c else Append(c, SubmitEvent(c.cfg, spec, turn.at), turn.ok)
  }

  datatype Lease = Lease(key: Key, taskType: string, input: string, attempt: int, deadline: Time)

  function LeaseEvent(x: Exec, worker: string, at: Time): Event {
    Event(x.key, worker, x.attempt + 1, at, Leased(worker))
  }

  datatype GrantStep = NoWork(state: Coord) | Refused(state: Coord) | Leased1(state: Coord, lease: Lease)

  /** Reserve the oldest pending execution, publish its lease, and put it back if the log refuses. */
  function GrantOne(c: Coord, taskType: string, worker: string, turn: Turn): GrantStep {
    var (s1, got) := Reserve(c.store, taskType);
    if got.None? then NoWork(c.(store := s1))
    else if !turn.ok then Refused(c.(store := Unreserve(s1, got.value)))
    else
      var x := s1.execs[got.value];
      var c2 := Append(c.(store := s1), LeaseEvent(x, worker, turn.at), true);
      var deadline := if x.key in c2.store.execs then c2.store.execs[x.key].leaseDeadline else 0;
      Leased1(c2, Lease(x.key, x.taskType, x.input, x.attempt + 1, deadline))
  }

  datatype Granted = Granted(state: Coord, leases: seq<Lease>)

  /** The rest of a batch once `left` grants are still allowed. */
  function Grant(c: Coord, taskType: string, worker: string, left: nat, turns: seq<Turn>): Granted
    decreases left
  {
    if left == 0 then Granted(c, [])
    else
      var one := GrantOne(c, taskType, worker, Next(turns));
      if !one.Leased1? then Granted(one.state, [])
      else
        var rest := Grant(one.state, taskType, worker, left - 1, Later(turns));
        Granted(rest.state, [one.lease] + rest.leases)
  }

  function LeaseBatch(c: Coord, taskType: string, worker: string, max: int, turns: seq<Turn>): Granted {
    Grant(c, taskType, worker, if max <= 0 then 1 else max, turns)
  }

  predicate Holds(s: Store.State, k: Key, worker: string, attempt: int) {
    k in s.execs && s.execs[k].status == Running && s.execs[k].attempt == attempt && s.execs[k].worker == worker
  }

  function Beat(c: Coord, k: Key, worker: string, attempt: int, turn: Turn): Coord {
    if !Holds(c.store, k, worker, attempt) then c
    else Append(c, Event(k, worker, attempt, turn.at, Heartbeat(worker)), turn.ok)
  }

  function CompleteEvent(k: Key, worker: string, attempt: int, result: string, at: Time): Event {
    Event(k, worker, attempt, at, Fold.Complete(worker, result))
  }

  function Finish(c: Coord, k: Key, worker: string, attempt: int, result: string, turn: Turn): Coord {
    if !MayComplete(c.store, k, attempt) then c
    else
      var begun := c.(store := BeginComplete(c.store, k, attempt));
      if turn.ok then Append(begun, CompleteEvent(k, worker, attempt, result, turn.at), true)
      else begun.(store := AbortComplete(begun.store, k))
  }

  function ReasonEvent(x: Exec, retry: bool, reason: string, at: Time): Event {
    Event(x.key, COORDINATOR, x.attempt, at, if retry then Retry(reason) else Dead(reason))
  }

  function GiveUp(c: Coord, k: Key, worker: string, attempt: int, error: string, retryable: bool,
                  turn: Turn, turn2: Turn): Coord {
    if !Holds(c.store, k, worker, attempt) then c
    else
      var x := c.store.execs[k];
      var c1 := Append(c, Event(k, worker, attempt, turn.at, Fold.Fail(worker, error, retryable)), turn.ok);
      if !turn.ok then c1
      else if retryable && attempt < x.maxAttempts then
        Append(c1, ReasonEvent(x, true, ATTEMPT_FAILED, turn2.at), turn2.ok)
      else
        Append(c1, ReasonEvent(x, false, if retryable then ATTEMPTS_EXHAUSTED else NOT_RETRYABLE, turn2.at), turn2.ok)
  }

  function ReclaimEvent(x: Exec, at: Time): Event {
    if x.attempt < x.maxAttempts then ReasonEvent(x, true, LEASE_EXPIRED, at)
    else ReasonEvent(x, false, ATTEMPTS_EXHAUSTED, at)
  }

  /** Reclaims the leases of the given snapshots, one publish each; a failed publish is skipped. */
  function Reclaim(c: Coord, snaps: seq<Exec>, turns: seq<Turn>): Coord
    decreases |snaps|
  {
    if snaps == [] then c
    else Reclaim(Append(c, ReclaimEvent(snaps[0], Next(turns).at), Next(turns).ok), snaps[1..], Later(turns))
  }

  /** Snapshots of the expired executions, in the order the map iteration yields them. */
  function Snapshots(s: Store.State, order: seq<Key>): seq<Exec>
    requires forall k :: k in order ==> k in s.execs
  {
    seq(|order|, i requires 0 <= i < |order| => assert order[i] in order; s.execs[order[i]])
  }

  /** Any order in which iterating the running set can visit the expired executions. */
  ghost predicate SweepOrder(s: Store.State, now: Time, order: seq<Key>) {
    Distinct(order) && Members(order) == Expired(s, now)
  }

  datatype Call =
    | CSubmit(spec: Spec, turn: Turn)
    | CLease(taskType: string, worker: string, max: int, turns: seq<Turn>)
    | CBeat(k: Key, worker: string, attempt: int, turn: Turn)
    | CFinish(k: Key, worker: string, attempt: int, result: string, turn: Turn)
    | CGiveUp(k: Key, worker: string, attempt: int, error: string, retryable: bool, turn: Turn, turn2: Turn)
    | CSweep(now: Time, order: seq<Key>, turns: seq<Turn>)

  ghost predicate Possible(c: Coord, call: Call) {
    call.CSweep? ==> SweepOrder(c.store, call.now, call.order)
  }

  ghost function Make(c: Coord, call: Call): Coord
    requires Possible(c, call)
  {
    match call
    case CSubmit(spec, turn) => Submit(c, spec, turn)
    case CLease(t, w, max, turns) => LeaseBatch(c, t, w, max, turns).state
    case CBeat(k, w, a, turn) => Beat(c, k, w, a, turn)
    case CFinish(k, w, a, r, turn) => Finish(c, k, w, a, r, turn)
    case CGiveUp(k, w, a, err, re, t1, t2) => GiveUp(c, k, w, a, err, re, t1, t2)
    case CSweep(now, order, turns) =>
      assert forall k :: k in order ==> k in Members(order);
      Reclaim(c, Snapshots(c.store, order), turns)
  }

  function Fresh(cfg: Config, retain: int): Coord {
    Coord(cfg, Store.Empty(retain), [])
  }

  /** A run of calls from a given coordinator, each possible where it is made. */
  ghost predicate PossibleRun(c: Coord, calls: seq<Call>)
    decreases |calls|, 0
  {
    calls == []
    || (PossibleRun(c, calls[..|calls| - 1]) && Possible(After(c, calls[..|calls| - 1]), calls[|calls| - 1]))
  }

  ghost function After(c: Coord, calls: seq<Call>): Coord
    requires PossibleRun(c, calls)
    decreases |calls|, 1
  {
    if calls == [] then c else Make(After(c, calls[..|calls| - 1]), calls[|calls| - 1])
  }

  lemma {:induction false} RunMore(c: Coord, calls: seq<Call>, call: Call)
    requires PossibleRun(c, calls) && Possible(After(c, calls), call)
    ensures PossibleRun(c, calls + [call])
    ensures After(c, calls + [call]) == Make(After(c, calls), call)
  {
    assert (calls + [call])[..|calls|] == calls;
  }

  // ---------------------------------------------------------------- what every call keeps

  /** No runtime flag is left behind between calls. */
  ghost predicate Quiet(s: Store.State) {
    forall k :: k in s.execs ==> !s.execs[k].reserved && !s.execs[k].completing
  }

  ghost predicate Bounded(s: Store.State) {
    forall k :: k in s.execs ==>
      && 0 <= s.execs[k].attempt <= s.execs[k].maxAttempts && 1 <= s.execs[k].maxAttempts
      && (s.execs[k].status == Pending ==> s.execs[k].attempt < s.execs[k].maxAttempts)
  }

  ghost predicate Settled(c: Coord) {
    && c.cfg.Valid()
    && Indexed(c.store) && Quiet(c.store) && Bounded(c.store)
    && Mirrors(c.store, Replay(Store.Empty(c.store.retain), c.log))
  }

  /** An event the coordinator may publish between calls, other than a lease. */
  ghost predicate Lawful(s: Store.State, e: Event) {
    if e.body.Submitted? then e.key !in s.execs && e.body.maxAttempts >= 1
    else
      && Changes(s, e) && !e.body.Leased?
      && (e.body.Retry? ==> s.execs[e.key].attempt < s.execs[e.key].maxAttempts)
  }

  ghost predicate Within(x: Exec) {
    && 0 <= x.attempt <= x.maxAttempts && 1 <= x.maxAttempts
    && (x.status == Pending ==> x.attempt < x.maxAttempts)
    && !x.reserved && !x.completing
  }

  lemma {:induction false} StepKeepsWithin(x: Exec, e: Event)
    requires Within(x)
    requires e.body.Leased? || e.body.Retry? ==> x.attempt < x.maxAttempts
    ensures Within(Step(x, e))
  {
  }

  lemma {:induction false} ApplyKeepsFlags(s: Store.State, e: Event)
    requires Quiet(s) && Bounded(s) && Lawful(s, e)
    ensures Quiet(Apply(s, e)) && Bounded(Apply(s, e))
  {
    forall k | k in Apply(s, e).execs
      ensures Within(Apply(s, e).execs[k])
    {
      ApplyTouchesOneKey(s, e, k);
      if k == e.key && k in s.execs {
        StepKeepsWithin(s.execs[k], e);
      }
    }
  }

  lemma {:induction false} AppendSettles(c: Coord, e: Event, ok: bool)
    requires Settled(c) && Lawful(c.store, e)
    ensures Settled(Append(c, e, ok))
    ensures Append(c, e, ok).store.retain == c.store.retain
  {
    if ok {
      ApplyKeepsIndex(c.store, e);
      ApplyKeepsFlags(c.store, e);
      ReplayOneMore(c.store.retain, c.log, e);
      MirrorApply(c.store, Replay(Store.Empty(c.store.retain), c.log), e);
    }
  }

  /** A completion that was fenced and then published leaves the same state as publishing it alone. */
  lemma {:induction false} FinishIsOneAppend(c: Coord, k: Key, worker: string, attempt: int, result: string, turn: Turn)
    requires Quiet(c.store)
    requires MayComplete(c.store, k, attempt)
    ensures Finish(c, k, worker, attempt, result, turn)
            == Append(c, CompleteEvent(k, worker, attempt, result, turn.at), turn.ok)
  {
    var e := CompleteEvent(k, worker, attempt, result, turn.at);
    var s, begun := c.store, BeginComplete(c.store, k, attempt);
    assert begun.execs[k := s.execs[k]] == s.execs;
    if turn.ok {
      assert Step(begun.execs[k], e) == Step(s.execs[k], e);
      assert begun.execs[k := Step(s.execs[k], e)] == s.execs[k := Step(s.execs[k], e)];
      PutForgetsOld(s, begun, k, Step(s.execs[k], e));
    } else {
      assert AbortComplete(begun, k) == s;
    }
  }

  /** What is stored for k before a Put matters only through its status. */
  lemma {:induction false} PutForgetsOld(s: Store.State, b: Store.State, k: Key, y: Exec)
    requires k in s.execs && b == s.(execs := b.execs) && k in b.execs
    requires b.execs[k := y] == s.execs[k := y] && b.execs[k].status == s.execs[k].status
    ensures Put(b, k, y) == Put(s, k, y)
  {
  }

  // ---------------------------------------------------------------- leases

  /** The store after one grant that the log took. */
  ghost function GrantStore(s: Store.State, t: string, e: Event): Store.State {
    Apply(Reserve(s, t).0, e)
  }

  lemma {:induction false} GrantExecs(s: Store.State, t: string, worker: string, at: Time)
    requires Indexed(s) && Quiet(s) && Reserve(s, t).1.Some?
    ensures var k := Reserve(s, t).1.value;
            var e := LeaseEvent(s.execs[k], worker, at);
            && s.execs[k].key == k && Leasable(s.execs, k) && Accepts(s.execs[k], e)
            && LeaseEvent(Reserve(s, t).0.execs[k], worker, at) == e
            && GrantStore(s, t, e).execs == s.execs[k := Step(s.execs[k], e)]
  {
    var (s1, got) := Reserve(s, t);
    var k := got.value;
    var x, e := s.execs[k], LeaseEvent(s.execs[k], worker, at);
    assert Step(s1.execs[k], e) == Step(x, e);
    assert s1.execs[k := Step(x, e)] == s.execs[k := Step(x, e)];
  }

  lemma {:induction false} GrantFlags(s: Store.State, t: string, worker: string, at: Time)
    requires Indexed(s) && Quiet(s) && Bounded(s) && Reserve(s, t).1.Some?
    ensures var e := LeaseEvent(s.execs[Reserve(s, t).1.value], worker, at);
            Quiet(GrantStore(s, t, e)) && Bounded(GrantStore(s, t, e))
  {
    GrantExecs(s, t, worker, at);
    var k := Reserve(s, t).1.value;
    var e := LeaseEvent(s.execs[k], worker, at);
    StepKeepsWithin(s.execs[k], e);
    var f := GrantStore(s, t, e);
    forall j | j in f.execs
      ensures Within(f.execs[j])
    {
    }
  }

  lemma {:induction false} GrantIndexed(s: Store.State, t: string, e: Event)
    requires Indexed(s)
    ensures Indexed(GrantStore(s, t, e)) && GrantStore(s, t, e).retain == s.retain
  {
    ReserveKeepsIndex(s, t);
    ApplyKeepsIndex(Reserve(s, t).0, e);
  }

  lemma {:induction false} GrantMirrors(s: Store.State, r: Store.State, t: string, e: Event)
    requires Mirrors(s, r)
    ensures Mirrors(GrantStore(s, t, e), Apply(r, e))
  {
    MirrorFlags(s, r, DoReserve(t));
    MirrorApply(Reserve(s, t).0, r, e);
  }

  lemma {:induction false} UnreserveRestores(s: Store.State, t: string)
    requires Quiet(s) && Reserve(s, t).1.Some?
    ensures var (s1, got) := Reserve(s, t);
            Unreserve(s1, got.value).execs == s.execs && Unreserve(s1, got.value).retain == s.retain
  {
    var (s1, got) := Reserve(s, t);
    var x := s.execs[got.value];
    assert s1.execs[got.value].(reserved := false) == x;
    assert s1.execs[got.value := x] == s.execs[got.value := x] == s.execs;
  }

  lemma {:induction false} GrantSettles(c: Coord, t: string, worker: string, turn: Turn)
    requires Settled(c) && Reserve(c.store, t).1.Some? && turn.ok
    ensures var one := GrantOne(c, t, worker, turn);
            Settled(one.state) && one.state.store.retain == c.store.retain
  {
    var s := c.store;
    var e := LeaseEvent(s.execs[Reserve(s, t).1.value], worker, turn.at);
    GrantExecs(s, t, worker, turn.at);
    GrantFlags(s, t, worker, turn.at);
    GrantIndexed(s, t, e);
    GrantMirrors(s, Replay(Store.Empty(s.retain), c.log), t, e);
    ReplayOneMore(s.retain, c.log, e);
    assert GrantOne(c, t, worker, turn).state == c.(store := GrantStore(s, t, e), log := c.log + [e]);
  }

  lemma {:induction false} FailedGrantSettles(c: Coord, t: string, worker: string, turn: Turn)
    requires Settled(c) && !(Reserve(c.store, t).1.Some? && turn.ok)
    ensures var one := GrantOne(c, t, worker, turn);
            Settled(one.state) && one.state.store.retain == c.store.retain
            && one.state.log == c.log && one.state.store.execs == c.store.execs
  {
    var (s1, got) := Reserve(c.store, t);
    var r := Replay(Store.Empty(c.store.retain), c.log);
    ReserveKeepsIndex(c.store, t);
    MirrorFlags(c.store, r, DoReserve(t));
    if got.Some? {
      UnreserveKeepsIndex(s1, got.value);
      MirrorFlags(s1, r, DoUnreserve(got.value));
      UnreserveRestores(c.store, t);
    }
  }

  lemma {:induction false} GrantOneSettles(c: Coord, t: string, worker: string, turn: Turn) returns (one: GrantStep)
    requires Settled(c)
    ensures one == GrantOne(c, t, worker, turn)
    ensures Settled(one.state) && one.state.store.retain == c.store.retain
  {
    one := GrantOne(c, t, worker, turn);
    if Reserve(c.store, t).1.Some? && turn.ok {
      GrantSettles(c, t, worker, turn);
    } else {
      FailedGrantSettles(c, t, worker, turn);
    }
  }

  /** One round of a batch. */
  lemma {:induction false} GrantUnfolds(c: Coord, t: string, worker: string, left: nat, less: nat, turns: seq<Turn>,
                                        one: GrantStep)
    requires left == less + 1 && one == GrantOne(c, t, worker, Next(turns))
    ensures one.Leased1? ==>
      var rest := Grant(one.state, t, worker, less, Later(turns));
      Grant(c, t, worker, left, turns) == Granted(rest.state, [one.lease] + rest.leases)
    ensures !one.Leased1? ==> Grant(c, t, worker, left, turns) == Granted(one.state, [])
  {
  }

  lemma {:induction false} BatchSettles(c: Coord, t: string, worker: string, left: nat, turns: seq<Turn>)
    returns (f: Coord)
    requires Settled(c)
    ensures f == Grant(c, t, worker, left, turns).state
    ensures Settled(f) && f.store.retain == c.store.retain
    decreases left
  {
    if left == 0 {
      f := c;
    } else {
      var less: nat := left - 1;
      var one := GrantOneSettles(c, t, worker, Next(turns));
      GrantUnfolds(c, t, worker, left, less, turns, one);
      if one.Leased1? {
        f := BatchSettles(one.state, t, worker, less, Later(turns));
      } else {
        f := one.state;
      }
    }
  }

  // ---------------------------------------------------------------- failures and sweeps

  /** After a failed attempt is recorded the coordinator may retry or bury the execution. */
  lemma {:induction false} ReasonIsLawful(s: Store.State, e: Event, retry: bool, reason: string, at: Time)
    requires Counted(s) && Changes(s, e) && e.body.Fail?
    requires retry ==> s.execs[e.key].attempt < s.execs[e.key].maxAttempts
    ensures Lawful(Apply(s, e), ReasonEvent(s.execs[e.key], retry, reason, at))
  {
    LiveStays(s, e, e.key);
    ApplyTouchesOneKey(s, e, e.key);
  }

  lemma {:induction false} GiveUpSettles(c: Coord, k: Key, worker: string, attempt: int, error: string, retryable: bool,
                                         turn: Turn, turn2: Turn)
    requires Settled(c)
    ensures Settled(GiveUp(c, k, worker, attempt, error, retryable, turn, turn2))
    ensures GiveUp(c, k, worker, attempt, error, retryable, turn, turn2).store.retain == c.store.retain
  {
    if Holds(c.store, k, worker, attempt) && turn.ok {
      var x := c.store.execs[k];
      var e := Event(k, worker, attempt, turn.at, Fold.Fail(worker, error, retryable));
      AppendSettles(c, e, true);
      var retry := retryable && attempt < x.maxAttempts;
      var reason := if retry then ATTEMPT_FAILED else if retryable then ATTEMPTS_EXHAUSTED else NOT_RETRYABLE;
      ReasonIsLawful(c.store, e, retry, reason, turn2.at);
      AppendSettles(Append(c, e, true), ReasonEvent(x, retry, reason, turn2.at), turn2.ok);
    }
  }

  /** Snapshots that still describe running executions of the store, one per key. */
  ghost predicate Current(s: Store.State, snaps: seq<Exec>) {
    && (forall i :: 0 <= i < |snaps| ==>
          snaps[i].key in s.execs && s.execs[snaps[i].key] == snaps[i] && snaps[i].status == Running)
    && (forall i, j :: 0 <= i < j < |snaps| ==> snaps[i].key != snaps[j].key)
  }

  lemma {:induction false} ReclaimStep(c: Coord, snaps: seq<Exec>, turn: Turn)
    requires Settled(c) && Current(c.store, snaps) && snaps != []
    ensures var e := ReclaimEvent(snaps[0], turn.at);
            Lawful(c.store, e) && Current(Append(c, e, turn.ok).store, snaps[1..])
  {
    var e := ReclaimEvent(snaps[0], turn.at);
    if turn.ok {
      forall i | 1 <= i < |snaps|
        ensures snaps[i].key in Apply(c.store, e).execs && Apply(c.store, e).execs[snaps[i].key] == snaps[i]
      {
        LiveStays(c.store, e, snaps[i].key);
        ApplyTouchesOneKey(c.store, e, snaps[i].key);
      }
    }
  }

  lemma {:induction false} ReclaimSettles(c: Coord, snaps: seq<Exec>, turns: seq<Turn>)
    requires Settled(c) && Current(c.store, snaps)
    ensures Settled(Reclaim(c, snaps, turns))
    ensures Reclaim(c, snaps, turns).store.retain == c.store.retain
    decreases |snaps|
  {
    if snaps != [] {
      var e := ReclaimEvent(snaps[0], Next(turns).at);
      ReclaimStep(c, snaps, Next(turns));
      AppendSettles(c, e, Next(turns).ok);
      ReclaimSettles(Append(c, e, Next(turns).ok), snaps[1..], Later(turns));
    }
  }

  lemma {:induction false} SnapshotsAreCurrent(s: Store.State, now: Time, order: seq<Key>)
    requires Indexed(s) && SweepOrder(s, now, order)
    ensures forall k :: k in order ==> k in s.execs
    ensures Current(s, Snapshots(s, order))
  {
    assert forall k :: k in order ==> k in Members(order);
    var snaps := Snapshots(s, order);
    forall i | 0 <= i < |snaps|
      ensures snaps[i].key == order[i] && s.execs[snaps[i].key] == snaps[i] && snaps[i].status == Running
    {
      assert order[i] in Members(order);
    }
  }

  // ---------------------------------------------------------------- whole runs

  lemma {:induction false} MakeSettles(c: Coord, call: Call)
    requires Settled(c) && Possible(c, call)
    ensures Settled(Make(c, call))
    ensures Make(c, call).store.retain == c.store.retain
  {
    match call
    case CSubmit(spec, turn) =>
      if spec.key !in c.store.execs {
        AppendSettles(c, SubmitEvent(c.cfg, spec, turn.at), turn.ok);
      }
    case CLease(t, w, max, turns) => var _ := BatchSettles(c, t, w, if max <= 0 then 1 else max, turns);
    case CBeat(k, w, a, turn) =>
      if Holds(c.store, k, w, a) {
        AppendSettles(c, Event(k, w, a, turn.at, Heartbeat(w)), turn.ok);
      }
    case CFinish(k, w, a, r, turn) =>
      if MayComplete(c.store, k, a) {
        FinishIsOneAppend(c, k, w, a, r, turn);
        AppendSettles(c, CompleteEvent(k, w, a, r, turn.at), turn.ok);
      }
    case CGiveUp(k, w, a, err, re, t1, t2) => GiveUpSettles(c, k, w, a, err, re, t1, t2);
    case CSweep(now, order, turns) =>
      SnapshotsAreCurrent(c.store, now, order);
      ReclaimSettles(c, Snapshots(c.store, order), turns);
  }

  lemma {:induction false} RunSettles(cfg: Config, retain: int, calls: seq<Call>)
    requires cfg.Valid() && PossibleRun(Fresh(cfg, retain), calls)
    ensures Settled(After(Fresh(cfg, retain), calls))
    ensures After(Fresh(cfg, retain), calls).store.retain == retain
  {
    if calls != [] {
      RunSettles(cfg, retain, calls[..|calls| - 1]);
      MakeSettles(After(Fresh(cfg, retain), calls[..|calls| - 1]), calls[|calls| - 1]);
    }
  }

  /**
   After every run of calls, with publishes failing anywhere, folding the published log into a fresh
   store gives exactly the live executions, counts, running set and terminal queue.
   */
  lemma {:induction false} LiveEqualsReplay(cfg: Config, retain: int, calls: seq<Call>)
    requires cfg.Valid() && PossibleRun(Fresh(cfg, retain), calls)
    ensures var c := After(Fresh(cfg, retain), calls);
            var rebuilt := Replay(Store.Empty(retain), c.log);
            && rebuilt.execs == c.store.execs && rebuilt.counts == c.store.counts
            && rebuilt.running == c.store.running && rebuilt.terminalQ == c.store.terminalQ
  {
    RunSettles(cfg, retain, calls);
    var c := After(Fresh(cfg, retain), calls);
    forall k | k in c.store.execs
      ensures Erase(c.store.execs[k]) == c.store.execs[k]
    {
    }
  }

  /** With retention off the rebuilt store can hand out exactly the same work. */
  lemma {:induction false} RebuiltStoreHasTheSameWork(cfg: Config, calls: seq<Call>, t: string)
    requires cfg.Valid() && PossibleRun(Fresh(cfg, 0), calls)
    ensures var c := After(Fresh(cfg, 0), calls);
            Work(Replay(Store.Empty(0), c.log), t) == Work(c.store, t)
  {
    var c := After(Fresh(cfg, 0), calls);
    RunSettles(cfg, 0, calls);
    LiveEqualsReplay(cfg, 0, calls);
    ReplayKeepsIndex(0, c.log);
    WorkIsWhatIsPending(c.store, t);
    WorkIsWhatIsPending(Replay(Store.Empty(0), c.log), t);
  }

  /** In every run attempts stay within MaxAttempts, strictly so while pending, and so do histories. */
  lemma {:induction false} AttemptsAreBounded(cfg: Config, retain: int, calls: seq<Call>, k: Key)
    requires cfg.Valid() && PossibleRun(Fresh(cfg, retain), calls)
    requires k in After(Fresh(cfg, retain), calls).store.execs
    ensures var x := After(Fresh(cfg, retain), calls).store.execs[k];
            && 0 <= x.attempt <= x.maxAttempts
            && (x.status == Pending ==> x.attempt < x.maxAttempts)
            && |x.transitions| <= 3 * x.maxAttempts + 2
  {
    RunSettles(cfg, retain, calls);
    LiveEqualsReplay(cfg, retain, calls);
    ReplayedShapes(retain, After(Fresh(cfg, retain), calls).log, k);
  }

  lemma {:induction false} ReplayedShapes(retain: int, es: seq<Event>, k: Key)
    requires k in Replay(Store.Empty(retain), es).execs
    ensures Shape(Replay(Store.Empty(retain), es).execs[k])
  {
    if es != [] {
      var init, e := es[..|es| - 1], es[|es| - 1];
      var s := Replay(Store.Empty(retain), init);
      ApplyTouchesOneKey(s, e, k);
      if k in s.execs {
        ReplayedShapes(retain, init, k);
        StepKeepsShape(s.execs[k], e);
      }
      if Founds(e) {
        NewExecShape(e);
      }
    }
  }
}
