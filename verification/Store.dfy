/**
 The execution store with its derived indexes (internal/workflow/store.go), as a value: one
 constructor application per method, each method a function on the whole state. The objects that
 hold this state in place are in module StoreObjects.
 */
module Store {
  import opened Fold
  import opened Options

  /** `queued` is the set of keys whose flag is true; `retain` is 0 when retention is off. */
  datatype State = State(execs: map<Key, Exec>, queues: map<string, seq<Key>>, queued: set<Key>,
                         counts: map<Status, int>, running: set<Key>, terminalQ: seq<Key>, retain: int)

  function Empty(retain: int): State {
    State(map[], map[], {}, map[], {}, [], retain)
  }

  function Queue(s: State, taskType: string): seq<Key> {
    if taskType in s.queues then s.queues[taskType] else []
  }

  function Count(counts: map<Status, int>, st: Status): int {
    if st in counts then counts[st] else 0
  }

  function Bump(counts: map<Status, int>, st: Status, d: int): map<Status, int> {
    counts[st := Count(counts, st) + d]
  }

  // ---------------------------------------------------------------- operations

  function Reconcile(s: State, k: Key, x: Exec): State {
    if x.status == Pending && k !in s.queued && !x.reserved then
      s.(queues := s.queues[x.taskType := Queue(s, x.taskType) + [k]], queued := s.queued + {k})
    else s
  }

  /** Drops one terminal execution from the index. */
  function Forget(s: State, k: Key): State {
    if k !in s.execs || !Terminal(s.execs[k]) then s
    else s.(counts := Bump(s.counts, s.execs[k].status, -1), execs := s.execs - {k}, queued := s.queued - {k})
  }

  function Evict(s: State): (r: State)
    ensures r.retain == s.retain && r.running == s.running && r.queues == s.queues
    ensures r.execs.Keys <= s.execs.Keys && forall k :: k in r.execs ==> r.execs[k] == s.execs[k]
    decreases |s.terminalQ|
  {
    if s.retain <= 0 || |s.terminalQ| <= s.retain then s
    else Evict(Forget(s.(terminalQ := s.terminalQ[1..]), s.terminalQ[0]))
  }

  /** Moves key k between the status indexes. */
  function Reindex(s: State, k: Key, from: Status, to: Status): State {
    var running := (if from == Running then s.running - {k} else s.running) + (if to == Running then {k} else {});
    var moved := s.(counts := Bump(Bump(s.counts, from, -1), to, 1), running := running);
    if to == Completed || to == Failed then Evict(moved.(terminalQ := moved.terminalQ + [k])) else moved
  }

  /** Stores the new state y of execution k and brings the indexes up to date. */
  function Put(s: State, k: Key, y: Exec): State
    requires k in s.execs
  {
    var x := s.execs[k];
    var put := s.(execs := s.execs[k := y]);
    Reconcile(if y.status != x.status then Reindex(put, k, x.status, y.status) else put, k, y)
  }

  /** Whether `Apply` reports a change. */
  predicate Changes(s: State, e: Event) {
    if e.body.Submitted? then e.key !in s.execs && Founds(e)
    else e.key in s.execs && Accepts(s.execs[e.key], e)
  }

  function Apply(s: State, e: Event): State {
    if !Changes(s, e) then s
    else if e.body.Submitted? then
      var x := NewExec(e);
      Reconcile(s.(execs := s.execs[e.key := x], counts := Bump(s.counts, Pending, 1)), e.key, x)
    else Put(s, e.key, Step(s.execs[e.key], e))
  }

  predicate Leasable(execs: map<Key, Exec>, k: Key) {
    k in execs && execs[k].status == Pending && !execs[k].reserved
  }

  datatype Popped = Popped(rest: seq<Key>, queued: set<Key>, got: Option<Key>)

  /** Takes entries off the front until one can be leased. */
  function Pop(execs: map<Key, Exec>, q: seq<Key>, queued: set<Key>): (p: Popped)
    ensures p.got.Some? ==> Leasable(execs, p.got.value)
  {
    if q == [] then Popped([], queued, None)
    else if Leasable(execs, q[0]) then Popped(q[1..], queued - {q[0]}, Some(q[0]))
    else Pop(execs, q[1..], queued - {q[0]})
  }

  function Reserve(s: State, taskType: string): (State, Option<Key>) {
    var p := Pop(s.execs, Queue(s, taskType), s.queued);
    var s1 := s.(queues := s.queues[taskType := p.rest], queued := p.queued);
    if p.got.None? then (s1, None)
    else (s1.(execs := s.execs[p.got.value := s.execs[p.got.value].(reserved := true)]), p.got)
  }

  function Unreserve(s: State, k: Key): State {
    if k !in s.execs || !s.execs[k].reserved then s
    else
      var x := s.execs[k].(reserved := false);
      var s1 := s.(execs := s.execs[k := x]);
      if x.status == Pending && k !in s.queued then
        s1.(queues := s.queues[x.taskType := [k] + Queue(s, x.taskType)], queued := s.queued + {k})
      else s1
  }

  predicate MayComplete(s: State, k: Key, attempt: int) {
    k in s.execs && !Terminal(s.execs[k]) && s.execs[k].attempt == attempt && attempt != 0 && !s.execs[k].completing
  }

  function SetCompleting(s: State, k: Key, flag: bool): State {
    if k in s.execs then s.(execs := s.execs[k := s.execs[k].(completing := flag)]) else s
  }

  function BeginComplete(s: State, k: Key, attempt: int): State {
    if MayComplete(s, k, attempt) then SetCompleting(s, k, true) else s
  }

  function AbortComplete(s: State, k: Key): State {
    SetCompleting(s, k, false)
  }

  function Expired(s: State, now: Time): set<Key> {
    set k | k in s.running && k in s.execs && s.execs[k].status == Running && !s.execs[k].reserved
            && !s.execs[k].completing && s.execs[k].leaseDeadline < now
  }

  datatype Op =
    | DoApply(e: Event)
    | DoReserve(taskType: string)
    | DoUnreserve(k: Key)
    | DoBegin(k: Key, attempt: int)
    | DoAbort(k: Key)

  function Do(s: State, op: Op): State {
    match op
    case DoApply(e) => Apply(s, e)
    case DoReserve(t) => Reserve(s, t).0
    case DoUnreserve(k) => Unreserve(s, k)
    case DoBegin(k, a) => BeginComplete(s, k, a)
    case DoAbort(k) => AbortComplete(s, k)
  }

  function Run(s: State, ops: seq<Op>): State {
    if ops == [] then s else Do(Run(s, ops[..|ops| - 1]), ops[|ops| - 1])
  }

  function Replay(s: State, es: seq<Event>): State {
    if es == [] then s else Apply(Replay(s, es[..|es| - 1]), es[|es| - 1])
  }

  // ---------------------------------------------------------------- index agreement

  ghost function KeysIn(execs: map<Key, Exec>, st: Status): set<Key> {
    set k | k in execs && execs[k].status == st
  }

  ghost predicate Distinct(q: seq<Key>) {
    forall i, j :: 0 <= i < j < |q| ==> q[i] != q[j]
  }

  /** counts agrees with the executions, and running is exactly the running ones. */
  ghost predicate Counted(s: State) {
    && (forall k :: k in s.execs ==> s.execs[k].key == k)
    && (forall st :: Count(s.counts, st) == |KeysIn(s.execs, st)|)
    && s.running == KeysIn(s.execs, Running)
  }

  /** terminalQ lists each terminal execution once. */
  ghost predicate Retired(s: State) {
    && Distinct(s.terminalQ)
    && (forall k :: k in s.terminalQ <==> k in s.execs && Terminal(s.execs[k]))
  }

  /** No pending work is lost, with retention on or off. */
  ghost predicate NothingLost(s: State) {
    && (forall k :: k in s.queued ==> k in s.execs && k in Queue(s, s.execs[k].taskType))
    && (forall k :: Leasable(s.execs, k) ==> k in s.queued)
    && (forall k :: k in s.execs && s.execs[k].reserved ==> s.execs[k].status == Pending || Terminal(s.execs[k]))
  }

  /** Queues hold each key at most once, under its own task type, and never a reserved pending one. */
  ghost predicate QueuedOnce(s: State) {
    && (forall t :: Distinct(Queue(s, t)))
    && (forall t, k :: k in Queue(s, t) ==> k in s.queued && k in s.execs && s.execs[k].taskType == t)
    && (forall k :: k in s.queued && k in s.execs && s.execs[k].status == Pending ==> !s.execs[k].reserved)
  }

  ghost predicate Indexed(s: State) {
    && Counted(s) && Retired(s) && NothingLost(s)
    && (s.retain > 0 ==> |s.terminalQ| <= s.retain)
    && (s.retain <= 0 ==> QueuedOnce(s))
  }

  /** Counting after one execution is added or changed. */
  lemma {:induction false} PutCount(execs: map<Key, Exec>, k: Key, y: Exec, st: Status)
    ensures KeysIn(execs[k := y], st) == (if y.status == st then KeysIn(execs, st) + {k} else KeysIn(execs, st) - {k})
    ensures |KeysIn(execs[k := y], st)| == |KeysIn(execs, st)|
                           + (if y.status == st then 1 else 0)
                           - (if k in execs && execs[k].status == st then 1 else 0)
  {
    var before := KeysIn(execs, st);
    assert KeysIn(execs[k := y], st) == (if y.status == st then before + {k} else before - {k});
    assert k in before <==> k in execs && execs[k].status == st;
    if y.status == st {
      assert |before + {k}| == |before| + (if k in before then 0 else 1);
    } else {
      assert |before - {k}| == |before| - (if k in before then 1 else 0);
    }
  }

  lemma {:induction false} DropCounts(execs: map<Key, Exec>, k: Key)
    requires k in execs
    ensures forall st :: KeysIn(execs - {k}, st) == KeysIn(execs, st) - {k}
    ensures forall st :: |KeysIn(execs - {k}, st)| == |KeysIn(execs, st)| - (if execs[k].status == st then 1 else 0)
  {
    forall st
      ensures KeysIn(execs - {k}, st) == KeysIn(execs, st) - {k}
      ensures |KeysIn(execs - {k}, st)| == |KeysIn(execs, st)| - (if execs[k].status == st then 1 else 0)
    {
      assert KeysIn(execs - {k}, st) == KeysIn(execs, st) - {k};
      assert k in KeysIn(execs, st) <==> execs[k].status == st;
    }
  }

  /** One round of eviction, from a state whose queue still lists the key being dropped. */
  lemma {:induction false} ForgetKeepsIndex(s: State)
    requires Counted(s) && Retired(s) && NothingLost(s)
    requires s.terminalQ != []
    ensures var f := Forget(s.(terminalQ := s.terminalQ[1..]), s.terminalQ[0]);
            Counted(f) && Retired(f) && NothingLost(f) && f.retain == s.retain && |f.terminalQ| == |s.terminalQ| - 1
  {
    var k := s.terminalQ[0];
    assert k in s.terminalQ;
    var f := Forget(s.(terminalQ := s.terminalQ[1..]), k);
    ForgetKeepsCounted(s, k);
    assert Retired(f) by {
      TailMembers(s.terminalQ);
    }
    assert NothingLost(f) by {
      assert forall t :: Queue(f, t) == Queue(s, t);
      assert forall j :: Leasable(f.execs, j) ==> Leasable(s.execs, j);
    }
  }

  lemma {:induction false} ForgetKeepsCounted(s: State, k: Key)
    requires Counted(s)
    requires k in s.execs && Terminal(s.execs[k])
    ensures forall q :: Counted(Forget(s.(terminalQ := q), k))
  {
    DropCounts(s.execs, k);
    var counts := Bump(s.counts, s.execs[k].status, -1);
    forall st
      ensures Count(counts, st) == |KeysIn(s.execs - {k}, st)|
    {
      assert Count(s.counts, st) == |KeysIn(s.execs, st)|;
    }
  }

  lemma {:induction false} TailMembers(q: seq<Key>)
    requires Distinct(q) && q != []
    ensures forall j :: j in q[1..] <==> j in q && j != q[0]
  {
    assert q == [q[0]] + q[1..];
    forall i | 0 <= i < |q| - 1
      ensures q[1..][i] != q[0]
    {
      assert q[1..][i] == q[i + 1];
    }
  }

  lemma {:induction false} EvictKeepsIndex(s: State)
    requires Counted(s) && Retired(s) && NothingLost(s)
    ensures var f := Evict(s);
            && Counted(f) && Retired(f) && NothingLost(f) && f.retain == s.retain
            && (f.retain > 0 ==> |f.terminalQ| <= f.retain)
            && (s.retain <= 0 ==> f == s)
    decreases |s.terminalQ|
  {
    if !(s.retain <= 0 || |s.terminalQ| <= s.retain) {
      ForgetKeepsIndex(s);
      EvictKeepsIndex(Forget(s.(terminalQ := s.terminalQ[1..]), s.terminalQ[0]));
    }
  }

  /** NothingLost, except that key k may be pending and not yet queued. */
  ghost predicate NothingElseLost(s: State, k: Key) {
    && (forall j :: j in s.queued ==> j in s.execs && j in Queue(s, s.execs[j].taskType))
    && (forall j :: j != k && Leasable(s.execs, j) ==> j in s.queued)
    && (forall j :: j in s.execs && s.execs[j].reserved ==> s.execs[j].status == Pending || Terminal(s.execs[j]))
  }

  lemma {:induction false} ReconcileLosesNothing(s: State, k: Key)
    requires k in s.execs
    requires NothingElseLost(s, k)
    ensures NothingLost(Reconcile(s, k, s.execs[k]))
  {
    var f := Reconcile(s, k, s.execs[k]);
    forall j | j in f.queued
      ensures j in f.execs && j in Queue(f, f.execs[j].taskType)
    {
      if j in s.queued {
        assert j in Queue(s, s.execs[j].taskType);
      }
    }
  }

  lemma {:induction false} ReconcileQueuesOnce(s: State, k: Key)
    requires k in s.execs
    requires QueuedOnce(s)
    ensures QueuedOnce(Reconcile(s, k, s.execs[k]))
  {
    var f := Reconcile(s, k, s.execs[k]);
    if f != s {
      var q := Queue(s, s.execs[k].taskType);
      assert k !in q;
      forall t
        ensures Distinct(Queue(f, t))
        ensures forall j :: j in Queue(f, t) ==> j in f.queued && j in f.execs && f.execs[j].taskType == t
      {
        assert Distinct(Queue(s, t));
        assert forall j :: j in Queue(s, t) ==> j in s.queued && s.execs[j].taskType == t;
        assert t != s.execs[k].taskType ==> Queue(f, t) == Queue(s, t);
      }
    }
  }

  /** Changing one execution's status, with the counters and the running set moved along. */
  lemma {:induction false} MoveKeepsCount(counts: map<Status, int>, execs: map<Key, Exec>, k: Key, y: Exec, st: Status)
    requires k in execs && y.status != execs[k].status
    requires Count(counts, st) == |KeysIn(execs, st)|
    ensures Count(Bump(Bump(counts, execs[k].status, -1), y.status, 1), st) == |KeysIn(execs[k := y], st)|
  {
    PutCount(execs, k, y, st);
  }

  lemma {:induction false} MoveKeepsCounted(s: State, k: Key, y: Exec)
    requires Counted(s)
    requires k in s.execs && y.key == k && y.status != s.execs[k].status
    ensures Counted(Moved(s, k, y))
  {
    var m := Moved(s, k, y);
    assert m.running == KeysIn(m.execs, Running) by {
      PutCount(s.execs, k, y, Running);
    }
    assert forall j :: j in m.execs ==> m.execs[j].key == j;
    forall st
      ensures Count(m.counts, st) == |KeysIn(m.execs, st)|
    {
      MoveKeepsCount(s.counts, s.execs, k, y, st);
    }
  }

  /** What one accepted event can do to the facts the indexes depend on. */
  ghost predicate Follows(x: Exec, y: Exec) {
    && y.key == x.key && y.taskType == x.taskType && !Terminal(x)
    && (y.reserved ==> x.reserved && Terminal(y))
    && (y.status == Pending ==> x.status != Pending)
    && (y.status == x.status ==> x.status == Running)
  }

  lemma {:induction false} StepFollows(x: Exec, e: Event)
    requires Accepts(x, e)
    requires x.reserved ==> x.status == Pending || Terminal(x)
    ensures Follows(x, Step(x, e))
  {
  }

  lemma {:induction false} SubmitKeepsCounted(s: State, k: Key, x: Exec)
    requires Counted(s)
    requires k !in s.execs && x.key == k && x.status == Pending
    ensures Counted(s.(execs := s.execs[k := x], counts := Bump(s.counts, Pending, 1)))
  {
    var put := s.(execs := s.execs[k := x], counts := Bump(s.counts, Pending, 1));
    assert put.running == KeysIn(put.execs, Running) by {
      PutCount(s.execs, k, x, Running);
      assert k !in KeysIn(s.execs, Running);
    }
    forall st
      ensures Count(put.counts, st) == |KeysIn(put.execs, st)|
    {
      SubmitKeepsCount(s.counts, s.execs, k, x, st);
    }
  }

  lemma {:induction false} SubmitKeepsCount(counts: map<Status, int>, execs: map<Key, Exec>, k: Key, x: Exec,
                                            st: Status)
    requires k !in execs && x.status == Pending && Count(counts, st) == |KeysIn(execs, st)|
    ensures Count(Bump(counts, Pending, 1), st) == |KeysIn(execs[k := x], st)|
  {
    PutCount(execs, k, x, st);
  }

  lemma {:induction false} SubmitKeepsIndex(s: State, e: Event)
    requires Indexed(s)
    requires Changes(s, e) && e.body.Submitted?
    ensures Indexed(Apply(s, e))
  {
    var k, x := e.key, NewExec(e);
    var put := s.(execs := s.execs[k := x], counts := Bump(s.counts, Pending, 1));
    SubmitKeepsCounted(s, k, x);
    SubmitLosesNothing(s, k, x, put);
    var _ := ReconciledIsIndexed(put, k);
  }

  lemma {:induction false} SubmitLosesNothing(s: State, k: Key, x: Exec, put: State)
    requires Retired(s) && NothingLost(s) && (s.retain <= 0 ==> QueuedOnce(s))
    requires k !in s.execs && x.status == Pending && put == s.(execs := s.execs[k := x], counts := put.counts)
    requires !x.reserved
    ensures Retired(put) && NothingElseLost(put, k) && (s.retain <= 0 ==> QueuedOnce(put))
  {
    assert forall t :: Queue(put, t) == Queue(s, t);
    assert forall j :: j in s.queued ==> j != k;
    assert forall j :: j != k && Leasable(put.execs, j) ==> Leasable(s.execs, j);
  }

  ghost predicate Queued(s: State) {
    NothingLost(s) && (s.retain <= 0 ==> QueuedOnce(s))
  }

  /** The state after y is stored and counted, before eviction and queueing. */
  ghost function Moved(s: State, k: Key, y: Exec): State
    requires k in s.execs
  {
    var x := s.execs[k];
    s.(execs := s.execs[k := y],
       counts := Bump(Bump(s.counts, x.status, -1), y.status, 1),
       running := (if x.status == Running then s.running - {k} else s.running)
                  + (if y.status == Running then {k} else {}))
  }

  lemma {:induction false} MovedQueues(s: State, k: Key, y: Exec)
    requires Queued(s)
    requires k in s.execs && Follows(s.execs[k], y)
    ensures NothingElseLost(Moved(s, k, y), k)
    ensures s.retain <= 0 ==> QueuedOnce(Moved(s, k, y))
  {
    var m := Moved(s, k, y);
    OthersStayQueued(s, k, y, m);
    if s.retain <= 0 {
      QueuesStaySingle(s, k, y, m);
    }
  }

  lemma {:induction false} OthersStayQueued(s: State, k: Key, y: Exec, m: State)
    requires NothingLost(s) && k in s.execs && Follows(s.execs[k], y)
    requires m.execs == s.execs[k := y] && m.queues == s.queues && m.queued == s.queued
    ensures NothingElseLost(m, k)
  {
    assert forall t :: Queue(m, t) == Queue(s, t);
    assert forall j :: j != k && Leasable(m.execs, j) ==> Leasable(s.execs, j);
  }

  lemma {:induction false} QueuesStaySingle(s: State, k: Key, y: Exec, m: State)
    requires QueuedOnce(s) && k in s.execs && Follows(s.execs[k], y)
    requires m.execs == s.execs[k := y] && m.queues == s.queues && m.queued == s.queued
    ensures QueuedOnce(m)
  {
    assert forall t :: Queue(m, t) == Queue(s, t);
    assert forall j :: j in m.execs ==> m.execs[j].taskType == s.execs[j].taskType;
  }

  lemma {:induction false} PutSameStatus(s: State, k: Key, y: Exec)
    requires Indexed(s)
    requires k in s.execs && Follows(s.execs[k], y) && y.status == s.execs[k].status
    ensures Indexed(Put(s, k, y))
  {
    var put := s.(execs := s.execs[k := y]);
    assert Put(s, k, y) == put;
    assert forall st :: KeysIn(put.execs, st) == KeysIn(s.execs, st);
    assert forall t :: Queue(put, t) == Queue(s, t);
    assert forall j :: Leasable(put.execs, j) ==> Leasable(s.execs, j);
  }

  lemma {:induction false} ListedKeepsRetired(s: State, k: Key, y: Exec, m: State)
    requires Retired(s)
    requires k in s.execs && !Terminal(s.execs[k]) && Terminal(y)
    requires m.execs == s.execs[k := y] && m.terminalQ == s.terminalQ + [k]
    ensures Retired(m)
  {
    assert k !in s.terminalQ;
    assert forall j :: j in s.terminalQ + [k] <==> j in s.terminalQ || j == k;
  }

  lemma {:induction false} PutTerminal(s: State, k: Key, y: Exec)
    requires Counted(s) && Retired(s) && Queued(s)
    requires k in s.execs && Follows(s.execs[k], y) && Terminal(y)
    ensures Indexed(Put(s, k, y))
  {
    var listed := ListedIsIndexed(s, k, y);
    EvictKeepsIndex(listed);
    assert Put(s, k, y) == Evict(listed);
  }

  /** The state just before eviction, when k has become terminal. */
  lemma {:induction false} ListedIsIndexed(s: State, k: Key, y: Exec) returns (listed: State)
    requires Counted(s) && Retired(s) && Queued(s)
    requires k in s.execs && Follows(s.execs[k], y) && Terminal(y)
    ensures listed == Moved(s, k, y).(terminalQ := s.terminalQ + [k])
    ensures Counted(listed) && Retired(listed) && NothingLost(listed) && (s.retain <= 0 ==> QueuedOnce(listed))
  {
    var moved := Moved(s, k, y);
    listed := moved.(terminalQ := s.terminalQ + [k]);
    MoveKeepsCounted(s, k, y);
    ListedKeepsRetired(s, k, y, listed);
    MovedQueues(s, k, y);
    ListedQueues(moved, listed, k);
  }

  lemma {:induction false} ListedQueues(m: State, listed: State, k: Key)
    requires k in m.execs && Terminal(m.execs[k]) && NothingElseLost(m, k)
             && listed == m.(terminalQ := listed.terminalQ)
    ensures NothingLost(listed) && (QueuedOnce(m) ==> QueuedOnce(listed))
    ensures Counted(m) ==> Counted(listed)
  {
    assert forall t :: Queue(listed, t) == Queue(m, t);
  }

  lemma {:induction false} PutLive(s: State, k: Key, y: Exec)
    requires Indexed(s)
    requires k in s.execs && Follows(s.execs[k], y) && !Terminal(y) && y.status != s.execs[k].status
    ensures Indexed(Put(s, k, y))
  {
    var m := Moved(s, k, y);
    MoveKeepsCounted(s, k, y);
    MovedQueues(s, k, y);
    assert Retired(m);
    var f := ReconciledIsIndexed(m, k);
    assert Put(s, k, y) == f;
  }

  lemma {:induction false} ReconciledIsIndexed(s: State, k: Key) returns (f: State)
    requires k in s.execs && Counted(s) && Retired(s) && NothingElseLost(s, k)
    requires (s.retain > 0 ==> |s.terminalQ| <= s.retain) && (s.retain <= 0 ==> QueuedOnce(s))
    ensures f == Reconcile(s, k, s.execs[k]) && Indexed(f)
  {
    f := Reconcile(s, k, s.execs[k]);
    ReconcileLosesNothing(s, k);
    if s.retain <= 0 {
      ReconcileQueuesOnce(s, k);
    }
  }

  lemma {:induction false} PutKeepsIndex(s: State, k: Key, y: Exec)
    requires Indexed(s) && k in s.execs && Follows(s.execs[k], y)
    ensures Indexed(Put(s, k, y))
  {
    if y.status == s.execs[k].status {
      PutSameStatus(s, k, y);
    } else if Terminal(y) {
      PutTerminal(s, k, y);
    } else {
      PutLive(s, k, y);
    }
  }

  lemma {:induction false} TakenKeepsIndex(s: State, e: Event)
    requires Indexed(s) && Changes(s, e) && !e.body.Submitted?
    ensures Indexed(Apply(s, e))
  {
    var x, y := s.execs[e.key], Step(s.execs[e.key], e);
    StepFollows(x, e);
    PutKeepsIndex(s, e.key, y);
    assert Apply(s, e) == Put(s, e.key, y);
  }

  lemma {:induction false} ApplyKeepsIndex(s: State, e: Event)
    requires Indexed(s)
    ensures Indexed(Apply(s, e))
    ensures Apply(s, e).retain == s.retain
  {
    ApplyKeepsRetain(s, e);
    if Changes(s, e) {
      if e.body.Submitted? {
        SubmitKeepsIndex(s, e);
      } else {
        TakenKeepsIndex(s, e);
      }
    }
  }

  lemma {:induction false} ApplyKeepsRetain(s: State, e: Event)
    ensures Apply(s, e).retain == s.retain
  {
    if Changes(s, e) && !e.body.Submitted? {
      PutIsStored(s, e.key, Step(s.execs[e.key], e));
    }
  }

  ghost function Members(q: seq<Key>): set<Key> {
    set k | k in q
  }

  /** Pop takes off a prefix: stale entries, then the one it returns. */
  lemma {:induction false} PopSplits(execs: map<Key, Exec>, q: seq<Key>, queued: set<Key>) returns (n: nat)
    ensures n <= |q|
    ensures var p := Pop(execs, q, queued);
            && p.rest == q[n..]
            && p.queued == queued - Members(q[..n])
            && (p.got.None? ==> n == |q| && forall i :: 0 <= i < |q| ==> !Leasable(execs, q[i]))
            && (p.got.Some? ==>
                  && n >= 1 && q[n - 1] == p.got.value
                  && forall i :: 0 <= i < n - 1 ==> !Leasable(execs, q[i]))
  {
    if q == [] {
      n := 0;
    } else if Leasable(execs, q[0]) {
      n := 1;
      assert Members(q[..1]) == {q[0]};
    } else {
      var m := PopSplits(execs, q[1..], queued - {q[0]});
      n := m + 1;
      assert q[..n] == [q[0]] + q[1..][..m];
      assert forall i :: 1 <= i < |q| ==> q[i] == q[1..][i - 1];
    }
  }

  lemma {:induction false} FlagKeepsCounted(s: State, k: Key, y: Exec)
    requires Counted(s) && k in s.execs && y.key == k && y.status == s.execs[k].status
    ensures forall m: State :: m.execs == s.execs[k := y] && m.counts == s.counts && m.running == s.running ==>
            Counted(m)
  {
    assert forall st :: KeysIn(s.execs[k := y], st) == KeysIn(s.execs, st);
  }

  /** What a reservation does to the state, in terms of the queue prefix it takes off. */
  ghost predicate TookPrefix(s: State, t: string, n: nat, f: State, got: Option<Key>) {
    var q := Queue(s, t);
    && n <= |q|
    && Queue(f, t) == q[n..] && (forall u :: u != t ==> Queue(f, u) == Queue(s, u))
    && f.queued == s.queued - Members(q[..n])
    && f.execs.Keys == s.execs.Keys
    && (forall j :: j in f.execs ==>
          f.execs[j] == (if got == Some(j) then s.execs[j].(reserved := true) else s.execs[j]))
    && (forall i :: 0 <= i < n && Leasable(s.execs, q[i]) ==> got == Some(q[i]))
    && (got.Some? ==> n >= 1 && q[n - 1] == got.value && Leasable(s.execs, got.value))
    && (got.None? ==> n == |q|)
  }

  lemma {:induction false} ReserveShape(s: State, t: string) returns (n: nat)
    ensures TookPrefix(s, t, n, Reserve(s, t).0, Reserve(s, t).1)
  {
    n := PopSplits(s.execs, Queue(s, t), s.queued);
  }

  lemma {:induction false} ReserveLosesNothing(s: State, t: string)
    requires NothingLost(s)
    ensures NothingLost(Reserve(s, t).0)
  {
    var n := ReserveShape(s, t);
    var q, f := Queue(s, t), Reserve(s, t).0;
    forall j | j in f.queued
      ensures j in f.execs && j in Queue(f, f.execs[j].taskType)
    {
      assert j in Queue(s, s.execs[j].taskType) && j !in q[..n];
      assert q == q[..n] + q[n..];
    }
    forall j | Leasable(f.execs, j)
      ensures j in f.queued
    {
      assert Leasable(s.execs, j);
    }
  }

  lemma {:induction false} ReserveQueuesOnce(s: State, t: string)
    requires QueuedOnce(s)
    ensures QueuedOnce(Reserve(s, t).0)
  {
    var f := ReservedOnce(s, t);
  }

  lemma {:induction false} ReservedOnce(s: State, t: string) returns (f: State)
    requires QueuedOnce(s)
    ensures f == Reserve(s, t).0
    ensures forall u :: Distinct(Queue(f, u))
    ensures forall u, j :: j in Queue(f, u) ==> j in f.queued && j in f.execs && f.execs[j].taskType == u
    ensures forall k :: k in f.queued && k in f.execs && f.execs[k].status == Pending ==> !f.execs[k].reserved
  {
    var n := ReserveShape(s, t);
    var got;
    f, got := Reserve(s, t).0, Reserve(s, t).1;
    TookDistinct(s, t, n, f, got);
    TookListed(s, t, n, f, got);
    TookUnreserved(s, t, n, f, got);
  }

  lemma {:induction false} TookDistinct(s: State, t: string, n: nat, f: State, got: Option<Key>)
    requires QueuedOnce(s) && TookPrefix(s, t, n, f, got)
    ensures forall u :: Distinct(Queue(f, u))
  {
    forall u
      ensures Distinct(Queue(f, u))
    {
      assert Distinct(Queue(s, u));
    }
  }

  lemma {:induction false} TookListed(s: State, t: string, n: nat, f: State, got: Option<Key>)
    requires QueuedOnce(s) && TookPrefix(s, t, n, f, got)
    ensures forall u, j :: j in Queue(f, u) ==> j in f.queued && j in f.execs && f.execs[j].taskType == u
  {
    forall u, j | j in Queue(f, u)
      ensures j in f.queued && j in f.execs && f.execs[j].taskType == u
    {
      StaysInQueue(s, t, n, u, j);
    }
  }

  lemma {:induction false} TookUnreserved(s: State, t: string, n: nat, f: State, got: Option<Key>)
    requires QueuedOnce(s) && TookPrefix(s, t, n, f, got)
    ensures forall k :: k in f.queued && k in f.execs && f.execs[k].status == Pending ==> !f.execs[k].reserved
  {
    assert got.Some? ==> got.value in Queue(s, t)[..n];
  }

  /** What a reservation leaves in a queue was there before, and was not taken off. */
  lemma {:induction false} StaysInQueue(s: State, t: string, n: nat, u: string, j: Key)
    requires QueuedOnce(s) && n <= |Queue(s, t)|
    requires j in (if u == t then Queue(s, t)[n..] else Queue(s, u))
    ensures j in s.queued - Members(Queue(s, t)[..n]) && j in s.execs && s.execs[j].taskType == u
  {
    var q := Queue(s, t);
    if u == t {
      assert Distinct(q);
      NotTaken(q, n, j);
    } else {
      InOneQueue(s, t, u, j);
      assert forall i :: 0 <= i < n ==> q[i] in q;
    }
  }

  lemma {:induction false} InOneQueue(s: State, t: string, u: string, j: Key)
    requires QueuedOnce(s) && j in Queue(s, u) && u != t
    ensures j !in Queue(s, t)
  {
    assert s.execs[j].taskType == u;
  }

  lemma {:induction false} NotTaken(q: seq<Key>, n: nat, j: Key)
    requires Distinct(q) && n <= |q| && j in q[n..]
    ensures j in q && j !in Members(q[..n])
  {
    var i :| 0 <= i < |q| - n && q[n..][i] == j;
    assert q[n + i] == j;
  }

  lemma {:induction false} ReserveKeepsIndex(s: State, t: string)
    requires Indexed(s)
    ensures Indexed(Reserve(s, t).0)
  {
    ReserveLosesNothing(s, t);
    if s.retain <= 0 {
      ReserveQueuesOnce(s, t);
    }
    var got := Reserve(s, t).1;
    if got.Some? {
      FlagKeepsCounted(s, got.value, s.execs[got.value].(reserved := true));
    }
  }

  lemma {:induction false} UnreserveLosesNothing(s: State, k: Key)
    requires NothingLost(s)
    requires k in s.execs && s.execs[k].reserved
    ensures NothingLost(Unreserve(s, k))
  {
    var f := Unreserve(s, k);
    forall j | j in f.queued
      ensures j in f.execs && j in Queue(f, f.execs[j].taskType)
    {
      if j in s.queued {
        assert j in Queue(s, s.execs[j].taskType);
      }
    }
    assert forall j :: Leasable(f.execs, j) ==> j == k || Leasable(s.execs, j);
  }

  lemma {:induction false} UnreserveQueuesOnce(s: State, k: Key)
    requires QueuedOnce(s)
    requires k in s.execs && s.execs[k].reserved
    ensures QueuedOnce(Unreserve(s, k))
  {
    var f := Unreserve(s, k);
    var t := s.execs[k].taskType;
    forall u
      ensures Distinct(Queue(f, u))
      ensures forall j :: j in Queue(f, u) ==> j in f.queued && j in f.execs && f.execs[j].taskType == u
    {
      var q := Queue(s, u);
      assert Distinct(q);
      assert forall j :: j in q ==> j in s.queued && s.execs[j].taskType == u;
      if u == t && Queue(f, u) != q {
        assert k !in q && Queue(f, u) == [k] + q;
      } else {
        assert Queue(f, u) == q;
      }
    }
  }

  lemma {:induction false} UnreserveKeepsIndex(s: State, k: Key)
    requires Indexed(s)
    ensures Indexed(Unreserve(s, k))
  {
    if k in s.execs && s.execs[k].reserved {
      UnreserveLosesNothing(s, k);
      if s.retain <= 0 {
        UnreserveQueuesOnce(s, k);
      }
      FlagKeepsCounted(s, k, s.execs[k].(reserved := false));
    }
  }

  lemma {:induction false} SetCompletingKeepsIndex(s: State, k: Key, flag: bool)
    requires Indexed(s)
    ensures Indexed(SetCompleting(s, k, flag))
  {
    if k in s.execs {
      FlagKeepsCounted(s, k, s.execs[k].(completing := flag));
      var f := SetCompleting(s, k, flag);
      assert forall t :: Queue(f, t) == Queue(s, t);
      assert forall j :: Leasable(f.execs, j) <==> Leasable(s.execs, j);
    }
  }

  lemma {:induction false} DoKeepsIndex(s: State, op: Op) returns (f: State)
    requires Indexed(s)
    ensures f == Do(s, op) && Indexed(f) && f.retain == s.retain
  {
    f := Do(s, op);
    match op
    case DoApply(e) => ApplyKeepsIndex(s, e);
    case DoReserve(t) => ReserveKeepsIndex(s, t);
    case DoUnreserve(k) => UnreserveKeepsIndex(s, k);
    case DoBegin(k, a) => SetCompletingKeepsIndex(s, k, true);
    case DoAbort(k) => SetCompletingKeepsIndex(s, k, false);
  }

  /**
   Over any sequence of store operations from the empty store, with any events and any retention
   cap, every index agrees with the executions.
   */
  lemma {:induction false} IndexesAgree(retain: int, ops: seq<Op>)
    ensures Indexed(Run(Empty(retain), ops))
    ensures Run(Empty(retain), ops).retain == retain
  {
    var _ := RunIsIndexed(retain, ops);
  }

  lemma {:induction false} RunIsIndexed(retain: int, ops: seq<Op>) returns (s: State)
    ensures s == Run(Empty(retain), ops) && Indexed(s) && s.retain == retain
  {
    if ops == [] {
      s := Empty(retain);
      EmptyIsIndexed(retain);
    } else {
      var before := RunIsIndexed(retain, ops[..|ops| - 1]);
      s := DoKeepsIndex(before, ops[|ops| - 1]);
    }
  }

  lemma {:induction false} EmptyIsIndexed(retain: int)
    ensures Indexed(Empty(retain))
  {
    assert forall st :: KeysIn(map[], st) == {};
  }

  /**
   With any retention a reservation hands out the first entry of the queue that can be leased, and
   finds one whenever work of the asked-for type is waiting.
   */
  lemma {:induction false} WaitingWorkIsFound(s: State, t: string)
    requires Indexed(s)
    ensures var q, got := Queue(s, t), Reserve(s, t).1;
            && (got.None? <==> forall i :: 0 <= i < |q| ==> !Leasable(s.execs, q[i]))
            && (got.Some? ==>
                  && Leasable(s.execs, got.value)
                  && exists n :: 0 <= n < |q| && q[n] == got.value
                                 && forall i :: 0 <= i < n ==> !Leasable(s.execs, q[i]))
            && ((exists k :: Leasable(s.execs, k) && s.execs[k].taskType == t) ==> got.Some?)
  {
    var n := PopSplits(s.execs, Queue(s, t), s.queued);
    if k :| Leasable(s.execs, k) && s.execs[k].taskType == t {
      assert k in s.queued;
    }
  }

  /**
   With retention off a reservation finds work exactly when there is some, hands out an execution
   of the asked-for task type, and skips only entries that cannot be leased.
   */
  lemma {:induction false} ReserveFindsWork(s: State, t: string)
    requires Indexed(s) && s.retain <= 0
    ensures var got := Reserve(s, t).1;
            && (got.None? <==> forall k :: Leasable(s.execs, k) ==> s.execs[k].taskType != t)
            && (got.Some? ==>
                  && Leasable(s.execs, got.value) && s.execs[got.value].taskType == t
                  && exists n :: 0 <= n < |Queue(s, t)| && Queue(s, t)[n] == got.value
                                 && forall i :: 0 <= i < n ==> !Leasable(s.execs, Queue(s, t)[i]))
  {
    WaitingWorkIsFound(s, t);
    var got := Reserve(s, t).1;
    if got.Some? {
      assert got.value in Queue(s, t);
    }
  }

  lemma {:induction false} ReplayOneMore(retain: int, es: seq<Event>, e: Event)
    ensures Replay(Empty(retain), es + [e]) == Apply(Replay(Empty(retain), es), e)
  {
    assert (es + [e])[..|es|] == es;
  }

  lemma {:induction false} EvictOne(s: State, e: Event)
    requires s.retain > 0 && |s.terminalQ| == s.retain && Changes(s, e) && e.body.Dead?
    requires s.terminalQ[0] in s.execs && Terminal(s.execs[s.terminalQ[0]]) && s.terminalQ[0] != e.key
    ensures var f, k := Apply(s, e), s.terminalQ[0];
            k !in f.execs && f.queues == s.queues && f.retain == s.retain
  {
    var y := Step(s.execs[e.key], e);
    var m := Moved(s, e.key, y).(terminalQ := s.terminalQ + [e.key]);
    EvictsFirst(m);
    PutIsStored(s, e.key, y);
  }

  lemma {:induction false} EvictsFirst(m: State)
    requires m.retain > 0 && |m.terminalQ| == m.retain + 1
    ensures Evict(m) == Forget(m.(terminalQ := m.terminalQ[1..]), m.terminalQ[0])
  {
    var g := Forget(m.(terminalQ := m.terminalQ[1..]), m.terminalQ[0]);
    assert Evict(m) == Evict(g) && Evict(g) == g;
  }

  /** An event reaches only the execution of its own key. */
  lemma {:induction false} ApplyTouchesOneKey(s: State, e: Event, k: Key)
    requires k in Apply(s, e).execs
    ensures k != e.key || !Changes(s, e) ==> k in s.execs && Apply(s, e).execs[k] == s.execs[k]
    ensures k == e.key && Changes(s, e) ==>
              Apply(s, e).execs[k] == (if e.body.Submitted? then NewExec(e) else Step(s.execs[k], e))
  {
  }

  lemma {:induction false} EvictKeepsLive(s: State, k: Key)
    requires k in s.execs && !Terminal(s.execs[k])
    ensures k in Evict(s).execs
    decreases |s.terminalQ|
  {
    if !(s.retain <= 0 || |s.terminalQ| <= s.retain) {
      EvictKeepsLive(Forget(s.(terminalQ := s.terminalQ[1..]), s.terminalQ[0]), k);
    }
  }

  /** A live execution stays in the store, whatever happens to the others. */
  lemma {:induction false} LiveStays(s: State, e: Event, k: Key)
    requires k in s.execs && !Terminal(s.execs[k])
    requires k != e.key || (Changes(s, e) && !Terminal(Step(s.execs[k], e)))
    ensures k in Apply(s, e).execs
  {
    if Changes(s, e) && !e.body.Submitted? {
      var y := Step(s.execs[e.key], e);
      EvictKeepsLive(Moved(s, e.key, y).(terminalQ := s.terminalQ + [e.key]), k);
    }
  }

  /** Delivering an event to the store twice in a row is the same as delivering it once. */
  lemma {:induction false} ApplyTwiceIsApplyOnce(s: State, e: Event)
    ensures Apply(Apply(s, e), e) == Apply(s, e)
  {
    if Changes(s, e) && !e.body.Submitted? {
      var x := s.execs[e.key];
      ApplyTwice(x, e);
      if e.body.Heartbeat? {
        assert Apply(s, e) == s.(execs := s.execs[e.key := Step(x, e)]);
      } else {
        assert !Accepts(Step(x, e), e);
      }
    }
  }

  // ---------------------------------------------------------------- the store is a pointwise fold

  /** The state of execution k after a log, without any store. */
  function ExecOf(es: seq<Event>, k: Key): Option<Exec> {
    if es == [] then None
    else
      var before, e := ExecOf(es[..|es| - 1], k), es[|es| - 1];
      if e.key != k then before
      else if before.Some? then Some(Step(before.value, e))
      else if Founds(e) then Some(NewExec(e)) else None
  }

  ghost predicate Tracks(s: State, es: seq<Event>) {
    forall k :: if k in s.execs then ExecOf(es, k) == Some(s.execs[k]) else ExecOf(es, k) == None
  }

  lemma {:induction false} PutStores(s: State, k: Key, y: Exec)
    requires k in s.execs && s.retain <= 0
    ensures Put(s, k, y).execs == s.execs[k := y]
    ensures Put(s, k, y).retain == s.retain
  {
  }

  /** With retention off, replaying a log gives each execution the fold of its own events. */
  lemma {:induction false} ReplayIsPointwise(retain: int, es: seq<Event>)
    requires retain <= 0
    ensures Tracks(Replay(Empty(retain), es), es)
    ensures Replay(Empty(retain), es).retain == retain
  {
    if es != [] {
      var init, e := es[..|es| - 1], es[|es| - 1];
      ReplayIsPointwise(retain, init);
      var s := Replay(Empty(retain), init);
      if Changes(s, e) && !e.body.Submitted? {
        PutStores(s, e.key, Step(s.execs[e.key], e));
      }
    }
  }

  // ---------------------------------------------------------------- live state and replayed state

  function Erase(x: Exec): Exec {
    x.(reserved := false, completing := false)
  }

  /** Equal up to the two runtime flags, and up to the queues. */
  ghost predicate Mirrors(live: State, replayed: State) {
    && live.execs.Keys == replayed.execs.Keys
    && (forall k :: k in live.execs ==> replayed.execs[k] == Erase(live.execs[k]))
    && live.counts == replayed.counts && live.running == replayed.running
    && live.terminalQ == replayed.terminalQ && live.retain == replayed.retain
  }

  lemma {:induction false} EraseStep(x: Exec, e: Event)
    ensures Accepts(Erase(x), e) <==> Accepts(x, e)
    ensures Step(Erase(x), e) == Erase(Step(x, e))
  {
    EraseAccepts(x, e);
    if Accepts(x, e) {
      if e.body.Leased? || e.body.Heartbeat? || e.body.Complete? {
        EraseWorkerStep(x, e);
      } else {
        EraseOtherStep(x, e);
      }
    }
  }

  lemma {:induction false} EraseWorkerStep(x: Exec, e: Event)
    requires Accepts(x, e) && Accepts(Erase(x), e) && (e.body.Leased? || e.body.Heartbeat? || e.body.Complete?)
    ensures Step(Erase(x), e) == Erase(Step(x, e))
  {
  }

  lemma {:induction false} EraseOtherStep(x: Exec, e: Event)
    requires Accepts(x, e) && Accepts(Erase(x), e) && !e.body.Leased? && !e.body.Heartbeat? && !e.body.Complete?
    ensures Step(Erase(x), e) == Erase(Step(x, e))
  {
  }

  lemma {:induction false} EraseAccepts(x: Exec, e: Event)
    ensures Accepts(Erase(x), e) <==> Accepts(x, e)
  {
  }

  lemma {:induction false} MirrorEvict(l: State, r: State)
    requires Mirrors(l, r)
    ensures Mirrors(Evict(l), Evict(r))
    decreases |l.terminalQ|
  {
    if !(l.retain <= 0 || |l.terminalQ| <= l.retain) {
      MirrorEvict(Forget(l.(terminalQ := l.terminalQ[1..]), l.terminalQ[0]),
                  Forget(r.(terminalQ := r.terminalQ[1..]), r.terminalQ[0]));
    }
  }

  lemma {:induction false} MirrorMoved(l: State, r: State, k: Key, y: Exec)
    requires Mirrors(l, r) && k in l.execs
    ensures Mirrors(Moved(l, k, y), Moved(r, k, Erase(y)))
  {
  }

  lemma {:induction false} MirrorReconcile(l: State, r: State, k: Key, x: Exec, y: Exec)
    requires Mirrors(l, r)
    ensures Mirrors(Reconcile(l, k, x), Reconcile(r, k, y))
  {
  }

  /** The state before queueing, when y is stored. */
  ghost function Stored(s: State, k: Key, y: Exec): State
    requires k in s.execs
  {
    if y.status == s.execs[k].status then s.(execs := s.execs[k := y])
    else if Terminal(y) then Evict(Moved(s, k, y).(terminalQ := s.terminalQ + [k]))
    else Moved(s, k, y)
  }

  lemma {:induction false} MirrorStored(l: State, r: State, k: Key, y: Exec)
    requires Mirrors(l, r) && k in l.execs
    ensures Mirrors(Stored(l, k, y), Stored(r, k, Erase(y)))
  {
    MirrorMoved(l, r, k, y);
    if y.status != l.execs[k].status && Terminal(y) {
      MirrorEvict(Moved(l, k, y).(terminalQ := l.terminalQ + [k]),
      Moved(r, k, Erase(y)).(terminalQ := r.terminalQ + [k]));
    }
  }

  lemma {:induction false} MirrorPut(l: State, r: State, k: Key, y: Exec)
    requires Mirrors(l, r) && k in l.execs
    ensures Mirrors(Put(l, k, y), Put(r, k, Erase(y)))
  {
    var ls, rs := Stored(l, k, y), Stored(r, k, Erase(y));
    MirrorStored(l, r, k, y);
    MirrorReconcile(ls, rs, k, y, Erase(y));
    PutIsStored(l, k, y);
    PutIsStored(r, k, Erase(y));
  }

  lemma {:induction false} PutIsStored(s: State, k: Key, y: Exec)
    requires k in s.execs
    ensures Put(s, k, y) == Reconcile(Stored(s, k, y), k, y)
  {
  }

  lemma {:induction false} MirrorFlags(l: State, r: State, op: Op)
    requires Mirrors(l, r) && !op.DoApply?
    ensures Mirrors(Do(l, op), r)
  {
    match op
    case DoReserve(t) => MirrorReserve(l, r, t);
    case DoUnreserve(k) => MirrorUnreserve(l, r, k);
    case DoBegin(k, _) => MirrorCompleting(l, r, k, true);
    case DoAbort(k) => MirrorCompleting(l, r, k, false);
  }

  lemma {:induction false} MirrorUnreserve(l: State, r: State, k: Key)
    requires Mirrors(l, r)
    ensures Mirrors(Unreserve(l, k), r)
  {
    var m := Unreserve(l, k);
    if k in l.execs && l.execs[k].reserved {
      MirrorFlagged(l, r, k, l.execs[k].(reserved := false), m);
    }
  }

  lemma {:induction false} MirrorFlagged(l: State, r: State, k: Key, y: Exec, m: State)
    requires Mirrors(l, r) && k in l.execs && Erase(y) == Erase(l.execs[k]) && m.execs == l.execs[k := y]
    requires m.counts == l.counts && m.running == l.running && m.terminalQ == l.terminalQ && m.retain == l.retain
    ensures Mirrors(m, r)
  {
  }

  lemma {:induction false} MirrorCompleting(l: State, r: State, k: Key, flag: bool)
    requires Mirrors(l, r)
    ensures Mirrors(SetCompleting(l, k, flag), r)
  {
    MirrorSame(l, r, SetCompleting(l, k, flag));
  }

  lemma {:induction false} MirrorReserve(l: State, r: State, t: string)
    requires Mirrors(l, r)
    ensures Mirrors(Reserve(l, t).0, r)
  {
    MirrorSame(l, r, Reserve(l, t).0);
  }

  /** A change of flags and queues alone. */
  lemma {:induction false} MirrorSame(l: State, r: State, m: State)
    requires Mirrors(l, r)
    requires m.execs.Keys == l.execs.Keys && forall k :: k in l.execs ==> Erase(m.execs[k]) == Erase(l.execs[k])
    requires m.counts == l.counts && m.running == l.running && m.terminalQ == l.terminalQ && m.retain == l.retain
    ensures Mirrors(m, r)
  {
  }

  lemma {:induction false} MirrorSubmit(l: State, r: State, e: Event)
    requires Mirrors(l, r) && e.body.Submitted?
    ensures Mirrors(Apply(l, e), Apply(r, e))
  {
    if Changes(l, e) {
      var x, counts := NewExec(e), Bump(l.counts, Pending, 1);
      var ls, rs := l.(execs := l.execs[e.key := x], counts := counts),
          r.(execs := r.execs[e.key := x], counts := counts);
      assert Mirrors(ls, rs);
      MirrorReconcile(ls, rs, e.key, x, x);
      assert Apply(l, e) == Reconcile(ls, e.key, x) && Apply(r, e) == Reconcile(rs, e.key, x);
    }
  }

  lemma {:induction false} MirrorTaken(l: State, r: State, e: Event)
    requires Mirrors(l, r) && !e.body.Submitted? && e.key in l.execs
    ensures Mirrors(Apply(l, e), Apply(r, e))
  {
    var x := l.execs[e.key];
    EraseStep(x, e);
    if Accepts(x, e) {
      var y := Step(x, e);
      MirrorPut(l, r, e.key, y);
      assert Apply(l, e) == Put(l, e.key, y) && Apply(r, e) == Put(r, e.key, Erase(y));
    }
  }

  lemma {:induction false} MirrorApply(l: State, r: State, e: Event)
    requires Mirrors(l, r)
    ensures Mirrors(Apply(l, e), Apply(r, e))
  {
    if e.body.Submitted? {
      MirrorSubmit(l, r, e);
    } else if e.key in l.execs {
      MirrorTaken(l, r, e);
    }
  }

  function Applied(ops: seq<Op>): seq<Event> {
    if ops == [] then []
    else Applied(ops[..|ops| - 1]) + (if ops[|ops| - 1].DoApply? then [ops[|ops| - 1].e] else [])
  }

  /**
   However reservations, releases and completion fences are interleaved with the applied events,
   folding those events alone into a fresh store gives the same executions once the two runtime
   flags are erased, and the same counts, running set and terminal queue.
   */
  lemma {:induction false} LiveMirrorsReplay(retain: int, ops: seq<Op>)
    ensures Mirrors(Run(Empty(retain), ops), Replay(Empty(retain), Applied(ops)))
  {
    if ops != [] {
      var init, op := ops[..|ops| - 1], ops[|ops| - 1];
      LiveMirrorsReplay(retain, init);
      var l, r := Run(Empty(retain), init), Replay(Empty(retain), Applied(init));
      if op.DoApply? {
        MirrorApply(l, r, op.e);
        assert Applied(ops)[..|Applied(ops)| - 1] == Applied(init);
      } else {
        MirrorFlags(l, r, op);
        assert Applied(ops) == Applied(init);
      }
    }
  }

  lemma {:induction false} ReplayKeepsIndex(retain: int, es: seq<Event>)
    ensures Indexed(Replay(Empty(retain), es))
    ensures Replay(Empty(retain), es).retain == retain
  {
    if es != [] {
      ReplayKeepsIndex(retain, es[..|es| - 1]);
      ApplyKeepsIndex(Replay(Empty(retain), es[..|es| - 1]), es[|es| - 1]);
    }
  }

  /** The executions that a worker of this type can still be given. */
  ghost function Work(s: State, t: string): set<Key> {
    set k | k in Queue(s, t) && Leasable(s.execs, k)
  }

  /** With retention off, the leasable entries of a queue are all the pending unreserved executions of its type. */
  lemma {:induction false} WorkIsWhatIsPending(s: State, t: string)
    requires Indexed(s) && s.retain <= 0
    ensures Work(s, t) == set k | k in s.execs && Leasable(s.execs, k) && s.execs[k].taskType == t
  {
    forall k | k in s.execs && Leasable(s.execs, k) && s.execs[k].taskType == t
      ensures k in Queue(s, t)
    {
      assert k in s.queued;
    }
    assert forall k :: k in Queue(s, t) ==> s.execs[k].taskType == t;
  }
}
