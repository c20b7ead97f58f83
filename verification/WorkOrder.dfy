/**
 What the queue order of module Scheduling means for workers (internal/workflow/coordinator.go) and
 for a store rebuilt from the log (internal/workflow/store.go).
 */
module WorkOrder {
  import opened Fold
  import opened Store
  import opened Coordinator
  import opened Redelivery
  import opened Scheduling
  import opened Options

  // ---------------------------------------------------------------- oldest first

  /** The reserved execution became pending before every other one that could have been handed out. */
  lemma {:induction false} ReserveTakesOldest(s: Store.State, log: seq<Event>, t: string, j: Key)
    requires Indexed(s) && s.retain <= 0 && Fifo(s, log)
    requires Leasable(s.execs, j) && s.execs[j].taskType == t
    ensures Reserve(s, t).1.Some?
    ensures j == Reserve(s, t).1.value || Since(log, Reserve(s, t).1.value) < Since(log, j)
  {
    ReserveFindsWork(s, t);
    var q, k := Queue(s, t), Reserve(s, t).1.value;
    var n :| 0 <= n < |q| && q[n] == k && forall i :: 0 <= i < n ==> !Leasable(s.execs, q[i]);
    assert j in s.queued && j in q;
    var m :| 0 <= m < |q| && q[m] == j;
    assert SortedBySince(log, q);
  }

  /** The executions of a type that wait for a lease. */
  ghost function Waiting(s: Store.State, t: string): set<Key> {
    set k | k in s.execs && Leasable(s.execs, k) && s.execs[k].taskType == t
  }

  function Keys(leases: seq<Lease>): seq<Key> {
    seq(|leases|, i requires 0 <= i < |leases| => leases[i].key)
  }

  /** ks are the first elements of `work` under the measure, in order. */
  ghost predicate FirstOf(f: Key -> int, work: set<Key>, ks: seq<Key>) {
    && (forall i :: 0 <= i < |ks| ==> ks[i] in work)
    && SortedBy(f, ks)
    && (forall k, i :: k in work && k !in ks && 0 <= i < |ks| ==> f(ks[i]) < f(k))
  }

  ghost predicate SortedBy(f: Key -> int, q: seq<Key>) {
    forall i, j :: 0 <= i < j < |q| ==> f(q[i]) < f(q[j])
  }

  lemma {:induction false} FirstOfCons(f: Key -> int, work: set<Key>, k: Key, ks: seq<Key>)
    requires k in work && forall j :: j in work && j != k ==> f(k) < f(j)
    requires FirstOf(f, work - {k}, ks)
    ensures FirstOf(f, work, [k] + ks)
  {
  }

  lemma {:induction false} LeasedStopsWaiting(s: Store.State, f: Store.State, t: string, k: Key, e: Event)
    requires k in s.execs && Accepts(s.execs[k], e) && e.body.Leased?
    requires f.execs == s.execs[k := Step(s.execs[k], e)]
    ensures Waiting(f, t) == Waiting(s, t) - {k}
  {
  }

  /** One granted lease: the oldest waiting execution, which stops waiting. */
  lemma {:induction false} GrantTakesOldest(c: Coord, t: string, worker: string, turn: Turn) returns (k: Key)
    requires Ordered(c) && GrantOne(c, t, worker, turn).Leased1?
    ensures k == GrantOne(c, t, worker, turn).lease.key
    ensures k in Waiting(c.store, t)
    ensures GrantOne(c, t, worker, turn).lease.attempt == c.store.execs[k].attempt + 1
    ensures Waiting(GrantOne(c, t, worker, turn).state.store, t) == Waiting(c.store, t) - {k}
    ensures forall j :: j in Waiting(c.store, t) && j != k ==> Since(c.log, k) < Since(c.log, j)
  {
    k := Reserve(c.store, t).1.value;
    var e := LeaseEvent(c.store.execs[k], worker, turn.at);
    GrantShape(c, t, worker, turn);
    GrantExecs(c.store, t, worker, turn.at);
    LeasedStopsWaiting(c.store, GrantStore(c.store, t, e), t, k, e);
    ReserveFindsWork(c.store, t);
    forall j | j in Waiting(c.store, t) && j != k
      ensures Since(c.log, k) < Since(c.log, j)
    {
      ReserveTakesOldest(c.store, c.log, t, j);
    }
  }

  lemma {:induction false} GrantKeepsSince(c: Coord, t: string, worker: string, turn: Turn, j: Key)
    requires Ordered(c) && GrantOne(c, t, worker, turn).Leased1?
    ensures Since(GrantOne(c, t, worker, turn).state.log, j) == Since(c.log, j)
  {
    GrantShape(c, t, worker, turn);
    SinceStep(c.log, LeaseEvent(c.store.execs[Reserve(c.store, t).1.value], worker, turn.at), j);
  }

  /** GrantTakesOldest and GrantKeepsSince, for a measure f that is Since on the current log. */
  lemma {:induction false} GrantStepIsOldest(c: Coord, t: string, worker: string, turn: Turn, f: Key -> int)
    returns (one: GrantStep)
    requires Ordered(c) && forall j :: f(j) == Since(c.log, j)
    ensures one == GrantOne(c, t, worker, turn) && Ordered(one.state)
    ensures one.Leased1? ==>
              var k := one.lease.key;
              && k in Waiting(c.store, t) && Waiting(one.state.store, t) == Waiting(c.store, t) - {k}
              && (forall j :: j in Waiting(c.store, t) && j != k ==> f(k) < f(j))
              && (forall j :: f(j) == Since(one.state.log, j))
  {
    one := GrantOneOrders(c, t, worker, turn);
    if one.Leased1? {
      var k := GrantTakesOldest(c, t, worker, turn);
      forall j
        ensures f(j) == Since(one.state.log, j)
      {
        GrantKeepsSince(c, t, worker, turn, j);
      }
    }
  }

  /**
   A batch hands out executions waiting under the asked-for type, in the order they became pending,
   and leaves behind only ones that became pending later. `f` is that order.
   */
  lemma {:induction false} BatchIsOldestFirst(c: Coord, t: string, worker: string, left: nat, turns: seq<Turn>,
                                              f: Key -> int, work: set<Key>)
    returns (g: Granted, ks: seq<Key>)
    requires Ordered(c) && forall j :: f(j) == Since(c.log, j)
    requires work == Waiting(c.store, t)
    ensures g == Grant(c, t, worker, left, turns)
    ensures ks == Keys(g.leases) && FirstOf(f, work, ks)
    decreases left
  {
    g, ks := Granted(c, []), [];
    if left != 0 {
      var less: nat := left - 1;
      var one := GrantStepIsOldest(c, t, worker, Next(turns), f);
      GrantUnfolds(c, t, worker, left, less, turns, one);
      g := Granted(one.state, []);
      if one.Leased1? {
        var rest, ks1 := BatchIsOldestFirst(one.state, t, worker, less, Later(turns), f, work - {one.lease.key});
        g := Granted(rest.state, [one.lease] + rest.leases);
        ks := FirstOfLeases(f, work, one.lease, rest.leases);
      }
    }
  }

  lemma {:induction false} FirstOfLeases(f: Key -> int, work: set<Key>, lease: Lease, rest: seq<Lease>)
    returns (ks: seq<Key>)
    requires lease.key in work && forall j :: j in work && j != lease.key ==> f(lease.key) < f(j)
    requires FirstOf(f, work - {lease.key}, Keys(rest))
    ensures ks == Keys([lease] + rest)
    ensures FirstOf(f, work, ks)
  {
    ks := [lease.key] + Keys(rest);
    FirstOfCons(f, work, lease.key, Keys(rest));
  }

  /** How many publishes in a row the log takes. */
  function LeadingOk(turns: seq<Turn>): nat {
    if turns == [] || !turns[0].ok then 0 else 1 + LeadingOk(turns[1..])
  }

  function Least(a: nat, b: nat, c: nat): nat {
    if a <= b && a <= c then a else if b <= c then b else c
  }

  /** A grant is refused only for want of work or by the log. */
  lemma {:induction false} GrantsIff(c: Coord, t: string, worker: string, turn: Turn) returns (one: GrantStep)
    requires Ordered(c)
    ensures one == GrantOne(c, t, worker, turn) && Ordered(one.state)
    ensures one.Leased1? <==> turn.ok && Waiting(c.store, t) != {}
    ensures one.Leased1? ==> |Waiting(one.state.store, t)| == |Waiting(c.store, t)| - 1
  {
    one := GrantOneOrders(c, t, worker, turn);
    WorkIffWaiting(c.store, t);
    if one.Leased1? {
      var k := GrantTakesOldest(c, t, worker, turn);
    }
  }

  lemma {:induction false} WorkIffWaiting(s: Store.State, t: string)
    requires Indexed(s) && s.retain <= 0
    ensures Reserve(s, t).1.Some? <==> Waiting(s, t) != {}
  {
    ReserveFindsWork(s, t);
    if Reserve(s, t).1.Some? {
      assert Reserve(s, t).1.value in Waiting(s, t);
    } else {
      assert forall k :: k !in Waiting(s, t);
    }
  }

  /** A batch is as large as what was asked for, the work there is and the publishes that succeed allow. */
  lemma {:induction false} BatchIsFull(c: Coord, t: string, worker: string, left: nat, turns: seq<Turn>)
    returns (g: Granted)
    requires Ordered(c)
    ensures g == Grant(c, t, worker, left, turns)
    ensures |g.leases| == Least(left, |Waiting(c.store, t)|, LeadingOk(turns))
    decreases left
  {
    g := Granted(c, []);
    if left != 0 {
      var less: nat := left - 1;
      var one := GrantsIff(c, t, worker, Next(turns));
      GrantUnfolds(c, t, worker, left, less, turns, one);
      g := Granted(one.state, []);
      if one.Leased1? {
        var rest := BatchIsFull(one.state, t, worker, less, Later(turns));
        g := Granted(rest.state, [one.lease] + rest.leases);
        OneMoreFits(left, less, |Waiting(c.store, t)|, |Waiting(one.state.store, t)|, turns);
      } else {
        NoneFits(left, |Waiting(c.store, t)|, turns);
      }
    }
  }

  lemma {:induction false} OneMoreFits(left: nat, less: nat, work: nat, rest: nat, turns: seq<Turn>)
    requires left == less + 1 && work == rest + 1 && Next(turns).ok
    ensures Least(left, work, LeadingOk(turns)) == 1 + Least(less, rest, LeadingOk(Later(turns)))
  {
  }

  lemma {:induction false} NoneFits(left: nat, work: nat, turns: seq<Turn>)
    requires work == 0 || !Next(turns).ok
    ensures Least(left, work, LeadingOk(turns)) == 0
  {
  }

  /**
   In every run with retention off, a batch is the executions that have waited longest, oldest
   first: as many as were asked for, are waiting, and have their publish taken.
   */
  lemma {:induction false} LeasesAreFifo(cfg: Config, calls: seq<Call>, t: string, worker: string, max: int,
                                         turns: seq<Turn>)
    requires cfg.Valid() && PossibleRun(Fresh(cfg, 0), calls)
    ensures var c := After(Fresh(cfg, 0), calls);
            var leases := LeaseBatch(c, t, worker, max, turns).leases;
            && FirstOf(k => Since(c.log, k), Waiting(c.store, t), Keys(leases))
            && |leases| == Least(if max <= 0 then 1 else max, |Waiting(c.store, t)|, LeadingOk(turns))
  {
    RunOrders(cfg, calls);
    var c := After(Fresh(cfg, 0), calls);
    var left := if max <= 0 then 1 else max;
    var g, ks := BatchIsOldestFirst(c, t, worker, left, turns, k => Since(c.log, k), Waiting(c.store, t));
    var full := BatchIsFull(c, t, worker, left, turns);
  }

  // ---------------------------------------------------------------- order in a rebuilt store

  /** The entries of a queue that can be handed out, in order. */
  function Live(execs: map<Key, Exec>, q: seq<Key>): seq<Key> {
    if q == [] then []
    else if Leasable(execs, q[|q| - 1]) then Live(execs, q[..|q| - 1]) + [q[|q| - 1]]
    else Live(execs, q[..|q| - 1])
  }

  function WorkQueue(s: Store.State, t: string): seq<Key> {
    Live(s.execs, Queue(s, t))
  }

  lemma {:induction false} LiveMembers(execs: map<Key, Exec>, q: seq<Key>, k: Key)
    ensures k in Live(execs, q) <==> k in q && Leasable(execs, k)
  {
    if q != [] {
      LiveMembers(execs, q[..|q| - 1], k);
      assert q == q[..|q| - 1] + [q[|q| - 1]];
    }
  }

  lemma {:induction false} LiveSorted(execs: map<Key, Exec>, q: seq<Key>, f: Key -> int)
    requires SortedBy(f, q)
    ensures SortedBy(f, Live(execs, q))
  {
    if q != [] {
      var init, last := q[..|q| - 1], q[|q| - 1];
      LiveSorted(execs, init, f);
      var l := Live(execs, init);
      forall i | 0 <= i < |l|
        ensures f(l[i]) < f(last)
      {
        LiveMembers(execs, init, l[i]);
        var m :| 0 <= m < |init| && init[m] == l[i];
        assert q[m] == init[m];
      }
    }
  }

  /** In a sorted list every member before the last one is smaller than it. */
  lemma {:induction false} BeforeLast(f: Key -> int, q: seq<Key>, k: Key)
    requires SortedBy(f, q) && q != []
    ensures k in q <==> k in q[..|q| - 1] || k == q[|q| - 1]
    ensures k in q[..|q| - 1] ==> f(k) < f(q[|q| - 1])
  {
    assert q == q[..|q| - 1] + [q[|q| - 1]];
  }

  lemma {:induction false} SameLast(f: Key -> int, p: seq<Key>, q: seq<Key>)
    requires SortedBy(f, p) && SortedBy(f, q) && p != [] && q != []
    requires forall k :: k in p <==> k in q
    ensures p[|p| - 1] == q[|q| - 1]
  {
    var a, b := p[|p| - 1], q[|q| - 1];
    assert a in p && b in q;
    BeforeLast(f, p, b);
    BeforeLast(f, q, a);
  }

  /** Two lists of the same keys sorted by the same measure are the same list. */
  lemma {:induction false} SortedUnique(f: Key -> int, p: seq<Key>, q: seq<Key>)
    requires SortedBy(f, p) && SortedBy(f, q)
    requires forall k :: k in p <==> k in q
    ensures p == q
  {
    assert p != [] ==> p[0] in q;
    assert q != [] ==> q[0] in p;
    if p != [] && q != [] {
      SameLast(f, p, q);
      var p', q' := p[..|p| - 1], q[..|q| - 1];
      forall k
        ensures k in p' <==> k in q'
      {
        BeforeLast(f, p, k);
        BeforeLast(f, q, k);
      }
      SortedUnique(f, p', q');
      assert p == p' + [p[|p| - 1]] && q == q' + [p[|p| - 1]];
    }
  }

  lemma {:induction false} BornStep(log: seq<Event>, e: Event, k: Key)
    ensures Born(log + [e], k)
            == (if Born(log, k) >= 0 then Born(log, k) else if e.key == k && Founds(e) then |log| else -1)
    ensures Born(log, k) < |log|
  {
    assert (log + [e])[..|log|] == log;
    BornBelow(log, k);
  }

  lemma {:induction false} BornBelow(log: seq<Event>, k: Key)
    ensures -1 <= Born(log, k) < |log|
    ensures Born(log, k) >= 0 <==> ExecOf(log, k).Some?
  {
    if log != [] {
      BornBelow(log[..|log| - 1], k);
    }
  }

  /** In a store where everything is queued, only a submit changes a queue. */
  lemma {:induction false} RebuiltStep(s: Store.State, e: Event, t: string)
    requires Indexed(s) && s.retain == 0 && s.queued == s.execs.Keys
    ensures var f := Apply(s, e);
            && f.queued == f.execs.Keys
            && Queue(f, t)
               == Queue(s, t) + (if Founds(e) && e.key !in s.execs && e.body.taskType == t then [e.key] else [])
  {
    if Changes(s, e) && !e.body.Submitted? {
      PutQueues(s, e.key, Step(s.execs[e.key], e));
      PutStores(s, e.key, Step(s.execs[e.key], e));
    }
  }

  lemma {:induction false} BirthOrderStep(log: seq<Event>, e: Event, q: seq<Key>, added: seq<Key>)
    requires SortedBy(k => Born(log, k), q)
    requires forall i :: 0 <= i < |q| ==> Born(log, q[i]) >= 0
    requires added == [] || (added == [e.key] && Founds(e) && Born(log, e.key) < 0)
    ensures SortedBy(k => Born(log + [e], k), q + added)
  {
    forall i | 0 <= i < |q|
      ensures Born(log + [e], q[i]) == Born(log, q[i]) < |log|
    {
      BornStep(log, e, q[i]);
    }
    BornStep(log, e, e.key);
    var born := k => Born(log, k);
    assert forall i, j :: 0 <= i < j < |q| ==> born(q[i]) < born(q[j]);
  }

  /** A store that only ever replayed events has every execution queued where it was submitted. */
  lemma {:induction false} RebuiltByBirth(es: seq<Event>, t: string)
    ensures var s := Replay(Store.Empty(0), es);
            s.queued == s.execs.Keys && SortedBy(k => Born(es, k), Queue(s, t))
  {
    if es != [] {
      var init, e := es[..|es| - 1], es[|es| - 1];
      RebuiltByBirth(init, t);
      var s := Replay(Store.Empty(0), init);
      RebuiltNext(init, e, t, s);
      assert Replay(Store.Empty(0), es) == Apply(s, e) && es == init + [e];
    }
  }

  lemma {:induction false} RebuiltNext(log: seq<Event>, e: Event, t: string, s: Store.State)
    requires s == Replay(Store.Empty(0), log) && s.queued == s.execs.Keys && SortedBy(k => Born(log, k), Queue(s, t))
    ensures var f := Apply(s, e);
            f.queued == f.execs.Keys && SortedBy(k => Born(log + [e], k), Queue(f, t))
  {
    ReplayKeepsIndex(0, log);
    RebuiltStep(s, e, t);
    StoredIffBorn(log, e.key);
    var q := Queue(s, t);
    forall i | 0 <= i < |q|
      ensures Born(log, q[i]) >= 0
    {
      assert q[i] in q;
      StoredIffBorn(log, q[i]);
    }
    BirthOrderStep(log, e, q, if Founds(e) && e.key !in s.execs && e.body.taskType == t then [e.key] else []);
  }

  lemma {:induction false} StoredIffBorn(log: seq<Event>, k: Key)
    ensures k in Replay(Store.Empty(0), log).execs <==> Born(log, k) >= 0
  {
    ReplayIsPointwise(0, log);
    BornBelow(log, k);
  }

  /**
   A store rebuilt from the log holds the same work as the live one, and in the same order exactly
   when, among the pending executions of the type, becoming pending earlier means having been
   submitted earlier.
   */
  lemma {:induction false} RebuildKeepsOrderIff(cfg: Config, calls: seq<Call>, t: string)
    requires cfg.Valid() && PossibleRun(Fresh(cfg, 0), calls)
    ensures var c := After(Fresh(cfg, 0), calls);
            WorkQueue(Replay(Store.Empty(0), c.log), t) == WorkQueue(c.store, t)
            <==> forall a, b :: a in Work(c.store, t) && b in Work(c.store, t) && Since(c.log, a) < Since(c.log, b)
                                ==> Born(c.log, a) < Born(c.log, b)
  {
    var c := After(Fresh(cfg, 0), calls);
    var rebuilt := Replay(Store.Empty(0), c.log);
    RunOrders(cfg, calls);
    LiveEqualsReplay(cfg, 0, calls);
    RebuiltStoreHasTheSameWork(cfg, calls, t);
    RebuiltByBirth(c.log, t);
    assert SortedBySince(c.log, Queue(c.store, t));
    OrderIff(c.store, rebuilt, c.log, t);
  }

  /** Lists of the same keys sorted by two measures agree exactly when the measures do. */
  lemma {:induction false} SameListIff(f: Key -> int, g: Key -> int, p: seq<Key>, q: seq<Key>)
    requires SortedBy(f, p) && SortedBy(g, q)
    requires forall k :: k in p <==> k in q
    ensures p == q <==> forall a, b :: a in p && b in p && f(a) < f(b) ==> g(a) < g(b)
  {
    if p == q {
      forall a, b | a in p && b in p && f(a) < f(b)
        ensures g(a) < g(b)
      {
        var i :| 0 <= i < |p| && p[i] == a;
        var j :| 0 <= j < |p| && p[j] == b;
      }
    }
    if forall a, b :: a in p && b in p && f(a) < f(b) ==> g(a) < g(b) {
      forall i, j | 0 <= i < j < |p|
        ensures g(p[i]) < g(p[j])
      {
        assert p[i] in p && p[j] in p && f(p[i]) < f(p[j]);
      }
      SortedUnique(g, p, q);
    }
  }

  lemma {:induction false} OrderIff(s: Store.State, r: Store.State, log: seq<Event>, t: string)
    requires Work(r, t) == Work(s, t)
    requires SortedBySince(log, Queue(s, t)) && SortedBy(k => Born(log, k), Queue(r, t))
    ensures WorkQueue(r, t) == WorkQueue(s, t)
            <==> forall a, b :: a in Work(s, t) && b in Work(s, t) && Since(log, a) < Since(log, b)
                                ==> Born(log, a) < Born(log, b)
  {
    var since, born := k => Since(log, k), k => Born(log, k);
    LiveSorted(s.execs, Queue(s, t), since);
    LiveSorted(r.execs, Queue(r, t), born);
    var p, q := WorkQueue(s, t), WorkQueue(r, t);
    forall k
      ensures k in p <==> k in Work(s, t)
      ensures k in q <==> k in Work(s, t)
    {
      LiveMembers(s.execs, Queue(s, t), k);
      LiveMembers(r.execs, Queue(r, t), k);
      assert k in q <==> k in Work(r, t);
    }
    OrderIffLists(log, p, q, Work(s, t), since, born);
  }

  lemma {:induction false} OrderIffLists(log: seq<Event>, p: seq<Key>, q: seq<Key>, work: set<Key>,
                                         since: Key -> int, born: Key -> int)
    requires forall k :: since(k) == Since(log, k)
    requires forall k :: born(k) == Born(log, k)
    requires SortedBy(since, p) && SortedBy(born, q)
    requires forall k :: k in p <==> k in work
    requires forall k :: k in q <==> k in work
    ensures p == q <==>
            forall a, b :: a in work && b in work && Since(log, a) < Since(log, b) ==> Born(log, a) < Born(log, b)
  {
    SameListIff(since, born, p, q);
    if p == q {
      forall a, b | a in work && b in work && Since(log, a) < Since(log, b)
        ensures Born(log, a) < Born(log, b)
      {
        assert a in p && b in p && since(a) < since(b);
        assert born(a) < born(b);
      }
    }
  }

  /** Redelivering the whole log of a run to its own live store, decided by the executions alone. */
  lemma {:induction false} RedeliveryAfterARun(cfg: Config, calls: seq<Call>)
    requires cfg.Valid() && PossibleRun(Fresh(cfg, 0), calls)
    ensures var c := After(Fresh(cfg, 0), calls);
            Replay(Replay(Store.Empty(0), c.log), c.log).execs == c.store.execs
            <==> forall k :: k in c.store.execs ==> SafeToRefold(c.store.execs[k])
  {
    RunOrders(cfg, calls);
    LiveEqualsReplay(cfg, 0, calls);
    RedeliveryIsHarmlessIff(After(Fresh(cfg, 0), calls).log);
  }

  // ---------------------------------------------------------------- a run whose order a rebuild loses

  lemma {:induction false} SubmitExecs(c: Coord, spec: Spec, turn: Turn)
    requires turn.ok && spec.key !in c.store.execs && spec.taskType != ""
    ensures var e := SubmitEvent(c.cfg, spec, turn.at);
            var d := Make(c, CSubmit(spec, turn));
            d.log == c.log + [e] && d.store.execs == c.store.execs[spec.key := NewExec(e)]
  {
  }

  lemma {:induction false} LeaseExecs(c: Coord, t: string, worker: string, turn: Turn)
    requires Settled(c) && turn.ok && Reserve(c.store, t).1.Some?
    ensures var k := Reserve(c.store, t).1.value;
            var e := LeaseEvent(c.store.execs[k], worker, turn.at);
            var d := Make(c, CLease(t, worker, 1, [turn]));
            e.key == k && d.log == c.log + [e] && d.store.execs == c.store.execs[k := Step(c.store.execs[k], e)]
  {
    GrantShape(c, t, worker, turn);
    GrantExecs(c.store, t, worker, turn.at);
    assert Grant(c, t, worker, 1, [turn]).state == GrantOne(c, t, worker, turn).state;
  }

  lemma {:induction false} AppendExecs(c: Coord, e: Event)
    requires c.store.retain <= 0 && Changes(c.store, e) && !e.body.Submitted?
    ensures Append(c, e, true).store.execs == c.store.execs[e.key := Step(c.store.execs[e.key], e)]
    ensures Append(c, e, true).store.retain == c.store.retain
  {
    PutStores(c.store, e.key, Step(c.store.execs[e.key], e));
  }

  lemma {:induction false} FailThenRetry(x: Exec, fail: Event, retry: Event) returns (y: Exec)
    requires fail.body.Fail? && Accepts(x, fail) && retry.body.Retry?
    ensures y == Step(Step(x, fail), retry)
    ensures Accepts(Step(x, fail), retry) && y.status == Pending && y.taskType == x.taskType && y.reserved == x.reserved
  {
    y := Step(Step(x, fail), retry);
  }

  lemma {:induction false} TwoAppends(c: Coord, fail: Event, retry: Event) returns (y: Exec)
    requires c.store.retain <= 0 && Changes(c.store, fail) && fail.body.Fail? && retry.body.Retry?
             && retry.key == fail.key
    ensures var d := Append(Append(c, fail, true), retry, true);
            && d.log == c.log + [fail] + [retry] && d.store.execs == c.store.execs[fail.key := y]
            && y.status == Pending && y.taskType == c.store.execs[fail.key].taskType
            && y.reserved == c.store.execs[fail.key].reserved
  {
    var k := fail.key;
    y := FailThenRetry(c.store.execs[k], fail, retry);
    AppendExecs(c, fail);
    AppendExecs(Append(c, fail, true), retry);
    var z := Step(c.store.execs[k], fail);
    assert c.store.execs[k := z][k := y] == c.store.execs[k := y];
  }

  /** A failed attempt that may be retried appends two events and leaves the execution waiting. */
  lemma {:induction false} RetriedExecs(c: Coord, k: Key, worker: string, attempt: int, turn: Turn)
    returns (d: Coord, fail: Event, retry: Event, y: Exec)
    requires c.store.retain <= 0 && turn.ok
    requires Holds(c.store, k, worker, attempt) && attempt < c.store.execs[k].maxAttempts && c.store.execs[k].key == k
    ensures d == Make(c, CGiveUp(k, worker, attempt, "", true, turn, turn))
    ensures d.log == c.log + [fail] + [retry] && fail.key == retry.key == k && retry.body.Retry?
    ensures d.store.execs == c.store.execs[k := y]
    ensures y.status == Pending && y.taskType == c.store.execs[k].taskType && y.reserved == c.store.execs[k].reserved
  {
    fail := Event(k, worker, attempt, turn.at, Fold.Fail(worker, "", true));
    retry := ReasonEvent(c.store.execs[k], true, ATTEMPT_FAILED, turn.at);
    y := TwoAppends(c, fail, retry);
    d := Append(Append(c, fail, true), retry, true);
  }

  lemma {:induction false} FirstOfTwo(s: Store.State, log: seq<Event>, t: string, a: Key, b: Key)
    requires Indexed(s) && s.retain <= 0 && Fifo(s, log) && Waiting(s, t) == {a, b} && Since(log, a) < Since(log, b)
    ensures Reserve(s, t).1 == Some(a)
  {
    assert a in Waiting(s, t);
    ReserveFindsWork(s, t);
    ReserveTakesOldest(s, log, t, a);
    assert Reserve(s, t).1.value in Waiting(s, t);
  }

  lemma {:induction false} TwoSubmitted(cfg: Config, a: Spec, b: Spec, turn: Turn) returns (calls: seq<Call>, c: Coord)
    requires cfg.Valid() && turn.ok && a.key != b.key && a.taskType == b.taskType != ""
    ensures PossibleRun(Fresh(cfg, 0), calls) && c == After(Fresh(cfg, 0), calls)
    ensures var ea, eb := SubmitEvent(cfg, a, turn.at), SubmitEvent(cfg, b, turn.at);
            c.log == [ea, eb] && c.store.execs == map[a.key := NewExec(ea), b.key := NewExec(eb)]
  {
    var c0 := Fresh(cfg, 0);
    RunMore(c0, [], CSubmit(a, turn));
    SubmitExecs(c0, a, turn);
    calls := [] + [CSubmit(a, turn)];
    RunMore(c0, calls, CSubmit(b, turn));
    SubmitExecs(After(c0, calls), b, turn);
    calls := calls + [CSubmit(b, turn)];
    c := After(c0, calls);
  }

  /** The first of two submitted executions is leased first. */
  lemma {:induction false} FirstIsLeased(cfg: Config, a: Spec, b: Spec, turn: Turn) returns (calls: seq<Call>, c: Coord)
    requires cfg.Valid() && turn.ok && a.key != b.key && a.taskType == b.taskType != "" && a.maxAttempts == 2
    ensures PossibleRun(Fresh(cfg, 0), calls) && c == After(Fresh(cfg, 0), calls)
    ensures |c.log| == 3 && c.log[0] == SubmitEvent(cfg, a, turn.at) && c.log[1] == SubmitEvent(cfg, b, turn.at)
    ensures c.log[2].key == a.key && Holds(c.store, a.key, "w", 1) && c.store.execs[a.key].maxAttempts == 2
    ensures c.store.execs[a.key].taskType == a.taskType && b.key in Waiting(c.store, a.taskType)
  {
    var calls2, two := TwoSubmitted(cfg, a, b, turn);
    RunOrders(cfg, calls2);
    var lease := CLease(a.taskType, "w", 1, [turn]);
    var xa, xb := two.store.execs[a.key], two.store.execs[b.key];
    c := LeaseOfTwo(two, a.key, b.key, xa, xb, a.taskType, turn);
    RunMore(Fresh(cfg, 0), calls2, lease);
    calls := calls2 + [lease];
  }

  /** Submitted under the type and not leased yet. */
  predicate Untouched(x: Exec, t: string) {
    x.status == Pending && x.attempt == 0 && x.taskType == t && !x.reserved
  }

  lemma {:induction false} LeaseOfTwo(two: Coord, a: Key, b: Key, xa: Exec, xb: Exec, t: string, turn: Turn)
    returns (c: Coord)
    requires Ordered(two) && turn.ok && a != b && Untouched(xa, t) && Untouched(xb, t)
    requires two.store.execs == map[a := xa, b := xb] && |two.log| == 2 && Founds(two.log[0]) && Founds(two.log[1])
    requires two.log[0].key == a && two.log[1].key == b
    ensures c == Make(two, CLease(t, "w", 1, [turn]))
    ensures |c.log| == 3 && c.log[..2] == two.log && c.log[2].key == a
    ensures Holds(c.store, a, "w", 1) && c.store.execs[a].maxAttempts == xa.maxAttempts
    ensures c.store.execs[a].taskType == t && b in Waiting(c.store, t)
  {
    FirstOfTwoSubmitted(two, a, b, xa, xb, t);
    LeaseExecs(two, t, "w", turn);
    c := Make(two, CLease(t, "w", 1, [turn]));
    LeasedOnce(xa, LeaseEvent(xa, "w", turn.at));
  }

  lemma {:induction false} FirstOfTwoSubmitted(two: Coord, a: Key, b: Key, xa: Exec, xb: Exec, t: string)
    requires Ordered(two) && a != b && Untouched(xa, t) && Untouched(xb, t)
    requires two.store.execs == map[a := xa, b := xb] && |two.log| == 2 && Founds(two.log[0]) && Founds(two.log[1])
    requires two.log[0].key == a && two.log[1].key == b
    ensures Reserve(two.store, t).1 == Some(a)
  {
    SinceTwo(two.log[0], two.log[1], a, b);
    assert two.log == [two.log[0], two.log[1]];
    assert Waiting(two.store, t) == {a, b};
    FirstOfTwo(two.store, two.log, t, a, b);
  }

  lemma {:induction false} LeasedOnce(x: Exec, e: Event)
    requires x.status == Pending && x.attempt == 0 && e.body == Leased("w") && e.attempt == 1
    ensures var y := Step(x, e);
            y.status == Running && y.attempt == 1 && y.worker == "w" && y.maxAttempts == x.maxAttempts
            && y.taskType == x.taskType
  {
  }

  /** After it fails it waits behind the second one. */
  lemma {:induction false} FirstIsRetried(cfg: Config, a: Spec, b: Spec, turn: Turn)
    returns (calls: seq<Call>, c: Coord)
    requires cfg.Valid() && turn.ok && a.key != b.key && a.taskType == b.taskType != "" && a.maxAttempts == 2
    ensures PossibleRun(Fresh(cfg, 0), calls) && c == After(Fresh(cfg, 0), calls)
    ensures a.key in Waiting(c.store, a.taskType) && b.key in Waiting(c.store, a.taskType)
    ensures |c.log| == 5 && c.log[0] == SubmitEvent(cfg, a, turn.at) && c.log[1] == SubmitEvent(cfg, b, turn.at)
    ensures c.log[4].body.Retry? && c.log[2].key == c.log[3].key == c.log[4].key == a.key
  {
    var calls3, c3 := FirstIsLeased(cfg, a, b, turn);
    KeysAreTheirOwn(cfg, calls3, a.key);
    var give := CGiveUp(a.key, "w", 1, "", true, turn, turn);
    calls := calls3 + [give];
    c := RetryOfTwo(c3, a.key, b.key, a.taskType, turn);
    RunMore(Fresh(cfg, 0), calls3, give);
  }

  lemma {:induction false} RetryOfTwo(c3: Coord, a: Key, b: Key, t: string, turn: Turn) returns (c: Coord)
    requires c3.store.retain == 0 && turn.ok && a != b && |c3.log| == 3 && c3.log[2].key == a
    requires Holds(c3.store, a, "w", 1) && c3.store.execs[a].maxAttempts == 2 && c3.store.execs[a].taskType == t
    requires c3.store.execs[a].key == a && !c3.store.execs[a].reserved && b in Waiting(c3.store, t)
    ensures c == Make(c3, CGiveUp(a, "w", 1, "", true, turn, turn))
    ensures a in Waiting(c.store, t) && b in Waiting(c.store, t)
    ensures |c.log| == 5 && c.log[0] == c3.log[0] && c.log[1] == c3.log[1] && c.log[2] == c3.log[2]
            && c.log[4].body.Retry? && c.log[3].key == a == c.log[4].key
  {
    var fail, retry, y;
    c, fail, retry, y := RetriedExecs(c3, a, "w", 1, turn);
  }

  lemma {:induction false} KeysAreTheirOwn(cfg: Config, calls: seq<Call>, k: Key)
    requires cfg.Valid() && PossibleRun(Fresh(cfg, 0), calls)
    ensures var s := After(Fresh(cfg, 0), calls).store;
            s.retain == 0 && (k in s.execs ==> s.execs[k].key == k && !s.execs[k].reserved)
  {
    RunSettles(cfg, 0, calls);
  }

  lemma {:induction false} SinceTwo(ea: Event, eb: Event, a: Key, b: Key)
    requires Founds(ea) && Founds(eb) && ea.key == a && eb.key == b && a != b
    ensures Since([ea, eb], a) == 0 && Since([ea, eb], b) == 1 && Born([ea, eb], a) == 0 && Born([ea, eb], b) == 1
  {
    assert [ea, eb][..1] == [ea] && [ea][..0] == [];
    assert Born([ea], a) == 0 && Born([ea], b) == -1 && Since([ea], a) == 0;
  }

  /** There is a run after which a rebuilt store hands out its work in another order than the live one. */
  lemma {:induction false} RebuildCanReorder(cfg: Config)
    requires cfg.Valid()
    ensures exists calls :: PossibleRun(Fresh(cfg, 0), calls)
              && WorkQueue(Replay(Store.Empty(0), After(Fresh(cfg, 0), calls).log), "t")
                 != WorkQueue(After(Fresh(cfg, 0), calls).store, "t")
  {
    var a, b, turn := Spec("a", "t", "", 2, 1), Spec("b", "t", "", 2, 1), Turn(0, true);
    var calls, c := FirstIsRetried(cfg, a, b, turn);
    RunSettles(cfg, 0, calls);
    WorkIsWhatIsPending(c.store, "t");
    RebuildKeepsOrderIff(cfg, calls, "t");
    LogOrder(c.log);
  }

  lemma {:induction false} LogOrder(log: seq<Event>)
    requires |log| == 5 && Founds(log[0]) && log[0].key == "a" && Founds(log[1]) && log[1].key == "b"
    requires log[4].body.Retry? && forall i :: 2 <= i < 5 ==> log[i].key == "a"
    ensures Since(log, "b") < Since(log, "a") && Born(log, "a") < Born(log, "b")
  {
    var l4, l3, l2 := log[..4], log[..3], log[..2];
    assert l4[..3] == l3 && l3[..2] == l2 && l2 == [log[0], log[1]];
    SinceTwo(log[0], log[1], "a", "b");
    assert Since(l3, "b") == 1 && Since(l4, "b") == 1;
    assert Born(l3, "a") == 0 && Born(l4, "a") == 0 && Born(l3, "b") == 1 && Born(l4, "b") == 1;
  }
}
