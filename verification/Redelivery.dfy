/**
 Redelivery of a whole log to the store that already folded it (internal/workflow/state.go and
 internal/workflow/store.go): when it is harmless, and when it reopens work.
 */
module Redelivery {
  import opened Fold
  import opened Store
  import opened Options

  /** An event no state ever takes. */
  predicate Void(e: Event) {
    e.body.Unusable? || (e.body.Submitted? && !Founds(e))
  }

  /** Every event of the log that can be taken was taken when it was folded. */
  predicate AllTaken(es: seq<Event>) {
    es == [] || (AllTaken(es[..|es| - 1])
                 && (Void(es[|es| - 1]) || Changes(Replay(Empty(0), es[..|es| - 1]), es[|es| - 1])))
  }

  function Project(es: seq<Event>, k: Key): seq<Event> {
    if es == [] then []
    else if es[|es| - 1].key == k then Project(es[..|es| - 1], k) + [es[|es| - 1]]
    else Project(es[..|es| - 1], k)
  }

  /** The submit that founded an execution and the events it took afterwards. */
  datatype Life = Life(founder: Event, rest: seq<Event>)

  function LifeOf(es: seq<Event>, k: Key): Option<Life> {
    if es == [] then None
    else
      var before, e := LifeOf(es[..|es| - 1], k), es[|es| - 1];
      if e.key != k || Void(e) then before
      else if before.Some? then Some(Life(before.value.founder, before.value.rest + [e]))
      else if Founds(e) then Some(Life(e, [])) else None
  }

  lemma {:induction false} LifeFolds(es: seq<Event>, k: Key)
    requires AllTaken(es)
    ensures var life, x := LifeOf(es, k), ExecOf(es, k);
            && (life.None? <==> x.None?)
            && (life.Some? ==>
                  && Founds(life.value.founder)
                  && AllAccepted(NewExec(life.value.founder), life.value.rest)
                  && x.value == FoldAll(NewExec(life.value.founder), life.value.rest))
  {
    if es != [] {
      var init, e := es[..|es| - 1], es[|es| - 1];
      LifeFolds(init, k);
      ReplayIsPointwise(0, init);
      var before := LifeOf(init, k);
      if e.key == k && before.Some? && !Void(e) {
        var x0, rest := NewExec(before.value.founder), before.value.rest;
        assert (rest + [e])[..|rest|] == rest;
        assert Accepts(FoldAll(x0, rest), e);
      }
    }
  }

  /** Redelivery of the events of one key: those outside its life are not taken. */
  lemma {:induction false} ProjectRefolds(x: Exec, es: seq<Event>, k: Key)
    requires AllTaken(es)
    ensures FoldAll(x, Project(es, k)) == FoldAll(x, if LifeOf(es, k).Some? then LifeOf(es, k).value.rest else [])
  {
    if es != [] {
      var init, e := es[..|es| - 1], es[|es| - 1];
      ProjectRefolds(x, init, k);
      var life := LifeOf(init, k);
      FoldSnoc(x, Project(init, k), e);
      if life.Some? {
        FoldSnoc(x, life.value.rest, e);
      } else if e.key == k && !Void(e) {
        LifeFolds(init, k);
        ReplayIsPointwise(0, init);
        assert e.body.Submitted?;
      }
    }
  }

  lemma {:induction false} ApplyOver(r: State, e: Event, k: Key)
    requires r.retain <= 0
    requires Founds(e) ==> e.key in r.execs
    ensures Apply(r, e).retain == r.retain
    ensures Apply(r, e).execs.Keys == r.execs.Keys
    ensures k in r.execs ==> Apply(r, e).execs[k] == (if k == e.key then Step(r.execs[k], e) else r.execs[k])
  {
    if Changes(r, e) {
      PutStores(r, e.key, Step(r.execs[e.key], e));
    }
  }

  lemma {:induction false} ReplayOver(s: State, es: seq<Event>, k: Key)
    requires s.retain <= 0
    requires forall i :: 0 <= i < |es| && Founds(es[i]) ==> es[i].key in s.execs
    ensures Replay(s, es).retain == s.retain
    ensures Replay(s, es).execs.Keys == s.execs.Keys
    ensures k in s.execs ==> Replay(s, es).execs[k] == FoldAll(s.execs[k], Project(es, k))
  {
    if es != [] {
      var init, e := es[..|es| - 1], es[|es| - 1];
      ReplayOver(s, init, k);
      ApplyOver(Replay(s, init), e, k);
      if k in s.execs {
        FoldSnoc(s.execs[k], Project(init, k), e);
      }
    }
  }

  lemma {:induction false} FoundersAreStored(es: seq<Event>, i: nat)
    requires i < |es| && Founds(es[i])
    ensures es[i].key in Replay(Empty(0), es).execs
  {
    ReplayIsPointwise(0, es);
    FoundersAreFolded(es, i);
  }

  lemma {:induction false} FoundersAreFolded(es: seq<Event>, i: nat)
    requires i < |es| && Founds(es[i])
    ensures ExecOf(es, es[i].key).Some?
  {
    if i < |es| - 1 {
      FoundersAreFolded(es[..|es| - 1], i);
    }
  }

  lemma {:induction false} RedeliveryPerKey(es: seq<Event>, k: Key)
    requires AllTaken(es)
    requires k in Replay(Empty(0), es).execs
    ensures var x := Replay(Empty(0), es).execs[k];
            FoldAll(x, Project(es, k)) == x <==> SafeToRefold(x)
  {
    ReplayIsPointwise(0, es);
    LifeFolds(es, k);
    var life := LifeOf(es, k).value;
    ProjectRefolds(Replay(Empty(0), es).execs[k], es, k);
    RefoldIsHarmlessIff(life.founder, life.rest);
  }

  /**
   Folding a whole log again over the store it built leaves every execution as it was exactly when
   none of them is running or retrying on a second or later attempt.
   */
  lemma {:induction false} RedeliveryIsHarmlessIff(es: seq<Event>)
    requires AllTaken(es)
    ensures var s := Replay(Empty(0), es);
            Replay(s, es).execs == s.execs <==> forall k :: k in s.execs ==> SafeToRefold(s.execs[k])
  {
    var s := Replay(Empty(0), es);
    ReplayIsPointwise(0, es);
    forall i | 0 <= i < |es| && Founds(es[i])
      ensures es[i].key in s.execs
    {
      FoundersAreStored(es, i);
    }
    ReplayOver(s, es, "");
    forall k | k in s.execs
      ensures Replay(s, es).execs[k] == s.execs[k] <==> SafeToRefold(s.execs[k])
    {
      ReplayOver(s, es, k);
      RedeliveryPerKey(es, k);
    }
  }
}
