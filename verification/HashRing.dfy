/**
 The consistent-hash ring (internal/cluster/ring/ring.go), for any hash function: nothing is
 assumed about collisions.
 */
module HashRing {
  import opened Options

  type Hash = (string, nat) -> nat

  datatype Ring = Ring(owners: map<nat, string>, nodes: set<string>)

  // ---------------------------------------------------------------- the operations on values

  /** A node claims its first v positions, whoever had them. */
  function Claim(hash: Hash, node: string, v: nat, owners: map<nat, string>): map<nat, string> {
    if v == 0 then owners else Claim(hash, node, v - 1, owners)[hash(node, v - 1) := node]
  }

  function Added(hash: Hash, v: nat, r: Ring, node: string): Ring {
    if node in r.nodes then r else Ring(Claim(hash, node, v, r.owners), r.nodes + {node})
  }

  function Removed(r: Ring, node: string): Ring {
    if node !in r.nodes then r
    else Ring(map p | p in r.owners && r.owners[p] != node :: r.owners[p], r.nodes - {node})
  }

  ghost predicate WellOwned(r: Ring) {
    forall p :: p in r.owners ==> r.owners[p] in r.nodes
  }

  // ---------------------------------------------------------------- who leads a key

  /** Going up from the key and around, p is met no later than q. */
  predicate NoLater(key: nat, p: nat, q: nat) {
    if (p >= key) == (q >= key) then p <= q else p >= key
  }

  ghost predicate IsNext(ps: set<nat>, key: nat, p: nat) {
    p in ps && forall q :: q in ps ==> NoLater(key, p, q)
  }

  lemma {:induction false} NextExists(ps: set<nat>, key: nat) returns (p: nat)
    requires ps != {}
    ensures IsNext(ps, key, p)
    decreases |ps|
  {
    var first :| first in ps;
    var rest := ps - {first};
    if rest == {} {
      p := first;
    } else {
      var q := NextExists(rest, key);
      p := if NoLater(key, q, first) then q else first;
    }
    forall q | q in ps
      ensures NoLater(key, p, q)
    {
      assert q == first || q in rest;
    }
  }

  lemma {:induction false} NextIsUnique(ps: set<nat>, key: nat, p: nat, q: nat)
    requires IsNext(ps, key, p) && IsNext(ps, key, q)
    ensures p == q
  {
    assert NoLater(key, p, q) && NoLater(key, q, p);
  }

  /** The owner of the first position at or after the key, around the ring; nobody on an empty ring. */
  ghost function Leader(owners: map<nat, string>, key: nat): string {
    if owners == map[] then ""
    else
      SomeoneLeads(owners, key);
      var p :| Leads(owners, key, p);
      owners[p]
  }

  lemma {:induction false} SomeoneLeads(owners: map<nat, string>, key: nat)
    requires owners != map[]
    ensures exists p :: Leads(owners, key, p)
  {
    var p := NextExists(owners.Keys, key);
    assert Leads(owners, key, p);
  }

  ghost predicate Leads(owners: map<nat, string>, key: nat, p: nat) {
    p in owners && IsNext(owners.Keys, key, p)
  }

  lemma {:induction false} LeaderIs(owners: map<nat, string>, key: nat, p: nat)
    requires Leads(owners, key, p)
    ensures Leader(owners, key) == owners[p]
  {
    forall q | Leads(owners, key, q)
      ensures q == p
    {
      NextIsUnique(owners.Keys, key, p, q);
    }
  }

  /** The lowest position at or after the key decides; past the last position, the lowest of all. */
  lemma {:induction false} LeaderIsFirstAtOrAfter(owners: map<nat, string>, key: nat, p: nat)
    requires p in owners
    requires if key <= p then forall q :: q in owners && key <= q ==> p <= q
             else forall q :: q in owners ==> q < key && p <= q
    ensures Leader(owners, key) == owners[p]
  {
    assert Leads(owners, key, p);
    LeaderIs(owners, key, p);
  }

  // ---------------------------------------------------------------- the class

  ghost predicate StrictlySorted(s: seq<nat>) {
    forall i, j :: 0 <= i < j < |s| ==> s[i] < s[j]
  }

  ghost function Elements(s: seq<nat>): set<nat> {
    set p | p in s
  }

  /** Insertion into a sorted slice: what sort.Slice owes for the next position. */
  method Insert(s: seq<nat>, p: nat) returns (t: seq<nat>)
    requires StrictlySorted(s) && p !in s
    ensures StrictlySorted(t) && Elements(t) == Elements(s) + {p}
  {
    var i := 0;
    while i < |s| && s[i] < p
      invariant 0 <= i <= |s| && forall j :: 0 <= j < i ==> s[j] < p
    {
      i := i + 1;
    }
    assert i < |s| ==> s[i] in s && p < s[i];
    t := s[..i] + [p] + s[i..];
    Spliced(s, i, p, t);
  }

  lemma {:induction false} Spliced(s: seq<nat>, i: nat, p: nat, t: seq<nat>)
    requires StrictlySorted(s) && i <= |s| && t == s[..i] + [p] + s[i..]
    requires (forall j :: 0 <= j < i ==> s[j] < p) && (i < |s| ==> p < s[i])
    ensures StrictlySorted(t) && Elements(t) == Elements(s) + {p}
  {
    assert forall j :: i < j < |s| ==> s[i] < s[j];
    assert forall j :: 0 <= j < |t| ==> t[j] == if j < i then s[j] else if j == i then p else s[j - 1];
    forall q | q in s
      ensures q in t
    {
      var j :| 0 <= j < |s| && s[j] == q;
      assert t[if j < i then j else j + 1] == q;
    }
    assert t[i] == p;
  }

  class RingTable {
    const vnodes: nat
    var positions: seq<nat>
    var owners: map<nat, string>
    var nodes: set<string>

    ghost predicate Valid()
      reads this
    {
      StrictlySorted(positions) && Elements(positions) == owners.Keys && WellOwned(Value())
    }

    function Value(): Ring
      reads this
    {
      Ring(owners, nodes)
    }

    constructor (vnodes: int)
      ensures Valid() && Value() == Ring(map[], {})
      ensures this.vnodes == if vnodes <= 0 then 128 else vnodes
    {
      this.vnodes := if vnodes <= 0 then 128 else vnodes;
      positions, owners, nodes := [], map[], {};
    }

    method AddNode(hash: Hash, node: string)
      requires Valid()
      modifies this
      ensures Valid() && Value() == Added(hash, vnodes, old(Value()), node)
    {
      if node in nodes {
        return;
      }
      nodes := nodes + {node};
      for i := 0 to vnodes
        invariant owners == Claim(hash, node, i, old(owners)) && nodes == old(nodes) + {node}
        invariant WellOwned(Value())
      {
        var pos := hash(node, i);
        owners := owners[pos := node];
      }
      RebuildPositions();
    }

    method RemoveNode(node: string)
      requires Valid()
      modifies this
      ensures Valid() && Value() == Removed(old(Value()), node)
    {
      if node !in nodes {
        return;
      }
      nodes := nodes - {node};
      var todo := owners.Keys;
      while todo != {}
        invariant todo <= old(owners).Keys && nodes == old(nodes) - {node}
        invariant forall p :: p in owners ==> p in old(owners) && owners[p] == old(owners)[p]
        invariant forall p :: p in old(owners) ==> (p in owners <==> p in todo || old(owners)[p] != node)
        decreases |todo|
      {
        var p :| p in todo;
        todo := todo - {p};
        if owners[p] == node {
          owners := owners - {p};
        }
      }
      assert owners == Removed(old(Value()), node).owners;
      RebuildPositions();
    }

    method RebuildPositions()
      requires WellOwned(Value())
      modifies this`positions
      ensures Valid()
    {
      positions := [];
      var todo := owners.Keys;
      while todo != {}
        invariant StrictlySorted(positions) && Elements(positions) + todo == owners.Keys && Elements(positions) !! todo
        decreases |todo|
      {
        var p :| p in todo;
        todo := todo - {p};
        assert p !in Elements(positions);
        positions := Insert(positions, p);
      }
    }

    /** The binary search finds the leader that the ring's positions define. */
    method LeaderFor(hash: Hash, shard: nat) returns (leader: string)
      requires Valid()
      ensures leader == Leader(owners, hash("shard", shard))
    {
      if |positions| == 0 {
        assert owners.Keys == {};
        return "";
      }
      var key := hash("shard", shard);
      var lo, hi := 0, |positions|;
      while lo < hi
        invariant 0 <= lo <= hi <= |positions|
        invariant forall i :: 0 <= i < lo ==> positions[i] < key
        invariant forall i :: hi <= i < |positions| ==> positions[i] >= key
      {
        var mid := (lo + hi) / 2;
        if positions[mid] >= key {
          hi := mid;
        } else {
          lo := mid + 1;
        }
      }
      if lo == |positions| {
        lo := 0;
      }
      var p := positions[lo];
      assert p in Elements(positions);
      forall q | q in owners
        ensures NoLater(key, p, q)
      {
        assert q in Elements(positions);
      }
      LeaderIs(owners, key, p);
      leader := owners[p];
    }
  }

  // ---------------------------------------------------------------- minimal movement

  /** A leader that is still on the ring after positions are taken away still leads. */
  lemma {:induction false} LeaderStays(owners: map<nat, string>, fewer: map<nat, string>, key: nat, p: nat)
    requires Leads(owners, key, p) && p in fewer && fewer.Keys <= owners.Keys && fewer[p] == owners[p]
    ensures Leader(fewer, key) == Leader(owners, key)
  {
    LeaderIs(owners, key, p);
    assert Leads(fewer, key, p);
    LeaderIs(fewer, key, p);
  }

  /** Removing a node moves only the shards it led, and it leads none afterwards. */
  lemma {:induction false} RemoveMovesOnlyItsOwn(r: Ring, node: string, key: nat)
    requires WellOwned(r) && node in r.nodes
    ensures Leader(r.owners, key) != node ==> Leader(Removed(r, node).owners, key) == Leader(r.owners, key)
    ensures node != "" ==> Leader(Removed(r, node).owners, key) != node
  {
    var fewer := Removed(r, node).owners;
    if r.owners != map[] {
      var p := NextExists(r.owners.Keys, key);
      assert Leads(r.owners, key, p);
      LeaderIs(r.owners, key, p);
      if r.owners[p] != node {
        LeaderStays(r.owners, fewer, key, p);
      }
    }
    if fewer != map[] {
      var q := NextExists(fewer.Keys, key);
      LeaderIs(fewer, key, q);
    }
  }

  lemma {:induction false} ClaimOwns(hash: Hash, node: string, v: nat, owners: map<nat, string>, p: nat)
    ensures p in Claim(hash, node, v, owners) <==> p in owners || exists i :: 0 <= i < v && hash(node, i) == p
    ensures p in Claim(hash, node, v, owners) ==>
      Claim(hash, node, v, owners)[p] == if exists i :: 0 <= i < v && hash(node, i) == p then node else owners[p]
  {
    if v != 0 {
      ClaimOwns(hash, node, v - 1, owners, p);
      if i :| 0 <= i < v - 1 && hash(node, i) == p {
        assert 0 <= i < v && hash(node, i) == p;
      }
      if hash(node, v - 1) == p {
        assert 0 <= v - 1 < v;
      }
    }
  }

  /** Adding a node moves shards only to it. */
  lemma {:induction false} AddMovesOnlyToIt(hash: Hash, v: nat, r: Ring, node: string, key: nat)
    requires WellOwned(r) && node !in r.nodes
    ensures var now := Leader(Added(hash, v, r, node).owners, key);
            now == Leader(r.owners, key) || now == node
  {
    var more := Added(hash, v, r, node).owners;
    if more != map[] {
      var p := NextExists(more.Keys, key);
      LeaderIs(more, key, p);
      forall q
        ensures q in r.owners ==> q in more
        ensures q in more && more[q] != node ==> q in r.owners && r.owners[q] == more[q]
      {
        ClaimOwns(hash, node, v, r.owners, q);
      }
      if more[p] != node {
        assert Leads(r.owners, key, p);
        LeaderIs(r.owners, key, p);
      }
    } else {
      forall q
        ensures q !in r.owners
      {
        ClaimOwns(hash, node, v, r.owners, q);
      }
    }
  }

  // ---------------------------------------------------------------- registered leaders, whole histories

  datatype Op = Add(node: string) | Remove(node: string)

  function After(hash: Hash, v: nat, ops: seq<Op>): Ring {
    if ops == [] then Ring(map[], {})
    else
      var r := After(hash, v, ops[..|ops| - 1]);
      match ops[|ops| - 1]
      case Add(node) => Added(hash, v, r, node)
      case Remove(node) => Removed(r, node)
  }

  lemma {:induction false} AddKeepsOwned(hash: Hash, v: nat, r: Ring, node: string)
    requires WellOwned(r)
    ensures WellOwned(Added(hash, v, r, node))
  {
    forall p
      ensures p in Claim(hash, node, v, r.owners) && Claim(hash, node, v, r.owners)[p] != node ==>
        p in r.owners && r.owners[p] == Claim(hash, node, v, r.owners)[p]
    {
      ClaimOwns(hash, node, v, r.owners, p);
    }
  }

  /** Whatever joined and left, a shard is led by nobody or by a node that is registered. */
  lemma {:induction false} LeaderIsRegistered(hash: Hash, v: nat, ops: seq<Op>, key: nat)
    ensures var r := After(hash, v, ops);
            WellOwned(r) && (Leader(r.owners, key) == "" || Leader(r.owners, key) in r.nodes)
  {
    AfterIsOwned(hash, v, ops);
    var owners := After(hash, v, ops).owners;
    if owners != map[] {
      var p := NextExists(owners.Keys, key);
      LeaderIs(owners, key, p);
    }
  }

  lemma {:induction false} AfterIsOwned(hash: Hash, v: nat, ops: seq<Op>)
    ensures WellOwned(After(hash, v, ops))
  {
    if ops != [] {
      AfterIsOwned(hash, v, ops[..|ops| - 1]);
      if ops[|ops| - 1].Add? {
        AddKeepsOwned(hash, v, After(hash, v, ops[..|ops| - 1]), ops[|ops| - 1].node);
      }
    }
  }

  /** p is one of the positions of the node. */
  ghost predicate Position(hash: Hash, v: nat, node: string, p: nat) {
    exists i :: 0 <= i < v && hash(node, i) == p
  }

  ghost predicate Collide(hash: Hash, v: nat, a: string, b: string) {
    exists p :: Position(hash, v, a, p) && Position(hash, v, b, p)
  }

  lemma {:induction false} Claims(hash: Hash, v: nat, node: string, owners: map<nat, string>, p: nat)
    ensures p in Claim(hash, node, v, owners) <==> p in owners || Position(hash, v, node, p)
    ensures p in Claim(hash, node, v, owners) ==>
            Claim(hash, node, v, owners)[p] == if Position(hash, v, node, p) then node else owners[p]
  {
    ClaimOwns(hash, node, v, owners, p);
  }

  /** Two nodes may join in either order exactly when none of their positions collide. */
  lemma {:induction false} JoinsCommuteIff(hash: Hash, v: nat, r: Ring, a: string, b: string)
    requires a != b && a !in r.nodes && b !in r.nodes
    ensures Added(hash, v, Added(hash, v, r, a), b) == Added(hash, v, Added(hash, v, r, b), a) <==>
            !Collide(hash, v, a, b)
  {
    var ab, ba := Added(hash, v, Added(hash, v, r, a), b), Added(hash, v, Added(hash, v, r, b), a);
    forall p
      ensures p in ab.owners <==> p in ba.owners
      ensures p in ab.owners ==>
              (ab.owners[p] == ba.owners[p] <==> !(Position(hash, v, a, p) && Position(hash, v, b, p)))
      ensures Position(hash, v, a, p) ==> p in ab.owners
    {
      Claims(hash, v, a, r.owners, p);
      Claims(hash, v, b, r.owners, p);
      Claims(hash, v, b, Claim(hash, a, v, r.owners), p);
      Claims(hash, v, a, Claim(hash, b, v, r.owners), p);
    }
    assert ab.nodes == ba.nodes;
    if !Collide(hash, v, a, b) {
      assert ab.owners == ba.owners;
    } else {
      var p :| Position(hash, v, a, p) && Position(hash, v, b, p);
      assert ab.owners[p] != ba.owners[p];
    }
  }

  /** Leaving undoes joining exactly when the node took no position from another. */
  lemma {:induction false} LeavingUndoesJoiningIff(hash: Hash, v: nat, r: Ring, node: string)
    requires WellOwned(r) && node !in r.nodes
    ensures Removed(Added(hash, v, r, node), node) == r <==> forall p :: p in r.owners ==> !Position(hash, v, node, p)
  {
    var back := Removed(Added(hash, v, r, node), node);
    forall p
      ensures p in back.owners <==> p in r.owners && !Position(hash, v, node, p)
      ensures p in back.owners ==> back.owners[p] == r.owners[p]
    {
      Claims(hash, v, node, r.owners, p);
    }
    assert back.nodes == r.nodes;
    if forall p :: p in r.owners ==> !Position(hash, v, node, p) {
      assert back.owners == r.owners;
    } else {
      var p :| p in r.owners && Position(hash, v, node, p);
      assert p !in back.owners;
    }
  }

  // ---------------------------------------------------------------- routing depends on the members alone

  ghost predicate NoCollisions(hash: Hash, v: nat, ops: seq<Op>) {
    forall i, j :: 0 <= i < |ops| && 0 <= j < |ops| && ops[i].node != ops[j].node ==>
      !Collide(hash, v, ops[i].node, ops[j].node)
  }

  /** Each position is owned by the member whose position it is, and each member has all of its own. */
  ghost predicate Ideal(hash: Hash, v: nat, r: Ring) {
    && (forall p :: p in r.owners ==> r.owners[p] in r.nodes && Position(hash, v, r.owners[p], p))
    && (forall n, p :: n in r.nodes && Position(hash, v, n, p) ==> p in r.owners && r.owners[p] == n)
  }

  lemma {:induction false} IdealAfter(hash: Hash, v: nat, ops: seq<Op>)
    requires NoCollisions(hash, v, ops)
    ensures Ideal(hash, v, After(hash, v, ops))
    ensures forall n :: n in After(hash, v, ops).nodes ==> exists i :: 0 <= i < |ops| && ops[i].node == n
  {
    if ops != [] {
      var less, op := ops[..|ops| - 1], ops[|ops| - 1];
      IdealAfter(hash, v, less);
      var r := After(hash, v, less);
      match op
      case Add(node) =>
        if node !in r.nodes {
          forall n | n in r.nodes
            ensures !Collide(hash, v, n, node)
          {
            var i :| 0 <= i < |less| && less[i].node == n;
            assert ops[i].node == n && ops[|ops| - 1].node == node;
          }
          IdealAdd(hash, v, r, node);
        }
      case Remove(node) => IdealRemove(hash, v, r, node);
      MembersWereAdded(hash, v, ops);
    }
  }

  lemma {:induction false} MembersWereAdded(hash: Hash, v: nat, ops: seq<Op>)
    ensures forall n :: n in After(hash, v, ops).nodes ==> exists i :: 0 <= i < |ops| && ops[i].node == n
  {
    if ops != [] {
      var less := ops[..|ops| - 1];
      MembersWereAdded(hash, v, less);
      forall n | n in After(hash, v, ops).nodes
        ensures exists i :: 0 <= i < |ops| && ops[i].node == n
      {
        if n in After(hash, v, less).nodes {
          var i :| 0 <= i < |less| && less[i].node == n;
          assert ops[i].node == n;
        } else {
          assert ops[|ops| - 1].node == n;
        }
      }
    }
  }

  lemma {:induction false} IdealAdd(hash: Hash, v: nat, r: Ring, node: string)
    requires Ideal(hash, v, r) && node !in r.nodes && forall n :: n in r.nodes ==> !Collide(hash, v, n, node)
    ensures Ideal(hash, v, Added(hash, v, r, node))
  {
    var more := Added(hash, v, r, node);
    forall p
      ensures p in more.owners <==> p in r.owners || Position(hash, v, node, p)
      ensures p in more.owners ==> more.owners[p] == if Position(hash, v, node, p) then node else r.owners[p]
    {
      Claims(hash, v, node, r.owners, p);
    }
    forall n, p | n in more.nodes && Position(hash, v, n, p)
      ensures p in more.owners && more.owners[p] == n
    {
      if n != node {
        assert !Collide(hash, v, n, node);
      }
    }
  }

  lemma {:induction false} IdealRemove(hash: Hash, v: nat, r: Ring, node: string)
    requires Ideal(hash, v, r)
    ensures Ideal(hash, v, Removed(r, node))
  {
  }

  /**
   While no two nodes collide, the ring is a function of its members: the order in which they
   joined, and who came and went in between, do not matter.
   */
  lemma {:induction false} MembersDecide(hash: Hash, v: nat, ops: seq<Op>, other: seq<Op>)
    requires NoCollisions(hash, v, ops) && NoCollisions(hash, v, other)
    requires After(hash, v, ops).nodes == After(hash, v, other).nodes
    ensures After(hash, v, ops) == After(hash, v, other)
  {
    IdealAfter(hash, v, ops);
    IdealAfter(hash, v, other);
    IdealIsUnique(hash, v, After(hash, v, ops), After(hash, v, other));
  }

  lemma {:induction false} IdealIsUnique(hash: Hash, v: nat, r: Ring, s: Ring)
    requires Ideal(hash, v, r) && Ideal(hash, v, s) && r.nodes == s.nodes
    ensures r == s
  {
    assert r.owners == s.owners;
  }

  // ---------------------------------------------------------------- who owns a position, collisions included

  /** The last node that claimed a position: one that joined, was not a member yet, and has it. */
  ghost function LastClaimer(hash: Hash, v: nat, ops: seq<Op>, p: nat): Option<string> {
    if ops == [] then None
    else
      var less, op := ops[..|ops| - 1], ops[|ops| - 1];
      if op.Add? && op.node !in After(hash, v, less).nodes && Position(hash, v, op.node, p) then Some(op.node)
      else LastClaimer(hash, v, less, p)
  }

  /** The last to claim a position is still a member. */
  ghost predicate Held(hash: Hash, v: nat, ops: seq<Op>, p: nat) {
    var last := LastClaimer(hash, v, ops, p);
    last.Some? && last.value in After(hash, v, ops).nodes
  }

  lemma {:induction false} ClaimerHasIt(hash: Hash, v: nat, ops: seq<Op>, p: nat)
    ensures var last := LastClaimer(hash, v, ops, p);
            last.Some? ==> Position(hash, v, last.value, p)
  {
    if ops != [] {
      ClaimerHasIt(hash, v, ops[..|ops| - 1], p);
    }
  }

  /** After any history, a position is on the ring exactly when the last to claim it is a member, and then is theirs. */
  lemma {:induction false} OwnedIff(hash: Hash, v: nat, ops: seq<Op>, p: nat)
    ensures var owners := After(hash, v, ops).owners;
            && (p in owners <==> Held(hash, v, ops, p))
            && (p in owners ==> owners[p] == LastClaimer(hash, v, ops, p).value)
  {
    if ops != [] {
      var less, op := ops[..|ops| - 1], ops[|ops| - 1];
      OwnedIff(hash, v, less, p);
      AfterIsOwned(hash, v, less);
      if op.Add? {
        Claims(hash, v, op.node, After(hash, v, less).owners, p);
      }
      ClaimerHasIt(hash, v, less, p);
    }
  }

  /** Each position of a member was claimed when it joined. */
  lemma {:induction false} MembersClaimed(hash: Hash, v: nat, ops: seq<Op>, node: string, p: nat)
    requires node in After(hash, v, ops).nodes && Position(hash, v, node, p)
    ensures LastClaimer(hash, v, ops, p).Some?
  {
    if ops != [] {
      var less := ops[..|ops| - 1];
      if node in After(hash, v, less).nodes {
        MembersClaimed(hash, v, less, node, p);
      }
    }
  }

  /** Every position of every member was later claimed by a node that has left since. */
  ghost predicate AllTaken(hash: Hash, v: nat, ops: seq<Op>) {
    forall n, p :: n in After(hash, v, ops).nodes && Position(hash, v, n, p) ==>
      LastClaimer(hash, v, ops, p).Some? && LastClaimer(hash, v, ops, p).value !in After(hash, v, ops).nodes
  }

  lemma {:induction false} EmptyIff(hash: Hash, v: nat, ops: seq<Op>)
    ensures After(hash, v, ops).owners == map[] <==> AllTaken(hash, v, ops)
  {
    var r := After(hash, v, ops);
    forall n, p | n in r.nodes && Position(hash, v, n, p)
      ensures LastClaimer(hash, v, ops, p).Some?
      ensures LastClaimer(hash, v, ops, p).value in r.nodes <==> p in r.owners
    {
      MembersClaimed(hash, v, ops, n, p);
      OwnedIff(hash, v, ops, p);
    }
    forall p | p in r.owners
      ensures r.owners[p] in r.nodes && Position(hash, v, r.owners[p], p)
    {
      OwnedIff(hash, v, ops, p);
      ClaimerHasIt(hash, v, ops, p);
    }
  }

  /**
   After any history, collisions included, nobody leads exactly when every position of every
   member was claimed from it by a node that has left since.
   */
  lemma {:induction false} NobodyLeadsIff(hash: Hash, v: nat, ops: seq<Op>, key: nat)
    requires "" !in After(hash, v, ops).nodes
    ensures Leader(After(hash, v, ops).owners, key) == "" <==> AllTaken(hash, v, ops)
  {
    var r := After(hash, v, ops);
    EmptyIff(hash, v, ops);
    AfterIsOwned(hash, v, ops);
    if r.owners != map[] {
      var p := NextExists(r.owners.Keys, key);
      LeaderIs(r.owners, key, p);
    }
  }

  /** With a collision it can: b takes the position of a and leaves with it, and a is registered but leads nothing. */
  lemma {:induction false} MembersCanLeadNothing(hash: Hash, a: string, b: string, key: nat)
    requires a != b && hash(a, 0) == hash(b, 0)
    ensures var r := After(hash, 1, [Add(a), Add(b), Remove(b)]);
            r.nodes == {a} && Leader(r.owners, key) == ""
  {
    var p := hash(a, 0);
    var ops := [Add(a), Add(b), Remove(b)];
    assert ops[..2] == [Add(a), Add(b)] && ops[..2][..1] == [Add(a)] && ops[..1][..0] == [];
    assert After(hash, 1, [Add(a)]) == Ring(map[p := a], {a}) by {
      assert Claim(hash, a, 0, map[]) == map[];
      assert [Add(a)][..0] == [];
    }
    assert After(hash, 1, [Add(a), Add(b)]) == Ring(map[p := b], {a, b}) by {
      assert Claim(hash, b, 0, map[p := a]) == map[p := a];
      assert map[p := a][p := b] == map[p := b];
      assert [Add(a), Add(b)][..1] == [Add(a)];
    }
    assert After(hash, 1, ops).owners == map[];
  }
}
