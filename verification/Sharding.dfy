/** Which pod scans which shards of the active set, which consumer instance reads which partitions. */
module Sharding {
  import Fnv

  /** The members of s whose remainder by total is index, in order. */
  function WithRemainder(s: seq<nat>, total: nat, index: int): seq<nat>
    requires total > 0
  {
    if s == [] then []
    else
      var last := s[|s| - 1];
      WithRemainder(s[..|s| - 1], total, index) + (if last % total == index then [last] else [])
  }

  function UpTo(n: nat): seq<nat> {
    seq(n, i requires 0 <= i < n => i)
  }

  /** calcPodSetShards. */
  function Own(index: int, total: int, setShards: int): seq<nat> {
    if setShards <= 0 then [] else if total <= 1 then UpTo(setShards) else WithRemainder(UpTo(setShards), total, index)
  }

  function SessionSetShard(user: seq<bv8>, setShards: int): nat {
    if setShards <= 0 then 0 else Fnv.Slot(user, setShards)
  }

  /** ownsSetShard; shards are not negative, so the remainder needs no truncation rule. */
  predicate OwnsSetShard(shard: nat, index: int, total: int) {
    total <= 1 || shard % total == index
  }

  /** The dead pods among the first n, in order, each with all its shards. */
  function DeadShards(n: nat, total: int, setShards: int, alive: set<int>): seq<nat> {
    if n == 0 then []
    else DeadShards(n - 1, total, setShards, alive) + if n - 1 in alive then [] else Own(n - 1, total, setShards)
  }

  /** ComputeOwnedShards. */
  function Owned(index: int, total: int, setShards: int, alive: set<int>, leader: bool): seq<nat> {
    Own(index, total, setShards) + if leader && total > 0 then DeadShards(total, total, setShards, alive) else []
  }

  ghost predicate NoDuplicates(s: seq<nat>) {
    forall i, j :: 0 <= i < j < |s| ==> s[i] != s[j]
  }

  // ---------- own lists ----------

  lemma {:induction false} RemainderMembers(s: seq<nat>, total: nat, index: int)
    requires total > 0
    ensures forall x: nat :: x in WithRemainder(s, total, index) <==> x in s && x % total == index
    ensures NoDuplicates(s) ==> NoDuplicates(WithRemainder(s, total, index))
  {
    if s != [] {
      var init := s[..|s| - 1];
      RemainderMembers(init, total, index);
      assert s == init + [s[|s| - 1]];
      assert NoDuplicates(s) ==> NoDuplicates(init) && s[|s| - 1] !in init;
    }
  }

  lemma OwnMembers(index: int, total: int, setShards: int)
    ensures forall x: nat :: x in Own(index, total, setShards) <==> x < setShards && OwnsSetShard(x, index, total)
    ensures NoDuplicates(Own(index, total, setShards))
  {
    if setShards > 0 {
      var all := UpTo(setShards);
      forall x: nat ensures x in all <==> x < setShards {
        if x < setShards { assert all[x] == x; }
      }
      if total > 1 {
        RemainderMembers(all, total, index);
      }
    }
  }

  /** Every shard is on exactly one pod's own list, and there once; a list holds nothing but shards. */
  lemma OwnListsPartitionTheShards(total: int, setShards: int, shard: nat)
    requires total >= 1 && shard < setShards
    ensures exists index: nat :: index < total && shard in Own(index, total, setShards)
    ensures forall i, j ::
      0 <= i < total && 0 <= j < total && shard in Own(i, total, setShards) && shard in Own(j, total, setShards) ==> i == j
    ensures forall i :: NoDuplicates(Own(i, total, setShards)) && forall x: nat :: x in Own(i, total, setShards) ==> x < setShards
  {
    forall i ensures NoDuplicates(Own(i, total, setShards))
             ensures forall x: nat :: x in Own(i, total, setShards) <==> x < setShards && OwnsSetShard(x, i, total) {
      OwnMembers(i, total, setShards);
    }
    assert shard in Own(shard % total, total, setShards);
  }

  /** Two users of sixteen shards: "a" is on shard 12, "foobar" on shard 8. */
  lemma KnownShards()
    ensures SessionSetShard([0x61], 16) == 12
    ensures SessionSetShard([0x66, 0x6f, 0x6f, 0x62, 0x61, 0x72], 16) == 8
  {
    Fnv.PublishedValues();
  }

  /**
   A pod accepts an expiry event exactly when the user's shard is on its own list, for all users,
   indices and totals; the one exception is a shard count of zero or less, where lists are empty and
   the first pod, or every pod of an unsharded service, still lets events pass.
   */
  lemma FilterAgreesWithListIff(user: seq<bv8>, index: nat, total: int, setShards: int)
    ensures (OwnsSetShard(SessionSetShard(user, setShards), index, total)
             <==> SessionSetShard(user, setShards) in Own(index, total, setShards))
        <==> setShards > 0 || (total > 1 && index != 0)
  {
    OwnMembers(index, total, setShards);
  }

  // ---------- takeover by the leader ----------

  /** x is a shard of a pod below n that is not alive. */
  ghost predicate OfDead(x: nat, n: nat, total: int, setShards: int, alive: set<int>) {
    x < setShards && exists d: nat :: d < n && d !in alive && OwnsSetShard(x, d, total)
  }

  lemma {:induction false} DeadMembers(n: nat, total: int, setShards: int, alive: set<int>)
    requires n <= total
    ensures forall x: nat :: x in DeadShards(n, total, setShards, alive) <==> OfDead(x, n, total, setShards, alive)
    ensures NoDuplicates(DeadShards(n, total, setShards, alive))
  {
    if n > 0 {
      var d := n - 1;
      var before, own := DeadShards(d, total, setShards, alive), Own(d, total, setShards);
      DeadMembers(d, total, setShards, alive);
      OwnMembers(d, total, setShards);
      forall x: nat ensures OfDead(x, n, total, setShards, alive) <==>
                            OfDead(x, d, total, setShards, alive) || (d !in alive && x in own) {
        OneMoreDead(x, d, total, setShards, alive);
      }
      hide Own, OfDead;
      if d !in alive {
        forall x: nat | x in before ensures x !in own {
          OneOwner(x, d, total, setShards, alive);
        }
        NoDuplicatesConcat(before, own);
      }
    }
  }

  lemma OneMoreDead(x: nat, d: nat, total: int, setShards: int, alive: set<int>)
    ensures OfDead(x, d + 1, total, setShards, alive) <==>
            OfDead(x, d, total, setShards, alive) || (d !in alive && x < setShards && OwnsSetShard(x, d, total))
  {
    hide OwnsSetShard;
  }

  lemma OneOwner(x: nat, d: nat, total: int, setShards: int, alive: set<int>)
    requires d < total && OfDead(x, d, total, setShards, alive)
    ensures !OwnsSetShard(x, d, total)
  {
  }

  lemma NoDuplicatesConcat(a: seq<nat>, b: seq<nat>)
    requires NoDuplicates(a) && NoDuplicates(b)
    ensures NoDuplicates(a + b) <==> forall x: nat :: x in a ==> x !in b
  {
    if forall x: nat :: x in a ==> x !in b {
      assert forall i :: 0 <= i < |a| ==> a[i] in a;
      assert forall j :: 0 <= j < |b| ==> b[j] in b;
    } else {
      var x: nat :| x in a && x in b;
      var i :| 0 <= i < |a| && a[i] == x;
      var j :| 0 <= j < |b| && b[j] == x;
      assert (a + b)[i] == (a + b)[|a| + j];
    }
  }

  /** The pod number whose dead list would repeat what this pod owns: with one pod in all, everyone owns everything. */
  function Twin(index: int, total: int): int {
    if total == 1 then 0 else index
  }

  /**
   A leader's list names no shard twice exactly when there is no dead pod to repeat its own shards,
   whatever its index: after a scale-in that may lie at or above the total.
   */
  lemma LeaderListHasNoDuplicatesIff(index: int, total: int, setShards: int, alive: set<int>)
    ensures NoDuplicates(Owned(index, total, setShards, alive, true))
       <==> total <= 0 || Twin(index, total) in alive || Own(index, total, setShards) == []
  {
    OwnMembers(index, total, setShards);
    if total > 0 {
      DeadMembers(total, total, setShards, alive);
      var own, dead := Own(index, total, setShards), DeadShards(total, total, setShards, alive);
      if own != [] {
        assert own[0] in own;
        if Twin(index, total) !in alive {
          FirstIsOfDead(index, total, setShards, alive, own[0]);
        }
      }
      forall x: nat | x in own && x in dead ensures Twin(index, total) !in alive {
        OwnerIsTwin(index, total, setShards, alive, x);
      }
      hide Own, DeadShards, OwnsSetShard, NoDuplicates, OfDead;
      NoDuplicatesConcat(own, dead);
    }
  }

  lemma FirstIsOfDead(index: int, total: int, setShards: int, alive: set<int>, x: nat)
    requires total > 0 && x < setShards && OwnsSetShard(x, index, total) && Twin(index, total) !in alive
    ensures OfDead(x, total, total, setShards, alive)
  {
    assert total > 1 ==> x % total == index;
    var d: nat := Twin(index, total);
    assert d < total && d !in alive && OwnsSetShard(x, d, total);
  }

  lemma OwnerIsTwin(index: int, total: int, setShards: int, alive: set<int>, x: nat)
    requires total > 0 && OwnsSetShard(x, index, total) && OfDead(x, total, total, setShards, alive)
    ensures Twin(index, total) !in alive
  {
  }

  /**
   A shard is on the leader's list or on another alive pod's own list but not on both, nor on two
   others: for every shard, unless there is one pod in all and the leader is not it.
   */
  lemma LeaderAndAlivePodsCoverOnceIff(index: nat, total: int, setShards: int, alive: set<int>, shard: nat)
    requires total >= 1 && shard < setShards
    ensures (shard in Owned(index, total, setShards, alive, true)
             <==> !exists d: nat :: d < total && d != index && d in alive && shard in Own(d, total, setShards))
        <==> total > 1 || index == 0 || 0 !in alive
    ensures forall d, e ::
      0 <= d < total && 0 <= e < total && shard in Own(d, total, setShards) && shard in Own(e, total, setShards) ==> d == e
  {
    forall d ensures forall x: nat :: x in Own(d, total, setShards) <==> x < setShards && OwnsSetShard(x, d, total) {
      OwnMembers(d, total, setShards);
    }
    DeadMembers(total, total, setShards, alive);
    var d: nat := shard % total;
    assert OwnsSetShard(shard, d, total);
    hide Own, DeadShards;
    assert shard in Own(d, total, setShards);
    assert OfDead(shard, total, total, setShards, alive) <==> d !in alive;
  }

  /** A pod's list holds its own shards, and for a leader those whose pod is dead; a follower's holds nothing else. */
  lemma OwnedMembers(index: int, total: int, setShards: int, alive: set<int>, leader: bool, x: nat)
    requires total > 0
    ensures x in Owned(index, total, setShards, alive, leader)
       <==> x < setShards && (total == 1 || x % total == index || (leader && x % total !in alive))
  {
    OwnMembers(index, total, setShards);
    DeadMembers(total, total, setShards, alive);
    var owner: nat := x % total;
    assert OwnsSetShard(x, owner, total);
    assert OfDead(x, total, total, setShards, alive) <==> x < setShards && owner !in alive;
    hide Own, DeadShards, OfDead;
  }

  // ---------- reconciling ----------

  /** The alive set of one reconcile round after the first: seen before and present now, and the pod itself. */
  function AliveNow(index: int, total: int, seen: set<int>, now: set<int>): set<int> {
    (set d | d in seen && d in now && 0 <= d < total) + {index}
  }

  /** What the documentation promises to take over: pods seen alive before and gone now. */
  predicate SeenAndGone(d: int, index: int, seen: set<int>, now: set<int>) {
    d != index && d in seen && d !in now
  }

  predicate TakenOver(d: int, index: int, total: int, seen: set<int>, now: set<int>) {
    d !in AliveNow(index, total, seen, now)
  }

  /**
   The code takes over exactly the pods the documentation names if and only if every other pod
   has been seen alive before this round; one that is only starting up is taken over as well.
   */
  lemma TakesOverAsDocumentedIff(index: nat, total: nat, seen: set<int>, now: set<int>)
    ensures (forall d: nat :: d < total ==> (TakenOver(d, index, total, seen, now) <==> SeenAndGone(d, index, seen, now)))
       <==> forall d: nat :: d < total && d != index ==> d in seen
  {
    if forall d: nat :: d < total ==> (TakenOver(d, index, total, seen, now) <==> SeenAndGone(d, index, seen, now)) {
      forall d: nat | d < total && d != index ensures d in seen {
        assert TakenOver(d, index, total, seen, now) <==> SeenAndGone(d, index, seen, now);
      }
    }
  }

  // ---------- partitions of a topic ----------

  /** assignPartitions: out-of-range instance settings fall back to everything. */
  function Assigned(parts: seq<nat>, count: int, id: int): seq<nat> {
    if count <= 1 || id < 0 || id >= count then parts else WithRemainder(parts, count, id)
  }

  lemma {:induction false} RemainderMultiplicity(s: seq<nat>, total: nat, index: int, p: nat)
    requires total > 0
    ensures multiset(WithRemainder(s, total, index))[p] == if p % total == index then multiset(s)[p] else 0
  {
    if s != [] {
      RemainderMultiplicity(s[..|s| - 1], total, index, p);
      assert s == s[..|s| - 1] + [s[|s| - 1]];
    }
  }

  /** Each partition goes to exactly one instance, as often as it is listed; badly configured instances all read everything. */
  lemma InstancesPartitionTheTopic(parts: seq<nat>, count: int, p: nat)
    ensures count > 1 ==> forall id :: 0 <= id < count ==>
              multiset(Assigned(parts, count, id))[p] == if id == p % count then multiset(parts)[p] else 0
    ensures count <= 1 ==> forall id :: Assigned(parts, count, id) == parts
    ensures forall id :: id < 0 || id >= count ==> Assigned(parts, count, id) == parts
  {
    if count > 1 {
      forall id | 0 <= id < count
        ensures multiset(Assigned(parts, count, id))[p] == if id == p % count then multiset(parts)[p] else 0
      {
        RemainderMultiplicity(parts, count, id, p);
      }
    }
  }

  // ---------- as the program computes them ----------

  lemma RemainderStep(s: seq<nat>, total: nat, index: int, i: nat)
    requires total > 0 && i < |s|
    ensures WithRemainder(s[..i + 1], total, index)
         == WithRemainder(s[..i], total, index) + if s[i] % total == index then [s[i]] else []
  {
    assert s[..i + 1][..i] == s[..i];
  }

  method CalcPodSetShards(index: int, total: int, setShards: int) returns (out: seq<nat>)
    ensures out == Own(index, total, setShards)
    ensures forall x: nat :: x in out <==> x < setShards && OwnsSetShard(x, index, total)
    ensures NoDuplicates(out)
  {
    OwnMembers(index, total, setShards);
    out := [];
    if setShards <= 0 {
      return;
    }
    if total <= 1 {
      for i := 0 to setShards
        invariant |out| == i && forall j :: 0 <= j < i ==> out[j] == j
      {
        out := out + [i];
      }
      assert out == UpTo(setShards);
      return;
    }
    for i := 0 to setShards
      invariant out == WithRemainder(UpTo(setShards)[..i], total, index)
    {
      RemainderStep(UpTo(setShards), total, index, i);
      if i % total == index {
        out := out + [i];
      }
    }
    assert UpTo(setShards)[..setShards] == UpTo(setShards);
  }

  method ComputeOwnedShards(index: int, total: int, setShards: int, alive: set<int>, leader: bool) returns (owned: seq<nat>)
    ensures owned == Owned(index, total, setShards, alive, leader)
    ensures total > 0 ==> forall x: nat :: x in owned <==>
      x < setShards && (total == 1 || x % total == index || (leader && x % total !in alive))
  {
    hide Own, NoDuplicates;
    if total > 0 {
      forall x: nat ensures x in Owned(index, total, setShards, alive, leader) <==>
        x < setShards && (total == 1 || x % total == index || (leader && x % total !in alive))
      {
        OwnedMembers(index, total, setShards, alive, leader, x);
      }
    }
    owned := CalcPodSetShards(index, total, setShards);
    if leader && total > 0 {
      ghost var own := owned;
      for d := 0 to total
        invariant owned == own + DeadShards(d, total, setShards, alive)
      {
        if d !in alive {
          var more := CalcPodSetShards(d, total, setShards);
          owned := owned + more;
        }
      }
    }
  }

  method AssignPartitions(parts: seq<nat>, count: int, id: int) returns (out: seq<nat>)
    ensures out == Assigned(parts, count, id)
    ensures forall p :: p in out <==> p in parts && (count <= 1 || id < 0 || id >= count || p % count == id)
  {
    if count <= 1 || id < 0 || id >= count {
      return parts;
    }
    RemainderMembers(parts, count, id);
    out := [];
    for i := 0 to |parts|
      invariant out == WithRemainder(parts[..i], count, id)
    {
      RemainderStep(parts, count, id, i);
      if parts[i] % count == id {
        out := out + [parts[i]];
      }
    }
    assert parts[..|parts|] == parts;
  }

  /** The failover coordinator of one pod: now is what it finds alive in Redis, leader what the elector says. */
  class ShardScanner {
    const podIndex: nat
    const setShards: int
    var podSetShards: seq<nat>
    var seenAlive: set<int>

    constructor (podIndex: nat, setShards: int)
      ensures this.podIndex == podIndex && this.setShards == setShards && podSetShards == [] && seenAlive == {}
    {
      this.podIndex, this.setShards := podIndex, setShards;
      podSetShards, seenAlive := [], {};
    }

    method Reconcile(total: int, found: set<int>, leader: bool)
      modifies this
      ensures var now := (set d | d in found && 0 <= d < total) + {podIndex};
        && seenAlive == old(seenAlive) + now
        && podSetShards ==
           if old(seenAlive) == {} then Own(podIndex, total, setShards)
           else Owned(podIndex, total, setShards, AliveNow(podIndex, total, old(seenAlive), now), leader)
      ensures total > 0 ==> forall x: nat ::
        x in podSetShards <==>
          (x < setShards
           && (total == 1 || x % total == podIndex
               || (leader && old(seenAlive) != {} && !(x % total in old(seenAlive) && x % total in found))))
      ensures NoDuplicates(podSetShards) <==>
        old(seenAlive) == {} || !leader || total != 1 || setShards <= 0 || podIndex == 0 || (0 in old(seenAlive) && 0 in found)
    {
      var now := (set d | d in found && 0 <= d < total) + {podIndex};
      if seenAlive == {} {
        seenAlive := now;
        podSetShards := CalcPodSetShards(podIndex, total, setShards);
        return;
      }
      var alive: set<int> := {};
      var i := 0;
      while i < total
        invariant 0 <= i && (total > 0 ==> i <= total)
        invariant alive == set d | d in seenAlive && d in now && 0 <= d < i
      {
        if i in seenAlive && i in now {
          alive := alive + {i};
        }
        i := i + 1;
      }
      alive := alive + {podIndex};
      assert alive == AliveNow(podIndex, total, seenAlive, now);
      podSetShards := ComputeOwnedShards(podIndex, total, setShards, alive, leader);
      if total > 0 {
        forall x: nat
          ensures x in podSetShards <==>
            (x < setShards
             && (total == 1 || x % total == podIndex || (leader && !(x % total in seenAlive && x % total in found))))
        {
          OwnedMembers(podIndex, total, setShards, alive, leader, x);
        }
      }
      OwnMembers(podIndex, total, setShards);
      assert Own(podIndex, 1, setShards) == [] <==> setShards <= 0;
      if leader {
        LeaderListHasNoDuplicatesIff(podIndex, total, setShards, alive);
      }
      seenAlive := seenAlive + now;
    }
  }

  /** The second round of a pod that has never seen another: as leader it takes the shards of every pod, present or not. */
  lemma UnseenPodsAreTakenOver(index: nat, total: int, setShards: int, now: set<int>, shard: nat)
    requires shard < setShards
    ensures shard in Owned(index, total, setShards, AliveNow(index, total, {index}, now), true)
  {
    var alive := AliveNow(index, total, {index}, now);
    assert alive == {index};
    OwnMembers(index, total, setShards);
    if total > 0 { DeadMembers(total, total, setShards, alive); }
    hide Own, DeadShards;
    if total > 1 && !OwnsSetShard(shard, index, total) {
      assert OwnsSetShard(shard, shard % total, total) && shard % total !in alive;
      assert OfDead(shard, total, total, setShards, alive);
    }
  }
}
