/** Choosing whom to contact, and what a server puts in its messages (protocols.go). */
module Protocols {
  import opened Cyclic
  import opened Members
  import opened Membership
  import opened GossipSystem

  // ----- round robin -----

  /** The next `k` picks from position `p`. */
  function Stream(order: seq<NodeId>, p: nat, k: nat): (r: seq<NodeId>)
    requires order != []
    ensures |r| == k
  {
    if k == 0 then [] else Stream(order, p, k - 1) + [order[(p + k - 1) % |order|]]
  }

  lemma StreamSnoc(order: seq<NodeId>, p: nat, a: nat, b: nat)
    requires order != []
    ensures Stream(order, p, a + b + 1) == Stream(order, p, a + b) + [order[((p + a) % |order| + b) % |order|]]
  {
    ModShift(p + a, b, |order|);
  }

  function CandidateSet(self: NodeId, v: View): set<NodeId> {
    set id | id in v && id != self && v[id].status != Dead
  }

  ghost predicate NoRepeats(s: seq<NodeId>) {
    forall i, j | 0 <= i < j < |s| :: s[i] != s[j]
  }

  ghost predicate IsOrderOf(order: seq<NodeId>, c: set<NodeId>) {
    NoRepeats(order) && |order| == |c| && forall id :: id in order <==> id in c
  }

  function Min(a: nat, b: nat): nat { if a <= b then a else b }

  class Selector {
    var nodeOrder: seq<NodeId>
    var currentPointer: nat
    var lastMemberCount: nat

    ghost predicate Valid()
      reads this
    {
      NoRepeats(nodeOrder) && (nodeOrder != [] ==> currentPointer < |nodeOrder| && lastMemberCount == |nodeOrder|)
    }

    constructor ()
      ensures Valid() && nodeOrder == [] && lastMemberCount == 0
    {
      nodeOrder, currentPointer, lastMemberCount := [], 0, 0;
    }

    /** The order is rebuilt only when the number of candidates changed. */
    method SelectNextKNodes(k: nat, self: NodeId, snapshot: View) returns (result: seq<NodeId>)
      requires Valid() && Keyed(snapshot)
      modifies this
      ensures Valid()
      ensures CandidateSet(self, snapshot) == {} ==>
                result == [] && nodeOrder == old(nodeOrder) && currentPointer == old(currentPointer) &&
                lastMemberCount == old(lastMemberCount)
      ensures CandidateSet(self, snapshot) != {} ==>
                var n := |CandidateSet(self, snapshot)|;
                var rebuilt := n != old(lastMemberCount) || old(nodeOrder) == [];
                var start := if rebuilt then 0 else old(currentPointer);
                nodeOrder != [] &&
                (if rebuilt then IsOrderOf(nodeOrder, CandidateSet(self, snapshot)) else nodeOrder == old(nodeOrder)) &&
                lastMemberCount == n &&
                result == Stream(nodeOrder, start, Min(k, |nodeOrder|)) &&
                currentPointer == (start + Min(k, |nodeOrder|)) % |nodeOrder|
      ensures nodeOrder != old(nodeOrder) || (old(nodeOrder) == [] && nodeOrder != []) ==>
                forall id :: id in nodeOrder <==> id in snapshot && id != self && snapshot[id].status != Dead
      ensures result != [] ==> |result| == if k <= |nodeOrder| then k else |nodeOrder|
      ensures forall id | id in result :: id in nodeOrder
      ensures old(nodeOrder) == [] ==>
                (result == [] <==> k == 0 || forall id | id in snapshot && id != self :: snapshot[id].status == Dead)
    {
      var candidates := Candidates(self, snapshot);
      OrderNonEmpty(candidates, CandidateSet(self, snapshot));
      if |candidates| == 0 {
        return [];
      }
      if |candidates| != lastMemberCount || |nodeOrder| == 0 {
        nodeOrder := candidates;
        currentPointer := 0;
        lastMemberCount := |candidates|;
      }
      ghost var start := currentPointer;
      result := PickNext(Min(k, |nodeOrder|));
      StreamNames(nodeOrder, start, Min(k, |nodeOrder|));
    }

    /** The send loop: one selection per tick, on whatever snapshot it finds, while the number of candidates
        stays as at the last rebuild. The picks are one uninterrupted stream: any n consecutive ones name
        each member of the order once, and a candidate that came in for another is not picked at all. */
    method SelectRepeatedly(ks: seq<nat>, self: NodeId, snapshots: seq<View>) returns (picks: seq<NodeId>)
      requires Valid() && nodeOrder != [] && |ks| == |snapshots|
      requires forall i | 0 <= i < |snapshots| ::
                 Keyed(snapshots[i]) && |CandidateSet(self, snapshots[i])| == lastMemberCount
      modifies this
      ensures Valid() && nodeOrder == old(nodeOrder) && lastMemberCount == old(lastMemberCount)
      ensures picks == Calls(nodeOrder, old(currentPointer), ks)
      ensures forall c | IsOrderOf(nodeOrder, c) :: Fair(picks, |nodeOrder|, c)
      ensures forall newcomer | newcomer !in nodeOrder :: newcomer !in picks
    {
      ghost var start, order := currentPointer, nodeOrder;
      picks := [];
      for i := 0 to |ks|
        invariant Valid() && nodeOrder == order && lastMemberCount == |order|
        invariant picks == Calls(order, start, ks[..i]) && currentPointer == PointerAfter(order, start, ks[..i])
      {
        var more := SelectNextKNodes(ks[i], self, snapshots[i]);
        NextSelection(order, start, ks, i);
        picks := picks + more;
      }
      assert ks[..|ks|] == ks;
      CallsFair(order, start, ks);
    }

    method PickNext(count: nat) returns (result: seq<NodeId>)
      requires nodeOrder != [] && currentPointer < |nodeOrder|
      modifies this`currentPointer
      ensures result == Stream(nodeOrder, old(currentPointer), count)
      ensures currentPointer == (old(currentPointer) + count) % |nodeOrder|
    {
      result := [];
      ModBelow(currentPointer, |nodeOrder|);
      for i := 0 to count
        invariant currentPointer == (old(currentPointer) + i) % |nodeOrder|
        invariant result == Stream(nodeOrder, old(currentPointer), i)
      {
        result := result + [nodeOrder[currentPointer]];
        ModShift(old(currentPointer) + i, 1, |nodeOrder|);
        currentPointer := (currentPointer + 1) % |nodeOrder|;
      }
    }
  }

  lemma OrderNonEmpty(order: seq<NodeId>, c: set<NodeId>)
    requires IsOrderOf(order, c)
    ensures order == [] <==> c == {}
  {
  }

  /** The candidates in some order: Go's map iteration and shuffle leave it open. */
  method Candidates(self: NodeId, snapshot: View) returns (order: seq<NodeId>)
    ensures IsOrderOf(order, CandidateSet(self, snapshot))
    ensures forall id :: id in order <==> id in snapshot && id != self && snapshot[id].status != Dead
  {
    order := [];
    var left := snapshot.Keys;
    while left != {}
      invariant left <= snapshot.Keys && NoRepeats(order)
      invariant forall id :: id in order <==> id in CandidateSet(self, snapshot) && id !in left
      decreases left
    {
      var id :| id in left;
      if id != self && snapshot[id].status != Dead {
        order := order + [id];
      }
      left := left - {id};
    }
    CountedOnce(order, CandidateSet(self, snapshot));
  }

  lemma {:induction false} CountedOnce(order: seq<NodeId>, c: set<NodeId>)
    requires NoRepeats(order) && forall id :: id in order <==> id in c
    ensures |order| == |c|
  {
    if order != [] {
      var k := |order| - 1;
      assert order == order[..k] + [order[k]];
      assert order[k] in c;
      CountedOnce(order[..k], c - {order[k]});
    } else {
      assert c == {};
    }
  }

  // ----- fairness -----

  lemma {:induction false} StreamIndex(order: seq<NodeId>, p: nat, k: nat, i: nat)
    requires order != [] && i < k
    ensures Stream(order, p, k)[i] == order[(p + i) % |order|]
  {
    if i < k - 1 {
      StreamIndex(order, p, k - 1, i);
    }
  }

  lemma StreamNames(order: seq<NodeId>, p: nat, k: nat)
    requires order != []
    ensures forall id | id in Stream(order, p, k) :: id in order
  {
    forall id | id in Stream(order, p, k) ensures id in order {
      var i :| 0 <= i < k && Stream(order, p, k)[i] == id;
      StreamIndex(order, p, k, i);
    }
  }

  lemma {:induction false} StreamSplit(order: seq<NodeId>, p: nat, a: nat, b: nat)
    requires order != []
    ensures Stream(order, p, a + b) == Stream(order, p, a) + Stream(order, (p + a) % |order|, b)
  {
    if b > 0 {
      StreamSplit(order, p, a, b - 1);
      StreamSnoc(order, p, a, b - 1);
    }
  }

  /** Everything picked by calls with the given k's while the candidates stay as at the last rebuild. */
  function Calls(order: seq<NodeId>, p: nat, ks: seq<nat>): seq<NodeId>
    requires order != []
    decreases ks
  {
    if ks == [] then []
    else var k := Min(ks[0], |order|);
         Stream(order, p, k) + Calls(order, (p + k) % |order|, ks[1..])
  }

  function Total(n: nat, ks: seq<nat>): nat {
    if ks == [] then 0 else Min(ks[0], n) + Total(n, ks[1..])
  }

  /** Where the pointer stands after the calls. */
  function PointerAfter(order: seq<NodeId>, p: nat, ks: seq<nat>): nat
    requires order != []
  {
    if ks == [] then p else (p + Total(|order|, ks)) % |order|
  }

  /** Any n consecutive picks name every candidate exactly once. */
  ghost predicate Fair(picks: seq<NodeId>, n: nat, c: set<NodeId>) {
    forall j: nat | j + n <= |picks| :: IsOrderOf(Lap(picks, j, n), c)
  }

  ghost function Lap(picks: seq<NodeId>, j: nat, n: nat): seq<NodeId>
    requires j + n <= |picks|
  {
    picks[j..j + n]
  }

  lemma CallsFair(order: seq<NodeId>, start: nat, ks: seq<nat>)
    requires order != []
    ensures var picks := Calls(order, start, ks);
            (forall c | IsOrderOf(order, c) :: Fair(picks, |order|, c)) &&
            forall newcomer | newcomer !in order :: newcomer !in picks
  {
    var picks := Calls(order, start, ks);
    forall c | IsOrderOf(order, c) ensures Fair(picks, |order|, c) {
      forall j: nat | j + |order| <= |picks| ensures IsOrderOf(Lap(picks, j, |order|), c) {
        RoundRobinFair(order, c, start, ks, j);
      }
    }
    forall newcomer | newcomer !in order ensures newcomer !in picks {
      ReplacementStarves(order, start, ks, newcomer);
    }
  }

  /** However the picks are cut into calls, they form one uninterrupted stream. */
  lemma {:induction false} CallsAreStream(order: seq<NodeId>, p: nat, ks: seq<nat>)
    requires order != []
    ensures Calls(order, p, ks) == Stream(order, p, Total(|order|, ks))
    decreases ks
  {
    if ks != [] {
      var k := Min(ks[0], |order|);
      CallsAreStream(order, (p + k) % |order|, ks[1..]);
      StreamSplit(order, p, k, Total(|order|, ks[1..]));
    }
  }

  lemma {:induction false} TotalSnoc(n: nat, ks: seq<nat>, k: nat)
    ensures Total(n, ks + [k]) == Total(n, ks) + Min(k, n)
    decreases ks
  {
    if ks == [] {
      assert [k][1..] == [];
      assert ks + [k] == [k];
    } else {
      assert (ks + [k])[1..] == ks[1..] + [k];
      TotalSnoc(n, ks[1..], k);
    }
  }

  lemma AfterIs(order: seq<NodeId>, start: nat, ks: seq<nat>)
    requires start < |order|
    ensures PointerAfter(order, start, ks) == (start + Total(|order|, ks)) % |order| < |order|
  {
    ModBelow(start, |order|);
    ModBelow(start + Total(|order|, ks), |order|);
  }

  /** One more selection of `k` after `total` continues the stream. */
  lemma StreamMore(order: seq<NodeId>, start: nat, total: nat, k: nat, at: nat)
    requires order != [] && at == (start + total) % |order|
    ensures Stream(order, start, total + k) == Stream(order, start, total) + Stream(order, at, k)
    ensures (at + k) % |order| == (start + (total + k)) % |order|
  {
    StreamSplit(order, start, total, k);
    ModShift(start + total, k, |order|);
    assert start + total + k == start + (total + k);
  }

  lemma NextSelection(order: seq<NodeId>, start: nat, ks: seq<nat>, i: nat)
    requires start < |order| && i < |ks|
    ensures var k, at := Min(ks[i], |order|), PointerAfter(order, start, ks[..i]);
            Calls(order, start, ks[..i + 1]) == Calls(order, start, ks[..i]) + Stream(order, at, k) &&
            PointerAfter(order, start, ks[..i + 1]) == (at + k) % |order|
  {
    assert ks[..i + 1] == ks[..i] + [ks[i]];
    TotalSnoc(|order|, ks[..i], ks[i]);
    CallsAreStream(order, start, ks[..i]);
    CallsAreStream(order, start, ks[..i + 1]);
    AfterIs(order, start, ks[..i]);
    AfterIs(order, start, ks[..i + 1]);
    StreamMore(order, start, Total(|order|, ks[..i]), Min(ks[i], |order|), PointerAfter(order, start, ks[..i]));
  }

  lemma LapIsRotation(order: seq<NodeId>, p: nat)
    requires p < |order|
    ensures Stream(order, p, |order|) == order[p..] + order[..p]
  {
    forall i | 0 <= i < |order| ensures Stream(order, p, |order|)[i] == (order[p..] + order[..p])[i] {
      StreamIndex(order, p, |order|, i);
      ModBelow(p + i, |order|);
    }
  }

  /** Any n consecutive picks, spread over any calls with any k's, name every candidate exactly once. */
  lemma RoundRobinFair(order: seq<NodeId>, c: set<NodeId>, p: nat, ks: seq<nat>, j: nat)
    requires order != [] && IsOrderOf(order, c) && j + |order| <= |Calls(order, p, ks)|
    ensures IsOrderOf(Calls(order, p, ks)[j..j + |order|], c)
  {
    var at := (p + j) % |order|;
    CallsAreStream(order, p, ks);
    ModBelow(p + j, |order|);
    StreamSlice(order, p, |Calls(order, p, ks)|, j, |order|);
    LapAt(order, c, at);
  }

  lemma LapAt(order: seq<NodeId>, c: set<NodeId>, at: nat)
    requires IsOrderOf(order, c) && at < |order|
    ensures IsOrderOf(Stream(order, at, |order|), c)
  {
    LapIsRotation(order, at);
    RotationIsOrder(order, c, at);
  }

  lemma StreamSlice(order: seq<NodeId>, p: nat, total: nat, j: nat, k: nat)
    requires order != [] && j + k <= total
    ensures Stream(order, p, total)[j..j + k] == Stream(order, (p + j) % |order|, k)
  {
    StreamSplit(order, p, j, total - j);
    StreamSplit(order, (p + j) % |order|, k, total - j - k);
  }

  lemma RotationIsOrder(order: seq<NodeId>, c: set<NodeId>, q: nat)
    requires IsOrderOf(order, c) && q < |order|
    ensures IsOrderOf(order[q..] + order[..q], c)
  {
    assert order == order[..q] + order[q..];
  }

  /** The order is stale when one candidate replaces another: the newcomer is not picked however
      often the selection runs, because the count is the same. */
  lemma ReplacementStarves(order: seq<NodeId>, p: nat, ks: seq<nat>, newcomer: NodeId)
    requires order != [] && newcomer !in order
    ensures newcomer !in Calls(order, p, ks)
  {
    CallsAreStream(order, p, ks);
    var all := Calls(order, p, ks);
    forall i | 0 <= i < |all| ensures all[i] != newcomer {
      StreamIndex(order, p, |all|, i);
    }
  }

  // ----- message contents -----

  /** The member list of a gossip message. */
  method GossipList(snapshot: View) returns (list: seq<Member>)
    requires Keyed(snapshot)
    ensures Lists(ForGossip(snapshot), list)
    ensures forall m | m in list :: m.id in snapshot && m == snapshot[m.id].(lastUpdated := 0)
    ensures forall id | id in snapshot :: exists m :: m in list && m.id == id
  {
    list := [];
    var left := snapshot.Keys;
    while left != {}
      invariant left <= snapshot.Keys
      invariant UniqueIds(list)
      invariant forall m :: m in list <==> m.id in snapshot && m.id !in left && m == snapshot[m.id].(lastUpdated := 0)
      decreases left
    {
      var id :| id in left;
      var m := snapshot[id];
      list := list + [Member(m.id, m.status, m.heartbeat, m.incarnation, 0, m.hash)];
      left := left - {id};
    }
  }

  /** The member list of a ping. */
  method PingList(snapshot: View) returns (list: seq<Member>)
    requires Keyed(snapshot)
    ensures Lists(ForPing(snapshot), list)
    ensures forall m | m in list :: m.id in snapshot && m == snapshot[m.id].(lastUpdated := 0, heartbeat := 0)
    ensures forall id | id in snapshot :: exists m :: m in list && m.id == id
  {
    list := [];
    var left := snapshot.Keys;
    while left != {}
      invariant left <= snapshot.Keys
      invariant UniqueIds(list)
      invariant forall m :: m in list <==>
                  m.id in snapshot && m.id !in left && m == snapshot[m.id].(lastUpdated := 0, heartbeat := 0)
      decreases left
    {
      var id :| id in left;
      var m := snapshot[id];
      list := list + [Member(m.id, m.status, 0, m.incarnation, 0, m.hash)];
      left := left - {id};
    }
  }
}
