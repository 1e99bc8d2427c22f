/** Merging a received membership list (membership_merge.go). */
module MembershipMerge {
  import opened Members
  import opened Membership

  /** What one server knows: its own counters, its list as a map, and the nodes it has already
      reacted to as failed or joined. */
  datatype Node = Node(id: NodeId, hash: Hash, incarnation: nat, heartbeat: nat, members: View,
                       failed: set<NodeId>, joined: set<NodeId>)

  function StatusPriority(s: Status): nat {
    match s
    case Dead => 3
    case VoluntaryLeave => 3
    case Suspect => 2
    case Alive => 1
  }

  predicate CompareStatus(received: Status, local: Status) {
    StatusPriority(received) > StatusPriority(local)
  }

  /** Suspect overrides alive, a final status overrides both, and nothing overrides its equal. */
  lemma StatusOrder(received: Status, local: Status)
    ensures CompareStatus(received, local) <==>
            (local == Alive && received != Alive) ||
            (local == Suspect && (received == Dead || received == VoluntaryLeave))
  {
  }

  function SuspicionMerge(p: Protocol, now: int, local: Member, received: Member, sender: NodeId): Member {
    if received.IsFinal() then received
    else if local.IsFinal() then local
    else if received.incarnation > local.incarnation then received.(lastUpdated := now)
    else if local.incarnation > received.incarnation then local
    else if received.status == local.status then
      match p
      case GossipProtocol => if received.heartbeat > local.heartbeat then received.(lastUpdated := now) else local
      case PingAckProtocol => if received.id == sender then received.(lastUpdated := now) else local
    else if CompareStatus(received.status, local.status) then received.(lastUpdated := now)
    else local
  }

  function NoSuspicionMerge(p: Protocol, now: int, local: Member, received: Member, sender: NodeId): Member {
    if received.IsFinal() then received
    else if local.IsFinal() then local
    else if received.status == local.status then
      match p
      case GossipProtocol => if received.heartbeat > local.heartbeat then received.(lastUpdated := now) else local
      case PingAckProtocol => if received.id == sender then received.(lastUpdated := now) else local
    else if CompareStatus(received.status, local.status) then received.(lastUpdated := now)
    else local
  }

  function MergeRule(cfg: Config, now: int, local: Member, received: Member, sender: NodeId): Member {
    match cfg.suspicion
    case WithSuspicion => SuspicionMerge(cfg.protocol, now, local, received, sender)
    case NoSuspicion => NoSuspicionMerge(cfg.protocol, now, local, received, sender)
  }

  /** The node is told that it is suspected, at an incarnation it has not yet outgrown. */
  predicate Refutes(self: NodeId, local: Member, received: Member) {
    received.id == self && received.status == Suspect && local.status == Alive &&
    received.incarnation >= local.incarnation
  }

  /** What becomes of one entry; None: the received member is ignored. `own` is the node's counter. */
  function MergeEntry(cfg: Config, now: int, self: NodeId, own: nat, local: Option<Member>, received: Member,
                      sender: NodeId): Option<Member>
  {
    if cfg.protocol == GossipProtocol && received.status == Dead then None
    else match local
      case None => if received.status == Dead then None else Some(received.(lastUpdated := now))
      case Some(l) =>
        if Refutes(self, l, received) then Some(l.(incarnation := own + 1, lastUpdated := now))
        else if received.id == self && received.status == Dead then None
        else Some(MergeRule(cfg, now, l, received, sender))
  }

  function Lookup(v: View, id: NodeId): Option<Member> {
    if id in v then Some(v[id]) else None
  }

  /** One iteration of the loop; `snap` is the snapshot taken before the loop. */
  function MergeOne(cfg: Config, now: int, snap: View, received: Member, sender: NodeId, n: Node): Node {
    var id := received.id;
    var entry := MergeEntry(cfg, now, n.id, n.incarnation, Lookup(snap, id), received, sender);
    var skipped := cfg.protocol == GossipProtocol && received.status == Dead;
    n.(members := if entry.Some? then n.members[entry.value.id := entry.value] else n.members,
       incarnation := if !skipped && id in snap && Refutes(n.id, snap[id], received) then n.incarnation + 1
                      else n.incarnation,
       joined := if id !in snap && entry.Some? then n.joined + {id} else n.joined,
       failed := if !skipped && id in snap && received.IsFinal() &&
                    (!snap[id].IsFinal() || (cfg.suspicion == WithSuspicion && entry.Some?))
                 then n.failed + {id} else n.failed)
  }

  function MergeAll(cfg: Config, now: int, snap: View, rs: seq<Member>, sender: NodeId, n: Node): Node {
    if rs == [] then n
    else MergeOne(cfg, now, snap, rs[|rs| - 1], sender, MergeAll(cfg, now, snap, rs[..|rs| - 1], sender, n))
  }

  function Merged(cfg: Config, now: int, rs: seq<Member>, sender: NodeId, n: Node): Node {
    MergeAll(cfg, now, n.members, rs, sender, n)
  }

  // ----- the server object -----

  class Server {
    const id: NodeId
    const hash: Hash
    var incarnationNumber: nat
    var heartbeatCounter: nat
    const members: MembershipList
    var failedPending: set<NodeId>
    var joinedPending: set<NodeId>

    ghost predicate Valid()
      reads this, members
    {
      members.Valid()
    }

    ghost function State(): Node
      reads this, members
    {
      Node(id, hash, incarnationNumber, heartbeatCounter, Contents(members.nodes), failedPending, joinedPending)
    }

    constructor (id: NodeId, hash: Hash, now: int)
      ensures Valid() && fresh(members)
      ensures State() == Node(id, hash, 1, 1, map[id := Member(id, Alive, 1, 1, now, hash)], {}, {})
    {
      this.id, this.hash := id, hash;
      incarnationNumber, heartbeatCounter := 1, 1;
      members := new MembershipList();
      failedPending, joinedPending := {}, {};
      new;
      members.AddOrUpdate(Member(id, Alive, 1, 1, now, hash));
    }

    /** Marks the node as handled; true on the first report, when stabilization is considered. */
    method HandleDeadNode(id: NodeId) returns (first: bool)
      modifies this`failedPending
      ensures failedPending == old(failedPending) + {id} && first == (id !in old(failedPending))
    {
      first := id !in failedPending;
      failedPending := failedPending + {id};
    }

    method HandleNewlyJoinedNode(id: NodeId) returns (first: bool)
      modifies this`joinedPending
      ensures joinedPending == old(joinedPending) + {id} && first == (id !in old(joinedPending))
    {
      first := id !in joinedPending;
      joinedPending := joinedPending + {id};
    }

    /** The body of `increaseHeartbeat` under gossip. */
    method IncreaseHeartbeat(cfg: Config, now: int)
      requires Valid()
      modifies this, members
      ensures Valid()
      ensures State() == Beat(cfg, now, old(State()))
      ensures cfg.protocol == PingAckProtocol ==> State() == old(State())
    {
      if cfg.protocol == PingAckProtocol {
        return;
      }
      heartbeatCounter := heartbeatCounter + 1;
      members.AddOrUpdate(Member(id, Alive, heartbeatCounter, incarnationNumber, now, hash));
    }

    /** The failure detector's tick. */
    method Sweep(cfg: Config, t: Timeouts, now: int)
      requires Valid()
      modifies this, members
      ensures Valid()
      ensures State() == SweepNode(cfg, t, now, old(State()))
    {
      var _, dead := members.MarkSuspectIfNeeded(cfg, t, now, id.address);
      failedPending := failedPending + dead;
    }

    /** `leaveGroup`: announce a voluntary leave. */
    method LeaveGroup(now: int)
      requires Valid()
      modifies members
      ensures Valid()
      ensures State() == Leave(now, old(State()))
    {
      var snap := members.Snapshot();
      if id in snap {
        ContentsRepresents(members.nodes);
        members.AddOrUpdate(snap[id].MarkVoluntaryLeave(now).(incarnation := incarnationNumber));
      }
    }

    method MergeMembership(cfg: Config, now: int, received: seq<Member>, sender: NodeId)
      requires Valid()
      modifies this, members
      ensures Valid()
      ensures State() == Merged(cfg, now, received, sender, old(State()))
    {
      var snap := members.Snapshot();
      ghost var n0 := State();
      for i := 0 to |received|
        invariant Valid() && State() == MergeAll(cfg, now, snap, received[..i], sender, n0)
      {
        assert received[..i + 1][..i] == received[..i];
        MergeReceived(cfg, now, snap, received[i], sender);
      }
      assert received[..|received|] == received;
    }

    /** One iteration of the merge loop. */
    method MergeReceived(cfg: Config, now: int, snap: View, received: Member, sender: NodeId)
      requires Valid()
      modifies this, members
      ensures Valid()
      ensures State() == MergeOne(cfg, now, snap, received, sender, old(State()))
    {
      if cfg.protocol == GossipProtocol && received.status == Dead {
        return;
      }
      if received.id !in snap {
        if received.status != Dead {
          members.AddOrUpdate(received.(lastUpdated := now));
          var _ := HandleNewlyJoinedNode(received.id);
        }
        return;
      }
      var local := snap[received.id];
      if !local.IsFinal() && received.IsFinal() {
        var _ := HandleDeadNode(received.id);
      }
      if received.id == id {
        if received.status == Suspect && local.status == Alive && received.incarnation >= local.incarnation {
          incarnationNumber := incarnationNumber + 1;
          members.AddOrUpdate(local.(incarnation := incarnationNumber, lastUpdated := now));
          return;
        }
        if received.status == Dead {
          return;
        }
      }
      if cfg.suspicion == WithSuspicion && received.IsFinal() {
        var _ := HandleDeadNode(received.id);
      }
      members.AddOrUpdate(MergeRule(cfg, now, local, received, sender));
    }
  }

  function Beat(cfg: Config, now: int, n: Node): Node {
    if cfg.protocol == PingAckProtocol then n
    else n.(heartbeat := n.heartbeat + 1,
            members := n.members[n.id := Member(n.id, Alive, n.heartbeat + 1, n.incarnation, now, n.hash)])
  }

  function SweepNode(cfg: Config, t: Timeouts, now: int, n: Node): Node {
    n.(members := SweepMap(cfg, t, now, n.id.address, n.members),
       failed := n.failed + NewlyDead(cfg, t, now, n.id.address, n.members))
  }

  function Leave(now: int, n: Node): Node {
    if n.id !in n.members then n
    else n.(members := n.members[n.id := n.members[n.id].MarkVoluntaryLeave(now).(incarnation := n.incarnation)])
  }

  // ----- one snapshot for the whole loop -----

  ghost predicate Mentions(rs: seq<Member>, id: NodeId) {
    exists i :: 0 <= i < |rs| && rs[i].id == id
  }

  /** What one received entry leaves of the entry the snapshot had. */
  function Outcome(cfg: Config, now: int, snap: View, n: Node, received: Member, sender: NodeId): Option<Member> {
    var local := Lookup(snap, received.id);
    var e := MergeEntry(cfg, now, n.id, n.incarnation, local, received, sender);
    if e.Some? then e else local
  }

  /** `n'` is what merging `rs` into `n` should give, entry by entry. */
  ghost predicate MergedInto(cfg: Config, now: int, n: Node, rs: seq<Member>, sender: NodeId, n': Node) {
    n'.id == n.id && n'.hash == n.hash && n'.heartbeat == n.heartbeat && Keyed(n'.members) &&
    n'.incarnation == (if SelfRefuted(cfg, n.members, rs, n.id) then n.incarnation + 1 else n.incarnation) &&
    (forall i | 0 <= i < |rs| :: Lookup(n'.members, rs[i].id) == Outcome(cfg, now, n.members, n, rs[i], sender)) &&
    (forall id | !Mentions(rs, id) :: Lookup(n'.members, id) == Lookup(n.members, id))
  }

  /** With unique received IDs the single snapshot is harmless: each entry is merged once, against
      the node's current entry, and the others stay. */
  lemma {:induction false} MergePointwise(cfg: Config, now: int, rs: seq<Member>, sender: NodeId, n: Node)
    requires UniqueIds(rs) && Keyed(n.members)
    ensures MergedInto(cfg, now, n, rs, sender, MergeAll(cfg, now, n.members, rs, sender, n))
  {
    if rs != [] {
      var k := |rs| - 1;
      var before := MergeAll(cfg, now, n.members, rs[..k], sender, n);
      MergePointwise(cfg, now, rs[..k], sender, n);
      assert rs == rs[..k] + [rs[k]];
      assert !Mentions(rs[..k], rs[k].id);
      SelfRefutedSnoc(cfg, n.members, rs, n.id);
      MentionsSnoc(rs);
      MergeOneStep(cfg, now, n, rs[..k], rs[k], sender, before);
    }
  }

  lemma MentionsSnoc(rs: seq<Member>)
    requires rs != []
    ensures forall id :: Mentions(rs, id) <==> Mentions(rs[..|rs| - 1], id) || rs[|rs| - 1].id == id
  {
    forall id ensures Mentions(rs, id) <==> Mentions(rs[..|rs| - 1], id) || rs[|rs| - 1].id == id {
      if Mentions(rs[..|rs| - 1], id) {
        var i :| 0 <= i < |rs| - 1 && rs[..|rs| - 1][i].id == id;
        assert rs[i].id == id;
      }
      if Mentions(rs, id) {
        var i :| 0 <= i < |rs| && rs[i].id == id;
        assert i < |rs| - 1 ==> rs[..|rs| - 1][i].id == id;
      }
    }
  }

  lemma MergeOneStep(cfg: Config, now: int, n: Node, rs: seq<Member>, r: Member, sender: NodeId, before: Node)
    requires MergedInto(cfg, now, n, rs, sender, before) && Keyed(n.members) && !Mentions(rs, r.id)
    ensures var after := MergeOne(cfg, now, n.members, r, sender, before);
            after.id == n.id && after.hash == n.hash && after.heartbeat == n.heartbeat && Keyed(after.members) &&
            Lookup(after.members, r.id) == Outcome(cfg, now, n.members, n, r, sender) &&
            (forall id | id != r.id :: Lookup(after.members, id) == Lookup(before.members, id)) &&
            after.incarnation == before.incarnation +
              (if r.id in n.members && Refutes(n.id, n.members[r.id], r) then 1 else 0)
  {
    RefutedIsMentioned(cfg, n.members, rs, n.id);
  }

  lemma RefutedIsMentioned(cfg: Config, snap: View, rs: seq<Member>, self: NodeId)
    ensures SelfRefuted(cfg, snap, rs, self) ==> Mentions(rs, self)
  {
  }

  /** Some received entry makes the node refute a suspicion about itself. */
  ghost predicate SelfRefuted(cfg: Config, snap: View, rs: seq<Member>, self: NodeId) {
    self in snap && exists i :: 0 <= i < |rs| && Refutes(self, snap[self], rs[i])
  }

  lemma SelfRefutedSnoc(cfg: Config, snap: View, rs: seq<Member>, self: NodeId)
    requires rs != []
    ensures var k := |rs| - 1;
            SelfRefuted(cfg, snap, rs, self) <==>
            SelfRefuted(cfg, snap, rs[..k], self) || (self in snap && Refutes(self, snap[self], rs[k]))
  {
    var k := |rs| - 1;
    if SelfRefuted(cfg, snap, rs[..k], self) {
      var i :| 0 <= i < k && Refutes(self, snap[self], rs[..k][i]);
      assert Refutes(self, snap[self], rs[i]);
    }
    if SelfRefuted(cfg, snap, rs, self) {
      var i :| 0 <= i < |rs| && Refutes(self, snap[self], rs[i]);
      assert i < k ==> rs[..k][i] == rs[i];
    }
  }

  // ----- reactions -----

  /** A node that is not in the list is heard of, and not as dead. */
  ghost predicate FirstHeard(n: Node, rs: seq<Member>, id: NodeId) {
    id !in n.members && exists i :: 0 <= i < |rs| && rs[i].id == id && rs[i].status != Dead
  }

  /** The end of a listed node is reported: as dead, under ping/ack, or as having left. With suspicion also
      when it was known already, except that a server does not believe its own death. */
  ghost predicate EndReported(cfg: Config, n: Node, rs: seq<Member>, id: NodeId) {
    id in n.members && exists i :: 0 <= i < |rs| && rs[i].id == id && ReportsEnd(cfg, n, rs[i])
  }

  predicate ReportsEnd(cfg: Config, n: Node, r: Member)
    requires r.id in n.members
  {
    var status := n.members[r.id].status;
    (r.status == VoluntaryLeave || (r.status == Dead && cfg.protocol == PingAckProtocol)) &&
    (status == Alive || status == Suspect ||
     (cfg.suspicion == WithSuspicion && !(r.id == n.id && r.status == Dead)))
  }

  /** What one received member adds to the two sets. */
  lemma ReactsOne(cfg: Config, now: int, snap: View, r: Member, sender: NodeId, n: Node, n0: Node)
    requires n0.members == snap && n0.id == n.id
    ensures var n' := MergeOne(cfg, now, snap, r, sender, n);
            n'.id == n.id && n'.joined == n.joined + (if FirstHeard(n0, [r], r.id) then {r.id} else {}) &&
            n'.failed == n.failed + (if EndReported(cfg, n0, [r], r.id) then {r.id} else {})
  {
    assert [r][0] == r;
  }

  lemma HeardSnoc(n: Node, rs: seq<Member>, id: NodeId)
    requires rs != []
    ensures var k := |rs| - 1;
            FirstHeard(n, rs, id) <==> FirstHeard(n, rs[..k], id) || (rs[k].id == id && FirstHeard(n, [rs[k]], id))
  {
    var k := |rs| - 1;
    assert rs == rs[..k] + [rs[k]] && [rs[k]][0] == rs[k];
    if FirstHeard(n, rs[..k], id) {
      var i :| 0 <= i < k && rs[..k][i].id == id && rs[..k][i].status != Dead;
      assert rs[i].id == id;
    }
    if FirstHeard(n, rs, id) {
      var i :| 0 <= i < |rs| && rs[i].id == id && rs[i].status != Dead;
      assert i < k ==> rs[..k][i] == rs[i];
    }
  }

  lemma ReportedSnoc(cfg: Config, n: Node, rs: seq<Member>, id: NodeId)
    requires rs != []
    ensures var k := |rs| - 1;
            EndReported(cfg, n, rs, id) <==>
            EndReported(cfg, n, rs[..k], id) || (rs[k].id == id && EndReported(cfg, n, [rs[k]], id))
  {
    var k := |rs| - 1;
    assert [rs[k]][0] == rs[k];
    assert forall i | 0 <= i < k :: rs[..k][i] == rs[i];
  }

  /** Exactly the nodes first heard of are reacted to as joined, and exactly those whose end is reported as
      failed. */
  lemma {:induction false} MergeReacts(cfg: Config, now: int, rs: seq<Member>, sender: NodeId, n: Node)
    ensures var n' := MergeAll(cfg, now, n.members, rs, sender, n);
            n'.id == n.id && (forall id :: id in n'.joined <==> id in n.joined || FirstHeard(n, rs, id)) &&
            forall id :: id in n'.failed <==> id in n.failed || EndReported(cfg, n, rs, id)
  {
    if rs != [] {
      var k := |rs| - 1;
      MergeReacts(cfg, now, rs[..k], sender, n);
      ReactsOne(cfg, now, n.members, rs[k], sender, MergeAll(cfg, now, n.members, rs[..k], sender, n), n);
      forall id ensures FirstHeard(n, rs, id) <==>
                        FirstHeard(n, rs[..k], id) || (rs[k].id == id && FirstHeard(n, [rs[k]], id)) {
        HeardSnoc(n, rs, id);
      }
      forall id ensures EndReported(cfg, n, rs, id) <==>
                        EndReported(cfg, n, rs[..k], id) || (rs[k].id == id && EndReported(cfg, n, [rs[k]], id)) {
        ReportedSnoc(cfg, n, rs, id);
      }
    }
  }
}
