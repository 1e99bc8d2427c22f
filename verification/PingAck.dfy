/** Merging under ping/ack: a maximum of status and incarnation, and news of a node's life only from itself. */
module PingAck {
  import opened Members
  import opened Membership
  import opened MembershipRank

  /** The rank without the heartbeat, which pings do not carry. */
  function Standing(mode: Suspicion, m: Option<Member>): Rank {
    match RankIn(mode, m)
    case Unknown => Unknown
    case Known(incarnation, suspected, _) => Known(incarnation, suspected, 0)
    case Final => Final
  }

  /** Under ping/ack a reported death counts, for a node that is listed. */
  function PingContribution(mode: Suspicion, local: Option<Member>, received: Member): Rank {
    if local.None? && received.status == Dead then Unknown else Standing(mode, Some(received))
  }

  /** In both modes merging is the maximum of status and incarnation. */
  lemma PingMergeIsMax(mode: Suspicion, now: int, self: NodeId, own: nat, local: Option<Member>, received: Member,
                       sender: NodeId)
    requires received.id != self
    ensures Standing(mode, After(Config(PingAckProtocol, mode), now, self, own, local, received, sender)) ==
            Max(Standing(mode, local), PingContribution(mode, local, received))
  {
  }

  /** Two entries that say the same: live, of one status and, where it counts, one incarnation. */
  predicate SaySame(mode: Suspicion, a: Member, b: Member) {
    a.id == b.id && !a.IsFinal() && a.status == b.status && (mode == WithSuspicion ==> a.incarnation == b.incarnation)
  }

  /** Of entries that say the same, exactly the one from the node itself is news. */
  lemma OnlyItselfRefreshes(mode: Suspicion, now: int, self: NodeId, own: nat, local: Member, received: Member,
                            sender: NodeId)
    requires received.id != self && SaySame(mode, local, received)
    ensures var r := After(Config(PingAckProtocol, mode), now, self, own, Some(local), received, sender);
            r.Some? && r.value.status == local.status && r.value.id == local.id &&
            r.value.lastUpdated == (if sender == local.id then now else local.lastUpdated) &&
            (sender != local.id ==> r.value == local)
  {
  }

  /** A live entry from the node itself that is no older than what is known of it refreshes it. */
  lemma OwnWordRefreshes(mode: Suspicion, now: int, self: NodeId, own: nat, local: Member, received: Member)
    requires received.id == local.id != self && local.status == Alive == received.status
    requires mode == WithSuspicion ==> received.incarnation >= local.incarnation
    ensures After(Config(PingAckProtocol, mode), now, self, own, Some(local), received, received.id) ==
            Some(received.(lastUpdated := now))
  {
  }

  /** Under gossip it is a higher heartbeat that refreshes, whoever sends it. */
  lemma HeartbeatRefreshes(mode: Suspicion, now: int, self: NodeId, own: nat, local: Member, received: Member,
                           sender: NodeId)
    requires received.id == local.id != self && local.status == Alive == received.status
    requires received.heartbeat > local.heartbeat
    requires mode == WithSuspicion ==> received.incarnation >= local.incarnation
    ensures After(Config(GossipProtocol, mode), now, self, own, Some(local), received, sender) ==
            Some(received.(lastUpdated := now))
  {
  }

  /** A server that is told of its own death keeps its entry, in every configuration. */
  lemma OwnDeathIgnored(cfg: Config, now: int, self: NodeId, own: nat, local: Member, received: Member, sender: NodeId)
    requires received.id == self && received.status == Dead
    ensures After(cfg, now, self, own, Some(local), received, sender) == Some(local)
  {
  }
}
