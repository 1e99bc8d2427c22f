/** The whole membership protocol as a transition system: any number of servers, every message ever
    sent kept in the network, so it may be delayed, lost, repeated or delivered to the wrong server. */
module GossipSystem {
  import opened Members
  import opened Membership
  import opened MembershipMerge

  datatype Proc = Proc(node: Node, cfg: Config, introducer: bool)

  datatype Msg =
    | Gossip(sender: NodeId, list: seq<Member>)
    | Ping(sender: NodeId, list: seq<Member>)
    | Ack(sender: NodeId, list: seq<Member>)
    | JoinRequest(member: Member)
    | JoinReply(sender: NodeId, list: seq<Member>, cfg: Config)

  datatype State = State(procs: map<NodeId, Proc>, msgs: set<Msg>)

  /** `list` is the order in which a server happens to list its members in the message it sends. */
  datatype Event =
    | Start(id: NodeId, introducer: bool, now: int)
    | Heartbeat(p: NodeId, now: int)
    | SendGossip(p: NodeId, list: seq<Member>)
    | SendPing(p: NodeId, list: seq<Member>)
    | ReceiveGossip(p: NodeId, m: Msg, now: int)
    | ReceivePing(p: NodeId, m: Msg, now: int, list: seq<Member>)
    | ReceiveAck(p: NodeId, m: Msg, now: int)
    | SendJoin(p: NodeId, now: int)
    | ReceiveJoin(p: NodeId, m: Msg, now: int, list: seq<Member>)
    | ReceiveJoinReply(p: NodeId, m: Msg, now: int)
    | Sweep(p: NodeId, t: Timeouts, now: int)
    | LeaveGroup(p: NodeId, now: int)
    | Switch(p: NodeId, cfg: Config)

  // ----- what is sent -----

  /** Gossip omits LastUpdated; pings also omit the heartbeat. */
  function ForGossip(v: View): View { map id | id in v :: v[id].(lastUpdated := 0) }

  function ForPing(v: View): View { map id | id in v :: v[id].(lastUpdated := 0, heartbeat := 0) }

  ghost predicate Lists(v: View, list: seq<Member>) {
    UniqueIds(list) && Represents(v, list)
  }

  // ----- steps -----

  function NewProc(hashOf: string -> Hash, id: NodeId, introducer: bool, now: int): Proc {
    var hash := hashOf(id.address);
    Proc(Node(id, hash, 1, 1, map[id := Member(id, Alive, 1, 1, now, hash)], {}, {}),
         Config(GossipProtocol, NoSuspicion), introducer)
  }

  function SetNode(s: State, p: NodeId, n: Node): State
    requires p in s.procs
  {
    s.(procs := s.procs[p := s.procs[p].(node := n)])
  }

  function Merge(s: State, p: NodeId, list: seq<Member>, sender: NodeId, now: int): State
    requires p in s.procs
  {
    SetNode(s, p, Merged(s.procs[p].cfg, now, list, sender, s.procs[p].node))
  }

  function SetConfig(s: State, p: NodeId, cfg: Config): State
    requires p in s.procs
  {
    s.(procs := s.procs[p := s.procs[p].(cfg := cfg)])
  }

  function Send(s: State, m: Msg): State { s.(msgs := s.msgs + {m}) }

  /** The introducer files the newcomer, recomputing its hash. */
  function Admit(hashOf: string -> Hash, n: Node, m: Member, now: int): Node {
    n.(members := n.members[m.id := m.(hash := hashOf(m.id.address), lastUpdated := now)])
  }

  ghost predicate Enabled(hashOf: string -> Hash, s: State, e: Event) {
    match e
    case Start(id, _, _) => id !in s.procs
    case Heartbeat(p, _) => p in s.procs
    case SendGossip(p, list) => p in s.procs && Lists(ForGossip(s.procs[p].node.members), list)
    case SendPing(p, list) => p in s.procs && Lists(ForPing(s.procs[p].node.members), list)
    case ReceiveGossip(p, m, _) => p in s.procs && m in s.msgs && m.Gossip?
    case ReceivePing(p, m, now, list) =>
      p in s.procs && m in s.msgs && m.Ping? &&
      Lists(Merge(s, p, m.list, m.sender, now).procs[p].node.members, list)
    case ReceiveAck(p, m, _) => p in s.procs && m in s.msgs && m.Ack?
    case SendJoin(p, _) => p in s.procs
    case ReceiveJoin(p, m, now, list) =>
      p in s.procs && s.procs[p].introducer && m in s.msgs && m.JoinRequest? &&
      Lists(Admit(hashOf, s.procs[p].node, m.member, now).members, list)
    case ReceiveJoinReply(p, m, _) => p in s.procs && m in s.msgs && m.JoinReply?
    case Sweep(p, _, _) => p in s.procs
    case LeaveGroup(p, _) => p in s.procs
    case Switch(p, _) => p in s.procs
  }

  ghost function Step(hashOf: string -> Hash, s: State, e: Event): State {
    if !Enabled(hashOf, s, e) then s else
    match e
    case Start(id, introducer, now) => s.(procs := s.procs[id := NewProc(hashOf, id, introducer, now)])
    case Heartbeat(p, now) => SetNode(s, p, Beat(s.procs[p].cfg, now, s.procs[p].node))
    case SendGossip(p, list) => Send(s, Gossip(p, list))
    case SendPing(p, list) => Send(s, Ping(p, list))
    case ReceiveGossip(p, m, now) => Merge(s, p, m.list, m.sender, now)
    case ReceivePing(p, m, now, list) => Send(Merge(s, p, m.list, m.sender, now), Ack(p, list))
    case ReceiveAck(p, m, now) => Merge(s, p, m.list, m.sender, now)
    case SendJoin(p, now) =>
      var n := s.procs[p].node;
      Send(s, JoinRequest(Member(p, Alive, n.heartbeat, n.incarnation, now, n.hash)))
    case ReceiveJoin(p, m, now, list) =>
      Send(SetNode(s, p, Admit(hashOf, s.procs[p].node, m.member, now)), JoinReply(p, list, s.procs[p].cfg))
    case ReceiveJoinReply(p, m, now) => Merge(SetConfig(s, p, m.cfg), p, m.list, m.sender, now)
    case Sweep(p, t, now) => SetNode(s, p, SweepNode(s.procs[p].cfg, t, now, s.procs[p].node))
    case LeaveGroup(p, now) => SetNode(s, p, Leave(now, s.procs[p].node))
    case Switch(p, cfg) => SetConfig(s, p, cfg)
  }

  ghost function Run(hashOf: string -> Hash, s: State, es: seq<Event>): State {
    if es == [] then s else Step(hashOf, Run(hashOf, s, es[..|es| - 1]), es[|es| - 1])
  }

  const EMPTY: State := State(map[], {})

  // ----- the origin-bound invariant -----

  /** An entry never claims more than its subject has issued, and carries the subject's own hash. */
  ghost predicate Bounded(hashOf: string -> Hash, procs: map<NodeId, Proc>, m: Member) {
    m.id in procs && m.incarnation <= procs[m.id].node.incarnation &&
    m.heartbeat <= procs[m.id].node.heartbeat && m.hash == hashOf(m.id.address)
  }

  ghost predicate BoundedList(hashOf: string -> Hash, procs: map<NodeId, Proc>, list: seq<Member>) {
    UniqueIds(list) && forall m | m in list :: Bounded(hashOf, procs, m)
  }

  ghost predicate BoundedView(hashOf: string -> Hash, procs: map<NodeId, Proc>, v: View) {
    Keyed(v) && forall id | id in v :: Bounded(hashOf, procs, v[id])
  }

  ghost predicate BoundedMsg(hashOf: string -> Hash, procs: map<NodeId, Proc>, m: Msg) {
    match m
    case JoinRequest(x) => Bounded(hashOf, procs, x) && x.status == Alive
    case _ => BoundedList(hashOf, procs, m.list)
  }

  ghost predicate Inv(hashOf: string -> Hash, s: State) {
    (forall p | p in s.procs ::
       s.procs[p].node.id == p && s.procs[p].node.hash == hashOf(p.address) &&
       BoundedView(hashOf, s.procs, s.procs[p].node.members)) &&
    forall m | m in s.msgs :: BoundedMsg(hashOf, s.procs, m)
  }

  /** Counters only grow, and processes only appear. */
  ghost predicate Grown(a: map<NodeId, Proc>, b: map<NodeId, Proc>) {
    forall p | p in a ::
      p in b && a[p].node.incarnation <= b[p].node.incarnation && a[p].node.heartbeat <= b[p].node.heartbeat
  }

  /** The invariant after process `p` moved to `n`: only `n` itself needs to be looked at. */
  lemma InvSetNode(hashOf: string -> Hash, s: State, p: NodeId, n: Node)
    requires Inv(hashOf, s) && p in s.procs
    requires n.id == p && n.hash == s.procs[p].node.hash
    requires s.procs[p].node.incarnation <= n.incarnation && s.procs[p].node.heartbeat <= n.heartbeat
    requires BoundedView(hashOf, SetNode(s, p, n).procs, n.members)
    ensures Inv(hashOf, SetNode(s, p, n))
  {
    var s' := SetNode(s, p, n);
    assert Grown(s.procs, s'.procs);
    forall m | m in s.msgs ensures BoundedMsg(hashOf, s'.procs, m) {
      assert BoundedMsg(hashOf, s.procs, m);
    }
    forall q | q in s'.procs ensures BoundedView(hashOf, s'.procs, s'.procs[q].node.members) {
      if q != p {
        assert BoundedView(hashOf, s.procs, s.procs[q].node.members);
      }
    }
  }

  lemma InvSend(hashOf: string -> Hash, s: State, m: Msg)
    requires Inv(hashOf, s) && BoundedMsg(hashOf, s.procs, m)
    ensures Inv(hashOf, Send(s, m))
  {
  }

  lemma InvSetConfig(hashOf: string -> Hash, s: State, p: NodeId, cfg: Config)
    requires Inv(hashOf, s) && p in s.procs
    ensures Inv(hashOf, SetConfig(s, p, cfg))
  {
    var s' := SetConfig(s, p, cfg);
    InvSameNodes(hashOf, s, s');
  }

  lemma InvSameNodes(hashOf: string -> Hash, s: State, s': State)
    requires Inv(hashOf, s) && s'.msgs == s.msgs && s'.procs.Keys == s.procs.Keys
    requires forall p | p in s.procs :: s'.procs[p].node == s.procs[p].node
    ensures Inv(hashOf, s')
  {
    forall m | m in s'.msgs ensures BoundedMsg(hashOf, s'.procs, m) {
      assert BoundedMsg(hashOf, s.procs, m);
    }
    forall q | q in s'.procs ensures BoundedView(hashOf, s'.procs, s'.procs[q].node.members) {
      assert BoundedView(hashOf, s.procs, s.procs[q].node.members);
    }
  }

  /** Listing a bounded view gives a bounded message, also when heartbeats are left out. */
  lemma ListBounded(hashOf: string -> Hash, procs: map<NodeId, Proc>, v: View, w: View, list: seq<Member>)
    requires BoundedView(hashOf, procs, v) && Lists(w, list) && w.Keys == v.Keys
    requires forall id | id in v :: w[id].id == id && w[id].incarnation == v[id].incarnation &&
                                    w[id].heartbeat <= v[id].heartbeat && w[id].hash == v[id].hash
    ensures BoundedList(hashOf, procs, list)
  {
    forall m | m in list ensures Bounded(hashOf, procs, m) {
      assert w[m.id] == m;
      assert Bounded(hashOf, procs, v[m.id]);
    }
  }

  /** A merged entry comes from the list or the message, or is the node's own with its new counter. */
  lemma MergeBounded(hashOf: string -> Hash, s: State, p: NodeId, list: seq<Member>, sender: NodeId, now: int)
    requires Inv(hashOf, s) && p in s.procs && BoundedList(hashOf, s.procs, list)
    ensures var n, n' := s.procs[p].node, Merged(s.procs[p].cfg, now, list, sender, s.procs[p].node);
            n'.id == p && n'.hash == n.hash && n.incarnation <= n'.incarnation && n'.heartbeat == n.heartbeat &&
            BoundedView(hashOf, SetNode(s, p, n').procs, n'.members)
  {
    var n, cfg := s.procs[p].node, s.procs[p].cfg;
    var n' := Merged(cfg, now, list, sender, n);
    var procs' := SetNode(s, p, n').procs;
    MergePointwise(cfg, now, list, sender, n);
    assert BoundedView(hashOf, s.procs, n.members);
    assert Grown(s.procs, procs');
    forall id | id in n'.members ensures Bounded(hashOf, procs', n'.members[id]) {
      if Mentions(list, id) {
        var i :| 0 <= i < |list| && list[i].id == id;
        assert list[i] in list && Bounded(hashOf, s.procs, list[i]);
        MergeEntrySource(cfg, now, n, list[i], sender);
        assert Lookup(n'.members, id) == Some(n'.members[id]);
        if id == p && p in n.members && Refutes(p, n.members[p], list[i]) {
          assert SelfRefuted(cfg, n.members, list, p);
        }
      } else {
        assert Lookup(n'.members, id) == Lookup(n.members, id);
      }
    }
  }

  lemma MergeEntrySource(cfg: Config, now: int, n: Node, r: Member, sender: NodeId)
    ensures var l := Lookup(n.members, r.id);
            var e := MergeEntry(cfg, now, n.id, n.incarnation, l, r, sender);
            e.Some? ==>
              e.value.(lastUpdated := 0) == r.(lastUpdated := 0) || e == l ||
              (l.Some? && Refutes(n.id, l.value, r) &&
               e == Some(l.value.(incarnation := n.incarnation + 1, lastUpdated := now)))
  {
  }

  lemma InvMerge(hashOf: string -> Hash, s: State, p: NodeId, list: seq<Member>, sender: NodeId, now: int)
    requires Inv(hashOf, s) && p in s.procs && BoundedList(hashOf, s.procs, list)
    ensures Inv(hashOf, Merge(s, p, list, sender, now))
  {
    MergeBounded(hashOf, s, p, list, sender, now);
    InvSetNode(hashOf, s, p, Merged(s.procs[p].cfg, now, list, sender, s.procs[p].node));
  }

  lemma InvStart(hashOf: string -> Hash, s: State, id: NodeId, introducer: bool, now: int)
    requires Inv(hashOf, s) && id !in s.procs
    ensures Inv(hashOf, s.(procs := s.procs[id := NewProc(hashOf, id, introducer, now)]))
  {
    var s' := s.(procs := s.procs[id := NewProc(hashOf, id, introducer, now)]);
    assert Grown(s.procs, s'.procs);
    forall m | m in s'.msgs ensures BoundedMsg(hashOf, s'.procs, m) {
      assert BoundedMsg(hashOf, s.procs, m);
    }
    forall q | q in s'.procs ensures BoundedView(hashOf, s'.procs, s'.procs[q].node.members) {
      if q != id {
        assert BoundedView(hashOf, s.procs, s.procs[q].node.members);
      }
    }
  }

  /** A node that rewrites only its own entry, within its own counters, keeps the invariant. */
  lemma InvOwnEntry(hashOf: string -> Hash, s: State, p: NodeId, n: Node)
    requires Inv(hashOf, s) && p in s.procs && n.id == p && n.hash == s.procs[p].node.hash
    requires s.procs[p].node.incarnation == n.incarnation && s.procs[p].node.heartbeat <= n.heartbeat
    requires Keyed(n.members) && forall id | id in n.members && id != p ::
               id in s.procs[p].node.members && n.members[id] == s.procs[p].node.members[id]
    requires p in n.members ==>
               (n.members[p].incarnation <= n.incarnation && n.members[p].heartbeat <= n.heartbeat &&
                n.members[p].hash == n.hash)
    ensures Inv(hashOf, SetNode(s, p, n))
  {
    var s' := SetNode(s, p, n);
    assert BoundedView(hashOf, s.procs, s.procs[p].node.members);
    forall id | id in n.members ensures Bounded(hashOf, s'.procs, n.members[id]) {
      if id != p {
        assert Bounded(hashOf, s.procs, n.members[id]);
      }
    }
    InvSetNode(hashOf, s, p, n);
  }

  lemma InvSweep(hashOf: string -> Hash, s: State, p: NodeId, t: Timeouts, now: int)
    requires Inv(hashOf, s) && p in s.procs
    ensures Inv(hashOf, SetNode(s, p, SweepNode(s.procs[p].cfg, t, now, s.procs[p].node)))
  {
    var n' := SweepNode(s.procs[p].cfg, t, now, s.procs[p].node);
    var s' := SetNode(s, p, n');
    assert BoundedView(hashOf, s.procs, s.procs[p].node.members);
    forall id | id in n'.members ensures Bounded(hashOf, s'.procs, n'.members[id]) {
      assert Bounded(hashOf, s.procs, s.procs[p].node.members[id]);
    }
    InvSetNode(hashOf, s, p, n');
  }

  lemma InvAdmit(hashOf: string -> Hash, s: State, p: NodeId, m: Member, now: int)
    requires Inv(hashOf, s) && p in s.procs && Bounded(hashOf, s.procs, m)
    ensures Inv(hashOf, SetNode(s, p, Admit(hashOf, s.procs[p].node, m, now)))
  {
    var n' := Admit(hashOf, s.procs[p].node, m, now);
    var s' := SetNode(s, p, n');
    assert BoundedView(hashOf, s.procs, s.procs[p].node.members);
    forall id | id in n'.members ensures Bounded(hashOf, s'.procs, n'.members[id]) {
      if id != m.id {
        assert Bounded(hashOf, s.procs, s.procs[p].node.members[id]);
      }
    }
    InvSetNode(hashOf, s, p, n');
  }

  // One lemma per kind of event.

  lemma SendGossipInv(hashOf: string -> Hash, s: State, e: Event)
    requires Inv(hashOf, s) && e.SendGossip? && Enabled(hashOf, s, e)
    ensures Inv(hashOf, Step(hashOf, s, e))
  {
    var v := s.procs[e.p].node.members;
    ListBounded(hashOf, s.procs, v, ForGossip(v), e.list);
    InvSend(hashOf, s, Gossip(e.p, e.list));
  }

  lemma SendPingInv(hashOf: string -> Hash, s: State, e: Event)
    requires Inv(hashOf, s) && e.SendPing? && Enabled(hashOf, s, e)
    ensures Inv(hashOf, Step(hashOf, s, e))
  {
    var v := s.procs[e.p].node.members;
    ListBounded(hashOf, s.procs, v, ForPing(v), e.list);
    InvSend(hashOf, s, Ping(e.p, e.list));
  }

  lemma InvReceipt(hashOf: string -> Hash, s: State, p: NodeId, m: Msg, now: int)
    requires Inv(hashOf, s) && p in s.procs && m in s.msgs && !m.JoinRequest?
    ensures Inv(hashOf, Merge(s, p, m.list, m.sender, now))
  {
    assert BoundedMsg(hashOf, s.procs, m);
    InvMerge(hashOf, s, p, m.list, m.sender, now);
  }

  lemma ReceivePingInv(hashOf: string -> Hash, s: State, e: Event)
    requires Inv(hashOf, s) && e.ReceivePing? && Enabled(hashOf, s, e)
    ensures Inv(hashOf, Step(hashOf, s, e))
  {
    InvReceipt(hashOf, s, e.p, e.m, e.now);
    InvReply(hashOf, Merge(s, e.p, e.m.list, e.m.sender, e.now), e.p, Ack(e.p, e.list));
  }

  lemma SendJoinInv(hashOf: string -> Hash, s: State, e: Event)
    requires Inv(hashOf, s) && e.SendJoin? && Enabled(hashOf, s, e)
    ensures Inv(hashOf, Step(hashOf, s, e))
  {
    var n := s.procs[e.p].node;
    InvSend(hashOf, s, JoinRequest(Member(e.p, Alive, n.heartbeat, n.incarnation, e.now, n.hash)));
  }

  lemma ReceiveJoinInv(hashOf: string -> Hash, s: State, e: Event)
    requires Inv(hashOf, s) && e.ReceiveJoin? && Enabled(hashOf, s, e)
    ensures Inv(hashOf, Step(hashOf, s, e))
  {
    assert BoundedMsg(hashOf, s.procs, e.m);
    var n := Admit(hashOf, s.procs[e.p].node, e.m.member, e.now);
    InvAdmit(hashOf, s, e.p, e.m.member, e.now);
    InvReply(hashOf, SetNode(s, e.p, n), e.p, JoinReply(e.p, e.list, s.procs[e.p].cfg));
  }

  lemma ReceiveJoinReplyInv(hashOf: string -> Hash, s: State, e: Event)
    requires Inv(hashOf, s) && e.ReceiveJoinReply? && Enabled(hashOf, s, e)
    ensures Inv(hashOf, Step(hashOf, s, e))
  {
    InvSetConfig(hashOf, s, e.p, e.m.cfg);
    InvReceipt(hashOf, SetConfig(s, e.p, e.m.cfg), e.p, e.m, e.now);
  }

  lemma StepInv(hashOf: string -> Hash, s: State, e: Event)
    requires Inv(hashOf, s)
    ensures Inv(hashOf, Step(hashOf, s, e))
  {
    if Enabled(hashOf, s, e) {
      match e
      case Start(id, introducer, now) => InvStart(hashOf, s, id, introducer, now);
      case Heartbeat(p, now) => InvHeartbeat(hashOf, s, p, now);
      case SendGossip(_, _) => SendGossipInv(hashOf, s, e);
      case SendPing(_, _) => SendPingInv(hashOf, s, e);
      case ReceiveGossip(p, m, now) => InvReceipt(hashOf, s, p, m, now);
      case ReceivePing(_, _, _, _) => ReceivePingInv(hashOf, s, e);
      case ReceiveAck(p, m, now) => InvReceipt(hashOf, s, p, m, now);
      case SendJoin(_, _) => SendJoinInv(hashOf, s, e);
      case ReceiveJoin(_, _, _, _) => ReceiveJoinInv(hashOf, s, e);
      case ReceiveJoinReply(_, _, _) => ReceiveJoinReplyInv(hashOf, s, e);
      case Sweep(p, t, now) => InvSweep(hashOf, s, p, t, now);
      case LeaveGroup(p, now) => InvLeave(hashOf, s, p, now);
      case Switch(p, cfg) => InvSetConfig(hashOf, s, p, cfg);
    }
  }

  lemma InvReply(hashOf: string -> Hash, s: State, p: NodeId, m: Msg)
    requires Inv(hashOf, s) && p in s.procs && !m.JoinRequest? && Lists(s.procs[p].node.members, m.list)
    ensures Inv(hashOf, Send(s, m))
  {
    var v := s.procs[p].node.members;
    assert BoundedView(hashOf, s.procs, v);
    ListBounded(hashOf, s.procs, v, v, m.list);
    InvSend(hashOf, s, m);
  }

  lemma InvHeartbeat(hashOf: string -> Hash, s: State, p: NodeId, now: int)
    requires Inv(hashOf, s) && p in s.procs
    ensures Inv(hashOf, SetNode(s, p, Beat(s.procs[p].cfg, now, s.procs[p].node)))
  {
    assert BoundedView(hashOf, s.procs, s.procs[p].node.members);
    InvOwnEntry(hashOf, s, p, Beat(s.procs[p].cfg, now, s.procs[p].node));
  }

  lemma InvLeave(hashOf: string -> Hash, s: State, p: NodeId, now: int)
    requires Inv(hashOf, s) && p in s.procs
    ensures Inv(hashOf, SetNode(s, p, Leave(now, s.procs[p].node)))
  {
    assert BoundedView(hashOf, s.procs, s.procs[p].node.members);
    InvOwnEntry(hashOf, s, p, Leave(now, s.procs[p].node));
  }

  /** Every run, whatever the modes, delays, losses and duplications, keeps the origin bound. */
  lemma {:induction false} OriginBound(hashOf: string -> Hash, es: seq<Event>)
    ensures Inv(hashOf, Run(hashOf, EMPTY, es))
  {
    if es != [] {
      OriginBound(hashOf, es[..|es| - 1]);
      StepInv(hashOf, Run(hashOf, EMPTY, es[..|es| - 1]), es[|es| - 1]);
    }
  }
}
