/** Concrete runs from the empty system that show what the general results leave possible. */
module GossipScenarios {
  import opened Members
  import opened Membership
  import opened MembershipMerge
  import opened GossipSystem
  import opened GossipProgress
  import opened Protocols

  lemma RunNext(hashOf: string -> Hash, es: seq<Event>, e: Event)
    ensures Run(hashOf, EMPTY, es + [e]) == Step(hashOf, Run(hashOf, EMPTY, es), e)
  {
    assert (es + [e])[..|es|] == es;
  }

  function Fresh(hashOf: string -> Hash, id: NodeId, now: int): Member {
    Member(id, Alive, 1, 1, now, hashOf(id.address))
  }

  /** The introducer `a` has admitted `b` once. */
  ghost function Joined(hashOf: string -> Hash, a: NodeId, b: NodeId): State
    requires a != b
  {
    var p, q := NewProc(hashOf, a, true, 10), NewProc(hashOf, b, false, 0);
    var known := map[a := Fresh(hashOf, a, 10), b := Fresh(hashOf, b, 0)];
    State(map[a := p.(node := p.node.(members := known)), b := q],
          {JoinRequest(Fresh(hashOf, b, 0)), JoinReply(a, [known[a], known[b]], p.cfg)})
  }

  function JoinEvents(hashOf: string -> Hash, a: NodeId, b: NodeId): seq<Event> {
    [Start(a, true, 10), Start(b, false, 0), SendJoin(b, 0)] +
    [ReceiveJoin(a, JoinRequest(Fresh(hashOf, b, 0)), 0, [Fresh(hashOf, a, 10), Fresh(hashOf, b, 0)])]
  }

  lemma StartsReach(hashOf: string -> Hash, a: NodeId, b: NodeId)
    requires a != b
    ensures Run(hashOf, EMPTY, [Start(a, true, 10), Start(b, false, 0), SendJoin(b, 0)]) ==
            State(map[a := NewProc(hashOf, a, true, 10), b := NewProc(hashOf, b, false, 0)],
                  {JoinRequest(Fresh(hashOf, b, 0))})
  {
    var s1 := Step(hashOf, EMPTY, Start(a, true, 10));
    var s2 := Step(hashOf, s1, Start(b, false, 0));
    RunNext(hashOf, [], Start(a, true, 10));
    RunNext(hashOf, [Start(a, true, 10)], Start(b, false, 0));
    RunNext(hashOf, [Start(a, true, 10), Start(b, false, 0)], SendJoin(b, 0));
    assert [] + [Start(a, true, 10)] == [Start(a, true, 10)];
    assert [Start(a, true, 10)] + [Start(b, false, 0)] == [Start(a, true, 10), Start(b, false, 0)];
    assert [Start(a, true, 10), Start(b, false, 0)] + [SendJoin(b, 0)] ==
           [Start(a, true, 10), Start(b, false, 0), SendJoin(b, 0)];
    assert s2.procs == map[a := NewProc(hashOf, a, true, 10), b := NewProc(hashOf, b, false, 0)];
  }

  lemma JoinReaches(hashOf: string -> Hash, a: NodeId, b: NodeId)
    requires a != b
    ensures Run(hashOf, EMPTY, JoinEvents(hashOf, a, b)) == Joined(hashOf, a, b)
  {
    StartsReach(hashOf, a, b);
    var es := [Start(a, true, 10), Start(b, false, 0), SendJoin(b, 0)];
    var m, list := JoinRequest(Fresh(hashOf, b, 0)), [Fresh(hashOf, a, 10), Fresh(hashOf, b, 0)];
    RunNext(hashOf, es, ReceiveJoin(a, m, 0, list));
    var s := Run(hashOf, EMPTY, es);
    var n := Admit(hashOf, s.procs[a].node, m.member, 0);
    assert n.members == map[a := list[0], b := list[1]];
    assert Lists(n.members, list);
    assert Step(hashOf, s, ReceiveJoin(a, m, 0, list)) == Joined(hashOf, a, b);
  }

  // ----- a repeated join request -----

  ghost predicate Buried(hashOf: string -> Hash, s: State, a: NodeId, b: NodeId)
    requires a != b
  {
    var dead := Fresh(hashOf, b, 0).MarkDead(12);
    a in s.procs && s.procs[a].introducer && JoinRequest(Fresh(hashOf, b, 0)) in s.msgs &&
    s.procs[a].node.members == map[a := Fresh(hashOf, a, 10), b := dead]
  }

  /** `a` does not hear from `b` and declares it dead. */
  lemma SweepBuries(hashOf: string -> Hash, a: NodeId, b: NodeId)
    requires a != b
    ensures Buried(hashOf, Step(hashOf, Joined(hashOf, a, b), Sweep(a, Timeouts(2, 2, 10), 12)), a, b)
  {
    var n := Joined(hashOf, a, b).procs[a].node;
    assert SweepMap(Joined(hashOf, a, b).procs[a].cfg, Timeouts(2, 2, 10), 12, a.address, n.members) ==
           map[a := Fresh(hashOf, a, 10), b := Fresh(hashOf, b, 0).MarkDead(12)];
  }

  function SecondJoin(hashOf: string -> Hash, a: NodeId, b: NodeId): Event {
    ReceiveJoin(a, JoinRequest(Fresh(hashOf, b, 0)), 20, [Fresh(hashOf, a, 10), Fresh(hashOf, b, 20)])
  }

  lemma SecondJoinRevives(hashOf: string -> Hash, s: State, a: NodeId, b: NodeId)
    requires a != b && Buried(hashOf, s, a, b)
    ensures var again := SecondJoin(hashOf, a, b);
            Admits(hashOf, s, again, a, b) && Knows(Step(hashOf, s, again), a, b) &&
            EntryAt(Step(hashOf, s, again), a, b).status == Alive
  {
    var again := SecondJoin(hashOf, a, b);
    var members := Admit(hashOf, s.procs[a].node, again.m.member, 20).members;
    assert members == map[a := again.list[0], b := again.list[1]];
    assert Lists(members, again.list);
  }

  /** After `b` was declared dead, a second delivery of the request it sent once makes it alive again. */
  lemma RepeatedJoinRevives(hashOf: string -> Hash, a: NodeId, b: NodeId) returns (es: seq<Event>, again: Event)
    requires a != b
    ensures var s := Run(hashOf, EMPTY, es);
            Knows(s, a, b) && EntryAt(s, a, b).status == Dead && |es| == 5 &&
            es[3].ReceiveJoin? && again.ReceiveJoin? && es[3].p == again.p && es[3].m == again.m &&
            Admits(hashOf, s, again, a, b) &&
            Knows(Step(hashOf, s, again), a, b) && EntryAt(Step(hashOf, s, again), a, b).status == Alive
  {
    var before, sweep := JoinEvents(hashOf, a, b), Sweep(a, Timeouts(2, 2, 10), 12);
    es, again := before + [sweep], SecondJoin(hashOf, a, b);
    JoinReaches(hashOf, a, b);
    RunNext(hashOf, before, sweep);
    SweepBuries(hashOf, a, b);
    SecondJoinRevives(hashOf, Run(hashOf, EMPTY, es), a, b);
  }

  // ----- a delayed list after the entry was removed -----

  /** What `b` told before it fell silent. */
  function AboutSelf(hashOf: string -> Hash, b: NodeId): Msg {
    Gossip(b, [Fresh(hashOf, b, 0)])
  }

  /** `b` gossips once; then `a` buries it, and later removes the entry. */
  function SilentEvents(hashOf: string -> Hash, a: NodeId, b: NodeId): seq<Event> {
    JoinEvents(hashOf, a, b) + [SendGossip(b, AboutSelf(hashOf, b).list)] + [Sweep(a, Timeouts(2, 2, 10), 12)]
  }

  lemma SelfSent(hashOf: string -> Hash, a: NodeId, b: NodeId)
    requires a != b
    ensures Step(hashOf, Joined(hashOf, a, b), SendGossip(b, AboutSelf(hashOf, b).list)) ==
            Send(Joined(hashOf, a, b), AboutSelf(hashOf, b))
  {
    var v := ForGossip(Joined(hashOf, a, b).procs[b].node.members);
    assert v == map[b := Fresh(hashOf, b, 0)];
    assert Lists(v, AboutSelf(hashOf, b).list);
  }

  ghost predicate Silent(hashOf: string -> Hash, s: State, a: NodeId, b: NodeId)
    requires a != b
  {
    Buried(hashOf, s, a, b) && AboutSelf(hashOf, b) in s.msgs && b in s.procs &&
    s.procs[a].cfg == Config(GossipProtocol, NoSuspicion)
  }

  lemma SweepSilences(hashOf: string -> Hash, a: NodeId, b: NodeId)
    requires a != b
    ensures var s := Send(Joined(hashOf, a, b), AboutSelf(hashOf, b));
            Silent(hashOf, Step(hashOf, s, Sweep(a, Timeouts(2, 2, 10), 12)), a, b)
  {
    var n := Joined(hashOf, a, b).procs[a].node;
    assert SweepMap(Joined(hashOf, a, b).procs[a].cfg, Timeouts(2, 2, 10), 12, a.address, n.members) ==
           map[a := Fresh(hashOf, a, 10), b := Fresh(hashOf, b, 0).MarkDead(12)];
  }

  lemma SilentReaches(hashOf: string -> Hash, a: NodeId, b: NodeId)
    requires a != b
    ensures Silent(hashOf, Run(hashOf, EMPTY, SilentEvents(hashOf, a, b)), a, b)
  {
    var e0, send := JoinEvents(hashOf, a, b), SendGossip(b, AboutSelf(hashOf, b).list);
    JoinReaches(hashOf, a, b);
    RunNext(hashOf, e0, send);
    SelfSent(hashOf, a, b);
    RunNext(hashOf, e0 + [send], Sweep(a, Timeouts(2, 2, 10), 12));
    SweepSilences(hashOf, a, b);
  }

  lemma CleanUp(hashOf: string -> Hash, s: State, a: NodeId, b: NodeId)
    requires a != b && Silent(hashOf, s, a, b)
    ensures var s' := Step(hashOf, s, Sweep(a, Timeouts(2, 2, 10), 30));
            a in s'.procs && !Knows(s', a, b) && s'.msgs == s.msgs
  {
  }

  /** After the dead entry was removed, a list that `b` sent before it died makes it alive again at `a`,
      without any join. */
  lemma DelayedListRevives(hashOf: string -> Hash, a: NodeId, b: NodeId)
    returns (es: seq<Event>, sweep: Event, late: Event)
    requires a != b
    ensures sweep.Sweep? && late.ReceiveGossip?
    ensures var s := Run(hashOf, EMPTY, es);
            Knows(s, a, b) && EntryAt(s, a, b).status == Dead &&
            a in Run(hashOf, EMPTY, es + [sweep]).procs && !Knows(Run(hashOf, EMPTY, es + [sweep]), a, b) &&
            Live(Run(hashOf, EMPTY, es + [sweep] + [late]), a, b)
  {
    es := SilentEvents(hashOf, a, b);
    sweep, late := Sweep(a, Timeouts(2, 2, 10), 30), ReceiveGossip(a, AboutSelf(hashOf, b), 31);
    SilentReaches(hashOf, a, b);
    CleanUp(hashOf, Run(hashOf, EMPTY, es), a, b);
    RunNext(hashOf, es, sweep);
    RunNext(hashOf, es + [sweep], late);
    var s := Run(hashOf, EMPTY, es + [sweep]);
    assert AboutSelf(hashOf, b).list[0].id == b;
    assert Hears(hashOf, s, late, a, b);
    OnlyNewsFiles(hashOf, es + [sweep], late, a, b);
  }

  // ----- two leaves of one node -----

  /** `b` leaves, and as its heartbeat goes on and rewrites its entry, leaves again. */
  function LeaveEvents(hashOf: string -> Hash, b: NodeId): seq<Event> {
    [Start(b, false, 0)] + [LeaveGroup(b, 1)] + [SendGossip(b, [Left(hashOf, b, 1)])] +
    [Heartbeat(b, 2)] + [LeaveGroup(b, 3)] + [SendGossip(b, [Left(hashOf, b, 2)])]
  }

  function Left(hashOf: string -> Hash, b: NodeId, heartbeat: nat): Member {
    Fresh(hashOf, b, 0).(status := VoluntaryLeave, heartbeat := heartbeat)
  }

  ghost predicate Alone(hashOf: string -> Hash, s: State, b: NodeId, m: Member, heartbeat: nat) {
    b in s.procs && s.procs[b].cfg.protocol == GossipProtocol && s.procs[b].node.members == map[b := m] &&
    s.procs[b].node == Node(b, hashOf(b.address), 1, heartbeat, map[b := m], {}, {})
  }

  lemma LeaveAndTell(hashOf: string -> Hash, s: State, b: NodeId, m: Member, heartbeat: nat, now: int)
    requires Alone(hashOf, s, b, m, heartbeat) && m == Fresh(hashOf, b, m.lastUpdated).(heartbeat := heartbeat)
    ensures var told := [Left(hashOf, b, heartbeat)];
            var s1 := Step(hashOf, s, LeaveGroup(b, now));
            var s2 := Step(hashOf, s1, SendGossip(b, told));
            s2 == Send(s1, Gossip(b, told)) && s1.msgs == s.msgs &&
            Alone(hashOf, s2, b, Left(hashOf, b, heartbeat).(lastUpdated := now), heartbeat)
  {
    var s1 := Step(hashOf, s, LeaveGroup(b, now));
    assert s1.procs[b].node.members == map[b := Left(hashOf, b, heartbeat).(lastUpdated := now)];
    assert ForGossip(s1.procs[b].node.members) == map[b := Left(hashOf, b, heartbeat)];
    assert Lists(ForGossip(s1.procs[b].node.members), [Left(hashOf, b, heartbeat)]);
  }

  lemma BeatAgain(hashOf: string -> Hash, s: State, b: NodeId, m: Member, now: int)
    requires Alone(hashOf, s, b, m, 1)
    ensures var s' := Step(hashOf, s, Heartbeat(b, now));
            s'.msgs == s.msgs && Alone(hashOf, s', b, Fresh(hashOf, b, now).(heartbeat := 2), 2)
  {
  }

  /** A run that leaves two voluntary leaves of one node on the way that differ in their heartbeats. */
  lemma TwoLeavesReached(hashOf: string -> Hash, b: NodeId)
    ensures var s := Run(hashOf, EMPTY, LeaveEvents(hashOf, b));
            Gossip(b, [Left(hashOf, b, 1)]) in s.msgs && Gossip(b, [Left(hashOf, b, 2)]) in s.msgs
  {
    var e1 := [Start(b, false, 0)];
    var e3 := e1 + [LeaveGroup(b, 1)] + [SendGossip(b, [Left(hashOf, b, 1)])];
    var e4 := e3 + [Heartbeat(b, 2)];
    assert [] + [Start(b, false, 0)] == e1;
    RunNext(hashOf, [], Start(b, false, 0));
    LeaveAndTell(hashOf, Run(hashOf, EMPTY, e1), b, Fresh(hashOf, b, 0), 1, 1);
    RunNext(hashOf, e1, LeaveGroup(b, 1));
    RunNext(hashOf, e1 + [LeaveGroup(b, 1)], SendGossip(b, [Left(hashOf, b, 1)]));
    BeatAgain(hashOf, Run(hashOf, EMPTY, e3), b, Left(hashOf, b, 1).(lastUpdated := 1), 2);
    RunNext(hashOf, e3, Heartbeat(b, 2));
    LeaveAndTell(hashOf, Run(hashOf, EMPTY, e4), b, Fresh(hashOf, b, 2).(heartbeat := 2), 2, 3);
    RunNext(hashOf, e4, LeaveGroup(b, 3));
    RunNext(hashOf, e4 + [LeaveGroup(b, 3)], SendGossip(b, [Left(hashOf, b, 2)]));
  }

  // ----- two live entries with one heartbeat and two incarnations -----

  /** What `a` spreads before and after it suspects `b`, and what `b` answers. */
  function AboutAlive(hashOf: string -> Hash, a: NodeId, b: NodeId): Msg {
    Gossip(a, [Fresh(hashOf, a, 0), Fresh(hashOf, b, 0)])
  }

  function AboutSuspect(hashOf: string -> Hash, a: NodeId, b: NodeId): Msg {
    Gossip(a, [Fresh(hashOf, a, 0), Fresh(hashOf, b, 0).(status := Suspect)])
  }

  function AboutRenewed(hashOf: string -> Hash, a: NodeId, b: NodeId): Msg {
    Gossip(b, [Fresh(hashOf, a, 0), Fresh(hashOf, b, 0).(incarnation := 2)])
  }

  const SUSPECTING: Config := Config(GossipProtocol, WithSuspicion)

  lemma GossipSent(hashOf: string -> Hash, a: NodeId, b: NodeId)
    requires a != b
    ensures var s := Step(hashOf, Joined(hashOf, a, b), SendGossip(a, AboutAlive(hashOf, a, b).list));
            s.procs == Joined(hashOf, a, b).procs && AboutAlive(hashOf, a, b) in s.msgs
  {
    var v := ForGossip(Joined(hashOf, a, b).procs[a].node.members);
    assert v == map[a := Fresh(hashOf, a, 0), b := Fresh(hashOf, b, 0)];
    assert Lists(v, AboutAlive(hashOf, a, b).list);
  }

  /** `a` suspects `b`, which knows only itself. */
  ghost predicate Suspected(hashOf: string -> Hash, s: State, a: NodeId, b: NodeId)
    requires a != b
  {
    a in s.procs && b in s.procs && s.procs[b] == NewProc(hashOf, b, false, 0) && AboutAlive(hashOf, a, b) in s.msgs &&
    s.procs[a].node.members == map[a := Fresh(hashOf, a, 10), b := Fresh(hashOf, b, 0).MarkSuspect(12)]
  }

  lemma SuspicionStarts(hashOf: string -> Hash, s: State, a: NodeId, b: NodeId)
    requires a != b && s.procs == Joined(hashOf, a, b).procs && AboutAlive(hashOf, a, b) in s.msgs
    ensures var s1 := Step(hashOf, s, Switch(a, SUSPECTING));
            Suspected(hashOf, Step(hashOf, s1, Sweep(a, Timeouts(5, 90, 90), 12)), a, b)
  {
    SweepSuspects(hashOf, a, b);
  }

  /** `a` gossips, switches suspicion on, and suspects `b`. */
  lemma SuspectReaches(hashOf: string -> Hash, a: NodeId, b: NodeId) returns (es: seq<Event>)
    requires a != b
    ensures Suspected(hashOf, Run(hashOf, EMPTY, es), a, b)
  {
    var e0 := JoinEvents(hashOf, a, b);
    var e1 := e0 + [SendGossip(a, AboutAlive(hashOf, a, b).list)];
    JoinReaches(hashOf, a, b);
    GossipSent(hashOf, a, b);
    RunNext(hashOf, e0, SendGossip(a, AboutAlive(hashOf, a, b).list));
    SuspicionStarts(hashOf, Run(hashOf, EMPTY, e1), a, b);
    RunNext(hashOf, e1, Switch(a, SUSPECTING));
    RunNext(hashOf, e1 + [Switch(a, SUSPECTING)], Sweep(a, Timeouts(5, 90, 90), 12));
    es := e1 + [Switch(a, SUSPECTING)] + [Sweep(a, Timeouts(5, 90, 90), 12)];
  }

  lemma SweepSuspects(hashOf: string -> Hash, a: NodeId, b: NodeId)
    requires a != b
    ensures SweepMap(SUSPECTING, Timeouts(5, 90, 90), 12, a.address, Joined(hashOf, a, b).procs[a].node.members) ==
            map[a := Fresh(hashOf, a, 10), b := Fresh(hashOf, b, 0).MarkSuspect(12)]
  {
  }

  /** `b` hears that it is suspected and renews its incarnation. */
  lemma SuspectedRenews(hashOf: string -> Hash, a: NodeId, b: NodeId)
    requires a != b
    ensures var p := NewProc(hashOf, b, false, 0);
            Merged(p.cfg, 13, AboutSuspect(hashOf, a, b).list, a, p.node).members ==
              map[a := Fresh(hashOf, a, 13), b := Fresh(hashOf, b, 13).(incarnation := 2)]
  {
    var p, list := NewProc(hashOf, b, false, 0), AboutSuspect(hashOf, a, b).list;
    var n1 := MergeOne(p.cfg, 13, p.node.members, list[0], a, p.node);
    assert n1.members == map[a := Fresh(hashOf, a, 13), b := Fresh(hashOf, b, 0)];
    assert list[..1] == [list[0]] && list[..1][..0] == [];
    assert MergeAll(p.cfg, 13, p.node.members, list[..1], a, p.node) == n1;
  }

  lemma SuspicionSent(hashOf: string -> Hash, s: State, a: NodeId, b: NodeId)
    requires a != b && Suspected(hashOf, s, a, b)
    ensures var m := AboutSuspect(hashOf, a, b);
            Step(hashOf, s, SendGossip(a, m.list)) == Send(s, m)
  {
    var list, v := AboutSuspect(hashOf, a, b).list, ForGossip(s.procs[a].node.members);
    assert v == map[a := list[0], b := list[1]];
    assert Lists(v, list);
  }

  lemma RenewalSent(hashOf: string -> Hash, s: State, a: NodeId, b: NodeId)
    requires a != b && b in s.procs
    requires s.procs[b].node.members == map[a := Fresh(hashOf, a, 13), b := Fresh(hashOf, b, 13).(incarnation := 2)]
    ensures var m := AboutRenewed(hashOf, a, b);
            Step(hashOf, s, SendGossip(b, m.list)) == Send(s, m)
  {
    var list, v := AboutRenewed(hashOf, a, b).list, ForGossip(s.procs[b].node.members);
    assert v == map[a := list[0], b := list[1]];
    assert Lists(v, list);
  }

  /** A run from the empty system that leaves two messages on the way whose entries about `b` differ in
      nothing but the incarnation. */
  lemma AmbiguousReached(hashOf: string -> Hash, a: NodeId, b: NodeId) returns (es: seq<Event>)
    requires a != b
    ensures var s, x, y := Run(hashOf, EMPTY, es), Fresh(hashOf, b, 0), Fresh(hashOf, b, 0).(incarnation := 2);
            AboutAlive(hashOf, a, b) in s.msgs && AboutAlive(hashOf, a, b).list[1] == x &&
            AboutRenewed(hashOf, a, b) in s.msgs && AboutRenewed(hashOf, a, b).list[1] == y
  {
    var e0 := SuspectReaches(hashOf, a, b);
    var m, s0 := AboutSuspect(hashOf, a, b), Run(hashOf, EMPTY, e0);
    var send, receive := SendGossip(a, m.list), ReceiveGossip(b, m, 13);
    var reply := SendGossip(b, AboutRenewed(hashOf, a, b).list);
    SuspicionSent(hashOf, s0, a, b);
    SuspectedRenews(hashOf, a, b);
    RenewalSent(hashOf, Step(hashOf, Send(s0, m), receive), a, b);
    RunNext(hashOf, e0, send);
    RunNext(hashOf, e0 + [send], receive);
    RunNext(hashOf, e0 + [send] + [receive], reply);
    es := e0 + [send] + [receive] + [reply];
  }

  // ----- a stale round robin -----

  /** One candidate, then another in its place: the first is picked both times. */
  method StaleSelection(self: Member, x: Member, y: Member) returns (first: seq<NodeId>, second: seq<NodeId>)
    requires self.id != x.id && self.id != y.id && x.status != Dead && y.status != Dead
    ensures first == [x.id] && second == [x.id]
  {
    var selector := new Selector();
    OneCandidate(self, x);
    OneCandidate(self, y);
    first := selector.SelectNextKNodes(1, self.id, map[self.id := self, x.id := x]);
    OneOrder(selector.nodeOrder, x.id);
    OnePick(x.id, 0);
    var at := selector.currentPointer;
    second := selector.SelectNextKNodes(1, self.id, map[self.id := self, y.id := y]);
    OnePick(x.id, at);
  }

  lemma OneCandidate(self: Member, x: Member)
    requires self.id != x.id && x.status != Dead
    ensures CandidateSet(self.id, map[self.id := self, x.id := x]) == {x.id}
    ensures |CandidateSet(self.id, map[self.id := self, x.id := x])| == 1
  {
  }

  lemma OneOrder(order: seq<NodeId>, id: NodeId)
    requires IsOrderOf(order, {id})
    ensures order == [id]
  {
    assert |{id}| == 1;
    assert order[0] in order;
  }

  lemma OnePick(id: NodeId, p: nat)
    ensures Stream([id], p, 1) == [id]
  {
    assert Stream([id], p, 0) == [];
  }
}
