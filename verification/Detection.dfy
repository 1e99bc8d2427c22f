/** Failure detection over whole runs: what silence leads to, and what keeps a node from being suspected. */
module Detection {
  import opened Members
  import opened Membership
  import opened MembershipMerge
  import opened MembershipRank
  import opened PingAck
  import opened GossipSystem
  import opened GossipProgress

  // ----- silence -----

  /** The step tells `p` nothing about `id`. */
  ghost predicate TellsNothing(hashOf: string -> Hash, s: State, e: Event, p: NodeId, id: NodeId) {
    !Admits(hashOf, s, e, p, id) && !(Enabled(hashOf, s, e) && Receives(e, p) && Mentions(e.m.list, id))
  }

  /** Along `fs` nothing tells `p` about `id`, and p sweeps with one configuration and one set of timeouts. */
  ghost predicate Silence(hashOf: string -> Hash, s: State, fs: seq<Event>, p: NodeId, id: NodeId, cfg: Config,
                          t: Timeouts)
  {
    fs != [] ==>
      var mid, e := Run(hashOf, s, fs[..|fs| - 1]), fs[|fs| - 1];
      Silence(hashOf, s, fs[..|fs| - 1], p, id, cfg, t) && TellsNothing(hashOf, mid, e, p, id) &&
      (e.Sweep? && e.p == p ==> e.t == t && p in mid.procs && mid.procs[p].cfg == cfg)
  }

  /** When `p` sweeps. */
  function SweepTimes(fs: seq<Event>, p: NodeId): seq<int> {
    if fs == [] then []
    else
      var e := fs[|fs| - 1];
      SweepTimes(fs[..|fs| - 1], p) + if e.Sweep? && e.p == p then [e.now] else []
  }

  ghost function EntryOf(s: State, p: NodeId, id: NodeId): Option<Member> {
    if p in s.procs then Lookup(s.procs[p].node.members, id) else None
  }

  ghost predicate Reported(s: State, p: NodeId, id: NodeId) {
    p in s.procs && id in s.procs[p].node.failed
  }

  lemma QuietMerge(hashOf: string -> Hash, s: State, p: NodeId, m: Msg, now: int, id: NodeId)
    requires Inv(hashOf, s) && p in s.procs && m in s.msgs && !m.JoinRequest? && !Mentions(m.list, id)
    ensures var s' := Merge(s, p, m.list, m.sender, now);
            EntryOf(s', p, id) == EntryOf(s, p, id) && (Reported(s', p, id) <==> Reported(s, p, id))
  {
    var n, cfg := s.procs[p].node, s.procs[p].cfg;
    assert BoundedMsg(hashOf, s.procs, m);
    assert BoundedView(hashOf, s.procs, n.members);
    MergePointwise(cfg, now, m.list, m.sender, n);
    MergeReacts(cfg, now, m.list, m.sender, n);
  }

  lemma QuietReceipt(hashOf: string -> Hash, s: State, e: Event, p: NodeId, id: NodeId)
    requires Inv(hashOf, s) && p in s.procs && Enabled(hashOf, s, e) && Receives(e, p) && !Mentions(e.m.list, id)
    ensures var s' := Step(hashOf, s, e);
            p in s'.procs && EntryOf(s', p, id) == EntryOf(s, p, id) && (Reported(s', p, id) <==> Reported(s, p, id))
  {
    if e.ReceiveJoinReply? {
      InvSetConfig(hashOf, s, p, e.m.cfg);
      QuietMerge(hashOf, SetConfig(s, p, e.m.cfg), p, e.m, e.now, id);
    } else {
      QuietMerge(hashOf, s, p, e.m, e.now, id);
    }
  }

  lemma QuietOther(hashOf: string -> Hash, s: State, e: Event, p: NodeId, id: NodeId)
    requires Inv(hashOf, s) && p in s.procs && id != p && TellsNothing(hashOf, s, e, p, id)
    requires !(Enabled(hashOf, s, e) && Receives(e, p)) && !(e.Sweep? && e.p == p)
    ensures var s' := Step(hashOf, s, e);
            p in s'.procs && EntryOf(s', p, id) == EntryOf(s, p, id) && (Reported(s', p, id) <==> Reported(s, p, id))
  {
  }

  lemma SweepStep(hashOf: string -> Hash, s: State, e: Event, p: NodeId, id: NodeId)
    requires Inv(hashOf, s) && p in s.procs && e.Sweep? && e.p == p
    ensures var s', m, cfg := Step(hashOf, s, e), EntryOf(s, p, id), s.procs[p].cfg;
            p in s'.procs &&
            EntryOf(s', p, id) == (if m.None? then None else SweepOne(cfg, e.t, e.now, p.address, m.value)) &&
            (Reported(s', p, id) <==>
             Reported(s, p, id) || (m.Some? && Dies(cfg, e.t, e.now, p.address, m.value)))
  {
  }

  /** Under silence the entry is what the sweeps make of it, and it is reported when one of them says so. */
  lemma {:induction false} SilentRun(hashOf: string -> Hash, s: State, fs: seq<Event>, p: NodeId, id: NodeId,
                                     cfg: Config, t: Timeouts)
    requires Inv(hashOf, s) && p in s.procs && id != p && Silence(hashOf, s, fs, p, id, cfg, t)
    ensures var s', m, times := Run(hashOf, s, fs), EntryOf(s, p, id), SweepTimes(fs, p);
            Inv(hashOf, s') && p in s'.procs && EntryOf(s', p, id) == SweepThrough(cfg, t, p.address, m, times) &&
            (Reported(s', p, id) <==> Reported(s, p, id) || Reports(cfg, t, p.address, m, times) > 0)
  {
    if fs != [] {
      var k, m := |fs| - 1, EntryOf(s, p, id);
      var mid, e, times := Run(hashOf, s, fs[..k]), fs[k], SweepTimes(fs, p);
      SilentRun(hashOf, s, fs[..k], p, id, cfg, t);
      StepInv(hashOf, mid, e);
      if e.Sweep? && e.p == p {
        SweepStep(hashOf, mid, e, p, id);
        assert times[..|times| - 1] == SweepTimes(fs[..k], p) && times[|times| - 1] == e.now;
      } else {
        assert times == SweepTimes(fs[..k], p);
        if Enabled(hashOf, mid, e) && Receives(e, p) {
          QuietReceipt(hashOf, mid, e, p, id);
        } else {
          QuietOther(hashOf, mid, e, p, id);
        }
      }
    }
  }

  /** What `p` has about a node it stops hearing of: the live entry until sweep `i`, a suspect until `j`, a
      dead entry, reported, until `k`, and then nothing. */
  ghost predicate Decayed(s: State, s': State, p: NodeId, m: Member, times: seq<int>, i: nat, j: nat, k: nat)
    requires i < |times| || j >= |times|
    requires j < |times| || k >= |times|
  {
    EntryOf(s', p, m.id) ==
      (if i >= |times| then Some(m)
       else if j >= |times| then Some(m.(status := Suspect, lastUpdated := times[i]))
       else if k >= |times| then Some(m.(status := Dead, lastUpdated := times[j]))
       else None) &&
    (!Reported(s, p, m.id) ==> (Reported(s', p, m.id) <==> j < |times|))
  }

  /** In every run, with suspicion, in either protocol: a member that is live in p's list and that nothing
      tells p about is suspected by the first sweep beyond the suspicion timeout, declared dead and reported
      by the first beyond the dead timeout after that, and removed by the first beyond the cleanup timeout
      after that; and not earlier. */
  lemma SilenceDetected(hashOf: string -> Hash, es: seq<Event>, fs: seq<Event>, p: NodeId, m: Member, cfg: Config,
                        t: Timeouts, i: nat, j: nat, k: nat)
    requires var s := Run(hashOf, EMPTY, es);
             p in s.procs && EntryOf(s, p, m.id) == Some(m) && Silence(hashOf, s, fs, p, m.id, cfg, t)
    requires cfg.suspicion == WithSuspicion && m.status == Alive && m.id != p && m.id.address != p.address
    requires Timeline(t, m, SweepTimes(fs, p), i, j, k)
    ensures var s := Run(hashOf, EMPTY, es); Decayed(s, Run(hashOf, s, fs), p, m, SweepTimes(fs, p), i, j, k)
  {
    OriginBound(hashOf, es);
    SilentRun(hashOf, Run(hashOf, EMPTY, es), fs, p, m.id, cfg, t);
    SilenceWithSuspicion(cfg, t, p.address, m, SweepTimes(fs, p), i, j, k);
  }

  /** Without suspicion: declared dead and reported by the first sweep beyond both timeouts. */
  lemma SilenceDetectedPlain(hashOf: string -> Hash, es: seq<Event>, fs: seq<Event>, p: NodeId, m: Member, cfg: Config,
                             t: Timeouts, j: nat, k: nat)
    requires var s := Run(hashOf, EMPTY, es);
             p in s.procs && EntryOf(s, p, m.id) == Some(m) && Silence(hashOf, s, fs, p, m.id, cfg, t)
    requires cfg.suspicion == NoSuspicion && m.status == Alive && m.id != p && m.id.address != p.address
    requires ShortTimeline(t, m, SweepTimes(fs, p), j, k)
    ensures var s, times := Run(hashOf, EMPTY, es), SweepTimes(fs, p);
            Decayed(s, Run(hashOf, s, fs), p, m, times, if j == |times| then j else 0, j, k)
  {
    OriginBound(hashOf, es);
    SilentRun(hashOf, Run(hashOf, EMPTY, es), fs, p, m.id, cfg, t);
    SilenceWithoutSuspicion(cfg, t, p.address, m, SweepTimes(fs, p), j, k);
  }

  // ----- news -----

  /** In a reachable state `p` takes in a list with a live entry `x` about a node it has as live. */
  ghost predicate GetsNews(hashOf: string -> Hash, s: State, p: NodeId, m: Msg, x: Member) {
    p in s.procs && m in s.msgs && !m.JoinRequest? && x in m.list && x.id != p && x.status == Alive &&
    Knows(s, p, x.id) && EntryAt(s, p, x.id).status == Alive &&
    (s.procs[p].cfg.suspicion == WithSuspicion ==> x.incarnation >= EntryAt(s, p, x.id).incarnation)
  }

  /** It is word from the node itself under ping/ack, or a higher heartbeat under gossip. */
  ghost predicate IsFresh(s: State, p: NodeId, m: Msg, x: Member)
    requires p in s.procs && !m.JoinRequest? && Knows(s, p, x.id)
  {
    if s.procs[p].cfg.protocol == PingAckProtocol then m.sender == x.id
    else x.heartbeat > EntryAt(s, p, x.id).heartbeat
  }

  lemma NewsTaken(hashOf: string -> Hash, s: State, p: NodeId, m: Msg, x: Member, now: int)
    requires Inv(hashOf, s) && GetsNews(hashOf, s, p, m, x)
    ensures var s' := Merge(s, p, m.list, m.sender, now);
            p in s'.procs &&
            EntryOf(s', p, x.id) == After(s.procs[p].cfg, now, p, s.procs[p].node.incarnation,
                                          Some(EntryAt(s, p, x.id)), x, m.sender)
  {
    var n, cfg := s.procs[p].node, s.procs[p].cfg;
    assert BoundedMsg(hashOf, s.procs, m);
    assert BoundedView(hashOf, s.procs, n.members);
    MergePointwise(cfg, now, m.list, m.sender, n);
    var i :| 0 <= i < |m.list| && m.list[i] == x;
    assert Lookup(Merged(cfg, now, m.list, m.sender, n).members, m.list[i].id) ==
           MembershipMerge.Outcome(cfg, now, n.members, n, m.list[i], m.sender);
  }

  /** Fresh news sets the clock: the entry is live as of now, and no sweep within the suspicion timeout
      touches it, in every configuration. */
  lemma NewsSpares(hashOf: string -> Hash, es: seq<Event>, p: NodeId, m: Msg, x: Member, now: int, t: Timeouts,
                   later: int)
    requires var s := Run(hashOf, EMPTY, es); GetsNews(hashOf, s, p, m, x) && IsFresh(s, p, m, x)
    requires later - now <= t.suspicion
    ensures var s' := Merge(Run(hashOf, EMPTY, es), p, m.list, m.sender, now);
            EntryOf(s', p, x.id) == Some(x.(lastUpdated := now)) &&
            EntryOf(Step(hashOf, s', Sweep(p, t, later)), p, x.id) == Some(x.(lastUpdated := now))
  {
    var s := Run(hashOf, EMPTY, es);
    var local, own, mode := EntryAt(s, p, x.id), s.procs[p].node.incarnation, s.procs[p].cfg.suspicion;
    OriginBound(hashOf, es);
    assert BoundedView(hashOf, s.procs, s.procs[p].node.members);
    NewsTaken(hashOf, s, p, m, x, now);
    if s.procs[p].cfg.protocol == PingAckProtocol {
      OwnWordRefreshes(mode, now, p, own, local, x);
    } else {
      HeartbeatRefreshes(mode, now, p, own, local, x, m.sender);
    }
    InvMerge(hashOf, s, p, m.list, m.sender, now) by { assert BoundedMsg(hashOf, s.procs, m); }
    SweepStep(hashOf, Merge(s, p, m.list, m.sender, now), Sweep(p, t, later), p, x.id);
  }

  /** Hearsay does not: under ping/ack what a third node says of a live member that says the same leaves the
      entry, with its clock. */
  lemma HearsayIgnored(hashOf: string -> Hash, es: seq<Event>, p: NodeId, m: Msg, x: Member, now: int)
    requires var s := Run(hashOf, EMPTY, es);
             GetsNews(hashOf, s, p, m, x) && s.procs[p].cfg.protocol == PingAckProtocol && m.sender != x.id &&
             SaySame(s.procs[p].cfg.suspicion, EntryAt(s, p, x.id), x)
    ensures var s := Run(hashOf, EMPTY, es);
            EntryOf(Merge(s, p, m.list, m.sender, now), p, x.id) == Some(EntryAt(s, p, x.id))
  {
    var s := Run(hashOf, EMPTY, es);
    OriginBound(hashOf, es);
    NewsTaken(hashOf, s, p, m, x, now);
    var mode, own := s.procs[p].cfg.suspicion, s.procs[p].node.incarnation;
    OnlyItselfRefreshes(mode, now, p, own, EntryAt(s, p, x.id), x, m.sender);
  }

  // ----- pings are answered -----

  /** `p`, which pings, takes an answer in which the server `q` that gave it is live, as news of it. */
  ghost predicate TakesAnswer(s: State, q: NodeId, list: seq<Member>, p: NodeId) {
    Knows(s, q, q) && EntryAt(s, q, q).status == Alive && p != q && p in s.procs &&
    s.procs[p].cfg.protocol == PingAckProtocol && Knows(s, p, q) && EntryAt(s, p, q).status == Alive &&
    (s.procs[p].cfg.suspicion == WithSuspicion ==> EntryAt(s, q, q).incarnation >= EntryAt(s, p, q).incarnation)
  }

  /** A server that takes in a ping answers with its whole list; whoever pinged it and has it as live takes
      the answer as news of it, if it still has itself as live, and does not suspect it for the time of the
      suspicion timeout. */
  lemma PingAnswered(hashOf: string -> Hash, es: seq<Event>, q: NodeId, ping: Msg, now: int, list: seq<Member>,
                     p: NodeId, heard: int, t: Timeouts, later: int)
    requires var s := Run(hashOf, EMPTY, es);
             Enabled(hashOf, s, ReceivePing(q, ping, now, list)) &&
             TakesAnswer(Step(hashOf, s, ReceivePing(q, ping, now, list)), q, list, p)
    requires later - heard <= t.suspicion
    ensures var s1 := Step(hashOf, Run(hashOf, EMPTY, es), ReceivePing(q, ping, now, list));
            var s2 := Step(hashOf, s1, ReceiveAck(p, Ack(q, list), heard));
            var s3 := Step(hashOf, s2, Sweep(p, t, later));
            Ack(q, list) in s1.msgs && EntryOf(s2, p, q) == Some(EntryAt(s1, q, q).(lastUpdated := heard)) &&
            EntryOf(s3, p, q) == EntryOf(s2, p, q)
  {
    var e := ReceivePing(q, ping, now, list);
    OriginBound(hashOf, es);
    AnswerSent(hashOf, Run(hashOf, EMPTY, es), q, ping, now, list);
    assert (es + [e])[..|es|] == es;
    assert Run(hashOf, EMPTY, es + [e]) == Step(hashOf, Run(hashOf, EMPTY, es), e);
    AnswerTaken(hashOf, es + [e], q, list, p, heard, t, later);
  }

  lemma AnswerTaken(hashOf: string -> Hash, es: seq<Event>, q: NodeId, list: seq<Member>, p: NodeId, heard: int,
                    t: Timeouts, later: int)
    requires var s := Run(hashOf, EMPTY, es);
             TakesAnswer(s, q, list, p) && Ack(q, list) in s.msgs &&
             EntryAt(s, q, q) in list && EntryAt(s, q, q).id == q
    requires later - heard <= t.suspicion
    ensures var s := Run(hashOf, EMPTY, es);
            var s2 := Step(hashOf, s, ReceiveAck(p, Ack(q, list), heard));
            EntryOf(s2, p, q) == Some(EntryAt(s, q, q).(lastUpdated := heard)) &&
            EntryOf(Step(hashOf, s2, Sweep(p, t, later)), p, q) == EntryOf(s2, p, q)
  {
    NewsSpares(hashOf, es, p, Ack(q, list), EntryAt(Run(hashOf, EMPTY, es), q, q), heard, t, later);
  }

  lemma AnswerSent(hashOf: string -> Hash, s: State, q: NodeId, ping: Msg, now: int, list: seq<Member>)
    requires Inv(hashOf, s) && Enabled(hashOf, s, ReceivePing(q, ping, now, list))
    ensures var s1 := Step(hashOf, s, ReceivePing(q, ping, now, list));
            Ack(q, list) in s1.msgs && (Knows(s1, q, q) ==> EntryAt(s1, q, q) in list && EntryAt(s1, q, q).id == q)
  {
    var e := ReceivePing(q, ping, now, list);
    StepInv(hashOf, s, e);
    var s1 := Step(hashOf, s, e);
    assert BoundedView(hashOf, s1.procs, s1.procs[q].node.members);
  }

  // ----- heartbeats -----

  /** No entry about `id` with a heartbeat of `bound` or more, in any list or message. */
  ghost predicate HeartbeatsBelow(s: State, id: NodeId, bound: nat) {
    (forall q | q in s.procs && id in s.procs[q].node.members :: s.procs[q].node.members[id].heartbeat < bound) &&
    forall m | m in s.msgs ::
      if m.JoinRequest? then m.member.id == id ==> m.member.heartbeat < bound
      else forall x | x in m.list && x.id == id :: x.heartbeat < bound
  }

  lemma BelowOwnHeartbeat(hashOf: string -> Hash, s: State, id: NodeId)
    requires Inv(hashOf, s) && id in s.procs
    ensures HeartbeatsBelow(s, id, s.procs[id].node.heartbeat + 1)
  {
    forall q | q in s.procs && id in s.procs[q].node.members
      ensures s.procs[q].node.members[id].heartbeat < s.procs[id].node.heartbeat + 1
    {
      assert BoundedView(hashOf, s.procs, s.procs[q].node.members);
    }
    forall m | m in s.msgs
      ensures if m.JoinRequest? then m.member.id == id ==> m.member.heartbeat < s.procs[id].node.heartbeat + 1
              else forall x | x in m.list && x.id == id :: x.heartbeat < s.procs[id].node.heartbeat + 1
    {
      assert BoundedMsg(hashOf, s.procs, m);
    }
  }

  /** In every reachable state, under gossip: after its next heartbeat a server's own entry is live, carries its
      own incarnation and a heartbeat above every entry about it anywhere; so any server that has it as live
      takes the gossiped entry and its clock starts anew. */
  lemma HeartbeatWins(hashOf: string -> Hash, es: seq<Event>, p: NodeId, now: int)
    requires var s := Run(hashOf, EMPTY, es); p in s.procs && s.procs[p].cfg.protocol == GossipProtocol
    ensures var s, s' := Run(hashOf, EMPTY, es), Step(hashOf, Run(hashOf, EMPTY, es), Heartbeat(p, now));
            Knows(s', p, p) &&
            var beat := EntryAt(s', p, p);
            beat.status == Alive && beat.id == p && beat.incarnation == s.procs[p].node.incarnation &&
            beat.lastUpdated == now && HeartbeatsBelow(s, p, beat.heartbeat) &&
            forall q, t, own, mode, sender | q != p && Knows(s', q, p) && EntryAt(s', q, p).status == Alive ::
              After(Config(GossipProtocol, mode), t, q, own, Some(EntryAt(s', q, p)), beat.(lastUpdated := 0),
                    sender) == Some(beat.(lastUpdated := t))
  {
    var s, s' := Run(hashOf, EMPTY, es), Step(hashOf, Run(hashOf, EMPTY, es), Heartbeat(p, now));
    OriginBound(hashOf, es);
    BelowOwnHeartbeat(hashOf, s, p);
    BelowOwnCounter(hashOf, s, p);
    var beat := EntryAt(s', p, p);
    forall q, t, own, mode, sender | q != p && Knows(s', q, p) && EntryAt(s', q, p).status == Alive
      ensures After(Config(GossipProtocol, mode), t, q, own, Some(EntryAt(s', q, p)), beat.(lastUpdated := 0),
                    sender) == Some(beat.(lastUpdated := t))
    {
      assert BoundedView(hashOf, s.procs, s.procs[q].node.members);
      HeartbeatRefreshes(mode, t, q, own, EntryAt(s', q, p), beat.(lastUpdated := 0), sender);
    }
  }

  // ----- leaving -----

  /** A server that leaves has itself as left, at its own incarnation, and every other server that takes in
      the gossiped or pinged entry has it as left from then on. */
  lemma LeaveSpreads(hashOf: string -> Hash, es: seq<Event>, p: NodeId, now: int)
    requires Knows(Run(hashOf, EMPTY, es), p, p)
    ensures var s, s' := Run(hashOf, EMPTY, es), Step(hashOf, Run(hashOf, EMPTY, es), LeaveGroup(p, now));
            Knows(s', p, p) &&
            var left := EntryAt(s', p, p);
            left.status == VoluntaryLeave && left.id == p && left.lastUpdated == now &&
            left.incarnation == s.procs[p].node.incarnation && left.heartbeat == EntryAt(s, p, p).heartbeat &&
            forall q, cfg: Config, t, own, local: Option<Member>, sender
              | q != p && local.Some? && local.value.id == p ::
              After(cfg, t, q, own, local, left, sender) == Some(left)
  {
    OriginBound(hashOf, es);
    assert BoundedView(hashOf, Run(hashOf, EMPTY, es).procs, Run(hashOf, EMPTY, es).procs[p].node.members);
  }

  // ----- joining -----

  /** The introducer files a newcomer as it presented itself: live, at its current counters, as of now. */
  lemma JoinFiled(hashOf: string -> Hash, es: seq<Event>, q: NodeId, sent: int, p: NodeId, now: int, list: seq<Member>,
                  request: Msg)
    requires var s := Run(hashOf, EMPTY, es);
             var s1 := Step(hashOf, s, SendJoin(q, sent));
             q in s.procs && request in s1.msgs && request !in s.msgs && request.JoinRequest? &&
             Enabled(hashOf, s1, ReceiveJoin(p, request, now, list))
    ensures var s := Run(hashOf, EMPTY, es);
            var s2 := Step(hashOf, Step(hashOf, s, SendJoin(q, sent)), ReceiveJoin(p, request, now, list));
            EntryOf(s2, p, q) == Some(Member(q, Alive, s.procs[q].node.heartbeat, s.procs[q].node.incarnation, now,
                                             hashOf(q.address)))
  {
    OriginBound(hashOf, es);
  }

  /** An introducer answers a join request with its whole list, the newcomer included and live, and with its
      configuration; and the newcomer adopts that, and has a live entry for every live member it did not
      know. */
  lemma JoinHandshake(hashOf: string -> Hash, es: seq<Event>, p: NodeId, request: Msg, now: int, list: seq<Member>,
                      q: NodeId, later: int)
    requires var s := Run(hashOf, EMPTY, es);
             Enabled(hashOf, s, ReceiveJoin(p, request, now, list)) && q in s.procs && q == request.member.id != p
    ensures var s := Run(hashOf, EMPTY, es);
            var s1 := Step(hashOf, s, ReceiveJoin(p, request, now, list));
            var reply := JoinReply(p, list, s.procs[p].cfg);
            var s2 := Step(hashOf, s1, ReceiveJoinReply(q, reply, later));
            Knows(s1, p, q) && EntryAt(s1, p, q).status == Alive && EntryAt(s1, p, q) in list &&
            reply in s1.msgs && q in s2.procs && s2.procs[q].cfg == s.procs[p].cfg &&
            forall id | Live(s1, p, id) && id != q && !Knows(s1, q, id) :: Live(s2, q, id)
  {
    var s := Run(hashOf, EMPTY, es);
    var s1 := Step(hashOf, s, ReceiveJoin(p, request, now, list));
    OriginBound(hashOf, es);
    Admitted(hashOf, s, p, request, now, list, q);
    forall id | Live(s1, p, id) && id != q && !Knows(s1, q, id)
      ensures Live(Step(hashOf, s1, ReceiveJoinReply(q, JoinReply(p, list, s.procs[p].cfg), later)), q, id)
    {
      ListedIsFiled(hashOf, s1, p, q, list, s.procs[p].cfg, later, id);
    }
    ConfigAdopted(hashOf, s1, q, p, list, s.procs[p].cfg, later);
  }

  lemma Admitted(hashOf: string -> Hash, s: State, p: NodeId, request: Msg, now: int, list: seq<Member>, q: NodeId)
    requires Inv(hashOf, s) && Enabled(hashOf, s, ReceiveJoin(p, request, now, list))
    requires q in s.procs && q == request.member.id != p
    ensures var s1 := Step(hashOf, s, ReceiveJoin(p, request, now, list));
            Inv(hashOf, s1) && JoinReply(p, list, s.procs[p].cfg) in s1.msgs && q in s1.procs &&
            Knows(s1, p, q) && EntryAt(s1, p, q).status == Alive &&
            forall id | Knows(s1, p, id) :: EntryAt(s1, p, id) in list
  {
    AdmitRevives(hashOf, s, ReceiveJoin(p, request, now, list), p, q);
    StepInv(hashOf, s, ReceiveJoin(p, request, now, list));
  }

  lemma ConfigAdopted(hashOf: string -> Hash, s: State, q: NodeId, p: NodeId, list: seq<Member>, cfg: Config, now: int)
    requires q in s.procs && JoinReply(p, list, cfg) in s.msgs
    ensures var s' := Step(hashOf, s, ReceiveJoinReply(q, JoinReply(p, list, cfg), now));
            q in s'.procs && s'.procs[q].cfg == cfg
  {
  }

  lemma ListedIsFiled(hashOf: string -> Hash, s: State, p: NodeId, q: NodeId, list: seq<Member>, cfg: Config, now: int,
                      id: NodeId)
    requires Inv(hashOf, s) && JoinReply(p, list, cfg) in s.msgs && q in s.procs && id != q && !Knows(s, q, id)
    requires Live(s, p, id) && EntryAt(s, p, id) in list
    ensures Live(Step(hashOf, s, ReceiveJoinReply(q, JoinReply(p, list, cfg), now)), q, id)
  {
    var e := ReceiveJoinReply(q, JoinReply(p, list, cfg), now);
    var i :| 0 <= i < |list| && list[i] == EntryAt(s, p, id);
    assert BoundedView(hashOf, s.procs, s.procs[p].node.members);
    assert e.m.list[i].id == id && !e.m.list[i].IsFinal();
    ReceiptFiles(hashOf, s, e, q, id);
  }
}
