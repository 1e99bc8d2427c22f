/** What the origin bound buys: refutation works everywhere, and entries only move forward. */
module GossipProgress {
  import opened Members
  import opened Membership
  import opened MembershipMerge
  import opened MembershipRank
  import opened GossipSystem

  // ----- entries -----

  ghost predicate Knows(s: State, p: NodeId, id: NodeId) {
    p in s.procs && id in s.procs[p].node.members
  }

  ghost predicate RunsGossip(s: State, p: NodeId, mode: Suspicion) {
    p in s.procs && s.procs[p].cfg == Config(GossipProtocol, mode)
  }

  /** The rank of the mode does not fall from `l` to `m`. */
  ghost predicate NoLower(mode: Suspicion, l: Member, m: Member) {
    AtMost(RankIn(mode, Some(l)), RankIn(mode, Some(m)))
  }

  ghost function EntryAt(s: State, p: NodeId, id: NodeId): Member
    requires Knows(s, p, id)
  {
    s.procs[p].node.members[id]
  }

  // ----- refutation -----

  /** A member as it travels: receivers overwrite LastUpdated, and pings carry no heartbeat. */
  ghost predicate SentAs(m: Member, sent: Member) {
    sent == m.(lastUpdated := sent.lastUpdated, heartbeat := sent.heartbeat)
  }

  /** No entry about `id` with incarnation `bound` or more, in any list or message. */
  ghost predicate AllBelow(s: State, id: NodeId, bound: nat) {
    (forall q | q in s.procs && id in s.procs[q].node.members ::
       s.procs[q].node.members[id].incarnation < bound) &&
    forall m | m in s.msgs ::
      if m.JoinRequest? then m.member.id == id ==> m.member.incarnation < bound
      else forall x | x in m.list && x.id == id :: x.incarnation < bound
  }

  lemma BelowOwnCounter(hashOf: string -> Hash, s: State, id: NodeId)
    requires Inv(hashOf, s) && id in s.procs
    ensures AllBelow(s, id, s.procs[id].node.incarnation + 1)
  {
    forall q | q in s.procs && id in s.procs[q].node.members
      ensures s.procs[q].node.members[id].incarnation < s.procs[id].node.incarnation + 1
    {
      assert BoundedView(hashOf, s.procs, s.procs[q].node.members);
    }
    forall m | m in s.msgs
      ensures if m.JoinRequest? then m.member.id == id ==> m.member.incarnation < s.procs[id].node.incarnation + 1
              else forall x | x in m.list && x.id == id :: x.incarnation < s.procs[id].node.incarnation + 1
    {
      assert BoundedMsg(hashOf, s.procs, m);
    }
  }

  /** Any protocol with suspicion on: the receiver takes the renewed entry over its own. */
  ghost predicate Adopts(q: NodeId, local: Member, sent: Member) {
    forall protocol, own, t, sender ::
      MergeEntry(Config(protocol, WithSuspicion), t, q, own, Some(local), sent, sender) == Some(sent.(lastUpdated := t))
  }

  lemma HigherIncarnationAdopted(q: NodeId, local: Member, sent: Member)
    requires sent.id != q && sent.status == Alive && !local.IsFinal() && local.incarnation < sent.incarnation
    ensures Adopts(q, local, sent)
  {
  }

  lemma RefutationRenews(hashOf: string -> Hash, s: State, p: NodeId, m: Msg, now: int)
    requires Inv(hashOf, s) && p in s.procs && m in s.msgs && !m.JoinRequest?
    requires SelfRefuted(s.procs[p].cfg, s.procs[p].node.members, m.list, p)
    ensures var s' := Merge(s, p, m.list, m.sender, now);
            Knows(s', p, p) &&
            var renewed := EntryAt(s', p, p);
            renewed.status == Alive && renewed.id == p && renewed.lastUpdated == now &&
            renewed.incarnation == s'.procs[p].node.incarnation == s.procs[p].node.incarnation + 1
  {
    var n, cfg := s.procs[p].node, s.procs[p].cfg;
    assert BoundedMsg(hashOf, s.procs, m);
    assert BoundedView(hashOf, s.procs, n.members);
    MergePointwise(cfg, now, m.list, m.sender, n);
    var i :| 0 <= i < |m.list| && Refutes(p, n.members[p], m.list[i]);
    assert Lookup(Merge(s, p, m.list, m.sender, now).procs[p].node.members, m.list[i].id).Some?;
  }

  /** The server is live in its own list and is told that it is suspected, at its entry's incarnation or above. */
  ghost predicate HearsSuspicion(s: State, p: NodeId, list: seq<Member>) {
    Knows(s, p, p) && EntryAt(s, p, p).status == Alive &&
    exists i :: 0 <= i < |list| && list[i].id == p && list[i].status == Suspect &&
                list[i].incarnation >= EntryAt(s, p, p).incarnation
  }

  /** This is exactly when it refutes; otherwise its incarnation stays. */
  lemma SuspicionIsRefuted(s: State, p: NodeId, list: seq<Member>)
    requires p in s.procs
    ensures SelfRefuted(s.procs[p].cfg, s.procs[p].node.members, list, p) <==> HearsSuspicion(s, p, list)
  {
    if HearsSuspicion(s, p, list) {
      var i :| 0 <= i < |list| && list[i].id == p && list[i].status == Suspect &&
               list[i].incarnation >= EntryAt(s, p, p).incarnation;
      assert Refutes(p, s.procs[p].node.members[p], list[i]);
    }
    if SelfRefuted(s.procs[p].cfg, s.procs[p].node.members, list, p) {
      var i :| 0 <= i < |list| && Refutes(p, s.procs[p].node.members[p], list[i]);
      assert list[i].id == p;
    }
  }

  /** In any reachable state, a server that hears that it is suspected gets an incarnation above every entry
      about it anywhere, and any other server with suspicion on and a non-final entry will adopt it. */
  lemma RefutationWins(hashOf: string -> Hash, es: seq<Event>, p: NodeId, m: Msg, now: int)
    requires var s := Run(hashOf, EMPTY, es);
             p in s.procs && m in s.msgs && !m.JoinRequest? && HearsSuspicion(s, p, m.list)
    ensures var s, s' := Run(hashOf, EMPTY, es), Merge(Run(hashOf, EMPTY, es), p, m.list, m.sender, now);
            Knows(s', p, p) &&
            var renewed := EntryAt(s', p, p);
            renewed.status == Alive && renewed.id == p && renewed.lastUpdated == now &&
            renewed.incarnation == s'.procs[p].node.incarnation &&
            AllBelow(s, p, renewed.incarnation) &&
            forall q, sent | q != p && Knows(s', q, p) && !EntryAt(s', q, p).IsFinal() && SentAs(renewed, sent) ::
              Adopts(q, EntryAt(s', q, p), sent)
  {
    var s, s' := Run(hashOf, EMPTY, es), Merge(Run(hashOf, EMPTY, es), p, m.list, m.sender, now);
    OriginBound(hashOf, es);
    SuspicionIsRefuted(s, p, m.list);
    RefutationRenews(hashOf, s, p, m, now);
    BelowOwnCounter(hashOf, s, p);
    var renewed := EntryAt(s', p, p);
    forall q, sent | q != p && Knows(s', q, p) && !EntryAt(s', q, p).IsFinal() && SentAs(renewed, sent)
      ensures Adopts(q, EntryAt(s', q, p), sent)
    {
      HigherIncarnationAdopted(q, EntryAt(s', q, p), sent);
    }
  }

  // ----- progress -----

  /** `e` is the introducer `p` admitting a join request of `id`. */
  ghost predicate Admits(hashOf: string -> Hash, s: State, e: Event, p: NodeId, id: NodeId) {
    e.ReceiveJoin? && Enabled(hashOf, s, e) && e.p == p && e.m.member.id == id
  }

  /** p's entry about `id` after `s'` against the one before: final stays final, and if p now runs gossip
      the rank of its mode has not fallen. */
  ghost predicate Forward(s: State, s': State, p: NodeId, id: NodeId)
    requires Knows(s, p, id) && Knows(s', p, id)
  {
    (EntryAt(s, p, id).IsFinal() ==> EntryAt(s', p, id).IsFinal()) &&
    forall mode | RunsGossip(s', p, mode) :: NoLower(mode, EntryAt(s, p, id), EntryAt(s', p, id))
  }

  lemma Unmoved(s: State, s': State, p: NodeId, id: NodeId)
    requires Knows(s, p, id) && Knows(s', p, id) && EntryAt(s', p, id) == EntryAt(s, p, id)
    ensures Forward(s, s', p, id)
  {
    forall mode ensures NoLower(mode, EntryAt(s, p, id), EntryAt(s, p, id)) {
      var r := RankIn(mode, Some(EntryAt(s, p, id)));
      AtMostIsOrder(r, r, r);
    }
  }

  /** Only p's own entries and configuration matter. */
  lemma ForwardAlso(a: State, b: State, a': State, b': State, p: NodeId, id: NodeId)
    requires Knows(a, p, id) && Knows(b, p, id) && Forward(a, b, p, id) && Knows(a', p, id) && Knows(b', p, id)
    requires EntryAt(a', p, id) == EntryAt(a, p, id) && b'.procs[p] == b.procs[p]
    ensures Forward(a', b', p, id)
  {
    forall mode | RunsGossip(b', p, mode) ensures NoLower(mode, EntryAt(a', p, id), EntryAt(b', p, id)) {
      assert RunsGossip(b, p, mode);
    }
  }

  /** A server's entry about another one after a merge. */
  lemma MergeMovesForward(hashOf: string -> Hash, s: State, p: NodeId, list: seq<Member>, sender: NodeId, now: int,
                          id: NodeId)
    requires Inv(hashOf, s) && Knows(s, p, id) && id != p && BoundedList(hashOf, s.procs, list)
    ensures Knows(Merge(s, p, list, sender, now), p, id) && Forward(s, Merge(s, p, list, sender, now), p, id)
  {
    var n, cfg, s' := s.procs[p].node, s.procs[p].cfg, Merge(s, p, list, sender, now);
    assert BoundedView(hashOf, s.procs, n.members);
    MergePointwise(cfg, now, list, sender, n);
    if Mentions(list, id) {
      var i :| 0 <= i < |list| && list[i].id == id;
      assert Lookup(s'.procs[p].node.members, list[i].id) ==
             After(cfg, now, p, n.incarnation, Some(n.members[id]), list[i], sender);
      MentionedMovesForward(s, s', p, id, list[i], sender, now);
    } else {
      assert Lookup(s'.procs[p].node.members, id) == Some(n.members[id]);
      Unmoved(s, s', p, id);
    }
  }

  lemma MentionedMovesForward(s: State, s': State, p: NodeId, id: NodeId, m: Member, sender: NodeId, now: int)
    requires Knows(s, p, id) && Knows(s', p, id) && m.id == id != p && s'.procs[p].cfg == s.procs[p].cfg
    requires Some(EntryAt(s', p, id)) ==
             After(s.procs[p].cfg, now, p, s.procs[p].node.incarnation, Some(EntryAt(s, p, id)), m, sender)
    ensures Forward(s, s', p, id)
  {
    var local, own := EntryAt(s, p, id), s.procs[p].node.incarnation;
    if local.IsFinal() {
      FinalAbsorbs(s.procs[p].cfg, now, p, own, local, m, sender);
    }
    forall mode | RunsGossip(s', p, mode) ensures NoLower(mode, local, EntryAt(s', p, id)) {
      MergeIsMax(mode, now, p, own, Some(local), m, sender);
    }
  }

  lemma SweepMovesForward(s: State, p: NodeId, t: Timeouts, now: int, id: NodeId)
    requires Knows(s, p, id) && s.procs[p].node.id == p
    ensures var s' := SetNode(s, p, SweepNode(s.procs[p].cfg, t, now, s.procs[p].node));
            Knows(s', p, id) ==> Forward(s, s', p, id)
  {
    SweepRaises(s.procs[p].cfg, t, now, p.address, EntryAt(s, p, id));
  }

  lemma ForwardOnReceipt(hashOf: string -> Hash, s: State, p: NodeId, m: Msg, now: int, id: NodeId)
    requires Inv(hashOf, s) && Knows(s, p, id) && id != p && m in s.msgs && !m.JoinRequest?
    ensures Knows(Merge(s, p, m.list, m.sender, now), p, id) &&
            Forward(s, Merge(s, p, m.list, m.sender, now), p, id)
  {
    assert BoundedMsg(hashOf, s.procs, m);
    MergeMovesForward(hashOf, s, p, m.list, m.sender, now, id);
  }

  /** The events by which `p` takes in a list; otherwise only a sweep moves entries about others. */
  ghost predicate Receives(e: Event, p: NodeId) {
    (e.ReceiveGossip? || e.ReceivePing? || e.ReceiveAck? || e.ReceiveJoinReply?) && e.p == p
  }

  lemma ReceiptMovesForward(hashOf: string -> Hash, s: State, e: Event, p: NodeId, id: NodeId)
    requires Inv(hashOf, s) && Knows(s, p, id) && id != p && Enabled(hashOf, s, e) && Receives(e, p)
    ensures Knows(Step(hashOf, s, e), p, id) && Forward(s, Step(hashOf, s, e), p, id)
  {
    if e.ReceiveJoinReply? {
      JoinReplyMovesForward(hashOf, s, e, p, id);
    } else {
      ForwardOnReceipt(hashOf, s, p, e.m, e.now, id);
      ForwardAlso(s, Merge(s, p, e.m.list, e.m.sender, e.now), s, Step(hashOf, s, e), p, id);
    }
  }

  lemma JoinReplyMovesForward(hashOf: string -> Hash, s: State, e: Event, p: NodeId, id: NodeId)
    requires Inv(hashOf, s) && Knows(s, p, id) && id != p && Enabled(hashOf, s, e) && e.ReceiveJoinReply? && e.p == p
    ensures Knows(Step(hashOf, s, e), p, id) && Forward(s, Step(hashOf, s, e), p, id)
  {
    var s1 := SetConfig(s, p, e.m.cfg);
    InvSetConfig(hashOf, s, p, e.m.cfg);
    ForwardOnReceipt(hashOf, s1, p, e.m, e.now, id);
    ForwardAlso(s1, Step(hashOf, s, e), s, Step(hashOf, s, e), p, id);
  }

  /** Every other event leaves p's entries about others alone, unless p is the one that sweeps or admits. */
  lemma OthersUnmoved(hashOf: string -> Hash, s: State, e: Event, p: NodeId, id: NodeId)
    requires Inv(hashOf, s) && Knows(s, p, id) && id != p && Enabled(hashOf, s, e)
    requires !Receives(e, p) && !(e.Sweep? && e.p == p) && !Admits(hashOf, s, e, p, id)
    ensures Knows(Step(hashOf, s, e), p, id) && EntryAt(Step(hashOf, s, e), p, id) == EntryAt(s, p, id)
  {
  }

  /** One step of the whole system, while the entry stays in the list. */
  lemma EntryMovesForward(hashOf: string -> Hash, s: State, e: Event, p: NodeId, id: NodeId)
    requires Inv(hashOf, s) && Knows(s, p, id) && id != p && Knows(Step(hashOf, s, e), p, id)
    requires !Admits(hashOf, s, e, p, id)
    ensures Forward(s, Step(hashOf, s, e), p, id)
  {
    if !Enabled(hashOf, s, e) {
      Unmoved(s, s, p, id);
    } else if Receives(e, p) {
      ReceiptMovesForward(hashOf, s, e, p, id);
    } else if e.Sweep? && e.p == p {
      SweepMovesForward(s, p, e.t, e.now, id);
    } else {
      OthersUnmoved(hashOf, s, e, p, id);
      Unmoved(s, Step(hashOf, s, e), p, id);
    }
  }

  /** While the entry stays in the list, the one way back from a final state is the introducer filing a join
      request of that very node, which a delayed or repeated request also triggers. */
  lemma OnlyJoinRevives(hashOf: string -> Hash, es: seq<Event>, e: Event, p: NodeId, id: NodeId)
    requires var s := Run(hashOf, EMPTY, es);
             Knows(s, p, id) && id != p && EntryAt(s, p, id).IsFinal() && Knows(Step(hashOf, s, e), p, id)
    ensures var s := Run(hashOf, EMPTY, es);
            !EntryAt(Step(hashOf, s, e), p, id).IsFinal() <==> Admits(hashOf, s, e, p, id)
  {
    var s := Run(hashOf, EMPTY, es);
    OriginBound(hashOf, es);
    if Admits(hashOf, s, e, p, id) {
      AdmitRevives(hashOf, s, e, p, id);
    } else {
      EntryMovesForward(hashOf, s, e, p, id);
    }
  }

  lemma AdmitRevives(hashOf: string -> Hash, s: State, e: Event, p: NodeId, id: NodeId)
    requires Inv(hashOf, s) && Admits(hashOf, s, e, p, id)
    ensures Knows(Step(hashOf, s, e), p, id) && EntryAt(Step(hashOf, s, e), p, id).status == Alive
  {
    assert BoundedMsg(hashOf, s.procs, e.m);
  }

  // ----- an entry that is gone -----

  /** `p` takes in a list with a live entry about `id`. */
  ghost predicate Hears(hashOf: string -> Hash, s: State, e: Event, p: NodeId, id: NodeId) {
    Enabled(hashOf, s, e) && Receives(e, p) && exists i :: 0 <= i < |e.m.list| && e.m.list[i].id == id &&
                                                    !e.m.list[i].IsFinal()
  }

  /** `p` has a live entry about `id`. */
  ghost predicate Live(s: State, p: NodeId, id: NodeId) {
    Knows(s, p, id) && !EntryAt(s, p, id).IsFinal()
  }

  /** Merging a list into one without an entry about `id`. */
  lemma MergeFiles(hashOf: string -> Hash, s: State, p: NodeId, m: Msg, now: int, id: NodeId)
    requires Inv(hashOf, s) && p in s.procs && !Knows(s, p, id) && id != p && m in s.msgs && !m.JoinRequest?
    ensures Live(Merge(s, p, m.list, m.sender, now), p, id) <==>
            exists i :: 0 <= i < |m.list| && m.list[i].id == id && !m.list[i].IsFinal()
  {
    var n, cfg, s' := s.procs[p].node, s.procs[p].cfg, Merge(s, p, m.list, m.sender, now);
    assert BoundedMsg(hashOf, s.procs, m);
    assert BoundedView(hashOf, s.procs, n.members);
    MergePointwise(cfg, now, m.list, m.sender, n);
    if Mentions(m.list, id) {
      var i :| 0 <= i < |m.list| && m.list[i].id == id;
      assert Lookup(s'.procs[p].node.members, m.list[i].id) == Outcome(cfg, now, n.members, n, m.list[i], m.sender);
      OnlyMention(m.list, i);
    } else {
      assert Lookup(s'.procs[p].node.members, id) == None;
    }
  }

  lemma OnlyMention(list: seq<Member>, i: nat)
    requires UniqueIds(list) && i < |list|
    ensures forall k | 0 <= k < |list| && list[k].id == list[i].id :: k == i
  {
  }

  lemma ReceiptFiles(hashOf: string -> Hash, s: State, e: Event, p: NodeId, id: NodeId)
    requires Inv(hashOf, s) && p in s.procs && !Knows(s, p, id) && id != p && Enabled(hashOf, s, e) && Receives(e, p)
    ensures Live(Step(hashOf, s, e), p, id) <==> Hears(hashOf, s, e, p, id)
  {
    if e.ReceiveJoinReply? {
      InvSetConfig(hashOf, s, p, e.m.cfg);
      MergeFiles(hashOf, SetConfig(s, p, e.m.cfg), p, e.m, e.now, id);
    } else {
      MergeFiles(hashOf, s, p, e.m, e.now, id);
    }
  }

  lemma OthersFileNothing(hashOf: string -> Hash, s: State, e: Event, p: NodeId, id: NodeId)
    requires Inv(hashOf, s) && p in s.procs && !Knows(s, p, id) && id != p
    requires !(Enabled(hashOf, s, e) && Receives(e, p)) && !Admits(hashOf, s, e, p, id)
    ensures !Knows(Step(hashOf, s, e), p, id)
  {
  }

  /** A node that is not in the list, never was or was removed by a sweep, gets a live entry exactly when
      the step admits its join request or takes in a list with a live entry about it, however old. */
  lemma OnlyNewsFiles(hashOf: string -> Hash, es: seq<Event>, e: Event, p: NodeId, id: NodeId)
    requires var s := Run(hashOf, EMPTY, es); p in s.procs && !Knows(s, p, id) && id != p
    ensures var s := Run(hashOf, EMPTY, es);
            Live(Step(hashOf, s, e), p, id) <==> Admits(hashOf, s, e, p, id) || Hears(hashOf, s, e, p, id)
  {
    var s := Run(hashOf, EMPTY, es);
    OriginBound(hashOf, es);
    if Admits(hashOf, s, e, p, id) {
      AdmitRevives(hashOf, s, e, p, id);
    } else if Enabled(hashOf, s, e) && Receives(e, p) {
      ReceiptFiles(hashOf, s, e, p, id);
    } else {
      OthersFileNothing(hashOf, s, e, p, id);
    }
  }

  // ----- whole runs -----

  /** Along `fs` from `s`, p keeps an entry about `id` and admits no join request of `id`. */
  ghost predicate Keeps(hashOf: string -> Hash, s: State, fs: seq<Event>, p: NodeId, id: NodeId) {
    Knows(Run(hashOf, s, fs), p, id) &&
    (fs != [] ==>
       (Keeps(hashOf, s, fs[..|fs| - 1], p, id) &&
        !Admits(hashOf, Run(hashOf, s, fs[..|fs| - 1]), fs[|fs| - 1], p, id)))
  }

  /** After every event of `fs`, p runs gossip in this mode. */
  ghost predicate StaysGossip(hashOf: string -> Hash, s: State, fs: seq<Event>, p: NodeId, mode: Suspicion) {
    fs != [] ==>
      (RunsGossip(Run(hashOf, s, fs), p, mode) && StaysGossip(hashOf, s, fs[..|fs| - 1], p, mode))
  }

  /** Final stays final along `fs`, and while p runs gossip in one mode that mode's rank never falls. */
  ghost predicate ForwardAlong(hashOf: string -> Hash, s: State, fs: seq<Event>, p: NodeId, id: NodeId) {
    var s' := Run(hashOf, s, fs);
    Knows(s, p, id) && Knows(s', p, id) &&
    (EntryAt(s, p, id).IsFinal() ==> EntryAt(s', p, id).IsFinal()) &&
    forall mode | StaysGossip(hashOf, s, fs, p, mode) :: NoLower(mode, EntryAt(s, p, id), EntryAt(s', p, id))
  }

  /** Over every stretch of every run, across mode switches: while no join request of `id` is admitted
      at p and the entry stays, a final entry stays final; and while p runs gossip in one mode the rank
      of that mode never falls. */
  lemma RunsMoveForward(hashOf: string -> Hash, es: seq<Event>, fs: seq<Event>, p: NodeId, id: NodeId)
    requires id != p && Keeps(hashOf, Run(hashOf, EMPTY, es), fs, p, id)
    ensures ForwardAlong(hashOf, Run(hashOf, EMPTY, es), fs, p, id)
  {
    OriginBound(hashOf, es);
    StretchMovesForward(hashOf, Run(hashOf, EMPTY, es), fs, p, id);
  }

  lemma {:induction false} StretchMovesForward(hashOf: string -> Hash, s: State, fs: seq<Event>, p: NodeId, id: NodeId)
    requires Inv(hashOf, s) && id != p && Keeps(hashOf, s, fs, p, id)
    ensures Inv(hashOf, Run(hashOf, s, fs)) && ForwardAlong(hashOf, s, fs, p, id)
  {
    if fs == [] {
      Unmoved(s, s, p, id);
      forall mode ensures NoLower(mode, EntryAt(s, p, id), EntryAt(s, p, id)) {
        var r := RankIn(mode, Some(EntryAt(s, p, id)));
        AtMostIsOrder(r, r, r);
      }
    } else {
      var mid := Run(hashOf, s, fs[..|fs| - 1]);
      StretchMovesForward(hashOf, s, fs[..|fs| - 1], p, id);
      StepInv(hashOf, mid, fs[|fs| - 1]);
      EntryMovesForward(hashOf, mid, fs[|fs| - 1], p, id);
      ForwardNext(hashOf, s, fs, p, id);
    }
  }

  lemma ForwardNext(hashOf: string -> Hash, s: State, fs: seq<Event>, p: NodeId, id: NodeId)
    requires fs != [] && ForwardAlong(hashOf, s, fs[..|fs| - 1], p, id) && Knows(Run(hashOf, s, fs), p, id)
    requires Forward(Run(hashOf, s, fs[..|fs| - 1]), Run(hashOf, s, fs), p, id)
    ensures ForwardAlong(hashOf, s, fs, p, id)
  {
    var mid, s' := Run(hashOf, s, fs[..|fs| - 1]), Run(hashOf, s, fs);
    forall mode | StaysGossip(hashOf, s, fs, p, mode) ensures NoLower(mode, EntryAt(s, p, id), EntryAt(s', p, id)) {
      assert RunsGossip(s', p, mode) && StaysGossip(hashOf, s, fs[..|fs| - 1], p, mode);
      assert NoLower(mode, EntryAt(s, p, id), EntryAt(mid, p, id)) &&
             NoLower(mode, EntryAt(mid, p, id), EntryAt(s', p, id));
      AtMostIsOrder(RankIn(mode, Some(EntryAt(s, p, id))), RankIn(mode, Some(EntryAt(mid, p, id))),
                    RankIn(mode, Some(EntryAt(s', p, id))));
    }
  }
}
